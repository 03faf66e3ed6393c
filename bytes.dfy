/**
 * Bytes and Go's string-to-byte conversion.
 *
 * A Go string holds UTF-8; here a string is a sequence of Unicode scalar
 * values and `[]byte(s)` is its UTF-8 encoding (section 3 of RFC 3629).
 */
module Bytes {

  newtype byte = x: int | 0 <= x < 256

  /** The UTF-8 encoding of one scalar value: one to four bytes. */
  function EncodeChar(c: char): (bs: seq<byte>)
    ensures 1 <= |bs| <= 4
    ensures |bs| == LeadLength(bs[0])
    ensures forall i :: 1 <= i < |bs| ==> 0x80 <= bs[i] < 0xC0
  {
    var n := c as int;
    if n < 0x80 then
      [n as byte]
    else if n < 0x800 then
      [(0xC0 + n / 0x40) as byte, (0x80 + n % 0x40) as byte]
    else if n < 0x1_0000 then
      [(0xE0 + n / 0x1000) as byte, (0x80 + n / 0x40 % 0x40) as byte, (0x80 + n % 0x40) as byte]
    else
      [(0xF0 + n / 0x4_0000) as byte, (0x80 + n / 0x1000 % 0x40) as byte,
       (0x80 + n / 0x40 % 0x40) as byte, (0x80 + n % 0x40) as byte]
  }

  /** The length that the lead byte of an encoded scalar value announces. */
  function LeadLength(b: byte): nat
  {
    if b < 0x80 then 1 else if b < 0xE0 then 2 else if b < 0xF0 then 3 else 4
  }

  /** The scalar value that a well-formed encoding of one or more bytes carries. */
  function CharValue(bs: seq<byte>): int
    requires 1 <= |bs| <= 4
  {
    if |bs| == 1 then bs[0] as int
    else if |bs| == 2 then (bs[0] as int - 0xC0) * 0x40 + (bs[1] as int - 0x80)
    else if |bs| == 3 then
      (bs[0] as int - 0xE0) * 0x1000 + (bs[1] as int - 0x80) * 0x40 + (bs[2] as int - 0x80)
    else
      (bs[0] as int - 0xF0) * 0x4_0000 + (bs[1] as int - 0x80) * 0x1000
        + (bs[2] as int - 0x80) * 0x40 + (bs[3] as int - 0x80)
  }

  /** `[]byte(s)`: the UTF-8 bytes of a string. */
  function OfString(s: string): (bs: seq<byte>)
    ensures |s| <= |bs| <= 4 * |s|
  {
    if s == [] then [] else EncodeChar(s[0]) + OfString(s[1..])
  }

  /** Decoding the bytes of one scalar value gives that value back. */
  lemma CharValueOfEncodeChar(c: char)
    ensures CharValue(EncodeChar(c)) == c as int
  {
    var n := c as int;
    if n < 0x80 {
    } else if n < 0x800 {
      assert n == n / 0x40 * 0x40 + n % 0x40;
    } else if n < 0x1_0000 {
      assert n / 0x40 == n / 0x1000 * 0x40 + n / 0x40 % 0x40;
      assert n == n / 0x40 * 0x40 + n % 0x40;
    } else {
      assert n / 0x40 == n / 0x1000 * 0x40 + n / 0x40 % 0x40;
      assert n / 0x1000 == n / 0x4_0000 * 0x40 + n / 0x1000 % 0x40;
      assert n == n / 0x40 * 0x40 + n % 0x40;
    }
  }

  /** No two scalar values share an encoding, and no encoding is a prefix of another. */
  lemma EncodeCharPrefixFree(c: char, d: char, s: seq<byte>, t: seq<byte>)
    requires EncodeChar(c) + s == EncodeChar(d) + t
    ensures c == d && s == t
  {
    var ec, ed := EncodeChar(c), EncodeChar(d);
    assert ec[0] == (ec + s)[0] == (ed + t)[0] == ed[0];
    assert |ec| == |ed|;
    assert ec == (ec + s)[..|ec|] == (ed + t)[..|ed|] == ed;
    CharValueOfEncodeChar(c);
    CharValueOfEncodeChar(d);
    assert s == (ec + s)[|ec|..] == (ed + t)[|ed|..] == t;
  }

  /** Converting a concatenation converts each part. */
  lemma {:induction false} OfStringConcat(s: string, t: string)
    ensures OfString(s + t) == OfString(s) + OfString(t)
  {
    if s == [] {
      assert s + t == t;
    } else {
      assert (s + t)[0] == s[0];
      assert (s + t)[1..] == s[1..] + t;
      OfStringConcat(s[1..], t);
    }
  }

  /** Different strings have different bytes. */
  lemma {:induction false} OfStringInjective(s: string, t: string)
    requires OfString(s) == OfString(t)
    ensures s == t
  {
    if s != [] && t != [] {
      EncodeCharPrefixFree(s[0], t[0], OfString(s[1..]), OfString(t[1..]));
      OfStringInjective(s[1..], t[1..]);
    }
  }
}
