/** Lower-case hexadecimal, as Go's `hex.EncodeToString`, with a decoder as its inverse. */
module Hex {
  import opened Wrappers
  import opened Bytes

  predicate IsHexDigit(c: char)
  {
    '0' <= c <= '9' || 'a' <= c <= 'f'
  }

  type Nibble = v: int | 0 <= v < 16

  function Digit(v: Nibble): (c: char)
    ensures IsHexDigit(c)
  {
    if v < 10 then ('0' as int + v) as char else ('a' as int + v - 10) as char
  }

  function DigitValue(c: char): (v: Option<Nibble>)
    ensures v.Some? <==> IsHexDigit(c)
    ensures v.Some? ==> Digit(v.value) == c
  {
    if '0' <= c <= '9' then Some(c as int - '0' as int)
    else if 'a' <= c <= 'f' then Some(c as int - 'a' as int + 10)
    else None
  }

  /** Two digits per byte, high nibble first. */
  function Encode(b: seq<byte>): (s: string)
    ensures |s| == 2 * |b|
    ensures forall i :: 0 <= i < |s| ==> IsHexDigit(s[i])
  {
    if b == [] then [] else [Digit(b[0] as int / 16), Digit(b[0] as int % 16)] + Encode(b[1..])
  }

  function Decode(s: string): (r: Option<seq<byte>>)
  {
    if |s| == 0 then Some([])
    else if |s| == 1 then None
    else
      var hi, lo := DigitValue(s[0]), DigitValue(s[1]);
      if hi.None? || lo.None? then None
      else
        match Decode(s[2..])
        case None => None
        case Some(rest) => Some([(hi.value * 16 + lo.value) as byte] + rest)
  }

  lemma SplitFirst(b: seq<byte>)
    requires b != []
    ensures b == [b[0]] + b[1..]
  {
  }

  /** Decoding an encoding gives the original bytes back. */
  lemma {:induction false} DecodeEncode(b: seq<byte>)
    ensures Decode(Encode(b)) == Some(b)
  {
    if b != [] {
      SplitFirst(b);
      var hi, lo := b[0] as int / 16, b[0] as int % 16;
      var s, t := Encode(b), Encode(b[1..]);
      assert s == [Digit(hi), Digit(lo)] + t;
      assert s[2..] == t;
      assert DigitValue(Digit(hi)) == Some(hi);
      assert DigitValue(Digit(lo)) == Some(lo);
      DecodeEncode(b[1..]);
      assert (hi * 16 + lo) as byte == b[0];
    }
  }

  /** Different byte strings have different encodings. */
  lemma EncodeInjective(a: seq<byte>, b: seq<byte>)
    requires Encode(a) == Encode(b)
    ensures a == b
  {
    DecodeEncode(a);
    DecodeEncode(b);
  }
}
