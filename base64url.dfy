/**
 * The "base64url" encoding of section 5 of RFC 4648, without padding
 * (Go's `base64.RawURLEncoding`), with a decoder as its inverse.
 */
module Base64Url {
  import opened Wrappers
  import opened Bytes

  /** The 64 characters of the URL- and filename-safe alphabet. */
  predicate IsUrlSafe(c: char)
  {
    'A' <= c <= 'Z' || 'a' <= c <= 'z' || '0' <= c <= '9' || c == '-' || c == '_'
  }

  type Sextet = v: int | 0 <= v < 64

  /** The character that encodes a 6-bit value (Table 2 of RFC 4648). */
  function Char(v: Sextet): (c: char)
    ensures IsUrlSafe(c)
  {
    if v < 26 then ('A' as int + v) as char
    else if v < 52 then ('a' as int + v - 26) as char
    else if v < 62 then ('0' as int + v - 52) as char
    else if v == 62 then '-'
    else '_'
  }

  /** The 6-bit value a character encodes, if it belongs to the alphabet. */
  function Value(c: char): (v: Option<Sextet>)
    ensures v.Some? <==> IsUrlSafe(c)
    ensures v.Some? ==> Char(v.value) == c
  {
    if 'A' <= c <= 'Z' then Some(c as int - 'A' as int)
    else if 'a' <= c <= 'z' then Some(c as int - 'a' as int + 26)
    else if '0' <= c <= '9' then Some(c as int - '0' as int + 52)
    else if c == '-' then Some(62)
    else if c == '_' then Some(63)
    else None
  }

  lemma ValueOfChar(v: Sextet)
    ensures Value(Char(v)) == Some(v)
  {
  }

  // The four sextets of a 24-bit group, most significant first.
  function Sextet0(x0: byte): Sextet { x0 as int / 4 }
  function Sextet1(x0: byte, x1: byte): Sextet { x0 as int % 4 * 16 + x1 as int / 16 }
  function Sextet2(x1: byte, x2: byte): Sextet { x1 as int % 16 * 4 + x2 as int / 64 }
  function Sextet3(x2: byte): Sextet { x2 as int % 64 }

  // The three bytes that a group of sextets carries.
  function Byte0(v0: Sextet, v1: Sextet): byte { (v0 * 4 + v1 / 16) as byte }
  function Byte1(v1: Sextet, v2: Sextet): byte { (v1 % 16 * 16 + v2 / 4) as byte }
  function Byte2(v2: Sextet, v3: Sextet): byte { (v2 % 4 * 64 + v3) as byte }

  /** Regrouping sextets into bytes undoes splitting bytes into sextets. */
  lemma RegroupBytes(x0: byte, x1: byte, x2: byte)
    ensures Byte0(Sextet0(x0), Sextet1(x0, x1)) == x0
    ensures Byte1(Sextet1(x0, x1), Sextet2(x1, x2)) == x1
    ensures Byte2(Sextet2(x1, x2), Sextet3(x2)) == x2
  {
    assert Sextet1(x0, x1) / 16 == x0 as int % 4;
    assert Sextet1(x0, x1) % 16 == x1 as int / 16;
    assert Sextet2(x1, x2) / 4 == x1 as int % 16;
    assert Sextet2(x1, x2) % 4 == x2 as int / 64;
  }

  /**
   * Every 3 bytes become 4 characters; a final 1 or 2 bytes become 2 or 3
   * characters, and no '=' padding is added.
   */
  function Encode(b: seq<byte>): (s: string)
    ensures |s| == (4 * |b| + 2) / 3
    ensures forall i :: 0 <= i < |s| ==> IsUrlSafe(s[i])
    decreases |b|
  {
    if |b| == 0 then
      []
    else if |b| == 1 then
      [Char(Sextet0(b[0])), Char(Sextet1(b[0], 0))]
    else if |b| == 2 then
      [Char(Sextet0(b[0])), Char(Sextet1(b[0], b[1])), Char(Sextet2(b[1], 0))]
    else
      [Char(Sextet0(b[0])), Char(Sextet1(b[0], b[1])), Char(Sextet2(b[1], b[2])), Char(Sextet3(b[2]))]
        + Encode(b[3..])
  }

  /** Reads groups of 4 characters back into 3 bytes; a final group of 2 or 3 gives 1 or 2 bytes. */
  function Decode(s: string): (r: Option<seq<byte>>)
    decreases |s|
  {
    if |s| == 0 then Some([])
    else if |s| == 1 then None
    else
      var v0, v1 := Value(s[0]), Value(s[1]);
      if v0.None? || v1.None? then None
      else if |s| == 2 then Some([Byte0(v0.value, v1.value)])
      else
        var v2 := Value(s[2]);
        if v2.None? then None
        else if |s| == 3 then Some([Byte0(v0.value, v1.value), Byte1(v1.value, v2.value)])
        else
          var v3 := Value(s[3]);
          if v3.None? then None
          else
            match Decode(s[4..])
            case None => None
            case Some(rest) =>
              Some([Byte0(v0.value, v1.value), Byte1(v1.value, v2.value), Byte2(v2.value, v3.value)] + rest)
  }

  /** A final single byte. */
  lemma DecodeEncodeOne(b: seq<byte>)
    requires |b| == 1
    ensures Decode(Encode(b)) == Some(b)
  {
    assert b == [b[0]];
    var s := Encode(b);
    var v0, v1 := Sextet0(b[0]), Sextet1(b[0], 0);
    assert s == [Char(v0), Char(v1)];
    ValueOfChar(v0);
    ValueOfChar(v1);
    assert Decode(s) == Some([Byte0(v0, v1)]);
    RegroupBytes(b[0], 0, 0);
  }

  /** A final pair of bytes. */
  lemma DecodeEncodeTwo(b: seq<byte>)
    requires |b| == 2
    ensures Decode(Encode(b)) == Some(b)
  {
    ValueOfChar(Sextet0(b[0]));
    ValueOfChar(Sextet1(b[0], b[1]));
    ValueOfChar(Sextet2(b[1], 0));
    RegroupBytes(b[0], b[1], 0);
    assert b == [b[0], b[1]];
  }

  lemma SplitGroup(b: seq<byte>)
    requires |b| >= 3
    ensures b == [b[0], b[1], b[2]] + b[3..]
  {
  }

  /** A full group of three bytes in front of the rest. */
  lemma DecodeEncodeGroup(b: seq<byte>)
    requires |b| >= 3
    requires Decode(Encode(b[3..])) == Some(b[3..])
    ensures Decode(Encode(b)) == Some(b)
  {
    SplitGroup(b);
    var s, t := Encode(b), Encode(b[3..]);
    var v0, v1, v2, v3 := Sextet0(b[0]), Sextet1(b[0], b[1]), Sextet2(b[1], b[2]), Sextet3(b[2]);
    assert s == [Char(v0), Char(v1), Char(v2), Char(v3)] + t;
    assert s[4..] == t;
    ValueOfChar(v0);
    ValueOfChar(v1);
    ValueOfChar(v2);
    ValueOfChar(v3);
    assert Decode(s) == Some([Byte0(v0, v1), Byte1(v1, v2), Byte2(v2, v3)] + b[3..]);
    RegroupBytes(b[0], b[1], b[2]);
  }

  /** Decoding an encoding gives the original bytes back. */
  lemma {:induction false} DecodeEncode(b: seq<byte>)
    ensures Decode(Encode(b)) == Some(b)
    decreases |b|
  {
    if |b| == 1 {
      DecodeEncodeOne(b);
    } else if |b| == 2 {
      DecodeEncodeTwo(b);
    } else if |b| >= 3 {
      DecodeEncode(b[3..]);
      DecodeEncodeGroup(b);
    }
  }

  /** Different byte strings have different encodings. */
  lemma EncodeInjective(a: seq<byte>, b: seq<byte>)
    requires Encode(a) == Encode(b)
    ensures a == b
  {
    DecodeEncode(a);
    DecodeEncode(b);
  }
}
