/** Base64 as the credential builders use it: the encoding of section 4 of
    RFC 4648 (alphabet A-Z a-z 0-9 + /, '=' padding to a multiple of four),
    with BASE64LEN(n) = 4 * ceil(n / 3). Decode is the inverse, so that the
    round trip states what the encoder promises. */
module Base64 {
  import opened CStrings

  /** BASE64LEN: four symbols for every started group of three bytes. */
  function Base64Len(n: nat): nat {
    4 * ((n + 2) / 3)
  }

  /** The symbol for a six-bit value. */
  function Symbol(v: int): (c: char)
    requires 0 <= v < 64
  {
    if v < 26 then ('A' as int + v) as char
    else if v < 52 then ('a' as int + v - 26) as char
    else if v < 62 then ('0' as int + v - 52) as char
    else if v == 62 then '+'
    else '/'
  }

  /** The six-bit value of a symbol, or -1 for a character outside the alphabet. */
  function ValueOf(c: char): (v: int)
    ensures -1 <= v < 64
  {
    if 'A' <= c <= 'Z' then c as int - 'A' as int
    else if 'a' <= c <= 'z' then c as int - 'a' as int + 26
    else if '0' <= c <= '9' then c as int - '0' as int + 52
    else if c == '+' then 62
    else if c == '/' then 63
    else -1
  }

  lemma ValueOfSymbol(v: int)
    requires 0 <= v < 64
    ensures ValueOf(Symbol(v)) == v
  {
  }

  /** Three bytes become four symbols, six bits each, most significant first. */
  function EncodeBlock(b0: Byte, b1: Byte, b2: Byte): (r: string)
    ensures |r| == 4
  {
    [Symbol(b0 / 4), Symbol(b0 % 4 * 16 + b1 / 16), Symbol(b1 % 16 * 4 + b2 / 64), Symbol(b2 % 64)]
  }

  /** The final group: one or two bytes, zero bits appended, padded with '='. */
  function EncodeTail(s: seq<Byte>): (r: string)
    requires 1 <= |s| <= 2
    ensures |r| == 4
  {
    if |s| == 1 then
      [Symbol(s[0] / 4), Symbol(s[0] % 4 * 16), '=', '=']
    else
      [Symbol(s[0] / 4), Symbol(s[0] % 4 * 16 + s[1] / 16), Symbol(s[1] % 16 * 4), '=']
  }

  /** The base64 encoding of a byte string. */
  function Encode(s: seq<Byte>): (r: string)
    ensures |r| == Base64Len(|s|)
    ensures NUL !in r
    decreases |s|
  {
    if |s| == 0 then ""
    else if |s| < 3 then EncodeTail(s)
    else EncodeBlock(s[0], s[1], s[2]) + Encode(s[3..])
  }

  /** The encoding of a C string's bytes, as `base64(str, strlen(str), out)` produces it. */
  function EncodeString(s: string): (r: CStr)
    ensures |r| == Base64Len(|s|)
  {
    Encode(Bytes(s))
  }

  function DecodeBlock(c: string): (r: Option<seq<Byte>>)
    requires |c| == 4
  {
    var v0, v1, v2, v3 := ValueOf(c[0]), ValueOf(c[1]), ValueOf(c[2]), ValueOf(c[3]);
    if v0 < 0 || v1 < 0 then None
    else if c[2] == '=' && c[3] == '=' then
      if v1 % 16 == 0 then Some([v0 * 4 + v1 / 16]) else None
    else if v2 < 0 then None
    else if c[3] == '=' then
      if v2 % 4 == 0 then Some([v0 * 4 + v1 / 16, v1 % 16 * 16 + v2 / 4]) else None
    else if v3 < 0 then None
    else Some([v0 * 4 + v1 / 16, v1 % 16 * 16 + v2 / 4, v2 % 4 * 64 + v3])
  }

  /** The inverse of Encode: None for a string that no byte string encodes to. */
  function Decode(c: string): (r: Option<seq<Byte>>)
    decreases |c|
  {
    if c == [] then Some([])
    else if |c| < 4 then None
    else match DecodeBlock(c[..4])
      case None => None
      case Some(head) =>
        if |head| < 3 && |c| > 4 then None
        else match Decode(c[4..])
          case None => None
          case Some(tail) => Some(head + tail)
  }

  /** Splitting a number into a high part and a low part below m, then joining them back. */
  lemma Join(hi: int, lo: int, m: int)
    requires 0 <= hi && 0 <= lo < m && (m == 4 || m == 16 || m == 64)
    ensures (hi * m + lo) / m == hi && (hi * m + lo) % m == lo
  {
  }

  lemma BlockRoundTrip(b0: Byte, b1: Byte, b2: Byte)
    ensures DecodeBlock(EncodeBlock(b0, b1, b2)) == Some([b0, b1, b2])
  {
    var v0, v1, v2, v3 := b0 / 4, b0 % 4 * 16 + b1 / 16, b1 % 16 * 4 + b2 / 64, b2 % 64;
    Join(b0 % 4, b1 / 16, 16);
    Join(b1 % 16, b2 / 64, 4);
    assert v0 * 4 + v1 / 16 == b0;
    assert v1 % 16 * 16 + v2 / 4 == b1;
    assert v2 % 4 * 64 + v3 == b2;
    ValueOfSymbol(v0);
    ValueOfSymbol(v1);
    ValueOfSymbol(v2);
    ValueOfSymbol(v3);
  }

  lemma TailRoundTrip(s: seq<Byte>)
    requires 1 <= |s| <= 2
    ensures DecodeBlock(EncodeTail(s)) == Some(s)
  {
    var v0 := s[0] / 4;
    ValueOfSymbol(v0);
    if |s| == 1 {
      var v1 := s[0] % 4 * 16;
      Join(s[0] % 4, 0, 16);
      assert v1 % 16 == 0 && v0 * 4 + v1 / 16 == s[0];
      ValueOfSymbol(v1);
      assert s == [s[0]];
    } else {
      var v1, v2 := s[0] % 4 * 16 + s[1] / 16, s[1] % 16 * 4;
      Join(s[0] % 4, s[1] / 16, 16);
      Join(s[1] % 16, 0, 4);
      assert v2 % 4 == 0 && v0 * 4 + v1 / 16 == s[0] && v1 % 16 * 16 + v2 / 4 == s[1];
      ValueOfSymbol(v1);
      ValueOfSymbol(v2);
      assert s == [s[0], s[1]];
    }
  }

  /** Decoding a full block followed by more symbols decodes the block, then the rest. */
  lemma DecodeFullBlock(b: string, rest: string, head: seq<Byte>)
    requires |b| == 4 && DecodeBlock(b) == Some(head) && |head| == 3
    ensures Decode(rest) == None ==> Decode(b + rest) == None
    ensures Decode(rest).Some? ==> Decode(b + rest) == Some(head + Decode(rest).value)
  {
    var c := b + rest;
    assert c[..4] == b && c[4..] == rest;
  }

  lemma Regroup<T>(s: seq<T>)
    requires |s| >= 3
    ensures [s[0], s[1], s[2]] + s[3..] == s
  {
  }

  /** Decoding an encoding gives back the bytes: the encoder loses nothing. */
  lemma {:induction false} RoundTrip(s: seq<Byte>)
    ensures Decode(Encode(s)) == Some(s)
    decreases |s|
  {
    if |s| == 0 {
    } else if |s| < 3 {
      var e := EncodeTail(s);
      TailRoundTrip(s);
      assert e[..4] == e && e[4..] == [];
      assert s + [] == s;
    } else {
      var block := EncodeBlock(s[0], s[1], s[2]);
      assert Encode(s) == block + Encode(s[3..]);
      BlockRoundTrip(s[0], s[1], s[2]);
      RoundTrip(s[3..]);
      DecodeFullBlock(block, Encode(s[3..]), [s[0], s[1], s[2]]);
      Regroup(s);
    }
  }

  /** Two byte strings with the same encoding are equal. */
  lemma EncodeInjective(s: seq<Byte>, t: seq<Byte>)
    requires Encode(s) == Encode(t)
    ensures s == t
  {
    RoundTrip(s);
    RoundTrip(t);
  }
}
