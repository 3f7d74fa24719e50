// `text.encode("utf-16-be").hex().upper()` and its decoding: UTF-16 big-endian code units
// written as a hexadecimal string (ISO 32000-1 section 7.3.4.3).
module Utf16 {
  import opened Wrappers
  import opened Text

  type Byte = b: int | 0 <= b < 256

  predicate IsSurrogate(c: int) {
    0xD800 <= c < 0xE000
  }

  // The codec rejects a text exactly when it holds a surrogate code point.
  predicate Encodable(t: Text) {
    forall i | 0 <= i < |t| :: !IsSurrogate(t[i])
  }

  function UnitBytes(u: int): seq<Byte>
    requires 0 <= u < 0x10000
  {
    [u / 256, u % 256]
  }

  function EncodePoint(c: CodePoint): seq<Byte>
    requires !IsSurrogate(c)
  {
    if c < 0x10000 then UnitBytes(c)
    else
      var v := c - 0x10000;
      UnitBytes(0xD800 + v / 0x400) + UnitBytes(0xDC00 + v % 0x400)
  }

  function Encode(t: Text): seq<Byte>
    requires Encodable(t)
  {
    if t == [] then [] else EncodePoint(t[0]) + Encode(t[1..])
  }

  function HexDigit(d: int): char
    requires 0 <= d < 16
  {
    if d < 10 then '0' + d as char else 'A' + (d - 10) as char
  }

  function Hex(bs: seq<Byte>): string {
    if bs == [] then "" else [HexDigit(bs[0] / 16), HexDigit(bs[0] % 16)] + Hex(bs[1..])
  }

  // ---- decoding ----

  function Nibble(c: char): Option<int> {
    if '0' <= c <= '9' then Some((c - '0') as int)
    else if 'A' <= c <= 'F' then Some((c - 'A') as int + 10)
    else if 'a' <= c <= 'f' then Some((c - 'a') as int + 10)
    else None
  }

  function Unhex(s: string): Option<seq<Byte>> {
    if s == [] then Some([])
    else if |s| == 1 then None
    else
      var hi :- Nibble(s[0]);
      var lo :- Nibble(s[1]);
      var rest :- Unhex(s[2..]);
      if 0 <= hi < 16 && 0 <= lo < 16 then Some([16 * hi + lo] + rest) else None
  }

  function Decode(bs: seq<Byte>): Option<Text> {
    if bs == [] then Some([])
    else if |bs| < 2 then None
    else
      var u: int := bs[0] as int * 256 + bs[1] as int;
      if !IsSurrogate(u) then
        var rest :- Decode(bs[2..]);
        Some([u] + rest)
      else if u < 0xDC00 && |bs| >= 4 && 0xDC <= bs[2] < 0xE0 then
        var low := bs[2] as int * 256 + bs[3] as int - 0xDC00;
        var rest :- Decode(bs[4..]);
        Some([0x10000 + 0x400 * (u - 0xD800) + low] + rest)
      else None
  }

  lemma {:induction false} UnhexHex(bs: seq<Byte>)
    ensures Unhex(Hex(bs)) == Some(bs)
  {
    if bs != [] {
      UnhexHex(bs[1..]);
      assert Hex(bs)[2..] == Hex(bs[1..]);
      assert [16 * (bs[0] / 16) + bs[0] % 16] + bs[1..] == bs;
    }
  }

  // Bytes are written high digit first, in the digits 0 to 9 and the capitals A to F.
  lemma {:induction false} HexDigits(bs: seq<Byte>)
    ensures |Hex(bs)| == 2 * |bs|
    ensures forall i | 0 <= i < |Hex(bs)| :: Hex(bs)[i] in "0123456789ABCDEF"
  {
    if bs != [] {
      HexDigits(bs[1..]);
      DigitTable(bs[0] / 16);
      DigitTable(bs[0] % 16);
      hide HexDigit;
    }
  }

  lemma DigitTable(d: int)
    requires 0 <= d < 16
    ensures HexDigit(d) == "0123456789ABCDEF"[d]
  {
  }

  lemma {:induction false} DecodeEncode(t: Text)
    requires Encodable(t)
    ensures Decode(Encode(t)) == Some(t)
  {
    if t != [] {
      DecodeEncode(t[1..]);
      var p := EncodePoint(t[0]);
      assert Encode(t)[|p|..] == Encode(t[1..]);
      assert Encode(t)[..|p|] == p;
      if t[0] >= 0x10000 {
        SurrogatePair(t[0], Encode(t));
      }
      assert [t[0]] + t[1..] == t;
    }
  }

  lemma SurrogatePair(c: CodePoint, bs: seq<Byte>)
    requires c >= 0x10000 && EncodePoint(c) <= bs
    ensures var u: int := bs[0] as int * 256 + bs[1] as int;
            0xD800 <= u < 0xDC00 && 0xDC <= bs[2] < 0xE0
            && 0x10000 + 0x400 * (u - 0xD800) + (bs[2] as int * 256 + bs[3] as int - 0xDC00) == c
  {
    var p := EncodePoint(c);
    assert bs[0] == p[0] && bs[1] == p[1] && bs[2] == p[2] && bs[3] == p[3];
  }
}
