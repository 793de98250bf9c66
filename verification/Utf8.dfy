/** UTF-8, as the string type the codec reads and writes is made of it. */
module Utf8 {
  import opened Options

  type byte = b: int | 0 <= b < 256

  /** A Unicode scalar value: a code point that is not a surrogate. */
  type scalar = c: int | 0 <= c < 0xD800 || 0xE000 <= c < 0x110000

  type Text = seq<scalar>

  predicate IsScalar(c: int) {
    0 <= c < 0xD800 || 0xE000 <= c < 0x110000
  }

  function EncodeChar(c: scalar): (r: seq<byte>)
    ensures 1 <= |r| <= 4
  {
    if c < 0x80 then [c]
    else if c < 0x800 then [0xC0 + c / 64, 0x80 + c % 64]
    else if c < 0x10000 then [0xE0 + c / 4096, 0x80 + c / 64 % 64, 0x80 + c % 64]
    else [0xF0 + c / 262144, 0x80 + c / 4096 % 64, 0x80 + c / 64 % 64, 0x80 + c % 64]
  }

  predicate Continuation(b: byte) {
    0x80 <= b < 0xC0
  }

  /** The value six-bit groups spell. */
  function Groups(a: int, b: int, c: int, d: int): int {
    a * 262144 + b * 4096 + c * 64 + d
  }

  /** The code point the first `width` bytes spell, shortest form only, or none. */
  function DecodeChar(b: seq<byte>, width: nat): Option<scalar>
    requires 1 <= width <= 4
  {
    if |b| < width then None
    else if width == 1 then (if b[0] < 0x80 then Some(b[0]) else None)
    else if exists i :: 1 <= i < width && !Continuation(b[i]) then None
    else
      var c := if width == 2 then Groups(0, 0, b[0] as int - 0xC0, b[1] as int - 0x80)
               else if width == 3 then Groups(0, b[0] as int - 0xE0, b[1] as int - 0x80, b[2] as int - 0x80)
               else Groups(b[0] as int - 0xF0, b[1] as int - 0x80, b[2] as int - 0x80, b[3] as int - 0x80);
      if IsScalar(c) && |EncodeChar(c)| == width then Some(c) else None
  }

  /** The number of bytes the lead byte announces, as the codec reads it. */
  function Width(b: byte): (w: nat)
    ensures 1 <= w <= 4
  {
    if b < 0x80 then 1
    else if 0xC0 <= b < 0xE0 then 2
    else if 0xE0 <= b < 0xF0 then 3
    else 4
  }

  /** `str::from_utf8`: the text the bytes spell, when they are valid UTF-8. */
  function Decode(b: seq<byte>): Option<Text> {
    if b == [] then Some([])
    else
      var head := DecodeChar(b, Width(b[0]));
      if head.None? then None
      else
        var tail := Decode(b[Width(b[0])..]);
        if tail.None? then None else Some([head.value] + tail.value)
  }

  lemma SixBitGroups(c: int)
    requires 0 <= c < 0x110000
    ensures Groups(c / 262144, c / 4096 % 64, c / 64 % 64, c % 64) == c
    ensures c < 0x10000 ==> Groups(0, c / 4096, c / 64 % 64, c % 64) == c
    ensures c < 0x800 ==> Groups(0, 0, c / 64, c % 64) == c
  {
    assert c / 64 / 64 == c / 4096 && c / 4096 / 64 == c / 262144;
  }

  /** A character's encoding has the width its lead byte announces and decodes to the character. */
  lemma CharRoundTrip(c: scalar)
    ensures |EncodeChar(c)| == Width(EncodeChar(c)[0])
    ensures DecodeChar(EncodeChar(c), |EncodeChar(c)|) == Some(c)
  {
    if c >= 0x10000 { FourBytes(c); } else { ThreeBytes(c); }
    hide DecodeChar, EncodeChar;
  }

  lemma ThreeBytes(c: scalar)
    requires c < 0x10000
    ensures |EncodeChar(c)| == Width(EncodeChar(c)[0])
    ensures DecodeChar(EncodeChar(c), |EncodeChar(c)|) == Some(c)
  {
    SixBitGroups(c);
    hide Groups;
  }

  lemma FourBytes(c: scalar)
    requires c >= 0x10000
    ensures |EncodeChar(c)| == Width(EncodeChar(c)[0])
    ensures DecodeChar(EncodeChar(c), |EncodeChar(c)|) == Some(c)
  {
    SixBitGroups(c);
    hide Groups;
  }

  lemma DecodeOne(c: scalar)
    ensures Decode(EncodeChar(c)) == Some([c])
  {
    CharRoundTrip(c);
    var b := EncodeChar(c);
    assert Decode(b[|b|..]) == Some([]);
    assert DecodeChar(b, Width(b[0])) == Some(c);
    var tail: Text := [];
    assert [c] + tail == [c];
  }

  // ---------------------------------------------------------------- exactly the encodings

  function Encode(text: Text): seq<byte> {
    if text == [] then [] else EncodeChar(text[0]) + Encode(text[1..])
  }

  /** The bytes a character is decoded from are its encoding. */
  lemma DecodedFrom(b: seq<byte>, width: nat)
    requires 1 <= width <= 4 && DecodeChar(b, width).Some?
    ensures width <= |b| && b[..width] == EncodeChar(DecodeChar(b, width).value)
  {
    var c := DecodeChar(b, width).value;
    if width > 1 {
      forall i | 1 <= i < width ensures Continuation(b[i]) {}
      if width == 2 { assert c / 64 == b[0] - 0xC0 && c % 64 == b[1] - 0x80; }
      else if width == 3 { ThreeGroups(b[0] - 0xE0, b[1] - 0x80, b[2] - 0x80); }
      else { FourGroups(b[0] - 0xF0, b[1] - 0x80, b[2] - 0x80, b[3] - 0x80); }
    }
  }

  lemma ThreeGroups(x: int, y: int, z: int)
    requires 0 <= y < 64 && 0 <= z < 64
    ensures var c := Groups(0, x, y, z); c / 4096 == x && c / 64 % 64 == y && c % 64 == z
  {
    var c := Groups(0, x, y, z);
    assert c == (x * 64 + y) * 64 + z;
    assert c / 64 == x * 64 + y;
  }

  lemma FourGroups(w: int, x: int, y: int, z: int)
    requires 0 <= x < 64 && 0 <= y < 64 && 0 <= z < 64
    ensures var c := Groups(w, x, y, z); c / 262144 == w && c / 4096 % 64 == x && c / 64 % 64 == y && c % 64 == z
  {
    var c := Groups(w, x, y, z);
    var (p, q) := ((w * 64 + x) * 64 + y, w * 64 + x);
    assert c == p * 64 + z && c / 64 == p;
    assert p / 64 == q && c / 4096 == q;
    assert q / 64 == w && c / 262144 == w;
  }

  lemma HeadDecodes(c: scalar, rest: seq<byte>)
    ensures var b := EncodeChar(c) + rest;
            b != [] && Width(b[0]) == |EncodeChar(c)| && DecodeChar(b, Width(b[0])) == Some(c)
  {
    CharRoundTrip(c);
    var (e, b) := (EncodeChar(c), EncodeChar(c) + rest);
    assert forall i :: 0 <= i < |e| ==> b[i] == e[i];
    hide Groups;
  }

  lemma {:induction false} EncodedDecodes(text: Text)
    ensures Decode(Encode(text)) == Some(text)
  {
    hide DecodeChar, EncodeChar;
    if text != [] {
      var (b, rest) := (Encode(text), Encode(text[1..]));
      HeadDecodes(text[0], rest);
      assert b[|EncodeChar(text[0])|..] == rest;
      EncodedDecodes(text[1..]);
      assert [text[0]] + text[1..] == text;
    }
  }

  lemma {:induction false} DecodedEncodes(b: seq<byte>)
    requires Decode(b).Some?
    ensures Encode(Decode(b).value) == b
  {
    hide DecodeChar, EncodeChar;
    if b != [] {
      var (w, text) := (Width(b[0]), Decode(b).value);
      DecodedFrom(b, w);
      DecodedEncodes(b[w..]);
      assert text[1..] == Decode(b[w..]).value;
      assert b == b[..w] + b[w..];
    }
  }

  /** Bytes are accepted exactly when they are the encoding of a text, and then they mean that text. */
  lemma DecodeExactly(b: seq<byte>, text: Text)
    ensures Decode(b) == Some(text) <==> b == Encode(text)
  {
    hide Decode, Encode;
    EncodedDecodes(text);
    if Decode(b).Some? { DecodedEncodes(b); }
  }
}
