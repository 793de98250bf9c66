/** Where the parser and section 2, 6 or 7 of RFC 8259 part ways. */
module JsonLenient {
  import opened Options
  import opened Utf8
  import opened Json
  import opened JsonTheorems
  import opened JsonPrefixes

  // ---------------------------------------------------------------- \u escapes

  predicate Hex(b: byte) {
    HexValue(b).Some?
  }

  function Nibble(b: byte): int {
    if HexValue(b).Some? then HexValue(b).value else 0
  }

  /** Four hexadecimal digits, or a plus sign and three. */
  predicate FourHex(b: seq<byte>, pos: nat) {
    && pos + 4 <= |b|
    && (Hex(b[pos]) || b[pos] == PLUS) && Hex(b[pos + 1]) && Hex(b[pos + 2]) && Hex(b[pos + 3])
  }

  /** The number they spell. */
  function CodeAt(b: seq<byte>, pos: nat): int
    requires FourHex(b, pos)
  {
    4096 * Nibble(b[pos]) + 256 * Nibble(b[pos + 1]) + 16 * Nibble(b[pos + 2]) + Nibble(b[pos + 3])
  }

  predicate Surrogate(code: int) {
    0xD800 <= code <= 0xDFFF
  }

  lemma ReadThree(digits: seq<byte>, acc: nat)
    requires |digits| == 3
    ensures ReadHex(digits, acc) ==
            if Hex(digits[0]) && Hex(digits[1]) && Hex(digits[2])
            then Some(4096 * acc + 256 * Nibble(digits[0]) + 16 * Nibble(digits[1]) + Nibble(digits[2])) else None
  {
    var (one, two) := (digits[1..], digits[1..][1..]);
    assert one[0] == digits[1] && two[0] == digits[2] && two[1..] == [];
    if Hex(digits[0]) {
      var a := 16 * acc + Nibble(digits[0]);
      assert ReadHex(digits, acc) == ReadHex(one, a);
      if Hex(digits[1]) {
        assert ReadHex(one, a) == ReadHex(two, 16 * a + Nibble(digits[1]));
      }
    }
  }

  /**
   A `\u` escape is accepted exactly when four hexadecimal digits, or a plus sign and three, spell a
   code that is not a surrogate; and then it stands for that code.
   */
  lemma UnicodeEscapeExactly(b: seq<byte>, pos: nat)
    ensures UnicodeEscape(b, pos).Some? <==> FourHex(b, pos) && !Surrogate(CodeAt(b, pos))
    ensures UnicodeEscape(b, pos).Some? ==> UnicodeEscape(b, pos).value == CodeAt(b, pos)
  {
    if pos + 4 <= |b| { DigitsSpell(b, pos); }
    hide ReadHex, HexValue;
  }

  lemma DigitsSpell(b: seq<byte>, pos: nat)
    requires pos + 4 <= |b|
    ensures (if b[pos] == PLUS then ReadHex(b[pos + 1..pos + 4], 0) else ReadHex(b[pos..pos + 4], 0)) ==
            if FourHex(b, pos) then Some(CodeAt(b, pos)) else None
  {
    var (four, three) := (b[pos..pos + 4], b[pos + 1..pos + 4]);
    assert three[0] == b[pos + 1] && three[1] == b[pos + 2] && three[2] == b[pos + 3];
    assert four[1..] == three && four[0] == b[pos];
    if b[pos] == PLUS {
      ReadThree(three, 0);
    } else if Hex(b[pos]) {
      ReadThree(three, Nibble(b[pos]));
      assert ReadHex(four, 0) == ReadHex(three, Nibble(b[pos]));
    } else {
      assert ReadHex(four, 0) == None;
    }
    hide ReadHex, HexValue;
  }

  /** The document of one escape: the character it spells, or, for a surrogate, a refusal. */
  lemma EscapeDocument<F>(io: FloatText<F>, digits: seq<byte>)
    requires |digits| == 4 && FourHex(digits, 0)
    ensures var b := [QUOTE, BACKSLASH, LOWER_U] + digits + [QUOTE];
            if Surrogate(CodeAt(digits, 0)) then Parse(io, b).None?
            else UnicodeEscape(digits, 0).Some? && Parse(io, b) == Some(Str([UnicodeEscape(digits, 0).value]))
  {
    var b := [QUOTE, BACKSLASH, LOWER_U] + digits + [QUOTE];
    assert b[3] == digits[0] && b[4] == digits[1] && b[5] == digits[2] && b[6] == digits[3] && b[7] == QUOTE;
    UnicodeEscapeExactly(b, 3);
    UnicodeEscapeExactly(digits, 0);
    assert CodeAt(b, 3) == CodeAt(digits, 0);
    hide UnicodeEscape, Decode, CodeAt;
    assert SkipWhitespace(b, 0) == 0 && SkipWhitespace(b, |b|) == |b|;
    if UnicodeEscape(b, 3).Some? {
      var c := UnicodeEscape(b, 3).value;
      assert [] + [c] == [c];
      assert StringBody(b, 7, [c]) == Ok([c], 8);
    }
    assert String(b, 0) == StringBody(b, 1, []);
  }

  // ---------------------------------------------------------------- texts that RFC 8259 refuses

  /** A hexadecimal digit is one of twenty-two bytes, in either case, and stands for its place. */
  lemma HexExactly(b: byte, d: int)
    ensures HexValue(b) == Some(d) <==>
            0 <= d < 16 && (b == "0123456789abcdef"[d] as int || b == "0123456789ABCDEF"[d] as int)
  {
    assert 0 <= d < 16 ==> "0123456789abcdef"[d] as int == if d < 10 then 48 + d else 87 + d;
    assert 0 <= d < 16 ==> "0123456789ABCDEF"[d] as int == if d < 10 then 48 + d else 55 + d;
  }

  /** The document of one short escape: eight letters stand for a character, and every other is refused. */
  lemma ShortEscapeDocument<F>(io: FloatText<F>, e: byte)
    requires e != LOWER_U
    ensures var b := [QUOTE, BACKSLASH, e, QUOTE];
            Parse(io, b) ==
            if e == QUOTE || e == BACKSLASH || e == SLASH then Some(Str([e]))
            else if e == 'b' as int then Some(Str([8]))
            else if e == 't' as int then Some(Str([9]))
            else if e == 'n' as int then Some(Str([10]))
            else if e == 'f' as int then Some(Str([12]))
            else if e == 'r' as int then Some(Str([13]))
            else None
  {
    var b := [QUOTE, BACKSLASH, e, QUOTE];
    var c := SimpleEscape(e);
    if c.Some? {
      assert StringBody(b, 3, [c.value]) == Ok([c.value], 4);
      assert StringBody(b, 1, []) == Ok([] + [c.value], 4);
      assert [] + [c.value] == [c.value];
    } else {
      assert StringBody(b, 1, []) == Err;
    }
    hide StringBody;
    assert Value(io, b, 0) == if c.Some? then Ok(Str([c.value]), 4) else Err;
  }

  /** White space is the RFC's, and form feed. */
  lemma WhitespaceExactly(b: byte)
    ensures Whitespace(b) <==> b in {SPACE, TAB, LF, CR} || b == FF
  {}

  /** A document may begin with a form feed. */
  lemma FormFeedAccepted<F>(io: FloatText<F>)
    ensures Parse(io, [FF] + NULL_WORD) == Some(Null)
  {
    var b := [FF] + NULL_WORD;
    assert b == [12, 110, 117, 108, 108];
    assert SkipWhitespace(b, 1) == 1 && SkipWhitespace(b, 0) == 1;
    assert b[1..5] == NULL_WORD;
    assert SkipWhitespace(b, 5) == 5;
  }

  /** A control character may stand in a string as it is. */
  lemma ControlCharacterAccepted<F>(io: FloatText<F>, c: byte)
    requires c < 32
    ensures Parse(io, [QUOTE, c, QUOTE]) == Some(Str([c]))
  {
    var b := [QUOTE, c, QUOTE];
    DecodeOne(c);
    assert EncodeChar(c) == [c];
    assert b[1..2] == [c];
    hide Decode;
    assert StringBody(b, 2, [c]) == Ok([c], 3);
    assert [] + [c] == [c];
    assert StringBody(b, 1, []) == StringBody(b, 2, [c]);
    assert SkipWhitespace(b, 0) == 0 && SkipWhitespace(b, 3) == 3;
  }

  /** A point without digits after it goes to the float library, which decides. */
  lemma BarePointIsPassedOn<F>(io: FloatText<F>)
    ensures var text := [49, DOT];
            Parse(io, text) == if io.read(text).Some? then Some(Number(io.read(text).value)) else None
  {
    var b := [49, DOT];
    assert SkipDigits(b, 2) == 2 && SkipDigits(b, 1) == 1 && SkipDigits(b, 0) == 1;
    assert FractionEnd(b, 1) == 2 && ExponentEnd(b, 2) == 2;
    assert b[0..2] == b;
    assert SkipWhitespace(b, 0) == 0 && SkipWhitespace(b, 2) == 2;
  }
}
