/** What the codec promises of whole documents. */
module JsonTheorems {
  import opened Options
  import opened Utf8
  import opened Json
  import opened JsonProof

  /**
   Both printers are undone by the parser exactly when every float in the value is finite;
   a value with a non-finite float prints a document the parser refuses.
   */
  lemma RoundTrip<F(!new)>(io: FloatText<F>, v: Json<F>, pretty: bool)
    requires Faithful(io) && WellFormed(v)
    ensures Parse(io, Render(io, v, pretty, 0)) == if AllFinite(v) then Some(v) else None
  {
    hide Value, Render, Delimited;
    var b := Render(io, v, pretty, 0);
    assert b[0..|b|] == b;
    assert Delimited(b, |b|) by { AtEnd(b); }
    ValueRead(io, v, pretty, 0, b, 0);
  }

  lemma AtEnd(b: seq<byte>)
    ensures Delimited(b, |b|)
  {
  }

  /** The indented and the compact document say the same thing. */
  lemma LayoutsAgree<F(!new)>(io: FloatText<F>, v: Json<F>)
    requires Faithful(io) && WellFormed(v)
    ensures Parse(io, ToText(io, v)) == Parse(io, ToCompact(io, v))
  {
    hide Parse, Render;
    RoundTrip(io, v, true);
    RoundTrip(io, v, false);
  }

  // ---------------------------------------------------------------- more text after a parsed value

  lemma {:induction false} WhitespaceStable(b: seq<byte>, s: seq<byte>, pos: nat)
    requires pos <= |b| && SkipWhitespace(b, pos) < |b|
    ensures SkipWhitespace(b + s, pos) == SkipWhitespace(b, pos)
    decreases |b| - pos
  {
    if Whitespace(b[pos]) { WhitespaceStable(b, s, pos + 1); }
  }

  lemma {:induction false} DigitsStable(b: seq<byte>, s: seq<byte>, pos: nat)
    requires pos <= |b| && SkipDigits(b, pos) < |b|
    ensures SkipDigits(b + s, pos) == SkipDigits(b, pos)
    decreases |b| - pos
  {
    if Digit(b[pos]) { DigitsStable(b, s, pos + 1); }
  }

  lemma {:induction false} StringBodyStable(b: seq<byte>, s: seq<byte>, pos: nat, out: Text)
    requires pos <= |b| && StringBody(b, pos, out).Ok?
    ensures StringBody(b + s, pos, out) == StringBody(b, pos, out)
    decreases |b| - pos
  {
    hide Decode, SimpleEscape, ReadHex;
    if b[pos] == QUOTE {
    } else if b[pos] == BACKSLASH {
      if b[pos + 1] == LOWER_U {
        var c := UnicodeEscape(b, pos + 2);
        assert (b + s)[pos + 2..pos + 6] == b[pos + 2..pos + 6] && (b + s)[pos + 3..pos + 6] == b[pos + 3..pos + 6];
        StringBodyStable(b, s, pos + 6, out + [c.value]);
      } else {
        StringBodyStable(b, s, pos + 2, out + [SimpleEscape(b[pos + 1]).value]);
      }
    } else {
      var stop := if pos + Width(b[pos]) <= |b| then pos + Width(b[pos]) else |b|;
      assert stop == pos + Width(b[pos]);
      assert (b + s)[pos..stop] == b[pos..stop];
      StringBodyStable(b, s, stop, out + Decode(b[pos..stop]).value);
    }
  }

  lemma NumberStable<F>(io: FloatText<F>, b: seq<byte>, s: seq<byte>, pos: nat)
    requires pos < |b| && (b[pos] == MINUS || Digit(b[pos]))
    requires NumberToken(io, b, pos).Ok? && NumberToken(io, b, pos).next < |b|
    ensures NumberToken(io, b + s, pos) == NumberToken(io, b, pos)
  {
    hide ReadInt;
    var start := if b[pos] == MINUS then pos + 1 else pos;
    var whole := SkipDigits(b, start);
    var fraction := FractionEnd(b, whole);
    var stop := ExponentEnd(b, fraction);
    DigitsStable(b, s, start);
    assert FractionEnd(b + s, whole) == fraction by { if Peek(b, whole, DOT) { DigitsStable(b, s, whole + 1); } }
    assert ExponentEnd(b + s, fraction) == stop by { ExponentStable(b, s, fraction); }
    assert (b + s)[pos..stop] == b[pos..stop];
  }

  lemma ExponentStable(b: seq<byte>, s: seq<byte>, pos: nat)
    requires pos <= |b| && ExponentEnd(b, pos) < |b|
    ensures ExponentEnd(b + s, pos) == ExponentEnd(b, pos)
  {
    if Peek(b, pos, LOWER_E) || Peek(b, pos, UPPER_E) {
      DigitsStable(b, s, if Peek(b, pos + 1, PLUS) || Peek(b, pos + 1, MINUS) then pos + 2 else pos + 1);
    }
  }

  predicate Numeric<F>(v: Json<F>) {
    v.Int? || v.Number?
  }

  /** The parsed value's end is visible in the text: a number must be followed by something. */
  predicate Ends<F>(b: seq<byte>, r: Parsed<Json<F>>) {
    r.Ok? && (r.next < |b| || !Numeric(r.value))
  }

  /** A value whose end is visible is parsed the same way whatever text follows. */
  lemma {:induction false} ValueStable<F>(io: FloatText<F>, b: seq<byte>, s: seq<byte>, pos: nat)
    requires pos <= |b| && Ends(b, Value(io, b, pos))
    ensures Value(io, b + s, pos) == Value(io, b, pos)
    decreases |b| - pos, 2
  {
    hide Array, Object, NumberToken, StringBody;
    var p := SkipWhitespace(b, pos);
    WhitespaceStable(b, s, pos);
    assert (b + s)[p] == b[p];
    if b[p] == LEFT_BRACE {
      ObjectStable(io, b, s, p);
    } else if b[p] == LEFT_BRACKET {
      ArrayStable(io, b, s, p);
    } else if b[p] == QUOTE {
      StringBodyStable(b, s, p + 1, []);
    } else if b[p] == MINUS || Digit(b[p]) {
      NumberIsNumeric(io, b, p);
      NumberStable(io, b, s, p);
    } else {
      WordStable(b, s, p, TRUE_WORD);
      WordStable(b, s, p, FALSE_WORD);
      WordStable(b, s, p, NULL_WORD);
    }
  }

  lemma WordStable(b: seq<byte>, s: seq<byte>, pos: nat, word: seq<byte>)
    ensures StartsWith(b, pos, word) ==> StartsWith(b + s, pos, word)
  {
    if StartsWith(b, pos, word) { assert (b + s)[pos..pos + |word|] == b[pos..pos + |word|]; }
  }

  lemma NumberIsNumeric<F>(io: FloatText<F>, b: seq<byte>, pos: nat)
    requires pos < |b| && (b[pos] == MINUS || Digit(b[pos]))
    ensures NumberToken(io, b, pos).Ok? ==> Numeric(NumberToken(io, b, pos).value)
  {
  }

  lemma {:induction false} ArrayStable<F>(io: FloatText<F>, b: seq<byte>, s: seq<byte>, pos: nat)
    requires Peek(b, pos, LEFT_BRACKET) && Array(io, b, pos).Ok?
    ensures Peek(b + s, pos, LEFT_BRACKET) && Array(io, b + s, pos) == Array(io, b, pos)
    decreases |b| - pos, 1
  {
    hide Items;
    WhitespaceStable(b, s, pos + 1);
    var p := SkipWhitespace(b, pos + 1);
    if !Peek(b, p, RIGHT_BRACKET) { ItemsStable(io, b, s, p, []); }
  }

  lemma {:induction false} ItemsStable<F>(io: FloatText<F>, b: seq<byte>, s: seq<byte>, pos: nat, acc: seq<Json<F>>)
    requires pos <= |b| && Items(io, b, pos, acc).Ok?
    ensures Items(io, b + s, pos, acc) == Items(io, b, pos, acc)
    decreases |b| - pos, 3
  {
    hide Value;
    var v := Value(io, b, pos);
    var p := SkipWhitespace(b, v.next);
    WhitespaceStable(b, s, v.next);
    ValueStable(io, b, s, pos);
    if Peek(b, p, COMMA) { ItemsStable(io, b, s, p + 1, acc + [v.value]); }
  }

  lemma {:induction false} ObjectStable<F>(io: FloatText<F>, b: seq<byte>, s: seq<byte>, pos: nat)
    requires Peek(b, pos, LEFT_BRACE) && Object(io, b, pos).Ok?
    ensures Peek(b + s, pos, LEFT_BRACE) && Object(io, b + s, pos) == Object(io, b, pos)
    decreases |b| - pos, 1
  {
    hide Members;
    WhitespaceStable(b, s, pos + 1);
    var p := SkipWhitespace(b, pos + 1);
    if !Peek(b, p, RIGHT_BRACE) { MembersStable(io, b, s, p, []); }
  }

  lemma {:induction false} MembersStable<F>(io: FloatText<F>, b: seq<byte>, s: seq<byte>, pos: nat, acc: seq<Member<F>>)
    requires pos <= |b| && Members(io, b, pos, acc).Ok?
    ensures Members(io, b + s, pos, acc) == Members(io, b, pos, acc)
    decreases |b| - pos, 3
  {
    hide Value, Insert, StringBody;
    WhitespaceStable(b, s, pos);
    var start := SkipWhitespace(b, pos);
    StringBodyStable(b, s, start + 1, []);
    var key := String(b, start);
    WhitespaceStable(b, s, key.next);
    var colon := SkipWhitespace(b, key.next);
    var v := Value(io, b, colon + 1);
    var p := SkipWhitespace(b, v.next);
    WhitespaceStable(b, s, v.next);
    ValueStable(io, b, s, colon + 1);
    if Peek(b, p, COMMA) { MembersStable(io, b, s, p + 1, Insert(acc, Member(key.value, v.value))); }
  }

  /** A document holds a number exactly when it starts like one. */
  lemma NumericStart<F>(io: FloatText<F>, b: seq<byte>)
    requires Value(io, b, 0).Ok?
    ensures var p := SkipWhitespace(b, 0);
            p < |b| && (Numeric(Value(io, b, 0).value) <==> b[p] == MINUS || Digit(b[p]))
  {
    var p := SkipWhitespace(b, 0);
    if b[p] == MINUS || Digit(b[p]) { NumberIsNumeric(io, b, p); }
    if b[p] == LEFT_BRACKET { ArrayIsArray(io, b, SkipWhitespace(b, p + 1), []); }
    if b[p] == LEFT_BRACE { ObjectIsObject(io, b, SkipWhitespace(b, p + 1), []); }
  }

  lemma {:induction false} ArrayIsArray<F>(io: FloatText<F>, b: seq<byte>, pos: nat, acc: seq<Json<F>>)
    requires pos <= |b|
    ensures Items(io, b, pos, acc).Ok? ==> Items(io, b, pos, acc).value.Arr?
    decreases |b| - pos
  {
    hide Value;
    var v := Value(io, b, pos);
    if v.Ok? && Peek(b, SkipWhitespace(b, v.next), COMMA) {
      ArrayIsArray(io, b, SkipWhitespace(b, v.next) + 1, acc + [v.value]);
    }
  }

  lemma {:induction false} ObjectIsObject<F>(io: FloatText<F>, b: seq<byte>, pos: nat, acc: seq<Member<F>>)
    requires pos <= |b|
    ensures Members(io, b, pos, acc).Ok? ==> Members(io, b, pos, acc).value.Obj?
    decreases |b| - pos
  {
    hide Value, String, Insert;
    var key := String(b, SkipWhitespace(b, pos));
    if key.Ok? && Peek(b, SkipWhitespace(b, key.next), COLON) {
      var v := Value(io, b, SkipWhitespace(b, key.next) + 1);
      if v.Ok? && Peek(b, SkipWhitespace(b, v.next), COMMA) {
        ObjectIsObject(io, b, SkipWhitespace(b, v.next) + 1, Insert(acc, Member(key.value, v.value)));
      }
    }
  }

  /** What is asked of the library's float text can be met: whole numbers, displayed and read in decimal. */
  function WholeNumbers(): FloatText<nat> {
    FloatText(ShowNat, ReadWhole)
  }

  function ReadWhole(text: seq<byte>): Option<Float<nat>> {
    if |text| < 2 || text[|text| - 2..] != [DOT, ZERO] then None
    else
      var n := ReadDigits(text[..|text| - 2], 0);
      if n.None? then None else Some(Finite(n.value))
  }

  lemma FaithfulExists()
    ensures Faithful(WholeNumbers())
  {
    var io := WholeNumbers();
    forall x: nat
      ensures (exists n, w, f :: PlainDecimal(io.show(x), n, w, f)) && io.read(Pointed(io.show(x))) == Some(Finite(x))
    {
      NatRoundTrip(x);
      var text := ShowNat(x);
      assert AllDigits(text);
      assert PlainDecimal(text, false, text, []) by { assert text == [] + (text + []); }
      assert Pointed(text) == text + [DOT, ZERO];
      assert Pointed(text)[..|text|] == text;
    }
  }

  lemma {:induction false} OnlyWhitespaceSkipped(b: seq<byte>, pos: nat, i: nat)
    requires pos <= i < |b| && i < SkipWhitespace(b, pos)
    ensures Whitespace(b[i])
    decreases |b| - pos
  {
    if i > pos { OnlyWhitespaceSkipped(b, pos + 1, i); }
  }

  /** A document is accepted exactly when a value starts it and only whitespace follows the value. */
  lemma AcceptsWholeDocuments<F>(io: FloatText<F>, b: seq<byte>)
    ensures Parse(io, b).Some? <==>
            var r := Value(io, b, 0);
            r.Ok? && r.next <= |b| && forall i :: r.next <= i < |b| ==> Whitespace(b[i])
  {
    hide Value;
    var r := Value(io, b, 0);
    if r.Ok? {
      if SkipWhitespace(b, r.next) == |b| {
        forall i | r.next <= i < |b| ensures Whitespace(b[i]) { OnlyWhitespaceSkipped(b, r.next, i); }
      }
      if forall i :: r.next <= i < |b| ==> Whitespace(b[i]) { SkipsToEnd(b, r.next); }
    }
  }

  lemma {:induction false} SkipsToEnd(b: seq<byte>, pos: nat)
    requires pos <= |b| && forall i :: pos <= i < |b| ==> Whitespace(b[i])
    ensures SkipWhitespace(b, pos) == |b|
    decreases |b| - pos
  {
    if pos < |b| { SkipsToEnd(b, pos + 1); }
  }
}
