/** Which prefixes of an accepted document are accepted. */
module JsonPrefixes {
  import opened Options
  import opened Utf8
  import opened Json
  import opened JsonProof
  import opened JsonTheorems

  // ---------------------------------------------------------------- less text after a parsed value

  lemma {:induction false} WhitespaceCut(b: seq<byte>, s: seq<byte>, pos: nat)
    requires pos <= |b| && SkipWhitespace(b + s, pos) < |b|
    ensures SkipWhitespace(b, pos) == SkipWhitespace(b + s, pos)
    decreases |b| - pos
  {
    if pos < |b| && Whitespace(b[pos]) { WhitespaceCut(b, s, pos + 1); }
  }

  lemma {:induction false} DigitsCut(b: seq<byte>, s: seq<byte>, pos: nat)
    requires pos <= |b| && SkipDigits(b + s, pos) < |b|
    ensures SkipDigits(b, pos) == SkipDigits(b + s, pos)
    decreases |b| - pos
  {
    if pos < |b| && Digit(b[pos]) { DigitsCut(b, s, pos + 1); }
  }

  lemma {:induction false} StringBodyCut(b: seq<byte>, s: seq<byte>, pos: nat, out: Text)
    requires pos <= |b| && StringBody(b + s, pos, out).Ok? && StringBody(b + s, pos, out).next <= |b|
    ensures StringBody(b, pos, out) == StringBody(b + s, pos, out)
    decreases |b| - pos
  {
    hide Decode, SimpleEscape, ReadHex;
    var all := b + s;
    assert all[pos] == b[pos];
    if b[pos] == QUOTE {
    } else if b[pos] == BACKSLASH {
      assert all[pos + 1] == b[pos + 1];
      if b[pos + 1] == LOWER_U {
        assert all[pos + 2..pos + 6] == b[pos + 2..pos + 6] && all[pos + 3..pos + 6] == b[pos + 3..pos + 6];
        StringBodyCut(b, s, pos + 6, out + [UnicodeEscape(all, pos + 2).value]);
      } else {
        StringBodyCut(b, s, pos + 2, out + [SimpleEscape(b[pos + 1]).value]);
      }
    } else {
      var stop := if pos + Width(b[pos]) <= |all| then pos + Width(b[pos]) else |all|;
      assert stop < |b|;
      assert all[pos..stop] == b[pos..stop];
      StringBodyCut(b, s, stop, out + Decode(b[pos..stop]).value);
    }
  }

  lemma ExponentCut(b: seq<byte>, s: seq<byte>, pos: nat)
    requires pos <= |b| && ExponentEnd(b + s, pos) < |b|
    ensures ExponentEnd(b, pos) == ExponentEnd(b + s, pos)
  {
    var all := b + s;
    if Peek(all, pos, LOWER_E) || Peek(all, pos, UPPER_E) {
      DigitsCut(b, s, if Peek(all, pos + 1, PLUS) || Peek(all, pos + 1, MINUS) then pos + 2 else pos + 1);
    }
  }

  lemma NumberCut<F>(io: FloatText<F>, b: seq<byte>, s: seq<byte>, pos: nat)
    requires pos < |b| && (b[pos] == MINUS || Digit(b[pos]))
    requires NumberToken(io, b + s, pos).Ok? && NumberToken(io, b + s, pos).next < |b|
    ensures NumberToken(io, b, pos) == NumberToken(io, b + s, pos)
  {
    hide ReadInt;
    var all := b + s;
    var start := if b[pos] == MINUS then pos + 1 else pos;
    var whole := SkipDigits(all, start);
    var fraction := FractionEnd(all, whole);
    var stop := ExponentEnd(all, fraction);
    assert whole <= fraction <= stop < |b|;
    DigitsCut(b, s, start);
    assert FractionEnd(b, whole) == fraction by { if Peek(all, whole, DOT) { DigitsCut(b, s, whole + 1); } }
    ExponentCut(b, s, fraction);
    assert all[pos..stop] == b[pos..stop];
  }

  /** The value ends where `b` still shows its end. */
  predicate Inside<F>(b: seq<byte>, r: Parsed<Json<F>>) {
    r.Ok? && (r.next < |b| || (r.next == |b| && !Numeric(r.value)))
  }

  /** A value is parsed the same way when the text after its end is cut off. */
  lemma {:induction false} ValueCut<F>(io: FloatText<F>, b: seq<byte>, s: seq<byte>, pos: nat)
    requires pos <= |b| && Inside(b, Value(io, b + s, pos))
    ensures Value(io, b, pos) == Value(io, b + s, pos)
    decreases |b| - pos, 2
  {
    hide Array, Object, NumberToken, StringBody;
    var all := b + s;
    var p := SkipWhitespace(all, pos);
    assert p < Value(io, all, pos).next;
    WhitespaceCut(b, s, pos);
    assert all[p] == b[p];
    if b[p] == LEFT_BRACE {
      ObjectCut(io, b, s, p);
    } else if b[p] == LEFT_BRACKET {
      ArrayCut(io, b, s, p);
    } else if b[p] == QUOTE {
      StringBodyCut(b, s, p + 1, []);
    } else if b[p] == MINUS || Digit(b[p]) {
      NumberIsNumeric(io, all, p);
      NumberCut(io, b, s, p);
    } else {
      WordCut(b, s, p, TRUE_WORD);
      WordCut(b, s, p, FALSE_WORD);
      WordCut(b, s, p, NULL_WORD);
    }
  }

  lemma WordCut(b: seq<byte>, s: seq<byte>, pos: nat, word: seq<byte>)
    ensures StartsWith(b + s, pos, word) && pos + |word| <= |b| ==> StartsWith(b, pos, word)
  {
    if StartsWith(b + s, pos, word) && pos + |word| <= |b| {
      assert (b + s)[pos..pos + |word|] == b[pos..pos + |word|];
    }
  }

  lemma {:induction false} ArrayCut<F>(io: FloatText<F>, b: seq<byte>, s: seq<byte>, pos: nat)
    requires Peek(b, pos, LEFT_BRACKET) && Peek(b + s, pos, LEFT_BRACKET)
    requires Array(io, b + s, pos).Ok? && Array(io, b + s, pos).next <= |b|
    ensures Array(io, b, pos) == Array(io, b + s, pos)
    decreases |b| - pos, 1
  {
    hide Items;
    var p := SkipWhitespace(b + s, pos + 1);
    WhitespaceCut(b, s, pos + 1);
    if !Peek(b + s, p, RIGHT_BRACKET) { ItemsCut(io, b, s, p, []); }
  }

  lemma {:induction false} ItemsCut<F>(io: FloatText<F>, b: seq<byte>, s: seq<byte>, pos: nat, acc: seq<Json<F>>)
    requires pos <= |b| && Items(io, b + s, pos, acc).Ok? && Items(io, b + s, pos, acc).next <= |b|
    ensures Items(io, b, pos, acc) == Items(io, b + s, pos, acc)
    decreases |b| - pos, 3
  {
    hide Value;
    var all := b + s;
    var v := Value(io, all, pos);
    var p := SkipWhitespace(all, v.next);
    assert v.next <= p < |b| && all[p] == b[p];
    WhitespaceCut(b, s, v.next);
    ValueCut(io, b, s, pos);
    if Peek(all, p, COMMA) { ItemsCut(io, b, s, p + 1, acc + [v.value]); }
  }

  lemma {:induction false} ObjectCut<F>(io: FloatText<F>, b: seq<byte>, s: seq<byte>, pos: nat)
    requires Peek(b, pos, LEFT_BRACE) && Peek(b + s, pos, LEFT_BRACE)
    requires Object(io, b + s, pos).Ok? && Object(io, b + s, pos).next <= |b|
    ensures Object(io, b, pos) == Object(io, b + s, pos)
    decreases |b| - pos, 1
  {
    hide Members;
    var p := SkipWhitespace(b + s, pos + 1);
    WhitespaceCut(b, s, pos + 1);
    if !Peek(b + s, p, RIGHT_BRACE) { MembersCut(io, b, s, p, []); }
  }

  /** The member that starts at `pos`: a key, a colon and a value. */
  function MemberAt<F>(io: FloatText<F>, b: seq<byte>, pos: nat): (r: Parsed<Member<F>>)
    requires pos <= |b|
    ensures r.Ok? ==> pos < r.next <= |b|
  {
    var key := String(b, SkipWhitespace(b, pos));
    if key.Err? then Err
    else
      var colon := SkipWhitespace(b, key.next);
      if !Peek(b, colon, COLON) then Err
      else
        var v := Value(io, b, colon + 1);
        if v.Err? then Err else Ok(Member(key.value, v.value), v.next)
  }

  lemma MembersAre<F>(io: FloatText<F>, b: seq<byte>, pos: nat, acc: seq<Member<F>>)
    requires pos <= |b|
    ensures Members(io, b, pos, acc) ==
            var m := MemberAt(io, b, pos);
            if m.Err? then Err
            else
              var p := SkipWhitespace(b, m.next);
              if Peek(b, p, COMMA) then Members(io, b, p + 1, Insert(acc, m.value))
              else if Peek(b, p, RIGHT_BRACE) then Ok(Obj(Insert(acc, m.value)), p + 1)
              else Err
  {
    hide Value, String, Insert, SkipWhitespace;
  }

  lemma {:induction false} MemberCut<F>(io: FloatText<F>, b: seq<byte>, s: seq<byte>, pos: nat)
    requires pos <= |b| && MemberAt(io, b + s, pos).Ok? && MemberAt(io, b + s, pos).next < |b|
    ensures MemberAt(io, b, pos) == MemberAt(io, b + s, pos)
    decreases |b| - pos, 2
  {
    hide Value, StringBody;
    var all := b + s;
    var start := SkipWhitespace(all, pos);
    var key := String(all, start);
    var colon := SkipWhitespace(all, key.next);
    assert start < key.next <= colon < Value(io, all, colon + 1).next < |b|;
    WhitespaceCut(b, s, pos);
    StringBodyCut(b, s, start + 1, []);
    WhitespaceCut(b, s, key.next);
    ValueCut(io, b, s, colon + 1);
    hide SkipWhitespace;
  }

  lemma {:induction false} MembersCut<F>(io: FloatText<F>, b: seq<byte>, s: seq<byte>, pos: nat, acc: seq<Member<F>>)
    requires pos <= |b| && Members(io, b + s, pos, acc).Ok? && Members(io, b + s, pos, acc).next <= |b|
    ensures Members(io, b, pos, acc) == Members(io, b + s, pos, acc)
    decreases |b| - pos, 3
  {
    hide Members, MemberAt, Insert, SkipWhitespace;
    var all := b + s;
    MembersAre(io, all, pos, acc);
    MembersAre(io, b, pos, acc);
    var m := MemberAt(io, all, pos);
    var p := SkipWhitespace(all, m.next);
    assert m.next <= p < |b| && all[p] == b[p];
    MemberCut(io, b, s, pos);
    WhitespaceCut(b, s, m.next);
    if Peek(all, p, COMMA) { MembersCut(io, b, s, p + 1, Insert(acc, m.value)); }
  }

  // ---------------------------------------------------------------- where a value ends

  lemma {:induction false} StringEnds(b: seq<byte>, pos: nat, out: Text)
    requires pos <= |b| && StringBody(b, pos, out).Ok?
    ensures b[StringBody(b, pos, out).next - 1] == QUOTE
    decreases |b| - pos
  {
    hide Decode, SimpleEscape, ReadHex;
    if b[pos] == QUOTE {
    } else if b[pos] == BACKSLASH {
      if b[pos + 1] == LOWER_U { StringEnds(b, pos + 6, out + [UnicodeEscape(b, pos + 2).value]); }
      else { StringEnds(b, pos + 2, out + [SimpleEscape(b[pos + 1]).value]); }
    } else {
      var stop := if pos + Width(b[pos]) <= |b| then pos + Width(b[pos]) else |b|;
      StringEnds(b, stop, out + Decode(b[pos..stop]).value);
    }
  }

  lemma {:induction false} ItemsEnd<F>(io: FloatText<F>, b: seq<byte>, pos: nat, acc: seq<Json<F>>)
    requires pos <= |b| && Items(io, b, pos, acc).Ok?
    ensures b[Items(io, b, pos, acc).next - 1] == RIGHT_BRACKET
    decreases |b| - pos
  {
    hide Value;
    var v := Value(io, b, pos);
    var p := SkipWhitespace(b, v.next);
    if Peek(b, p, COMMA) { ItemsEnd(io, b, p + 1, acc + [v.value]); }
  }

  lemma {:induction false} MembersEnd<F>(io: FloatText<F>, b: seq<byte>, pos: nat, acc: seq<Member<F>>)
    requires pos <= |b| && Members(io, b, pos, acc).Ok?
    ensures b[Members(io, b, pos, acc).next - 1] == RIGHT_BRACE
    decreases |b| - pos
  {
    hide Value, Insert, String;
    var key := String(b, SkipWhitespace(b, pos));
    var v := Value(io, b, SkipWhitespace(b, key.next) + 1);
    var p := SkipWhitespace(b, v.next);
    if Peek(b, p, COMMA) { MembersEnd(io, b, p + 1, Insert(acc, Member(key.value, v.value))); }
  }

  /** No value but a number ends in white space or could go on. */
  lemma ValueEnds<F>(io: FloatText<F>, b: seq<byte>)
    requires Value(io, b, 0).Ok? && !Numeric(Value(io, b, 0).value)
    ensures !Whitespace(b[Value(io, b, 0).next - 1])
  {
    hide Items, Members, StringBody, NumberToken;
    var p := SkipWhitespace(b, 0);
    if b[p] == LEFT_BRACE {
      var q := SkipWhitespace(b, p + 1);
      if !Peek(b, q, RIGHT_BRACE) { MembersEnd(io, b, q, []); }
    } else if b[p] == LEFT_BRACKET {
      var q := SkipWhitespace(b, p + 1);
      if !Peek(b, q, RIGHT_BRACKET) { ItemsEnd(io, b, q, []); }
    } else if b[p] == QUOTE {
      StringEnds(b, p + 1, []);
    } else if b[p] == MINUS || Digit(b[p]) {
      NumberIsNumeric(io, b, p);
    } else {
      WordEnds(b, p, TRUE_WORD);
      WordEnds(b, p, FALSE_WORD);
      WordEnds(b, p, NULL_WORD);
    }
  }

  lemma WordEnds(b: seq<byte>, pos: nat, word: seq<byte>)
    requires word != []
    ensures StartsWith(b, pos, word) ==> pos + |word| <= |b| && b[pos + |word| - 1] == word[|word| - 1]
  {
    if StartsWith(b, pos, word) { assert b[pos..pos + |word|][|word| - 1] == word[|word| - 1]; }
  }

  // ---------------------------------------------------------------- prefixes

  /**
   Of an accepted document that holds anything but a number, a prefix is accepted exactly when it
   reaches the end of the value, and then it means the same.
   */
  lemma PrefixesExactly<F>(io: FloatText<F>, b: seq<byte>, n: nat)
    requires Parse(io, b).Some? && !Numeric(Parse(io, b).value) && n <= |b|
    ensures Parse(io, b[..n]).Some? <==> Value(io, b, 0).next <= n
    ensures Value(io, b, 0).next <= n ==> Parse(io, b[..n]) == Parse(io, b)
  {
    hide Value;
    var (part, rest, whole) := (b[..n], b[n..], Value(io, b, 0));
    assert part + rest == b;
    AcceptsWholeDocuments(io, b);
    if whole.next <= n {
      ValueCut(io, part, rest, 0);
      assert forall i :: whole.next <= i < n ==> part[i] == b[i];
      AcceptsWholeDocuments(io, part);
    } else {
      ShortPrefix(io, b, n);
    }
  }

  lemma ShortPrefix<F>(io: FloatText<F>, b: seq<byte>, n: nat)
    requires Value(io, b, 0).Ok? && !Numeric(Value(io, b, 0).value) && n < Value(io, b, 0).next
    ensures Parse(io, b[..n]).None?
  {
    hide Value;
    var (part, rest) := (b[..n], b[n..]);
    assert part + rest == b;
    if Parse(io, part).Some? {
      if Ends(part, Value(io, part, 0)) {
        ValueStable(io, part, rest, 0);
        assert false;
      } else {
        NumericStart(io, part);
        WhitespaceStable(part, rest, 0);
        NumericStart(io, b);
        assert false;
      }
    }
  }

  /** Some proper prefix of such a document is accepted exactly when the document ends in white space. */
  lemma TruncationsExactly<F>(io: FloatText<F>, b: seq<byte>)
    requires Parse(io, b).Some? && !Numeric(Parse(io, b).value)
    ensures b != [] && ((exists n :: 0 <= n < |b| && Parse(io, b[..n]).Some?) <==> Whitespace(b[|b| - 1]))
  {
    hide Value, Parse;
    var end := EndOf(io, b);
    forall n | 0 <= n < |b| ensures Parse(io, b[..n]).Some? <==> end <= n { PrefixesExactly(io, b, n); }
    if end < |b| { assert Parse(io, b[..end]).Some?; }
  }

  lemma EndOf<F>(io: FloatText<F>, b: seq<byte>) returns (end: nat)
    requires Parse(io, b).Some? && !Numeric(Parse(io, b).value)
    ensures Value(io, b, 0).Ok? && end == Value(io, b, 0).next && 0 < end <= |b|
    ensures end < |b| <==> Whitespace(b[|b| - 1])
  {
    end := Value(io, b, 0).next;
    AcceptsWholeDocuments(io, b);
    ValueEnds(io, b);
    hide Value;
  }

  /**
   A truncated document is never read as a shorter one: no proper prefix parses of a document that
   holds anything but a number and does not end in white space.
   */
  lemma NoPrefixParses<F>(io: FloatText<F>, b: seq<byte>, n: nat)
    requires n < |b| && !Whitespace(b[|b| - 1])
    requires Parse(io, b).Some? && !Numeric(Parse(io, b).value)
    ensures Parse(io, b[..n]).None?
  {
    hide Parse;
    TruncationsExactly(io, b);
  }

  /** A number has no visible end: the document `12` cut after its first byte is the document `1`. */
  lemma NumbersTruncate<F>(io: FloatText<F>)
    ensures Parse(io, [49, 50]) == Some(Int(12)) && Parse(io, [49, 50][..1]) == Some(Int(1))
  {
    assert [49, 50][..1] == [49];
    IntDocument(io, 12, []);
    IntDocument(io, 1, []);
    assert [] + ShowNat(12) == [49, 50] && [] + ShowNat(1) == [49];
  }

  lemma IntTokenIs<F>(io: FloatText<F>, n: nat, text: seq<byte>)
    requires n < 0x8000_0000_0000_0000 && text != [] && AllDigits(text) && ReadDigits(text, 0) == Some(n)
    ensures NumberToken(io, text, 0) == Ok(Int(n), |text|)
  {
    assert PlainDecimal(text, false, text, []) by { assert text == [] + (text + []); }
    assert StartsWith(text, 0, text) by { assert text[0..|text|] == text; }
    AtEnd(text);
    assert text[0] != MINUS;
    assert ReadInt(text) == Some(n);
    hide Delimited, StartsWith, PlainDecimal, ReadInt, NumberToken;
    ScanNumber(io, text, 0, text, false, text, []);
  }

  /** Leading zeros are accepted, any number of them, before any non-negative 64-bit integer. */
  lemma IntDocument<F>(io: FloatText<F>, n: nat, zeros: seq<byte>)
    requires n < 0x8000_0000_0000_0000 && forall i :: 0 <= i < |zeros| ==> zeros[i] == ZERO
    ensures Parse(io, zeros + ShowNat(n)) == Some(Int(n))
  {
    var text := zeros + ShowNat(n);
    NatRoundTrip(n);
    ZerosIgnored(zeros, ShowNat(n));
    assert AllDigits(text);
    IntTokenIs(io, n, text);
    hide NumberToken, ReadDigits, ShowNat;
    assert Digit(text[0]);
    assert SkipWhitespace(text, 0) == 0 && SkipWhitespace(text, |text|) == |text|;
    assert Value(io, text, 0) == NumberToken(io, text, 0);
  }

  lemma {:induction false} ZerosIgnored(zeros: seq<byte>, digits: seq<byte>)
    requires forall i :: 0 <= i < |zeros| ==> zeros[i] == ZERO
    ensures ReadDigits(zeros + digits, 0) == ReadDigits(digits, 0)
  {
    var all := zeros + digits;
    if zeros == [] {
      assert all == digits;
    } else {
      assert all[1..] == zeros[1..] + digits && all[0] == ZERO;
      ZerosIgnored(zeros[1..], digits);
    }
  }
}
