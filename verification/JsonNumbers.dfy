/** Numbers have no visible end: which prefixes of an integer are accepted, and which lenient forms. */
module JsonNumbers {
  import opened Options
  import opened Utf8
  import opened Json
  import opened JsonProof
  import opened JsonTheorems
  import opened JsonPrefixes

  // ---------------------------------------------------------------- scanning a prefix

  function Least(a: nat, b: nat): nat {
    if a < b then a else b
  }

  lemma {:induction false} WhitespacePrefix(b: seq<byte>, n: nat, pos: nat)
    requires pos <= n <= |b|
    ensures SkipWhitespace(b[..n], pos) == Least(SkipWhitespace(b, pos), n)
    decreases n - pos
  {
    if pos < n && Whitespace(b[pos]) { WhitespacePrefix(b, n, pos + 1); }
  }

  lemma {:induction false} DigitsPrefix(b: seq<byte>, n: nat, pos: nat)
    requires pos <= n <= |b|
    ensures SkipDigits(b[..n], pos) == Least(SkipDigits(b, pos), n)
    decreases n - pos
  {
    if pos < n && Digit(b[pos]) { DigitsPrefix(b, n, pos + 1); }
  }

  /** A prefix of a numeral is a numeral, and no larger. */
  lemma {:induction false} ReadPrefix(digits: seq<byte>, k: nat, acc: nat)
    requires k <= |digits| && ReadDigits(digits, acc).Some?
    ensures ReadDigits(digits[..k], acc).Some?
    ensures acc <= ReadDigits(digits[..k], acc).value <= ReadDigits(digits, acc).value
    decreases |digits|
  {
    if digits != [] {
      var next := 10 * acc + (digits[0] - ZERO);
      if k == 0 {
        ReadPrefix(digits[1..], 0, next);
      } else {
        ReadPrefix(digits[1..], k - 1, next);
        assert digits[..k][1..] == digits[1..][..k - 1];
      }
    }
  }

  /** A prefix of a 64-bit integer's text is one exactly when it holds a digit. */
  lemma IntPrefix(text: seq<byte>, k: nat)
    requires ReadInt(text).Some? && k <= |text|
    ensures ReadInt(text[..k]).Some? <==> (if text[0] == MINUS then 1 else 0) < k
  {
    var part := text[..k];
    if text[0] == MINUS {
      if k > 0 {
        assert part[1..] == text[1..][..k - 1];
        ReadPrefix(text[1..], k - 1, 0);
      }
    } else {
      ReadPrefix(text, k, 0);
    }
  }

  // ---------------------------------------------------------------- integers

  /** Where the digits of a number begin. */
  function FirstDigit(b: seq<byte>): nat {
    var p := SkipWhitespace(b, 0);
    if Peek(b, p, MINUS) then p + 1 else p
  }

  /** An integer is white space, perhaps a minus sign, and digits up to its end. */
  lemma IntToken<F>(io: FloatText<F>, b: seq<byte>)
    requires Value(io, b, 0).Ok? && Value(io, b, 0).value.Int?
    ensures var (p, end) := (SkipWhitespace(b, 0), Value(io, b, 0).next);
            && p < |b| && (b[p] == MINUS || Digit(b[p])) && FirstDigit(b) < end <= |b|
            && SkipDigits(b, FirstDigit(b)) == end && ReadInt(b[p..end]).Some?
  {
    NumericStart(io, b);
    var p := SkipWhitespace(b, 0);
    hide ReadDigits, Items, Members;
    assert Value(io, b, 0) == NumberToken(io, b, p);
  }

  lemma CutTwice(b: seq<byte>, p: nat, n: nat, end: nat)
    requires p <= n <= end <= |b|
    ensures b[..n][p..n] == b[p..end][..n - p]
  {
    var (x, y) := (b[..n][p..n], b[p..end][..n - p]);
    assert |x| == |y|;
    forall i | 0 <= i < |x| ensures x[i] == y[i] { assert x[i] == b[p + i] && y[i] == b[p + i]; }
  }

  lemma ShortInt<F>(io: FloatText<F>, b: seq<byte>, n: nat)
    requires Value(io, b, 0).Ok? && Value(io, b, 0).value.Int? && n <= Value(io, b, 0).next
    ensures Parse(io, b[..n]).Some? <==> FirstDigit(b) < n
  {
    IntToken(io, b);
    var (part, p, end) := (b[..n], SkipWhitespace(b, 0), Value(io, b, 0).next);
    hide ReadInt, Items, Members, String;
    WhitespacePrefix(b, n, 0);
    if p < n {
      assert part[p] == b[p];
      var start := FirstDigit(b);
      DigitsPrefix(b, n, start);
      CutTwice(b, p, n, end);
      IntPrefix(b[p..end], n - p);
      assert Value(io, part, 0) == NumberToken(io, part, p);
      assert NumberToken(io, part, p).Ok? <==> ReadInt(part[p..n]).Some?;
      assert NumberToken(io, part, p).Ok? ==> NumberToken(io, part, p).next == n;
    }
  }

  /** Of a document that holds an integer, a prefix is accepted exactly when it holds a digit. */
  lemma IntPrefixesExactly<F>(io: FloatText<F>, b: seq<byte>, n: nat)
    requires Parse(io, b).Some? && Parse(io, b).value.Int? && n <= |b|
    ensures Parse(io, b[..n]).Some? <==> FirstDigit(b) < n
  {
    IntToken(io, b);
    var end := Value(io, b, 0).next;
    hide Value;
    if n <= end {
      ShortInt(io, b, n);
    } else {
      var (part, rest) := (b[..n], b[n..]);
      assert part + rest == b;
      AcceptsWholeDocuments(io, b);
      ValueCut(io, part, rest, 0);
      assert forall i :: end <= i < n ==> part[i] == b[i];
      AcceptsWholeDocuments(io, part);
    }
  }

  /**
   Some proper prefix of such a document is accepted exactly when it ends in white space or its
   number has at least two digits.
   */
  lemma IntTruncationsExactly<F>(io: FloatText<F>, b: seq<byte>)
    requires Parse(io, b).Some? && Parse(io, b).value.Int?
    ensures b != [] && ((exists n :: 0 <= n < |b| && Parse(io, b[..n]).Some?) <==>
                        Whitespace(b[|b| - 1]) || Value(io, b, 0).next - FirstDigit(b) >= 2)
  {
    IntToken(io, b);
    AcceptsWholeDocuments(io, b);
    var (first, end) := (FirstDigit(b), Value(io, b, 0).next);
    hide Value, Parse, FirstDigit;
    forall n | 0 <= n < |b| ensures Parse(io, b[..n]).Some? <==> first < n { IntPrefixesExactly(io, b, n); }
    if first + 1 < |b| { assert Parse(io, b[..first + 1]).Some?; }
    if end == |b| { LastIsDigit(b, first); }
  }

  lemma {:induction false} LastIsDigit(b: seq<byte>, pos: nat)
    requires pos < |b| && SkipDigits(b, pos) == |b|
    ensures !Whitespace(b[|b| - 1])
    decreases |b| - pos
  {
    if pos + 1 < |b| { LastIsDigit(b, pos + 1); }
  }

  // ---------------------------------------------------------------- lenient forms

  /** Leading zeros are accepted after a minus sign too. */
  lemma NegativeDocument<F>(io: FloatText<F>, n: int, zeros: seq<byte>)
    requires 0 <= n <= 0x8000_0000_0000_0000 && forall i :: 0 <= i < |zeros| ==> zeros[i] == ZERO
    ensures Parse(io, [MINUS] + (zeros + ShowNat(n))) == Some(Int(-n))
  {
    var digits := zeros + ShowNat(n);
    var text := [MINUS] + digits;
    NatRoundTrip(n);
    ZerosIgnored(zeros, ShowNat(n));
    assert text[1..] == digits && text[0..|text|] == text;
    AllSkipped(text, 1);
    hide ReadDigits, ShowNat;
    assert ReadInt(text) == Some(-n);
    assert NumberToken(io, text, 0) == Ok(Int(-n), |text|);
  }

  lemma {:induction false} AllSkipped(b: seq<byte>, pos: nat)
    requires pos <= |b| && forall i :: pos <= i < |b| ==> Digit(b[i])
    ensures SkipDigits(b, pos) == |b|
    decreases |b| - pos
  {
    if pos < |b| { AllSkipped(b, pos + 1); }
  }

  /** An integer outside 64 bits is refused, whatever zeros it begins with. */
  lemma OverflowRefused<F>(io: FloatText<F>, negative: bool, n: nat, zeros: seq<byte>)
    requires forall i :: 0 <= i < |zeros| ==> zeros[i] == ZERO
    requires n > (if negative then 0x8000_0000_0000_0000 else 0x7FFF_FFFF_FFFF_FFFF)
    ensures Parse(io, Sign(negative) + (zeros + ShowNat(n))) == None
  {
    var digits := zeros + ShowNat(n);
    var text := Sign(negative) + digits;
    NatRoundTrip(n);
    ZerosIgnored(zeros, ShowNat(n));
    assert AllDigits(digits) && digits != [];
    hide ReadDigits, ShowNat;
    assert text[0] == if negative then MINUS else digits[0];
    assert text[|Sign(negative)|..] == digits;
    assert ReadInt(text) == None;
    IntScanned(io, negative, digits, text);
    hide ReadInt, NumberToken, Value, Sign;
    StartsNumber(io, text);
  }

  lemma IntScanned<F>(io: FloatText<F>, negative: bool, digits: seq<byte>, text: seq<byte>)
    requires AllDigits(digits) && digits != [] && text == Sign(negative) + digits
    ensures text[0] == MINUS || Digit(text[0])
    ensures NumberToken(io, text, 0) == if ReadInt(text).None? then Err else Ok(Int(ReadInt(text).value), |text|)
  {
    AllSkipped(text, |Sign(negative)|);
    assert text[0] == if negative then MINUS else digits[0];
    assert text[0..|text|] == text;
    hide ReadInt, SkipDigits;
  }

  lemma StartsNumber<F>(io: FloatText<F>, text: seq<byte>)
    requires text != [] && (text[0] == MINUS || Digit(text[0]))
    ensures Value(io, text, 0) == NumberToken(io, text, 0)
  {
    hide NumberToken, Items, Members, String;
  }

  // ---------------------------------------------------------------- fractions and exponents

  datatype Exponent = Exponent(upper: bool, sign: Option<bool>, digits: seq<byte>)

  function PointText(fraction: Option<seq<byte>>): seq<byte> {
    if fraction.None? then [] else [DOT] + fraction.value
  }

  /** `e` or `E`, perhaps a sign, and digits. */
  function ExponentText(exponent: Option<Exponent>): seq<byte> {
    if exponent.None? then [] else Mark(exponent.value) + exponent.value.digits
  }

  function Mark(e: Exponent): seq<byte> {
    var letter := if e.upper then UPPER_E else LOWER_E;
    if e.sign.None? then [letter] else if e.sign.value then [letter, MINUS] else [letter, PLUS]
  }

  predicate Parts(whole: seq<byte>, fraction: Option<seq<byte>>, exponent: Option<Exponent>) {
    && AllDigits(whole) && (fraction.Some? ==> AllDigits(fraction.value))
    && (exponent.Some? ==> AllDigits(exponent.value.digits))
  }

  lemma {:induction false} DigitsRun(b: seq<byte>, pos: nat, n: nat)
    requires pos + n <= |b| && (forall i :: pos <= i < pos + n ==> Digit(b[i]))
    requires pos + n == |b| || !Digit(b[pos + n])
    ensures SkipDigits(b, pos) == pos + n
    decreases n
  {
    if n > 0 { DigitsRun(b, pos + 1, n - 1); }
  }

  /** The digits of `part` stand at `pos` in `before + part + after`, and no digit follows. */
  lemma PartRun(before: seq<byte>, part: seq<byte>, after: seq<byte>)
    requires AllDigits(part) && (after != [] ==> !Digit(after[0]))
    ensures SkipDigits(before + part + after, |before|) == |before| + |part|
  {
    var b := before + part + after;
    forall i | |before| <= i < |before| + |part| ensures Digit(b[i]) { assert b[i] == part[i - |before|]; }
    if after != [] { assert b[|before| + |part|] == after[0]; }
    DigitsRun(b, |before|, |part|);
  }

  lemma ExponentRun(before: seq<byte>, exponent: Option<Exponent>)
    requires exponent.Some? ==> AllDigits(exponent.value.digits)
    ensures ExponentEnd(before + ExponentText(exponent), |before|) == |before| + |ExponentText(exponent)|
  {
    if exponent.Some? {
      var e := exponent.value;
      PowerRun(before, Mark(e), e.digits);
      assert before + Mark(e) + e.digits == before + ExponentText(exponent);
    }
    hide SkipDigits;
  }

  lemma PowerRun(before: seq<byte>, mark: seq<byte>, digits: seq<byte>)
    requires AllDigits(digits) && 1 <= |mark| <= 2 && (mark[0] == LOWER_E || mark[0] == UPPER_E)
    requires |mark| == 2 ==> mark[1] == PLUS || mark[1] == MINUS
    ensures var b := before + mark + digits;
            ExponentEnd(b, |before|) == |b|
  {
    var b := before + mark + digits;
    assert before + mark + digits + [] == b;
    PartRun(before + mark, digits, []);
    hide SkipDigits;
    assert b[|before|] == mark[0];
    if |mark| == 2 { assert b[|before| + 1] == mark[1]; }
    else if digits != [] { assert b[|before| + 1] == digits[0]; }
  }

  lemma FractionRun(before: seq<byte>, fraction: Option<seq<byte>>, after: seq<byte>)
    requires fraction.Some? ==> AllDigits(fraction.value)
    requires after != [] ==> !Digit(after[0]) && after[0] != DOT
    ensures FractionEnd(before + PointText(fraction) + after, |before|) == |before| + |PointText(fraction)|
  {
    var b := before + PointText(fraction) + after;
    if fraction.Some? {
      assert b[|before|] == DOT && (before + [DOT]) + fraction.value + after == b;
      PartRun(before + [DOT], fraction.value, after);
    } else if after != [] {
      assert b[|before|] == after[0];
    }
    hide SkipDigits;
  }

  /** A number with a point or an exponent is scanned to its end, whatever parts it has. */
  lemma NumberRun<F>(io: FloatText<F>, negative: bool, whole: seq<byte>, fraction: Option<seq<byte>>,
                     exponent: Option<Exponent>, text: seq<byte>)
    requires Parts(whole, fraction, exponent) && (negative || whole != []) && (fraction.Some? || exponent.Some?)
    requires text == Sign(negative) + whole + PointText(fraction) + ExponentText(exponent)
    ensures text[0] == MINUS || Digit(text[0])
    ensures NumberToken(io, text, 0) == if io.read(text).Some? then Ok(Number(io.read(text).value), |text|) else Err
  {
    var (sign, point, power) := (Sign(negative), PointText(fraction), ExponentText(exponent));
    assert text[0] == if negative then MINUS else whole[0];
    assert |point| + |power| > 0;
    assert power != [] ==> !Digit(power[0]) && power[0] != DOT;
    assert point != [] ==> !Digit(point[0]);
    assert text == sign + whole + (point + power);
    hide SkipDigits, FractionEnd, ExponentEnd, ReadInt, PointText, ExponentText, Sign;
    PartRun(sign, whole, point + power);
    FractionRun(sign + whole, fraction, power);
    ExponentRun(sign + whole + point, exponent);
    ScannedTo(io, text, |sign|, |sign| + |whole|, |sign| + |whole| + |point|);
  }

  lemma ScannedTo<F>(io: FloatText<F>, text: seq<byte>, start: nat, whole: nat, fraction: nat)
    requires text != [] && (text[0] == MINUS || Digit(text[0])) && start == (if text[0] == MINUS then 1 else 0)
    requires whole < |text| && SkipDigits(text, start) == whole && fraction <= |text|
    requires FractionEnd(text, whole) == fraction && ExponentEnd(text, fraction) == |text|
    ensures NumberToken(io, text, 0) == if io.read(text).Some? then Ok(Number(io.read(text).value), |text|) else Err
  {
    hide SkipDigits, FractionEnd, ExponentEnd, ReadInt;
    assert text[0..|text|] == text;
  }

  /**
   The document of a number that has a point or an exponent: its whole text goes to the float library,
   which decides. Any of the parts may have no digits, but a number that begins with its point needs a
   minus sign to be taken for one.
   */
  lemma FloatDocument<F>(io: FloatText<F>, negative: bool, whole: seq<byte>, fraction: Option<seq<byte>>,
                         exponent: Option<Exponent>)
    requires Parts(whole, fraction, exponent) && (negative || whole != []) && (fraction.Some? || exponent.Some?)
    ensures var text := Sign(negative) + whole + PointText(fraction) + ExponentText(exponent);
            Parse(io, text) == if io.read(text).Some? then Some(Number(io.read(text).value)) else None
  {
    var text := Sign(negative) + whole + PointText(fraction) + ExponentText(exponent);
    NumberRun(io, negative, whole, fraction, exponent, text);
    hide NumberToken, Value, Sign, PointText, ExponentText;
    StartsNumber(io, text);
  }

  /** A minus sign and a point, with or without digits after it, go to the float library, which decides. */
  lemma NoWholePartIsPassedOn<F>(io: FloatText<F>, digits: seq<byte>)
    requires AllDigits(digits)
    ensures var text := [MINUS, DOT] + digits;
            Parse(io, text) == if io.read(text).Some? then Some(Number(io.read(text).value)) else None
  {
    assert Sign(true) + [] + PointText(Some(digits)) + ExponentText(None) == [MINUS, DOT] + digits;
    FloatDocument(io, true, [], Some(digits), None);
  }
}
