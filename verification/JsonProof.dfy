/** The printers and the parser undo each other, exactly when every float is finite. */
module JsonProof {
  import opened Options
  import opened Utf8
  import opened Json

  // ---------------------------------------------------------------- texts at a position

  lemma Split(b: seq<byte>, pos: nat, s: seq<byte>, t: seq<byte>)
    requires StartsWith(b, pos, s + t)
    ensures StartsWith(b, pos, s) && StartsWith(b, pos + |s|, t) && pos + |s| + |t| <= |b|
  {
    assert b[pos..pos + |s|] == (s + t)[..|s|] == s;
    assert b[pos + |s|..pos + |s| + |t|] == (s + t)[|s|..] == t;
  }

  lemma First(b: seq<byte>, pos: nat, s: seq<byte>)
    requires StartsWith(b, pos, s) && s != []
    ensures Peek(b, pos, s[0]) && StartsWith(b, pos + 1, s[1..])
  {
    assert b[pos] == b[pos..pos + |s|][0];
    Split(b, pos, s[..1], s[1..]);
    assert s[..1] + s[1..] == s;
  }

  /** The text is blank: whitespace only. */
  predicate Blank(s: seq<byte>) {
    forall i :: 0 <= i < |s| ==> Whitespace(s[i])
  }

  lemma {:induction false} SkipBlank(b: seq<byte>, pos: nat, s: seq<byte>)
    requires StartsWith(b, pos, s) && Blank(s)
    ensures SkipWhitespace(b, pos) == SkipWhitespace(b, pos + |s|)
    decreases |s|
  {
    if s != [] {
      First(b, pos, s);
      SkipBlank(b, pos + 1, s[1..]);
    }
  }

  lemma {:induction false} SkipDigitsAll(b: seq<byte>, pos: nat, s: seq<byte>)
    requires StartsWith(b, pos, s) && forall i :: 0 <= i < |s| ==> Digit(s[i])
    ensures SkipDigits(b, pos) == SkipDigits(b, pos + |s|)
    decreases |s|
  {
    if s != [] {
      First(b, pos, s);
      SkipDigitsAll(b, pos + 1, s[1..]);
    }
  }

  lemma BreakBlank(pretty: bool, depth: nat)
    ensures Blank(Break(pretty, depth))
  {
  }

  // ---------------------------------------------------------------- integers

  lemma {:induction false} ReadDigitsAppend(s: seq<byte>, d: byte, acc: nat)
    requires ReadDigits(s, acc).Some? && Digit(d)
    ensures ReadDigits(s + [d], acc) == Some(10 * ReadDigits(s, acc).value + (d - ZERO))
    decreases |s|
  {
    if s == [] {
      assert (s + [d])[1..] == [];
    } else {
      assert (s + [d])[1..] == s[1..] + [d];
      ReadDigitsAppend(s[1..], d, 10 * acc + (s[0] - ZERO));
    }
  }

  lemma {:induction false} NatRoundTrip(n: nat)
    ensures ShowNat(n) != [] && forall i :: 0 <= i < |ShowNat(n)| ==> Digit(ShowNat(n)[i])
    ensures ReadDigits(ShowNat(n), 0) == Some(n)
  {
    if n >= 10 {
      NatRoundTrip(n / 10);
      ReadDigitsAppend(ShowNat(n / 10), ZERO + n % 10, 0);
    } else {
      assert ShowNat(n)[1..] == [];
    }
  }

  lemma IntRoundTrip(n: i64)
    ensures ReadInt(ShowInt(n)) == Some(n)
  {
    if n < 0 {
      var m: int := n;
      NatRoundTrip(-m);
      assert ShowInt(n)[1..] == ShowNat(-m);
    } else {
      NatRoundTrip(n);
    }
  }

  // ---------------------------------------------------------------- floats

  predicate AllDigits(s: seq<byte>) {
    forall i :: 0 <= i < |s| ==> Digit(s[i])
  }

  function Sign(negative: bool): seq<byte> {
    if negative then [MINUS] else []
  }

  function Tail(fraction: seq<byte>): seq<byte> {
    if fraction == [] then [] else [DOT] + fraction
  }

  /** `Display` never uses an exponent: a sign, digits, and perhaps a point and digits. */
  predicate PlainDecimal(text: seq<byte>, negative: bool, whole: seq<byte>, fraction: seq<byte>) {
    && whole != [] && AllDigits(whole) && AllDigits(fraction)
    && text == Sign(negative) + (whole + Tail(fraction))
  }

  /** Displaying a finite float and parsing the text, with its point, gives the float back. */
  ghost predicate Faithful<F(!new)>(io: FloatText<F>) {
    forall x :: (exists n, w, f :: PlainDecimal(io.show(x), n, w, f)) && io.read(Pointed(io.show(x))) == Some(Finite(x))
  }

  /** What may follow a printed value: nothing, or a byte no number continues with. */
  predicate Delimited(b: seq<byte>, pos: nat) {
    pos == |b| || (pos < |b|
                   && (Whitespace(b[pos]) || b[pos] == COMMA || b[pos] == RIGHT_BRACKET || b[pos] == RIGHT_BRACE))
  }

  /** A printed fraction ends where its text ends, and no exponent follows. */
  lemma ScanFraction(b: seq<byte>, pos: nat, fraction: seq<byte>)
    requires AllDigits(fraction) && StartsWith(b, pos, Tail(fraction)) && Delimited(b, pos + |Tail(fraction)|)
    ensures FractionEnd(b, pos) == pos + |Tail(fraction)| == ExponentEnd(b, pos + |Tail(fraction)|)
  {
    if fraction != [] {
      First(b, pos, Tail(fraction));
      assert Tail(fraction)[1..] == fraction;
      SkipDigitsAll(b, pos + 1, fraction);
    }
  }

  lemma ScanWhole(b: seq<byte>, pos: nat, whole: seq<byte>, fraction: seq<byte>)
    requires AllDigits(whole) && StartsWith(b, pos, whole + Tail(fraction))
             && Delimited(b, pos + |whole + Tail(fraction)|)
    ensures SkipDigits(b, pos) == pos + |whole| && StartsWith(b, pos + |whole|, Tail(fraction))
  {
    Split(b, pos, whole, Tail(fraction));
    SkipDigitsAll(b, pos, whole);
    if fraction != [] {
      First(b, pos + |whole|, Tail(fraction));
    }
  }

  /** A printed number starts with its sign or a digit. */
  lemma NumberHead(b: seq<byte>, pos: nat, text: seq<byte>, negative: bool, whole: seq<byte>, fraction: seq<byte>)
    requires PlainDecimal(text, negative, whole, fraction) && StartsWith(b, pos, text)
    ensures pos < |b| && b[pos] == (if negative then MINUS else whole[0]) && Digit(whole[0])
  {
    assert text[0] == if negative then MINUS else whole[0];
    First(b, pos, text);
  }

  lemma ScanEnds(b: seq<byte>, pos: nat, text: seq<byte>, negative: bool, whole: seq<byte>, fraction: seq<byte>)
    requires PlainDecimal(text, negative, whole, fraction)
    requires StartsWith(b, pos, text) && Delimited(b, pos + |text|)
    ensures var start := pos + |Sign(negative)|;
            && SkipDigits(b, start) == start + |whole|
            && FractionEnd(b, start + |whole|) == pos + |text| == ExponentEnd(b, pos + |text|)
  {
    hide StartsWith, AllDigits, Delimited, SkipDigits, FractionEnd, ExponentEnd, Tail, Sign;
    var start := pos + |Sign(negative)|;
    Split(b, pos, Sign(negative), whole + Tail(fraction));
    ScanWhole(b, start, whole, fraction);
    ScanFraction(b, start + |whole|, fraction);
  }

  /** The number scanner stops exactly at the end of a printed number. */
  lemma ScanNumber<F>(io: FloatText<F>, b: seq<byte>, pos: nat, text: seq<byte>,
                      negative: bool, whole: seq<byte>, fraction: seq<byte>)
    requires PlainDecimal(text, negative, whole, fraction)
    requires StartsWith(b, pos, text) && Delimited(b, pos + |text|)
    ensures pos < |b| && (b[pos] == MINUS || Digit(b[pos]))
    ensures fraction == [] ==>
              NumberToken(io, b, pos) == if ReadInt(text).None? then Err else Ok(Int(ReadInt(text).value), pos + |text|)
    ensures fraction != [] ==>
              NumberToken(io, b, pos) ==
              if io.read(text).None? then Err else Ok(Number(io.read(text).value), pos + |text|)
  {
    hide SkipDigits, FractionEnd, ExponentEnd, ReadInt, Delimited;
    NumberHead(b, pos, text, negative, whole, fraction);
    ScanEnds(b, pos, text, negative, whole, fraction);
    assert |text| == |Sign(negative)| + |whole| + |Tail(fraction)|;
    assert |Sign(negative)| == if b[pos] == MINUS then 1 else 0;
  }

  lemma PointedShape(text: seq<byte>, negative: bool, whole: seq<byte>, fraction: seq<byte>)
    requires PlainDecimal(text, negative, whole, fraction)
    ensures PlainDecimal(Pointed(text), negative, whole, if fraction == [] then [ZERO] else fraction)
  {
    if fraction == [] {
      assert text == Sign(negative) + whole;
      assert DOT !in text && LOWER_E !in text && UPPER_E !in text;
      assert text + [DOT, ZERO] == Sign(negative) + (whole + Tail([ZERO]));
    } else {
      assert text[|Sign(negative) + whole|] == DOT;
    }
  }

  lemma FloatToken<F(!new)>(io: FloatText<F>, x: F, b: seq<byte>, pos: nat)
    requires Faithful(io) && StartsWith(b, pos, Pointed(io.show(x))) && Delimited(b, pos + |Pointed(io.show(x))|)
    ensures pos < |b| && (b[pos] == MINUS || Digit(b[pos]))
    ensures NumberToken(io, b, pos) == Ok(Number(Finite(x)), pos + |Pointed(io.show(x))|)
  {
    var negative, whole, fraction :| PlainDecimal(io.show(x), negative, whole, fraction);
    assert io.read(Pointed(io.show(x))) == Some(Finite(x));
    hide Faithful, NumberToken, Pointed, StartsWith, Delimited;
    PointedShape(io.show(x), negative, whole, fraction);
    ScanNumber(io, b, pos, Pointed(io.show(x)), negative, whole, if fraction == [] then [ZERO] else fraction);
  }

  lemma IntToken<F>(io: FloatText<F>, n: i64, b: seq<byte>, pos: nat)
    requires StartsWith(b, pos, ShowInt(n)) && Delimited(b, pos + |ShowInt(n)|)
    ensures pos < |b| && (b[pos] == MINUS || Digit(b[pos]))
    ensures NumberToken(io, b, pos) == Ok(Int(n), pos + |ShowInt(n)|)
  {
    var m: int := n;
    var whole := ShowNat(if m < 0 then -m else m);
    NatRoundTrip(if m < 0 then -m else m);
    assert ShowInt(n) == Sign(m < 0) + (whole + Tail([]));
    ScanNumber(io, b, pos, ShowInt(n), m < 0, whole, []);
    IntRoundTrip(n);
  }

  // ---------------------------------------------------------------- strings

  lemma HexPair(b: seq<byte>, pos: nat, c: scalar)
    requires c < 0x20 && StartsWith(b, pos, [ZERO, ZERO, HexDigit(c / 16), HexDigit(c % 16)])
    ensures UnicodeEscape(b, pos) == Some(c)
  {
    var hi, lo := c / 16, c % 16;
    var d := b[pos..pos + 4];
    assert d == [ZERO, ZERO, HexDigit(hi), HexDigit(lo)];
    assert b[pos] == d[0];
    assert d[1..] == [ZERO, HexDigit(hi), HexDigit(lo)] && d[2..] == [HexDigit(hi), HexDigit(lo)]
           && d[3..] == [HexDigit(lo)];
    assert d[1..][1..] == d[2..] && d[2..][1..] == d[3..] && d[3..][1..] == [];
    assert HexValue(HexDigit(hi)) == Some(hi) && HexValue(HexDigit(lo)) == Some(lo);
    assert ReadHex(d[3..], hi) == Some(16 * hi + lo);
    assert ReadHex(d[2..], 0) == Some(c);
    assert ReadHex(d[1..], 0) == Some(c);
  }

  /** One escaped character is read back as that character. */
  lemma ReadEscaped(b: seq<byte>, pos: nat, c: scalar, out: Text)
    requires StartsWith(b, pos, EscapeChar(c))
    ensures pos + |EscapeChar(c)| <= |b|
    ensures StringBody(b, pos, out) == StringBody(b, pos + |EscapeChar(c)|, out + [c])
  {
    var e := EscapeChar(c);
    if e[0] == BACKSLASH { ReadBackslash(b, pos, c, out); } else { ReadPlain(b, pos, c, out); }
    hide StringBody, EscapeChar;
  }

  lemma ReadBackslash(b: seq<byte>, pos: nat, c: scalar, out: Text)
    requires StartsWith(b, pos, EscapeChar(c)) && EscapeChar(c)[0] == BACKSLASH
    ensures pos + |EscapeChar(c)| <= |b|
    ensures StringBody(b, pos, out) == StringBody(b, pos + |EscapeChar(c)|, out + [c])
  {
    hide Decode, UnicodeEscape;
    var e := EscapeChar(c);
    First(b, pos, e);
    First(b, pos + 1, e[1..]);
    if |e| == 6 {
      assert e[1..][1..] == [ZERO, ZERO, HexDigit(c / 16), HexDigit(c % 16)];
      HexPair(b, pos + 2, c);
    }
  }

  lemma ReadPlain(b: seq<byte>, pos: nat, c: scalar, out: Text)
    requires StartsWith(b, pos, EscapeChar(c)) && EscapeChar(c)[0] != BACKSLASH
    ensures pos + |EscapeChar(c)| <= |b|
    ensures StringBody(b, pos, out) == StringBody(b, pos + |EscapeChar(c)|, out + [c])
  {
    hide Decode, UnicodeEscape, SimpleEscape;
    First(b, pos, EscapeChar(c));
    CharRoundTrip(c);
    DecodeOne(c);
  }

  lemma {:induction false} ReadEscapedText(b: seq<byte>, pos: nat, text: Text, out: Text)
    requires StartsWith(b, pos, EscapeText(text) + [QUOTE])
    ensures StringBody(b, pos, out) == Ok(out + text, pos + |EscapeText(text)| + 1)
    decreases |text|
  {
    hide StartsWith, EscapeChar, Decode, UnicodeEscape, SimpleEscape;
    if text == [] {
      First(b, pos, EscapeText(text) + [QUOTE]);
      assert out + text == out;
    } else {
      var head := EscapeChar(text[0]);
      var tail := EscapeText(text[1..]) + [QUOTE];
      assert EscapeText(text) + [QUOTE] == head + tail;
      Split(b, pos, head, tail);
      ReadEscaped(b, pos, text[0], out);
      ReadEscapedText(b, pos + |head|, text[1..], out + [text[0]]);
      assert out + [text[0]] + text[1..] == out + text;
    }
  }

  /** Every escape is undone. */
  lemma StringRoundTrip(b: seq<byte>, pos: nat, text: Text)
    requires StartsWith(b, pos, WriteString(text))
    ensures pos < |b| && b[pos] == QUOTE
    ensures String(b, pos) == Ok(text, pos + |WriteString(text)|)
  {
    assert WriteString(text) == [QUOTE] + (EscapeText(text) + [QUOTE]);
    Split(b, pos, [QUOTE], EscapeText(text) + [QUOTE]);
    First(b, pos, [QUOTE]);
    ReadEscapedText(b, pos + 1, text, []);
    assert [] + text == text;
  }

  // ---------------------------------------------------------------- ordered maps

  lemma {:induction false} KeyLessStrict(a: Text, b: Text)
    requires KeyLess(a, b)
    ensures !KeyLess(b, a) && a != b
    decreases |b|
  {
    if a != [] && a[0] == b[0] {
      KeyLessStrict(a[1..], b[1..]);
    }
  }

  /** Members given in increasing key order are appended. */
  lemma {:induction false} InsertLast<F>(members: seq<Member<F>>, m: Member<F>)
    requires forall i :: 0 <= i < |members| ==> KeyLess(members[i].key, m.key)
    ensures Insert(members, m) == members + [m]
    decreases |members|
  {
    if members != [] {
      KeyLessStrict(members[0].key, m.key);
      InsertLast(members[1..], m);
    }
  }

  // ---------------------------------------------------------------- values

  /** Objects are ordered maps, at every depth. */
  predicate WellFormed<F>(v: Json<F>) {
    match v
    case Arr(items) => forall i :: 0 <= i < |items| ==> WellFormed(items[i])
    case Obj(members) => Sorted(members) && forall i :: 0 <= i < |members| ==> WellFormed(members[i].value)
    case _ => true
  }

  predicate AllFinite<F>(v: Json<F>) {
    match v
    case Number(f) => f.Finite?
    case Arr(items) => forall i :: 0 <= i < |items| ==> AllFinite(items[i])
    case Obj(members) => forall i :: 0 <= i < |members| ==> AllFinite(members[i].value)
    case _ => true
  }

  /** A printed value starts with a byte that is neither blank nor a closing bracket. */
  predicate ValueHead(b: byte) {
    !Whitespace(b) && b != RIGHT_BRACKET && b != RIGHT_BRACE
  }

  lemma RenderHead<F(!new)>(io: FloatText<F>, v: Json<F>, pretty: bool, depth: nat)
    requires Faithful(io)
    ensures Render(io, v, pretty, depth) != [] && ValueHead(Render(io, v, pretty, depth)[0])
  {
    match v
    case Int(n) =>
      var m: int := n;
      NatRoundTrip(if m < 0 then -m else m);
    case Number(Finite(x)) =>
      var negative, whole, fraction :| PlainDecimal(io.show(x), negative, whole, fraction);
      assert io.show(x)[0] == if negative then MINUS else whole[0];
    case _ =>
  }

  lemma SkipNothing(b: seq<byte>, pos: nat, text: seq<byte>)
    requires StartsWith(b, pos, text) && text != [] && !Whitespace(text[0])
    ensures SkipWhitespace(b, pos) == pos
  {
    First(b, pos, text);
  }

  /** Whitespace before a value is skipped. */
  lemma ValueSkips<F>(io: FloatText<F>, b: seq<byte>, pos: nat, lead: seq<byte>)
    requires StartsWith(b, pos, lead) && Blank(lead)
    ensures Value(io, b, pos) == Value(io, b, pos + |lead|)
  {
    SkipBlank(b, pos, lead);
  }

  lemma NumberRead<F(!new)>(io: FloatText<F>, v: Json<F>, b: seq<byte>, pos: nat, text: seq<byte>)
    requires Faithful(io) && (v.Int? || v.Number?) && text == Render(io, v, true, 0)
    requires StartsWith(b, pos, text) && Delimited(b, pos + |text|) && SkipWhitespace(b, pos) == pos
             && Peek(b, pos, text[0])
    ensures Value(io, b, pos) == if AllFinite(v) then Ok(v, pos + |text|) else Err
  {
    hide Items, Members, String, NumberToken, StartsWith, Delimited, Faithful, ShowInt;
    match v
    case Int(n) => IntToken(io, n, b, pos);
    case Number(Finite(x)) => FloatToken(io, x, b, pos);
    case Number(Infinite(negative)) => if negative { MinusInfinity(io, b, pos); }
    case Number(NaN) =>
  }

  lemma WordRead<F>(io: FloatText<F>, v: Json<F>, b: seq<byte>, pos: nat, text: seq<byte>)
    requires (v.Null? || v.Bool? || v.Str?) && text == Render(io, v, true, 0)
    requires StartsWith(b, pos, text) && SkipWhitespace(b, pos) == pos && Peek(b, pos, text[0])
    ensures Value(io, b, pos) == Ok(v, pos + |text|)
  {
    if v.Str? { StringRoundTrip(b, pos, v.text); }
  }

  /** A printed scalar is read back, and a printed non-finite float is refused. */
  lemma ScalarRead<F(!new)>(io: FloatText<F>, v: Json<F>, b: seq<byte>, pos: nat)
    requires Faithful(io) && !v.Arr? && !v.Obj?
    requires StartsWith(b, pos, Render(io, v, true, 0)) && Delimited(b, pos + |Render(io, v, true, 0)|)
    ensures Value(io, b, pos) == if AllFinite(v) then Ok(v, pos + |Render(io, v, true, 0)|) else Err
  {
    var text := Render(io, v, true, 0);
    RenderHead(io, v, true, 0);
    SkipNothing(b, pos, text);
    First(b, pos, text);
    if v.Int? || v.Number? {
      NumberRead(io, v, b, pos, text);
    } else {
      WordRead(io, v, b, pos, text);
    }
  }

  /** `-Infinity` scans as a lone minus sign, which is not a number. */
  lemma MinusInfinity<F>(io: FloatText<F>, b: seq<byte>, pos: nat)
    requires StartsWith(b, pos, [MINUS] + INFINITY_WORD)
    ensures NumberHeadAt(b, pos) && NumberToken(io, b, pos) == Err
  {
    First(b, pos, [MINUS] + INFINITY_WORD);
    First(b, pos + 1, INFINITY_WORD);
    assert b[pos..pos + 1] == [MINUS];
  }

  predicate NumberHeadAt(b: seq<byte>, pos: nat) {
    pos < |b| && (b[pos] == MINUS || Digit(b[pos]))
  }

  /** What follows a value inside brackets. */
  lemma DelimitedBy(b: seq<byte>, pos: nat, text: seq<byte>)
    requires StartsWith(b, pos, text) && text != []
    requires Whitespace(text[0]) || text[0] == COMMA || text[0] == RIGHT_BRACKET || text[0] == RIGHT_BRACE
    ensures Delimited(b, pos)
  {
    First(b, pos, text);
  }

  /** The closing bracket is found past the line break before it. */
  lemma CloseFound(b: seq<byte>, pos: nat, pretty: bool, depth: nat, bracket: byte)
    requires StartsWith(b, pos, Break(pretty, depth) + [bracket])
             && (bracket == RIGHT_BRACKET || bracket == RIGHT_BRACE)
    ensures Delimited(b, pos)
    ensures SkipWhitespace(b, pos) == pos + |Break(pretty, depth)| && Peek(b, pos + |Break(pretty, depth)|, bracket)
  {
    var lead := Break(pretty, depth);
    DelimitedBy(b, pos, lead + [bracket]);
    Split(b, pos, lead, [bracket]);
    BreakBlank(pretty, depth);
    SkipBlank(b, pos, lead);
    SkipNothing(b, pos + |lead|, [bracket]);
    First(b, pos + |lead|, [bracket]);
  }

  /** The comma is found at once, and the blank after it may be skipped. */
  /** Only white space follows the comma of a separator. */
  ghost predicate SeparatorAt(b: seq<byte>, pos: nat, pretty: bool, depth: nat) {
    exists lead :: Blank(lead) && StartsWith(b, pos + 1, lead) && |lead| + 1 == |Separator(pretty, depth)|
  }

  lemma CommaFound(b: seq<byte>, pos: nat, pretty: bool, depth: nat, rest: seq<byte>)
    requires StartsWith(b, pos, Separator(pretty, depth) + rest)
    ensures Delimited(b, pos) && SkipWhitespace(b, pos) == pos && Peek(b, pos, COMMA)
    ensures SeparatorAt(b, pos, pretty, depth) && StartsWith(b, pos + |Separator(pretty, depth)|, rest)
  {
    var sep := Separator(pretty, depth);
    Split(b, pos, sep, rest);
    DelimitedBy(b, pos, sep);
    SkipNothing(b, pos, sep);
    First(b, pos, sep);
    BreakBlank(pretty, depth);
    assert Blank(sep[1..]);
  }

  /** The items' text with the bracket that closes them. */
  function ItemsTail<F>(io: FloatText<F>, items: seq<Json<F>>, pretty: bool, depth: nat): seq<byte>
    requires items != []
  {
    RenderItems(io, items, pretty, depth + 1) + (Break(pretty, depth) + [RIGHT_BRACKET])
  }

  lemma ItemsSkip<F>(io: FloatText<F>, b: seq<byte>, pos: nat, pretty: bool, depth: nat, acc: seq<Json<F>>)
    requires SeparatorAt(b, pos, pretty, depth)
    ensures Items(io, b, pos + 1, acc) == Items(io, b, pos + |Separator(pretty, depth)|, acc)
  {
    hide Items, Separator, StartsWith, Blank;
    var lead :| Blank(lead) && StartsWith(b, pos + 1, lead) && |lead| + 1 == |Separator(pretty, depth)|;
    ItemsBlank(io, b, pos + 1, lead, acc);
  }

  lemma ItemsBlank<F>(io: FloatText<F>, b: seq<byte>, pos: nat, lead: seq<byte>, acc: seq<Json<F>>)
    requires StartsWith(b, pos, lead) && Blank(lead)
    ensures Items(io, b, pos, acc) == Items(io, b, pos + |lead|, acc)
  {
    ValueSkips(io, b, pos, lead);
  }

  lemma {:induction false} ValueRead<F(!new)>(io: FloatText<F>, v: Json<F>, pretty: bool, depth: nat, b: seq<byte>,
                                              pos: nat)
    requires Faithful(io) && WellFormed(v)
    requires StartsWith(b, pos, Render(io, v, pretty, depth)) && Delimited(b, pos + |Render(io, v, pretty, depth)|)
    ensures Value(io, b, pos) == if AllFinite(v) then Ok(v, pos + |Render(io, v, pretty, depth)|) else Err
    decreases v, 0
  {
    match v
    case Arr(items) => ArrayRead(io, items, pretty, depth, b, pos);
    case Obj(members) => ObjectRead(io, members, pretty, depth, b, pos);
    case _ => ScalarRead(io, v, b, pos);
  }

  lemma ArrayText<F>(io: FloatText<F>, items: seq<Json<F>>, pretty: bool, depth: nat)
    requires items != []
    ensures Render(io, Arr(items), pretty, depth) ==
            [LEFT_BRACKET] + (Break(pretty, depth + 1) + ItemsTail(io, items, pretty, depth))
  {
  }

  lemma LastItemText<F>(io: FloatText<F>, items: seq<Json<F>>, pretty: bool, depth: nat)
    requires |items| == 1
    ensures ItemsTail(io, items, pretty, depth) ==
            Render(io, items[0], pretty, depth + 1) + (Break(pretty, depth) + [RIGHT_BRACKET])
  {
  }

  lemma NextItemText<F>(io: FloatText<F>, items: seq<Json<F>>, pretty: bool, depth: nat)
    requires |items| > 1
    ensures ItemsTail(io, items, pretty, depth) ==
            Render(io, items[0], pretty, depth + 1)
            + (Separator(pretty, depth + 1) + ItemsTail(io, items[1..], pretty, depth))
  {
  }

  /** One turn of the array loop, after its value. */
  lemma ItemsTurn<F>(io: FloatText<F>, b: seq<byte>, pos: nat, acc: seq<Json<F>>)
    requires pos <= |b|
    ensures Value(io, b, pos).Err? ==> Items(io, b, pos, acc) == Err
    ensures Value(io, b, pos).Ok? ==>
              var v := Value(io, b, pos);
              var p := SkipWhitespace(b, v.next);
              && (Peek(b, p, COMMA) ==> Items(io, b, pos, acc) == Items(io, b, p + 1, acc + [v.value]))
              && (Peek(b, p, RIGHT_BRACKET) ==> Items(io, b, pos, acc) == Ok(Arr(acc + [v.value]), p + 1))
  {
  }

  /** An opening bracket followed by a blank and a value's first byte starts the array loop. */
  lemma ArrayOpens<F>(io: FloatText<F>, b: seq<byte>, pos: nat, lead: seq<byte>, tail: seq<byte>)
    requires StartsWith(b, pos, [LEFT_BRACKET] + (lead + tail)) && Blank(lead) && tail != [] && ValueHead(tail[0])
    ensures StartsWith(b, pos + 1 + |lead|, tail)
    ensures Value(io, b, pos) == Items(io, b, pos + 1 + |lead|, [])
  {
    hide Items, Object, NumberToken, String, StartsWith, Blank;
    Split(b, pos, [LEFT_BRACKET], lead + tail);
    Split(b, pos + 1, lead, tail);
    First(b, pos, [LEFT_BRACKET]);
    SkipBlank(b, pos + 1, lead);
    SkipNothing(b, pos + 1 + |lead|, tail);
    First(b, pos + 1 + |lead|, tail);
  }

  lemma EmptyArray<F>(io: FloatText<F>, b: seq<byte>, pos: nat)
    requires StartsWith(b, pos, [LEFT_BRACKET, RIGHT_BRACKET])
    ensures Value(io, b, pos) == Ok(Arr([]), pos + 2)
  {
    First(b, pos, [LEFT_BRACKET, RIGHT_BRACKET]);
    First(b, pos + 1, [RIGHT_BRACKET]);
  }

  lemma {:induction false} ArrayRead<F(!new)>(io: FloatText<F>, items: seq<Json<F>>, pretty: bool, depth: nat,
                                              b: seq<byte>, pos: nat)
    requires Faithful(io) && WellFormed(Arr(items))
    requires StartsWith(b, pos, Render(io, Arr(items), pretty, depth))
    ensures Value(io, b, pos) ==
            if AllFinite(Arr(items)) then Ok(Arr(items), pos + |Render(io, Arr(items), pretty, depth)|) else Err
    decreases items, 2
  {
    hide Value, Items, StartsWith, Break, Blank, Faithful;
    if items == [] {
      EmptyArray(io, b, pos);
    } else {
      var lead := Break(pretty, depth + 1);
      var tail := ItemsTail(io, items, pretty, depth);
      ArrayText(io, items, pretty, depth);
      BreakBlank(pretty, depth + 1);
      RenderHead(io, items[0], pretty, depth + 1);
      ArrayOpens(io, b, pos, lead, tail);
      ItemsRead(io, items, pretty, depth, b, pos + 1 + |lead|, []);
      assert [] + items == items;
    }
  }

  lemma {:induction false} ItemsRead<F(!new)>(io: FloatText<F>, items: seq<Json<F>>, pretty: bool, depth: nat,
                                              b: seq<byte>, pos: nat, acc: seq<Json<F>>)
    requires Faithful(io) && items != [] && forall i :: 0 <= i < |items| ==> WellFormed(items[i])
    requires StartsWith(b, pos, ItemsTail(io, items, pretty, depth))
    ensures Items(io, b, pos, acc) ==
            if FiniteItems(items) then Ok(Arr(acc + items), pos + |ItemsTail(io, items, pretty, depth)|) else Err
    decreases items, 1
  {
    hide *;
    var head := Render(io, items[0], pretty, depth + 1);
    TailFinite(items);
    if |items| == 1 {
      LastItemText(io, items, pretty, depth);
      Split(b, pos, head, Break(pretty, depth) + [RIGHT_BRACKET]);
      CloseFound(b, pos + |head|, pretty, depth, RIGHT_BRACKET);
      ValueRead(io, items[0], pretty, depth + 1, b, pos);
      ItemsTurn(io, b, pos, acc);
      assert items == [items[0]];
    } else {
      var sep := Separator(pretty, depth + 1);
      var rest := ItemsTail(io, items[1..], pretty, depth);
      NextItemText(io, items, pretty, depth);
      TailWellFormed(items);
      Split(b, pos, head, sep + rest);
      CommaFound(b, pos + |head|, pretty, depth + 1, rest);
      ValueRead(io, items[0], pretty, depth + 1, b, pos);
      ItemsTurn(io, b, pos, acc);
      if AllFinite(items[0]) {
        ItemsSkip(io, b, pos + |head|, pretty, depth + 1, acc + [items[0]]);
        ItemsRead(io, items[1..], pretty, depth, b, pos + |head| + |sep|, acc + [items[0]]);
        assert acc + [items[0]] + items[1..] == acc + items;
      }
    }
  }

  lemma TailWellFormed<F>(items: seq<Json<F>>)
    requires items != [] && forall i :: 0 <= i < |items| ==> WellFormed(items[i])
    ensures forall i :: 0 <= i < |items[1..]| ==> WellFormed(items[1..][i])
  {
    hide WellFormed;
    var rest := items[1..];
    assert forall i :: 0 <= i < |rest| ==> rest[i] == items[i + 1];
  }

  predicate FiniteItems<F(!new)>(items: seq<Json<F>>) {
    forall i :: 0 <= i < |items| ==> AllFinite(items[i])
  }

  lemma TailFinite<F(!new)>(items: seq<Json<F>>)
    requires items != []
    ensures FiniteItems(items) <==> AllFinite(items[0]) && FiniteItems(items[1..])
    ensures |items| == 1 ==> FiniteItems(items[1..])
  {
    hide AllFinite;
    var rest := items[1..];
    assert forall i :: 0 < i < |items| ==> items[i] == rest[i - 1];
    assert forall i :: 0 <= i < |rest| ==> rest[i] == items[i + 1];
  }

  predicate FiniteMembers<F(!new)>(members: seq<Member<F>>) {
    forall i :: 0 <= i < |members| ==> AllFinite(members[i].value)
  }

  lemma TailMembersFinite<F(!new)>(members: seq<Member<F>>)
    requires members != []
    ensures FiniteMembers(members) <==> AllFinite(members[0].value) && FiniteMembers(members[1..])
    ensures |members| == 1 ==> FiniteMembers(members[1..])
  {
    hide AllFinite;
    var rest := members[1..];
    assert forall i :: 0 < i < |members| ==> members[i] == rest[i - 1];
    assert forall i :: 0 <= i < |rest| ==> rest[i] == members[i + 1];
  }

  /** The members' text with the bracket that closes them. */
  function MembersTail<F>(io: FloatText<F>, members: seq<Member<F>>, pretty: bool, depth: nat): seq<byte>
    requires members != []
  {
    RenderMembers(io, members, pretty, depth + 1) + (Break(pretty, depth) + [RIGHT_BRACE])
  }

  lemma ObjectText<F>(io: FloatText<F>, members: seq<Member<F>>, pretty: bool, depth: nat)
    requires members != []
    ensures Render(io, Obj(members), pretty, depth) ==
            [LEFT_BRACE] + (Break(pretty, depth + 1) + MembersTail(io, members, pretty, depth))
    ensures MembersTail(io, members, pretty, depth)[0] == QUOTE
  {
    hide Break, Separator, EscapeText;
    assert RenderMember(io, members[0], pretty, depth + 1)[0] == QUOTE;
    assert RenderMembers(io, members, pretty, depth + 1)[0] == QUOTE;
  }

  /** The text after the first member: the closing bracket, or a separator and the rest. */
  function AfterMember<F>(io: FloatText<F>, members: seq<Member<F>>, pretty: bool, depth: nat): seq<byte>
    requires members != []
  {
    if |members| == 1 then Break(pretty, depth) + [RIGHT_BRACE]
    else Separator(pretty, depth + 1) + MembersTail(io, members[1..], pretty, depth)
  }

  lemma MemberText<F>(io: FloatText<F>, members: seq<Member<F>>, pretty: bool, depth: nat)
    requires members != []
    ensures MembersTail(io, members, pretty, depth) ==
            WriteString(members[0].key)
            + ([COLON, SPACE]
               + (Render(io, members[0].value, pretty, depth + 1) + AfterMember(io, members, pretty, depth)))
  {
    hide WriteString, Render, Break, Separator, RenderMembers;
    var head := RenderMember(io, members[0], pretty, depth + 1);
    var close := Break(pretty, depth) + [RIGHT_BRACE];
    MembersText(io, members, pretty, depth + 1);
    Regroup(WriteString(members[0].key), [COLON, SPACE], Render(io, members[0].value, pretty, depth + 1),
            AfterMember(io, members, pretty, depth));
    if |members| > 1 {
      Append(head, Separator(pretty, depth + 1), RenderMembers(io, members[1..], pretty, depth + 1), close);
    }
  }

  lemma MembersText<F>(io: FloatText<F>, members: seq<Member<F>>, pretty: bool, depth: nat)
    requires members != []
    ensures var head := RenderMember(io, members[0], pretty, depth);
            RenderMembers(io, members, pretty, depth) ==
            if |members| == 1 then head
            else head + (Separator(pretty, depth) + RenderMembers(io, members[1..], pretty, depth))
  {
    hide RenderMember, Separator;
  }

  lemma Regroup(a: seq<byte>, b: seq<byte>, c: seq<byte>, d: seq<byte>)
    ensures (a + b + c) + d == a + (b + (c + d))
  {}

  lemma Append(a: seq<byte>, b: seq<byte>, c: seq<byte>, d: seq<byte>)
    ensures (a + (b + c)) + d == a + (b + (c + d))
  {}

  lemma MembersSkip<F>(io: FloatText<F>, b: seq<byte>, pos: nat, pretty: bool, depth: nat, acc: seq<Member<F>>)
    requires SeparatorAt(b, pos, pretty, depth)
    ensures Members(io, b, pos + 1, acc) == Members(io, b, pos + |Separator(pretty, depth)|, acc)
  {
    hide Members, Separator, StartsWith, Blank;
    var lead :| Blank(lead) && StartsWith(b, pos + 1, lead) && |lead| + 1 == |Separator(pretty, depth)|;
    MembersBlank(io, b, pos + 1, lead, acc);
  }

  lemma MembersBlank<F>(io: FloatText<F>, b: seq<byte>, pos: nat, lead: seq<byte>, acc: seq<Member<F>>)
    requires StartsWith(b, pos, lead) && Blank(lead)
    ensures Members(io, b, pos, acc) == Members(io, b, pos + |lead|, acc)
  {
    hide String, Value;
    SkipBlank(b, pos, lead);
  }

  /** One turn of the object loop, up to and including its value. */
  lemma MembersTurn<F>(io: FloatText<F>, b: seq<byte>, pos: nat, key: Text, colon: nat, acc: seq<Member<F>>)
    requires pos <= |b| && SkipWhitespace(b, pos) == pos && String(b, pos) == Ok(key, colon)
    requires SkipWhitespace(b, colon) == colon && Peek(b, colon, COLON)
    ensures Value(io, b, colon + 1).Err? ==> Members(io, b, pos, acc) == Err
    ensures Value(io, b, colon + 1).Ok? ==>
              var v := Value(io, b, colon + 1);
              var p := SkipWhitespace(b, v.next);
              var members := Insert(acc, Member(key, v.value));
              && (Peek(b, p, COMMA) ==> Members(io, b, pos, acc) == Members(io, b, p + 1, members))
              && (Peek(b, p, RIGHT_BRACE) ==> Members(io, b, pos, acc) == Ok(Obj(members), p + 1))
  {
    hide String, Value, Insert;
  }

  /** A printed key and its colon are read, and the blank before the value is skipped. */
  lemma KeyRead<F>(io: FloatText<F>, b: seq<byte>, pos: nat, key: Text, rest: seq<byte>)
    requires StartsWith(b, pos, WriteString(key) + ([COLON, SPACE] + rest))
    ensures var colon := pos + |WriteString(key)|;
            && SkipWhitespace(b, pos) == pos && String(b, pos) == Ok(key, colon)
            && SkipWhitespace(b, colon) == colon && Peek(b, colon, COLON)
            && StartsWith(b, colon + 2, rest) && colon + 2 + |rest| <= |b|
            && Value(io, b, colon + 1) == Value(io, b, colon + 2)
  {
    hide Value, String, StartsWith;
    var colon := pos + |WriteString(key)|;
    Split(b, pos, WriteString(key), [COLON, SPACE] + rest);
    StringRoundTrip(b, pos, key);
    SkipNothing(b, pos, WriteString(key));
    Split(b, colon, [COLON, SPACE], rest);
    SkipNothing(b, colon, [COLON, SPACE]);
    First(b, colon, [COLON, SPACE]);
    assert [COLON, SPACE][1..] == [SPACE];
    ValueSkips(io, b, colon + 1, [SPACE]);
  }

  lemma ObjectOpens<F>(io: FloatText<F>, b: seq<byte>, pos: nat, lead: seq<byte>, tail: seq<byte>)
    requires StartsWith(b, pos, [LEFT_BRACE] + (lead + tail)) && Blank(lead) && tail != [] && ValueHead(tail[0])
    ensures StartsWith(b, pos + 1 + |lead|, tail)
    ensures Value(io, b, pos) == Members(io, b, pos + 1 + |lead|, [])
  {
    hide Members, Array, NumberToken, String, StartsWith, Blank;
    Split(b, pos, [LEFT_BRACE], lead + tail);
    Split(b, pos + 1, lead, tail);
    First(b, pos, [LEFT_BRACE]);
    SkipBlank(b, pos + 1, lead);
    SkipNothing(b, pos + 1 + |lead|, tail);
    First(b, pos + 1 + |lead|, tail);
  }

  lemma EmptyObject<F>(io: FloatText<F>, b: seq<byte>, pos: nat)
    requires StartsWith(b, pos, [LEFT_BRACE, RIGHT_BRACE])
    ensures Value(io, b, pos) == Ok(Obj([]), pos + 2)
  {
    hide StartsWith, NumberToken, String, Array;
    First(b, pos, [LEFT_BRACE, RIGHT_BRACE]);
    First(b, pos + 1, [LEFT_BRACE, RIGHT_BRACE][1..]);
  }

  lemma {:induction false} ObjectRead<F(!new)>(io: FloatText<F>, members: seq<Member<F>>, pretty: bool, depth: nat,
                                               b: seq<byte>, pos: nat)
    requires Faithful(io) && WellFormed(Obj(members))
    requires StartsWith(b, pos, Render(io, Obj(members), pretty, depth))
    ensures Value(io, b, pos) ==
            if AllFinite(Obj(members)) then Ok(Obj(members), pos + |Render(io, Obj(members), pretty, depth)|) else Err
    decreases members, 3
  {
    hide Value, Members, StartsWith, Break, Blank, Faithful, MembersTail;
    if members == [] {
      EmptyObject(io, b, pos);
    } else {
      var lead := Break(pretty, depth + 1);
      var tail := MembersTail(io, members, pretty, depth);
      ObjectText(io, members, pretty, depth);
      BreakBlank(pretty, depth + 1);
      ObjectOpens(io, b, pos, lead, tail);
      MembersRead(io, members, pretty, depth, b, pos + 1 + |lead|, []);
      assert [] + members == members;
    }
  }

  lemma {:induction false} MembersRead<F(!new)>(io: FloatText<F>, members: seq<Member<F>>, pretty: bool, depth: nat,
                                                b: seq<byte>, pos: nat, acc: seq<Member<F>>)
    requires Faithful(io) && members != [] && forall i :: 0 <= i < |members| ==> WellFormed(members[i].value)
    requires Sorted(acc + members)
    requires StartsWith(b, pos, MembersTail(io, members, pretty, depth))
    ensures Members(io, b, pos, acc) ==
            if FiniteMembers(members)
            then Ok(Obj(acc + members), pos + |MembersTail(io, members, pretty, depth)|) else Err
    decreases members, 2
  {
    hide *;
    var m := members[0];
    var text := Render(io, m.value, pretty, depth + 1);
    var colon := pos + |WriteString(m.key)|;
    MemberHead(io, members, pretty, depth, b, pos, acc);
    ValueRead(io, m.value, pretty, depth + 1, b, colon + 2);
    TailMembersFinite(members);
    if |members| == 1 {
      CloseFound(b, colon + 2 + |text|, pretty, depth, RIGHT_BRACE);
      assert members == [m];
    } else if AllFinite(m.value) {
      var sep := Separator(pretty, depth + 1);
      var rest := MembersTail(io, members[1..], pretty, depth);
      CommaFound(b, colon + 2 + |text|, pretty, depth + 1, rest);
      MembersSkip(io, b, colon + 2 + |text|, pretty, depth + 1, acc + [m]);
      assert acc + [m] + members[1..] == acc + members;
      MembersRead(io, members[1..], pretty, depth, b, colon + 2 + |text| + |sep|, acc + [m]);
      assert forall i :: 0 < i < |members| ==> members[i] == members[1..][i - 1];
    }
  }

  /** The first member's key and colon are read; what is left is its value and what follows. */
  lemma MemberHead<F>(io: FloatText<F>, members: seq<Member<F>>, pretty: bool, depth: nat, b: seq<byte>, pos: nat,
                      acc: seq<Member<F>>)
    requires members != [] && Sorted(acc + members) && StartsWith(b, pos, MembersTail(io, members, pretty, depth))
    ensures var m := members[0];
            var text := Render(io, m.value, pretty, depth + 1);
            var after := AfterMember(io, members, pretty, depth);
            var at := pos + |WriteString(m.key)| + 2;
            && at + |text| + |after| <= |b|
            && |MembersTail(io, members, pretty, depth)| == |WriteString(m.key)| + 2 + |text| + |after|
            && StartsWith(b, at, text) && StartsWith(b, at + |text|, after) && Delimited(b, at + |text|)
            && after == (if |members| == 1 then Break(pretty, depth) + [RIGHT_BRACE]
                         else Separator(pretty, depth + 1) + MembersTail(io, members[1..], pretty, depth))
            && (Value(io, b, at).Err? ==> Members(io, b, pos, acc) == Err)
            && (Value(io, b, at).Ok? ==>
                  var v := Value(io, b, at);
                  var p := SkipWhitespace(b, v.next);
                  && (Peek(b, p, COMMA) ==>
                      Members(io, b, pos, acc) == Members(io, b, p + 1, acc + [Member(m.key, v.value)]))
                  && (Peek(b, p, RIGHT_BRACE) ==>
                      Members(io, b, pos, acc) == Ok(Obj(acc + [Member(m.key, v.value)]), p + 1)))
  {
    hide *;
    var m := members[0];
    var text := Render(io, m.value, pretty, depth + 1);
    var after := AfterMember(io, members, pretty, depth);
    var colon := pos + |WriteString(m.key)|;
    MemberText(io, members, pretty, depth);
    KeyRead(io, b, pos, m.key, text + after);
    Split(b, colon + 2, text, after);
    MembersTurn(io, b, pos, m.key, colon, acc);
    if Value(io, b, colon + 1).Ok? { AppendSorted(acc, members, Value(io, b, colon + 1).value); }
    AfterLast(io, members, pretty, depth);
    if |members| == 1 {
      CloseFound(b, colon + 2 + |text|, pretty, depth, RIGHT_BRACE);
    } else {
      CommaFound(b, colon + 2 + |text|, pretty, depth + 1, MembersTail(io, members[1..], pretty, depth));
    }
  }

  lemma AfterLast<F>(io: FloatText<F>, members: seq<Member<F>>, pretty: bool, depth: nat)
    requires members != []
    ensures AfterMember(io, members, pretty, depth) ==
            if |members| == 1 then Break(pretty, depth) + [RIGHT_BRACE]
            else Separator(pretty, depth + 1) + MembersTail(io, members[1..], pretty, depth)
  {
  }

  lemma AppendSorted<F>(acc: seq<Member<F>>, members: seq<Member<F>>, v: Json<F>)
    requires members != [] && Sorted(acc + members)
    ensures Insert(acc, Member(members[0].key, v)) == acc + [Member(members[0].key, v)]
  {
    forall i | 0 <= i < |acc| ensures KeyLess(acc[i].key, members[0].key) {
      assert (acc + members)[i] == acc[i] && (acc + members)[|acc|] == members[0];
    }
    InsertLast(acc, Member(members[0].key, v));
  }
}
