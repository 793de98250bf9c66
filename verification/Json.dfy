/**
 The JSON value, its two printers and its recursive-descent parser, over UTF-8 bytes.

 A finite float is a value of a type `F` the codec knows only through the standard
 library's display and parse, given as a `FloatText`.
 */
module Json {
  import opened Options
  import opened Utf8

  const TAB: byte := 9
  const LF: byte := 10
  const FF: byte := 12
  const CR: byte := 13
  const SPACE: byte := 32
  const QUOTE: byte := 34
  const PLUS: byte := 43
  const COMMA: byte := 44
  const MINUS: byte := 45
  const DOT: byte := 46
  const SLASH: byte := 47
  const ZERO: byte := 48
  const NINE: byte := 57
  const COLON: byte := 58
  const UPPER_E: byte := 69
  const LEFT_BRACKET: byte := 91
  const BACKSLASH: byte := 92
  const RIGHT_BRACKET: byte := 93
  const LOWER_E: byte := 101
  const LOWER_F: byte := 102
  const LOWER_N: byte := 110
  const LOWER_T: byte := 116
  const LOWER_U: byte := 117
  const LEFT_BRACE: byte := 123
  const RIGHT_BRACE: byte := 125

  const TRUE_WORD: seq<byte> := [116, 114, 117, 101]
  const FALSE_WORD: seq<byte> := [102, 97, 108, 115, 101]
  const NULL_WORD: seq<byte> := [110, 117, 108, 108]
  const NAN_WORD: seq<byte> := [78, 97, 78]
  const INFINITY_WORD: seq<byte> := [73, 110, 102, 105, 110, 105, 116, 121]

  type i64 = n: int | -0x8000_0000_0000_0000 <= n < 0x8000_0000_0000_0000

  datatype Float<F> = NaN | Infinite(negative: bool) | Finite(x: F)

  /** `Obj` holds a `BTreeMap`: its members in strictly increasing key order. */
  datatype Json<F> =
    | Null
    | Bool(b: bool)
    | Int(n: i64)
    | Number(f: Float<F>)
    | Str(text: Text)
    | Arr(items: seq<Json<F>>)
    | Obj(members: seq<Member<F>>)

  datatype Member<F> = Member(key: Text, value: Json<F>)

  /** `f64`'s `Display` on finite values, and `str::parse::<f64>`. */
  datatype FloatText<!F> = FloatText(show: F -> seq<byte>, read: seq<byte> -> Option<Float<F>>)

  datatype Parsed<+T> = Ok(value: T, next: nat) | Err

  // ---------------------------------------------------------------- ordered maps

  /** The order of `String` keys: by code point, as UTF-8 bytes also order. */
  predicate KeyLess(a: Text, b: Text) {
    b != [] && (a == [] || a[0] < b[0] || (a[0] == b[0] && KeyLess(a[1..], b[1..])))
  }

  predicate Sorted<F>(members: seq<Member<F>>) {
    forall i, j :: 0 <= i < j < |members| ==> KeyLess(members[i].key, members[j].key)
  }

  /** `BTreeMap::insert`: the last value given for a key wins. */
  function Insert<F>(members: seq<Member<F>>, m: Member<F>): seq<Member<F>> {
    if members == [] then [m]
    else if KeyLess(m.key, members[0].key) then [m] + members
    else if m.key == members[0].key then [m] + members[1..]
    else [members[0]] + Insert(members[1..], m)
  }

  function Lookup<F>(members: seq<Member<F>>, key: Text): Option<Json<F>> {
    if members == [] then None
    else if members[0].key == key then Some(members[0].value)
    else Lookup(members[1..], key)
  }

  // ---------------------------------------------------------------- printing

  predicate Digit(b: byte) {
    ZERO <= b <= NINE
  }

  function ShowNat(n: nat): seq<byte> {
    if n < 10 then [ZERO + n] else ShowNat(n / 10) + [ZERO + n % 10]
  }

  function ShowInt(n: int): seq<byte> {
    if n < 0 then [MINUS] + ShowNat(-n) else ShowNat(n)
  }

  /** `format_float`: a finite float always carries a decimal point or an exponent. */
  function FormatFloat<F>(io: FloatText<F>, f: Float<F>): seq<byte> {
    match f
    case NaN => NAN_WORD
    case Infinite(negative) => if negative then [MINUS] + INFINITY_WORD else INFINITY_WORD
    case Finite(x) => Pointed(io.show(x))
  }

  function Pointed(text: seq<byte>): seq<byte> {
    if DOT in text || LOWER_E in text || UPPER_E in text then text else text + [DOT, ZERO]
  }

  /** A hexadecimal digit, in lower case. */
  function HexDigit(d: int): byte
    requires 0 <= d < 16
  {
    if d < 10 then ZERO + d else 87 + d
  }

  function EscapeChar(c: scalar): (r: seq<byte>)
    ensures |r| >= 1
  {
    if c == QUOTE then [BACKSLASH, QUOTE]
    else if c == BACKSLASH then [BACKSLASH, BACKSLASH]
    else if c == LF then [BACKSLASH, LOWER_N]
    else if c == CR then [BACKSLASH, 114]
    else if c == TAB then [BACKSLASH, LOWER_T]
    else if c == 8 then [BACKSLASH, 98]
    else if c == FF then [BACKSLASH, LOWER_F]
    else if c < 0x20 then [BACKSLASH, LOWER_U, ZERO, ZERO, HexDigit(c / 16), HexDigit(c % 16)]
    else EncodeChar(c)
  }

  function EscapeText(text: Text): seq<byte> {
    if text == [] then [] else EscapeChar(text[0]) + EscapeText(text[1..])
  }

  function WriteString(text: Text): seq<byte> {
    [QUOTE] + EscapeText(text) + [QUOTE]
  }

  function Spaces(n: nat): seq<byte> {
    seq(n, _ => SPACE)
  }

  /** The line break before an item or a closing bracket: none in the compact form. */
  function Break(pretty: bool, depth: nat): seq<byte> {
    if pretty then [LF] + Spaces(2 * depth) else []
  }

  function Separator(pretty: bool, depth: nat): seq<byte> {
    if pretty then [COMMA] + Break(true, depth) else [COMMA, SPACE]
  }

  /** `write_value` (`pretty`, at `depth`) and `write_compact`. */
  function Render<F>(io: FloatText<F>, v: Json<F>, pretty: bool, depth: nat): seq<byte>
    decreases v, 0
  {
    match v
    case Null => NULL_WORD
    case Bool(b) => if b then TRUE_WORD else FALSE_WORD
    case Int(n) => ShowInt(n)
    case Number(f) => FormatFloat(io, f)
    case Str(text) => WriteString(text)
    case Arr(items) =>
      if items == [] then [LEFT_BRACKET, RIGHT_BRACKET]
      else [LEFT_BRACKET] + Break(pretty, depth + 1) + RenderItems(io, items, pretty, depth + 1)
           + Break(pretty, depth) + [RIGHT_BRACKET]
    case Obj(members) =>
      if members == [] then [LEFT_BRACE, RIGHT_BRACE]
      else [LEFT_BRACE] + Break(pretty, depth + 1) + RenderMembers(io, members, pretty, depth + 1)
           + Break(pretty, depth) + [RIGHT_BRACE]
  }

  function RenderItems<F>(io: FloatText<F>, items: seq<Json<F>>, pretty: bool, depth: nat): seq<byte>
    requires items != []
    decreases items, 1
  {
    Render(io, items[0], pretty, depth)
    + if |items| == 1 then [] else Separator(pretty, depth) + RenderItems(io, items[1..], pretty, depth)
  }

  function RenderMember<F>(io: FloatText<F>, m: Member<F>, pretty: bool, depth: nat): seq<byte>
    decreases m, 1
  {
    WriteString(m.key) + [COLON, SPACE] + Render(io, m.value, pretty, depth)
  }

  function RenderMembers<F>(io: FloatText<F>, members: seq<Member<F>>, pretty: bool, depth: nat): seq<byte>
    requires members != []
    decreases members, 2
  {
    RenderMember(io, members[0], pretty, depth)
    + if |members| == 1 then [] else Separator(pretty, depth) + RenderMembers(io, members[1..], pretty, depth)
  }

  function ToText<F>(io: FloatText<F>, v: Json<F>): seq<byte> {
    Render(io, v, true, 0)
  }

  function ToCompact<F>(io: FloatText<F>, v: Json<F>): seq<byte> {
    Render(io, v, false, 0)
  }

  // ---------------------------------------------------------------- parsing

  predicate Whitespace(b: byte) {
    b == SPACE || b == TAB || b == LF || b == FF || b == CR
  }

  function SkipWhitespace(b: seq<byte>, pos: nat): (p: nat)
    requires pos <= |b|
    ensures pos <= p <= |b|
    decreases |b| - pos
  {
    if pos < |b| && Whitespace(b[pos]) then SkipWhitespace(b, pos + 1) else pos
  }

  function SkipDigits(b: seq<byte>, pos: nat): (p: nat)
    requires pos <= |b|
    ensures pos <= p <= |b|
    decreases |b| - pos
  {
    if pos < |b| && Digit(b[pos]) then SkipDigits(b, pos + 1) else pos
  }

  predicate Peek(b: seq<byte>, pos: nat, c: byte) {
    pos < |b| && b[pos] == c
  }

  predicate StartsWith(b: seq<byte>, pos: nat, word: seq<byte>) {
    pos + |word| <= |b| && b[pos..pos + |word|] == word
  }

  function HexValue(b: byte): Option<int> {
    if Digit(b) then Some(b - ZERO)
    else if 97 <= b <= 102 then Some(b - 87)
    else if 65 <= b <= 70 then Some(b - 55)
    else None
  }

  /** `u32::from_str_radix(_, 16)` on hexadecimal digits; a leading plus sign is allowed. */
  function ReadHex(digits: seq<byte>, acc: nat): Option<nat> {
    if digits == [] then Some(acc)
    else
      var d := HexValue(digits[0]);
      if d.None? then None else ReadHex(digits[1..], 16 * acc + d.value)
  }

  function UnicodeEscape(b: seq<byte>, pos: nat): (r: Option<scalar>)
    ensures r.Some? ==> pos + 4 <= |b|
  {
    if pos + 4 > |b| then None
    else
      var code := if b[pos] == PLUS then ReadHex(b[pos + 1..pos + 4], 0) else ReadHex(b[pos..pos + 4], 0);
      if code.Some? && IsScalar(code.value) then Some(code.value) else None
  }

  /** The character a one-letter escape stands for. */
  function SimpleEscape(e: byte): Option<scalar> {
    if e == QUOTE || e == BACKSLASH || e == SLASH then Some(e)
    else if e == 98 then Some(8)
    else if e == LOWER_F then Some(12)
    else if e == LOWER_N then Some(10)
    else if e == 114 then Some(13)
    else if e == LOWER_T then Some(9)
    else None
  }

  /** The loop of `Parser::string`, after the opening quote. */
  function StringBody(b: seq<byte>, pos: nat, out: Text): (r: Parsed<Text>)
    requires pos <= |b|
    ensures r.Ok? ==> pos < r.next <= |b|
    decreases |b| - pos
  {
    if pos == |b| then Err
    else if b[pos] == QUOTE then Ok(out, pos + 1)
    else if b[pos] == BACKSLASH then
      if pos + 1 == |b| then Err
      else if b[pos + 1] == LOWER_U then
        var c := UnicodeEscape(b, pos + 2);
        if c.None? then Err else StringBody(b, pos + 6, out + [c.value])
      else
        var c := SimpleEscape(b[pos + 1]);
        if c.None? then Err else StringBody(b, pos + 2, out + [c.value])
    else
      var stop := if pos + Width(b[pos]) <= |b| then pos + Width(b[pos]) else |b|;
      var chunk := Decode(b[pos..stop]);
      if chunk.None? then Err else StringBody(b, stop, out + chunk.value)
  }

  function String(b: seq<byte>, pos: nat): (r: Parsed<Text>)
    requires pos <= |b|
    ensures r.Ok? ==> pos < r.next <= |b|
  {
    if Peek(b, pos, QUOTE) then StringBody(b, pos + 1, []) else Err
  }

  function ReadDigits(digits: seq<byte>, acc: nat): Option<nat> {
    if digits == [] then Some(acc)
    else if Digit(digits[0]) then ReadDigits(digits[1..], 10 * acc + (digits[0] - ZERO)) else None
  }

  /** `str::parse::<i64>`, on what the number scanner can pass to it. */
  function ReadInt(text: seq<byte>): Option<i64> {
    var negative := text != [] && text[0] == MINUS;
    var digits := if negative then text[1..] else text;
    var magnitude := ReadDigits(digits, 0);
    if digits == [] || magnitude.None? then None
    else
      var m: int := magnitude.value;
      var n := if negative then -m else m;
      if -0x8000_0000_0000_0000 <= n < 0x8000_0000_0000_0000 then Some(n) else None
  }

  /** Where the number's fraction, if it has one, ends. */
  function FractionEnd(b: seq<byte>, pos: nat): (p: nat)
    requires pos <= |b|
    ensures pos <= p <= |b|
  {
    if Peek(b, pos, DOT) then SkipDigits(b, pos + 1) else pos
  }

  function ExponentEnd(b: seq<byte>, pos: nat): (p: nat)
    requires pos <= |b|
    ensures pos <= p <= |b|
  {
    if Peek(b, pos, LOWER_E) || Peek(b, pos, UPPER_E) then
      SkipDigits(b, if Peek(b, pos + 1, PLUS) || Peek(b, pos + 1, MINUS) then pos + 2 else pos + 1)
    else pos
  }

  function NumberToken<F>(io: FloatText<F>, b: seq<byte>, pos: nat): (r: Parsed<Json<F>>)
    requires pos < |b| && (b[pos] == MINUS || Digit(b[pos]))
    ensures r.Ok? ==> pos < r.next <= |b|
  {
    var whole := SkipDigits(b, if b[pos] == MINUS then pos + 1 else pos);
    var fraction := FractionEnd(b, whole);
    var stop := ExponentEnd(b, fraction);
    if stop == whole then
      var n := ReadInt(b[pos..stop]);
      if n.None? then Err else Ok(Int(n.value), stop)
    else
      var f := io.read(b[pos..stop]);
      if f.None? then Err else Ok(Number(f.value), stop)
  }

  function Literal<F>(b: seq<byte>, pos: nat, word: seq<byte>, v: Json<F>): Parsed<Json<F>> {
    if StartsWith(b, pos, word) then Ok(v, pos + |word|) else Err
  }

  function Value<F>(io: FloatText<F>, b: seq<byte>, pos: nat): (r: Parsed<Json<F>>)
    requires pos <= |b|
    ensures r.Ok? ==> pos < r.next <= |b|
    decreases |b| - pos, 2
  {
    var p := SkipWhitespace(b, pos);
    if p == |b| then Err
    else if b[p] == LEFT_BRACE then Object(io, b, p)
    else if b[p] == LEFT_BRACKET then Array(io, b, p)
    else if b[p] == QUOTE then
      var s := String(b, p);
      if s.Err? then Err else Ok(Str(s.value), s.next)
    else if b[p] == LOWER_T then Literal(b, p, TRUE_WORD, Bool(true))
    else if b[p] == LOWER_F then Literal(b, p, FALSE_WORD, Bool(false))
    else if b[p] == LOWER_N then Literal(b, p, NULL_WORD, Null)
    else if b[p] == MINUS || Digit(b[p]) then NumberToken(io, b, p)
    else Err
  }

  function Array<F>(io: FloatText<F>, b: seq<byte>, pos: nat): (r: Parsed<Json<F>>)
    requires Peek(b, pos, LEFT_BRACKET)
    ensures r.Ok? ==> pos < r.next <= |b|
    decreases |b| - pos, 1
  {
    var p := SkipWhitespace(b, pos + 1);
    if Peek(b, p, RIGHT_BRACKET) then Ok(Arr([]), p + 1) else Items(io, b, p, [])
  }

  /** The loop of `Parser::array`. */
  function Items<F>(io: FloatText<F>, b: seq<byte>, pos: nat, acc: seq<Json<F>>): (r: Parsed<Json<F>>)
    requires pos <= |b|
    ensures r.Ok? ==> pos < r.next <= |b|
    decreases |b| - pos, 3
  {
    var v := Value(io, b, pos);
    if v.Err? then Err
    else
      var p := SkipWhitespace(b, v.next);
      if Peek(b, p, COMMA) then Items(io, b, p + 1, acc + [v.value])
      else if Peek(b, p, RIGHT_BRACKET) then Ok(Arr(acc + [v.value]), p + 1)
      else Err
  }

  function Object<F>(io: FloatText<F>, b: seq<byte>, pos: nat): (r: Parsed<Json<F>>)
    requires Peek(b, pos, LEFT_BRACE)
    ensures r.Ok? ==> pos < r.next <= |b|
    decreases |b| - pos, 1
  {
    var p := SkipWhitespace(b, pos + 1);
    if Peek(b, p, RIGHT_BRACE) then Ok(Obj([]), p + 1) else Members(io, b, p, [])
  }

  /** The loop of `Parser::object`. */
  function Members<F>(io: FloatText<F>, b: seq<byte>, pos: nat, acc: seq<Member<F>>): (r: Parsed<Json<F>>)
    requires pos <= |b|
    ensures r.Ok? ==> pos < r.next <= |b|
    decreases |b| - pos, 3
  {
    var key := String(b, SkipWhitespace(b, pos));
    if key.Err? then Err
    else
      var colon := SkipWhitespace(b, key.next);
      if !Peek(b, colon, COLON) then Err
      else
        var v := Value(io, b, colon + 1);
        if v.Err? then Err
        else
          var members := Insert(acc, Member(key.value, v.value));
          var p := SkipWhitespace(b, v.next);
          if Peek(b, p, COMMA) then Members(io, b, p + 1, members)
          else if Peek(b, p, RIGHT_BRACE) then Ok(Obj(members), p + 1)
          else Err
  }

  /** `parse`: one value, then nothing but whitespace. */
  function Parse<F>(io: FloatText<F>, b: seq<byte>): Option<Json<F>> {
    var v := Value(io, b, 0);
    if v.Ok? && SkipWhitespace(b, v.next) == |b| then Some(v.value) else None
  }
}
