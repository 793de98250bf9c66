/**
 The codec as it runs: a parser that advances a position, and writers that append to a
 string, each proved to compute the functions of module Json.
 */
module JsonMethods {
  import opened Options
  import opened Utf8
  import J = Json

  class Parser<F> {
    const io: J.FloatText<F>
    const bytes: seq<byte>
    var pos: nat

    constructor (io: J.FloatText<F>, bytes: seq<byte>)
      ensures this.io == io && this.bytes == bytes && pos == 0
    {
      this.io := io;
      this.bytes := bytes;
      pos := 0;
    }

    ghost predicate Valid()
      reads this`pos
    {
      pos <= |bytes|
    }

    /** The outcome and the position agree with the specification's; after an error the position is free. */
    ghost predicate Agrees<T>(r: Option<T>, spec: J.Parsed<T>)
      reads this`pos
    {
      Valid() && (if spec.Ok? then r == Some(spec.value) && pos == spec.next else r.None?)
    }

    method SkipWhitespace()
      requires Valid()
      modifies this`pos
      ensures Valid() && pos == J.SkipWhitespace(bytes, old(pos))
    {
      while pos < |bytes| && J.Whitespace(bytes[pos])
        invariant Valid() && J.SkipWhitespace(bytes, pos) == J.SkipWhitespace(bytes, old(pos))
        decreases |bytes| - pos
      {
        pos := pos + 1;
      }
    }

    method SkipDigits()
      requires Valid()
      modifies this`pos
      ensures Valid() && pos == J.SkipDigits(bytes, old(pos))
    {
      while pos < |bytes| && J.Digit(bytes[pos])
        invariant Valid() && J.SkipDigits(bytes, pos) == J.SkipDigits(bytes, old(pos))
        decreases |bytes| - pos
      {
        pos := pos + 1;
      }
    }

    method String() returns (r: Option<Text>)
      requires Valid()
      modifies this`pos
      ensures Agrees(r, J.String(bytes, old(pos)))
    {
      hide Decode, J.UnicodeEscape, J.SimpleEscape, Width;
      if !J.Peek(bytes, pos, J.QUOTE) { return None; }
      pos := pos + 1;
      var out: Text := [];
      while true
        invariant Valid() && old(pos) < pos && J.StringBody(bytes, pos, out) == J.String(bytes, old(pos))
        decreases |bytes| - pos
      {
        if pos == |bytes| { return None; }
        if bytes[pos] == J.QUOTE {
          pos := pos + 1;
          return Some(out);
        } else if bytes[pos] == J.BACKSLASH {
          pos := pos + 1;
          if pos == |bytes| { return None; }
          var escape := bytes[pos];
          pos := pos + 1;
          if escape == J.LOWER_U {
            var c := J.UnicodeEscape(bytes, pos);
            if c.None? { return None; }
            pos := pos + 4;
            out := out + [c.value];
          } else {
            var c := J.SimpleEscape(escape);
            if c.None? { return None; }
            out := out + [c.value];
          }
        } else {
          var stop := if pos + Width(bytes[pos]) <= |bytes| then pos + Width(bytes[pos]) else |bytes|;
          var chunk := Decode(bytes[pos..stop]);
          if chunk.None? { return None; }
          pos := stop;
          out := out + chunk.value;
        }
      }
    }

    /** Scans a number's text and says whether it has a fraction or an exponent. */
    method ScanNumber() returns (isFloat: bool)
      requires pos < |bytes| && (bytes[pos] == J.MINUS || J.Digit(bytes[pos]))
      modifies this`pos
      ensures Valid()
      ensures var whole := J.SkipDigits(bytes, if bytes[old(pos)] == J.MINUS then old(pos) + 1 else old(pos));
              pos == J.ExponentEnd(bytes, J.FractionEnd(bytes, whole)) && isFloat == (pos != whole)
    {
      hide J.SkipDigits;
      if bytes[pos] == J.MINUS { pos := pos + 1; }
      SkipDigits();
      isFloat := false;
      if J.Peek(bytes, pos, J.DOT) {
        isFloat := true;
        pos := pos + 1;
        SkipDigits();
      }
      if J.Peek(bytes, pos, J.LOWER_E) || J.Peek(bytes, pos, J.UPPER_E) {
        isFloat := true;
        pos := pos + 1;
        if J.Peek(bytes, pos, J.PLUS) || J.Peek(bytes, pos, J.MINUS) { pos := pos + 1; }
        SkipDigits();
      }
    }

    method Number() returns (r: Option<J.Json<F>>)
      requires pos < |bytes| && (bytes[pos] == J.MINUS || J.Digit(bytes[pos]))
      modifies this`pos
      ensures Agrees(r, J.NumberToken(io, bytes, old(pos)))
    {
      hide J.SkipDigits, J.FractionEnd, J.ExponentEnd, J.ReadInt;
      var start := pos;
      var isFloat := ScanNumber();
      if isFloat {
        var f := io.read(bytes[start..pos]);
        r := if f.Some? then Some(J.Number(f.value)) else None;
      } else {
        var n := J.ReadInt(bytes[start..pos]);
        r := if n.Some? then Some(J.Int(n.value)) else None;
      }
    }

    method Literal(word: seq<byte>, v: J.Json<F>) returns (r: Option<J.Json<F>>)
      requires Valid()
      modifies this`pos
      ensures Agrees(r, J.Literal(bytes, old(pos), word, v))
    {
      if J.StartsWith(bytes, pos, word) {
        pos := pos + |word|;
        r := Some(v);
      } else {
        r := None;
      }
    }

    method Value() returns (r: Option<J.Json<F>>)
      requires Valid()
      modifies this`pos
      ensures Agrees(r, J.Value(io, bytes, old(pos)))
      decreases |bytes| - pos, 2
    {
      hide J.Object, J.Array, J.NumberToken, J.String;
      SkipWhitespace();
      if pos == |bytes| {
        r := None;
      } else if bytes[pos] == J.LEFT_BRACE {
        r := Object();
      } else if bytes[pos] == J.LEFT_BRACKET {
        r := Array();
      } else if bytes[pos] == J.QUOTE {
        var s := String();
        r := if s.Some? then Some(J.Str(s.value)) else None;
      } else if bytes[pos] == J.LOWER_T {
        r := Literal(J.TRUE_WORD, J.Bool(true));
      } else if bytes[pos] == J.LOWER_F {
        r := Literal(J.FALSE_WORD, J.Bool(false));
      } else if bytes[pos] == J.LOWER_N {
        r := Literal(J.NULL_WORD, J.Null);
      } else if bytes[pos] == J.MINUS || J.Digit(bytes[pos]) {
        r := Number();
      } else {
        r := None;
      }
    }

    method Array() returns (r: Option<J.Json<F>>)
      requires J.Peek(bytes, pos, J.LEFT_BRACKET)
      modifies this`pos
      ensures Agrees(r, J.Array(io, bytes, old(pos)))
      decreases |bytes| - pos, 1
    {
      hide J.Value;
      pos := pos + 1;
      var items: seq<J.Json<F>> := [];
      SkipWhitespace();
      if J.Peek(bytes, pos, J.RIGHT_BRACKET) {
        pos := pos + 1;
        return Some(J.Arr(items));
      }
      while true
        invariant Valid() && old(pos) < pos && J.Items(io, bytes, pos, items) == J.Array(io, bytes, old(pos))
        decreases |bytes| - pos
      {
        var v := Value();
        if v.None? { return None; }
        items := items + [v.value];
        SkipWhitespace();
        if J.Peek(bytes, pos, J.COMMA) {
          pos := pos + 1;
        } else if J.Peek(bytes, pos, J.RIGHT_BRACKET) {
          pos := pos + 1;
          return Some(J.Arr(items));
        } else {
          return None;
        }
      }
    }

    /** One key, its colon and its value. */
    method Entry() returns (r: Option<J.Member<F>>)
      requires Valid()
      modifies this`pos
      ensures Agrees(r, EntrySpec(io, bytes, old(pos)))
      decreases |bytes| - pos, 3
    {
      hide J.Value, J.String, J.SkipWhitespace;
      SkipWhitespace();
      var key := String();
      if key.None? { return None; }
      SkipWhitespace();
      if !J.Peek(bytes, pos, J.COLON) { return None; }
      pos := pos + 1;
      var v := Value();
      r := if v.Some? then Some(J.Member(key.value, v.value)) else None;
    }

    method Object() returns (r: Option<J.Json<F>>)
      requires J.Peek(bytes, pos, J.LEFT_BRACE)
      modifies this`pos
      ensures Agrees(r, J.Object(io, bytes, old(pos)))
      decreases |bytes| - pos, 1
    {
      hide J.Members, J.SkipWhitespace, EntrySpec, J.Insert;
      pos := pos + 1;
      var members: seq<J.Member<F>> := [];
      SkipWhitespace();
      if J.Peek(bytes, pos, J.RIGHT_BRACE) {
        pos := pos + 1;
        return Some(J.Obj(members));
      }
      while true
        invariant Valid() && old(pos) < pos && J.Members(io, bytes, pos, members) == J.Object(io, bytes, old(pos))
        decreases |bytes| - pos
      {
        MembersByEntry(io, bytes, pos, members);
        var m := Entry();
        if m.None? { return None; }
        members := J.Insert(members, m.value);
        SkipWhitespace();
        if J.Peek(bytes, pos, J.COMMA) {
          pos := pos + 1;
        } else if J.Peek(bytes, pos, J.RIGHT_BRACE) {
          pos := pos + 1;
          return Some(J.Obj(members));
        } else {
          return None;
        }
      }
    }
  }

  function EntrySpec<F>(io: J.FloatText<F>, b: seq<byte>, pos: nat): (r: J.Parsed<J.Member<F>>)
    requires pos <= |b|
    ensures r.Ok? ==> pos < r.next <= |b|
  {
    var key := J.String(b, J.SkipWhitespace(b, pos));
    if key.Err? then J.Err
    else
      var colon := J.SkipWhitespace(b, key.next);
      if !J.Peek(b, colon, J.COLON) then J.Err
      else
        var v := J.Value(io, b, colon + 1);
        if v.Err? then J.Err else J.Ok(J.Member(key.value, v.value), v.next)
  }

  /** One turn of the object loop, in terms of the entry it reads. */
  lemma MembersByEntry<F>(io: J.FloatText<F>, b: seq<byte>, pos: nat, acc: seq<J.Member<F>>)
    requires pos <= |b|
    ensures var m := EntrySpec(io, b, pos);
            if m.Err? then J.Members(io, b, pos, acc) == J.Err
            else
              var p := J.SkipWhitespace(b, m.next);
              var members := J.Insert(acc, m.value);
              J.Members(io, b, pos, acc) ==
              if J.Peek(b, p, J.COMMA) then J.Members(io, b, p + 1, members)
              else if J.Peek(b, p, J.RIGHT_BRACE) then J.Ok(J.Obj(members), p + 1)
              else J.Err
  {
    hide J.Value, J.String, J.Insert, J.SkipWhitespace;
  }

  method Parse<F>(io: J.FloatText<F>, bytes: seq<byte>) returns (r: Option<J.Json<F>>)
    ensures r == J.Parse(io, bytes)
  {
    hide J.Value;
    var parser := new Parser<F>(io, bytes);
    var v := parser.Value();
    if v.None? { return None; }
    parser.SkipWhitespace();
    r := if parser.pos == |bytes| then v else None;
  }

  // ---------------------------------------------------------------- writers

  method WriteString(out: seq<byte>, text: Text) returns (r: seq<byte>)
    ensures r == out + J.WriteString(text)
  {
    hide J.EscapeChar;
    r := out + [J.QUOTE];
    var index := 0;
    assert text[0..] == text;
    while index < |text|
      invariant 0 <= index <= |text|
      invariant r + J.EscapeText(text[index..]) == out + ([J.QUOTE] + J.EscapeText(text))
    {
      r := r + J.EscapeChar(text[index]);
      assert text[index..][1..] == text[index + 1..];
      index := index + 1;
    }
    assert J.EscapeText(text[index..]) == [] && r == out + ([J.QUOTE] + J.EscapeText(text));
    r := r + [J.QUOTE];
  }

  lemma Associate(a: seq<byte>, b: seq<byte>, c: seq<byte>)
    ensures a + b + c == a + (b + c)
  {
  }

  /** The separator a writer puts before item `index`, or after it. */
  function Comma(more: bool, text: seq<byte>): seq<byte> {
    if more then text else []
  }

  /** What `write_compact` has still to write of an array from item `index` on. */
  function CompactItems<F>(io: J.FloatText<F>, items: seq<J.Json<F>>, depth: nat, index: nat): seq<byte>
    requires index <= |items|
  {
    if index == |items| then [J.RIGHT_BRACKET]
    else Comma(index > 0, [J.COMMA, J.SPACE]) + (J.RenderItems(io, items[index..], false, depth) + [J.RIGHT_BRACKET])
  }

  lemma CompactItem<F>(io: J.FloatText<F>, items: seq<J.Json<F>>, depth: nat, index: nat)
    requires index < |items|
    ensures CompactItems(io, items, depth, index) ==
            Comma(index > 0, [J.COMMA, J.SPACE])
            + (J.Render(io, items[index], false, depth) + CompactItems(io, items, depth, index + 1))
  {
    hide J.Render;
    assert items[index..][1..] == items[index + 1..];
  }

  /** What `write_compact` has still to write of an object from member `index` on. */
  function CompactMembers<F>(io: J.FloatText<F>, members: seq<J.Member<F>>, depth: nat, index: nat): seq<byte>
    requires index <= |members|
  {
    if index == |members| then [J.RIGHT_BRACE]
    else Comma(index > 0, [J.COMMA, J.SPACE]) + (J.RenderMembers(io, members[index..], false, depth) + [J.RIGHT_BRACE])
  }

  lemma CompactMember<F>(io: J.FloatText<F>, members: seq<J.Member<F>>, depth: nat, index: nat)
    requires index < |members|
    ensures CompactMembers(io, members, depth, index) ==
            Comma(index > 0, [J.COMMA, J.SPACE])
            + (J.RenderMember(io, members[index], false, depth) + CompactMembers(io, members, depth, index + 1))
  {
    hide J.RenderMember;
    assert members[index..][1..] == members[index + 1..];
  }

  method WriteCompact<F>(io: J.FloatText<F>, out: seq<byte>, v: J.Json<F>, ghost depth: nat) returns (r: seq<byte>)
    ensures r == out + J.Render(io, v, false, depth)
    decreases v
  {
    match v
    case Null => r := out + J.NULL_WORD;
    case Bool(b) => r := out + (if b then J.TRUE_WORD else J.FALSE_WORD);
    case Int(n) => r := out + J.ShowInt(n);
    case Number(f) => r := out + J.FormatFloat(io, f);
    case Str(text) => r := WriteString(out, text);
    case Arr(items) => r := WriteCompactItems(io, out, items, depth);
    case Obj(members) => r := WriteCompactMembers(io, out, members, depth);
  }

  method WriteCompactItems<F>(io: J.FloatText<F>, out: seq<byte>, items: seq<J.Json<F>>, ghost depth: nat)
    returns (r: seq<byte>)
    ensures r == out + J.Render(io, J.Arr(items), false, depth)
    decreases items
  {
    hide J.Render, CompactItems;
    r := out + [J.LEFT_BRACKET];
    ghost var whole := r + CompactItems(io, items, depth + 1, 0);
    var index := 0;
    while index < |items|
      invariant 0 <= index <= |items|
      invariant r + CompactItems(io, items, depth + 1, index) == whole
    {
      CompactItem(io, items, depth + 1, index);
      if index > 0 { r := r + [J.COMMA, J.SPACE]; }
      r := WriteCompact(io, r, items[index], depth + 1);
      index := index + 1;
    }
    r := r + [J.RIGHT_BRACKET];
    CompactArray(io, items, depth);
  }

  lemma CompactArray<F>(io: J.FloatText<F>, items: seq<J.Json<F>>, depth: nat)
    ensures J.Render(io, J.Arr(items), false, depth) == [J.LEFT_BRACKET] + CompactItems(io, items, depth + 1, 0)
    ensures CompactItems(io, items, depth + 1, |items|) == [J.RIGHT_BRACKET]
  {
    assert items[0..] == items;
  }

  method WriteCompactMembers<F>(io: J.FloatText<F>, out: seq<byte>, members: seq<J.Member<F>>, ghost depth: nat)
    returns (r: seq<byte>)
    ensures r == out + J.Render(io, J.Obj(members), false, depth)
    decreases members
  {
    hide J.Render, CompactMembers, J.WriteString;
    r := out + [J.LEFT_BRACE];
    ghost var whole := r + CompactMembers(io, members, depth + 1, 0);
    var index := 0;
    while index < |members|
      invariant 0 <= index <= |members|
      invariant r + CompactMembers(io, members, depth + 1, index) == whole
    {
      CompactMember(io, members, depth + 1, index);
      if index > 0 { r := r + [J.COMMA, J.SPACE]; }
      r := WriteString(r, members[index].key);
      r := r + [J.COLON, J.SPACE];
      r := WriteCompact(io, r, members[index].value, depth + 1);
      index := index + 1;
    }
    r := r + [J.RIGHT_BRACE];
    CompactObject(io, members, depth);
  }

  lemma CompactObject<F>(io: J.FloatText<F>, members: seq<J.Member<F>>, depth: nat)
    ensures J.Render(io, J.Obj(members), false, depth) == [J.LEFT_BRACE] + CompactMembers(io, members, depth + 1, 0)
    ensures CompactMembers(io, members, depth + 1, |members|) == [J.RIGHT_BRACE]
  {
    assert members[0..] == members;
  }

  /** What `write_value` has still to write of an array from item `index` on. */
  function PrettyItems<F>(io: J.FloatText<F>, items: seq<J.Json<F>>, depth: nat, index: nat): seq<byte>
    requires index <= |items|
  {
    if index == |items| then J.Spaces(2 * depth) + [J.RIGHT_BRACKET]
    else
      J.Spaces(2 * (depth + 1))
      + (J.RenderItems(io, items[index..], true, depth + 1) + (J.Break(true, depth) + [J.RIGHT_BRACKET]))
  }

  lemma PrettyItem<F>(io: J.FloatText<F>, items: seq<J.Json<F>>, depth: nat, index: nat)
    requires index < |items|
    ensures PrettyItems(io, items, depth, index) ==
            J.Spaces(2 * (depth + 1))
            + (J.Render(io, items[index], true, depth + 1)
               + (Comma(index + 1 < |items|, [J.COMMA]) + ([J.LF] + PrettyItems(io, items, depth, index + 1))))
  {
    hide J.Render, J.Spaces;
    assert items[index..][1..] == items[index + 1..];
  }

  function PrettyMembers<F>(io: J.FloatText<F>, members: seq<J.Member<F>>, depth: nat, index: nat): seq<byte>
    requires index <= |members|
  {
    if index == |members| then J.Spaces(2 * depth) + [J.RIGHT_BRACE]
    else
      J.Spaces(2 * (depth + 1))
      + (J.RenderMembers(io, members[index..], true, depth + 1) + (J.Break(true, depth) + [J.RIGHT_BRACE]))
  }

  lemma PrettyMember<F>(io: J.FloatText<F>, members: seq<J.Member<F>>, depth: nat, index: nat)
    requires index < |members|
    ensures PrettyMembers(io, members, depth, index) ==
            J.Spaces(2 * (depth + 1))
            + (J.RenderMember(io, members[index], true, depth + 1)
               + (Comma(index + 1 < |members|, [J.COMMA]) + ([J.LF] + PrettyMembers(io, members, depth, index + 1))))
  {
    hide J.RenderMember, J.Spaces;
    assert members[index..][1..] == members[index + 1..];
  }

  method WriteValue<F>(io: J.FloatText<F>, out: seq<byte>, v: J.Json<F>, indent: nat) returns (r: seq<byte>)
    ensures r == out + J.Render(io, v, true, indent)
    decreases v
  {
    match v
    case Null => r := out + J.NULL_WORD;
    case Bool(b) => r := out + (if b then J.TRUE_WORD else J.FALSE_WORD);
    case Int(n) => r := out + J.ShowInt(n);
    case Number(f) => r := out + J.FormatFloat(io, f);
    case Str(text) => r := WriteString(out, text);
    case Arr(items) => r := WriteItems(io, out, items, indent);
    case Obj(members) => r := WriteMembers(io, out, members, indent);
  }

  method WriteItems<F>(io: J.FloatText<F>, out: seq<byte>, items: seq<J.Json<F>>, indent: nat) returns (r: seq<byte>)
    ensures r == out + J.Render(io, J.Arr(items), true, indent)
    decreases items
  {
    hide J.Render, PrettyItems, J.Spaces;
    PrettyArray(io, items, indent);
    if items == [] {
      return out + [J.LEFT_BRACKET, J.RIGHT_BRACKET];
    }
    Associate(out, [J.LEFT_BRACKET, J.LF], PrettyItems(io, items, indent, 0));
    r := out + [J.LEFT_BRACKET, J.LF];
    ghost var whole := r + PrettyItems(io, items, indent, 0);
    var index := 0;
    while index < |items|
      invariant 0 <= index <= |items|
      invariant r + PrettyItems(io, items, indent, index) == whole
    {
      PrettyItem(io, items, indent, index);
      r := r + J.Spaces(2 * (indent + 1));
      r := WriteValue(io, r, items[index], indent + 1);
      if index + 1 < |items| { r := r + [J.COMMA]; }
      r := r + [J.LF];
      index := index + 1;
    }
    Associate(r, J.Spaces(2 * indent), [J.RIGHT_BRACKET]);
    r := r + J.Spaces(2 * indent);
    r := r + [J.RIGHT_BRACKET];
  }

  lemma PrettyArray<F>(io: J.FloatText<F>, items: seq<J.Json<F>>, depth: nat)
    ensures J.Render(io, J.Arr(items), true, depth) ==
            if items == [] then [J.LEFT_BRACKET, J.RIGHT_BRACKET]
            else [J.LEFT_BRACKET, J.LF] + PrettyItems(io, items, depth, 0)
    ensures PrettyItems(io, items, depth, |items|) == J.Spaces(2 * depth) + [J.RIGHT_BRACKET]
  {
    assert items[0..] == items;
  }

  method WriteMembers<F>(io: J.FloatText<F>, out: seq<byte>, members: seq<J.Member<F>>, indent: nat)
    returns (r: seq<byte>)
    ensures r == out + J.Render(io, J.Obj(members), true, indent)
    decreases members
  {
    hide J.Render, PrettyMembers, J.WriteString, J.Spaces;
    PrettyObject(io, members, indent);
    if members == [] {
      return out + [J.LEFT_BRACE, J.RIGHT_BRACE];
    }
    Associate(out, [J.LEFT_BRACE, J.LF], PrettyMembers(io, members, indent, 0));
    r := out + [J.LEFT_BRACE, J.LF];
    ghost var whole := r + PrettyMembers(io, members, indent, 0);
    var index := 0;
    while index < |members|
      invariant 0 <= index <= |members|
      invariant r + PrettyMembers(io, members, indent, index) == whole
    {
      PrettyMember(io, members, indent, index);
      r := r + J.Spaces(2 * (indent + 1));
      r := WriteString(r, members[index].key);
      r := r + [J.COLON, J.SPACE];
      r := WriteValue(io, r, members[index].value, indent + 1);
      if index + 1 < |members| { r := r + [J.COMMA]; }
      r := r + [J.LF];
      index := index + 1;
    }
    Associate(r, J.Spaces(2 * indent), [J.RIGHT_BRACE]);
    r := r + J.Spaces(2 * indent);
    r := r + [J.RIGHT_BRACE];
  }

  lemma PrettyObject<F>(io: J.FloatText<F>, members: seq<J.Member<F>>, depth: nat)
    ensures J.Render(io, J.Obj(members), true, depth) ==
            if members == [] then [J.LEFT_BRACE, J.RIGHT_BRACE]
            else [J.LEFT_BRACE, J.LF] + PrettyMembers(io, members, depth, 0)
    ensures PrettyMembers(io, members, depth, |members|) == J.Spaces(2 * depth) + [J.RIGHT_BRACE]
  {
    assert members[0..] == members;
  }
}
