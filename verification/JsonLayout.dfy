/** What printed documents look like: their lines, their columns, and the bytes that never occur. */
module JsonLayout {
  import opened Options
  import opened Utf8
  import opened Json
  import opened JsonProof

  // ---------------------------------------------------------------- one item a line

  /** Each item on its own line, at column `2 * depth`, all but the last with a comma. */
  function ItemLines<F>(io: FloatText<F>, items: seq<Json<F>>, depth: nat): seq<byte> {
    if items == [] then []
    else
      Spaces(2 * depth) + Render(io, items[0], true, depth) + (if |items| > 1 then [COMMA] else []) + [LF]
      + ItemLines(io, items[1..], depth)
  }

  /** Each member on its own line, at column `2 * depth`: the key, a colon and a space, the value. */
  function MemberLines<F>(io: FloatText<F>, members: seq<Member<F>>, depth: nat): seq<byte> {
    if members == [] then []
    else
      Spaces(2 * depth) + (WriteString(members[0].key) + [COLON, SPACE] + Render(io, members[0].value, true, depth))
      + (if |members| > 1 then [COMMA] else []) + [LF] + MemberLines(io, members[1..], depth)
  }

  lemma SpacesAre(n: nat)
    ensures |Spaces(n)| == n && forall i :: 0 <= i < n ==> Spaces(n)[i] == 32
  {}

  lemma Regrouped(a: seq<byte>, b: seq<byte>, c: seq<byte>, d: seq<byte>, e: seq<byte>)
    ensures a + (b + (c + [LF] + d)) + [LF] == a + b + c + [LF] + (d + [LF])
    ensures (a + b + c + d) + e == a + b + c + (d + e)
  {}

  lemma {:induction false} ItemsBroken<F>(io: FloatText<F>, items: seq<Json<F>>, depth: nat)
    requires items != []
    ensures Spaces(2 * depth) + RenderItems(io, items, true, depth) + [LF] == ItemLines(io, items, depth)
  {
    hide Render, Spaces;
    var (lead, head) := (Spaces(2 * depth), Render(io, items[0], true, depth));
    if |items| == 1 {
      assert ItemLines(io, items[1..], depth) == [];
      assert lead + (head + []) + [LF] == lead + head + [] + [LF] + [];
    } else {
      ItemsBroken(io, items[1..], depth);
      var rest := lead + RenderItems(io, items[1..], true, depth);
      assert [COMMA] + ([LF] + lead) + RenderItems(io, items[1..], true, depth) == [COMMA] + [LF] + rest;
      Regrouped(lead, head, [COMMA], rest, []);
    }
  }

  lemma {:induction false} MembersBroken<F>(io: FloatText<F>, members: seq<Member<F>>, depth: nat)
    requires members != []
    ensures Spaces(2 * depth) + RenderMembers(io, members, true, depth) + [LF] == MemberLines(io, members, depth)
  {
    hide Render, Spaces, WriteString;
    var (lead, head) := (Spaces(2 * depth), RenderMember(io, members[0], true, depth));
    if |members| == 1 {
      assert MemberLines(io, members[1..], depth) == [];
      assert lead + (head + []) + [LF] == lead + head + [] + [LF] + [];
    } else {
      MembersBroken(io, members[1..], depth);
      var rest := lead + RenderMembers(io, members[1..], true, depth);
      assert [COMMA] + ([LF] + lead) + RenderMembers(io, members[1..], true, depth) == [COMMA] + [LF] + rest;
      Regrouped(lead, head, [COMMA], rest, []);
    }
  }

  lemma Bracketed(open: byte, lead: seq<byte>, items: seq<byte>, back: seq<byte>, close: byte)
    ensures [open] + ([LF] + lead) + items + ([LF] + back) + [close]
            == [open, LF] + (lead + items + [LF]) + back + [close]
  {}

  /**
   The indented form of an array that is not empty: the opening bracket ends its line, every item has
   a line of its own two columns further in, and the closing bracket stands under the line that was
   opened.
   */
  lemma PrettyArray<F>(io: FloatText<F>, items: seq<Json<F>>, depth: nat)
    ensures Render(io, Arr(items), true, depth) ==
            if items == [] then [LEFT_BRACKET, RIGHT_BRACKET]
            else [LEFT_BRACKET, LF] + ItemLines(io, items, depth + 1) + Spaces(2 * depth) + [RIGHT_BRACKET]
  {
    if items != [] {
      ItemsBroken(io, items, depth + 1);
      hide RenderItems, ItemLines, Spaces;
      Bracketed(LEFT_BRACKET, Spaces(2 * (depth + 1)), RenderItems(io, items, true, depth + 1), Spaces(2 * depth),
                RIGHT_BRACKET);
    }
  }

  /** The indented form of an object. */
  lemma PrettyObject<F>(io: FloatText<F>, members: seq<Member<F>>, depth: nat)
    ensures Render(io, Obj(members), true, depth) ==
            if members == [] then [LEFT_BRACE, RIGHT_BRACE]
            else [LEFT_BRACE, LF] + MemberLines(io, members, depth + 1) + Spaces(2 * depth) + [RIGHT_BRACE]
  {
    if members != [] {
      MembersBroken(io, members, depth + 1);
      hide RenderMembers, MemberLines, Spaces;
      Bracketed(LEFT_BRACE, Spaces(2 * (depth + 1)), RenderMembers(io, members, true, depth + 1), Spaces(2 * depth),
                RIGHT_BRACE);
    }
  }

  // ---------------------------------------------------------------- one line

  /** Items with a comma and a space between them. */
  function Joined<F>(io: FloatText<F>, items: seq<Json<F>>, depth: nat): seq<byte> {
    if items == [] then []
    else
      (if |items| == 1 then [] else Joined(io, items[..|items| - 1], depth) + [COMMA, SPACE])
      + Render(io, items[|items| - 1], false, depth)
  }

  lemma {:induction false} ItemsJoined<F>(io: FloatText<F>, items: seq<Json<F>>, depth: nat)
    requires items != []
    ensures RenderItems(io, items, false, depth) == Joined(io, items, depth)
  {
    hide Render;
    if |items| > 1 {
      ItemsJoined(io, items[1..], depth);
      JoinedFront(io, items, depth);
    }
  }

  lemma {:induction false} JoinedFront<F>(io: FloatText<F>, items: seq<Json<F>>, depth: nat)
    requires |items| > 1
    ensures Joined(io, items, depth) ==
            Render(io, items[0], false, depth) + ([COMMA, SPACE] + Joined(io, items[1..], depth))
  {
    hide Render;
    var (init, last) := (items[..|items| - 1], Render(io, items[|items| - 1], false, depth));
    var (first, sep) := (Render(io, items[0], false, depth), [COMMA, SPACE]);
    if |items| == 2 {
      assert init == [items[0]] && items[1..] == [items[1]];
      assert ([] + first) + sep + last == first + (sep + ([] + last));
    } else {
      JoinedFront(io, init, depth);
      assert init[1..] == items[1..][..|items| - 2];
      var mid := Joined(io, init[1..], depth);
      assert (first + (sep + mid)) + sep + last == first + (sep + (mid + sep + last));
    }
  }

  /** The compact form of an array. */
  lemma CompactItems<F>(io: FloatText<F>, items: seq<Json<F>>, depth: nat)
    ensures Render(io, Arr(items), false, depth) == [LEFT_BRACKET] + Joined(io, items, depth + 1) + [RIGHT_BRACKET]
  {
    if items != [] {
      ItemsJoined(io, items, depth + 1);
      hide RenderItems, Joined;
      Flat(LEFT_BRACKET, RenderItems(io, items, false, depth + 1), RIGHT_BRACKET);
    }
  }

  lemma Flat(open: byte, body: seq<byte>, close: byte)
    ensures [open] + [] + body + [] + [close] == [open] + body + [close]
  {}

  /** Members, each a key, a colon, a space and a value, with a comma and a space between them. */
  function JoinedMembers<F>(io: FloatText<F>, members: seq<Member<F>>, depth: nat): seq<byte> {
    if members == [] then []
    else
      var m := members[|members| - 1];
      (if |members| == 1 then [] else JoinedMembers(io, members[..|members| - 1], depth) + [COMMA, SPACE])
      + (WriteString(m.key) + [COLON, SPACE] + Render(io, m.value, false, depth))
  }

  lemma {:induction false} MembersJoined<F>(io: FloatText<F>, members: seq<Member<F>>, depth: nat)
    requires members != []
    ensures RenderMembers(io, members, false, depth) == JoinedMembers(io, members, depth)
  {
    hide Render, WriteString;
    if |members| > 1 {
      MembersJoined(io, members[1..], depth);
      MembersFront(io, members, depth);
    }
  }

  lemma {:induction false} MembersFront<F>(io: FloatText<F>, members: seq<Member<F>>, depth: nat)
    requires |members| > 1
    ensures JoinedMembers(io, members, depth) ==
            RenderMember(io, members[0], false, depth) + ([COMMA, SPACE] + JoinedMembers(io, members[1..], depth))
  {
    hide Render, WriteString;
    var (init, last) := (members[..|members| - 1], RenderMember(io, members[|members| - 1], false, depth));
    var (first, sep) := (RenderMember(io, members[0], false, depth), [COMMA, SPACE]);
    if |members| == 2 {
      assert init == [members[0]] && members[1..] == [members[1]];
      assert ([] + first) + sep + last == first + (sep + ([] + last));
    } else {
      MembersFront(io, init, depth);
      assert init[1..] == members[1..][..|members| - 2];
      var mid := JoinedMembers(io, init[1..], depth);
      assert (first + (sep + mid)) + sep + last == first + (sep + (mid + sep + last));
    }
  }

  /** The compact form of an object. */
  lemma CompactMembers<F>(io: FloatText<F>, members: seq<Member<F>>, depth: nat)
    ensures Render(io, Obj(members), false, depth) ==
            [LEFT_BRACE] + JoinedMembers(io, members, depth + 1) + [RIGHT_BRACE]
  {
    if members != [] {
      MembersJoined(io, members, depth + 1);
      hide RenderMembers, JoinedMembers;
      Flat(LEFT_BRACE, RenderMembers(io, members, false, depth + 1), RIGHT_BRACE);
    }
  }

  // ---------------------------------------------------------------- bytes that never occur

  /** No control character, except that the indented form breaks lines. */
  predicate Clean(text: seq<byte>, pretty: bool) {
    forall i :: 0 <= i < |text| ==> text[i] >= 32 || (pretty && text[i] == LF)
  }

  lemma CleanJoin(a: seq<byte>, b: seq<byte>, pretty: bool)
    requires Clean(a, pretty) && Clean(b, pretty)
    ensures Clean(a + b, pretty)
  {}

  lemma {:induction false} StringClean(text: Text)
    ensures Clean(EscapeText(text), false)
  {
    if text != [] {
      assert Clean(EscapeChar(text[0]), false);
      StringClean(text[1..]);
      hide EscapeChar;
      CleanJoin(EscapeChar(text[0]), EscapeText(text[1..]), false);
    }
  }

  lemma {:induction false} NatClean(n: nat)
    ensures ShowNat(n) != [] && AllDigits(ShowNat(n)) && (n > 0 ==> ShowNat(n)[0] != ZERO)
  {
    if n >= 10 { NatClean(n / 10); }
  }

  /** An integer is printed without leading zeros, and zero as one digit. */
  lemma NoLeadingZeros(n: int)
    ensures n > 0 ==> ShowInt(n)[0] != ZERO && AllDigits(ShowInt(n))
    ensures n < 0 ==> ShowInt(n)[0] == MINUS && |ShowInt(n)| > 1 && ShowInt(n)[1] != ZERO && AllDigits(ShowInt(n)[1..])
    ensures ShowInt(0) == [ZERO]
  {
    NatClean(if n < 0 then -n else n);
  }

  lemma IntClean(n: int)
    ensures Clean(ShowInt(n), false)
  {
    NatClean(if n < 0 then -n else n);
  }

  lemma FloatClean<F(!new)>(io: FloatText<F>, f: Float<F>)
    requires Faithful(io)
    ensures Clean(FormatFloat(io, f), false)
  {
    if f.Finite? {
      var n, w, d :| PlainDecimal(io.show(f.x), n, w, d);
      hide Faithful;
      DecimalClean(io.show(f.x), n, w, d);
      hide PlainDecimal;
      CleanJoin(io.show(f.x), [DOT, ZERO], false);
    }
  }

  lemma DecimalClean(text: seq<byte>, n: bool, w: seq<byte>, d: seq<byte>)
    requires PlainDecimal(text, n, w, d)
    ensures Clean(text, false)
  {
    assert Clean(Sign(n), false) && Clean(w, false) && Clean(Tail(d), false);
    CleanJoin(w, Tail(d), false);
    CleanJoin(Sign(n), w + Tail(d), false);
  }

  lemma BreakClean(pretty: bool, depth: nat)
    ensures Clean(Break(pretty, depth), pretty) && Clean(Separator(pretty, depth), pretty)
  {}

  lemma ScalarClean<F(!new)>(io: FloatText<F>, v: Json<F>, pretty: bool, depth: nat)
    requires Faithful(io) && !v.Arr? && !v.Obj?
    ensures Clean(Render(io, v, pretty, depth), pretty)
  {
    match v
    case Int(n) => IntClean(n);
    case Number(f) => FloatClean(io, f); hide FormatFloat;
    case Str(text) => StringClean(text); hide EscapeText;
    case _ =>
  }

  /** A printed document holds no raw control character: the compact form is one line. */
  lemma {:induction false} PrintedClean<F(!new)>(io: FloatText<F>, v: Json<F>, pretty: bool, depth: nat)
    requires Faithful(io)
    ensures Clean(Render(io, v, pretty, depth), pretty)
    decreases v, 0
  {
    hide Faithful, Break, Separator;
    BreakClean(pretty, depth);
    BreakClean(pretty, depth + 1);
    match v
    case Arr(items) =>
      if items != [] {
        ItemsClean(io, items, pretty, depth + 1);
        hide RenderItems;
        BracketsClean(LEFT_BRACKET, Break(pretty, depth + 1), RenderItems(io, items, pretty, depth + 1),
                      Break(pretty, depth), RIGHT_BRACKET, pretty);
      }
    case Obj(members) =>
      if members != [] {
        MembersClean(io, members, pretty, depth + 1);
        hide RenderMembers;
        BracketsClean(LEFT_BRACE, Break(pretty, depth + 1), RenderMembers(io, members, pretty, depth + 1),
                      Break(pretty, depth), RIGHT_BRACE, pretty);
      }
    case _ => ScalarClean(io, v, pretty, depth);
  }

  lemma BracketsClean(open: byte, lead: seq<byte>, body: seq<byte>, back: seq<byte>, close: byte, pretty: bool)
    requires open >= 32 && close >= 32 && Clean(lead, pretty) && Clean(body, pretty) && Clean(back, pretty)
    ensures Clean([open] + lead + body + back + [close], pretty)
  {
    CleanJoin([open], lead, pretty);
    CleanJoin([open] + lead, body, pretty);
    CleanJoin([open] + lead + body, back, pretty);
    CleanJoin([open] + lead + body + back, [close], pretty);
  }

  lemma {:induction false} ItemsClean<F(!new)>(io: FloatText<F>, items: seq<Json<F>>, pretty: bool, depth: nat)
    requires Faithful(io) && items != []
    ensures Clean(RenderItems(io, items, pretty, depth), pretty)
    decreases items, 1
  {
    hide Faithful, Render, Separator;
    PrintedClean(io, items[0], pretty, depth);
    if |items| > 1 {
      ItemsClean(io, items[1..], pretty, depth);
      BreakClean(pretty, depth);
      CleanJoin(Separator(pretty, depth), RenderItems(io, items[1..], pretty, depth), pretty);
    }
  }

  lemma {:induction false} MembersClean<F(!new)>(io: FloatText<F>, members: seq<Member<F>>, pretty: bool, depth: nat)
    requires Faithful(io) && members != []
    ensures Clean(RenderMembers(io, members, pretty, depth), pretty)
    decreases members, 1
  {
    hide Faithful, Render, Separator;
    MemberClean(io, members[0], pretty, depth);
    if |members| > 1 {
      MembersClean(io, members[1..], pretty, depth);
      BreakClean(pretty, depth);
      CleanJoin(Separator(pretty, depth), RenderMembers(io, members[1..], pretty, depth), pretty);
    }
  }

  lemma {:induction false} MemberClean<F(!new)>(io: FloatText<F>, m: Member<F>, pretty: bool, depth: nat)
    requires Faithful(io)
    ensures Clean(RenderMember(io, m, pretty, depth), pretty)
    decreases m, 0
  {
    hide Faithful, Render, EscapeText;
    PrintedClean(io, m.value, pretty, depth);
    StringClean(m.key);
    CleanJoin(WriteString(m.key) + [COLON, SPACE], Render(io, m.value, pretty, depth), pretty);
  }

  // ---------------------------------------------------------------- escapes

  /** A character is written as it is unless it is a quote, a backslash or a control character. */
  lemma EscapesExactly(c: scalar)
    ensures EscapeChar(c) == EncodeChar(c) <==> c >= 32 && c != QUOTE && c != BACKSLASH
    ensures EscapeChar(c) != EncodeChar(c) ==> EscapeChar(c)[0] == BACKSLASH && |EscapeChar(c)| in {2, 6}
  {}
}
