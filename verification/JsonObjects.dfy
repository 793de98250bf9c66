/** Objects: what the parser builds is an ordered map holding each key's last value. */
module JsonObjects {
  import opened Options
  import opened Utf8
  import opened Json
  import opened JsonProof
  import opened JsonPrefixes
  import opened JsonTheorems

  lemma {:induction false} KeyLessTransitive(a: Text, b: Text, c: Text)
    requires KeyLess(a, b) && KeyLess(b, c)
    ensures KeyLess(a, c)
    decreases |c|
  {
    if a != [] && a[0] == b[0] == c[0] { KeyLessTransitive(a[1..], b[1..], c[1..]); }
  }

  lemma {:induction false} KeyLessTotal(a: Text, b: Text)
    ensures KeyLess(a, b) || a == b || KeyLess(b, a)
    decreases |a|
  {
    if a != [] && b != [] && a[0] == b[0] {
      KeyLessTotal(a[1..], b[1..]);
      assert a == [a[0]] + a[1..] && b == [b[0]] + b[1..];
    }
  }

  predicate Below<F>(key: Text, members: seq<Member<F>>) {
    forall i :: 0 <= i < |members| ==> KeyLess(key, members[i].key)
  }

  lemma SortedHead<F>(members: seq<Member<F>>)
    requires members != []
    ensures Sorted(members) <==> Sorted(members[1..]) && Below(members[0].key, members[1..])
  {
    if Sorted(members[1..]) && Below(members[0].key, members[1..]) {
      forall i, j | 0 <= i < j < |members| ensures KeyLess(members[i].key, members[j].key) {
        assert members[j] == members[1..][j - 1];
        if i > 0 { assert members[i] == members[1..][i - 1]; }
      }
    }
  }

  /** Insertion keeps the order. */
  lemma {:induction false} InsertSorted<F>(members: seq<Member<F>>, m: Member<F>)
    requires Sorted(members)
    ensures Sorted(Insert(members, m))
    ensures forall key :: KeyLess(key, m.key) && Below(key, members) ==> Below(key, Insert(members, m))
    decreases |members|
  {
    if members != [] {
      SortedHead(members);
      var r := Insert(members, m);
      if KeyLess(m.key, members[0].key) {
        assert r[1..] == members;
        forall i | 0 <= i < |members| ensures KeyLess(m.key, members[i].key) {
          if i > 0 { KeyLessTransitive(m.key, members[0].key, members[i].key); }
        }
        SortedHead(r);
      } else if m.key == members[0].key {
        assert r[1..] == members[1..];
        SortedHead(r);
      } else {
        KeyLessTotal(m.key, members[0].key);
        InsertSorted(members[1..], m);
        assert r[1..] == Insert(members[1..], m);
        SortedHead(r);
      }
    }
  }

  lemma {:induction false} LookupBelow<F>(key: Text, members: seq<Member<F>>)
    requires Below(key, members)
    ensures Lookup(members, key).None?
    decreases |members|
  {
    if members != [] {
      KeyLessStrict(key, members[0].key);
      LookupBelow(key, members[1..]);
    }
  }

  /** `insert` then `get`: the inserted key has the inserted value, every other key is untouched. */
  lemma {:induction false} LookupInsert<F>(members: seq<Member<F>>, m: Member<F>, key: Text)
    requires Sorted(members)
    ensures Lookup(Insert(members, m), key) == if key == m.key then Some(m.value) else Lookup(members, key)
    decreases |members|
  {
    if members != [] {
      SortedHead(members);
      var r := Insert(members, m);
      if KeyLess(m.key, members[0].key) {
        assert r[1..] == members;
      } else if m.key == members[0].key {
        assert r[1..] == members[1..];
      } else {
        assert r[1..] == Insert(members[1..], m);
        LookupInsert(members[1..], m, key);
      }
    } else {
      assert [m][1..] == [];
    }
  }

  /** The members in document order, duplicates and all. */
  function RawMembers<F>(io: FloatText<F>, b: seq<byte>, pos: nat): seq<Member<F>>
    requires pos <= |b|
    decreases |b| - pos
  {
    var key := String(b, SkipWhitespace(b, pos));
    if key.Err? then []
    else
      var colon := SkipWhitespace(b, key.next);
      if !Peek(b, colon, COLON) then []
      else
        var v := Value(io, b, colon + 1);
        if v.Err? then []
        else
          var p := SkipWhitespace(b, v.next);
          [Member(key.value, v.value)] + if Peek(b, p, COMMA) then RawMembers(io, b, p + 1) else []
  }

  /** The value the document gives last for a key, or the one known before. */
  function LastValue<F>(raw: seq<Member<F>>, key: Text, before: Option<Json<F>>): Option<Json<F>> {
    if raw == [] then before
    else LastValue(raw[1..], key, if raw[0].key == key then Some(raw[0].value) else before)
  }

  /** A parsed object is ordered, and each key has the value its last occurrence gives it. */
  lemma {:induction false} LastOccurrenceWins<F>(io: FloatText<F>, b: seq<byte>, pos: nat, acc: seq<Member<F>>,
                                                 key: Text)
    requires pos <= |b| && Sorted(acc) && Members(io, b, pos, acc).Ok?
    ensures Members(io, b, pos, acc).value.Obj?
    ensures var built := Members(io, b, pos, acc).value.members;
            && Sorted(built)
            && Lookup(built, key) == LastValue(RawMembers(io, b, pos), key, Lookup(acc, key))
    decreases |b| - pos
  {
    hide Value, String, Insert, Lookup, Sorted;
    var k := String(b, SkipWhitespace(b, pos));
    var colon := SkipWhitespace(b, k.next);
    var v := Value(io, b, colon + 1);
    var p := SkipWhitespace(b, v.next);
    var m := Member(k.value, v.value);
    InsertSorted(acc, m);
    LookupInsert(acc, m, key);
    if Peek(b, p, COMMA) {
      LastOccurrenceWins(io, b, p + 1, Insert(acc, m), key);
      assert RawMembers(io, b, pos)[1..] == RawMembers(io, b, p + 1);
    } else {
      assert RawMembers(io, b, pos) == [m];
      assert LastValue([m][1..], key, Some(m.value)) == Some(m.value);
    }
  }

  /** Whatever document it reads, the parser builds a well-formed value. */
  lemma {:induction false} ParsedWellFormed<F>(io: FloatText<F>, b: seq<byte>, pos: nat)
    requires pos <= |b| && Value(io, b, pos).Ok?
    ensures WellFormed(Value(io, b, pos).value)
    decreases |b| - pos, 2
  {
    hide Items, Members, NumberToken, String;
    var p := SkipWhitespace(b, pos);
    if b[p] == LEFT_BRACKET {
      var q := SkipWhitespace(b, p + 1);
      if !Peek(b, q, RIGHT_BRACKET) { ItemsWellFormed(io, b, q, []); }
    } else if b[p] == LEFT_BRACE {
      var q := SkipWhitespace(b, p + 1);
      if !Peek(b, q, RIGHT_BRACE) { MembersWellFormed(io, b, q, []); }
    } else if b[p] == MINUS || Digit(b[p]) {
      NumberIsNumeric(io, b, p);
    }
  }

  lemma {:induction false} ItemsWellFormed<F>(io: FloatText<F>, b: seq<byte>, pos: nat, acc: seq<Json<F>>)
    requires pos <= |b| && Items(io, b, pos, acc).Ok? && WellFormed(Arr(acc))
    ensures WellFormed(Items(io, b, pos, acc).value)
    decreases |b| - pos, 3
  {
    hide Value;
    var v := Value(io, b, pos);
    ParsedWellFormed(io, b, pos);
    var p := SkipWhitespace(b, v.next);
    if Peek(b, p, COMMA) { ItemsWellFormed(io, b, p + 1, acc + [v.value]); }
  }

  predicate AllWellFormed<F>(members: seq<Member<F>>) {
    forall i :: 0 <= i < |members| ==> WellFormed(members[i].value)
  }

  lemma {:induction false} InsertWellFormed<F>(members: seq<Member<F>>, m: Member<F>)
    requires AllWellFormed(members) && WellFormed(m.value)
    ensures AllWellFormed(Insert(members, m))
    decreases |members|
  {
    hide WellFormed, KeyLess;
    if members != [] { InsertWellFormed(members[1..], m); }
  }

  lemma {:induction false} MembersWellFormed<F>(io: FloatText<F>, b: seq<byte>, pos: nat, acc: seq<Member<F>>)
    requires pos <= |b| && Members(io, b, pos, acc).Ok? && Sorted(acc) && AllWellFormed(acc)
    ensures WellFormed(Members(io, b, pos, acc).value)
    decreases |b| - pos, 3
  {
    hide Value, String, Insert, Sorted;
    var k := String(b, SkipWhitespace(b, pos));
    var colon := SkipWhitespace(b, k.next);
    var v := Value(io, b, colon + 1);
    ParsedWellFormed(io, b, colon + 1);
    var m := Member(k.value, v.value);
    InsertSorted(acc, m);
    InsertWellFormed(acc, m);
    var p := SkipWhitespace(b, v.next);
    if Peek(b, p, COMMA) { MembersWellFormed(io, b, p + 1, Insert(acc, m)); }
  }

  /** Reading any document and printing what was read gives a document with the same meaning. */
  lemma Reprint<F(!new)>(io: FloatText<F>, b: seq<byte>, pretty: bool)
    requires Faithful(io) && Parse(io, b).Some? && AllFinite(Parse(io, b).value)
    ensures Parse(io, Render(io, Parse(io, b).value, pretty, 0)) == Parse(io, b)
  {
    hide Render, Value;
    ParsedWellFormed(io, b, 0);
    RoundTrip(io, Parse(io, b).value, pretty);
  }

  /** No proper prefix of a printed array or object parses. */
  lemma PrintedPrefix<F(!new)>(io: FloatText<F>, v: Json<F>, pretty: bool, n: nat)
    requires Faithful(io) && WellFormed(v) && AllFinite(v) && (v.Arr? || v.Obj?)
    requires n < |Render(io, v, pretty, 0)|
    ensures Parse(io, Render(io, v, pretty, 0)[..n]).None?
  {
    var b := Render(io, v, pretty, 0);
    assert b[|b| - 1] == RIGHT_BRACKET || b[|b| - 1] == RIGHT_BRACE;
    RoundTrip(io, v, pretty);
    NoPrefixParses(io, b, n);
  }
}
