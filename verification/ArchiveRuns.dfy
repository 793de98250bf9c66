/** Listing the archived runs and picking the newest one that is not the candidate. */
module ArchiveRuns {
  import opened Options
  import opened Calendar
  import opened Stamp

  lemma {:induction false} LessIsTotal(a: string, b: string)
    ensures Less(a, b) || Less(b, a) || a == b
  {
    if a != "" && b != "" && a[0] == b[0] {
      LessIsTotal(a[1..], b[1..]);
      assert a == [a[0]] + a[1..] && b == [b[0]] + b[1..];
    }
  }

  lemma {:induction false} LessIsTransitive(a: string, b: string, c: string)
    requires Less(a, b) && Less(b, c)
    ensures Less(a, c)
  {
    if a != "" && a[0] == b[0] && b[0] == c[0] { LessIsTransitive(a[1..], b[1..], c[1..]); }
  }

  /** `r`'s name does not come after `q`'s. */
  predicate NotAfter(r: Run, q: Run) {
    !Less(Name(q), Name(r))
  }

  lemma NotAfterIsTransitive(p: Run, q: Run, r: Run)
    requires NotAfter(p, q) && NotAfter(q, r)
    ensures NotAfter(p, r)
  {
    hide Less, Name;
    var (a, b, c) := (Name(p), Name(q), Name(r));
    LessIsTotal(a, b);
    LessIsTotal(b, c);
    LessIsTotal(a, c);
    if Less(a, b) && Less(b, c) {
      LessIsTransitive(a, b, c);
      LessIsStrict(a, c);
    }
  }

  predicate Sorted(runs: seq<Run>) {
    forall i, j :: 0 <= i < j < |runs| ==> NotAfter(runs[i], runs[j])
  }

  /** Where `r` belongs among sorted runs: behind every run it does not come before. */
  method Position(runs: seq<Run>, r: Run) returns (k: nat)
    requires Sorted(runs)
    ensures k <= |runs|
    ensures forall i :: 0 <= i < k ==> NotAfter(runs[i], r)
    ensures forall i :: k <= i < |runs| ==> NotAfter(r, runs[i])
  {
    hide Less, Name;
    k := |runs|;
    while k > 0 && Less(Name(r), Name(runs[k - 1]))
      invariant 0 <= k <= |runs|
      invariant forall i :: k <= i < |runs| ==> NotAfter(r, runs[i])
    {
      k := k - 1;
      LessIsStrict(Name(r), Name(runs[k]));
    }
    if k > 0 {
      forall i | 0 <= i < k ensures NotAfter(runs[i], r) {
        if i < k - 1 { NotAfterIsTransitive(runs[i], runs[k - 1], r); }
      }
    }
  }

  lemma InsertedSorted(runs: seq<Run>, k: nat, r: Run)
    requires Sorted(runs) && k <= |runs|
    requires forall i :: 0 <= i < k ==> NotAfter(runs[i], r)
    requires forall i :: k <= i < |runs| ==> NotAfter(r, runs[i])
    ensures Sorted(runs[..k] + [r] + runs[k..])
  {
    hide NotAfter;
  }

  lemma InsertedSame(runs: seq<Run>, k: nat, r: Run)
    requires k <= |runs|
    ensures multiset(runs[..k] + [r] + runs[k..]) == multiset(runs) + multiset{r}
  {
    assert runs == runs[..k] + runs[k..];
  }

  /** The archived runs, oldest name first. */
  method Listed(entries: seq<Run>) returns (runs: seq<Run>)
    ensures Sorted(runs) && multiset(runs) == multiset(entries)
  {
    runs := [];
    var i := 0;
    while i < |entries|
      invariant 0 <= i <= |entries|
      invariant Sorted(runs) && multiset(runs) == multiset(entries[..i])
    {
      hide Sorted, NotAfter;
      var k := Position(runs, entries[i]);
      InsertedSorted(runs, k, entries[i]);
      InsertedSame(runs, k, entries[i]);
      assert entries[..i + 1] == entries[..i] + [entries[i]];
      runs := runs[..k] + [entries[i]] + runs[k..];
      i := i + 1;
    }
    assert entries[..|entries|] == entries;
  }

  predicate DistinctSeconds(entries: seq<Run>) {
    && (forall e, f :: e in entries && f in entries && e != f ==> e.second != f.second)
    && (forall e :: e in entries ==> Day(e.second).year < 10_000)
  }

  /**
   The newest archived run that is not the candidate: the last of the other names. When the runs
   were archived in distinct seconds before the year 10000, it is the latest of the other runs.
   */
  method PreviousRun(entries: seq<Run>, candidate: Run) returns (o: Option<Run>)
    ensures o.None? <==> forall e :: e in entries ==> e == candidate
    ensures o.Some? ==> o.value in entries && o.value != candidate
    ensures o.Some? ==> forall e :: e in entries && e != candidate ==> NotAfter(e, o.value)
    ensures o.Some? && DistinctSeconds(entries) ==>
              forall e :: e in entries && e != candidate ==> e.second <= o.value.second
  {
    hide NotAfter, Day;
    var runs := Listed(entries);
    forall e ensures e in runs <==> e in entries { assert e in multiset(runs) <==> e in multiset(entries); }
    o := None;
    var i := 0;
    while i < |runs|
      invariant 0 <= i <= |runs|
      invariant o.None? ==> forall j :: 0 <= j < i ==> runs[j] == candidate
      invariant o.Some? ==> o.value in runs && o.value != candidate
      invariant o.Some? ==> forall j :: 0 <= j < i && runs[j] != candidate ==>
                NotAfter(runs[j], o.value) || runs[j] == o.value
      invariant o.Some? ==> forall j :: i <= j < |runs| ==> NotAfter(o.value, runs[j])
    {
      if runs[i] != candidate { o := Some(runs[i]); }
      i := i + 1;
    }
    if o.Some? {
      forall e | e in entries && e != candidate ensures NotAfter(e, o.value) {
        Itself(e);
      }
      if DistinctSeconds(entries) {
        forall e | e in entries && e != candidate ensures e.second <= o.value.second {
          Latest(entries, e, o.value);
        }
      }
    }
  }

  lemma Itself(r: Run)
    ensures NotAfter(r, r)
  {
    hide Less, Name;
    if Less(Name(r), Name(r)) { LessIsStrict(Name(r), Name(r)); }
  }

  lemma Latest(entries: seq<Run>, e: Run, r: Run)
    requires DistinctSeconds(entries) && e in entries && r in entries && NotAfter(e, r)
    ensures e.second <= r.second
  {
    hide Less, Name, Day;
    if e.second != r.second { NameOrder(r, e); }
  }
}
