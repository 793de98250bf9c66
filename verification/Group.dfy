/**
 A session group on the server: at most two member sessions, the newest opener, and the writers
 that follow it. Every critical section of the group's lock is one event; openers and writers die
 at any time in between.
 */
module Group {
  import opened Options

  /** A stream's writer. */
  datatype Writer = Writer(id: int)

  /**
   `outstanding`: the members not dropped yet, by sequence number. `bound`: the session each
   registered writer was last handed, by sequence number. `deadOpeners`, `deadWriters`: gone for
   ever. `registered` and `scanned` count the registrations and the handles their purges looked at.
   */
  datatype Pair = Pair(
    members: int,
    nextSeq: nat,
    newestSeq: nat,
    newestOpener: Option<nat>,
    writers: seq<Writer>,
    nextPurge: nat,
    outstanding: set<nat>,
    bound: map<Writer, nat>,
    deadOpeners: set<nat>,
    deadWriters: set<Writer>,
    registered: nat,
    scanned: nat)

  const Empty: Pair := Pair(0, 0, 0, None, [], 64, {}, map[], {}, {}, 0, 0)

  datatype Event =
    | Join(alive: bool)
    | Register(number: nat, writer: Writer)
    | Leave(number: nat)
    | OpenerDies(number: nat)
    | WriterDies(writer: Writer)

  predicate Enabled(p: Pair, e: Event) {
    match e
    case Register(n, w) => n in p.outstanding && w !in p.bound
    case Leave(n) => n in p.outstanding
    case _ => true
  }

  function Live(writers: seq<Writer>, dead: set<Writer>): (r: seq<Writer>)
    ensures |r| <= |writers|
  {
    if writers == [] then []
    else (if writers[0] in dead then [] else [writers[0]]) + Live(writers[1..], dead)
  }

  /** Hands every listed writer the session `n`. */
  function Rebound(bound: map<Writer, nat>, writers: seq<Writer>, n: nat): map<Writer, nat> {
    map w | w in bound :: if w in writers then n else bound[w]
  }

  function Joined(p: Pair, alive: bool): Pair {
    if p.members >= 2 then p
    else
      var n := p.nextSeq + 1;
      var writers := Live(p.writers, p.deadWriters);
      p.(members := p.members + 1, nextSeq := n, newestSeq := n, newestOpener := Some(n), writers := writers,
         outstanding := p.outstanding + {n}, deadOpeners := if alive then p.deadOpeners else p.deadOpeners + {n},
         bound := if alive then Rebound(p.bound, writers, n) else p.bound)
  }

  /** The session a writer opened on session `n` ends up with. */
  function Target(p: Pair, n: nat): nat {
    if p.newestSeq != n && p.newestOpener.Some? && p.newestOpener.value !in p.deadOpeners
    then p.newestOpener.value else n
  }

  function Registered(p: Pair, n: nat, w: Writer): Pair {
    var purge := |p.writers| >= p.nextPurge;
    var writers := if purge then Live(p.writers, p.deadWriters) else p.writers;
    p.(writers := writers + [w],
       nextPurge := if !purge then p.nextPurge else if 2 * |writers| > 64 then 2 * |writers| else 64,
       bound := p.bound[w := Target(p, n)],
       registered := p.registered + 1, scanned := p.scanned + if purge then |p.writers| else 0)
  }

  function Apply(p: Pair, e: Event): Pair
    requires Enabled(p, e)
  {
    match e
    case Join(alive) => Joined(p, alive)
    case Register(n, w) => Registered(p, n, w)
    case Leave(n) => p.(members := p.members - 1, outstanding := p.outstanding - {n})
    case OpenerDies(n) => p.(deadOpeners := p.deadOpeners + {n})
    case WriterDies(w) => p.(deadWriters := p.deadWriters + {w})
  }

  // ---------------------------------------------------------------- what every event keeps

  predicate MembersOk(p: Pair) {
    && p.members == |p.outstanding| <= 2
    && p.newestSeq == p.nextSeq
    && (forall n :: n in p.outstanding ==> 1 <= n <= p.nextSeq)
    && (p.newestOpener == if p.nextSeq == 0 then None else Some(p.nextSeq))
  }

  /** A listed writer that lives is with the newest session, unless that session is dead. */
  predicate Follows(p: Pair, w: Writer) {
    w in p.bound && (w in p.deadWriters || p.bound[w] == p.newestSeq || p.newestSeq in p.deadOpeners)
  }

  predicate WritersOk(p: Pair) {
    forall w :: w in p.writers ==> Follows(p, w)
  }

  /** Purges are paid for by registrations: the potential is twice the list, less the next purge. */
  predicate PurgesOk(p: Pair) {
    && |p.writers| <= p.nextPurge && 64 <= p.nextPurge
    && p.scanned + 2 * |p.writers| <= 2 * p.registered + p.nextPurge
    && p.scanned <= 2 * p.registered
  }

  predicate Inv(p: Pair) {
    MembersOk(p) && WritersOk(p) && PurgesOk(p)
  }

  lemma {:induction false} LiveIs(writers: seq<Writer>, dead: set<Writer>)
    ensures forall w :: w in Live(writers, dead) <==> w in writers && w !in dead
  {
    if writers != [] {
      LiveIs(writers[1..], dead);
      assert writers == [writers[0]] + writers[1..];
    }
  }

  lemma JoinInv(p: Pair, alive: bool)
    requires Inv(p)
    ensures Inv(Joined(p, alive))
  {
    var p' := Joined(p, alive);
    if p.members < 2 {
      LiveIs(p.writers, p.deadWriters);
      forall w | w in p'.writers ensures Follows(p', w) { assert Follows(p, w); }
      assert p.nextSeq + 1 !in p.outstanding;
    }
  }

  lemma RegisterInv(p: Pair, n: nat, w: Writer)
    requires Inv(p) && Enabled(p, Register(n, w))
    ensures Inv(Registered(p, n, w))
  {
    var p' := Registered(p, n, w);
    LiveIs(p.writers, p.deadWriters);
    forall v | v in p'.writers ensures Follows(p', v) { if v != w { assert Follows(p, v); } }
  }

  lemma StepInv(p: Pair, e: Event)
    requires Inv(p) && Enabled(p, e)
    ensures Inv(Apply(p, e))
  {
    match e
    case Join(alive) => JoinInv(p, alive);
    case Register(n, w) => RegisterInv(p, n, w);
    case _ =>
      var p' := Apply(p, e);
      forall w | w in p'.writers ensures Follows(p', w) { assert Follows(p, w); }
  }

  // ---------------------------------------------------------------- runs

  function Run(p: Pair, events: seq<Event>): Option<Pair>
    decreases |events|
  {
    if events == [] then Some(p)
    else if !Enabled(p, events[0]) then None
    else Run(Apply(p, events[0]), events[1..])
  }

  lemma {:induction false} RunInv(p: Pair, events: seq<Event>)
    requires Inv(p)
    ensures Run(p, events).Some? ==> Inv(Run(p, events).value)
    decreases |events|
  {
    hide Inv, Apply;
    if events != [] && Enabled(p, events[0]) {
      StepInv(p, events[0]);
      RunInv(Apply(p, events[0]), events[1..]);
    }
  }

  /** How often a run registered a writer. */
  function Registrations(events: seq<Event>): nat {
    if events == [] then 0 else (if events[0].Register? then 1 else 0) + Registrations(events[1..])
  }

  lemma {:induction false} RegistrationsCounted(p: Pair, events: seq<Event>)
    requires Run(p, events).Some?
    ensures Run(p, events).value.registered == p.registered + Registrations(events)
    decreases |events|
  {
    if events != [] { RegistrationsCounted(Apply(p, events[0]), events[1..]); }
  }

  /**
   In every run: the member count is the number of outstanding members, at most two; the newest
   sequence number is the largest issued; the list never outgrows the next purge; and all purges
   together look at no more than two handles per registration.
   */
  lemma GroupBookkeeping(events: seq<Event>)
    requires Run(Empty, events).Some?
    ensures var p := Run(Empty, events).value;
            && p.members == |p.outstanding| <= 2
            && p.newestSeq == p.nextSeq && (forall n :: n in p.outstanding ==> n <= p.newestSeq)
            && |p.writers| <= p.nextPurge
            && p.scanned <= 2 * Registrations(events)
  {
    assert Inv(Empty);
    RunInv(Empty, events);
    RegistrationsCounted(Empty, events);
  }

  /** In every run, a registered writer that lives is with the newest session, or that session is dead. */
  lemma WritersFollowNewest(events: seq<Event>, w: Writer)
    requires Run(Empty, events).Some? && w in Run(Empty, events).value.writers
    requires w !in Run(Empty, events).value.deadWriters
    ensures var p := Run(Empty, events).value;
            w in p.bound && (p.bound[w] == p.newestSeq || p.newestSeq in p.deadOpeners)
  {
    assert Inv(Empty);
    RunInv(Empty, events);
    assert Follows(Run(Empty, events).value, w);
  }

  /** The writer is dead, or it is listed. */
  predicate Listed(p: Pair, w: Writer) {
    w in p.bound && (w in p.deadWriters || w in p.writers)
  }

  lemma ListedStep(p: Pair, e: Event, w: Writer)
    requires Enabled(p, e) && (Listed(p, w) || (e.Register? && e.writer == w))
    ensures Listed(Apply(p, e), w)
  {
    LiveIs(p.writers, p.deadWriters);
    hide Live;
  }

  lemma {:induction false} ListedRun(p: Pair, events: seq<Event>, w: Writer)
    requires Run(p, events).Some?
    requires Listed(p, w) || exists n :: Register(n, w) in events
    ensures Listed(Run(p, events).value, w)
    decreases |events|
  {
    hide Apply, Listed, Enabled;
    if events != [] {
      if Listed(p, w) || (events[0].Register? && events[0].writer == w) {
        ListedStep(p, events[0], w);
      } else {
        var n :| Register(n, w) in events;
        assert events == [events[0]] + events[1..];
        assert Register(n, w) in events[1..];
      }
      ListedRun(Apply(p, events[0]), events[1..], w);
    }
  }

  /**
   No live writer is forgotten: in every run, a writer that was ever registered and has not died is
   listed, so the next session to join is handed it, and it is with the newest session unless that one
   is dead.
   */
  lemma LiveWriterIsListed(events: seq<Event>, n: nat, w: Writer)
    requires Run(Empty, events).Some? && Register(n, w) in events && w !in Run(Empty, events).value.deadWriters
    ensures var p := Run(Empty, events).value;
            && w in p.writers && w in p.bound && (p.bound[w] == p.newestSeq || p.newestSeq in p.deadOpeners)
            && (Enabled(p, Join(true)) && p.members < 2 ==> Joined(p, true).bound[w] == Joined(p, true).newestSeq)
  {
    ListedRun(Empty, events, w);
    hide Run;
    WritersFollowNewest(events, w);
    var p := Run(Empty, events).value;
    LiveIs(p.writers, p.deadWriters);
    hide Live;
  }

  /** Never more than `most` listed writers are alive at once. */
  predicate AtMost(p: Pair, events: seq<Event>, most: nat)
    decreases |events|
  {
    && |Live(p.writers, p.deadWriters)| <= most
    && (events != [] && Enabled(p, events[0]) ==> AtMost(Apply(p, events[0]), events[1..], most))
  }

  function Larger(a: nat, b: nat): nat {
    if a > b then a else b
  }

  lemma {:induction false} PurgeBounded(p: Pair, events: seq<Event>, most: nat)
    requires Run(p, events).Some? && AtMost(p, events, most) && p.nextPurge <= Larger(64, 2 * most)
    ensures Run(p, events).value.nextPurge <= Larger(64, 2 * most)
    decreases |events|
  {
    hide Live;
    if events != [] { PurgeBounded(Apply(p, events[0]), events[1..], most); }
  }

  /** The list holds at most twice as many handles as writers were ever alive at once, or sixty-four. */
  lemma ListIsBounded(events: seq<Event>, most: nat)
    requires Run(Empty, events).Some? && AtMost(Empty, events, most)
    ensures |Run(Empty, events).value.writers| <= Larger(64, 2 * most)
  {
    PurgeBounded(Empty, events, most);
    GroupBookkeeping(events);
  }

  // ---------------------------------------------------------------- the group as an object

  class SessionPair {
    var members: int
    var nextSeq: nat
    var newestSeq: nat
    var newestOpener: Option<nat>
    var writers: seq<Writer>
    var nextPurge: nat
    ghost var outstanding: set<nat>
    ghost var bound: map<Writer, nat>
    ghost var registered: nat
    ghost var scanned: nat

    /** The group, among openers and writers of which some are dead. */
    ghost function View(deadOpeners: set<nat>, deadWriters: set<Writer>): Pair
      reads this
    {
      Pair(members, nextSeq, newestSeq, newestOpener, writers, nextPurge, outstanding, bound, deadOpeners, deadWriters,
           registered, scanned)
    }

    constructor ()
      ensures View({}, {}) == Empty
    {
      members, nextSeq, newestSeq, newestOpener, writers, nextPurge := 0, 0, 0, None, [], 64;
      outstanding, bound, registered, scanned := {}, map[], 0, 0;
    }

    method Retain(deadWriters: set<Writer>) returns (looked: nat)
      modifies `writers
      ensures writers == Live(old(writers), deadWriters) && looked == |old(writers)|
    {
      var all, live, i := writers, [], 0;
      while i < |all|
        invariant 0 <= i <= |all|
        invariant live + Live(all[i..], deadWriters) == Live(all, deadWriters)
      {
        assert all[i..][1..] == all[i + 1..];
        if all[i] !in deadWriters {
          assert live + ([all[i]] + Live(all[i + 1..], deadWriters))
                 == live + [all[i]] + Live(all[i + 1..], deadWriters);
          live := live + [all[i]];
        } else {
          assert [] + Live(all[i + 1..], deadWriters) == Live(all[i + 1..], deadWriters);
        }
        i := i + 1;
      }
      writers := live;
      return |all|;
    }

    /** Admits a session unless the group is full, and hands it every writer when it is alive. */
    method Enter(alive: bool, ghost deadOpeners: set<nat>, deadWriters: set<Writer>) returns (o: Option<nat>)
      modifies this
      ensures o.Some? <==> old(members) < 2
      ensures o.Some? ==> o.value == newestSeq && o.value in outstanding
      ensures
        var now := if alive || o.None? then deadOpeners else deadOpeners + {o.value};
        View(now, deadWriters) == Joined(old(View(deadOpeners, deadWriters)), alive)
    {
      if members >= 2 { return None; }
      members := members + 1;
      nextSeq := nextSeq + 1;
      newestSeq, newestOpener := nextSeq, Some(nextSeq);
      outstanding := outstanding + {nextSeq};
      var _ := Retain(deadWriters);
      if alive { bound := Rebound(bound, writers, nextSeq); }
      return Some(nextSeq);
    }

    method RegisterWriter(n: nat, w: Writer, deadOpeners: set<nat>, deadWriters: set<Writer>)
      modifies `writers, `nextPurge, `bound, `registered, `scanned
      ensures View(deadOpeners, deadWriters) == Registered(old(View(deadOpeners, deadWriters)), n, w)
    {
      bound := bound[w := n];
      if newestSeq != n {
        if newestOpener.Some? && newestOpener.value !in deadOpeners { bound := bound[w := newestOpener.value]; }
      }
      if |writers| >= nextPurge {
        var looked := Retain(deadWriters);
        scanned := scanned + looked;
        nextPurge := if |writers| * 2 > 64 then |writers| * 2 else 64;
      }
      writers := writers + [w];
      registered := registered + 1;
    }

    method Leave(n: nat)
      modifies `members, `outstanding
      ensures members == old(members) - 1 && outstanding == old(outstanding) - {n}
    {
      members := members - 1;
      outstanding := outstanding - {n};
    }
  }
}
