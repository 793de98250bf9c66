/**
 Whole redials: the arm of the loop that installs a dialled session, run without interruption and in
 every interleaving, and the streams it moves.
 */
module GenerationsRedial {
  import opened Options
  import opened Generations
  import opened GenerationsProof
  import opened GenerationsMethods

  // ---------------------------------------------------------------- in every interleaving

  /**
   The loop is installing `x` for the address in place of `y`; past the drain, `y` leads to `x`
   unless `x` is dead.
   */
  predicate Underway(s: State, a: Addr, y: SessionId, x: SessionId) {
    && Prior(s.loop) == Some(y) && Latest(s.loop) == Some(x) && s.loop.addr == a
    && (s.loop.Rebinding? ==> Succ(s.chain, y) == Some(x))
    && (s.loop.Rebound? || s.loop.Serving? ==> Succ(s.chain, y) == Some(x) || x in s.chain.dead)
    && (s.loop.Serving? ==> a in s.chain.draining && s.chain.draining[a] == y)
  }

  /** The address maps to `x`, `y` is recorded as draining, and `y` leads to `x` unless `x` is dead. */
  predicate Migrated(c: Chain, a: Addr, y: SessionId, x: SessionId) {
    && a in c.mapped && c.mapped[a] == x
    && a in c.draining && c.draining[a] == y
    && (Succ(c, y) == Some(x) || x in c.dead)
  }

  lemma DialBegins(s: State, a: Addr, x: SessionId)
    requires LoopEnabled(s, DialDone(a, x)) && a in s.chain.redials
    ensures Underway(ApplyLoop(s, DialDone(a, x)), a, s.chain.redials[a], x)
  {}

  lemma LoopUnderway(s: State, c: Connector, a: Addr, y: SessionId, x: SessionId)
    requires Underway(s, a, y, x) && LoopEnabled(s, c)
    ensures var s' := ApplyLoop(s, c);
            Underway(s', a, y, x) || (s'.loop.Idle? && Migrated(s'.chain, a, y, x))
  {
    hide Held;
  }

  lemma UnderwayStep(s: State, step: Step, a: Addr, y: SessionId, x: SessionId)
    requires Underway(s, a, y, x) && Enabled(s, step)
    ensures var s' := Apply(s, step);
            Underway(s', a, y, x) || (s'.loop.Idle? && Migrated(s'.chain, a, y, x))
  {
    hide Held;
    match step
    case Loops(c) => LoopUnderway(s, c, a, y, x); hide ApplyLoop;
    case Around(e) =>
    case By(st, c) => hide ClientEffect;
    case Move(st, m) => hide MoveEffect;
  }

  /** The loop does not come back to rest before the last state of the run. */
  ghost predicate BusyUntilEnd(s: State, steps: seq<Step>)
    decreases |steps|
  {
    steps != [] ==>
      && !s.loop.Idle?
      && (Enabled(s, steps[0]) ==> BusyUntilEnd(Apply(s, steps[0]), steps[1..]))
  }

  lemma {:induction false} UnderwayRun(s: State, steps: seq<Step>, a: Addr, y: SessionId, x: SessionId)
    requires Underway(s, a, y, x) && Run(s, steps).Some? && BusyUntilEnd(s, steps)
    requires Run(s, steps).value.loop.Idle?
    ensures Migrated(Run(s, steps).value.chain, a, y, x)
    decreases |steps|
  {
    hide Apply, Enabled, Migrated;
    if steps != [] {
      var s1 := Apply(s, steps[0]);
      UnderwayStep(s, steps[0], a, y, x);
      if !Underway(s1, a, y, x) {
        hide Underway;
        assert s1.loop.Idle? && BusyUntilEnd(s1, steps[1..]);
        assert steps[1..] == [];
      } else {
        UnderwayRun(s1, steps[1..], a, y, x);
      }
    }
  }

  /**
   A redial migrates, whatever the other threads do meanwhile: when its dial has succeeded and the
   loop is back at rest, the address maps to the new session, the old one is recorded as draining and,
   unless the new session has died, leads to it; and then no registered stream with a live writer is
   left on the old session.
   */
  lemma RedialMigrates(s: State, a: Addr, x: SessionId, steps: seq<Step>)
    requires Reachable(s) && LoopEnabled(s, DialDone(a, x)) && a in s.chain.redials
    requires var s1 := ApplyLoop(s, DialDone(a, x));
             Run(s1, steps).Some? && Run(s1, steps).value.loop.Idle? && BusyUntilEnd(s1, steps)
    ensures var (y, s') := (s.chain.redials[a], Run(ApplyLoop(s, DialDone(a, x)), steps).value);
            && Migrated(s'.chain, a, y, x)
            && (x !in s'.chain.dead ==>
                  forall st :: T(s', st).phase.Tracked? && T(s', st).writerAlive ==> T(s', st).guard != y)
  {
    var (y, s1) := (s.chain.redials[a], ApplyLoop(s, DialDone(a, x)));
    var s' := Run(s1, steps).value;
    DialBegins(s, a, x);
    UnderwayRun(s1, steps, a, y, x);
    RunOn(s, Loops(DialDone(a, x)), steps);
    hide Run, Reachable, ApplyLoop;
    if x !in s'.chain.dead {
      forall st | T(s', st).phase.Tracked? && T(s', st).writerAlive ensures T(s', st).guard != y {
        NoStreamStranded(s', st);
      }
    }
  }

  lemma RunOn(s: State, step: Step, steps: seq<Step>)
    requires Reachable(s) && Enabled(s, step) && Run(Apply(s, step), steps).Some?
    ensures Reachable(Run(Apply(s, step), steps).value)
  {
    hide Apply, Enabled;
    var before :| Run(Initial, before) == Some(s);
    RunJoins(Initial, before, [step] + steps);
    assert ([step] + steps)[1..] == steps;
  }

  lemma {:induction false} RunJoins(s: State, first: seq<Step>, rest: seq<Step>)
    requires Run(s, first).Some?
    ensures Run(s, first + rest) == Run(Run(s, first).value, rest)
    decreases |first|
  {
    hide Apply, Enabled;
    if first == [] {
      assert first + rest == rest;
    } else {
      RunJoins(Apply(s, first[0]), first[1..], rest);
      assert (first + rest)[1..] == first[1..] + rest;
    }
  }

  // ---------------------------------------------------------------- without interruption

  lemma DialStep(s: State, a: Addr, x: SessionId)
    requires Reachable(s) && LoopEnabled(s, DialDone(a, x))
    ensures var (c, s') := (s.chain, Apply(s, Loops(DialDone(a, x))));
            && Reachable(s') && s'.streams == s.streams && s'.lists == s.lists
            && s'.loop == Installed(a, if a in c.redials then Some(c.redials[a]) else None, x)
            && s'.chain == c.(addr := c.addr[x := a], dialing := c.dialing - {a}, redials := c.redials - {a})
            && x !in c.dead
  {
    hide Reachable;
    ReachStep(s, Loops(DialDone(a, x)));
    hide Held;
  }

  lemma RecordStep(s: State)
    requires Reachable(s) && s.loop.Rebound?
    ensures var s' := Apply(s, Loops(Record));
            && Reachable(s')
            && s' == s.(chain := s'.chain, loop := Serving(s.loop.addr, Some(s.loop.prior), s.loop.latest))
            && s'.chain == s.chain.(draining := s.chain.draining[s.loop.addr := s.loop.prior])
  {
    hide Reachable;
    ReachStep(s, Loops(Record));
    hide Held;
  }

  lemma InsertStep(s: State)
    requires Reachable(s) && s.loop.Serving?
    ensures var s' := Apply(s, Loops(Insert));
            && Reachable(s') && s' == s.(chain := s'.chain, loop := Idle)
            && s'.chain == s.chain.(mapped := s.chain.mapped[s.loop.addr := s.loop.latest])
  {
    hide Reachable;
    ReachStep(s, Loops(Insert));
    hide Held;
  }

  lemma FirstDial(s: State)
    requires Reachable(s) && s.loop.Installed? && s.loop.redialed.None?
    ensures var s' := Apply(s, Loops(CheckLatest));
            Reachable(s') && s' == s.(loop := Serving(s.loop.addr, None, s.loop.latest))
  {
    hide Reachable;
    ReachStep(s, Loops(CheckLatest));
    hide Held;
  }

  /**
   The arm of a completed dial, uninterrupted, with nobody waiting for it. The address maps to the new
   session. If it was a redial, the old session leads to the new one, is recorded as draining and
   lists nothing; every stream it listed whose handle and writer live is bound to, counted on and
   listed in the new session, which counts no others; all other streams stay as they were. If it was a
   first dial, no stream, list or successor changes.
   */
  method InstallArm(s: State, a: Addr, x: SessionId) returns (s': State, moved: nat)
    requires Reachable(s) && s.loop.Idle? && a in s.chain.dialing && Unused(s, x)
    ensures Reachable(s') && s'.loop.Idle? && s'.chain.mapped == s.chain.mapped[a := x]
    ensures a !in s'.chain.dialing && a !in s'.chain.redials && Live(s', x) == moved
    ensures a in s.chain.redials ==>
              var y := s.chain.redials[a];
              && Succ(s'.chain, y) == Some(x) && s'.chain.draining == s.chain.draining[a := y] && List(s', y) == {}
              && moved == |Moves(s, List(s, y))|
              && (forall k :: k in List(s, y) ==> Drained(s, s', k, x))
              && (forall k :: k !in List(s, y) ==> T(s', k) == T(s, k))
    ensures a !in s.chain.redials ==>
              && moved == 0 && s'.streams == s.streams && s'.lists == s.lists
              && s'.chain.successor == s.chain.successor && s'.chain.draining == s.chain.draining
  {
    hide Reachable, Apply, Drained, Moves, Unused, List, Live;
    DialStep(s, a, x);
    s' := Apply(s, Loops(DialDone(a, x)));
    moved := 0;
    if a in s.chain.redials { s', moved := InstallRedial(s, s', a, x); } else { s' := InstallFirst(s, s', a, x); }
  }

  method InstallFirst(ghost s: State, s1: State, a: Addr, x: SessionId) returns (s': State)
    requires Reachable(s1) && Unused(s, x) && s1.streams == s.streams && s1.loop == Installed(a, None, x)
    ensures Reachable(s') && s' == s1.(chain := s'.chain, loop := Idle) && Live(s', x) == 0
    ensures s'.chain == s1.chain.(mapped := s1.chain.mapped[a := x])
  {
    hide Reachable, Apply, Unused, Live;
    FirstDial(s1);
    s' := Apply(s1, Loops(CheckLatest));
    InsertStep(s');
    s' := Apply(s', Loops(Insert));
    NoneOnFresh(s, s', x);
  }

  /** The arm of a redial, from the installed session on; `s` is the state before the dial completed. */
  method InstallRedial(ghost s: State, s1: State, a: Addr, x: SessionId) returns (s': State, moved: nat)
    requires Reachable(s1) && Unused(s, x) && a in s.chain.redials && x !in s1.chain.dead
    requires s1.streams == s.streams && s1.lists == s.lists && s1.loop == Installed(a, Some(s.chain.redials[a]), x)
    ensures Reachable(s') && s'.loop.Idle? && Live(s', x) == moved
    ensures var y := s.chain.redials[a];
            && s'.chain == s1.chain.(successor := s1.chain.successor[y := x], draining := s1.chain.draining[a := y],
                                     mapped := s1.chain.mapped[a := x])
            && List(s', y) == {} && moved == |Moves(s, List(s, y))|
            && (forall k :: k in List(s, y) ==> Drained(s, s', k, x))
            && (forall k :: k !in List(s, y) ==> T(s', k) == T(s, k))
  {
    hide Reachable, Apply, Drained, Moves, Unused;
    ghost var y := s.chain.redials[a];
    s', moved := RebindStreams(s1);
    ghost var s2 := s';
    AsBefore(s, s1, List(s, y), x);
    s' := Publish(s');
    AfterMoves(s, s1, s2, s', List(s, y), x);
    OnlyTheMoved(s, s', List(s, y), x);
  }

  method Publish(s: State) returns (s': State)
    requires Reachable(s) && s.loop.Rebound?
    ensures Reachable(s') && s' == s.(chain := s'.chain, loop := Idle)
    ensures s'.chain == s.chain.(draining := s.chain.draining[s.loop.addr := s.loop.prior],
                                 mapped := s.chain.mapped[s.loop.addr := s.loop.latest])
  {
    hide Reachable, Apply;
    RecordStep(s);
    s' := Apply(s, Loops(Record));
    InsertStep(s');
    s' := Apply(s', Loops(Insert));
  }

  lemma AsBefore(s: State, s1: State, all: set<StreamId>, x: SessionId)
    requires s1.streams == s.streams
    ensures Moves(s1, all) == Moves(s, all)
  {}

  lemma AfterMoves(s: State, s1: State, s2: State, s': State, all: set<StreamId>, x: SessionId)
    requires s1.streams == s.streams && s'.streams == s2.streams && s'.lists == s2.lists
    requires forall k :: k in all ==> Drained(s1, s2, k, x)
    ensures forall k :: k in all ==> Drained(s, s', k, x)
  {
    forall k | k in all ensures Drained(s, s', k, x) { assert Drained(s1, s2, k, x); }
  }

  /** No stream refers to a session that was just allocated. */
  lemma NoneRefer(s: State, x: SessionId, k: StreamId)
    requires Unused(s, x)
    ensures !Refers(T(s, k), x)
  {
    assert Refers(T(s, k), x) ==> HeldByStream(s, x);
  }

  lemma OnlyTheMoved(s: State, s': State, all: set<StreamId>, x: SessionId)
    requires Reachable(s') && Unused(s, x)
    requires forall k :: k in all ==> Drained(s, s', k, x)
    requires forall k :: k !in all ==> T(s', k) == T(s, k)
    ensures Live(s', x) == |Moves(s, all)|
  {
    GaugeCountsGuards(s', x);
    ReachableInv(s');
    hide Reachable, Unused, Inv;
    forall k ensures k in Guards(s'.streams, x) <==> k in Moves(s, all) {
      NoneRefer(s, x, k);
      assert k in all ==> Drained(s, s', k, x);
    }
    assert Guards(s'.streams, x) == Moves(s, all);
    forall k ensures k !in Incoming(s'.streams, x) {
      NoneRefer(s, x, k);
      TrackedHasNone(s', k);
      assert k in all ==> Drained(s, s', k, x);
    }
    assert Incoming(s'.streams, x) == {};
  }

  lemma TrackedHasNone(s: State, k: StreamId)
    requires Inv(s)
    ensures T(s, k).phase.Tracked? ==> T(s, k).incoming.None?
  {
    assert PhaseOk(s, k);
  }

  lemma NoneOnFresh(s: State, s': State, x: SessionId)
    requires Reachable(s') && Unused(s, x) && s'.streams == s.streams
    ensures Live(s', x) == 0
  {
    GaugeCountsGuards(s', x);
    hide Reachable, Unused;
    forall k ensures k !in Guards(s'.streams, x) && k !in Incoming(s'.streams, x) { NoneRefer(s, x, k); }
    assert Guards(s'.streams, x) == {} && Incoming(s'.streams, x) == {};
  }

  // ---------------------------------------------------------------- a stream's life

  lemma ClientStep(s: State, st: StreamId, c: Client)
    requires Reachable(s) && ClientEnabled(s, st, c)
    ensures var (s', e) := (Apply(s, By(st, c)), ClientEffect(s, st, c));
            && Reachable(s') && s' == ApplyEffect(s, st, e) && s'.chain == s.chain && T(s', st) == e.stream
            && (forall k :: k != st ==> T(s', k) == T(s, k))
            && (forall x :: Live(s', x) == Live(s, x) + if e.gauge == Some(x) then e.delta else 0)
            && (forall x :: e.push != Some(x) ==> List(s', x) == List(s, x))
            && (e.push.Some? ==> st in List(s', e.push.value))
  {
    hide Reachable;
    ReachStep(s, By(st, c));
  }

  /** A stream opened on the fast path: it is counted on the address's session, and bound to it. */
  method OpenStream(s: State, a: Addr, st: StreamId) returns (s': State)
    requires Reachable(s) && st !in s.streams && a in s.chain.mapped
    ensures Reachable(s') && s'.chain == s.chain
    ensures var (t, y) := (T(s', st), s.chain.mapped[a]);
            && t.phase.Opened? && t.client && t.writerAlive
            && t.guarded && t.guard == y && t.bound == y && t.locals == {}
            && (forall x :: Live(s', x) == Live(s, x) + if x == y then 1 else 0)
            && (forall k :: k != st ==> T(s', k) == T(s, k))
  {
    hide Reachable, Apply, ApplyEffect, List, Live;
    ClientStep(s, st, Fetch(a));
    s' := Apply(s, By(st, Fetch(a)));
    assert st in s'.streams;
    ClientStep(s', st, Open);
    s' := Apply(s', By(st, Open));
  }

  /** A registered stream that its owner closes: it ends, and its session counts one stream less. */
  method CloseStream(s: State, st: StreamId) returns (s': State)
    requires Reachable(s) && st in s.streams && T(s, st).phase.Tracked? && T(s, st).client
    ensures Reachable(s') && s'.chain == s.chain && T(s', st).phase.Gone? && forall x :: !Refers(T(s', st), x)
    ensures forall x :: Live(s', x) == Live(s, x) - if x == T(s, st).guard then 1 else 0
    ensures forall k :: k != st ==> T(s', k) == T(s, k)
  {
    TrackedIs(s, st);
    hide Reachable, Apply, ApplyEffect, List, Live;
    ClientStep(s, st, DropLocals);
    s' := Apply(s, By(st, DropLocals));
    ClientStep(s', st, Close);
    s' := Apply(s', By(st, Close));
    ClientStep(s', st, Release);
    s' := Apply(s', By(st, Release));
  }

  lemma TrackedIs(s: State, st: StreamId)
    requires Reachable(s) && T(s, st).phase.Tracked?
    ensures T(s, st).guarded && T(s, st).incoming.None?
  {
    ReachableInv(s);
    assert PhaseOk(s, st);
  }

  // ---------------------------------------------------------------- forgetting sessions

  /** When a session's watcher ends, the session is mapped nowhere, and no other mapping changes. */
  lemma ReapForgets(s: State, x: SessionId)
    requires Reachable(s) && s.loop.Idle?
    ensures var s' := Apply(s, Loops(Reap(x)));
            && s' == s.(chain := s.chain.(mapped := s'.chain.mapped)) && !HeldByMap(s'.chain.mapped, x)
            && (forall a :: a in s.chain.mapped && s.chain.mapped[a] != x ==>
                  a in s'.chain.mapped && s'.chain.mapped[a] == s.chain.mapped[a])
            && (forall a :: a in s'.chain.mapped ==> a in s.chain.mapped && s'.chain.mapped[a] == s.chain.mapped[a])
  {
    ReachableInv(s);
    assert AddrOk(s.chain, s.chain.mapped);
    hide Reachable, Inv, Held;
  }

  /** A reset, uninterrupted: no session is mapped, none is draining, and no dial or redial is in flight. */
  method ResetArm(s: State) returns (s': State)
    requires Reachable(s) && s.loop.Idle?
    ensures Reachable(s') && s'.loop.Idle? && s'.streams == s.streams && s'.lists == s.lists
    ensures s'.chain == s.chain.(mapped := map[], draining := map[], dialing := {}, redials := map[])
  {
    hide Reachable;
    ReachStep(s, Loops(ResetSessions));
    s' := Apply(s, Loops(ResetSessions));
    ReachStep(s', Loops(ClearDraining));
    s' := Apply(s', Loops(ClearDraining));
    ReachStep(s', Loops(ClearDials));
    s' := Apply(s', Loops(ClearDials));
    hide Held;
  }

  // ---------------------------------------------------------------- such a redial exists

  function Alone(a: Addr, y: SessionId, dialing: set<Addr>, mapped: map<Addr, SessionId>,
                 redials: map<Addr, SessionId>): Chain
  {
    Chain(map[y := a], map[], {}, {}, mapped, redials, dialing, map[])
  }

  lemma FirstDialing(a: Addr, y: SessionId) returns (s: State)
    ensures Reachable(s) && LoopEnabled(s, DialDone(a, y))
    ensures s == Initial.(chain := Initial.chain.(dialing := {a}))
  {
    assert Run(Initial, []) == Some(Initial);
    hide Reachable;
    ReachStep(Initial, Loops(DialConnect(a)));
    s := Apply(Initial, Loops(DialConnect(a)));
    assert Unused(s, y);
  }

  lemma FirstMapped(a: Addr, y: SessionId) returns (s: State)
    ensures Reachable(s) && s == State(Alone(a, y, {}, map[a := y], map[]), map[], map[], map[], {}, Idle)
  {
    s := FirstDialing(a, y);
    hide Reachable, Held;
    DialStep(s, a, y);
    assert s.live == map[] && s.peeks == {};
    s := Apply(s, Loops(DialDone(a, y)));
    hide Apply;
    FirstDial(s);
    s := Apply(s, Loops(CheckLatest));
    InsertStep(s);
    s := Apply(s, Loops(Insert));
  }

  lemma ThenTracked(a: Addr, y: SessionId, st: StreamId) returns (s: State)
    ensures Reachable(s) && s.loop.Idle? && s.chain == Alone(a, y, {}, map[a := y], map[]) && s.peeks == {}
    ensures s.streams.Keys == {st} && T(s, st) == NewStream(Tracked, true, y, {y}) && st in List(s, y)
    ensures forall x :: x != y ==> List(s, x) == {} && Live(s, x) == 0
  {
    s := FirstMapped(a, y);
    hide Reachable, Apply;
    ClientStep(s, st, Fetch(a));
    s := Apply(s, By(st, Fetch(a)));
    ClientStep(s, st, Open);
    s := Apply(s, By(st, Open));
    ClientStep(s, st, BeginTrack);
    s := Apply(s, By(st, BeginTrack));
    ClientStep(s, st, TrackIfCurrent);
    s := Apply(s, By(st, TrackIfCurrent));
  }

  /** A redial of a session that serves a stream is in flight, and any other session may be its result. */
  lemma RedialPending(a: Addr, y: SessionId, x: SessionId, st: StreamId) returns (s: State)
    requires x != y
    ensures Reachable(s) && s.loop.Idle? && a in s.chain.dialing && Unused(s, x)
    ensures a in s.chain.redials && s.chain.redials[a] == y && s.chain.mapped == map[a := y]
    ensures T(s, st).phase.Tracked? && Movable(T(s, st)) && st in List(s, y)
  {
    var was := ThenTracked(a, y, st);
    hide Reachable;
    ReachStep(was, Loops(Redial(a)));
    s := Apply(was, Loops(Redial(a)));
    assert s == was.(chain := Alone(a, y, {a}, map[a := y], map[a := y]));
    hide Apply;
    assert List(was, x) == {} && Live(was, x) == 0;
    assert List(s, x) == {} && Live(s, x) == 0 && T(s, st) == T(was, st) && List(s, y) == List(was, y);
    FreshIsUnused(s, a, y, x, st);
  }

  lemma FreshIsUnused(s: State, a: Addr, y: SessionId, x: SessionId, st: StreamId)
    requires x != y && s.loop.Idle? && s.chain == Alone(a, y, {a}, map[a := y], map[a := y]) && s.peeks == {}
    requires s.streams.Keys == {st} && T(s, st) == NewStream(Tracked, true, y, {y})
    requires List(s, x) == {} && Live(s, x) == 0
    ensures Unused(s, x)
  {
    forall k ensures !Refers(T(s, k), x) { assert k != st ==> k !in s.streams; }
  }
}
