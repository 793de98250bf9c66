/**
 The loops of session migration as they run: the walk along successors, and the drain that moves
 every stream of a replaced session. The drain takes the protocol's steps, so it is one of its runs.
 */
module GenerationsMethods {
  import opened Options
  import opened Generations
  import opened GenerationsProof

  // ---------------------------------------------------------------- the walk along successors

  /** The newest live generation seen within `hops` steps of `cursor`. */
  function NewestLive(c: Chain, cursor: SessionId, newest: SessionId, hops: nat): SessionId
    decreases hops
  {
    if hops == 0 || Succ(c, cursor).None? then newest
    else
      var next := Succ(c, cursor).value;
      NewestLive(c, next, if next in c.dead then newest else next, hops - 1)
  }

  method LatestGeneration(c: Chain, x: SessionId) returns (newest: SessionId)
    ensures newest == NewestLive(c, x, x, MAX_SUCCESSOR_HOPS)
  {
    newest := x;
    var cursor := x;
    var i := 0;
    while i < MAX_SUCCESSOR_HOPS && Succ(c, cursor).Some?
      invariant 0 <= i <= MAX_SUCCESSOR_HOPS
      invariant NewestLive(c, cursor, newest, MAX_SUCCESSOR_HOPS - i) == NewestLive(c, x, x, MAX_SUCCESSOR_HOPS)
    {
      cursor := Succ(c, cursor).value;
      if cursor !in c.dead { newest := cursor; }
      i := i + 1;
    }
  }

  /** In every reachable state the walk from a held session is the same under any bound of at least one hop. */
  lemma BoundNeverTruncates(s: State, x: SessionId, hops: nat)
    requires Reachable(s) && Held(s, x) && hops >= 1
    ensures NewestLive(s.chain, x, x, hops) ==
            if Succ(s.chain, x).Some? && Succ(s.chain, x).value !in s.chain.dead then Succ(s.chain, x).value else x
  {
    hide Reachable, Held;
    if Succ(s.chain, x).Some? {
      SuccessorIsLast(s, x);
      var next := Succ(s.chain, x).value;
      assert NewestLive(s.chain, next, if next in s.chain.dead then x else next, hops - 1) ==
             if next in s.chain.dead then x else next;
    }
  }

  // ---------------------------------------------------------------- taking steps

  lemma {:induction false} RunAppend(s: State, steps: seq<Step>, step: Step)
    requires Run(s, steps).Some? && Enabled(Run(s, steps).value, step)
    ensures Run(s, steps + [step]) == Some(Apply(Run(s, steps).value, step))
    decreases |steps|
  {
    hide Apply, Enabled;
    if steps == [] {
      assert (steps + [step])[1..] == [];
      assert Run(Apply(s, step), []) == Some(Apply(s, step));
    } else {
      RunAppend(Apply(s, steps[0]), steps[1..], step);
      assert (steps + [step])[1..] == steps[1..] + [step];
    }
  }

  lemma ReachStep(s: State, step: Step)
    requires Reachable(s) && Enabled(s, step)
    ensures Reachable(Apply(s, step))
  {
    hide Apply, Enabled, Run;
    var steps :| Run(Initial, steps) == Some(s);
    RunAppend(Initial, steps, step);
  }

  // ---------------------------------------------------------------- the drain

  /** The stream is bound to, counted on and listed in session `x`. */
  predicate Landed(s: State, st: StreamId, x: SessionId) {
    var t := T(s, st);
    t.phase.Tracked? && t.guarded && t.bound == x && t.guard == x && st in List(s, x)
  }

  /** The drain finds the stream's handle and its writer alive. */
  predicate Movable(t: Stream) {
    HandleAlive(t) && t.writerAlive
  }

  /** Only stream `st` and the list of session `x` may differ. */
  ghost predicate Elsewhere(s: State, s': State, st: StreamId, x: SessionId) {
    && s'.chain == s.chain
    && (forall k :: k != st ==> T(s', k) == T(s, k))
    && (forall y :: y != x ==> List(s', y) == List(s, y))
    && (forall k :: k != st && k in List(s, x) && HandleAlive(T(s, k)) ==> k in List(s', x))
  }

  lemma EffectElsewhere(s: State, st: StreamId, e: Effect, x: SessionId)
    requires e.push.None? || e.push == Some(x)
    ensures Elsewhere(s, ApplyEffect(s, st, e), st, x)
  {
    var s' := ApplyEffect(s, st, e);
    forall k | k != st && k in List(s, x) && HandleAlive(T(s, k)) ensures k in List(s', x) {
      assert k in s.streams;
    }
  }

  lemma ElsewhereChains(s: State, s1: State, s2: State, st: StreamId, x: SessionId)
    requires Elsewhere(s, s1, st, x) && Elsewhere(s1, s2, st, x)
    ensures Elsewhere(s, s2, st, x)
  {}

  /** A drained stream that can be moved is one that `track` had registered. */
  lemma DrainedIsTracked(s: State, st: StreamId)
    requires Reachable(s) && s.loop.Rebinding? && st in s.loop.todo
    ensures st in s.streams
    ensures HandleAlive(T(s, st)) ==> T(s, st).phase.Tracked? && T(s, st).client
  {
    ReachableInv(s);
    assert Registered(s, st, s.loop.prior);
    assert PhaseOk(s, st);
  }

  lemma Upgraded(s: State, st: StreamId) returns (s': State)
    requires Reachable(s) && s.loop.Rebinding? && s.loop.moving.None? && st in s.loop.todo && HandleAlive(T(s, st))
    ensures Reachable(s') && s' == Apply(s, Loops(Upgrade(st))) && Elsewhere(s, s', st, s.loop.latest)
    ensures T(s', st) == T(s, st).(phase := Moving(s.loop.prior, s.loop.latest, Offered, true))
    ensures s'.loop == s.loop.(todo := s.loop.todo - {st}, moving := Some(st))
    ensures s'.lists == s.lists
  {
    hide Reachable;
    ReachStep(s, Loops(Upgrade(st)));
    s' := Apply(s, Loops(Upgrade(st)));
  }

  lemma MoveStep(s: State, st: StreamId, m: Mover) returns (s': State)
    requires Reachable(s) && MoveEnabled(s, st, m)
    ensures Reachable(s') && s' == Apply(s, Move(st, m)) == ApplyEffect(s, st, MoveEffect(s, st, m))
    ensures Elsewhere(s, s', st, T(s, st).phase.target)
    ensures T(s', st) == MoveEffect(s, st, m).stream
    ensures s'.loop == if MoveEffect(s, st, m).leaves && s.loop.Rebinding? then s.loop.(moving := None) else s.loop
  {
    hide Reachable;
    ReachStep(s, Move(st, m));
    s' := Apply(s, Move(st, m));
    EffectElsewhere(s, st, MoveEffect(s, st, m), T(s, st).phase.target);
  }

  /** One turn of the drain loop: the stream lands on the new session, or is left as it was. */
  method MoveOne(s: State, st: StreamId) returns (s': State, moved: bool)
    requires Reachable(s) && s.loop.Rebinding? && s.loop.moving.None? && st in s.loop.todo
    ensures Reachable(s') && s'.loop == s.loop.(todo := s.loop.todo - {st})
    ensures Elsewhere(s, s', st, s.loop.latest)
    ensures moved == Movable(T(s, st))
    ensures if moved then Landed(s', st, s.loop.latest) else T(s', st) == T(s, st) && s'.lists == s.lists
  {
    DrainedIsTracked(s, st);
    var x := s.loop.latest;
    ReachStep(s, Loops(Upgrade(st)));
    s' := Apply(s, Loops(Upgrade(st)));
    if !HandleAlive(T(s, st)) { return s', false; }
    ghost var s1 := Upgraded(s, st);
    hide Reachable, Apply, Elsewhere, ApplyEffect;
    moved := T(s', st).writerAlive;
    ghost var s2 := MoveStep(s1, st, Repoint);
    ElsewhereChains(s, s1, s2, st, x);
    s' := Apply(s', Move(st, Repoint));
    if moved {
      s' := Land(s', st);
      ElsewhereChains(s, s2, s', st, x);
    }
  }

  /** The rest of the move of a stream that was repointed. */
  method Land(s: State, st: StreamId) returns (s': State)
    requires Reachable(s) && s.loop.Rebinding? && T(s, st).client && T(s, st).guarded
    requires var p := T(s, st).phase; p.Moving? && p.stage == Repointed && p.byLoop && T(s, st).bound == p.target
    ensures Reachable(s') && s'.loop == s.loop.(moving := None)
    ensures Elsewhere(s, s', st, T(s, st).phase.target) && Landed(s', st, T(s, st).phase.target)
  {
    hide Reachable, Apply, Elsewhere, ApplyEffect;
    ghost var x := T(s, st).phase.target;
    ghost var s1 := MoveStep(s, st, Count);
    s' := Apply(s, Move(st, Count));
    ghost var s2 := MoveStep(s1, st, Swap);
    ElsewhereChains(s, s1, s2, st, x);
    s' := Apply(s', Move(st, Swap));
    ghost var s3 := MoveStep(s2, st, Push);
    ElsewhereChains(s, s2, s3, st, x);
    s' := Apply(s', Move(st, Push));
    Pushed(s2, st);
  }

  lemma Pushed(s: State, st: StreamId)
    requires MoveEnabled(s, st, Push)
    ensures st in List(ApplyEffect(s, st, MoveEffect(s, st, Push)), T(s, st).phase.target)
  {}

  /** What the drain did to a stream that was listed when it began. */
  predicate Drained(before: State, s: State, st: StreamId, x: SessionId) {
    if Movable(T(before, st)) then Landed(s, st, x) else T(s, st) == T(before, st)
  }

  ghost predicate Progress(before: State, s: State, all: set<StreamId>, todo: set<StreamId>, x: SessionId) {
    && s.chain == before.chain
    && (forall k :: k in all && k !in todo ==> Drained(before, s, k, x))
    && (forall k :: k in todo || k !in all ==> T(s, k) == T(before, k))
    && (forall y :: y != x ==> List(s, y) == List(before, y))
  }

  lemma ProgressStep(before: State, s: State, s': State, all: set<StreamId>, todo: set<StreamId>, x: SessionId,
                     st: StreamId)
    requires Progress(before, s, all, todo, x) && st in todo && todo <= all
    requires Elsewhere(s, s', st, x)
    requires if Movable(T(s, st)) then Landed(s', st, x) else T(s', st) == T(s, st)
    ensures Progress(before, s', all, todo - {st}, x)
  {
    forall k | k in all && k !in todo - {st} ensures Drained(before, s', k, x) {
      if k != st { assert Drained(before, s, k, x); }
    }
  }

  function Moves(before: State, all: set<StreamId>): set<StreamId> {
    set k | k in all && Movable(T(before, k))
  }

  lemma MovesGrow(before: State, all: set<StreamId>, todo: set<StreamId>, st: StreamId)
    requires st in todo && todo <= all
    ensures |Moves(before, all - (todo - {st}))| ==
            |Moves(before, all - todo)| + if Movable(T(before, st)) then 1 else 0
  {
    var was := Moves(before, all - todo);
    var now := Moves(before, all - (todo - {st}));
    assert now == if Movable(T(before, st)) then was + {st} else was;
  }

  lemma LatestIsFresh(s: State)
    requires Reachable(s) && s.loop.Rebinding?
    ensures s.loop.latest != s.loop.prior
  {
    ReachableInv(s);
    assert Succ(s.chain, s.loop.prior) == Some(s.loop.latest);
    assert Held(s, s.loop.prior);
    SuccessorIsLast(s, s.loop.prior);
  }

  /**
   `rebind_streams`, uninterrupted. A new session that is already dead changes nothing. Otherwise it
   becomes the old session's successor, the old list is emptied, and every stream on it whose handle
   and writer live is bound to, counted on and listed in the new session; all others stay as they were.
   */
  method RebindStreams(s: State) returns (s': State, moved: nat)
    requires Reachable(s) && s.loop.Installed? && s.loop.redialed.Some?
    ensures var (prior, x) := (s.loop.redialed.value, s.loop.latest);
            && Reachable(s') && s'.loop == Rebound(s.loop.addr, prior, x)
            && moved == (if x in s.chain.dead then 0 else |Moves(s, List(s, prior))|)
            && (x in s.chain.dead ==> s' == s.(loop := s'.loop))
            && (x !in s.chain.dead ==>
                  && s'.chain == s.chain.(successor := s.chain.successor[prior := x]) && List(s', prior) == {}
                  && (forall k :: k in List(s, prior) ==> Drained(s, s', k, x))
                  && (forall k :: k !in List(s, prior) ==> T(s', k) == T(s, k)))
  {
    var (prior, x) := (s.loop.redialed.value, s.loop.latest);
    ReachStep(s, Loops(CheckLatest));
    s' := Apply(s, Loops(CheckLatest));
    moved := 0;
    if x in s.chain.dead { return; }
    assert s' == s.(loop := Checked(s.loop.addr, prior, x));
    DrainBegins(s');
    s' := Apply(s', Loops(DrainLock));
    hide Reachable, Apply, Progress, Moves, Drained, Succ, List;
    ghost var before := s';
    s', moved := DrainLoop(s');
    Finishes(s');
    ghost var done := s';
    s' := Apply(s', Loops(EndRebind));
    MovesAgree(s, before, before.loop.todo);
    DrainedAgree(s, before, done, s', before.loop.todo, x);
  }

  lemma DrainBegins(s: State)
    requires Reachable(s) && s.loop.Checked?
    ensures LoopEnabled(s, DrainLock)
    ensures var s' := Apply(s, Loops(DrainLock));
            && Reachable(s') && s'.streams == s.streams
            && s'.chain == s.chain.(successor := s.chain.successor[s.loop.prior := s.loop.latest])
            && List(s', s.loop.prior) == {}
            && s'.loop == Rebinding(s.loop.addr, s.loop.prior, s.loop.latest, List(s, s.loop.prior), None)
            && s.loop.latest != s.loop.prior
  {
    hide Reachable, Held;
    ReachStep(s, Loops(DrainLock));
    LatestIsFresh(Apply(s, Loops(DrainLock)));
  }

  /** Takes the drained handles one after the other. */
  method DrainLoop(before: State) returns (s': State, moved: nat)
    requires Reachable(before) && before.loop.Rebinding? && before.loop.moving.None?
    ensures Reachable(s') && s'.loop == before.loop.(todo := {})
    ensures Progress(before, s', before.loop.todo, {}, before.loop.latest)
    ensures moved == |Moves(before, before.loop.todo)|
  {
    hide Reachable, Elsewhere, Landed, Movable;
    ghost var (all, x) := (before.loop.todo, before.loop.latest);
    s', moved := before, 0;
    assert all - all == {} && Moves(before, {}) == {};
    hide Drained;
    while exists st :: st in s'.loop.todo
      invariant Reachable(s') && s'.loop.Rebinding? && s'.loop == before.loop.(todo := s'.loop.todo)
      invariant s'.loop.todo <= all
      invariant Progress(before, s', all, s'.loop.todo, x)
      invariant moved == |Moves(before, all - s'.loop.todo)|
      decreases |s'.loop.todo|
    {
      hide Progress, Moves;
      var st :| st in s'.loop.todo;
      ghost var (was, todo) := (s', s'.loop.todo);
      assert T(was, st) == T(before, st) by { StillThere(before, was, all, todo, x, st); }
      var ok;
      s', ok := MoveOne(s', st);
      ProgressStep(before, was, s', all, todo, x, st);
      MovesGrow(before, all, todo, st);
      if ok { moved := moved + 1; }
    }
    assert s'.loop.todo == {};
    assert all - {} == all;
  }

  lemma StillThere(before: State, s: State, all: set<StreamId>, todo: set<StreamId>, x: SessionId, st: StreamId)
    requires Progress(before, s, all, todo, x) && st in todo
    ensures T(s, st) == T(before, st)
  {}

  lemma Finishes(s: State)
    requires Reachable(s) && s.loop.Rebinding? && s.loop.moving.None? && s.loop.todo == {}
    ensures LoopEnabled(s, EndRebind) && Reachable(Apply(s, Loops(EndRebind)))
    ensures Apply(s, Loops(EndRebind)) == s.(loop := Rebound(s.loop.addr, s.loop.prior, s.loop.latest))
  {
    hide Reachable;
    ReachStep(s, Loops(EndRebind));
  }

  lemma MovesAgree(s: State, before: State, all: set<StreamId>)
    requires before.streams == s.streams
    ensures Moves(before, all) == Moves(s, all)
  {}

  lemma DrainedAgree(s: State, before: State, done: State, s': State, all: set<StreamId>, x: SessionId)
    requires before.streams == s.streams && s' == done.(loop := s'.loop) && Progress(before, done, all, {}, x)
    ensures s'.chain == before.chain && forall y :: y != x ==> List(s', y) == List(before, y)
    ensures forall k :: k in all ==> Drained(s, s', k, x)
    ensures forall k :: k !in all ==> T(s', k) == T(s, k)
  {
    forall k | k in all ensures Drained(s, s', k, x) { assert Drained(before, done, k, x); }
  }

  // ---------------------------------------------------------------- registering a stream

  /** One step of the thread that owns the stream. */
  lemma OwnerStep(s: State, st: StreamId, c: Client)
    requires Reachable(s) && ClientEnabled(s, st, c)
    ensures var (s', e) := (Apply(s, By(st, c)), ClientEffect(s, st, c));
            && Reachable(s') && s'.chain == s.chain && st in s'.streams && T(s', st) == e.stream
            && (e.push.Some? ==> st in List(s', e.push.value))
  {
    hide Reachable;
    ReachStep(s, By(st, c));
  }

  lemma MoverStep(s: State, st: StreamId, m: Mover)
    requires Reachable(s) && MoveEnabled(s, st, m)
    ensures var (s', e) := (Apply(s, Move(st, m)), MoveEffect(s, st, m));
            && Reachable(s') && s'.chain == s.chain && st in s'.streams && T(s', st) == e.stream
            && (e.push.Some? ==> st in List(s', e.push.value))
  {
    hide Reachable;
    ReachStep(s, Move(st, m));
  }

  /** The walk of `latest_generation`, one test and one look at a time. */
  method Walk(s: State, st: StreamId) returns (s': State)
    requires Reachable(s) && st in s.streams && T(s, st).phase == Hopping(0, T(s, st).guard, T(s, st).guard)
    ensures var g := T(s, st).guard;
            && Reachable(s') && s'.chain == s.chain && st in s'.streams
            && T(s', st) == T(s, st).(phase := Chosen(NewestLive(s.chain, g, g, MAX_SUCCESSOR_HOPS)),
                                      locals := T(s', st).locals)
  {
    hide Reachable, Apply;
    ghost var t := T(s, st);
    ghost var live := NewestLive(s.chain, t.guard, t.guard, MAX_SUCCESSOR_HOPS);
    s' := s;
    while T(s', st).phase.Hopping?
      invariant Reachable(s') && s'.chain == s.chain && st in s'.streams
      invariant T(s', st) == t.(phase := T(s', st).phase, locals := T(s', st).locals)
      invariant T(s', st).phase.Hopping? || T(s', st).phase == Chosen(live)
      invariant T(s', st).phase.Hopping? ==>
                  var p := T(s', st).phase;
                  && p.hops <= MAX_SUCCESSOR_HOPS
                  && NewestLive(s.chain, p.cursor, p.newest, MAX_SUCCESSOR_HOPS - p.hops) == live
      decreases if T(s', st).phase.Hopping? then MAX_SUCCESSOR_HOPS + 1 - T(s', st).phase.hops else 0
    {
      OwnerStep(s', st, Hop);
      s' := Apply(s', By(st, Hop));
      if T(s', st).phase.Examining? {
        OwnerStep(s', st, Examine);
        s' := Apply(s', By(st, Examine));
      }
    }
  }

  /** `rebind_one` on the owning thread. */
  method MoveOwn(s: State, st: StreamId) returns (s': State)
    requires Reachable(s) && st in s.streams && T(s, st).phase.Moving? && T(s, st).client && T(s, st).guarded
    requires T(s, st).phase == Moving(T(s, st).guard, T(s, st).phase.target, Offered, false)
    ensures Reachable(s') && s'.chain == s.chain && T(s', st).phase.Tracked?
            && T(s', st).writerAlive == T(s, st).writerAlive
    ensures T(s, st).writerAlive ==> Landed(s', st, T(s, st).phase.target)
  {
    hide Reachable, Apply;
    MoverStep(s, st, Repoint);
    s' := Apply(s, Move(st, Repoint));
    if T(s, st).writerAlive {
      MoverStep(s', st, Count);
      s' := Apply(s', Move(st, Count));
      MoverStep(s', st, Swap);
      s' := Apply(s', Move(st, Swap));
      MoverStep(s', st, Push);
      s' := Apply(s', Move(st, Push));
    }
  }

  /**
   `StreamRebind::track`, uninterrupted: a stream whose writer lives ends up bound to, counted on and
   listed in the newest live generation of the session it was opened on.
   */
  method Track(s: State, st: StreamId) returns (s': State)
    requires Reachable(s) && st in s.streams && T(s, st).phase.Opened?
    ensures Reachable(s') && s'.chain == s.chain && T(s', st).phase.Tracked?
    ensures var g := T(s, st).guard;
            T(s, st).writerAlive ==> Landed(s', st, NewestLive(s.chain, g, g, MAX_SUCCESSOR_HOPS))
  {
    ghost var g := T(s, st).guard;
    OpenedIs(s, st);
    hide Reachable, Apply;
    OwnerStep(s, st, BeginTrack);
    s' := Apply(s, By(st, BeginTrack));
    OwnerStep(s', st, TrackIfCurrent);
    s' := Apply(s', By(st, TrackIfCurrent));
    if T(s', st).phase.Hopping? { s' := TrackFurther(s', st); }
  }

  /** The opener's session has a successor: the stream goes to the newest live generation. */
  method TrackFurther(s: State, st: StreamId) returns (s': State)
    requires Reachable(s) && st in s.streams && T(s, st).client && T(s, st).guarded && T(s, st).incoming.None?
    requires T(s, st).phase == Hopping(0, T(s, st).guard, T(s, st).guard) && T(s, st).bound == T(s, st).guard
    ensures Reachable(s') && s'.chain == s.chain && T(s', st).phase.Tracked?
    ensures var g := T(s, st).guard;
            T(s, st).writerAlive ==> Landed(s', st, NewestLive(s.chain, g, g, MAX_SUCCESSOR_HOPS))
  {
    hide Reachable, Apply, NewestLive;
    s' := Walk(s, st);
    OwnerStep(s', st, Choose);
    s' := Apply(s', By(st, Choose));
    if T(s', st).phase.Moving? { s' := MoveOwn(s', st); }
  }

  lemma OpenedIs(s: State, st: StreamId)
    requires Reachable(s) && T(s, st).phase.Opened?
    ensures T(s, st).client && T(s, st).guarded && T(s, st).bound == T(s, st).guard && T(s, st).incoming.None?
  {
    ReachableInv(s);
    assert PhaseOk(s, st);
  }
}
