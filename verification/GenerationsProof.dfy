/** What every step of the generation protocol keeps, and what that means over whole runs. */
module GenerationsProof {
  import opened Options
  import opened Generations

  // ---------------------------------------------------------------- where each stream stands

  /** The stream is registered where the next drain finds it, or is being drained right now. */
  predicate Placed(s: State, st: StreamId) {
    var g := T(s, st).guard;
    || (st in List(s, g) && (Succ(s.chain, g).None? || Succ(s.chain, g).value in s.chain.dead))
    || (s.loop.Rebinding? && st in s.loop.todo && g == s.loop.prior)
  }

  /** The thread that runs `track` holds its session, and its writer has not been repointed. */
  predicate InTrack(t: Stream) {
    t.client && t.guarded && t.guard in t.locals && t.bound == t.guard && t.incoming.None?
  }

  predicate MovingOk(s: State, st: StreamId) {
    var t := T(s, st);
    t.phase.Moving? ==>
      var p := t.phase;
      && t.guarded && p.origin != p.target && Succ(s.chain, p.origin) == Some(p.target)
      && t.guard == (if p.stage.Swapped? then p.target else p.origin)
      && t.bound == (if p.stage.Offered? then p.origin else p.target)
      && t.incoming == (if p.stage.Counted? then Some(p.target) else None)
      && (if p.byLoop
          then s.loop.Rebinding? && s.loop.prior == p.origin && s.loop.latest == p.target && s.loop.moving == Some(st)
          else t.client && p.origin in t.locals && p.target in t.locals)
  }

  predicate PhaseOk(s: State, st: StreamId) {
    var t := T(s, st);
    var next := Succ(s.chain, t.guard);
    match t.phase
    case Fetched(x) => t.client && !t.guarded && x in t.locals && t.incoming.None?
    case Opened => t.client && t.guarded && t.bound == t.guard && t.incoming.None?
    case Tracking => InTrack(t)
    case Hopping(hops, cursor, newest) =>
      && InTrack(t) && next.Some? && cursor in t.locals
      && (if hops == 0 then cursor == t.guard && newest == t.guard
          else hops == 1 && next == Some(cursor) &&
               (newest == cursor || (newest == t.guard && cursor in s.chain.dead)))
    case Examining(hops, cursor, newest) =>
      InTrack(t) && hops == 1 && next == Some(cursor) && newest == t.guard && cursor in t.locals
    case Chosen(live) =>
      InTrack(t) && next.Some? && live in t.locals &&
      (next == Some(live) || (live == t.guard && next.value in s.chain.dead))
    case Moving(_, _, _, _) => MovingOk(s, st)
    case Tracked =>
      t.client && t.guarded && t.bound == t.guard && t.incoming.None? && (t.writerAlive ==> Placed(s, st))
    case Releasing => !t.client && t.guarded && t.incoming.None?
    case Gone => !t.guarded && t.incoming.None?
  }

  /** A listed (or drained) stream is registered on that session, or has ended. */
  predicate Registered(s: State, st: StreamId, x: SessionId) {
    && st in s.streams
    && ((T(s, st).phase.Tracked? && T(s, st).guard == x) || T(s, st).phase.Releasing? || T(s, st).phase.Gone?)
  }

  ghost predicate ListsOk(s: State) {
    forall x, st :: st in List(s, x) ==> Registered(s, st, x)
  }

  ghost predicate RebindingOk(s: State) {
    s.loop.Rebinding? ==>
      && Succ(s.chain, s.loop.prior) == Some(s.loop.latest)
      && (forall st :: st in s.loop.todo ==> Registered(s, st, s.loop.prior))
      && (forall x, st :: st in s.loop.todo && st in List(s, x) ==> !T(s, st).phase.Tracked?)
      && (s.loop.moving.Some? ==> LoopMoves(T(s, s.loop.moving.value)))
  }

  ghost predicate StreamInv(s: State) {
    && (forall st :: PhaseOk(s, st))
    && ListsOk(s)
    && RebindingOk(s)
  }

  // ---------------------------------------------------------------- a dead weak stays dead

  /** A session's destructor has run only if nothing holds it. */
  ghost predicate DroppedUnheld(s: State) {
    forall x :: x in s.chain.dropped ==> !Held(s, x)
  }

  ghost predicate NoneRevived(s: State, s': State) {
    forall x :: Held(s', x) ==> Held(s, x)
  }

  lemma ReviveEffect(s: State, st: StreamId, e: Effect)
    requires forall x :: Refers(e.stream, x) ==> Held(s, x)
    ensures NoneRevived(s, ApplyEffect(s, st, e))
  {
    var s' := ApplyEffect(s, st, e);
    forall x | HeldByStream(s', x) ensures Held(s, x) {
      var k :| Refers(T(s', k), x);
      if k != st { assert Refers(T(s, k), x); }
    }
  }

  lemma HeldStream(s: State, st: StreamId)
    ensures forall x :: Refers(T(s, st), x) ==> Held(s, x)
  {
  }

  lemma ReviveClient(s: State, st: StreamId, c: Client)
    requires DroppedUnheld(s) && PhaseOk(s, st) && ClientEnabled(s, st, c)
    ensures NoneRevived(s, ApplyEffect(s, st, ClientEffect(s, st, c)))
  {
    HeldStream(s, st);
    var e := ClientEffect(s, st, c);
    forall x | Refers(e.stream, x) ensures Held(s, x) {
      match c
      case Fetch(a) => assert HeldByMap(s.chain.mapped, x);
      case Hop =>
        var y := T(s, st).phase.cursor;
        if !Refers(T(s, st), x) {
          assert Refers(T(s, st), y) && Succ(s.chain, y) == Some(x);
        }
      case _ => assert Refers(T(s, st), x);
    }
    ReviveEffect(s, st, e);
  }

  lemma ReviveMove(s: State, st: StreamId, m: Mover)
    requires PhaseOk(s, st) && MoveEnabled(s, st, m)
    ensures NoneRevived(s, ApplyEffect(s, st, MoveEffect(s, st, m)))
  {
    HeldStream(s, st);
    var e := MoveEffect(s, st, m);
    forall x | Refers(e.stream, x) ensures Held(s, x) {
      assert x == T(s, st).phase.target || Refers(T(s, st), x);
    }
    ReviveEffect(s, st, e);
  }

  lemma ReviveAmbient(s: State, e: Ambient)
    requires AmbientEnabled(s, e)
    ensures NoneRevived(s, ApplyAmbient(s, e))
  {
    var s' := ApplyAmbient(s, e);
    forall x | HeldByStream(s', x) ensures HeldByStream(s, x) {
      var k :| Refers(T(s', k), x);
      assert Refers(T(s, k), x);
    }
    forall x | HeldByPredecessor(s'.chain, x) ensures HeldByPredecessor(s.chain, x) {
      var y :| y !in s'.chain.dropped && Succ(s'.chain, y) == Some(x);
      assert y !in s.chain.dropped && Succ(s.chain, y) == Some(x);
    }
  }

  /** Every loop step but the installation of a fresh session. */
  lemma ReviveLoop(s: State, c: Connector)
    requires LoopEnabled(s, c) && !c.DialDone?
    ensures NoneRevived(s, ApplyLoop(s, c))
  {
    var s' := ApplyLoop(s, c);
    if c.Serve? {
      ReviveEffect(s, c.st, ServeEffect(s.loop.latest));
      return;
    }
    forall x | HeldByStream(s', x) ensures HeldByStream(s, x) {
      var k :| Refers(T(s', k), x);
      assert Refers(T(s, k), x);
    }
    forall x | HeldByPredecessor(s'.chain, x) ensures Held(s, x) {
      var y :| y !in s'.chain.dropped && Succ(s'.chain, y) == Some(x);
      assert c.DrainLock? || Succ(s.chain, y) == Some(x);
    }
    forall x | HeldByMap(s'.chain.mapped, x) ensures Held(s, x) {
      var a :| a in s'.chain.mapped && s'.chain.mapped[a] == x;
      assert c.Insert? || (a in s.chain.mapped && s.chain.mapped[a] == x);
    }
    forall x | HeldByMap(s'.chain.redials, x) ensures Held(s, x) {
      var a :| a in s'.chain.redials && s'.chain.redials[a] == x;
      assert (a in s.chain.mapped && s.chain.mapped[a] == x) || (a in s.chain.redials && s.chain.redials[a] == x);
    }
    forall x | x in s'.peeks ensures Held(s, x) {
      if x !in s.peeks {
        assert c.ResetSessions?;
        var a :| a in s.chain.mapped && s.chain.mapped[a] == x;
      }
    }
    forall x | HeldByLoop(s'.loop, x) ensures HeldByLoop(s.loop, x) {
    }
  }

  // ---------------------------------------------------------------- the chain of generations

  predicate AddrOk(c: Chain, m: map<Addr, SessionId>) {
    forall a :: a in m ==> m[a] in c.addr && c.addr[m[a]] == a
  }

  predicate LinkWired(c: Chain, x: SessionId) {
    Succ(c, x).Some? ==> x in c.addr && Succ(c, x).value in c.addr && c.addr[Succ(c, x).value] == c.addr[x]
  }

  predicate AfterDrain(l: Loop) {
    l.Rebinding? || l.Rebound? || l.Serving?
  }

  /** Every record is about the address it is filed under; the fresh session is linked to nothing. */
  ghost predicate Wiring(c: Chain, l: Loop) {
    && AddrOk(c, c.mapped) && AddrOk(c, c.redials)
    && (forall a :: a in c.redials ==> a in c.dialing)
    && (forall x :: LinkWired(c, x))
    && (l.ResetDraining? ==> c.mapped == map[])
    && (Latest(l).Some? ==>
          && l.latest in c.addr && c.addr[l.latest] == l.addr && Succ(c, l.latest).None?
          && l.addr !in c.redials && Prior(l) != Some(l.latest)
          && (forall a :: a in c.mapped ==> c.mapped[a] != l.latest))
    && (Prior(l).Some? ==> Prior(l).value in c.addr && c.addr[Prior(l).value] == l.addr)
  }

  /** The address's recorded drainer, if any, is no longer held. */
  ghost predicate DrainerGone(s: State, a: Addr) {
    a in s.chain.draining ==> !Held(s, s.chain.draining[a])
  }

  /** A session being replaced has no successor yet, is the one mapped, and follows no live drainer. */
  ghost predicate Replacing(s: State) {
    var c := s.chain;
    && (forall a :: a in c.redials ==>
          Succ(c, c.redials[a]).None? && (a in c.mapped ==> c.mapped[a] == c.redials[a]) && DrainerGone(s, a))
    && (Prior(s.loop).Some? ==>
          var x := Prior(s.loop).value;
          && (s.loop.addr in c.mapped ==> c.mapped[s.loop.addr] == x)
          && (!AfterDrain(s.loop) ==> Succ(c, x).None?)
          && (!s.loop.Serving? ==> DrainerGone(s, s.loop.addr)))
    && (forall a :: a in c.mapped && Succ(c, c.mapped[a]).Some? ==>
          AfterDrain(s.loop) && Prior(s.loop) == Some(c.mapped[a]))
  }

  /**
   What holds of a held session's successor: it has none itself, it is not being replaced,
   and if it is the mapped session then the held one is the recorded drainer.
   */
  ghost predicate LinkOk(s: State, x: SessionId) {
    var c := s.chain;
    Held(s, x) && Succ(c, x).Some? ==>
      var y := Succ(c, x).value;
      && Succ(c, y).None?
      && (forall a :: a in c.mapped && c.mapped[a] == y ==> a in c.draining && c.draining[a] == x)
      && (forall a :: a in c.redials ==> c.redials[a] != y)
      && Prior(s.loop) != Some(y)
      && (Latest(s.loop) == Some(y) ==>
            && Prior(s.loop) == Some(x) && AfterDrain(s.loop)
            && (s.loop.Serving? ==> s.loop.addr in c.draining && c.draining[s.loop.addr] == x))
  }

  ghost predicate ChainInv(s: State) {
    Wiring(s.chain, s.loop) && Replacing(s) && forall x :: LinkOk(s, x)
  }

  predicate Within(m': map<Addr, SessionId>, m: map<Addr, SessionId>) {
    forall a :: a in m' ==> a in m && m'[a] == m[a]
  }

  /** The loop goes on with the same sessions, and does not fall back behind the drain. */
  predicate GoesOn(l: Loop, l': Loop) {
    && Prior(l') == Prior(l) && Latest(l') == Latest(l) && (Latest(l).Some? ==> l'.addr == l.addr)
    && (AfterDrain(l) ==> AfterDrain(l')) && (l'.Serving? ==> l.Serving? || !AfterDrain(l))
    && (l.Serving? ==> l'.Serving?)
  }

  /** Records are only removed; a drainer only when no session is mapped or being replaced. */
  predicate Shrinks(c: Chain, l: Loop, c': Chain, l': Loop) {
    && c'.addr == c.addr && c'.successor == c.successor && GoesOn(l, l')
    && Within(c'.mapped, c.mapped) && Within(c'.redials, c.redials)
    && (forall a :: a in c'.redials ==> a in c'.dialing)
    && (l'.ResetDraining? ==> c'.mapped == map[])
    && (c'.draining == c.draining || (c'.draining == map[] && c'.mapped == map[] && Latest(l').None?))
  }

  lemma WiringShrinks(c: Chain, l: Loop, c': Chain, l': Loop)
    requires Wiring(c, l) && Shrinks(c, l, c', l')
    ensures Wiring(c', l')
  {
    forall x ensures LinkWired(c', x) { assert LinkWired(c, x); }
  }

  lemma ReplacingShrinks(s: State, s': State)
    requires Replacing(s) && Shrinks(s.chain, s.loop, s'.chain, s'.loop) && NoneRevived(s, s')
    ensures Replacing(s')
  {
    hide Held;
  }

  lemma LinkShrinks(s: State, s': State, x: SessionId)
    requires LinkOk(s, x) && Shrinks(s.chain, s.loop, s'.chain, s'.loop) && NoneRevived(s, s')
    ensures LinkOk(s', x)
  {
    hide Held;
  }

  lemma ChainShrinks(s: State, s': State)
    requires ChainInv(s) && Shrinks(s.chain, s.loop, s'.chain, s'.loop) && NoneRevived(s, s')
    ensures ChainInv(s')
  {
    hide Wiring, Replacing, LinkOk, Shrinks, NoneRevived;
    WiringShrinks(s.chain, s.loop, s'.chain, s'.loop);
    ReplacingShrinks(s, s');
    forall x ensures LinkOk(s', x) { LinkShrinks(s, s', x); }
  }

  /** Steps that leave the links and the loop's stage alone keep the chain invariant. */
  lemma ChainKept(s: State, s': State)
    requires ChainInv(s) && NoneRevived(s, s')
    requires s'.chain.(dead := {}, dropped := {}) == s.chain.(dead := {}, dropped := {})
    requires Prior(s'.loop) == Prior(s.loop) && Latest(s'.loop) == Latest(s.loop)
    requires s'.loop == s.loop || (s'.loop.Rebinding? && s.loop.Rebinding? && s'.loop.addr == s.loop.addr)
    ensures ChainInv(s')
  {
    hide Replacing, LinkOk, NoneRevived, LinkWired;
    ChainShrinks(s, s');
  }

  lemma ChainRedial(s: State, a: Addr)
    requires ChainInv(s) && LoopEnabled(s, Redial(a))
    ensures ChainInv(ApplyLoop(s, Redial(a)))
  {
    var s' := ApplyLoop(s, Redial(a));
    ReviveLoop(s, Redial(a));
    forall x ensures LinkWired(s'.chain, x) { assert LinkWired(s.chain, x); }
    forall x ensures LinkOk(s', x) { assert LinkOk(s, x); }
  }

  lemma ChainDialDone(s: State, a: Addr, k: SessionId)
    requires ChainInv(s) && LoopEnabled(s, DialDone(a, k))
    ensures ChainInv(ApplyLoop(s, DialDone(a, k)))
  {
    var s' := ApplyLoop(s, DialDone(a, k));
    forall x | Held(s', x) && x != k ensures Held(s, x) { HeldAfterDial(s, a, k, x); }
    DialWiring(s, a, k);
    forall x ensures LinkOk(s', x) { assert LinkOk(s, x); }
  }

  lemma DialWiring(s: State, a: Addr, k: SessionId)
    requires Wiring(s.chain, s.loop) && LoopEnabled(s, DialDone(a, k))
    ensures Wiring(ApplyLoop(s, DialDone(a, k)).chain, ApplyLoop(s, DialDone(a, k)).loop)
  {
    var s' := ApplyLoop(s, DialDone(a, k));
    forall x ensures LinkWired(s'.chain, x) { assert LinkWired(s.chain, x); }
  }

  /** The loop's bookkeeping steps. */
  lemma ChainRecords(s: State, c: Connector)
    requires ChainInv(s) && LoopEnabled(s, c)
    requires c.DialConnect? || c.DialFailed? || c.CheckLatest? || c.EndRebind? || c.Reap? || c.ResetSessions?
             || c.ClearDraining? || c.ClearDials?
    ensures ChainInv(ApplyLoop(s, c))
  {
    ReviveLoop(s, c);
    if c.ResetSessions? || c.ClearDraining? || c.ClearDials? { ResetShrinks(s, c); } else { RecordsShrink(s, c); }
    hide Wiring, Replacing, LinkOk, Held, Shrinks, NoneRevived;
    ChainShrinks(s, ApplyLoop(s, c));
  }

  lemma RecordsShrink(s: State, c: Connector)
    requires Wiring(s.chain, s.loop) && LoopEnabled(s, c)
    requires c.DialConnect? || c.DialFailed? || c.CheckLatest? || c.EndRebind? || c.Reap?
    ensures Shrinks(s.chain, s.loop, ApplyLoop(s, c).chain, ApplyLoop(s, c).loop)
  {
    hide Held, LinkWired;
  }

  lemma ResetShrinks(s: State, c: Connector)
    requires Wiring(s.chain, s.loop) && LoopEnabled(s, c)
    requires c.ResetSessions? || c.ClearDraining? || c.ClearDials?
    ensures Shrinks(s.chain, s.loop, ApplyLoop(s, c).chain, ApplyLoop(s, c).loop)
  {
    hide Held, LinkWired;
  }

  lemma HeldAfterDial(s: State, a: Addr, k: SessionId, x: SessionId)
    requires LoopEnabled(s, DialDone(a, k)) && Held(ApplyLoop(s, DialDone(a, k)), x) && x != k
    ensures Held(s, x)
  {
    var s' := ApplyLoop(s, DialDone(a, k));
    if HeldByStream(s', x) {
      var st :| Refers(T(s', st), x);
      assert Refers(T(s, st), x);
    }
  }

  lemma ChainDrainLock(s: State)
    requires ChainInv(s) && LoopEnabled(s, DrainLock)
    ensures ChainInv(ApplyLoop(s, DrainLock))
  {
    var s' := ApplyLoop(s, DrainLock);
    ReviveLoop(s, DrainLock);
    forall x ensures LinkWired(s'.chain, x) { assert LinkWired(s.chain, x); }
    forall x ensures LinkOk(s', x) { assert LinkOk(s, x); }
  }

  lemma ChainRecord(s: State)
    requires ChainInv(s) && LoopEnabled(s, Record)
    ensures ChainInv(ApplyLoop(s, Record))
  {
    var s' := ApplyLoop(s, Record);
    ReviveLoop(s, Record);
    forall x ensures LinkWired(s'.chain, x) { assert LinkWired(s.chain, x); }
    forall x ensures LinkOk(s', x) { assert LinkOk(s, x); }
  }

  lemma ChainInsert(s: State)
    requires ChainInv(s) && LoopEnabled(s, Insert)
    ensures ChainInv(ApplyLoop(s, Insert))
  {
    var s' := ApplyLoop(s, Insert);
    ReviveLoop(s, Insert);
    forall x ensures LinkWired(s'.chain, x) { assert LinkWired(s.chain, x); }
    forall x ensures LinkOk(s', x) { assert LinkOk(s, x); }
  }

  // ---------------------------------------------------------------- no stream is stranded

  /** An effect on one stream disturbs no other. */
  lemma OthersKept(s: State, st: StreamId, e: Effect, k: StreamId)
    requires StreamInv(s) && k != st && (e.leaves ==> LoopMoves(T(s, st)))
    ensures PhaseOk(ApplyEffect(s, st, e), k)
  {
    var s' := ApplyEffect(s, st, e);
    assert PhaseOk(s, k) && PhaseOk(s, st);
    assert T(s', k) == T(s, k);
  }

  predicate Ended(t: Stream) {
    t.phase.Releasing? || t.phase.Gone?
  }

  /** The stream's own new record, with the list it is pushed on, is in order. */
  ghost predicate EffectOk(s: State, st: StreamId, e: Effect) {
    var s' := ApplyEffect(s, st, e);
    var t := T(s, st);
    && PhaseOk(s', st)
    && (e.leaves ==> LoopMoves(t))
    && (st in s.streams && (t.phase.Tracked? || Ended(t)) ==>
          && e.push.None?
          && (Ended(e.stream) || (t.phase.Tracked? && e.stream.phase.Tracked? && e.stream.guard == t.guard)))
    && (e.push.Some? ==>
          st in s.streams && (Ended(e.stream) || (e.stream.phase.Tracked? && e.stream.guard == e.push.value)))
    && (LoopMoves(t) ==> e.leaves || LoopMoves(e.stream))
  }

  lemma StreamsKept(s: State, st: StreamId, e: Effect)
    requires StreamInv(s) && EffectOk(s, st, e)
    ensures StreamInv(ApplyEffect(s, st, e))
  {
    var s' := ApplyEffect(s, st, e);
    forall k ensures PhaseOk(s', k) {
      if k != st { OthersKept(s, st, e, k); }
    }
    forall x, k | k in List(s', x) ensures Registered(s', k, x) {
      if k != st || e.push != Some(x) { assert k in List(s, x) && Registered(s, k, x); }
    }
    if s'.loop.Rebinding? {
      assert RebindingOk(s);
      forall k | k in s'.loop.todo ensures Registered(s', k, s'.loop.prior) {
        assert Registered(s, k, s.loop.prior);
      }
      forall x, k | k in s'.loop.todo && k in List(s', x) ensures !T(s', k).phase.Tracked? {
        assert Registered(s, k, s.loop.prior);
        if k != st || e.push != Some(x) { assert k in List(s, x); }
      }
    }
  }

  lemma ClientOk(s: State, st: StreamId, c: Client)
    requires StreamInv(s) && ChainInv(s) && ClientEnabled(s, st, c)
    ensures EffectOk(s, st, ClientEffect(s, st, c))
  {
    assert PhaseOk(s, st);
    var t := T(s, st);
    if c.Hop? && t.phase.hops == 1 {
      assert Refers(t, t.guard) && LinkOk(s, t.guard); // the cursor has no successor
    }
    if c.Choose? && t.phase.live != t.guard {
      assert Refers(t, t.guard) && LinkOk(s, t.guard);
    }
  }

  lemma MoveOk(s: State, st: StreamId, m: Mover)
    requires StreamInv(s) && ChainInv(s) && MoveEnabled(s, st, m)
    ensures EffectOk(s, st, MoveEffect(s, st, m))
  {
    assert PhaseOk(s, st);
    var t := T(s, st);
    var p := t.phase;
    assert Held(s, p.origin) by { assert p.byLoop || Refers(t, p.origin); }
    assert LinkOk(s, p.origin); // the target has no successor
  }

  /** Steps of the loop that leave the streams, the lists and the links alone. */
  lemma StreamsUntouched(s: State, s': State)
    requires StreamInv(s)
    requires s'.streams == s.streams && s'.lists == s.lists && s'.chain.successor == s.chain.successor
    requires s.chain.dead <= s'.chain.dead
    requires s'.loop == s.loop
             || (!s'.loop.Rebinding? && (s.loop.Rebinding? ==> s.loop.todo == {} && s.loop.moving.None?))
    ensures StreamInv(s')
  {
    forall k ensures PhaseOk(s', k) { assert PhaseOk(s, k); }
    forall x, k | k in List(s', x) ensures Registered(s', k, x) { assert k in List(s, x); }
    if s'.loop.Rebinding? {
      forall k | k in s'.loop.todo ensures Registered(s', k, s'.loop.prior) { assert Registered(s, k, s.loop.prior); }
      forall x, k | k in s'.loop.todo && k in List(s', x) ensures !T(s', k).phase.Tracked? { assert k in List(s, x); }
    }
  }

  lemma StreamsDrainLock(s: State)
    requires StreamInv(s) && ChainInv(s) && LoopEnabled(s, DrainLock)
    ensures StreamInv(ApplyLoop(s, DrainLock))
  {
    var s' := ApplyLoop(s, DrainLock);
    forall k ensures PhaseOk(s', k) { assert PhaseOk(s, k); }
    forall x, k | k in List(s', x) ensures Registered(s', k, x) { assert k in List(s, x); }
    forall k | k in s'.loop.todo ensures Registered(s', k, s'.loop.prior) { assert k in List(s, s.loop.prior); }
  }

  lemma StreamsUpgrade(s: State, st: StreamId)
    requires StreamInv(s) && ChainInv(s) && LoopEnabled(s, Upgrade(st))
    ensures StreamInv(ApplyLoop(s, Upgrade(st)))
  {
    var s' := ApplyLoop(s, Upgrade(st));
    assert Registered(s, st, s.loop.prior) && PhaseOk(s, st);
    forall k ensures PhaseOk(s', k) { UpgradedPhase(s, st, k); }
    forall x, k | k in List(s', x) ensures Registered(s', k, x) { assert k in List(s, x) && Registered(s, k, x); }
    forall k | k in s'.loop.todo ensures Registered(s', k, s'.loop.prior) { assert Registered(s, k, s.loop.prior); }
    forall x, k | k in s'.loop.todo && k in List(s', x) ensures !T(s', k).phase.Tracked? { assert k in List(s, x); }
  }

  lemma UpgradedPhase(s: State, st: StreamId, k: StreamId)
    requires PhaseOk(s, k) && RebindingOk(s) && LoopEnabled(s, Upgrade(st)) && s.loop.prior != s.loop.latest
    ensures PhaseOk(ApplyLoop(s, Upgrade(st)), k)
  {
    var s' := ApplyLoop(s, Upgrade(st));
    if k == st {
      assert Registered(s, st, s.loop.prior);
    } else {
      assert T(s', k) == T(s, k);
      assert Placed(s, k) ==> Placed(s', k);
    }
  }

  // ---------------------------------------------------------------- the live-stream gauge

  function Guards(m: map<StreamId, Stream>, x: SessionId): set<StreamId> {
    set st | st in m && m[st].guarded && m[st].guard == x
  }

  function Incoming(m: map<StreamId, Stream>, x: SessionId): set<StreamId> {
    set st | st in m && m[st].incoming == Some(x)
  }

  /** The session's gauge equals the number of guards outstanding on it. */
  predicate GaugeOk(s: State, x: SessionId) {
    Live(s, x) == |Guards(s.streams, x)| + |Incoming(s.streams, x)|
  }

  /** How many guards on session x the stream owns. */
  function Share(t: Stream, x: SessionId): int {
    (if t.guarded && t.guard == x then 1 else 0) + (if t.incoming == Some(x) then 1 else 0)
  }

  lemma SetUpdated(a: set<StreamId>, b: set<StreamId>, st: StreamId, owns: bool)
    requires b == a - {st} + if owns then {st} else {}
    ensures |b| == |a| + (if owns then 1 else 0) - (if st in a then 1 else 0)
  {
    if st in a { assert a == a - {st} + {st}; }
    assert a - {st} == a || st in a;
  }

  lemma GuardsMember(m: map<StreamId, Stream>, st: StreamId, t: Stream, x: SessionId, k: StreamId)
    ensures k in Guards(m[st := t], x) <==> if k == st then t.guarded && t.guard == x else k in Guards(m, x)
  {}

  lemma GuardsCount(m: map<StreamId, Stream>, st: StreamId, t: Stream, x: SessionId)
    ensures |Guards(m[st := t], x)| ==
            |Guards(m, x)| + (if t.guarded && t.guard == x then 1 else 0) - (if st in Guards(m, x) then 1 else 0)
  {
    hide Guards;
    var owns := t.guarded && t.guard == x;
    var b := Guards(m, x) - {st} + if owns then {st} else {};
    forall k ensures k in Guards(m[st := t], x) <==> k in b { GuardsMember(m, st, t, x, k); }
    SetUpdated(Guards(m, x), Guards(m[st := t], x), st, owns);
  }

  lemma IncomingCount(m: map<StreamId, Stream>, st: StreamId, t: Stream, x: SessionId)
    ensures |Incoming(m[st := t], x)| ==
            |Incoming(m, x)| + (if t.incoming == Some(x) then 1 else 0) - (if st in Incoming(m, x) then 1 else 0)
  {
    var owns := t.incoming == Some(x);
    var b := Incoming(m, x) - {st} + if owns then {st} else {};
    forall k ensures k in Incoming(m[st := t], x) <==> k in b { }
    SetUpdated(Incoming(m, x), Incoming(m[st := t], x), st, owns);
  }

  lemma GuardsUpdated(m: map<StreamId, Stream>, st: StreamId, t: Stream, x: SessionId)
    ensures |Guards(m[st := t], x)| + |Incoming(m[st := t], x)| ==
            |Guards(m, x)| + |Incoming(m, x)| + Share(t, x) - (if st in m then Share(m[st], x) else 0)
  {
    GuardsCount(m, st, t, x);
    IncomingCount(m, st, t, x);
  }

  lemma GaugeKept(s: State, st: StreamId, e: Effect, x: SessionId)
    requires GaugeOk(s, x)
    requires Share(e.stream, x) - Share(T(s, st), x) == if e.gauge == Some(x) then e.delta else 0
    ensures GaugeOk(ApplyEffect(s, st, e), x)
  {
    GuardsUpdated(s.streams, st, e.stream, x);
  }

  lemma ClientGauge(s: State, st: StreamId, c: Client, x: SessionId)
    requires PhaseOk(s, st) && ClientEnabled(s, st, c) && GaugeOk(s, x)
    ensures GaugeOk(ApplyEffect(s, st, ClientEffect(s, st, c)), x)
  {
    GaugeKept(s, st, ClientEffect(s, st, c), x);
  }

  lemma MoveGauge(s: State, st: StreamId, m: Mover, x: SessionId)
    requires PhaseOk(s, st) && MoveEnabled(s, st, m) && GaugeOk(s, x)
    ensures GaugeOk(ApplyEffect(s, st, MoveEffect(s, st, m)), x)
  {
    GaugeKept(s, st, MoveEffect(s, st, m), x);
  }

  lemma LoopGauge(s: State, c: Connector, x: SessionId)
    requires LoopEnabled(s, c) && GaugeOk(s, x)
    ensures GaugeOk(ApplyLoop(s, c), x)
  {
    if c.Serve? {
      GaugeKept(s, c.st, ServeEffect(s.loop.latest), x);
    } else if c.Upgrade? && HandleAlive(T(s, c.st)) {
      GuardsUpdated(s.streams, c.st, ApplyLoop(s, c).streams[c.st], x);
    }
  }

  lemma AmbientGauge(s: State, e: Ambient, x: SessionId)
    requires AmbientEnabled(s, e) && GaugeOk(s, x)
    ensures GaugeOk(ApplyAmbient(s, e), x)
  {
    if e.WriterDies? {
      GuardsUpdated(s.streams, e.st, T(s, e.st).(writerAlive := false), x);
    }
  }

  // ---------------------------------------------------------------- every step, every run

  ghost predicate Inv(s: State) {
    && DroppedUnheld(s) && ChainInv(s) && StreamInv(s) && (forall x :: GaugeOk(s, x))
  }

  lemma InitialInv()
    ensures Inv(Initial)
  {
  }

  lemma EffectInv(s: State, st: StreamId, e: Effect)
    requires Inv(s) && EffectOk(s, st, e) && NoneRevived(s, ApplyEffect(s, st, e))
    requires forall x :: GaugeOk(ApplyEffect(s, st, e), x)
    ensures Inv(ApplyEffect(s, st, e))
  {
    StreamsKept(s, st, e);
    ChainKept(s, ApplyEffect(s, st, e));
  }

  lemma ClientInv(s: State, st: StreamId, c: Client)
    requires Inv(s) && ClientEnabled(s, st, c)
    ensures Inv(ApplyEffect(s, st, ClientEffect(s, st, c)))
  {
    assert PhaseOk(s, st);
    ClientOk(s, st, c);
    ReviveClient(s, st, c);
    forall x { ClientGauge(s, st, c, x); }
    EffectInv(s, st, ClientEffect(s, st, c));
  }

  lemma MoveInv(s: State, st: StreamId, m: Mover)
    requires Inv(s) && MoveEnabled(s, st, m)
    ensures Inv(ApplyEffect(s, st, MoveEffect(s, st, m)))
  {
    assert PhaseOk(s, st);
    MoveOk(s, st, m);
    ReviveMove(s, st, m);
    forall x { MoveGauge(s, st, m, x); }
    EffectInv(s, st, MoveEffect(s, st, m));
  }

  lemma AmbientInv(s: State, e: Ambient)
    requires Inv(s) && AmbientEnabled(s, e)
    ensures Inv(ApplyAmbient(s, e))
  {
    var s' := ApplyAmbient(s, e);
    ReviveAmbient(s, e);
    ChainKept(s, s');
    forall x { AmbientGauge(s, e, x); }
    if e.WriterDies? {
      assert PhaseOk(s, e.st);
      StreamsKept(s, e.st, Just(T(s, e.st).(writerAlive := false)));
    } else {
      StreamsUntouched(s, s');
    }
  }

  lemma LoopInv(s: State, c: Connector)
    requires Inv(s) && LoopEnabled(s, c)
    ensures Inv(ApplyLoop(s, c))
  {
    var s' := ApplyLoop(s, c);
    forall x { LoopGauge(s, c, x); }
    LoopChain(s, c);
    LoopStreams(s, c);
    if c.DialDone? {
      forall x | Held(s', x) && x != c.x ensures Held(s, x) { HeldAfterDial(s, c.a, c.x, x); }
    } else {
      ReviveLoop(s, c);
    }
  }

  lemma LoopChain(s: State, c: Connector)
    requires Inv(s) && LoopEnabled(s, c)
    ensures ChainInv(ApplyLoop(s, c))
  {
    match c
    case Redial(a) => ChainRedial(s, a);
    case DialDone(a, x) => ChainDialDone(s, a, x);
    case DrainLock => ChainDrainLock(s);
    case Record => ChainRecord(s);
    case Insert => ChainInsert(s);
    case Upgrade(_) => ReviveLoop(s, c); ChainKept(s, ApplyLoop(s, c));
    case Serve(_) => ReviveLoop(s, c); ChainKept(s, ApplyLoop(s, c));
    case DialConnect(_) => ChainRecords(s, c);
    case DialFailed(_) => ChainRecords(s, c);
    case CheckLatest => ChainRecords(s, c);
    case EndRebind => ChainRecords(s, c);
    case Reap(_) => ChainRecords(s, c);
    case ResetSessions => ChainRecords(s, c);
    case ClearDraining => ChainRecords(s, c);
    case ClearDials => ChainRecords(s, c);
  }

  lemma LoopStreams(s: State, c: Connector)
    requires Inv(s) && LoopEnabled(s, c)
    ensures StreamInv(ApplyLoop(s, c))
  {
    match c
    case DrainLock => StreamsDrainLock(s);
    case Upgrade(st) => StreamsUpgrade(s, st);
    case Serve(st) =>
      assert PhaseOk(s, st);
      StreamsKept(s, st, ServeEffect(s.loop.latest));
    case _ => StreamsUntouched(s, ApplyLoop(s, c));
  }

  lemma StepInv(s: State, step: Step)
    requires Inv(s) && Enabled(s, step)
    ensures Inv(Apply(s, step))
  {
    match step
    case Around(e) => AmbientInv(s, e);
    case By(st, c) => ClientInv(s, st, c);
    case Move(st, m) => MoveInv(s, st, m);
    case Loops(c) => LoopInv(s, c);
  }

  /** The state a run of steps leads to, when every step is enabled where it is taken. */
  ghost function Run(s: State, steps: seq<Step>): Option<State>
    decreases |steps|
  {
    if steps == [] then Some(s)
    else if Enabled(s, steps[0]) then Run(Apply(s, steps[0]), steps[1..])
    else None
  }

  ghost predicate Reachable(s: State) {
    exists steps :: Run(Initial, steps) == Some(s)
  }

  lemma {:induction false} RunInv(s: State, steps: seq<Step>)
    requires Inv(s)
    ensures Run(s, steps).Some? ==> Inv(Run(s, steps).value)
    decreases |steps|
  {
    if steps != [] && Enabled(s, steps[0]) {
      StepInv(s, steps[0]);
      RunInv(Apply(s, steps[0]), steps[1..]);
    }
  }

  lemma ReachableInv(s: State)
    requires Reachable(s)
    ensures Inv(s)
  {
    InitialInv();
    var steps :| Run(Initial, steps) == Some(s);
    RunInv(Initial, steps);
  }

  // ---------------------------------------------------------------- what the protocol promises

  /** A held session's successor has no successor: generations form chains of at most two. */
  lemma SuccessorIsLast(s: State, x: SessionId)
    requires Reachable(s) && Held(s, x) && Succ(s.chain, x).Some?
    ensures Succ(s.chain, Succ(s.chain, x).value).None?
  {
    ReachableInv(s);
    assert LinkOk(s, x);
  }

  /** `latest_generation` takes at most one hop, so its bound of eight never truncates it. */
  lemma OneHop(s: State, st: StreamId)
    requires Reachable(s)
    ensures T(s, st).phase.Hopping? ==> T(s, st).phase.hops <= 1
    ensures T(s, st).phase.Examining? ==> T(s, st).phase.hops == 1
    ensures T(s, st).phase.Hopping? && T(s, st).phase.hops == 1 ==> Succ(s.chain, T(s, st).phase.cursor).None?
  {
    ReachableInv(s);
    var t := T(s, st);
    assert PhaseOk(s, st);
    if t.phase.Hopping? && t.phase.hops == 1 {
      assert Refers(t, t.guard) && LinkOk(s, t.guard);
    }
  }

  /** Recording the drained generation never overwrites one that something still holds. */
  lemma RecordOverwritesNothingLive(s: State)
    requires Reachable(s) && LoopEnabled(s, Record)
    ensures DrainerGone(s, s.loop.addr)
  {
    ReachableInv(s);
  }

  /** A session is drained at most once: it has no successor when the drain publishes one. */
  lemma SuccessorSetOnce(s: State)
    requires Reachable(s) && LoopEnabled(s, DrainLock)
    ensures Succ(s.chain, s.loop.prior).None?
  {
    ReachableInv(s);
  }

  /** A `Weak<Session>` that fails to upgrade fails for ever, along every run. */
  lemma {:induction false} DeadWeakStaysDead(s: State, steps: seq<Step>, x: SessionId)
    requires Inv(s) && Run(s, steps).Some? && x in s.chain.addr && !Held(s, x)
    ensures !Held(Run(s, steps).value, x)
    decreases |steps|
  {
    if steps != [] {
      var step := steps[0];
      var s' := Apply(s, step);
      StepInv(s, step);
      StepRevives(s, step, x);
      StepKnows(s, step, x);
      DeadWeakStaysDead(s', steps[1..], x);
    }
  }

  lemma AmbientKnows(s: State, e: Ambient)
    ensures ApplyAmbient(s, e).chain.addr == s.chain.addr
  {
  }

  lemma EffectKnows(s: State, st: StreamId, e: Effect)
    ensures ApplyEffect(s, st, e).chain == s.chain
  {
  }

  lemma LoopKnows(s: State, c: Connector, x: SessionId)
    requires LoopEnabled(s, c) && x in s.chain.addr
    ensures x in ApplyLoop(s, c).chain.addr
  {
  }

  lemma StepKnows(s: State, step: Step, x: SessionId)
    requires Enabled(s, step) && x in s.chain.addr
    ensures x in Apply(s, step).chain.addr
  {
    match step
    case Around(e) => AmbientKnows(s, e);
    case By(st, c) => EffectKnows(s, st, ClientEffect(s, st, c));
    case Move(st, m) => EffectKnows(s, st, MoveEffect(s, st, m));
    case Loops(c) => LoopKnows(s, c, x);
  }

  lemma StepRevives(s: State, step: Step, x: SessionId)
    requires Inv(s) && Enabled(s, step) && x in s.chain.addr && !Held(s, x)
    ensures !Held(Apply(s, step), x)
  {
    match step
    case Around(e) => ReviveAmbient(s, e);
    case By(st, c) => assert PhaseOk(s, st); ReviveClient(s, st, c);
    case Move(st, m) => assert PhaseOk(s, st); ReviveMove(s, st, m);
    case Loops(c) =>
      if c.DialDone? {
        if Held(Apply(s, step), x) { HeldAfterDial(s, c.a, c.x, x); }
      } else {
        ReviveLoop(s, c);
      }
  }

  /**
   No stream is stranded. Once `track` has returned and the loop is not in the middle of a
   drain, a stream with a live writer is bound to, counted on and listed in one session,
   and that session has no successor, or a successor that is dead.
   */
  lemma NoStreamStranded(s: State, st: StreamId)
    requires Reachable(s) && T(s, st).phase.Tracked? && T(s, st).writerAlive
    requires s.loop.Rebinding? ==> st !in s.loop.todo
    ensures var t := T(s, st);
            && t.guarded && t.bound == t.guard && st in List(s, t.guard)
            && (Succ(s.chain, t.guard).None? || Succ(s.chain, t.guard).value in s.chain.dead)
  {
    ReachableInv(s);
    assert PhaseOk(s, st);
  }

  /** Between steps every session's gauge is the number of guards on it, so no decrement underflows. */
  lemma GaugeCountsGuards(s: State, x: SessionId)
    requires Reachable(s)
    ensures Live(s, x) == |Guards(s.streams, x)| + |Incoming(s.streams, x)|
    ensures forall st :: T(s, st).guarded ==> Live(s, T(s, st).guard) >= 1
  {
    ReachableInv(s);
    assert GaugeOk(s, x);
    forall st | T(s, st).guarded ensures Live(s, T(s, st).guard) >= 1 {
      var g := T(s, st).guard;
      assert GaugeOk(s, g) && st in Guards(s.streams, g);
    }
  }

  /** Outside a move every guarded stream is counted by exactly one session. */
  lemma CountedOnce(s: State, st: StreamId, x: SessionId)
    requires Reachable(s) && T(s, st).guarded && !T(s, st).phase.Moving?
    ensures Share(T(s, st), x) == if x == T(s, st).guard then 1 else 0
  {
    ReachableInv(s);
    assert PhaseOk(s, st);
  }
}
