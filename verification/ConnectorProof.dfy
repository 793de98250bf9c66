/** What every arm of the connector's loop keeps, and what a run of it therefore promises. */
module ConnectorProof {
  import opened Options
  import opened Connector

  // ---------------------------------------------------------------- invariants

  /** The dials in flight are exactly the pending dials, one per address. */
  predicate DialsOk(s: State) {
    && |s.pending| <= MAX_CONCURRENT_DUAL_DIALS
    && (forall i, j :: 0 <= i < j < |s.pending| ==> s.pending[i].addr != s.pending[j].addr)
    && (forall i :: 0 <= i < |s.pending| ==> s.pending[i].addr in s.inFlight)
    && (forall a :: a in s.inFlight ==> exists i :: 0 <= i < |s.pending| && s.pending[i].addr == a)
  }

  predicate GroupsOk(s: State) {
    && !s.panicked
    && s.inFlight <= s.groups.Keys
    && s.explorers <= s.groups.Keys
    && s.redials.Keys <= s.inFlight
  }

  predicate NoDuplicates(ws: seq<Request>) {
    forall i, j :: 0 <= i < j < |ws| ==> ws[i] != ws[j]
  }

  predicate QueueOk(s: State, a: Addr)
    requires a in s.waiters
  {
    && a in s.inFlight
    && |s.waiters[a]| <= MAX_DIAL_WAITERS_PER_ADDR
    && NoDuplicates(s.waiters[a])
    && (forall r :: r in s.waiters[a] ==> r in s.status && s.status[r] == Waiting(a))
  }

  predicate RequestOk(s: State, r: Request)
    requires r in s.status
  {
    match s.status[r]
    case Waiting(a) => a in s.waiters && r in s.waiters[a]
    case Skipped => r in s.closed
    case Answered(_) => true
  }

  /** A request that waits is queued exactly once; one that was passed over had been closed. */
  predicate WaitersOk(s: State) {
    && (forall a :: a in s.waiters ==> QueueOk(s, a))
    && (forall r :: r in s.status ==> RequestOk(s, r))
  }

  predicate KeyOk(s: State, a: Addr)
    requires a in s.sessions
  {
    && s.sessions[a] in s.dialled && a in s.keys
    && (s.sessions[a] !in s.dead ==> s.dialled[s.sessions[a]] == s.keys[a])
  }

  /** Dials and live sessions carry the recorded key of their address. */
  predicate KeysOk(s: State) {
    && (forall a :: a in s.sessions ==> KeyOk(s, a))
    && (forall i :: 0 <= i < |s.pending| ==>
          s.pending[i].addr in s.keys && s.pending[i].key == s.keys[s.pending[i].addr])
  }

  ghost predicate Inv(s: State) {
    DialsOk(s) && GroupsOk(s) && WaitersOk(s) && KeysOk(s)
  }

  // ---------------------------------------------------------------- waiters

  lemma {:induction false} OpenIs(ws: seq<Request>, closed: set<Request>)
    ensures forall r :: r in Open(ws, closed) <==> r in ws && r !in closed
    ensures NoDuplicates(ws) ==> NoDuplicates(Open(ws, closed))
  {
    if ws != [] {
      OpenIs(ws[1..], closed);
      assert ws == [ws[0]] + ws[1..];
      if NoDuplicates(ws) {
        forall i, j | 0 <= i < j < |ws[1..]| ensures ws[1..][i] != ws[1..][j] {
          assert ws[1..][i] == ws[i + 1] && ws[1..][j] == ws[j + 1];
        }
        var rest := Open(ws[1..], closed);
        assert ws[0] !in ws[1..];
        if ws[0] !in closed {
          forall i, j | 0 <= i < j < |rest| + 1 ensures ([ws[0]] + rest)[i] != ([ws[0]] + rest)[j] {
            assert ([ws[0]] + rest)[j] == rest[j - 1] && rest[j - 1] in rest;
          }
        }
      }
    }
  }

  lemma RetainedWaiters(s: State, a: Addr)
    requires WaitersOk(s)
    ensures WaitersOk(Retained(s, a))
  {
    var s' := Retained(s, a);
    if a in s.waiters {
      OpenIs(s.waiters[a], s.closed);
      forall b | b in s'.waiters ensures QueueOk(s', b) { assert QueueOk(s, b) && QueueOk(s, a); }
      forall r | r in s'.status ensures RequestOk(s', r) { assert RequestOk(s, r); }
    }
  }

  lemma SettledWaiters(s: State, a: Addr, ok: bool)
    requires WaitersOk(s)
    ensures WaitersOk(Settled(s, a, ok))
  {
    var s' := Settled(s, a, ok);
    forall b | b in s'.waiters ensures QueueOk(s', b) {
      assert QueueOk(s, b);
      if a in s.waiters { assert QueueOk(s, a); }
    }
    forall r | r in s'.status ensures RequestOk(s', r) { assert RequestOk(s, r); }
  }

  /** With its waiters settled, an address may leave the set of dials in flight. */
  lemma LandedWaiters(s: State, i: nat, ok: bool)
    requires WaitersOk(s) && i < |s.pending|
    ensures WaitersOk(Settled(Landed(s, i), s.pending[i].addr, ok))
  {
    var a := s.pending[i].addr;
    var s1 := Settled(s, a, ok);
    var s' := Settled(Landed(s, i), a, ok);
    SettledWaiters(s, a, ok);
    forall b | b in s'.waiters ensures QueueOk(s', b) { assert QueueOk(s1, b); }
    forall r | r in s'.status ensures RequestOk(s', r) { assert RequestOk(s1, r); }
  }

  lemma SameWaiters(s: State, s': State)
    requires WaitersOk(s) && s'.waiters == s.waiters && s'.status == s.status
    requires s.inFlight <= s'.inFlight && s.closed <= s'.closed
    ensures WaitersOk(s')
  {
    forall b | b in s'.waiters ensures QueueOk(s', b) { assert QueueOk(s, b); }
    forall r | r in s'.status ensures RequestOk(s', r) { assert RequestOk(s, r); }
  }

  lemma RepliedWaiters(s: State, r: Request, answer: Status)
    requires WaitersOk(s) && r !in s.status
    requires answer.Answered? || (answer.Skipped? && r in s.closed)
    ensures WaitersOk(s.(status := s.status[r := answer]))
  {
    var s' := s.(status := s.status[r := answer]);
    forall b | b in s'.waiters ensures QueueOk(s', b) { assert QueueOk(s, b); }
    forall q | q in s'.status ensures RequestOk(s', q) { if q in s.status { assert RequestOk(s, q); } }
  }

  lemma QueuedWaiters(s: State, a: Addr, r: Request)
    requires WaitersOk(s) && r !in s.status && |Waiters(s, a)| < MAX_DIAL_WAITERS_PER_ADDR
    ensures WaitersOk(s.(waiters := s.waiters[a := Waiters(s, a) + [r]], status := s.status[r := Waiting(a)],
                         inFlight := s.inFlight + {a}))
  {
    var s' := s.(waiters := s.waiters[a := Waiters(s, a) + [r]], status := s.status[r := Waiting(a)],
                 inFlight := s.inFlight + {a});
    forall b | b in s'.waiters ensures QueueOk(s', b) { if b in s.waiters { assert QueueOk(s, b); } }
    forall q | q in s'.status ensures RequestOk(s', q) { if q in s.status { assert RequestOk(s, q); } }
  }

  // ---------------------------------------------------------------- dials

  lemma StartDials(s: State, a: Addr, key: Key, explore: bool)
    requires DialsOk(s) && GroupsOk(s) && a !in s.inFlight && |s.pending| < MAX_CONCURRENT_DUAL_DIALS
    ensures DialsOk(StartDial(s, a, key, explore)) && GroupsOk(StartDial(s, a, key, explore))
  {
    var s' := StartDial(s, a, key, explore);
    forall b | b in s'.inFlight ensures exists i :: 0 <= i < |s'.pending| && s'.pending[i].addr == b {
      if b == a {
        assert s'.pending[|s.pending|].addr == a;
      } else {
        var i :| 0 <= i < |s.pending| && s.pending[i].addr == b;
        assert s'.pending[i].addr == b;
      }
    }
  }

  lemma LandedDials(s: State, i: nat)
    requires DialsOk(s) && i < |s.pending|
    ensures DialsOk(Landed(s, i))
  {
    var s' := Landed(s, i);
    var a := s.pending[i].addr;
    forall k | 0 <= k < |s'.pending| ensures s'.pending[k] == s.pending[if k < i then k else k + 1] {}
    forall b | b in s'.inFlight ensures exists k :: 0 <= k < |s'.pending| && s'.pending[k].addr == b {
      var k :| 0 <= k < |s.pending| && s.pending[k].addr == b;
      assert k != i;
      assert s'.pending[if k < i then k else k - 1].addr == b;
    }
  }

  lemma SameDials(s: State, s': State)
    requires DialsOk(s) && s'.pending == s.pending && s'.inFlight == s.inFlight
    ensures DialsOk(s')
  {}

  lemma PrunedInv(s: State)
    requires Inv(s)
    ensures Inv(Pruned(s))
  {
    var s' := Pruned(s);
    assert GroupsOk(s');
    assert KeysOk(s') by { forall a | a in s'.sessions ensures KeyOk(s', a) { assert KeyOk(s, a); } }
    hide GroupsOk, KeysOk, DialsOk, WaitersOk;
    SameDials(s, s');
    SameWaiters(s, s');
  }

  // ---------------------------------------------------------------- the arms

  lemma RetainedInv(s: State, a: Addr)
    requires Inv(s)
    ensures Inv(Retained(s, a))
  {
    var s' := Retained(s, a);
    RetainedWaiters(s, a);
    assert KeysOk(s') by { forall b | b in s'.sessions ensures KeyOk(s', b) { assert KeyOk(s, b); } }
  }

  /** The recorded key of an address without a live session or a dial in flight may change. */
  lemma KeyRecorded(s: State, a: Addr, key: Key, explore: bool)
    requires KeysOk(s) && DialsOk(s) && !Live(s, a) && a !in s.inFlight
    ensures KeysOk(StartDial(s.(keys := s.keys[a := key]), a, key, explore))
  {
    var s' := StartDial(s.(keys := s.keys[a := key]), a, key, explore);
    forall b | b in s'.sessions ensures KeyOk(s', b) { assert KeyOk(s, b); }
  }

  lemma SameKeys(s: State, s': State)
    requires KeysOk(s) && s'.sessions == s.sessions && s'.dialled == s.dialled && s'.keys == s.keys
    requires s'.pending == s.pending && s.dead <= s'.dead
    ensures KeysOk(s')
  {
    forall b | b in s'.sessions ensures KeyOk(s', b) { assert KeyOk(s, b); }
  }

  lemma QueuedInv(s: State, a: Addr, key: Key, r: Request, explore: bool)
    requires Inv(s) && !Live(s, a) && r !in s.status
    requires |Waiters(s, a)| < MAX_DIAL_WAITERS_PER_ADDR
    requires a in s.inFlight || |s.pending| < MAX_CONCURRENT_DUAL_DIALS
    ensures Inv(Queued(s, a, key, r, explore))
  {
    var s' := Queued(s, a, key, r, explore);
    QueuedWaiters(s, a, r);
    var s2 := s.(waiters := s'.waiters, status := s'.status, inFlight := s.inFlight + {a});
    if a in s.inFlight {
      assert s.inFlight + {a} == s.inFlight;
    }
    hide DialsOk, KeysOk, WaitersOk, QueueOk, RequestOk;
    SameWaiters(s2, s');
    if a in s.inFlight {
      SameDials(s, s');
      SameKeys(s, s');
    } else {
      var t := StartDial(s.(keys := s.keys[a := key]), a, key, explore);
      KeyRecorded(s, a, key, explore);
      StartDials(s, a, key, explore);
      SameKeys(t, s');
      SameDials(StartDial(s, a, key, explore), s');
    }
  }

  lemma ConnectInv(s: State, a: Addr, key: Key, r: Request, explore: bool)
    requires Inv(s) && r !in s.status
    ensures Inv(ApplyConnect(s, a, key, r, explore))
  {
    if Live(s, a) {
      var answer := if r in s.closed then Skipped else Answered(true);
      RepliedWaiters(s, r, answer);
      RepliedInv(s, r, answer);
    } else {
      RetainedInv(s, a);
      var s1 := Retained(s, a);
      assert r !in s1.status && !Live(s1, a);
      if || |Waiters(s1, a)| >= MAX_DIAL_WAITERS_PER_ADDR
         || (a !in s1.inFlight && |s1.pending| >= MAX_CONCURRENT_DUAL_DIALS)
      {
        RepliedInv(s1, r, Answered(false));
      } else {
        QueuedInv(s1, a, key, r, explore);
      }
    }
  }

  lemma RepliedInv(s: State, r: Request, answer: Status)
    requires Inv(s) && r !in s.status
    requires answer.Answered? || (answer.Skipped? && r in s.closed)
    ensures Inv(s.(status := s.status[r := answer]))
  {
    var s' := s.(status := s.status[r := answer]);
    RepliedWaiters(s, r, answer);
    assert KeysOk(s') by { forall b | b in s'.sessions ensures KeyOk(s', b) { assert KeyOk(s, b); } }
  }

  lemma RedialInv(s: State, a: Addr, wanted: bool, explore: bool)
    requires Inv(s)
    ensures Inv(ApplyRedial(s, a, wanted, explore))
  {
    var s' := ApplyRedial(s, a, wanted, explore);
    if s' != s {
      assert KeyOk(s, a);
      StartDials(s, a, s.keys[a], explore);
      RedialKeys(s, a, explore);
      RedialGroups(s, a, s.keys[a], explore);
      hide DialsOk, GroupsOk, KeysOk, WaitersOk;
      SameDials(StartDial(s, a, s.keys[a], explore), s');
      SameWaiters(s, s');
    }
  }

  lemma RedialKeys(s: State, a: Addr, explore: bool)
    requires KeysOk(s) && a in s.sessions && a in s.keys
    ensures KeysOk(StartDial(s.(redials := s.redials[a := s.sessions[a]]), a, s.keys[a], explore))
  {
    var s' := StartDial(s.(redials := s.redials[a := s.sessions[a]]), a, s.keys[a], explore);
    forall b | b in s'.sessions ensures KeyOk(s', b) { assert KeyOk(s, b); }
  }

  lemma RedialGroups(s: State, a: Addr, key: Key, explore: bool)
    requires GroupsOk(s) && a in s.sessions
    ensures GroupsOk(StartDial(s.(redials := s.redials[a := s.sessions[a]]), a, key, explore))
  {}

  lemma DialOkInv(s: State, i: nat, x: SessionId)
    requires Inv(s) && i < |s.pending| && x !in s.dialled && x !in s.dead && x !in s.freed
    ensures Inv(ApplyDialOk(s, i, x))
  {
    var s' := ApplyDialOk(s, i, x);
    var a := s.pending[i].addr;
    assert a in s.groups;
    LandedDials(s, i);
    LandedWaiters(s, i, true);
    assert KeysOk(s') by {
      forall b | b in s'.sessions ensures KeyOk(s', b) { if b in s.sessions { assert KeyOk(s, b); } }
      forall k | 0 <= k < |s'.pending| ensures s'.pending[k] == s.pending[if k < i then k else k + 1] {}
    }
    assert GroupsOk(s');
    hide DialsOk, GroupsOk, KeysOk, WaitersOk;
    SameDials(Landed(s, i), s');
    SameWaiters(Settled(Landed(s, i), a, true), s');
  }

  lemma DialErrInv(s: State, i: nat)
    requires Inv(s) && i < |s.pending|
    ensures Inv(ApplyDialErr(s, i))
  {
    var s1 := Settled(Landed(s, i), s.pending[i].addr, false);
    LandedDials(s, i);
    LandedWaiters(s, i, false);
    assert KeysOk(s1) by {
      forall b | b in s1.sessions ensures KeyOk(s1, b) { assert KeyOk(s, b); }
      forall k | 0 <= k < |s1.pending| ensures s1.pending[k] == s.pending[if k < i then k else k + 1] {}
    }
    assert GroupsOk(s1);
    assert DialsOk(s1) by { hide DialsOk; SameDials(Landed(s, i), s1); }
    PrunedInv(s1);
  }

  lemma ResetInv(s: State)
    requires Inv(s)
    ensures Inv(ApplyReset(s))
  {
    var s' := ApplyReset(s);
    assert WaitersOk(s') by { forall r | r in s'.status ensures RequestOk(s', r) { assert RequestOk(s, r); } }
  }

  lemma EnvironmentInv(s: State, step: Step, explore: bool)
    requires Inv(s) && Enabled(s, step)
    requires step.Die? || step.Free? || step.Close?
    ensures Inv(Apply(s, step, explore))
  {
    var s' := Apply(s, step, explore);
    assert KeysOk(s') by { forall b | b in s'.sessions ensures KeyOk(s', b) { assert KeyOk(s, b); } }
    assert GroupsOk(s');
    hide DialsOk, GroupsOk, KeysOk, WaitersOk;
    SameDials(s, s');
    SameWaiters(s, s');
  }

  lemma EndsInv(s: State, a: Addr, x: SessionId, explore: bool)
    requires Inv(s)
    ensures Inv(Apply(s, SessionEnds(a, x), explore))
  {
    var s1 := if a in s.sessions && s.sessions[a] == x then s.(sessions := s.sessions - {a}) else s;
    assert KeysOk(s1) by { forall b | b in s1.sessions ensures KeyOk(s1, b) { assert KeyOk(s, b); } }
    assert GroupsOk(s1);
    assert DialsOk(s1) && WaitersOk(s1) by {
      hide DialsOk, WaitersOk;
      SameDials(s, s1);
      SameWaiters(s, s1);
    }
    PrunedInv(s1);
  }

  lemma StepInv(s: State, step: Step, explore: bool)
    requires Inv(s) && Enabled(s, step)
    ensures Inv(Apply(s, step, explore))
  {
    hide Inv, ApplyConnect, ApplyRedial, ApplyDialOk, ApplyDialErr, ApplyReset;
    match step
    case Connect(a, key, r) => ConnectInv(s, a, key, r, explore);
    case Redial(a, wanted) => RedialInv(s, a, wanted, explore);
    case DialOk(i, x) => DialOkInv(s, i, x);
    case DialErr(i) => DialErrInv(s, i);
    case Reset => ResetInv(s);
    case SessionEnds(a, x) => EndsInv(s, a, x, explore);
    case _ => EnvironmentInv(s, step, explore);
  }

  // ---------------------------------------------------------------- runs

  /** `s'` follows `s` after `steps`, each enabled when its turn comes. */
  ghost predicate Run(s: State, steps: seq<Step>, explore: bool, s': State)
    decreases |steps|
  {
    if steps == [] then s' == s
    else Enabled(s, steps[0]) && Run(Apply(s, steps[0], explore), steps[1..], explore, s')
  }

  ghost predicate Reachable(s: State) {
    exists steps, explore :: Run(Initial, steps, explore, s)
  }

  lemma {:induction false} RunInv(s: State, steps: seq<Step>, explore: bool, s': State)
    requires Inv(s) && Run(s, steps, explore, s')
    ensures Inv(s')
    decreases |steps|
  {
    hide Inv, Apply, Enabled;
    if steps != [] {
      StepInv(s, steps[0], explore);
      RunInv(Apply(s, steps[0], explore), steps[1..], explore, s');
    }
  }

  lemma ReachableInv(s: State)
    requires Reachable(s)
    ensures Inv(s)
  {
    assert Inv(Initial);
    hide Inv, Run;
    var steps, explore :| Run(Initial, steps, explore, s);
    RunInv(Initial, steps, explore, s);
  }

  function Addresses(pending: seq<Dial>): set<Addr> {
    set i | 0 <= i < |pending| :: pending[i].addr
  }

  /**
   The in-flight set is exactly the addresses of the pending dials, which are distinct and at most 32;
   addresses with waiters are in flight, with at most 256 waiters each; every address in flight has a
   group, and explorers exist only for grouped addresses.
   */
  lemma LoopInvariant(s: State)
    requires Reachable(s)
    ensures s.inFlight == Addresses(s.pending) && |s.pending| <= MAX_CONCURRENT_DUAL_DIALS
    ensures forall i, j :: 0 <= i < j < |s.pending| ==> s.pending[i].addr != s.pending[j].addr
    ensures forall a :: a in s.waiters ==> a in s.inFlight && |s.waiters[a]| <= MAX_DIAL_WAITERS_PER_ADDR
    ensures s.inFlight <= s.groups.Keys && s.explorers <= s.groups.Keys
  {
    ReachableInv(s);
    forall a | a in s.waiters ensures a in s.inFlight && |s.waiters[a]| <= MAX_DIAL_WAITERS_PER_ADDR {
      assert QueueOk(s, a);
    }
    forall a | a in s.inFlight ensures a in Addresses(s.pending) {
      var i :| 0 <= i < |s.pending| && s.pending[i].addr == a;
      assert s.pending[i].addr in Addresses(s.pending);
    }
  }

  /** A session is never installed for an address without a group. */
  lemma InstallNeverPanics(s: State)
    requires Reachable(s)
    ensures !s.panicked
  {
    ReachableInv(s);
  }

  /** The mapped session of an address, while alive, was dialled with the key recorded for the address. */
  lemma KeyIsRecorded(s: State, a: Addr)
    requires Reachable(s) && Live(s, a)
    ensures a in s.keys && s.sessions[a] in s.dialled && s.dialled[s.sessions[a]] == s.keys[a]
  {
    ReachableInv(s);
    assert KeyOk(s, a);
  }

  /**
   A request still waiting is queued, once, behind a dial in flight; one passed over had been closed
   by its caller.
   */
  lemma RequestIsQueued(s: State, r: Request)
    requires Reachable(s) && r in s.status
    ensures s.status[r].Waiting? ==>
              var a := s.status[r].addr;
              a in s.waiters && a in s.inFlight && r in s.waiters[a] && NoDuplicates(s.waiters[a])
    ensures forall a :: a in s.waiters && r in s.waiters[a] ==> s.status[r] == Waiting(a)
    ensures s.status[r].Skipped? ==> r in s.closed
  {
    hide Inv, Reachable;
    ReachableInv(s);
    InvQueues(s, r);
  }

  lemma InvQueues(s: State, r: Request)
    requires Inv(s) && r in s.status
    ensures s.status[r].Waiting? ==>
              var a := s.status[r].addr;
              a in s.waiters && a in s.inFlight && r in s.waiters[a] && NoDuplicates(s.waiters[a])
    ensures forall a :: a in s.waiters && r in s.waiters[a] ==> s.status[r] == Waiting(a)
    ensures s.status[r].Skipped? ==> r in s.closed
  {
    assert RequestOk(s, r);
    forall a | a in s.waiters && r in s.waiters[a] ensures s.status[r] == Waiting(a) { assert QueueOk(s, a); }
  }

  predicate Keeps(s: State, s': State, r: Request) {
    r in s.status ==> r in s'.status && s'.status[r] == s.status[r]
  }

  lemma RetainedKeeps(s: State, a: Addr, r: Request)
    requires forall b :: b in s.waiters ==> r !in s.waiters[b]
    ensures Keeps(s, Retained(s, a), r)
  {}

  lemma ConnectKeeps(s: State, a: Addr, key: Key, q: Request, explore: bool, r: Request)
    requires r in s.status && q != r && Keeps(s, Retained(s, a), r)
    ensures Keeps(s, ApplyConnect(s, a, key, q, explore), r)
  {
    hide Retained, Queued;
    QueuedKeeps(Retained(s, a), a, key, q, explore, r);
  }

  lemma QueuedKeeps(s: State, a: Addr, key: Key, q: Request, explore: bool, r: Request)
    requires q != r
    ensures Keeps(s, Queued(s, a, key, q, explore), r)
  {}

  lemma DialKeeps(s: State, i: nat, x: SessionId, r: Request)
    requires i < |s.pending| && forall b :: b in s.waiters ==> r !in s.waiters[b]
    ensures Keeps(s, ApplyDialOk(s, i, x), r) && Keeps(s, ApplyDialErr(s, i), r)
  {
    assert Keeps(s, Settled(Landed(s, i), s.pending[i].addr, true), r);
    assert Keeps(s, Settled(Landed(s, i), s.pending[i].addr, false), r);
    hide Settled, Landed;
  }

  lemma FinalStep(s: State, step: Step, explore: bool, r: Request)
    requires Inv(s) && Enabled(s, step) && r in s.status && !s.status[r].Waiting?
    ensures Keeps(s, Apply(s, step, explore), r)
  {
    forall a | a in s.waiters ensures r !in s.waiters[a] { assert QueueOk(s, a); }
    hide DialsOk, GroupsOk, KeysOk, WaitersOk, ApplyConnect, ApplyDialOk, ApplyDialErr;
    match step {
      case Connect(a, key, q) => RetainedKeeps(s, a, r); ConnectKeeps(s, a, key, q, explore, r);
      case DialOk(i, x) => DialKeeps(s, i, x, r);
      case DialErr(i) => DialKeeps(s, i, 0, r);
      case _ =>
    }
  }

  /** An answer is final: no request is answered twice, in any run. */
  lemma {:induction false} AnsweredOnce(s: State, steps: seq<Step>, explore: bool, s': State, r: Request)
    requires Inv(s) && Run(s, steps, explore, s') && r in s.status && !s.status[r].Waiting?
    ensures r in s'.status && s'.status[r] == s.status[r]
    decreases |steps|
  {
    hide Inv, Apply, Enabled;
    if steps != [] {
      StepInv(s, steps[0], explore);
      FinalStep(s, steps[0], explore, r);
      AnsweredOnce(Apply(s, steps[0], explore), steps[1..], explore, s', r);
    }
  }

  /** The request stays on record; while it waits, it waits for the same address. */
  predicate Recorded(s: State, s': State, r: Request) {
    r in s.status ==> r in s'.status && (s'.status[r].Waiting? ==> s'.status[r] == s.status[r])
  }

  lemma ConnectRecords(s: State, a: Addr, key: Key, q: Request, explore: bool, r: Request)
    requires r in s.status && q != r
    ensures Recorded(s, ApplyConnect(s, a, key, q, explore), r)
  {
    assert Recorded(s, Retained(s, a), r);
    hide Retained, Queued;
    QueuedKeeps(Retained(s, a), a, key, q, explore, r);
  }

  lemma DialRecords(s: State, i: nat, x: SessionId, r: Request)
    requires i < |s.pending|
    ensures Recorded(s, ApplyDialOk(s, i, x), r) && Recorded(s, ApplyDialErr(s, i), r)
  {
    hide Settled;
    SettledRecords(Landed(s, i), s.pending[i].addr, true, r);
    SettledRecords(Landed(s, i), s.pending[i].addr, false, r);
  }

  lemma SettledRecords(s: State, a: Addr, ok: bool, r: Request)
    ensures Recorded(s, Settled(s, a, ok), r)
  {}

  lemma RecordStep(s: State, step: Step, explore: bool, r: Request)
    requires Enabled(s, step) && r in s.status
    ensures Recorded(s, Apply(s, step, explore), r)
  {
    hide ApplyConnect, ApplyDialOk, ApplyDialErr;
    match step {
      case Connect(a, key, q) => ConnectRecords(s, a, key, q, explore, r);
      case DialOk(i, x) => DialRecords(s, i, x, r);
      case DialErr(i) => DialRecords(s, i, 0, r);
      case _ =>
    }
  }

  lemma {:induction false} StaysOnRecord(s: State, steps: seq<Step>, explore: bool, s': State, r: Request)
    requires Run(s, steps, explore, s') && r in s.status
    ensures Recorded(s, s', r)
    decreases |steps|
  {
    hide Apply, Enabled;
    if steps != [] {
      RecordStep(s, steps[0], explore, r);
      StaysOnRecord(Apply(s, steps[0], explore), steps[1..], explore, s', r);
    }
  }

  /**
   A request is answered exactly once unless its caller closed it. Along every run it is never lost:
   it still waits for the same address, queued once behind a dial in flight, or it has its answer, or
   it was passed over after it was closed. From then on, nothing about it changes.
   */
  lemma AnsweredUnlessClosed(s: State, steps: seq<Step>, explore: bool, s': State, r: Request)
    requires Reachable(s) && Run(s, steps, explore, s') && r in s.status
    ensures r in s'.status
    ensures match s'.status[r]
            case Waiting(a) => s.status[r] == Waiting(a) && a in s'.inFlight && a in s'.waiters && r in s'.waiters[a]
                               && NoDuplicates(s'.waiters[a])
            case Answered(_) => s.status[r].Waiting? || s'.status[r] == s.status[r]
            case Skipped => r in s'.closed
    ensures !s.status[r].Waiting? ==> s'.status[r] == s.status[r]
  {
    hide Inv, Run;
    ReachableInv(s);
    StaysOnRecord(s, steps, explore, s', r);
    RunInv(s, steps, explore, s');
    InvQueues(s', r);
    if !s.status[r].Waiting? { AnsweredOnce(s, steps, explore, s', r); }
  }

  /** When a dial ends or the connector is reset, every request waiting for that dial is answered, or was closed. */
  lemma DialAnswersAll(s: State, i: nat, x: SessionId, r: Request)
    requires Reachable(s) && Enabled(s, DialOk(i, x)) && r in s.status && s.status[r] == Waiting(s.pending[i].addr)
    ensures Told(ApplyDialOk(s, i, x), r, if r in s.closed then Skipped else Answered(true))
    ensures Told(ApplyDialErr(s, i), r, Answered(false))
    ensures Told(ApplyReset(s), r, Answered(false))
  {
    ReachableInv(s);
    assert RequestOk(s, r);
    hide DialsOk, KeysOk, WaitersOk;
    assert Told(Settled(Landed(s, i), s.pending[i].addr, true), r, if r in s.closed then Skipped else Answered(true));
    assert Told(Settled(Landed(s, i), s.pending[i].addr, false), r, Answered(false));
    hide Settled, Landed;
  }

  predicate Told(s: State, r: Request, answer: Status) {
    r in s.status && s.status[r] == answer
  }
}
