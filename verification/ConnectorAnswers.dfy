/** What the connector's arms answer, and when they dial: exactly, from the state before the arm. */
module ConnectorAnswers {
  import opened Options
  import opened Connector
  import opened ConnectorProof

  // ---------------------------------------------------------------- counting waiters

  /** The requests that wait for the address and whose callers still listen. */
  function Listening(s: State, a: Addr): set<Request> {
    set r | r in s.status && s.status[r] == Waiting(a) && r !in s.closed
  }

  function Elements(ws: seq<Request>): set<Request> {
    set r | r in ws
  }

  lemma {:induction false} DistinctCount(ws: seq<Request>)
    requires NoDuplicates(ws)
    ensures |Elements(ws)| == |ws|
  {
    if ws != [] {
      var (init, last) := (ws[..|ws| - 1], ws[|ws| - 1]);
      DistinctCount(init);
      assert ws == init + [last] && last !in init;
      assert Elements(ws) == Elements(init) + {last};
    }
  }

  /** The queue that is left when closed callers are dropped holds exactly the listening ones, once each. */
  lemma ListeningCount(s: State, a: Addr)
    requires WaitersOk(s)
    ensures |Waiters(Retained(s, a), a)| == |Listening(s, a)|
  {
    var left := Waiters(Retained(s, a), a);
    if a in s.waiters {
      assert QueueOk(s, a);
      OpenIs(s.waiters[a], s.closed);
      DistinctCount(left);
    }
    forall r ensures r in Elements(left) <==> r in Listening(s, a) {
      if r in s.status { assert RequestOk(s, r); }
      if r in left { assert QueueOk(s, a); }
    }
    assert Elements(left) == Listening(s, a);
  }

  // ---------------------------------------------------------------- connecting

  /** The address has a session whose opener is alive. */
  predicate HasLiveSession(s: State, a: Addr) {
    a in s.sessions.Keys - (set b | b in s.sessions && s.sessions[b] in s.dead)
  }

  /** Another waiter, or another dial, would be one too many. */
  predicate Saturated(s: State, a: Addr) {
    || |Listening(s, a)| >= 256
    || (a !in s.inFlight && |s.pending| >= 32)
  }

  /**
   A fresh request is answered at once, with a stream, exactly when the address has a live session;
   it is refused exactly when there is none and a limit is reached; otherwise it waits.
   */
  predicate AnswerIs(s: State, a: Addr, r: Request, s': State) {
    && r in s'.status
    && (s'.status[r] == (if r in s.closed then Skipped else Answered(true)) <==> HasLiveSession(s, a))
    && (s'.status[r] == Answered(false) <==> !HasLiveSession(s, a) && Saturated(s, a))
    && (s'.status[r] == Waiting(a) <==> !HasLiveSession(s, a) && !Saturated(s, a))
  }

  /** It waits behind a dial: its own, with its key, unless one was in flight already. Nothing else is dialled. */
  predicate DialIs(s: State, a: Addr, key: Key, r: Request, s': State)
    requires r in s'.status
  {
    var waits := s'.status[r] == Waiting(a);
    && s'.inFlight == s.inFlight + (if waits then {a} else {})
    && s'.pending == s.pending + (if waits && a !in s.inFlight then [Dial(a, key)] else [])
    && s'.keys == (if waits && a !in s.inFlight then s.keys[a := key] else s.keys)
    && s'.sessions == s.sessions && s'.redials == s.redials && s'.draining == s.draining
  }

  /** Earlier requests keep their state, but those of the address whose callers have left may be passed over. */
  predicate OthersKeep(s: State, a: Addr, s': State) {
    forall q :: q in s.status ==>
      && q in s'.status
      && (s'.status[q] == s.status[q] || (s.status[q] == Waiting(a) && q in s.closed && s'.status[q].Skipped?))
  }

  ghost predicate ConnectSays(s: State, a: Addr, key: Key, r: Request, s': State) {
    AnswerIs(s, a, r, s') && DialIs(s, a, key, r, s') && OthersKeep(s, a, s')
  }

  lemma RetainedIs(s: State, a: Addr, r: Request)
    requires WaitersOk(s) && r !in s.status
    ensures var s1 := Retained(s, a);
            && s1 == s.(waiters := s1.waiters, status := s1.status)
            && r !in s1.status && OthersKeep(s, a, s1) && |Waiters(s1, a)| == |Listening(s, a)|
  {
    ListeningCount(s, a);
    if a in s.waiters { assert QueueOk(s, a); }
  }

  lemma OthersWith(s: State, a: Addr, s1: State, s': State, r: Request)
    requires OthersKeep(s, a, s1) && r !in s.status && r in s'.status && s'.status == s1.status[r := s'.status[r]]
    ensures OthersKeep(s, a, s')
  {}

  lemma StartDialIs(s: State, a: Addr, key: Key, explore: bool)
    ensures var s' := StartDial(s, a, key, explore);
            && s'.inFlight == s.inFlight + {a} && s'.pending == s.pending + [Dial(a, key)] && s'.keys == s.keys
            && s'.sessions == s.sessions && s'.redials == s.redials && s'.draining == s.draining
            && s'.status == s.status
  {}

  lemma QueuedIs(s: State, a: Addr, key: Key, r: Request, explore: bool)
    ensures var s' := Queued(s, a, key, r, explore);
            && r in s'.status && s'.status == s.status[r := Waiting(a)] && DialIs(s, a, key, r, s')
  {
    var s2 := s.(waiters := s.waiters[a := Waiters(s, a) + [r]], status := s.status[r := Waiting(a)]);
    StartDialIs(s2.(keys := s.keys[a := key]), a, key, explore);
    hide StartDial;
  }

  lemma AnswersAtOnce(s: State, a: Addr, key: Key, r: Request, explore: bool)
    requires r !in s.status && HasLiveSession(s, a)
    ensures ConnectSays(s, a, key, r, ApplyConnect(s, a, key, r, explore))
  {
    hide Retained, Queued, Saturated;
    assert OthersKeep(s, a, s);
    OthersWith(s, a, s, ApplyConnect(s, a, key, r, explore), r);
    hide OthersKeep;
  }

  /** Refused, from the state in which callers that left are dropped. */
  lemma Refuses(s: State, a: Addr, key: Key, r: Request, s1: State, s': State)
    requires r !in s.status && !HasLiveSession(s, a) && Saturated(s, a) && OthersKeep(s, a, s1)
    requires s1 == s.(waiters := s1.waiters, status := s1.status)
    requires s' == s1.(status := s1.status[r := Answered(false)])
    ensures ConnectSays(s, a, key, r, s')
  {
    hide HasLiveSession, Saturated;
    OthersWith(s, a, s1, s', r);
    hide OthersKeep;
  }

  lemma Queues(s: State, a: Addr, key: Key, r: Request, s1: State, s': State)
    requires r !in s.status && !HasLiveSession(s, a) && !Saturated(s, a) && OthersKeep(s, a, s1)
    requires s1 == s.(waiters := s1.waiters, status := s1.status)
    requires r in s'.status && s'.status == s1.status[r := Waiting(a)] && DialIs(s1, a, key, r, s')
    ensures ConnectSays(s, a, key, r, s')
  {
    hide HasLiveSession, Saturated;
    OthersWith(s, a, s1, s', r);
    hide OthersKeep;
  }

  lemma ConnectIs(s: State, a: Addr, key: Key, r: Request, explore: bool)
    requires WaitersOk(s) && r !in s.status
    ensures ConnectSays(s, a, key, r, ApplyConnect(s, a, key, r, explore))
  {
    assert HasLiveSession(s, a) <==> Live(s, a);
    if Live(s, a) {
      AnswersAtOnce(s, a, key, r, explore);
    } else {
      var (s1, s') := (Retained(s, a), ApplyConnect(s, a, key, r, explore));
      RetainedIs(s, a, r);
      hide Retained, Queued, ConnectSays, WaitersOk, OthersKeep, Listening, HasLiveSession, Live, DialIs;
      if Saturated(s, a) {
        Refuses(s, a, key, r, s1, s');
      } else {
        QueuedIs(s1, a, key, r, explore);
        Queues(s, a, key, r, s1, s');
      }
    }
  }

  lemma ConnectExactly(s: State, a: Addr, key: Key, r: Request, explore: bool)
    requires Reachable(s) && Enabled(s, Connect(a, key, r))
    ensures ConnectSays(s, a, key, r, Apply(s, Connect(a, key, r), explore))
  {
    hide ConnectSays, ApplyConnect;
    ReachableInv(s);
    ConnectIs(s, a, key, r, explore);
  }

  // ---------------------------------------------------------------- redialling

  /**
   A wanted redial dials exactly when no earlier generation of the address is still draining, no dial
   for it is in flight, there is room for a dial, and there is a session to replace. It remembers that
   session, dials with the key the session was dialled with if it lives, and disturbs no request.
   */
  lemma RedialExactly(s: State, a: Addr, wanted: bool, explore: bool)
    requires Reachable(s)
    ensures var s' := Apply(s, Redial(a, wanted), explore);
            && (s' != s <==>
                wanted && a in s.sessions && a !in s.inFlight && |s.pending| < 32
                && (a in s.draining ==> s.draining[a] in s.freed))
            && (s' != s ==>
                  && a in s'.redials && s'.redials[a] == s.sessions[a] && a in s'.inFlight
                  && a in s.keys && s'.pending == s.pending + [Dial(a, s.keys[a])]
                  && (s.sessions[a] !in s.dead ==>
                        s.sessions[a] in s.dialled && s.dialled[s.sessions[a]] == s.keys[a])
                  && s'.status == s.status && s'.sessions == s.sessions)
  {
    ReachableInv(s);
    if a in s.sessions { assert KeyOk(s, a); }
    hide Inv, DialsOk, GroupsOk, KeysOk, WaitersOk, Reachable;
    if a in s.sessions { StartDialIs(s.(redials := s.redials[a := s.sessions[a]]), a, s.keys[a], explore); }
    hide StartDial;
  }

  // ---------------------------------------------------------------- a dial ends

  /**
   A dial that succeeds maps its session to the address, dialled with the dial's key, and the session
   it replaces, if it was a redial, is recorded as draining; the address may be dialled again.
   */
  lemma DialOkExactly(s: State, i: nat, x: SessionId)
    requires Reachable(s) && Enabled(s, DialOk(i, x))
    ensures var (a, s') := (s.pending[i].addr, ApplyDialOk(s, i, x));
            && s'.sessions == s.sessions[a := x] && a !in s'.inFlight && a !in s'.redials && x !in s'.dead
            && x in s'.dialled && s'.dialled[x] == s.pending[i].key
            && s'.draining == (if a in s.redials then s.draining[a := s.redials[a]] else s.draining)
            && a in s'.groups && x in s'.groups[a]
  {
    ReachableInv(s);
    assert s.pending[i].addr in s.groups;
    hide DialsOk, GroupsOk, KeysOk, WaitersOk, Settled;
  }

  /** Whoever connects next, and listens, gets a stream at once. */
  lemma ConnectAfterDial(s: State, i: nat, x: SessionId, key: Key, r: Request, explore: bool)
    requires Reachable(s) && Enabled(s, DialOk(i, x))
    requires r !in ApplyDialOk(s, i, x).status && r !in s.closed
    ensures var s' := ApplyConnect(ApplyDialOk(s, i, x), s.pending[i].addr, key, r, explore);
            r in s'.status && s'.status[r] == Answered(true) && s'.pending == ApplyDialOk(s, i, x).pending
  {
    ReachableInv(s);
    DialOkExactly(s, i, x);
    StepInv(s, DialOk(i, x), explore);
    var s1 := ApplyDialOk(s, i, x);
    assert s1.closed == s.closed;
    assert HasLiveSession(s1, s.pending[i].addr);
    hide ApplyDialOk, ApplyConnect, Reachable, WaitersOk, DialsOk, GroupsOk, KeysOk, HasLiveSession;
    ConnectIs(s1, s.pending[i].addr, key, r, explore);
  }

  /** A dial that fails maps nothing and lets the address be dialled again; a redial's old session stays mapped. */
  lemma DialErrExactly(s: State, i: nat)
    requires Reachable(s) && Enabled(s, DialErr(i))
    ensures var (a, s') := (s.pending[i].addr, ApplyDialErr(s, i));
            && s'.sessions == s.sessions && s'.draining == s.draining && s'.dead == s.dead && s'.closed == s.closed
            && a !in s'.inFlight && a !in s'.redials && |s'.pending| == |s.pending| - 1 < 32 && a !in s'.waiters
            && (forall b :: b in s'.groups <==>
                  b in s.groups && ((b != a && b in s.inFlight) || s.groups[b] - s.freed != {}))
  {
    ReachableInv(s);
    hide GroupsOk, KeysOk, WaitersOk;
    PrunedIs(Settled(Landed(s, i), s.pending[i].addr, false));
    hide Pruned;
  }

  /** Whoever connects next dials anew, unless the address has a live session. */
  lemma ConnectAfterFailure(s: State, i: nat, key: Key, r: Request, explore: bool)
    requires Reachable(s) && Enabled(s, DialErr(i)) && r !in ApplyDialErr(s, i).status
    requires !HasLiveSession(s, s.pending[i].addr)
    ensures var (a, s1) := (s.pending[i].addr, ApplyDialErr(s, i));
            var s' := ApplyConnect(s1, a, key, r, explore);
            r in s'.status && s'.status[r] == Waiting(a) && s'.pending == s1.pending + [Dial(a, key)]
  {
    DialErrExactly(s, i);
    var (a, s1) := (s.pending[i].addr, ApplyDialErr(s, i));
    assert WaitersOk(s1) by {
      hide WaitersOk, DialsOk, GroupsOk, KeysOk;
      ReachableInv(s);
      StepInv(s, DialErr(i), explore);
    }
    assert !HasLiveSession(s1, a);
    hide ApplyDialErr, ApplyConnect, Reachable, WaitersOk, HasLiveSession;
    DialsAnew(s1, a, key, r, explore);
  }

  lemma DialsAnew(s: State, a: Addr, key: Key, r: Request, explore: bool)
    requires WaitersOk(s) && r !in s.status && !HasLiveSession(s, a)
    requires a !in s.waiters && a !in s.inFlight && |s.pending| < 32
    ensures var s' := ApplyConnect(s, a, key, r, explore);
            r in s'.status && s'.status[r] == Waiting(a) && s'.pending == s.pending + [Dial(a, key)]
  {
    NobodyListens(s, a);
    assert !Saturated(s, a);
    ConnectIs(s, a, key, r, explore);
    hide ApplyConnect, WaitersOk, HasLiveSession, Saturated, OthersKeep;
  }

  lemma NobodyListens(s: State, a: Addr)
    requires WaitersOk(s) && a !in s.waiters
    ensures Listening(s, a) == {}
  {
    forall r | r in s.status ensures s.status[r] != Waiting(a) { assert RequestOk(s, r); }
  }

  // ---------------------------------------------------------------- sessions end

  /**
   A session that ends is unmapped if it is the address's current one, and no other is; the groups
   kept are exactly those with a dial in flight or a session that still exists, and the explorers
   exactly those of kept groups. No request and no dial is touched.
   */
  lemma SessionEndsExactly(s: State, a: Addr, x: SessionId, explore: bool)
    requires Reachable(s)
    ensures var s' := Apply(s, SessionEnds(a, x), explore);
            && (forall b :: b in s'.sessions <==> b in s.sessions && !(b == a && s.sessions[b] == x))
            && (forall b :: b in s'.sessions ==> s'.sessions[b] == s.sessions[b])
            && (forall b :: b in s'.groups <==>
                  b in s.groups && (b in s.inFlight || s.groups[b] - s.freed != {}))
            && (forall b :: b in s'.explorers <==> b in s.explorers && b in s'.groups)
            && s'.pending == s.pending && s'.inFlight == s.inFlight && s'.status == s.status && s'.waiters == s.waiters
  {
    hide Reachable;
    hide ApplyConnect, ApplyDialOk, ApplyDialErr, ApplyReset, ApplyRedial, Pruned;
    var s1 := s.(sessions := Without(s.sessions, a, x));
    WithoutIs(s.sessions, a, x);
    PrunedIs(s1);
    assert Apply(s, SessionEnds(a, x), explore) == Pruned(s1);
    hide Without, Apply;
  }

  function Without(m: map<Addr, SessionId>, a: Addr, x: SessionId): map<Addr, SessionId> {
    if a in m && m[a] == x then m - {a} else m
  }

  lemma WithoutIs(m: map<Addr, SessionId>, a: Addr, x: SessionId)
    ensures var m' := Without(m, a, x);
            && (forall b :: b in m' <==> b in m && !(b == a && m[b] == x)) && (forall b :: b in m' ==> m'[b] == m[b])
  {}

  lemma PrunedIs(s: State)
    ensures var s' := Pruned(s);
            && s' == s.(groups := s'.groups, explorers := s'.explorers)
            && (forall b :: b in s'.groups <==> b in s.groups && (b in s.inFlight || s.groups[b] - s.freed != {}))
            && (forall b :: b in s'.explorers <==> b in s.explorers && b in s'.groups)
  {}

  /** A reset leaves nothing mapped, dialled or waiting, and refuses exactly the requests that waited. */
  lemma ResetExactly(s: State, explore: bool)
    requires Reachable(s)
    ensures var s' := Apply(s, Reset, explore);
            && s'.sessions == map[] && s'.draining == map[] && s'.redials == map[] && s'.waiters == map[]
            && s'.pending == [] && s'.inFlight == {} && s'.groups == map[] && s'.explorers == {}
            && s'.status.Keys == s.status.Keys
            && (forall r :: r in s.status ==>
                  s'.status[r] == if s.status[r].Waiting? then Answered(false) else s.status[r])
            && (forall a :: !HasLiveSession(s', a) && !Saturated(s', a))
  {
    hide Reachable;
    var s' := Apply(s, Reset, explore);
    forall a ensures Listening(s', a) == {} {}
  }
}
