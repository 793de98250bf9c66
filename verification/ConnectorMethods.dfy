/** The connector's loop as it runs: one event at a time, with the loops inside its arms. */
module ConnectorMethods {
  import opened Options
  import opened Connector
  import opened ConnectorProof
  import opened ConnectorAnswers

  /** Drops the waiters whose callers gave up, keeping the order of the others. */
  method LiveDialWaiters(ws: seq<Request>, closed: set<Request>) returns (live: seq<Request>)
    ensures live == Open(ws, closed)
  {
    live := [];
    var i := 0;
    while i < |ws|
      invariant 0 <= i <= |ws|
      invariant live + Open(ws[i..], closed) == Open(ws, closed)
    {
      assert ws[i..][1..] == ws[i + 1..];
      if ws[i] !in closed {
        assert live + [ws[i]] + Open(ws[i + 1..], closed) == live + ([ws[i]] + Open(ws[i + 1..], closed));
        live := live + [ws[i]];
      } else {
        assert [] + Open(ws[i + 1..], closed) == Open(ws[i + 1..], closed);
      }
      i := i + 1;
    }
  }

  /** Answers the waiters one after the other; on success, those who gave up are passed over. */
  method AnswerWaiters(status: map<Request, Status>, ws: seq<Request>, closed: set<Request>, ok: bool)
    returns (r: map<Request, Status>)
    requires forall q :: q in ws ==> q in status
    ensures r == map q | q in status ::
                   if q !in ws then status[q] else if ok && q in closed then Skipped else Answered(ok)
  {
    r := status;
    var i := 0;
    while i < |ws|
      invariant 0 <= i <= |ws|
      invariant forall q :: q in r <==> q in status
      invariant forall q :: q in status ==>
                  r[q] == if q !in ws[..i] then status[q] else if ok && q in closed then Skipped else Answered(ok)
    {
      assert ws[..i + 1] == ws[..i] + [ws[i]];
      assert ws[i] in ws;
      r := r[ws[i] := if ok && ws[i] in closed then Skipped else Answered(ok)];
      i := i + 1;
    }
    assert ws[..|ws|] == ws;
    ghost var spec := map q | q in status ::
      if q !in ws then status[q] else if ok && q in closed then Skipped else Answered(ok);
    assert r.Keys == spec.Keys;
    assert r == spec;
  }

  predicate Stays(groups: map<Addr, set<SessionId>>, inFlight: set<Addr>, freed: set<SessionId>, a: Addr)
    requires a in groups
  {
    a in inFlight || groups[a] - freed != {}
  }

  /** Keeps the groups that have a dial in flight or a session left. */
  method RetainGroups(groups: map<Addr, set<SessionId>>, inFlight: set<Addr>, freed: set<SessionId>)
    returns (r: map<Addr, set<SessionId>>)
    ensures r == map a | a in groups && Stays(groups, inFlight, freed, a) :: groups[a] - freed
  {
    r := map[];
    var todo := groups.Keys;
    while exists a :: a in todo
      invariant todo <= groups.Keys
      invariant forall a :: a in r <==> a in groups && a !in todo && Stays(groups, inFlight, freed, a)
      invariant forall a :: a in r ==> r[a] == groups[a] - freed
      decreases |todo|
    {
      var a :| a in todo;
      todo := todo - {a};
      if Stays(groups, inFlight, freed, a) { r := r[a := groups[a] - freed]; }
    }
    assert todo == {};
    ghost var spec := map a | a in groups && Stays(groups, inFlight, freed, a) :: groups[a] - freed;
    assert r.Keys == spec.Keys;
    assert r == spec;
  }

  /** Only the explorers of kept groups are kept. */
  method PruneDeadAddresses(s: State) returns (s': State)
    ensures s' == Pruned(s)
  {
    var groups := RetainGroups(s.groups, s.inFlight, s.freed);
    return s.(groups := groups, explorers := set a | a in s.explorers && a in groups);
  }

  method ConnectArm(s: State, a: Addr, key: Key, r: Request, explore: bool) returns (s': State)
    requires Inv(s) && r !in s.status
    ensures s' == ApplyConnect(s, a, key, r, explore) && ConnectSays(s, a, key, r, s')
  {
    ConnectIs(s, a, key, r, explore);
    hide DialsOk, GroupsOk, KeysOk, WaitersOk, ConnectSays;
    if Live(s, a) {
      return s.(status := s.status[r := if r in s.closed then Skipped else Answered(true)]);
    }
    s' := s;
    if a in s.waiters {
      var live := LiveDialWaiters(s.waiters[a], s.closed);
      s' := s.(waiters := s.waiters[a := live],
               status := map q | q in s.status :: if q in s.waiters[a] && q in s.closed then Skipped else s.status[q]);
      assert s' == Retained(s, a);
    }
    hide Retained;
    if |Waiters(s', a)| >= MAX_DIAL_WAITERS_PER_ADDR {
      return s'.(status := s'.status[r := Answered(false)]);
    }
    if a !in s'.inFlight && |s'.pending| >= MAX_CONCURRENT_DUAL_DIALS {
      return s'.(status := s'.status[r := Answered(false)]);
    }
    s' := Queued(s', a, key, r, explore);
  }

  /** Completes dial `i`: with session `o.value` when it succeeded. */
  method DialArm(s: State, i: nat, o: Option<SessionId>) returns (s': State)
    requires Inv(s) && i < |s.pending|
    ensures s' == match o case Some(x) => ApplyDialOk(s, i, x) case None => ApplyDialErr(s, i)
  {
    var a := s.pending[i].addr;
    assert a in s.groups;
    forall q | q in Waiters(s, a) ensures q in s.status { assert QueueOk(s, a); }
    hide DialsOk, GroupsOk, KeysOk, WaitersOk;
    var s1 := Landed(s, i);
    var status := AnswerWaiters(s1.status, Waiters(s1, a), s1.closed, o.Some?);
    var s2 := s1.(waiters := s1.waiters - {a}, status := status);
    assert s2 == Settled(s1, a, o.Some?);
    hide Settled, Landed;
    match o {
      case Some(x) =>
        var draining := if a in s.redials then s.draining[a := s.redials[a]] else s.draining;
        s' := s2.(groups := s.groups[a := s.groups[a] - s.freed + {x}], draining := draining,
                  sessions := s.sessions[a := x], dialled := s.dialled[x := s.pending[i].key]);
      case None => s' := PruneDeadAddresses(s2);
    }
  }

  /** Runs the loop over any events; one that cannot happen yet is passed over. */
  method RunConnector(events: seq<Step>, explore: bool) returns (s: State)
    ensures Reachable(s) && Inv(s)
  {
    s := Initial;
    ghost var taken: seq<Step> := [];
    assert Inv(s);
    assert Run(Initial, [], explore, s);
    var k := 0;
    hide Inv, Apply, Run, Reachable, ApplyConnect, ApplyDialOk, ApplyDialErr;
    while k < |events|
      invariant 0 <= k <= |events|
      invariant Inv(s) && Run(Initial, taken, explore, s)
    {
      var e := events[k];
      k := k + 1;
      if Enabled(s, e) {
        ghost var was := s;
        StepInv(s, e, explore);
        RunAppend(Initial, taken, explore, s, e);
        taken := taken + [e];
        ApplyArms(s, e, explore);
        match e {
          case Connect(a, key, r) => s := ConnectArm(s, a, key, r, explore);
          case DialOk(i, x) => s := DialArm(s, i, Some(x));
          case DialErr(i) => s := DialArm(s, i, None);
          case _ => s := Apply(s, e, explore);
        }
        assert s == Apply(was, e, explore);
      }
    }
    Reached(taken, explore, s);
  }

  lemma ApplyArms(s: State, e: Step, explore: bool)
    requires Enabled(s, e)
    ensures e.Connect? ==> Apply(s, e, explore) == ApplyConnect(s, e.addr, e.key, e.request, explore)
    ensures e.DialOk? ==> Apply(s, e, explore) == ApplyDialOk(s, e.i, e.session)
    ensures e.DialErr? ==> Apply(s, e, explore) == ApplyDialErr(s, e.i)
  {
    hide ApplyConnect, ApplyDialOk, ApplyDialErr;
  }

  lemma Reached(taken: seq<Step>, explore: bool, s: State)
    requires Run(Initial, taken, explore, s)
    ensures Reachable(s)
  {
    hide Run;
  }

  lemma {:induction false} RunAppend(s: State, steps: seq<Step>, explore: bool, s': State, step: Step)
    requires Run(s, steps, explore, s') && Enabled(s', step)
    ensures Run(s, steps + [step], explore, Apply(s', step, explore))
    decreases |steps|
  {
    hide Apply, Enabled;
    if steps == [] {
      assert (steps + [step])[1..] == [];
      assert Run(Apply(s, step, explore), [], explore, Apply(s, step, explore));
    } else {
      RunAppend(Apply(s, steps[0], explore), steps[1..], explore, s', step);
      assert (steps + [step])[1..] == steps[1..] + [step];
    }
  }
}
