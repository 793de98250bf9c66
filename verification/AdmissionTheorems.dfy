/** What lane admission promises over whole runs. */
module AdmissionTheorems {
  import opened Options
  import opened Admission
  import opened AdmissionProof

  /** `s'` follows `s` after `steps`, each enabled when its turn comes. */
  ghost predicate Run(s: State, steps: seq<Step>, s': State)
    decreases |steps|
  {
    if steps == [] then s' == s
    else Enabled(s, steps[0]) && Run(Apply(s, steps[0]), steps[1..], s')
  }

  ghost predicate Reachable(s: State) {
    exists steps :: Run(Initial, steps, s)
  }

  lemma {:induction false} RunInv(s: State, steps: seq<Step>, s': State)
    requires Inv(s) && Run(s, steps, s')
    ensures Inv(s')
    decreases |steps|
  {
    hide Inv, Apply, Enabled;
    if steps != [] {
      StepInv(s, steps[0]);
      RunInv(Apply(s, steps[0]), steps[1..], s');
    }
  }

  lemma InitialInv()
    ensures Inv(Initial)
  {
    forall ip ensures PeerCounted({}, map[], map[], ip) { assert Of({}, map[], ip) == {}; }
  }

  lemma ReachableInv(s: State)
    requires Reachable(s)
    ensures Inv(s)
  {
    hide Inv, Run;
    var steps :| Run(Initial, steps, s);
    InitialInv();
    RunInv(Initial, steps, s);
  }

  // ---------------------------------------------------------------- permits

  /** The counters are exact and within their limits, and an address is listed exactly while it has permits. */
  lemma PermitsConserved(s: State, ip: Ip)
    requires Reachable(s)
    ensures s.admitted == |s.place.Keys| <= 1024
    ensures Count(s.perPeer, ip) == |Of(s.place.Keys, s.hello, ip)| <= 32
    ensures ip in s.perPeer <==> Of(s.place.Keys, s.hello, ip) != {}
  {
    ReachableInv(s);
    assert PeerCounted(s.place.Keys, s.hello, s.perPeer, ip);
  }

  /** Neither subtraction in a permit's destructor ever saturates. */
  lemma DropNeverSaturates(s: State, t: TaskId)
    requires Reachable(s) && Enabled(s, DropPermit(t))
    ensures s.admitted >= 1 && Says(s, t).peer.ip in s.perPeer && s.perPeer[Says(s, t).peer.ip] >= 1
  {
    ReachableInv(s);
    DropCounts(s, t);
  }

  /**
   No two owners share a permit: not two entries, not an entry and a taker, not two takers, not a
   task and an entry.
   */
  lemma PermitsAreLinear(s: State, n: Nonce, m: Nonce, t: TaskId, u: TaskId)
    requires Reachable(s) && n != m && t != u
    ensures n in s.entries && m in s.entries ==> s.entries[n].lane.permit != s.entries[m].lane.permit
    ensures n in s.entries && HoldsOther(At(s, t)) ==> s.entries[n].lane.permit != At(s, t).other.permit
    ensures HoldsOther(At(s, t)) && HoldsOther(At(s, u)) ==> At(s, t).other.permit != At(s, u).other.permit
    ensures n in s.entries && HoldsOwn(At(s, t)) ==> s.entries[n].lane.permit != t
    ensures HoldsOwn(At(s, t)) && HoldsOther(At(s, u)) ==> At(s, u).other.permit != t
  {
    ReachableInv(s);
    assert n in s.entries ==> EntryPlaced(s, n);
    assert m in s.entries ==> EntryPlaced(s, m);
    assert TaskPlaced(s, t) && TaskPlaced(s, u);
  }

  lemma Homeless(s: State, t: TaskId)
    requires PlaceOk(s) && s.entries == map[] && forall u :: At(s, u).Done?
    ensures t in s.place ==> s.place[t].Dropping?
  {
    assert t in s.place ==> PermitOk(s, t);
  }

  /** When every lane task is over, every entry gone and every drop finished, both counters are back to zero. */
  lemma AllGone(s: State)
    requires Reachable(s)
    requires forall t :: At(s, t).Done?
    requires s.entries == map[]
    requires forall t :: t in s.place ==> !s.place[t].Dropping?
    ensures s.admitted == 0 && s.perPeer == map[]
  {
    ReachableInv(s);
    forall t ensures t !in s.place { Homeless(s, t); }
    assert s.place.Keys == {};
    forall ip ensures ip !in s.perPeer {
      assert PeerCounted(s.place.Keys, s.hello, s.perPeer, ip);
      assert Of(s.place.Keys, s.hello, ip) == {};
    }
  }

  // ---------------------------------------------------------------- pairing

  /**
   A lane handed to a task carries the task's nonce, comes from its IP address and has the opposite
   class, and so do the task whose permit it carries and the task that built its transport. On the
   direct path the reservation announced the taker's group; on the wait path the reservation waited
   for did. What the transport itself announced is the subject of `AdmissionGroups`.
   */
  lemma PairingIsSafe(s: State, t: TaskId)
    requires Reachable(s) && HoldsOther(At(s, t))
    ensures var (h, other) := (Says(s, t), At(s, t).other);
            && other.permit in s.hello && other.transport in s.hello
            && Partner(h, s.hello[other.permit]) && Partner(h, s.hello[other.transport])
            && s.hello[other.permit].peer == s.hello[other.transport].peer
            && s.hello[other.permit].group == other.group
    ensures At(s, t).Pairing? || At(s, t).waited.None? ==> At(s, t).other.group == Says(s, t).group
    ensures At(s, t).Joined? && At(s, t).waited.Some? ==>
              var first := At(s, t).waited.value;
              && first in s.hello && Partner(Says(s, t), s.hello[first]) && s.hello[first].group == Says(s, t).group
              && (At(s, t).other.permit == first ==> At(s, t).other.group == Says(s, t).group)
  {
    ReachableInv(s);
    assert TaskOk(s, t);
  }

  /** Two lanes that may form a session as far as nonce, address and class go. */
  predicate Partner(h: Hello, g: Hello) {
    g.nonce == h.nonce && g.peer.ip == h.peer.ip && g.kind != h.kind
  }

  // ---------------------------------------------------------------- deadlines

  lemma DeadlineStep(s: State, step: Step, t: TaskId)
    requires Inv(s) && Enabled(s, step) && t in s.deadline
    ensures t in Apply(s, step).deadline && Apply(s, step).deadline[t] == s.deadline[t]
  {
    hide CountOk, PlaceOk, WakeOk, PollPair, Claims;
    if step.Register? {
      assert step.t != t;
    } else {
      hide LanesOk;
    }
  }

  /** Once a lane has a pairing deadline, no run changes it. */
  lemma {:induction false} DeadlineFixed(s: State, steps: seq<Step>, s': State, t: TaskId)
    requires Inv(s) && Run(s, steps, s') && t in s.deadline
    ensures t in s'.deadline && s'.deadline[t] == s.deadline[t]
    decreases |steps|
  {
    hide Inv, Apply, Enabled;
    if steps != [] {
      StepInv(s, steps[0]);
      DeadlineStep(s, steps[0], t);
      DeadlineFixed(Apply(s, steps[0]), steps[1..], s', t);
    }
  }

  /** Whoever holds a lane, an entry or a task trying to pair with it, holds it under that deadline. */
  lemma DeadlineCarried(s: State, n: Nonce, t: TaskId)
    requires Reachable(s)
    ensures n in s.entries ==>
              s.entries[n].lane.permit in s.deadline && s.entries[n].expires == s.deadline[s.entries[n].lane.permit]
    ensures At(s, t).Pairing? ==>
              At(s, t).other.permit in s.deadline && At(s, t).expires == s.deadline[At(s, t).other.permit]
    ensures At(s, t).Waiting? ==>
              At(s, t).first in s.deadline && At(s, t).expires == s.deadline[At(s, t).first]
  {
    ReachableInv(s);
    assert n in s.entries ==> EntryOk(s, n);
    assert TaskOk(s, t);
  }

  /** The expiry worker never sleeps past the earliest deadline unless a notification is stored or about to be sent. */
  lemma WorkerNeverOversleeps(s: State, n: Nonce)
    requires Reachable(s) && s.worker.Sleeping? && n in s.entries
    ensures s.token || s.owed > 0 || (s.worker.until.Some? && s.worker.until.value <= s.entries[n].expires)
  {
    ReachableInv(s);
  }

  /** A sleeping waiter's reservation is still building, or its wake-up has come or is about to. */
  lemma WaiterNeverForgotten(s: State, t: TaskId)
    requires Reachable(s) && At(s, t).Waiting?
    ensures At(s, t).first in s.fired || At(s, t).first in s.firing || BuildingBy(s, Says(s, t).nonce, At(s, t).first)
  {
    ReachableInv(s);
    assert WaiterOk(s, t);
  }

  // ---------------------------------------------------------------- building runs

  lemma {:induction false} RunAppend(s: State, steps: seq<Step>, s': State, step: Step)
    requires Run(s, steps, s') && Enabled(s', step)
    ensures Run(s, steps + [step], Apply(s', step))
    decreases |steps|
  {
    hide Apply, Enabled;
    if steps == [] {
      assert (steps + [step])[1..] == [];
      assert Run(Apply(s, step), [], Apply(s, step));
    } else {
      RunAppend(Apply(s, steps[0]), steps[1..], s', step);
      assert (steps + [step])[1..] == steps[1..] + [step];
    }
  }

  // ---------------------------------------------------------------- what a lane is told

  lemma EntryIs(s: State, n: Nonce)
    requires Reachable(s) && n in s.entries
    ensures EntryOk(s, n)
  {
    ReachableInv(s);
  }

  /**
   What a lane that registers is told, by what the lane behind the entry under its nonce announced:
   nobody there, it reserves; a partner of its group, it waits for the one still building and takes
   the one that is ready; anyone else, it is turned away.
   */
  lemma RegisterExactly(s: State, t: TaskId, now: Instant)
    requires Reachable(s) && Enabled(s, Register(t, now))
    ensures var (h, s') := (Says(s, t), Apply(s, Register(t, now)));
            var (n, p) := (h.nonce, At(s', t));
            if n !in s.entries then
              p.Reserved? && BuildingBy(s', n, t) && s'.entries[n].expires == now + 10_000
            else
              var (e, g) := (s.entries[n], Says(s, s.entries[n].lane.permit));
              if !Partner(h, g) || g.group != h.group then p.Done? && s'.entries == s.entries
              else if e.Building? then p == Waiting(e.lane.permit, e.expires, Awake) && s'.entries == s.entries
              else p == Pairing(e.lane, e.expires) && s'.entries == s.entries - {n}
  {
    hide Reachable;
    if Says(s, t).nonce in s.entries { EntryIs(s, Says(s, t).nonce); }
  }

  /** The same for a waiter that looks: its group no longer counts, and a deadline or a last look may end it. */
  lemma PollWaitExactly(s: State, t: TaskId, now: Instant)
    requires Reachable(s) && Enabled(s, PollWait(t, now))
    ensures var (h, p, s') := (Says(s, t), At(s, t), Apply(s, PollWait(t, now)));
            var (n, q) := (h.nonce, At(s', t));
            if n !in s.entries || !Partner(h, Says(s, s.entries[n].lane.permit)) then q.Done? && s'.entries == s.entries
            else if s.entries[n].Ready? then
              q == Joined(s.entries[n].lane, Some(p.first)) && s'.entries == s.entries - {n}
            else if now >= p.expires || p.mode.Last? then q.Done? && s'.entries == s.entries
            else q == p.(mode := Asleep) && s'.entries == s.entries
  {
    hide Reachable;
    if Says(s, t).nonce in s.entries { EntryIs(s, Says(s, t).nonce); }
  }

  /**
   A lane taken for a pairing that fails goes back into its slot, ready and under its old deadline,
   exactly when the slot is free; otherwise its permit is dropped. The taker ends either way.
   */
  lemma ReinsertExactly(s: State, t: TaskId)
    requires Reachable(s) && Enabled(s, Reinsert(t))
    ensures var (p, n, s') := (At(s, t), Says(s, t).nonce, Apply(s, Reinsert(t)));
            && At(s', t).Done? && t in s'.place && s'.place[t].Dropping? && p.other.permit in s'.place
            && (if n in s.entries then s'.entries == s.entries && s'.place[p.other.permit].Dropping?
                else s'.entries == s.entries[n := Ready(p.other, p.expires)]
                     && s'.place[p.other.permit] == InEntry(n)
                     && p.other.permit in s.deadline && p.expires == s.deadline[p.other.permit])
  {
    hide Reachable;
    ReachableInv(s);
    assert TaskPlaced(s, t) && TaskOk(s, t);
    hide CountOk, PlaceOk, LanesOk, WakeOk;
  }

  // ---------------------------------------------------------------- expiry

  /** The entry stays exactly while its deadline is ahead; otherwise its permit is dropped and its waiters are woken. */
  predicate ExpiresAt(s: State, s': State, n: Nonce, now: Instant)
    requires n in s.entries
  {
    var p := s.entries[n].lane.permit;
    && p in s.place && p in s'.place
    && (n in s'.entries <==> now < s.entries[n].expires)
    && (n in s'.entries ==> s'.entries[n] == s.entries[n] && s'.place[p] == s.place[p])
    && (n !in s'.entries ==> s'.place[p].Dropping? && p in s'.firing)
  }

  /**
   Every entry stays or goes by its own deadline, all other permits stay where they were, and the
   worker next sleeps to a later deadline, if to any.
   */
  ghost predicate ExpiredExactly(s: State, s': State, now: Instant) {
    && s'.entries.Keys <= s.entries.Keys
    && (forall n :: n in s.entries ==> ExpiresAt(s, s', n, now))
    && (forall p :: p in s.place && !s.place[p].InEntry? ==> p in s'.place && s'.place[p] == s.place[p])
    && s'.worker.Fetching? && (forall o :: Earliest(s'.entries, o) ==> o.None? || o.value > now)
  }

  /**
   When the worker expires entries, in any reachable state, those whose deadline has come go, building
   or ready, and no others.
   */
  lemma ExpireExactly(s: State, now: Instant)
    requires Reachable(s) && Enabled(s, Expire(now))
    ensures ExpiredExactly(s, Apply(s, Expire(now)), now)
  {
    hide Reachable, CountOk, PlaceOk, LanesOk, WakeOk, ExpiredExactly, ApplyExpire;
    ReachableInv(s);
    ExpireIs(s, now);
  }

  lemma ExpireIs(s: State, now: Instant)
    requires PlaceOk(s)
    ensures ExpiredExactly(s, ApplyExpire(s, now), now)
  {
    hide PlaceOk, ApplyExpire, ExpiresAt, Earliest;
    var s' := ApplyExpire(s, now);
    forall n | n in s.entries ensures ExpiresAt(s, s', n, now) { OneExpires(s, n, now); }
    forall p | p in s.place && !s.place[p].InEntry? ensures p in s'.place && s'.place[p] == s.place[p] {
      StaysPut(s, p, now);
    }
    NextIsLater(s, now);
  }

  lemma StaysPut(s: State, p: TaskId, now: Instant)
    requires PlaceOk(s) && p in s.place && !s.place[p].InEntry?
    ensures var s' := ApplyExpire(s, now); p in s'.place && s'.place[p] == s.place[p]
  {
    NotDue(s, p, now);
    hide PlaceOk, DuePermits;
  }

  lemma NextIsLater(s: State, now: Instant)
    ensures var s' := ApplyExpire(s, now);
            && s'.entries.Keys <= s.entries.Keys && s'.worker.Fetching?
            && (forall o :: Earliest(s'.entries, o) ==> o.None? || o.value > now)
  {
    hide DuePermits;
  }

  lemma OneExpires(s: State, n: Nonce, now: Instant)
    requires PlaceOk(s) && n in s.entries
    ensures ExpiresAt(s, ApplyExpire(s, now), n, now)
  {
    assert EntryPlaced(s, n);
    PermitIsDue(s, n, now);
    hide PlaceOk, DuePermits;
  }

  lemma PermitIsDue(s: State, n: Nonce, now: Instant)
    requires PlaceOk(s) && n in s.entries
    ensures s.entries[n].lane.permit in DuePermits(s.entries, now) <==> s.entries[n].expires <= now
  {
    var p := s.entries[n].lane.permit;
    if p in DuePermits(s.entries, now) {
      var m :| m in s.entries && s.entries[m].expires <= now && s.entries[m].lane.permit == p;
      assert EntryPlaced(s, n) && EntryPlaced(s, m);
    }
  }

  lemma NotDue(s: State, p: TaskId, now: Instant)
    requires PlaceOk(s) && p in s.place && !s.place[p].InEntry?
    ensures p !in DuePermits(s.entries, now)
  {
    forall m | m in s.entries ensures s.entries[m].lane.permit != p { assert EntryPlaced(s, m); }
  }

  lemma ReachStep(s: State, step: Step) returns (s': State)
    requires Reachable(s) && Enabled(s, step)
    ensures s' == Apply(s, step) && Reachable(s')
  {
    hide Apply, Enabled, Run;
    var steps :| Run(Initial, steps, s);
    RunAppend(Initial, steps, s, step);
    s' := Apply(s, step);
  }
}
