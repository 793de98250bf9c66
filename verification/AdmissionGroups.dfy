/**
 When paired lanes announced the same group. Two comparisons are missing from the registry: a waiter
 takes whatever lane is ready under its nonce, and a lane confirms whatever reservation of its address
 and class it finds. Each theorem says for which announcements that matters.
 */
module AdmissionGroups {
  import opened Options
  import opened Admission
  import opened AdmissionProof
  import opened AdmissionTheorems

  /** A state of a run that accepted only lanes announcing hellos of `H`. */
  ghost predicate ReachableWith(H: iset<Hello>, s: State) {
    Reachable(s) && forall t :: t in s.hello ==> s.hello[t] in H
  }

  // ---------------------------------------------------------------- the wait path

  predicate Waited(p: Phase) {
    p.Joined? && p.waited.Some?
  }

  /** Announcements a reservation, a waiter for it and a later lane can make so that the groups differ. */
  predicate WaitClash(first: Hello, waiter: Hello, later: Hello) {
    && Partner(waiter, first) && Partner(waiter, later)
    && first.group == waiter.group && later.group != waiter.group
  }

  ghost predicate WaitClashFree(H: iset<Hello>) {
    forall f, w, k :: f in H && w in H && k in H ==> !WaitClash(f, w, k)
  }

  /** Every lane a waiter takes was reserved, and built, by a lane of the waiter's group. */
  ghost predicate WaitersMeetTheirGroup(H: iset<Hello>) {
    forall s, t :: ReachableWith(H, s) && Waited(At(s, t)) ==>
      && At(s, t).other.group == Says(s, t).group
      && Says(s, At(s, t).other.transport).group == Says(s, t).group
  }

  lemma WaiterMeetsItsGroup(H: iset<Hello>, s: State, t: TaskId)
    requires WaitClashFree(H) && ReachableWith(H, s) && Waited(At(s, t))
    ensures At(s, t).other.group == Says(s, t).group
    ensures Says(s, At(s, t).other.transport).group == Says(s, t).group
  {
    hide Reachable;
    PairingIsSafe(s, t);
    TaskSpeaks(s, t);
    var (first, other) := (At(s, t).waited.value, At(s, t).other);
    assert !WaitClash(s.hello[first], s.hello[t], s.hello[other.permit]);
    assert !WaitClash(s.hello[first], s.hello[t], s.hello[other.transport]);
  }

  lemma TaskSpeaks(s: State, t: TaskId)
    requires Reachable(s) && !At(s, t).Done?
    ensures t in s.hello
  {
    ReachableInv(s);
  }

  /** The first lane reserves the slot. */
  lemma FirstReserves(f: Hello) returns (s: State)
    ensures Reachable(s) && s.hello == map[1 := f] && s.phase == map[1 := Reserved]
    ensures s.entries == map[f.nonce := Building(Lane(1, 1, f.peer, f.kind, f.group), PAIRING_DEADLINE)]
    ensures s.admitted == 1 && s.perPeer == map[f.peer.ip := 1] && s.worker.Fetching?
  {
    assert Run(Initial, [], Initial);
    hide Reachable;
    s := ReachStep(Initial, Accept(1, f));
    s := ReachStep(s, Register(1, 0));
  }

  /** The second waits for it. */
  lemma SecondBegins(f: Hello, w: Hello) returns (s: State)
    requires Partner(w, f) && f.group == w.group
    ensures Reachable(s) && s.hello == map[1 := f, 2 := w]
    ensures s.entries == map[f.nonce := Building(Lane(1, 1, f.peer, f.kind, f.group), PAIRING_DEADLINE)]
    ensures s.phase == map[1 := Reserved, 2 := Waiting(1, PAIRING_DEADLINE, Awake)]
    ensures s.admitted == 2 && s.perPeer == map[f.peer.ip := 2]
  {
    s := FirstReserves(f);
    hide Reachable;
    s := ReachStep(s, Accept(2, w));
    s := ReachStep(s, Register(2, 0));
  }

  /** Then the first gives the slot up. */
  lemma SecondWaits(f: Hello, w: Hello) returns (s: State)
    requires Partner(w, f) && f.group == w.group
    ensures Reachable(s) && s.hello == map[1 := f, 2 := w] && s.entries == map[]
    ensures s.phase == map[1 := Done, 2 := Waiting(1, PAIRING_DEADLINE, Awake)]
    ensures s.admitted == 2 && s.perPeer == map[f.peer.ip := 2]
  {
    s := SecondBegins(f, w);
    hide Reachable;
    s := ReachStep(s, Cancel(1));
  }

  /** A third lane takes the slot. */
  lemma ThirdReserves(f: Hello, w: Hello, k: Hello) returns (s: State)
    requires WaitClash(f, w, k)
    ensures Reachable(s) && s.hello == map[1 := f, 2 := w, 3 := k]
    ensures s.entries == map[k.nonce := Building(Lane(3, 3, k.peer, k.kind, k.group), PAIRING_DEADLINE)]
    ensures At(s, 2) == Waiting(1, PAIRING_DEADLINE, Awake) && At(s, 3).Reserved?
  {
    s := SecondWaits(f, w);
    hide Reachable;
    s := ReachStep(s, Accept(3, k));
    assert s.hello[3] == k && At(s, 3).Greeting? && s.entries == map[];
    s := ReachStep(s, Register(3, 0));
  }

  /** It is ready before the waiter looks again. */
  lemma ThirdIsReady(f: Hello, w: Hello, k: Hello) returns (s: State)
    requires WaitClash(f, w, k)
    ensures Reachable(s) && s.hello == map[1 := f, 2 := w, 3 := k]
    ensures s.entries == map[k.nonce := Ready(Lane(3, 3, k.peer, k.kind, k.group), PAIRING_DEADLINE)]
    ensures At(s, 2) == Waiting(1, PAIRING_DEADLINE, Awake)
  {
    s := ThirdReserves(f, w, k);
    hide Reachable;
    s := ReachStep(s, Confirm(3));
  }

  /** The waiter is paired with it although their groups differ. */
  lemma WaiterMeetsAnother(f: Hello, w: Hello, k: Hello) returns (s: State)
    requires WaitClash(f, w, k)
    ensures Reachable(s) && s.hello == map[1 := f, 2 := w, 3 := k]
    ensures Waited(At(s, 2)) && At(s, 2).other.group == k.group
  {
    s := ThirdIsReady(f, w, k);
    hide Reachable;
    s := ReachStep(s, PollWait(2, 0));
  }

  /**
   On the wait path, the groups agree in every run over the announcements `H` exactly when `H` holds
   no three announcements that clash.
   */
  lemma WaitPathExactly(H: iset<Hello>)
    ensures WaitersMeetTheirGroup(H) <==> WaitClashFree(H)
  {
    if WaitClashFree(H) {
      forall s, t | ReachableWith(H, s) && Waited(At(s, t))
        ensures At(s, t).other.group == Says(s, t).group
        ensures Says(s, At(s, t).other.transport).group == Says(s, t).group
      {
        WaiterMeetsItsGroup(H, s, t);
      }
    } else {
      var f, w, k :| f in H && w in H && k in H && WaitClash(f, w, k);
      var s := WaiterMeetsAnother(f, w, k);
      hide Reachable;
      assert ReachableWith(H, s) && Says(s, 2) == w;
    }
  }

  // ---------------------------------------------------------------- the direct path

  predicate Direct(p: Phase) {
    p.Pairing? || (p.Joined? && p.waited.None?)
  }

  /** Announcements of a lane whose reservation expired, of the lane that reserved next, and of a taker. */
  predicate ConfirmClash(stale: Hello, owner: Hello, taker: Hello) {
    && stale.peer == owner.peer && stale.kind == owner.kind && stale.nonce == owner.nonce
    && Partner(taker, owner) && owner.group == taker.group && stale.group != taker.group
  }

  ghost predicate ConfirmClashFree(H: iset<Hello>) {
    forall f, k, w :: f in H && k in H && w in H ==> !ConfirmClash(f, k, w)
  }

  /** Every lane taken directly was built by a lane of the taker's group. */
  ghost predicate TakersMeetTheirGroup(H: iset<Hello>) {
    forall s, t :: ReachableWith(H, s) && Direct(At(s, t)) ==>
      Says(s, At(s, t).other.transport).group == Says(s, t).group
  }

  lemma TakerMeetsItsGroup(H: iset<Hello>, s: State, t: TaskId)
    requires ConfirmClashFree(H) && ReachableWith(H, s) && Direct(At(s, t))
    ensures Says(s, At(s, t).other.transport).group == Says(s, t).group
  {
    hide Reachable;
    PairingIsSafe(s, t);
    TaskSpeaks(s, t);
    var other := At(s, t).other;
    assert !ConfirmClash(s.hello[other.transport], s.hello[other.permit], s.hello[t]);
  }

  /** The first lane's reservation expires while it still prepares its transport. */
  lemma ReservationExpires(f: Hello) returns (s: State)
    ensures Reachable(s) && s.hello == map[1 := f] && s.phase == map[1 := Reserved] && s.entries == map[]
    ensures s.admitted == 1 && s.perPeer == map[f.peer.ip := 1]
  {
    s := FirstReserves(f);
    hide Reachable;
    assert f.nonce in s.entries && s.entries[f.nonce].expires == PAIRING_DEADLINE;
    s := ReachStep(s, Fetch(Some(PAIRING_DEADLINE)));
    s := ReachStep(s, Expire(PAIRING_DEADLINE));
  }

  /** It then confirms the reservation the next lane made. */
  lemma StaleConfirms(f: Hello, k: Hello) returns (s: State)
    requires f.peer == k.peer && f.kind == k.kind && f.nonce == k.nonce
    ensures Reachable(s) && s.hello == map[1 := f, 3 := k] && 4 !in s.phase
    ensures s.entries == map[k.nonce := Ready(Lane(3, 1, k.peer, k.kind, k.group), 2 * PAIRING_DEADLINE)]
    ensures s.admitted == 2 && s.perPeer == map[f.peer.ip := 2]
  {
    s := ReservationExpires(f);
    hide Reachable;
    s := ReachStep(s, Accept(3, k));
    s := ReachStep(s, Register(3, PAIRING_DEADLINE));
    s := ReachStep(s, Confirm(1));
  }

  /** A lane of the second one's group takes the first one's transport. */
  lemma TakerMeetsAnother(f: Hello, k: Hello, w: Hello) returns (s: State)
    requires ConfirmClash(f, k, w)
    ensures Reachable(s) && s.hello == map[1 := f, 3 := k, 4 := w]
    ensures At(s, 4).Pairing? && At(s, 4).other.transport == 1
  {
    s := StaleConfirms(f, k);
    hide Reachable;
    s := ReachStep(s, Accept(4, w));
    s := ReachStep(s, Register(4, PAIRING_DEADLINE));
  }

  /**
   On the direct path, the taker and the transport it takes announced one group in every run over the
   announcements `H` exactly when `H` holds no three announcements that clash.
   */
  lemma DirectPathExactly(H: iset<Hello>)
    ensures TakersMeetTheirGroup(H) <==> ConfirmClashFree(H)
  {
    if ConfirmClashFree(H) {
      forall s, t | ReachableWith(H, s) && Direct(At(s, t))
        ensures Says(s, At(s, t).other.transport).group == Says(s, t).group
      {
        TakerMeetsItsGroup(H, s, t);
      }
    } else {
      var f, k, w :| f in H && k in H && w in H && ConfirmClash(f, k, w);
      var s := TakerMeetsAnother(f, k, w);
      hide Reachable;
      assert ReachableWith(H, s) && Says(s, 4) == w && Says(s, 1) == f && Direct(At(s, 4));
    }
  }

  // ---------------------------------------------------------------- concrete runs

  const Peer: Address := Address(1, 1)
  const Early: Hello := Hello(Peer, Interactive, Nonce(7), 1)
  const Late: Hello := Hello(Peer, Interactive, Nonce(7), 2)

  /**
   The wait path can join lanes of different groups: the reservation waited for is cancelled, and
   another lane reserves the slot with another group before the waiter looks again.
   */
  lemma WaiterCanMeetAnotherGroup()
    ensures exists s, t :: Reachable(s) && Waited(At(s, t)) && At(s, t).other.group != Says(s, t).group
  {
    var s := WaiterMeetsAnother(Early, Hello(Peer, Bulk, Nonce(7), 1), Late);
    hide Reachable;
    assert Waited(At(s, 2)) && At(s, 2).other.group != Says(s, 2).group;
  }

  /**
   The direct path can too: a lane whose reservation expired confirms the reservation that a lane of
   another group made since, and its transport goes to a taker of that other group.
   */
  lemma TakerCanMeetAnotherGroup()
    ensures exists s, t ::
              && Reachable(s) && At(s, t).Pairing?
              && Says(s, At(s, t).other.transport).group != Says(s, t).group
  {
    var s := TakerMeetsAnother(Early, Late, Hello(Peer, Bulk, Nonce(7), 2));
    hide Reachable;
    assert At(s, 4).Pairing? && Says(s, At(s, 4).other.transport).group != Says(s, 4).group;
  }

  // ---------------------------------------------------------------- confirming

  /**
   What a confirmation makes. The lane is the confirming task's own reservation exactly when that
   reservation still stands; and transport and reservation announced one group exactly when the
   entry's group is the confirming lane's, which the registry does not compare.
   */
  lemma ConfirmExactly(s: State, t: TaskId)
    requires Reachable(s) && At(s, t).Reserved? && Claims(s.entries, Says(s, t))
    ensures var (n, s') := (Says(s, t).nonce, ApplyConfirm(s, t));
            && n in s'.entries && s'.entries[n].Ready? && s'.entries[n].lane.transport == t
            && (s'.entries[n].lane.permit == t <==> BuildingBy(s, n, t))
            && (Says(s, s'.entries[n].lane.permit).group == Says(s, t).group <==>
                s.entries[n].lane.group == Says(s, t).group)
            && (BuildingBy(s, n, t) ==> s.entries[n].lane.group == Says(s, t).group)
  {
    ReachableInv(s);
    assert EntryOk(s, Says(s, t).nonce);
  }

  // ---------------------------------------------------------------- the awaited reservation

  /** The slot `n` is taken in every state of the run. */
  ghost predicate NeverFree(s: State, steps: seq<Step>, n: Nonce)
    decreases |steps|
  {
    n in s.entries && (steps != [] && Enabled(s, steps[0]) ==> NeverFree(Apply(s, steps[0]), steps[1..], n))
  }

  predicate SameOwner(entries: Entries, entries': Entries, n: Nonce) {
    n in entries && n in entries' ==> entries'[n].lane.permit == entries[n].lane.permit
  }

  lemma RegisterKeepsOwner(s: State, t: TaskId, now: Instant, n: Nonce)
    ensures SameOwner(s.entries, ApplyRegister(s, t, now).entries, n)
  {}

  lemma ClaimKeepsOwner(s: State, t: TaskId, n: Nonce)
    ensures SameOwner(s.entries, ApplyConfirm(s, t).entries, n) && SameOwner(s.entries, ApplyCancel(s, t).entries, n)
  {}

  lemma PairKeepsOwner(s: State, t: TaskId, now: Instant, n: Nonce)
    ensures At(s, t).Waiting? ==> SameOwner(s.entries, ApplyPollWait(s, t, now).entries, n)
    ensures At(s, t).Pairing? ==> SameOwner(s.entries, ApplyReinsert(s, t).entries, n)
  {}

  /** No step replaces a reservation by another without freeing the slot. */
  lemma SlotKeepsOwner(s: State, step: Step, n: Nonce)
    requires Enabled(s, step)
    ensures SameOwner(s.entries, Apply(s, step).entries, n)
  {
    hide ApplyRegister, ApplyConfirm, ApplyCancel, ApplyPollWait, ApplyReinsert, Earliest;
    match step {
      case Register(t, now) => RegisterKeepsOwner(s, t, now, n);
      case Confirm(t) => ClaimKeepsOwner(s, t, n);
      case Cancel(t) => ClaimKeepsOwner(s, t, n);
      case PollWait(t, now) => PairKeepsOwner(s, t, now, n);
      case Reinsert(t) => PairKeepsOwner(s, t, 0, n);
      case _ =>
    }
  }

  /** The task has left the phases before a wait. */
  predicate Past(p: Phase) {
    !p.Greeting? && !p.Waiting?
  }

  /** What one step can make of a task that waits, or that no longer does. */
  predicate Moves(p: Phase, q: Phase) {
    && (Past(p) ==> Past(q))
    && (p.Waiting? ==> Past(q) || (q.Waiting? && q.first == p.first))
  }

  lemma RegisterMoves(s: State, u: TaskId, now: Instant, t: TaskId)
    requires At(s, u).Greeting?
    ensures Moves(At(s, t), At(ApplyRegister(s, u, now), t))
  {}

  lemma ClaimMoves(s: State, u: TaskId, t: TaskId)
    requires At(s, u).Reserved?
    ensures Moves(At(s, t), At(ApplyConfirm(s, u), t)) && Moves(At(s, t), At(ApplyCancel(s, u), t))
  {}

  lemma PairMoves(s: State, u: TaskId, now: Instant, t: TaskId)
    ensures At(s, u).Waiting? ==> Moves(At(s, t), At(ApplyPollWait(s, u, now), t))
    ensures At(s, u).Pairing? ==> Moves(At(s, t), At(ApplyReinsert(s, u), t))
  {}

  lemma StepMoves(s: State, step: Step, t: TaskId)
    requires Enabled(s, step) && t in s.hello
    ensures Moves(At(s, t), At(Apply(s, step), t))
  {
    hide ApplyRegister, ApplyConfirm, ApplyCancel, ApplyPollWait, ApplyReinsert, Earliest;
    match step {
      case Register(u, now) => RegisterMoves(s, u, now, t);
      case Confirm(u) => ClaimMoves(s, u, t);
      case Cancel(u) => ClaimMoves(s, u, t);
      case PollWait(u, now) => PairMoves(s, u, now, t);
      case Reinsert(u) => PairMoves(s, u, 0, t);
      case _ =>
    }
  }

  /** What a lane announced stays what it announced. */
  lemma StepSpeaks(s: State, step: Step, t: TaskId)
    requires Enabled(s, step) && t in s.hello
    ensures t in Apply(s, step).hello && Says(Apply(s, step), t) == Says(s, t)
  {
    hide ApplyRegister, ApplyConfirm, ApplyCancel, ApplyPollWait, ApplyReinsert, Earliest;
    match step {
      case Register(u, now) => RegisterSpeaks(s, u, now);
      case Confirm(u) => ClaimSpeaks(s, u);
      case Cancel(u) => ClaimSpeaks(s, u);
      case PollWait(u, now) => PairSpeaks(s, u, now);
      case Reinsert(u) => PairSpeaks(s, u, 0);
      case _ =>
    }
  }

  lemma RegisterSpeaks(s: State, u: TaskId, now: Instant)
    ensures ApplyRegister(s, u, now).hello == s.hello
  {}

  lemma ClaimSpeaks(s: State, u: TaskId)
    ensures ApplyConfirm(s, u).hello == s.hello && ApplyCancel(s, u).hello == s.hello
  {}

  lemma PairSpeaks(s: State, u: TaskId, now: Instant)
    ensures At(s, u).Waiting? ==> ApplyPollWait(s, u, now).hello == s.hello
    ensures At(s, u).Pairing? ==> ApplyReinsert(s, u).hello == s.hello
  {}

  lemma {:induction false} PastForEver(s: State, steps: seq<Step>, s': State, t: TaskId)
    requires Run(s, steps, s') && t in s.hello && Past(At(s, t))
    ensures Past(At(s', t))
    decreases |steps|
  {
    hide Apply, Enabled;
    if steps != [] {
      StepMoves(s, steps[0], t);
      StepSpeaks(s, steps[0], t);
      PastForEver(Apply(s, steps[0]), steps[1..], s', t);
    }
  }

  lemma {:induction false} StillAwaited(s: State, steps: seq<Step>, s': State, t: TaskId)
    requires Run(s, steps, s') && t in s.hello && At(s, t).Waiting? && At(s', t).Waiting?
    requires NeverFree(s, steps, Says(s, t).nonce)
    ensures var n := Says(s, t).nonce;
            && Says(s', t) == Says(s, t) && At(s', t).first == At(s, t).first
            && n in s'.entries && s'.entries[n].lane.permit == s.entries[n].lane.permit
    decreases |steps|
  {
    hide Apply, Enabled;
    if steps != [] {
      var s1 := Apply(s, steps[0]);
      StepMoves(s, steps[0], t);
      StepSpeaks(s, steps[0], t);
      SlotKeepsOwner(s, steps[0], Says(s, t).nonce);
      if Past(At(s1, t)) { PastForEver(s1, steps[1..], s', t); }
      else { StillAwaited(s1, steps[1..], s', t); }
    }
  }

  lemma AwaitedIsPaired(s: State, steps: seq<Step>, s': State, t: TaskId, now: Instant)
    requires Inv(s) && Run(s, steps, s') && t in s.hello && At(s, t).Waiting?
    requires BuildingBy(s, Says(s, t).nonce, At(s, t).first) && NeverFree(s, steps, Says(s, t).nonce)
    requires Enabled(s', PollWait(t, now))
    ensures var q := At(Apply(s', PollWait(t, now)), t);
            Waited(q) ==> q.other.permit == At(s, t).first && q.other.group == Says(s, t).group
  {
    hide NeverFree, Run, Inv, Apply;
    StillAwaited(s, steps, s', t);
    RunInv(s, steps, s');
    PairedWithOwner(s', t, now);
  }

  /** A waiter that is paired gets the lane in the slot, and the groups agree if it waited for that lane. */
  lemma PairedWithOwner(s: State, t: TaskId, now: Instant)
    requires Inv(s) && Enabled(s, PollWait(t, now)) && Says(s, t).nonce in s.entries
    ensures var (q, owner) := (At(Apply(s, PollWait(t, now)), t), s.entries[Says(s, t).nonce].lane.permit);
            Waited(q) ==> q.other.permit == owner && (owner == At(s, t).first ==> q.other.group == Says(s, t).group)
  {
    assert EntryOk(s, Says(s, t).nonce) && TaskOk(s, t);
    hide CountOk, PlaceOk, LanesOk, WakeOk;
  }

  /** A lane told to wait waits for the reservation under its nonce. */
  lemma WaitBegins(s: State, t: TaskId, now: Instant)
    requires Inv(s) && At(s, t).Greeting? && Admit(s.entries, Says(s, t)).Wait?
    ensures var s' := ApplyRegister(s, t, now);
            && Inv(s') && t in s'.hello && Says(s', t) == Says(s, t)
            && At(s', t).Waiting? && BuildingBy(s', Says(s, t).nonce, At(s', t).first)
            && At(s', t).first == Admit(s.entries, Says(s, t)).first
  {
    RegisterInv(s, t, now);
    assert t in s.phase;
  }

  /**
   A lane registers and is told to wait; a run follows; then the lane looks. If the slot under its
   nonce was never free in between, the lane it gets is the reservation it was told to wait for, and
   the groups agree.
   */
  lemma AwaitedReservationIsTaken(s: State, t: TaskId, since: Instant, steps: seq<Step>, s': State, now: Instant)
    requires Reachable(s) && At(s, t).Greeting? && Admit(s.entries, Says(s, t)).Wait?
    requires Run(Apply(s, Register(t, since)), steps, s')
    requires NeverFree(Apply(s, Register(t, since)), steps, Says(s, t).nonce)
    requires Enabled(s', PollWait(t, now))
    ensures var q := At(Apply(s', PollWait(t, now)), t);
            Waited(q) ==> q.other.permit == Admit(s.entries, Says(s, t)).first && q.other.group == Says(s, t).group
  {
    hide Reachable, NeverFree, Run, Inv;
    ReachableInv(s);
    WaitBegins(s, t, since);
    AwaitedIsPaired(Apply(s, Register(t, since)), steps, s', t, now);
  }
}
