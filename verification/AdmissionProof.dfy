/** What every step of lane admission keeps, and what a run of it therefore promises. */
module AdmissionProof {
  import opened Options
  import opened Admission

  // ---------------------------------------------------------------- permits

  /** The outstanding permits of one address. */
  function Of(permits: set<TaskId>, hello: map<TaskId, Hello>, ip: Ip): set<TaskId> {
    set t | t in permits && t in hello && hello[t].peer.ip == ip
  }

  predicate PeerCounted(permits: set<TaskId>, hello: map<TaskId, Hello>, perPeer: map<Ip, int>, ip: Ip) {
    && Count(perPeer, ip) == |Of(permits, hello, ip)|
    && (ip in perPeer ==> perPeer[ip] > 0)
    && Count(perPeer, ip) <= MAX_PENDING_LANES_PER_PEER
  }

  /** The counters count the outstanding permits. */
  ghost predicate CountOk(s: State) {
    && s.place.Keys <= s.hello.Keys
    && s.admitted == |s.place.Keys| <= MAX_PENDING_LANES
    && forall ip :: PeerCounted(s.place.Keys, s.hello, s.perPeer, ip)
  }

  /** A permit is where `place` says it is. */
  predicate PermitOk(s: State, t: TaskId)
    requires t in s.place
  {
    match s.place[t]
    case Own => HoldsOwn(At(s, t))
    case InEntry(n) => n in s.entries && s.entries[n].lane.permit == t
    case With(u) => HoldsOther(At(s, u)) && At(s, u).other.permit == t
    case Dropping => true
  }

  predicate EntryPlaced(s: State, n: Nonce)
    requires n in s.entries
  {
    var t := s.entries[n].lane.permit;
    t in s.place && s.place[t] == InEntry(n)
  }

  predicate TaskPlaced(s: State, t: TaskId) {
    && (HoldsOwn(At(s, t)) ==> t in s.place && s.place[t] == Own)
    && (HoldsOther(At(s, t)) ==> At(s, t).other.permit in s.place && s.place[At(s, t).other.permit] == With(t))
  }

  /** Every outstanding permit is in exactly one place, and every place that owns a permit owns its own. */
  ghost predicate PlaceOk(s: State) {
    && s.phase.Keys == s.hello.Keys
    && (forall t :: t in s.place ==> PermitOk(s, t))
    && (forall n :: n in s.entries ==> EntryPlaced(s, n))
    && (forall t :: TaskPlaced(s, t))
  }

  // ---------------------------------------------------------------- lanes

  /** A lane carries what the tasks behind its permit and its transport said. */
  predicate LaneOk(s: State, n: Nonce, lane: Lane) {
    && lane.permit in s.hello && lane.transport in s.hello && lane.permit in s.deadline
    && s.hello[lane.permit] == Hello(lane.peer, lane.kind, n, lane.group)
    && s.hello[lane.transport].(group := lane.group) == Hello(lane.peer, lane.kind, n, lane.group)
  }

  predicate EntryOk(s: State, n: Nonce)
    requires n in s.entries
  {
    var e := s.entries[n];
    LaneOk(s, n, e.lane) && e.expires == s.deadline[e.lane.permit]
  }

  /** `lane` may be joined to the lane of `h`. */
  predicate Fits(s: State, h: Hello, lane: Lane) {
    LaneOk(s, h.nonce, lane) && lane.peer.ip == h.peer.ip && lane.kind != h.kind
  }

  /** `first` announced a reservation that the lane of `h` may wait for. */
  predicate Agrees(s: State, h: Hello, first: TaskId) {
    && first in s.hello && s.hello[first].group == h.group && s.hello[first].nonce == h.nonce
    && s.hello[first].peer.ip == h.peer.ip && s.hello[first].kind != h.kind
  }

  predicate TaskOk(s: State, t: TaskId) {
    var h := Says(s, t);
    match At(s, t)
    case Waiting(first, expires, _) =>
      Agrees(s, h, first) && first in s.deadline && expires == s.deadline[first]
    case Pairing(other, expires) =>
      Fits(s, h, other) && other.group == h.group && expires == s.deadline[other.permit]
    case Joined(other, waited) =>
      && Fits(s, h, other)
      && (waited.None? ==> other.group == h.group)
      && (waited.Some? ==> Agrees(s, h, waited.value))
    case _ => true
  }

  ghost predicate LanesOk(s: State) {
    && (forall n :: n in s.entries ==> EntryOk(s, n))
    && (forall t :: TaskOk(s, t))
    && s.deadline.Keys <= s.hello.Keys
    && (forall t :: At(s, t).Greeting? ==> t !in s.deadline)
  }

  // ---------------------------------------------------------------- wake-ups

  /** The worker sleeps no further than the earliest deadline, or a notification is stored or due. */
  ghost predicate WorkerOk(s: State) {
    s.worker.Sleeping? ==>
      || s.token
      || s.owed > 0
      || (match s.worker.until
          case None => s.entries == map[]
          case Some(d) => forall n :: n in s.entries ==> d <= s.entries[n].expires)
  }

  predicate BuildingBy(s: State, n: Nonce, t: TaskId) {
    n in s.entries && s.entries[n].Building? && s.entries[n].lane.permit == t
  }

  /** The reservation a waiter waits for is still building, or its wake-up has come or is due. */
  predicate WaiterOk(s: State, t: TaskId) {
    At(s, t).Waiting? ==>
      var first := At(s, t).first;
      first in s.firing || first in s.fired || BuildingBy(s, Says(s, t).nonce, first)
  }

  ghost predicate WakeOk(s: State) {
    WorkerOk(s) && forall t :: WaiterOk(s, t)
  }

  ghost predicate Inv(s: State) {
    CountOk(s) && PlaceOk(s) && LanesOk(s) && WakeOk(s)
  }

  // ---------------------------------------------------------------- counting

  lemma CountsKept(s: State, s': State)
    requires CountOk(s)
    requires s'.place.Keys == s.place.Keys && s'.hello == s.hello
    requires s'.admitted == s.admitted && s'.perPeer == s.perPeer
    ensures CountOk(s')
  {
    forall ip ensures PeerCounted(s'.place.Keys, s'.hello, s'.perPeer, ip) {
      assert PeerCounted(s.place.Keys, s.hello, s.perPeer, ip);
    }
  }

  lemma PeerAdmitted(permits: set<TaskId>, hello: map<TaskId, Hello>, perPeer: map<Ip, int>, t: TaskId, h: Hello,
                     ip: Ip)
    requires t !in hello && Count(perPeer, h.peer.ip) < MAX_PENDING_LANES_PER_PEER
    requires PeerCounted(permits, hello, perPeer, ip)
    ensures PeerCounted(permits + {t}, hello[t := h], perPeer[h.peer.ip := Count(perPeer, h.peer.ip) + 1], ip)
  {
    var was := Of(permits, hello, ip);
    assert Of(permits + {t}, hello[t := h], ip) == if ip == h.peer.ip then was + {t} else was;
  }

  lemma AcceptCounts(s: State, t: TaskId, h: Hello)
    requires CountOk(s) && Enabled(s, Accept(t, h))
    ensures CountOk(Apply(s, Accept(t, h)))
  {
    var s' := Apply(s, Accept(t, h));
    assert s'.place.Keys == s.place.Keys + {t};
    forall ip ensures PeerCounted(s'.place.Keys, s'.hello, s'.perPeer, ip) {
      assert PeerCounted(s.place.Keys, s.hello, s.perPeer, ip);
      PeerAdmitted(s.place.Keys, s.hello, s.perPeer, t, h, ip);
    }
  }

  lemma PeerReleased(permits: set<TaskId>, hello: map<TaskId, Hello>, perPeer: map<Ip, int>, t: TaskId, ip: Ip)
    requires t in permits && t in hello
    requires PeerCounted(permits, hello, perPeer, ip) && PeerCounted(permits, hello, perPeer, hello[t].peer.ip)
    ensures PeerCounted(permits - {t}, hello, Released(perPeer, hello[t].peer.ip), ip)
    ensures Count(perPeer, hello[t].peer.ip) >= 1
  {
    var mine := hello[t].peer.ip;
    assert t in Of(permits, hello, mine);
    var was := Of(permits, hello, ip);
    assert Of(permits - {t}, hello, ip) == if ip == mine then was - {t} else was;
  }

  lemma DropCounts(s: State, t: TaskId)
    requires CountOk(s) && t in s.place
    ensures CountOk(s.(place := s.place - {t}, admitted := s.admitted - 1,
                       perPeer := Released(s.perPeer, Says(s, t).peer.ip)))
    ensures s.admitted >= 1 && Count(s.perPeer, Says(s, t).peer.ip) >= 1
  {
    var permits := s.place.Keys;
    assert (s.place - {t}).Keys == permits - {t};
    assert PeerCounted(permits, s.hello, s.perPeer, s.hello[t].peer.ip);
    forall ip ensures PeerCounted(permits - {t}, s.hello, Released(s.perPeer, s.hello[t].peer.ip), ip) {
      assert PeerCounted(permits, s.hello, s.perPeer, ip);
      PeerReleased(permits, s.hello, s.perPeer, t, ip);
    }
  }

  // ---------------------------------------------------------------- a task ends

  lemma EndedPlaces(s: State, t: TaskId)
    requires PlaceOk(s) && t in s.phase
    ensures PlaceOk(Ended(s, t)) && Ended(s, t).place.Keys == s.place.Keys
  {
    var s' := Ended(s, t);
    assert TaskPlaced(s, t);
    forall u | u in s'.place ensures PermitOk(s', u) { assert PermitOk(s, u); }
    forall n | n in s'.entries ensures EntryPlaced(s', n) { assert EntryPlaced(s, n); }
    forall u ensures TaskPlaced(s', u) { assert TaskPlaced(s, u); }
  }

  /** Only the phase and the place of a permit change: nothing a lane's description depends on. */
  lemma EndedLanes(s: State, t: TaskId)
    requires LanesOk(s) && WakeOk(s) && t in s.phase
    ensures LanesOk(Ended(s, t)) && WakeOk(Ended(s, t))
  {
    var s' := Ended(s, t);
    forall n | n in s'.entries ensures EntryOk(s', n) { assert EntryOk(s, n); }
    forall u ensures TaskOk(s', u) { assert TaskOk(s, u); }
    forall u ensures WaiterOk(s', u) { assert WaiterOk(s, u); }
  }

  lemma EndedInv(s: State, t: TaskId)
    requires Inv(s) && t in s.phase
    ensures Inv(Ended(s, t))
  {
    hide CountOk, PlaceOk, LanesOk, WakeOk;
    EndedPlaces(s, t);
    EndedLanes(s, t);
    CountsKept(s, Ended(s, t));
  }

  // ---------------------------------------------------------------- a lane is taken

  lemma TakenPlaces(s: State, t: TaskId, p: Phase)
    requires PlaceOk(s) && t in s.phase && Says(s, t).nonce in s.entries
    requires HoldsOwn(At(s, t)) && !HoldsOther(At(s, t)) && HoldsOther(p)
    requires p.other == s.entries[Says(s, t).nonce].lane
    ensures var s' := Taken(s, t, p.other, p); PlaceOk(s') && s'.place.Keys == s.place.Keys
  {
    var s' := Taken(s, t, p.other, p);
    var n := Says(s, t).nonce;
    assert EntryPlaced(s, n) && TaskPlaced(s, t);
    assert s'.place.Keys == s.place.Keys;
    forall u | u in s'.place ensures PermitOk(s', u) { assert PermitOk(s, u); }
    forall m | m in s'.entries ensures EntryPlaced(s', m) { assert EntryPlaced(s, m); }
    forall u ensures TaskPlaced(s', u) { assert TaskPlaced(s, u); }
  }

  lemma TakenLanes(s: State, t: TaskId, p: Phase)
    requires LanesOk(s) && WakeOk(s) && t in s.phase && HoldsOther(p)
    requires Says(s, t).nonce in s.entries && s.entries[Says(s, t).nonce].Ready?
    requires TaskOk(s.(phase := s.phase[t := p]), t)
    ensures LanesOk(Taken(s, t, p.other, p)) && WakeOk(Taken(s, t, p.other, p))
  {
    var s' := Taken(s, t, p.other, p);
    forall m | m in s'.entries ensures EntryOk(s', m) { assert EntryOk(s, m); }
    forall u ensures TaskOk(s', u) { assert TaskOk(s, u); }
    forall u ensures WaiterOk(s', u) { assert WaiterOk(s, u); }
  }

  lemma TakenInv(s: State, t: TaskId, p: Phase)
    requires Inv(s) && t in s.phase
    requires Says(s, t).nonce in s.entries && s.entries[Says(s, t).nonce].Ready?
    requires HoldsOwn(At(s, t)) && !HoldsOther(At(s, t)) && HoldsOther(p)
    requires p.other == s.entries[Says(s, t).nonce].lane
    requires TaskOk(s.(phase := s.phase[t := p]), t)
    ensures Inv(Taken(s, t, p.other, p))
  {
    hide CountOk, PlaceOk, LanesOk, WakeOk, TaskOk;
    TakenPlaces(s, t, p);
    TakenLanes(s, t, p);
    CountsKept(s, Taken(s, t, p.other, p));
  }

  // ---------------------------------------------------------------- registering

  lemma ReservePlaces(s: State, t: TaskId, now: Instant)
    requires PlaceOk(s) && At(s, t).Greeting? && Says(s, t).nonce !in s.entries
    ensures var s' := ApplyRegister(s, t, now); PlaceOk(s') && s'.place.Keys == s.place.Keys
  {
    var s' := ApplyRegister(s, t, now);
    assert TaskPlaced(s, t);
    assert s'.place.Keys == s.place.Keys;
    forall u | u in s'.place ensures PermitOk(s', u) { assert PermitOk(s, u); }
    forall m | m in s'.entries ensures EntryPlaced(s', m) { if m in s.entries { assert EntryPlaced(s, m); } }
    forall u ensures TaskPlaced(s', u) { assert TaskPlaced(s, u); }
  }

  lemma ReserveLanes(s: State, t: TaskId, now: Instant)
    requires PlaceOk(s) && LanesOk(s) && WakeOk(s) && At(s, t).Greeting? && Says(s, t).nonce !in s.entries
    ensures LanesOk(ApplyRegister(s, t, now)) && WakeOk(ApplyRegister(s, t, now))
  {
    var s' := ApplyRegister(s, t, now);
    forall m | m in s'.entries ensures EntryOk(s', m) { if m in s.entries { assert EntryOk(s, m); } }
    forall u ensures TaskOk(s', u) { assert TaskOk(s, u); }
    forall u ensures WaiterOk(s', u) { assert WaiterOk(s, u); }
  }

  lemma WaitInv(s: State, t: TaskId, p: Phase)
    requires Inv(s) && (At(s, t).Greeting? || At(s, t).Waiting?)
    requires p.Waiting? && TaskOk(s.(phase := s.phase[t := p]), t) && WaiterOk(s.(phase := s.phase[t := p]), t)
    ensures Inv(s.(phase := s.phase[t := p]))
  {
    var s' := s.(phase := s.phase[t := p]);
    assert TaskPlaced(s, t);
    assert PlaceOk(s') by {
      forall u | u in s'.place ensures PermitOk(s', u) { assert PermitOk(s, u); }
      forall m | m in s'.entries ensures EntryPlaced(s', m) { assert EntryPlaced(s, m); }
      forall u ensures TaskPlaced(s', u) { assert TaskPlaced(s, u); }
    }
    assert LanesOk(s') by {
      forall m | m in s'.entries ensures EntryOk(s', m) { assert EntryOk(s, m); }
      forall u ensures TaskOk(s', u) { assert TaskOk(s, u); }
    }
    assert WakeOk(s') by {
      forall u ensures WaiterOk(s', u) { assert WaiterOk(s, u); }
    }
    CountsKept(s, s');
  }

  lemma RegisterInv(s: State, t: TaskId, now: Instant)
    requires Inv(s) && At(s, t).Greeting?
    ensures Inv(ApplyRegister(s, t, now))
  {
    hide CountOk, PlaceOk, LanesOk, WakeOk;
    match Admit(s.entries, Says(s, t))
    case Reserve =>
      ReservePlaces(s, t, now);
      ReserveLanes(s, t, now);
      CountsKept(s, ApplyRegister(s, t, now));
    case Wait(_, _) => RegisterWaits(s, t, now); hide ApplyRegister;
    case Pair(_, _) => RegisterPairs(s, t, now); hide ApplyRegister;
    case Reject(_) => EndedInv(s, t);
  }

  lemma RegisterWaits(s: State, t: TaskId, now: Instant)
    requires Inv(s) && At(s, t).Greeting? && Admit(s.entries, Says(s, t)).Wait?
    ensures Inv(ApplyRegister(s, t, now))
  {
    var a := Admit(s.entries, Says(s, t));
    assert EntryOk(s, Says(s, t).nonce);
    hide CountOk, PlaceOk, LanesOk, WakeOk;
    WaitInv(s, t, Waiting(a.first, a.expires, Awake));
  }

  lemma RegisterPairs(s: State, t: TaskId, now: Instant)
    requires Inv(s) && At(s, t).Greeting? && Admit(s.entries, Says(s, t)).Pair?
    ensures Inv(ApplyRegister(s, t, now))
  {
    var a := Admit(s.entries, Says(s, t));
    assert EntryOk(s, Says(s, t).nonce);
    hide CountOk, PlaceOk, LanesOk, WakeOk;
    TakenInv(s, t, Pairing(a.lane, a.expires));
  }

  lemma PollWaitInv(s: State, t: TaskId, now: Instant)
    requires Inv(s) && Enabled(s, PollWait(t, now))
    ensures Inv(ApplyPollWait(s, t, now))
  {
    var p := At(s, t);
    var h := Says(s, t);
    assert TaskOk(s, t) && WaiterOk(s, t);
    assert h.nonce in s.entries ==> EntryOk(s, h.nonce);
    hide CountOk, PlaceOk, LanesOk, WakeOk;
    match PollPair(s.entries, h, p.expires, now)
    case Paired(lane) => TakenInv(s, t, Joined(lane, Some(p.first)));
    case StillBuilding => if p.mode.Last? { EndedInv(s, t); } else { WaitInv(s, t, p.(mode := Asleep)); }
    case _ => EndedInv(s, t);
  }

  // ---------------------------------------------------------------- confirming, cancelling, restoring

  lemma ConfirmPlaces(s: State, t: TaskId)
    requires PlaceOk(s) && At(s, t).Reserved? && Claims(s.entries, Says(s, t))
    ensures PlaceOk(ApplyConfirm(s, t))
  {
    var s' := ApplyConfirm(s, t);
    forall u | u in s'.place ensures PermitOk(s', u) { assert PermitOk(s, u); }
    forall m | m in s'.entries ensures EntryPlaced(s', m) { assert EntryPlaced(s, m); }
    forall u ensures TaskPlaced(s', u) { assert TaskPlaced(s, u); }
  }

  lemma ConfirmLanes(s: State, t: TaskId)
    requires PlaceOk(s) && LanesOk(s) && WakeOk(s) && At(s, t).Reserved? && Claims(s.entries, Says(s, t))
    ensures LanesOk(ApplyConfirm(s, t)) && WakeOk(ApplyConfirm(s, t))
  {
    var s' := ApplyConfirm(s, t);
    forall m | m in s'.entries ensures EntryOk(s', m) { assert EntryOk(s, m); }
    forall u ensures TaskOk(s', u) { assert TaskOk(s, u); }
    forall u ensures WaiterOk(s', u) { assert WaiterOk(s, u); }
  }

  lemma CancelPlaces(s: State, t: TaskId)
    requires PlaceOk(s) && At(s, t).Reserved? && Claims(s.entries, Says(s, t))
    ensures PlaceOk(ApplyCancel(s, t)) && ApplyCancel(s, t).place.Keys == s.place.Keys
  {
    var s' := ApplyCancel(s, t);
    assert EntryPlaced(s, Says(s, t).nonce);
    forall u | u in s'.place ensures PermitOk(s', u) { assert PermitOk(s, u); }
    forall m | m in s'.entries ensures EntryPlaced(s', m) { assert EntryPlaced(s, m); }
    forall u ensures TaskPlaced(s', u) { assert TaskPlaced(s, u); }
  }

  lemma CancelLanes(s: State, t: TaskId)
    requires LanesOk(s) && WakeOk(s) && At(s, t).Reserved? && Claims(s.entries, Says(s, t))
    ensures LanesOk(ApplyCancel(s, t)) && WakeOk(ApplyCancel(s, t))
  {
    var s' := ApplyCancel(s, t);
    forall m | m in s'.entries ensures EntryOk(s', m) { assert EntryOk(s, m); }
    forall u ensures TaskOk(s', u) { assert TaskOk(s, u); }
    forall u ensures WaiterOk(s', u) { assert WaiterOk(s, u); }
  }

  lemma ClaimInv(s: State, t: TaskId)
    requires Inv(s) && At(s, t).Reserved?
    ensures Inv(ApplyConfirm(s, t)) && Inv(ApplyCancel(s, t))
  {
    hide CountOk, PlaceOk, LanesOk, WakeOk;
    if Claims(s.entries, Says(s, t)) {
      ConfirmPlaces(s, t);
      ConfirmLanes(s, t);
      CountsKept(s, ApplyConfirm(s, t));
      CancelPlaces(s, t);
      CancelLanes(s, t);
      CountsKept(s, ApplyCancel(s, t));
    } else {
      EndedInv(s, t);
    }
  }

  lemma ReinsertPlaces(s: State, t: TaskId)
    requires PlaceOk(s) && At(s, t).Pairing? && Says(s, t).nonce !in s.entries
    ensures PlaceOk(ApplyReinsert(s, t)) && ApplyReinsert(s, t).place.Keys == s.place.Keys
  {
    var s' := ApplyReinsert(s, t);
    assert TaskPlaced(s, t);
    assert s'.place.Keys == s.place.Keys;
    forall u | u in s'.place ensures PermitOk(s', u) { assert PermitOk(s, u); }
    forall m | m in s'.entries ensures EntryPlaced(s', m) { if m in s.entries { assert EntryPlaced(s, m); } }
    forall u ensures TaskPlaced(s', u) { assert TaskPlaced(s, u); }
  }

  lemma ReinsertLanes(s: State, t: TaskId)
    requires LanesOk(s) && WakeOk(s) && At(s, t).Pairing? && Says(s, t).nonce !in s.entries
    ensures LanesOk(ApplyReinsert(s, t)) && WakeOk(ApplyReinsert(s, t))
  {
    var s' := ApplyReinsert(s, t);
    assert TaskOk(s, t);
    forall m | m in s'.entries ensures EntryOk(s', m) { if m in s.entries { assert EntryOk(s, m); } }
    forall u ensures TaskOk(s', u) { assert TaskOk(s, u); }
    forall u ensures WaiterOk(s', u) { assert WaiterOk(s, u); }
  }

  lemma ReinsertInv(s: State, t: TaskId)
    requires Inv(s) && At(s, t).Pairing?
    ensures Inv(ApplyReinsert(s, t))
  {
    hide CountOk, PlaceOk, LanesOk, WakeOk;
    if Says(s, t).nonce in s.entries {
      EndedInv(s, t);
    } else {
      ReinsertPlaces(s, t);
      ReinsertLanes(s, t);
      CountsKept(s, ApplyReinsert(s, t));
    }
  }

  // ---------------------------------------------------------------- expiry

  lemma ExpirePlaces(s: State, now: Instant)
    requires PlaceOk(s)
    ensures PlaceOk(ApplyExpire(s, now)) && ApplyExpire(s, now).place.Keys == s.place.Keys
  {
    var s' := ApplyExpire(s, now);
    var due := DuePermits(s.entries, now);
    assert s'.place.Keys == s.place.Keys;
    forall u | u in due ensures u in s.place && s.place[u].InEntry? && s.place[u].nonce !in s'.entries {
      var n :| n in s.entries && Due(s.entries[n], now) && s.entries[n].lane.permit == u;
      assert EntryPlaced(s, n);
    }
    forall u | u in s'.place ensures PermitOk(s', u) { assert PermitOk(s, u); }
    forall m | m in s'.entries ensures EntryPlaced(s', m) { assert EntryPlaced(s, m); }
    forall u ensures TaskPlaced(s', u) { assert TaskPlaced(s, u); }
  }

  lemma ExpireLanes(s: State, now: Instant)
    requires LanesOk(s) && WakeOk(s)
    ensures LanesOk(ApplyExpire(s, now)) && WakeOk(ApplyExpire(s, now))
  {
    var s' := ApplyExpire(s, now);
    forall m | m in s'.entries ensures EntryOk(s', m) { assert EntryOk(s, m); }
    forall u ensures TaskOk(s', u) { assert TaskOk(s, u); }
    forall u ensures WaiterOk(s', u) {
      assert WaiterOk(s, u);
      var n := Says(s, u).nonce;
      if n in s.entries && Due(s.entries[n], now) { assert s.entries[n].lane.permit in DuePermits(s.entries, now); }
    }
  }

  // ---------------------------------------------------------------- the other steps

  lemma AcceptInv(s: State, t: TaskId, h: Hello)
    requires Inv(s) && Enabled(s, Accept(t, h))
    ensures Inv(Apply(s, Accept(t, h)))
  {
    var s' := Apply(s, Accept(t, h));
    AcceptCounts(s, t, h);
    hide CountOk;
    assert t !in s.place;
    assert PlaceOk(s') by {
      forall u | u in s'.place ensures PermitOk(s', u) { if u in s.place { assert PermitOk(s, u); } }
      forall m | m in s'.entries ensures EntryPlaced(s', m) { assert EntryPlaced(s, m); }
      forall u ensures TaskPlaced(s', u) { assert TaskPlaced(s, u); }
    }
    assert LanesOk(s') && WakeOk(s') by { AcceptLanes(s, t, h); }
  }

  lemma AcceptLanes(s: State, t: TaskId, h: Hello)
    requires PlaceOk(s) && LanesOk(s) && WakeOk(s) && Enabled(s, Accept(t, h))
    ensures LanesOk(Apply(s, Accept(t, h))) && WakeOk(Apply(s, Accept(t, h)))
  {
    var s' := Apply(s, Accept(t, h));
    forall m | m in s'.entries ensures EntryOk(s', m) { assert EntryOk(s, m); }
    forall u ensures TaskOk(s', u) { assert TaskOk(s, u); }
    forall u ensures WaiterOk(s', u) { assert WaiterOk(s, u); }
  }

  lemma DropInv(s: State, t: TaskId)
    requires Inv(s) && Enabled(s, DropPermit(t))
    ensures Inv(Apply(s, DropPermit(t)))
  {
    DropCounts(s, t);
    DropPlaces(s, t);
    hide CountOk, PlaceOk, LanesOk;
    QuietLanes(s, Apply(s, DropPermit(t)));
  }

  lemma DropPlaces(s: State, t: TaskId)
    requires PlaceOk(s) && Enabled(s, DropPermit(t))
    ensures PlaceOk(Apply(s, DropPermit(t)))
  {
    var s' := Apply(s, DropPermit(t));
    forall u | u in s'.place ensures PermitOk(s', u) { assert PermitOk(s, u); }
    forall m | m in s'.entries ensures EntryPlaced(s', m) { assert EntryPlaced(s, m); }
    forall u ensures TaskPlaced(s', u) { assert TaskPlaced(s, u); }
  }

  /** Counters, permits and notifications are no part of a lane's description. */
  lemma QuietLanes(s: State, s': State)
    requires LanesOk(s) && (forall t :: WaiterOk(s, t)) && WorkerOk(s')
    requires s'.hello == s.hello && s'.phase == s.phase && s'.entries == s.entries && s'.deadline == s.deadline
    requires s.firing + s.fired == s'.firing + s'.fired
    ensures LanesOk(s') && WakeOk(s')
  {
    forall m | m in s'.entries ensures EntryOk(s', m) { assert EntryOk(s, m); }
    forall u ensures TaskOk(s', u) { assert TaskOk(s, u); }
    forall u ensures WaiterOk(s', u) {
      assert WaiterOk(s, u);
      assert At(s, u).Waiting? ==> (At(s, u).first in s.firing + s.fired <==> At(s, u).first in s'.firing + s'.fired);
    }
  }

  lemma QuietPlaces(s: State, s': State)
    requires PlaceOk(s)
    requires s'.hello == s.hello && s'.phase == s.phase && s'.entries == s.entries && s'.place == s.place
    ensures PlaceOk(s')
  {
    forall u | u in s'.place ensures PermitOk(s', u) { assert PermitOk(s, u); }
    forall m | m in s'.entries ensures EntryPlaced(s', m) { assert EntryPlaced(s, m); }
    forall u ensures TaskPlaced(s', u) { assert TaskPlaced(s, u); }
  }

  lemma QuietInv(s: State, step: Step)
    requires Inv(s) && Enabled(s, step)
    requires step.Fire? || step.Notify? || step.Fetch? || step.Notified?
    ensures Inv(Apply(s, step))
  {
    var s' := Apply(s, step);
    assert WorkerOk(s');
    assert forall t :: WaiterOk(s, t);
    hide CountOk, PlaceOk, LanesOk, WakeOk, WorkerOk, WaiterOk;
    CountsKept(s, s');
    QuietPlaces(s, s');
    assert s.firing + s.fired == s'.firing + s'.fired;
    QuietLanes(s, s');
  }

  lemma JoinInv(s: State, t: TaskId)
    requires Inv(s) && At(s, t).Pairing?
    ensures Inv(Apply(s, JoinLanes(t)))
  {
    JoinPlaces(s, t);
    JoinKeepsLanes(s, t);
    hide CountOk, PlaceOk, LanesOk, WakeOk;
    CountsKept(s, Apply(s, JoinLanes(t)));
  }

  lemma JoinPlaces(s: State, t: TaskId)
    requires PlaceOk(s) && At(s, t).Pairing?
    ensures PlaceOk(Apply(s, JoinLanes(t)))
  {
    var s' := Apply(s, JoinLanes(t));
    assert TaskPlaced(s, t);
    forall u | u in s'.place ensures PermitOk(s', u) { assert PermitOk(s, u); }
    forall m | m in s'.entries ensures EntryPlaced(s', m) { assert EntryPlaced(s, m); }
    forall u ensures TaskPlaced(s', u) { assert TaskPlaced(s, u); }
  }

  lemma JoinKeepsLanes(s: State, t: TaskId)
    requires LanesOk(s) && WakeOk(s) && At(s, t).Pairing?
    ensures LanesOk(Apply(s, JoinLanes(t))) && WakeOk(Apply(s, JoinLanes(t)))
  {
    var s' := Apply(s, JoinLanes(t));
    assert TaskOk(s, t);
    forall m | m in s'.entries ensures EntryOk(s', m) { assert EntryOk(s, m); }
    forall u ensures TaskOk(s', u) { assert TaskOk(s, u); }
    forall u ensures WaiterOk(s', u) { assert WaiterOk(s, u); }
  }

  lemma WakeInv(s: State, t: TaskId, now: Instant)
    requires Inv(s) && Enabled(s, Wake(t, now))
    ensures Inv(Apply(s, Wake(t, now)))
  {
    assert TaskOk(s, t) && WaiterOk(s, t);
    hide CountOk, PlaceOk, LanesOk, WakeOk;
    WaitInv(s, t, At(s, t).(mode := if At(s, t).first in s.fired then Awake else Last));
  }

  lemma ExpireInv(s: State, now: Instant)
    requires Inv(s)
    ensures Inv(ApplyExpire(s, now))
  {
    hide CountOk, PlaceOk, LanesOk, WakeOk;
    ExpirePlaces(s, now);
    ExpireLanes(s, now);
    CountsKept(s, ApplyExpire(s, now));
  }

  lemma StepInv(s: State, step: Step)
    requires Inv(s) && Enabled(s, step)
    ensures Inv(Apply(s, step))
  {
    hide Inv, ApplyRegister, ApplyConfirm, ApplyCancel, ApplyPollWait, ApplyReinsert, ApplyExpire, Ended, Claims,
         PollPair, Admit;
    match step
    case Accept(t, h) => AcceptInv(s, t, h);
    case Register(t, now) => RegisterInv(s, t, now);
    case Confirm(t) => ClaimInv(s, t);
    case Cancel(t) => ClaimInv(s, t);
    case PollWait(t, now) => PollWaitInv(s, t, now);
    case Wake(t, now) => WakeInv(s, t, now);
    case JoinLanes(t) => JoinInv(s, t);
    case Reinsert(t) => ReinsertInv(s, t);
    case Finish(t) => EndedInv(s, t);
    case DropPermit(t) => DropInv(s, t);
    case Expire(now) => ExpireInv(s, now);
    case _ => QuietInv(s, step);
  }
}
