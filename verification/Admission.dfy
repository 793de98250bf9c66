/**
 Lane admission and pairing.

 Every accepted lane runs one task. The task holds an admission permit until its lane is paired,
 rejected or expired; two lanes of one peer that carry the same nonce and opposite classes become
 one session. The registry is guarded by one lock: each critical section is one step, and so is
 each notification sent after the lock is released.

 A permit is named by the task it was issued to.
 */
module Admission {
  import opened Options

  const MAX_PENDING_LANES: int := 1024
  const MAX_PENDING_LANES_PER_PEER: int := 32
  const PAIRING_DEADLINE: int := 10_000

  type TaskId = int
  type Ip = int
  type Instant = int

  datatype Nonce = Nonce(id: int)
  datatype Address = Address(ip: Ip, port: int)
  datatype Class = Interactive | Bulk

  /** What a lane says of itself: where it comes from, and its hello. */
  datatype Hello = Hello(peer: Address, kind: Class, nonce: Nonce, group: int)

  /** A lane in the registry's hands: whose permit it carries and which task built its transport. */
  datatype Lane = Lane(permit: TaskId, transport: TaskId, peer: Address, kind: Class, group: int)

  datatype Entry = Building(lane: Lane, expires: Instant) | Ready(lane: Lane, expires: Instant)

  type Entries = map<Nonce, Entry>

  // ---------------------------------------------------------------- the registry's decisions

  datatype Reason = PeerMismatch | DuplicateClass | GroupMismatch | Disappeared

  datatype Answer =
    | Reserve
    | Wait(first: TaskId, expires: Instant)
    | Pair(lane: Lane, expires: Instant)
    | Reject(reason: Reason)

  /** What `register_admitted` answers a lane. */
  function Admit(entries: Entries, h: Hello): Answer {
    if h.nonce !in entries then Reserve
    else
      var e := entries[h.nonce];
      if e.lane.peer.ip != h.peer.ip then Reject(PeerMismatch)
      else if e.lane.kind == h.kind then Reject(DuplicateClass)
      else if e.lane.group != h.group then Reject(GroupMismatch)
      else if e.Building? then Wait(e.lane.permit, e.expires)
      else Pair(e.lane, e.expires)
  }

  /** What `pair_wait_step` answers a waiting lane; it does not look at groups. */
  datatype Poll = Lost(reason: Reason) | Paired(lane: Lane) | Timeout | StillBuilding

  function PollPair(entries: Entries, h: Hello, expires: Instant, now: Instant): Poll {
    if h.nonce !in entries then Lost(Disappeared)
    else
      var e := entries[h.nonce];
      if e.lane.peer.ip != h.peer.ip then Lost(PeerMismatch)
      else if e.lane.kind == h.kind then Lost(DuplicateClass)
      else if e.Ready? then Paired(e.lane)
      else if now >= expires then Timeout
      else StillBuilding
  }

  /** Whether the entry under the lane's nonce is a reservation the lane may confirm or cancel. */
  predicate Claims(entries: Entries, h: Hello) {
    && h.nonce in entries && entries[h.nonce].Building?
    && entries[h.nonce].lane.peer == h.peer && entries[h.nonce].lane.kind == h.kind
  }

  function Confirmed(entries: Entries, t: TaskId, h: Hello): Entries
    requires Claims(entries, h)
  {
    var e := entries[h.nonce];
    entries[h.nonce := Ready(e.lane.(transport := t, peer := h.peer), e.expires)]
  }

  predicate Due(e: Entry, now: Instant) {
    e.expires <= now
  }

  function Expired(entries: Entries, now: Instant): Entries {
    map n | n in entries && Due(entries[n], now) :: entries[n]
  }

  function Kept(entries: Entries, now: Instant): Entries {
    map n | n in entries && !Due(entries[n], now) :: entries[n]
  }

  /** The earliest deadline, if there is an entry. */
  ghost predicate Earliest(entries: Entries, o: Option<Instant>) {
    match o
    case None => entries == map[]
    case Some(d) =>
      && (exists n :: n in entries && entries[n].expires == d)
      && (forall n :: n in entries ==> d <= entries[n].expires)
  }

  // ---------------------------------------------------------------- tasks and the expiry worker

  datatype Mode = Awake | Asleep | Last

  datatype Phase =
    | Greeting
    | Reserved
    | Waiting(first: TaskId, expires: Instant, mode: Mode)
    | Pairing(other: Lane, expires: Instant)
    | Joined(other: Lane, waited: Option<TaskId>)
    | Done

  /** Where an outstanding permit is. */
  datatype Place = Own | InEntry(nonce: Nonce) | With(taker: TaskId) | Dropping

  datatype Worker = Fetching | Sleeping(until: Option<Instant>)

  /**
   `deadline` remembers each lane's pairing deadline. `firing` and `fired` are the reservations
   whose watch channel is about to be, or has been, signalled or closed. `owed` counts operations
   that released the lock and have not notified the worker yet; `token` is the stored notification.
   */
  datatype State = State(
    hello: map<TaskId, Hello>,
    phase: map<TaskId, Phase>,
    entries: Entries,
    admitted: int,
    perPeer: map<Ip, int>,
    place: map<TaskId, Place>,
    deadline: map<TaskId, Instant>,
    firing: set<TaskId>,
    fired: set<TaskId>,
    owed: nat,
    token: bool,
    worker: Worker)

  const Initial: State :=
    State(map[], map[], map[], 0, map[], map[], map[], {}, {}, 0, false, Fetching)

  function Count(perPeer: map<Ip, int>, ip: Ip): int {
    if ip in perPeer then perPeer[ip] else 0
  }

  function At(s: State, t: TaskId): Phase {
    if t in s.phase then s.phase[t] else Done
  }

  function Says(s: State, t: TaskId): Hello {
    if t in s.hello then s.hello[t] else Hello(Address(0, 0), Interactive, Nonce(0), 0)
  }

  predicate HoldsOwn(p: Phase) {
    p.Greeting? || p.Waiting? || p.Pairing? || p.Joined?
  }

  predicate HoldsOther(p: Phase) {
    p.Pairing? || p.Joined?
  }

  // ---------------------------------------------------------------- steps

  datatype Step =
    | Accept(t: TaskId, h: Hello)
    | Register(t: TaskId, now: Instant)
    | Confirm(t: TaskId)
    | Cancel(t: TaskId)
    | PollWait(t: TaskId, now: Instant)
    | Wake(t: TaskId, now: Instant)
    | JoinLanes(t: TaskId)
    | Reinsert(t: TaskId)
    | Finish(t: TaskId)
    | DropPermit(t: TaskId)
    | Fire(t: TaskId)
    | Notify
    | Fetch(next: Option<Instant>)
    | Notified
    | Expire(now: Instant)

  ghost predicate Enabled(s: State, step: Step) {
    match step
    case Accept(t, h) =>
      && t !in s.hello
      && s.admitted < MAX_PENDING_LANES && Count(s.perPeer, h.peer.ip) < MAX_PENDING_LANES_PER_PEER
    case Register(t, _) => At(s, t).Greeting?
    case Confirm(t) => At(s, t).Reserved?
    case Cancel(t) => At(s, t).Reserved?
    case PollWait(t, _) => At(s, t).Waiting? && !At(s, t).mode.Asleep?
    case Wake(t, now) =>
      At(s, t).Waiting? && At(s, t).mode.Asleep? && (At(s, t).first in s.fired || now >= At(s, t).expires)
    case JoinLanes(t) => At(s, t).Pairing?
    case Reinsert(t) => At(s, t).Pairing?
    case Finish(t) => !At(s, t).Done?
    case DropPermit(t) => t in s.place && s.place[t].Dropping?
    case Fire(t) => t in s.firing
    case Notify => s.owed > 0
    case Fetch(next) => s.worker.Fetching? && Earliest(s.entries, next)
    case Notified => s.worker.Sleeping? && s.token
    case Expire(now) => s.worker.Sleeping? && s.worker.until.Some? && s.worker.until.value <= now
  }

  /** A task ends and drops the permits it holds. */
  function Ended(s: State, t: TaskId): State {
    var p := At(s, t);
    var place1 := if HoldsOwn(p) then s.place[t := Dropping] else s.place;
    s.(phase := s.phase[t := Done], place := if HoldsOther(p) then place1[p.other.permit := Dropping] else place1)
  }

  /** `t` takes the ready lane under its nonce. */
  function Taken(s: State, t: TaskId, lane: Lane, p: Phase): State {
    s.(entries := s.entries - {Says(s, t).nonce}, place := s.place[lane.permit := With(t)],
       phase := s.phase[t := p], owed := s.owed + 1)
  }

  function ApplyRegister(s: State, t: TaskId, now: Instant): State {
    var h := Says(s, t);
    match Admit(s.entries, h)
    case Reserve =>
      var expires := now + PAIRING_DEADLINE;
      s.(entries := s.entries[h.nonce := Building(Lane(t, t, h.peer, h.kind, h.group), expires)],
         place := s.place[t := InEntry(h.nonce)], phase := s.phase[t := Reserved],
         deadline := s.deadline[t := expires], owed := s.owed + 1)
    case Wait(first, expires) => s.(phase := s.phase[t := Waiting(first, expires, Awake)])
    case Pair(lane, expires) => Taken(s, t, lane, Pairing(lane, expires))
    case Reject(_) => Ended(s, t)
  }

  function ApplyConfirm(s: State, t: TaskId): State {
    var h := Says(s, t);
    if Claims(s.entries, h) then
      s.(entries := Confirmed(s.entries, t, h), phase := s.phase[t := Done],
         firing := s.firing + {s.entries[h.nonce].lane.permit}, owed := s.owed + 1)
    else Ended(s, t)
  }

  function ApplyCancel(s: State, t: TaskId): State {
    var h := Says(s, t);
    if Claims(s.entries, h) then
      var owner := s.entries[h.nonce].lane.permit;
      s.(entries := s.entries - {h.nonce}, place := s.place[owner := Dropping], phase := s.phase[t := Done],
         firing := s.firing + {owner}, owed := s.owed + 1)
    else Ended(s, t)
  }

  function ApplyPollWait(s: State, t: TaskId, now: Instant): State
    requires At(s, t).Waiting?
  {
    var p := At(s, t);
    match PollPair(s.entries, Says(s, t), p.expires, now)
    case Lost(_) => Ended(s, t)
    case Paired(lane) => Taken(s, t, lane, Joined(lane, Some(p.first)))
    case Timeout => Ended(s, t)
    case StillBuilding =>
      if p.mode.Last? then Ended(s, t) else s.(phase := s.phase[t := p.(mode := Asleep)])
  }

  function ApplyReinsert(s: State, t: TaskId): State
    requires At(s, t).Pairing?
  {
    var p := At(s, t);
    var n := Says(s, t).nonce;
    if n in s.entries then Ended(s, t)
    else
      s.(entries := s.entries[n := Ready(p.other, p.expires)],
         place := s.place[p.other.permit := InEntry(n)][t := Dropping], phase := s.phase[t := Done], owed := s.owed + 1)
  }

  /** The permits of the entries due at `now`. */
  function DuePermits(entries: Entries, now: Instant): set<TaskId> {
    set n | n in entries && Due(entries[n], now) :: entries[n].lane.permit
  }

  function ApplyExpire(s: State, now: Instant): State {
    var due := DuePermits(s.entries, now);
    s.(entries := Kept(s.entries, now),
       place := map t | t in s.place :: if t in due then Dropping else s.place[t],
       firing := s.firing + due, worker := Fetching)
  }

  function Released(perPeer: map<Ip, int>, ip: Ip): map<Ip, int> {
    if ip !in perPeer then perPeer
    else
      var count := if perPeer[ip] >= 1 then perPeer[ip] - 1 else 0;
      if count == 0 then perPeer - {ip} else perPeer[ip := count]
  }

  function Apply(s: State, step: Step): State
    requires Enabled(s, step)
  {
    match step
    case Accept(t, h) =>
      s.(hello := s.hello[t := h], phase := s.phase[t := Greeting], place := s.place[t := Own],
         admitted := s.admitted + 1, perPeer := s.perPeer[h.peer.ip := Count(s.perPeer, h.peer.ip) + 1])
    case Register(t, now) => ApplyRegister(s, t, now)
    case Confirm(t) => ApplyConfirm(s, t)
    case Cancel(t) => ApplyCancel(s, t)
    case PollWait(t, now) => ApplyPollWait(s, t, now)
    case Wake(t, now) =>
      s.(phase := s.phase[t := At(s, t).(mode := if At(s, t).first in s.fired then Awake else Last)])
    case JoinLanes(t) => s.(phase := s.phase[t := Joined(At(s, t).other, None)])
    case Reinsert(t) => ApplyReinsert(s, t)
    case Finish(t) => Ended(s, t)
    case DropPermit(t) =>
      s.(place := s.place - {t}, admitted := if s.admitted >= 1 then s.admitted - 1 else 0,
         perPeer := Released(s.perPeer, Says(s, t).peer.ip))
    case Fire(t) => s.(firing := s.firing - {t}, fired := s.fired + {t})
    case Notify => s.(owed := s.owed - 1, token := true)
    case Fetch(next) => s.(worker := Sleeping(next))
    case Notified => s.(token := false, worker := Fetching)
    case Expire(now) => ApplyExpire(s, now)
  }
}
