/**
 Session generations and stream migration.

 A redial dials a fresh session, drains the old session's stream list, publishes the
 fresh session as the old one's successor and repoints every drained stream, while
 client threads open and register streams. Each critical section (or atomic access)
 of the connector loop and of a client thread is one `Step`; a run is any legal
 sequence of steps, so every interleaving is a run.

 A session's `Arc` strong count is not stored: `Held` says that some owner exists, and a
 `Weak` upgrade succeeds exactly when `Held`. A session's fields are maps from its id.
 */
module Generations {
  import opened Options

  type SessionId = int
  type StreamId = int
  type Addr = int

  const MAX_SUCCESSOR_HOPS: nat := 8

  /**
   The sessions that exist and how they are linked. `dead`: the opener reports not alive,
   for ever. `dropped`: the destructor has run and has released the successor. `mapped`
   is the shared `sessions` map, `redials` the old sessions of redials in flight, and
   `draining` the shared map of weak references.
   */
  datatype Chain = Chain(
    addr: map<SessionId, Addr>,
    successor: map<SessionId, SessionId>,
    dead: set<SessionId>,
    dropped: set<SessionId>,
    mapped: map<Addr, SessionId>,
    redials: map<Addr, SessionId>,
    dialing: set<Addr>,
    draining: map<Addr, SessionId>)

  /** Where `rebind_one` stands for a stream. */
  datatype MoveStage = Offered | Repointed | Counted | Swapped

  /** Where a stream's owner stands, from the fast-path lookup to the stream's end. */
  datatype Phase =
    | Fetched(from: SessionId)
    | Opened
    | Tracking
    | Hopping(hops: nat, cursor: SessionId, newest: SessionId)
    | Examining(hops: nat, cursor: SessionId, newest: SessionId)
    | Chosen(live: SessionId)
    | Moving(origin: SessionId, target: SessionId, stage: MoveStage, byLoop: bool)
    | Tracked
    | Releasing
    | Gone

  /**
   `client`: the stream's owner still holds it. `guarded`: it has a `SessionGuard`, which
   counts on session `guard`. `incoming`: the guard `rebind_one` made and has not stored
   yet. `bound`: the session whose opener the writer was last handed. `locals`: the
   `Arc<Session>` values on the owning thread's stack.
   */
  datatype Stream = Stream(
    phase: Phase,
    client: bool,
    writerAlive: bool,
    guarded: bool,
    guard: SessionId,
    incoming: Option<SessionId>,
    bound: SessionId,
    locals: set<SessionId>)

  /** Where the connector loop stands inside one arm of its `select!`. */
  datatype Loop =
    | Idle
    | Installed(addr: Addr, redialed: Option<SessionId>, latest: SessionId)
    | Checked(addr: Addr, prior: SessionId, latest: SessionId)
    | Rebinding(addr: Addr, prior: SessionId, latest: SessionId, todo: set<StreamId>, moving: Option<StreamId>)
    | Rebound(addr: Addr, prior: SessionId, latest: SessionId)
    | Serving(addr: Addr, redialed: Option<SessionId>, latest: SessionId)
    | ResetDraining
    | ResetDials

  /** `lists` and `live` are the sessions' `streams` and `live_streams` fields. */
  datatype State = State(
    chain: Chain,
    lists: map<SessionId, set<StreamId>>,
    live: map<SessionId, int>,
    streams: map<StreamId, Stream>,
    peeks: set<SessionId>,
    loop: Loop)

  /** Sessions and writers dying, destructors running, and transient `Weak` upgrades. */
  datatype Ambient =
    | Die(x: SessionId)
    | WriterDies(st: StreamId)
    | DropSession(x: SessionId)
    | Peek(x: SessionId)
    | Unpeek(x: SessionId)

  /** What the thread that owns a stream does, from the fast-path lookup to the stream's end. */
  datatype Client =
    | Fetch(a: Addr)
    | Abandon
    | Open
    | BeginTrack
    | TrackIfCurrent
    | Hop
    | Examine
    | Choose
    | DropLocals
    | Close
    | Release

  /** `rebind_one`, on a client thread or in the loop. */
  datatype Mover = Repoint | Count | Swap | Push

  /** What the connector loop does. */
  datatype Connector =
    | DialConnect(a: Addr)
    | Redial(a: Addr)
    | DialFailed(a: Addr)
    | DialDone(a: Addr, x: SessionId)
    | CheckLatest
    | DrainLock
    | Upgrade(st: StreamId)
    | EndRebind
    | Record
    | Serve(st: StreamId)
    | Insert
    | Reap(x: SessionId)
    | ResetSessions
    | ClearDraining
    | ClearDials

  datatype Step =
    | Around(e: Ambient)
    | By(st: StreamId, c: Client)
    | Move(st: StreamId, m: Mover)
    | Loops(k: Connector)

  // ---------------------------------------------------------------- owners

  function Succ(c: Chain, x: SessionId): Option<SessionId> {
    if x in c.successor then Some(c.successor[x]) else None
  }

  function List(s: State, x: SessionId): set<StreamId> {
    if x in s.lists then s.lists[x] else {}
  }

  function Live(s: State, x: SessionId): int {
    if x in s.live then s.live[x] else 0
  }

  function T(s: State, st: StreamId): Stream {
    if st in s.streams then s.streams[st] else Stream(Gone, false, false, false, 0, None, 0, {})
  }

  predicate Refers(t: Stream, x: SessionId) {
    x in t.locals || (t.guarded && t.guard == x) || t.incoming == Some(x)
  }

  ghost predicate HeldByStream(s: State, x: SessionId) {
    exists st :: Refers(T(s, st), x)
  }

  /** A session keeps its successor alive until its own destructor runs. */
  ghost predicate HeldByPredecessor(c: Chain, x: SessionId) {
    exists y :: y !in c.dropped && Succ(c, y) == Some(x)
  }

  function Prior(l: Loop): Option<SessionId> {
    if l.Installed? || l.Serving? then l.redialed
    else if l.Checked? || l.Rebinding? || l.Rebound? then Some(l.prior)
    else None
  }

  function Latest(l: Loop): Option<SessionId> {
    if l.Idle? || l.ResetDraining? || l.ResetDials? then None else Some(l.latest)
  }

  predicate HeldByLoop(l: Loop, x: SessionId) {
    Prior(l) == Some(x) || Latest(l) == Some(x)
  }

  ghost predicate HeldByMap(m: map<Addr, SessionId>, x: SessionId) {
    exists a :: a in m && m[a] == x
  }

  /** The session's strong count is positive. */
  ghost predicate Held(s: State, x: SessionId) {
    || HeldByMap(s.chain.mapped, x) || HeldByMap(s.chain.redials, x) || HeldByLoop(s.loop, x)
    || HeldByPredecessor(s.chain, x) || HeldByStream(s, x) || x in s.peeks
  }

  /** A newly allocated session: nothing refers to it, not even weakly, and it has no fields yet. */
  ghost predicate Unused(s: State, x: SessionId) {
    && x !in s.chain.addr && x !in s.chain.dead && x !in s.chain.dropped && !Held(s, x)
    && Succ(s.chain, x).None? && (forall y :: Succ(s.chain, y) != Some(x))
    && (forall a :: a in s.chain.draining ==> s.chain.draining[a] != x)
    && List(s, x) == {} && Live(s, x) == 0
  }

  // ---------------------------------------------------------------- steps

  ghost predicate AmbientEnabled(s: State, e: Ambient) {
    match e
    case Die(x) => x in s.chain.addr
    case WriterDies(st) => st in s.streams
    case DropSession(x) => x in s.chain.addr && !Held(s, x)
    case Peek(x) => Held(s, x)
    case Unpeek(x) => x in s.peeks
  }

  predicate ClientEnabled(s: State, st: StreamId, c: Client) {
    var t := T(s, st);
    if c.Fetch? then st !in s.streams && c.a in s.chain.mapped
    else
      && st in s.streams
      && match c
         case Fetch(_) => true
         case Abandon => t.phase.Fetched?
         case Open => t.phase.Fetched?
         case BeginTrack => t.phase.Opened?
         case TrackIfCurrent => t.phase.Tracking?
         case Hop => t.phase.Hopping?
         case Examine => t.phase.Examining?
         case Choose => t.phase.Chosen?
         case DropLocals => t.phase.Tracked? || t.phase.Releasing? || LoopMoves(t)
         case Close => (t.phase.Opened? || t.phase.Tracked? || LoopMoves(t)) && t.client && t.locals == {}
         case Release => t.phase.Releasing?
  }

  /** The connector loop, not the owning thread, is running `rebind_one` on the stream. */
  predicate LoopMoves(t: Stream) {
    t.phase.Moving? && t.phase.byLoop
  }

  predicate MoveEnabled(s: State, st: StreamId, m: Mover) {
    var p := T(s, st).phase;
    && p.Moving?
    && match m
       case Repoint => p.stage.Offered?
       case Count => p.stage.Repointed?
       case Swap => p.stage.Counted?
       case Push => p.stage.Swapped?
  }

  ghost predicate LoopEnabled(s: State, c: Connector) {
    var k := s.chain;
    match c
    case DialConnect(a) => s.loop.Idle? && a !in k.dialing
    case Redial(a) =>
      s.loop.Idle? && a !in k.dialing && a in k.mapped && (a in k.draining ==> !Held(s, k.draining[a]))
    case DialFailed(a) => s.loop.Idle? && a in k.dialing
    case DialDone(a, x) => s.loop.Idle? && a in k.dialing && Unused(s, x)
    case CheckLatest => s.loop.Installed?
    case DrainLock => s.loop.Checked?
    case Upgrade(st) => s.loop.Rebinding? && s.loop.moving.None? && st in s.loop.todo
    case EndRebind => s.loop.Rebinding? && s.loop.moving.None? && s.loop.todo == {}
    case Record => s.loop.Rebound?
    case Serve(st) => s.loop.Serving? && st !in s.streams
    case Insert => s.loop.Serving?
    case Reap(x) => s.loop.Idle?
    case ResetSessions => s.loop.Idle?
    case ClearDraining => s.loop.ResetDraining?
    case ClearDials => s.loop.ResetDials?
  }

  ghost predicate Enabled(s: State, step: Step) {
    match step
    case Around(e) => AmbientEnabled(s, e)
    case By(st, c) => ClientEnabled(s, st, c)
    case Move(st, m) => MoveEnabled(s, st, m)
    case Loops(c) => LoopEnabled(s, c)
  }

  function ApplyAmbient(s: State, e: Ambient): State {
    match e
    case Die(x) => s.(chain := s.chain.(dead := s.chain.dead + {x}))
    case WriterDies(st) => s.(streams := s.streams[st := T(s, st).(writerAlive := false)])
    case DropSession(x) => s.(chain := s.chain.(dropped := s.chain.dropped + {x}))
    case Peek(x) => s.(peeks := s.peeks + {x})
    case Unpeek(x) => s.(peeks := s.peeks - {x})
  }

  /** The stream's `StreamRebind` still has an owner, so a `Weak` to it upgrades. */
  predicate HandleAlive(t: Stream) {
    t.guarded && !t.phase.Releasing?
  }

  /** `retain(|weak| weak.strong_count() > 0)`. */
  function Retained(list: set<StreamId>, streams: map<StreamId, Stream>): set<StreamId> {
    set k | k in list && k in streams && HandleAlive(streams[k])
  }

  /**
   What one atomic access made for a stream does: the stream's new record, the session
   list it is pushed on, the gauge it adjusts, and whether the loop lets go of it.
   */
  datatype Effect = Effect(stream: Stream, push: Option<SessionId>, gauge: Option<SessionId>, delta: int, leaves: bool)

  function Just(t: Stream): Effect {
    Effect(t, None, None, 0, false)
  }

  function ApplyEffect(s: State, st: StreamId, e: Effect): State {
    State(
      s.chain,
      if e.push.Some?
      then s.lists[e.push.value := Retained(List(s, e.push.value), s.streams) + {st}] else s.lists,
      if e.gauge.Some? then s.live[e.gauge.value := Live(s, e.gauge.value) + e.delta] else s.live,
      s.streams[st := e.stream],
      s.peeks,
      if e.leaves && s.loop.Rebinding? then s.loop.(moving := None) else s.loop)
  }

  function NewStream(phase: Phase, guarded: bool, x: SessionId, locals: set<SessionId>): Stream {
    Stream(phase, true, true, guarded, x, None, x, locals)
  }

  function ClientEffect(s: State, st: StreamId, c: Client): Effect
    requires ClientEnabled(s, st, c)
  {
    var t := T(s, st);
    match c
    case Fetch(a) =>
      var x := s.chain.mapped[a];
      Just(NewStream(Fetched(x), false, x, {x}))
    case Abandon => Just(t.(phase := Gone, client := false, locals := {}))
    case Open => // `open_stream`: the guard is counted on the fetched session
      var x := t.phase.from;
      Effect(t.(phase := Opened, guarded := true, guard := x, bound := x, locals := {}), None, Some(x), 1, false)
    case BeginTrack => Just(t.(phase := Tracking, locals := {t.guard}))
    case TrackIfCurrent => // one critical section of the guard session's `streams` lock
      if Succ(s.chain, t.guard).Some? then Just(t.(phase := Hopping(0, t.guard, t.guard)))
      else Effect(t.(phase := Tracked), Some(t.guard), None, 0, false)
    case Hop => // one test of `latest_generation`'s loop: read the cursor's successor, or stop
      var p := t.phase;
      var next := Succ(s.chain, p.cursor);
      if p.hops < MAX_SUCCESSOR_HOPS && next.Some?
      then Just(t.(phase := Examining(p.hops + 1, next.value, p.newest), locals := t.locals + {next.value}))
      else Just(t.(phase := Chosen(p.newest)))
    case Examine =>
      var p := t.phase;
      Just(t.(phase := Hopping(p.hops, p.cursor, if p.cursor in s.chain.dead then p.newest else p.cursor)))
    case Choose => // `track` after `latest_generation`: stay where the guard is, or move
      if t.phase.live == t.guard then Effect(t.(phase := Tracked), Some(t.guard), None, 0, false)
      else Just(t.(phase := Moving(t.guard, t.phase.live, Offered, false)))
    case DropLocals => Just(t.(locals := {}))
    case Close =>
      Just(t.(client := false, writerAlive := false, phase := if t.phase.Moving? then t.phase else Releasing))
    case Release =>
      Effect(t.(phase := Gone, guarded := false, locals := {}), None, Some(t.guard), -1, false)
  }

  /** The stream's handle after the mover lets go of it. */
  function AfterMove(t: Stream): Stream {
    t.(phase := if t.client then Tracked else Releasing)
  }

  function MoveEffect(s: State, st: StreamId, m: Mover): Effect
    requires MoveEnabled(s, st, m)
  {
    var t := T(s, st);
    var p := t.phase;
    match m
    case Repoint => // `RebindHandle::rebind` is refused when the writer is gone
      if t.writerAlive then Just(t.(bound := p.target, phase := p.(stage := Repointed)))
      else Effect(AfterMove(t), None, None, 0, p.byLoop)
    case Count =>
      Effect(t.(incoming := Some(p.target), phase := p.(stage := Counted)), None, Some(p.target), 1, false)
    case Swap =>
      Effect(t.(guard := p.target, incoming := None, phase := p.(stage := Swapped)), None, Some(t.guard), -1, false)
    case Push => Effect(AfterMove(t), Some(p.target), None, 0, p.byLoop)
  }

  /** A waiter is answered with a stream opened on the session just installed. */
  function ServeEffect(x: SessionId): Effect {
    Effect(NewStream(Opened, true, x, {}), None, Some(x), 1, false)
  }

  function ApplyLoop(s: State, c: Connector): State
    requires LoopEnabled(s, c)
  {
    var l := s.loop;
    var k := s.chain;
    match c
    case DialConnect(a) => s.(chain := k.(dialing := k.dialing + {a}))
    case Redial(a) => s.(chain := k.(dialing := k.dialing + {a}, redials := k.redials[a := k.mapped[a]]))
    case DialFailed(a) => s.(chain := k.(dialing := k.dialing - {a}, redials := k.redials - {a}))
    case DialDone(a, x) => // `install_session`, with the redial record the dial answers
      s.(chain := k.(addr := k.addr[x := a], dialing := k.dialing - {a}, redials := k.redials - {a}),
         loop := Installed(a, if a in k.redials then Some(k.redials[a]) else None, x))
    case CheckLatest =>
      s.(loop := if l.redialed.None? then Serving(l.addr, None, l.latest)
                 else if l.latest in k.dead then Rebound(l.addr, l.redialed.value, l.latest)
                 else Checked(l.addr, l.redialed.value, l.latest))
    case DrainLock => // one critical section of the old session's `streams` lock
      s.(chain := k.(successor := k.successor[l.prior := l.latest]),
         lists := s.lists[l.prior := {}],
         loop := Rebinding(l.addr, l.prior, l.latest, List(s, l.prior), None))
    case Upgrade(st) => // the drain loop upgrades the next weak handle, or skips it
      if HandleAlive(T(s, st))
      then s.(streams := s.streams[st := T(s, st).(phase := Moving(l.prior, l.latest, Offered, true))],
              loop := l.(todo := l.todo - {st}, moving := Some(st)))
      else s.(loop := l.(todo := l.todo - {st}))
    case EndRebind => s.(loop := Rebound(l.addr, l.prior, l.latest))
    case Record =>
      s.(chain := k.(draining := k.draining[l.addr := l.prior]), loop := Serving(l.addr, Some(l.prior), l.latest))
    case Serve(st) => ApplyEffect(s, st, ServeEffect(l.latest))
    case Insert => s.(chain := k.(mapped := k.mapped[l.addr := l.latest]), loop := Idle)
    case Reap(x) => // the watcher of session x ended
      if x in k.addr && k.addr[x] in k.mapped && k.mapped[k.addr[x]] == x
      then s.(chain := k.(mapped := k.mapped - {k.addr[x]})) else s
    case ResetSessions =>
      s.(chain := k.(mapped := map[]), peeks := s.peeks + (set a | a in k.mapped :: k.mapped[a]), loop := ResetDraining)
    case ClearDraining => s.(chain := k.(draining := map[]), loop := ResetDials)
    case ClearDials => s.(chain := k.(dialing := {}, redials := map[]), loop := Idle)
  }

  function Apply(s: State, step: Step): State
    requires Enabled(s, step)
  {
    match step
    case Around(e) => ApplyAmbient(s, e)
    case By(st, c) => ApplyEffect(s, st, ClientEffect(s, st, c))
    case Move(st, m) => ApplyEffect(s, st, MoveEffect(s, st, m))
    case Loops(c) => ApplyLoop(s, c)
  }

  const Initial: State := State(Chain(map[], map[], {}, {}, map[], map[], {}, map[]), map[], map[], map[], {}, Idle)
}
