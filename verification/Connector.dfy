/**
 The connector's command loop: dials in flight, the requests that wait for them, the address
 groups and explorers, redials, and the key each address was dialled with. One arm of the loop
 is one step; sessions die, are freed, and callers give up at any time in between.
 */
module Connector {
  import opened Options

  const MAX_CONCURRENT_DUAL_DIALS: nat := 32
  const MAX_DIAL_WAITERS_PER_ADDR: nat := 256

  type SessionId = int

  datatype Addr = Addr(ip: int, port: int)
  datatype Request = Request(id: int)
  type Key = Option<int>
  datatype Dial = Dial(addr: Addr, key: Key)

  /** What became of a request: it waits for a dial, it was answered, or its caller had closed it. */
  datatype Status = Waiting(addr: Addr) | Answered(ok: bool) | Skipped

  /**
   `sessions` is the shared map, `draining` the weak references to replaced sessions, and a group
   holds weak references to its sessions. `dead`: the opener is not alive. `freed`: no strong
   reference is left. `closed`: the caller dropped its end. `dialled` and `status` are history.
   `panicked`: a session was to be installed for an address without a group.
   */
  datatype State = State(
    pending: seq<Dial>,
    inFlight: set<Addr>,
    waiters: map<Addr, seq<Request>>,
    groups: map<Addr, set<SessionId>>,
    redials: map<Addr, SessionId>,
    explorers: set<Addr>,
    keys: map<Addr, Key>,
    sessions: map<Addr, SessionId>,
    draining: map<Addr, SessionId>,
    dead: set<SessionId>,
    freed: set<SessionId>,
    closed: set<Request>,
    dialled: map<SessionId, Key>,
    status: map<Request, Status>,
    panicked: bool)

  const Initial: State :=
    State([], {}, map[], map[], map[], {}, map[], map[], map[], {}, {}, {}, map[], map[], false)

  datatype Step =
    | Connect(addr: Addr, key: Key, request: Request)
    | Redial(addr: Addr, wanted: bool)
    | DialOk(i: nat, session: SessionId)
    | DialErr(i: nat)
    | Reset
    | SessionEnds(addr: Addr, session: SessionId)
    | Die(session: SessionId)
    | Free(session: SessionId)
    | Close(request: Request)

  predicate HoldsStrong(s: State, x: SessionId) {
    || (exists a :: a in s.sessions && s.sessions[a] == x)
    || (exists a :: a in s.redials && s.redials[a] == x)
  }

  predicate Enabled(s: State, step: Step) {
    match step
    case Connect(_, _, r) => r !in s.status
    case DialOk(i, x) => i < |s.pending| && x !in s.dialled && x !in s.dead && x !in s.freed
    case DialErr(i) => i < |s.pending|
    case Free(x) => !HoldsStrong(s, x)
    case _ => true
  }

  // ---------------------------------------------------------------- the arms

  predicate Live(s: State, a: Addr) {
    a in s.sessions && s.sessions[a] !in s.dead
  }

  /** The waiters whose callers still listen, in order. */
  function Open(ws: seq<Request>, closed: set<Request>): (r: seq<Request>)
    ensures |r| <= |ws|
  {
    if ws == [] then []
    else (if ws[0] in closed then [] else [ws[0]]) + Open(ws[1..], closed)
  }

  function Waiters(s: State, a: Addr): seq<Request> {
    if a in s.waiters then s.waiters[a] else []
  }

  /** Callers that gave up are forgotten. */
  function Retained(s: State, a: Addr): State {
    if a !in s.waiters then s
    else
      s.(waiters := s.waiters[a := Open(s.waiters[a], s.closed)],
         status := map r | r in s.status :: if r in s.waiters[a] && r in s.closed then Skipped else s.status[r])
  }

  /** Every waiter of a finished dial gets its answer; on success a closed one is passed over. */
  function Settled(s: State, a: Addr, ok: bool): State {
    s.(waiters := s.waiters - {a},
       status := map r | r in s.status ::
         if r !in Waiters(s, a) then s.status[r] else if ok && r in s.closed then Skipped else Answered(ok))
  }

  function StartDial(s: State, a: Addr, key: Key, explore: bool): State {
    s.(groups := if a in s.groups then s.groups else s.groups[a := {}],
       explorers := if explore then s.explorers + {a} else s.explorers,
       inFlight := s.inFlight + {a},
       pending := s.pending + [Dial(a, key)])
  }

  /** Forgets the addresses with neither a dial in flight nor a session that still exists. */
  function Pruned(s: State): State {
    var groups :=
      map a | a in s.groups && (a in s.inFlight || s.groups[a] - s.freed != {}) :: s.groups[a] - s.freed;
    s.(groups := groups, explorers := set a | a in s.explorers && a in groups)
  }

  /** The request waits, and the address is dialled unless it already is. */
  function Queued(s: State, a: Addr, key: Key, r: Request, explore: bool): State {
    var s2 := s.(waiters := s.waiters[a := Waiters(s, a) + [r]], status := s.status[r := Waiting(a)]);
    if a in s.inFlight then s2 else StartDial(s2.(keys := s.keys[a := key]), a, key, explore)
  }

  function ApplyConnect(s: State, a: Addr, key: Key, r: Request, explore: bool): State {
    if Live(s, a) then
      s.(status := s.status[r := if r in s.closed then Skipped else Answered(true)])
    else
      var s1 := Retained(s, a);
      if |Waiters(s1, a)| >= MAX_DIAL_WAITERS_PER_ADDR then s1.(status := s1.status[r := Answered(false)])
      else if a !in s1.inFlight && |s1.pending| >= MAX_CONCURRENT_DUAL_DIALS then
        s1.(status := s1.status[r := Answered(false)])
      else
        Queued(s1, a, key, r, explore)
  }

  function ApplyRedial(s: State, a: Addr, wanted: bool, explore: bool): State {
    var drainerAlive := a in s.draining && s.draining[a] !in s.freed;
    if drainerAlive || a in s.inFlight || |s.pending| >= MAX_CONCURRENT_DUAL_DIALS || !wanted || a !in s.sessions then s
    else
      StartDial(s.(redials := s.redials[a := s.sessions[a]]), a, if a in s.keys then s.keys[a] else None, explore)
  }

  function Removed<T>(xs: seq<T>, i: nat): seq<T>
    requires i < |xs|
  {
    xs[..i] + xs[i + 1..]
  }

  /** The dial leaves the set of dials in flight, and its redial record is taken. */
  function Landed(s: State, i: nat): State
    requires i < |s.pending|
  {
    var a := s.pending[i].addr;
    s.(pending := Removed(s.pending, i), inFlight := s.inFlight - {a}, redials := s.redials - {a})
  }

  function ApplyDialOk(s: State, i: nat, x: SessionId): State
    requires i < |s.pending|
  {
    var (a, key) := (s.pending[i].addr, s.pending[i].key);
    if a !in s.groups then s.(panicked := true)
    else
      var s1 := Settled(Landed(s, i), a, true);
      s1.(groups := s.groups[a := s.groups[a] - s.freed + {x}],
          draining := if a in s.redials then s.draining[a := s.redials[a]] else s.draining,
          sessions := s.sessions[a := x], dialled := s.dialled[x := key])
  }

  function ApplyDialErr(s: State, i: nat): State
    requires i < |s.pending|
  {
    Pruned(Settled(Landed(s, i), s.pending[i].addr, false))
  }

  function ApplyReset(s: State): State {
    s.(sessions := map[], draining := map[], waiters := map[], inFlight := {}, pending := [], redials := map[],
       groups := map[], explorers := {},
       status := map r | r in s.status :: if s.status[r].Waiting? then Answered(false) else s.status[r])
  }

  function Apply(s: State, step: Step, explore: bool): State
    requires Enabled(s, step)
  {
    match step
    case Connect(a, key, r) => ApplyConnect(s, a, key, r, explore)
    case Redial(a, wanted) => ApplyRedial(s, a, wanted, explore)
    case DialOk(i, x) => ApplyDialOk(s, i, x)
    case DialErr(i) => ApplyDialErr(s, i)
    case Reset => ApplyReset(s)
    case SessionEnds(a, x) =>
      Pruned(if a in s.sessions && s.sessions[a] == x then s.(sessions := s.sessions - {a}) else s)
    case Die(x) => s.(dead := s.dead + {x})
    case Free(x) => s.(freed := s.freed + {x})
    case Close(r) => s.(closed := s.closed + {r})
  }
}
