/**
 The migrating write half: a bounded command queue, a background writer, and the
 poll-driven write, flush and shutdown operations.

 The half and the background writer run on different threads, so a poll is not atomic:
 each access it makes to something shared (a reply, the error slot, the channel, the
 join set) is one step, and background steps may come between any two of them.
 */
module WriteHalf {
  import opened Options

  type Bytes = seq<int>

  const WRITE_QUEUE_CAPACITY: nat := 8
  const WRITE_MAX_CHUNK: nat := 64 * 1024

  datatype Command = Data(bytes: Bytes) | Flush(id: nat) | Shutdown(id: nat)

  /** A one-shot reply: unanswered, answered with success or failure, or its sender dropped. */
  datatype Reply = Waiting | Answered(ok: bool) | Lost

  datatype Control = Control(shutdown: bool, id: nat)

  /**
   What the background writer is doing. `Replying`: a flush or a finalize is over (a failure
   is already in the error slot) and its reply is not sent yet. `Leaving`: the writer has
   left its loop and is about to end, which drops the receiver. `Ended`: the task is over.
   */
  datatype Task =
    | Ready | Writing(rest: Bytes) | Flushing(id: nat) | Finalizing(id: nat)
    | Replying(id: nat, ok: bool, last: bool) | Leaving | Ended

  /** Where a poll stands. */
  datatype Poll =
    | Idle
    | WriteControl(data: Bytes) | WriteGate(data: Bytes) | WriteReserve(data: Bytes) | WriteSend(data: Bytes)
    | FlushControl | FlushGate | FlushReserve | FlushSend
    | ShutdownGate | ShutdownReserve | ShutdownSend | ShutdownControl | Join

  /** What a finished poll returned. */
  datatype Outcome = Pending | Wrote(n: nat) | Flushed | ShutDown | Failed

  /**
   `accepted`: the bytes `poll_write` took. `delivered`: the bytes the migrating writer
   was handed. `flushed`: how many of them the last successful flush covered. `finalized`:
   a shutdown command's finalize succeeded. `shutdowns`: shutdown commands sent. `verdict`:
   what the first completed `poll_shutdown` returned.
   */
  datatype History = History(
    accepted: Bytes, delivered: Bytes, flushed: nat, finalized: bool, shutdowns: nat, verdict: Option<bool>)

  datatype State = State(
    queue: seq<Command>,
    reserved: bool,
    senderOpen: bool,
    replies: seq<Reply>,
    error: bool,
    task: Task,
    joined: bool,
    pending: Option<Control>,
    started: bool,
    complete: bool,
    result: Option<bool>,
    poll: Poll,
    outcome: Outcome,
    h: History)

  const Initial: State :=
    State([], false, true, [], false, Ready, false, None, false, false, None, Idle, Pending,
          History([], [], 0, false, 0, None))

  // ---------------------------------------------------------------- the background writer

  datatype Background =
    | RebindFails
    | Take
    | Deliver(n: nat)
    | WriteFails
    | FlushEnds(ok: bool)
    | FinalizeEnds(ok: bool)
    | SendReply
    | ChannelClosed
    | End
    | LoseReply(id: nat)

  function Answer(replies: seq<Reply>, id: nat, r: Reply): seq<Reply> {
    if id < |replies| then replies[id := r] else replies
  }

  /** The reply a queued or running command owes. */
  predicate Owes(c: Command, id: nat) {
    (c.Flush? || c.Shutdown?) && c.id == id
  }

  predicate Queued(queue: seq<Command>, id: nat) {
    exists i :: 0 <= i < |queue| && Owes(queue[i], id)
  }

  predicate Running(t: Task, id: nat) {
    (t.Flushing? || t.Finalizing? || t.Replying?) && t.id == id
  }

  /** The replies after the receiver is dropped with `queue` still in it. */
  function Dropped(queue: seq<Command>, replies: seq<Reply>): (r: seq<Reply>)
    ensures |r| == |replies|
    ensures forall i :: 0 <= i < |r| ==> r[i] == if Queued(queue, i) then Lost else replies[i]
  {
    seq(|replies|, i requires 0 <= i < |replies| => if Queued(queue, i) then Lost else replies[i])
  }

  predicate BackgroundEnabled(s: State, b: Background) {
    match b
    case RebindFails => s.task.Ready?
    case Take => s.task.Ready? && s.queue != []
    case Deliver(n) => s.task.Writing? && n <= |s.task.rest|
    case WriteFails => s.task.Writing?
    case FlushEnds(_) => s.task.Flushing?
    case FinalizeEnds(_) => s.task.Finalizing?
    case SendReply => s.task.Replying?
    case ChannelClosed => s.task.Ready? && s.queue == [] && !s.senderOpen && !s.reserved
    case End => s.task.Leaving?
    case LoseReply(id) => id < |s.replies| && s.replies[id].Waiting? && !Queued(s.queue, id) && !Running(s.task, id)
  }

  function Begin(c: Command): Task {
    match c
    case Data(bytes) => Writing(bytes)
    case Flush(id) => Flushing(id)
    case Shutdown(id) => Finalizing(id)
  }

  function ApplyBackground(s: State, b: Background): State
    requires BackgroundEnabled(s, b)
  {
    match b
    case RebindFails => s.(error := true, task := Leaving)
    case Take => s.(queue := s.queue[1..], task := Begin(s.queue[0]))
    case Deliver(n) =>
      var rest := s.task.rest[n..];
      s.(h := s.h.(delivered := s.h.delivered + s.task.rest[..n]), task := if rest == [] then Ready else Writing(rest))
    case WriteFails => s.(error := true, task := Leaving)
    case FlushEnds(ok) =>
      s.(error := s.error || !ok, task := Replying(s.task.id, ok, !ok),
         h := if ok then s.h.(flushed := |s.h.delivered|) else s.h)
    case FinalizeEnds(ok) =>
      s.(error := s.error || !ok, task := Replying(s.task.id, ok, true), h := s.h.(finalized := ok))
    case SendReply =>
      s.(replies := Answer(s.replies, s.task.id, Answered(s.task.ok)), task := if s.task.last then Leaving else Ready)
    case ChannelClosed => s.(task := Leaving)
    case End => s.(task := Ended, queue := [], replies := Dropped(s.queue, s.replies))
    case LoseReply(id) => s.(replies := s.replies[id := Lost])
  }

  // ---------------------------------------------------------------- the half

  /** The first slice of the offered bytes that one command may carry. */
  function Chunk(data: Bytes): (r: Bytes)
    ensures r <= data && |r| == if |data| <= 65_536 then |data| else 65_536
  {
    if |data| <= WRITE_MAX_CHUNK then data else data[..WRITE_MAX_CHUNK]
  }

  function Return(s: State, o: Outcome): State {
    s.(poll := Idle, outcome := o)
  }

  /** Starts a poll: the caller picks the operation. */
  datatype Call = Write(data: Bytes) | FlushCall | ShutdownCall

  function Start(s: State, c: Call): State {
    match c
    case Write(data) => s.(poll := WriteControl(data))
    case FlushCall => s.(poll := FlushControl)
    case ShutdownCall =>
      if s.complete then Return(s, ShutDown)
      else if s.started then s.(poll := ShutdownControl)
      else s.(poll := ShutdownGate)
  }

  /** What `poll_pending_control` found. */
  datatype Found = NoControl | Unresolved | Resolved(shutdown: bool, ok: bool)

  function Look(s: State): Found {
    if s.pending.None? then NoControl
    else if s.pending.value.id >= |s.replies| || s.replies[s.pending.value.id].Waiting? then Unresolved
    else Resolved(s.pending.value.shutdown, s.replies[s.pending.value.id] == Answered(true))
  }

  /** `poll_pending_control`: joins a finished task, takes a resolved control, and keeps a shutdown's result. */
  function TakeControl(s: State): State {
    var s1 := if s.task.Ended? then s.(joined := true) else s;
    match Look(s)
    case Resolved(shutdown, ok) =>
      if shutdown then s1.(pending := None, senderOpen := false, result := Some(ok)) else s1.(pending := None)
    case _ => s1
  }

  /** Whether `poll_reserve` can report a slot, a closed channel, or neither. */
  datatype Slot = Free | Closed | Full

  function Reserve(s: State): Slot {
    if s.reserved then Free
    else if !s.senderOpen || s.task.Ended? then Closed
    else if |s.queue| < WRITE_QUEUE_CAPACITY then Free
    else Full
  }

  /** `send_item` into the reserved slot; after the receiver is gone the command is never read. */
  function Send(s: State, c: Command): State {
    s.(reserved := false, queue := if s.task.Ended? then s.queue else s.queue + [c])
  }

  function Fail(s: State): State {
    s.(senderOpen := false, result := Some(false), poll := Join)
  }

  function StepWrite(s: State): State
    requires s.poll.WriteControl? || s.poll.WriteGate? || s.poll.WriteReserve? || s.poll.WriteSend?
  {
    var data := s.poll.data;
    match s.poll
    case WriteControl(_) =>
      var s1 := TakeControl(s);
      match Look(s) {
        case NoControl => s1.(poll := WriteGate(data))
        case Unresolved => Return(s1, Pending)
        case Resolved(shutdown, ok) => if shutdown || !ok then Return(s1, Failed) else s1.(poll := WriteGate(data))
      }
    case WriteGate(_) =>
      if s.complete || s.started || s.error then Return(s, Failed) else s.(poll := WriteReserve(data))
    case WriteReserve(_) =>
      (match Reserve(s)
       case Free => s.(reserved := true, poll := WriteSend(data))
       case Closed => Return(s, Failed)
       case Full => Return(s, Pending))
    case WriteSend(_) =>
      var chunk := Chunk(data);
      if chunk == [] then Return(s, Wrote(0))
      else Return(Send(s, Data(chunk)).(h := s.h.(accepted := s.h.accepted + chunk)), Wrote(|chunk|))
  }

  function StepFlush(s: State): State
    requires s.poll.FlushControl? || s.poll.FlushGate? || s.poll.FlushReserve? || s.poll.FlushSend?
  {
    match s.poll
    case FlushControl =>
      var s1 := TakeControl(s);
      match Look(s) {
        case NoControl => s1.(poll := FlushGate)
        case Unresolved => Return(s1, Pending)
        case Resolved(shutdown, ok) => Return(s1, if !shutdown && ok then Flushed else Failed)
      }
    case FlushGate => if s.complete || s.started || s.error then Return(s, Failed) else s.(poll := FlushReserve)
    case FlushReserve =>
      (match Reserve(s)
       case Free => s.(reserved := true, poll := FlushSend)
       case Closed => Return(s, Failed)
       case Full => Return(s, Pending))
    case FlushSend =>
      var id := |s.replies|;
      Return(Send(s, Flush(id)).(replies := s.replies + [Waiting], pending := Some(Control(false, id))), Pending)
  }

  function StepShutdown(s: State): State
    requires s.poll.ShutdownGate? || s.poll.ShutdownReserve? || s.poll.ShutdownSend? || s.poll.ShutdownControl?
             || s.poll.Join?
  {
    match s.poll
    case ShutdownGate => if s.error then Fail(s) else s.(poll := ShutdownReserve)
    case ShutdownReserve =>
      (match Reserve(s)
       case Free => s.(reserved := true, poll := ShutdownSend)
       case Closed => Fail(s)
       case Full => Return(s, Pending))
    case ShutdownSend =>
      var id := |s.replies|;
      Send(s, Shutdown(id)).(replies := s.replies + [Waiting], pending := Some(Control(true, id)), started := true,
                             poll := ShutdownControl, h := s.h.(shutdowns := s.h.shutdowns + 1))
    case ShutdownControl =>
      var s1 := TakeControl(s);
      match Look(s) {
        case NoControl => s1.(poll := Join)
        case Unresolved => Return(s1, Pending)
        case Resolved(shutdown, ok) => if shutdown || ok then s1.(poll := Join) else Fail(s1)
      }
    case Join =>
      if s.task.Ended? then
        var ok := s.result == Some(true);
        Return(s.(joined := true, complete := true, result := None, h := s.h.(verdict := Some(ok))),
               if ok then ShutDown else Failed)
      else Return(s, Pending)
  }

  datatype Step = Calls(c: Call) | Advance | Writer(b: Background)

  predicate Enabled(s: State, step: Step) {
    match step
    case Calls(_) => s.poll.Idle?
    case Advance => !s.poll.Idle?
    case Writer(b) => BackgroundEnabled(s, b)
  }

  function Apply(s: State, step: Step): State
    requires Enabled(s, step)
  {
    match step
    case Calls(c) => Start(s, c)
    case Advance =>
      if s.poll.WriteControl? || s.poll.WriteGate? || s.poll.WriteReserve? || s.poll.WriteSend? then StepWrite(s)
      else if s.poll.FlushControl? || s.poll.FlushGate? || s.poll.FlushReserve? || s.poll.FlushSend? then StepFlush(s)
      else StepShutdown(s)
    case Writer(b) => ApplyBackground(s, b)
  }
}
