/** That what a poll reports is true: an answer is final, a failure has a cause, and so has a wait. */
module WriteHalfReports {
  import opened Options
  import opened WriteHalf
  import opened WriteHalfProof

  // ---------------------------------------------------------------- who owes which reply

  predicate Asks(c: Command) {
    c.Flush? || c.Shutdown?
  }

  predicate Runs(t: Task) {
    t.Flushing? || t.Finalizing? || t.Replying?
  }

  predicate Open(replies: seq<Reply>, id: nat) {
    id < |replies| && replies[id].Waiting?
  }

  /** A reply is owed by at most one command, queued or running, and an owed reply is open. */
  predicate Owed(queue: seq<Command>, replies: seq<Reply>, task: Task) {
    && (forall i :: 0 <= i < |queue| && Asks(queue[i]) ==> Open(replies, queue[i].id))
    && (forall i, j :: 0 <= i < j < |queue| && Asks(queue[i]) && Asks(queue[j]) ==> queue[i].id != queue[j].id)
    && (Runs(task) ==> Open(replies, task.id) && !Queued(queue, task.id))
  }

  /** While the writer lives, an open reply is owed. */
  ghost predicate Covered(queue: seq<Command>, replies: seq<Reply>, task: Task) {
    !task.Ended? ==> forall id: nat :: Open(replies, id) ==> Queued(queue, id) || Running(task, id)
  }

  predicate Unlucky(replies: seq<Reply>) {
    exists id :: 0 <= id < |replies| && (replies[id] == Answered(false) || replies[id] == Lost)
  }

  /** The writer is stopping, or something the half can see says so. */
  predicate Stopped(senderOpen: bool, task: Task, replies: seq<Reply>) {
    || !senderOpen || Unlucky(replies) || task.Leaving? || task.Ended? || task.Finalizing?
    || (task.Replying? && (task.last || !task.ok))
  }

  /** The writer stops only after an error, or because a shutdown was begun. */
  predicate Caused(s: State) {
    Stopped(s.senderOpen, s.task, s.replies) ==> s.error || s.started
  }

  ghost predicate Honest(s: State) {
    Owed(s.queue, s.replies, s.task) && Covered(s.queue, s.replies, s.task) && Caused(s)
  }

  /** A reply that is no longer open does not change. */
  predicate Final(replies: seq<Reply>, replies': seq<Reply>) {
    && |replies| <= |replies'|
    && forall id :: 0 <= id < |replies| && !replies[id].Waiting? ==> replies'[id] == replies[id]
  }

  // ---------------------------------------------------------------- the background writer

  lemma QueuedAt(queue: seq<Command>, i: nat)
    requires i < |queue| && Asks(queue[i])
    ensures Queued(queue, queue[i].id)
  {
    assert Owes(queue[i], queue[i].id);
  }

  lemma TakeOwed(queue: seq<Command>, replies: seq<Reply>, task: Task)
    requires Owed(queue, replies, task) && Covered(queue, replies, task) && task.Ready? && queue != []
    ensures Owed(queue[1..], replies, Begin(queue[0])) && Covered(queue[1..], replies, Begin(queue[0]))
  {
    var (rest, t) := (queue[1..], Begin(queue[0]));
    assert forall i :: 0 <= i < |rest| ==> rest[i] == queue[i + 1];
    forall id: nat | Open(replies, id) ensures Queued(rest, id) || Running(t, id) {
      var i :| 0 <= i < |queue| && Owes(queue[i], id);
      if i > 0 { assert Owes(rest[i - 1], id); }
    }
  }

  lemma ReplyOwed(queue: seq<Command>, replies: seq<Reply>, task: Task)
    requires Owed(queue, replies, task) && Covered(queue, replies, task) && task.Replying?
    ensures var after := if task.last then Leaving else Ready;
            var replies' := Answer(replies, task.id, Answered(task.ok));
            Owed(queue, replies', after) && Covered(queue, replies', after) && Final(replies, replies')
  {
    var replies' := Answer(replies, task.id, Answered(task.ok));
    forall i | 0 <= i < |queue| && Asks(queue[i]) ensures Open(replies', queue[i].id) { QueuedAt(queue, i); }
    forall id: nat | Open(replies', id) ensures Queued(queue, id) { assert Open(replies, id) && id != task.id; }
  }

  lemma LoseOwed(queue: seq<Command>, replies: seq<Reply>, task: Task, id: nat)
    requires Owed(queue, replies, task) && Covered(queue, replies, task)
    requires Open(replies, id) && !Queued(queue, id) && !Running(task, id)
    ensures task.Ended?
    ensures Owed(queue, replies[id := Lost], task) && Final(replies, replies[id := Lost])
  {
    forall i | 0 <= i < |queue| && Asks(queue[i]) ensures Open(replies[id := Lost], queue[i].id) { QueuedAt(queue, i); }
  }

  lemma EndOwed(queue: seq<Command>, replies: seq<Reply>, task: Task)
    requires Owed(queue, replies, task)
    ensures Owed([], Dropped(queue, replies), Ended) && Final(replies, Dropped(queue, replies))
  {
    forall id | 0 <= id < |replies| && !replies[id].Waiting? ensures !Queued(queue, id) {
      forall i | 0 <= i < |queue| ensures !Owes(queue[i], id) { assert Asks(queue[i]) ==> Open(replies, queue[i].id); }
    }
  }

  lemma EndsOwed(queue: seq<Command>, replies: seq<Reply>, task: Task, after: Task)
    requires Owed(queue, replies, task) && Covered(queue, replies, task)
    requires (task.Flushing? || task.Finalizing?) && after.Replying? && after.id == task.id
    ensures Owed(queue, replies, after) && Covered(queue, replies, after)
  {
    assert forall id: nat :: Running(after, id) <==> Running(task, id);
  }

  lemma BackgroundOwed(s: State, b: Background)
    requires Owed(s.queue, s.replies, s.task) && Covered(s.queue, s.replies, s.task) && BackgroundEnabled(s, b)
    ensures var s' := ApplyBackground(s, b);
            && Owed(s'.queue, s'.replies, s'.task) && Covered(s'.queue, s'.replies, s'.task)
            && Final(s.replies, s'.replies)
  {
    match b {
      case Take => TakeOwed(s.queue, s.replies, s.task);
      case SendReply => ReplyOwed(s.queue, s.replies, s.task);
      case End => EndOwed(s.queue, s.replies, s.task);
      case LoseReply(id) => LoseOwed(s.queue, s.replies, s.task, id);
      case FlushEnds(_) => EndsOwed(s.queue, s.replies, s.task, ApplyBackground(s, b).task);
      case FinalizeEnds(_) => EndsOwed(s.queue, s.replies, s.task, ApplyBackground(s, b).task);
      case _ => assert forall id: nat :: Running(ApplyBackground(s, b).task, id) <==> Running(s.task, id);
    }
  }

  lemma BackgroundCaused(s: State, b: Background)
    requires Honest(s) && BackgroundEnabled(s, b)
    requires s.task.Ready? && s.queue != [] && s.queue[0].Shutdown? ==> s.started
    ensures Caused(ApplyBackground(s, b))
  {
    if b.LoseReply? { LoseOwed(s.queue, s.replies, s.task, b.id); }
    hide Owed, Covered;
  }

  lemma BackgroundHonest(s: State, b: Background)
    requires Inv(s) && Honest(s) && BackgroundEnabled(s, b)
    ensures Honest(ApplyBackground(s, b)) && Final(s.replies, ApplyBackground(s, b).replies)
  {
    assert s.task.Ready? && s.queue != [] && s.queue[0].Shutdown? ==> s.started by {
      if s.queue != [] && s.queue[0].Shutdown? { assert Awaited(s, s.queue[0].id); }
    }
    BackgroundOwed(s, b);
    BackgroundCaused(s, b);
    hide Owed, Covered, Caused, Final;
  }

  // ---------------------------------------------------------------- the half

  /** A control is sent: its reply is open, and the command, if anyone will read it, owes it. */
  lemma SendOwed(s: State, c: Command, replies: seq<Reply>)
    requires Owed(s.queue, s.replies, s.task) && Covered(s.queue, s.replies, s.task)
    requires s.task.Ended? ==> s.queue == []
    requires if Asks(c) then c.id == |s.replies| && replies == s.replies + [Waiting] else replies == s.replies
    ensures var s' := Send(s, c);
            Owed(s'.queue, replies, s.task) && Covered(s'.queue, replies, s.task) && Final(s.replies, replies)
  {
    var q := Send(s, c).queue;
    if !s.task.Ended? {
      assert q == s.queue + [c];
      forall id: nat ensures Queued(q, id) <==> Queued(s.queue, id) || Owes(c, id) { QueuedMore(s.queue, c, id); }
      forall i | 0 <= i < |s.queue| && Asks(s.queue[i]) ensures s.queue[i].id < |s.replies| {
        assert Open(s.replies, s.queue[i].id);
      }
    }
    forall id: nat ensures Open(replies, id) <==> Open(s.replies, id) || (Asks(c) && id == |s.replies|) {}
  }

  lemma QueuedMore(queue: seq<Command>, c: Command, id: nat)
    ensures Queued(queue + [c], id) <==> Queued(queue, id) || Owes(c, id)
  {
    var q := queue + [c];
    assert q[|queue|] == c;
    if Queued(queue, id) {
      var i :| 0 <= i < |queue| && Owes(queue[i], id);
      assert Owes(q[i], id);
    }
  }

  lemma SendCaused(replies: seq<Reply>)
    ensures Unlucky(replies + [Waiting]) <==> Unlucky(replies)
  {
    var all := replies + [Waiting];
    assert forall id :: 0 <= id < |replies| ==> all[id] == replies[id];
  }

  /** The half's accesses that neither send nor close anything. */
  predicate Quiet(s: State, s': State) {
    && s'.queue == s.queue && s'.replies == s.replies && s'.task == s.task
    && s'.error == s.error && s'.started == s.started && s'.senderOpen == s.senderOpen
  }

  lemma QuietHonest(s: State, s': State)
    requires Honest(s) && Quiet(s, s')
    ensures Honest(s') && Final(s.replies, s'.replies)
  {}

  /** They may also close the channel, once there is a cause. */
  lemma ClosingHonest(s: State, s': State)
    requires Honest(s) && Quiet(s, s'.(senderOpen := s.senderOpen))
    requires s'.senderOpen == s.senderOpen || s.error || s.started
    ensures Honest(s') && Final(s.replies, s'.replies)
  {
    hide Owed, Covered;
  }

  lemma ControlQuiet(s: State)
    requires ControlOk(s)
    ensures var s' := TakeControl(s);
            Quiet(s, s'.(senderOpen := s.senderOpen)) && (s'.senderOpen == s.senderOpen || s.started)
  {}

  predicate AtControl(p: Poll) {
    p.WriteControl? || p.FlushControl? || p.ShutdownControl?
  }

  lemma ControlHonest(s: State)
    requires Inv(s) && Honest(s) && AtControl(s.poll)
    ensures Honest(Apply(s, Advance)) && Final(s.replies, Apply(s, Advance).replies)
  {
    AfterControl(s);
    ControlQuiet(s);
    hide Inv, Honest, Final, Apply, TakeControl, Look, GoesOn;
    ClosingHonest(s, Apply(s, Advance));
  }

  lemma WriteGateQuiet(s: State)
    requires s.poll.WriteGate? || s.poll.WriteReserve?
    ensures Quiet(s, Apply(s, Advance))
  {
    hide Reserve, TakeControl, Look, Chunk, Send;
  }

  lemma FlushGateQuiet(s: State)
    requires s.poll.FlushGate? || s.poll.FlushReserve?
    ensures Quiet(s, Apply(s, Advance))
  {
    hide Reserve, TakeControl, Look, Send;
  }

  /** A shutdown closes the channel on an error, or when the channel was closed or the writer ended already. */
  lemma ShutdownGateCloses(s: State)
    requires Caused(s) && (s.poll.ShutdownGate? || s.poll.ShutdownReserve? || s.poll.Join?)
    ensures var s' := Apply(s, Advance);
            Quiet(s, s'.(senderOpen := s.senderOpen)) && (s'.senderOpen == s.senderOpen || s.error || s.started)
  {
    if s.poll.ShutdownReserve? { ReserveCloses(s); } else if s.poll.Join? { JoinQuiet(s); } else { ErrorCloses(s); }
    hide Apply;
  }

  lemma ErrorCloses(s: State)
    requires s.poll.ShutdownGate?
    ensures var s' := Apply(s, Advance);
            Quiet(s, s'.(senderOpen := s.senderOpen)) && (s'.senderOpen == s.senderOpen || s.error)
  {}

  lemma ReserveCloses(s: State)
    requires Caused(s) && s.poll.ShutdownReserve?
    ensures var s' := Apply(s, Advance);
            Quiet(s, s'.(senderOpen := s.senderOpen)) && (s'.senderOpen == s.senderOpen || s.error || s.started)
  {
    assert Reserve(s).Closed? ==> s.error || s.started;
    hide Reserve, Caused;
  }

  lemma JoinQuiet(s: State)
    requires s.poll.Join?
    ensures Quiet(s, Apply(s, Advance))
  {}

  lemma DataHonest(s: State)
    requires Honest(s) && s.poll.WriteSend? && (s.task.Ended? ==> s.queue == [])
    ensures Honest(Apply(s, Advance)) && Final(s.replies, Apply(s, Advance).replies)
  {
    var chunk := Chunk(s.poll.data);
    SendOwed(s, Data(chunk), s.replies);
    hide Owed, Covered, Chunk;
  }

  lemma FlushSendHonest(s: State)
    requires Honest(s) && s.poll.FlushSend? && (s.task.Ended? ==> s.queue == [])
    ensures Honest(Apply(s, Advance)) && Final(s.replies, Apply(s, Advance).replies)
  {
    SendOwed(s, Flush(|s.replies|), s.replies + [Waiting]);
    SendCaused(s.replies);
    hide Owed, Covered, Unlucky;
  }

  lemma ShutdownSendHonest(s: State)
    requires Honest(s) && s.poll.ShutdownSend? && (s.task.Ended? ==> s.queue == [])
    ensures Honest(Apply(s, Advance)) && Final(s.replies, Apply(s, Advance).replies)
  {
    SendOwed(s, Shutdown(|s.replies|), s.replies + [Waiting]);
    hide Owed, Covered, Unlucky;
  }

  lemma AdvanceHonest(s: State)
    requires Inv(s) && Honest(s) && !s.poll.Idle?
    ensures Honest(Apply(s, Advance)) && Final(s.replies, Apply(s, Advance).replies)
  {
    assert s.task.Ended? ==> s.queue == [];
    assert Caused(s);
    hide Inv, Honest, Caused, Final, Apply, Quiet;
    if AtControl(s.poll) { ControlHonest(s); }
    else if s.poll.WriteSend? { DataHonest(s); }
    else if s.poll.FlushSend? { FlushSendHonest(s); }
    else if s.poll.ShutdownSend? { ShutdownSendHonest(s); }
    else if s.poll.WriteGate? || s.poll.WriteReserve? {
      WriteGateQuiet(s);
      QuietHonest(s, Apply(s, Advance));
    } else if s.poll.FlushGate? || s.poll.FlushReserve? {
      FlushGateQuiet(s);
      QuietHonest(s, Apply(s, Advance));
    } else {
      ShutdownGateCloses(s);
      ClosingHonest(s, Apply(s, Advance));
    }
  }

  lemma StepHonest(s: State, step: Step)
    requires Inv(s) && Honest(s) && Enabled(s, step)
    ensures Honest(Apply(s, step)) && Final(s.replies, Apply(s, step).replies)
  {
    hide Inv, Honest, Final, StepWrite, StepFlush, StepShutdown, ApplyBackground;
    match step
    case Calls(c) => QuietHonest(s, Start(s, c));
    case Writer(b) => BackgroundHonest(s, b);
    case Advance => AdvanceHonest(s); hide Apply;
  }

  // ---------------------------------------------------------------- runs

  lemma {:induction false} RunHonest(s: State, steps: seq<Step>)
    requires Inv(s) && Honest(s) && Run(s, steps).Some?
    ensures Honest(Run(s, steps).value) && Final(s.replies, Run(s, steps).value.replies)
    decreases |steps|
  {
    hide Inv, Honest, Apply, Enabled;
    if steps != [] {
      StepInv(s, steps[0]);
      StepHonest(s, steps[0]);
      RunHonest(Apply(s, steps[0]), steps[1..]);
    }
  }

  lemma ReachableHonest(s: State)
    requires Reachable(s)
    ensures Honest(s)
  {
    var steps :| Run(Initial, steps) == Some(s);
    assert Inv(Initial) && Honest(Initial);
    RunHonest(Initial, steps);
  }

  lemma StepIsFinal(s: State, step: Step)
    requires Reachable(s) && Enabled(s, step)
    ensures Final(s.replies, Apply(s, step).replies)
  {
    hide Inv, Honest, Final, Apply, Enabled, Reachable;
    ReachableInv(s);
    ReachableHonest(s);
    StepHonest(s, step);
  }

  /** An answer is final: once a reply is given or lost, no run changes it. */
  lemma ReplyIsFinal(s: State, steps: seq<Step>, id: nat)
    requires Reachable(s) && Run(s, steps).Some? && id < |s.replies| && !s.replies[id].Waiting?
    ensures id < |Run(s, steps).value.replies| && Run(s, steps).value.replies[id] == s.replies[id]
  {
    hide Inv, Honest, Run, Reachable;
    ReachableInv(s);
    ReachableHonest(s);
    RunHonest(s, steps);
  }

  // ---------------------------------------------------------------- what a report means

  predicate Writes(p: Poll) {
    p.WriteControl? || p.WriteGate? || p.WriteReserve? || p.WriteSend?
  }

  predicate Flushes(p: Poll) {
    p.FlushControl? || p.FlushGate? || p.FlushReserve? || p.FlushSend?
  }

  /** The outstanding control has no answer yet. */
  predicate Unanswered(pending: Option<Control>, replies: seq<Reply>) {
    pending.Some? && Open(replies, pending.value.id)
  }

  /** The outstanding control is a flush that was answered with success. */
  predicate FlushAnswered(pending: Option<Control>, replies: seq<Reply>) {
    && pending.Some? && !pending.value.shutdown
    && pending.value.id < |replies| && replies[pending.value.id] == Answered(true)
  }

  /** A failure has a cause, and so has a wait: an open control, or eight commands in the queue. */
  predicate Justified(s: State) {
    && (s.outcome == Failed ==> s.error || s.started)
    && (s.outcome == Pending ==> Unanswered(s.pending, s.replies) || |s.queue| == 8)
  }

  lemma ControlReports(s: State)
    requires Inv(s) && Honest(s) && (s.poll.WriteControl? || s.poll.FlushControl?)
    ensures Apply(s, Advance).poll.Idle? ==> Justified(Apply(s, Advance))
  {
    AfterControl(s);
    hide Apply, QueueOk, BytesOk, PollOk, FinalOk, FlushOk, Owed, Covered;
    if Look(s).Resolved? && !Look(s).ok { assert Unlucky(s.replies); }
    hide Unlucky;
  }

  lemma WriteGateReports(s: State)
    requires Inv(s) && Honest(s) && (s.poll.WriteGate? || s.poll.WriteReserve?)
    ensures Apply(s, Advance).poll.Idle? ==> Justified(Apply(s, Advance))
  {
    assert s.complete ==> s.task.Ended?;
    assert |s.queue| <= WRITE_QUEUE_CAPACITY;
    hide QueueOk, BytesOk, PollOk, ControlOk, FinalOk, FlushOk, Owed, Covered, Unlucky;
  }

  lemma FlushGateReports(s: State)
    requires Inv(s) && Honest(s) && (s.poll.FlushGate? || s.poll.FlushReserve?)
    ensures Apply(s, Advance).poll.Idle? ==> Justified(Apply(s, Advance))
  {
    assert s.complete ==> s.task.Ended?;
    assert |s.queue| <= WRITE_QUEUE_CAPACITY;
    hide QueueOk, BytesOk, PollOk, ControlOk, FinalOk, FlushOk, Owed, Covered, Unlucky;
  }

  lemma SendReports(s: State)
    requires s.poll.WriteSend? || s.poll.FlushSend?
    ensures Apply(s, Advance).poll.Idle? && Justified(Apply(s, Advance))
  {
    hide Chunk;
  }

  /**
   A write or a flush fails only after the background writer has met an error or a shutdown was begun;
   and it is put off only while a control waits for its answer or the queue holds eight commands.
   */
  lemma ReportIsTrue(s: State)
    requires Reachable(s) && (Writes(s.poll) || Flushes(s.poll))
    ensures Apply(s, Advance).poll.Idle? ==> Justified(Apply(s, Advance))
  {
    hide Inv, Honest, Apply, Reachable, Justified;
    ReachableInv(s);
    ReachableHonest(s);
    if s.poll.WriteControl? || s.poll.FlushControl? { ControlReports(s); }
    else if s.poll.WriteSend? || s.poll.FlushSend? { SendReports(s); }
    else if s.poll.WriteGate? || s.poll.WriteReserve? { WriteGateReports(s); }
    else { FlushGateReports(s); }
  }

  /** A shutdown waits for room in the queue, for the answer to its command, or for the writer to end. */
  predicate HasReason(s: State) {
    || (!s.started && |s.queue| == 8)
    || (s.started && Unanswered(s.pending, s.replies))
    || (s.result.Some? && !s.task.Ended?)
  }

  /** A shutdown is put off only for one of those reasons. */
  lemma ShutdownWaits(s: State)
    requires Reachable(s) && !s.poll.Idle? && !Writes(s.poll) && !Flushes(s.poll)
    ensures Apply(s, Advance).poll.Idle? && Apply(s, Advance).outcome == Pending ==> HasReason(Apply(s, Advance))
  {
    hide Reachable;
    ReachableInv(s);
    assert |s.queue| <= WRITE_QUEUE_CAPACITY;
    if s.poll.ShutdownControl? {
      AfterControl(s);
      ControlQuiet(s);
      assert s.started;
      hide Apply, QueueOk, BytesOk, PollOk, ControlOk, FinalOk, FlushOk;
    } else if s.poll.Join? {
      hide QueueOk, BytesOk, ControlOk, FinalOk, FlushOk;
    } else {
      ReserveWaits(s);
      hide Apply, Inv;
    }
  }

  lemma ReserveWaits(s: State)
    requires PollOk(s) && |s.queue| <= WRITE_QUEUE_CAPACITY
    requires s.poll.ShutdownGate? || s.poll.ShutdownReserve? || s.poll.ShutdownSend?
    ensures Apply(s, Advance).poll.Idle? ==> HasReason(Apply(s, Advance))
  {
    hide TakeControl, Look;
  }

  ghost predicate OnlyWriter(steps: seq<Step>) {
    forall i :: 0 <= i < |steps| ==> steps[i].Writer?
  }

  lemma {:induction false} WriterLeaves(s: State, steps: seq<Step>)
    requires Run(s, steps).Some? && OnlyWriter(steps)
    ensures var s' := Run(s, steps).value; s'.pending == s.pending && s'.poll == s.poll
    decreases |steps|
  {
    hide ApplyBackground, BackgroundEnabled;
    if steps != [] {
      BackgroundFrame(s, steps[0].b);
      WriterLeaves(Apply(s, steps[0]), steps[1..]);
    }
  }

  /** Only what the half shares with its writer differs. */
  predicate OnlyShared(s: State, t: State) {
    && t.pending == s.pending && t.started == s.started && t.complete == s.complete && t.result == s.result
    && t.poll == s.poll && t.outcome == s.outcome
    && (s.task.Ended? ==> t.task.Ended?)
  }

  lemma BackgroundFrame(s: State, b: Background)
    requires BackgroundEnabled(s, b)
    ensures OnlyShared(s, ApplyBackground(s, b))
  {
    hide Queued, Running, Dropped, Answer, Begin;
    match b {
      case RebindFails =>
      case Take =>
      case Deliver(_) =>
      case WriteFails =>
      case FlushEnds(_) =>
      case FinalizeEnds(_) =>
      case SendReply =>
      case ChannelClosed =>
      case End =>
      case LoseReply(_) =>
    }
  }

  /**
   Once a flush is answered with success, the next flush reports it and the next write goes past it,
   whatever the background writer does before the poll looks.
   */
  lemma AnsweredFlushReports(s: State, data: Bytes, steps: seq<Step>)
    requires Reachable(s) && s.poll.Idle? && FlushAnswered(s.pending, s.replies) && OnlyWriter(steps)
    ensures Run(Start(s, FlushCall), steps).Some? ==>
              var s1 := Run(Start(s, FlushCall), steps).value;
              && Enabled(s1, Advance) && Apply(s1, Advance).poll.Idle?
              && Apply(s1, Advance).outcome == Flushed && Apply(s1, Advance).pending.None?
    ensures Run(Start(s, Write(data)), steps).Some? ==>
              var s1 := Run(Start(s, Write(data)), steps).value;
              && Enabled(s1, Advance) && Apply(s1, Advance).poll == WriteGate(data)
              && Apply(s1, Advance).pending.None?
  {
    hide Inv, Reachable;
    if Run(Start(s, FlushCall), steps).Some? { StillAnswered(s, FlushCall, steps); }
    if Run(Start(s, Write(data)), steps).Some? { StillAnswered(s, Write(data), steps); }
    hide Run;
  }

  lemma StillAnswered(s: State, c: Call, steps: seq<Step>)
    requires Reachable(s) && s.poll.Idle? && FlushAnswered(s.pending, s.replies) && OnlyWriter(steps)
             && !c.ShutdownCall?
    requires Run(Start(s, c), steps).Some?
    ensures var s' := Run(Start(s, c), steps).value;
            s'.poll == Start(s, c).poll && FlushAnswered(s'.pending, s'.replies)
  {
    hide Run;
    ReachStep(s, Calls(c));
    hide Reachable;
    WriterLeaves(Start(s, c), steps);
    ReplyIsFinal(Start(s, c), steps, s.pending.value.id);
  }
}
