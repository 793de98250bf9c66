/** What every step of the write half and its background writer keeps, and what a run therefore promises. */
module WriteHalfProof {
  import opened Options
  import opened WriteHalf

  // ---------------------------------------------------------------- invariants

  /** The bytes still queued, in order. */
  function QueuedBytes(queue: seq<Command>): Bytes {
    if queue == [] then []
    else (if queue[0].Data? then queue[0].bytes else []) + QueuedBytes(queue[1..])
  }

  function Rest(t: Task): Bytes {
    if t.Writing? then t.rest else []
  }

  /** The writer has not left its loop. */
  predicate InLoop(t: Task) {
    !t.Leaving? && !t.Ended?
  }

  predicate CommandOk(c: Command, replies: nat) {
    match c
    case Data(bytes) => 0 < |bytes| <= WRITE_MAX_CHUNK
    case Flush(id) => id < replies
    case Shutdown(id) => id < replies
  }

  /** The queue respects its capacity and its chunks, and a shutdown command is its last command. */
  predicate QueueOk(s: State) {
    && |s.queue| + (if s.reserved then 1 else 0) <= WRITE_QUEUE_CAPACITY
    && (forall i :: 0 <= i < |s.queue| ==> CommandOk(s.queue[i], |s.replies|))
    && (forall i :: 0 <= i < |s.queue| && s.queue[i].Shutdown? ==> i == |s.queue| - 1)
    && (s.task.Ended? || s.task.Finalizing? ==> s.queue == [])
    && (s.task.Replying? && s.task.last && s.task.ok ==> s.queue == [])
    && (s.task.Flushing? || s.task.Finalizing? || s.task.Replying? ==> s.task.id < |s.replies|)
  }

  /** Every accepted byte is delivered, in the writer's hands, or queued, until the writer gives up. */
  predicate BytesOk(s: State) {
    && s.h.delivered <= s.h.accepted
    && s.h.flushed <= |s.h.delivered|
    && (InLoop(s.task) ==> s.h.accepted == s.h.delivered + Rest(s.task) + QueuedBytes(s.queue))
  }

  predicate Sending(p: Poll) {
    p.WriteReserve? || p.WriteSend? || p.FlushReserve? || p.FlushSend?
  }

  /** Where a poll can stand, given what the half remembers. */
  predicate PollOk(s: State) {
    && (s.poll.WriteGate? || s.poll.FlushGate? ==> s.pending.None?)
    && (Sending(s.poll) ==> s.pending.None? && !s.started && !s.complete)
    && (s.poll.ShutdownGate? || s.poll.ShutdownReserve? || s.poll.ShutdownSend? ==> !s.started && !s.complete)
    && (s.poll.ShutdownControl? ==> s.started && !s.complete)
    && (s.poll.Join? ==> s.result.Some? && !s.complete)
    && (s.poll.WriteSend? || s.poll.FlushSend? || s.poll.ShutdownSend? ==> s.reserved)
    && (s.poll.ShutdownReserve? && s.result.Some? ==> !s.senderOpen && !s.reserved)
    && (s.poll.ShutdownSend? ==> s.result.None?)
  }

  /** The half's own bookkeeping. */
  predicate ControlOk(s: State) {
    && (s.pending.Some? ==> s.pending.value.id < |s.replies|)
    && (s.pending.Some? && s.pending.value.shutdown ==> s.started && s.result.None? && !s.complete)
    && (s.started && !s.complete ==> s.result.Some? || (s.pending.Some? && s.pending.value.shutdown))
    && (s.started && s.pending.Some? ==> s.pending.value.shutdown)
    && (s.complete <==> s.h.verdict.Some?)
    && (s.complete ==> s.joined && s.result.None?)
    && (s.joined ==> s.task.Ended?)
    && (s.result.Some? && !s.started ==> s.error || (!s.senderOpen && !s.reserved))
    && s.h.shutdowns == if s.started then 1 else 0
  }

  /** The shutdown command `id` is the one the half waits for. */
  predicate Awaited(s: State, id: nat) {
    s.pending == Some(Control(true, id)) && id < |s.replies| && s.replies[id].Waiting?
  }

  predicate Replied(s: State, r: Reply) {
    && s.pending.Some? && s.pending.value.shutdown
    && s.pending.value.id < |s.replies| && s.replies[s.pending.value.id] == r
  }

  /** A finalize succeeded exactly when that is what the half was, is or will be told. */
  predicate FinalOk(s: State) {
    && (forall i :: 0 <= i < |s.queue| && s.queue[i].Shutdown? ==> Awaited(s, s.queue[i].id) && !s.h.finalized)
    && (s.task.Finalizing? ==> Awaited(s, s.task.id) && !s.h.finalized)
    && (s.h.finalized ==> s.started && s.h.accepted == s.h.delivered && s.queue == [])
    && (s.h.finalized ==>
          || (s.task.Replying? && s.task.ok && s.task.last && Awaited(s, s.task.id))
          || (!InLoop(s.task) && Replied(s, Answered(true)))
          || (!InLoop(s.task) && s.result == Some(true))
          || s.h.verdict == Some(true))
    && (s.task.Replying? && s.task.ok && s.task.last ==> s.h.finalized)
    && (Replied(s, Answered(true)) || s.result == Some(true) || s.h.verdict == Some(true) ==> s.h.finalized)
    && (s.task.Replying? && s.pending == Some(Control(true, s.task.id)) ==>
          s.task.last && s.task.ok == s.h.finalized && s.queue == [])
    && (s.task.Flushing? ==> s.pending != Some(Control(true, s.task.id)))
  }

  /** The half waits for the flush `id`. */
  predicate Waits(s: State, id: nat) {
    s.pending == Some(Control(false, id))
  }

  predicate FlushReplied(s: State) {
    && s.pending.Some? && !s.pending.value.shutdown
    && s.pending.value.id < |s.replies| && s.replies[s.pending.value.id] == Answered(true)
  }

  predicate NoDataAfter(queue: seq<Command>, i: int) {
    forall j :: 0 <= j < |queue| && i < j ==> !queue[j].Data?
  }

  /** A flush the half waits for covers everything accepted so far. */
  predicate FlushOk(s: State) {
    && (forall i :: 0 <= i < |s.queue| && s.queue[i].Flush? && Waits(s, s.queue[i].id) ==> NoDataAfter(s.queue, i))
    && (s.task.Flushing? && Waits(s, s.task.id) ==> NoDataAfter(s.queue, -1))
    && (s.task.Replying? && s.task.ok && Waits(s, s.task.id) ==> s.h.flushed == |s.h.accepted|)
    && (FlushReplied(s) ==> s.h.flushed == |s.h.accepted|)
    && (forall i :: 0 <= i < |s.queue| && s.queue[i].Flush? ==> s.pending != Some(Control(true, s.queue[i].id)))
  }

  ghost predicate Inv(s: State) {
    QueueOk(s) && BytesOk(s) && PollOk(s) && ControlOk(s) && FinalOk(s) && FlushOk(s)
  }

  // ---------------------------------------------------------------- bytes of a queue

  lemma {:induction false} BytesAppend(queue: seq<Command>, c: Command)
    ensures QueuedBytes(queue + [c]) == QueuedBytes(queue) + (if c.Data? then c.bytes else [])
  {
    var all := queue + [c];
    if queue == [] {
      assert all[1..] == [];
    } else {
      assert all[1..] == queue[1..] + [c] && all[0] == queue[0];
      BytesAppend(queue[1..], c);
      Associates(if queue[0].Data? then queue[0].bytes else [], QueuedBytes(queue[1..]),
                 if c.Data? then c.bytes else []);
    }
  }

  lemma Associates(a: Bytes, b: Bytes, c: Bytes)
    ensures a + (b + c) == (a + b) + c
  {}

  lemma {:induction false} NoBytes(queue: seq<Command>)
    requires NoDataAfter(queue, -1)
    ensures QueuedBytes(queue) == []
  {
    if queue != [] {
      assert !queue[0].Data?;
      forall j | 0 <= j < |queue[1..]| ensures !queue[1..][j].Data? { assert queue[1..][j] == queue[j + 1]; }
      NoBytes(queue[1..]);
    }
  }

  lemma {:induction false} BytesBound(queue: seq<Command>, replies: nat)
    requires forall i :: 0 <= i < |queue| ==> CommandOk(queue[i], replies)
    ensures |QueuedBytes(queue)| <= |queue| * WRITE_MAX_CHUNK
  {
    if queue != [] {
      assert CommandOk(queue[0], replies);
      forall i | 0 <= i < |queue[1..]| ensures CommandOk(queue[1..][i], replies) {
        assert queue[1..][i] == queue[i + 1];
      }
      BytesBound(queue[1..], replies);
    }
  }

  // ---------------------------------------------------------------- background steps

  lemma TakeInv(s: State)
    requires Inv(s) && BackgroundEnabled(s, Take)
    ensures Inv(ApplyBackground(s, Take))
  {
    TakeQueue(s);
    TakeBytes(s);
    TakeFinal(s);
    TakeFlush(s);
    hide QueueOk, BytesOk, FinalOk, FlushOk;
  }

  lemma TakeBytes(s: State)
    requires Inv(s) && BackgroundEnabled(s, Take)
    ensures BytesOk(ApplyBackground(s, Take))
  {
    hide FinalOk, FlushOk, PollOk, ControlOk;
    var s' := ApplyBackground(s, Take);
    var c := s.queue[0];
    assert CommandOk(c, |s.replies|);
    assert QueuedBytes(s.queue) == (if c.Data? then c.bytes else []) + QueuedBytes(s'.queue);
    assert s.h.delivered + [] == s.h.delivered;
  }

  lemma TakeFinal(s: State)
    requires Inv(s) && BackgroundEnabled(s, Take)
    ensures FinalOk(ApplyBackground(s, Take))
  {
    hide BytesOk, PollOk;
    var s' := ApplyBackground(s, Take);
    assert CommandOk(s.queue[0], |s.replies|);
    forall i | 0 <= i < |s'.queue| ensures s'.queue[i] == s.queue[i + 1] {}
    if s.queue[0].Shutdown? { assert |s.queue| == 1; }
  }

  lemma TakeQueue(s: State)
    requires Inv(s) && BackgroundEnabled(s, Take)
    ensures QueueOk(ApplyBackground(s, Take))
  {
    hide FinalOk, FlushOk, BytesOk, PollOk, ControlOk;
    var s' := ApplyBackground(s, Take);
    assert CommandOk(s.queue[0], |s.replies|);
    forall i | 0 <= i < |s'.queue|
      ensures CommandOk(s'.queue[i], |s'.replies|)
      ensures s'.queue[i].Shutdown? ==> i == |s'.queue| - 1
    {
      assert s'.queue[i] == s.queue[i + 1];
    }
  }

  lemma TakeFlush(s: State)
    requires Inv(s) && BackgroundEnabled(s, Take)
    ensures FlushOk(ApplyBackground(s, Take))
  {
    hide FinalOk, BytesOk, PollOk;
    var s' := ApplyBackground(s, Take);
    forall i | 0 <= i < |s'.queue| && s'.queue[i].Flush? && Waits(s', s'.queue[i].id)
      ensures NoDataAfter(s'.queue, i)
    {
      assert s'.queue[i] == s.queue[i + 1];
      assert NoDataAfter(s.queue, i + 1);
      forall j | 0 <= j < |s'.queue| && i < j ensures !s'.queue[j].Data? { assert s'.queue[j] == s.queue[j + 1]; }
    }
    if s'.task.Flushing? && Waits(s', s'.task.id) {
      assert NoDataAfter(s.queue, 0);
      forall j | 0 <= j < |s'.queue| ensures !s'.queue[j].Data? { assert s'.queue[j] == s.queue[j + 1]; }
    }
    forall i | 0 <= i < |s'.queue| && s'.queue[i].Flush?
      ensures s'.pending != Some(Control(true, s'.queue[i].id))
    {
      assert s'.queue[i] == s.queue[i + 1];
    }
  }

  lemma DeliverBytes(d: Bytes, r: Bytes, q: Bytes, n: nat)
    requires n <= |r|
    ensures d + r + q == (d + r[..n]) + r[n..] + q
    ensures d + r[..n] <= d + r + q
    ensures r[n..] == [] ==> d + r + q == (d + r[..n]) + [] + q
  {
    assert r == r[..n] + r[n..];
  }

  lemma DeliverInv(s: State, n: nat)
    requires Inv(s) && BackgroundEnabled(s, Deliver(n))
    ensures Inv(ApplyBackground(s, Deliver(n)))
  {
    var s' := ApplyBackground(s, Deliver(n));
    assert BytesOk(s') by {
      hide QueueOk, PollOk, ControlOk, FinalOk, FlushOk, QueuedBytes;
      DeliverBytes(s.h.delivered, s.task.rest, QueuedBytes(s.queue), n);
    }
    hide BytesOk, QueuedBytes;
    assert FinalOk(s');
    assert FlushOk(s');
  }

  lemma ReplyInv(s: State)
    requires Inv(s) && BackgroundEnabled(s, SendReply)
    ensures Inv(ApplyBackground(s, SendReply))
  {
    var s' := ApplyBackground(s, SendReply);
    assert FinalOk(s');
    assert FlushOk(s');
  }

  lemma EndsInv(s: State, b: Background)
    requires Inv(s) && BackgroundEnabled(s, b)
    requires b.FlushEnds? || b.FinalizeEnds?
    ensures Inv(ApplyBackground(s, b))
  {
    var s' := ApplyBackground(s, b);
    if s.task.Flushing? && Waits(s, s.task.id) { NoBytes(s.queue); }
    assert s.h.delivered + [] + QueuedBytes(s.queue) == s.h.delivered + QueuedBytes(s.queue);
    if b.FinalizeEnds? { assert QueuedBytes(s.queue) == []; }
    assert BytesOk(s');
    assert FinalOk(s');
    assert FlushOk(s');
  }

  lemma QuitInv(s: State, b: Background)
    requires Inv(s) && BackgroundEnabled(s, b)
    requires b.RebindFails? || b.WriteFails? || b.ChannelClosed? || b.End? || b.LoseReply?
    ensures Inv(ApplyBackground(s, b))
  {
    var s' := ApplyBackground(s, b);
    assert FinalOk(s');
    assert FlushOk(s');
  }

  lemma BackgroundInv(s: State, b: Background)
    requires Inv(s) && BackgroundEnabled(s, b)
    ensures Inv(ApplyBackground(s, b))
  {
    hide Inv, ApplyBackground;
    match b
    case Take => TakeInv(s);
    case Deliver(n) => DeliverInv(s, n);
    case SendReply => ReplyInv(s);
    case FlushEnds(_) => EndsInv(s, b);
    case FinalizeEnds(_) => EndsInv(s, b);
    case _ => QuitInv(s, b);
  }

  // ---------------------------------------------------------------- poll steps

  lemma TakeControlFinal(s: State, s': State)
    requires Inv(s) && Look(s).Resolved?
    requires s' == TakeControl(s).(poll := s'.poll, outcome := s'.outcome)
    ensures FinalOk(s') && ControlOk(s')
  {
    hide FlushOk, BytesOk, PollOk, QueueOk;
    assert s.task.Ended? ==> s'.joined;
  }

  lemma TakeControlFlush(s: State, s': State)
    requires Inv(s) && Look(s).Resolved?
    requires s' == TakeControl(s).(poll := s'.poll, outcome := s'.outcome)
    ensures FlushOk(s')
  {
    hide FinalOk, BytesOk, PollOk, QueueOk;
    assert s'.pending.None?;
  }

  /** Joining a finished task changes nothing else. */
  lemma TakeControlNone(s: State, s': State)
    requires Inv(s) && Look(s).NoControl?
    requires s' == TakeControl(s).(poll := s'.poll, outcome := s'.outcome)
    ensures FlushOk(s') && FinalOk(s') && ControlOk(s')
  {
    hide BytesOk, PollOk, QueueOk;
  }

  lemma TakeControlInv(s: State, p: Poll, o: Outcome)
    requires Inv(s)
    requires Look(s).NoControl? || Look(s).Resolved?
    requires PollOk(TakeControl(s).(poll := p, outcome := o))
    ensures Inv(TakeControl(s).(poll := p, outcome := o))
  {
    var s' := TakeControl(s).(poll := p, outcome := o);
    hide PollOk, QueueOk, BytesOk, ControlOk, FinalOk, FlushOk;
    SameBytes(s, s');
    if Look(s).NoControl? {
      TakeControlNone(s, s');
    } else {
      TakeControlFinal(s, s');
      TakeControlFlush(s, s');
    }
  }

  lemma LookAgain(s: State)
    requires Inv(s) && Look(s).Unresolved?
    ensures Inv(Return(TakeControl(s), Pending))
  {
    var s' := Return(TakeControl(s), Pending);
    assert FinalOk(s');
    assert FlushOk(s');
  }

  lemma PollMoves(s: State, p: Poll, o: Outcome)
    requires Inv(s) && PollOk(s.(poll := p, outcome := o))
    ensures Inv(s.(poll := p, outcome := o))
  {
    var s' := s.(poll := p, outcome := o);
    assert FinalOk(s');
    assert FlushOk(s');
  }

  lemma ReserveInv(s: State, p: Poll)
    requires Inv(s) && Reserve(s).Free?
    requires PollOk(s.(poll := p, reserved := true))
    ensures Inv(s.(poll := p, reserved := true))
  {
    var s' := s.(poll := p, reserved := true);
    assert FinalOk(s');
    assert FlushOk(s');
  }

  lemma SendDataBytes(s: State, chunk: Bytes)
    requires QueueOk(s) && BytesOk(s) && s.reserved && 0 < |chunk| <= WRITE_MAX_CHUNK
    requires !s.task.Finalizing? && !(s.task.Replying? && s.task.last && s.task.ok)
    requires forall i :: 0 <= i < |s.queue| ==> !s.queue[i].Shutdown?
    ensures
      var s' := Send(s, Data(chunk)).(h := s.h.(accepted := s.h.accepted + chunk));
      QueueOk(s') && BytesOk(s')
  {
    BytesAppend(s.queue, Data(chunk));
    var (d, r, q) := (s.h.delivered, Rest(s.task), QueuedBytes(s.queue));
    assert d + r + q + chunk == d + r + (q + chunk);
  }

  lemma SendDataInv(s: State)
    requires Inv(s) && s.poll.WriteSend?
    ensures Inv(StepWrite(s))
  {
    hide QueueOk, BytesOk, QueuedBytes;
    var s' := StepWrite(s);
    var chunk := Chunk(s.poll.data);
    assert QueueOk(s') && BytesOk(s') by {
      if chunk != [] {
        SendDataBytes(s, chunk);
        OnlyBytes(Send(s, Data(chunk)).(h := s.h.(accepted := s.h.accepted + chunk)), s');
      } else {
        OnlyBytes(s, s');
      }
    }
    SendDataFlags(s);
    hide FinalOk, FlushOk;
  }

  lemma SendDataFlags(s: State)
    requires PollOk(s) && ControlOk(s) && FinalOk(s) && FlushOk(s) && s.poll.WriteSend?
    ensures FinalOk(StepWrite(s)) && FlushOk(StepWrite(s))
  {
    hide Chunk;
  }

  lemma OnlyBytes(s: State, s': State)
    requires QueueOk(s) && BytesOk(s)
    requires s' == s.(poll := s'.poll, outcome := s'.outcome)
    ensures QueueOk(s') && BytesOk(s')
  {}

  lemma SendControlBytes(s: State, c: Command)
    requires QueueOk(s) && BytesOk(s) && s.reserved
    requires c == Flush(|s.replies|) || c == Shutdown(|s.replies|)
    requires !s.task.Finalizing? && !(s.task.Replying? && s.task.last && s.task.ok)
    requires forall i :: 0 <= i < |s.queue| ==> !s.queue[i].Shutdown?
    ensures
      var s' := Send(s, c).(replies := s.replies + [Waiting]);
      QueueOk(s') && BytesOk(s')
  {
    BytesAppend(s.queue, c);
    assert QueuedBytes(s.queue) + [] == QueuedBytes(s.queue);
    var s' := Send(s, c).(replies := s.replies + [Waiting]);
    forall i | 0 <= i < |s'.queue| ensures CommandOk(s'.queue[i], |s'.replies|) {
      if i < |s.queue| { assert CommandOk(s.queue[i], |s.replies|); }
    }
  }

  /** What the queue and the byte accounts do not look at. */
  lemma SameBytes(s: State, s': State)
    requires QueueOk(s) && BytesOk(s)
    requires s'.queue == s.queue && s'.reserved == s.reserved && s'.replies == s.replies && s'.task == s.task
    requires s'.h.accepted == s.h.accepted && s'.h.delivered == s.h.delivered && s'.h.flushed == s.h.flushed
    ensures QueueOk(s') && BytesOk(s')
  {}

  lemma SendFlushInv(s: State)
    requires Inv(s) && s.poll.FlushSend?
    ensures Inv(StepFlush(s))
  {
    var s' := StepFlush(s);
    assert QueueOk(s') && BytesOk(s') by {
      hide QueueOk, BytesOk, QueuedBytes;
      SendControlBytes(s, Flush(|s.replies|));
      SameBytes(Send(s, Flush(|s.replies|)).(replies := s.replies + [Waiting]), s');
    }
    hide BytesOk, QueuedBytes;
    assert FinalOk(s');
    assert FlushOk(s');
  }

  lemma SendShutdownInv(s: State)
    requires Inv(s) && s.poll.ShutdownSend?
    ensures Inv(StepShutdown(s))
  {
    var s' := StepShutdown(s);
    assert QueueOk(s') && BytesOk(s') by {
      hide QueueOk, BytesOk, QueuedBytes;
      SendControlBytes(s, Shutdown(|s.replies|));
      SameBytes(Send(s, Shutdown(|s.replies|)).(replies := s.replies + [Waiting]), s');
    }
    hide BytesOk, QueuedBytes;
    assert FinalOk(s');
    assert FlushOk(s');
  }

  lemma FailInv(s: State)
    requires Inv(s) && !s.started && !s.complete
    requires s.error || (!s.reserved && Reserve(s).Closed?)
    ensures Inv(Fail(s))
  {
    var s' := Fail(s);
    assert FinalOk(s');
    assert FlushOk(s');
  }

  lemma JoinInv(s: State)
    requires Inv(s) && s.poll.Join?
    ensures Inv(StepShutdown(s))
  {
    var s' := StepShutdown(s);
    JoinStep(s);
    hide StepShutdown;
    assert s.task.Ended? ==> s.queue == [] by { hide BytesOk, FinalOk, FlushOk; }
    hide QueueOk, BytesOk, FlushOk, FinalOk;
    SameBytes(s, s');
    SameFlush(s, s');
    JoinFinal(s, s');
  }

  lemma JoinFinal(s: State, s': State)
    requires FinalOk(s) && PollOk(s) && ControlOk(s) && s.poll.Join? && (s.task.Ended? ==> s.queue == [])
    requires s'.queue == s.queue && s'.replies == s.replies && s'.task == s.task && s'.pending == s.pending
    requires s'.started == s.started && s'.h == s.h.(verdict := s'.h.verdict)
    requires if s.task.Ended? then s'.result.None? && s'.h.verdict == Some(s.result == Some(true))
             else s'.result == s.result && s'.h.verdict == s.h.verdict
    ensures FinalOk(s')
  {}

  lemma JoinStep(s: State)
    requires s.poll.Join?
    ensures s.task.Ended? ==>
              var ok := s.result == Some(true);
              StepShutdown(s) == s.(joined := true, complete := true, result := None, h := s.h.(verdict := Some(ok)),
                                    poll := Idle, outcome := if ok then ShutDown else Failed)
    ensures !s.task.Ended? ==> StepShutdown(s) == s.(poll := Idle, outcome := Pending)
  {}

  lemma SameFlush(s: State, s': State)
    requires FlushOk(s)
    requires s'.queue == s.queue && s'.replies == s.replies && s'.task == s.task && s'.pending == s.pending
    requires s'.h.accepted == s.h.accepted && s'.h.flushed == s.h.flushed
    ensures FlushOk(s')
  {}

  lemma ControlInv(s: State)
    requires Inv(s) && s.poll.ShutdownControl?
    ensures Inv(StepShutdown(s))
  {
    hide QueueOk, BytesOk, FinalOk, FlushOk;
    if Look(s).Unresolved? { LookAgain(s); }
    else { TakeControlInv(s, Join, s.outcome); }
  }

  lemma WriteControlInv(s: State)
    requires Inv(s) && s.poll.WriteControl?
    ensures Inv(StepWrite(s))
  {
    hide QueueOk, BytesOk, ControlOk, FinalOk, FlushOk;
    match Look(s)
    case Unresolved => LookAgain(s);
    case NoControl => TakeControlInv(s, WriteGate(s.poll.data), s.outcome);
    case Resolved(shutdown, ok) =>
      if shutdown || !ok { TakeControlInv(s, Idle, Failed); }
      else { TakeControlInv(s, WriteGate(s.poll.data), s.outcome); }
  }

  lemma WriteInv(s: State)
    requires Inv(s)
    requires s.poll.WriteControl? || s.poll.WriteGate? || s.poll.WriteReserve? || s.poll.WriteSend?
    ensures Inv(StepWrite(s))
  {
    hide QueueOk, BytesOk, ControlOk, FinalOk, FlushOk;
    match s.poll
    case WriteControl(_) => WriteControlInv(s);
    case WriteGate(data) =>
      PollMoves(s, Idle, Failed);
      if !(s.complete || s.started) { PollMoves(s, WriteReserve(data), s.outcome); }
    case WriteReserve(data) =>
      PollMoves(s, Idle, Failed);
      PollMoves(s, Idle, Pending);
      if Reserve(s).Free? { ReserveInv(s, WriteSend(data)); }
    case WriteSend(_) => SendDataInv(s);
  }

  lemma FlushInv(s: State)
    requires Inv(s)
    requires s.poll.FlushControl? || s.poll.FlushGate? || s.poll.FlushReserve? || s.poll.FlushSend?
    ensures Inv(StepFlush(s))
  {
    hide QueueOk, BytesOk, ControlOk, FinalOk, FlushOk;
    match s.poll
    case FlushControl => FlushControlInv(s); hide StepFlush;
    case FlushGate =>
      PollMoves(s, Idle, Failed);
      if !(s.complete || s.started) { PollMoves(s, FlushReserve, s.outcome); }
    case FlushReserve =>
      hide Inv;
      PollMoves(s, Idle, Failed);
      PollMoves(s, Idle, Pending);
      if Reserve(s).Free? { ReserveInv(s, FlushSend); }
    case FlushSend => SendFlushInv(s); hide StepFlush;
  }

  lemma FlushControlInv(s: State)
    requires Inv(s) && s.poll.FlushControl?
    ensures Inv(StepFlush(s))
  {
    hide QueueOk, BytesOk, ControlOk, FinalOk, FlushOk;
    match Look(s)
    case Unresolved => LookAgain(s);
    case NoControl => TakeControlInv(s, FlushGate, s.outcome);
    case Resolved(shutdown, ok) => TakeControlInv(s, Idle, if !shutdown && ok then Flushed else Failed);
  }

  lemma ShutdownInv(s: State)
    requires Inv(s)
    requires s.poll.ShutdownGate? || s.poll.ShutdownReserve? || s.poll.ShutdownSend? || s.poll.ShutdownControl?
             || s.poll.Join?
    ensures Inv(StepShutdown(s))
  {
    hide QueueOk, BytesOk, FinalOk, FlushOk;
    match s.poll
    case ShutdownGate =>
      if s.error { FailInv(s); } else { PollMoves(s, ShutdownReserve, s.outcome); }
    case ShutdownReserve =>
      PollMoves(s, Idle, Pending);
      if Reserve(s).Free? { ReserveInv(s, ShutdownSend); }
      if Reserve(s).Closed? { FailInv(s); }
    case ShutdownSend => SendShutdownInv(s);
    case ShutdownControl => ControlInv(s);
    case Join => JoinInv(s);
  }

  lemma StartInv(s: State, c: Call)
    requires Inv(s) && s.poll.Idle?
    ensures Inv(Start(s, c))
  {
    hide QueueOk, BytesOk, FinalOk, FlushOk, ControlOk;
    match c
    case Write(data) => PollMoves(s, WriteControl(data), s.outcome);
    case FlushCall => PollMoves(s, FlushControl, s.outcome);
    case ShutdownCall =>
      if s.complete { PollMoves(s, Idle, ShutDown); }
      else if s.started { PollMoves(s, ShutdownControl, s.outcome); }
      else { PollMoves(s, ShutdownGate, s.outcome); }
  }

  lemma StepInv(s: State, step: Step)
    requires Inv(s) && Enabled(s, step)
    ensures Inv(Apply(s, step))
  {
    hide Inv, StepWrite, StepFlush, StepShutdown, Start, ApplyBackground;
    match step
    case Calls(c) => StartInv(s, c);
    case Writer(b) => BackgroundInv(s, b);
    case Advance =>
      if s.poll.WriteControl? || s.poll.WriteGate? || s.poll.WriteReserve? || s.poll.WriteSend? { WriteInv(s); }
      else if s.poll.FlushControl? || s.poll.FlushGate? || s.poll.FlushReserve? || s.poll.FlushSend? { FlushInv(s); }
      else { ShutdownInv(s); }
  }

  // ---------------------------------------------------------------- runs

  /** The state after `steps`, if each of them is enabled when its turn comes. */
  function Run(s: State, steps: seq<Step>): Option<State>
    decreases |steps|
  {
    if steps == [] then Some(s)
    else if !Enabled(s, steps[0]) then None
    else Run(Apply(s, steps[0]), steps[1..])
  }

  ghost predicate Reachable(s: State) {
    exists steps :: Run(Initial, steps) == Some(s)
  }

  lemma {:induction false} RunInv(s: State, steps: seq<Step>)
    requires Inv(s)
    ensures Run(s, steps).Some? ==> Inv(Run(s, steps).value)
    decreases |steps|
  {
    hide Inv, Apply;
    if steps != [] && Enabled(s, steps[0]) {
      StepInv(s, steps[0]);
      RunInv(Apply(s, steps[0]), steps[1..]);
    }
  }

  lemma ReachableInv(s: State)
    requires Reachable(s)
    ensures Inv(s)
  {
    var steps :| Run(Initial, steps) == Some(s);
    RunInv(Initial, steps);
  }

  /** The writer is handed a prefix of what was accepted: nothing is lost in the middle, reordered or made up. */
  lemma DeliveredIsPrefix(s: State)
    requires Reachable(s)
    ensures s.h.delivered <= s.h.accepted
    ensures InLoop(s.task) ==> s.h.accepted == s.h.delivered + Rest(s.task) + QueuedBytes(s.queue)
  {
    ReachableInv(s);
  }

  /** At most eight commands of at most 64 KiB wait in the queue. */
  lemma QueueBudget(s: State)
    requires Reachable(s)
    ensures |s.queue| <= WRITE_QUEUE_CAPACITY
    ensures |QueuedBytes(s.queue)| <= WRITE_QUEUE_CAPACITY * WRITE_MAX_CHUNK
  {
    ReachableInv(s);
    BytesBound(s.queue, |s.replies|);
  }

  /**
   A flush that reports success covers every byte accepted before it returned, whichever earlier
   poll sent the flush command: no write is accepted while a flush is outstanding.
   */
  lemma FlushCoversAccepted(s: State)
    requires Reachable(s) && s.poll.FlushControl?
    requires Apply(s, Advance).poll.Idle? && Apply(s, Advance).outcome == Flushed
    ensures s.h.flushed == |s.h.accepted| && s.h.delivered == s.h.accepted
  {
    ReachableInv(s);
  }

  /** The result a completing shutdown takes is always there, and the writer task is over when it is taken. */
  lemma ShutdownHasResult(s: State)
    requires Reachable(s)
    ensures s.poll.Join? ==> s.result.Some? && !s.complete
    ensures s.complete ==> s.task.Ended? && s.joined && s.queue == []
  {
    ReachableInv(s);
  }

  lemma ClosedStep(s: State, step: Step)
    requires PollOk(s) && ControlOk(s) && Enabled(s, step)
    requires s.h.shutdowns == 1
    ensures Apply(s, step).h.accepted == s.h.accepted && Apply(s, step).h.shutdowns == 1
  {
    match step
    case Writer(b) => BackgroundAccepts(s, b); hide ApplyBackground, BackgroundEnabled;
    case Calls(_) =>
    case Advance => PollCloses(s);
  }

  lemma BackgroundAccepts(s: State, b: Background)
    requires BackgroundEnabled(s, b)
    ensures ApplyBackground(s, b).h.accepted == s.h.accepted && ApplyBackground(s, b).h.shutdowns == s.h.shutdowns
  {
    hide Queued, Running, Dropped, Answer, Begin;
    match b {
      case Deliver(_) =>
      case FlushEnds(_) =>
      case FinalizeEnds(_) =>
      case _ => assert ApplyBackground(s, b).h == s.h;
    }
  }

  lemma PollCloses(s: State)
    requires PollOk(s) && ControlOk(s) && !s.poll.Idle? && s.h.shutdowns == 1
    ensures Apply(s, Advance).h.accepted == s.h.accepted && Apply(s, Advance).h.shutdowns == 1
  {
    hide StepWrite, StepFlush, StepShutdown;
    if s.poll.WriteControl? || s.poll.WriteGate? || s.poll.WriteReserve? || s.poll.WriteSend? {
      WriteHistory(s);
    } else if s.poll.FlushControl? || s.poll.FlushGate? || s.poll.FlushReserve? || s.poll.FlushSend? {
      FlushHistory(s);
    } else {
      ShutdownHistory(s);
    }
  }

  lemma WriteHistory(s: State)
    requires s.poll.WriteControl? || s.poll.WriteGate? || s.poll.WriteReserve? || s.poll.WriteSend?
    ensures !s.poll.WriteSend? ==> StepWrite(s).h == s.h
  {
    hide TakeControl, Look, Reserve, Chunk, Send;
    if s.poll.WriteControl? { TakeControlHistory(s); }
  }

  lemma FlushHistory(s: State)
    requires s.poll.FlushControl? || s.poll.FlushGate? || s.poll.FlushReserve? || s.poll.FlushSend?
    ensures StepFlush(s).h == s.h
  {
    hide TakeControl, Look, Reserve;
    if s.poll.FlushControl? { TakeControlHistory(s); }
  }

  lemma ShutdownHistory(s: State)
    requires s.poll.ShutdownGate? || s.poll.ShutdownReserve? || s.poll.ShutdownSend? || s.poll.ShutdownControl?
             || s.poll.Join?
    ensures StepShutdown(s).h.accepted == s.h.accepted
    ensures !s.poll.ShutdownSend? ==> StepShutdown(s).h.shutdowns == s.h.shutdowns
  {
    if s.poll.ShutdownGate? || s.poll.ShutdownReserve? { GateHistory(s); hide StepShutdown; }
    else if s.poll.ShutdownControl? { ControlHistory(s); hide StepShutdown; }
  }

  lemma GateHistory(s: State)
    requires s.poll.ShutdownGate? || s.poll.ShutdownReserve?
    ensures StepShutdown(s).h == s.h
  {
    hide Reserve;
  }

  lemma ControlHistory(s: State)
    requires s.poll.ShutdownControl?
    ensures StepShutdown(s).h == s.h
  {
    TakeControlHistory(s);
    hide TakeControl, Look;
  }

  /** Whether what a poll found lets it go on, and with what outcome it returns otherwise. */
  predicate GoesOn(p: Poll, found: Found) {
    if p.WriteControl? then found.NoControl? || (found.Resolved? && !found.shutdown && found.ok)
    else if p.FlushControl? then found.NoControl?
    else !found.Unresolved?
  }

  function NextPoll(p: Poll): Poll {
    if p.WriteControl? then WriteGate(p.data) else if p.FlushControl? then FlushGate else Join
  }

  function OutcomeOf(p: Poll, found: Found): Outcome {
    if found.Unresolved? then Pending
    else if p.FlushControl? && found.Resolved? && !found.shutdown && found.ok then Flushed
    else Failed
  }

  /** What each poll does after it has looked at the outstanding control. */
  lemma AfterControl(s: State)
    requires Inv(s) && (s.poll.WriteControl? || s.poll.FlushControl? || s.poll.ShutdownControl?)
    ensures Apply(s, Advance) ==
            if GoesOn(s.poll, Look(s)) then TakeControl(s).(poll := NextPoll(s.poll))
            else TakeControl(s).(poll := Idle, outcome := OutcomeOf(s.poll, Look(s)))
  {
    hide QueueOk, BytesOk, FinalOk, FlushOk, PollOk;
    assert s.poll.ShutdownControl? && Look(s).Resolved? ==> Look(s).shutdown by {
      if s.poll.ShutdownControl? && Look(s).Resolved? { ShutdownPending(s); }
    }
    hide TakeControl, Look, ControlOk;
  }

  lemma ShutdownPending(s: State)
    requires PollOk(s) && ControlOk(s) && s.poll.ShutdownControl? && Look(s).Resolved?
    ensures Look(s).shutdown
  {}

  lemma TakeControlHistory(s: State)
    ensures TakeControl(s).h == s.h && TakeControl(s).complete == s.complete && TakeControl(s).outcome == s.outcome
  {}

  /** One shutdown command at most is ever sent, and nothing is accepted in any run after it. */
  lemma {:induction false} NothingAfterShutdown(s: State, steps: seq<Step>)
    requires Inv(s)
    ensures s.h.shutdowns <= 1
    ensures s.h.shutdowns == 1 && Run(s, steps).Some? ==>
              Run(s, steps).value.h.accepted == s.h.accepted && Run(s, steps).value.h.shutdowns == 1
    decreases |steps|
  {
    hide Apply;
    if steps != [] && Enabled(s, steps[0]) && s.h.shutdowns == 1 {
      ClosedStep(s, steps[0]);
      StepInv(s, steps[0]);
      NothingAfterShutdown(Apply(s, steps[0]), steps[1..]);
    }
  }

  /**
   The first shutdown to complete reports success exactly when the writer finalized, and then
   every accepted byte was delivered before it.
   */
  lemma FirstShutdownIsHonest(s: State)
    requires Reachable(s) && s.poll.Join? && s.task.Ended?
    ensures var s' := Apply(s, Advance);
            && s'.complete && s'.poll.Idle?
            && (s'.outcome == ShutDown <==> s.h.finalized)
            && (s'.outcome == ShutDown ==> s.h.delivered == s.h.accepted)
  {
    ReachableInv(s);
  }

  /**
   Every later shutdown poll reports success; the stream was in fact finalized exactly when the
   first completed shutdown reported success.
   */
  lemma LaterShutdowns(s: State)
    requires Reachable(s) && s.poll.Idle? && s.complete
    ensures Apply(s, Calls(ShutdownCall)).outcome == ShutDown
    ensures s.h.finalized <==> s.h.verdict == Some(true)
    ensures s.h.verdict == Some(true) ==> s.h.delivered == s.h.accepted
  {
    ReachableInv(s);
  }

  lemma {:induction false} RunAppend(s: State, steps: seq<Step>, step: Step)
    requires Run(s, steps).Some? && Enabled(Run(s, steps).value, step)
    ensures Run(s, steps + [step]) == Some(Apply(Run(s, steps).value, step))
    decreases |steps|
  {
    hide Apply, Enabled;
    if steps == [] {
      assert Run(Apply(s, step), []) == Some(Apply(s, step));
      assert (steps + [step])[1..] == [];
    } else {
      RunAppend(Apply(s, steps[0]), steps[1..], step);
      assert (steps + [step])[1..] == steps[1..] + [step];
    }
  }

  lemma ReachStep(s: State, step: Step)
    requires Reachable(s) && Enabled(s, step)
    ensures Reachable(Apply(s, step))
  {
    hide Apply, Enabled;
    var steps :| Run(Initial, steps) == Some(s);
    RunAppend(Initial, steps, step);
  }

  /**
   The later report can be false: one byte is accepted, the writer fails on it, the first shutdown
   reports the failure, and the second reports success.
   */
  lemma SecondShutdownHidesFailure()
    ensures exists s :: Reachable(s) && s.poll.Idle? && s.complete && s.h.verdict == Some(false)
              && s.h.delivered != s.h.accepted && Apply(s, Calls(ShutdownCall)).outcome == ShutDown
  {
    assert Reachable(Initial) by { assert Run(Initial, []) == Some(Initial); }
    hide Reachable;
    var s := Took(Initial);
    var s3 := Broke(s);
    var s4 := Apply(s3, Advance);
    ReachStep(s3, Advance);
    var s5 := Apply(s4, Writer(End));
    ReachStep(s4, Writer(End));
    var s6 := Apply(s5, Advance);
    ReachStep(s5, Advance);
    assert s6.complete && s6.h.verdict == Some(false) && s6.h.accepted == [0] && s6.h.delivered == [];
  }

  /** The writer fails on the byte, and a shutdown begins. */
  lemma Broke(s: State) returns (s': State)
    requires Reachable(s) && s == Initial.(queue := [Data([0])], outcome := Wrote(1), h := Initial.h.(accepted := [0]))
    ensures Reachable(s') && s' == s.(queue := [], task := Leaving, error := true, poll := ShutdownGate)
  {
    hide Reachable;
    var s1 := Apply(s, Writer(Take));
    ReachStep(s, Writer(Take));
    var s2 := Apply(s1, Writer(WriteFails));
    ReachStep(s1, Writer(WriteFails));
    s' := Apply(s2, Calls(ShutdownCall));
    ReachStep(s2, Calls(ShutdownCall));
  }

  /** One byte written on a fresh half. */
  lemma Took(s: State) returns (s': State)
    requires s == Initial && Reachable(s)
    ensures Reachable(s') && s' == s.(queue := [Data([0])], outcome := Wrote(1), h := s.h.(accepted := [0]))
  {
    var s1 := Apply(s, Calls(Write([0])));
    ReachStep(s, Calls(Write([0])));
    var s2 := Apply(s1, Advance);
    ReachStep(s1, Advance);
    var s3 := Apply(s2, Advance);
    ReachStep(s2, Advance);
    var s4 := Apply(s3, Advance);
    ReachStep(s3, Advance);
    s' := Apply(s4, Advance);
    ReachStep(s4, Advance);
  }
}
