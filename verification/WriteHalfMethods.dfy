/**
 The write half as an object. Its poll methods make the accesses of the source, in the source's
 order, and before each one the background writer may take any steps it is able to.
 */
module WriteHalfMethods {
  import opened Options
  import opened WriteHalf
  import opened WriteHalfProof
  import opened WriteHalfReports

  /** The bytes of a vectored write, end to end. */
  function Concat(bufs: seq<Bytes>): Bytes {
    if bufs == [] then [] else bufs[0] + Concat(bufs[1..])
  }

  lemma {:induction false} ConcatLast(bufs: seq<Bytes>, b: Bytes)
    ensures Concat(bufs + [b]) == Concat(bufs) + b
  {
    if bufs == [] {
      assert (bufs + [b])[1..] == [];
    } else {
      ConcatLast(bufs[1..], b);
      assert (bufs + [b])[1..] == bufs[1..] + [b];
    }
  }

  lemma ConcatSplit(bufs: seq<Bytes>, i: nat)
    requires i < |bufs|
    ensures Concat(bufs[..i + 1]) == Concat(bufs[..i]) + bufs[i]
  {
    assert bufs[..i + 1] == bufs[..i] + [bufs[i]];
    ConcatLast(bufs[..i], bufs[i]);
  }

  lemma {:induction false} ConcatAll(bufs: seq<Bytes>, i: nat)
    requires i <= |bufs|
    ensures Concat(bufs[..i]) <= Concat(bufs)
    decreases |bufs| - i
  {
    if i < |bufs| {
      ConcatSplit(bufs, i);
      ConcatAll(bufs, i + 1);
    } else {
      assert bufs[..i] == bufs;
    }
  }

  /** Gathers the first chunk of a vectored write: the slices in order, cut at the chunk limit. */
  method Gather(bufs: seq<Bytes>) returns (data: Bytes)
    ensures data == Chunk(Concat(bufs))
  {
    var total := 0;
    var k := 0;
    while k < |bufs|
      invariant 0 <= k <= |bufs|
      invariant total == |Concat(bufs[..k])|
    {
      ConcatSplit(bufs, k);
      total := total + |bufs[k]|;
      k := k + 1;
    }
    assert bufs[..|bufs|] == bufs;
    var chunk := if total <= WRITE_MAX_CHUNK then total else WRITE_MAX_CHUNK;
    data := [];
    var i := 0;
    while i < |bufs| && |data| < chunk
      invariant 0 <= i <= |bufs|
      invariant |data| <= chunk
      invariant data <= Concat(bufs)
      invariant |data| < chunk ==> data == Concat(bufs[..i])
      decreases |bufs| - i
    {
      var remaining := chunk - |data|;
      var n := if |bufs[i]| < remaining then |bufs[i]| else remaining;
      ConcatSplit(bufs, i);
      ConcatAll(bufs, i + 1);
      data := data + bufs[i][..n];
      i := i + 1;
    }
    if i == |bufs| { assert bufs[..i] == bufs; }
  }

  /** What the half shares with its background writer. */
  datatype Shared = Shared(
    queue: seq<Command>, reserved: bool, senderOpen: bool, replies: seq<Reply>, error: bool, task: Task, joined: bool)

  function Sent(sh: Shared, c: Command): Shared {
    sh.(reserved := false, queue := if sh.task.Ended? then sh.queue else sh.queue + [c])
  }

  class MigratingWriteHalf {
    var shared: Shared
    var pending: Option<Control>
    var started: bool
    var complete: bool
    var result: Option<bool>
    // Where the current poll stands, what the last one returned, and what the proofs remember.
    var poll: Poll
    var outcome: Outcome
    var h: History

    function View(): State
      reads this
    {
      State(shared.queue, shared.reserved, shared.senderOpen, shared.replies, shared.error, shared.task, shared.joined,
            pending, started, complete, result, poll, outcome, h)
    }

    /** The object is in a state that some run of the half and its writer reaches. */
    ghost predicate Valid()
      reads this
    {
      Reachable(View())
    }

    constructor ()
      ensures Valid() && View() == Initial
    {
      shared := Shared([], false, true, [], false, Ready, false);
      pending, started, complete, result := None, false, false, None;
      poll, outcome, h := Idle, Pending, History([], [], 0, false, 0, None);
      new;
      assert View() == Initial;
      assert Run(Initial, []) == Some(Initial);
    }

    ghost predicate ShutdownWaiting()
      reads this
    {
      HasReason(View())
    }

    /** What the last poll returned is true. */
    ghost predicate Told()
      reads this
    {
      Justified(View())
    }

    /** The background writer takes each of `steps` that it is able to take when its turn comes. */
    method Background(steps: seq<Background>)
      requires Valid()
      modifies `shared, `h
      ensures Valid()
      ensures h.accepted == old(h.accepted)
      ensures old(shared.task.Ended?) ==> shared.task.Ended?
      ensures Final(old(shared.replies), shared.replies)
    {
      hide Reachable, ApplyBackground, BackgroundEnabled;
      for i := 0 to |steps|
        invariant Valid()
        invariant h.accepted == old(h.accepted)
        invariant old(shared.task.Ended?) ==> shared.task.Ended?
        invariant Final(old(shared.replies), shared.replies)
      {
        var s := View();
        if BackgroundEnabled(s, steps[i]) {
          var t := ApplyBackground(s, steps[i]);
          ReachStep(s, Writer(steps[i]));
          StepIsFinal(s, Writer(steps[i]));
          BackgroundAccepts(s, steps[i]);
          BackgroundFrame(s, steps[i]);
          shared := Shared(t.queue, t.reserved, t.senderOpen, t.replies, t.error, t.task, t.joined);
          h := t.h;
          assert View() == t;
        }
      }
    }

    /** Joins a finished writer, then polls the outstanding control and keeps a shutdown's result. */
    method PollPendingControl() returns (found: Found)
      modifies this
      ensures found == Look(old(View())) && View() == TakeControl(old(View()))
    {
      if shared.task.Ended? { shared := shared.(joined := true); }
      if pending.None? { return NoControl; }
      var control := pending.value;
      if control.id >= |shared.replies| || shared.replies[control.id].Waiting? { return Unresolved; }
      var ok := shared.replies[control.id] == Answered(true);
      pending := None;
      if control.shutdown {
        shared := shared.(senderOpen := false);
        result := Some(ok);
      }
      return Resolved(control.shutdown, ok);
    }

    /** Looks at the outstanding control and goes on to the poll's next access, or returns. */
    method PastControl() returns (found: Found)
      requires Valid() && (poll.WriteControl? || poll.FlushControl? || poll.ShutdownControl?)
      modifies this
      ensures Valid() && found == Look(old(View())) && View() == Apply(old(View()), Advance)
      ensures h == old(h) && complete == old(complete)
      ensures if GoesOn(old(poll), found) then poll == NextPoll(old(poll)) && outcome == old(outcome)
              else poll == Idle && outcome == OutcomeOf(old(poll), found)
    {
      hide Reachable, Inv;
      ghost var s := View();
      ReachStep(s, Advance);
      ReachableInv(s);
      AfterControl(s);
      TakeControlHistory(s);
      hide Apply;
      var p := poll;
      found := PollPendingControl();
      hide TakeControl, Look;
      if GoesOn(p, found) { poll := NextPoll(p); } else { poll, outcome := Idle, OutcomeOf(p, found); }
    }

    /** Asks the channel for a slot; a slot already held is kept. */
    method PollReserve() returns (slot: Slot)
      modifies `shared
      ensures slot == Reserve(old(View()))
      ensures shared == old(shared).(reserved := old(shared.reserved) || slot.Free?)
    {
      if shared.reserved { return Free; }
      if !shared.senderOpen || shared.task.Ended? { return Closed; }
      if |shared.queue| >= WRITE_QUEUE_CAPACITY { return Full; }
      shared := shared.(reserved := true);
      return Free;
    }

    /** Puts a command in the reserved slot; with the receiver gone nobody reads it. */
    method SendItem(c: Command)
      modifies `shared
      ensures shared == Sent(old(shared), c)
    {
      if shared.task.Ended? {
        shared := shared.(reserved := false);
      } else {
        shared := shared.(reserved := false, queue := shared.queue + [c]);
      }
    }

    /** A poll begins. */
    method Begin(c: Call)
      requires Valid() && poll.Idle?
      modifies `poll, `outcome
      ensures Valid() && View() == Start(old(View()), c)
    {
      hide Reachable;
      ghost var s := View();
      ReachStep(s, Calls(c));
      match c {
        case Write(data) => poll := WriteControl(data);
        case FlushCall => poll := FlushControl;
        case ShutdownCall =>
          if complete { outcome := ShutDown; }
          else if started { poll := ShutdownControl; }
          else { poll := ShutdownGate; }
      }
      assert View() == Apply(s, Calls(c));
    }

    // ------------------------------------------------------------ writing

    /** No control may be outstanding when a write begins. */
    method WritePastControl(data: Bytes)
      requires Valid() && poll == WriteControl(data)
      modifies this
      ensures Valid() && (poll == WriteGate(data) || (poll.Idle? && !outcome.Wrote? && Told()))
      ensures h == old(h)
      ensures old(FlushAnswered(pending, shared.replies)) ==> poll == WriteGate(data) && pending.None?
    {
      hide Reachable, Justified;
      ReportIsTrue(View());
      var _ := PastControl();
    }

    method WritePastGate(data: Bytes)
      requires Valid() && poll == WriteGate(data)
      modifies `poll, `outcome
      ensures Valid() && (poll == WriteReserve(data) || (poll.Idle? && !outcome.Wrote? && Told()))
    {
      hide Reachable, Justified;
      ghost var s := View();
      ReachStep(s, Advance);
      ReportIsTrue(s);
      if complete || started || shared.error { poll, outcome := Idle, Failed; } else { poll := WriteReserve(data); }
      assert View() == Apply(s, Advance);
    }

    method WriteReserved(data: Bytes)
      requires Valid() && poll == WriteReserve(data)
      modifies `shared, `poll, `outcome
      ensures Valid() && (poll == WriteSend(data) || (poll.Idle? && !outcome.Wrote? && Told()))
    {
      hide Reachable, Justified;
      ghost var s := View();
      ReachStep(s, Advance);
      ReportIsTrue(s);
      var slot := PollReserve();
      match slot {
        case Free => poll := WriteSend(data);
        case Closed => poll, outcome := Idle, Failed;
        case Full => poll, outcome := Idle, Pending;
      }
      assert View() == Apply(s, Advance);
    }

    method WriteStaged(bufs: seq<Bytes>)
      requires Valid() && poll == WriteSend(Concat(bufs))
      modifies `shared, `poll, `outcome, `h
      ensures Valid() && poll.Idle? && outcome == Wrote(|Chunk(Concat(bufs))|) && Told()
      ensures h.accepted == old(h.accepted) + Chunk(Concat(bufs))
    {
      hide Valid, Chunk, Concat;
      var chunk := Gather(bufs);
      SendChunk(Concat(bufs), chunk);
    }

    /** A chunk of no bytes is accepted without using the slot. */
    method SendChunk(ghost data: Bytes, chunk: Bytes)
      requires Valid() && poll == WriteSend(data) && chunk == Chunk(data)
      modifies `shared, `poll, `outcome, `h
      ensures Valid() && poll.Idle? && outcome == Wrote(|chunk|) && h.accepted == old(h.accepted) + chunk
    {
      hide Reachable, Chunk;
      ghost var s := View();
      ReachStep(s, Advance);
      if chunk != [] {
        SendItem(Data(chunk));
        h := h.(accepted := h.accepted + chunk);
      }
      poll, outcome := Idle, Wrote(|chunk|);
      assert View() == Apply(s, Advance);
    }

    /** One write accepts the first chunk of the slices, whole, or nothing. */
    method PollWriteVectored(bufs: seq<Bytes>, env: seq<seq<Background>>) returns (r: Outcome)
      requires Valid() && poll.Idle? && |env| == 4
      modifies this
      ensures Valid() && poll.Idle? && r == outcome
      ensures h.accepted == old(h.accepted) + (if r.Wrote? then Chunk(Concat(bufs)) else [])
      ensures r.Wrote? ==> r.n == |Chunk(Concat(bufs))|
      ensures Told() && (old(FlushAnswered(pending, shared.replies)) ==> pending.None?)
    {
      hide Reachable;
      var data := Concat(bufs);
      Begin(Write(data));
      hide View, Valid, Told, Concat, Chunk;
      Background(env[0]);
      WritePastControl(data);
      if !poll.Idle? { WriteSends(bufs, env[1..]); }
      r := outcome;
    }

    /** The chunk is sent, unless the writer is gone or the queue is full. */
    method WriteSends(bufs: seq<Bytes>, env: seq<seq<Background>>)
      requires Valid() && poll == WriteGate(Concat(bufs)) && |env| == 3
      modifies `shared, `poll, `outcome, `h
      ensures Valid() && poll.Idle? && Told()
      ensures h.accepted == old(h.accepted) + (if outcome.Wrote? then Chunk(Concat(bufs)) else [])
      ensures outcome.Wrote? ==> outcome.n == |Chunk(Concat(bufs))|
    {
      hide Reachable, View, Valid, Told, Concat, Chunk;
      Background(env[0]);
      WritePastGate(Concat(bufs));
      if !poll.Idle? {
        Background(env[1]);
        WriteReserved(Concat(bufs));
      }
      if !poll.Idle? {
        Background(env[2]);
        WriteStaged(bufs);
      }
    }

    // ------------------------------------------------------------ flushing

    method FlushPastControl()
      requires Valid() && poll == FlushControl
      modifies this
      ensures Valid() && (poll == FlushGate || poll.Idle?)
      ensures h == old(h)
      ensures poll.Idle? && outcome == Flushed ==> h.flushed == |h.accepted| && h.delivered == h.accepted
      ensures poll.Idle? ==> Told()
      ensures old(FlushAnswered(pending, shared.replies)) ==> poll.Idle? && outcome == Flushed && pending.None?
    {
      hide Reachable, Justified;
      ghost var s := View();
      ReportIsTrue(s);
      var _ := PastControl();
      if poll.Idle? && outcome == Flushed { FlushCoversAccepted(s); }
    }

    method FlushPastGate()
      requires Valid() && poll == FlushGate
      modifies `poll, `outcome
      ensures Valid() && (poll == FlushReserve || (poll.Idle? && outcome == Failed && Told()))
    {
      hide Reachable, Justified;
      ghost var s := View();
      ReachStep(s, Advance);
      ReportIsTrue(s);
      if complete || started || shared.error { poll, outcome := Idle, Failed; } else { poll := FlushReserve; }
      assert View() == Apply(s, Advance);
    }

    method FlushReserved()
      requires Valid() && poll == FlushReserve
      modifies `shared, `poll, `outcome
      ensures Valid() && (poll == FlushSend || (poll.Idle? && outcome in {Failed, Pending} && Told()))
    {
      hide Reachable, Justified;
      ghost var s := View();
      ReachStep(s, Advance);
      ReportIsTrue(s);
      var slot := PollReserve();
      match slot {
        case Free => poll := FlushSend;
        case Closed => poll, outcome := Idle, Failed;
        case Full => poll, outcome := Idle, Pending;
      }
      assert View() == Apply(s, Advance);
    }

    method FlushStaged()
      requires Valid() && poll == FlushSend
      modifies `shared, `pending, `poll, `outcome
      ensures Valid() && poll.Idle? && outcome == Pending && Told()
    {
      hide Reachable, Justified;
      ghost var s := View();
      ReachStep(s, Advance);
      ReportIsTrue(s);
      var id := |shared.replies|;
      SendItem(Flush(id));
      shared := shared.(replies := shared.replies + [Waiting]);
      pending := Some(Control(false, id));
      poll, outcome := Idle, Pending;
      assert View() == Apply(s, Advance);
    }

    /** The command is sent, unless the writer is gone or the queue is full; nothing is reported yet. */
    method FlushSends(env: seq<seq<Background>>)
      requires Valid() && poll == FlushGate && |env| == 3
      modifies this
      ensures Valid() && poll.Idle? && outcome in {Failed, Pending} && h.accepted == old(h.accepted) && Told()
    {
      hide Reachable, View, Valid, Told;
      Background(env[0]);
      FlushPastGate();
      if !poll.Idle? {
        Background(env[1]);
        FlushReserved();
      }
      if !poll.Idle? {
        Background(env[2]);
        FlushStaged();
      }
    }

    /** A flush reports success only when everything accepted so far was delivered and flushed. */
    method PollFlush(env: seq<seq<Background>>) returns (r: Outcome)
      requires Valid() && poll.Idle? && |env| == 4
      modifies this
      ensures Valid() && poll.Idle? && r == outcome && h.accepted == old(h.accepted)
      ensures r == Flushed ==> h.flushed == |h.accepted| && h.delivered == h.accepted
      ensures Told() && (old(FlushAnswered(pending, shared.replies)) ==> r == Flushed)
    {
      hide Reachable;
      Begin(FlushCall);
      hide View, Valid, Told;
      Background(env[0]);
      FlushPastControl();
      if !poll.Idle? { FlushSends(env[1..]); }
      r := outcome;
    }

    // ------------------------------------------------------------ shutting down

    method ShutdownPastGate()
      requires Valid() && poll == ShutdownGate
      modifies `shared, `result, `poll
      ensures Valid() && (poll == ShutdownReserve || poll == Join)
    {
      hide Reachable;
      ghost var s := View();
      ReachStep(s, Advance);
      if shared.error {
        shared := shared.(senderOpen := false);
        result, poll := Some(false), Join;
      } else {
        poll := ShutdownReserve;
      }
      assert View() == Apply(s, Advance);
    }

    method ShutdownReserved()
      requires Valid() && poll == ShutdownReserve
      modifies `shared, `result, `poll, `outcome
      ensures Valid()
              && (poll == ShutdownSend || poll == Join || (poll.Idle? && outcome == Pending && ShutdownWaiting()))
    {
      hide Reachable, HasReason;
      ghost var s := View();
      ReachStep(s, Advance);
      ShutdownWaits(s);
      var slot := PollReserve();
      match slot {
        case Free => poll := ShutdownSend;
        case Closed =>
          shared := shared.(senderOpen := false);
          result, poll := Some(false), Join;
        case Full => poll, outcome := Idle, Pending;
      }
      assert View() == Apply(s, Advance);
    }

    method ShutdownStaged()
      requires Valid() && poll == ShutdownSend
      modifies `shared, `pending, `started, `poll, `h
      ensures Valid() && poll == ShutdownControl && h.accepted == old(h.accepted)
    {
      hide Reachable;
      ghost var s := View();
      ReachStep(s, Advance);
      var id := |shared.replies|;
      SendItem(Shutdown(id));
      shared := shared.(replies := shared.replies + [Waiting]);
      pending, started, poll := Some(Control(true, id)), true, ShutdownControl;
      h := h.(shutdowns := h.shutdowns + 1);
      assert View() == Apply(s, Advance);
    }

    method ShutdownPastControl()
      requires Valid() && poll == ShutdownControl
      modifies this
      ensures Valid() && (poll == Join || (poll.Idle? && outcome == Pending && ShutdownWaiting()))
      ensures h == old(h) && complete == old(complete)
    {
      hide Reachable, HasReason;
      ShutdownWaits(View());
      var _ := PastControl();
    }

    /** Takes the stored result once the writer is joined. */
    method TakeResult()
      requires Valid() && poll == Join && shared.task.Ended?
      modifies `shared, `complete, `result, `poll, `outcome, `h
      ensures Valid() && poll.Idle? && h.accepted == old(h.accepted) && complete
      ensures outcome == if h.finalized then ShutDown else Failed
      ensures h.finalized ==> h.delivered == h.accepted
    {
      hide Reachable;
      ghost var s := View();
      ReachStep(s, Advance);
      JoinEnds(s);
      hide Apply;
      shared, complete := shared.(joined := true), true;
      var ok := result.value;
      result := None;
      h := h.(verdict := Some(ok));
      poll, outcome := Idle, if ok then ShutDown else Failed;
      assert View() == Apply(s, Advance);
    }

    /** Joins the writer and only then returns the stored result. */
    method Epilog()
      requires Valid() && poll == Join
      modifies `shared, `complete, `result, `poll, `outcome, `h
      ensures Valid() && poll.Idle? && h.accepted == old(h.accepted)
      ensures complete <==> outcome != Pending
      ensures outcome == ShutDown ==> h.finalized && h.delivered == h.accepted
      ensures outcome == Failed ==> !h.finalized
      ensures outcome in {ShutDown, Failed, Pending} && (outcome == Pending ==> ShutdownWaiting())
    {
      hide Reachable, HasReason;
      if shared.task.Ended? {
        TakeResult();
      } else {
        ghost var s := View();
        ReachStep(s, Advance);
        ShutdownWaits(s);
        JoinEnds(s);
        hide Apply;
        poll, outcome := Idle, Pending;
        assert View() == Apply(s, Advance);
      }
    }

    /** The command is sent, or its failure is kept for the join, or the queue is full. */
    method ShutdownSends(env: seq<seq<Background>>)
      requires Valid() && poll == ShutdownGate && |env| == 3
      modifies this
      ensures Valid() && h.accepted == old(h.accepted) && complete == old(complete)
      ensures poll == ShutdownControl || poll == Join || (poll.Idle? && outcome == Pending && ShutdownWaiting())
    {
      hide Reachable, View, Valid, ShutdownWaiting;
      Background(env[0]);
      ShutdownPastGate();
      if poll == ShutdownReserve {
        Background(env[1]);
        ShutdownReserved();
      }
      if poll == ShutdownSend {
        Background(env[2]);
        ShutdownStaged();
      }
    }

    /**
     The first shutdown to complete reports success exactly when the stream was finalized, with every
     accepted byte delivered; the result it takes is always there.
     */
    method PollShutdown(env: seq<seq<Background>>) returns (r: Outcome)
      requires Valid() && poll.Idle? && |env| == 5
      modifies this
      ensures Valid() && poll.Idle? && r == outcome && h.accepted == old(h.accepted)
      ensures r in {ShutDown, Failed, Pending}
      ensures old(complete) ==> r == ShutDown && View() == old(View()).(outcome := ShutDown)
      ensures !old(complete) && r == ShutDown ==> h.finalized && h.delivered == h.accepted
      ensures r == Failed ==> complete && !h.finalized
      ensures r == Pending ==> ShutdownWaiting()
    {
      hide Reachable;
      var done := complete;
      Begin(ShutdownCall);
      if done { return ShutDown; }
      hide View, Valid, ShutdownWaiting;
      if poll == ShutdownGate {
        ShutdownSends(env[..3]);
        if poll.Idle? { return outcome; }
      }
      if poll == ShutdownControl {
        Background(env[3]);
        ShutdownPastControl();
        if poll.Idle? { return outcome; }
      }
      Background(env[4]);
      Epilog();
      r := outcome;
    }
  }

  /** What the last access of a shutdown makes of the half. */
  lemma JoinEnds(s: State)
    requires Reachable(s) && s.poll.Join?
    ensures !s.complete && s.result.Some?
    ensures s.task.Ended? ==>
              Apply(s, Advance) ==
              s.(joined := true, complete := true, result := None, h := s.h.(verdict := s.result),
                 poll := Idle, outcome := if s.result.value then ShutDown else Failed)
    ensures s.task.Ended? ==> (s.result.value <==> s.h.finalized) && (s.h.finalized ==> s.h.delivered == s.h.accepted)
    ensures !s.task.Ended? ==> Apply(s, Advance) == s.(poll := Idle, outcome := Pending)
  {
    hide Reachable;
    ShutdownHasResult(s);
    if s.task.Ended? { FirstShutdownIsHonest(s); }
  }
}
