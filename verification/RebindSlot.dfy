/**
 Handing a stream's writer a new session: the caller leaves the opener in a slot and rings a bell of
 capacity one; the background writer answers the bell by taking whatever the slot holds. Each access
 is one step, so calls from several threads and the writer interleave freely.
 */
module RebindSlot {
  import opened Options

  type Opener = int

  /** A thread inside `rebind`: it holds the bell, then has left its opener, then has rung. */
  datatype Caller = Entering(opener: Opener) | Ringing

  datatype Task = Waiting | Woken | Rebinding(opener: Opener) | Ended

  /**
   `halfAlive`: the write half, which keeps the bell, exists. `offered`: the openers left in the slot
   so far. `handed`: the openers the writer was rebound to.
   */
  datatype State = State(
    slot: Option<Opener>,
    bell: bool,
    task: Task,
    callers: map<nat, Caller>,
    halfAlive: bool,
    offered: seq<Opener>,
    handed: seq<Opener>)

  const Initial: State := State(None, false, Waiting, map[], true, [], [])

  datatype Step =
    | Enter(t: nat, opener: Opener)
    | Leave(t: nat)
    | Ring(t: nat)
    | Receive
    | Take
    | Rebound(ok: bool)
    | End
    | DropHalf

  predicate Enabled(s: State, step: Step) {
    match step
    case Enter(t, _) => t !in s.callers && s.halfAlive
    case Leave(t) => t in s.callers && s.callers[t].Entering?
    case Ring(t) => t in s.callers && s.callers[t].Ringing?
    case Receive => s.task.Waiting? && s.bell
    case Take => s.task.Woken?
    case Rebound(_) => s.task.Rebinding?
    case End => s.task.Waiting?
    case DropHalf => s.halfAlive
  }

  function Apply(s: State, step: Step): State
    requires Enabled(s, step)
  {
    match step
    case Enter(t, o) => s.(callers := s.callers[t := Entering(o)])
    case Leave(t) =>
      var o := s.callers[t].opener;
      s.(slot := Some(o), offered := s.offered + [o], callers := s.callers[t := Ringing])
    case Ring(t) => // a bell already ringing is left as it is; nobody hears it once the writer has ended
      s.(bell := s.bell || !s.task.Ended?, callers := s.callers - {t})
    case Receive => s.(bell := false, task := Woken)
    case Take => s.(slot := None, task := if s.slot.Some? then Rebinding(s.slot.value) else Waiting)
    case Rebound(ok) =>
      s.(handed := if ok then s.handed + [s.task.opener] else s.handed, task := if ok then Waiting else Ended)
    case End => s.(task := Ended)
    case DropHalf => s.(halfAlive := false)
  }

  predicate SomeoneRings(s: State) {
    exists t :: t in s.callers && s.callers[t].Ringing?
  }

  predicate Last(openers: seq<Opener>, o: Opener) {
    openers != [] && openers[|openers| - 1] == o
  }

  /** An opener in the slot is the last one offered, and it will be noticed; an empty slot means it was taken. */
  predicate Inv(s: State) {
    && (s.slot.Some? ==> Last(s.offered, s.slot.value))
    && (s.slot.Some? && !s.task.Ended? ==> s.bell || s.task.Woken? || SomeoneRings(s))
    && (s.slot.None? && s.task.Rebinding? ==> Last(s.offered, s.task.opener))
    && (s.slot.None? && (s.task.Waiting? || s.task.Woken?) && s.offered != [] ==>
          s.handed != [] && Last(s.handed, s.offered[|s.offered| - 1]))
  }

  lemma RingsOn(s: State, s': State, t: nat)
    requires SomeoneRings(s)
    requires forall u :: u in s.callers && u != t ==> u in s'.callers && s'.callers[u] == s.callers[u]
    requires t in s.callers && s.callers[t].Ringing? ==> t in s'.callers && s'.callers[t].Ringing?
    ensures SomeoneRings(s')
  {
    var u :| u in s.callers && s.callers[u].Ringing?;
    assert u in s'.callers && s'.callers[u].Ringing?;
  }

  lemma StepInv(s: State, step: Step)
    requires Inv(s) && Enabled(s, step)
    ensures Inv(Apply(s, step))
  {
    var s' := Apply(s, step);
    match step {
      case Enter(t, _) => if SomeoneRings(s) { RingsOn(s, s', t); }
      case Leave(t) => assert s'.callers[t].Ringing?;
      case Ring(t) =>
      case _ =>
        assert s'.callers == s.callers;
        if SomeoneRings(s) { RingsOn(s, s', 0); }
    }
  }

  function Run(s: State, steps: seq<Step>): Option<State>
    decreases |steps|
  {
    if steps == [] then Some(s)
    else if !Enabled(s, steps[0]) then None
    else Run(Apply(s, steps[0]), steps[1..])
  }

  lemma {:induction false} RunInv(s: State, steps: seq<Step>)
    requires Inv(s)
    ensures Run(s, steps).Some? ==> Inv(Run(s, steps).value)
    decreases |steps|
  {
    hide Inv, Apply;
    if steps != [] && Enabled(s, steps[0]) {
      StepInv(s, steps[0]);
      RunInv(Apply(s, steps[0]), steps[1..]);
    }
  }

  /**
   No offer is lost: while the writer runs, an opener in the slot has a bell ringing, a writer on its
   way to the slot, or a caller about to ring; and once nothing of that is left, the writer has been
   rebound to the opener offered last.
   */
  lemma LastOfferWins(steps: seq<Step>)
    requires Run(Initial, steps).Some? && !Run(Initial, steps).value.task.Ended?
    ensures var s := Run(Initial, steps).value;
            && (s.slot.Some? ==> s.bell || s.task.Woken? || SomeoneRings(s))
            && (s.task.Waiting? && !s.bell && !SomeoneRings(s) && s.offered != [] ==>
                  Last(s.handed, s.offered[|s.offered| - 1]))
  {
    assert Inv(Initial);
    RunInv(Initial, steps);
  }
}
