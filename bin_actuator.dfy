/** The bin actuator emulator of BinActuator.py: a five-state machine with
    a power flag, a busy guard on emptying, and an emptying sequence that
    runs on its own thread.

    The state callback is modelled by returning the states it is called
    with, in order. Starting the thread only records that a sequence is
    pending; running that sequence is a separate step, taken as a whole
    (the sleeps are dropped and no other step interleaves with it). */
module Actuator {
  import opened Wrappers

  datatype ActuatorState = Idle | Opening | Emptying | Closing | Error {
    /** The enum's value, which is also what gets published. */
    function Value(): string {
      match this
      case Idle => "IDLE"
      case Opening => "OPENING"
      case Emptying => "EMPTYING"
      case Closing => "CLOSING"
      case Error => "ERROR"
    }
  }

  lemma ValuesDistinct(s: ActuatorState, t: ActuatorState)
    ensures s.Value() == t.Value() <==> s == t
  {
  }

  /** The states a completed emptying sequence passes through. */
  const EmptyingSteps: seq<ActuatorState> := [Opening, Emptying, Closing, Idle]

  /** The position in `EmptyingSteps` of the update (or the sleep after it)
      that raises. */
  type StepIndex = k: nat | k < 4

  /** The states the callback receives during one run of the emptying
      sequence: all four steps, or the steps up to the failing one and then
      `Error`. */
  function SequenceStates(failAt: Option<StepIndex>): seq<ActuatorState> {
    match failAt
    case None => EmptyingSteps
    case Some(k) => EmptyingSteps[..k + 1] + [Error]
  }

  /** What the actuator's owner does to it. */
  datatype Input =
    | PowerOn
    | PowerOff
    | Trigger
    | RunSequence(failAt: Option<StepIndex>)

  /** The actuator's fields; `pending` counts emptying threads started and
      not yet run. */
  datatype Snapshot = Snapshot(state: ActuatorState, powered: bool, pending: nat)

  const Initial: Snapshot := Snapshot(Idle, false, 0)

  /** A sequence can only run on a thread that was started. */
  predicate Enabled(s: Snapshot, i: Input) {
    i.RunSequence? ==> s.pending > 0
  }

  /** Whether `trigger_empty` starts the emptying thread. */
  predicate Starts(s: Snapshot) {
    s.powered && s.state == Idle
  }

  /** The fields after one input. */
  function After(s: Snapshot, i: Input): Snapshot
    requires Enabled(s, i)
  {
    match i
    case PowerOn => Snapshot(Idle, true, s.pending)
    case PowerOff => Snapshot(Idle, false, s.pending)
    case Trigger => if Starts(s) then s.(pending := s.pending + 1) else s
    case RunSequence(failAt) =>
      var states := SequenceStates(failAt);
      s.(state := states[|states| - 1], pending := s.pending - 1)
  }

  /** The states the callback receives during one input. */
  function Emitted(s: Snapshot, i: Input): seq<ActuatorState> {
    match i
    case PowerOn => [Idle]
    case PowerOff => [Idle]
    case Trigger => []
    case RunSequence(failAt) => SequenceStates(failAt)
  }

  /** The callback always ends on the state the actuator is left in, and is
      silent exactly when the input is a trigger. */
  lemma EmittedEndsInState(s: Snapshot, i: Input)
    requires Enabled(s, i)
    ensures Emitted(s, i) == [] <==> i.Trigger?
    ensures Emitted(s, i) != [] ==> Emitted(s, i)[|Emitted(s, i)| - 1] == After(s, i).state
    ensures Emitted(s, i) == [] ==> After(s, i).state == s.state
  {
  }

  /** A completed sequence reports opening, emptying, closing and idle, in
      that order, never the error state, and leaves the actuator idle. */
  lemma CompletedSequence(s: Snapshot)
    requires s.pending > 0
    ensures Emitted(s, RunSequence(None)) == [Opening, Emptying, Closing, Idle]
    ensures Error !in Emitted(s, RunSequence(None))
    ensures After(s, RunSequence(None)).state == Idle
  {
  }

  /** A failing sequence reports the steps it reached, then the error
      state, and leaves the actuator in it. */
  lemma FailedSequence(s: Snapshot, k: StepIndex)
    requires s.pending > 0
    ensures var e := Emitted(s, RunSequence(Some(k)));
      |e| == k + 2 && e[..k + 1] == EmptyingSteps[..k + 1] && e[k + 1] == Error
    ensures After(s, RunSequence(Some(k))).state == Error
  {
  }

  /** The fields after a run of inputs, each enabled when it comes. */
  function Run(s: Snapshot, inputs: seq<Input>): Option<Snapshot>
    decreases |inputs|
  {
    if inputs == [] then Some(s)
    else if !Enabled(s, inputs[0]) then None
    else Run(After(s, inputs[0]), inputs[1..])
  }

  /** Everything the callback receives during a run of inputs. */
  function RunEmitted(s: Snapshot, inputs: seq<Input>): seq<ActuatorState>
    decreases |inputs|
  {
    if inputs == [] || !Enabled(s, inputs[0]) then []
    else Emitted(s, inputs[0]) + RunEmitted(After(s, inputs[0]), inputs[1..])
  }

  predicate Resting(s: Snapshot) {
    s.state == Idle || s.state == Error
  }

  /** Between inputs the actuator is never mid-sequence: it is idle or in
      error. */
  lemma {:induction false} AlwaysResting(s: Snapshot, inputs: seq<Input>)
    requires Resting(s)
    ensures Run(s, inputs).Some? ==> Resting(Run(s, inputs).value)
    decreases |inputs|
  {
    if inputs != [] && Enabled(s, inputs[0]) {
      var t := After(s, inputs[0]);
      assert Resting(t) by {
        if inputs[0].RunSequence? {
          var states := SequenceStates(inputs[0].failAt);
          assert states[|states| - 1] == Idle || states[|states| - 1] == Error;
        }
      }
      AlwaysResting(t, inputs[1..]);
    }
  }

  /** An actuator in the error state stays in it, and reports nothing,
      until it is powered on or off: triggers are refused while it is not
      idle. */
  lemma {:induction false} ErrorIsSticky(s: Snapshot, inputs: seq<Input>)
    requires s.state == Error
    requires forall k :: 0 <= k < |inputs| ==> inputs[k] == Trigger
    ensures Run(s, inputs) == Some(s)
    ensures RunEmitted(s, inputs) == []
    decreases |inputs|
  {
    if inputs != [] {
      assert inputs[0] == Trigger;
      assert After(s, Trigger) == s;
      ErrorIsSticky(s, inputs[1..]);
    }
  }

  /** An unpowered actuator never starts a sequence, however often it is
      triggered. */
  lemma {:induction false} UnpoweredNeverStarts(s: Snapshot, inputs: seq<Input>)
    requires !s.powered
    requires forall k :: 0 <= k < |inputs| ==> inputs[k] == Trigger
    ensures Run(s, inputs) == Some(s)
    decreases |inputs|
  {
    if inputs != [] {
      assert inputs[0] == Trigger;
      UnpoweredNeverStarts(s, inputs[1..]);
    }
  }

  class BinActuator {
    var state: ActuatorState
    var powered: bool
    var pending: nat

    function Snap(): Snapshot
      reads this
    {
      Snapshot(state, powered, pending)
    }

    /** A new actuator is idle and unpowered. */
    constructor ()
      ensures Snap() == Initial
    {
      state, powered, pending := Idle, false, 0;
    }

    /** `_update_state`: set the state and report it. */
    method UpdateState(newState: ActuatorState) returns (emitted: seq<ActuatorState>)
      modifies this
      ensures state == newState && emitted == [newState]
      ensures powered == old(powered) && pending == old(pending)
    {
      state := newState;
      emitted := [newState];
    }

    /** `get_state`. */
    method GetState() returns (s: ActuatorState)
      ensures s == state
    {
      s := state;
    }

    /** `power_on`. */
    method PowerOn() returns (emitted: seq<ActuatorState>)
      modifies this
      ensures Snap() == After(old(Snap()), Input.PowerOn)
      ensures emitted == Emitted(old(Snap()), Input.PowerOn)
    {
      powered := true;
      emitted := UpdateState(Idle);
    }

    /** `power_off` (waiting for the thread to end is not modelled). */
    method PowerOff() returns (emitted: seq<ActuatorState>)
      modifies this
      ensures Snap() == After(old(Snap()), Input.PowerOff)
      ensures emitted == Emitted(old(Snap()), Input.PowerOff)
    {
      powered := false;
      emitted := UpdateState(Idle);
    }

    /** `trigger_empty`: refused when unpowered or busy, otherwise starts the
        emptying thread. The state is not changed until that thread runs. */
    method TriggerEmpty() returns (started: bool)
      modifies this
      ensures started == Starts(old(Snap()))
      ensures Snap() == After(old(Snap()), Trigger)
    {
      if !powered {
        return false;
      }
      if state != Idle {
        return false;
      }
      pending := pending + 1;
      started := true;
    }

    /** `_emptying_sequence`, run by a started thread: each step updates the
        state; a failure at step `failAt` switches to the error state. */
    method EmptyingSequence(failAt: Option<StepIndex>) returns (emitted: seq<ActuatorState>)
      requires pending > 0
      modifies this
      ensures Snap() == After(old(Snap()), RunSequence(failAt))
      ensures emitted == Emitted(old(Snap()), RunSequence(failAt))
    {
      pending := pending - 1;
      emitted := UpdateState(Opening);
      if failAt == Some(0) {
        var e := UpdateState(Error);
        return emitted + e;
      }
      var e := UpdateState(Emptying);
      emitted := emitted + e;
      if failAt == Some(1) {
        e := UpdateState(Error);
        return emitted + e;
      }
      e := UpdateState(Closing);
      emitted := emitted + e;
      if failAt == Some(2) {
        e := UpdateState(Error);
        return emitted + e;
      }
      e := UpdateState(Idle);
      emitted := emitted + e;
      if failAt == Some(3) {
        e := UpdateState(Error);
        return emitted + e;
      }
    }
  }
}
