/** The bin side of the system, SmartBinSystem.py: it owns a sensor, an
    actuator and a control panel, publishes every reading with the bin's
    status, empties a full bin automatically, and reports every actuator
    state change.

    The MQTT client is an outbox of (topic, payload) messages. The three
    emulators hand what they would pass to their callbacks back to this
    class, which runs the matching handler. */
module SmartBin {
  import opened Wrappers
  import opened Numbers
  import Config
  import opened Actuator
  import opened Sensor
  import Panel

  /** The three bin states the status topic carries. */
  datatype Status = Normal | NeedsEmptying | RecentlyEmptied {
    function Text(): string {
      match this
      case Normal => "\U{1F7E2} Normal"
      case NeedsEmptying => "\U{26A0}\U{FE0F} Needs Emptying"
      case RecentlyEmptied => "\U{2705} Recently Emptied"
    }
  }

  /** The fill level from which a bin needs emptying, and up to which it
      counts as just emptied. */
  const FullLevel: real := 80.0
  const EmptiedLevel: real := 5.0

  /** The status rule of `_on_sensor_data`. */
  function Classify(level: real): (s: Status)
    ensures s == NeedsEmptying <==> level >= FullLevel
    ensures s == RecentlyEmptied <==> level <= EmptiedLevel
    ensures s == Normal <==> EmptiedLevel < level < FullLevel
  {
    if level >= FullLevel then NeedsEmptying
    else if level <= EmptiedLevel then RecentlyEmptied
    else Normal
  }

  /** The three status texts are different, so the status a subscriber
      reads identifies the rule that fired. */
  lemma StatusTextsDistinct(s: Status, t: Status)
    ensures s.Text() == t.Text() <==> s == t
  {
    assert Normal.Text()[0] != NeedsEmptying.Text()[0];
    assert Normal.Text()[0] != RecentlyEmptied.Text()[0];
    assert NeedsEmptying.Text()[0] != RecentlyEmptied.Text()[0];
  }

  /** The auto-empty rule: a reading at or above the full level while the
      actuator is idle asks it to empty. */
  predicate ShouldAutoEmpty(level: real, state: ActuatorState) {
    level >= FullLevel && state == Idle
  }

  /** A reading asks for emptying only when the bin needs emptying. */
  lemma AutoEmptyOnlyWhenFull(level: real, state: ActuatorState)
    ensures ShouldAutoEmpty(level, state) ==> Classify(level) == NeedsEmptying
  {
  }

  datatype Colour = Red | Green | Blue | Black

  /** The colour of the actuator state label. */
  function StateColour(state: ActuatorState): (c: Colour)
    ensures c == Red <==> state == Error
    ensures c == Green <==> state == Idle
    ensures c == Blue <==> state in {Opening, Emptying, Closing}
  {
    if state == Error then Red
    else if state == Idle then Green
    else if state in {Opening, Emptying, Closing} then Blue
    else Black
  }

  /** Every actuator state has one of the three colours; the default black
      is never shown once a state has been reported. */
  lemma NoStateIsBlack(state: ActuatorState)
    ensures StateColour(state) != Black
  {
  }

  /** The bin id `bin_<n>` for the random `n` in 1000..9999. */
  function BinName(n: nat): (id: string)
    requires 1000 <= n <= 9999
    ensures |id| == 8 && id[..4] == "bin_" && AllDigits(id[4..])
  {
    ShowNatFourDigits(n);
    "bin_" + ShowNat(n)
  }

  /** Reading the digits back gives the number, so different numbers give
      different bin ids. */
  lemma BinNameInjective(m: nat, n: nat)
    requires 1000 <= m <= 9999 && 1000 <= n <= 9999
    ensures BinName(m) == BinName(n) <==> m == n
  {
    if BinName(m) == BinName(n) {
      assert BinName(m)[4..] == ShowNat(m);
      assert BinName(n)[4..] == ShowNat(n);
      ShowNatRoundTrip(m);
      ShowNatRoundTrip(n);
    }
  }

  /** A bin id is a single topic level. */
  lemma BinNameOneLevel(n: nat)
    requires 1000 <= n <= 9999
    ensures '/' !in BinName(n)
  {
    var id := BinName(n);
    forall k | 0 <= k < |id| ensures id[k] != '/' {
      if k >= 4 {
        assert id[k] == id[4..][k - 4];
      }
    }
  }

  function FillTopic(binId: string): string {
    Config.BaseTopic + binId + "/fill_level"
  }

  function StatusTopic(binId: string): string {
    Config.BaseTopic + binId + "/status"
  }

  /** The actuator topic puts a `/` after the base topic, which already
      ends in one. */
  function ActuatorTopic(binId: string): string {
    Config.BaseTopic + "/" + binId + "/actuator_state"
  }

  datatype Message = Message(topic: string, payload: string)

  /** The two messages of one reading: the level with one decimal, then the
      status. */
  function ReadingMessages(binId: string, level: real): seq<Message> {
    [Message(FillTopic(binId), Format1(level)), Message(StatusTopic(binId), Classify(level).Text())]
  }

  /** The messages one actuator state change publishes: back at idle the
      sensor is reset first, which publishes a reading of 0. */
  function StateMessages(binId: string, state: ActuatorState): seq<Message> {
    (if state == Idle then ReadingMessages(binId, 0.0) else []) + [Message(ActuatorTopic(binId), state.Value())]
  }

  /** The messages a series of state changes publishes, in order. */
  function Reactions(binId: string, states: seq<ActuatorState>): seq<Message>
    decreases |states|
  {
    if states == [] then []
    else Reactions(binId, states[..|states| - 1]) + StateMessages(binId, states[|states| - 1])
  }

  /** The states whose callback runs to its end in one emptying run. In
      this system only the callback's display calls can raise, and they come
      before its sensor reset and its publish: a failing step publishes
      nothing and resets nothing, and neither does the `Error` update when
      its display calls raise too. */
  function CompletedCallbacks(failAt: Option<StepIndex>, errorRaises: bool): (r: seq<ActuatorState>)
    ensures failAt.None? ==> r == SequenceStates(failAt)
    ensures failAt.Some? ==>
      var e := SequenceStates(failAt);
      var k := failAt.value;
      r == e[..k] + (if errorRaises then [] else e[k + 1..])
    ensures Idle in r <==> failAt.None?
    ensures Error in r <==> failAt.Some? && !errorRaises
  {
    match failAt
    case None => EmptyingSteps
    case Some(k) => EmptyingSteps[..k] + (if errorRaises then [] else [Error])
  }

  lemma IdleInSnoc(states: seq<ActuatorState>, state: ActuatorState)
    ensures Idle in states + [state] <==> Idle in states || state == Idle
  {
  }

  lemma ReactionsSnoc(binId: string, states: seq<ActuatorState>, state: ActuatorState)
    ensures Reactions(binId, states + [state]) == Reactions(binId, states) + StateMessages(binId, state)
  {
    assert (states + [state])[..|states|] == states;
  }

  /** Every state change publishes its own actuator message and two more
      for each return to idle. */
  lemma {:induction false} ReactionsLength(binId: string, states: seq<ActuatorState>)
    ensures |Reactions(binId, states)| == |states| + 2 * multiset(states)[Idle]
    decreases |states|
  {
    if states != [] {
      var n := |states| - 1;
      ReactionsLength(binId, states[..n]);
      assert states == states[..n] + [states[n]];
      assert multiset(states) == multiset(states[..n]) + multiset{states[n]};
    }
  }

  /** A completed emptying publishes the three moving states, the reset
      reading of an emptied bin, and idle. */
  lemma CompletedEmptyingMessages(binId: string)
    ensures Reactions(binId, SequenceStates(None)) == [
      Message(ActuatorTopic(binId), "OPENING"),
      Message(ActuatorTopic(binId), "EMPTYING"),
      Message(ActuatorTopic(binId), "CLOSING"),
      Message(FillTopic(binId), "0.0"),
      Message(StatusTopic(binId), RecentlyEmptied.Text()),
      Message(ActuatorTopic(binId), "IDLE")]
  {
    ReactionsSnoc(binId, [], Opening);
    ReactionsSnoc(binId, [Opening], Emptying);
    ReactionsSnoc(binId, [Opening, Emptying], Closing);
    ReactionsSnoc(binId, [Opening, Emptying, Closing], Idle);
    assert [] + [Opening] == [Opening];
    assert Tenths(0.0) == 0;
    assert Format1(0.0) == "0.0";
    assert SequenceStates(None) == [Opening, Emptying, Closing] + [Idle];
  }

  /** The callbacks the panel is wired to. */
  datatype Handler = EmptyRequest | RateChangeRequest | PowerRequest

  const PanelCallbacks: map<string, Handler> :=
    map[Panel.EmptyEvent := EmptyRequest, Panel.RateEvent := RateChangeRequest, Panel.PowerEvent := PowerRequest]

  class SmartBinSystem {
    const binId: string
    const sensor: UltrasonicSensor
    const actuator: BinActuator
    const panel: Panel.ControlPanel<Handler>
    /** Every message handed to `client.publish`, in order. */
    var outbox: seq<Message>
    /** The text of the level display and of the actuator state label. */
    var levelText: string
    var stateText: string
    var stateColour: Colour

    ghost predicate Valid()
      reads this, sensor, panel
    {
      && '/' !in binId
      && sensor.Valid()
      && panel.Valid()
      && panel.callbacks == PanelCallbacks
    }

    /** `__init__`: `n` is the random number of the bin id. */
    constructor (n: nat)
      requires 1000 <= n <= 9999
      ensures Valid()
      ensures binId == BinName(n) && outbox == []
      ensures levelText == "0.0%" && stateText == "IDLE" && stateColour == Black
      ensures !sensor.running && sensor.level == 0.0 && sensor.rate == 1.0
      ensures actuator.Snap() == Initial
      ensures panel.powerLabel == Panel.PowerOnLabel
    {
      BinNameOneLevel(n);
      binId := BinName(n);
      outbox := [];
      levelText, stateText, stateColour := "0.0%", "IDLE", Black;
      sensor := new UltrasonicSensor();
      var p := new Panel.ControlPanel<Handler>();
      p.RegisterCallback(Panel.EmptyEvent, EmptyRequest);
      p.RegisterCallback(Panel.RateEvent, RateChangeRequest);
      p.RegisterCallback(Panel.PowerEvent, PowerRequest);
      panel := p;
      actuator := new BinActuator();
    }

    /** `_on_connect`: a successful connection starts the sensor. */
    method OnConnect(rc: int)
      requires Valid()
      modifies sensor
      ensures Valid()
      ensures sensor.running == (rc == 0 || old(sensor.running))
      ensures sensor.level == old(sensor.level) && sensor.rate == old(sensor.rate)
    {
      if rc == 0 {
        var _ := sensor.Start();
      }
    }

    /** `_on_sensor_data`: show and publish the level, trigger emptying when
        the rule says so, publish the status. */
    method OnSensorData(level: real)
      requires Valid()
      modifies this, actuator
      ensures Valid()
      ensures outbox == old(outbox) + ReadingMessages(binId, level)
      ensures levelText == Format1(level) + "%"
      ensures actuator.Snap() ==
        if ShouldAutoEmpty(level, old(actuator.state)) then After(old(actuator.Snap()), Trigger)
        else old(actuator.Snap())
      ensures stateText == old(stateText) && stateColour == old(stateColour)
    {
      levelText := Format1(level) + "%";
      outbox := outbox + [Message(FillTopic(binId), Format1(level))];
      var status := Normal;
      if level >= FullLevel {
        status := NeedsEmptying;
        var state := actuator.GetState();
        if state == Idle {
          var _ := actuator.TriggerEmpty();
        }
      } else if level <= EmptiedLevel {
        status := RecentlyEmptied;
      }
      outbox := outbox + [Message(StatusTopic(binId), status.Text())];
    }

    /** `_on_actuator_state_change`: show the state, reset the sensor when
        back at idle (its callback publishes the reset reading), publish the
        state. */
    method OnActuatorStateChange(state: ActuatorState)
      requires Valid()
      modifies this, sensor, actuator
      ensures Valid()
      ensures stateText == state.Value() && stateColour == StateColour(state)
      ensures outbox == old(outbox) + StateMessages(binId, state)
      ensures sensor.level == (if state == Idle then 0.0 else old(sensor.level))
      ensures levelText == (if state == Idle then Format1(0.0) + "%" else old(levelText))
      ensures sensor.running == old(sensor.running) && sensor.rate == old(sensor.rate)
      ensures actuator.Snap() == old(actuator.Snap())
    {
      stateText := state.Value();
      stateColour := if state == Error then Red
        else if state == Idle then Green
        else if state in {Opening, Emptying, Closing} then Blue
        else Black;
      if state == Idle {
        var reported := sensor.SimulateEmptying();
        OnSensorData(reported);
      }
      outbox := outbox + [Message(ActuatorTopic(binId), state.Value())];
    }

    /** The actuator's callback, called once per reported state, in order. */
    method DeliverStates(states: seq<ActuatorState>)
      requires Valid()
      modifies this, sensor, actuator
      ensures Valid()
      ensures outbox == old(outbox) + Reactions(binId, states)
      ensures states != [] ==>
        stateText == states[|states| - 1].Value() && stateColour == StateColour(states[|states| - 1])
      ensures states == [] ==> stateText == old(stateText) && stateColour == old(stateColour)
      ensures sensor.level == (if Idle in states then 0.0 else old(sensor.level))
      ensures sensor.running == old(sensor.running) && sensor.rate == old(sensor.rate)
      ensures actuator.Snap() == old(actuator.Snap())
    {
      var i := 0;
      while i < |states|
        invariant 0 <= i <= |states|
        invariant Valid()
        invariant outbox == old(outbox) + Reactions(binId, states[..i])
        invariant i > 0 ==> stateText == states[i - 1].Value() && stateColour == StateColour(states[i - 1])
        invariant i == 0 ==> stateText == old(stateText) && stateColour == old(stateColour)
        invariant sensor.level == (if Idle in states[..i] then 0.0 else old(sensor.level))
        invariant sensor.running == old(sensor.running) && sensor.rate == old(sensor.rate)
        invariant actuator.Snap() == old(actuator.Snap())
      {
        DeliverNext(states[..i], states[i], old(outbox), old(sensor.level));
        assert states[..i + 1] == states[..i] + [states[i]];
        i := i + 1;
      }
      assert states[..i] == states;
    }

    /** One more state change after the states `done`, whose messages
        follow `start`. */
    method DeliverNext(ghost done: seq<ActuatorState>, state: ActuatorState, ghost start: seq<Message>, ghost level: real)
      requires Valid()
      requires outbox == start + Reactions(binId, done)
      requires sensor.level == (if Idle in done then 0.0 else level)
      modifies this, sensor, actuator
      ensures Valid()
      ensures outbox == start + Reactions(binId, done + [state])
      ensures sensor.level == (if Idle in done + [state] then 0.0 else level)
      ensures stateText == state.Value() && stateColour == StateColour(state)
      ensures sensor.running == old(sensor.running) && sensor.rate == old(sensor.rate)
      ensures actuator.Snap() == old(actuator.Snap())
    {
      OnActuatorStateChange(state);
      ReactionsSnoc(binId, done, state);
      IdleInSnoc(done, state);
    }

    /** `_on_empty_request`. */
    method OnEmptyRequest()
      requires Valid()
      modifies actuator
      ensures Valid()
      ensures actuator.Snap() == After(old(actuator.Snap()), Trigger)
    {
      var _ := actuator.TriggerEmpty();
    }

    /** `_on_rate_change`. */
    method OnRateChange(rate: real)
      requires Valid()
      modifies sensor
      ensures Valid()
      ensures sensor.rate == ClampRate(rate)
      ensures sensor.level == old(sensor.level) && sensor.running == old(sensor.running)
    {
      sensor.SetFillRate(rate);
    }

    /** `_on_power_change`: on starts the sensor and powers the actuator on,
        off stops the sensor and powers it off; either way the actuator
        reports idle, which resets the sensor. */
    method OnPowerChange(isOn: bool)
      requires Valid()
      modifies this, sensor, actuator
      ensures Valid()
      ensures sensor.running == isOn && sensor.level == 0.0 && sensor.rate == old(sensor.rate)
      ensures actuator.Snap() == After(old(actuator.Snap()), if isOn then Input.PowerOn else Input.PowerOff)
      ensures outbox == old(outbox) + StateMessages(binId, Idle)
      ensures stateText == "IDLE" && stateColour == Green
    {
      var emitted;
      if isOn {
        var _ := sensor.Start();
        emitted := actuator.PowerOn();
      } else {
        sensor.Stop();
        emitted := actuator.PowerOff();
      }
      assert emitted == [Idle];
      DeliverStates(emitted);
      assert Reactions(binId, [Idle]) == StateMessages(binId, Idle) by {
        assert [Idle][..0] == [];
      }
    }

    /** The actuator's emptying thread, run to its end, with this system's
        callback. A step fails here only when the callback's display calls
        raise, and `errorRaises` says whether they raise again for the
        `Error` update in the handler. */
    method RunEmptyingThread(failAt: Option<StepIndex>, errorRaises: bool)
      requires Valid() && actuator.pending > 0
      modifies this, sensor, actuator
      ensures Valid()
      ensures actuator.Snap() == After(old(actuator.Snap()), RunSequence(failAt))
      ensures outbox == old(outbox) + Reactions(binId, CompletedCallbacks(failAt, errorRaises))
      ensures sensor.level == (if failAt.None? then 0.0 else old(sensor.level))
      ensures !(failAt.Some? && errorRaises) ==>
        stateText == actuator.state.Value() && stateColour == StateColour(actuator.state)
    {
      var emitted := actuator.EmptyingSequence(failAt);
      var completed := emitted;
      if failAt.Some? {
        var k := failAt.value;
        completed := emitted[..k] + (if errorRaises then [] else emitted[k + 1..]);
      }
      DeliverStates(completed);
    }

    /** One pass of the sensor thread with this system's callback. */
    method SensorTick(noise: real)
      requires Valid() && sensor.running && NoiseInRange(noise)
      modifies this, sensor, actuator
      ensures Valid() && sensor.running && sensor.rate == old(sensor.rate)
      ensures old(sensor.level) < MaxLevel ==>
        && sensor.level == NextLevel(old(sensor.level), sensor.rate, noise)
        && outbox == old(outbox) + ReadingMessages(binId, sensor.level)
        && actuator.Snap() ==
             if ShouldAutoEmpty(sensor.level, old(actuator.state)) then After(old(actuator.Snap()), Trigger)
             else old(actuator.Snap())
      ensures old(sensor.level) >= MaxLevel ==>
        sensor.level == old(sensor.level) && outbox == old(outbox) && actuator.Snap() == old(actuator.Snap())
    {
      var reported := sensor.MeasurementStep(noise, false);
      if reported.Some? {
        OnSensorData(reported.value);
      }
    }

    /** The emergency-empty button, through the panel's registry. */
    method PressEmergencyEmpty()
      requires Valid()
      modifies actuator
      ensures Valid()
      ensures actuator.Snap() == After(old(actuator.Snap()), Trigger)
    {
      var invoked := panel.EmergencyEmpty();
      if invoked == Some(EmptyRequest) {
        OnEmptyRequest();
      }
    }

    /** The rate knob, through the panel's registry: `value` is the text the
        knob passes; text `float` rejects leaves the rate as it was. */
    method TurnRateKnob(value: string)
      requires Valid()
      modifies sensor
      ensures Valid()
      ensures sensor.rate == match ParseFloat(value)
                             case None => old(sensor.rate)
                             case Some(r) => ClampRate(r)
      ensures sensor.level == old(sensor.level) && sensor.running == old(sensor.running)
    {
      var invoked := panel.RateChange(value);
      if invoked.Some? && invoked.value.0 == RateChangeRequest {
        OnRateChange(invoked.value.1);
      }
    }

    /** The power button, through the panel's registry: the first press
        turns the system on. */
    method PressPower()
      requires Valid()
      modifies this, sensor, actuator, panel
      ensures Valid()
      ensures panel.powerLabel == Panel.Toggled(old(panel.powerLabel))
      ensures sensor.running == (panel.powerLabel == Panel.PowerOffLabel)
      ensures sensor.level == 0.0
      ensures actuator.Snap() ==
        After(old(actuator.Snap()), if panel.powerLabel == Panel.PowerOffLabel then Input.PowerOn else Input.PowerOff)
      ensures outbox == old(outbox) + StateMessages(binId, Idle)
    {
      var invoked := panel.PowerToggle();
      if invoked.Some? && invoked.value.0 == PowerRequest {
        OnPowerChange(invoked.value.1);
      }
    }

    /** `_on_closing` without the transport: stop the sensor and power the
        actuator off, which still reports idle and publishes. */
    method OnClosing()
      requires Valid()
      modifies this, sensor, actuator
      ensures Valid()
      ensures !sensor.running && sensor.level == 0.0
      ensures actuator.Snap() == After(old(actuator.Snap()), Input.PowerOff)
      ensures outbox == old(outbox) + StateMessages(binId, Idle)
    {
      sensor.Stop();
      var emitted := actuator.PowerOff();
      DeliverStates(emitted);
      assert Reactions(binId, [Idle]) == StateMessages(binId, Idle) by {
        assert [Idle][..0] == [];
      }
    }
  }
}
