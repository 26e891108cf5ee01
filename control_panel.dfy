/** The control panel emulator of ControlPanel.py: a registry of callbacks
    by event name, an emergency-empty button, a fill-rate knob and a
    two-label power button with a status LED.

    The callbacks are opaque handles of type `C`; a method returns the
    callback it invokes together with the argument it passes. The widgets
    themselves (the knob's position, styles, layout) are Tk's. */
module Panel {
  import opened Wrappers
  import opened Numbers

  const PowerOnLabel: string := "Power ON"
  const PowerOffLabel: string := "Power OFF"

  /** The event names the panel invokes callbacks for. */
  const EmptyEvent: string := "empty"
  const RateEvent: string := "rate_change"
  const PowerEvent: string := "power"

  /** The range and starting position of the fill-rate knob. */
  const KnobMin: real := 0.0
  const KnobMax: real := 10.0
  const KnobStart: real := 1.0

  datatype Led = Red | Green

  /** The label the power button shows after a press. */
  function Toggled(text: string): (r: string)
    ensures r == PowerOnLabel || r == PowerOffLabel
    ensures r != text
  {
    if text == PowerOnLabel then PowerOffLabel else PowerOnLabel
  }

  /** Pressing twice restores a label the button can show. */
  lemma ToggleTwice(text: string)
    requires text == PowerOnLabel || text == PowerOffLabel
    ensures Toggled(Toggled(text)) == text
  {
  }

  /** The label after `n` presses. */
  function Pressed(text: string, n: nat): string {
    if n == 0 then text else Toggled(Pressed(text, n - 1))
  }

  /** From the initial label, the button reads `Power OFF` (the system is
      on) exactly after an odd number of presses. */
  lemma {:induction false} PressesParity(n: nat)
    ensures Pressed(PowerOnLabel, n) == PowerOffLabel <==> n % 2 == 1
    ensures Pressed(PowerOnLabel, n) == PowerOnLabel <==> n % 2 == 0
  {
    if n > 0 {
      PressesParity(n - 1);
    }
  }

  /** The callback registered for an event, if any. */
  function Registered<C>(callbacks: map<string, C>, event: string): Option<C> {
    if event in callbacks then Some(callbacks[event]) else None
  }

  class ControlPanel<C> {
    var callbacks: map<string, C>
    var powerLabel: string
    var led: Led

    /** The button reads `Power OFF` (the system is on) exactly when the
        LED is green. */
    ghost predicate Valid()
      reads this
    {
      && (powerLabel == PowerOnLabel || powerLabel == PowerOffLabel)
      && (led == Green <==> powerLabel == PowerOffLabel)
    }

    /** No callbacks, the button reads `Power ON`, the LED is red. */
    constructor ()
      ensures Valid()
      ensures callbacks == map[] && powerLabel == PowerOnLabel && led == Red
    {
      callbacks := map[];
      powerLabel := PowerOnLabel;
      led := Red;
    }

    /** `register_callback`: a later registration replaces an earlier one. */
    method RegisterCallback(event: string, callback: C)
      requires Valid()
      modifies this
      ensures Valid()
      ensures callbacks == old(callbacks)[event := callback]
      ensures powerLabel == old(powerLabel) && led == old(led)
    {
      callbacks := callbacks[event := callback];
    }

    /** `_on_emergency_empty`: the `empty` callback, if registered, is called
        with no argument. */
    method EmergencyEmpty() returns (invoked: Option<C>)
      ensures invoked == Registered(callbacks, EmptyEvent)
    {
      invoked := None;
      if EmptyEvent in callbacks {
        invoked := Some(callbacks[EmptyEvent]);
      }
    }

    /** `_on_rate_change`: the knob's text is read with `float`; a number
        goes to the `rate_change` callback, anything else is dropped. */
    method RateChange(value: string) returns (invoked: Option<(C, real)>)
      ensures ParseFloat(value).None? ==> invoked == None
      ensures ParseFloat(value).Some? ==>
        invoked == match Registered(callbacks, RateEvent)
                   case None => None
                   case Some(cb) => Some((cb, ParseFloat(value).value))
    {
      invoked := None;
      match ParseFloat(value)
      case None =>
      case Some(rate) =>
        if RateEvent in callbacks {
          invoked := Some((callbacks[RateEvent], rate));
        }
    }

    /** `_on_power_toggle`: flip the label, light the LED green exactly when
        the new label is `Power OFF`, and tell the `power` callback whether
        the system is now on. */
    method PowerToggle() returns (invoked: Option<(C, bool)>)
      requires Valid()
      modifies this
      ensures Valid()
      ensures powerLabel == Toggled(old(powerLabel))
      ensures led == (if powerLabel == PowerOffLabel then Green else Red)
      ensures invoked == match Registered(callbacks, PowerEvent)
                         case None => None
                         case Some(cb) => Some((cb, powerLabel == PowerOffLabel))
      ensures callbacks == old(callbacks)
    {
      var newLabel := if powerLabel == PowerOnLabel then PowerOffLabel else PowerOnLabel;
      powerLabel := newLabel;
      led := if newLabel == PowerOffLabel then Green else Red;
      invoked := None;
      if PowerEvent in callbacks {
        invoked := Some((callbacks[PowerEvent], newLabel == PowerOffLabel));
      }
    }
  }
}
