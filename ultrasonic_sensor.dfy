/** The ultrasonic sensor emulator of UltrasonicSensor.py: a fill level that
    grows by the fill rate plus noise once per reading interval, capped at
    100, with a clamped fill rate and a reset when the bin is emptied.

    The noise `random.uniform(-0.2, 0.2)` is a parameter in that range, the
    data callback is modelled by returning the level it is called with, and
    the measurement thread is a loop over the readings taken before it is
    stopped (the one-second sleep is dropped). */
module Sensor {
  import opened Wrappers

  const MaxLevel: real := 100.0
  const MaxRate: real := 10.0
  const NoiseBound: real := 0.2

  predicate NoiseInRange(noise: real) {
    -NoiseBound <= noise <= NoiseBound
  }

  /** `max(0.0, min(rate, 10.0))`. */
  function ClampRate(rate: real): (r: real)
    ensures 0.0 <= r <= MaxRate
    ensures 0.0 <= rate <= MaxRate ==> r == rate
    ensures rate < 0.0 ==> r == 0.0
    ensures rate > MaxRate ==> r == MaxRate
  {
    var m := if rate < MaxRate then rate else MaxRate;
    if 0.0 < m then m else 0.0
  }

  /** Clamping an already clamped rate changes nothing. */
  lemma ClampRateIdempotent(rate: real)
    ensures ClampRate(ClampRate(rate)) == ClampRate(rate)
  {
  }

  /** The level after one reading taken below 100: `min(100, level + rate + noise)`. */
  function NextLevel(level: real, rate: real, noise: real): (r: real)
    ensures r <= MaxLevel
    ensures r <= level + rate + noise
    ensures r == MaxLevel || r == level + rate + noise
  {
    var x := level + rate + noise;
    if x < MaxLevel then x else MaxLevel
  }

  /** One reading moves a level below 100 up by at most the rate plus the
      noise bound, and down by at most the noise bound. */
  lemma NextLevelBounds(level: real, rate: real, noise: real)
    requires level < MaxLevel && 0.0 <= rate <= MaxRate && NoiseInRange(noise)
    ensures level - NoiseBound <= NextLevel(level, rate, noise) <= level + rate + NoiseBound
  {
  }

  /** With the rate at zero the noise can push an empty bin below zero:
      the level is not kept at or above 0. */
  lemma LevelCanGoNegative()
    ensures NextLevel(0.0, 0.0, -NoiseBound) < 0.0
  {
  }

  /** The levels the callback receives over a run of readings with the
      given noises, starting from `level`; at 100 or above nothing is
      reported. */
  function Trace(level: real, rate: real, noises: seq<real>): seq<real>
    decreases |noises|
  {
    if noises == [] then []
    else if level < MaxLevel then
      var next := NextLevel(level, rate, noises[0]);
      [next] + Trace(next, rate, noises[1..])
    else Trace(level, rate, noises[1..])
  }

  /** The level after a run of readings. */
  function LevelAfter(level: real, rate: real, noises: seq<real>): real
    decreases |noises|
  {
    if noises == [] then level
    else if level < MaxLevel then LevelAfter(NextLevel(level, rate, noises[0]), rate, noises[1..])
    else LevelAfter(level, rate, noises[1..])
  }

  /** Every reported level is at most 100, and the level stays at most 100. */
  lemma {:induction false} TraceBounded(level: real, rate: real, noises: seq<real>)
    requires level <= MaxLevel
    ensures forall k :: 0 <= k < |Trace(level, rate, noises)| ==> Trace(level, rate, noises)[k] <= MaxLevel
    ensures LevelAfter(level, rate, noises) <= MaxLevel
    decreases |noises|
  {
    if noises != [] {
      if level < MaxLevel {
        TraceBounded(NextLevel(level, rate, noises[0]), rate, noises[1..]);
      } else {
        TraceBounded(level, rate, noises[1..]);
      }
    }
  }

  /** A full bin reports nothing and keeps its level. */
  lemma {:induction false} FullIsSilent(level: real, rate: real, noises: seq<real>)
    requires level >= MaxLevel
    ensures Trace(level, rate, noises) == []
    ensures LevelAfter(level, rate, noises) == level
    decreases |noises|
  {
    if noises != [] {
      FullIsSilent(level, rate, noises[1..]);
    }
  }

  predicate NonDecreasing(s: seq<real>) {
    forall i, j :: 0 <= i < j < |s| ==> s[i] <= s[j]
  }

  /** When the rate is at least the noise bound the reported levels never
      go down. */
  lemma {:induction false} TraceNonDecreasing(level: real, rate: real, noises: seq<real>)
    requires rate >= NoiseBound
    requires forall k :: 0 <= k < |noises| ==> NoiseInRange(noises[k])
    ensures NonDecreasing(Trace(level, rate, noises))
    ensures forall k :: 0 <= k < |Trace(level, rate, noises)| ==> level <= Trace(level, rate, noises)[k]
    decreases |noises|
  {
    if noises != [] {
      assert NoiseInRange(noises[0]);
      if level < MaxLevel {
        var next := NextLevel(level, rate, noises[0]);
        TraceNonDecreasing(next, rate, noises[1..]);
        var t := Trace(level, rate, noises);
        var rest := Trace(next, rate, noises[1..]);
        assert t == [next] + rest;
        forall i, j | 0 <= i < j < |t| ensures t[i] <= t[j] {
          assert t[j] == rest[j - 1];
          if i > 0 {
            assert t[i] == rest[i - 1];
          }
        }
      } else {
        FullIsSilent(level, rate, noises[1..]);
      }
    }
  }

  class UltrasonicSensor {
    var running: bool
    var level: real
    var rate: real

    ghost predicate Valid()
      reads this
    {
      0.0 <= rate <= MaxRate && level <= MaxLevel
    }

    /** A new sensor is stopped, empty, and fills at rate 1. */
    constructor ()
      ensures Valid()
      ensures !running && level == 0.0 && rate == 1.0
    {
      running, level, rate := false, 0.0, 1.0;
    }

    /** `start`: starts the measurement thread unless it is running. */
    method Start() returns (started: bool)
      requires Valid()
      modifies this
      ensures Valid()
      ensures running && started == !old(running)
      ensures level == old(level) && rate == old(rate)
    {
      started := false;
      if !running {
        running := true;
        started := true;
      }
    }

    /** `stop`: clears the flag the measurement loop tests. */
    method Stop()
      requires Valid()
      modifies this
      ensures Valid()
      ensures !running && level == old(level) && rate == old(rate)
    {
      running := false;
    }

    /** `set_fill_rate`. */
    method SetFillRate(newRate: real)
      requires Valid()
      modifies this
      ensures Valid()
      ensures rate == ClampRate(newRate)
      ensures running == old(running) && level == old(level)
    {
      var m := if newRate < MaxRate then newRate else MaxRate;
      rate := if 0.0 < m then m else 0.0;
    }

    /** `get_current_level`. */
    method GetCurrentLevel() returns (l: real)
      ensures l == level
    {
      l := level;
    }

    /** `simulate_emptying`: the level drops to 0 and 0 is reported. */
    method SimulateEmptying() returns (reported: real)
      requires Valid()
      modifies this
      ensures Valid()
      ensures level == 0.0 && reported == level
      ensures running == old(running) && rate == old(rate)
    {
      level := 0.0;
      reported := level;
    }

    /** One pass of `_measurement_loop`: below 100 the level moves and is
        reported; a callback that raises stops the sensor. At 100 or above
        nothing happens. */
    method MeasurementStep(noise: real, callbackFails: bool) returns (reported: Option<real>)
      requires Valid() && running && NoiseInRange(noise)
      modifies this
      ensures Valid()
      ensures old(level) < MaxLevel ==>
        level == NextLevel(old(level), rate, noise) && reported == Some(level) && running == !callbackFails
      ensures old(level) >= MaxLevel ==> level == old(level) && reported == None && running
      ensures rate == old(rate)
    {
      reported := None;
      if level < MaxLevel {
        var x := level + rate + noise;
        level := if x < MaxLevel then x else MaxLevel;
        reported := Some(level);
        if callbackFails {
          running := false;
        }
      }
    }

    /** `_measurement_loop` for as many readings as `noises` has, with a
        callback that does not raise: the reported levels and the final
        level are those of `Trace` and `LevelAfter`. */
    method MeasurementLoop(noises: seq<real>) returns (reported: seq<real>)
      requires Valid() && running
      requires forall k :: 0 <= k < |noises| ==> NoiseInRange(noises[k])
      modifies this
      ensures Valid() && running && rate == old(rate)
      ensures reported == Trace(old(level), rate, noises)
      ensures level == LevelAfter(old(level), rate, noises)
    {
      reported := [];
      var i := 0;
      // `running` is the loop's own condition; a callback that does not
      // raise keeps it true, so only the end of `noises` stops the loop.
      while i < |noises| && running
        invariant 0 <= i <= |noises|
        invariant Valid() && running && rate == old(rate)
        invariant reported + Trace(level, rate, noises[i..]) == Trace(old(level), rate, noises)
        invariant LevelAfter(level, rate, noises[i..]) == LevelAfter(old(level), rate, noises)
        decreases |noises| - i
      {
        assert NoiseInRange(noises[i]);
        ghost var before := level;
        var r := MeasurementStep(noises[i], false);
        assert noises[i..][1..] == noises[i + 1..];
        if r.Some? {
          assert Trace(before, rate, noises[i..]) == [level] + Trace(level, rate, noises[i + 1..]);
          reported := reported + [r.value];
        }
        i := i + 1;
      }
      assert noises[i..] == [];
    }
  }
}
