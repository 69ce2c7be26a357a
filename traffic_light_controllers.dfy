/** The controller interface and its two shipped implementations
    (include/TrafficLightControllers.hpp): the adapter around the fixed four-phase cycle
    and the flashing-amber fallback, plus a stand-in for controllers whose code is not
    part of this model. */
module Controllers {
  import opened Intersection
  import opened SafetyChecker
  import opened BasicController

  // ---------------------------------------------------------------------------
  // BasicControllerAdapter

  /** `BasicControllerAdapter`: owns a `BasicLightController` and forwards every call. */
  class BasicControllerAdapter {
    const basic: BasicLightController

    predicate Valid()
      reads this, basic
    {
      basic.Valid()
    }

    constructor(nsGreenDuration: real, ewGreenDuration: real)
      ensures Valid() && fresh(basic)
      ensures basic.nsDuration == nsGreenDuration && basic.ewDuration == ewGreenDuration
      ensures basic.ClockOf() == InitialClock
    {
      basic := new BasicLightController(nsGreenDuration, ewGreenDuration);
    }

    method Tick(dt: real)
      requires Valid()
      modifies basic
      ensures Valid()
      ensures basic.ClockOf() == Step(old(basic.ClockOf()), dt, basic.nsDuration, basic.ewDuration)
    {
      basic.Tick(dt);
    }

    method GetCurrentState() returns (s: IntersectionState)
      requires Valid()
      ensures s == PhasePattern(basic.currentPhase) && IsSafe(s)
    {
      s := basic.GetCurrentState();
    }

    method Reset()
      modifies basic
      ensures Valid() && basic.ClockOf() == InitialClock
    {
      basic.Reset();
    }
  }

  // ---------------------------------------------------------------------------
  // NullControlController: all lights flash amber, one second on, one second off

  /** `applyPattern`: all eight lights Orange while `orangeOn`, all Red otherwise. */
  function FlashPattern(orangeOn: bool): (s: IntersectionState)
    ensures forall i :: 0 <= i < 8 ==> Lights(s)[i] == (if orangeOn then Orange else Red)
  {
    Uniform(if orangeOn then Orange else Red)
  }

  /** The number of whole seconds in the flash clock `e` (none when `e < 1`). */
  function WholeSeconds(e: real): (n: nat)
    ensures n == 0 <==> e < 1.0
    decreases if e < 1.0 then 0 else e.Floor
  {
    if e < 1.0 then 0 else 1 + WholeSeconds(e - 1.0)
  }

  /** The flash clock after the `while` loop of `tick`: one second off the clock and one
      flip of the colour for every whole second on it. */
  function Flash(e: real, orangeOn: bool): (r: (real, bool))
    decreases if e < 1.0 then 0 else e.Floor
  {
    if e < 1.0 then (e, orangeOn) else Flash(e - 1.0, !orangeOn)
  }

  class NullControlController {
    var state: IntersectionState
    var elapsed: real
    var orangeOn: bool

    /** The lights always show the current colour. */
    predicate Valid()
      reads this
    {
      state == FlashPattern(orangeOn)
    }

    /** `NullControlController()`: zero clock, amber on, lights applied by `reset`. */
    constructor()
      ensures Valid() && elapsed == 0.0 && orangeOn
    {
      state := DefaultState();
      elapsed := 0.0;
      orangeOn := true;
      new;
      Reset();
    }

    method ApplyPattern()
      modifies this
      ensures state == FlashPattern(orangeOn)
      ensures elapsed == old(elapsed) && orangeOn == old(orangeOn)
    {
      var active := if orangeOn then Orange else Red;
      state := state.(north := active, south := active, east := active, west := active);
      state := state.(turnSouthEast := active, turnNorthWest := active);
      state := state.(turnWestSouth := active, turnEastNorth := active);
    }

    /** `tick(dt)`: add `dt` to the clock, then flip once per whole second on it. */
    method Tick(dt: real)
      requires Valid()
      modifies this
      ensures Valid()
      ensures (elapsed, orangeOn) == Flash(old(elapsed) + dt, old(orangeOn))
    {
      ghost var target := Flash(elapsed + dt, orangeOn);
      elapsed := elapsed + dt;
      while elapsed >= 1.0
        invariant Valid()
        invariant Flash(elapsed, orangeOn) == target
        decreases elapsed.Floor
      {
        elapsed := elapsed - 1.0;
        orangeOn := !orangeOn;
        ApplyPattern();
      }
    }

    method GetCurrentState() returns (s: IntersectionState)
      requires Valid()
      ensures s == FlashPattern(orangeOn) && IsSafe(s)
    {
      FlashPatternSafe(orangeOn);
      s := state;
    }

    /** `reset`: zero clock, amber on; the result does not depend on the previous state. */
    method Reset()
      modifies this
      ensures Valid() && elapsed == 0.0 && orangeOn
      ensures state == Uniform(Orange)
    {
      elapsed := 0.0;
      orangeOn := true;
      ApplyPattern();
    }
  }

  /** The flashing pattern never shows Green, so the kernel accepts it. */
  lemma FlashPatternSafe(orangeOn: bool)
    ensures IsSafe(FlashPattern(orangeOn))
    ensures forall i :: 0 <= i < 8 ==> Lights(FlashPattern(orangeOn))[i] != Green
  {
  }

  /** The loop of `tick` takes every whole second off the clock and flips the colour once
      per second: from a clock that is not negative it leaves `0 <= elapsed < 1`, the
      colour flipped an even number of times exactly when it is unchanged. */
  lemma {:induction false} FlashSpec(e: real, orangeOn: bool)
    requires e >= 0.0
    ensures var (e', on') := Flash(e, orangeOn);
      && 0.0 <= e' < 1.0
      && e' + (WholeSeconds(e) as real) == e
      && (on' == orangeOn <==> WholeSeconds(e) % 2 == 0)
    decreases if e < 1.0 then 0 else e.Floor
  {
    if e >= 1.0 {
      FlashSpec(e - 1.0, !orangeOn);
    }
  }

  /** A tick of `dt >= 0` from a clock in [0, 1) keeps the clock in [0, 1). */
  lemma FlashClockBounded(e: real, dt: real, orangeOn: bool)
    requires 0.0 <= e < 1.0 && dt >= 0.0
    ensures 0.0 <= Flash(e + dt, orangeOn).0 < 1.0
  {
    FlashSpec(e + dt, orangeOn);
  }

  // ---------------------------------------------------------------------------
  // Controllers whose code is not part of this model

  /** The hidden state of such a controller (its timers, its place in the cycle), encoded
      as a number. */
  type Memory = int

  /** What such a controller does, as parameters: its lights and hidden state right after
      construction, the hidden state and lights after a tick of `dt` from the given ones,
      and its lights and hidden state after `reset`. */
  datatype Behaviour = Behaviour(
    initialLights: IntersectionState,
    initialMemory: Memory,
    tick: (Memory, IntersectionState, real) -> (Memory, IntersectionState),
    resetLights: IntersectionState,
    resetMemory: Memory)

  /** `ConfigurableSignalGroupController`, or a controller handed to `setController`. */
  class OpaqueController {
    const behaviour: Behaviour
    var memory: Memory
    var lights: IntersectionState

    constructor(b: Behaviour)
      ensures behaviour == b && memory == b.initialMemory && lights == b.initialLights
    {
      behaviour := b;
      memory := b.initialMemory;
      lights := b.initialLights;
    }

    /** The next lights depend on the hidden state as well as on the lights shown. */
    method Tick(dt: real)
      modifies this
      ensures (memory, lights) == behaviour.tick(old(memory), old(lights), dt)
    {
      var next := behaviour.tick(memory, lights, dt);
      memory := next.0;
      lights := next.1;
    }

    method GetCurrentState() returns (s: IntersectionState)
      ensures s == lights
    {
      s := lights;
    }

    method Reset()
      modifies this
      ensures memory == behaviour.resetMemory && lights == behaviour.resetLights
    {
      memory := behaviour.resetMemory;
      lights := behaviour.resetLights;
    }
  }
}
