/** The fixed four-phase cycle (src/BasicLightController.cpp): north/south green, north/south
    orange, east/west green, east/west orange, with a real-valued phase clock. */
module BasicController {
  import opened Intersection
  import opened SafetyChecker

  datatype Phase = NsGreen | NsOrange | EwGreen | EwOrange

  /** `applyPhasePattern`: all eight lights Red, then the phase's corridor lit. */
  function PhasePattern(p: Phase): (s: IntersectionState)
    ensures s.turnSouthEast == Red && s.turnNorthWest == Red && s.turnWestSouth == Red && s.turnEastNorth == Red
    ensures s.north == s.south && s.east == s.west
    ensures s.north == Red || s.east == Red
    ensures (p == NsGreen || p == NsOrange) <==> s.north != Red
    ensures (p == EwGreen || p == EwOrange) <==> s.east != Red
    ensures (p == NsGreen || p == EwGreen) <==> (s.north == Green || s.east == Green)
  {
    var red := DefaultState();
    match p
    case NsGreen => red.(north := Green, south := Green)
    case NsOrange => red.(north := Orange, south := Orange)
    case EwGreen => red.(east := Green, west := Green)
    case EwOrange => red.(east := Orange, west := Orange)
  }

  /** The phase successor chosen in `transitionToNextPhase`. */
  function NextPhase(p: Phase): Phase {
    match p
    case NsGreen => NsOrange
    case NsOrange => EwGreen
    case EwGreen => EwOrange
    case EwOrange => NsGreen
  }

  predicate IsOrangePhase(p: Phase) {
    p == NsOrange || p == EwOrange
  }

  /** How long a phase lasts: the configured green durations, `ORANGE_DURATION` for both
      orange phases. */
  function PhaseDuration(p: Phase, nsDuration: real, ewDuration: real): real {
    match p
    case NsGreen => nsDuration
    case NsOrange => ORANGE_DURATION
    case EwGreen => ewDuration
    case EwOrange => ORANGE_DURATION
  }

  /** The phase and the time spent in it. */
  datatype Clock = Clock(phase: Phase, elapsed: real)

  /** How many more commits the tick loop makes from this clock. After a commit the clock
      is at 0, so an orange phase (duration 2) always stops the loop; only a green phase
      with a non-positive duration is passed through at once. */
  function PendingCommits(c: Clock, nsDuration: real, ewDuration: real): nat {
    if c.elapsed < PhaseDuration(c.phase, nsDuration, ewDuration) then 0
    else if IsOrangePhase(c.phase) && PhaseDuration(NextPhase(c.phase), nsDuration, ewDuration) <= 0.0 then 2
    else 1
  }

  /** The loop of `tick`, as a function: while the clock has reached the phase duration,
      commit the next phase, which restarts the clock at 0. */
  function Settle(c: Clock, nsDuration: real, ewDuration: real): (r: Clock)
    ensures r.elapsed < PhaseDuration(r.phase, nsDuration, ewDuration)
    ensures r.phase == c.phase || r.phase == NextPhase(c.phase) || r.phase == NextPhase(NextPhase(c.phase))
    ensures r.phase == c.phase ==> r == c
    ensures r.phase != c.phase ==> r.elapsed == 0.0 && c.elapsed >= PhaseDuration(c.phase, nsDuration, ewDuration)
    decreases PendingCommits(c, nsDuration, ewDuration)
  {
    if c.elapsed >= PhaseDuration(c.phase, nsDuration, ewDuration) then
      Settle(Clock(NextPhase(c.phase), 0.0), nsDuration, ewDuration)
    else
      c
  }

  /** One `tick(dt)` of the clock. */
  function Step(c: Clock, dt: real, nsDuration: real, ewDuration: real): Clock {
    Settle(Clock(c.phase, c.elapsed + dt), nsDuration, ewDuration)
  }

  const InitialClock := Clock(NsGreen, 0.0)

  class BasicLightController {
    var currentState: IntersectionState
    var currentPhase: Phase
    var phaseElapsed: real
    const nsDuration: real
    const ewDuration: real

    /** The committed lights always show the committed phase. */
    predicate Valid()
      reads this
    {
      currentState == PhasePattern(currentPhase)
    }

    function ClockOf(): Clock
      reads this
    {
      Clock(currentPhase, phaseElapsed)
    }

    /** `BasicLightController(ns, ew)` (both default to 10 s). */
    constructor(nsGreenDuration: real := 10.0, ewGreenDuration: real := 10.0)
      ensures nsDuration == nsGreenDuration && ewDuration == ewGreenDuration
      ensures Valid() && ClockOf() == InitialClock
    {
      nsDuration := nsGreenDuration;
      ewDuration := ewGreenDuration;
      currentState := PhasePattern(NsGreen);
      currentPhase := NsGreen;
      phaseElapsed := 0.0;
    }

    /** `reset`: back to north/south green with a zero clock, whatever the state was. */
    method Reset()
      modifies this
      ensures Valid() && ClockOf() == InitialClock
      ensures currentState == PhasePattern(NsGreen)
    {
      currentState := DefaultState();
      phaseElapsed := 0.0;
      currentPhase := NsGreen;
      currentState := PhasePattern(NsGreen);
    }

    /** `transitionToNextPhase`: commits the successor phase and zeroes the clock if the
        kernel accepts the step (checked with dt = `ORANGE_DURATION`); otherwise nothing
        changes. */
    method TransitionToNextPhase()
      modifies this
      ensures var next := NextPhase(old(currentPhase));
        if IsValidTransition(old(currentState), PhasePattern(next), ORANGE_DURATION) then
          currentState == PhasePattern(next) && currentPhase == next && phaseElapsed == 0.0
        else
          currentState == old(currentState) && currentPhase == old(currentPhase) && phaseElapsed == old(phaseElapsed)
    {
      var nextPhase := NextPhase(currentPhase);
      var nextState := PhasePattern(nextPhase);
      if IsValidTransition(currentState, nextState, ORANGE_DURATION) {
        currentState := nextState;
        currentPhase := nextPhase;
        phaseElapsed := 0.0;
      }
    }

    /** `tick(dt)`: advance the clock, then commit phases while the clock has reached the
        current phase's duration. */
    method Tick(dt: real)
      requires Valid()
      modifies this
      ensures Valid()
      ensures ClockOf() == Step(old(ClockOf()), dt, nsDuration, ewDuration)
      ensures IsSafe(currentState)
    {
      ghost var target := Step(ClockOf(), dt, nsDuration, ewDuration);
      phaseElapsed := phaseElapsed + dt;
      var phaseDuration := PhaseDuration(currentPhase, nsDuration, ewDuration);
      while phaseElapsed >= phaseDuration
        invariant Valid()
        invariant phaseDuration == PhaseDuration(currentPhase, nsDuration, ewDuration)
        invariant Settle(ClockOf(), nsDuration, ewDuration) == target
        decreases PendingCommits(ClockOf(), nsDuration, ewDuration)
      {
        phaseElapsed := phaseElapsed - phaseDuration;
        PhaseSuccessorValid(currentPhase);
        TransitionToNextPhase();
        phaseDuration := PhaseDuration(currentPhase, nsDuration, ewDuration);
      }
      PhasePatternSafe(currentPhase);
    }

    /** `getCurrentState`: the committed lights. */
    method GetCurrentState() returns (s: IntersectionState)
      requires Valid()
      ensures s == PhasePattern(currentPhase)
      ensures IsSafe(s)
    {
      PhasePatternSafe(currentPhase);
      s := currentState;
    }
  }

  // ---------------------------------------------------------------------------
  // Properties

  /** Every phase pattern is safe. */
  lemma PhasePatternSafe(p: Phase)
    ensures IsSafe(PhasePattern(p))
  {
  }

  /** Each successor passes the kernel's transition check with dt = `ORANGE_DURATION`,
      so `transitionToNextPhase` always commits. */
  lemma PhaseSuccessorValid(p: Phase)
    ensures IsValidTransition(PhasePattern(p), PhasePattern(NextPhase(p)), ORANGE_DURATION)
  {
    var s := PhasePattern(p);
    var t := PhasePattern(NextPhase(p));
    assert forall i :: 0 <= i < 8 ==> ValidForLight(Lights(s)[i], Lights(t)[i]);
  }

  /** The cycle has period four and never stands still. */
  lemma CycleOrder(p: Phase)
    ensures NextPhase(p) != p && NextPhase(NextPhase(p)) != p && NextPhase(NextPhase(NextPhase(p))) != p
    ensures NextPhase(NextPhase(NextPhase(NextPhase(p)))) == p
    ensures IsOrangePhase(p) <==> !IsOrangePhase(NextPhase(p))
  {
  }

  /** With positive green durations and a non-negative clock and step, a tick commits at
      most one phase, keeps the clock in [0, duration), and drops leftover time. */
  lemma StepAtMostOneChange(c: Clock, dt: real, nsDuration: real, ewDuration: real)
    requires nsDuration > 0.0 && ewDuration > 0.0
    requires 0.0 <= c.elapsed && 0.0 <= dt
    ensures var r := Step(c, dt, nsDuration, ewDuration);
      (r.phase == c.phase || r.phase == NextPhase(c.phase)) &&
      0.0 <= r.elapsed < PhaseDuration(r.phase, nsDuration, ewDuration) &&
      (r.phase == c.phase <==> c.elapsed + dt < PhaseDuration(c.phase, nsDuration, ewDuration)) &&
      (r.phase == c.phase ==> r.elapsed == c.elapsed + dt) &&
      (r.phase != c.phase ==> r.elapsed == 0.0)
  {
    var mid := Clock(c.phase, c.elapsed + dt);
    if c.elapsed + dt >= PhaseDuration(c.phase, nsDuration, ewDuration) {
      var n := Clock(NextPhase(c.phase), 0.0);
      assert 0.0 < PhaseDuration(n.phase, nsDuration, ewDuration);
      assert Settle(n, nsDuration, ewDuration) == n;
    }
  }

  /** The clock after a run of ticks. */
  function Run(c: Clock, dts: seq<real>, nsDuration: real, ewDuration: real): Clock {
    if dts == [] then c
    else Step(Run(c, dts[..|dts| - 1], nsDuration, ewDuration), dts[|dts| - 1], nsDuration, ewDuration)
  }

  function Sum(dts: seq<real>): real {
    if dts == [] then 0.0 else Sum(dts[..|dts| - 1]) + dts[|dts| - 1]
  }

  predicate NonNegative(dts: seq<real>) {
    forall i :: 0 <= i < |dts| ==> dts[i] >= 0.0
  }

  /** With non-negative steps the clock never exceeds the total time ticked. */
  lemma {:induction false} RunElapsedBounded(c: Clock, dts: seq<real>, nsDuration: real, ewDuration: real)
    requires 0.0 <= c.elapsed && NonNegative(dts)
    ensures 0.0 <= Run(c, dts, nsDuration, ewDuration).elapsed <= c.elapsed + Sum(dts)
  {
    if dts != [] {
      var init := dts[..|dts| - 1];
      assert NonNegative(init) by {
        forall i | 0 <= i < |init| ensures init[i] >= 0.0 { assert init[i] == dts[i]; }
      }
      RunElapsedBounded(c, init, nsDuration, ewDuration);
    }
  }

  /** A phase is left only after the time ticked in it reaches its duration: starting in
      phase p with clock e0, a run that ends elsewhere has ticked at least
      `duration(p) - e0`. Entering an orange phase sets the clock to 0, so every orange
      phase lasts at least `ORANGE_DURATION` of ticked time. */
  lemma {:induction false} PhaseLeftOnlyAfterDuration(c: Clock, dts: seq<real>, nsDuration: real, ewDuration: real)
    requires 0.0 <= c.elapsed && NonNegative(dts)
    requires Run(c, dts, nsDuration, ewDuration).phase != c.phase
    ensures c.elapsed + Sum(dts) >= PhaseDuration(c.phase, nsDuration, ewDuration)
  {
    var init := dts[..|dts| - 1];
    assert NonNegative(init) by {
      forall i | 0 <= i < |init| ensures init[i] >= 0.0 { assert init[i] == dts[i]; }
    }
    var mid := Run(c, init, nsDuration, ewDuration);
    if mid.phase != c.phase {
      PhaseLeftOnlyAfterDuration(c, init, nsDuration, ewDuration);
    } else {
      RunElapsedBounded(c, init, nsDuration, ewDuration);
    }
  }

  /** The orange dwell, stated for an orange phase entered by a commit (clock at 0). */
  lemma OrangeDwell(p: Phase, dts: seq<real>, nsDuration: real, ewDuration: real)
    requires IsOrangePhase(p) && NonNegative(dts)
    requires Run(Clock(p, 0.0), dts, nsDuration, ewDuration).phase != p
    ensures Sum(dts) >= ORANGE_DURATION
  {
    PhaseLeftOnlyAfterDuration(Clock(p, 0.0), dts, nsDuration, ewDuration);
  }

  /** The cadence example with 1 s greens: ticks of 1.1, 2.1 and 1.1 s go through
      north/south orange, east/west green and east/west orange. */
  lemma CadenceExample()
    ensures Step(InitialClock, 1.1, 1.0, 1.0) == Clock(NsOrange, 0.0)
    ensures Step(Clock(NsOrange, 0.0), 2.1, 1.0, 1.0) == Clock(EwGreen, 0.0)
    ensures Step(Clock(EwGreen, 0.0), 1.1, 1.0, 1.0) == Clock(EwOrange, 0.0)
  {
  }
}
