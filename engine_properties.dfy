/** What the engine's supervisor guarantees over a whole run of ticks
    (src/SimulatorEngine.cpp, `tick` and the safety test at its end), and which signal
    groups the all-red and flashing light states activate. */
module EngineProperties {
  import opened Intersection
  import opened Configuration
  import opened SafetyChecker
  import SafetyProperties
  import opened Controllers
  import opened Engine

  /** One tick as the supervisor sees it: whether the lights it checked were unsafe, and
      the time step. */
  datatype TickInput = TickInput(unsafe: bool, dt: real)

  /** The supervisor's state after a run of ticks. */
  function SuperviseRun(s: Supervision, ticks: seq<TickInput>): Supervision
    decreases |ticks|
  {
    if ticks == [] then s
    else SuperviseRun(Supervise(s, ticks[0].unsafe, ticks[0].dt), ticks[1..])
  }

  /** The number of unsafe ticks in a run. */
  function UnsafeTicks(ticks: seq<TickInput>): nat {
    if ticks == [] then 0
    else (if ticks[0].unsafe then 1 else 0) + UnsafeTicks(ticks[1..])
  }

  /** The total time of a run. */
  function Duration(ticks: seq<TickInput>): real {
    if ticks == [] then 0.0 else ticks[0].dt + Duration(ticks[1..])
  }

  /** A stopped engine ignores ticks altogether. */
  lemma {:induction false} StoppedRunChangesNothing(s: Supervision, ticks: seq<TickInput>)
    requires !s.running
    ensures SuperviseRun(s, ticks) == s
    decreases |ticks|
  {
    if ticks != [] {
      StoppedRunChangesNothing(s, ticks[1..]);
    }
  }

  /** While running, every unsafe tick counts one violation, and the clock advances by
      the run's duration; the engine keeps running. */
  lemma {:induction false} RunningRunCounts(s: Supervision, ticks: seq<TickInput>)
    requires s.running
    ensures SuperviseRun(s, ticks).running
    ensures SuperviseRun(s, ticks).violations == s.violations + UnsafeTicks(ticks)
    ensures SuperviseRun(s, ticks).time == s.time + Duration(ticks)
    decreases |ticks|
  {
    if ticks != [] {
      RunningRunCounts(Supervise(s, ticks[0].unsafe, ticks[0].dt), ticks[1..]);
    }
  }

  /** The fallback is permanent: once in NullControl, no tick leaves it (only a command
      from outside does). */
  lemma {:induction false} NullControlIsSticky(s: Supervision, ticks: seq<TickInput>)
    requires s.mode == NullControl
    ensures SuperviseRun(s, ticks).mode == NullControl
    decreases |ticks|
  {
    if ticks != [] {
      NullControlIsSticky(Supervise(s, ticks[0].unsafe, ticks[0].dt), ticks[1..]);
    }
  }

  /** A run that records any violation ends in NullControl: the engine never goes on
      driving lights it found unsafe. */
  lemma {:induction false} ViolationMeansFallback(s: Supervision, ticks: seq<TickInput>)
    ensures SuperviseRun(s, ticks).violations > s.violations ==> SuperviseRun(s, ticks).mode == NullControl
    ensures SuperviseRun(s, ticks).violations >= s.violations
    decreases |ticks|
  {
    if ticks != [] {
      var next := Supervise(s, ticks[0].unsafe, ticks[0].dt);
      ViolationMeansFallback(next, ticks[1..]);
      if next.violations > s.violations {
        NullControlIsSticky(next, ticks[1..]);
      }
    }
  }

  /** From a freshly constructed or reset engine, started and run: the violations are
      exactly the unsafe ticks, and any violation means the engine is in NullControl. */
  lemma FromResetState(ticks: seq<TickInput>)
    ensures var s := SuperviseRun(Supervision(Basic, true, 0.0, 0), ticks);
      s.violations == UnsafeTicks(ticks) && (s.violations > 0 <==> s.mode == NullControl)
  {
    var s0 := Supervision(Basic, true, 0.0, 0);
    RunningRunCounts(s0, ticks);
    ViolationMeansFallback(s0, ticks);
    NeverFallbackWithoutViolation(s0, ticks);
  }

  lemma {:induction false} NeverFallbackWithoutViolation(s: Supervision, ticks: seq<TickInput>)
    requires s.mode != NullControl
    ensures SuperviseRun(s, ticks).mode == NullControl ==> SuperviseRun(s, ticks).violations > s.violations
    decreases |ticks|
  {
    if ticks != [] {
      var next := Supervise(s, ticks[0].unsafe, ticks[0].dt);
      ViolationMeansFallback(next, ticks[1..]);
      if next.mode != NullControl {
        NeverFallbackWithoutViolation(next, ticks[1..]);
      }
    }
  }

  // ---------------------------------------------------------------------------
  // Active groups of the uniform light states

  /** Under a uniform light state every movement sees that one light. */
  lemma UniformMovementLight(l: LightState, r: MovementRef)
    ensures MovementLight(Uniform(l), r) == l
  {
    match (r.from, r.movement)
    case (North, Right) =>
    case (East, Right) =>
    case (South, Right) =>
    case (West, Right) =>
    case (North, _) =>
    case (East, _) =>
    case (South, _) =>
    case (West, _) =>
  }

  lemma AllRedLightsNothing()
    ensures LitMovements(Uniform(Red)) == []
  {
    var lit := LitMovements(Uniform(Red));
    if lit != [] {
      var r := lit[0];
      assert r in lit;
      UniformMovementLight(Red, r);
      assert false;
    }
  }

  /** With every light red no signal group is active, so an all-red state is never
      unsafe for a valid configuration (or one without groups). */
  lemma AllRedActivatesNothing(c: IntersectionConfig)
    ensures ActiveGroups(c, Uniform(Red)) == {}
    ensures c.signalGroups == [] || ConfigValid(c) ==> !Unsafe(c, Uniform(Red))
  {
    AllRedLightsNothing();
    assert ServingAny(c, []) == {};
    SafetyProperties.DefaultStateSafe();
    assert DefaultState() == Uniform(Red);
  }

  /** Flashing amber lights every movement, so every group that serves some movement is
      active: the fallback does not pretend a conflicting configuration is safe. */
  lemma FlashingActivatesEveryServingGroup(c: IntersectionConfig, g: SignalGroupConfig, r: MovementRef)
    requires g in c.signalGroups && GroupServes(c, g, r)
    ensures g.id in ActiveGroups(c, FlashPattern(true))
  {
    assert IsActive(MovementLight(FlashPattern(true), r));
    assert r in LitMovements(FlashPattern(true));
  }
}
