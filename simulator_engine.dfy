/** The engine supervisor (src/SimulatorEngine.cpp): it owns one controller, the traffic
    generator and the safety checker, and on every tick advances the lights, moves the
    traffic, lets vehicles start and finish crossing, and then checks the lights it shows,
    falling back to the flashing-amber controller the first time they are unsafe. The
    pure part of every step is a function below; each method is proved to do exactly
    that function. */
module Engine {
  import opened Wrappers
  import opened Intersection
  import opened Configuration
  import opened SafetyChecker
  import SafetyProperties
  import opened BasicController
  import opened Controllers
  import opened Vehicles
  import opened Routing
  import opened TrafficModel
  import opened Traffic

  datatype ControlMode = Basic | NullControl

  datatype UICommand = Start | Stop | Reset | Step

  // ---------------------------------------------------------------------------
  // The controller the engine holds

  /** The object behind the engine's controller pointer. */
  datatype Controller =
    | AdapterController(adapter: BasicControllerAdapter)
    | FlashingController(flasher: NullControlController)
    | ExternalController(external: OpaqueController)

  /** The objects a controller is made of. */
  function CtlObjects(c: Controller): set<object> {
    match c
    case AdapterController(a) => {a, a.basic}
    case FlashingController(f) => {f}
    case ExternalController(o) => {o}
  }

  predicate ControllerValid(c: Controller)
    reads CtlObjects(c)
  {
    match c
    case AdapterController(a) => a.Valid()
    case FlashingController(f) => f.Valid()
    case ExternalController(_) => true
  }

  /** `getCurrentState` of the controller. */
  function ControllerLights(c: Controller): IntersectionState
    reads CtlObjects(c)
  {
    match c
    case AdapterController(a) => a.basic.currentState
    case FlashingController(f) => f.state
    case ExternalController(o) => o.lights
  }

  /** The lights the controller will show after `tick(dt)`. */
  function TickedLights(c: Controller, dt: real): IntersectionState
    reads CtlObjects(c)
  {
    match c
    case AdapterController(a) =>
      PhasePattern(BasicController.Step(a.basic.ClockOf(), dt, a.basic.nsDuration, a.basic.ewDuration).phase)
    case FlashingController(f) => FlashPattern(Flash(f.elapsed + dt, f.orangeOn).1)
    case ExternalController(o) => o.behaviour.tick(o.memory, o.lights, dt).1
  }

  // ---------------------------------------------------------------------------
  // isLightGreen and the crossing passes

  /** `isLightGreen`: the through light of the approach is Green; Orange does not count. */
  predicate LightGreen(s: IntersectionState, d: Direction) {
    match d
    case N => s.north == Green
    case S => s.south == Green
    case E => s.east == Green
    case W => s.west == Green
  }

  /** The `lane_can_move` array of `tick`, in the `Direction` numbering. */
  function CanMove(s: IntersectionState): (r: seq<bool>)
    ensures |r| == 4 && forall k :: 0 <= k < 4 ==> r[k] == LightGreen(s, DirectionAt(k))
  {
    [LightGreen(s, N), LightGreen(s, S), LightGreen(s, E), LightGreen(s, W)]
  }

  /** The first approach entry with this id (`std::find_if`). */
  function FindApproachById(approaches: seq<ApproachConfig>, a: ApproachId): (r: Option<ApproachConfig>)
    ensures r.None? <==> forall k :: 0 <= k < |approaches| ==> approaches[k].id != a
    ensures r.Some? ==> exists k :: 0 <= k < |approaches| && approaches[k] == r.value && r.value.id == a &&
                                   forall j :: 0 <= j < k ==> approaches[j].id != a
  {
    if |approaches| == 0 then None
    else if approaches[0].id == a then Some(approaches[0])
    else
      var r := FindApproachById(approaches[1..], a);
      assert r.Some? ==> exists k :: 1 <= k < |approaches| && approaches[k] == r.value && r.value.id == a &&
                                    forall j :: 0 <= j < k ==> approaches[j].id != a by {
        if r.Some? {
          var k :| 0 <= k < |approaches[1..]| && approaches[1..][k] == r.value && r.value.id == a &&
                   forall j :: 0 <= j < k ==> approaches[1..][j].id != a;
          assert approaches[k + 1] == r.value;
          assert forall j :: 1 <= j < k + 1 ==> approaches[j] == approaches[1..][j - 1];
        }
      }
      r
  }

  /** `findLaneConfigForVehicle`: the lane with this id on the first approach entry of the
      vehicle's direction; `None` stands for the null pointer. */
  function FindLaneConfig(c: IntersectionConfig, d: Direction, laneId: LaneId): (r: Option<LaneConfig>)
    ensures r.None? <==>
      || FindApproachById(c.approaches, ApproachFromDirection(d)).None?
      || forall l :: l in FindApproachById(c.approaches, ApproachFromDirection(d)).value.lanes ==> l.id != laneId
    ensures r.Some? ==> r.value.id == laneId && r.value in FindApproachById(c.approaches, ApproachFromDirection(d)).value.lanes
  {
    match FindApproachById(c.approaches, ApproachFromDirection(d))
    case None => None
    case Some(ac) =>
      match FindLaneIndex(ac.lanes, laneId)
      case None => None
      case Some(k) => Some(ac.lanes[k])
  }

  /** The test of `processVehicleCrossings`: the vehicle waits at the stop zone, its lane
      (when the configuration knows it) reaches the intersection, and the lane has no
      light or the approach's through light is Green. */
  predicate MayStartCrossing(c: IntersectionConfig, d: Direction, v: Vehicle, lights: IntersectionState) {
    IsWaiting(v) && v.positionInLane >= STOP_TARGET &&
    var lane := FindLaneConfig(c, d, v.laneId);
    var connected := if lane.Some? then lane.value.connectedToIntersection else true;
    var hasLight := if lane.Some? then lane.value.hasTrafficLight else true;
    connected && (!hasLight || LightGreen(lights, d))
  }

  /** One queue after `processVehicleCrossings`: every vehicle that may start gets the
      current time as its crossing time; nothing else changes. */
  function StartQueue(c: IntersectionConfig, d: Direction, q: seq<Vehicle>, lights: IntersectionState, now: real): (r: seq<Vehicle>)
    ensures |r| == |q|
  {
    seq(|q|, i requires 0 <= i < |q| =>
      if MayStartCrossing(c, d, q[i], lights) then q[i].(crossingTime := now) else q[i])
  }

  /** `processVehicleCrossings` on all four queues. */
  function StartCrossings(c: IntersectionConfig, st: Snapshot, lights: IntersectionState, now: real): Snapshot {
    st.(north := StartQueue(c, N, st.north, lights, now),
        south := StartQueue(c, S, st.south, lights, now),
        east := StartQueue(c, E, st.east, lights, now),
        west := StartQueue(c, W, st.west, lights, now))
  }

  /** The head of the queue of `d` is crossing and has been for its whole crossing time. */
  predicate HeadDone(st: Snapshot, d: Direction, phys: Physics, now: real) {
    var q := st.Queue(d);
    |q| > 0 && IsCrossing(q[0]) && now - q[0].crossingTime >= phys.crossingDuration(q[0], |q|)
  }

  /** `completeVehicleCrossings` from the `k`-th direction of North, South, East, West on:
      a finished head is handed to `completeCrossing` by its id. */
  function CompleteDueFrom(st: Snapshot, phys: Physics, now: real, k: nat): (r: Snapshot)
    requires k <= 4
    ensures r.spawnLaneCursor == st.spawnLaneCursor && r.nextVehicleId == st.nextVehicleId
    decreases 4 - k
  {
    if k == 4 then st
    else
      var d := DirectionAt(k);
      var next := if HeadDone(st, d, phys, now) then TrafficModel.CompleteCrossing(st, st.Queue(d)[0].id, now).0 else st;
      CompleteDueFrom(next, phys, now, k + 1)
  }

  function CompleteDue(st: Snapshot, phys: Physics, now: real): Snapshot {
    CompleteDueFrom(st, phys, now, 0)
  }

  /** What a running tick does to the traffic after `generateTraffic`, given the lights
      the controller shows: move, start crossings, complete crossings. */
  function MoveStep(c: IntersectionConfig, st: Snapshot, dt: real, now: real,
                    lights: IntersectionState, phys: Physics): (r: Snapshot)
    ensures r.spawnLaneCursor == st.spawnLaneCursor && r.nextVehicleId == st.nextVehicleId
  {
    CompleteDue(StartCrossings(c, UpdateSpeeds(c, st, dt, CanMove(lights), phys), lights, now), phys, now)
  }

  /** What one running tick does to the traffic: generate, then the rest. */
  function TrafficStep(c: IntersectionConfig, st: Snapshot, rate: real, dt: real, now: real,
                       lights: IntersectionState, phys: Physics): Snapshot
    requires WellFormed(st)
  {
    MoveStep(c, Generate(c, rate, st, dt, now), dt, now, lights, phys)
  }

  // ---------------------------------------------------------------------------
  // resolveActiveSignalGroups and isConfigSignalStateSafe

  /** The light that releases a movement: the through light of its approach for Straight
      and Left, the approach's turn light for Right. */
  function MovementLight(s: IntersectionState, r: MovementRef): LightState {
    match (r.from, r.movement)
    case (North, Right) => s.turnNorthWest
    case (East, Right) => s.turnEastNorth
    case (South, Right) => s.turnSouthEast
    case (West, Right) => s.turnWestSouth
    case (North, _) => s.north
    case (East, _) => s.east
    case (South, _) => s.south
    case (West, _) => s.west
  }

  /** Every movement, in the order `resolveActiveSignalGroups` looks them up: Straight
      and Left per through light, North, South, East, West, then Right per turn light. */
  const Candidates: seq<MovementRef> := [
    MovementRef(North, Straight), MovementRef(North, Left),
    MovementRef(South, Straight), MovementRef(South, Left),
    MovementRef(East, Straight), MovementRef(East, Left),
    MovementRef(West, Straight), MovementRef(West, Left),
    MovementRef(South, Right), MovementRef(North, Right),
    MovementRef(West, Right), MovementRef(East, Right)]

  lemma CandidatesComplete(r: MovementRef)
    ensures r in Candidates
  {
    match (r.from, r.movement) {
      case (North, Straight) => assert Candidates[0] == r;
      case (North, Left) => assert Candidates[1] == r;
      case (South, Straight) => assert Candidates[2] == r;
      case (South, Left) => assert Candidates[3] == r;
      case (East, Straight) => assert Candidates[4] == r;
      case (East, Left) => assert Candidates[5] == r;
      case (West, Straight) => assert Candidates[6] == r;
      case (West, Left) => assert Candidates[7] == r;
      case (South, Right) => assert Candidates[8] == r;
      case (North, Right) => assert Candidates[9] == r;
      case (West, Right) => assert Candidates[10] == r;
      case (East, Right) => assert Candidates[11] == r;
    }
  }

  /** The movements of `rs` whose light is lit, in order. */
  function LitAmong(s: IntersectionState, rs: seq<MovementRef>): (lit: seq<MovementRef>)
    ensures forall r :: r in lit <==> r in rs && IsActive(MovementLight(s, r))
  {
    if rs == [] then []
    else (if IsActive(MovementLight(s, rs[0])) then [rs[0]] else []) + LitAmong(s, rs[1..])
  }

  /** The movements `resolveActiveSignalGroups` looks up: those whose light is Green or
      Orange. */
  function LitMovements(s: IntersectionState): (lit: seq<MovementRef>)
    ensures forall r :: r in lit <==> IsActive(MovementLight(s, r))
  {
    forall r ensures r in Candidates {
      CandidatesComplete(r);
    }
    LitAmong(s, Candidates)
  }

  /** A group serves a movement when it greens that movement and one of its lanes lies on
      the movement's approach (the first approach entry holding the lane). */
  predicate GroupServes(c: IntersectionConfig, g: SignalGroupConfig, r: MovementRef) {
    r.movement in g.greenMovements &&
    exists lane :: lane in g.controlledLanes && FindApproachForLane(c, lane) == Some(r.from)
  }

  /** The ids of the groups among `groups` that serve `r`. */
  function Serving(c: IntersectionConfig, groups: seq<SignalGroupConfig>, r: MovementRef): set<SignalGroupId> {
    set g | g in groups && GroupServes(c, g, r) :: g.id
  }

  /** The ids of the groups that serve one of `rs`. */
  function ServingAny(c: IntersectionConfig, rs: seq<MovementRef>): set<SignalGroupId> {
    set g, r | g in c.signalGroups && r in rs && GroupServes(c, g, r) :: g.id
  }

  /** The signal groups a light state activates. */
  function ActiveGroups(c: IntersectionConfig, s: IntersectionState): set<SignalGroupId> {
    ServingAny(c, LitMovements(s))
  }

  /** Some listing of a set of group ids. */
  ghost function Enumeration(ids: set<SignalGroupId>): (r: seq<SignalGroupId>)
    ensures forall id :: id in r <==> id in ids
    decreases |ids|
  {
    if ids == {} then []
    else
      var id :| id in ids;
      [id] + Enumeration(ids - {id})
  }

  /** `isConfigSignalStateSafe`: without signal groups anything goes; with them, the
      configuration must be valid and the active groups conflict-free. */
  ghost predicate ConfigSignalStateSafe(c: IntersectionConfig, s: IntersectionState) {
    c.signalGroups == [] ||
    (ConfigValid(c) && (ActiveGroups(c, s) == {} || ConflictFree(c, Enumeration(ActiveGroups(c, s)))))
  }

  /** The test at the end of `tick`. */
  ghost predicate Unsafe(c: IntersectionConfig, s: IntersectionState) {
    !IsSafe(s) || !ConfigSignalStateSafe(c, s)
  }

  // ---------------------------------------------------------------------------
  // The supervisor's own state

  /** Mode, running flag, clock and violation count of the engine. */
  datatype Supervision = Supervision(mode: ControlMode, running: bool, time: real, violations: nat)

  /** What `tick(dt)` does to the supervisor's state when the lights it checks are
      `unsafe`: nothing while stopped; otherwise one violation more and the fallback mode
      when unsafe, and `dt` more on the clock. */
  function Supervise(s: Supervision, unsafe: bool, dt: real): Supervision {
    if !s.running then s
    else Supervision(if unsafe then NullControl else s.mode, true, s.time + dt,
                     s.violations + if unsafe then 1 else 0)
  }

  datatype SimulatorMetrics = SimulatorMetrics(
    totalTime: real,
    vehiclesGenerated: nat,
    vehiclesCrossed: nat,
    averageWaitTime: real,
    queueLengths: seq<nat>,
    totalQueueLength: nat,
    safetyViolations: nat)

  // ---------------------------------------------------------------------------
  // The engine

  /** How many more ticks of `dt` the loop of `simulate` runs from clock `t`. */
  ghost function StepsLeft(duration: real, t: real, dt: real): nat
    requires dt > 0.0
  {
    if t < duration then ((duration - t) / dt).Floor + 1 else 0
  }

  /** A tick of `dt` brings the loop of `simulate` one step nearer its end. */
  lemma StepsLeftDecrease(duration: real, t: real, dt: real)
    requires dt > 0.0 && t < duration
    ensures StepsLeft(duration, t + dt, dt) < StepsLeft(duration, t, dt)
  {
    var q := (duration - t) / dt;
    assert q * dt == duration - t;
    assert (q - 1.0) * dt == duration - (t + dt);
    var r := (duration - (t + dt)) / dt;
    assert r * dt == duration - (t + dt);
    var e := r - (q - 1.0);
    assert e * dt == 0.0;
    if e > 0.0 || e < 0.0 {
      assert false;
    }
    assert r == q - 1.0;
    assert q > 0.0;
  }

  /** The ids of a set, each once (the copy of the `std::set` into the result vector). */
  method ListIds(active: set<SignalGroupId>) returns (ids: seq<SignalGroupId>)
    ensures forall id :: id in ids <==> id in active
    ensures forall i, j :: 0 <= i < j < |ids| ==> ids[i] != ids[j]
  {
    ids := [];
    var rest := active;
    while rest != {}
      invariant forall id :: id in ids || id in rest <==> id in active
      invariant forall id :: id in ids ==> id !in rest
      invariant forall i, j :: 0 <= i < j < |ids| ==> ids[i] != ids[j]
      decreases |rest|
    {
      var id :| id in rest;
      ids := ids + [id];
      rest := rest - {id};
    }
  }

  class SimulatorEngine {
    const config: IntersectionConfig
    const checker: Checker
    const traffic: TrafficGenerator
    const nsDuration: real
    const ewDuration: real
    /** What the `ConfigurableSignalGroupController` for `config` does; present whenever
        the configuration has signal groups. */
    const groupBehaviour: Option<Behaviour>
    var controlMode: ControlMode
    var controller: Controller
    var running: bool
    var currentTime: real
    var safetyViolations: nat

    predicate Valid()
      reads this, traffic, CtlObjects(controller)
    {
      && traffic.Valid() && traffic.config == config
      && checker.config == config
      && (config.signalGroups != [] ==> groupBehaviour.Some?)
      && ControllerValid(controller) && traffic !in CtlObjects(controller)
      && (controller.AdapterController? ==>
            controller.adapter.basic.nsDuration == nsDuration && controller.adapter.basic.ewDuration == ewDuration)
    }

    function SupervisionOf(): Supervision
      reads this
    {
      Supervision(controlMode, running, currentTime, safetyViolations)
    }

    /** `SimulatorEngine(config, traffic_rate, ns_duration, ew_duration)`: Basic mode, the
        fixed cycle when the configuration has no signal groups and the group controller
        otherwise (not reset), configured spawning, a zero clock. */
    constructor (c: IntersectionConfig, trafficRate: real, ns: real, ew: real, groups: Option<Behaviour>)
      requires c.signalGroups != [] ==> groups.Some?
      ensures Valid() && fresh(traffic) && fresh(CtlObjects(controller))
      ensures config == c && nsDuration == ns && ewDuration == ew && groupBehaviour == groups
      ensures checker.configValid == ConfigValid(c)
      ensures traffic.State() == Initial(true) && traffic.arrivalRate == trafficRate
      ensures SupervisionOf() == Supervision(Basic, false, 0.0, 0)
      ensures controller.AdapterController? <==> c.signalGroups == []
      ensures controller.AdapterController? ==> controller.adapter.basic.ClockOf() == InitialClock
      ensures ControllerLights(controller) ==
        if c.signalGroups == [] then PhasePattern(NsGreen) else groups.value.initialLights
    {
      var ch := NewChecker(c);
      checker := ch;
      config := c;
      traffic := new TrafficGenerator(c, trafficRate);
      nsDuration := ns;
      ewDuration := ew;
      groupBehaviour := groups;
      controlMode := Basic;
      currentTime := 0.0;
      safetyViolations := 0;
      running := false;
      if c.signalGroups == [] {
        var a := new BasicControllerAdapter(ns, ew);
        controller := AdapterController(a);
      } else {
        var o := new OpaqueController(groups.value);
        controller := ExternalController(o);
      }
    }

    /** `SimulatorEngine(traffic_rate, ns_duration, ew_duration)`: the same on the default
        intersection, which has no signal groups. */
    constructor Default(trafficRate: real := 0.5, ns: real := 10.0, ew: real := 10.0)
      ensures Valid() && fresh(traffic) && fresh(CtlObjects(controller))
      ensures config.signalGroups == [] && LaneCountsFit(config.approaches)
      ensures config.laneConnections == SynthesizedConnections(config.approaches)
      ensures forall i :: 0 <= i < 4 ==>
        config.approaches[i].id == ApproachAt(i) &&
        config.approaches[i].lanes == DefaultApproachFor(ApproachAt(i)).lanes &&
        config.approaches[i].toLaneCount == 3
      ensures nsDuration == ns && ewDuration == ew && groupBehaviour == None
      ensures checker.configValid == ConfigValid(config)
      ensures traffic.State() == Initial(true) && traffic.arrivalRate == trafficRate
      ensures SupervisionOf() == Supervision(Basic, false, 0.0, 0)
      ensures controller.AdapterController? && controller.adapter.basic.ClockOf() == InitialClock
      ensures controller.adapter.basic.nsDuration == ns && controller.adapter.basic.ewDuration == ew
      ensures ControllerLights(controller) == PhasePattern(NsGreen)
    {
      var c := MakeDefaultIntersectionConfig();
      var ch := NewChecker(c);
      checker := ch;
      config := c;
      traffic := new TrafficGenerator(c, trafficRate);
      nsDuration := ns;
      ewDuration := ew;
      groupBehaviour := None;
      controlMode := Basic;
      currentTime := 0.0;
      safetyViolations := 0;
      running := false;
      var a := new BasicControllerAdapter(ns, ew);
      controller := AdapterController(a);
    }

    // -------------------------------------------------------------------------
    // The controller

    /** `advanceController`: the controller's own tick. */
    method AdvanceController(dt: real)
      requires Valid()
      modifies CtlObjects(controller)
      ensures Valid()
      ensures ControllerLights(controller) == old(TickedLights(controller, dt))
    {
      match controller {
        case AdapterController(a) =>
          a.Tick(dt);
        case FlashingController(f) =>
          f.Tick(dt);
        case ExternalController(o) =>
          o.Tick(dt);
      }
    }

    /** `getCurrentLightState`. */
    method GetCurrentLightState() returns (s: IntersectionState)
      requires Valid()
      ensures s == ControllerLights(controller)
    {
      match controller {
        case AdapterController(a) =>
          s := a.GetCurrentState();
        case FlashingController(f) =>
          s := f.GetCurrentState();
        case ExternalController(o) =>
          s := o.GetCurrentState();
      }
    }

    /** `isLightGreen`. */
    method IsLightGreen(d: Direction) returns (green: bool)
      requires Valid()
      ensures green == LightGreen(ControllerLights(controller), d)
    {
      var state := GetCurrentLightState();
      match d {
        case N => green := state.north == Green;
        case S => green := state.south == Green;
        case E => green := state.east == Green;
        case W => green := state.west == Green;
      }
    }

    /** `setControlMode`: a new controller for the mode (the fixed cycle in Basic mode
        only when the configuration has no signal groups), reset at once. */
    method SetControlMode(mode: ControlMode)
      requires Valid()
      modifies this
      ensures Valid() && fresh(CtlObjects(controller))
      ensures SupervisionOf() == old(SupervisionOf()).(mode := mode)
      ensures controller.AdapterController? <==> mode == Basic && config.signalGroups == []
      ensures controller.FlashingController? <==> mode == NullControl
      ensures controller.AdapterController? ==> controller.adapter.basic.ClockOf() == InitialClock
      ensures controller.FlashingController? ==> controller.flasher.elapsed == 0.0 && controller.flasher.orangeOn
      ensures ControllerLights(controller) ==
        match mode
        case Basic => if config.signalGroups == [] then PhasePattern(NsGreen) else groupBehaviour.value.resetLights
        case NullControl => FlashPattern(true)
    {
      controlMode := mode;
      if controlMode == Basic {
        if config.signalGroups == [] {
          var a := new BasicControllerAdapter(nsDuration, ewDuration);
          a.Reset();
          controller := AdapterController(a);
          assert a.basic.currentState == PhasePattern(a.basic.currentPhase);
        } else {
          var o := new OpaqueController(groupBehaviour.value);
          o.Reset();
          controller := ExternalController(o);
        }
      } else {
        var f := new NullControlController();
        f.Reset();
        controller := FlashingController(f);
      }
    }

    /** `setController`: install a given controller under the given mode, reset. */
    method SetController(custom: OpaqueController, mode: ControlMode)
      requires Valid()
      modifies this, custom
      ensures Valid()
      ensures SupervisionOf() == old(SupervisionOf()).(mode := mode)
      ensures controller == ExternalController(custom)
      ensures custom.memory == custom.behaviour.resetMemory && custom.lights == custom.behaviour.resetLights
    {
      controlMode := mode;
      controller := ExternalController(custom);
      custom.Reset();
    }

    // -------------------------------------------------------------------------
    // Crossings

    /** The body of the vehicle loop of `processVehicleCrossings`, under the lights
        `lights` the controller shows (they do not change during the pass, so the model
        reads them once instead of once per vehicle). */
    method StartOne(d: Direction, v: Vehicle, lights: IntersectionState) returns (w: Vehicle)
      ensures w == if MayStartCrossing(config, d, v, lights) then v.(crossingTime := currentTime) else v
    {
      w := v;
      if !IsWaiting(v) || v.positionInLane < STOP_TARGET {
        return;
      }
      var laneCfg := FindLaneConfig(config, d, v.laneId);
      var connected := if laneCfg.Some? then laneCfg.value.connectedToIntersection else true;
      var hasTrafficLight := if laneCfg.Some? then laneCfg.value.hasTrafficLight else true;
      if !connected {
        return;
      }
      var canCross := !hasTrafficLight || LightGreen(lights, d);
      if canCross {
        w := v.(crossingTime := currentTime);
      }
    }

    /** The body of the direction loop of `processVehicleCrossings`. */
    method StartDirection(d: Direction, lights: IntersectionState)
      modifies traffic
      ensures traffic.State() == old(traffic.State()).WithQueue(d,
        StartQueue(config, d, old(traffic.State()).Queue(d), lights, currentTime))
    {
      var q0 := traffic.QueueOf(d);
      var q := q0;
      for i := 0 to |q|
        invariant unchanged(traffic)
        invariant |q| == |q0|
        invariant forall k :: 0 <= k < i ==> q[k] == StartQueue(config, d, q0, lights, currentTime)[k]
        invariant forall k :: i <= k < |q| ==> q[k] == q0[k]
      {
        var w := StartOne(d, q[i], lights);
        q := q[i := w];
      }
      assert q == StartQueue(config, d, q0, lights, currentTime);
      traffic.SetQueue(d, q);
    }

    /** `processVehicleCrossings` under the lights `lights`. */
    method ProcessVehicleCrossings(lights: IntersectionState)
      modifies traffic
      ensures traffic.State() == StartCrossings(config, old(traffic.State()), lights, currentTime)
    {
      ghost var st := traffic.State();
      for dir := 0 to 4
        invariant traffic.State() == st.(north := traffic.north, south := traffic.south, east := traffic.east, west := traffic.west)
        invariant traffic.north == if dir > 0 then StartQueue(config, N, st.north, lights, currentTime) else st.north
        invariant traffic.south == if dir > 1 then StartQueue(config, S, st.south, lights, currentTime) else st.south
        invariant traffic.east == if dir > 2 then StartQueue(config, E, st.east, lights, currentTime) else st.east
        invariant traffic.west == if dir > 3 then StartQueue(config, W, st.west, lights, currentTime) else st.west
      {
        StartDirection(DirectionAt(dir), lights);
      }
    }

    /** The body of the direction loop of `completeVehicleCrossings`. */
    method CompleteDirection(d: Direction, phys: Physics)
      modifies traffic
      ensures traffic.State() ==
        if HeadDone(old(traffic.State()), d, phys, currentTime)
        then TrafficModel.CompleteCrossing(old(traffic.State()), old(traffic.State()).Queue(d)[0].id, currentTime).0
        else old(traffic.State())
    {
      var v := traffic.PeekNextVehicle(d);
      if v.Some? && IsCrossing(v.value) {
        var length := traffic.GetQueueLength(d);
        var crossingTime := phys.crossingDuration(v.value, length);
        if currentTime - v.value.crossingTime >= crossingTime {
          var _ := traffic.CompleteCrossing(v.value.id, currentTime);
        }
      }
    }

    /** `completeVehicleCrossings`. */
    method CompleteVehicleCrossings(phys: Physics)
      modifies traffic
      ensures traffic.State() == CompleteDue(old(traffic.State()), phys, currentTime)
    {
      ghost var target := CompleteDue(traffic.State(), phys, currentTime);
      for dir := 0 to 4
        invariant CompleteDueFrom(traffic.State(), phys, currentTime, dir) == target
      {
        CompleteDirection(DirectionAt(dir), phys);
      }
    }

    /** The traffic half of `tick` after `generateTraffic`, under the lights `lights`:
        `updateVehicleSpeeds` with the through lights, `processVehicleCrossings`,
        `completeVehicleCrossings`. */
    method MoveVehicles(dt: real, lights: IntersectionState, phys: Physics)
      requires traffic.config == config
      modifies traffic
      ensures traffic.State() == MoveStep(config, old(traffic.State()), dt, currentTime, lights, phys)
    {
      ghost var st0 := traffic.State();
      var laneCanMove := [LightGreen(lights, N), LightGreen(lights, S), LightGreen(lights, E), LightGreen(lights, W)];
      ghost var started := StartCrossings(config, UpdateSpeeds(config, st0, dt, laneCanMove, phys), lights, currentTime);
      traffic.UpdateVehicleSpeeds(dt, laneCanMove, phys);
      ProcessVehicleCrossings(lights);
      assert traffic.State() == started;
      CompleteVehicleCrossings(phys);
    }

    /** The traffic half of `tick` under the lights `lights` the controller shows:
        `generateTraffic`, then the vehicles move. */
    method MoveTraffic(dt: real, lights: IntersectionState, phys: Physics)
      requires traffic.Valid() && traffic.config == config
      modifies traffic
      ensures traffic.Valid()
      ensures traffic.State() ==
        TrafficStep(config, old(traffic.State()), traffic.arrivalRate, dt, currentTime, lights, phys)
    {
      traffic.GenerateTraffic(dt, currentTime);
      MoveVehicles(dt, lights, phys);
    }

    // -------------------------------------------------------------------------
    // Signal groups

    /** `includeMatchingGroups`: add the groups that serve `r`. */
    method IncludeMatchingGroups(active: set<SignalGroupId>, r: MovementRef) returns (result: set<SignalGroupId>)
      ensures result == active + Serving(config, config.signalGroups, r)
    {
      var groups := config.signalGroups;
      result := active;
      for i := 0 to |groups|
        invariant result == active + Serving(config, groups[..i], r)
      {
        var group := groups[i];
        assert groups[..i + 1] == groups[..i] + [group];
        if r.movement !in group.greenMovements {
          continue;
        }
        var found := false;
        for j := 0 to |group.controlledLanes|
          invariant found <==> exists lane :: lane in group.controlledLanes[..j] && FindApproachForLane(config, lane) == Some(r.from)
        {
          var laneId := group.controlledLanes[j];
          assert group.controlledLanes[..j + 1] == group.controlledLanes[..j] + [laneId];
          if FindApproachForLane(config, laneId) == Some(r.from) {
            found := true;
            break;
          }
        }
        assert group.controlledLanes[..|group.controlledLanes|] == group.controlledLanes;
        if found {
          result := result + {group.id};
        }
      }
      assert groups[..|groups|] == groups;
    }

    /** `resolveActiveSignalGroups`: the ids of the groups serving a movement whose light
        is Green or Orange, each once. */
    method ResolveActiveSignalGroups(s: IntersectionState) returns (ids: seq<SignalGroupId>)
      ensures forall id :: id in ids <==> id in ActiveGroups(config, s)
      ensures forall i, j :: 0 <= i < j < |ids| ==> ids[i] != ids[j]
    {
      var lit := LitMovements(s);
      var active: set<SignalGroupId> := {};
      for k := 0 to |lit|
        invariant active == ServingAny(config, lit[..k])
      {
        active := IncludeMatchingGroups(active, lit[k]);
        assert lit[..k + 1] == lit[..k] + [lit[k]];
      }
      assert lit[..|lit|] == lit;
      ids := ListIds(active);
    }

    /** `isConfigSignalStateSafe`. */
    method IsConfigSignalStateSafe(s: IntersectionState) returns (ok: bool)
      requires Valid()
      ensures ok == ConfigSignalStateSafe(config, s)
    {
      if config.signalGroups == [] {
        return true;
      }
      if !checker.configValid {
        return false;
      }
      var activeGroups := ResolveActiveSignalGroups(s);
      if |activeGroups| == 0 {
        assert ActiveGroups(config, s) == {};
        return true;
      }
      assert activeGroups[0] in ActiveGroups(config, s);
      ok := AreSignalGroupsConflictFree(checker, activeGroups);
      SafetyProperties.ConflictFreeOrderIndependent(config, activeGroups, Enumeration(ActiveGroups(config, s)));
    }

    // -------------------------------------------------------------------------
    // tick and the commands

    /** The check at the end of `tick`: count an unsafe state and fall back to the
        flashing controller unless already there. */
    method CheckLights(state: IntersectionState)
      requires Valid()
      modifies this
      ensures Valid()
      ensures SupervisionOf() == old(SupervisionOf()).(
        mode := if Unsafe(config, state) then NullControl else old(controlMode),
        violations := old(safetyViolations) + if Unsafe(config, state) then 1 else 0)
      ensures Unsafe(config, state) && old(controlMode) != NullControl ==>
        fresh(CtlObjects(controller)) && controller.FlashingController? &&
        controller.flasher.elapsed == 0.0 && controller.flasher.orangeOn &&
        ControllerLights(controller) == FlashPattern(true)
      ensures !(Unsafe(config, state) && old(controlMode) != NullControl) ==> controller == old(controller)
    {
      var safe := IsSafe(state);
      var configSafe := IsConfigSignalStateSafe(state);
      if !safe || !configSafe {
        safetyViolations := safetyViolations + 1;
        if controlMode != NullControl {
          SetControlMode(NullControl);
        }
      }
    }

    /** The first half of a running `tick`: the controller ticks and its new lights are read. */
    method AdvanceAndRead(dt: real) returns (lights: IntersectionState)
      requires Valid()
      modifies CtlObjects(controller)
      ensures Valid()
      ensures lights == old(TickedLights(controller, dt)) && lights == ControllerLights(controller)
    {
      AdvanceController(dt);
      lights := GetCurrentLightState();
    }

    /** The end of a running `tick`: `lights` are checked (falling back to flashing amber
        when unsafe) and the clock advances. */
    method FinishTick(dt: real, lights: IntersectionState)
      requires Valid() && running
      modifies this
      ensures Valid() && (controller == old(controller) || fresh(CtlObjects(controller)))
      ensures SupervisionOf() == Supervise(old(SupervisionOf()), Unsafe(config, lights), dt)
      ensures ControllerLights(controller) ==
        (if Unsafe(config, lights) && old(controlMode) != NullControl
         then FlashPattern(true) else old(ControllerLights(controller)))
    {
      CheckLights(lights);
      currentTime := currentTime + dt;
    }

    /** The traffic moves while the engine's own state and its controller stay as they
        are. */
    method MoveTrafficOnly(dt: real, lights: IntersectionState, phys: Physics)
      requires Valid()
      modifies traffic
      ensures Valid() && ControllerLights(controller) == old(ControllerLights(controller))
      ensures traffic.State() ==
        TrafficStep(config, old(traffic.State()), traffic.arrivalRate, dt, currentTime, lights, phys)
    {
      assert traffic !in CtlObjects(controller);
      MoveTraffic(dt, lights, phys);
      match controller
      case AdapterController(a) =>
        assert a.basic.currentState == old(a.basic.currentState);
        assert a.basic.currentPhase == old(a.basic.currentPhase);
      case FlashingController(f) =>
        assert f.state == old(f.state) && f.orangeOn == old(f.orangeOn);
      case ExternalController(o) =>
        assert o.lights == old(o.lights);
    }

    /** The second half of a running `tick`: the traffic moves under `lights`, then
        `FinishTick`. */
    method MoveAndCheck(dt: real, lights: IntersectionState, phys: Physics)
      requires Valid() && running
      modifies this, traffic
      ensures Valid() && (controller == old(controller) || fresh(CtlObjects(controller)))
      ensures SupervisionOf() == Supervise(old(SupervisionOf()), Unsafe(config, lights), dt)
      ensures traffic.State() ==
        TrafficStep(config, old(traffic.State()), traffic.arrivalRate, dt, old(currentTime), lights, phys)
      ensures ControllerLights(controller) ==
        (if Unsafe(config, lights) && old(controlMode) != NullControl
         then FlashPattern(true) else old(ControllerLights(controller)))
    {
      MoveTrafficOnly(dt, lights, phys);
      ghost var st1 := traffic.State();
      FinishTick(dt, lights);
      assert traffic.State() == st1;
    }

    /** `tick(dt)`: nothing while stopped; otherwise the controller ticks, the traffic moves
        under the lights it now shows, those lights are checked, and the clock advances. */
    method Tick(dt: real, phys: Physics)
      requires Valid()
      modifies this, traffic, CtlObjects(controller)
      ensures Valid() && (controller == old(controller) || fresh(CtlObjects(controller)))
      ensures SupervisionOf() == Supervise(old(SupervisionOf()), Unsafe(config, old(TickedLights(controller, dt))), dt)
      ensures old(running) ==> running && currentTime == old(currentTime) + dt
      ensures !old(running) ==> unchanged(this) && unchanged(traffic) && unchanged(CtlObjects(controller))
      ensures old(running) ==> (traffic.State() ==
        TrafficStep(config, old(traffic.State()), traffic.arrivalRate, dt, old(currentTime), old(TickedLights(controller, dt)), phys))
      ensures old(running) ==> (ControllerLights(controller) ==
        (if Unsafe(config, old(TickedLights(controller, dt))) && old(controlMode) != NullControl
         then FlashPattern(true) else old(TickedLights(controller, dt))))
    {
      if !running {
        return;
      }
      ghost var st0, now, ticked := traffic.State(), currentTime, TickedLights(controller, dt);
      var lights := AdvanceAndRead(dt);
      assert traffic.State() == st0 && currentTime == now && lights == ticked;
      MoveAndCheck(dt, lights, phys);
    }

    /** `reset`: zero clock, stopped, no violations, the traffic reset and a new, reset
        controller for Basic mode. */
    method Reset()
      requires Valid()
      modifies this, traffic
      ensures Valid() && fresh(CtlObjects(controller))
      ensures SupervisionOf() == Supervision(Basic, false, 0.0, 0)
      ensures traffic.State() == TrafficModel.Reset(old(traffic.State()))
      ensures controller.AdapterController? <==> config.signalGroups == []
      ensures controller.AdapterController? ==> controller.adapter.basic.ClockOf() == InitialClock
      ensures ControllerLights(controller) ==
        if config.signalGroups == [] then PhasePattern(NsGreen) else groupBehaviour.value.resetLights
    {
      currentTime := 0.0;
      running := false;
      safetyViolations := 0;
      traffic.Reset();
      SetControlMode(Basic);
    }

    method Start()
      requires Valid()
      modifies this
      ensures Valid()
      ensures SupervisionOf() == old(SupervisionOf()).(running := true)
      ensures controller == old(controller)
    {
      running := true;
    }

    method Stop()
      requires Valid()
      modifies this
      ensures Valid()
      ensures SupervisionOf() == old(SupervisionOf()).(running := false)
      ensures controller == old(controller)
    {
      running := false;
    }

    /** `handleCommand`: Start and Stop only set the running flag, Reset resets, and Step
        runs exactly one tick, starting and stopping the engine around it when stopped. */
    method HandleCommand(command: UICommand, dt: real, phys: Physics)
      requires Valid()
      modifies this, traffic, CtlObjects(controller)
      ensures Valid() && (controller == old(controller) || fresh(CtlObjects(controller)))
      ensures command.Start? ==>
        && SupervisionOf() == old(SupervisionOf()).(running := true)
        && controller == old(controller) && unchanged(traffic) && unchanged(CtlObjects(controller))
      ensures command.Stop? ==>
        && SupervisionOf() == old(SupervisionOf()).(running := false)
        && controller == old(controller) && unchanged(traffic) && unchanged(CtlObjects(controller))
      ensures command.Reset? ==>
        && SupervisionOf() == Supervision(Basic, false, 0.0, 0)
        && traffic.State() == TrafficModel.Reset(old(traffic.State()))
        && fresh(CtlObjects(controller))
        && (controller.AdapterController? <==> config.signalGroups == [])
        && (controller.AdapterController? ==> controller.adapter.basic.ClockOf() == InitialClock)
        && ControllerLights(controller) ==
             (if config.signalGroups == [] then PhasePattern(NsGreen) else groupBehaviour.value.resetLights)
      ensures command.Step? ==>
        && SupervisionOf() == Supervise(old(SupervisionOf()).(running := true),
                                        Unsafe(config, old(TickedLights(controller, dt))), dt).(running := old(running))
        && traffic.State() ==
             TrafficStep(config, old(traffic.State()), traffic.arrivalRate, dt, old(currentTime), old(TickedLights(controller, dt)), phys)
        && (ControllerLights(controller) ==
          (if Unsafe(config, old(TickedLights(controller, dt))) && old(controlMode) != NullControl
           then FlashPattern(true) else old(TickedLights(controller, dt))))
    {
      match command {
        case Start =>
          Start();
        case Stop =>
          Stop();
        case Reset =>
          Reset();
        case Step =>
          SingleStep(dt, phys);
      }
    }

    /** The Step command: exactly one tick, starting and stopping the engine around it
        when it is stopped. */
    method SingleStep(dt: real, phys: Physics)
      requires Valid()
      modifies this, traffic, CtlObjects(controller)
      ensures Valid() && (controller == old(controller) || fresh(CtlObjects(controller)))
      ensures SupervisionOf() == Supervise(old(SupervisionOf()).(running := true),
                                           Unsafe(config, old(TickedLights(controller, dt))), dt).(running := old(running))
      ensures traffic.State() ==
        TrafficStep(config, old(traffic.State()), traffic.arrivalRate, dt, old(currentTime), old(TickedLights(controller, dt)), phys)
      ensures ControllerLights(controller) ==
        (if Unsafe(config, old(TickedLights(controller, dt))) && old(controlMode) != NullControl
         then FlashPattern(true) else old(TickedLights(controller, dt)))
    {
      if !running {
        StepWhileStopped(dt, phys);
      } else {
        Tick(dt, phys);
      }
    }

    /** The Step command on a stopped engine: start, one tick, stop. */
    method StepWhileStopped(dt: real, phys: Physics)
      requires Valid() && !running
      modifies this, traffic, CtlObjects(controller)
      ensures Valid() && (controller == old(controller) || fresh(CtlObjects(controller)))
      ensures SupervisionOf() == Supervise(old(SupervisionOf()).(running := true),
                                           Unsafe(config, old(TickedLights(controller, dt))), dt).(running := false)
      ensures traffic.State() ==
        TrafficStep(config, old(traffic.State()), traffic.arrivalRate, dt, old(currentTime), old(TickedLights(controller, dt)), phys)
      ensures ControllerLights(controller) ==
        (if Unsafe(config, old(TickedLights(controller, dt))) && old(controlMode) != NullControl
         then FlashPattern(true) else old(TickedLights(controller, dt)))
    {
      ghost var st0, now, ticked := traffic.State(), currentTime, TickedLights(controller, dt);
      Start();
      assert traffic.State() == st0 && currentTime == now && TickedLights(controller, dt) == ticked;
      TickThenStop(dt, phys);
    }

    /** A tick of a running engine, then `stop`. */
    method TickThenStop(dt: real, phys: Physics)
      requires Valid() && running
      modifies this, traffic, CtlObjects(controller)
      ensures Valid() && (controller == old(controller) || fresh(CtlObjects(controller)))
      ensures SupervisionOf() ==
        Supervise(old(SupervisionOf()), Unsafe(config, old(TickedLights(controller, dt))), dt).(running := false)
      ensures traffic.State() ==
        TrafficStep(config, old(traffic.State()), traffic.arrivalRate, dt, old(currentTime), old(TickedLights(controller, dt)), phys)
      ensures ControllerLights(controller) ==
        (if Unsafe(config, old(TickedLights(controller, dt))) && old(controlMode) != NullControl
         then FlashPattern(true) else old(TickedLights(controller, dt)))
    {
      Tick(dt, phys);
      ghost var st1, shown := traffic.State(), ControllerLights(controller);
      Stop();
      assert traffic.State() == st1 && ControllerLights(controller) == shown;
    }

    /** `simulate(duration, time_step)`: reset, start, tick until the clock reaches the
        duration, stop. Only a positive time step makes the loop end. */
    method Simulate(duration: real, timeStep: real, phys: Physics)
      requires Valid() && timeStep > 0.0
      modifies this, traffic, CtlObjects(controller)
      ensures Valid() && fresh(CtlObjects(controller))
      ensures !running
      ensures duration <= currentTime
      ensures currentTime < (if duration > 0.0 then duration else 0.0) + timeStep
    {
      Reset();
      Start();
      RunUntil(duration, timeStep, phys);
      Stop();
    }

    /** The loop of `simulate`: tick by `timeStep` while the clock is below `duration`. */
    method RunUntil(duration: real, timeStep: real, phys: Physics)
      requires Valid() && running && timeStep > 0.0
      requires 0.0 <= currentTime < (if duration > 0.0 then duration else 0.0) + timeStep
      modifies this, traffic, CtlObjects(controller)
      ensures Valid() && running && (controller == old(controller) || fresh(CtlObjects(controller)))
      ensures duration <= currentTime < (if duration > 0.0 then duration else 0.0) + timeStep
    {
      while currentTime < duration
        invariant Valid() && running && (controller == old(controller) || fresh(CtlObjects(controller)))
        invariant 0.0 <= currentTime < (if duration > 0.0 then duration else 0.0) + timeStep
        decreases StepsLeft(duration, currentTime, timeStep)
      {
        ghost var before := currentTime;
        LoopTick(timeStep, phys);
        StepsLeftDecrease(duration, before, timeStep);
      }
    }

    /** One pass of the loop of `simulate`: a tick of a running engine, seen only for what
        the loop needs (the clock advances and the engine keeps running). */
    method LoopTick(dt: real, phys: Physics)
      requires Valid() && running
      modifies this, traffic, CtlObjects(controller)
      ensures Valid() && running && (controller == old(controller) || fresh(CtlObjects(controller)))
      ensures currentTime == old(currentTime) + dt
    {
      Tick(dt, phys);
    }

    /** `getMetrics`: the queue lengths in the order North, East, South, West. */
    method GetMetrics() returns (m: SimulatorMetrics)
      requires Valid()
      ensures m.totalTime == currentTime && m.safetyViolations == safetyViolations
      ensures m.vehiclesGenerated + 1 == traffic.nextVehicleId
      ensures m.vehiclesCrossed == |traffic.crossedVehicles|
      ensures m.averageWaitTime == AverageWait(traffic.crossedVehicles)
      ensures m.queueLengths == [|traffic.north|, |traffic.east|, |traffic.south|, |traffic.west|]
      ensures m.totalQueueLength + m.vehiclesCrossed == traffic.State().Population()
    {
      var generated := traffic.GetTotalGenerated();
      var crossed := traffic.GetTotalCrossed();
      var wait := traffic.GetAverageWaitTime();
      var north := traffic.GetQueueLength(N);
      var east := traffic.GetQueueLength(E);
      var south := traffic.GetQueueLength(S);
      var west := traffic.GetQueueLength(W);
      m := SimulatorMetrics(currentTime, generated, crossed, wait, [north, east, south, west],
                            north + east + south + west, safetyViolations);
    }
  }
}
