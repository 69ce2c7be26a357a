/** The traffic generator object (src/TrafficGenerator.cpp, include/TrafficGenerator.hpp):
    its queues, counters and cursors are fields updated in place by its methods, and each
    method is proved to leave the object in the state the matching function of
    `TrafficModel` computes from the old one. What those functions promise is proved in
    `TrafficProperties` and `SpawnLoop`. */
module Traffic {
  import opened Wrappers
  import opened Configuration
  import opened Vehicles
  import opened Routing
  import opened TrafficModel
  import opened SpawnLoop

  // ---------------------------------------------------------------------------
  // Loops of the spawn round that only compute a value

  /** The `connected_lane_indices` loop. */
  method CollectConnectedLanes(lanes: seq<LaneConfig>) returns (conn: seq<nat>)
    ensures conn == ConnectedLaneIndices(lanes)
  {
    conn := [];
    var i := 0;
    while i < |lanes|
      invariant 0 <= i <= |lanes|
      invariant conn == ConnectedLaneIndices(lanes[..i])
    {
      assert lanes[..i + 1][..i] == lanes[..i];
      if lanes[i].connectedToIntersection {
        conn := conn + [i];
      }
      i := i + 1;
    }
    assert lanes[..|lanes|] == lanes;
  }

  /** The inner `std::find` loop: append the movements of one lane not yet listed. */
  method AddMovements(acc: seq<MovementType>, ms: seq<MovementType>) returns (r: seq<MovementType>)
    ensures r == AddUnique(acc, ms)
  {
    r := acc;
    var j := 0;
    while j < |ms|
      invariant 0 <= j <= |ms|
      invariant r == AddUnique(acc, ms[..j])
    {
      assert ms[..j + 1][..j] == ms[..j];
      if ms[j] !in r {
        r := r + [ms[j]];
      }
      j := j + 1;
    }
    assert ms[..|ms|] == ms;
  }

  /** The `available_movements` loop over the connected lanes. */
  method CollectAvailableMovements(lanes: seq<LaneConfig>, conn: seq<nat>) returns (available: seq<MovementType>)
    requires forall j :: 0 <= j < |conn| ==> conn[j] < |lanes|
    ensures available == AvailableUpTo(lanes, conn, |conn|)
  {
    available := [];
    var k := 0;
    while k < |conn|
      invariant 0 <= k <= |conn|
      invariant available == AvailableUpTo(lanes, conn, k)
    {
      available := AddMovements(available, lanes[conn[k]].allowedMovements);
      k := k + 1;
    }
  }

  /** The `straight_count` loop of the legacy spawn rule. */
  method CountStraight(q: seq<Vehicle>) returns (n: nat)
    ensures n == StraightCount(q)
  {
    n := 0;
    var j := 0;
    while j < |q|
      invariant 0 <= j <= |q|
      invariant n == StraightCount(q[..j])
    {
      assert q[..j + 1][..j] == q[..j];
      if !q[j].turning {
        n := n + 1;
      }
      j := j + 1;
    }
    assert q[..|q|] == q;
  }

  /** The legacy spawn rule, as the statements of `generateTraffic` apply it. */
  method RouteLegacy(v0: Vehicle, d: Direction, q: seq<Vehicle>) returns (v: Vehicle)
    ensures v == LegacyRoute(v0, d, q)
  {
    v := v0.(turning := v0.id % 5 == 0);
    if v.turning {
      v := v.(queueIndex := 2, laneId := DirectionIndex(d) * 100 + 2, movement := Right);
    } else {
      var straight := CountStraight(q);
      var qi := straight % 2;
      v := v.(queueIndex := qi, laneId := DirectionIndex(d) * 100 + qi, movement := Straight);
    }
    var from := ApproachFromDirection(d);
    v := v.(destinationApproach := DestinationApproachFor(from, v.movement));
    v := v.(destinationLaneIndex := v.queueIndex);
    v := v.(destinationLaneId := LaneIdFor(v.destinationApproach, v.destinationLaneIndex));
  }

  /** The configured spawn rule for the round-robin lane `cursor`. */
  method RouteConfigured(config: IntersectionConfig, v0: Vehicle, from: ApproachId, ac: ApproachConfig,
                         cursor: nat, available: seq<MovementType>) returns (v: Vehicle)
    requires cursor < |ac.lanes|
    ensures v == ConfiguredRoute(config, v0, from, ac, cursor, available)
  {
    v := v0;
    if |available| > 0 {
      var idx := ChooseSpawnMovementIndex(available, v.id);
      v := v.(movement := available[idx]);
    } else {
      v := v.(movement := Straight);
    }
    var pref := ChoosePreferredLaneIndex(ac.lanes, v.movement, cursor);
    PreferredLaneIsCandidate(ac.lanes, v.movement, cursor);
    var lane := ac.lanes[pref];
    v := v.(queueIndex := pref % 3, laneId := lane.id, laneChangeAllowed := lane.supportsLaneChange);
    var first := ResolveVehicleRoute(config, v, from, pref % 0x1_0000, v.movement);
    v := first.0;
    if !first.1 {
      if |lane.allowedMovements| > 0 {
        v := ResolveVehicleRoute(config, v, from, pref % 0x1_0000, lane.allowedMovements[0]).0;
      } else {
        v := ResolveVehicleRoute(config, v, from, pref % 0x1_0000, Straight).0;
      }
    }
  }

  // ---------------------------------------------------------------------------
  // Loops of the speed pass that only compute a value

  /** The `ahead_idx` search: back from `i - 1` to the first waiting vehicle in the lane. */
  method FindAhead(q: seq<Vehicle>, i: nat) returns (a: int)
    requires i < |q|
    ensures a == AheadIndex(q, i)
  {
    a := i - 1;
    while a >= 0
      invariant -1 <= a < i
      invariant AheadIn(q[..a + 1], q[i].laneId) == AheadIndex(q, i)
    {
      assert q[..a + 1][a] == q[a];
      if !IsCrossing(q[a]) && q[a].laneId == q[i].laneId {
        break;
      }
      assert q[..a + 1][..a] == q[..a];
      a := a - 1;
    }
  }

  /** The target speed of the speed loop for vehicle `i`, whose leader is at `a`. */
  method ComputeTargetSpeed(q: seq<Vehicle>, i: nat, a: int, canMove: bool, phys: Physics) returns (targetSpeed: real)
    requires i < |q| && a == AheadIndex(q, i)
    ensures targetSpeed == TargetSpeed(q, i, canMove, phys)
  {
    var v := q[i];
    targetSpeed := MAX_SPEED;
    var targetPosition := STOP_TARGET;
    if a >= 0 {
      targetPosition := MinR(targetPosition, q[a].positionInLane - MIN_FRONT_DISTANCE);
    }
    if a >= 0 {
      var ahead := q[a];
      var spacing := ahead.positionInLane - v.positionInLane;
      var gap := DesiredGap(v.currentSpeed);
      if canMove {
        if spacing < gap {
          targetSpeed := MinR(targetSpeed, ahead.currentSpeed + (MAX_SPEED - ahead.currentSpeed) * (spacing / gap));
        }
        if spacing < MIN_FRONT_DISTANCE {
          targetSpeed := 0.0;
        }
      } else {
        var dist := targetPosition - v.positionInLane;
        if dist <= 0.0 {
          targetSpeed := 0.0;
        } else {
          targetSpeed := MinR(targetSpeed, phys.sqrt(2.0 * BRAKE_DECEL * dist));
        }
      }
    } else if !canMove && v.positionInLane < STOP_LINE {
      var dist := STOP_TARGET - v.positionInLane;
      if dist <= 0.0 {
        targetSpeed := 0.0;
      } else {
        targetSpeed := MinR(targetSpeed, phys.sqrt(2.0 * BRAKE_DECEL * dist));
      }
    }
  }

  /** The body of the speed loop for a waiting vehicle: target speed, speed update,
      position update and the two clamps, in the order of `updateVehicleSpeeds`. */
  method UpdateOneSpeed(q: seq<Vehicle>, i: nat, canMove: bool, dt: real, phys: Physics) returns (v: Vehicle)
    requires i < |q| && !IsCrossing(q[i])
    ensures v == SpeedStep(q, i, canMove, dt, phys)
  {
    v := q[i];
    var a := FindAhead(q, i);
    var targetPosition := STOP_TARGET;
    if a >= 0 {
      targetPosition := MinR(targetPosition, q[a].positionInLane - MIN_FRONT_DISTANCE);
    }
    assert targetPosition == TargetPosition(q, i);
    var targetSpeed := ComputeTargetSpeed(q, i, a, canMove, phys);
    v := v.(currentSpeed := phys.updateSpeed(v.currentSpeed, targetSpeed, dt));
    if !IsCrossing(v) {
      v := v.(positionInLane := v.positionInLane + v.currentSpeed * dt);
      if !canMove && v.positionInLane > targetPosition {
        v := v.(positionInLane := targetPosition, currentSpeed := 0.0);
      }
      if a >= 0 && v.positionInLane > q[a].positionInLane - MIN_FRONT_DISTANCE {
        v := v.(positionInLane := q[a].positionInLane - MIN_FRONT_DISTANCE,
                currentSpeed := MinR(v.currentSpeed, q[a].currentSpeed));
      }
    }
  }

  /** The speed loop over one queue; each vehicle sees the ones ahead already updated. */
  method UpdateQueueSpeeds(q0: seq<Vehicle>, canMove: bool, dt: real, phys: Physics) returns (q: seq<Vehicle>)
    ensures q == SpeedPass(q0, 0, canMove, dt, phys)
  {
    q := q0;
    var i := 0;
    while i < |q|
      invariant 0 <= i <= |q|
      invariant SpeedPass(q, i, canMove, dt, phys) == SpeedPass(q0, 0, canMove, dt, phys)
    {
      if IsCrossing(q[i]) {
        assert q[i := SpeedStep(q, i, canMove, dt, phys)] == q;
        i := i + 1;
        continue;
      }
      var v := UpdateOneSpeed(q, i, canMove, dt, phys);
      q := q[i := v];
      i := i + 1;
    }
  }

  /** One vehicle of `maybeApplyLaneChanges`. */
  method ChangeLaneOne(config: IntersectionConfig, ac: ApproachConfig, q: seq<Vehicle>, i: nat) returns (v: Vehicle)
    requires i < |q|
    ensures v == LaneChangeStep(config, ac, q, i)
  {
    v := q[i];
    if IsCrossing(v) {
      return;
    }
    var found := FindLaneIndex(ac.lanes, v.laneId);
    if found.None? {
      return;
    }
    var ci := found.value;
    var current := ci % 0x1_0000;
    if v.movement in ac.lanes[ci].allowedMovements {
      v := ResolveVehicleRoute(config, v, ac.id, current, v.movement).0;
      return;
    }
    if !v.laneChangeAllowed {
      v := ResolveVehicleRoute(config, v, ac.id, current, Straight).0;
      return;
    }
    if v.positionInLane > LANE_CHANGE_COMMIT {
      v := ResolveVehicleRoute(config, v, ac.id, current, Straight).0;
      return;
    }
    var t := ChoosePreferredLaneIndex(ac.lanes, v.movement, ci);
    if t >= |ac.lanes| {
      return;
    }
    var target := ac.lanes[t].id;
    if target == v.laneId {
      v := ResolveVehicleRoute(config, v, ac.id, current, v.movement).0;
      return;
    }
    var safe := HasSafeGapForLaneChange(q, i, target);
    if safe {
      v := v.(laneId := target, queueIndex := t % 3, laneChangeAllowed := ac.lanes[t].supportsLaneChange);
      v := ResolveVehicleRoute(config, v, ac.id, t % 0x1_0000, v.movement).0;
    }
  }

  /** The vehicle loop of `maybeApplyLaneChanges` over a queue. */
  method ChangeLanes(config: IntersectionConfig, ac: ApproachConfig, q0: seq<Vehicle>) returns (q: seq<Vehicle>)
    ensures q == LaneChangesFrom(config, ac, q0, 0)
  {
    q := q0;
    var i := 0;
    while i < |q|
      invariant 0 <= i <= |q|
      invariant LaneChangesFrom(config, ac, q, i) == LaneChangesFrom(config, ac, q0, 0)
    {
      var v := ChangeLaneOne(config, ac, q, i);
      q := q[i := v];
      i := i + 1;
    }
  }

  // ---------------------------------------------------------------------------
  // The generator

  class TrafficGenerator {
    const config: IntersectionConfig
    const arrivalRate: real
    var useConfiguredSpawns: bool
    var spawnLaneCursor: seq<nat>
    var timeAccumulated: real
    var nextVehicleId: nat
    var north: seq<Vehicle>
    var south: seq<Vehicle>
    var east: seq<Vehicle>
    var west: seq<Vehicle>
    var crossedVehicles: seq<Vehicle>

    /** The updatable part of the object as a value. */
    function State(): Snapshot
      reads this
    {
      Snapshot(useConfiguredSpawns, spawnLaneCursor, timeAccumulated, nextVehicleId,
               north, south, east, west, crossedVehicles)
    }

    /** Four lane cursors and ids counted from 1. */
    predicate Valid()
      reads this
    {
      WellFormed(State())
    }

    /** `TrafficGenerator(arrival_rate)`: the default intersection with the legacy spawn
        rule. */
    constructor Default(rate: real := DEFAULT_ARRIVAL_RATE)
      ensures Valid() && State() == Initial(false) && arrivalRate == rate
      ensures config.signalGroups == [] && LaneCountsFit(config.approaches)
      ensures config.laneConnections == SynthesizedConnections(config.approaches)
      ensures forall i :: 0 <= i < 4 ==>
        config.approaches[i].id == ApproachAt(i) &&
        config.approaches[i].lanes == DefaultApproachFor(ApproachAt(i)).lanes &&
        config.approaches[i].toLaneCount == 3
    {
      var c := MakeDefaultIntersectionConfig();
      config := c;
      arrivalRate := rate;
      useConfiguredSpawns := false;
      spawnLaneCursor := [0, 0, 0, 0];
      timeAccumulated := 0.0;
      nextVehicleId := 1;
      north, south, east, west, crossedVehicles := [], [], [], [], [];
    }

    /** `TrafficGenerator(config, arrival_rate)`: the given intersection with configured
        spawning. */
    constructor (c: IntersectionConfig, rate: real := DEFAULT_ARRIVAL_RATE)
      ensures Valid() && State() == Initial(true) && config == c && arrivalRate == rate
    {
      config := c;
      arrivalRate := rate;
      useConfiguredSpawns := true;
      spawnLaneCursor := [0, 0, 0, 0];
      timeAccumulated := 0.0;
      nextVehicleId := 1;
      north, south, east, west, crossedVehicles := [], [], [], [], [];
    }

    /** `getQueueByDirection`. */
    function QueueOf(d: Direction): seq<Vehicle>
      reads this
    {
      match d
      case N => north
      case S => south
      case E => east
      case W => west
    }

    /** Assign the queue of `d` (the writable `getQueueByDirection`). */
    method SetQueue(d: Direction, q: seq<Vehicle>)
      modifies this
      ensures State() == old(State()).WithQueue(d, q)
    {
      match d {
        case N => north := q;
        case S => south := q;
        case E => east := q;
        case W => west := q;
      }
    }

    /** `getNextSpawnInterval`. */
    method GetNextSpawnInterval() returns (interval: real)
      ensures interval == SpawnInterval(arrivalRate)
    {
      if arrivalRate <= 0.0 {
        return 1000000.0;
      }
      return 1.0 / arrivalRate;
    }

    /** The first two statements of a pass of the direction loop of `generateTraffic`:
        a new vehicle for `d` takes the next id. */
    method TakeId(d: Direction, now: real) returns (v: Vehicle)
      requires Valid()
      modifies this
      ensures Valid() && State() == old(State()).(nextVehicleId := old(nextVehicleId) + 1)
      ensures v == NewVehicle(old(nextVehicleId), d, now)
    {
      v := NewVehicle(nextVehicleId, d, now);
      nextVehicleId := nextVehicleId + 1;
    }

    /** The round-robin step of the configured rule: the cursor of approach `aIdx` picks
        one of the connected lanes `conn` and moves on to the next. */
    method AdvanceCursor(aIdx: nat, conn: seq<nat>) returns (cursor: nat)
      requires Valid() && aIdx < 4 && |conn| > 0
      modifies this
      ensures Valid()
      ensures cursor == conn[old(spawnLaneCursor)[aIdx] % |conn|]
      ensures State() == old(State()).(spawnLaneCursor :=
        old(spawnLaneCursor)[aIdx := (old(spawnLaneCursor)[aIdx] % |conn| + 1) % |conn|])
    {
      var slot := spawnLaneCursor[aIdx] % |conn|;
      cursor := conn[slot];
      spawnLaneCursor := spawnLaneCursor[aIdx := (slot + 1) % |conn|];
    }

    /** A spawn under the configured rule for an approach with lanes: take an id, then
        nothing when no lane is connected (the `continue`), and otherwise advance the
        approach's cursor over the connected lanes and route the vehicle from the lane
        it pointed at. */
    method PrepareConfigured(d: Direction, now: real) returns (spawned: Option<Vehicle>)
      requires Valid() && useConfiguredSpawns
      requires |config.approaches[ApproachIndex(ApproachFromDirection(d))].lanes| > 0
      modifies this
      ensures State() == SpawnBookkeeping(config, old(State()), d)
      ensures spawned == SpawnedVehicle(config, old(State()), d, now)
    {
      var v := TakeId(d, now);
      var ac := config.approaches[ApproachIndex(ApproachFromDirection(d))];
      var conn := CollectConnectedLanes(ac.lanes);
      if |conn| == 0 {
        return None;
      }
      spawned := SpawnOnConnected(d, v, conn);
    }

    /** The configured rule once a connected lane exists: the cursor picks the lane and
        the vehicle is routed from it. */
    method SpawnOnConnected(d: Direction, v: Vehicle, conn: seq<nat>) returns (spawned: Option<Vehicle>)
      requires Valid()
      requires conn == ConnectedLaneIndices(config.approaches[ApproachIndex(ApproachFromDirection(d))].lanes)
      requires |conn| > 0
      modifies this
      ensures var aIdx := ApproachIndex(ApproachFromDirection(d));
        && State() == old(State()).(spawnLaneCursor :=
             old(spawnLaneCursor)[aIdx := (old(spawnLaneCursor)[aIdx] % |conn| + 1) % |conn|])
        && spawned == Some(ConfiguredRoute(config, v, ApproachFromDirection(d), config.approaches[aIdx],
             conn[old(spawnLaneCursor)[aIdx] % |conn|], AvailableUpTo(config.approaches[aIdx].lanes, conn, |conn|)))
    {
      var from := ApproachFromDirection(d);
      var aIdx := ApproachIndex(from);
      var ac := config.approaches[aIdx];
      ghost var slot := spawnLaneCursor[aIdx] % |conn|;
      assert conn[slot] < |ac.lanes|;
      var cursor := AdvanceCursor(aIdx, conn);
      var available := CollectAvailableMovements(ac.lanes, conn);
      var routed := RouteConfigured(config, v, from, ac, cursor, available);
      return Some(routed);
    }

    /** A spawn under the legacy rule: take an id and route the vehicle by its id; an
        approach without lanes turns configured spawning off for good. */
    method PrepareLegacy(d: Direction, now: real) returns (spawned: Option<Vehicle>)
      requires Valid()
      requires useConfiguredSpawns ==> |config.approaches[ApproachIndex(ApproachFromDirection(d))].lanes| == 0
      modifies this
      ensures State() == SpawnBookkeeping(config, old(State()), d)
      ensures spawned == SpawnedVehicle(config, old(State()), d, now)
    {
      var v := TakeId(d, now);
      if useConfiguredSpawns {
        useConfiguredSpawns := false;
      }
      v := RouteLegacy(v, d, QueueOf(d));
      return Some(v);
    }

    /** The part of a pass of the direction loop of `generateTraffic` before the vehicle
        is queued. */
    method PrepareSpawn(d: Direction, now: real) returns (spawned: Option<Vehicle>)
      requires Valid()
      modifies this
      ensures State() == SpawnBookkeeping(config, old(State()), d)
      ensures spawned == SpawnedVehicle(config, old(State()), d, now)
    {
      if useConfiguredSpawns && |config.approaches[ApproachIndex(ApproachFromDirection(d))].lanes| > 0 {
        spawned := PrepareConfigured(d, now);
      } else {
        spawned := PrepareLegacy(d, now);
      }
    }

    /** The end of a pass of the direction loop of `generateTraffic`: the vehicle goes
        6 m behind the tail of its queue. */
    method Enqueue(d: Direction, v0: Vehicle)
      modifies this
      ensures State() == Push(old(State()), d, v0)
    {
      var v := v0;
      var q := QueueOf(d);
      assert q == State().Queue(d);
      if |q| > 0 {
        v := v.(positionInLane := q[|q| - 1].positionInLane - MIN_FRONT_DISTANCE);
      }
      SetQueue(d, q + [v]);
    }

    /** One pass of the body of the direction loop of `generateTraffic`. */
    method SpawnVehicle(d: Direction, now: real)
      requires Valid()
      modifies this
      ensures State() == SpawnOne(config, old(State()), d, now)
    {
      var spawned := PrepareSpawn(d, now);
      if spawned.Some? {
        Enqueue(d, spawned.value);
      }
    }

    /** One spawn round: a vehicle for North, South, East and West, in that order. */
    method SpawnRoundNow(ghost round: Snapshot --> Snapshot, now: real)
      requires Valid() && IsSpawnRound(round, config, now)
      modifies this
      ensures State() == round(old(State()))
    {
      ghost var start := State();
      var k := 0;
      while k < 4
        invariant 0 <= k <= 4 && Valid()
        invariant SpawnFrom(config, State(), now, k) == SpawnRound(config, start, now)
      {
        SpawnVehicle(DirectionAt(k), now);
        k := k + 1;
      }
    }

    /** One turn of the `while` loop of `generateTraffic`, for a `round` that is the
        spawn round at `now`: take one interval off the accumulator, then spawn. */
    method SpawnLoopTurn(ghost round: Snapshot --> Snapshot, interval: real, now: real)
      requires Valid() && interval > 0.0 && IsSpawnRound(round, config, now) && timeAccumulated >= interval
      modifies this
      ensures Valid() && State() == NextRound(round, old(State()), interval)
    {
      timeAccumulated := timeAccumulated - interval;
      SpawnRoundNow(round, now);
    }

    /** The `while` loop of `generateTraffic`, for a `round` that is the spawn round at
        `now`: one round per whole interval in the accumulator. */
    method RunSpawnLoop(ghost round: Snapshot --> Snapshot, interval: real, now: real)
      requires Valid() && interval > 0.0 && IsSpawnRound(round, config, now)
      modifies this
      ensures State() == Rounds(round, old(State()), interval)
    {
      while timeAccumulated >= interval
        invariant Valid()
        invariant Rounds(round, State(), interval) == Rounds(round, old(State()), interval)
        decreases Intervals(timeAccumulated, interval)
      {
        NextRoundUnfolds(round, State(), interval);
        SpawnLoopTurn(round, interval, now);
      }
    }

    /** The first statement of `generateTraffic`: advance the spawn clock by `dt`. */
    method AddTime(dt: real)
      requires Valid()
      modifies this
      ensures Valid() && State() == old(State()).(timeAccumulated := old(State()).timeAccumulated + dt)
    {
      timeAccumulated := timeAccumulated + dt;
    }

    /** The body of `generateTraffic`, for a `round` that is the spawn round at `now`. */
    method AccumulateAndSpawn(ghost round: Snapshot --> Snapshot, dt: real, now: real)
      requires Valid() && IsSpawnRound(round, config, now)
      modifies this
      ensures Valid()
      ensures State() == Accumulated(round, old(State()), dt, SpawnInterval(arrivalRate))
    {
      ghost var s1 := State().(timeAccumulated := timeAccumulated + dt);
      assert Accumulated(round, State(), dt, SpawnInterval(arrivalRate)) == Rounds(round, s1, SpawnInterval(arrivalRate));
      AddTime(dt);
      var interval := GetNextSpawnInterval();
      RunSpawnLoop(round, interval, now);
    }

    /** `generateTraffic`: add `dt` to the clock and run one spawn round per whole spawn
        interval it holds. */
    method GenerateTraffic(dt: real, now: real)
      requires Valid()
      modifies this
      ensures Valid()
      ensures State() == Generate(config, arrivalRate, old(State()), dt, now)
    {
      RoundAtIsSpawnRound(config, now);
      AccumulateAndSpawn(RoundAt(config, now), dt, now);
    }

    /** `startCrossing`: stamp the start time on the head of the queue if it has the id. */
    method StartCrossing(d: Direction, id: nat, now: real) returns (ok: bool)
      modifies this
      ensures (State(), ok) == TrafficModel.StartCrossing(old(State()), d, id, now)
    {
      var q := QueueOf(d);
      if |q| == 0 {
        return false;
      }
      if q[0].id != id {
        return false;
      }
      SetQueue(d, q[0 := q[0].(crossingTime := now)]);
      return true;
    }

    /** `completeCrossing`: pop the first queue head with the id, in the order North,
        South, East, West, stamp its exit time and log it as crossed. */
    method CompleteCrossing(id: nat, now: real) returns (ok: bool)
      modifies this
      ensures (State(), ok) == TrafficModel.CompleteCrossing(old(State()), id, now)
    {
      var k := 0;
      while k < 4
        invariant 0 <= k <= 4 && State() == old(State())
        invariant CompleteFrom(State(), id, now, k) == CompleteFrom(State(), id, now, 0)
      {
        var d := DirectionAt(k);
        var q := QueueOf(d);
        if |q| > 0 && q[0].id == id {
          var crossed := q[0].(exitTime := now);
          SetQueue(d, q[1..]);
          crossedVehicles := crossedVehicles + [crossed];
          return true;
        }
        k := k + 1;
      }
      return false;
    }

    /** `getQueueLength`. */
    method GetQueueLength(d: Direction) returns (n: nat)
      ensures n == |State().Queue(d)|
    {
      match d {
        case N => n := |north|;
        case S => n := |south|;
        case E => n := |east|;
        case W => n := |west|;
      }
    }

    /** `getTotalWaiting`: the vehicles in the four queues, crossing ones included. */
    method GetTotalWaiting() returns (n: nat)
      ensures n + |crossedVehicles| == State().Population()
    {
      n := |north| + |south| + |east| + |west|;
    }

    /** `peekNextVehicle`: the head of a queue, if any. */
    method PeekNextVehicle(d: Direction) returns (r: Option<Vehicle>)
      ensures r.None? <==> |State().Queue(d)| == 0
      ensures r.Some? ==> r.value == State().Queue(d)[0]
    {
      var q := QueueOf(d);
      r := if |q| == 0 then None else Some(q[0]);
    }

    /** `getTotalGenerated`: the ids handed out so far. */
    method GetTotalGenerated() returns (n: nat)
      requires Valid()
      ensures n + 1 == nextVehicleId
    {
      n := nextVehicleId - 1;
    }

    /** `getTotalCrossed`: the size of the crossed log. */
    method GetTotalCrossed() returns (n: nat)
      ensures n == |crossedVehicles|
    {
      n := |crossedVehicles|;
    }

    /** `getAverageWaitTime`: the mean wait time of the crossed vehicles, 0 for none. */
    method GetAverageWaitTime() returns (r: real)
      ensures r == AverageWait(crossedVehicles)
    {
      if |crossedVehicles| == 0 {
        return 0.0;
      }
      var total := 0.0;
      var j := 0;
      while j < |crossedVehicles|
        invariant 0 <= j <= |crossedVehicles|
        invariant total == TotalWait(crossedVehicles[..j])
      {
        assert crossedVehicles[..j + 1][..j] == crossedVehicles[..j];
        total := total + WaitTime(crossedVehicles[j]);
        j := j + 1;
      }
      assert crossedVehicles[..|crossedVehicles|] == crossedVehicles;
      r := total / (|crossedVehicles| as real);
    }

    /** `reset`: empty queues and log, clock to zero, ids from 1 again. */
    method Reset()
      modifies this
      ensures State() == TrafficModel.Reset(old(State()))
    {
      north, south, east, west, crossedVehicles := [], [], [], [], [];
      timeAccumulated := 0.0;
      nextVehicleId := 1;
    }

    /** `maybeApplyLaneChanges`: only under configured spawns, for a non-empty queue and
        an approach with lanes. */
    method MaybeApplyLaneChanges(d: Direction, q0: seq<Vehicle>) returns (q: seq<Vehicle>)
      ensures q == LaneChanges(config, useConfiguredSpawns, d, q0)
    {
      q := q0;
      if !useConfiguredSpawns || |q| == 0 {
        return;
      }
      var ac := config.approaches[ApproachIndex(ApproachFromDirection(d))];
      if |ac.lanes| == 0 {
        return;
      }
      q := ChangeLanes(config, ac, q);
    }

    /** The body of the direction loop of `updateVehicleSpeeds`: lane changes, then the
        speed pass, on the queue of `d`. */
    method UpdateDirection(d: Direction, canMove: bool, dt: real, phys: Physics)
      modifies this
      ensures State() == old(State()).WithQueue(d,
        UpdateQueue(config, useConfiguredSpawns, d, old(State()).Queue(d), canMove, dt, phys))
    {
      var q := QueueOf(d);
      q := MaybeApplyLaneChanges(d, q);
      q := UpdateQueueSpeeds(q, canMove, dt, phys);
      SetQueue(d, q);
    }

    /** `updateVehicleSpeeds`: for each direction, lane changes and then the speed loop;
        `laneCanMove` is indexed in the `Direction` numbering. */
    method UpdateVehicleSpeeds(dt: real, laneCanMove: seq<bool>, phys: Physics)
      requires |laneCanMove| == 4
      modifies this
      ensures State() == UpdateSpeeds(config, old(State()), dt, laneCanMove, phys)
    {
      ghost var st := State();
      var dir := 0;
      while dir < 4
        invariant 0 <= dir <= 4
        invariant State() == st.(north := State().north, south := State().south, east := State().east, west := State().west)
        invariant State().north == if dir > 0 then UpdateQueue(config, st.useConfiguredSpawns, N, st.north, laneCanMove[0], dt, phys) else st.north
        invariant State().south == if dir > 1 then UpdateQueue(config, st.useConfiguredSpawns, S, st.south, laneCanMove[1], dt, phys) else st.south
        invariant State().east == if dir > 2 then UpdateQueue(config, st.useConfiguredSpawns, E, st.east, laneCanMove[2], dt, phys) else st.east
        invariant State().west == if dir > 3 then UpdateQueue(config, st.useConfiguredSpawns, W, st.west, laneCanMove[3], dt, phys) else st.west
      {
        UpdateDirection(DirectionAt(dir), laneCanMove[dir], dt, phys);
        dir := dir + 1;
      }
    }

    /** `getAverageQueueDensity`. */
    method GetAverageQueueDensity(d: Direction) returns (r: real)
      ensures r == QueueDensity(|State().Queue(d)|)
    {
      var n := GetQueueLength(d);
      r := MinR(1.0, (n as real) / (LANE_CAPACITY as real));
    }

    /** `getLaneVehicleStates`: one row per queued vehicle, in queue order. */
    method GetLaneVehicleStates(d: Direction, phys: Physics) returns (states: seq<LaneVehicleState>)
      ensures |states| == |State().Queue(d)|
      ensures forall k :: 0 <= k < |states| ==>
        states[k] == LaneVehicleStateOf(State().Queue(d)[k], |State().Queue(d)|, phys)
    {
      var q := QueueOf(d);
      states := [];
      var j := 0;
      while j < |q|
        invariant 0 <= j <= |q| && |states| == j
        invariant forall k :: 0 <= k < j ==> states[k] == LaneVehicleStateOf(q[k], |q|, phys)
      {
        var v := q[j];
        var s := DefaultLaneVehicleState;
        s := s.(id := v.id, positionInLane := v.positionInLane, speed := v.currentSpeed,
                crossing := IsCrossing(v), turning := v.turning, crossingTime := v.crossingTime,
                crossingDuration := phys.crossingDuration(v, |q|), queueIndex := v.queueIndex,
                laneId := v.laneId, movement := v.movement, destinationApproach := v.destinationApproach,
                destinationLaneIndex := v.destinationLaneIndex, destinationLaneId := v.destinationLaneId,
                laneChangeAllowed := v.laneChangeAllowed);
        states := states + [s];
        j := j + 1;
      }
    }
  }
}
