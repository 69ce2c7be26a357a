/** The traffic generator's state as a value, and what each of its operations does to that
    value (src/TrafficGenerator.cpp). The class in module `Traffic` is proved to follow
    these functions; the lemmas here state what the source promises about them. */
module TrafficModel {
  import opened Wrappers
  import opened Configuration
  import opened Vehicles
  import opened Routing

  const STOP_LINE: real := 70.0
  /** Half a metre before the stop line. */
  const STOP_TARGET: real := 69.5
  const MAX_SPEED: real := 10.0
  const BRAKE_DECEL: real := 4.5
  const FOLLOWING_TIME: real := 1.5
  /** Past this position a vehicle no longer changes lane. */
  const LANE_CHANGE_COMMIT: real := 55.0
  const LANE_CAPACITY: nat := 10
  const DEFAULT_ARRIVAL_RATE: real := 0.5

  function MinR(a: real, b: real): real {
    if a < b then a else b
  }

  /** Everything the generator updates, apart from its configuration and arrival rate. */
  datatype Snapshot = Snapshot(
    useConfiguredSpawns: bool,
    spawnLaneCursor: seq<nat>,
    timeAccumulated: real,
    nextVehicleId: nat,
    north: seq<Vehicle>,
    south: seq<Vehicle>,
    east: seq<Vehicle>,
    west: seq<Vehicle>,
    crossed: seq<Vehicle>)
  {
    /** `getQueueByDirection`. */
    function Queue(d: Direction): seq<Vehicle> {
      match d
      case N => north
      case S => south
      case E => east
      case W => west
    }

    function WithQueue(d: Direction, q: seq<Vehicle>): (r: Snapshot)
      ensures r.Queue(d) == q
      ensures forall e :: e != d ==> r.Queue(e) == Queue(e)
      ensures r.useConfiguredSpawns == useConfiguredSpawns && r.spawnLaneCursor == spawnLaneCursor
      ensures r.timeAccumulated == timeAccumulated && r.nextVehicleId == nextVehicleId
      ensures r.crossed == crossed
    {
      match d
      case N => this.(north := q)
      case S => this.(south := q)
      case E => this.(east := q)
      case W => this.(west := q)
    }

    /** Vehicles still in a queue, plus those logged as crossed. */
    function Population(): nat {
      |north| + |south| + |east| + |west| + |crossed|
    }
  }

  /** Four lane cursors and ids counted from 1. */
  predicate WellFormed(st: Snapshot) {
    |st.spawnLaneCursor| == 4 && st.nextVehicleId >= 1
  }

  /** The state right after construction. */
  function Initial(useConfiguredSpawns: bool): (st: Snapshot)
    ensures WellFormed(st) && st.Population() == 0
  {
    Snapshot(useConfiguredSpawns, [0, 0, 0, 0], 0.0, 1, [], [], [], [], [])
  }

  // ---------------------------------------------------------------------------
  // generateTraffic

  /** `getNextSpawnInterval`: one vehicle per approach every 1/rate seconds; a rate that is
      not positive means practically never. */
  function SpawnInterval(rate: real): (r: real)
    ensures r > 0.0
    ensures rate <= 0.0 ==> r == 1000000.0
    ensures rate > 0.0 ==> r * rate == 1.0
  {
    if rate <= 0.0 then 1000000.0 else 1.0 / rate
  }

  /** The connected lane indices of an approach, ascending. */
  function ConnectedLaneIndices(lanes: seq<LaneConfig>): (r: seq<nat>)
    ensures forall k :: 0 <= k < |r| ==> r[k] < |lanes| && lanes[r[k]].connectedToIntersection
    ensures forall x: nat :: x in r <==> x < |lanes| && lanes[x].connectedToIntersection
  {
    if |lanes| == 0 then []
    else
      var prev := ConnectedLaneIndices(lanes[..|lanes| - 1]);
      prev + (if lanes[|lanes| - 1].connectedToIntersection then [|lanes| - 1] else [])
  }

  /** The movements offered by the first `k` connected lanes, each once. */
  function AvailableUpTo(lanes: seq<LaneConfig>, conn: seq<nat>, k: nat): seq<MovementType>
    requires k <= |conn|
    requires forall j :: 0 <= j < |conn| ==> conn[j] < |lanes|
  {
    if k == 0 then [] else AddUnique(AvailableUpTo(lanes, conn, k - 1), lanes[conn[k - 1]].allowedMovements)
  }

  /** The vehicle placed at the tail of `q`: 6 m behind the current tail. */
  function Placed(v: Vehicle, q: seq<Vehicle>): Vehicle {
    if |q| > 0 then v.(positionInLane := q[|q| - 1].positionInLane - MIN_FRONT_DISTANCE) else v
  }

  function Push(st: Snapshot, d: Direction, v: Vehicle): Snapshot {
    st.WithQueue(d, st.Queue(d) + [Placed(v, st.Queue(d))])
  }

  /** Number of non-turning vehicles in a queue. */
  function StraightCount(q: seq<Vehicle>): (n: nat)
    ensures n <= |q|
  {
    if |q| == 0 then 0 else StraightCount(q[..|q| - 1]) + (if q[|q| - 1].turning then 0 else 1)
  }

  /** Routing a vehicle never touches its identity, times or kinematics. */
  predicate SameBody(a: Vehicle, b: Vehicle) {
    && a.id == b.id && a.entryLane == b.entryLane && a.arrivalTime == b.arrivalTime
    && a.crossingTime == b.crossingTime && a.exitTime == b.exitTime
    && a.positionInLane == b.positionInLane && a.currentSpeed == b.currentSpeed
  }

  /** The legacy spawn rule: every fifth id turns right from lane 2, the others alternate
      between lanes 0 and 1; lane ids use the `Direction` numbering. */
  function LegacyRoute(v: Vehicle, d: Direction, q: seq<Vehicle>): (r: Vehicle)
    ensures SameBody(r, v)
  {
    var turning := v.id % 5 == 0;
    var queueIndex: nat := if turning then 2 else StraightCount(q) % 2;
    var m := if turning then Right else Straight;
    var dest := DestinationApproachFor(ApproachFromDirection(d), m);
    v.(turning := turning, queueIndex := queueIndex, laneId := DirectionIndex(d) * 100 + queueIndex,
       movement := m, destinationApproach := dest, destinationLaneIndex := queueIndex,
       destinationLaneId := LaneIdFor(dest, queueIndex))
  }

  /** The configured spawn rule for a vehicle whose round-robin lane is `cursor`: pick a
      movement among `available`, steer to the preferred lane for it and resolve the
      route; when no explicit connection matched, resolve again with the lane's first
      allowed movement (or Straight). */
  function ConfiguredRoute(config: IntersectionConfig, v: Vehicle, from: ApproachId, ac: ApproachConfig,
                           cursor: nat, available: seq<MovementType>): (r: Vehicle)
    ensures SameBody(r, v)
  {
    var m := if |available| > 0 then available[SpawnMovementIndex(available, v.id)] else Straight;
    var pref := PreferredLaneIndex(ac.lanes, m, cursor);
    if pref >= |ac.lanes| then v   // cannot happen: `cursor` is a lane of `ac`
    else
      var lane := ac.lanes[pref];
      var laneIndex := pref % 0x1_0000;
      var v1 := v.(movement := m, queueIndex := pref % 3, laneId := lane.id,
                   laneChangeAllowed := lane.supportsLaneChange);
      var first := ResolveVehicleRoute(config, v1, from, laneIndex, m);
      if first.1 then first.0
      else
        var fallback := if |lane.allowedMovements| > 0 then lane.allowedMovements[0] else Straight;
        ResolveVehicleRoute(config, first.0, from, laneIndex, fallback).0
  }

  /** The approach of `d` has lanes but none of them is connected. */
  predicate NothingToSpawn(config: IntersectionConfig, st: Snapshot, d: Direction) {
    var ac := config.approaches[ApproachIndex(ApproachFromDirection(d))];
    st.useConfiguredSpawns && |ac.lanes| > 0 && |ConnectedLaneIndices(ac.lanes)| == 0
  }

  /** The vehicle a spawn for `d` queues: under configured spawns the round-robin lane's
      route, for an approach without lanes (or without configured spawns) the legacy
      route, and nothing when the approach has lanes but none is connected. */
  function SpawnedVehicle(config: IntersectionConfig, st: Snapshot, d: Direction, now: real): (r: Option<Vehicle>)
    requires WellFormed(st)
    ensures r.None? <==> NothingToSpawn(config, st, d)
    ensures r.Some? ==> SameBody(r.value, NewVehicle(st.nextVehicleId, d, now))
  {
    var v := NewVehicle(st.nextVehicleId, d, now);
    var from := ApproachFromDirection(d);
    var aIdx := ApproachIndex(from);
    var ac := config.approaches[aIdx];
    if !st.useConfiguredSpawns || |ac.lanes| == 0 then Some(LegacyRoute(v, d, st.Queue(d)))
    else
      var conn := ConnectedLaneIndices(ac.lanes);
      if |conn| == 0 then None
      else Some(ConfiguredRoute(config, v, from, ac, conn[st.spawnLaneCursor[aIdx] % |conn|], AvailableUpTo(ac.lanes, conn, |conn|)))
  }

  /** The bookkeeping of a spawn for `d`: the id is consumed in every case, the approach's
      round-robin cursor advances when a connected lane was used, and an approach without
      lanes turns configured spawning off for good. */
  function SpawnBookkeeping(config: IntersectionConfig, st: Snapshot, d: Direction): (r: Snapshot)
    requires WellFormed(st)
    ensures WellFormed(r) && r.nextVehicleId == st.nextVehicleId + 1
    ensures forall e :: r.Queue(e) == st.Queue(e)
    ensures r.timeAccumulated == st.timeAccumulated && r.crossed == st.crossed
  {
    var aIdx := ApproachIndex(ApproachFromDirection(d));
    var ac := config.approaches[aIdx];
    var st1 := st.(nextVehicleId := st.nextVehicleId + 1);
    if !st.useConfiguredSpawns then st1
    else if |ac.lanes| == 0 then st1.(useConfiguredSpawns := false)
    else
      var conn := ConnectedLaneIndices(ac.lanes);
      if |conn| == 0 then st1
      else
        var slot := st.spawnLaneCursor[aIdx] % |conn|;
        st1.(spawnLaneCursor := st.spawnLaneCursor[aIdx := (slot + 1) % |conn|])
  }

  /** One vehicle of a spawn round, for direction `d`. */
  function SpawnOne(config: IntersectionConfig, st: Snapshot, d: Direction, now: real): (r: Snapshot)
    requires WellFormed(st)
    ensures WellFormed(r) && r.nextVehicleId == st.nextVehicleId + 1
    ensures r.timeAccumulated == st.timeAccumulated && r.crossed == st.crossed
  {
    var st1 := SpawnBookkeeping(config, st, d);
    match SpawnedVehicle(config, st, d, now)
    case None => st1
    case Some(v) => Push(st1, d, v)
  }

  /** The rest of a spawn round from the `k`-th direction of North, South, East, West on. */
  function SpawnFrom(config: IntersectionConfig, st: Snapshot, now: real, k: nat): (r: Snapshot)
    requires WellFormed(st) && k <= 4
    ensures WellFormed(r) && r.nextVehicleId == st.nextVehicleId + (4 - k)
    ensures r.timeAccumulated == st.timeAccumulated && r.crossed == st.crossed
    decreases 4 - k
  {
    if k == 4 then st else SpawnFrom(config, SpawnOne(config, st, DirectionAt(k), now), now, k + 1)
  }

  /** One spawn round: a vehicle for North, South, East and West, in that order. */
  function SpawnRound(config: IntersectionConfig, st: Snapshot, now: real): (r: Snapshot)
    requires WellFormed(st)
    ensures WellFormed(r) && r.nextVehicleId == st.nextVehicleId + 4
    ensures r.timeAccumulated == st.timeAccumulated && r.crossed == st.crossed
  {
    SpawnFrom(config, st, now, 0)
  }

  /** The number of whole intervals in `t` (none below one interval): how many rounds the
      spawn loop runs, and its termination measure. */
  function Intervals(t: real, interval: real): (n: nat)
    requires interval > 0.0
    ensures n == 0 <==> t < interval
    decreases if t < interval then 0 else (t / interval).Floor
  {
    if t < interval then 0
    else
      QuotientStep(t, interval);
      1 + Intervals(t - interval, interval)
  }

  /** Taking one interval off takes one off the count. */
  lemma IntervalsStep(t: real, interval: real)
    requires interval > 0.0 && t >= interval
    ensures Intervals(t, interval) == Intervals(t - interval, interval) + 1
  {
  }

  /** Taking one interval off takes one off the quotient. */
  lemma QuotientStep(t: real, interval: real)
    requires interval > 0.0
    ensures (t - interval) / interval == t / interval - 1.0
  {
    var x := t / interval;
    var y := (t - interval) / interval;
    assert x * interval == t;
    assert y * interval == t - interval;
    var z := y - x + 1.0;
    assert z * interval == 0.0;
  }

  /** What the spawn loop relies on from its body: defined on well-formed states, keeps
      them well-formed and leaves the accumulator alone. */
  ghost predicate IsRound(round: Snapshot --> Snapshot) {
    forall s {:trigger round.requires(s)} :: WellFormed(s) ==>
      round.requires(s) && WellFormed(round(s)) && round(s).timeAccumulated == s.timeAccumulated
  }

  /** `round` is, on every well-formed state, the spawn round at time `now`. */
  ghost predicate IsSpawnRound(round: Snapshot --> Snapshot, config: IntersectionConfig, now: real) {
    IsRound(round) && forall s {:trigger SpawnRound(config, s, now)} :: WellFormed(s) ==> round(s) == SpawnRound(config, s, now)
  }

  /** The body of the spawn loop of `generateTraffic`: one spawn round at time `now`. */
  function RoundAt(config: IntersectionConfig, now: real): (round: Snapshot --> Snapshot)
    ensures IsRound(round)
  {
    (s: Snapshot) requires WellFormed(s) => SpawnRound(config, s, now)
  }

  /** The spawn loop: `round` once for every whole interval accumulated, each taking one
      interval off the accumulator first. */
  function Rounds(round: Snapshot --> Snapshot, st: Snapshot, interval: real): (r: Snapshot)
    requires IsRound(round) && interval > 0.0 && WellFormed(st)
    ensures WellFormed(r)
    decreases Intervals(st.timeAccumulated, interval)
  {
    if st.timeAccumulated < interval then st
    else
      IntervalsStep(st.timeAccumulated, interval);
      Rounds(round, NextRound(round, st, interval), interval)
  }

  /** One turn of the spawn loop: take an interval off the accumulator, then run `round`. */
  function NextRound(round: Snapshot --> Snapshot, st: Snapshot, interval: real): (r: Snapshot)
    requires IsRound(round) && WellFormed(st)
    ensures WellFormed(r) && r.timeAccumulated == st.timeAccumulated - interval
  {
    round(st.(timeAccumulated := st.timeAccumulated - interval))
  }

  /** Add `dt` to the accumulator, then run the spawn loop. */
  function Accumulated(round: Snapshot --> Snapshot, st: Snapshot, dt: real, interval: real): (r: Snapshot)
    requires IsRound(round) && interval > 0.0 && WellFormed(st)
    ensures WellFormed(r)
  {
    Rounds(round, st.(timeAccumulated := st.timeAccumulated + dt), interval)
  }

  /** `generateTraffic(dt, now)`. */
  function Generate(config: IntersectionConfig, rate: real, st: Snapshot, dt: real, now: real): (r: Snapshot)
    requires WellFormed(st)
    ensures WellFormed(r)
  {
    Accumulated(RoundAt(config, now), st, dt, SpawnInterval(rate))
  }

  // ---------------------------------------------------------------------------
  // maybeApplyLaneChanges

  /** What the lane-change pass does to the vehicle at `i`, seeing the queue as updated
      so far. */
  function LaneChangeStep(config: IntersectionConfig, ac: ApproachConfig, q: seq<Vehicle>, i: nat): Vehicle
    requires i < |q|
  {
    var v := q[i];
    if IsCrossing(v) then v
    else match FindLaneIndex(ac.lanes, v.laneId)
      case None => v
      case Some(ci) =>
        var current := ci % 0x1_0000;
        if v.movement in ac.lanes[ci].allowedMovements then ResolveVehicleRoute(config, v, ac.id, current, v.movement).0
        else if !v.laneChangeAllowed then ResolveVehicleRoute(config, v, ac.id, current, Straight).0
        else if v.positionInLane > LANE_CHANGE_COMMIT then ResolveVehicleRoute(config, v, ac.id, current, Straight).0
        else
          var t := PreferredLaneIndex(ac.lanes, v.movement, ci);
          if t >= |ac.lanes| then v   // cannot happen: `ci` is a lane of `ac`
          else if ac.lanes[t].id == v.laneId then ResolveVehicleRoute(config, v, ac.id, current, v.movement).0
          else if SafeGap(q, i, ac.lanes[t].id) then
            var moved := v.(laneId := ac.lanes[t].id, queueIndex := t % 3,
                            laneChangeAllowed := ac.lanes[t].supportsLaneChange);
            ResolveVehicleRoute(config, moved, ac.id, t % 0x1_0000, v.movement).0
          else v
  }

  /** The lane-change pass from position `i` on. */
  function LaneChangesFrom(config: IntersectionConfig, ac: ApproachConfig, q: seq<Vehicle>, i: nat): (r: seq<Vehicle>)
    requires i <= |q|
    ensures |r| == |q|
    decreases |q| - i
  {
    if i == |q| then q else LaneChangesFrom(config, ac, q[i := LaneChangeStep(config, ac, q, i)], i + 1)
  }

  /** `maybeApplyLaneChanges`: only under configured spawns, for a non-empty queue and an
      approach with lanes. */
  function LaneChanges(config: IntersectionConfig, useConfiguredSpawns: bool, d: Direction, q: seq<Vehicle>): (r: seq<Vehicle>)
    ensures |r| == |q|
  {
    var ac := config.approaches[ApproachIndex(ApproachFromDirection(d))];
    if !useConfiguredSpawns || |q| == 0 || |ac.lanes| == 0 then q
    else LaneChangesFrom(config, ac, q, 0)
  }

  // ---------------------------------------------------------------------------
  // updateVehicleSpeeds

  /** Functions the kinematics call but that are not part of this model: the vehicle's
      speed update (old speed, target speed, dt), `std::sqrt`, and the crossing duration
      for a queue length. */
  datatype Physics = Physics(
    updateSpeed: (real, real, real) -> real,
    sqrt: real -> real,
    crossingDuration: (Vehicle, nat) -> real)

  /** The nearest waiting vehicle in lane `lane` among `p`, searching from the back. */
  function AheadIn(p: seq<Vehicle>, lane: LaneId): (a: int)
    ensures -1 <= a < |p|
    ensures a >= 0 ==> !IsCrossing(p[a]) && p[a].laneId == lane
    ensures forall j :: a < j < |p| ==> IsCrossing(p[j]) || p[j].laneId != lane
  {
    if |p| == 0 then -1
    else if !IsCrossing(p[|p| - 1]) && p[|p| - 1].laneId == lane then |p| - 1
    else AheadIn(p[..|p| - 1], lane)
  }

  /** Index of the same-lane leader of vehicle `i`, or -1. */
  function AheadIndex(q: seq<Vehicle>, i: nat): (a: int)
    requires i < |q|
    ensures -1 <= a < i
  {
    AheadIn(q[..i], q[i].laneId)
  }

  /** Following distance: 6 m when (nearly) stopped, else a car length plus 1.5 s. */
  function DesiredGap(speed: real): (g: real)
    ensures g >= CAR_LENGTH
  {
    if speed < 0.5 then MIN_FRONT_DISTANCE else CAR_LENGTH + FOLLOWING_TIME * speed
  }

  /** Where vehicle `i` must stop: the stop target, or 6 m behind its leader if nearer. */
  function TargetPosition(q: seq<Vehicle>, i: nat): (t: real)
    requires i < |q|
    ensures t <= STOP_TARGET
    ensures AheadIndex(q, i) >= 0 ==> t <= q[AheadIndex(q, i)].positionInLane - MIN_FRONT_DISTANCE
  {
    var a := AheadIndex(q, i);
    if a >= 0 then MinR(STOP_TARGET, q[a].positionInLane - MIN_FRONT_DISTANCE) else STOP_TARGET
  }

  /** The speed vehicle `i` aims for. */
  function TargetSpeed(q: seq<Vehicle>, i: nat, canMove: bool, phys: Physics): real
    requires i < |q|
  {
    var v := q[i];
    var a := AheadIndex(q, i);
    if a >= 0 then
      var ahead := q[a];
      var spacing := ahead.positionInLane - v.positionInLane;
      var gap := DesiredGap(v.currentSpeed);
      if canMove then
        if spacing < MIN_FRONT_DISTANCE then 0.0
        else if spacing < gap then MinR(MAX_SPEED, ahead.currentSpeed + (MAX_SPEED - ahead.currentSpeed) * (spacing / gap))
        else MAX_SPEED
      else
        var dist := TargetPosition(q, i) - v.positionInLane;
        if dist <= 0.0 then 0.0 else MinR(MAX_SPEED, phys.sqrt(2.0 * BRAKE_DECEL * dist))
    else if !canMove && v.positionInLane < STOP_LINE then
      var dist := STOP_TARGET - v.positionInLane;
      if dist <= 0.0 then 0.0 else MinR(MAX_SPEED, phys.sqrt(2.0 * BRAKE_DECEL * dist))
    else MAX_SPEED
  }

  /** One vehicle of the speed pass: new speed, new position, then the clamps to the stop
      target (when the approach may not move) and to 6 m behind the leader. Crossing
      vehicles are skipped. */
  function SpeedStep(q: seq<Vehicle>, i: nat, canMove: bool, dt: real, phys: Physics): Vehicle
    requires i < |q|
  {
    var v := q[i];
    if IsCrossing(v) then v
    else
      var a := AheadIndex(q, i);
      var target := TargetPosition(q, i);
      var speed := phys.updateSpeed(v.currentSpeed, TargetSpeed(q, i, canMove, phys), dt);
      var pos := v.positionInLane + speed * dt;
      var stopped := !canMove && pos > target;
      var pos1 := if stopped then target else pos;
      var speed1 := if stopped then 0.0 else speed;
      if a >= 0 && pos1 > q[a].positionInLane - MIN_FRONT_DISTANCE then
        v.(positionInLane := q[a].positionInLane - MIN_FRONT_DISTANCE, currentSpeed := MinR(speed1, q[a].currentSpeed))
      else
        v.(positionInLane := pos1, currentSpeed := speed1)
  }

  /** The speed pass over a queue from position `i` on; each vehicle sees the vehicles
      ahead of it already updated. */
  function SpeedPass(q: seq<Vehicle>, i: nat, canMove: bool, dt: real, phys: Physics): (r: seq<Vehicle>)
    requires i <= |q|
    ensures |r| == |q|
    decreases |q| - i
  {
    if i == |q| then q else SpeedPass(q[i := SpeedStep(q, i, canMove, dt, phys)], i + 1, canMove, dt, phys)
  }

  /** `updateVehicleSpeeds` for one direction: lane changes, then the speed pass. */
  function UpdateQueue(config: IntersectionConfig, useConfiguredSpawns: bool, d: Direction, q: seq<Vehicle>,
                       canMove: bool, dt: real, phys: Physics): seq<Vehicle>
  {
    SpeedPass(LaneChanges(config, useConfiguredSpawns, d, q), 0, canMove, dt, phys)
  }

  /** `updateVehicleSpeeds`; `laneCanMove` is indexed in the `Direction` numbering. */
  function UpdateSpeeds(config: IntersectionConfig, st: Snapshot, dt: real, laneCanMove: seq<bool>, phys: Physics): (r: Snapshot)
    requires |laneCanMove| == 4
    ensures r.useConfiguredSpawns == st.useConfiguredSpawns && r.spawnLaneCursor == st.spawnLaneCursor
    ensures r.timeAccumulated == st.timeAccumulated && r.nextVehicleId == st.nextVehicleId
    ensures r.crossed == st.crossed
  {
    st.(north := UpdateQueue(config, st.useConfiguredSpawns, N, st.north, laneCanMove[0], dt, phys),
        south := UpdateQueue(config, st.useConfiguredSpawns, S, st.south, laneCanMove[1], dt, phys),
        east := UpdateQueue(config, st.useConfiguredSpawns, E, st.east, laneCanMove[2], dt, phys),
        west := UpdateQueue(config, st.useConfiguredSpawns, W, st.west, laneCanMove[3], dt, phys))
  }

  // ---------------------------------------------------------------------------
  // startCrossing, completeCrossing, reset

  /** `startCrossing`: stamp the start time on the head of the queue if it has the id. */
  function StartCrossing(st: Snapshot, d: Direction, id: nat, now: real): (Snapshot, bool) {
    var q := st.Queue(d);
    if |q| == 0 || q[0].id != id then (st, false)
    else (st.WithQueue(d, q[0 := q[0].(crossingTime := now)]), true)
  }

  /** `completeCrossing` from the `k`-th direction of North, South, East, West on. */
  function CompleteFrom(st: Snapshot, id: nat, now: real, k: nat): (r: (Snapshot, bool))
    requires k <= 4
    ensures r.0.useConfiguredSpawns == st.useConfiguredSpawns && r.0.spawnLaneCursor == st.spawnLaneCursor
    ensures r.0.timeAccumulated == st.timeAccumulated && r.0.nextVehicleId == st.nextVehicleId
    decreases 4 - k
  {
    if k == 4 then (st, false)
    else
      var q := st.Queue(DirectionAt(k));
      if |q| > 0 && q[0].id == id then
        (st.WithQueue(DirectionAt(k), q[1..]).(crossed := st.crossed + [q[0].(exitTime := now)]), true)
      else CompleteFrom(st, id, now, k + 1)
  }

  /** `completeCrossing`: pop the first queue head with the id, stamp its exit time and
      log it as crossed. */
  function CompleteCrossing(st: Snapshot, id: nat, now: real): (Snapshot, bool) {
    CompleteFrom(st, id, now, 0)
  }

  /** `reset`: empty queues and log, zero clock, ids from 1; the cursors and the spawn mode
      are kept. */
  function Reset(st: Snapshot): (r: Snapshot)
    ensures r.Population() == 0
  {
    st.(north := [], south := [], east := [], west := [], crossed := [], timeAccumulated := 0.0, nextVehicleId := 1)
  }

  // ---------------------------------------------------------------------------
  // Statistics

  /** Sum of the wait times of a list of vehicles. */
  function TotalWait(vs: seq<Vehicle>): real {
    if |vs| == 0 then 0.0 else TotalWait(vs[..|vs| - 1]) + WaitTime(vs[|vs| - 1])
  }

  /** `getAverageWaitTime`. */
  function AverageWait(vs: seq<Vehicle>): real {
    if |vs| == 0 then 0.0 else TotalWait(vs) / (|vs| as real)
  }

  /** `getAverageQueueDensity`: queue length over the lane capacity, capped at 1. */
  function QueueDensity(length: nat): (r: real)
    ensures 0.0 <= r <= 1.0
    ensures r == 1.0 <==> length >= LANE_CAPACITY
    ensures length < LANE_CAPACITY ==> r * (LANE_CAPACITY as real) == length as real
  {
    MinR(1.0, (length as real) / (LANE_CAPACITY as real))
  }

  /** A row of `getLaneVehicleStates` (`LaneVehicleState`). */
  datatype LaneVehicleState = LaneVehicleState(
    id: nat,
    positionInLane: real,
    speed: real,
    crossing: bool,
    turning: bool,
    crossingTime: real,
    crossingDuration: real,
    queueIndex: nat,
    laneId: LaneId,
    movement: MovementType,
    destinationApproach: ApproachId,
    destinationLaneIndex: Uint16,
    destinationLaneId: LaneId,
    laneChangeAllowed: bool)

  /** A default-constructed `LaneVehicleState`. */
  const DefaultLaneVehicleState := LaneVehicleState(0, 0.0, 0.0, false, false, -1.0, 0.0, 0, 0, Straight, North, 0, 0, true)

  function LaneVehicleStateOf(v: Vehicle, queueLength: nat, phys: Physics): (s: LaneVehicleState)
    ensures s.id == v.id && s.crossing == IsCrossing(v) && s.crossingTime == v.crossingTime
    ensures s.positionInLane == v.positionInLane && s.speed == v.currentSpeed && s.laneId == v.laneId
  {
    LaneVehicleState(v.id, v.positionInLane, v.currentSpeed, IsCrossing(v), v.turning, v.crossingTime,
                     phys.crossingDuration(v, queueLength), v.queueIndex, v.laneId, v.movement,
                     v.destinationApproach, v.destinationLaneIndex, v.destinationLaneId, v.laneChangeAllowed)
  }
}
