/** The vehicle record (include/Vehicle.hpp) and its status predicates. */
module Vehicles {
  import opened Configuration

  /** Queue direction. Note the numbering North=0, South=1, East=2, West=3, which differs
      from `ApproachId` (North=0, East=1, South=2, West=3). */
  datatype Direction = N | S | E | W

  function DirectionIndex(d: Direction): (i: nat)
    ensures i < 4
  {
    match d
    case N => 0
    case S => 1
    case E => 2
    case W => 3
  }

  function DirectionAt(i: nat): (d: Direction)
    requires i < 4
    ensures DirectionIndex(d) == i
  {
    if i == 0 then N else if i == 1 then S else if i == 2 then E else W
  }

  /** `approachFromDirection`: the same compass point in the other enumeration. */
  function ApproachFromDirection(d: Direction): ApproachId {
    match d
    case N => North
    case S => South
    case E => East
    case W => West
  }

  /** One vehicle. Identifiers are unbounded here (the source uses 32 bits). */
  datatype Vehicle = Vehicle(
    id: nat,
    entryLane: Direction,
    arrivalTime: real,
    crossingTime: real,   // -1 until the crossing starts
    exitTime: real,       // -1 until the crossing completes
    positionInLane: real,
    currentSpeed: real,
    turning: bool,
    queueIndex: nat,
    laneId: LaneId,
    movement: MovementType,
    destinationApproach: ApproachId,
    destinationLaneIndex: Uint16,
    destinationLaneId: LaneId,
    laneChangeAllowed: bool
  )

  /** `Vehicle(id, lane, arrival)`: not started, not finished, at the queue origin. */
  function NewVehicle(id: nat, lane: Direction, arrival: real): (v: Vehicle)
    ensures v.id == id && v.entryLane == lane && v.arrivalTime == arrival
    ensures v.crossingTime == -1.0 && v.exitTime == -1.0
    ensures IsWaiting(v) && !IsCrossing(v) && !HasCrossed(v)
  {
    Vehicle(id, lane, arrival, -1.0, -1.0, 0.0, 0.0, false, 0, 0, Straight, North, 0, 0, true)
  }

  predicate IsWaiting(v: Vehicle) {
    v.crossingTime < 0.0
  }

  predicate IsCrossing(v: Vehicle) {
    v.crossingTime >= 0.0 && v.exitTime < 0.0
  }

  predicate HasCrossed(v: Vehicle) {
    v.exitTime >= 0.0
  }

  /** `waitTime`: -1 before the crossing starts, else the time spent queueing. */
  function WaitTime(v: Vehicle): (r: real)
    ensures IsWaiting(v) ==> r == -1.0
    ensures !IsWaiting(v) ==> r + v.arrivalTime == v.crossingTime
  {
    if v.crossingTime < 0.0 then -1.0 else v.crossingTime - v.arrivalTime
  }

  /** `crossingDuration`: -1 before the crossing completes, else the time on the box. */
  function CrossingDuration(v: Vehicle): (r: real)
    ensures !HasCrossed(v) ==> r == -1.0
    ensures HasCrossed(v) ==> v.crossingTime + r == v.exitTime
  {
    if v.exitTime < 0.0 then -1.0 else v.exitTime - v.crossingTime
  }

  /** Waiting and crossing exclude each other, and so do crossing and crossed; every
      vehicle is in at least one of the three states. */
  lemma StatusExclusive(v: Vehicle)
    ensures !(IsWaiting(v) && IsCrossing(v))
    ensures !(IsCrossing(v) && HasCrossed(v))
    ensures IsWaiting(v) || IsCrossing(v) || HasCrossed(v)
  {
  }

  /** Stamping the start time of a waiting vehicle makes it crossing; stamping the exit
      time of a crossing vehicle makes it crossed, and the two durations add up. */
  lemma LifecycleStamps(v: Vehicle, start: real, finish: real)
    requires IsWaiting(v) && v.exitTime < 0.0 && 0.0 <= start <= finish
    ensures IsCrossing(v.(crossingTime := start))
    ensures HasCrossed(v.(crossingTime := start, exitTime := finish))
    ensures WaitTime(v.(crossingTime := start)) + CrossingDuration(v.(crossingTime := start, exitTime := finish))
            == finish - v.arrivalTime
  {
  }
}
