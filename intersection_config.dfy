/** Static description of the intersection: approaches, lanes, signal groups and lane
    connections, plus the small pure helpers that go with them
    (include/IntersectionConfig.hpp). */
module Configuration {
  import opened Wrappers

  /** Approaches in the numbering of the configuration: North = 0, East = 1, South = 2, West = 3. */
  datatype ApproachId = North | East | South | West

  datatype MovementType = Straight | Left | Right

  type Uint16 = x: int | 0 <= x < 0x1_0000

  type LaneId = Uint16
  type SignalGroupId = Uint16

  /** `approachIndex`: the position of an approach in the configuration's array. */
  function ApproachIndex(a: ApproachId): (i: nat)
    ensures i < 4
  {
    match a
    case North => 0
    case East => 1
    case South => 2
    case West => 3
  }

  /** The approach stored at a position of the configuration's array. */
  function ApproachAt(i: nat): (a: ApproachId)
    requires i < 4
    ensures ApproachIndex(a) == i
  {
    if i == 0 then North else if i == 1 then East else if i == 2 then South else West
  }

  /** `laneIdFor`: 100 times the approach number plus the lane index, cut to 16 bits. */
  function LaneIdFor(a: ApproachId, laneIndex: nat): LaneId {
    (ApproachIndex(a) * 100 + laneIndex) % 0x1_0000
  }

  /** `destinationApproachFor`: where a movement leaves the box (right-hand traffic). */
  function DestinationApproachFor(from: ApproachId, m: MovementType): ApproachId {
    match from
    case North => if m == Straight then South else if m == Left then East else West
    case East => if m == Straight then West else if m == Left then South else North
    case South => if m == Straight then North else if m == Left then West else East
    case West => if m == Straight then East else if m == Left then North else South
  }

  datatype LaneConfig = LaneConfig(
    id: LaneId,
    allowedMovements: seq<MovementType>,
    supportsLaneChange: bool,
    connectedToIntersection: bool,
    hasTrafficLight: bool)

  datatype ApproachConfig = ApproachConfig(
    id: ApproachId,
    lanes: seq<LaneConfig>,
    toLaneCount: Uint16)

  /** A default-constructed `ApproachConfig`. */
  const DefaultApproach := ApproachConfig(North, [], 1)

  /** `effectiveToLaneCount`: the declared outgoing lane count, else the number of lanes,
      else 1. */
  function EffectiveToLaneCount(a: ApproachConfig): nat {
    if a.toLaneCount > 0 then a.toLaneCount
    else if |a.lanes| > 0 then |a.lanes|
    else 1
  }

  datatype SignalGroupConfig = SignalGroupConfig(
    id: SignalGroupId,
    controlledLanes: seq<LaneId>,
    greenMovements: seq<MovementType>,
    minGreenSeconds: real,
    orangeSeconds: real)

  datatype LaneConnectionConfig = LaneConnectionConfig(
    fromApproach: ApproachId,
    fromLaneIndex: Uint16,
    movement: MovementType,
    toApproach: ApproachId,
    toLaneIndex: Uint16)

  /** The fixed-size array of four approaches. */
  type Approaches = s: seq<ApproachConfig> | |s| == 4
    witness [DefaultApproach, DefaultApproach, DefaultApproach, DefaultApproach]

  datatype IntersectionConfig = IntersectionConfig(
    approaches: Approaches,
    signalGroups: seq<SignalGroupConfig>,
    laneConnections: seq<LaneConnectionConfig>)

  /** A default-constructed `IntersectionConfig`. */
  const EmptyConfig := IntersectionConfig(
    [DefaultApproach, DefaultApproach, DefaultApproach, DefaultApproach], [], [])

  // ---------------------------------------------------------------------------
  // Properties of the pure helpers

  /** No movement leads back to the approach it came from, and the three movements from
      one approach lead to three different approaches. */
  lemma DestinationIsElsewhere(a: ApproachId, m: MovementType, m': MovementType)
    ensures DestinationApproachFor(a, m) != a
    ensures m != m' ==> DestinationApproachFor(a, m) != DestinationApproachFor(a, m')
  {
  }

  /** Going straight twice brings you back. */
  lemma StraightIsInvolution(a: ApproachId)
    ensures DestinationApproachFor(DestinationApproachFor(a, Straight), Straight) == a
  {
  }

  /** Below 100 lanes per approach, lane ids are 100 * approach + index and never collide. */
  lemma LaneIdForInjective(a: ApproachId, i: nat, b: ApproachId, j: nat)
    requires i < 100 && j < 100
    ensures LaneIdFor(a, i) == 100 * ApproachIndex(a) + i
    ensures LaneIdFor(a, i) == LaneIdFor(b, j) <==> a == b && i == j
  {
    var p, q := ApproachIndex(a), ApproachIndex(b);
    assert LaneIdFor(a, i) == 100 * p + i by {
      assert 0 <= 100 * p + i < 0x1_0000;
    }
    assert LaneIdFor(b, j) == 100 * q + j by {
      assert 0 <= 100 * q + j < 0x1_0000;
    }
    if 100 * p + i == 100 * q + j {
      assert p == q;
    }
  }

  /** The effective outgoing lane count is at least one and follows the declared count,
      then the lane count. */
  lemma EffectiveToLaneCountSpec(a: ApproachConfig)
    ensures EffectiveToLaneCount(a) >= 1
    ensures a.toLaneCount > 0 ==> EffectiveToLaneCount(a) == a.toLaneCount
    ensures a.toLaneCount == 0 && a.lanes != [] ==> EffectiveToLaneCount(a) == |a.lanes|
    ensures a.toLaneCount == 0 && a.lanes == [] ==> EffectiveToLaneCount(a) == 1
  {
  }

  /** The position of the first lane with a given id (the `find_if` on lane ids). */
  function FindLaneIndex(lanes: seq<LaneConfig>, id: LaneId): (r: Option<nat>)
    ensures r.None? <==> forall k :: 0 <= k < |lanes| ==> lanes[k].id != id
    ensures r.Some? ==> r.value < |lanes| && lanes[r.value].id == id
    ensures r.Some? ==> forall k :: 0 <= k < r.value ==> lanes[k].id != id
  {
    if |lanes| == 0 then None
    else if lanes[0].id == id then Some(0)
    else match FindLaneIndex(lanes[1..], id)
      case None => None
      case Some(k) =>
        assert forall j :: 1 <= j < k + 1 ==> lanes[j] == lanes[1..][j - 1];
        Some(k + 1)
  }

  // ---------------------------------------------------------------------------
  // Movement lists without repeats

  /** `ms` appended to `acc`, skipping movements already present. */
  function AddUnique(acc: seq<MovementType>, ms: seq<MovementType>): (r: seq<MovementType>)
    ensures forall x :: x in r <==> x in acc || x in ms
    ensures |acc| <= |r| && r[..|acc|] == acc
  {
    if |ms| == 0 then acc
    else
      var prev := AddUnique(acc, ms[..|ms| - 1]);
      assert ms == ms[..|ms| - 1] + [ms[|ms| - 1]];
      if ms[|ms| - 1] in prev then prev else prev + [ms[|ms| - 1]]
  }

  /** No element occurs twice. */
  predicate Distinct<T(==)>(s: seq<T>) {
    forall a, b :: 0 <= a < b < |s| ==> s[a] != s[b]
  }

  lemma {:induction false} AddUniqueDistinct(acc: seq<MovementType>, ms: seq<MovementType>)
    requires Distinct(acc)
    ensures Distinct(AddUnique(acc, ms))
  {
    if |ms| > 0 {
      AddUniqueDistinct(acc, ms[..|ms| - 1]);
    }
  }

  // ---------------------------------------------------------------------------
  // Default lane connections: one per (approach, lane, allowed movement)

  /** Every approach has fewer lanes than a 16-bit lane index can count. */
  predicate LaneCountsFit(apps: Approaches) {
    forall i :: 0 <= i < 4 ==> |apps[i].lanes| < 0x1_0000
  }

  /** The connection synthesised for one lane and movement: the geometric destination,
      with the same lane index clamped to the destination's lane count. */
  function DefaultConnection(apps: Approaches, from: ApproachConfig, laneIdx: nat, m: MovementType): (c: LaneConnectionConfig)
    requires laneIdx < 0x1_0000
    ensures c.toLaneIndex < EffectiveToLaneCount(apps[ApproachIndex(c.toApproach)])
    ensures c.toLaneIndex <= laneIdx
  {
    var to := DestinationApproachFor(from.id, m);
    var toCount := EffectiveToLaneCount(apps[ApproachIndex(to)]);
    var maxTarget := if toCount == 0 then 0 else toCount - 1;
    var target := if laneIdx <= maxTarget then laneIdx else maxTarget;
    LaneConnectionConfig(from.id, laneIdx, m, to, target)
  }

  /** The connections synthesised for one lane, in the order of its movements. */
  function MovementConnections(apps: Approaches, from: ApproachConfig, laneIdx: nat, ms: seq<MovementType>): (r: seq<LaneConnectionConfig>)
    requires laneIdx < 0x1_0000
    ensures |r| == |ms|
    ensures forall k :: 0 <= k < |ms| ==> r[k] == DefaultConnection(apps, from, laneIdx, ms[k])
  {
    seq(|ms|, k requires 0 <= k < |ms| => DefaultConnection(apps, from, laneIdx, ms[k]))
  }

  lemma MovementConnectionsSnoc(apps: Approaches, from: ApproachConfig, laneIdx: nat, ms: seq<MovementType>, k: nat)
    requires laneIdx < 0x1_0000 && k < |ms|
    ensures MovementConnections(apps, from, laneIdx, ms[..k + 1])
         == MovementConnections(apps, from, laneIdx, ms[..k]) + [DefaultConnection(apps, from, laneIdx, ms[k])]
  {
    assert ms[..k + 1][k] == ms[k];
  }

  /** The connections synthesised for the first `k` lanes of one approach. */
  function LaneConnectionsUpTo(apps: Approaches, from: ApproachConfig, k: nat): seq<LaneConnectionConfig>
    requires k <= |from.lanes| < 0x1_0000
  {
    if k == 0 then []
    else LaneConnectionsUpTo(apps, from, k - 1)
         + MovementConnections(apps, from, k - 1, from.lanes[k - 1].allowedMovements)
  }

  /** The connections synthesised for the first `i` approaches. */
  function ConnectionsUpTo(apps: Approaches, i: nat): seq<LaneConnectionConfig>
    requires i <= 4 && LaneCountsFit(apps)
  {
    if i == 0 then []
    else ConnectionsUpTo(apps, i - 1) + LaneConnectionsUpTo(apps, apps[i - 1], |apps[i - 1].lanes|)
  }

  /** All default connections, approach by approach, lane by lane, movement by movement. */
  function SynthesizedConnections(apps: Approaches): seq<LaneConnectionConfig>
    requires LaneCountsFit(apps)
  {
    ConnectionsUpTo(apps, 4)
  }

  /** A connection is synthesised for one lane of an approach exactly when it is the
      default connection of one of that lane's allowed movements. */
  lemma {:induction false} InLaneConnectionsUpTo(apps: Approaches, from: ApproachConfig, k: nat, c: LaneConnectionConfig)
    requires k <= |from.lanes| < 0x1_0000
    ensures c in LaneConnectionsUpTo(apps, from, k) <==>
      exists j, m :: 0 <= j < k && m in from.lanes[j].allowedMovements && c == DefaultConnection(apps, from, j, m)
  {
    if k > 0 {
      InLaneConnectionsUpTo(apps, from, k - 1, c);
      var ms := from.lanes[k - 1].allowedMovements;
      if c in MovementConnections(apps, from, k - 1, ms) {
        var q :| 0 <= q < |ms| && MovementConnections(apps, from, k - 1, ms)[q] == c;
        assert ms[q] in from.lanes[k - 1].allowedMovements;
      }
      if exists j, m :: 0 <= j < k && m in from.lanes[j].allowedMovements && c == DefaultConnection(apps, from, j, m) {
        var j, m :| 0 <= j < k && m in from.lanes[j].allowedMovements && c == DefaultConnection(apps, from, j, m);
        if j == k - 1 {
          var q :| 0 <= q < |ms| && ms[q] == m;
          assert MovementConnections(apps, from, k - 1, ms)[q] == c;
        }
      }
    }
  }

  /** The synthesised connections of the first `i` approaches are exactly the default
      connections of their (lane, allowed movement) pairs. */
  lemma {:induction false} InConnectionsUpTo(apps: Approaches, i: nat, c: LaneConnectionConfig)
    requires i <= 4 && LaneCountsFit(apps)
    ensures c in ConnectionsUpTo(apps, i) <==>
      exists a, j, m :: 0 <= a < i && 0 <= j < |apps[a].lanes| && m in apps[a].lanes[j].allowedMovements
        && c == DefaultConnection(apps, apps[a], j, m)
  {
    if i > 0 {
      InConnectionsUpTo(apps, i - 1, c);
      InLaneConnectionsUpTo(apps, apps[i - 1], |apps[i - 1].lanes|, c);
    }
  }

  /** Every synthesised connection: comes from an existing lane with one of its allowed
      movements, leads to the geometric destination, and targets the same lane index
      clamped below the destination's effective lane count; and each such (approach, lane,
      movement) triple has its connection. */
  lemma SynthesizedConnectionsSpec(apps: Approaches, c: LaneConnectionConfig)
    requires LaneCountsFit(apps)
    ensures c in SynthesizedConnections(apps) <==>
      exists a, j, m :: 0 <= a < 4 && 0 <= j < |apps[a].lanes| && m in apps[a].lanes[j].allowedMovements
        && c == DefaultConnection(apps, apps[a], j, m)
    ensures c in SynthesizedConnections(apps) ==>
      c.toApproach == DestinationApproachFor(c.fromApproach, c.movement) &&
      c.toLaneIndex < EffectiveToLaneCount(apps[ApproachIndex(c.toApproach)])
  {
    InConnectionsUpTo(apps, 4, c);
  }

  /** The connection loops shared by `makeDefaultIntersectionConfig` and the JSON parser:
      for each approach, each lane, each allowed movement, push the default connection. */
  method SynthesizeConnections(apps: Approaches) returns (conns: seq<LaneConnectionConfig>)
    requires LaneCountsFit(apps)
    ensures conns == SynthesizedConnections(apps)
  {
    conns := [];
    var i := 0;
    while i < 4
      invariant 0 <= i <= 4
      invariant conns == ConnectionsUpTo(apps, i)
    {
      var approach := apps[i];
      var laneIdx := 0;
      while laneIdx < |approach.lanes|
        invariant 0 <= laneIdx <= |approach.lanes|
        invariant conns == ConnectionsUpTo(apps, i) + LaneConnectionsUpTo(apps, approach, laneIdx)
      {
        conns := PushMovementConnections(apps, approach, laneIdx, conns);
        laneIdx := laneIdx + 1;
      }
      i := i + 1;
    }
  }

  /** The innermost loop: one connection per allowed movement of lane `laneIdx`. */
  method PushMovementConnections(apps: Approaches, approach: ApproachConfig, laneIdx: nat, conns0: seq<LaneConnectionConfig>)
    returns (conns: seq<LaneConnectionConfig>)
    requires laneIdx < |approach.lanes| < 0x1_0000
    ensures conns == conns0 + MovementConnections(apps, approach, laneIdx, approach.lanes[laneIdx].allowedMovements)
  {
    conns := conns0;
    var ms := approach.lanes[laneIdx].allowedMovements;
    var k := 0;
    while k < |ms|
      invariant 0 <= k <= |ms|
      invariant conns == conns0 + MovementConnections(apps, approach, laneIdx, ms[..k])
    {
      var to := DestinationApproachFor(approach.id, ms[k]);
      var toCount := EffectiveToLaneCount(apps[ApproachIndex(to)]);
      var maxTarget := if toCount == 0 then 0 else toCount - 1;
      var target := if laneIdx <= maxTarget then laneIdx else maxTarget;
      assert LaneConnectionConfig(approach.id, laneIdx, ms[k], to, target)
          == DefaultConnection(apps, approach, laneIdx, ms[k]);
      MovementConnectionsSnoc(apps, approach, laneIdx, ms, k);
      conns := conns + [LaneConnectionConfig(approach.id, laneIdx, ms[k], to, target)];
      k := k + 1;
    }
    assert ms[..k] == ms;
  }

  // ---------------------------------------------------------------------------
  // makeDefaultIntersectionConfig

  /** One lane of the default layout: indices 0 and 1 go straight, index 2 turns right;
      all lanes allow lane changes, are connected and have a light. */
  function DefaultLane(a: ApproachId, idx: nat): LaneConfig
    requires idx < 3
  {
    LaneConfig(LaneIdFor(a, idx), if idx < 2 then [Straight] else [Right], true, true, true)
  }

  /** The default approach as brace-initialised, before its lane count is fixed up. */
  function DefaultApproachFor(a: ApproachId): ApproachConfig {
    ApproachConfig(a, [DefaultLane(a, 0), DefaultLane(a, 1), DefaultLane(a, 2)], 1)
  }

  method MakeDefaultIntersectionConfig() returns (config: IntersectionConfig)
    ensures forall i :: 0 <= i < 4 ==>
      config.approaches[i].id == ApproachAt(i) &&
      config.approaches[i].lanes == DefaultApproachFor(ApproachAt(i)).lanes &&
      config.approaches[i].toLaneCount == |config.approaches[i].lanes| == 3
    ensures config.signalGroups == []
    ensures LaneCountsFit(config.approaches)
    ensures config.laneConnections == SynthesizedConnections(config.approaches)
  {
    config := IntersectionConfig(
      [DefaultApproachFor(North), DefaultApproachFor(East), DefaultApproachFor(South), DefaultApproachFor(West)],
      [], []);
    var i := 0;
    while i < 4
      invariant 0 <= i <= 4
      invariant config.signalGroups == [] && config.laneConnections == []
      invariant forall k :: 0 <= k < 4 ==>
        config.approaches[k].id == ApproachAt(k) &&
        config.approaches[k].lanes == DefaultApproachFor(ApproachAt(k)).lanes &&
        config.approaches[k].toLaneCount == (if k < i then 3 else 1)
    {
      var approach := config.approaches[i];
      config := config.(approaches := config.approaches[i := approach.(toLaneCount := |approach.lanes|)]);
      i := i + 1;
    }
    var conns := SynthesizeConnections(config.approaches);
    config := config.(laneConnections := conns);
  }
}
