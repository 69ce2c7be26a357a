/** The search helpers of the traffic generator (src/TrafficGenerator.cpp): which movement
    a new vehicle takes, which lane it prefers, where its route ends and whether a lane
    change leaves enough room. Each search loop is a method proved equal to a function;
    the functions' meaning is proved in the lemmas beside them. */
module Routing {
  import opened Wrappers
  import opened Configuration
  import opened Vehicles

  /** Front-to-front distance of two stopped cars: a 4 m car plus a 2 m gap. */
  const CAR_LENGTH: real := 4.0
  const MIN_FRONT_DISTANCE: real := 6.0

  function Min(a: int, b: int): int {
    if a < b then a else b
  }

  function Abs(x: real): real {
    if x < 0.0 then -x else x
  }

  /** Distance between two indices (the `size_t` absolute difference). */
  function Dist(a: nat, b: nat): nat {
    if a > b then a - b else b - a
  }

  // ---------------------------------------------------------------------------
  // chooseSpawnMovementIndex

  /** Position of the first `x` in `s`, or `|s|` when there is none (`std::find`). */
  function FirstIndex<T(==)>(s: seq<T>, x: T): (i: nat)
    ensures i <= |s|
    ensures i < |s| ==> s[i] == x
    ensures forall j :: 0 <= j < i ==> s[j] != x
    ensures i == |s| <==> x !in s
  {
    if |s| == 0 then 0
    else if s[0] == x then 0
    else
      var k := FirstIndex(s[1..], x);
      assert forall j :: 1 <= j < k + 1 ==> s[j] == s[1..][j - 1];
      1 + k
  }

  /** The choice made from the first Straight, Right and Left positions: ids ending in
      0-5 prefer Straight, 6-7 Right, 8-9 Left, with fall-backs in that order. */
  function SpawnMovementIndex(ms: seq<MovementType>, vehicleId: nat): (r: nat)
    ensures |ms| > 0 ==> r < |ms|
  {
    assert |ms| == 0 || ms[0] in ms;
    var straightIdx := FirstIndex(ms, Straight);
    var rightIdx := FirstIndex(ms, Right);
    var leftIdx := FirstIndex(ms, Left);
    var roll := vehicleId % 10;
    if |ms| == 0 then 0
    else if roll < 6 && straightIdx < |ms| then straightIdx
    else if roll < 8 && rightIdx < |ms| then rightIdx
    else if leftIdx < |ms| then leftIdx
    else if straightIdx < |ms| then straightIdx
    else if rightIdx < |ms| then rightIdx
    else 0
  }

  /** `chooseSpawnMovementIndex`: one pass recording the first position of each movement. */
  method ChooseSpawnMovementIndex(ms: seq<MovementType>, vehicleId: nat) returns (r: nat)
    ensures r == SpawnMovementIndex(ms, vehicleId)
  {
    if |ms| == 0 {
      return 0;
    }
    var straightIdx, rightIdx, leftIdx := |ms|, |ms|, |ms|;
    var i := 0;
    while i < |ms|
      invariant 0 <= i <= |ms|
      invariant straightIdx == if FirstIndex(ms, Straight) < i then FirstIndex(ms, Straight) else |ms|
      invariant rightIdx == if FirstIndex(ms, Right) < i then FirstIndex(ms, Right) else |ms|
      invariant leftIdx == if FirstIndex(ms, Left) < i then FirstIndex(ms, Left) else |ms|
    {
      if ms[i] == Straight && straightIdx == |ms| {
        straightIdx := i;
      }
      if ms[i] == Right && rightIdx == |ms| {
        rightIdx := i;
      }
      if ms[i] == Left && leftIdx == |ms| {
        leftIdx := i;
      }
      i := i + 1;
    }
    var roll := vehicleId % 10;
    if roll < 6 && straightIdx < |ms| {
      return straightIdx;
    }
    if roll < 8 && rightIdx < |ms| {
      return rightIdx;
    }
    if leftIdx < |ms| {
      return leftIdx;
    }
    if straightIdx < |ms| {
      return straightIdx;
    }
    if rightIdx < |ms| {
      return rightIdx;
    }
    return 0;
  }

  /** The chosen index is valid for a non-empty list and points at the first occurrence of
      its movement; the id's last digit picks Straight (0-5), Right (6-7) or Left (8-9)
      whenever the preferred movement is on offer. */
  lemma SpawnMovementChoice(ms: seq<MovementType>, vehicleId: nat)
    ensures var r := SpawnMovementIndex(ms, vehicleId);
      && (|ms| == 0 ==> r == 0)
      && (|ms| > 0 ==> r < |ms| && r == FirstIndex(ms, ms[r]))
      && (vehicleId % 10 < 6 && Straight in ms ==> ms[r] == Straight)
      && (6 <= vehicleId % 10 < 8 && Right in ms ==> ms[r] == Right)
      && (8 <= vehicleId % 10 && Left in ms ==> ms[r] == Left)
  {
    var r := SpawnMovementIndex(ms, vehicleId);
    if |ms| > 0 {
      assert ms[0] == Straight || ms[0] == Right || ms[0] == Left;
      assert ms[0] in ms;
    }
  }

  // ---------------------------------------------------------------------------
  // choosePreferredLaneIndex

  /** A lane a vehicle may be steered to: connected to the box and allowing the movement. */
  predicate IsCandidate(lanes: seq<LaneConfig>, m: MovementType, idx: nat) {
    idx < |lanes| && lanes[idx].connectedToIntersection && m in lanes[idx].allowedMovements
  }

  /** The candidate indices below `k`, ascending (the `candidates` vector after `k` steps). */
  function CandidatesUpTo(lanes: seq<LaneConfig>, m: MovementType, k: nat): seq<nat>
    requires k <= |lanes|
  {
    if k == 0 then []
    else CandidatesUpTo(lanes, m, k - 1) + (if IsCandidate(lanes, m, k - 1) then [k - 1] else [])
  }

  /** Position in `c[..k]` of the first entry nearest to `current`. */
  function NearestPos(c: seq<nat>, current: nat, k: nat): (p: nat)
    requires 1 <= k <= |c|
    ensures p < k
    ensures forall j :: 0 <= j < k ==> Dist(c[p], current) <= Dist(c[j], current)
    ensures forall j :: 0 <= j < p ==> Dist(c[j], current) > Dist(c[p], current)
  {
    if k == 1 then 0
    else
      var p := NearestPos(c, current, k - 1);
      if Dist(c[k - 1], current) < Dist(c[p], current) then k - 1 else p
  }

  /** The lane index `choosePreferredLaneIndex` returns. */
  function PreferredLaneIndex(lanes: seq<LaneConfig>, m: MovementType, current: nat): (r: nat)
    ensures r == current || IsCandidate(lanes, m, r)
  {
    var c := CandidatesUpTo(lanes, m, |lanes|);
    CandidatesUpToSpec(lanes, m, |lanes|);
    assert forall i :: 0 <= i < |c| ==> c[i] in c;
    if |c| == 0 then current
    else if m == Right then c[|c| - 1]
    else if m == Left then c[0]
    else c[NearestPos(c, current, |c|)]
  }

  /** The first loop of `choosePreferredLaneIndex`: the candidate lanes, ascending. */
  method CollectCandidates(lanes: seq<LaneConfig>, m: MovementType) returns (candidates: seq<nat>)
    ensures candidates == CandidatesUpTo(lanes, m, |lanes|)
  {
    candidates := [];
    var idx := 0;
    while idx < |lanes|
      invariant idx <= |lanes|
      invariant candidates == CandidatesUpTo(lanes, m, idx)
    {
      if !lanes[idx].connectedToIntersection {
        idx := idx + 1;
        continue;
      }
      if m in lanes[idx].allowedMovements {
        candidates := candidates + [idx];
      }
      idx := idx + 1;
    }
  }

  /** The second loop of `choosePreferredLaneIndex`: keep the first strictly nearer
      candidate. */
  method NearestCandidate(candidates: seq<nat>, current: nat) returns (best: nat)
    requires |candidates| > 0
    ensures best == candidates[NearestPos(candidates, current, |candidates|)]
  {
    best := candidates[0];
    var bestDist := Dist(best, current);
    ghost var bestPos := 0;
    var k := 0;
    while k < |candidates|
      invariant k <= |candidates|
      invariant bestPos == NearestPos(candidates, current, if k == 0 then 1 else k)
      invariant best == candidates[bestPos] && bestDist == Dist(best, current)
    {
      var dist := Dist(candidates[k], current);
      if dist < bestDist {
        best := candidates[k];
        bestDist := dist;
        bestPos := k;
      }
      k := k + 1;
    }
  }

  /** `choosePreferredLaneIndex`: the largest candidate for Right, the smallest for Left and
      the nearest for Straight. The candidates are collected in ascending order, so the
      largest is the last and the smallest the first. */
  method ChoosePreferredLaneIndex(lanes: seq<LaneConfig>, m: MovementType, current: nat) returns (r: nat)
    ensures r == PreferredLaneIndex(lanes, m, current)
  {
    var candidates := CollectCandidates(lanes, m);
    if |candidates| == 0 {
      return current;
    }
    if m == Right {
      return candidates[|candidates| - 1];
    }
    if m == Left {
      return candidates[0];
    }
    r := NearestCandidate(candidates, current);
  }

  /** The candidates below `k` are exactly the candidate indices below `k`, ascending. */
  lemma {:induction false} CandidatesUpToSpec(lanes: seq<LaneConfig>, m: MovementType, k: nat)
    requires k <= |lanes|
    ensures forall x: nat :: x in CandidatesUpTo(lanes, m, k) <==> x < k && IsCandidate(lanes, m, x)
    ensures forall a, b :: 0 <= a < b < |CandidatesUpTo(lanes, m, k)| ==>
      CandidatesUpTo(lanes, m, k)[a] < CandidatesUpTo(lanes, m, k)[b]
  {
    if k > 0 {
      CandidatesUpToSpec(lanes, m, k - 1);
      var prev := CandidatesUpTo(lanes, m, k - 1);
      var ext: seq<nat> := if IsCandidate(lanes, m, k - 1) then [k - 1] else [];
      assert CandidatesUpTo(lanes, m, k) == prev + ext;
      forall x: nat
        ensures x in prev + ext <==> x < k && IsCandidate(lanes, m, x)
      {
        assert x in prev + ext <==> x in prev || x in ext;
      }
      forall a, b | 0 <= a < b < |prev + ext|
        ensures (prev + ext)[a] < (prev + ext)[b]
      {
        if b >= |prev| {
          assert (prev + ext)[a] == prev[a];
          assert prev[a] in prev;
        }
      }
    }
  }

  /** `choosePreferredLaneIndex` keeps the current index when no connected lane allows the
      movement, and otherwise returns such a lane. */
  lemma PreferredLaneIsCandidate(lanes: seq<LaneConfig>, m: MovementType, current: nat)
    ensures var r := PreferredLaneIndex(lanes, m, current);
      && ((forall x: nat :: !IsCandidate(lanes, m, x)) ==> r == current)
      && ((exists x: nat :: IsCandidate(lanes, m, x)) ==> IsCandidate(lanes, m, r))
  {
    var c := CandidatesUpTo(lanes, m, |lanes|);
    CandidatesUpToSpec(lanes, m, |lanes|);
    if exists x: nat :: IsCandidate(lanes, m, x) {
      var x: nat :| IsCandidate(lanes, m, x);
      assert x in c;
      var i := if m == Right then |c| - 1 else if m == Left then 0 else NearestPos(c, current, |c|);
      assert PreferredLaneIndex(lanes, m, current) == c[i];
      assert c[i] in c;
    } else {
      FirstCandidate(lanes, m);
    }
  }

  lemma FirstCandidate(lanes: seq<LaneConfig>, m: MovementType)
    ensures CandidatesUpTo(lanes, m, |lanes|) != [] ==> IsCandidate(lanes, m, CandidatesUpTo(lanes, m, |lanes|)[0])
  {
    var c := CandidatesUpTo(lanes, m, |lanes|);
    CandidatesUpToSpec(lanes, m, |lanes|);
    if c != [] {
      assert c[0] in c;
    }
  }

  /** For Right the preferred lane is the highest candidate. */
  lemma PreferredRightIsHighest(lanes: seq<LaneConfig>, current: nat, x: nat)
    requires IsCandidate(lanes, Right, x)
    ensures x <= PreferredLaneIndex(lanes, Right, current)
  {
    var c := CandidatesUpTo(lanes, Right, |lanes|);
    CandidatesUpToSpec(lanes, Right, |lanes|);
    assert x in c;
    var j :| 0 <= j < |c| && c[j] == x;
    assert j == |c| - 1 || c[j] < c[|c| - 1];
  }

  /** For Left the preferred lane is the lowest candidate. */
  lemma PreferredLeftIsLowest(lanes: seq<LaneConfig>, current: nat, x: nat)
    requires IsCandidate(lanes, Left, x)
    ensures PreferredLaneIndex(lanes, Left, current) <= x
  {
    var c := CandidatesUpTo(lanes, Left, |lanes|);
    CandidatesUpToSpec(lanes, Left, |lanes|);
    assert x in c;
    var j :| 0 <= j < |c| && c[j] == x;
    assert j == 0 || c[0] < c[j];
  }

  /** For Straight the preferred lane is a candidate nearest to the current index, and the
      lower of two equally near candidates. */
  lemma PreferredStraightIsNearest(lanes: seq<LaneConfig>, current: nat, x: nat)
    requires IsCandidate(lanes, Straight, x)
    ensures var r := PreferredLaneIndex(lanes, Straight, current);
      Dist(r, current) < Dist(x, current) || (Dist(r, current) == Dist(x, current) && r <= x)
  {
    var c := CandidatesUpTo(lanes, Straight, |lanes|);
    CandidatesUpToSpec(lanes, Straight, |lanes|);
    assert x in c;
    var j :| 0 <= j < |c| && c[j] == x;
    var p := NearestPos(c, current, |c|);
    assert j == p || j < p || c[p] < c[j];
  }

  // ---------------------------------------------------------------------------
  // resolveVehicleRoute

  predicate ConnectionMatches(conn: LaneConnectionConfig, from: ApproachId, fromLane: Uint16, m: MovementType) {
    conn.fromApproach == from && conn.fromLaneIndex == fromLane && conn.movement == m
  }

  /** Position of the first connection for (approach, lane, movement), or `|conns|`. */
  function FirstConnection(conns: seq<LaneConnectionConfig>, from: ApproachId, fromLane: Uint16, m: MovementType): (k: nat)
    ensures k <= |conns|
    ensures k < |conns| ==> ConnectionMatches(conns[k], from, fromLane, m)
    ensures forall j :: 0 <= j < k ==> !ConnectionMatches(conns[j], from, fromLane, m)
  {
    if |conns| == 0 then 0
    else if ConnectionMatches(conns[0], from, fromLane, m) then 0
    else
      var k := FirstConnection(conns[1..], from, fromLane, m);
      assert forall j :: 1 <= j < k + 1 ==> conns[j] == conns[1..][j - 1];
      1 + k
  }

  /** `findLaneConnection`: the first matching connection, if any. */
  function FindLaneConnection(conns: seq<LaneConnectionConfig>, from: ApproachId, fromLane: Uint16, m: MovementType): (r: Option<LaneConnectionConfig>)
    ensures r.None? <==> forall c :: c in conns ==> !ConnectionMatches(c, from, fromLane, m)
    ensures r.Some? ==> r.value in conns && ConnectionMatches(r.value, from, fromLane, m)
  {
    var k := FirstConnection(conns, from, fromLane, m);
    if k < |conns| then Some(conns[k]) else None
  }

  /** `resolveVehicleRoute`: set the movement and turning flag, take the destination from
      the first explicit connection or else from the turn geometry, clamp the destination
      lane below the destination approach's outgoing lane count and derive its lane id.
      The second component tells whether an explicit connection was used. The source's
      guards for an approach index past the array and for a zero lane count cannot fire
      (there are always four approaches and the count is at least 1). */
  function ResolveVehicleRoute(config: IntersectionConfig, v: Vehicle, from: ApproachId, fromLane: Uint16, m: MovementType): (r: (Vehicle, bool))
    ensures r.0.movement == m && (r.0.turning <==> m != Straight)
    ensures r.1 <==> exists c :: c in config.laneConnections && ConnectionMatches(c, from, fromLane, m)
    ensures r.1 ==> r.0.destinationApproach == FindLaneConnection(config.laneConnections, from, fromLane, m).value.toApproach
    ensures !r.1 ==> r.0.destinationApproach == DestinationApproachFor(from, m)
    ensures r.0.destinationLaneIndex <= (if r.1 then FindLaneConnection(config.laneConnections, from, fromLane, m).value.toLaneIndex else fromLane)
    ensures var requested := if r.1 then FindLaneConnection(config.laneConnections, from, fromLane, m).value.toLaneIndex else fromLane;
      var n := EffectiveToLaneCount(config.approaches[ApproachIndex(r.0.destinationApproach)]);
      && (requested < n ==> r.0.destinationLaneIndex == requested)
      && (n <= requested ==> r.0.destinationLaneIndex == n - 1)
    ensures r.0.destinationLaneIndex < EffectiveToLaneCount(config.approaches[ApproachIndex(r.0.destinationApproach)])
    ensures r.0.destinationLaneId == LaneIdFor(r.0.destinationApproach, r.0.destinationLaneIndex)
    ensures r.0 == v.(movement := m, turning := r.0.turning, destinationApproach := r.0.destinationApproach,
                      destinationLaneIndex := r.0.destinationLaneIndex, destinationLaneId := r.0.destinationLaneId)
  {
    var conn := FindLaneConnection(config.laneConnections, from, fromLane, m);
    var dest := if conn.Some? then conn.value.toApproach else DestinationApproachFor(from, m);
    var destIdx := if conn.Some? then conn.value.toLaneIndex else fromLane;
    var count := EffectiveToLaneCount(config.approaches[ApproachIndex(dest)]);
    var clamped := Min(destIdx, count - 1);
    (v.(movement := m, turning := m != Straight, destinationApproach := dest,
        destinationLaneIndex := clamped, destinationLaneId := LaneIdFor(dest, clamped)),
     conn.Some?)
  }

  /** With an explicit connection the destination approach is that connection's, and an
      in-range target lane index is kept as it is. */
  lemma ExplicitConnectionWins(config: IntersectionConfig, v: Vehicle, from: ApproachId, fromLane: Uint16, m: MovementType,
                               conn: LaneConnectionConfig)
    requires FindLaneConnection(config.laneConnections, from, fromLane, m) == Some(conn)
    ensures var r := ResolveVehicleRoute(config, v, from, fromLane, m);
      && r.1
      && r.0.destinationApproach == conn.toApproach
      && (conn.toLaneIndex < EffectiveToLaneCount(config.approaches[ApproachIndex(conn.toApproach)]) ==>
            r.0.destinationLaneIndex == conn.toLaneIndex)
  {
  }

  // ---------------------------------------------------------------------------
  // hasSafeGapForLaneChange

  /** No other waiting vehicle in the target lane is within 6 m of vehicle `i`. */
  predicate SafeGap(q: seq<Vehicle>, i: nat, target: LaneId)
    requires i < |q|
  {
    forall j :: 0 <= j < |q| && j != i && !IsCrossing(q[j]) && q[j].laneId == target ==>
      Abs(q[j].positionInLane - q[i].positionInLane) >= MIN_FRONT_DISTANCE
  }

  /** `hasSafeGapForLaneChange`: scan the queue, failing on the first vehicle too close. */
  method HasSafeGapForLaneChange(q: seq<Vehicle>, i: nat, target: LaneId) returns (ok: bool)
    requires i < |q|
    ensures ok == SafeGap(q, i, target)
  {
    var j := 0;
    while j < |q|
      invariant j <= |q|
      invariant forall k :: 0 <= k < j && k != i && !IsCrossing(q[k]) && q[k].laneId == target ==>
        Abs(q[k].positionInLane - q[i].positionInLane) >= MIN_FRONT_DISTANCE
    {
      if j == i {
        j := j + 1;
        continue;
      }
      if IsCrossing(q[j]) || q[j].laneId != target {
        j := j + 1;
        continue;
      }
      var distance := Abs(q[j].positionInLane - q[i].positionInLane);
      if distance < MIN_FRONT_DISTANCE {
        return false;
      }
      j := j + 1;
    }
    return true;
  }
}
