/** What the traffic generator promises (src/TrafficGenerator.cpp), proved about the
    functions of module `TrafficModel`. */
module TrafficProperties {
  import opened Wrappers
  import opened Configuration
  import opened Vehicles
  import opened Routing
  import opened TrafficModel

  // ---------------------------------------------------------------------------
  // Spawning

  /** `q'` is `q` with one freshly spawned vehicle at the tail, 6 m behind the old tail. */
  predicate Appended(q: seq<Vehicle>, q': seq<Vehicle>, id: nat, d: Direction, now: real) {
    && |q'| == |q| + 1
    && q'[..|q|] == q
    && q'[|q|].id == id && q'[|q|].entryLane == d && q'[|q|].arrivalTime == now
    && IsWaiting(q'[|q|]) && q'[|q|].exitTime == -1.0
    && q'[|q|].positionInLane == (if |q| > 0 then q[|q| - 1].positionInLane - MIN_FRONT_DISTANCE else 0.0)
  }

  /** A spawn for direction `d` consumes one id and changes only queue `d`: it appends a
      fresh waiting vehicle 6 m behind the tail, unless the approach has lanes but none
      connected, in which case the queue is unchanged. */
  lemma SpawnOneEffect(config: IntersectionConfig, st: Snapshot, d: Direction, now: real)
    requires WellFormed(st)
    ensures var r := SpawnOne(config, st, d, now);
      && r.nextVehicleId == st.nextVehicleId + 1
      && (forall e :: e != d ==> r.Queue(e) == st.Queue(e))
      && (NothingToSpawn(config, st, d) ==> r.Queue(d) == st.Queue(d))
      && (!NothingToSpawn(config, st, d) ==> Appended(st.Queue(d), r.Queue(d), st.nextVehicleId, d, now))
  {
    var r := SpawnOne(config, st, d, now);
    var q := st.Queue(d);
    if !NothingToSpawn(config, st, d) {
      assert r.Queue(d)[..|q|] == q;
    }
  }

  /** Queue `d` of `b` is queue `d` of `a`, or that queue with vehicle `id` appended. */
  predicate SameOrAppended(a: Snapshot, b: Snapshot, d: Direction, id: nat, now: real) {
    b.Queue(d) == a.Queue(d) || Appended(a.Queue(d), b.Queue(d), id, d, now)
  }

  /** `b` is `a` after one spawn for direction `d`, as `SpawnOneEffect` states it. */
  predicate SpawnStep(a: Snapshot, b: Snapshot, d: Direction, now: real) {
    && b.nextVehicleId == a.nextVehicleId + 1
    && (forall e :: e != d ==> b.Queue(e) == a.Queue(e))
    && SameOrAppended(a, b, d, a.nextVehicleId, now)
  }

  lemma SpawnOneStep(config: IntersectionConfig, st: Snapshot, d: Direction, now: real)
    requires WellFormed(st)
    ensures SpawnStep(st, SpawnOne(config, st, d, now), d, now)
  {
    SpawnOneEffect(config, st, d, now);
  }

  /** The effect of the rest of a round from direction number `k` on: the queues numbered
      below `k` are untouched, and queue `d` gets (if anything) the id `DirectionIndex(d) - k`
      places after the first one consumed. */
  predicate RestOfRound(a: Snapshot, b: Snapshot, k: nat, now: real) {
    && (forall d :: DirectionIndex(d) < k ==> b.Queue(d) == a.Queue(d))
    && (forall d :: k <= DirectionIndex(d) ==>
          SameOrAppended(a, b, d, a.nextVehicleId + DirectionIndex(d) - k, now))
  }

  /** One spawn for direction number `k` followed by the rest from `k + 1` on is the rest
      from `k` on. */
  lemma ComposeSpawns(st: Snapshot, s1: Snapshot, r: Snapshot, k: nat, now: real)
    requires k < 4
    requires SpawnStep(st, s1, DirectionAt(k), now) && RestOfRound(s1, r, k + 1, now)
    ensures RestOfRound(st, r, k, now)
  {
    var d := DirectionAt(k);
    assert r.Queue(d) == s1.Queue(d);
  }

  lemma {:induction false} SpawnFromEffect(config: IntersectionConfig, st: Snapshot, now: real, k: nat)
    requires WellFormed(st) && k <= 4
    ensures RestOfRound(st, SpawnFrom(config, st, now, k), k, now)
    decreases 4 - k
  {
    if k < 4 {
      var s1 := SpawnOne(config, st, DirectionAt(k), now);
      SpawnOneStep(config, st, DirectionAt(k), now);
      SpawnFromEffect(config, s1, now, k + 1);
      ComposeSpawns(st, s1, SpawnFrom(config, s1, now, k + 1), k, now);
    }
  }

  /** A spawn round consumes four ids, in the order North, South, East, West: the vehicle
      appended to queue `d` (if any) has the round's first id plus `d`'s number. */
  lemma SpawnRoundEffect(config: IntersectionConfig, st: Snapshot, now: real)
    requires WellFormed(st)
    ensures var r := SpawnRound(config, st, now);
      && r.nextVehicleId == st.nextVehicleId + 4
      && forall d :: SameOrAppended(st, r, d, st.nextVehicleId + DirectionIndex(d), now)
  {
    SpawnFromEffect(config, st, now, 0);
  }

  /** Under the legacy rule, two non-turning vehicles spawned one after the other on the
      same queue take different lanes (0 and 1 alternate). */
  lemma LegacyStraightAlternates(v: Vehicle, w: Vehicle, d: Direction, q: seq<Vehicle>)
    requires v.id % 5 != 0 && w.id % 5 != 0
    ensures var first := LegacyRoute(v, d, q);
      var second := LegacyRoute(w, d, q + [Placed(first, q)]);
      && first.queueIndex < 2 && second.queueIndex < 2
      && first.queueIndex != second.queueIndex
      && second.laneId != first.laneId
  {
    var first := LegacyRoute(v, d, q);
    var q' := q + [Placed(first, q)];
    assert q'[..|q'| - 1] == q;
    assert StraightCount(q') == StraightCount(q) + 1;
  }

  /** Legacy lane ids count in the `Direction` numbering (North 0, South 1, East 2, West 3):
      they agree with `laneIdFor` for North and West but not for South and East. */
  lemma LegacyNumberingDiffers(v: Vehicle, d: Direction, q: seq<Vehicle>)
    ensures var r := LegacyRoute(v, d, q);
      && r.laneId == 100 * DirectionIndex(d) + r.queueIndex
      && ((d == N || d == W) <==> r.laneId == LaneIdFor(ApproachFromDirection(d), r.queueIndex))
  {
  }

  /** A configured spawn sits on a connected lane of its approach, with that lane's
      lane-change flag and `index % 3` as queue index, and its destination lane is within
      the destination approach's outgoing lanes. */
  lemma ConfiguredSpawnLane(config: IntersectionConfig, v: Vehicle, from: ApproachId, ac: ApproachConfig,
                            cursor: nat, available: seq<MovementType>)
    requires cursor < |ac.lanes| && ac.lanes[cursor].connectedToIntersection
    ensures var r := ConfiguredRoute(config, v, from, ac, cursor, available);
      && (exists p :: 0 <= p < |ac.lanes| && ac.lanes[p].connectedToIntersection && r.laneId == ac.lanes[p].id
            && r.queueIndex == p % 3 && r.laneChangeAllowed == ac.lanes[p].supportsLaneChange)
      && r.destinationLaneIndex < EffectiveToLaneCount(config.approaches[ApproachIndex(r.destinationApproach)])
      && r.destinationLaneId == LaneIdFor(r.destinationApproach, r.destinationLaneIndex)
  {
    var m := if |available| > 0 then available[SpawnMovementIndex(available, v.id)] else Straight;
    var pref := PreferredLaneIndex(ac.lanes, m, cursor);
    assert pref < |ac.lanes| && ac.lanes[pref].connectedToIntersection;
  }

  /** The movements offered to a spawn are those of the connected lanes, each listed once. */
  lemma {:induction false} AvailableMovementsSpec(lanes: seq<LaneConfig>, conn: seq<nat>, k: nat)
    requires k <= |conn|
    requires forall j :: 0 <= j < |conn| ==> conn[j] < |lanes|
    ensures Distinct(AvailableUpTo(lanes, conn, k))
    ensures forall m :: m in AvailableUpTo(lanes, conn, k) <==>
      exists j :: 0 <= j < k && m in lanes[conn[j]].allowedMovements
  {
    if k > 0 {
      AvailableMovementsSpec(lanes, conn, k - 1);
      AddUniqueDistinct(AvailableUpTo(lanes, conn, k - 1), lanes[conn[k - 1]].allowedMovements);
      forall m
        ensures m in AvailableUpTo(lanes, conn, k) <==> exists j :: 0 <= j < k && m in lanes[conn[j]].allowedMovements
      {
        if m in lanes[conn[k - 1]].allowedMovements {
          assert 0 <= k - 1 < k && m in lanes[conn[k - 1]].allowedMovements;
        }
      }
    }
  }

  // ---------------------------------------------------------------------------
  // Lane changes

  /** A vehicle's lane is rewritten only when it is waiting, allowed to change lane, not
      past the commit line, its current lane does not allow its movement, the new lane is
      a connected lane allowing it, and no other waiting vehicle there is within 6 m. */
  lemma LaneRewrittenOnlyWithGap(config: IntersectionConfig, ac: ApproachConfig, q: seq<Vehicle>, i: nat)
    requires i < |q|
    ensures var v := q[i];
      var r := LaneChangeStep(config, ac, q, i);
      r.laneId != v.laneId ==>
        && !IsCrossing(v) && v.laneChangeAllowed && v.positionInLane <= LANE_CHANGE_COMMIT
        && FindLaneIndex(ac.lanes, v.laneId).Some?
        && v.movement !in ac.lanes[FindLaneIndex(ac.lanes, v.laneId).value].allowedMovements
        && SafeGap(q, i, r.laneId)
        && exists t: nat :: IsCandidate(ac.lanes, v.movement, t) && ac.lanes[t].id == r.laneId
  {
    var v := q[i];
    if !IsCrossing(v) && FindLaneIndex(ac.lanes, v.laneId).Some? {
      var ci := FindLaneIndex(ac.lanes, v.laneId).value;
      var t := PreferredLaneIndex(ac.lanes, v.movement, ci);
      assert t == ci || IsCandidate(ac.lanes, v.movement, t);
    }
  }

  /** A waiting vehicle whose lane does not allow its movement is degraded to Straight, in
      place, when it may not change lane or is past the commit line. */
  lemma LaneChangeDegradesToStraight(config: IntersectionConfig, ac: ApproachConfig, q: seq<Vehicle>, i: nat)
    requires i < |q| && !IsCrossing(q[i])
    requires FindLaneIndex(ac.lanes, q[i].laneId).Some?
    requires q[i].movement !in ac.lanes[FindLaneIndex(ac.lanes, q[i].laneId).value].allowedMovements
    requires !q[i].laneChangeAllowed || q[i].positionInLane > LANE_CHANGE_COMMIT
    ensures var r := LaneChangeStep(config, ac, q, i);
      r.movement == Straight && !r.turning && r.laneId == q[i].laneId
  {
  }

  /** The lane-change pass keeps every vehicle's identity, times, position and speed. */
  lemma {:induction false} LaneChangesKeepBodies(config: IntersectionConfig, ac: ApproachConfig, q: seq<Vehicle>, i: nat)
    requires i <= |q|
    ensures forall k :: 0 <= k < |q| ==> SameBody(LaneChangesFrom(config, ac, q, i)[k], q[k])
    decreases |q| - i
  {
    if i < |q| {
      var q' := q[i := LaneChangeStep(config, ac, q, i)];
      assert SameBody(q'[i], q[i]);
      LaneChangesKeepBodies(config, ac, q', i + 1);
    }
  }

  // ---------------------------------------------------------------------------
  // Speeds and positions

  /** After its update, a waiting vehicle is at least 6 m behind its same-lane leader and,
      when its approach may not move, not past the stop target. */
  predicate Clamped(q: seq<Vehicle>, i: nat, canMove: bool)
    requires i < |q|
  {
    !IsCrossing(q[i]) ==>
      && (AheadIndex(q, i) >= 0 ==> q[i].positionInLane <= q[AheadIndex(q, i)].positionInLane - MIN_FRONT_DISTANCE)
      && (!canMove ==> q[i].positionInLane <= STOP_TARGET)
  }

  lemma SpeedStepClamps(q: seq<Vehicle>, i: nat, canMove: bool, dt: real, phys: Physics)
    requires i < |q|
    ensures Clamped(q[i := SpeedStep(q, i, canMove, dt, phys)], i, canMove)
  {
    var q' := q[i := SpeedStep(q, i, canMove, dt, phys)];
    assert q'[..i] == q[..i];
  }

  predicate ClampedBelow(q: seq<Vehicle>, k: nat, canMove: bool)
    requires k <= |q|
  {
    forall j :: 0 <= j < k ==> Clamped(q, j, canMove)
  }

  /** The speed pass leaves every waiting vehicle clamped behind its leader (and before
      the stop target when its approach may not move). */
  lemma {:induction false} SpeedPassClamps(q: seq<Vehicle>, i: nat, canMove: bool, dt: real, phys: Physics)
    requires i <= |q|
    requires ClampedBelow(q, i, canMove)
    ensures ClampedBelow(SpeedPass(q, i, canMove, dt, phys), |q|, canMove)
    decreases |q| - i
  {
    if i < |q| {
      var q' := q[i := SpeedStep(q, i, canMove, dt, phys)];
      SpeedStepClamps(q, i, canMove, dt, phys);
      forall j | 0 <= j < i
        ensures Clamped(q', j, canMove)
      {
        assert q'[..j] == q[..j];
        assert Clamped(q, j, canMove);
      }
      assert ClampedBelow(q', i + 1, canMove);
      SpeedPassClamps(q', i + 1, canMove, dt, phys);
    }
  }

  /** The speed pass never touches a crossing vehicle, and changes nothing but position and
      speed of the others. */
  lemma {:induction false} SpeedPassKeepsCrossing(q: seq<Vehicle>, i: nat, canMove: bool, dt: real, phys: Physics)
    requires i <= |q|
    ensures var r := SpeedPass(q, i, canMove, dt, phys);
      && (forall j :: 0 <= j < |q| && IsCrossing(q[j]) ==> r[j] == q[j])
      && (forall j :: 0 <= j < |q| ==> r[j] == q[j].(positionInLane := r[j].positionInLane, currentSpeed := r[j].currentSpeed))
    decreases |q| - i
  {
    if i < |q| {
      var q' := q[i := SpeedStep(q, i, canMove, dt, phys)];
      SpeedPassKeepsCrossing(q', i + 1, canMove, dt, phys);
    }
  }

  /** `updateVehicleSpeeds` for one queue: the clamps hold for every waiting vehicle
      afterwards, and crossing vehicles are not moved. */
  lemma UpdateQueueClamps(config: IntersectionConfig, useConfiguredSpawns: bool, d: Direction, q: seq<Vehicle>,
                          canMove: bool, dt: real, phys: Physics)
    ensures var r := UpdateQueue(config, useConfiguredSpawns, d, q, canMove, dt, phys);
      && |r| == |q|
      && ClampedBelow(r, |r|, canMove)
      && (forall j :: 0 <= j < |q| && IsCrossing(q[j]) ==> r[j] == q[j])
  {
    var lc := LaneChanges(config, useConfiguredSpawns, d, q);
    SpeedPassClamps(lc, 0, canMove, dt, phys);
    SpeedPassKeepsCrossing(lc, 0, canMove, dt, phys);
    var ac := config.approaches[ApproachIndex(ApproachFromDirection(d))];
    if useConfiguredSpawns && |q| > 0 && |ac.lanes| > 0 {
      LaneChangesCrossingUntouched(config, ac, q, 0);
    }
  }

  /** The lane-change pass never touches a crossing vehicle. */
  lemma {:induction false} LaneChangesCrossingUntouched(config: IntersectionConfig, ac: ApproachConfig, q: seq<Vehicle>, i: nat)
    requires i <= |q|
    ensures forall j :: 0 <= j < |q| && IsCrossing(q[j]) ==> LaneChangesFrom(config, ac, q, i)[j] == q[j]
    decreases |q| - i
  {
    if i < |q| {
      LaneChangesCrossingUntouched(config, ac, q[i := LaneChangeStep(config, ac, q, i)], i + 1);
    }
  }

  // ---------------------------------------------------------------------------
  // Crossing

  /** `startCrossing` acts only on a matching queue head, and only stamps its start time. */
  lemma StartCrossingSpec(st: Snapshot, d: Direction, id: nat, now: real)
    ensures var r := StartCrossing(st, d, id, now);
      && (r.1 <==> |st.Queue(d)| > 0 && st.Queue(d)[0].id == id)
      && (!r.1 ==> r.0 == st)
      && (r.1 ==> r.0 == st.WithQueue(d, [st.Queue(d)[0].(crossingTime := now)] + st.Queue(d)[1..]))
      && r.0.Population() == st.Population()
  {
    var q := st.Queue(d);
    if |q| > 0 && q[0].id == id {
      assert q[0 := q[0].(crossingTime := now)] == [q[0].(crossingTime := now)] + q[1..];
    }
  }

  predicate HeadHasId(st: Snapshot, d: Direction, id: nat) {
    |st.Queue(d)| > 0 && st.Queue(d)[0].id == id
  }

  /** `d` is the first direction from the `k`-th on, in the order North, South, East,
      West, whose queue head has the id. */
  predicate FirstHeadWith(st: Snapshot, id: nat, k: nat, d: Direction) {
    && k <= DirectionIndex(d) && HeadHasId(st, d, id)
    && forall e :: k <= DirectionIndex(e) < DirectionIndex(d) ==> !HeadHasId(st, e, id)
  }

  /** The snapshot after the head of queue `d` leaves it and is logged as crossed at `now`. */
  function Completed(st: Snapshot, d: Direction, now: real): Snapshot
    requires |st.Queue(d)| > 0
  {
    st.WithQueue(d, st.Queue(d)[1..]).(crossed := st.crossed + [st.Queue(d)[0].(exitTime := now)])
  }

  lemma {:induction false} CompleteFromSpec(st: Snapshot, id: nat, now: real, k: nat)
    requires k <= 4
    ensures var r := CompleteFrom(st, id, now, k);
      && (r.1 <==> exists d :: k <= DirectionIndex(d) && HeadHasId(st, d, id))
      && (!r.1 ==> r.0 == st)
      && (r.1 ==> |r.0.crossed| == |st.crossed| + 1 && r.0.crossed[..|st.crossed|] == st.crossed
                  && r.0.crossed[|st.crossed|].id == id && r.0.crossed[|st.crossed|].exitTime == now)
      && r.0.Population() == st.Population()
      && (r.1 ==> exists d :: FirstHeadWith(st, id, k, d) && r.0 == Completed(st, d, now))
    decreases 4 - k
  {
    if k < 4 {
      var d := DirectionAt(k);
      if HeadHasId(st, d, id) {
        var r := CompleteFrom(st, id, now, k);
        assert FirstHeadWith(st, id, k, d) && r.0 == Completed(st, d, now);
        assert r.0.crossed[..|st.crossed|] == st.crossed;
        assert |r.0.Queue(d)| + 1 == |st.Queue(d)|;
        match d {
          case N =>
          case S =>
          case E =>
          case W =>
        }
      } else {
        CompleteFromSpec(st, id, now, k + 1);
        forall e | k <= DirectionIndex(e) && HeadHasId(st, e, id)
          ensures k + 1 <= DirectionIndex(e)
        {
          assert e != d;
        }
        if CompleteFrom(st, id, now, k).1 {
          var f :| FirstHeadWith(st, id, k + 1, f) && CompleteFrom(st, id, now, k + 1).0 == Completed(st, f, now);
          assert FirstHeadWith(st, id, k, f);
        }
      }
    }
  }

  /** `completeCrossing` succeeds iff some queue head has the id; it then pops the head of
      the first such queue in the order North, South, East, West, appends that vehicle to
      the crossed log with its exit time stamped, and leaves everything else as it was;
      otherwise it changes nothing. No vehicle is lost or created. */
  lemma CompleteCrossingSpec(st: Snapshot, id: nat, now: real)
    ensures var r := CompleteCrossing(st, id, now);
      && (r.1 <==> exists d :: HeadHasId(st, d, id))
      && (!r.1 ==> r.0 == st)
      && (r.1 ==> |r.0.crossed| == |st.crossed| + 1 && r.0.crossed[..|st.crossed|] == st.crossed
                  && r.0.crossed[|st.crossed|].id == id && r.0.crossed[|st.crossed|].exitTime == now)
      && r.0.Population() == st.Population()
      && (r.1 ==> exists d :: FirstHeadWith(st, id, 0, d) && r.0 == Completed(st, d, now))
  {
    CompleteFromSpec(st, id, now, 0);
  }

  // ---------------------------------------------------------------------------
  // Statistics

  lemma {:induction false} TotalWaitBounds(vs: seq<Vehicle>, lo: real, hi: real)
    requires forall k :: 0 <= k < |vs| ==> lo <= WaitTime(vs[k]) <= hi
    ensures (|vs| as real) * lo <= TotalWait(vs) <= (|vs| as real) * hi
  {
    if |vs| > 0 {
      TotalWaitBounds(vs[..|vs| - 1], lo, hi);
      var n := (|vs| - 1) as real;
      assert (n + 1.0) * lo == n * lo + lo;
      assert (n + 1.0) * hi == n * hi + hi;
    }
  }

  /** The average wait lies between the smallest and the largest wait of the crossed
      vehicles. */
  lemma AverageWaitBounds(vs: seq<Vehicle>, lo: real, hi: real)
    requires |vs| > 0
    requires forall k :: 0 <= k < |vs| ==> lo <= WaitTime(vs[k]) <= hi
    ensures lo <= AverageWait(vs) <= hi
  {
    TotalWaitBounds(vs, lo, hi);
    var n := |vs| as real;
    var a := TotalWait(vs) / n;
    assert a * n == TotalWait(vs);
    assert (a - lo) * n >= 0.0;
    assert (hi - a) * n >= 0.0;
  }
}
