/** Properties of the safety kernel: the static predicate, the transition law, the movement
    conflict relation, configuration validation and the signal-group check. */
module SafetyProperties {
  import opened Wrappers
  import opened Intersection
  import opened Configuration
  import opened SafetyChecker

  // ---------------------------------------------------------------------------
  // isSafe

  /** Two green through lights in crossing corridors are never safe, whatever else is lit. */
  lemma CrossCorridorGreensUnsafe(s: IntersectionState)
    requires s.north == Green || s.south == Green
    requires s.east == Green || s.west == Green
    ensures !IsSafe(s)
  {
  }

  /** Through lights of one corridor may be Green together (with all turns Red). */
  lemma CoaxialGreensSafe(s: IntersectionState)
    requires s.east == Red && s.west == Red
    requires s.turnSouthEast == Red && s.turnNorthWest == Red && s.turnWestSouth == Red && s.turnEastNorth == Red
    ensures IsSafe(s)
  {
  }

  /** Each right-turn light is Green only while the through light it crosses is Red. */
  lemma TurnGuards(s: IntersectionState)
    requires IsSafe(s)
    ensures s.turnSouthEast == Green ==> s.west == Red
    ensures s.turnNorthWest == Green ==> s.east == Red
    ensures s.turnWestSouth == Green ==> s.north == Red
    ensures s.turnEastNorth == Green ==> s.south == Red
  {
  }

  /** A state with no Green light is always safe: in particular all Red and all Orange. */
  lemma NoGreenIsSafe(s: IntersectionState)
    requires forall i :: 0 <= i < 8 ==> Lights(s)[i] != Green
    ensures IsSafe(s)
  {
    assert s.north == Lights(s)[0] && s.east == Lights(s)[1] && s.south == Lights(s)[2] && s.west == Lights(s)[3];
    assert s.turnSouthEast == Lights(s)[4] && s.turnNorthWest == Lights(s)[5];
    assert s.turnWestSouth == Lights(s)[6] && s.turnEastNorth == Lights(s)[7];
  }

  lemma DefaultStateSafe()
    ensures IsSafe(DefaultState())
    ensures IsSafe(Uniform(Orange))
    ensures !IsSafe(Uniform(Green))
  {
    NoGreenIsSafe(DefaultState());
    NoGreenIsSafe(Uniform(Orange));
  }

  /** The canonical examples: a north+east conflict, a north-only green, and a south-east
      turn against an active west light. */
  lemma SafetyExamples()
    ensures !IsSafe(IntersectionState(Green, Green, Red, Red, Red, Red, Red, Red))
    ensures IsSafe(IntersectionState(Green, Red, Red, Red, Red, Red, Red, Red))
    ensures !IsSafe(IntersectionState(Red, Red, Red, Green, Green, Red, Red, Red))
    ensures IsSafe(IntersectionState(Red, Red, Red, Red, Green, Red, Red, Red))
  {
  }

  // ---------------------------------------------------------------------------
  // Transition law

  /** The colour cycle a light follows. */
  function NextColour(l: LightState): (n: LightState)
    ensures n != l
  {
    match l
    case Green => Orange
    case Orange => Red
    case Red => Green
  }

  /** A light either keeps its colour or advances one step along the cycle: no skipping
      (Green -> Red), no going back (Orange -> Green). */
  lemma ValidForLightIsStayOrAdvance(p: LightState, n: LightState)
    ensures ValidForLight(p, n) <==> (n == p || n == NextColour(p))
  {
  }

  /** Green -> Red on any light is rejected. */
  lemma SkippingOrangeRejected(prev: IntersectionState, next: IntersectionState, dt: real, i: int)
    requires 0 <= i < 8 && Lights(prev)[i] == Green && Lights(next)[i] == Red
    ensures !IsValidTransition(prev, next, dt)
  {
    assert !ValidForLight(Lights(prev)[i], Lights(next)[i]);
  }

  /** Any light leaving Orange for Red within less than `ORANGE_DURATION` is rejected. */
  lemma EarlyOrangeToRedRejected(prev: IntersectionState, next: IntersectionState, dt: real, i: int)
    requires 0 <= i < 8 && Lights(prev)[i] == Orange && Lights(next)[i] == Red
    requires dt < ORANGE_DURATION
    ensures !IsValidTransition(prev, next, dt)
  {
    assert !OrangeDwellRespected(Lights(prev)[i], Lights(next)[i], dt);
  }

  /** Validity is monotone in the elapsed time. */
  lemma ValidityMonotoneInDt(prev: IntersectionState, next: IntersectionState, dt: real, dt2: real)
    requires dt <= dt2
    requires IsValidTransition(prev, next, dt)
    ensures IsValidTransition(prev, next, dt2)
  {
    forall i | 0 <= i < 8
      ensures OrangeDwellRespected(Lights(prev)[i], Lights(next)[i], dt2)
    {
      assert OrangeDwellRespected(Lights(prev)[i], Lights(next)[i], dt);
    }
  }

  /** The elapsed time matters only when some light goes from Orange to Red. */
  lemma DtIrrelevantWithoutOrangeToRed(prev: IntersectionState, next: IntersectionState, dt: real, dt2: real)
    requires forall i :: 0 <= i < 8 ==> !(Lights(prev)[i] == Orange && Lights(next)[i] == Red)
    ensures IsValidTransition(prev, next, dt) == IsValidTransition(prev, next, dt2)
  {
    assert CheckOrangeTiming(prev, next, dt) && CheckOrangeTiming(prev, next, dt2);
  }

  /** A valid transition always lands on a safe state. */
  lemma ValidTransitionTargetSafe(prev: IntersectionState, next: IntersectionState, dt: real)
    requires IsValidTransition(prev, next, dt)
    ensures IsSafe(next)
  {
  }

  /** Standing still is valid exactly when the state is safe, for every `dt`. */
  lemma StayingValidIffSafe(s: IntersectionState, dt: real)
    ensures IsValidTransition(s, s, dt) <==> IsSafe(s)
  {
    assert CheckPerLightTransitions(s, s);
    assert CheckOrangeTiming(s, s, dt);
  }

  /** The transition relation is not symmetric: Green -> Orange is valid, the reverse
      is not. */
  lemma TransitionNotSymmetric()
    ensures IsValidTransition(Uniform(Red).(north := Green, south := Green), Uniform(Red).(north := Orange, south := Orange), 0.0)
    ensures !IsValidTransition(Uniform(Red).(north := Orange, south := Orange), Uniform(Red).(north := Green, south := Green), 0.0)
  {
    var g := Uniform(Red).(north := Green, south := Green);
    var o := Uniform(Red).(north := Orange, south := Orange);
    assert Lights(g) == [Green, Red, Green, Red, Red, Red, Red, Red];
    assert Lights(o) == [Orange, Red, Orange, Red, Red, Red, Red, Red];
    assert !ValidForLight(Lights(o)[0], Lights(g)[0]);
  }

  /** A corridor can only turn Green while the crossing corridor is fully Red. */
  lemma CrossingGuard(prev: IntersectionState, next: IntersectionState, dt: real)
    requires IsValidTransition(prev, next, dt)
    ensures (GoingGreen(prev.north, next.north) || GoingGreen(prev.south, next.south)) ==> next.east == Red && next.west == Red
    ensures (GoingGreen(prev.east, next.east) || GoingGreen(prev.west, next.west)) ==> next.north == Red && next.south == Red
  {
  }

  /** The turning-light step of `isValidTransition` repeats the turn guards of `isSafe`
      on the target state. */
  lemma TurningTransitionsRepeatTurnSafety(next: IntersectionState)
    ensures CheckTurningLightTransitions(next) == CheckTurningLightSafety(next)
  {
  }

  /** The timing example: Orange -> Red on the north light fails after one second and
      succeeds after two. */
  lemma OrangeTimingExample()
    ensures !IsValidTransition(Uniform(Red).(north := Orange), Uniform(Red), 1.0)
    ensures IsValidTransition(Uniform(Red).(north := Orange), Uniform(Red), 2.0)
  {
    var p := Uniform(Red).(north := Orange);
    assert Lights(p) == [Orange, Red, Red, Red, Red, Red, Red, Red];
    EarlyOrangeToRedRejected(p, Uniform(Red), 1.0, 0);
    NoGreenIsSafe(Uniform(Red));
  }

  // ---------------------------------------------------------------------------
  // Movement conflicts

  lemma DestinationForAgrees(from: ApproachId, m: MovementType)
    ensures DestinationFor(from, m) == DestinationApproachFor(from, m)
  {
  }

  lemma ConflictIrreflexive(a: ApproachId, m: MovementType)
    ensures !HasMovementConflict(a, m, a, m)
  {
  }

  lemma ConflictSymmetric(a: ApproachId, ma: MovementType, b: ApproachId, mb: MovementType)
    ensures HasMovementConflict(a, ma, b, mb) == HasMovementConflict(b, mb, a, ma)
  {
  }

  /** Different movements from one approach, or movements into one destination, conflict. */
  lemma SharedEndConflicts(a: ApproachId, ma: MovementType, b: ApproachId, mb: MovementType)
    requires (a == b && ma != mb) || (a != b && DestinationFor(a, ma) == DestinationFor(b, mb))
    ensures HasMovementConflict(a, ma, b, mb)
  {
  }

  /** Opposing straights share the corridor and do not conflict; opposing lefts do. */
  lemma OpposingMovements()
    ensures !HasMovementConflict(North, Straight, South, Straight)
    ensures !HasMovementConflict(East, Straight, West, Straight)
    ensures HasMovementConflict(North, Left, South, Left)
    ensures HasMovementConflict(North, Straight, East, Straight)
  {
  }

  // ---------------------------------------------------------------------------
  // areSignalGroupsConflictFree does not depend on the order of the pairs

  predicate AllPairsCompatible(ms: seq<MovementRef>) {
    forall x, y :: x in ms && y in ms ==> !Conflicts(x, y)
  }

  /** Checking each unordered pair once is the same as checking every ordered pair: the
      relation is irreflexive and symmetric. */
  lemma PairwiseIffAllPairs(ms: seq<MovementRef>)
    ensures PairwiseCompatible(ms) <==> AllPairsCompatible(ms)
  {
    if PairwiseCompatible(ms) {
      forall x, y | x in ms && y in ms
        ensures !Conflicts(x, y)
      {
        var i :| 0 <= i < |ms| && ms[i] == x;
        var j :| 0 <= j < |ms| && ms[j] == y;
        if i < j {
        } else if j < i {
          ConflictSymmetric(x.from, x.movement, y.from, y.movement);
        } else {
          ConflictIrreflexive(x.from, x.movement);
        }
      }
    }
  }

  /** The flattened list is defined exactly when every id resolves, and then holds exactly
      the movements of the listed groups. */
  lemma {:induction false} ActiveMovementsContents(c: IntersectionConfig, ids: seq<SignalGroupId>)
    ensures ActiveMovements(c, ids).Some? <==> forall id :: id in ids ==> GroupRefs(c, id).Some?
    ensures ActiveMovements(c, ids).Some? ==>
      forall x :: x in ActiveMovements(c, ids).value <==> exists id :: id in ids && GroupRefs(c, id).Some? && x in GroupRefs(c, id).value
    decreases |ids|
  {
    if ids != [] {
      var init := ids[..|ids| - 1];
      var last := ids[|ids| - 1];
      assert ids == init + [last];
      ActiveMovementsContents(c, init);
      if ActiveMovements(c, ids).Some? {
        var whole := ActiveMovements(c, ids).value;
        forall x
          ensures x in whole <==> exists id :: id in ids && GroupRefs(c, id).Some? && x in GroupRefs(c, id).value
        {
          if x in whole {
            if x in ActiveMovements(c, init).value {
              var id :| id in init && GroupRefs(c, id).Some? && x in GroupRefs(c, id).value;
              assert id in ids;
            } else {
              assert x in GroupRefs(c, last).value;
            }
          }
          if exists id :: id in ids && GroupRefs(c, id).Some? && x in GroupRefs(c, id).value {
            var id :| id in ids && GroupRefs(c, id).Some? && x in GroupRefs(c, id).value;
            if id != last {
              assert id in init;
            }
          }
        }
      }
    }
  }

  /** The verdict depends only on the SET of active ids: order and repetition do not matter. */
  lemma ConflictFreeOrderIndependent(c: IntersectionConfig, ids: seq<SignalGroupId>, ids2: seq<SignalGroupId>)
    requires forall id :: id in ids <==> id in ids2
    ensures ConflictFree(c, ids) == ConflictFree(c, ids2)
  {
    ActiveMovementsContents(c, ids);
    ActiveMovementsContents(c, ids2);
    if ActiveMovements(c, ids).Some? && ActiveMovements(c, ids2).Some? {
      var ms := ActiveMovements(c, ids).value;
      var ms2 := ActiveMovements(c, ids2).value;
      assert forall x :: x in ms <==> x in ms2;
      PairwiseIffAllPairs(ms);
      PairwiseIffAllPairs(ms2);
    }
  }

  /** With a valid configuration, no active group means no conflict. */
  lemma NoActiveGroupsConflictFree(c: IntersectionConfig)
    requires ConfigValid(c)
    ensures ConflictFree(c, [])
  {
  }

  // ---------------------------------------------------------------------------
  // The default layout and the signal-group example

  /** The twelve lanes of the default layout, approach-major. */
  function DefaultLanes(): (ls: seq<LaneConfig>)
    ensures |ls| == 12
  {
    seq(12, k requires 0 <= k < 12 => DefaultLane(ApproachAt(k / 3), k % 3))
  }

  predicate HasDefaultLanes(c: IntersectionConfig) {
    forall i :: 0 <= i < 4 ==> c.approaches[i].lanes == DefaultApproachFor(ApproachAt(i)).lanes
  }

  lemma DefaultLaneIds(k: int)
    requires 0 <= k < 12
    ensures DefaultLanes()[k].id == 100 * (k / 3) + k % 3
    ensures DefaultLanes()[k].allowedMovements != []
  {
    assert ApproachIndex(ApproachAt(k / 3)) == k / 3;
  }

  lemma AllLanesOfDefaultLayout(c: IntersectionConfig)
    requires HasDefaultLanes(c)
    ensures AllLanes(c) == DefaultLanes()
  {
    var ls := DefaultLanes();
    assert LanesBefore(c, 1) == ls[..3];
    assert LanesBefore(c, 2) == ls[..6];
    assert LanesBefore(c, 3) == ls[..9];
  }

  /** The default lanes are well formed and carry ids 100 * approach + index. */
  lemma DefaultLanesWellFormed(c: IntersectionConfig)
    requires HasDefaultLanes(c)
    ensures ApproachesNonEmpty(c)
    ensures LanesWellFormed(AllLanes(c))
    ensures forall a: ApproachId, i :: 0 <= i < 3 ==> LaneIdFor(a, i) in AllLaneIds(c)
  {
    var ls := DefaultLanes();
    AllLanesOfDefaultLayout(c);
    forall i, j | 0 <= i < j < 12
      ensures ls[i].id != ls[j].id
    {
      DefaultLaneIds(i);
      DefaultLaneIds(j);
    }
    forall i | 0 <= i < 12
      ensures ls[i].allowedMovements != []
    {
      DefaultLaneIds(i);
    }
    forall a: ApproachId, i | 0 <= i < 3
      ensures LaneIdFor(a, i) in AllLaneIds(c)
    {
      var k := ApproachIndex(a) * 3 + i;
      assert k / 3 == ApproachIndex(a) && k % 3 == i;
      assert ApproachAt(k / 3) == a;
      assert ls[k] in AllLanes(c);
    }
  }

  /** `makeDefaultIntersectionConfig` passes `validateConfig`. */
  lemma DefaultConfigValid(c: IntersectionConfig)
    requires HasDefaultLanes(c) && c.signalGroups == []
    ensures ConfigValid(c)
  {
    DefaultLanesWellFormed(c);
  }

  /** The search for a lane's approach stops at the first entry that has the lane. */
  lemma {:induction false} FindApproachFirst(approaches: seq<ApproachConfig>, id: LaneId, k: nat)
    requires k < |approaches| && HasLane(approaches[k].lanes, id)
    requires forall j :: 0 <= j < k ==> !HasLane(approaches[j].lanes, id)
    ensures FindApproachIn(approaches, id) == Some(approaches[k].id)
  {
    if k > 0 {
      assert approaches[1..][k - 1] == approaches[k];
      FindApproachFirst(approaches[1..], id, k - 1);
    }
  }

  lemma DefaultApproachLaneIds(j: nat, l: nat)
    requires j < 4 && l < 3
    ensures DefaultApproachFor(ApproachAt(j)).lanes[l].id == 100 * j + l
  {
    assert ApproachIndex(ApproachAt(j)) == j;
  }

  predicate HasStandardIds(c: IntersectionConfig) {
    forall i :: 0 <= i < 4 ==> c.approaches[i].id == ApproachAt(i)
  }

  /** In the default layout, lane 0 of an approach resolves to that approach. */
  lemma DefaultLaneResolves(c: IntersectionConfig, a: ApproachId)
    requires HasDefaultLanes(c) && HasStandardIds(c)
    ensures FindApproachForLane(c, LaneIdFor(a, 0)) == Some(a)
  {
    var k := ApproachIndex(a);
    DefaultApproachLaneIds(k, 0);
    assert ApproachAt(k) == a;
    assert HasLane(c.approaches[k].lanes, LaneIdFor(a, 0)) by {
      assert c.approaches[k].lanes[0] in c.approaches[k].lanes;
    }
    forall j | 0 <= j < k
      ensures !HasLane(c.approaches[j].lanes, LaneIdFor(a, 0))
    {
      forall l | 0 <= l < 3
        ensures c.approaches[j].lanes[l].id != 100 * k
      {
        DefaultApproachLaneIds(j, l);
      }
    }
    FindApproachFirst(c.approaches, LaneIdFor(a, 0), k);
  }

  lemma LaneRefsSnoc(c: IntersectionConfig, lanes: seq<LaneId>, lane: LaneId, ms: seq<MovementType>, p: seq<MovementRef>, a: ApproachId)
    requires LaneRefs(c, lanes, ms) == Some(p)
    requires FindApproachForLane(c, lane) == Some(a)
    ensures LaneRefs(c, lanes + [lane], ms) == Some(p + Refs(a, ms))
  {
    assert (lanes + [lane])[..|lanes|] == lanes;
  }

  lemma ActiveMovementsSnoc(c: IntersectionConfig, ids: seq<SignalGroupId>, id: SignalGroupId, p: seq<MovementRef>, q: seq<MovementRef>)
    requires ActiveMovements(c, ids) == Some(p)
    requires GroupRefs(c, id) == Some(q)
    ensures ActiveMovements(c, ids + [id]) == Some(p + q)
  {
    assert (ids + [id])[..|ids|] == ids;
  }

  /** A two-lane group whose lanes resolve contributes one entry per lane. */
  lemma TwoLaneGroupRefs(c: IntersectionConfig, id: SignalGroupId, g: SignalGroupConfig, a1: ApproachId, a2: ApproachId)
    requires FindGroup(c.signalGroups, id) == Some(g)
    requires |g.controlledLanes| == 2 && g.greenMovements == [Straight]
    requires FindApproachForLane(c, g.controlledLanes[0]) == Some(a1)
    requires FindApproachForLane(c, g.controlledLanes[1]) == Some(a2)
    ensures GroupRefs(c, id) == Some([MovementRef(a1, Straight), MovementRef(a2, Straight)])
  {
    var lanes := g.controlledLanes;
    var ms := [Straight];
    assert Refs(a1, ms) == [MovementRef(a1, Straight)];
    assert Refs(a2, ms) == [MovementRef(a2, Straight)];
    LaneRefsSnoc(c, [], lanes[0], ms, [], a1);
    assert [] + [lanes[0]] == [lanes[0]];
    assert [] + Refs(a1, ms) == Refs(a1, ms);
    LaneRefsSnoc(c, [lanes[0]], lanes[1], ms, Refs(a1, ms), a2);
    assert [lanes[0]] + [lanes[1]] == lanes;
    assert Refs(a1, ms) + Refs(a2, ms) == [MovementRef(a1, Straight), MovementRef(a2, Straight)];
  }

  /** Group 1: lane 0 of north and south, straight; group 2: lane 0 of east and west,
      straight. */
  const NorthSouthGroup := SignalGroupConfig(1, [LaneIdFor(North, 0), LaneIdFor(South, 0)], [Straight], 5.0, 3.0)
  const EastWestGroup := SignalGroupConfig(2, [LaneIdFor(East, 0), LaneIdFor(West, 0)], [Straight], 5.0, 3.0)

  predicate IsTwoGroupConfig(c: IntersectionConfig) {
    HasDefaultLanes(c) && HasStandardIds(c) && c.signalGroups == [NorthSouthGroup, EastWestGroup]
  }

  /** The default layout with the two groups above. */
  function TwoGroupConfig(): (c: IntersectionConfig)
    ensures IsTwoGroupConfig(c)
  {
    IntersectionConfig(
      [DefaultApproachFor(North), DefaultApproachFor(East), DefaultApproachFor(South), DefaultApproachFor(West)],
      [NorthSouthGroup, EastWestGroup],
      [])
  }

  lemma TwoGroupConfigValid(c: IntersectionConfig)
    requires IsTwoGroupConfig(c)
    ensures ConfigValid(c)
  {
    DefaultLanesWellFormed(c);
  }

  lemma TwoGroupRefs(c: IntersectionConfig)
    requires IsTwoGroupConfig(c)
    ensures GroupRefs(c, 1) == Some([MovementRef(North, Straight), MovementRef(South, Straight)])
    ensures GroupRefs(c, 2) == Some([MovementRef(East, Straight), MovementRef(West, Straight)])
    ensures GroupRefs(c, 99) == None
  {
    assert GroupRefs(c, 1) == Some([MovementRef(North, Straight), MovementRef(South, Straight)]) by {
      DefaultLaneResolves(c, North);
      DefaultLaneResolves(c, South);
      TwoLaneGroupRefs(c, 1, NorthSouthGroup, North, South);
    }
    assert GroupRefs(c, 2) == Some([MovementRef(East, Straight), MovementRef(West, Straight)]) by {
      DefaultLaneResolves(c, East);
      DefaultLaneResolves(c, West);
      TwoLaneGroupRefs(c, 2, EastWestGroup, East, West);
    }
  }

  /** North/south straights together with east/west straights are rejected. */
  lemma CrossingGroupsRejected(c: IntersectionConfig)
    requires GroupRefs(c, 1) == Some([MovementRef(North, Straight), MovementRef(South, Straight)])
    requires GroupRefs(c, 2) == Some([MovementRef(East, Straight), MovementRef(West, Straight)])
    ensures !ConflictFree(c, [1, 2])
  {
    var ns := [MovementRef(North, Straight), MovementRef(South, Straight)];
    var ew := [MovementRef(East, Straight), MovementRef(West, Straight)];
    ActiveMovementsSnoc(c, [], 1, [], ns);
    assert [] + [1 as SignalGroupId] == [1];
    assert [] + ns == ns;
    ActiveMovementsSnoc(c, [1], 2, ns, ew);
    assert [1 as SignalGroupId] + [2] == [1, 2];
    assert Conflicts((ns + ew)[0], (ns + ew)[2]);
  }

  /** The north/south group alone is conflict-free. */
  lemma SingleGroupAccepted(c: IntersectionConfig)
    requires GroupRefs(c, 1) == Some([MovementRef(North, Straight), MovementRef(South, Straight)])
    ensures ActiveMovements(c, [1]).Some? && PairwiseCompatible(ActiveMovements(c, [1]).value)
  {
    var ns := [MovementRef(North, Straight), MovementRef(South, Straight)];
    ActiveMovementsSnoc(c, [], 1, [], ns);
    assert [] + [1 as SignalGroupId] == [1];
    assert [] + ns == ns;
    forall i, j | 0 <= i < j < |ns|
      ensures !Conflicts(ns[i], ns[j])
    {
      assert i == 0 && j == 1;
      OpposingMovements();
    }
  }

  /** Crossing straights conflict, one group alone does not, an unknown group fails
      closed. */
  lemma SignalGroupExample(c: IntersectionConfig)
    requires IsTwoGroupConfig(c)
    ensures !ConflictFree(c, [1, 2])
    ensures ConflictFree(c, [1])
    ensures !ConflictFree(c, [99])
  {
    TwoGroupConfigValid(c);
    TwoGroupRefs(c);
    CrossingGroupsRejected(c);
    SingleGroupAccepted(c);
    assert [99][..0] == [];
  }
}
