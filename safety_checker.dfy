/** The safety kernel (src/SafetyChecker.cpp): static safety of a light pattern, validity
    of a step between two patterns, validation of a configuration, and conflict checks
    between signal groups. */
module SafetyChecker {
  import opened Wrappers
  import opened Intersection
  import opened Configuration

  /** Minimum dwell of a light in Orange before it may turn Red, in seconds. */
  const ORANGE_DURATION: real := 2.0

  // ---------------------------------------------------------------------------
  // isSafe

  /** The source names this helper `hasConflictingGreens`, but it holds when there is NO
      conflict: it is false exactly when a north/south light and an east/west light are
      both Green. */
  predicate NoCrossCorridorGreens(s: IntersectionState) {
    var nsGreen := s.north == Green || s.south == Green;
    var ewGreen := s.east == Green || s.west == Green;
    !(nsGreen && ewGreen)
  }

  /** A right-turn light may not be Green while the through light it crosses is active. */
  predicate CheckTurningLightSafety(s: IntersectionState) {
    !(s.turnSouthEast == Green && IsActive(s.west)) &&
    !(s.turnNorthWest == Green && IsActive(s.east)) &&
    !(s.turnWestSouth == Green && IsActive(s.north)) &&
    !(s.turnEastNorth == Green && IsActive(s.south))
  }

  predicate IsSafe(s: IntersectionState) {
    NoCrossCorridorGreens(s) && CheckTurningLightSafety(s)
  }

  // ---------------------------------------------------------------------------
  // isValidTransition

  predicate ValidForLight(p: LightState, n: LightState) {
    p == n || (p == Green && n == Orange) || (p == Orange && n == Red) || (p == Red && n == Green)
  }

  predicate CheckPerLightTransitions(prev: IntersectionState, next: IntersectionState) {
    forall i :: 0 <= i < 8 ==> ValidForLight(Lights(prev)[i], Lights(next)[i])
  }

  predicate OrangeDwellRespected(p: LightState, n: LightState, dt: real) {
    !((p == Orange && n == Red) && dt < ORANGE_DURATION)
  }

  predicate CheckOrangeTiming(prev: IntersectionState, next: IntersectionState, dt: real) {
    forall i :: 0 <= i < 8 ==> OrangeDwellRespected(Lights(prev)[i], Lights(next)[i], dt)
  }

  predicate GoingGreen(p: LightState, n: LightState) {
    p != Green && n == Green
  }

  /** A corridor may only turn Green while the crossing corridor is fully Red in `next`. */
  predicate CheckCrossingLightSafety(prev: IntersectionState, next: IntersectionState) {
    var nsGoingGreen := GoingGreen(prev.north, next.north) || GoingGreen(prev.south, next.south);
    var ewGoingGreen := GoingGreen(prev.east, next.east) || GoingGreen(prev.west, next.west);
    !(nsGoingGreen && (IsActive(next.east) || IsActive(next.west))) &&
    !(ewGoingGreen && (IsActive(next.north) || IsActive(next.south)))
  }

  predicate CheckTurningLightTransitions(next: IntersectionState) {
    !(next.turnSouthEast == Green && IsActive(next.west)) &&
    !(next.turnNorthWest == Green && IsActive(next.east)) &&
    !(next.turnWestSouth == Green && IsActive(next.north)) &&
    !(next.turnEastNorth == Green && IsActive(next.south))
  }

  predicate IsValidTransition(prev: IntersectionState, next: IntersectionState, dt: real) {
    CheckPerLightTransitions(prev, next) &&
    CheckOrangeTiming(prev, next, dt) &&
    IsSafe(next) &&
    CheckCrossingLightSafety(prev, next) &&
    CheckTurningLightTransitions(next)
  }

  // ---------------------------------------------------------------------------
  // Movement conflicts

  /** `destinationFor`: the kernel's own copy of the turn geometry. */
  function DestinationFor(from: ApproachId, m: MovementType): ApproachId {
    match from
    case North => if m == Straight then South else if m == Left then East else West
    case East => if m == Straight then West else if m == Left then South else North
    case South => if m == Straight then North else if m == Left then West else East
    case West => if m == Straight then East else if m == Left then North else South
  }

  predicate IsNorthSouth(a: ApproachId) {
    a == North || a == South
  }

  /** Enters and leaves on the north/south axis. */
  predicate IsInNorthSouthCorridor(from: ApproachId, m: MovementType) {
    IsNorthSouth(from) && IsNorthSouth(DestinationFor(from, m))
  }

  predicate Opposite(a: ApproachId, b: ApproachId) {
    (a == North && b == South) || (a == South && b == North) ||
    (a == East && b == West) || (a == West && b == East)
  }

  predicate HasMovementConflict(fromA: ApproachId, moveA: MovementType, fromB: ApproachId, moveB: MovementType) {
    if fromA == fromB && moveA == moveB then false
    else if fromA == fromB then true
    else if DestinationFor(fromA, moveA) == DestinationFor(fromB, moveB) then true
    else if Opposite(fromA, fromB) && moveA == Left && moveB == Left then true
    else if IsInNorthSouthCorridor(fromA, moveA) != IsInNorthSouthCorridor(fromB, moveB)
         && (moveA == Straight || moveB == Straight) then true
    else false
  }

  // ---------------------------------------------------------------------------
  // Configuration validation

  /** Every approach has at least one lane. */
  predicate ApproachesNonEmpty(c: IntersectionConfig) {
    c.approaches[0].lanes != [] && c.approaches[1].lanes != [] &&
    c.approaches[2].lanes != [] && c.approaches[3].lanes != []
  }

  /** The lanes of the first `i` approaches, in the order the validator visits them. */
  function LanesBefore(c: IntersectionConfig, i: nat): seq<LaneConfig>
    requires i <= 4
  {
    if i == 0 then [] else LanesBefore(c, i - 1) + c.approaches[i - 1].lanes
  }

  function AllLanes(c: IntersectionConfig): seq<LaneConfig> {
    LanesBefore(c, 4)
  }

  function AllLaneIds(c: IntersectionConfig): set<LaneId> {
    set l | l in AllLanes(c) :: l.id
  }

  /** Ids are pairwise distinct and every lane allows some movement. */
  predicate LanesWellFormed(lanes: seq<LaneConfig>) {
    (forall i :: 0 <= i < |lanes| ==> lanes[i].allowedMovements != []) &&
    (forall i, j :: 0 <= i < j < |lanes| ==> lanes[i].id != lanes[j].id)
  }

  predicate GroupIdsUnique(groups: seq<SignalGroupConfig>) {
    forall i, j :: 0 <= i < j < |groups| ==> groups[i].id != groups[j].id
  }

  predicate GroupWellFormed(c: IntersectionConfig, g: SignalGroupConfig) {
    g.controlledLanes != [] && g.greenMovements != [] &&
    forall lane :: lane in g.controlledLanes ==> lane in AllLaneIds(c)
  }

  /** The configuration invariants: every approach has a lane, every lane a movement, lane
      ids (across all approaches) and group ids are unique, and every group controls
      existing lanes with a non-empty set of movements. */
  predicate ConfigValid(c: IntersectionConfig) {
    ApproachesNonEmpty(c) &&
    LanesWellFormed(AllLanes(c)) &&
    GroupIdsUnique(c.signalGroups) &&
    (forall g :: g in c.signalGroups ==> GroupWellFormed(c, g))
  }

  /** The lane half of `validateConfig`: returns whether the approaches and lanes are
      well formed and, if so, the set of lane ids seen. */
  method ValidateLanes(c: IntersectionConfig) returns (ok: bool, seen: set<LaneId>)
    ensures ok == (ApproachesNonEmpty(c) && LanesWellFormed(AllLanes(c)))
    ensures ok ==> seen == AllLaneIds(c)
  {
    seen := {};
    var i := 0;
    while i < 4
      invariant 0 <= i <= 4
      invariant forall a :: 0 <= a < i ==> c.approaches[a].lanes != []
      invariant LanesWellFormed(LanesBefore(c, i))
      invariant seen == set l | l in LanesBefore(c, i) :: l.id
    {
      var lanes := c.approaches[i].lanes;
      if lanes == [] {
        return false, seen;
      }
      var lanesOk;
      lanesOk, seen := ValidateApproachLanes(LanesBefore(c, i), lanes, seen);
      if !lanesOk {
        assert lanes[..|lanes|] == lanes;
        LanesWellFormedPrefix(c, i + 1, |lanes|);
        return false, seen;
      }
      i := i + 1;
    }
    return true, seen;
  }

  /** The lane loop of one approach: every lane needs a movement and an id not seen
      among the lanes visited before it. */
  method ValidateApproachLanes(ghost visited: seq<LaneConfig>, lanes: seq<LaneConfig>, seen0: set<LaneId>)
    returns (ok: bool, seen: set<LaneId>)
    requires LanesWellFormed(visited) && seen0 == set l | l in visited :: l.id
    ensures ok == LanesWellFormed(visited + lanes)
    ensures ok ==> seen == set l | l in visited + lanes :: l.id
  {
    seen := seen0;
    var j := 0;
    while j < |lanes|
      invariant 0 <= j <= |lanes|
      invariant LanesWellFormed(visited + lanes[..j])
      invariant seen == set l | l in visited + lanes[..j] :: l.id
    {
      assert visited + lanes[..j + 1] == (visited + lanes[..j]) + [lanes[j]];
      if lanes[j].allowedMovements == [] {
        assert (visited + lanes[..j + 1])[|visited| + j] == lanes[j];
        assert visited + lanes == (visited + lanes[..j + 1]) + lanes[j + 1..];
        BadPrefixSpoils(visited + lanes, visited + lanes[..j + 1]);
        return false, seen;
      }
      if lanes[j].id in seen {
        ghost var p :| 0 <= p < |visited + lanes[..j]| && (visited + lanes[..j])[p].id == lanes[j].id;
        assert (visited + lanes[..j + 1])[p].id == (visited + lanes[..j + 1])[|visited| + j].id;
        assert visited + lanes == (visited + lanes[..j + 1]) + lanes[j + 1..];
        BadPrefixSpoils(visited + lanes, visited + lanes[..j + 1]);
        return false, seen;
      }
      LaneIdsSnoc(visited + lanes[..j], lanes[j]);
      seen := seen + {lanes[j].id};
      j := j + 1;
    }
    assert lanes[..j] == lanes;
    ok := true;
  }

  lemma LaneIdsSnoc(lanes: seq<LaneConfig>, l: LaneConfig)
    ensures (set x | x in lanes + [l] :: x.id) == (set x | x in lanes :: x.id) + {l.id}
  {
    assert forall x :: x in lanes + [l] <==> x in lanes || x == l;
  }

  lemma BadPrefixSpoils(lanes: seq<LaneConfig>, prefix: seq<LaneConfig>)
    requires prefix <= lanes && !LanesWellFormed(prefix)
    ensures !LanesWellFormed(lanes)
  {
  }

  lemma LanesWellFormedPrefix(c: IntersectionConfig, i: nat, k: nat)
    requires 0 < i <= 4 && k <= |c.approaches[i - 1].lanes|
    requires !LanesWellFormed(LanesBefore(c, i - 1) + c.approaches[i - 1].lanes[..k])
    ensures !LanesWellFormed(AllLanes(c))
  {
    LanesBeforeIsPrefix(c, i, 4);
    assert LanesBefore(c, i - 1) + c.approaches[i - 1].lanes[..k] <= LanesBefore(c, i);
  }

  lemma {:induction false} LanesBeforeIsPrefix(c: IntersectionConfig, i: nat, j: nat)
    requires i <= j <= 4
    ensures LanesBefore(c, i) <= LanesBefore(c, j)
  {
    if i < j {
      LanesBeforeIsPrefix(c, i, j - 1);
    }
  }

  /** `validateConfig`: decides `ConfigValid` with the source's loops and seen-sets. */
  method ValidateConfig(c: IntersectionConfig) returns (ok: bool)
    ensures ok == ConfigValid(c)
  {
    var lanesOk, seenLanes := ValidateLanes(c);
    if !lanesOk {
      return false;
    }
    var seenGroups: set<SignalGroupId> := {};
    var k := 0;
    while k < |c.signalGroups|
      invariant 0 <= k <= |c.signalGroups|
      invariant seenGroups == set g | g in c.signalGroups[..k] :: g.id
      invariant GroupIdsUnique(c.signalGroups[..k])
      invariant forall g :: g in c.signalGroups[..k] ==> GroupWellFormed(c, g)
    {
      var group := c.signalGroups[k];
      assert c.signalGroups[..k + 1] == c.signalGroups[..k] + [group];
      if group.id in seenGroups {
        ghost var p :| 0 <= p < k && c.signalGroups[p].id == group.id;
        return false;
      }
      seenGroups := seenGroups + {group.id};
      if group.controlledLanes == [] || group.greenMovements == [] {
        assert group in c.signalGroups;
        return false;
      }
      var m := 0;
      while m < |group.controlledLanes|
        invariant 0 <= m <= |group.controlledLanes|
        invariant forall q :: 0 <= q < m ==> group.controlledLanes[q] in AllLaneIds(c)
      {
        if group.controlledLanes[m] !in seenLanes {
          assert group in c.signalGroups;
          return false;
        }
        m := m + 1;
      }
      k := k + 1;
    }
    assert c.signalGroups[..k] == c.signalGroups;
    return true;
  }

  // ---------------------------------------------------------------------------
  // The checker object and the signal-group conflict check

  /** A constructed checker: its configuration and the cached validation verdict. */
  datatype CheckerState = CheckerState(config: IntersectionConfig, configValid: bool)

  type Checker = c: CheckerState | c.configValid == ConfigValid(c.config)
    witness CheckerState(EmptyConfig, false)

  /** `SafetyChecker(config)`: validates the configuration once. */
  method NewChecker(config: IntersectionConfig) returns (checker: Checker)
    ensures checker.config == config
    ensures checker.configValid == ConfigValid(config)
  {
    var valid := ValidateConfig(config);
    checker := CheckerState(config, valid);
  }

  datatype MovementRef = MovementRef(from: ApproachId, movement: MovementType)

  predicate Conflicts(x: MovementRef, y: MovementRef) {
    HasMovementConflict(x.from, x.movement, y.from, y.movement)
  }

  /** The first signal group with this id (`std::find_if`). */
  function FindGroup(groups: seq<SignalGroupConfig>, id: SignalGroupId): (r: Option<SignalGroupConfig>)
    ensures r.Some? ==> r.value in groups && r.value.id == id
    ensures r.None? <==> forall g :: g in groups ==> g.id != id
  {
    if groups == [] then None
    else if groups[0].id == id then Some(groups[0])
    else FindGroup(groups[1..], id)
  }

  /** The first lane with this id in a list of lanes. */
  predicate HasLane(lanes: seq<LaneConfig>, id: LaneId) {
    exists l :: l in lanes && l.id == id
  }

  /** `tryFindApproachForLane`: the id of the first approach entry (in array order) that
      has a lane with this id. */
  function FindApproachIn(approaches: seq<ApproachConfig>, id: LaneId): (r: Option<ApproachId>)
    ensures r.None? <==> forall e :: e in approaches ==> !HasLane(e.lanes, id)
    ensures r.Some? ==> exists e :: e in approaches && HasLane(e.lanes, id) && e.id == r.value
  {
    if approaches == [] then None
    else if HasLane(approaches[0].lanes, id) then Some(approaches[0].id)
    else FindApproachIn(approaches[1..], id)
  }

  function FindApproachForLane(c: IntersectionConfig, id: LaneId): Option<ApproachId> {
    FindApproachIn(c.approaches, id)
  }

  /** One entry per green movement of a lane on approach `a`. */
  function Refs(a: ApproachId, ms: seq<MovementType>): (r: seq<MovementRef>)
    ensures |r| == |ms| && forall k :: 0 <= k < |ms| ==> r[k] == MovementRef(a, ms[k])
  {
    seq(|ms|, k requires 0 <= k < |ms| => MovementRef(a, ms[k]))
  }

  /** The movements a group's lanes contribute, lane by lane; None if a lane is unknown. */
  function LaneRefs(c: IntersectionConfig, lanes: seq<LaneId>, ms: seq<MovementType>): Option<seq<MovementRef>>
  {
    if lanes == [] then Some([])
    else match LaneRefs(c, lanes[..|lanes| - 1], ms)
      case None => None
      case Some(prefix) =>
        match FindApproachForLane(c, lanes[|lanes| - 1])
        case None => None
        case Some(a) => Some(prefix + Refs(a, ms))
  }

  function GroupRefs(c: IntersectionConfig, id: SignalGroupId): Option<seq<MovementRef>> {
    match FindGroup(c.signalGroups, id)
    case None => None
    case Some(g) => LaneRefs(c, g.controlledLanes, g.greenMovements)
  }

  /** The flattened (approach, movement) list of the active groups; None when a group id
      or a lane id cannot be resolved. */
  function ActiveMovements(c: IntersectionConfig, ids: seq<SignalGroupId>): Option<seq<MovementRef>>
  {
    if ids == [] then Some([])
    else match ActiveMovements(c, ids[..|ids| - 1])
      case None => None
      case Some(prefix) =>
        match GroupRefs(c, ids[|ids| - 1])
        case None => None
        case Some(refs) => Some(prefix + refs)
  }

  predicate PairwiseCompatible(ms: seq<MovementRef>) {
    forall i, j :: 0 <= i < j < |ms| ==> !Conflicts(ms[i], ms[j])
  }

  /** What `areSignalGroupsConflictFree` decides. */
  ghost predicate ConflictFree(c: IntersectionConfig, ids: seq<SignalGroupId>) {
    ConfigValid(c) && ActiveMovements(c, ids).Some? && PairwiseCompatible(ActiveMovements(c, ids).value)
  }

  lemma {:induction false} LaneRefsNonePropagates(c: IntersectionConfig, lanes: seq<LaneId>, ms: seq<MovementType>, k: nat)
    requires k <= |lanes| && LaneRefs(c, lanes[..k], ms).None?
    ensures LaneRefs(c, lanes, ms).None?
    decreases |lanes|
  {
    if k < |lanes| {
      assert lanes[..|lanes| - 1][..k] == lanes[..k];
      LaneRefsNonePropagates(c, lanes[..|lanes| - 1], ms, k);
    } else {
      assert lanes[..k] == lanes;
    }
  }

  lemma {:induction false} ActiveMovementsNonePropagates(c: IntersectionConfig, ids: seq<SignalGroupId>, k: nat)
    requires k <= |ids| && ActiveMovements(c, ids[..k]).None?
    ensures ActiveMovements(c, ids).None?
    decreases |ids|
  {
    if k < |ids| {
      assert ids[..|ids| - 1][..k] == ids[..k];
      ActiveMovementsNonePropagates(c, ids[..|ids| - 1], k);
    } else {
      assert ids[..k] == ids;
    }
  }

  /** The movements one group contributes, lane by lane (the middle loops of
      `areSignalGroupsConflictFree`); None when a lane cannot be resolved. */
  method CollectLaneRefs(c: IntersectionConfig, lanes: seq<LaneId>, ms: seq<MovementType>) returns (r: Option<seq<MovementRef>>)
    ensures r == LaneRefs(c, lanes, ms)
  {
    var acc: seq<MovementRef> := [];
    var li := 0;
    while li < |lanes|
      invariant 0 <= li <= |lanes|
      invariant LaneRefs(c, lanes[..li], ms) == Some(acc)
    {
      assert lanes[..li + 1][..li] == lanes[..li];
      var approach := FindApproachForLane(c, lanes[li]);
      if approach.None? {
        LaneRefsNonePropagates(c, lanes, ms, li + 1);
        return None;
      }
      acc := PushRefs(approach.value, ms, acc);
      li := li + 1;
    }
    assert lanes[..li] == lanes;
    return Some(acc);
  }

  /** The innermost loop: one entry per green movement of a lane on approach `a`. */
  method PushRefs(a: ApproachId, ms: seq<MovementType>, acc0: seq<MovementRef>) returns (acc: seq<MovementRef>)
    ensures acc == acc0 + Refs(a, ms)
  {
    acc := acc0;
    var mi := 0;
    while mi < |ms|
      invariant 0 <= mi <= |ms|
      invariant acc == acc0 + Refs(a, ms[..mi])
    {
      assert Refs(a, ms[..mi + 1]) == Refs(a, ms[..mi]) + [MovementRef(a, ms[mi])];
      acc := acc + [MovementRef(a, ms[mi])];
      mi := mi + 1;
    }
    assert ms[..mi] == ms;
  }

  /** The flattening loop of `areSignalGroupsConflictFree`. */
  method CollectActiveMovements(c: IntersectionConfig, activeIds: seq<SignalGroupId>) returns (r: Option<seq<MovementRef>>)
    ensures r == ActiveMovements(c, activeIds)
  {
    var active: seq<MovementRef> := [];
    var k := 0;
    while k < |activeIds|
      invariant 0 <= k <= |activeIds|
      invariant ActiveMovements(c, activeIds[..k]) == Some(active)
    {
      assert activeIds[..k + 1][..k] == activeIds[..k];
      var group := FindGroup(c.signalGroups, activeIds[k]);
      if group.None? {
        ActiveMovementsNonePropagates(c, activeIds, k + 1);
        return None;
      }
      var refs := CollectLaneRefs(c, group.value.controlledLanes, group.value.greenMovements);
      if refs.None? {
        ActiveMovementsNonePropagates(c, activeIds, k + 1);
        return None;
      }
      active := active + refs.value;
      k := k + 1;
    }
    assert activeIds[..k] == activeIds;
    return Some(active);
  }

  /** The pair loop of `areSignalGroupsConflictFree`: every unordered pair once. */
  method NoPairConflicts(active: seq<MovementRef>) returns (ok: bool)
    ensures ok == PairwiseCompatible(active)
  {
    var i := 0;
    while i < |active|
      invariant 0 <= i <= |active|
      invariant forall p, q :: 0 <= p < i && p < q < |active| ==> !Conflicts(active[p], active[q])
    {
      var j := i + 1;
      while j < |active|
        invariant i + 1 <= j <= |active|
        invariant forall q :: i < q < j ==> !Conflicts(active[i], active[q])
      {
        if HasMovementConflict(active[i].from, active[i].movement, active[j].from, active[j].movement) {
          return false;
        }
        j := j + 1;
      }
      i := i + 1;
    }
    return true;
  }

  /** `areSignalGroupsConflictFree`: fails closed on an invalid configuration, an unknown
      group or an unknown lane; otherwise checks every pair of the flattened list. */
  method AreSignalGroupsConflictFree(checker: Checker, activeIds: seq<SignalGroupId>) returns (ok: bool)
    ensures ok == ConflictFree(checker.config, activeIds)
  {
    if !checker.configValid {
      return false;
    }
    var active := CollectActiveMovements(checker.config, activeIds);
    if active.None? {
      return false;
    }
    ok := NoPairConflicts(active.value);
  }
}
