/** Reading an intersection configuration from a JSON document
    (src/IntersectionConfigJson.cpp). Turning text into a tree is the JSON library's job
    and is not modelled: the parser receives the tree, or `None` when the text was not
    JSON. Each step of the parser is a function below, and each loop of the source is a
    method proved to compute that function. */
module ConfigJson {
  import opened Wrappers
  import opened Configuration

  // ---------------------------------------------------------------------------
  // Names of approaches and movements

  function ApproachToString(a: ApproachId): string {
    match a
    case North => "north"
    case East => "east"
    case South => "south"
    case West => "west"
  }

  /** `approachFromString`: exactly the four lower-case names are accepted, each giving
      back the approach it names. */
  function ApproachFromString(s: string): (r: Option<ApproachId>)
    ensures forall a :: r == Some(a) <==> s == ApproachToString(a)
  {
    if s == "north" then Some(North)
    else if s == "east" then Some(East)
    else if s == "south" then Some(South)
    else if s == "west" then Some(West)
    else None
  }

  function MovementToString(m: MovementType): string {
    match m
    case Straight => "straight"
    case Left => "left"
    case Right => "right"
  }

  /** `movementFromString`: exactly the three lower-case names are accepted, each giving
      back the movement it names. */
  function MovementFromString(s: string): (r: Option<MovementType>)
    ensures forall m :: r == Some(m) <==> s == MovementToString(m)
  {
    if s == "straight" then Some(Straight)
    else if s == "left" then Some(Left)
    else if s == "right" then Some(Right)
    else None
  }

  // ---------------------------------------------------------------------------
  // The document tree

  /** A parsed JSON value. Non-negative integers are `JUnsigned` (what the library calls
      an unsigned number), negative ones `JInteger`; objects have unique keys. */
  datatype Json =
    | JNull
    | JBool(b: bool)
    | JUnsigned(n: nat)
    | JInteger(i: int)
    | JFloat(r: real)
    | JString(s: string)
    | JArray(items: seq<Json>)
    | JObject(fields: map<string, Json>)

  predicate Has(j: Json, key: string) {
    j.JObject? && key in j.fields
  }

  function Field(j: Json, key: string): Json
    requires Has(j, key)
  {
    j.fields[key]
  }

  predicate ArrayField(j: Json, key: string) {
    Has(j, key) && Field(j, key).JArray?
  }

  predicate StringField(j: Json, key: string) {
    Has(j, key) && Field(j, key).JString?
  }

  predicate UnsignedField(j: Json, key: string) {
    Has(j, key) && Field(j, key).JUnsigned?
  }

  function Items(j: Json, key: string): seq<Json>
    requires ArrayField(j, key)
  {
    Field(j, key).items
  }

  /** `get<uint16_t>()` of an unsigned number keeps its low 16 bits. */
  function ToUint16(n: nat): Uint16 {
    n % 0x1_0000
  }

  /** `value(key, default)` read as a boolean: the default when the key is absent, the
      value when it is a boolean, and `None` (the library throws) otherwise. */
  function BoolValue(j: Json, key: string, default: bool): Option<bool> {
    if !Has(j, key) then Some(default)
    else match Field(j, key)
      case JBool(b) => Some(b)
      case _ => None
  }

  /** `value(key, default)` read as a double: the default when the key is absent, the
      value when it is a number of any of the three kinds, and `None` (the library throws)
      otherwise, a boolean included. */
  function NumberValue(j: Json, key: string, default: real): Option<real> {
    if !Has(j, key) then Some(default)
    else match Field(j, key)
      case JUnsigned(n) => Some(n as real)
      case JInteger(i) => Some(i as real)
      case JFloat(r) => Some(r)
      case _ => None
  }

  /** Reading a display name with `value(key, default)` throws unless the key is absent
      or holds a string. The names themselves are not modelled. */
  predicate NameReadable(j: Json, key: string) {
    !Has(j, key) || Field(j, key).JString?
  }

  // ---------------------------------------------------------------------------
  // Errors and results

  /** What is wrong with one entry of a movement list. */
  datatype MovementIssue = NotAString | UnknownMovement(value: string)

  /** Whose movement list an issue was found in. */
  datatype MovementOwner = LaneOwner(lane: LaneId) | GroupOwner(group: SignalGroupId)

  /** One message of `result.errors`. */
  datatype ParseError =
    | InvalidJson
    | RootNotObject
    | ApproachesNotArray
    | ApproachCountNotFour
    | ApproachNotObject
    | ApproachIdNotString
    | UnknownApproachId(value: string)
    | DuplicateApproachId(value: string)
    | LanesNotArray(approach: string)
    | LaneNotObject
    | DuplicateLaneId(lane: LaneId)
    | AllowedMovementsNotArray(lane: LaneId)
    | BadMovement(owner: MovementOwner, issue: MovementIssue)
    | MissingApproach
    | SignalGroupsNotArray
    | GroupNotObject
    | GroupIdNotUnsigned
    | DuplicateGroupId(group: SignalGroupId)
    | ControlledLanesNotArray(group: SignalGroupId)
    | ControlledLaneNotUnsigned(group: SignalGroupId)
    | GreenMovementsNotArray(group: SignalGroupId)
    | LaneConnectionsNotArray
    | ConnectionNotObject
    | InvalidSourceLane
    | ConnectionMovementNotString
    | UnknownConnectionMovement
    | InvalidTargetLane
    | LaneIndexOutOfRange

  /** `ConfigParseResult`. */
  datatype ParseResult = ParseResult(ok: bool, config: IntersectionConfig, errors: seq<ParseError>)

  /** What a call of `intersectionConfigFromJson` comes to: a result; an exception the
      JSON library throws out of `value()` on a wrongly typed optional field; or a loop
      with a 16-bit counter that never reaches a lane count of 65536 or more. */
  datatype ParseOutcome = Returned(result: ParseResult) | Threw | Diverges

  /** The result of an early return: the default configuration and one error. */
  function Failed(e: ParseError): ParseResult {
    ParseResult(false, EmptyConfig, [e])
  }

  // ---------------------------------------------------------------------------
  // Movement lists (`allowed_movements`, `green_movements`)

  function MovementOf(j: Json): Option<MovementType> {
    if j.JString? then MovementFromString(j.s) else None
  }

  function IssueOf(j: Json): MovementIssue {
    if j.JString? then UnknownMovement(j.s) else NotAString
  }

  /** The recognised movements of a list, in order, repeats included. */
  function Recognised(items: seq<Json>): seq<MovementType> {
    if items == [] then []
    else
      var last := items[|items| - 1];
      Recognised(items[..|items| - 1]) + (if MovementOf(last).Some? then [MovementOf(last).value] else [])
  }

  /** One error per entry that is not a string naming a movement. */
  function MovementErrors(owner: MovementOwner, items: seq<Json>): seq<ParseError> {
    if items == [] then []
    else
      var last := items[|items| - 1];
      MovementErrors(owner, items[..|items| - 1]) +
        (if MovementOf(last).None? then [BadMovement(owner, IssueOf(last))] else [])
  }

  /** The recognised movements, each kept at its first occurrence. */
  function MovementList(items: seq<Json>): seq<MovementType> {
    AddUnique([], Recognised(items))
  }

  lemma MovementListStep(owner: MovementOwner, items: seq<Json>, k: nat)
    requires k < |items|
    ensures MovementOf(items[k]).Some? ==>
      Recognised(items[..k + 1]) == Recognised(items[..k]) + [MovementOf(items[k]).value] &&
      MovementErrors(owner, items[..k + 1]) == MovementErrors(owner, items[..k])
    ensures MovementOf(items[k]).None? ==>
      Recognised(items[..k + 1]) == Recognised(items[..k]) &&
      MovementErrors(owner, items[..k + 1]) == MovementErrors(owner, items[..k]) + [BadMovement(owner, IssueOf(items[k]))]
  {
    assert items[..k + 1][..k] == items[..k];
  }

  lemma AddUniqueSnoc(acc: seq<MovementType>, ms: seq<MovementType>, m: MovementType)
    ensures AddUnique(acc, ms + [m]) ==
      if m in AddUnique(acc, ms) then AddUnique(acc, ms) else AddUnique(acc, ms) + [m]
  {
    assert (ms + [m])[..|ms|] == ms;
  }

  /** The movement loop: skip (and report) what is not a movement name, append what is
      not yet in the list. */
  method ParseMovements(owner: MovementOwner, items: seq<Json>) returns (ms: seq<MovementType>, errors: seq<ParseError>)
    ensures ms == MovementList(items) && errors == MovementErrors(owner, items)
  {
    ms, errors := [], [];
    var k := 0;
    while k < |items|
      invariant 0 <= k <= |items|
      invariant ms == AddUnique([], Recognised(items[..k]))
      invariant errors == MovementErrors(owner, items[..k])
    {
      MovementListStep(owner, items, k);
      // MovementOf and IssueOf fold the string test into the name lookup
      var m := MovementOf(items[k]);
      if m.None? {
        errors := errors + [BadMovement(owner, IssueOf(items[k]))];
      } else {
        AddUniqueSnoc([], Recognised(items[..k]), m.value);
        if m.value !in ms {
          ms := ms + [m.value];
        }
      }
      k := k + 1;
    }
    assert items[..k] == items;
  }

  // ---------------------------------------------------------------------------
  // Lanes of one approach

  /** The lanes read so far, the errors they caused and the lane ids seen in the whole
      document so far. */
  datatype LanesAcc = LanesAcc(lanes: seq<LaneConfig>, errors: seq<ParseError>, seenLanes: set<LaneId>)

  /** One entry of `lanes`: a non-object is reported and skipped; otherwise the lane gets
      the id of its position among the lanes kept so far, its flags (a light only when
      connected), and its movements. A repeated id is reported; a lane without a
      movement array is reported and dropped, its id still counted as seen. */
  function ParseLane(j: Json, a: ApproachId, acc: LanesAcc): Option<LanesAcc> {
    if !j.JObject? then Some(acc.(errors := acc.errors + [LaneNotObject]))
    else if !NameReadable(j, "name") then None
    else
      var change := BoolValue(j, "supports_lane_change", true);
      var connected := BoolValue(j, "connected_to_intersection", true);
      var light := BoolValue(j, "has_traffic_light", true);
      if change.None? || connected.None? || light.None? then None
      else
        var id := LaneIdFor(a, |acc.lanes|);
        var dup := if id in acc.seenLanes then [DuplicateLaneId(id)] else [];
        var seen := acc.seenLanes + {id};
        if !ArrayField(j, "allowed_movements") then
          Some(LanesAcc(acc.lanes, acc.errors + dup + [AllowedMovementsNotArray(id)], seen))
        else
          var items := Items(j, "allowed_movements");
          var lane := LaneConfig(id, MovementList(items), change.value, connected.value,
                                 connected.value && light.value);
          Some(LanesAcc(acc.lanes + [lane], acc.errors + dup + MovementErrors(LaneOwner(id), items), seen))
  }

  /** The lane loop from entry `k` on; `None` when the library throws. */
  function ParseLanesFrom(items: seq<Json>, k: nat, a: ApproachId, acc: LanesAcc): Option<LanesAcc>
    requires k <= |items|
    decreases |items| - k
  {
    if k == |items| then Some(acc)
    else match ParseLane(items[k], a, acc)
      case None => None
      case Some(next) => ParseLanesFrom(items, k + 1, a, next)
  }

  method ParseLaneEntry(j: Json, a: ApproachId, acc: LanesAcc) returns (r: Option<LanesAcc>)
    ensures r == ParseLane(j, a, acc)
  {
    if !j.JObject? {
      return Some(acc.(errors := acc.errors + [LaneNotObject]));
    }
    if !NameReadable(j, "name") {
      return None;
    }
    var change := BoolValue(j, "supports_lane_change", true);
    var connected := BoolValue(j, "connected_to_intersection", true);
    var light := BoolValue(j, "has_traffic_light", true);
    if change.None? || connected.None? || light.None? {
      return None;
    }
    var hasLight := light.value;
    if !connected.value {
      hasLight := false;
    }
    var id := LaneIdFor(a, |acc.lanes|);
    var dup := if id in acc.seenLanes then [DuplicateLaneId(id)] else [];
    var errors := acc.errors + dup;
    var seen := acc.seenLanes + {id};
    if !ArrayField(j, "allowed_movements") {
      return Some(LanesAcc(acc.lanes, errors + [AllowedMovementsNotArray(id)], seen));
    }
    var ms, movementErrors := ParseMovements(LaneOwner(id), Items(j, "allowed_movements"));
    var lane := LaneConfig(id, ms, change.value, connected.value, hasLight);
    return Some(LanesAcc(acc.lanes + [lane], errors + movementErrors, seen));
  }

  /** The loop over an approach's `lanes` array. */
  method ParseLaneEntries(items: seq<Json>, a: ApproachId, seen: set<LaneId>) returns (r: Option<LanesAcc>)
    ensures r == ParseLanesFrom(items, 0, a, LanesAcc([], [], seen))
  {
    var acc := LanesAcc([], [], seen);
    var k := 0;
    while k < |items|
      invariant 0 <= k <= |items|
      invariant ParseLanesFrom(items, k, a, acc) == ParseLanesFrom(items, 0, a, LanesAcc([], [], seen))
    {
      var next := ParseLaneEntry(items[k], a, acc);
      if next.None? {
        return None;
      }
      acc := next.value;
      k := k + 1;
    }
    return Some(acc);
  }

  // ---------------------------------------------------------------------------
  // Approaches

  /** The state of the approach loop: the approach array being filled, the approaches
      and lane ids seen, and the errors so far. */
  datatype Progress = Progress(
    approaches: Approaches,
    seenApproaches: set<ApproachId>,
    seenLanes: set<LaneId>,
    errors: seq<ParseError>)

  const InitialProgress := Progress(EmptyConfig.approaches, {}, {}, [])

  /** The outgoing lane count as the document gives it: an unsigned number cut to 16 bits
      and capped at 64, or 0 when absent or not an unsigned number. */
  function GivenToLaneCount(j: Json): Uint16 {
    if UnsignedField(j, "to_lane_count") then
      var n := ToUint16(Field(j, "to_lane_count").n);
      if n < 64 then n else 64
    else 0
  }

  /** The approach named by an entry, if the entry is an object with a recognised id. */
  function NamedApproach(j: Json): Option<ApproachId> {
    if j.JObject? && StringField(j, "id") then ApproachFromString(Field(j, "id").s) else None
  }

  /** One entry of `approaches`: it is reported and skipped unless it is an object with a
      string id naming an approach not seen before; it is then marked seen, and stored at
      its approach's position when its `lanes` is an array (reported otherwise). */
  function ParseApproach(j: Json, p: Progress): Option<Progress> {
    if !j.JObject? then Some(p.(errors := p.errors + [ApproachNotObject]))
    else if !StringField(j, "id") then Some(p.(errors := p.errors + [ApproachIdNotString]))
    else
      var name := Field(j, "id").s;
      match ApproachFromString(name)
      case None => Some(p.(errors := p.errors + [UnknownApproachId(name)]))
      case Some(a) =>
        if a in p.seenApproaches then Some(p.(errors := p.errors + [DuplicateApproachId(name)]))
        else if !NameReadable(j, "name") then None
        else
          var seen := p.seenApproaches + {a};
          if !ArrayField(j, "lanes") then
            Some(p.(seenApproaches := seen, errors := p.errors + [LanesNotArray(name)]))
          else
            match ParseLanesFrom(Items(j, "lanes"), 0, a, LanesAcc([], [], p.seenLanes))
            case None => None
            case Some(ls) =>
              Some(Progress(p.approaches[ApproachIndex(a) := ApproachConfig(a, ls.lanes, GivenToLaneCount(j))],
                            seen, ls.seenLanes, p.errors + ls.errors))
  }

  function ParseApproachesFrom(items: seq<Json>, k: nat, p: Progress): Option<Progress>
    requires k <= |items|
    decreases |items| - k
  {
    if k == |items| then Some(p)
    else match ParseApproach(items[k], p)
      case None => None
      case Some(next) => ParseApproachesFrom(items, k + 1, next)
  }

  method ParseApproachEntry(j: Json, p: Progress) returns (r: Option<Progress>)
    ensures r == ParseApproach(j, p)
  {
    if !j.JObject? {
      return Some(p.(errors := p.errors + [ApproachNotObject]));
    }
    if !StringField(j, "id") {
      return Some(p.(errors := p.errors + [ApproachIdNotString]));
    }
    var name := Field(j, "id").s;
    var id := ApproachFromString(name);
    if id.None? {
      return Some(p.(errors := p.errors + [UnknownApproachId(name)]));
    }
    var a := id.value;
    if a in p.seenApproaches {
      return Some(p.(errors := p.errors + [DuplicateApproachId(name)]));
    }
    var seen := p.seenApproaches + {a};
    if !NameReadable(j, "name") {
      return None;
    }
    var toLaneCount := GivenToLaneCount(j);
    if !ArrayField(j, "lanes") {
      return Some(p.(seenApproaches := seen, errors := p.errors + [LanesNotArray(name)]));
    }
    var lanes := ParseLaneEntries(Items(j, "lanes"), a, p.seenLanes);
    if lanes.None? {
      return None;
    }
    var ls := lanes.value;
    var approach := ApproachConfig(a, ls.lanes, toLaneCount);
    return Some(Progress(p.approaches[ApproachIndex(a) := approach], seen, ls.seenLanes, p.errors + ls.errors));
  }

  /** The loop over the four entries of `approaches`. */
  method ParseApproachEntries(items: seq<Json>) returns (r: Option<Progress>)
    ensures r == ParseApproachesFrom(items, 0, InitialProgress)
  {
    var p := InitialProgress;
    var k := 0;
    while k < |items|
      invariant 0 <= k <= |items|
      invariant ParseApproachesFrom(items, k, p) == ParseApproachesFrom(items, 0, InitialProgress)
    {
      var next := ParseApproachEntry(items[k], p);
      if next.None? {
        return None;
      }
      p := next.value;
      k := k + 1;
    }
    return Some(p);
  }

  /** A zero outgoing lane count becomes the number of lanes (cut to 16 bits), or 1
      without lanes. */
  function FixToLaneCount(ac: ApproachConfig): ApproachConfig {
    if ac.toLaneCount == 0 then ac.(toLaneCount := if ac.lanes != [] then ToUint16(|ac.lanes|) else 1)
    else ac
  }

  function FixToLaneCounts(apps: Approaches): (r: Approaches) {
    [FixToLaneCount(apps[0]), FixToLaneCount(apps[1]), FixToLaneCount(apps[2]), FixToLaneCount(apps[3])]
  }

  /** The loop that fills in missing outgoing lane counts. */
  method DefaultToLaneCounts(apps: Approaches) returns (r: Approaches)
    ensures r == FixToLaneCounts(apps)
  {
    r := apps;
    var i := 0;
    while i < 4
      invariant 0 <= i <= 4
      invariant forall k :: 0 <= k < 4 ==> r[k] == if k < i then FixToLaneCount(apps[k]) else apps[k]
    {
      if r[i].toLaneCount == 0 {
        var count: Uint16 := if r[i].lanes != [] then ToUint16(|r[i].lanes|) else 1;
        r := r[i := r[i].(toLaneCount := count)];
      }
      i := i + 1;
    }
  }

  /** One "missing approach entry" error per approach among the first `i` that no entry
      named. */
  function MissingErrors(seen: set<ApproachId>, i: nat): seq<ParseError>
    requires i <= 4
  {
    if i == 0 then []
    else MissingErrors(seen, i - 1) + (if ApproachAt(i - 1) !in seen then [MissingApproach] else [])
  }

  method ReportMissing(seen: set<ApproachId>) returns (errors: seq<ParseError>)
    ensures errors == MissingErrors(seen, 4)
  {
    errors := [];
    var i := 0;
    while i < 4
      invariant 0 <= i <= 4
      invariant errors == MissingErrors(seen, i)
    {
      if ApproachAt(i) !in seen {
        errors := errors + [MissingApproach];
      }
      i := i + 1;
    }
  }

  // ---------------------------------------------------------------------------
  // Signal groups

  datatype GroupsAcc = GroupsAcc(groups: seq<SignalGroupConfig>, errors: seq<ParseError>, seenGroups: set<SignalGroupId>)

  /** The unsigned entries of `controlled_lanes`, cut to 16 bits, in order. */
  function ControlledLaneIds(items: seq<Json>): seq<LaneId> {
    if items == [] then []
    else
      var last := items[|items| - 1];
      ControlledLaneIds(items[..|items| - 1]) + (if last.JUnsigned? then [ToUint16(last.n)] else [])
  }

  /** One error per entry of `controlled_lanes` that is not an unsigned number. */
  function ControlledLaneErrors(id: SignalGroupId, items: seq<Json>): seq<ParseError> {
    if items == [] then []
    else
      var last := items[|items| - 1];
      ControlledLaneErrors(id, items[..|items| - 1]) +
        (if last.JUnsigned? then [] else [ControlledLaneNotUnsigned(id)])
  }

  method ParseControlledLanes(id: SignalGroupId, items: seq<Json>) returns (lanes: seq<LaneId>, errors: seq<ParseError>)
    ensures lanes == ControlledLaneIds(items) && errors == ControlledLaneErrors(id, items)
  {
    lanes, errors := [], [];
    var k := 0;
    while k < |items|
      invariant 0 <= k <= |items|
      invariant lanes == ControlledLaneIds(items[..k]) && errors == ControlledLaneErrors(id, items[..k])
    {
      assert items[..k + 1][..k] == items[..k];
      if items[k].JUnsigned? {
        lanes := lanes + [ToUint16(items[k].n)];
      } else {
        errors := errors + [ControlledLaneNotUnsigned(id)];
      }
      k := k + 1;
    }
    assert items[..k] == items;
  }

  /** One entry of `signal_groups`: a non-object or an entry without an unsigned id is
      reported and skipped. Otherwise a repeated id is reported (the group is still
      read), the timings default to 10 s and 2 s, and the group is kept when both its
      lane and movement lists are arrays (reported otherwise). */
  function ParseGroup(j: Json, acc: GroupsAcc): Option<GroupsAcc> {
    if !j.JObject? then Some(acc.(errors := acc.errors + [GroupNotObject]))
    else if !UnsignedField(j, "id") then Some(acc.(errors := acc.errors + [GroupIdNotUnsigned]))
    else
      var id := ToUint16(Field(j, "id").n);
      var dup := if id in acc.seenGroups then [DuplicateGroupId(id)] else [];
      var seen := acc.seenGroups + {id};
      var minGreen := NumberValue(j, "min_green_seconds", 10.0);
      var orange := NumberValue(j, "orange_seconds", 2.0);
      if !NameReadable(j, "name") || minGreen.None? || orange.None? then None
      else if !ArrayField(j, "controlled_lanes") then
        Some(GroupsAcc(acc.groups, acc.errors + dup + [ControlledLanesNotArray(id)], seen))
      else
        var laneItems := Items(j, "controlled_lanes");
        var errors := acc.errors + dup + ControlledLaneErrors(id, laneItems);
        if !ArrayField(j, "green_movements") then
          Some(GroupsAcc(acc.groups, errors + [GreenMovementsNotArray(id)], seen))
        else
          var ms := Items(j, "green_movements");
          var g := SignalGroupConfig(id, ControlledLaneIds(laneItems), MovementList(ms), minGreen.value, orange.value);
          Some(GroupsAcc(acc.groups + [g], errors + MovementErrors(GroupOwner(id), ms), seen))
  }

  function ParseGroupsFrom(items: seq<Json>, k: nat, acc: GroupsAcc): Option<GroupsAcc>
    requires k <= |items|
    decreases |items| - k
  {
    if k == |items| then Some(acc)
    else match ParseGroup(items[k], acc)
      case None => None
      case Some(next) => ParseGroupsFrom(items, k + 1, next)
  }

  /** The `signal_groups` part of the document, continuing from `errors`. */
  function ParseSignalGroups(root: Json, errors: seq<ParseError>): Option<GroupsAcc> {
    if !Has(root, "signal_groups") then Some(GroupsAcc([], errors, {}))
    else if !Field(root, "signal_groups").JArray? then Some(GroupsAcc([], errors + [SignalGroupsNotArray], {}))
    else ParseGroupsFrom(Items(root, "signal_groups"), 0, GroupsAcc([], errors, {}))
  }

  method ParseGroupEntry(j: Json, acc: GroupsAcc) returns (r: Option<GroupsAcc>)
    ensures r == ParseGroup(j, acc)
  {
    if !j.JObject? {
      return Some(acc.(errors := acc.errors + [GroupNotObject]));
    }
    if !UnsignedField(j, "id") {
      return Some(acc.(errors := acc.errors + [GroupIdNotUnsigned]));
    }
    var id := ToUint16(Field(j, "id").n);
    var dup := if id in acc.seenGroups then [DuplicateGroupId(id)] else [];
    var errors := acc.errors + dup;
    var seen := acc.seenGroups + {id};
    if !NameReadable(j, "name") {
      return None;
    }
    var minGreen := NumberValue(j, "min_green_seconds", 10.0);
    var orange := NumberValue(j, "orange_seconds", 2.0);
    if minGreen.None? || orange.None? {
      return None;
    }
    if !ArrayField(j, "controlled_lanes") {
      return Some(GroupsAcc(acc.groups, errors + [ControlledLanesNotArray(id)], seen));
    }
    var lanes, laneErrors := ParseControlledLanes(id, Items(j, "controlled_lanes"));
    errors := errors + laneErrors;
    if !ArrayField(j, "green_movements") {
      return Some(GroupsAcc(acc.groups, errors + [GreenMovementsNotArray(id)], seen));
    }
    var ms, movementErrors := ParseMovements(GroupOwner(id), Items(j, "green_movements"));
    var g := SignalGroupConfig(id, lanes, ms, minGreen.value, orange.value);
    return Some(GroupsAcc(acc.groups + [g], errors + movementErrors, seen));
  }

  /** The loop over `signal_groups`. */
  method ParseGroupEntries(items: seq<Json>, errors: seq<ParseError>) returns (r: Option<GroupsAcc>)
    ensures r == ParseGroupsFrom(items, 0, GroupsAcc([], errors, {}))
  {
    var acc := GroupsAcc([], errors, {});
    var k := 0;
    while k < |items|
      invariant 0 <= k <= |items|
      invariant ParseGroupsFrom(items, k, acc) == ParseGroupsFrom(items, 0, GroupsAcc([], errors, {}))
    {
      var next := ParseGroupEntry(items[k], acc);
      if next.None? {
        return None;
      }
      acc := next.value;
      k := k + 1;
    }
    return Some(acc);
  }

  // ---------------------------------------------------------------------------
  // Lane connections

  /** `laneIndexValid`: the index names one of the approach's lanes. */
  predicate LaneIndexValid(apps: Approaches, a: ApproachId, index: Uint16) {
    index < |apps[ApproachIndex(a)].lanes|
  }

  /** `toLaneIndexValid`: the index is below the approach's outgoing lane count. */
  predicate ToLaneIndexValid(apps: Approaches, a: ApproachId, index: Uint16) {
    index < EffectiveToLaneCount(apps[ApproachIndex(a)])
  }

  /** Entry `k` is the first of `entries` holding a lane with this id. */
  predicate FirstHolder(entries: seq<ApproachConfig>, id: LaneId, k: int) {
    0 <= k < |entries| && FindLaneIndex(entries[k].lanes, id).Some? &&
    forall e :: 0 <= e < k ==> FindLaneIndex(entries[e].lanes, id).None?
  }

  /** `resolveLaneIdToApproachIndex`: the first approach entry, in array order, holding
      a lane with this id, and that lane's position there. The source counts positions
      with a 16-bit counter; every 65536 consecutive lanes of a parsed approach carry
      every 16-bit id, so the first match is always below 65536 and the cut is exact. */
  function ResolveLaneId(entries: seq<ApproachConfig>, id: LaneId): (r: Option<(ApproachId, Uint16)>)
    ensures r.None? <==> forall k :: 0 <= k < |entries| ==> FindLaneIndex(entries[k].lanes, id).None?
    ensures r.Some? ==> exists k :: (FirstHolder(entries, id, k) && entries[k].id == r.value.0 &&
      r.value.1 == ToUint16(FindLaneIndex(entries[k].lanes, id).value))
  {
    if entries == [] then None
    else match FindLaneIndex(entries[0].lanes, id)
      case Some(i) =>
        assert FirstHolder(entries, id, 0);
        Some((entries[0].id, ToUint16(i)))
      case None =>
        var r := ResolveLaneId(entries[1..], id);
        assert forall k :: 1 <= k < |entries| ==> entries[k] == entries[1..][k - 1];
        if r.Some? then
          var k :| FirstHolder(entries[1..], id, k) && entries[1..][k].id == r.value.0 &&
            r.value.1 == ToUint16(FindLaneIndex(entries[1..][k].lanes, id).value);
          assert FirstHolder(entries, id, k + 1);
          r
        else r
  }

  /** A lane reference of a connection: an approach name with a lane index when both are
      given with the right types, else a lane id resolved among the approaches. */
  function LaneReference(j: Json, apps: Approaches, approachKey: string, indexKey: string, idKey: string)
    : Option<(ApproachId, Uint16)>
  {
    if StringField(j, approachKey) && UnsignedField(j, indexKey) then
      match ApproachFromString(Field(j, approachKey).s)
      case None => None
      case Some(a) => Some((a, ToUint16(Field(j, indexKey).n)))
    else if UnsignedField(j, idKey) then ResolveLaneId(apps, ToUint16(Field(j, idKey).n))
    else None
  }

  datatype ConnectionParse = Kept(connection: LaneConnectionConfig) | Rejected(error: ParseError)

  /** One entry of `lane_connections`: kept only when it is an object with a resolvable
      source, a movement name, a resolvable target, a source index below the source
      approach's lane count and a target index below the target's outgoing lane count. */
  function ParseConnection(j: Json, apps: Approaches): ConnectionParse {
    if !j.JObject? then Rejected(ConnectionNotObject)
    else match LaneReference(j, apps, "from_approach", "from_lane_index", "from_lane_id")
      case None => Rejected(InvalidSourceLane)
      case Some(from) =>
        if !StringField(j, "movement") then Rejected(ConnectionMovementNotString)
        else match MovementFromString(Field(j, "movement").s)
          case None => Rejected(UnknownConnectionMovement)
          case Some(m) =>
            match LaneReference(j, apps, "to_approach", "to_lane_index", "to_lane_id")
            case None => Rejected(InvalidTargetLane)
            case Some(to) =>
              if !LaneIndexValid(apps, from.0, from.1) || !ToLaneIndexValid(apps, to.0, to.1) then
                Rejected(LaneIndexOutOfRange)
              else Kept(LaneConnectionConfig(from.0, from.1, m, to.0, to.1))
  }

  datatype ConnectionsAcc = ConnectionsAcc(connections: seq<LaneConnectionConfig>, errors: seq<ParseError>)

  function ParseConnectionsFrom(items: seq<Json>, k: nat, apps: Approaches, acc: ConnectionsAcc): ConnectionsAcc
    requires k <= |items|
    decreases |items| - k
  {
    if k == |items| then acc
    else match ParseConnection(items[k], apps)
      case Kept(c) => ParseConnectionsFrom(items, k + 1, apps, acc.(connections := acc.connections + [c]))
      case Rejected(e) => ParseConnectionsFrom(items, k + 1, apps, acc.(errors := acc.errors + [e]))
  }

  /** The loop over `lane_connections`. */
  method ParseConnectionEntries(items: seq<Json>, apps: Approaches, errors: seq<ParseError>) returns (r: ConnectionsAcc)
    ensures r == ParseConnectionsFrom(items, 0, apps, ConnectionsAcc([], errors))
  {
    r := ConnectionsAcc([], errors);
    var k := 0;
    while k < |items|
      invariant 0 <= k <= |items|
      invariant ParseConnectionsFrom(items, k, apps, r) == ParseConnectionsFrom(items, 0, apps, ConnectionsAcc([], errors))
    {
      var c := ParseConnection(items[k], apps);
      if c.Kept? {
        r := r.(connections := r.connections + [c.connection]);
      } else {
        r := r.(errors := r.errors + [c.error]);
      }
      k := k + 1;
    }
  }

  // ---------------------------------------------------------------------------
  // intersectionConfigFromJson

  /** The parse after the four approach entries were read into `p`. */
  function Complete(root: Json, p: Progress): ParseOutcome {
    var apps := FixToLaneCounts(p.approaches);
    match ParseSignalGroups(root, p.errors + MissingErrors(p.seenApproaches, 4))
    case None => Threw
    case Some(g) =>
      if !Has(root, "lane_connections") then
        if !LaneCountsFit(apps) then Diverges
        else Returned(ParseResult(g.errors == [], IntersectionConfig(apps, g.groups, SynthesizedConnections(apps)), g.errors))
      else if !Field(root, "lane_connections").JArray? then
        var errors := g.errors + [LaneConnectionsNotArray];
        Returned(ParseResult(false, IntersectionConfig(apps, g.groups, []), errors))
      else
        var c := ParseConnectionsFrom(Items(root, "lane_connections"), 0, apps, ConnectionsAcc([], g.errors));
        Returned(ParseResult(c.errors == [], IntersectionConfig(apps, g.groups, c.connections), c.errors))
  }

  /** `intersectionConfigFromJson`: the result is ok exactly when no error was recorded,
      and a document whose `approaches` is not an array of four entries is refused with
      the default configuration. */
  function ParseConfig(doc: Option<Json>): (r: ParseOutcome)
    ensures r.Returned? ==> (r.result.ok <==> r.result.errors == [])
    ensures doc.Some? && doc.value.JObject? && !ArrayField(doc.value, "approaches") ==>
      r == Returned(Failed(ApproachesNotArray))
    ensures doc.Some? && ArrayField(doc.value, "approaches") && |Items(doc.value, "approaches")| != 4 ==>
      r == Returned(Failed(ApproachCountNotFour))
  {
    match doc
    case None => Returned(Failed(InvalidJson))
    case Some(root) =>
      if !root.JObject? then Returned(Failed(RootNotObject))
      else if !ArrayField(root, "approaches") then Returned(Failed(ApproachesNotArray))
      else if |Items(root, "approaches")| != 4 then Returned(Failed(ApproachCountNotFour))
      else match ParseApproachesFrom(Items(root, "approaches"), 0, InitialProgress)
        case None => Threw
        case Some(p) => Complete(root, p)
  }

  /** `intersectionConfigFromJson`, step by step as the source runs it. */
  method IntersectionConfigFromJson(doc: Option<Json>) returns (r: ParseOutcome)
    ensures r == ParseConfig(doc)
  {
    if doc.None? {
      return Returned(Failed(InvalidJson));
    }
    var root := doc.value;
    if !root.JObject? {
      return Returned(Failed(RootNotObject));
    }
    if !ArrayField(root, "approaches") {
      return Returned(Failed(ApproachesNotArray));
    }
    var entries := Items(root, "approaches");
    if |entries| != 4 {
      return Returned(Failed(ApproachCountNotFour));
    }
    var parsed := ParseApproachEntries(entries);
    if parsed.None? {
      return Threw;
    }
    var p := parsed.value;
    var apps := DefaultToLaneCounts(p.approaches);
    var missing := ReportMissing(p.seenApproaches);
    var errors := p.errors + missing;
    var groups: seq<SignalGroupConfig> := [];
    if Has(root, "signal_groups") {
      if !Field(root, "signal_groups").JArray? {
        errors := errors + [SignalGroupsNotArray];
      } else {
        var g := ParseGroupEntries(Items(root, "signal_groups"), errors);
        if g.None? {
          return Threw;
        }
        groups, errors := g.value.groups, g.value.errors;
      }
    }
    var connections: seq<LaneConnectionConfig> := [];
    if Has(root, "lane_connections") {
      if !Field(root, "lane_connections").JArray? {
        errors := errors + [LaneConnectionsNotArray];
      } else {
        var c := ParseConnectionEntries(Items(root, "lane_connections"), apps, errors);
        connections, errors := c.connections, c.errors;
      }
    } else {
      if !LaneCountsFit(apps) {
        return Diverges;
      }
      connections := SynthesizeConnections(apps);
    }
    return Returned(ParseResult(errors == [], IntersectionConfig(apps, groups, connections), errors));
  }
}
