/** What `intersectionConfigFromJson` guarantees about the configuration it returns:
    movement lists without repeats, lane ids taken from positions, lights only on
    connected lanes, capped outgoing lane counts, duplicate and missing approaches
    reported, and lane connections that stay inside the configured lanes. */
module ConfigJsonProperties {
  import opened Wrappers
  import opened Configuration
  import opened ConfigJson

  // ---------------------------------------------------------------------------
  // Movement lists

  lemma {:induction false} RecognisedContents(items: seq<Json>, m: MovementType)
    ensures m in Recognised(items) <==> exists k :: 0 <= k < |items| && MovementOf(items[k]) == Some(m)
  {
    if items != [] {
      var n := |items| - 1;
      RecognisedContents(items[..n], m);
      assert forall k :: 0 <= k < n ==> items[..n][k] == items[k];
      if m in Recognised(items) && m !in Recognised(items[..n]) {
        assert MovementOf(items[n]) == Some(m);
      }
    }
  }

  /** Every entry of a movement list is either recognised or reported, never both. */
  lemma {:induction false} EveryMovementKeptOrReported(owner: MovementOwner, items: seq<Json>)
    ensures |Recognised(items)| + |MovementErrors(owner, items)| == |items|
  {
    if items != [] {
      EveryMovementKeptOrReported(owner, items[..|items| - 1]);
    }
  }

  /** Some occurrence of `x` in `ms` comes before every occurrence of `y`. */
  predicate FirstBefore(ms: seq<MovementType>, x: MovementType, y: MovementType) {
    exists p :: 0 <= p < |ms| && ms[p] == x && forall q :: 0 <= q <= p ==> ms[q] != y
  }

  /** The elements of `r` are ordered by their first occurrence in `ms`. */
  predicate OrderedByFirstOccurrence(r: seq<MovementType>, ms: seq<MovementType>) {
    forall i, j :: 0 <= i < j < |r| ==> FirstBefore(ms, r[i], r[j])
  }

  lemma FirstBeforeExtends(ms: seq<MovementType>, n: nat, x: MovementType, y: MovementType)
    requires n <= |ms|
    requires FirstBefore(ms[..n], x, y) || (x in ms[..n] && y !in ms[..n])
    ensures FirstBefore(ms, x, y)
  {
    var p: nat;
    if x in ms[..n] && y !in ms[..n] {
      p :| 0 <= p < n && ms[..n][p] == x;
      assert forall q :: 0 <= q < n ==> ms[..n][q] in ms[..n];
    } else {
      p :| 0 <= p < n && ms[..n][p] == x && forall q :: 0 <= q <= p ==> ms[..n][q] != y;
    }
    assert forall q :: 0 <= q <= p ==> ms[q] == ms[..n][q];
  }

  /** `AddUnique` started empty lists each element once, in the order of first
      occurrence: whatever comes earlier in the result occurs in the input before any
      occurrence of what comes later. */
  lemma {:induction false} AddUniqueFirstOccurrence(ms: seq<MovementType>)
    ensures OrderedByFirstOccurrence(AddUnique([], ms), ms)
  {
    if ms != [] {
      var n := |ms| - 1;
      var prev := AddUnique([], ms[..n]);
      var r := AddUnique([], ms);
      AddUniqueFirstOccurrence(ms[..n]);
      forall i, j | 0 <= i < j < |r|
        ensures FirstBefore(ms, r[i], r[j])
      {
        if j < |prev| {
          assert r[i] == prev[i] && r[j] == prev[j];
          FirstBeforeExtends(ms, n, r[i], r[j]);
        } else {
          // r[j] is the last element, appended because it was new
          assert r == prev + [ms[n]] && r[j] == ms[n] && ms[n] !in prev;
          assert r[i] == prev[i] && prev[i] in prev;
          FirstBeforeExtends(ms, n, r[i], r[j]);
        }
      }
    }
  }

  /** `allowed_movements` and `green_movements` are de-duplicated keeping first
      occurrences: the list has no repeats, holds exactly the recognised movement names,
      and lists them in the order they first appear. */
  lemma MovementListSpec(items: seq<Json>)
    ensures Distinct(MovementList(items))
    ensures forall m :: m in MovementList(items) <==> exists k :: 0 <= k < |items| && MovementOf(items[k]) == Some(m)
    ensures OrderedByFirstOccurrence(MovementList(items), Recognised(items))
  {
    AddUniqueDistinct([], Recognised(items));
    AddUniqueFirstOccurrence(Recognised(items));
    forall m {
      RecognisedContents(items, m);
    }
  }

  /** The names of approaches and movements read back as what they name. */
  lemma NamesRoundTrip(a: ApproachId, m: MovementType)
    ensures ApproachFromString(ApproachToString(a)) == Some(a)
    ensures MovementFromString(MovementToString(m)) == Some(m)
    ensures ApproachFromString("North") == None && MovementFromString("Straight") == None
  {
  }

  // ---------------------------------------------------------------------------
  // Lanes

  /** A lane as the parser builds it: its id comes from its position, it has a light only
      when connected, and its movements do not repeat. */
  predicate LaneWellParsed(a: ApproachId, lanes: seq<LaneConfig>, j: nat)
    requires j < |lanes|
  {
    lanes[j].id == LaneIdFor(a, j) &&
    (lanes[j].connectedToIntersection || !lanes[j].hasTrafficLight) &&
    Distinct(lanes[j].allowedMovements)
  }

  predicate LanesWellParsed(a: ApproachId, lanes: seq<LaneConfig>) {
    forall j :: 0 <= j < |lanes| ==> LaneWellParsed(a, lanes, j)
  }

  lemma ParseLaneWellParsed(j: Json, a: ApproachId, acc: LanesAcc)
    requires LanesWellParsed(a, acc.lanes)
    requires ParseLane(j, a, acc).Some?
    ensures LanesWellParsed(a, ParseLane(j, a, acc).value.lanes)
    ensures |ParseLane(j, a, acc).value.lanes| <= |acc.lanes| + 1
  {
    var r := ParseLane(j, a, acc).value;
    if j.JObject? && ArrayField(j, "allowed_movements") {
      var items := Items(j, "allowed_movements");
      var change := BoolValue(j, "supports_lane_change", true);
      var connected := BoolValue(j, "connected_to_intersection", true);
      var light := BoolValue(j, "has_traffic_light", true);
      var lane := LaneConfig(LaneIdFor(a, |acc.lanes|), MovementList(items), change.value, connected.value,
                             connected.value && light.value);
      assert r.lanes == acc.lanes + [lane];
      AddUniqueDistinct([], Recognised(items));
      forall k | 0 <= k < |r.lanes|
        ensures LaneWellParsed(a, r.lanes, k)
      {
        if k < |acc.lanes| {
          assert r.lanes[k] == acc.lanes[k];
          assert LaneWellParsed(a, acc.lanes, k);
        } else {
          assert r.lanes[k] == lane;
        }
      }
    }
  }

  /** Every lane of an approach gets the id of its position (`laneIdFor`), a light only
      when connected, and movements without repeats; an approach has no more lanes than
      its `lanes` array has entries. */
  lemma {:induction false} ParseLanesWellParsed(items: seq<Json>, k: nat, a: ApproachId, acc: LanesAcc)
    requires k <= |items|
    requires LanesWellParsed(a, acc.lanes)
    requires ParseLanesFrom(items, k, a, acc).Some?
    ensures LanesWellParsed(a, ParseLanesFrom(items, k, a, acc).value.lanes)
    ensures |ParseLanesFrom(items, k, a, acc).value.lanes| <= |acc.lanes| + |items| - k
    decreases |items| - k
  {
    if k < |items| {
      ParseLaneWellParsed(items[k], a, acc);
      ParseLanesWellParsed(items, k + 1, a, ParseLane(items[k], a, acc).value);
    }
  }

  // ---------------------------------------------------------------------------
  // Approaches

  /** An approach slot after parsing: still the default, or the approach of that slot
      with well-parsed lanes; a given outgoing lane count is at most 64. */
  predicate SlotWellParsed(apps: Approaches, i: nat)
    requires i < 4
  {
    (apps[i] == DefaultApproach || apps[i].id == ApproachAt(i)) &&
    LanesWellParsed(apps[i].id, apps[i].lanes) &&
    apps[i].toLaneCount <= 64
  }

  lemma ApproachAtIndex(a: ApproachId)
    ensures ApproachAt(ApproachIndex(a)) == a
  {
    match a
    case North =>
    case East =>
    case South =>
    case West =>
  }

  /** The state of the approach loop as the parser keeps it: every slot well parsed, and
      the slot of an approach no entry has named still the default. */
  predicate ProgressWellParsed(p: Progress) {
    (forall i :: 0 <= i < 4 ==> SlotWellParsed(p.approaches, i)) &&
    (forall i :: 0 <= i < 4 && ApproachAt(i) !in p.seenApproaches ==> p.approaches[i] == DefaultApproach)
  }

  lemma InitialProgressWellParsed()
    ensures ProgressWellParsed(InitialProgress)
  {
  }

  /** One approach entry keeps the loop state well parsed, adds to the seen approaches
      exactly the approach it names, and only appends errors. */
  lemma ParseApproachStep(j: Json, p: Progress)
    requires ProgressWellParsed(p)
    requires ParseApproach(j, p).Some?
    ensures var q := ParseApproach(j, p).value;
      ProgressWellParsed(q) &&
      q.seenApproaches == p.seenApproaches + (if NamedApproach(j).Some? then {NamedApproach(j).value} else {}) &&
      |p.errors| <= |q.errors| && q.errors[..|p.errors|] == p.errors
  {
    var q := ParseApproach(j, p).value;
    if NamedApproach(j).Some? && NamedApproach(j).value !in p.seenApproaches && ArrayField(j, "lanes") {
      var a := NamedApproach(j).value;
      var ls := ParseLanesFrom(Items(j, "lanes"), 0, a, LanesAcc([], [], p.seenLanes)).value;
      ParseLanesWellParsed(Items(j, "lanes"), 0, a, LanesAcc([], [], p.seenLanes));
      assert q.approaches == p.approaches[ApproachIndex(a) := ApproachConfig(a, ls.lanes, GivenToLaneCount(j))];
      ApproachAtIndex(a);
      forall i | 0 <= i < 4
        ensures SlotWellParsed(q.approaches, i)
      {
        if i != ApproachIndex(a) {
          assert q.approaches[i] == p.approaches[i];
          assert SlotWellParsed(p.approaches, i);
        } else {
          assert q.approaches[i] == ApproachConfig(a, ls.lanes, GivenToLaneCount(j));
          assert LanesWellParsed(a, ls.lanes);
        }
      }
    }
  }

  /** The entry naming an approach already seen is reported as a duplicate and changes
      nothing else. */
  lemma DuplicateApproachStep(j: Json, p: Progress)
    requires NamedApproach(j).Some? && NamedApproach(j).value in p.seenApproaches
    ensures ParseApproach(j, p) ==
      Some(p.(errors := p.errors + [DuplicateApproachId(ApproachToString(NamedApproach(j).value))]))
  {
  }

  lemma {:induction false} ApproachesWellParsedFrom(items: seq<Json>, k: nat, p: Progress)
    requires k <= |items|
    requires ProgressWellParsed(p)
    requires ParseApproachesFrom(items, k, p).Some?
    ensures var r := ParseApproachesFrom(items, k, p).value;
      ProgressWellParsed(r) &&
      p.seenApproaches <= r.seenApproaches &&
      |p.errors| <= |r.errors| && r.errors[..|p.errors|] == p.errors
    decreases |items| - k
  {
    if k < |items| {
      var q := ParseApproach(items[k], p).value;
      ParseApproachStep(items[k], p);
      ApproachesWellParsedFrom(items, k + 1, q);
    }
  }

  /** The approaches named by the entries from position `k` on. */
  function NamedFrom(items: seq<Json>, k: nat): set<ApproachId> {
    set i | k <= i < |items| && NamedApproach(items[i]).Some? :: NamedApproach(items[i]).value
  }

  /** After the approach loop, the seen approaches are exactly those some entry names
      with a recognised id. */
  lemma {:induction false} SeenApproachesAreNamed(items: seq<Json>, k: nat, p: Progress)
    requires k <= |items|
    requires ProgressWellParsed(p)
    requires ParseApproachesFrom(items, k, p).Some?
    ensures ParseApproachesFrom(items, k, p).value.seenApproaches == p.seenApproaches + NamedFrom(items, k)
    decreases |items| - k
  {
    if k == |items| {
      assert NamedFrom(items, k) == {};
    } else {
      var q := ParseApproach(items[k], p).value;
      ParseApproachStep(items[k], p);
      SeenApproachesAreNamed(items, k + 1, q);
      assert NamedFrom(items, k) ==
        (if NamedApproach(items[k]).Some? then {NamedApproach(items[k]).value} else {}) + NamedFrom(items, k + 1);
    }
  }

  lemma {:induction false} DuplicateReportedFrom(items: seq<Json>, k: nat, p: Progress, d: nat, a: ApproachId)
    requires k <= d < |items|
    requires ProgressWellParsed(p)
    requires NamedApproach(items[d]) == Some(a)
    requires a in p.seenApproaches || exists i :: k <= i < d && NamedApproach(items[i]) == Some(a)
    requires ParseApproachesFrom(items, k, p).Some?
    ensures DuplicateApproachId(ApproachToString(a)) in ParseApproachesFrom(items, k, p).value.errors
    decreases |items| - k
  {
    var q := ParseApproach(items[k], p).value;
    ParseApproachStep(items[k], p);
    ApproachesWellParsedFrom(items, k + 1, q);
    var r := ParseApproachesFrom(items, k + 1, q).value;
    if k == d {
      DuplicateApproachStep(items[k], p);
      assert q.errors[|p.errors|] == DuplicateApproachId(ApproachToString(a));
      assert r.errors[|p.errors|] == q.errors[|p.errors|];
    } else {
      DuplicateReportedFrom(items, k + 1, q, d, a);
    }
  }

  /** Two entries naming the same approach: the later one is reported as a duplicate. */
  lemma DuplicateApproachReported(items: seq<Json>, i: nat, d: nat, a: ApproachId)
    requires i < d < |items|
    requires NamedApproach(items[i]) == Some(a) && NamedApproach(items[d]) == Some(a)
    requires ParseApproachesFrom(items, 0, InitialProgress).Some?
    ensures DuplicateApproachId(ApproachToString(a)) in ParseApproachesFrom(items, 0, InitialProgress).value.errors
  {
    DuplicateReportedFrom(items, 0, InitialProgress, d, a);
  }

  // ---------------------------------------------------------------------------
  // Missing approaches

  function FirstApproaches(i: nat): set<ApproachId>
    requires i <= 4
  {
    set k | 0 <= k < i :: ApproachAt(k)
  }

  lemma {:induction false} MissingCountUpTo(seen: set<ApproachId>, i: nat)
    requires i <= 4
    ensures |MissingErrors(seen, i)| + |seen * FirstApproaches(i)| == i
    ensures forall e :: e in MissingErrors(seen, i) ==> e == MissingApproach
  {
    if i == 0 {
      assert seen * FirstApproaches(0) == {};
    } else {
      MissingCountUpTo(seen, i - 1);
      var a := ApproachAt(i - 1);
      assert a !in FirstApproaches(i - 1);
      assert FirstApproaches(i) == FirstApproaches(i - 1) + {a};
      if a in seen {
        assert seen * FirstApproaches(i) == (seen * FirstApproaches(i - 1)) + {a};
      } else {
        assert seen * FirstApproaches(i) == seen * FirstApproaches(i - 1);
      }
    }
  }

  lemma {:induction false} MissingEmptyUpTo(seen: set<ApproachId>, i: nat)
    requires i <= 4
    ensures MissingErrors(seen, i) == [] <==> forall k :: 0 <= k < i ==> ApproachAt(k) in seen
  {
    if i > 0 {
      MissingEmptyUpTo(seen, i - 1);
    }
  }

  /** One "missing approach entry" per approach that no entry named: 4 minus the number
      of approaches seen, and none when all four were seen. */
  lemma MissingApproachesReported(seen: set<ApproachId>)
    ensures |MissingErrors(seen, 4)| == 4 - |seen|
    ensures MissingErrors(seen, 4) == [] <==> forall a :: a in seen
    ensures forall e :: e in MissingErrors(seen, 4) ==> e == MissingApproach
  {
    MissingCountUpTo(seen, 4);
    forall a
      ensures a in FirstApproaches(4)
    {
      ApproachAtIndex(a);
      assert ApproachAt(ApproachIndex(a)) in FirstApproaches(4);
    }
    assert seen * FirstApproaches(4) == seen;
    MissingEmptyUpTo(seen, 4);
    forall a | forall k :: 0 <= k < 4 ==> ApproachAt(k) in seen
      ensures a in seen
    {
      ApproachAtIndex(a);
    }
  }

  // ---------------------------------------------------------------------------
  // Outgoing lane counts

  /** A zero outgoing lane count becomes the effective one (the number of lanes, or 1);
      lanes and ids are untouched. */
  lemma FixToLaneCountsSpec(apps: Approaches, i: nat)
    requires i < 4 && |apps[i].lanes| < 0x1_0000
    ensures FixToLaneCounts(apps)[i].id == apps[i].id && FixToLaneCounts(apps)[i].lanes == apps[i].lanes
    ensures FixToLaneCounts(apps)[i].toLaneCount == EffectiveToLaneCount(apps[i]) >= 1
  {
  }

  // ---------------------------------------------------------------------------
  // Signal groups

  predicate GroupsWellParsed(groups: seq<SignalGroupConfig>) {
    forall k :: 0 <= k < |groups| ==> Distinct(groups[k].greenMovements)
  }

  /** A timing given as a boolean is not a number: reading it makes the JSON library
      throw, so the entry, and with it the whole parse, ends in an exception. */
  lemma BooleanTimingThrows(j: Json, acc: GroupsAcc, key: string)
    requires j.JObject? && UnsignedField(j, "id")
    requires key == "min_green_seconds" || key == "orange_seconds"
    requires Has(j, key) && Field(j, key).JBool?
    ensures ParseGroup(j, acc).None?
  {
  }

  /** Every kept signal group lists its green movements without repeats. */
  lemma {:induction false} GroupsWellParsedFrom(items: seq<Json>, k: nat, acc: GroupsAcc)
    requires k <= |items|
    requires GroupsWellParsed(acc.groups)
    requires ParseGroupsFrom(items, k, acc).Some?
    ensures GroupsWellParsed(ParseGroupsFrom(items, k, acc).value.groups)
    decreases |items| - k
  {
    if k < |items| {
      var j := items[k];
      var next := ParseGroup(j, acc).value;
      if |next.groups| > |acc.groups| {
        AddUniqueDistinct([], Recognised(Items(j, "green_movements")));
        assert forall g :: 0 <= g < |acc.groups| ==> next.groups[g] == acc.groups[g];
      }
      GroupsWellParsedFrom(items, k + 1, next);
    }
  }

  // ---------------------------------------------------------------------------
  // Lane connections

  /** Both lane references of a connection pass the range checks. */
  predicate ConnectionInRange(apps: Approaches, c: LaneConnectionConfig) {
    LaneIndexValid(apps, c.fromApproach, c.fromLaneIndex) && ToLaneIndexValid(apps, c.toApproach, c.toLaneIndex)
  }

  /** Explicit connections are kept only when both indices are in range; each entry is
      either kept or reported. */
  lemma {:induction false} ConnectionsInRangeFrom(items: seq<Json>, k: nat, apps: Approaches, acc: ConnectionsAcc)
    requires k <= |items|
    requires forall c :: c in acc.connections ==> ConnectionInRange(apps, c)
    ensures var r := ParseConnectionsFrom(items, k, apps, acc);
      (forall c :: c in r.connections ==> ConnectionInRange(apps, c)) &&
      |r.connections| + |r.errors| == |acc.connections| + |acc.errors| + |items| - k
    decreases |items| - k
  {
    if k < |items| {
      match ParseConnection(items[k], apps)
      case Kept(c) =>
        ConnectionsInRangeFrom(items, k + 1, apps, acc.(connections := acc.connections + [c]));
      case Rejected(e) =>
        ConnectionsInRangeFrom(items, k + 1, apps, acc.(errors := acc.errors + [e]));
    }
  }

  /** Synthesised connections start at a lane of their approach and end below the
      destination's outgoing lane count. */
  lemma SynthesizedInRange(apps: Approaches)
    requires LaneCountsFit(apps)
    requires forall i :: 0 <= i < 4 ==> apps[i].lanes == [] || apps[i].id == ApproachAt(i)
    ensures forall c :: c in SynthesizedConnections(apps) ==> ConnectionInRange(apps, c)
  {
    forall c | c in SynthesizedConnections(apps)
      ensures ConnectionInRange(apps, c)
    {
      SynthesizedConnectionsSpec(apps, c);
      var a, j, m :| 0 <= a < 4 && 0 <= j < |apps[a].lanes| && m in apps[a].lanes[j].allowedMovements
        && c == DefaultConnection(apps, apps[a], j, m);
      assert ApproachIndex(c.fromApproach) == a;
    }
  }

  // ---------------------------------------------------------------------------
  // The whole document

  /** Filling in the outgoing lane counts keeps every slot well parsed. */
  lemma FixedSlotsWellFormed(p: Progress)
    requires ProgressWellParsed(p)
    ensures var apps := FixToLaneCounts(p.approaches);
      forall i :: 0 <= i < 4 ==>
        (apps[i].lanes == [] || apps[i].id == ApproachAt(i)) &&
        LanesWellParsed(apps[i].id, apps[i].lanes) &&
        ((1 <= apps[i].toLaneCount <= 64) || apps[i].toLaneCount == ToUint16(|apps[i].lanes|))
  {
    var apps := FixToLaneCounts(p.approaches);
    forall i | 0 <= i < 4
      ensures apps[i].lanes == [] || apps[i].id == ApproachAt(i)
      ensures LanesWellParsed(apps[i].id, apps[i].lanes)
      ensures (1 <= apps[i].toLaneCount <= 64) || apps[i].toLaneCount == ToUint16(|apps[i].lanes|)
    {
      assert apps[i] == FixToLaneCount(p.approaches[i]);
      assert SlotWellParsed(p.approaches, i);
    }
  }

  /** The configuration a document yields, once its four approach entries were read:
      every slot holds its own approach or no lanes; lanes are well parsed; outgoing
      lane counts are between 1 and 64, or the number of lanes (cut to 16 bits) when none
      was given; groups have no repeated green movements; and every connection, given or
      synthesised, passes both range checks. */
  lemma ParsedConfigWellFormed(doc: Option<Json>)
    requires doc.Some? && ArrayField(doc.value, "approaches") && |Items(doc.value, "approaches")| == 4
    requires ParseConfig(doc).Returned?
    ensures var c := ParseConfig(doc).result.config;
      (forall i :: 0 <= i < 4 ==>
        (c.approaches[i].lanes == [] || c.approaches[i].id == ApproachAt(i)) &&
        LanesWellParsed(c.approaches[i].id, c.approaches[i].lanes) &&
        ((1 <= c.approaches[i].toLaneCount <= 64) || c.approaches[i].toLaneCount == ToUint16(|c.approaches[i].lanes|))) &&
      GroupsWellParsed(c.signalGroups) &&
      (forall k :: 0 <= k < |c.laneConnections| ==> ConnectionInRange(c.approaches, c.laneConnections[k]))
  {
    var root := doc.value;
    var items := Items(root, "approaches");
    var p := ParseApproachesFrom(items, 0, InitialProgress).value;
    InitialProgressWellParsed();
    ApproachesWellParsedFrom(items, 0, InitialProgress);
    var apps := FixToLaneCounts(p.approaches);
    var g := ParseSignalGroups(root, p.errors + MissingErrors(p.seenApproaches, 4)).value;
    if Has(root, "signal_groups") && Field(root, "signal_groups").JArray? {
      GroupsWellParsedFrom(Items(root, "signal_groups"), 0, GroupsAcc([], p.errors + MissingErrors(p.seenApproaches, 4), {}));
    }
    var c := ParseConfig(doc).result.config;
    assert c.approaches == apps && c.signalGroups == g.groups;
    FixedSlotsWellFormed(p);
    if !Has(root, "lane_connections") {
      SynthesizedInRange(apps);
    } else if Field(root, "lane_connections").JArray? {
      ConnectionsInRangeFrom(Items(root, "lane_connections"), 0, apps, ConnectionsAcc([], g.errors));
    }
  }

  // ---------------------------------------------------------------------------
  // Errors are only ever appended

  /** The signal group loop only appends to the errors it started from. */
  lemma {:induction false} GroupErrorsKeptFrom(items: seq<Json>, k: nat, acc: GroupsAcc)
    requires k <= |items|
    requires ParseGroupsFrom(items, k, acc).Some?
    ensures var r := ParseGroupsFrom(items, k, acc).value;
      |acc.errors| <= |r.errors| && r.errors[..|acc.errors|] == acc.errors
    decreases |items| - k
  {
    if k < |items| {
      var next := ParseGroup(items[k], acc).value;
      assert next.errors[..|acc.errors|] == acc.errors;
      GroupErrorsKeptFrom(items, k + 1, next);
      var r := ParseGroupsFrom(items, k + 1, next).value;
      assert r.errors[..|acc.errors|] == r.errors[..|next.errors|][..|acc.errors|];
    }
  }

  /** The lane connection loop only appends to the errors it started from. */
  lemma {:induction false} ConnectionErrorsKeptFrom(items: seq<Json>, k: nat, apps: Approaches, acc: ConnectionsAcc)
    requires k <= |items|
    ensures var r := ParseConnectionsFrom(items, k, apps, acc);
      |acc.errors| <= |r.errors| && r.errors[..|acc.errors|] == acc.errors
    decreases |items| - k
  {
    if k < |items| {
      match ParseConnection(items[k], apps)
      case Kept(c) =>
        ConnectionErrorsKeptFrom(items, k + 1, apps, acc.(connections := acc.connections + [c]));
      case Rejected(e) =>
        var next := acc.(errors := acc.errors + [e]);
        ConnectionErrorsKeptFrom(items, k + 1, apps, next);
        var r := ParseConnectionsFrom(items, k + 1, apps, next);
        assert r.errors[..|acc.errors|] == r.errors[..|next.errors|][..|acc.errors|];
    }
  }

  /** The errors of the approach entries, then one per missing approach. */
  function ApproachStageErrors(p: Progress): seq<ParseError> {
    p.errors + MissingErrors(p.seenApproaches, 4)
  }

  /** Every error found while reading the approaches reaches the returned result, in
      front of the errors of the later sections. */
  lemma ApproachErrorsReachResult(doc: Option<Json>)
    requires doc.Some? && ArrayField(doc.value, "approaches") && |Items(doc.value, "approaches")| == 4
    requires ParseConfig(doc).Returned?
    ensures ParseApproachesFrom(Items(doc.value, "approaches"), 0, InitialProgress).Some?
    ensures var e := ApproachStageErrors(ParseApproachesFrom(Items(doc.value, "approaches"), 0, InitialProgress).value);
      var errors := ParseConfig(doc).result.errors;
      |e| <= |errors| && errors[..|e|] == e
  {
    var root := doc.value;
    var p := ParseApproachesFrom(Items(root, "approaches"), 0, InitialProgress).value;
    var e := ApproachStageErrors(p);
    var g := ParseSignalGroups(root, e).value;
    if Has(root, "signal_groups") && Field(root, "signal_groups").JArray? {
      GroupErrorsKeptFrom(Items(root, "signal_groups"), 0, GroupsAcc([], e, {}));
    } else {
      assert g.errors[..|e|] == e;
    }
    var errors := ParseConfig(doc).result.errors;
    if Has(root, "lane_connections") {
      if Field(root, "lane_connections").JArray? {
        var apps := FixToLaneCounts(p.approaches);
        ConnectionErrorsKeptFrom(Items(root, "lane_connections"), 0, apps, ConnectionsAcc([], g.errors));
      } else {
        assert errors[..|g.errors|] == g.errors;
      }
      assert errors[..|e|] == errors[..|g.errors|][..|e|];
    }
  }

  /** Two approach entries with the same id: the returned result reports the later one
      as a duplicate and is not ok. */
  lemma DuplicateApproachInResult(doc: Option<Json>, i: nat, d: nat, a: ApproachId)
    requires doc.Some? && ArrayField(doc.value, "approaches") && |Items(doc.value, "approaches")| == 4
    requires i < d < 4
    requires NamedApproach(Items(doc.value, "approaches")[i]) == Some(a)
    requires NamedApproach(Items(doc.value, "approaches")[d]) == Some(a)
    requires ParseConfig(doc).Returned?
    ensures DuplicateApproachId(ApproachToString(a)) in ParseConfig(doc).result.errors
    ensures !ParseConfig(doc).result.ok
  {
    var items := Items(doc.value, "approaches");
    ApproachErrorsReachResult(doc);
    DuplicateApproachReported(items, i, d, a);
    var p := ParseApproachesFrom(items, 0, InitialProgress).value;
    var e := ApproachStageErrors(p);
    var errors := ParseConfig(doc).result.errors;
    var x :| 0 <= x < |p.errors| && p.errors[x] == DuplicateApproachId(ApproachToString(a));
    assert errors[x] == e[x];
  }

  /** An approach that no entry names: the returned result reports a missing approach
      and is not ok. */
  lemma MissingApproachInResult(doc: Option<Json>, a: ApproachId)
    requires doc.Some? && ArrayField(doc.value, "approaches") && |Items(doc.value, "approaches")| == 4
    requires forall i :: 0 <= i < 4 ==> NamedApproach(Items(doc.value, "approaches")[i]) != Some(a)
    requires ParseConfig(doc).Returned?
    ensures MissingApproach in ParseConfig(doc).result.errors
    ensures !ParseConfig(doc).result.ok
  {
    var items := Items(doc.value, "approaches");
    ApproachErrorsReachResult(doc);
    InitialProgressWellParsed();
    SeenApproachesAreNamed(items, 0, InitialProgress);
    var p := ParseApproachesFrom(items, 0, InitialProgress).value;
    assert a !in p.seenApproaches;
    MissingApproachesReported(p.seenApproaches);
    var m := MissingErrors(p.seenApproaches, 4);
    assert m != [];
    assert m[0] in m;
    var e := ApproachStageErrors(p);
    var errors := ParseConfig(doc).result.errors;
    assert errors[|p.errors|] == e[|p.errors|];
  }
}
