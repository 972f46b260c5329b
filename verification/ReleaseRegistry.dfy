/** The schema-2 release registry: what the checker accepts of lanes and gates, and
    what the planner asks of the same registry. */
module ReleaseRegistry {
  import opened Text

  /** The gates the checker requires. */
  function Required(): seq<string> {
    ["G01", "G02", "G03", "G04", "G05", "G06", "G07", "G08", "G09", "G10", "G11", "G12", "G13", "G14",
     "P1", "P2", "P3", "P4", "R-E", "R-D", "R-L"]
  }

  /** The planner's own copy. */
  function RequiredGates(): set<string> {
    {"G01", "G02", "G03", "G04", "G05", "G06", "G07", "G08", "G09", "G10", "G11", "G12", "G13", "G14",
     "P1", "P2", "P3", "P4", "R-D", "R-E", "R-L"}
  }

  /** A hashable JSON value: a string, or a number, boolean or null by some code of it. */
  datatype Value = Str(text: string) | Odd(code: int)

  /** A lane's `gates`: left out, a value that iterates over hashable members (an array if
      `isList`), or one on which `set.update` raises. */
  datatype Gates = Unlisted | Members(isList: bool, members: seq<Value>) | Malformed

  /** `cases` is `None` unless it is an array of strings. */
  datatype Lane = NotObject | Lane(status: string, cases: Option<seq<string>>, gates: Gates)

  /** `gate` is `None` if it is left out or not hashable; other texts of the wrong type are
      empty.  `needs` is empty unless it is an array of strings.  `fields` is empty if it is
      left out, and `None` if it is there and not an array of strings. */
  datatype Requirement = Requirement(gate: Option<Value>, status: string, lane: string, description: string,
                                     needs: seq<string>, fields: Option<seq<string>>)

  /** `ids` names the lanes in file order, without repetition, as a JSON object has them;
      `items` holds `None` for entries that are no objects.  A part of the wrong type is
      empty, which checker and planner refuse alike. */
  datatype Registry = Registry(cases: set<string>, ids: seq<string>, lanes: map<string, Lane>, items: seq<Option<Requirement>>)

  ghost predicate WellFormed(r: Registry) {
    && (forall i, j :: 0 <= i < j < |r.ids| ==> r.ids[i] != r.ids[j])
    && (forall id :: id in r.lanes <==> id in r.ids)
  }

  // ----- the checker's patterns

  predicate Lower(c: char) { 'a' <= c <= 'z' }

  predicate GateName(s: string) {
    s != "" && Upper(s[0]) && forall i :: 0 < i < |s| ==> Upper(s[i]) || Digit(s[i]) || s[i] == '-'
  }

  predicate LaneName(s: string) {
    s != "" && forall i :: 0 <= i < |s| ==> Lower(s[i]) || Digit(s[i]) || s[i] == '-'
  }

  predicate FieldName(s: string) {
    s != "" && s[0] != '_' && forall i :: 0 <= i < |s| ==> Lower(s[i]) || Digit(s[i]) || s[i] == '_'
  }

  predicate Written(s: string) { exists i :: 0 <= i < |s| && !Space(s[i]) }

  function Elements<T(==)>(s: seq<T>): set<T> { set x | x in s }

  // ----- lanes

  predicate LaneOk(lane: Lane, cases: set<string>) {
    lane.Lane? &&
    if lane.status == "implemented" then
      lane.cases.Some? && lane.cases.value != [] && forall c :: c in lane.cases.value ==> c != "" && c in cases
    else
      && lane.status == "pending" && lane.gates.Members? && lane.gates.isList && lane.gates.members != []
      && forall g :: g in lane.gates.members ==> g.Str? && g.text != ""
  }

  ghost predicate LanesOk(r: Registry, n: nat)
    requires WellFormed(r) && n <= |r.ids|
  {
    forall i :: 0 <= i < n ==> LaneName(r.ids[i]) && LaneOk(r.lanes[r.ids[i]], r.cases)
  }

  predicate Pending(r: Registry, id: string) { id in r.lanes && r.lanes[id].Lane? && r.lanes[id].status == "pending" }

  ghost predicate StatusByLane(r: Registry, statuses: map<string, string>) {
    && statuses.Keys == r.lanes.Keys
    && forall id :: id in r.lanes && id in statuses ==> r.lanes[id].Lane? && statuses[id] == r.lanes[id].status
  }

  /** `lane_gates`: the gates of every pending lane. */
  ghost predicate GatesByLane(r: Registry, laneGates: map<string, set<Value>>) {
    && (forall id :: id in laneGates <==> Pending(r, id))
    && (forall id :: Pending(r, id) && id in laneGates ==>
          r.lanes[id].gates.Members? && laneGates[id] == Elements(r.lanes[id].gates.members))
  }

  method CheckLanes(r: Registry) returns (ok: bool, statuses: map<string, string>, laneGates: map<string, set<Value>>)
    requires WellFormed(r)
    ensures ok <==> r.cases != {} && r.ids != [] && LanesOk(r, |r.ids|)
    ensures ok ==> StatusByLane(r, statuses)
    ensures ok ==> GatesByLane(r, laneGates)
  {
    statuses, laneGates := map[], map[];
    if r.cases == {} || r.ids == [] {
      return false, statuses, laneGates;
    }
    hide LaneName, Elements;
    for i := 0 to |r.ids|
      invariant LanesOk(r, i)
      invariant forall id :: id in statuses <==> id in r.ids[..i]
      invariant forall id :: id in statuses ==> r.lanes[id].Lane? && statuses[id] == r.lanes[id].status
      invariant forall id :: id in laneGates <==> id in r.ids[..i] && Pending(r, id)
      invariant forall id :: id in laneGates ==> r.lanes[id].gates.Members? && laneGates[id] == Elements(r.lanes[id].gates.members)
    {
      var id := r.ids[i];
      assert r.ids[..i + 1] == r.ids[..i] + [id];
      var lane := r.lanes[id];
      if !LaneName(id) || !LaneOk(lane, r.cases) {
        return false, statuses, laneGates;
      }
      statuses := statuses[id := lane.status];
      if lane.status == "pending" {
        laneGates := laneGates[id := Elements(lane.gates.members)];
      }
    }
    assert r.ids[..|r.ids|] == r.ids;
    return true, statuses, laneGates;
  }

  // ----- requirements

  predicate GateOk(gate: Option<Value>) { gate.Some? && gate.value.Str? && GateName(gate.value.text) }

  /** One requirement, given the lanes' statuses and the evidence fields its gate needs. */
  predicate ItemOk(r: Registry, Fields: string -> set<string>, item: Requirement) {
    && GateOk(item.gate) && item.status == "pending" && Pending(r, item.lane)
    && Written(item.description)
    && item.needs != [] && (forall s :: s in item.needs ==> Written(s))
    && item.fields.Some? && (forall f :: f in item.fields.value ==> FieldName(f))
    && Fields(item.gate.value.text) <= Elements(item.fields.value)
  }

  ghost predicate ItemsOk(r: Registry, Fields: string -> set<string>, n: nat)
    requires n <= |r.items|
  {
    && (forall i :: 0 <= i < n ==> r.items[i].Some? && ItemOk(r, Fields, r.items[i].value))
    && (forall i, j :: 0 <= i < j < n ==> r.items[i].value.gate != r.items[j].value.gate)
  }

  method CheckItems(r: Registry, Fields: string -> set<string>, statuses: map<string, string>)
    returns (ok: bool, requirements: map<string, Requirement>)
    requires WellFormed(r) && StatusByLane(r, statuses)
    ensures ok <==> r.items != [] && ItemsOk(r, Fields, |r.items|)
    ensures ok ==> Collected(r, requirements, |r.items|)
  {
    requirements := map[];
    if r.items == [] {
      return false, requirements;
    }
    hide GateName, Written, FieldName, Elements, ItemsOk, Collected;
    NoItems(r, Fields);
    for i := 0 to |r.items|
      invariant ItemsOk(r, Fields, i) && Collected(r, requirements, i)
    {
      OneItem(r, Fields, requirements, i);
      if r.items[i].None? || !GateOk(r.items[i].value.gate) {
        return false, requirements;
      }
      var item := r.items[i].value;
      var gate := item.gate.value.text;
      if gate in requirements {
        return false, requirements;
      }
      if item.status != "pending" || item.lane !in statuses || statuses[item.lane] != "pending" {
        return false, requirements;
      }
      if !ItemOk(r, Fields, item) {
        return false, requirements;
      }
      requirements := requirements[gate := item];
    }
    return true, requirements;
  }

  lemma NoItems(r: Registry, Fields: string -> set<string>)
    ensures ItemsOk(r, Fields, 0) && Collected(r, map[], 0)
  {
  }

  /** `requirements` holds the first `n` items by gate. */
  ghost predicate Collected(r: Registry, requirements: map<string, Requirement>, n: nat)
    requires n <= |r.items|
  {
    && (forall i :: 0 <= i < n ==>
          && r.items[i].Some? && GateOk(r.items[i].value.gate)
          && var g := r.items[i].value.gate.value.text; g in requirements && requirements[g] == r.items[i].value)
    && (forall g :: g in requirements ==>
          exists i :: 0 <= i < n && r.items[i] == Some(requirements[g]) && requirements[g].gate == Some(Str(g)))
  }

  /** What the item at `i` must be, given those before it. */
  lemma OneItem(r: Registry, Fields: string -> set<string>, requirements: map<string, Requirement>, i: nat)
    requires i < |r.items| && ItemsOk(r, Fields, i) && Collected(r, requirements, i)
    ensures var ok := r.items[i].Some? && ItemOk(r, Fields, r.items[i].value) && r.items[i].value.gate.value.text !in requirements;
            && (ItemsOk(r, Fields, |r.items|) ==> ok)
            && (ok ==> ItemsOk(r, Fields, i + 1))
            && (ok ==> Collected(r, requirements[r.items[i].value.gate.value.text := r.items[i].value], i + 1))
  {
    hide ItemsOk, Collected, ItemOk;
    ItemGates(r, Fields, i);
    if r.items[i].Some? && ItemOk(r, Fields, r.items[i].value) && r.items[i].value.gate.value.text !in requirements {
      OneMore(r, requirements, i);
      MoreItems(r, Fields, i);
    } else if ItemsOk(r, Fields, |r.items|) {
      Fresh(r, Fields, requirements, i);
    }
  }

  lemma ItemGates(r: Registry, Fields: string -> set<string>, i: nat)
    requires i < |r.items|
    ensures r.items[i].Some? && ItemOk(r, Fields, r.items[i].value) ==> GateOk(r.items[i].value.gate)
  {
  }

  lemma MoreItems(r: Registry, Fields: string -> set<string>, i: nat)
    requires i < |r.items| && ItemsOk(r, Fields, i) && r.items[i].Some? && ItemOk(r, Fields, r.items[i].value)
    requires forall k :: 0 <= k < i ==> r.items[k].Some? && r.items[k].value.gate != r.items[i].value.gate
    ensures ItemsOk(r, Fields, i + 1)
  {
    hide ItemOk;
  }

  /** In an accepted registry the next gate is not yet there. */
  lemma Fresh(r: Registry, Fields: string -> set<string>, requirements: map<string, Requirement>, i: nat)
    requires i < |r.items| && ItemsOk(r, Fields, |r.items|) && Collected(r, requirements, i)
    ensures r.items[i].Some? && ItemOk(r, Fields, r.items[i].value) && GateOk(r.items[i].value.gate)
    ensures r.items[i].value.gate.value.text !in requirements
  {
    ItemGates(r, Fields, i);
    hide ItemOk;
    var g := r.items[i].value.gate.value.text;
    forall k | 0 <= k < i ensures r.items[k].value.gate != Some(Str(g)) {
    }
  }

  lemma OneMore(r: Registry, requirements: map<string, Requirement>, i: nat)
    requires i < |r.items| && r.items[i].Some? && GateOk(r.items[i].value.gate) && Collected(r, requirements, i)
    requires r.items[i].value.gate.value.text !in requirements
    ensures Collected(r, requirements[r.items[i].value.gate.value.text := r.items[i].value], i + 1)
    ensures forall k :: 0 <= k < i ==> r.items[k].Some? && r.items[k].value.gate != r.items[i].value.gate
  {
    hide GateName;
    var item := r.items[i].value;
    var g := item.gate.value.text;
    var more := requirements[g := item];
    forall h | h in more ensures exists k :: 0 <= k < i + 1 && r.items[k] == Some(more[h]) && more[h].gate == Some(Str(h)) {
      if h == g {
        assert r.items[i] == Some(more[h]);
      } else {
        var k :| 0 <= k < i && r.items[k] == Some(requirements[h]) && requirements[h].gate == Some(Str(h));
      }
    }
  }

  // ----- the verdict

  ghost predicate HasGate(r: Registry, gate: Value) {
    exists i :: 0 <= i < |r.items| && r.items[i].Some? && r.items[i].value.gate == Some(gate)
  }

  ghost predicate Assigned(r: Registry, gate: Value, id: string) {
    exists i :: 0 <= i < |r.items| && r.items[i].Some? && r.items[i].value.gate == Some(gate) && r.items[i].value.lane == id
  }

  ghost predicate Lists(r: Registry, id: string, gate: Value) {
    Pending(r, id) && r.lanes[id].gates.Members? && gate in r.lanes[id].gates.members
  }

  /** Every pending lane lists exactly the gates assigned to it. */
  ghost predicate LanesMatch(r: Registry) {
    forall id, gate :: Pending(r, id) ==> (Lists(r, id, gate) <==> Assigned(r, gate, id))
  }

  ghost predicate CheckerAccepts(r: Registry, Fields: string -> set<string>)
    requires WellFormed(r)
  {
    && r.cases != {} && r.ids != [] && LanesOk(r, |r.ids|)
    && r.items != [] && ItemsOk(r, Fields, |r.items|)
    && (forall g :: g in Required() ==> HasGate(r, Str(g)))
    && LanesMatch(r)
  }

  method CheckRegistry(r: Registry, Fields: string -> set<string>) returns (ok: bool)
    requires WellFormed(r)
    ensures ok <==> CheckerAccepts(r, Fields)
  {
    hide LanesOk, ItemsOk, Collected, LanesMatch, HasGate, Elements, Required, GatesByLane, StatusByLane;
    var lanesOk, statuses, laneGates := CheckLanes(r);
    if !lanesOk {
      return false;
    }
    var itemsOk, requirements := CheckItems(r, Fields, statuses);
    if !itemsOk {
      return false;
    }
    GatesAreKeys(r, requirements);
    if exists g | g in Required() :: g !in requirements {
      return false;
    }
    assert forall g :: g in Required() ==> HasGate(r, Str(g));
    ok := MatchLanes(r, requirements, laneGates);
  }

  lemma GatesAreKeys(r: Registry, requirements: map<string, Requirement>)
    requires Collected(r, requirements, |r.items|)
    ensures forall g :: g in requirements <==> HasGate(r, Str(g))
    ensures forall g, id :: Assigned(r, g, id) <==> g.Str? && g.text in requirements && requirements[g.text].lane == id
  {
    hide GateName;
    forall g | g in requirements ensures HasGate(r, Str(g)) && Assigned(r, Str(g), requirements[g].lane) {
      var i :| 0 <= i < |r.items| && r.items[i] == Some(requirements[g]) && requirements[g].gate == Some(Str(g));
      assert r.items[i].value.lane == requirements[g].lane;
    }
  }

  /** The loop over `lane_gates`. */
  method MatchLanes(r: Registry, requirements: map<string, Requirement>, laneGates: map<string, set<Value>>) returns (ok: bool)
    requires WellFormed(r) && Collected(r, requirements, |r.items|)
    requires GatesByLane(r, laneGates)
    ensures ok <==> LanesMatch(r)
  {
    GatesAreKeys(r, requirements);
    hide Collected, Pending, Assigned;
    var todo := laneGates.Keys;
    while todo != {}
      invariant todo <= laneGates.Keys
      invariant forall id, gate :: id in laneGates && id !in todo ==> (gate in laneGates[id] <==> Assigned(r, gate, id))
    {
      var id :| id in todo;
      var gates := laneGates[id];
      var known := set g | g in requirements :: Str(g);
      var mapped := set g | g in requirements && requirements[g].lane == id :: Str(g);
      assert forall g :: g in mapped <==> Assigned(r, g, id);
      assert mapped <= known;
      if !(gates <= known) || gates != mapped {
        Mismatch(r, laneGates, id, mapped);
        return false;
      }
      todo := todo - {id};
    }
    return true;
  }

  lemma Mismatch(r: Registry, laneGates: map<string, set<Value>>, id: string, mapped: set<Value>)
    requires WellFormed(r) && id in laneGates && Pending(r, id)
    requires r.lanes[id].gates.Members? && laneGates[id] == Elements(r.lanes[id].gates.members)
    requires forall g :: g in mapped <==> Assigned(r, g, id)
    requires laneGates[id] != mapped
    ensures !LanesMatch(r)
  {
    hide Assigned;
    var g :| (g in laneGates[id]) != (g in mapped);
    assert Lists(r, id, g) != Assigned(r, g, id);
  }

  // ----- the partition

  /** In an accepted registry every gate stands in exactly one pending lane, and nothing else does. */
  lemma LanesPartitionGates(r: Registry, Fields: string -> set<string>, gate: Value)
    requires WellFormed(r) && CheckerAccepts(r, Fields)
    ensures HasGate(r, gate) <==> exists id :: Lists(r, id, gate)
    ensures forall a, b :: Lists(r, a, gate) && Lists(r, b, gate) ==> a == b
    ensures gate.Str? && gate.text in Required() ==> exists id :: Lists(r, id, gate)
  {
    hide LanesOk, ItemOk;
    if HasGate(r, gate) {
      var i :| 0 <= i < |r.items| && r.items[i].Some? && r.items[i].value.gate == Some(gate);
      var id := r.items[i].value.lane;
      PendingLane(r, Fields, i);
      assert Assigned(r, gate, id);
      assert Lists(r, id, gate);
    }
    forall a, b | Lists(r, a, gate) && Lists(r, b, gate) ensures a == b {
      assert Assigned(r, gate, a) && Assigned(r, gate, b);
    }
    if id :| Lists(r, id, gate) {
      assert Assigned(r, gate, id);
    }
  }

  lemma PendingLane(r: Registry, Fields: string -> set<string>, i: nat)
    requires WellFormed(r) && ItemsOk(r, Fields, |r.items|) && i < |r.items| && r.items[i].Some?
    ensures Pending(r, r.items[i].value.lane)
  {
    assert ItemOk(r, Fields, r.items[i].value);
  }

  // ----- the planner

  /** What `set.update` adds. */
  function Names(gates: Gates): set<Value> { if gates.Members? then Elements(gates.members) else {} }

  ghost predicate Covered(r: Registry, n: nat, gate: Value)
    requires WellFormed(r) && n <= |r.ids|
  {
    exists i :: 0 <= i < n && r.lanes[r.ids[i]].Lane? && gate in Names(r.lanes[r.ids[i]].gates)
  }

  predicate Readable(lane: Lane) { lane.Lane? && !lane.gates.Malformed? }

  ghost predicate PlannerAccepts(r: Registry)
    requires WellFormed(r)
  {
    && (forall i :: 0 <= i < |r.items| ==> r.items[i].Some? && r.items[i].value.gate.Some?)
    && (forall g :: g in RequiredGates() ==> HasGate(r, Str(g)))
    && r.ids != [] && (forall i :: 0 <= i < |r.ids| ==> Readable(r.lanes[r.ids[i]]))
    && forall g :: HasGate(r, g) ==> Covered(r, |r.ids|, g)
  }

  /** `validate_registry`: every entry's gate is read, missing lanes and gates are errors. */
  method ValidateRegistry(r: Registry) returns (ok: bool)
    requires WellFormed(r)
    ensures ok <==> PlannerAccepts(r)
  {
    hide HasGate, Readable, RequiredGates, Covered;
    if exists i | 0 <= i < |r.items| :: r.items[i].None? || r.items[i].value.gate.None? {
      return false;
    }
    var gates := GatesOf(r.items, |r.items|);
    GatesOfHas(r);
    if (exists g | g in RequiredGates() :: Str(g) !in gates) || r.ids == [] {
      return false;
    }
    var readable, laneGates := CollectGates(r);
    return readable && gates <= laneGates;
  }

  /** `{item["gate"] for item in …}`. */
  function GatesOf(items: seq<Option<Requirement>>, n: nat): set<Value>
    requires n <= |items|
  {
    if n == 0 then {}
    else
      GatesOf(items, n - 1) +
      if items[n - 1].Some? && items[n - 1].value.gate.Some? then {items[n - 1].value.gate.value} else {}
  }

  lemma {:induction false} GatesOfMembers(items: seq<Option<Requirement>>, n: nat, g: Value)
    requires n <= |items|
    ensures g in GatesOf(items, n) <==> exists i :: 0 <= i < n && items[i].Some? && items[i].value.gate == Some(g)
  {
    if n > 0 {
      GatesOfMembers(items, n - 1, g);
    }
  }

  lemma GatesOfHas(r: Registry)
    ensures forall g :: g in GatesOf(r.items, |r.items|) <==> HasGate(r, g)
  {
    forall g ensures g in GatesOf(r.items, |r.items|) <==> HasGate(r, g) {
      GatesOfMembers(r.items, |r.items|, g);
    }
  }

  /** The loop that grows the planner's `lane_gates`. */
  method CollectGates(r: Registry) returns (readable: bool, laneGates: set<Value>)
    requires WellFormed(r)
    ensures readable <==> forall i :: 0 <= i < |r.ids| ==> Readable(r.lanes[r.ids[i]])
    ensures readable ==> forall g :: g in laneGates <==> Covered(r, |r.ids|, g)
  {
    laneGates := {};
    for i := 0 to |r.ids|
      invariant forall k :: 0 <= k < i ==> Readable(r.lanes[r.ids[k]])
      invariant forall g :: g in laneGates <==> Covered(r, i, g)
    {
      hide Names, Readable, Covered;
      var lane := r.lanes[r.ids[i]];
      if !Readable(lane) {
        return false, laneGates;
      }
      CoveredStep(r, i);
      laneGates := laneGates + Names(lane.gates);
    }
    return true, laneGates;
  }

  lemma CoveredStep(r: Registry, i: nat)
    requires WellFormed(r) && i < |r.ids| && Readable(r.lanes[r.ids[i]])
    ensures r.lanes[r.ids[i]].Lane?
    ensures forall g :: Covered(r, i + 1, g) <==> Covered(r, i, g) || g in Names(r.lanes[r.ids[i]].gates)
  {
    hide Names;
  }

  lemma SameRequiredGates(g: string)
    ensures g in Required() <==> g in RequiredGates()
  {
  }

  /** A registry the checker accepts is accepted by the planner exactly when no lane has
      a `gates` value that cannot be read as a list of names. */
  lemma PlannerAcceptsWhatTheCheckerAccepts(r: Registry, Fields: string -> set<string>)
    requires WellFormed(r) && CheckerAccepts(r, Fields)
    ensures PlannerAccepts(r) <==> forall id :: id in r.lanes ==> !r.lanes[id].gates.Malformed?
  {
    hide ItemOk, LaneOk, LaneName, Names, LanesOk, LanesMatch, HasGate, Covered, Lists, Required, RequiredGates, Pending;
    forall i | 0 <= i < |r.ids| ensures r.lanes[r.ids[i]].Lane? {
      ObjectLane(r, i);
    }
    forall g | HasGate(r, g) ensures Covered(r, |r.ids|, g) {
      LanesPartitionGates(r, Fields, g);
      var id :| Lists(r, id, g);
      ListedIsCovered(r, id, g);
    }
    forall g | g in RequiredGates() ensures HasGate(r, Str(g)) {
      SameRequiredGates(g);
    }
    forall i | 0 <= i < |r.items| ensures r.items[i].Some? && r.items[i].value.gate.Some? {
      ItemHasGate(r, Fields, i);
    }
    assert (forall i :: 0 <= i < |r.ids| ==> Readable(r.lanes[r.ids[i]]))
      <==> forall id :: id in r.lanes ==> !r.lanes[id].gates.Malformed?;
  }

  lemma ObjectLane(r: Registry, i: nat)
    requires WellFormed(r) && LanesOk(r, |r.ids|) && i < |r.ids|
    ensures r.lanes[r.ids[i]].Lane?
  {
  }

  lemma ItemHasGate(r: Registry, Fields: string -> set<string>, i: nat)
    requires ItemsOk(r, Fields, |r.items|) && i < |r.items|
    ensures r.items[i].Some? && r.items[i].value.gate.Some?
  {
  }

  lemma ListedIsCovered(r: Registry, id: string, gate: Value)
    requires WellFormed(r) && Lists(r, id, gate)
    ensures Covered(r, |r.ids|, gate)
  {
    var i :| 0 <= i < |r.ids| && r.ids[i] == id;
  }

  // ----- a registry on which checker and planner disagree

  function SampleItem(gate: string, fields: seq<string>): Requirement {
    Requirement(Some(Str(gate)), "pending", "l", "d", ["d"], Some(fields))
  }

  /** One pending lane with all required gates, each with the evidence fields listed for it, and
      an implemented lane whose `gates` is no collection. */
  function Disputed(Listing: string -> seq<string>): Registry {
    Registry({"c"}, ["l", "i"],
             map["l" := Lane("pending", None, Members(true, seq(|Required()|, k requires 0 <= k < |Required()| => Str(Required()[k])))),
                 "i" := Lane("implemented", Some(["c"]), Malformed)],
             seq(|Required()|, k requires 0 <= k < |Required()| => Some(SampleItem(Required()[k], Listing(Required()[k])))))
  }

  /** `Listing` writes the table of required evidence fields down, in field names. */
  ghost predicate ListsFields(Listing: string -> seq<string>, Fields: string -> set<string>) {
    forall g :: Elements(Listing(g)) == Fields(g) && forall f :: f in Listing(g) ==> FieldName(f)
  }

  /** A number for each required gate, to tell them apart. */
  function GateNumber(g: string): int
    requires |g| >= 2
  {
    if |g| == 2 then g[1] as int else g[1] as int * 256 + g[2] as int
  }

  lemma RequiredNames(k: nat)
    requires k < |Required()|
    ensures |Required()| == 21 && GateName(Required()[k]) && |Required()[k]| >= 2
    ensures GateNumber(Required()[k]) ==
            if k < 9 then 12337 + k else if k < 14 then 12592 + (k - 9) else if k < 18 then 49 + (k - 14)
            else if k == 18 then 11589 else if k == 19 then 11588 else 11596
  {
  }

  lemma RequiredDistinct(i: nat, j: nat)
    requires i < j < |Required()|
    ensures Required()[i] != Required()[j]
  {
    hide Required, GateName, GateNumber;
    RequiredNames(i);
    RequiredNames(j);
  }

  lemma DisputedItems(Listing: string -> seq<string>, Fields: string -> set<string>)
    requires ListsFields(Listing, Fields)
    ensures WellFormed(Disputed(Listing)) && ItemsOk(Disputed(Listing), Fields, |Disputed(Listing).items|)
  {
    hide Required, GateName, FieldName, Elements;
    var r := Disputed(Listing);
    assert Written("d") by { assert !Space("d"[0]); }
    forall i | 0 <= i < |r.items| ensures r.items[i].Some? && ItemOk(r, Fields, r.items[i].value) {
      RequiredNames(i);
    }
    forall i, j | 0 <= i < j < |r.items| ensures r.items[i].value.gate != r.items[j].value.gate {
      RequiredDistinct(i, j);
    }
  }

  lemma DisputedMatches(Listing: string -> seq<string>)
    ensures WellFormed(Disputed(Listing)) && LanesMatch(Disputed(Listing))
    ensures forall g :: g in Required() ==> HasGate(Disputed(Listing), Str(g))
  {
    hide Required;
    var r := Disputed(Listing);
    forall g ensures g in r.lanes["l"].gates.members <==> Assigned(r, g, "l") {
      if g in r.lanes["l"].gates.members {
        var k :| 0 <= k < |Required()| && g == Str(Required()[k]);
        assert r.items[k] == Some(SampleItem(Required()[k], Listing(Required()[k])));
      }
      if k :| 0 <= k < |r.items| && r.items[k].Some? && r.items[k].value.gate == Some(g) && r.items[k].value.lane == "l" {
        assert r.lanes["l"].gates.members[k] == g;
      }
    }
    forall g | g in Required() ensures HasGate(r, Str(g)) {
      var k :| 0 <= k < |Required()| && Required()[k] == g;
      assert r.items[k] == Some(SampleItem(Required()[k], Listing(Required()[k])));
    }
  }

  /** For every table of evidence fields the checker accepts this registry and the planner refuses it. */
  lemma PlannerCanRefuse(Listing: string -> seq<string>, Fields: string -> set<string>)
    requires ListsFields(Listing, Fields)
    ensures WellFormed(Disputed(Listing)) && CheckerAccepts(Disputed(Listing), Fields) && !PlannerAccepts(Disputed(Listing))
  {
    var r := Disputed(Listing);
    DisputedItems(Listing, Fields);
    DisputedMatches(Listing);
    DisputedLanes(Listing);
    hide Required, ItemsOk, LanesMatch, LanesOk, HasGate, PlannerAccepts;
    PlannerAcceptsWhatTheCheckerAccepts(r, Fields);
  }

  lemma DisputedLanes(Listing: string -> seq<string>)
    ensures var r := Disputed(Listing); WellFormed(r) && r.items != [] && LanesOk(r, 2) && r.lanes["i"].gates.Malformed?
  {
    RequiredNames(0);
    forall k | 0 <= k < |Required()| ensures Required()[k] != "" {
      RequiredNames(k);
    }
    hide Required;
  }
}
