/** Grouping the cells of a floorplan by the physical region that constrains them. */
module XdcGroups {
  import opened Wrappers
  import opened RegionTags

  /** Only streams have an instance of their own; the others are AXI and control channels. */
  datatype Channel = Stream(fifo: string) | Other(name: string)

  /** `route` are the slots from head to tail and `regRegions` those of the body registers. */
  datatype Route = Route(channel: Channel, route: seq<string>, regRegions: seq<string>)

  datatype Floorplan = Floorplan(device: string, cols: nat, rows: nat, regions: map<string, string>, routes: seq<Route>)

  datatype Device = Device(key: string, cols: nat, rows: nat, slots: set<(nat, nat)>, slrOnly: bool)

  datatype Cell = Instance(name: string) | Head(route: nat) | Body(route: nat, index: nat) | Tail(route: nat)

  type Groups = map<string, seq<Cell>>

  // ----- validation

  /** Inside the grid, on existing slots only, and a single slot where each is one super logic region. */
  ghost predicate Fits(d: Device, c: Coor) {
    && c.urX < d.cols && c.urY < d.rows
    && (forall x: nat, y: nat :: c.Covers(x, y) ==> (x, y) in d.slots)
    && (d.slrOnly ==> c.Atomic())
  }

  ghost predicate ValidRegion(d: Device, region: string) {
    FromRegionOrSlotName(region).Some? && Fits(d, FromRegionOrSlotName(region).value)
  }

  predicate ValidStage(d: Device, stage: string) {
    var c := FromAtomicRegionName(stage);
    c.Some? && (c.value.dlX, c.value.dlY) in d.slots
  }

  ghost predicate ValidRoute(d: Device, r: Route) {
    r.route != [] && ValidStages(d, r.route) && ValidStages(d, r.regRegions)
  }

  /** Two keys that differ only by the suffix of a FIFO; `cellName` is the identifier made from a key. */
  ghost predicate AmbiguousSuffix(f: Floorplan, cellName: map<string, string>)
    requires f.regions.Keys <= cellName.Keys
  {
    exists a, b :: a in f.regions && b in f.regions && cellName[b] == cellName[a] + "_fifo"
  }

  ghost predicate ValidResult(f: Floorplan, d: Device, cellName: map<string, string>)
    requires f.regions.Keys <= cellName.Keys
  {
    && f.device == d.key && f.cols == d.cols && f.rows == d.rows
    && (forall k :: k in f.regions ==> ValidRegion(d, f.regions[k]))
    && (forall r :: 0 <= r < |f.routes| ==> ValidRoute(d, f.routes[r]))
    && !AmbiguousSuffix(f, cellName)
  }

  method ValidateRegion(d: Device, region: string) returns (ok: bool)
    ensures ok <==> ValidRegion(d, region)
  {
    var c := FromRegionOrSlotName(region);
    if c.None? {
      return false;
    }
    ok := ValidateRectangle(d, c.value);
  }

  method ValidateRectangle(d: Device, c: Coor) returns (ok: bool)
    ensures ok <==> Fits(d, c)
  {
    if c.urX >= d.cols || c.urY >= d.rows {
      return false;
    }
    var cells := AllSlotCoors(c);
    for i := 0 to |cells|
      invariant forall j :: 0 <= j < i ==> cells[j] in d.slots
    {
      if cells[i] !in d.slots {
        assert cells[i] in cells && c.Covers(cells[i].0, cells[i].1);
        return false;
      }
    }
    forall x: nat, y: nat | c.Covers(x, y)
      ensures (x, y) in d.slots
    {
      assert (x, y) in cells;
    }
    return !d.slrOnly || c.Atomic();
  }

  ghost predicate ValidStages(d: Device, stages: seq<string>) {
    forall i :: 0 <= i < |stages| ==> ValidStage(d, stages[i])
  }

  method ValidateStages(d: Device, stages: seq<string>) returns (ok: bool)
    ensures ok <==> ValidStages(d, stages)
  {
    var checked := seq(|stages|, i requires 0 <= i < |stages| => ValidStage(d, stages[i]));
    ok := false !in checked;
    assert forall i :: 0 <= i < |stages| ==> checked[i] == ValidStage(d, stages[i]);
  }

  method ValidateRoute(d: Device, r: Route) returns (ok: bool)
    ensures ok <==> ValidRoute(d, r)
  {
    if r.route == [] {
      return false;
    }
    ok := ValidateStages(d, r.route);
    if ok {
      ok := ValidateStages(d, r.regRegions);
    }
  }

  method ValidateSuffixes(f: Floorplan, cellName: map<string, string>) returns (ok: bool)
    requires f.regions.Keys <= cellName.Keys
    ensures ok <==> !AmbiguousSuffix(f, cellName)
  {
    var byName := map k | k in f.regions :: cellName[k];
    var names := byName.Values;
    var pending := names;
    while pending != {}
      invariant pending <= names && forall n :: n in names - pending ==> n + "_fifo" !in names
    {
      var name :| name in pending;
      if name + "_fifo" in names {
        var a :| a in byName && byName[a] == name;
        var b :| b in byName && byName[b] == name + "_fifo";
        return false;
      }
      pending := pending - {name};
    }
    forall a, b | a in f.regions && b in f.regions
      ensures cellName[b] != cellName[a] + "_fifo"
    {
      assert byName[a] in names && byName[b] in names;
      assert byName[a] in names - pending;
    }
    return true;
  }

  method ValidateResult(f: Floorplan, d: Device, cellName: map<string, string>) returns (ok: bool)
    requires f.regions.Keys <= cellName.Keys
    ensures ok <==> ValidResult(f, d, cellName)
  {
    if f.device != d.key || f.cols != d.cols || f.rows != d.rows {
      return false;
    }
    var pending := f.regions.Keys;
    while pending != {}
      invariant pending <= f.regions.Keys
      invariant forall k :: k in f.regions && k !in pending ==> ValidRegion(d, f.regions[k])
    {
      var k :| k in pending;
      var valid := ValidateRegion(d, f.regions[k]);
      if !valid {
        return false;
      }
      pending := pending - {k};
    }
    for r := 0 to |f.routes|
      invariant forall q :: 0 <= q < r ==> ValidRoute(d, f.routes[q])
    {
      var valid := ValidateRoute(d, f.routes[r]);
      if !valid {
        return false;
      }
    }
    ok := ValidateSuffixes(f, cellName);
  }

  // ----- grouping

  predicate Routed(f: Floorplan, name: string) {
    exists r :: 0 <= r < |f.routes| && f.routes[r].channel == Stream(name)
  }

  /** The region whose constraint a cell must be in; a routed stream is constrained stage by stage only. */
  ghost function RegionOf(f: Floorplan, cell: Cell): Option<string>
    requires forall r :: 0 <= r < |f.routes| ==> f.routes[r].route != []
  {
    match cell
    case Instance(name) => if name in f.regions && !Routed(f, name) then Some(f.regions[name]) else None
    case Head(r) => if r < |f.routes| then Some(f.routes[r].route[0]) else None
    case Body(r, i) => if r < |f.routes| && i < |f.routes[r].regRegions| then Some(f.routes[r].regRegions[i]) else None
    case Tail(r) => if r < |f.routes| then Some(f.routes[r].route[|f.routes[r].route| - 1]) else None
  }

  ghost function Count(groups: Groups, key: string, cell: Cell): nat {
    if key in groups then multiset(groups[key])[cell] else 0
  }

  /** Each placed cell is once in the group of its region, nowhere else, and no other cell is anywhere. */
  ghost predicate Places(groups: Groups, placed: map<Cell, string>) {
    && (forall key :: key in groups ==> groups[key] != [])
    && forall key, cell :: Count(groups, key, cell) ==
         if cell in placed && CanonicalPblockName(placed[cell]) == key then 1 else 0
  }

  method AddCell(groups: Groups, region: string, cell: Cell, ghost placed: map<Cell, string>) returns (groups': Groups)
    requires Places(groups, placed) && cell !in placed
    ensures Places(groups', placed[cell := region])
  {
    var name := CanonicalPblockName(region);
    var before := if name in groups then groups[name] else [];
    groups' := groups[name := before + [cell]];
    forall key, c
      ensures Count(groups', key, c) == Count(groups, key, c) + if key == name && c == cell then 1 else 0
    {
      assert multiset(before + [cell]) == multiset(before) + multiset{cell};
    }
  }

  /** The instances of `names` that are not routed streams. */
  ghost predicate InstancesPlaced(f: Floorplan, names: set<string>, placed: map<Cell, string>) {
    && (forall c :: c in placed <==> c.Instance? && c.name in names && !Routed(f, c.name))
    && (forall c :: c in placed ==> c.name in f.regions && placed[c] == f.regions[c.name])
  }

  method AddInstances(f: Floorplan) returns (groups: Groups, ghost placed: map<Cell, string>)
    ensures Places(groups, placed) && InstancesPlaced(f, f.regions.Keys, placed)
  {
    groups, placed := map[], map[];
    var pending := f.regions.Keys;
    ghost var done: set<string> := {};
    while pending != {}
      invariant done + pending == f.regions.Keys && done !! pending
      invariant Places(groups, placed) && InstancesPlaced(f, done, placed)
    {
      var name :| name in pending;
      if !Routed(f, name) {
        groups := AddCell(groups, f.regions[name], Instance(name), placed);
        placed := placed[Instance(name) := f.regions[name]];
      }
      pending, done := pending - {name}, done + {name};
    }
  }

  /** All instances, and the stages of the first `n` routes. */
  ghost predicate PlacedTo(f: Floorplan, n: nat, placed: map<Cell, string>)
    requires forall r :: 0 <= r < |f.routes| ==> f.routes[r].route != []
  {
    forall c :: Placement(placed, c) == if c.Instance? || c.route < n then RegionOf(f, c) else None
  }

  ghost function Placement(placed: map<Cell, string>, c: Cell): Option<string> {
    if c in placed then Some(placed[c]) else None
  }

  /** As `PlacedTo`, with the Head and the first `bodies` Body stages of route `n` as well. */
  ghost predicate PlacedInto(f: Floorplan, n: nat, bodies: nat, placed: map<Cell, string>)
    requires forall r :: 0 <= r < |f.routes| ==> f.routes[r].route != []
  {
    forall c :: Placement(placed, c) ==
      if c.Instance? || c.route < n || c == Head(n) || (c.Body? && c.route == n && c.index < bodies)
      then RegionOf(f, c) else None
  }

  method AddRoute(f: Floorplan, n: nat, groups0: Groups, ghost placed0: map<Cell, string>)
    returns (groups: Groups, ghost placed: map<Cell, string>)
    requires forall r :: 0 <= r < |f.routes| ==> f.routes[r].route != []
    requires n < |f.routes| && Places(groups0, placed0) && PlacedTo(f, n, placed0)
    ensures Places(groups, placed) && PlacedTo(f, n + 1, placed)
  {
    var route := f.routes[n];
    var head, tail := route.route[0], route.route[|route.route| - 1];
    assert Placement(placed0, Head(n)).None?;
    groups := AddCell(groups0, head, Head(n), placed0);
    placed := placed0[Head(n) := head];
    for i := 0 to |route.regRegions|
      invariant Places(groups, placed) && PlacedInto(f, n, i, placed)
    {
      assert Placement(placed, Body(n, i)).None?;
      groups := AddCell(groups, route.regRegions[i], Body(n, i), placed);
      placed := placed[Body(n, i) := route.regRegions[i]];
    }
    assert Placement(placed, Tail(n)).None?;
    groups := AddCell(groups, tail, Tail(n), placed);
    placed := placed[Tail(n) := tail];
  }

  /** Each cell that must be constrained is once in the group of its region, and no other cell is in any group. */
  ghost predicate IsGrouping(f: Floorplan, groups: Groups)
    requires forall r :: 0 <= r < |f.routes| ==> f.routes[r].route != []
  {
    && (forall key :: key in groups ==> groups[key] != [])
    && forall key, cell :: Count(groups, key, cell) ==
         if RegionOf(f, cell).Some? && CanonicalPblockName(RegionOf(f, cell).value) == key then 1 else 0
  }

  method GroupCells(f: Floorplan, d: Device, cellName: map<string, string>) returns (r: Option<Groups>)
    requires f.regions.Keys <= cellName.Keys
    ensures r.Some? <==> ValidResult(f, d, cellName)
    ensures r.Some? ==> (forall n :: 0 <= n < |f.routes| ==> f.routes[n].route != []) && IsGrouping(f, r.value)
  {
    var valid := ValidateResult(f, d, cellName);
    if !valid {
      return None;
    }
    assert forall n :: 0 <= n < |f.routes| ==> ValidRoute(d, f.routes[n]);
    var groups := GroupValid(f);
    return Some(groups);
  }

  method GroupValid(f: Floorplan) returns (groups: Groups)
    requires forall n :: 0 <= n < |f.routes| ==> f.routes[n].route != []
    ensures IsGrouping(f, groups)
  {
    ghost var placed;
    groups, placed := AddInstances(f);
    assert PlacedTo(f, 0, placed);
    for n := 0 to |f.routes|
      invariant Places(groups, placed) && PlacedTo(f, n, placed)
    {
      groups, placed := AddRoute(f, n, groups, placed);
    }
    assert forall c :: Placement(placed, c) == RegionOf(f, c);
  }

  /** In a valid floorplan, two cells share a group exactly when their tags denote the same rectangle. */
  lemma SameGroupIffSameRectangle(f: Floorplan, d: Device, cellName: map<string, string>, groups: Groups, a: Cell,
                                  b: Cell)
    requires f.regions.Keys <= cellName.Keys && ValidResult(f, d, cellName)
    requires forall n :: 0 <= n < |f.routes| ==> f.routes[n].route != []
    requires IsGrouping(f, groups) && RegionOf(f, a).Some? && RegionOf(f, b).Some?
    ensures (exists key :: key in groups && a in groups[key] && b in groups[key]) <==>
              FromRegionOrSlotName(RegionOf(f, a).value) == FromRegionOrSlotName(RegionOf(f, b).value)
  {
    var s, t := RegionOf(f, a).value, RegionOf(f, b).value;
    RegionIsValid(f, d, cellName, a);
    SamePblockIffSameRectangle(s, t);
    var key := CanonicalPblockName(s);
    assert Count(groups, key, a) == 1;
    forall k | k in groups
      ensures (a in groups[k] <==> k == key) && (b in groups[k] <==> k == CanonicalPblockName(t))
    {
      assert Count(groups, k, a) == multiset(groups[k])[a] && Count(groups, k, b) == multiset(groups[k])[b];
    }
  }

  lemma RegionIsValid(f: Floorplan, d: Device, cellName: map<string, string>, a: Cell)
    requires f.regions.Keys <= cellName.Keys && ValidResult(f, d, cellName)
    requires forall n :: 0 <= n < |f.routes| ==> f.routes[n].route != []
    requires RegionOf(f, a).Some?
    ensures FromRegionOrSlotName(RegionOf(f, a).value).Some?
  {
    if a.Instance? {
      assert ValidRegion(d, f.regions[a.name]);
    } else {
      var route := f.routes[a.route];
      assert ValidRoute(d, route);
      assert ValidStage(d, RegionOf(f, a).value);
    }
  }
}
