/** Spatial bases: machines grouped by connected regions of occupied grid cells. */
module BaseIndexes {
  import opened Graphs
  import opened Sorting
  import opened UnionFinds

  datatype Point = Point(x: real, y: real, z: real)
  datatype MachineRecord = MachineRecord(instance: string, position: Point)
  datatype CellKey = CellKey(cx: int, cy: int)

  const BASE_CELL_SIZE := 24000.0

  function CellOf(pos: Point): CellKey {
    CellKey((pos.x / BASE_CELL_SIZE).Floor, (pos.y / BASE_CELL_SIZE).Floor)
  }

  /** A position lies in its cell, a square of 24000 units whose lower edges belong to
      it, and in no other. */
  lemma CellBounds(pos: Point, cell: CellKey)
    ensures CellOf(pos) == cell
      <==> (24000.0 * cell.cx as real <= pos.x < 24000.0 * (cell.cx + 1) as real
            && 24000.0 * cell.cy as real <= pos.y < 24000.0 * (cell.cy + 1) as real)
  {
    FloorBounds(pos.x, cell.cx);
    FloorBounds(pos.y, cell.cy);
  }

  lemma FloorBounds(x: real, k: int)
    ensures (x / BASE_CELL_SIZE).Floor == k <==> 24000.0 * k as real <= x < 24000.0 * (k + 1) as real
  {
    var q := x / BASE_CELL_SIZE;
    assert q * 24000.0 == x;
    assert q.Floor == k <==> k as real <= q < (k + 1) as real;
  }

  // ---- The reference meaning of a base ----

  ghost function Occupied(machines: seq<MachineRecord>): set<CellKey> {
    set m | m in machines :: CellOf(m.position)
  }

  /** The eight cells around `a`. */
  predicate Neighbors(a: CellKey, b: CellKey) {
    a != b && -1 <= b.cx - a.cx <= 1 && -1 <= b.cy - a.cy <= 1
  }

  ghost function Touching(cells: set<CellKey>): set<(CellKey, CellKey)> {
    set a, b | a in cells && b in cells && Neighbors(a, b) :: (a, b)
  }

  /** A chain of occupied cells, each touching the next, links `a` to `b`. */
  ghost predicate SameRegion(cells: set<CellKey>, a: CellKey, b: CellKey) {
    Connected(Touching(cells), a, b)
  }

  /** The machines standing on any of `cells`. */
  ghost function MachinesIn(machines: seq<MachineRecord>, cells: set<CellKey>): multiset<MachineRecord> {
    if machines == [] then multiset{}
    else
      MachinesIn(machines[1..], cells) + (if CellOf(machines[0].position) in cells then multiset{machines[0]} else multiset{})
  }

  predicate InstanceLess(a: MachineRecord, b: MachineRecord) {
    StringLess(a.instance, b.instance)
  }

  /** More machines first, ties by first instance. */
  predicate BaseLess(a: seq<MachineRecord>, b: seq<MachineRecord>) {
    |a| > |b| || (|a| == |b| && 0 < |b| && InstanceLess(a[0], b[0]))
  }

  function SumX(ms: seq<MachineRecord>): real { if ms == [] then 0.0 else ms[0].position.x + SumX(ms[1..]) }
  function SumY(ms: seq<MachineRecord>): real { if ms == [] then 0.0 else ms[0].position.y + SumY(ms[1..]) }
  function SumZ(ms: seq<MachineRecord>): real { if ms == [] then 0.0 else ms[0].position.z + SumZ(ms[1..]) }

  function Centroid(ms: seq<MachineRecord>): Point {
    if ms == [] then Point(0.0, 0.0, 0.0)
    else
      var n := |ms| as real;
      Point(SumX(ms) / n, SumY(ms) / n, SumZ(ms) / n)
  }

  /** How far the machines lie from `c`, added up along each axis. */
  function Offsets(ms: seq<MachineRecord>, c: Point): Point {
    if ms == [] then Point(0.0, 0.0, 0.0)
    else
      var rest, p := Offsets(ms[1..], c), ms[0].position;
      Point(rest.x + (p.x - c.x), rest.y + (p.y - c.y), rest.z + (p.z - c.z))
  }

  lemma {:induction false} OffsetsSum(ms: seq<MachineRecord>, c: Point)
    ensures Offsets(ms, c).x == SumX(ms) - |ms| as real * c.x
    ensures Offsets(ms, c).y == SumY(ms) - |ms| as real * c.y
    ensures Offsets(ms, c).z == SumZ(ms) - |ms| as real * c.z
  {
    if ms != [] {
      OffsetsSum(ms[1..], c);
    }
  }

  /** The machines of a base balance around its centroid, along each axis by itself. */
  lemma CentroidBalances(ms: seq<MachineRecord>)
    requires ms != []
    ensures Offsets(ms, Centroid(ms)) == Point(0.0, 0.0, 0.0)
  {
    hide Offsets;
    OffsetsSum(ms, Centroid(ms));
  }

  datatype BaseIndex = BaseIndex(
    bases: seq<seq<MachineRecord>>, cellBase: map<CellKey, nat>, centroids: seq<Point>)

  ghost function CellsOfBase(idx: BaseIndex, id: nat): set<CellKey> {
    set k | k in idx.cellBase && idx.cellBase[k] == id
  }

  ghost predicate IsBase(machines: seq<MachineRecord>, idx: BaseIndex, id: nat)
    requires id < |idx.bases| == |idx.centroids|
  {
    && idx.bases[id] != []
    && multiset(idx.bases[id]) == MachinesIn(machines, CellsOfBase(idx, id))
    && Sorted(InstanceLess, idx.bases[id])
    && idx.centroids[id] == Centroid(idx.bases[id])
  }

  ghost predicate IsBaseIndex(machines: seq<MachineRecord>, idx: BaseIndex) {
    && |idx.bases| == |idx.centroids|
    && idx.cellBase.Keys == Occupied(machines)
    && (forall k | k in idx.cellBase :: idx.cellBase[k] < |idx.bases|)
    && (forall a, b | a in idx.cellBase && b in idx.cellBase ::
          idx.cellBase[a] == idx.cellBase[b] <==> SameRegion(Occupied(machines), a, b))
    && (forall id | 0 <= id < |idx.bases| :: IsBase(machines, idx, id))
    && Sorted(BaseLess, idx.bases)
  }

  // ---- What the meaning implies ----

  lemma {:induction false} MachinesInMembers(machines: seq<MachineRecord>, cells: set<CellKey>, m: MachineRecord)
    ensures m in MachinesIn(machines, cells) <==> m in machines && CellOf(m.position) in cells
  {
    if machines != [] {
      MachinesInMembers(machines[1..], cells, m);
      assert machines == [machines[0]] + machines[1..];
    }
  }

  lemma {:induction false} MachinesInUnion(machines: seq<MachineRecord>, a: set<CellKey>, b: set<CellKey>)
    requires a !! b
    ensures MachinesIn(machines, a + b) == MachinesIn(machines, a) + MachinesIn(machines, b)
  {
    if machines != [] {
      MachinesInUnion(machines[1..], a, b);
    }
  }

  lemma {:induction false} MachinesInAll(machines: seq<MachineRecord>, cells: set<CellKey>)
    requires forall m | m in machines :: CellOf(m.position) in cells
    ensures MachinesIn(machines, cells) == multiset(machines)
  {
    if machines != [] {
      assert machines == [machines[0]] + machines[1..];
      MachinesInAll(machines[1..], cells);
    }
  }

  /** A machine belongs to the base its own cell is mapped to, and to no other. */
  lemma MemberOfOwnBase(machines: seq<MachineRecord>, idx: BaseIndex, m: MachineRecord, id: nat)
    requires IsBaseIndex(machines, idx) && m in machines && id < |idx.bases|
    ensures CellOf(m.position) in idx.cellBase
    ensures m in idx.bases[id] <==> idx.cellBase[CellOf(m.position)] == id
  {
    hide SameRegion, CellOf;
    var k := CellOf(m.position);
    assert k in Occupied(machines);
    assert IsBase(machines, idx, id);
    MachinesInMembers(machines, CellsOfBase(idx, id), m);
    assert m in idx.bases[id] <==> m in multiset(idx.bases[id]);
  }

  /** Two machines share a base exactly when a chain of touching occupied cells
      links the cells they stand on. */
  lemma MachinesShareBaseIffRegion(machines: seq<MachineRecord>, idx: BaseIndex, m: MachineRecord, n: MachineRecord)
    requires IsBaseIndex(machines, idx) && m in machines && n in machines
    ensures (exists id :: 0 <= id < |idx.bases| && m in idx.bases[id] && n in idx.bases[id])
      <==> SameRegion(Occupied(machines), CellOf(m.position), CellOf(n.position))
  {
    hide SameRegion, CellOf, IsBase;
    assert CellOf(m.position) in Occupied(machines) && CellOf(n.position) in Occupied(machines);
    var own := idx.cellBase[CellOf(m.position)];
    forall id: nat | id < |idx.bases|
      ensures m in idx.bases[id] <==> idx.cellBase[CellOf(m.position)] == id
      ensures n in idx.bases[id] <==> idx.cellBase[CellOf(n.position)] == id
    {
      MemberOfOwnBase(machines, idx, m, id);
      MemberOfOwnBase(machines, idx, n, id);
    }
    assert m in idx.bases[own];
  }

  ghost function Flatten<T>(ss: seq<seq<T>>): seq<T> {
    if ss == [] then [] else ss[0] + Flatten(ss[1..])
  }

  ghost function CellsFrom(idx: BaseIndex, id: nat): set<CellKey> {
    set k | k in idx.cellBase && id <= idx.cellBase[k]
  }

  lemma CellsApart(idx: BaseIndex, id: nat)
    ensures CellsFrom(idx, id) == CellsOfBase(idx, id) + CellsFrom(idx, id + 1)
    ensures CellsOfBase(idx, id) !! CellsFrom(idx, id + 1)
  {
  }

  lemma BaseHolds(machines: seq<MachineRecord>, idx: BaseIndex, id: nat)
    requires IsBaseIndex(machines, idx) && id < |idx.bases|
    ensures multiset(idx.bases[id]) == MachinesIn(machines, CellsOfBase(idx, id))
  {
    hide SameRegion, CellOf, MachinesIn;
    assert IsBase(machines, idx, id);
  }

  lemma {:induction false} BasesFromPartition(machines: seq<MachineRecord>, idx: BaseIndex, id: nat)
    requires IsBaseIndex(machines, idx) && id <= |idx.bases|
    ensures multiset(Flatten(idx.bases[id..])) == MachinesIn(machines, CellsFrom(idx, id))
    decreases |idx.bases| - id
  {
    hide SameRegion;
    if id == |idx.bases| {
      assert CellsFrom(idx, id) == {};
      NoCellsNoMachines(machines);
    } else {
      hide IsBaseIndex, CellsFrom, CellsOfBase, MachinesIn;
      BasesFromPartition(machines, idx, id + 1);
      BaseHolds(machines, idx, id);
      CellsApart(idx, id);
      MachinesInUnion(machines, CellsOfBase(idx, id), CellsFrom(idx, id + 1));
      assert idx.bases[id..][1..] == idx.bases[id + 1..];
    }
  }

  lemma {:induction false} NoCellsNoMachines(machines: seq<MachineRecord>)
    ensures MachinesIn(machines, {}) == multiset{}
  {
    if machines != [] { NoCellsNoMachines(machines[1..]); }
  }

  /** The bases together hold every machine exactly once. */
  lemma BasesPartitionMachines(machines: seq<MachineRecord>, idx: BaseIndex)
    requires IsBaseIndex(machines, idx)
    ensures multiset(Flatten(idx.bases)) == multiset(machines)
  {
    hide SameRegion, IsBase;
    BasesFromPartition(machines, idx, 0);
    assert idx.bases[0..] == idx.bases;
    assert CellsFrom(idx, 0) == Occupied(machines);
    MachinesInAll(machines, Occupied(machines));
  }

  // ---- The algorithm ----

  datatype Component = Component(root: CellKey, members: seq<MachineRecord>, cells: set<CellKey>)

  ghost function InCell(machines: seq<MachineRecord>, k: CellKey): multiset<MachineRecord> {
    MachinesIn(machines, {k})
  }

  ghost predicate ByCell(machines: seq<MachineRecord>, occupied: map<CellKey, seq<MachineRecord>>) {
    && occupied.Keys == Occupied(machines)
    && forall k | k in occupied :: occupied[k] != [] && multiset(occupied[k]) == InCell(machines, k)
  }

  lemma {:induction false} MachinesInAppend(machines: seq<MachineRecord>, m: MachineRecord, cells: set<CellKey>)
    ensures MachinesIn(machines + [m], cells)
      == MachinesIn(machines, cells) + (if CellOf(m.position) in cells then multiset{m} else multiset{})
  {
    hide CellOf;
    if machines == [] {
      assert machines + [m] == [m];
    } else {
      assert (machines + [m])[1..] == machines[1..] + [m];
      MachinesInAppend(machines[1..], m, cells);
    }
  }

  lemma ByCellStep(machines: seq<MachineRecord>, occupied: map<CellKey, seq<MachineRecord>>, m: MachineRecord)
    requires ByCell(machines, occupied)
    ensures
      var k := CellOf(m.position);
      ByCell(machines + [m], occupied[k := (if k in occupied then occupied[k] else []) + [m]])
  {
    hide CellOf;
    var k := CellOf(m.position);
    var old' := if k in occupied then occupied[k] else [];
    var occupied' := occupied[k := old' + [m]];
    assert Occupied(machines + [m]) == Occupied(machines) + {k} by {
      assert forall x :: x in machines + [m] <==> x in machines || x == m;
    }
    forall c | c in occupied'
      ensures occupied'[c] != [] && multiset(occupied'[c]) == InCell(machines + [m], c)
    {
      MachinesInAppend(machines, m, {c});
      if c == k && c !in occupied {
        NoMachineInFreeCell(machines, c);
      }
    }
  }

  lemma {:induction false} NoMachineInFreeCell(machines: seq<MachineRecord>, k: CellKey)
    requires k !in Occupied(machines)
    ensures MachinesIn(machines, {k}) == multiset{}
  {
    hide CellOf;
    if machines != [] {
      assert CellOf(machines[0].position) in Occupied(machines);
      assert forall m | m in machines[1..] :: m in machines;
      NoMachineInFreeCell(machines[1..], k);
    }
  }

  method GroupByCell(machines: seq<MachineRecord>) returns (occupied: map<CellKey, seq<MachineRecord>>)
    ensures ByCell(machines, occupied)
  {
    occupied := map[];
    for i := 0 to |machines|
      invariant ByCell(machines[..i], occupied)
    {
      ByCellStep(machines[..i], occupied, machines[i]);
      assert machines[..i] + [machines[i]] == machines[..i + 1];
      hide ByCell, CellOf;
      var k := CellOf(machines[i].position);
      occupied := occupied[k := (if k in occupied then occupied[k] else []) + [machines[i]]];
    }
    assert machines[..|machines|] == machines;
  }

  /** The links from the cells visited so far to all their occupied neighbours. */
  ghost function TouchingFrom(cells: set<CellKey>, from: set<CellKey>): set<(CellKey, CellKey)> {
    set a, b | a in from && b in cells && Neighbors(a, b) :: (a, b)
  }

  /** The links from `k` to the neighbours visited before offset (dx, dy). */
  ghost function Visited(cells: set<CellKey>, k: CellKey, dx: int, dy: int): set<(CellKey, CellKey)> {
    set b | b in cells && Neighbors(k, b) && (b.cx - k.cx < dx || (b.cx - k.cx == dx && b.cy - k.cy < dy)) :: (k, b)
  }

  lemma VisitedStep(cells: set<CellKey>, k: CellKey, dx: int, dy: int)
    requires k in cells && -1 <= dx <= 1 && -1 <= dy <= 1
    ensures
      var n := CellKey(k.cx + dx, k.cy + dy);
      Visited(cells, k, dx, dy + 1)
        == Visited(cells, k, dx, dy) + (if (dx == 0 && dy == 0) || n !in cells then {} else {(k, n)})
    ensures Visited(cells, k, dx, 2) == Visited(cells, k, dx + 1, -1)
  {
  }

  lemma VisitedAll(cells: set<CellKey>, k: CellKey)
    requires k in cells
    ensures Visited(cells, k, -1, -1) == {}
    ensures Visited(cells, k, 2, -1) == TouchingFrom(cells, {k})
  {
  }

  method UnionNeighbors(uf: UnionFind<CellKey>, k: CellKey, cells: set<CellKey>)
    requires uf.Valid() && k in cells
    modifies uf
    ensures uf.Valid()
    ensures uf.view.unions == old(uf.view).unions + TouchingFrom(cells, {k})
    ensures old(uf.parent).Keys + {k} <= uf.parent.Keys <= old(uf.parent).Keys + cells
  {
    hide Represents, Visited, TouchingFrom;
    VisitedAll(cells, k);
    var _ := uf.Find(k);
    for dx := -1 to 2
      invariant uf.Valid()
      invariant uf.view.unions == old(uf.view).unions + Visited(cells, k, dx, -1)
      invariant old(uf.parent).Keys + {k} <= uf.parent.Keys <= old(uf.parent).Keys + cells
    {
      for dy := -1 to 2
        invariant uf.Valid()
        invariant uf.view.unions == old(uf.view).unions + Visited(cells, k, dx, dy)
        invariant old(uf.parent).Keys + {k} <= uf.parent.Keys <= old(uf.parent).Keys + cells
      {
        VisitedStep(cells, k, dx, dy);
        if dx == 0 && dy == 0 {
          continue;
        }
        var n := CellKey(k.cx + dx, k.cy + dy);
        if n in cells {
          uf.Union(k, n);
        }
      }
      VisitedStep(cells, k, dx, 1);
    }
  }

  method LinkCells(cells: set<CellKey>) returns (uf: UnionFind<CellKey>)
    ensures fresh(uf) && uf.Valid()
    ensures uf.view.unions == Touching(cells) && uf.parent.Keys == cells
  {
    hide Represents;
    uf := new UnionFind<CellKey>();
    EmptyForest(uf.parent, uf.view);
    var todo := cells;
    while todo != {}
      invariant fresh(uf) && uf.Valid() && todo <= cells
      invariant uf.view.unions == TouchingFrom(cells, cells - todo)
      invariant cells - todo <= uf.parent.Keys <= cells
      decreases todo
    {
      hide Neighbors;
      var k :| k in todo;
      UnionNeighbors(uf, k, cells);
      assert cells - (todo - {k}) == cells - todo + {k};
      assert TouchingFrom(cells, cells - todo + {k}) == TouchingFrom(cells, cells - todo) + TouchingFrom(cells, {k});
      todo := todo - {k};
    }
    assert TouchingFrom(cells, cells - {}) == Touching(cells) by { assert cells - {} == cells; }
  }

  lemma EmptyForest(parent: map<CellKey, CellKey>, v: View<CellKey>)
    requires Represents(parent, v) && v == View(map[], map[], {})
    ensures parent.Keys == {}
  {
  }

  ghost function CellsOfRoot(rep: map<CellKey, CellKey>, seen: set<CellKey>, r: CellKey): set<CellKey> {
    set k | k in rep && k in seen && rep[k] == r
  }

  ghost predicate IsComponent(
      machines: seq<MachineRecord>, rep: map<CellKey, CellKey>, seen: set<CellKey>, r: CellKey, c: Component)
  {
    && c.root == r && c.members != [] && c.cells != {}
    && c.cells == CellsOfRoot(rep, seen, r)
    && multiset(c.members) == MachinesIn(machines, c.cells)
  }

  ghost predicate ByRoot(
      machines: seq<MachineRecord>, rep: map<CellKey, CellKey>, seen: set<CellKey>, byRoot: map<CellKey, Component>)
  {
    && seen <= rep.Keys
    && (forall k | k in seen :: rep[k] in byRoot)
    && (forall r | r in byRoot :: IsComponent(machines, rep, seen, r, byRoot[r]))
  }

  function Extended(byRoot: map<CellKey, Component>, r: CellKey, k: CellKey, ms: seq<MachineRecord>): Component {
    if r in byRoot then Component(r, byRoot[r].members + ms, byRoot[r].cells + {k})
    else Component(r, ms, {k})
  }

  lemma ByRootStep(
      machines: seq<MachineRecord>, rep: map<CellKey, CellKey>, seen: set<CellKey>, byRoot: map<CellKey, Component>,
      k: CellKey, ms: seq<MachineRecord>)
    requires ByRoot(machines, rep, seen, byRoot) && k in rep && k !in seen
    requires ms != [] && multiset(ms) == MachinesIn(machines, {k})
    ensures ByRoot(machines, rep, seen + {k}, byRoot[rep[k] := Extended(byRoot, rep[k], k, ms)])
  {
    hide MachinesIn;
    var r := rep[k];
    var byRoot' := byRoot[r := Extended(byRoot, r, k, ms)];
    forall q | q in byRoot'
      ensures IsComponent(machines, rep, seen + {k}, q, byRoot'[q])
    {
      if q == r {
        assert CellsOfRoot(rep, seen + {k}, r) == CellsOfRoot(rep, seen, r) + {k};
        if r in byRoot {
          assert IsComponent(machines, rep, seen, r, byRoot[r]);
          MachinesInUnion(machines, byRoot[r].cells, {k});
        } else {
          assert CellsOfRoot(rep, seen, r) == {};
        }
      } else {
        assert IsComponent(machines, rep, seen, q, byRoot[q]);
        assert CellsOfRoot(rep, seen + {k}, q) == CellsOfRoot(rep, seen, q);
      }
    }
  }

  lemma NoRoots(machines: seq<MachineRecord>, rep: map<CellKey, CellKey>)
    ensures ByRoot(machines, rep, {}, map[])
  {
  }

  method CollectComponents(
      ghost machines: seq<MachineRecord>, occupied: map<CellKey, seq<MachineRecord>>, uf: UnionFind<CellKey>)
    returns (byRoot: map<CellKey, Component>)
    requires ByCell(machines, occupied) && uf.Valid() && uf.parent.Keys == occupied.Keys
    modifies uf
    ensures uf.Valid() && uf.view == old(uf.view)
    ensures ByRoot(machines, uf.view.rep, occupied.Keys, byRoot)
  {
    byRoot := map[];
    var todo := occupied.Keys;
    ghost var seen: set<CellKey> := {};
    RepKeys(uf.parent, uf.view);
    NoRoots(machines, uf.view.rep);
    hide Represents, ByRoot, MachinesIn, Occupied;
    while todo != {}
      invariant uf.Valid() && uf.view == old(uf.view)
      invariant uf.parent.Keys == uf.view.rep.Keys == occupied.Keys == seen + todo && seen !! todo
      invariant ByRoot(machines, uf.view.rep, seen, byRoot)
      decreases todo
    {
      var k :| k in todo;
      var r := uf.Find(k);
      ByRootStep(machines, uf.view.rep, seen, byRoot, k, occupied[k]);
      byRoot := byRoot[r := Extended(byRoot, r, k, occupied[k])];
      todo, seen := todo - {k}, seen + {k};
    }
  }

  lemma RepKeys(parent: map<CellKey, CellKey>, v: View<CellKey>)
    requires Represents(parent, v)
    ensures v.rep.Keys == parent.Keys
  {
  }

  predicate ComponentLess(a: Component, b: Component) {
    BaseLess(a.members, b.members)
  }

  lemma ComponentOrder()
    ensures StrictWeakOrder(InstanceLess)
    ensures StrictWeakOrder(ComponentLess)
  {
    StringOrder();
  }

  /** The components as a list: one for every root, members in instance order. */
  ghost predicate Listed(
      machines: seq<MachineRecord>, rep: map<CellKey, CellKey>, roots: set<CellKey>, comps: seq<Component>)
  {
    && (forall c | c in comps ::
          c.root in roots && IsComponent(machines, rep, rep.Keys, c.root, c) && Sorted(InstanceLess, c.members))
    && (forall r | r in roots :: exists c :: c in comps && c.root == r)
    && (forall i, j | 0 <= i < j < |comps| :: comps[i].root != comps[j].root)
  }

  lemma ListStep(
      machines: seq<MachineRecord>, rep: map<CellKey, CellKey>, roots: set<CellKey>, comps: seq<Component>, c: Component)
    requires Listed(machines, rep, roots, comps) && c.root !in roots && IsComponent(machines, rep, rep.Keys, c.root, c)
    ensures Listed(machines, rep, roots + {c.root},
                   comps + [Component(c.root, Sort(InstanceLess, c.members), c.cells)])
  {
    hide MachinesIn, CellsOfRoot, Sort, StringLess;
    ComponentOrder();
    SortSorts(InstanceLess, c.members);
    SortPermutes(InstanceLess, c.members);
    SortKeepsElements(InstanceLess, c.members);
    var d := Component(c.root, Sort(InstanceLess, c.members), c.cells);
    assert IsComponent(machines, rep, rep.Keys, d.root, d);
    hide IsComponent;
    forall q | q in roots + {c.root}
      ensures exists e :: e in comps + [d] && e.root == q
    {
      if q == c.root {
        assert d in comps + [d];
      } else {
        var e :| e in comps && e.root == q;
        assert e in comps + [d];
      }
    }
  }

  lemma NoComponents(machines: seq<MachineRecord>, rep: map<CellKey, CellKey>)
    ensures Listed(machines, rep, {}, [])
  {
  }

  method ListComponents(ghost machines: seq<MachineRecord>, ghost rep: map<CellKey, CellKey>, byRoot: map<CellKey, Component>)
    returns (comps: seq<Component>)
    requires ByRoot(machines, rep, rep.Keys, byRoot)
    ensures Listed(machines, rep, byRoot.Keys, comps)
  {
    comps := [];
    var todo := byRoot.Keys;
    assert forall r | r in byRoot :: IsComponent(machines, rep, rep.Keys, r, byRoot[r]);
    assert forall r | r in byRoot :: byRoot[r].root == r;
    NoComponents(machines, rep);
    assert byRoot.Keys - todo == {};
    hide IsComponent, Listed, ByRoot;
    while todo != {}
      invariant todo <= byRoot.Keys
      invariant Listed(machines, rep, byRoot.Keys - todo, comps)
      decreases todo
    {
      var r :| r in todo;
      var c := byRoot[r];
      ListStep(machines, rep, byRoot.Keys - todo, comps, c);
      comps := comps + [Component(c.root, Sort(InstanceLess, c.members), c.cells)];
      assert byRoot.Keys - todo + {r} == byRoot.Keys - (todo - {r});
      todo := todo - {r};
    }
    assert byRoot.Keys - {} == byRoot.Keys;
  }

  lemma SortKeepsListed(
      machines: seq<MachineRecord>, rep: map<CellKey, CellKey>, roots: set<CellKey>, comps: seq<Component>)
    requires Listed(machines, rep, roots, comps)
    ensures Listed(machines, rep, roots, Sort(ComponentLess, comps))
  {
    hide IsComponent, Sort, Sorted;
    SortKeepsElements(ComponentLess, comps);
    SortKeepsApart(ComponentLess, comps, (c: Component) => c.root);
  }

  /** The index entries written for the first `n` components. */
  ghost predicate Indexed(comps: seq<Component>, n: nat, idx: BaseIndex)
    requires n <= |comps|
  {
    && |idx.bases| == |idx.centroids| == n
    && (forall id | 0 <= id < n :: idx.bases[id] == comps[id].members && idx.centroids[id] == Centroid(comps[id].members))
    && (forall k :: k in idx.cellBase <==> exists id :: 0 <= id < n && k in comps[id].cells)
    && (forall k | k in idx.cellBase :: idx.cellBase[k] < n && k in comps[idx.cellBase[k]].cells)
  }

  /** Writing the cells of component `n` into the index. */
  ghost predicate Written(cellBase: map<CellKey, int>, before: map<CellKey, int>, cells: set<CellKey>, id: nat) {
    && cellBase.Keys == before.Keys + cells
    && forall k | k in cellBase :: cellBase[k] == if k in cells then id else before[k]
  }

  lemma WriteCell(cellBase: map<CellKey, int>, before: map<CellKey, int>, cells: set<CellKey>, id: nat, k: CellKey)
    requires Written(cellBase, before, cells, id)
    ensures Written(cellBase[k := id], before, cells + {k}, id)
  {
  }

  lemma NothingWritten(before: map<CellKey, int>, id: nat)
    ensures Written(before, before, {}, id)
  {
  }

  lemma IndexOne(comps: seq<Component>, id: nat, before: BaseIndex, cellBase: map<CellKey, int>)
    requires id < |comps| && Indexed(comps, id, before)
    requires forall i, j | 0 <= i < j < |comps| :: comps[i].cells !! comps[j].cells
    requires Written(cellBase, before.cellBase, comps[id].cells, id)
    ensures
      var c := comps[id];
      Indexed(comps, id + 1, BaseIndex(before.bases + [c.members], cellBase, before.centroids + [Centroid(c.members)]))
  {
    hide Centroid, Written;
    forall k
      ensures k in cellBase <==> exists i :: 0 <= i < id + 1 && k in comps[i].cells
      ensures k in cellBase ==> 0 <= cellBase[k] < id + 1 && k in comps[cellBase[k]].cells
    {
      CellWritten(comps, id, before, cellBase, k);
    }
  }

  lemma CellWritten(comps: seq<Component>, id: nat, before: BaseIndex, cellBase: map<CellKey, int>, k: CellKey)
    requires id < |comps| && Indexed(comps, id, before)
    requires forall i, j | 0 <= i < j < |comps| :: comps[i].cells !! comps[j].cells
    requires Written(cellBase, before.cellBase, comps[id].cells, id)
    ensures k in cellBase <==> exists i :: 0 <= i < id + 1 && k in comps[i].cells
    ensures k in cellBase ==> 0 <= cellBase[k] < id + 1 && k in comps[cellBase[k]].cells
  {
    hide Centroid;
    if k in before.cellBase {
      assert k in comps[before.cellBase[k]].cells;
    }
    if i :| 0 <= i < id + 1 && k in comps[i].cells {
      assert i < id ==> k in before.cellBase;
    }
  }

  method IndexComponents(comps: seq<Component>) returns (idx: BaseIndex)
    requires forall i, j | 0 <= i < j < |comps| :: comps[i].cells !! comps[j].cells
    ensures Indexed(comps, |comps|, idx)
  {
    idx := BaseIndex([], map[], []);
    assert Indexed(comps, 0, idx);
    hide Indexed, Written, Centroid;
    for id := 0 to |comps|
      invariant Indexed(comps, id, idx)
    {
      var c := comps[id];
      var cellBase := idx.cellBase;
      var todo := c.cells;
      NothingWritten(idx.cellBase, id);
      assert c.cells - todo == {};
      while todo != {}
        invariant todo <= c.cells && Written(cellBase, idx.cellBase, c.cells - todo, id)
        decreases todo
      {
        var k :| k in todo;
        WriteCell(cellBase, idx.cellBase, c.cells - todo, id, k);
        assert c.cells - todo + {k} == c.cells - (todo - {k});
        cellBase := cellBase[k := id];
        todo := todo - {k};
      }
      assert c.cells - {} == c.cells;
      IndexOne(comps, id, idx, cellBase);
      idx := BaseIndex(idx.bases + [c.members], cellBase, idx.centroids + [Centroid(c.members)]);
    }
  }

  /** What the assembled index means. */
  lemma IndexIsBaseIndex(
      machines: seq<MachineRecord>, parent: map<CellKey, CellKey>, v: View<CellKey>, roots: set<CellKey>,
      comps: seq<Component>, idx: BaseIndex)
    requires Represents(parent, v) && v.unions == Touching(Occupied(machines)) && v.rep.Keys == Occupied(machines)
    requires forall k | k in v.rep :: v.rep[k] in roots
    requires Listed(machines, v.rep, roots, comps) && Sorted(ComponentLess, comps)
    requires Indexed(comps, |comps|, idx)
    ensures IsBaseIndex(machines, idx)
  {
    hide Represents, SameRegion, MachinesIn, BaseLess, Listed, Occupied, IsBase;
    forall k
      ensures k in idx.cellBase <==> k in v.rep
      ensures k in idx.cellBase ==> comps[idx.cellBase[k]].root == v.rep[k]
    {
      CellIndexed(machines, v.rep, roots, comps, idx, k);
    }
    assert idx.cellBase.Keys == v.rep.Keys;
    forall a, b | a in idx.cellBase && b in idx.cellBase
      ensures idx.cellBase[a] == idx.cellBase[b] <==> SameRegion(Occupied(machines), a, b)
    {
      RegionIffSameRep(machines, parent, v, a, b);
      RootsApart(machines, v.rep, roots, comps, idx.cellBase[a], idx.cellBase[b]);
    }
    forall id | 0 <= id < |idx.bases|
      ensures IsBase(machines, idx, id)
    {
      ComponentIsBase(machines, v.rep, roots, comps, idx, id);
    }
  }

  lemma RootsApart(
      machines: seq<MachineRecord>, rep: map<CellKey, CellKey>, roots: set<CellKey>, comps: seq<Component>, i: nat, j: nat)
    requires Listed(machines, rep, roots, comps) && i < |comps| && j < |comps|
    ensures comps[i].root == comps[j].root <==> i == j
  {
    hide IsComponent;
  }

  lemma ComponentIsBase(
      machines: seq<MachineRecord>, rep: map<CellKey, CellKey>, roots: set<CellKey>, comps: seq<Component>,
      idx: BaseIndex, id: nat)
    requires Listed(machines, rep, roots, comps) && Indexed(comps, |comps|, idx) && id < |comps|
    requires forall k | k in idx.cellBase :: k in rep && comps[idx.cellBase[k]].root == rep[k]
    requires idx.cellBase.Keys == rep.Keys
    ensures IsBase(machines, idx, id)
  {
    hide MachinesIn, Sorted, Centroid;
    assert comps[id] in comps;
    assert IsComponent(machines, rep, rep.Keys, comps[id].root, comps[id]);
    forall k
      ensures k in CellsOfBase(idx, id) <==> k in comps[id].cells
    {
      if k in rep {
        RootsApart(machines, rep, roots, comps, idx.cellBase[k], id);
      }
    }
    assert CellsOfBase(idx, id) == comps[id].cells;
  }

  lemma RegionIffSameRep(machines: seq<MachineRecord>, parent: map<CellKey, CellKey>, v: View<CellKey>, a: CellKey, b: CellKey)
    requires Represents(parent, v) && v.unions == Touching(Occupied(machines)) && v.rep.Keys == Occupied(machines)
    requires a in v.rep && b in v.rep
    ensures v.rep[a] == v.rep[b] <==> SameRegion(Occupied(machines), a, b)
  {
    hide Represents, Connected, Occupied;
    RepKeys(parent, v);
    SameRepIffUnited(parent, v, a, b);
  }

  lemma CellIndexed(
      machines: seq<MachineRecord>, rep: map<CellKey, CellKey>, roots: set<CellKey>, comps: seq<Component>,
      idx: BaseIndex, k: CellKey)
    requires Listed(machines, rep, roots, comps) && Indexed(comps, |comps|, idx)
    requires forall q | q in rep :: rep[q] in roots
    ensures k in idx.cellBase <==> k in rep
    ensures k in idx.cellBase ==> comps[idx.cellBase[k]].root == rep[k]
  {
    hide MachinesIn;
    if k in idx.cellBase {
      var c := comps[idx.cellBase[k]];
      assert c in comps;
      assert IsComponent(machines, rep, rep.Keys, c.root, c);
    }
    if k in rep {
      var c :| c in comps && c.root == rep[k];
      assert IsComponent(machines, rep, rep.Keys, c.root, c);
      var id :| 0 <= id < |comps| && comps[id] == c;
      assert k in comps[id].cells;
    }
  }

  lemma ComponentsDisjoint(machines: seq<MachineRecord>, rep: map<CellKey, CellKey>, roots: set<CellKey>, comps: seq<Component>)
    requires Listed(machines, rep, roots, comps)
    ensures forall i, j | 0 <= i < j < |comps| :: comps[i].cells !! comps[j].cells
  {
    hide MachinesIn;
    forall i, j | 0 <= i < j < |comps|
      ensures comps[i].cells !! comps[j].cells
    {
      assert comps[i] in comps && comps[j] in comps;
      assert IsComponent(machines, rep, rep.Keys, comps[i].root, comps[i]);
      assert IsComponent(machines, rep, rep.Keys, comps[j].root, comps[j]);
    }
  }

  method NewBaseIndex(machines: seq<MachineRecord>) returns (idx: BaseIndex)
    ensures IsBaseIndex(machines, idx)
  {
    if |machines| == 0 {
      return BaseIndex([], map[], []);
    }
    var occupied := GroupByCell(machines);
    var uf := LinkCells(occupied.Keys);
    hide Represents, ByRoot, MachinesIn, SameRegion, IsBaseIndex, Indexed;
    ghost var parent, view := uf.parent, uf.view;
    RepKeys(parent, view);
    var byRoot := CollectComponents(machines, occupied, uf);
    RootsCovered(machines, view.rep, byRoot);
    var comps := ListComponents(machines, view.rep, byRoot);
    ComponentOrder();
    SortSorts(ComponentLess, comps);
    SortKeepsListed(machines, view.rep, byRoot.Keys, comps);
    comps := Sort(ComponentLess, comps);
    ComponentsDisjoint(machines, view.rep, byRoot.Keys, comps);
    idx := IndexComponents(comps);
    IndexIsBaseIndex(machines, parent, view, byRoot.Keys, comps, idx);
  }

  lemma RootsCovered(machines: seq<MachineRecord>, rep: map<CellKey, CellKey>, byRoot: map<CellKey, Component>)
    requires ByRoot(machines, rep, rep.Keys, byRoot)
    ensures forall k | k in rep :: rep[k] in byRoot
  {
  }

  // ---- Assigning a position ----

  function DistanceSquared(p: Point, c: Point): real {
    (p.x - c.x) * (p.x - c.x) + (p.y - c.y) * (p.y - c.y)
  }

  /** Seen from above: only the two offsets in the plane count, and no height. */
  lemma PlanarDistance(c: Point, dx: real, dy: real, z: real)
    ensures DistanceSquared(Point(c.x + dx, c.y + dy, z), c) == dx * dx + dy * dy
  {
  }

  /** The first base whose centroid no other centroid beats. */
  ghost predicate IsNearest(centroids: seq<Point>, pos: Point, id: int) {
    && 0 <= id < |centroids|
    && (forall j | 0 <= j < |centroids| :: DistanceSquared(pos, centroids[id]) <= DistanceSquared(pos, centroids[j]))
    && (forall j | 0 <= j < id :: DistanceSquared(pos, centroids[id]) < DistanceSquared(pos, centroids[j]))
  }

  method Assign(idx: BaseIndex, pos: Point) returns (base: int)
    requires |idx.bases| == |idx.centroids|
    ensures |idx.bases| == 0 ==> base == -1
    ensures |idx.bases| > 0 && CellOf(pos) in idx.cellBase ==> base == idx.cellBase[CellOf(pos)]
    ensures |idx.bases| > 0 && CellOf(pos) !in idx.cellBase ==> IsNearest(idx.centroids, pos, base)
  {
    hide DistanceSquared, CellOf;
    if |idx.bases| == 0 {
      return -1;
    }
    if CellOf(pos) in idx.cellBase {
      return idx.cellBase[CellOf(pos)];
    }
    base := -1;
    var bestDist := 0.0;
    for id := 0 to |idx.centroids|
      invariant id == 0 ==> base == -1
      invariant id > 0 ==> IsNearest(idx.centroids[..id], pos, base) && bestDist == DistanceSquared(pos, idx.centroids[base])
    {
      var d := DistanceSquared(pos, idx.centroids[id]);
      if base == -1 || d < bestDist {
        base, bestDist := id, d;
      }
    }
    assert idx.centroids[..|idx.centroids|] == idx.centroids;
  }

  /** Asking for a machine's own position returns the base that holds it. */
  method AssignMachine(ghost machines: seq<MachineRecord>, idx: BaseIndex, m: MachineRecord) returns (base: int)
    requires IsBaseIndex(machines, idx) && m in machines
    ensures 0 <= base < |idx.bases| && m in idx.bases[base]
    ensures forall id | 0 <= id < |idx.bases| && m in idx.bases[id] :: id == base
  {
    hide CellOf, SameRegion, IsBase;
    assert CellOf(m.position) in Occupied(machines);
    base := Assign(idx, m.position);
    forall id: nat | id < |idx.bases|
      ensures m in idx.bases[id] <==> id == base
    {
      MemberOfOwnBase(machines, idx, m, id);
    }
  }
}
