/** Contraction of a factory's belt and pipe adjacency into production lines. */
module ProductionLines {
  import opened Graphs
  import opened Sorting
  import opened UnionFinds

  datatype ConnEdge = ConnEdge(from: string, to: string, transport: string)
  datatype ProductionLine = ProductionLine(machines: seq<string>, terminals: seq<string>, transports: seq<string>)

  // ---- Node classification ----

  function AfterLastDot(s: string): string {
    if s == "" || s[|s| - 1] == '.' then "" else AfterLastDot(s[..|s| - 1]) + [s[|s| - 1]]
  }

  predicate IsDigit(c: char) { '0' <= c <= '9' }

  function TrailingDigits(s: string): (n: nat)
    ensures n <= |s|
  {
    if s != "" && IsDigit(s[|s| - 1]) then 1 + TrailingDigits(s[..|s| - 1]) else 0
  }

  function StripTrailingID(s: string): string {
    var d := TrailingDigits(s);
    if 0 < d < |s| && s[|s| - 1 - d] == '_' then s[..|s| - 1 - d] else s
  }

  function ClassOf(actor: string): string {
    StripTrailingID(AfterLastDot(actor))
  }

  const PASSTHROUGH_PREFIXES: seq<string> := [
    "Build_ConveyorBelt", "Build_ConveyorLift", "Build_ConveyorAttachment",
    "Build_ConveyorPole", "Build_ConveyorCeiling",
    "Build_Pipeline", "Build_PipeHyper", "Build_HyperTubeJunction"]

  predicate IsPassthrough(cls: string) {
    exists i | 0 <= i < |PASSTHROUGH_PREFIXES| :: PASSTHROUGH_PREFIXES[i] <= cls
  }

  /** Belts, lifts, their attachments, poles and ceiling mounts, pipelines, hyper tubes
      and their junctions carry flow, whatever follows in the name; the class of
      anything else starts with none of those words. */
  lemma PassthroughClasses(cls: string, suffix: string)
    ensures IsPassthrough("Build_ConveyorBelt" + suffix) && IsPassthrough("Build_ConveyorLift" + suffix)
    ensures IsPassthrough("Build_ConveyorAttachment" + suffix) && IsPassthrough("Build_ConveyorPole" + suffix)
    ensures IsPassthrough("Build_ConveyorCeiling" + suffix) && IsPassthrough("Build_Pipeline" + suffix)
    ensures IsPassthrough("Build_PipeHyper" + suffix) && IsPassthrough("Build_HyperTubeJunction" + suffix)
    ensures IsPassthrough(cls) ==>
      || "Build_ConveyorBelt" <= cls || "Build_ConveyorLift" <= cls || "Build_ConveyorAttachment" <= cls
      || "Build_ConveyorPole" <= cls || "Build_ConveyorCeiling" <= cls || "Build_Pipeline" <= cls
      || "Build_PipeHyper" <= cls || "Build_HyperTubeJunction" <= cls
  {
    assert PASSTHROUGH_PREFIXES[0] <= "Build_ConveyorBelt" + suffix;
    assert PASSTHROUGH_PREFIXES[1] <= "Build_ConveyorLift" + suffix;
    assert PASSTHROUGH_PREFIXES[2] <= "Build_ConveyorAttachment" + suffix;
    assert PASSTHROUGH_PREFIXES[3] <= "Build_ConveyorPole" + suffix;
    assert PASSTHROUGH_PREFIXES[4] <= "Build_ConveyorCeiling" + suffix;
    assert PASSTHROUGH_PREFIXES[5] <= "Build_Pipeline" + suffix;
    assert PASSTHROUGH_PREFIXES[6] <= "Build_PipeHyper" + suffix;
    assert PASSTHROUGH_PREFIXES[7] <= "Build_HyperTubeJunction" + suffix;
  }

  predicate IsBoundary(machines: set<string>, n: string) {
    n !in machines && !IsPassthrough(ClassOf(n))
  }

  lemma {:induction false} AfterLastDotOfPath(path: string, name: string)
    requires '.' !in name
    ensures AfterLastDot(path + "." + name) == name
  {
    var s := path + "." + name;
    if name != "" {
      var init := name[..|name| - 1];
      assert s[..|s| - 1] == path + "." + init;
      AfterLastDotOfPath(path, init);
      assert name == init + [name[|name| - 1]];
      assert s[|s| - 1] == name[|name| - 1] && name[|name| - 1] in name;
    }
  }

  lemma {:induction false} TrailingDigitsOfID(cls: string, id: string)
    requires forall k | 0 <= k < |id| :: IsDigit(id[k])
    ensures TrailingDigits(cls + "_" + id) == |id|
  {
    var s := cls + "_" + id;
    if id != "" {
      assert s[..|s| - 1] == cls + "_" + id[..|id| - 1];
      TrailingDigitsOfID(cls, id[..|id| - 1]);
    }
  }

  /** The class of `<path>.<class>_<number>` is `<class>`, whatever the path. */
  lemma ClassOfActorPath(path: string, cls: string, id: string)
    requires '.' !in cls && id != "" && forall k | 0 <= k < |id| :: IsDigit(id[k])
    ensures ClassOf(path + "." + (cls + "_" + id)) == cls
  {
    var name := cls + "_" + id;
    assert forall k | 0 <= k < |name| :: name[k] != '.' by {
      forall k | 0 <= k < |name|
        ensures name[k] != '.'
      {
        if k < |cls| {
          assert name[k] == cls[k];
        } else if k > |cls| {
          assert name[k] == id[k - |cls| - 1];
        }
      }
    }
    AfterLastDotOfPath(path, name);
    TrailingDigitsOfID(cls, id);
  }

  // ---- The reference meaning of a set of links ----

  ghost function EdgeSet(edges: seq<ConnEdge>): set<ConnEdge> {
    set e | e in edges
  }

  /** A link is present in one orientation or the other. */
  ghost predicate Linked(links: set<ConnEdge>, x: string, y: string, transport: string) {
    ConnEdge(x, y, transport) in links || ConnEdge(y, x, transport) in links
  }

  ghost predicate Endpoint(links: set<ConnEdge>, n: string) {
    exists y, t :: Linked(links, n, y, t)
  }

  /** The links that carry flow between two non-boundary nodes. */
  ghost predicate IsInner(machines: set<string>, e: ConnEdge) {
    e.from != e.to && !IsBoundary(machines, e.from) && !IsBoundary(machines, e.to)
  }

  ghost function Inner(links: set<ConnEdge>, machines: set<string>): set<(string, string)> {
    set e | e in links && IsInner(machines, e) :: (e.from, e.to)
  }

  /** `n` is reached from machine `m` without passing through a boundary node. */
  ghost predicate SameLine(links: set<ConnEdge>, machines: set<string>, m: string, n: string) {
    Connected(Inner(links, machines), m, n)
  }

  /** Node `n` is linked to boundary node `b`. */
  ghost predicate TouchesBoundary(links: set<ConnEdge>, machines: set<string>, b: string, n: string) {
    IsBoundary(machines, b) && !IsBoundary(machines, n) && exists t :: Linked(links, b, n, t)
  }

  /** Node `n` has a flow-carrying link of kind `t`. */
  ghost predicate Carries(links: set<ConnEdge>, machines: set<string>, n: string, t: string) {
    exists y :: Linked(links, n, y, t) && IsInner(machines, ConnEdge(n, y, t))
  }

  ghost predicate IsLine(links: set<ConnEdge>, machines: set<string>, line: ProductionLine) {
    && line.machines != []
    && StrictlySorted(StringLess, line.machines)
    && StrictlySorted(StringLess, line.terminals)
    && StrictlySorted(StringLess, line.transports)
    && var m := line.machines[0];
    && (forall n :: n in line.machines <==> n in machines && Endpoint(links, n) && SameLine(links, machines, m, n))
    && (forall b :: b in line.terminals <==> exists n :: TouchesBoundary(links, machines, b, n) && SameLine(links, machines, m, n))
    && (forall t :: t in line.transports <==> exists n :: Carries(links, machines, n, t) && SameLine(links, machines, m, n))
  }

  /** Largest line first, ties by first machine. */
  predicate LineLess(a: ProductionLine, b: ProductionLine) {
    |a.machines| > |b.machines|
    || (|a.machines| == |b.machines| && 0 < |b.machines| && StringLess(a.machines[0], b.machines[0]))
  }

  ghost predicate AreProductionLines(links: set<ConnEdge>, machines: set<string>, lines: seq<ProductionLine>) {
    && (forall l | l in lines :: IsLine(links, machines, l))
    && (forall n | n in machines && Endpoint(links, n) :: exists l :: l in lines && n in l.machines)
    && StrictlySorted(LineLess, lines)
  }

  /** A belt joins the machines at its ends: whatever follows its class in the name of the
      actor, they are on one line. */
  lemma BeltJoins(links: set<ConnEdge>, machines: set<string>, m: string, n: string, path: string, suffix: string, id: string, t: string)
    requires '.' !in suffix && id != "" && (forall k | 0 <= k < |id| :: IsDigit(id[k]))
    requires m in machines && n in machines
    requires
      var belt := path + "." + ("Build_ConveyorBelt" + suffix + "_" + id);
      m != belt && n != belt && Linked(links, m, belt, t) && Linked(links, belt, n, t)
    ensures SameLine(links, machines, m, n)
  {
    var cls := "Build_ConveyorBelt" + suffix;
    var belt := path + "." + (cls + "_" + id);
    ClassOfActorPath(path, cls, id);
    PassthroughClasses(cls, suffix);
    var inner := Inner(links, machines);
    hide IsPassthrough, ClassOf;
    assert Adjacent(inner, m, belt) && Adjacent(inner, belt, n);
    assert Joins(inner, [m, belt, n], m, n);
  }

  // ---- What the meaning implies ----

  lemma LineOrder()
    ensures StrictWeakOrder(LineLess)
  {
    StringOrder();
  }

  /** Two machines appear in one line exactly when a path of non-boundary nodes
      joins them. */
  lemma MachinesShareLineIffLinked(
      links: set<ConnEdge>, machines: set<string>, lines: seq<ProductionLine>, m: string, n: string)
    requires AreProductionLines(links, machines, lines)
    requires m in machines && Endpoint(links, m) && n in machines && Endpoint(links, n)
    ensures (exists l :: l in lines && m in l.machines && n in l.machines) <==> SameLine(links, machines, m, n)
  {
    var inner := Inner(links, machines);
    if l :| l in lines && m in l.machines && n in l.machines {
      assert IsLine(links, machines, l);
      ConnectedSymmetric(inner, l.machines[0], m);
      ConnectedTransitive(inner, m, l.machines[0], n);
    }
    if SameLine(links, machines, m, n) {
      var l :| l in lines && m in l.machines;
      assert IsLine(links, machines, l);
      ConnectedTransitive(inner, l.machines[0], m, n);
    }
  }

  /** A line is determined by the machine it starts from. */
  lemma LineDetermined(links: set<ConnEdge>, machines: set<string>, a: ProductionLine, b: ProductionLine, n: string)
    requires IsLine(links, machines, a) && IsLine(links, machines, b)
    requires n in a.machines && n in b.machines
    ensures a == b
  {
    hide Connected, Endpoint, TouchesBoundary, Carries;
    var inner := Inner(links, machines);
    var ma, mb := a.machines[0], b.machines[0];
    ConnectedSymmetric(inner, ma, n);
    ConnectedSymmetric(inner, mb, n);
    ConnectedTransitive(inner, ma, n, mb);
    ConnectedTransitive(inner, mb, n, ma);
    forall k
      ensures SameLine(links, machines, ma, k) <==> SameLine(links, machines, mb, k)
    {
      if SameLine(links, machines, ma, k) { ConnectedTransitive(inner, mb, ma, k); }
      if SameLine(links, machines, mb, k) { ConnectedTransitive(inner, ma, mb, k); }
    }
    StringOrder();
    StrictlySortedUnique(StringLess, a.machines, b.machines);
    StrictlySortedUnique(StringLess, a.terminals, b.terminals);
    StrictlySortedUnique(StringLess, a.transports, b.transports);
  }

  /** The links alone determine the whole result, down to its order. */
  lemma ProductionLinesUnique(
      links: set<ConnEdge>, machines: set<string>, xs: seq<ProductionLine>, ys: seq<ProductionLine>)
    requires AreProductionLines(links, machines, xs) && AreProductionLines(links, machines, ys)
    ensures xs == ys
  {
    hide IsLine;
    LineOrder();
    forall l
      ensures l in xs <==> l in ys
    {
      if l in xs { SameLineListed(links, machines, xs, ys, l); }
      if l in ys { SameLineListed(links, machines, ys, xs, l); }
    }
    StrictlySortedUnique(LineLess, xs, ys);
  }

  lemma SameLineListed(
      links: set<ConnEdge>, machines: set<string>, xs: seq<ProductionLine>, ys: seq<ProductionLine>, l: ProductionLine)
    requires AreProductionLines(links, machines, xs) && AreProductionLines(links, machines, ys) && l in xs
    ensures l in ys
  {
    assert IsLine(links, machines, l);
    var n := l.machines[0];
    assert n in l.machines;
    var k :| k in ys && n in k.machines;
    LineDetermined(links, machines, l, k, n);
  }

  /** Edge lists that agree up to order, repetition and orientation. */
  ghost predicate SameLinks(a: set<ConnEdge>, b: set<ConnEdge>) {
    forall x, y, t :: Linked(a, x, y, t) <==> Linked(b, x, y, t)
  }

  lemma SameLinksSameMeaning(a: set<ConnEdge>, b: set<ConnEdge>, machines: set<string>, lines: seq<ProductionLine>)
    requires SameLinks(a, b) && AreProductionLines(a, machines, lines)
    ensures AreProductionLines(b, machines, lines)
  {
    forall l | l in lines
      ensures IsLine(b, machines, l)
    {
      assert IsLine(a, machines, l);
      var m := l.machines[0];
      forall n
        ensures SameLine(a, machines, m, n) <==> SameLine(b, machines, m, n)
      {
        if SameLine(a, machines, m, n) { SameLinksSamePaths(a, b, machines, m, n); }
        if SameLine(b, machines, m, n) { SameLinksSamePaths(b, a, machines, m, n); }
      }
      LineTransfers(a, b, machines, l);
    }
    forall n | n in machines && Endpoint(b, n)
      ensures exists l :: l in lines && n in l.machines
    {
      assert Endpoint(a, n);
    }
  }

  lemma LineTransfers(a: set<ConnEdge>, b: set<ConnEdge>, machines: set<string>, l: ProductionLine)
    requires SameLinks(a, b) && IsLine(a, machines, l)
    requires forall n :: SameLine(a, machines, l.machines[0], n) <==> SameLine(b, machines, l.machines[0], n)
    ensures IsLine(b, machines, l)
  {
    hide SameLine;
    forall n
      ensures Endpoint(a, n) <==> Endpoint(b, n)
    {
    }
    forall x, n
      ensures TouchesBoundary(a, machines, x, n) <==> TouchesBoundary(b, machines, x, n)
      ensures Carries(a, machines, x, n) <==> Carries(b, machines, x, n)
    {
    }
    SubjectsTransfer(a, b, machines, l);
  }

  lemma SubjectsTransfer(a: set<ConnEdge>, b: set<ConnEdge>, machines: set<string>, l: ProductionLine)
    requires IsLine(a, machines, l)
    requires forall n :: SameLine(a, machines, l.machines[0], n) <==> SameLine(b, machines, l.machines[0], n)
    requires forall n :: Endpoint(a, n) <==> Endpoint(b, n)
    requires forall x, n :: TouchesBoundary(a, machines, x, n) <==> TouchesBoundary(b, machines, x, n)
    requires forall n, t :: Carries(a, machines, n, t) <==> Carries(b, machines, n, t)
    ensures IsLine(b, machines, l)
  {
    hide SameLine, Endpoint, TouchesBoundary, Carries;
  }

  lemma SameLinksSamePaths(a: set<ConnEdge>, b: set<ConnEdge>, machines: set<string>, m: string, n: string)
    requires SameLinks(a, b) && SameLine(a, machines, m, n)
    ensures SameLine(b, machines, m, n)
  {
    var path :| Joins(Inner(a, machines), path, m, n);
    forall i | 0 <= i < |path| - 1
      ensures Adjacent(Inner(b, machines), path[i], path[i + 1])
    {
      assert Adjacent(Inner(a, machines), path[i], path[i + 1]);
      var e :| e in a && IsInner(machines, e)
        && ((e.from, e.to) == (path[i], path[i + 1]) || (e.to, e.from) == (path[i], path[i + 1]));
      assert Linked(a, e.from, e.to, e.transport);
      assert Linked(b, e.from, e.to, e.transport);
      var back := ConnEdge(e.to, e.from, e.transport);
      if e !in b {
        assert back in b && IsInner(machines, back);
        assert (back.from, back.to) in Inner(b, machines);
      } else {
        assert (e.from, e.to) in Inner(b, machines);
      }
    }
    assert Joins(Inner(b, machines), path, m, n);
  }

  /** Reordering, repeating or mirroring the edges does not change the result. */
  lemma EdgeOrderAndDirectionIrrelevant(
      edges: seq<ConnEdge>, others: seq<ConnEdge>, machines: set<string>,
      xs: seq<ProductionLine>, ys: seq<ProductionLine>)
    requires SameLinks(EdgeSet(edges), EdgeSet(others))
    requires AreProductionLines(EdgeSet(edges), machines, xs)
    requires AreProductionLines(EdgeSet(others), machines, ys)
    ensures xs == ys
  {
    SameLinksSameMeaning(EdgeSet(edges), EdgeSet(others), machines, xs);
    ProductionLinesUnique(EdgeSet(others), machines, xs, ys);
  }

  // ---- The algorithm ----

  /** Nodes the edge loop registers: every endpoint but a boundary node's,
      except that a self-link registers any node. */
  ghost function RegisteredBy(machines: set<string>, e: ConnEdge): set<string> {
    if e.from == e.to then {e.from}
    else (if IsBoundary(machines, e.from) then {} else {e.from}) + (if IsBoundary(machines, e.to) then {} else {e.to})
  }

  ghost predicate Registers(edges: seq<ConnEdge>, machines: set<string>, n: string) {
    exists i :: 0 <= i < |edges| && n in RegisteredBy(machines, edges[i])
  }

  ghost predicate AttachedBy(edges: seq<ConnEdge>, machines: set<string>, n: string, b: string) {
    exists i :: 0 <= i < |edges| && AttachesNode(machines, edges[i], n, b)
  }

  ghost predicate AttachesNode(machines: set<string>, e: ConnEdge, n: string, b: string) {
    ((e.from == n && e.to == b) || (e.from == b && e.to == n)) && IsBoundary(machines, b) && !IsBoundary(machines, n)
  }

  ghost predicate CarriedBy(edges: seq<ConnEdge>, machines: set<string>, n: string, t: string) {
    exists i :: 0 <= i < |edges| && IsInner(machines, edges[i]) && edges[i].from == n && edges[i].transport == t
  }

  /** What the edge loop has recorded after `edges`. */
  ghost predicate Recorded(
      edges: seq<ConnEdge>, machines: set<string>, registered: set<string>,
      unions: set<(string, string)>, attaches: seq<(string, string)>, internals: seq<(string, string)>)
  {
    && unions == Inner(EdgeSet(edges), machines)
    && (forall n :: n in registered <==> Registers(edges, machines, n))
    && (forall n, b :: (n, b) in attaches <==> AttachedBy(edges, machines, n, b))
    && (forall n, t :: (n, t) in internals <==> CarriedBy(edges, machines, n, t))
  }

  ghost function AttachesOf(machines: set<string>, e: ConnEdge): seq<(string, string)> {
    var fb, tb := IsBoundary(machines, e.from), IsBoundary(machines, e.to);
    if e.from == e.to || fb == tb then [] else if fb then [(e.to, e.from)] else [(e.from, e.to)]
  }

  ghost function InternalsOf(machines: set<string>, e: ConnEdge): seq<(string, string)> {
    if IsInner(machines, e) then [(e.from, e.transport)] else []
  }

  ghost function UnionsOf(machines: set<string>, e: ConnEdge): set<(string, string)> {
    if IsInner(machines, e) then {(e.from, e.to)} else {}
  }

  lemma InnerStep(edges: seq<ConnEdge>, machines: set<string>, e: ConnEdge)
    ensures Inner(EdgeSet(edges + [e]), machines) == Inner(EdgeSet(edges), machines) + UnionsOf(machines, e)
  {
    hide IsInner;
    assert EdgeSet(edges + [e]) == EdgeSet(edges) + {e};
  }

  lemma RecordStep(
      edges: seq<ConnEdge>, machines: set<string>, registered: set<string>,
      unions: set<(string, string)>, attaches: seq<(string, string)>, internals: seq<(string, string)>, e: ConnEdge)
    requires Recorded(edges, machines, registered, unions, attaches, internals)
    ensures Recorded(edges + [e], machines, registered + RegisteredBy(machines, e), unions + UnionsOf(machines, e),
                     attaches + AttachesOf(machines, e), internals + InternalsOf(machines, e))
  {
    hide IsInner, RegisteredBy, AttachesNode;
    InnerStep(edges, machines, e);
    var more := edges + [e];
    assert more[|edges|] == e;
    assert forall i | 0 <= i < |edges| :: more[i] == edges[i];
    forall n
      ensures Registers(more, machines, n) <==> Registers(edges, machines, n) || n in RegisteredBy(machines, e)
    {
    }
    forall n, b
      ensures AttachedBy(more, machines, n, b) <==> AttachedBy(edges, machines, n, b) || AttachesNode(machines, e, n, b)
      ensures CarriedBy(more, machines, n, b)
        <==> CarriedBy(edges, machines, n, b) || (IsInner(machines, e) && e.from == n && e.transport == b)
    {
    }
    forall n, b
      ensures (n, b) in AttachesOf(machines, e) <==> AttachesNode(machines, e, n, b)
    {
      AttachesOfEdge(machines, e, n, b);
    }
  }

  lemma AttachesOfEdge(machines: set<string>, e: ConnEdge, n: string, b: string)
    ensures (n, b) in AttachesOf(machines, e) <==> AttachesNode(machines, e, n, b)
  {
    hide IsBoundary;
  }

  /** One iteration of the edge loop. */
  method RecordEdge(uf: UnionFind<string>, machines: set<string>, e: ConnEdge)
    returns (attaches: seq<(string, string)>, internals: seq<(string, string)>)
    requires uf.Valid()
    modifies uf
    ensures uf.Valid()
    ensures uf.parent.Keys == old(uf.parent).Keys + RegisteredBy(machines, e)
    ensures uf.view.unions == old(uf.view).unions + UnionsOf(machines, e)
    ensures attaches == AttachesOf(machines, e) && internals == InternalsOf(machines, e)
  {
    hide Represents, IsPassthrough, ClassOf;
    attaches, internals := [], [];
    if e.from == e.to {
      var _ := uf.Find(e.from);
      return;
    }
    var fb, tb := IsBoundary(machines, e.from), IsBoundary(machines, e.to);
    if fb && tb {
      // No machine on either side: nothing to record.
    } else if fb {
      attaches := [(e.to, e.from)];
      var _ := uf.Find(e.to);
    } else if tb {
      attaches := [(e.from, e.to)];
      var _ := uf.Find(e.from);
    } else {
      uf.Union(e.from, e.to);
      internals := [(e.from, e.transport)];
    }
  }

  method RecordEdges(edges: seq<ConnEdge>, machines: set<string>)
    returns (uf: UnionFind<string>, attaches: seq<(string, string)>, internals: seq<(string, string)>)
    ensures fresh(uf) && uf.Valid()
    ensures Recorded(edges, machines, uf.parent.Keys, uf.view.unions, attaches, internals)
  {
    uf := new UnionFind<string>();
    attaches, internals := [], [];
    for i := 0 to |edges|
      invariant fresh(uf) && uf.Valid()
      invariant Recorded(edges[..i], machines, uf.parent.Keys, uf.view.unions, attaches, internals)
    {
      hide Recorded, Represents, RegisteredBy, UnionsOf, AttachesOf, InternalsOf;
      RecordStep(edges[..i], machines, uf.parent.Keys, uf.view.unions, attaches, internals, edges[i]);
      assert edges[..i] + [edges[i]] == edges[..i + 1];
      var newAttaches, newInternals := RecordEdge(uf, machines, edges[i]);
      attaches, internals := attaches + newAttaches, internals + newInternals;
    }
    assert edges[..|edges|] == edges;
  }

  /** Every registered node listed once, under its representative. */
  ghost predicate Grouped(members: map<string, seq<string>>, done: set<string>, rep: map<string, string>) {
    && done <= rep.Keys
    && (forall n | n in done :: rep[n] in members && n in members[rep[n]])
    && (forall r | r in members :: members[r] != [] && Distinct(members[r]))
    && (forall r, n | r in members && n in members[r] :: n in done && rep[n] == r)
  }

  method GroupMembers(uf: UnionFind<string>) returns (members: map<string, seq<string>>)
    requires uf.Valid()
    modifies uf
    ensures uf.Valid() && uf.view == old(uf.view)
    ensures Grouped(members, uf.parent.Keys, uf.view.rep)
  {
    members := map[];
    var todo := uf.parent.Keys;
    while todo != {}
      invariant uf.Valid() && uf.view == old(uf.view) && todo <= uf.parent.Keys
      invariant Grouped(members, uf.view.rep.Keys - todo, uf.view.rep)
      decreases todo
    {
      hide RepOk, LinkOk;
      var n :| n in todo;
      var r := uf.Find(n);
      ghost var before := members;
      members := members[r := (if r in members then members[r] else []) + [n]];
      todo := todo - {n};
      GroupStep(before, uf.view.rep.Keys - todo - {n}, uf.view.rep, n);
      assert uf.view.rep.Keys - todo - {n} == uf.view.rep.Keys - (todo + {n});
      assert uf.view.rep.Keys - todo - {n} + {n} == uf.view.rep.Keys - todo;
    }
  }

  lemma GroupStep(members: map<string, seq<string>>, done: set<string>, rep: map<string, string>, n: string)
    requires Grouped(members, done, rep) && n in rep && n !in done
    ensures
      var r := rep[n];
      Grouped(members[r := (if r in members then members[r] else []) + [n]], done + {n}, rep)
  {
  }

  /** The labels filed under representative `r`. */
  ghost predicate Filed(pairs: seq<(string, string)>, rep: map<string, string>, r: string, t: string) {
    exists n :: (n, t) in pairs && n in rep && rep[n] == r
  }

  function SetAt(m: map<string, set<string>>, r: string): set<string> {
    if r in m then m[r] else {}
  }

  method CollectLabels(uf: UnionFind<string>, pairs: seq<(string, string)>) returns (labels: map<string, set<string>>)
    requires uf.Valid() && forall p | p in pairs :: p.0 in uf.parent
    modifies uf
    ensures uf.Valid() && uf.view == old(uf.view)
    ensures forall r, t :: t in SetAt(labels, r) <==> Filed(pairs, uf.view.rep, r, t)
  {
    labels := map[];
    for i := 0 to |pairs|
      invariant uf.Valid() && uf.view == old(uf.view)
      invariant forall r, t :: t in SetAt(labels, r) <==> Filed(pairs[..i], uf.view.rep, r, t)
    {
      hide RepOk, LinkOk;
      assert pairs[i] in pairs;
      var r := uf.Find(pairs[i].0);
      ghost var before := labels;
      labels := labels[r := SetAt(labels, r) + {pairs[i].1}];
      FiledStep(pairs[..i], uf.view.rep, pairs[i]);
      assert pairs[..i] + [pairs[i]] == pairs[..i + 1];
      forall r', t
        ensures t in SetAt(labels, r') <==> Filed(pairs[..i + 1], uf.view.rep, r', t)
      {
        assert t in SetAt(before, r') <==> Filed(pairs[..i], uf.view.rep, r', t);
      }
    }
    assert pairs[..|pairs|] == pairs;
  }

  lemma FiledStep(pairs: seq<(string, string)>, rep: map<string, string>, p: (string, string))
    requires p.0 in rep
    ensures forall r, t :: Filed(pairs + [p], rep, r, t) <==> Filed(pairs, rep, r, t) || (rep[p.0] == r && p.1 == t)
  {
    forall r, t
      ensures Filed(pairs + [p], rep, r, t) <==> Filed(pairs, rep, r, t) || (rep[p.0] == r && p.1 == t)
    {
      assert forall n :: (n, t) in pairs + [p] <==> (n, t) in pairs || (n, t) == p;
      if rep[p.0] == r && p.1 == t {
        assert (p.0, t) in pairs + [p];
      }
    }
  }

  /** Everything the component with representative `r` contributes to a line. */
  ghost predicate LineOfRoot(
      machines: set<string>, rep: map<string, string>, attaches: seq<(string, string)>,
      internals: seq<(string, string)>, r: string, line: ProductionLine)
  {
    && line.machines != []
    && StrictlySorted(StringLess, line.machines)
    && StrictlySorted(StringLess, line.terminals)
    && StrictlySorted(StringLess, line.transports)
    && (forall n :: n in line.machines <==> n in machines && n in rep && rep[n] == r)
    && (forall b :: b in line.terminals <==> Filed(attaches, rep, r, b))
    && (forall t :: t in line.transports <==> Filed(internals, rep, r, t))
  }

  /** One line per representative of a component that holds a machine. */
  ghost predicate LinesOfRoots(
      machines: set<string>, rep: map<string, string>, attaches: seq<(string, string)>,
      internals: seq<(string, string)>, roots: seq<string>, lines: seq<ProductionLine>)
  {
    && |roots| == |lines|
    && Distinct(roots)
    && forall i | 0 <= i < |lines| :: LineOfRoot(machines, rep, attaches, internals, roots[i], lines[i])
  }

  method MachinesOf(nodes: seq<string>, machines: set<string>) returns (mach: seq<string>)
    requires Distinct(nodes)
    ensures StrictlySorted(StringLess, mach)
    ensures forall n :: n in mach <==> n in nodes && n in machines
  {
    var found: seq<string> := [];
    for i := 0 to |nodes|
      invariant Distinct(found)
      invariant forall n :: n in found <==> n in nodes[..i] && n in machines
    {
      if nodes[i] in machines {
        found := found + [nodes[i]];
      }
    }
    assert nodes[..|nodes|] == nodes;
    StringOrder();
    SortKeepsElements(StringLess, found);
    SortSeparates(StringLess, found);
    mach := Sort(StringLess, found);
  }

  method AssembleLines(
      machines: set<string>, ghost rep: map<string, string>, members: map<string, seq<string>>,
      ghost attaches: seq<(string, string)>, ghost internals: seq<(string, string)>,
      terminals: map<string, set<string>>, transports: map<string, set<string>>)
    returns (lines: seq<ProductionLine>, ghost roots: seq<string>)
    requires Grouped(members, rep.Keys, rep)
    requires forall r, t :: t in SetAt(terminals, r) <==> Filed(attaches, rep, r, t)
    requires forall r, t :: t in SetAt(transports, r) <==> Filed(internals, rep, r, t)
    ensures LinesOfRoots(machines, rep, attaches, internals, roots, lines)
    ensures forall n | n in machines && n in rep :: rep[n] in roots
  {
    lines, roots := [], [];
    var todo := members.Keys;
    while todo != {}
      invariant todo <= members.Keys
      invariant forall r | r in roots :: r in members && r !in todo
      invariant LinesOfRoots(machines, rep, attaches, internals, roots, lines)
      invariant forall n | n in machines && n in rep && rep[n] !in todo :: rep[n] in roots
      decreases todo
    {
      hide Filed;
      var r :| r in todo;
      todo := todo - {r};
      var mach := MachinesOf(members[r], machines);
      assert forall n :: n in members[r] <==> n in rep && rep[n] == r;
      if |mach| == 0 {
        continue;
      }
      var ends := SortedKeys(SetAt(terminals, r));
      var kinds := SortedKeys(SetAt(transports, r));
      var line := ProductionLine(mach, ends, kinds);
      assert LineOfRoot(machines, rep, attaches, internals, r, line);
      lines, roots := lines + [line], roots + [r];
    }
  }

  /** A component's line is a line of the reference meaning. */
  lemma RootLineIsLine(
      edges: seq<ConnEdge>, machines: set<string>, parent: map<string, string>, v: View<string>,
      attaches: seq<(string, string)>, internals: seq<(string, string)>, r: string, line: ProductionLine)
    requires Represents(parent, v)
    requires Recorded(edges, machines, parent.Keys, v.unions, attaches, internals)
    requires LineOfRoot(machines, v.rep, attaches, internals, r, line)
    ensures IsLine(EdgeSet(edges), machines, line)
  {
    hide Connected, Represents, Recorded;
    var links := EdgeSet(edges);
    var m := line.machines[0];
    assert m in line.machines;
    forall n
      ensures SameLine(links, machines, m, n) <==> n in v.rep && v.rep[n] == r
    {
      RepKeysAreParents(parent, v);
      UnionsAreInner(edges, machines, parent.Keys, v.unions, attaches, internals);
      SameRepIffUnited(parent, v, m, n);
    }
    forall n | n in machines
      ensures n in v.rep <==> Endpoint(links, n)
    {
      RepKeysAreParents(parent, v);
      MachineRegisteredIffEndpoint(edges, machines, parent.Keys, v.unions, attaches, internals, n);
    }
    forall b
      ensures Filed(attaches, v.rep, r, b) <==> exists n :: TouchesBoundary(links, machines, b, n) && SameLine(links, machines, m, n)
    {
      TerminalsOfRoot(edges, machines, parent.Keys, v, attaches, internals, r, m, b);
    }
    forall t
      ensures Filed(internals, v.rep, r, t) <==> exists n :: Carries(links, machines, n, t) && SameLine(links, machines, m, n)
    {
      TransportsOfRoot(edges, machines, parent.Keys, v, attaches, internals, r, m, t);
    }
  }

  lemma RepKeysAreParents(parent: map<string, string>, v: View<string>)
    requires Represents(parent, v)
    ensures v.rep.Keys == parent.Keys
  {
  }

  lemma UnionsAreInner(
      edges: seq<ConnEdge>, machines: set<string>, registered: set<string>,
      unions: set<(string, string)>, attaches: seq<(string, string)>, internals: seq<(string, string)>)
    requires Recorded(edges, machines, registered, unions, attaches, internals)
    ensures unions == Inner(EdgeSet(edges), machines)
  {
  }

  lemma MachineRegisteredIffEndpoint(
      edges: seq<ConnEdge>, machines: set<string>, registered: set<string>,
      unions: set<(string, string)>, attaches: seq<(string, string)>, internals: seq<(string, string)>, n: string)
    requires Recorded(edges, machines, registered, unions, attaches, internals) && n in machines
    ensures n in registered <==> Endpoint(EdgeSet(edges), n)
  {
    var links := EdgeSet(edges);
    if n in registered {
      var i :| 0 <= i < |edges| && n in RegisteredBy(machines, edges[i]);
      assert edges[i] in links;
      var y := if edges[i].from == n then edges[i].to else edges[i].from;
      assert Linked(links, n, y, edges[i].transport);
    }
    if Endpoint(links, n) {
      var y, t :| Linked(links, n, y, t);
      var e := if ConnEdge(n, y, t) in links then ConnEdge(n, y, t) else ConnEdge(y, n, t);
      var i :| 0 <= i < |edges| && edges[i] == e;
      assert n in RegisteredBy(machines, edges[i]);
    }
  }

  lemma AttachedIffTouches(edges: seq<ConnEdge>, machines: set<string>, n: string, b: string)
    ensures AttachedBy(edges, machines, n, b) <==> TouchesBoundary(EdgeSet(edges), machines, b, n)
  {
    var links := EdgeSet(edges);
    if AttachedBy(edges, machines, n, b) {
      var i :| 0 <= i < |edges| && AttachesNode(machines, edges[i], n, b);
      assert edges[i] in links;
      assert Linked(links, b, n, edges[i].transport);
    }
    if TouchesBoundary(links, machines, b, n) {
      var t :| Linked(links, b, n, t);
      var e := if ConnEdge(b, n, t) in links then ConnEdge(b, n, t) else ConnEdge(n, b, t);
      var i :| 0 <= i < |edges| && edges[i] == e;
      assert AttachesNode(machines, edges[i], n, b);
    }
  }

  lemma TerminalsOfRoot(
      edges: seq<ConnEdge>, machines: set<string>, registered: set<string>, v: View<string>,
      attaches: seq<(string, string)>, internals: seq<(string, string)>, r: string, m: string, b: string)
    requires Recorded(edges, machines, registered, v.unions, attaches, internals)
    requires forall n :: SameLine(EdgeSet(edges), machines, m, n) <==> n in v.rep && v.rep[n] == r
    ensures Filed(attaches, v.rep, r, b)
      <==> exists n :: TouchesBoundary(EdgeSet(edges), machines, b, n) && SameLine(EdgeSet(edges), machines, m, n)
  {
    hide SameLine, TouchesBoundary;
    forall n
      ensures (n, b) in attaches <==> TouchesBoundary(EdgeSet(edges), machines, b, n)
    {
      AttachedIffTouches(edges, machines, n, b);
    }
  }

  /** Inner links joined to a component carry the component's transports: the
      loop files each link under its `from` end, which the link joins to its `to`. */
  lemma TransportsOfRoot(
      edges: seq<ConnEdge>, machines: set<string>, registered: set<string>, v: View<string>,
      attaches: seq<(string, string)>, internals: seq<(string, string)>, r: string, m: string, t: string)
    requires Recorded(edges, machines, registered, v.unions, attaches, internals)
    requires forall n :: SameLine(EdgeSet(edges), machines, m, n) <==> n in v.rep && v.rep[n] == r
    ensures Filed(internals, v.rep, r, t)
      <==> exists n :: Carries(EdgeSet(edges), machines, n, t) && SameLine(EdgeSet(edges), machines, m, n)
  {
    hide Connected;
    var links := EdgeSet(edges);
    if Filed(internals, v.rep, r, t) {
      var n :| (n, t) in internals && n in v.rep && v.rep[n] == r;
      assert CarriedBy(edges, machines, n, t);
      var i :| 0 <= i < |edges| && IsInner(machines, edges[i]) && edges[i].from == n && edges[i].transport == t;
      assert edges[i] in links;
      assert Linked(links, n, edges[i].to, t);
      assert Carries(links, machines, n, t);
      assert SameLine(links, machines, m, n);
    }
    if n :| Carries(links, machines, n, t) && SameLine(links, machines, m, n) {
      var y :| Linked(links, n, y, t) && IsInner(machines, ConnEdge(n, y, t));
      var e := if ConnEdge(n, y, t) in links then ConnEdge(n, y, t) else ConnEdge(y, n, t);
      assert IsInner(machines, e);
      var i :| 0 <= i < |edges| && edges[i] == e;
      assert CarriedBy(edges, machines, e.from, t);
      assert (e.from, t) in internals;
      assert (e.from, e.to) in Inner(links, machines);
      if n != e.from {
        ConnectedByEdge(Inner(links, machines), n, e.from);
        ConnectedTransitive(Inner(links, machines), m, n, e.from);
      }
      assert SameLine(links, machines, m, e.from);
    }
  }

  lemma RecordedPairsRegistered(
      edges: seq<ConnEdge>, machines: set<string>, registered: set<string>,
      unions: set<(string, string)>, attaches: seq<(string, string)>, internals: seq<(string, string)>)
    requires Recorded(edges, machines, registered, unions, attaches, internals)
    ensures forall p | p in attaches || p in internals :: p.0 in registered
  {
    hide IsBoundary;
    forall p | p in attaches || p in internals
      ensures p.0 in registered
    {
      assert p == (p.0, p.1);
      if p in attaches {
        assert AttachedBy(edges, machines, p.0, p.1);
        var i :| 0 <= i < |edges| && AttachesNode(machines, edges[i], p.0, p.1);
        assert p.0 in RegisteredBy(machines, edges[i]);
      } else {
        assert CarriedBy(edges, machines, p.0, p.1);
        var i :| 0 <= i < |edges| && IsInner(machines, edges[i]) && edges[i].from == p.0 && edges[i].transport == p.1;
        assert p.0 in RegisteredBy(machines, edges[i]);
      }
    }
  }

  lemma LinesAreProductionLines(
      edges: seq<ConnEdge>, machines: set<string>, parent: map<string, string>, v: View<string>,
      attaches: seq<(string, string)>, internals: seq<(string, string)>, roots: seq<string>, unsorted: seq<ProductionLine>)
    requires Represents(parent, v)
    requires Recorded(edges, machines, parent.Keys, v.unions, attaches, internals)
    requires LinesOfRoots(machines, v.rep, attaches, internals, roots, unsorted)
    requires forall n | n in machines && n in v.rep :: v.rep[n] in roots
    ensures AreProductionLines(EdgeSet(edges), machines, Sort(LineLess, unsorted))
  {
    hide Represents, Recorded, Filed, IsLine;
    var links := EdgeSet(edges);
    RepKeysAreParents(parent, v);
    SortKeepsElements(LineLess, unsorted);
    forall l | l in unsorted
      ensures IsLine(links, machines, l)
    {
      var i :| 0 <= i < |unsorted| && unsorted[i] == l;
      RootLineIsLine(edges, machines, parent, v, attaches, internals, roots[i], l);
    }
    forall n | n in machines && Endpoint(links, n)
      ensures exists l :: l in unsorted && n in l.machines
    {
      MachineRegisteredIffEndpoint(edges, machines, parent.Keys, v.unions, attaches, internals, n);
      var i :| 0 <= i < |roots| && roots[i] == v.rep[n];
      assert unsorted[i] in unsorted && n in unsorted[i].machines;
    }
    LineOrder();
    forall i, j | 0 <= i < j < |unsorted|
      ensures LineLess(unsorted[i], unsorted[j]) || LineLess(unsorted[j], unsorted[i])
    {
      var a, b := unsorted[i].machines[0], unsorted[j].machines[0];
      assert a in unsorted[i].machines && b in unsorted[j].machines;
      StringOrder();
    }
    SortSeparates(LineLess, unsorted);
  }

  method BuildProductionLines(edges: seq<ConnEdge>, machines: set<string>) returns (lines: seq<ProductionLine>)
    ensures AreProductionLines(EdgeSet(edges), machines, lines)
  {
    var uf, attaches, internals := RecordEdges(edges, machines);
    RecordedPairsRegistered(edges, machines, uf.parent.Keys, uf.view.unions, attaches, internals);
    ghost var parent, view := uf.parent, uf.view;
    hide Represents, Recorded;
    RepKeysAreParents(parent, view);
    var members := GroupMembers(uf);
    RepKeysAreParents(uf.parent, view);
    var transports := CollectLabels(uf, internals);
    RepKeysAreParents(uf.parent, view);
    var terminals := CollectLabels(uf, attaches);
    var unsorted, roots := AssembleLines(machines, view.rep, members, attaches, internals, terminals, transports);
    LinesAreProductionLines(edges, machines, parent, view, attaches, internals, roots, unsorted);
    lines := Sort(LineLess, unsorted);
  }
}
