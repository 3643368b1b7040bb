/** The disjoint-set structure shared by the production-line graph and the
    spatial bases: an in-place parent map with iterative find and path
    compression. */
module UnionFinds {
  import opened Graphs

  /** The ghost view of a parent map: a height that falls along every parent
      link, each element's representative, and the unions performed so far. */
  datatype View<!K> = View(height: map<K, nat>, rep: map<K, K>, unions: set<(K, K)>)

  /** A link stays inside the registered keys and lowers the height, unless the
      element is a root. */
  ghost predicate LinkOk<K>(parent: map<K, K>, height: map<K, nat>, x: K) {
    && x in parent && x in height
    && parent[x] in parent && parent[x] in height
    && (parent[x] != x ==> height[parent[x]] < height[x])
  }

  /** The parent map is an acyclic forest over its own keys. */
  ghost predicate IsForest<K>(parent: map<K, K>, height: map<K, nat>) {
    && parent.Keys == height.Keys
    && forall x {:trigger LinkOk(parent, height, x)} | x in parent :: LinkOk(parent, height, x)
  }

  /** The root that walking parents from `x` arrives at. */
  ghost function RootOf<K>(parent: map<K, K>, height: map<K, nat>, x: K): (root: K)
    requires IsForest(parent, height) && x in parent
    ensures root in parent && parent[root] == root
    decreases if x in height then height[x] else 0
  {
    assert LinkOk(parent, height, x);
    if parent[x] == x then x else RootOf(parent, height, parent[x])
  }

  /** `rep` is a root, agrees along the link out of `x`, and is united with `x`. */
  ghost predicate RepOk<K(!new)>(parent: map<K, K>, v: View<K>, x: K)
  {
    && x in parent && parent[x] in v.rep && x in v.rep && x in v.height
    && v.rep[x] in parent && parent[v.rep[x]] == v.rep[x]
    && v.rep[parent[x]] == v.rep[x]
    && (parent[x] == x ==> v.rep[x] == x)
    && (v.rep[x] in v.height && (v.rep[x] == x || v.height[v.rep[x]] < v.height[x]))
    && Connected(v.unions, x, v.rep[x])
  }

  /** `v.rep` names each element's root, and elements are held together by
      exactly the recorded unions. */
  ghost predicate Represents<K(!new)>(parent: map<K, K>, v: View<K>) {
    && IsForest(parent, v.height)
    && v.rep.Keys == parent.Keys
    && (forall x {:trigger RepOk(parent, v, x)} | x in parent :: RepOk(parent, v, x))
    && (forall e | e in v.unions :: e.0 in v.rep && e.1 in v.rep && v.rep[e.0] == v.rep[e.1])
  }

  /** The representative is the root the parent walk reaches. */
  lemma {:induction false} RepresentativeIsRoot<K(!new)>(parent: map<K, K>, v: View<K>, x: K)
    requires Represents(parent, v) && x in parent
    ensures RootOf(parent, v.height, x) == v.rep[x]
    decreases v.height[x]
  {
    assert LinkOk(parent, v.height, x) && RepOk(parent, v, x);
    if parent[x] != x {
      RepresentativeIsRoot(parent, v, parent[x]);
    }
  }

  /** Two registered keys share a representative exactly when the equivalence
      closure of the unions relates them, and a key outside the structure is
      related to none inside. */
  lemma SameRepIffUnited<K(!new)>(parent: map<K, K>, v: View<K>, x: K, y: K)
    requires Represents(parent, v) && x in parent
    ensures y in parent && v.rep[x] == v.rep[y] <==> (y in parent && Connected(v.unions, x, y))
    ensures Connected(v.unions, x, y) ==> y in parent
  {
    assert RepOk(parent, v, x);
    if y in parent && v.rep[x] == v.rep[y] {
      assert RepOk(parent, v, y);
      ConnectedSymmetric(v.unions, y, v.rep[y]);
      ConnectedTransitive(v.unions, x, v.rep[x], y);
    }
    if Connected(v.unions, x, y) {
      var path :| Joins(v.unions, path, x, y);
      LabelConstantAlongPath(v.unions, v.rep, path, x, y);
    }
  }

  /** The same law for the walk itself. */
  lemma SameRootIffUnited<K(!new)>(parent: map<K, K>, v: View<K>, x: K, y: K)
    requires Represents(parent, v) && x in parent && y in parent
    ensures RootOf(parent, v.height, x) == RootOf(parent, v.height, y) <==> Connected(v.unions, x, y)
  {
    RepresentativeIsRoot(parent, v, x);
    RepresentativeIsRoot(parent, v, y);
    SameRepIffUnited(parent, v, x, y);
  }

  /** Re-pointing a non-root element at its own representative keeps every
      element's representative. */
  lemma CompressionKeepsRoots<K(!new)>(parent: map<K, K>, v: View<K>, x: K)
    requires Represents(parent, v) && x in parent && parent[x] != x
    ensures Represents(parent[x := v.rep[x]], v)
  {
    hide Connected;
    var parent' := parent[x := v.rep[x]];
    assert parent'.Keys == parent.Keys;
    assert LinkOk(parent, v.height, x) && RepOk(parent, v, x);
    var r := v.rep[x];
    assert LinkOk(parent, v.height, r) && RepOk(parent, v, r);
    assert v.rep[r] == r;
    forall y | y in parent'
      ensures LinkOk(parent', v.height, y) && RepOk(parent', v, y)
    {
      assert LinkOk(parent, v.height, y) && RepOk(parent, v, y);
    }
  }

  ghost function Registered<K>(v: View<K>, x: K): View<K> {
    View(v.height[x := 0], v.rep[x := x], v.unions)
  }

  lemma RegisterKeepsNode<K(!new)>(parent: map<K, K>, v: View<K>, x: K, y: K)
    requires Represents(parent, v) && x !in parent && (y == x || y in parent)
    ensures LinkOk(parent[x := x], Registered(v, x).height, y) && RepOk(parent[x := x], Registered(v, x), y)
  {
    hide Connected;
    ConnectedReflexive(v.unions, x);
    if y != x {
      assert LinkOk(parent, v.height, y) && RepOk(parent, v, y);
    }
  }

  lemma RegisterKeepsRoots<K(!new)>(parent: map<K, K>, v: View<K>, x: K)
    requires Represents(parent, v) && x !in parent
    ensures Represents(parent[x := x], Registered(v, x))
  {
    hide Connected, RepOk, LinkOk;
    var parent', v' := parent[x := x], Registered(v, x);
    forall y | y in parent'
      ensures LinkOk(parent', v'.height, y) && RepOk(parent', v', y)
    {
      RegisterKeepsNode(parent, v, x, y);
    }
  }

  /** Every member of `ra`'s class now answers to `rb`, and stands above it. */
  ghost function Linked<K>(v: View<K>, ra: K, rb: K, a: K, b: K): View<K>
    requires rb in v.height
  {
    View(
      map x | x in v.height :: if ra != rb && x in v.rep && v.rep[x] == ra then v.height[x] + v.height[rb] + 1 else v.height[x],
      map x | x in v.rep :: if v.rep[x] == ra then rb else v.rep[x],
      v.unions + {(a, b)})
  }

  lemma UnitedThroughLink<K(!new)>(v: View<K>, x: K, ra: K, a: K, b: K, rb: K)
    requires Connected(v.unions, x, ra) && Connected(v.unions, a, ra) && Connected(v.unions, b, rb)
    ensures Connected(v.unions + {(a, b)}, x, rb)
  {
    var unions' := v.unions + {(a, b)};
    ConnectedMonotone(v.unions, unions', x, ra);
    ConnectedMonotone(v.unions, unions', a, ra);
    ConnectedMonotone(v.unions, unions', b, rb);
    ConnectedSymmetric(unions', a, ra);
    ConnectedByEdge(unions', a, b);
    ConnectedTransitive(unions', x, ra, a);
    ConnectedTransitive(unions', x, a, b);
    ConnectedTransitive(unions', x, b, rb);
  }

  lemma LinkKeepsNode<K(!new)>(parent: map<K, K>, v: View<K>, a: K, b: K, x: K)
    requires Represents(parent, v) && a in parent && b in parent && x in parent
    ensures v.rep[b] in v.height
    ensures
      var parent', v' := parent[v.rep[a] := v.rep[b]], Linked(v, v.rep[a], v.rep[b], a, b);
      LinkOk(parent', v'.height, x) && RepOk(parent', v', x)
  {
    hide Connected;
    var ra, rb := v.rep[a], v.rep[b];
    assert RepOk(parent, v, a) && RepOk(parent, v, b);
    assert RepOk(parent, v, ra) && RepOk(parent, v, rb);
    assert LinkOk(parent, v.height, x) && RepOk(parent, v, x);
    assert RepOk(parent, v, v.rep[x]);
    ConnectedMonotone(v.unions, v.unions + {(a, b)}, x, v.rep[x]);
    if v.rep[x] == ra {
      UnitedThroughLink(v, x, ra, a, b, rb);
    }
  }

  lemma RepStaysInside<K(!new)>(parent: map<K, K>, v: View<K>, x: K)
    requires Represents(parent, v) && x in parent
    ensures v.rep[x] in parent && v.rep[x] in v.height && v.rep[v.rep[x]] == v.rep[x]
  {
    hide Connected;
    assert RepOk(parent, v, x);
    assert RepOk(parent, v, v.rep[x]);
  }

  /** Linking one root below another merges exactly their two classes. */
  lemma LinkMergesClasses<K(!new)>(parent: map<K, K>, v: View<K>, a: K, b: K)
    requires Represents(parent, v) && a in parent && b in parent
    ensures v.rep[b] in v.height
    ensures Represents(parent[v.rep[a] := v.rep[b]], Linked(v, v.rep[a], v.rep[b], a, b))
  {
    hide Connected, RepOk, LinkOk;
    var ra, rb := v.rep[a], v.rep[b];
    LinkKeepsNode(parent, v, a, b, a);
    var parent', v' := parent[ra := rb], Linked(v, ra, rb, a, b);
    RepStaysInside(parent, v, a);
    assert parent'.Keys == parent.Keys;
    forall x | x in parent'
      ensures LinkOk(parent', v'.height, x) && RepOk(parent', v', x)
    {
      LinkKeepsNode(parent, v, a, b, x);
    }
  }

  class UnionFind<K(==, !new)> {
    var parent: map<K, K>
    ghost var view: View<K>

    ghost predicate Valid()
      reads this
    {
      Represents(parent, view)
    }

    constructor ()
      ensures Valid() && view == View(map[], map[], {})
    {
      parent, view := map[], View(map[], map[], {});
    }

    /** Registers `x` on first sight, returns its representative and flattens the
        walked chain. No element's representative changes. */
    method Find(x: K) returns (root: K)
      requires Valid()
      modifies this
      ensures Valid() && view == if x in old(parent) then old(view) else Registered(old(view), x)
      ensures x in view.rep && root == view.rep[x]
      ensures parent.Keys == old(parent).Keys + {x}
    {
      if x !in parent {
        RegisterKeepsRoots(parent, view, x);
        parent, view := parent[x := x], Registered(view, x);
        return x;
      }
      root := x;
      assert RepOk(parent, view, x);
      while parent[root] != root
        invariant root in parent && view.rep[root] == view.rep[x]
        decreases view.height[root]
      {
        assert LinkOk(parent, view.height, root) && RepOk(parent, view, root);
        root := parent[root];
      }
      assert RepOk(parent, view, root);
      var cur := x;
      while cur != root
        invariant Valid() && view == old(view)
        invariant cur in parent && view.rep[cur] == root == view.rep[x]
        decreases view.height[cur]
      {
        var next := parent[cur];
        assert LinkOk(parent, view.height, cur) && RepOk(parent, view, cur);
        CompressionKeepsRoots(parent, view, cur);
        parent := parent[cur := root];
        cur := next;
      }
    }

    /** Merges the classes of `a` and `b` and no others. */
    method Union(a: K, b: K)
      requires Valid()
      modifies this
      ensures Valid() && view.unions == old(view).unions + {(a, b)}
      ensures parent.Keys == old(parent).Keys + {a, b}
    {
      hide Represents;
      var ra := Find(a);
      var rb := Find(b);
      RepStaysInside(parent, view, a);
      LinkMergesClasses(parent, view, a, b);
      view := Linked(view, ra, rb, a, b);
      parent := parent[ra := rb];
    }
  }
}
