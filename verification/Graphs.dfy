/** Undirected reachability, the reference notion behind production lines and
    spatial bases: two nodes belong together when a path of edges joins them. */
module Graphs {

  /** An edge may be walked in both directions. */
  ghost predicate Adjacent<K>(edges: set<(K, K)>, x: K, y: K) {
    (x, y) in edges || (y, x) in edges
  }

  ghost predicate IsPath<K>(edges: set<(K, K)>, path: seq<K>) {
    && path != []
    && forall i | 0 <= i < |path| - 1 :: Adjacent(edges, path[i], path[i + 1])
  }

  ghost predicate Joins<K>(edges: set<(K, K)>, path: seq<K>, x: K, y: K) {
    IsPath(edges, path) && path[0] == x && path[|path| - 1] == y
  }

  ghost predicate Connected<K(!new)>(edges: set<(K, K)>, x: K, y: K) {
    exists path :: Joins(edges, path, x, y)
  }

  lemma ConnectedReflexive<K(!new)>(edges: set<(K, K)>, x: K)
    ensures Connected(edges, x, x)
  {
    assert Joins(edges, [x], x, x);
  }

  lemma ConnectedByEdge<K(!new)>(edges: set<(K, K)>, x: K, y: K)
    requires Adjacent(edges, x, y)
    ensures Connected(edges, x, y)
  {
    assert Joins(edges, [x, y], x, y);
  }

  lemma ConnectedTransitive<K(!new)>(edges: set<(K, K)>, x: K, y: K, z: K)
    requires Connected(edges, x, y) && Connected(edges, y, z)
    ensures Connected(edges, x, z)
  {
    var p :| Joins(edges, p, x, y);
    var q :| Joins(edges, q, y, z);
    var r := p + q[1..];
    forall i | 0 <= i < |r| - 1
      ensures Adjacent(edges, r[i], r[i + 1])
    {
      if i >= |p| - 1 {
        assert r[i] == q[i - (|p| - 1)] && r[i + 1] == q[i - (|p| - 1) + 1];
      }
    }
    assert Joins(edges, r, x, z);
  }

  lemma ConnectedSymmetric<K(!new)>(edges: set<(K, K)>, x: K, y: K)
    requires Connected(edges, x, y)
    ensures Connected(edges, y, x)
  {
    var p :| Joins(edges, p, x, y);
    var r := seq(|p|, i requires 0 <= i < |p| => p[|p| - 1 - i]);
    forall i | 0 <= i < |r| - 1
      ensures Adjacent(edges, r[i], r[i + 1])
    {
      var j := |p| - 2 - i;
      assert Adjacent(edges, p[j], p[j + 1]);
    }
    assert Joins(edges, r, y, x);
  }

  lemma ConnectedMonotone<K(!new)>(edges: set<(K, K)>, more: set<(K, K)>, x: K, y: K)
    requires edges <= more
    requires Connected(edges, x, y)
    ensures Connected(more, x, y)
  {
    var p :| Joins(edges, p, x, y);
    assert Joins(more, p, x, y);
  }

  /** Any labelling that every edge respects is constant along every path. */
  lemma {:induction false} LabelConstantAlongPath<K, L>(edges: set<(K, K)>, labels: map<K, L>, path: seq<K>, x: K, y: K)
    requires forall e | e in edges :: e.0 in labels && e.1 in labels && labels[e.0] == labels[e.1]
    requires x in labels && Joins(edges, path, x, y)
    ensures y in labels && labels[x] == labels[y]
  {
    if |path| > 1 {
      assert Adjacent(edges, path[0], path[1]);
      assert (path[0], path[1]) in edges || (path[1], path[0]) in edges;
      var rest := path[1..];
      forall i | 0 <= i < |rest| - 1
        ensures Adjacent(edges, rest[i], rest[i + 1])
      {
        assert Adjacent(edges, path[i + 1], path[i + 2]);
      }
      LabelConstantAlongPath(edges, labels, rest, path[1], y);
    }
  }
}
