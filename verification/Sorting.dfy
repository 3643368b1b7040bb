/** Sorting by a strict weak order, and the fact that makes every sorted output
    of the parsers reproducible: a strictly sorted sequence is determined by
    the set of its elements. */
module Sorting {

  ghost predicate StrictWeakOrder<T(!new)>(less: (T, T) -> bool) {
    && (forall x :: !less(x, x))
    && (forall x, y, z :: less(x, y) && less(y, z) ==> less(x, z))
    && (forall x, y, z :: less(x, z) ==> less(x, y) || less(y, z))
  }

  /** No later element sorts before an earlier one. */
  ghost predicate Sorted<T>(less: (T, T) -> bool, s: seq<T>) {
    forall i, j | 0 <= i < j < |s| :: !less(s[j], s[i])
  }

  ghost predicate StrictlySorted<T>(less: (T, T) -> bool, s: seq<T>) {
    forall i, j | 0 <= i < j < |s| :: less(s[i], s[j])
  }

  /** Any two different elements of `s` are ordered one way or the other. */
  ghost predicate Separates<T>(less: (T, T) -> bool, s: seq<T>) {
    forall i, j | 0 <= i < j < |s| :: less(s[i], s[j]) || less(s[j], s[i])
  }

  function Insert<T>(less: (T, T) -> bool, s: seq<T>, x: T): seq<T> {
    if s == [] then [x]
    else if less(x, s[0]) then [x] + s
    else [s[0]] + Insert(less, s[1..], x)
  }

  function Sort<T>(less: (T, T) -> bool, s: seq<T>): seq<T> {
    if s == [] then [] else Insert(less, Sort(less, s[1..]), s[0])
  }

  lemma {:induction false} InsertPermutes<T>(less: (T, T) -> bool, s: seq<T>, x: T)
    ensures multiset(Insert(less, s, x)) == multiset(s) + multiset{x}
  {
    if s != [] {
      assert s == [s[0]] + s[1..];
      if !less(x, s[0]) {
        InsertPermutes(less, s[1..], x);
      }
    }
  }

  lemma {:induction false} SortPermutes<T>(less: (T, T) -> bool, s: seq<T>)
    ensures multiset(Sort(less, s)) == multiset(s)
  {
    if s != [] {
      assert s == [s[0]] + s[1..];
      SortPermutes(less, s[1..]);
      InsertPermutes(less, Sort(less, s[1..]), s[0]);
    }
  }

  lemma SortKeepsElements<T>(less: (T, T) -> bool, s: seq<T>)
    ensures |Sort(less, s)| == |s|
    ensures forall x :: x in Sort(less, s) <==> x in s
  {
    SortPermutes(less, s);
    assert |multiset(Sort(less, s))| == |Sort(less, s)| && |multiset(s)| == |s|;
    forall x
      ensures x in Sort(less, s) <==> x in s
    {
      assert x in Sort(less, s) <==> x in multiset(Sort(less, s));
      assert x in s <==> x in multiset(s);
    }
  }

  lemma InsertElements<T>(less: (T, T) -> bool, s: seq<T>, x: T, y: T)
    ensures y in Insert(less, s, x) <==> y in s || y == x
  {
    InsertPermutes(less, s, x);
    assert y in Insert(less, s, x) <==> y in multiset(Insert(less, s, x));
    assert y in s <==> y in multiset(s);
  }

  lemma {:induction false} InsertSorts<T(!new)>(less: (T, T) -> bool, s: seq<T>, x: T)
    requires StrictWeakOrder(less) && Sorted(less, s)
    ensures Sorted(less, Insert(less, s, x))
  {
    if s != [] {
      if less(x, s[0]) {
        assert forall k | 0 <= k < |s| :: !less(s[k], x) by {
          forall k | 0 <= k < |s|
            ensures !less(s[k], x)
          {
            var u, v := s[k], s[0];
            assert less(u, x) && less(x, v) ==> less(u, v);
          }
        }
      } else {
        InsertSorts(less, s[1..], x);
        var rest := Insert(less, s[1..], x);
        forall k | 0 <= k < |rest|
          ensures !less(rest[k], s[0])
        {
          InsertElements(less, s[1..], x, rest[k]);
        }
      }
    }
  }

  lemma {:induction false} SortSorts<T(!new)>(less: (T, T) -> bool, s: seq<T>)
    requires StrictWeakOrder(less)
    ensures Sorted(less, Sort(less, s))
  {
    if s != [] {
      SortSorts(less, s[1..]);
      InsertSorts(less, Sort(less, s[1..]), s[0]);
    }
  }

  ghost predicate Distinct<T>(s: seq<T>) {
    forall i, j | 0 <= i < j < |s| :: s[i] != s[j]
  }

  /** Sorting elements the order tells apart yields a strictly sorted sequence. */
  lemma SortSeparates<T(!new)>(less: (T, T) -> bool, s: seq<T>)
    requires StrictWeakOrder(less) && Separates(less, s)
    ensures StrictlySorted(less, Sort(less, s))
  {
    var t := Sort(less, s);
    SortSorts(less, s);
    SortPermutes(less, s);
    SeparatesIsDistinct(less, s);
    SameMultisetDistinct(s, t);
    forall i, j | 0 <= i < j < |t|
      ensures less(t[i], t[j])
    {
      assert t[i] in multiset(s) && t[j] in multiset(s);
      var a :| 0 <= a < |s| && s[a] == t[i];
      var b :| 0 <= b < |s| && s[b] == t[j];
      assert a != b;
    }
  }

  lemma SeparatesIsDistinct<T(!new)>(less: (T, T) -> bool, s: seq<T>)
    requires StrictWeakOrder(less) && Separates(less, s)
    ensures Distinct(s)
  {
  }

  lemma {:induction false} DistinctCounts<T>(s: seq<T>)
    ensures Distinct(s) <==> forall x :: multiset(s)[x] <= 1
  {
    if s != [] {
      assert s == [s[0]] + s[1..];
      DistinctCounts(s[1..]);
      if Distinct(s) {
        assert Distinct(s[1..]);
        assert s[0] !in s[1..];
        assert s[0] !in multiset(s[1..]);
      }
      if forall x :: multiset(s)[x] <= 1 {
        assert multiset(s) == multiset{s[0]} + multiset(s[1..]);
        forall x
          ensures multiset(s[1..])[x] <= 1
        {
          assert multiset(s)[x] <= 1;
        }
        assert multiset(s)[s[0]] <= 1;
        assert s[0] !in multiset(s[1..]);
        assert Distinct(s[1..]);
      }
    }
  }

  lemma SameMultisetDistinct<T>(s: seq<T>, t: seq<T>)
    requires multiset(s) == multiset(t) && Distinct(s)
    ensures Distinct(t)
  {
    DistinctCounts(s);
    DistinctCounts(t);
  }

  lemma FirstIsLeast<T>(less: (T, T) -> bool, s: seq<T>, k: nat)
    requires StrictlySorted(less, s)
    ensures s != [] ==> s[0] in s
    ensures 0 < k < |s| ==> less(s[0], s[k])
  {
  }

  /** Elements told apart by a key stay apart when sorted. */
  lemma SortKeepsApart<T, K>(less: (T, T) -> bool, s: seq<T>, key: T -> K)
    requires forall i, j | 0 <= i < j < |s| :: key(s[i]) != key(s[j])
    ensures forall i, j | 0 <= i < j < |Sort(less, s)| :: key(Sort(less, s)[i]) != key(Sort(less, s)[j])
  {
    var t := Sort(less, s);
    SortPermutes(less, s);
    SortKeepsElements(less, s);
    assert Distinct(s);
    SameMultisetDistinct(s, t);
    forall i, j | 0 <= i < j < |t|
      ensures key(t[i]) != key(t[j])
    {
      assert t[i] in multiset(s) && t[j] in multiset(s) && t[i] != t[j];
      var a :| 0 <= a < |s| && s[a] == t[i];
      var b :| 0 <= b < |s| && s[b] == t[j];
    }
  }

  /** Two strictly sorted sequences with the same elements are the same sequence. */
  lemma {:induction false} StrictlySortedUnique<T(!new)>(less: (T, T) -> bool, s: seq<T>, t: seq<T>)
    requires StrictWeakOrder(less) && StrictlySorted(less, s) && StrictlySorted(less, t)
    requires forall x :: x in s <==> x in t
    ensures s == t
  {
    if s == [] {
      FirstIsLeast(less, t, 0);
    } else {
      assert s[0] in t;
      assert t[0] in s;
      var i :| 0 <= i < |t| && t[i] == s[0];
      var j :| 0 <= j < |s| && s[j] == t[0];
      FirstIsLeast(less, t, i);
      FirstIsLeast(less, s, j);
      assert i == 0;
      forall x
        ensures x in s[1..] <==> x in t[1..]
      {
        TailElements(less, s, x);
        TailElements(less, t, x);
      }
      StrictlySortedUnique(less, s[1..], t[1..]);
      assert s == [s[0]] + s[1..] && t == [t[0]] + t[1..];
    }
  }

  lemma TailElements<T(!new)>(less: (T, T) -> bool, s: seq<T>, x: T)
    requires StrictWeakOrder(less) && StrictlySorted(less, s) && s != []
    ensures x in s[1..] <==> x in s && x != s[0]
  {
    if x in s && x != s[0] {
      var k :| 0 <= k < |s| && s[k] == x;
      assert s[1..][k - 1] == x;
    }
    if x in s[1..] {
      var k :| 0 <= k < |s[1..]| && s[1..][k] == x;
      assert less(s[0], s[k + 1]);
    }
  }

  /** Byte-wise string order, as `sort.Strings` and the instance comparisons use it. */
  predicate StringLess(a: string, b: string) {
    if b == [] then false
    else if a == [] then true
    else if a[0] != b[0] then a[0] < b[0]
    else StringLess(a[1..], b[1..])
  }

  lemma {:induction false} StringLessIrreflexive(a: string)
    ensures !StringLess(a, a)
  {
    if a != [] { StringLessIrreflexive(a[1..]); }
  }

  lemma {:induction false} StringLessTotal(a: string, b: string)
    ensures a == b || StringLess(a, b) || StringLess(b, a)
  {
    if a != [] && b != [] && a[0] == b[0] {
      StringLessTotal(a[1..], b[1..]);
      assert a == [a[0]] + a[1..] && b == [b[0]] + b[1..];
    }
  }

  lemma {:induction false} StringLessTransitive(a: string, b: string, c: string)
    requires StringLess(a, b) && StringLess(b, c)
    ensures StringLess(a, c)
  {
    if a != [] && a[0] == b[0] == c[0] {
      StringLessTransitive(a[1..], b[1..], c[1..]);
    }
  }

  lemma StringOrder()
    ensures StrictWeakOrder(StringLess)
    ensures forall a, b :: a == b || StringLess(a, b) || StringLess(b, a)
  {
    forall a
      ensures !StringLess(a, a)
    {
      StringLessIrreflexive(a);
    }
    forall a, b
      ensures a == b || StringLess(a, b) || StringLess(b, a)
    {
      StringLessTotal(a, b);
    }
    forall a, b, c | StringLess(a, b) && StringLess(b, c)
      ensures StringLess(a, c)
    {
      StringLessTransitive(a, b, c);
    }
    forall a, b, c | StringLess(a, c)
      ensures StringLess(a, b) || StringLess(b, c)
    {
      StringLessTotal(a, b);
      if StringLess(b, a) { StringLessTransitive(b, a, c); }
    }
  }

  /** The keys of a set in ascending order, as `sortedKeys` lists them. */
  method SortedKeys(keys: set<string>) returns (out: seq<string>)
    ensures StrictlySorted(StringLess, out)
    ensures forall k :: k in out <==> k in keys
  {
    var collected: seq<string> := [];
    var todo := keys;
    while todo != {}
      invariant todo <= keys
      invariant forall k :: k in collected <==> k in keys && k !in todo
      invariant Distinct(collected)
      decreases todo
    {
      var k :| k in todo;
      collected := collected + [k];
      todo := todo - {k};
    }
    out := Sort(StringLess, collected);
    StringOrder();
    SortKeepsElements(StringLess, collected);
    SortSeparates(StringLess, collected);
  }
}
