/** The aggregate hash of a directory unit: which snapshots it tells apart. */
module DirectoryUnits {
  import opened Sorting

  /** A raw 32-byte content hash. */
  type Hash32 = h: seq<nat> | |h| == 32 witness seq(32, _ => 0)

  type Snapshot = map<string, Hash32>

  /** A SHA-256 over a buffer, which no two different buffers share. */
  datatype Aggregate = Sha256Of(buffer: seq<nat>)

  const UINT32 := 0x1_0000_0000

  function BigEndian4(n: nat): (b: seq<nat>)
    ensures |b| == 4
  {
    var m := n % UINT32;
    [m / 0x100_0000, m / 0x1_0000 % 0x100, m / 0x100 % 0x100, m % 0x100]
  }

  function Codes(name: string): (c: seq<nat>)
    ensures |c| == |name|
  {
    seq(|name|, i requires 0 <= i < |name| => name[i] as nat)
  }

  /** One member: its name, length-prefixed, and its raw hash. */
  function Record(name: string, hash: Hash32): (r: seq<nat>)
    ensures |r| == |name| + 36
  {
    BigEndian4(|name|) + Codes(name) + hash
  }

  function Serialized(names: seq<string>, snapshot: Snapshot): seq<nat>
    requires forall n :: n in names ==> n in snapshot
  {
    if names == [] then []
    else Serialized(names[..|names| - 1], snapshot) + Record(names[|names| - 1], snapshot[names[|names| - 1]])
  }

  ghost predicate Lists(names: seq<string>, snapshot: Snapshot) {
    StrictlySorted(StringLess, names) && forall n :: n in names <==> n in snapshot
  }

  /** Member names are shorter than 4 GiB, as every file system makes them. */
  ghost predicate ShortNames(snapshot: Snapshot) {
    forall n :: n in snapshot ==> |n| < UINT32
  }

  ghost predicate IsAggregate(snapshot: Snapshot, a: Aggregate) {
    exists names :: Lists(names, snapshot) && a == Sha256Of(Serialized(names, snapshot))
  }

  method AggregateHash(snapshot: Snapshot) returns (a: Aggregate)
    ensures IsAggregate(snapshot, a)
  {
    var names := SortedKeys(snapshot.Keys);
    var buffer: seq<nat> := [];
    for i := 0 to |names|
      invariant buffer == Serialized(names[..i], snapshot)
    {
      assert names[..i + 1][..i] == names[..i];
      buffer := buffer + BigEndian4(|names[i]|);
      buffer := buffer + Codes(names[i]);
      buffer := buffer + snapshot[names[i]];
    }
    assert names[..|names|] == names;
    a := Sha256Of(buffer);
  }

  // ---- Telling snapshots apart ----

  /** The same bytes, read from the front. */
  function FromFront(names: seq<string>, snapshot: Snapshot): seq<nat>
    requires forall n :: n in names ==> n in snapshot
  {
    if names == [] then [] else Record(names[0], snapshot[names[0]]) + FromFront(names[1..], snapshot)
  }

  lemma {:induction false} SerializedPrepend(n: string, rest: seq<string>, snapshot: Snapshot)
    requires n in snapshot && forall m :: m in rest ==> m in snapshot
    ensures Serialized([n] + rest, snapshot) == Record(n, snapshot[n]) + Serialized(rest, snapshot)
    decreases |rest|
  {
    hide Record;
    var r := Record(n, snapshot[n]);
    if rest == [] {
      assert [n] + rest == [n];
      assert [n][..0] == [];
      assert [] + r == r + [];
    } else {
      var init, last := rest[..|rest| - 1], rest[|rest| - 1];
      SerializedPrepend(n, init, snapshot);
      assert ([n] + rest)[..|rest|] == [n] + init;
      assert (r + Serialized(init, snapshot)) + Record(last, snapshot[last]) == r + (Serialized(init, snapshot) + Record(last, snapshot[last]));
    }
  }

  lemma {:induction false} SameFromFront(names: seq<string>, snapshot: Snapshot)
    requires forall n :: n in names ==> n in snapshot
    ensures Serialized(names, snapshot) == FromFront(names, snapshot)
    decreases |names|
  {
    hide Record;
    if names != [] {
      SameFromFront(names[1..], snapshot);
      SerializedPrepend(names[0], names[1..], snapshot);
      assert names == [names[0]] + names[1..];
    }
  }

  lemma BigEndian4Injective(a: nat, b: nat)
    requires a < UINT32 && b < UINT32 && BigEndian4(a) == BigEndian4(b)
    ensures a == b
  {
    hide BigEndian4;
    Base256(a);
    Base256(b);
  }

  lemma Base256(a: nat)
    requires a < UINT32
    ensures
      var b := BigEndian4(a);
      a == 0x100_0000 * b[0] + 0x1_0000 * b[1] + 0x100 * b[2] + b[3]
  {
    assert a % UINT32 == a;
    assert a == 0x100 * (a / 0x100) + a % 0x100;
    assert a / 0x100 == 0x100 * (a / 0x1_0000) + a / 0x100 % 0x100;
    assert a / 0x1_0000 == 0x100 * (a / 0x100_0000) + a / 0x1_0000 % 0x100;
  }

  lemma CodesInjective(a: string, b: string)
    requires Codes(a) == Codes(b)
    ensures a == b
  {
    forall i | 0 <= i < |a|
      ensures a[i] == b[i]
    {
      assert Codes(a)[i] == Codes(b)[i];
    }
  }

  /** A record says where it ends, so what follows it can be told apart too. */
  lemma RecordInjective(n1: string, h1: Hash32, t1: seq<nat>, n2: string, h2: Hash32, t2: seq<nat>)
    requires |n1| < UINT32 && |n2| < UINT32
    requires Record(n1, h1) + t1 == Record(n2, h2) + t2
    ensures n1 == n2 && h1 == h2 && t1 == t2
  {
    hide BigEndian4, Codes;
    var r1, r2 := Record(n1, h1) + t1, Record(n2, h2) + t2;
    assert r1[..4] == BigEndian4(|n1|) && r2[..4] == BigEndian4(|n2|);
    BigEndian4Injective(|n1|, |n2|);
    var k := 4 + |n1|;
    assert r1[4..k] == Codes(n1) && r2[4..k] == Codes(n2);
    CodesInjective(n1, n2);
    assert r1[k..k + 32] == h1 && r2[k..k + 32] == h2;
    assert r1[k + 32..] == t1 && r2[k + 32..] == t2;
  }

  lemma {:induction false} FromFrontInjective(names1: seq<string>, s1: Snapshot, names2: seq<string>, s2: Snapshot)
    requires forall n :: n in names1 ==> n in s1 && |n| < UINT32
    requires forall n :: n in names2 ==> n in s2 && |n| < UINT32
    requires FromFront(names1, s1) == FromFront(names2, s2)
    ensures names1 == names2
    ensures forall i :: 0 <= i < |names1| ==> names1[i] in s1 && names1[i] in s2 && s1[names1[i]] == s2[names1[i]]
    decreases |names1|
  {
    if names1 != [] && names2 != [] {
      RecordInjective(names1[0], s1[names1[0]], FromFront(names1[1..], s1),
                      names2[0], s2[names2[0]], FromFront(names2[1..], s2));
      FromFrontInjective(names1[1..], s1, names2[1..], s2);
      assert names1 == [names1[0]] + names1[1..] && names2 == [names2[0]] + names2[1..];
      forall i | 0 <= i < |names1|
        ensures names1[i] in s1 && names1[i] in s2 && s1[names1[i]] == s2[names1[i]]
      {
        if i > 0 { assert names1[1..][i - 1] == names1[i]; }
      }
    }
  }

  /** Two snapshots have the same aggregate exactly when no member's content differs
      and none was added or removed. */
  lemma AggregateTellsApart(s1: Snapshot, a1: Aggregate, s2: Snapshot, a2: Aggregate)
    requires IsAggregate(s1, a1) && IsAggregate(s2, a2) && ShortNames(s1) && ShortNames(s2)
    ensures a1 == a2 <==> s1 == s2
  {
    hide Serialized, FromFront, StringLess;
    var names1 :| Lists(names1, s1) && a1 == Sha256Of(Serialized(names1, s1));
    var names2 :| Lists(names2, s2) && a2 == Sha256Of(Serialized(names2, s2));
    if s1 == s2 {
      StringOrder();
      StrictlySortedUnique(StringLess, names1, names2);
    }
    if a1 == a2 {
      SameFromFront(names1, s1);
      SameFromFront(names2, s2);
      FromFrontInjective(names1, s1, names2, s2);
      SameMaps(names1, s1, s2);
    }
  }

  lemma SameMaps(names: seq<string>, s1: Snapshot, s2: Snapshot)
    requires (forall n :: n in names <==> n in s1) && (forall n :: n in names <==> n in s2)
    requires forall i :: 0 <= i < |names| ==> names[i] in s1 && names[i] in s2 && s1[names[i]] == s2[names[i]]
    ensures s1 == s2
  {
    forall n | n in s1
      ensures n in s2 && s1[n] == s2[n]
    {
      var i :| 0 <= i < |names| && names[i] == n;
    }
  }
}
