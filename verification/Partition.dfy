/** Greedy partitions of a list into consecutive parts whose serialized size stays
    within a limit. `size(start, end, part)` is the size of elements start..end
    serialized as the given part. */
module Partition {

  type Size = (nat, nat, nat) -> nat

  /** Taking elements away never makes a part larger. */
  ghost predicate Monotone(size: Size, n: nat) {
    forall s1: nat, s2: nat, e1: nat, e2: nat, part: nat ::
      s1 <= s2 < e2 <= e1 <= n ==> size(s2, e2, part) <= size(s1, e1, part)
  }

  predicate Fits(size: Size, limit: nat, start: nat, end: nat, part: nat) {
    size(start, end, part) <= limit
  }

  /** A part is allowed if it fits, or cannot be made any smaller. */
  predicate Allowed(size: Size, limit: nat, start: nat, end: nat, part: nat) {
    start < end && (Fits(size, limit, start, end, part) || end == start + 1)
  }

  /** The linear scan: take one more element as long as the result still fits. */
  function LinearEnd(size: Size, limit: nat, start: nat, end: nat, part: nat, n: nat): (e: nat)
    requires end <= n
    ensures end <= e <= n
    decreases n - end
  {
    if end < n && Fits(size, limit, start, end + 1, part) then LinearEnd(size, limit, start, end + 1, part, n) else end
  }

  /** Where the greedy parts from `start` on end; the first of them is number `part`. */
  function Greedy(size: Size, limit: nat, start: nat, part: nat, n: nat): (ends: seq<nat>)
    requires start <= n
    ensures start == n <==> ends == []
    ensures ends != [] ==> ends[|ends| - 1] == n
    decreases n - start
  {
    if start == n then []
    else
      var end := LinearEnd(size, limit, start, start + 1, part, n);
      [end] + Greedy(size, limit, end, part + 1, n)
  }

  /** Parts that cover start..n in order, each of them allowed. */
  predicate Admissible(size: Size, limit: nat, start: nat, part: nat, n: nat, ends: seq<nat>)
    decreases |ends|
  {
    if ends == [] then start == n
    else
      && Allowed(size, limit, start, ends[0], part) && ends[0] <= n
      && Admissible(size, limit, ends[0], part + 1, n, ends[1..])
  }

  /** Every part the greedy scan makes has a size within the limit, unless it is a
      single element. */
  lemma {:induction false} GreedyPartsFit(size: Size, limit: nat, start: nat, part: nat, n: nat, k: nat)
    requires start <= n && k < |Greedy(size, limit, start, part, n)|
    ensures
      var ends := Greedy(size, limit, start, part, n);
      var from := if k == 0 then start else ends[k - 1];
      from < ends[k] <= n && (size(from, ends[k], part + k) <= limit || ends[k] == from + 1)
    decreases n - start
  {
    hide LinearEnd;
    var end := LinearEnd(size, limit, start, start + 1, part, n);
    var rest := Greedy(size, limit, end, part + 1, n);
    assert Greedy(size, limit, start, part, n) == [end] + rest;
    hide Greedy;
    LinearFits(size, limit, start, start + 1, part, n);
    if k > 0 {
      GreedyPartsFit(size, limit, end, part + 1, n, k - 1);
      assert k > 1 ==> ([end] + rest)[k - 1] == rest[k - 2];
    }
  }

  lemma {:induction false} LinearFits(size: Size, limit: nat, start: nat, end: nat, part: nat, n: nat)
    requires start < end <= n
    ensures
      var e := LinearEnd(size, limit, start, end, part, n);
      e == end || size(start, e, part) <= limit
    decreases n - end
  {
    if end < n && size(start, end + 1, part) <= limit {
      LinearFits(size, limit, start, end + 1, part, n);
    }
  }

  // ---- The linear scan is the longest fitting part ----

  lemma {:induction false} LinearIsMaximal(size: Size, limit: nat, start: nat, end: nat, part: nat, n: nat)
    requires Monotone(size, n) && start < end <= n
    ensures
      var e := LinearEnd(size, limit, start, end, part, n);
      && (e == end || Fits(size, limit, start, e, part))
      && (forall f :: e < f <= n ==> !Fits(size, limit, start, f, part))
    decreases n - end
  {
    if end < n && Fits(size, limit, start, end + 1, part) {
      LinearIsMaximal(size, limit, start, end + 1, part, n);
    } else {
      forall f | end < f <= n
        ensures !Fits(size, limit, start, f, part)
      {
        assert size(start, end + 1, part) <= size(start, f, part);
      }
    }
  }

  /** The scan gets at least as far as any end that fits. */
  lemma LinearReaches(size: Size, limit: nat, start: nat, part: nat, n: nat, end: nat)
    requires Monotone(size, n) && start < end <= n
    requires end == start + 1 || Fits(size, limit, start, end, part)
    ensures end <= LinearEnd(size, limit, start, start + 1, part, n)
  {
    LinearIsMaximal(size, limit, start, start + 1, part, n);
  }

  /** The greedy parts tile the list in order, each fitting or a single element. */
  lemma {:induction false} GreedyIsAdmissible(size: Size, limit: nat, start: nat, part: nat, n: nat)
    requires Monotone(size, n) && start <= n
    ensures Admissible(size, limit, start, part, n, Greedy(size, limit, start, part, n))
    decreases n - start
  {
    if start < n {
      LinearIsMaximal(size, limit, start, start + 1, part, n);
      var end := LinearEnd(size, limit, start, start + 1, part, n);
      GreedyIsAdmissible(size, limit, end, part + 1, n);
    }
  }

  /** Greedy stays ahead: from at least as far on, it needs no more parts than any
      admissible partition. */
  lemma {:induction false} GreedyIsOptimal(size: Size, limit: nat, start: nat, other: nat, part: nat, n: nat, ends: seq<nat>)
    requires Monotone(size, n) && other <= start <= n
    requires Admissible(size, limit, other, part, n, ends)
    ensures |Greedy(size, limit, start, part, n)| <= |ends|
    decreases |ends|
  {
    if start < n {
      var end := LinearEnd(size, limit, start, start + 1, part, n);
      if start < ends[0] {
        assert size(start, ends[0], part) <= size(other, ends[0], part);
        LinearReaches(size, limit, start, part, n, ends[0]);
      }
      GreedyIsOptimal(size, limit, end, ends[0], part + 1, n, ends[1..]);
    }
  }

  // ---- Doubling and bisecting ----

  /** Finds the same end by doubling the step until a candidate is too large, then
      bisecting the gap. */
  method GallopingEnd(size: Size, limit: nat, start: nat, part: nat, n: nat) returns (end: nat)
    requires Monotone(size, n) && start < n
    ensures end == LinearEnd(size, limit, start, start + 1, part, n)
  {
    end := start + 1;
    LinearIsMaximal(size, limit, start, start + 1, part, n);
    if !Fits(size, limit, start, end, part) {
      ghost var e := LinearEnd(size, limit, start, start + 1, part, n);
      assert size(start, start + 1, part) <= size(start, e, part);
      return;
    }
    var fitEnd, step, failedEnd := end, 1, n + 1;
    while fitEnd < n && failedEnd == n + 1
      invariant start < fitEnd <= n && fitEnd < failedEnd <= n + 1 && step > 0
      invariant Fits(size, limit, start, fitEnd, part)
      invariant failedEnd <= n ==> !Fits(size, limit, start, failedEnd, part)
      decreases n - fitEnd, failedEnd
    {
      var candidateEnd := if fitEnd + step > n then n else fitEnd + step;
      if !Fits(size, limit, start, candidateEnd, part) {
        failedEnd := candidateEnd;
      } else {
        fitEnd := candidateEnd;
        step := step * 2;
      }
    }
    var low, high := fitEnd + 1, failedEnd - 1;
    while low <= high
      invariant start < fitEnd <= n && low == fitEnd + 1 <= high + 2 && high <= n
      invariant Fits(size, limit, start, fitEnd, part)
      invariant high + 1 <= n ==> !Fits(size, limit, start, high + 1, part)
      decreases high - low
    {
      var mid := low + (high - low) / 2;
      if Fits(size, limit, start, mid, part) {
        fitEnd, low := mid, mid + 1;
      } else {
        high := mid - 1;
      }
    }
    end := fitEnd;
    LongestIsLinear(size, limit, start, part, n, end);
  }

  lemma LongestIsLinear(size: Size, limit: nat, start: nat, part: nat, n: nat, end: nat)
    requires Monotone(size, n) && start < end <= n && Fits(size, limit, start, end, part)
    requires end < n ==> !Fits(size, limit, start, end + 1, part)
    ensures end == LinearEnd(size, limit, start, start + 1, part, n)
  {
    LinearReaches(size, limit, start, part, n, end);
    LinearIsMaximal(size, limit, start, start + 1, part, n);
    var e := LinearEnd(size, limit, start, start + 1, part, n);
    assert forall f :: end < f <= n ==> size(start, end + 1, part) <= size(start, f, part);
  }

  // ---- Names ----

  function Decimal(k: nat): (s: string)
    ensures |s| > 0
  {
    if k < 10 then [Digit(k)] else Decimal(k / 10) + [Digit(k % 10)]
  }

  function Digit(d: nat): char
    requires d < 10
  {
    ('0' as int + d) as char
  }

  lemma {:induction false} DecimalInjective(a: nat, b: nat)
    requires Decimal(a) == Decimal(b)
    ensures a == b
    decreases a
  {
    assert Decimal(a)[|Decimal(a)| - 1] == Digit(a % 10);
    assert Decimal(b)[|Decimal(b)| - 1] == Digit(b % 10);
    if a >= 10 && b >= 10 {
      assert Decimal(a)[..|Decimal(a)| - 1] == Decimal(a / 10);
      assert Decimal(b)[..|Decimal(b)| - 1] == Decimal(b / 10);
      DecimalInjective(a / 10, b / 10);
    }
  }

  function PartName(baseName: string, part: nat): string {
    baseName + ":p" + Decimal(part)
  }

  lemma PartNamesDiffer(baseName: string, a: nat, b: nat)
    requires PartName(baseName, a) == PartName(baseName, b)
    ensures a == b
  {
    var k := |baseName| + 2;
    assert PartName(baseName, a)[k..] == Decimal(a);
    assert PartName(baseName, b)[k..] == Decimal(b);
    DecimalInjective(a, b);
  }

  /** The names as they are spelled. */
  lemma PartNamesSpelled(baseName: string)
    ensures PartName(baseName, 1) == baseName + ":p1" && PartName(baseName, 9) == baseName + ":p9"
    ensures PartName(baseName, 10) == baseName + ":p10" && PartName(baseName, 274) == baseName + ":p274"
  {
    assert Decimal(1) == "1" && Decimal(9) == "9" && Decimal(10) == "10";
    assert Decimal(27) == "27";
    assert Decimal(274) == "274";
    assert baseName + ":p" + "10" == baseName + ":p10" && baseName + ":p" + "274" == baseName + ":p274";
  }

  // ---- The sections of one partitioned list ----

  /** The elements a section holds and the part number it carries. */
  datatype Part = Part(start: nat, end: nat, number: nat)

  function StartOf(ends: seq<nat>, i: nat): nat
    requires i <= |ends|
  {
    if i == 0 then 0 else ends[i - 1]
  }

  /** Part `k`, counting from one. */
  function PartAt(ends: seq<nat>, k: nat): Part
    requires 1 <= k <= |ends|
  {
    Part(StartOf(ends, k - 1), ends[k - 1], k)
  }

  ghost predicate IsPartName(baseName: string, count: nat, name: string) {
    exists k: nat :: 1 <= k <= count && name == PartName(baseName, k)
  }

  /** Every part is stored under its own name, and nothing else is. */
  ghost predicate Stored(sections: map<string, Part>, baseName: string, ends: seq<nat>) {
    && (forall k: nat :: 1 <= k <= |ends| ==> PartName(baseName, k) in sections && sections[PartName(baseName, k)] == PartAt(ends, k))
    && (forall name :: name in sections ==> IsPartName(baseName, |ends|, name))
  }

  lemma StoreOne(sections: map<string, Part>, baseName: string, ends: seq<nat>, end: nat)
    requires Stored(sections, baseName, ends)
    ensures
      var start := StartOf(ends, |ends|);
      Stored(sections[PartName(baseName, |ends| + 1) := Part(start, end, |ends| + 1)], baseName, ends + [end])
  {
    hide PartName;
    var start, more := StartOf(ends, |ends|), ends + [end];
    var sections' := sections[PartName(baseName, |ends| + 1) := Part(start, end, |ends| + 1)];
    forall k: nat | 1 <= k <= |more|
      ensures PartName(baseName, k) in sections' && sections'[PartName(baseName, k)] == PartAt(more, k)
    {
      if k <= |ends| {
        assert PartAt(more, k) == PartAt(ends, k);
        if PartName(baseName, k) == PartName(baseName, |ends| + 1) {
          PartNamesDiffer(baseName, k, |ends| + 1);
        }
      }
    }
    forall name | name in sections'
      ensures IsPartName(baseName, |more|, name)
    {
      if name in sections {
        assert IsPartName(baseName, |ends|, name);
      }
    }
  }

  /** The parts still to come continue the ones already cut. */
  ghost predicate Cutting(size: Size, limit: nat, n: nat, ends: seq<nat>) {
    var start := StartOf(ends, |ends|);
    start <= n && ends + Greedy(size, limit, start, |ends| + 1, n) == Greedy(size, limit, 0, 1, n)
  }

  lemma CutOne(size: Size, limit: nat, n: nat, ends: seq<nat>)
    requires Cutting(size, limit, n, ends) && StartOf(ends, |ends|) < n
    ensures
      var start := StartOf(ends, |ends|);
      Cutting(size, limit, n, ends + [LinearEnd(size, limit, start, start + 1, |ends| + 1, n)])
  {
    hide LinearEnd;
    var start := StartOf(ends, |ends|);
    var end := LinearEnd(size, limit, start, start + 1, |ends| + 1, n);
    var more := Greedy(size, limit, end, |ends| + 2, n);
    assert Greedy(size, limit, start, |ends| + 1, n) == [end] + more;
    assert StartOf(ends + [end], |ends| + 1) == end;
    assert (ends + [end]) + more == ends + ([end] + more);
  }

  lemma CutAll(size: Size, limit: nat, n: nat, ends: seq<nat>)
    requires Cutting(size, limit, n, ends) && StartOf(ends, |ends|) == n
    ensures ends == Greedy(size, limit, 0, 1, n)
  {
    assert ends + [] == ends;
  }

  lemma NothingCut(size: Size, limit: nat, n: nat)
    ensures Cutting(size, limit, n, [])
  {
    assert [] + Greedy(size, limit, 0, 1, n) == Greedy(size, limit, 0, 1, n);
  }

  /** Splits a game's turns into phases, cutting each by doubling and bisecting. */
  method BuildGamePhases(size: Size, limit: nat, baseName: string, n: nat) returns (sections: map<string, Part>)
    requires Monotone(size, n)
    ensures Stored(sections, baseName, Greedy(size, limit, 0, 1, n))
  {
    hide PartName, Stored, Monotone, Greedy, LinearEnd, Cutting;
    sections := map[];
    NothingStored(baseName);
    ghost var ends: seq<nat> := [];
    NothingCut(size, limit, n);
    var start, phase := 0, 1;
    while start < n
      invariant start == StartOf(ends, |ends|) <= n && phase == |ends| + 1
      invariant Stored(sections, baseName, ends) && Cutting(size, limit, n, ends)
      decreases n - start
    {
      CutOne(size, limit, n, ends);
      var end := GallopingEnd(size, limit, start, phase, n);
      StoreOne(sections, baseName, ends, end);
      sections := sections[PartName(baseName, phase) := Part(start, end, phase)];
      ends := ends + [end];
      start, phase := end, phase + 1;
    }
    CutAll(size, limit, n, ends);
  }

  lemma NothingStored(baseName: string)
    ensures Stored(map[], baseName, [])
  {
  }

  /** Splits a stash tab's items into parts, cutting each by the linear scan. */
  method EmitStashParts(size: Size, limit: nat, baseName: string, n: nat) returns (sections: map<string, Part>)
    ensures Stored(sections, baseName, Greedy(size, limit, 0, 1, n))
  {
    hide PartName, Stored, Greedy, Cutting;
    sections := map[];
    NothingStored(baseName);
    ghost var ends: seq<nat> := [];
    NothingCut(size, limit, n);
    var start, part := 0, 1;
    while start < n
      invariant start == StartOf(ends, |ends|) <= n && part == |ends| + 1
      invariant Stored(sections, baseName, ends) && Cutting(size, limit, n, ends)
      decreases n - start
    {
      CutOne(size, limit, n, ends);
      var end := start + 1;
      while end < n && Fits(size, limit, start, end + 1, part)
        invariant start < end <= n
        invariant LinearEnd(size, limit, start, start + 1, part, n) == LinearEnd(size, limit, start, end, part, n)
      {
        end := end + 1;
      }
      StoreOne(sections, baseName, ends, end);
      sections := sections[PartName(baseName, part) := Part(start, end, part)];
      ends := ends + [end];
      start, part := end, part + 1;
    }
    CutAll(size, limit, n, ends);
  }

  /** The section of a list that fits whole, or its parts. */
  function Whole(n: nat): Part {
    Part(0, n, 0)
  }

  method BuildGameSections(size: Size, fullSize: nat, limit: nat, baseName: string, n: nat) returns (sections: map<string, Part>)
    requires Monotone(size, n)
    ensures fullSize <= limit ==> sections == map[baseName := Whole(n)]
    ensures fullSize > limit ==> Stored(sections, baseName, Greedy(size, limit, 0, 1, n))
  {
    if fullSize <= limit {
      return map[baseName := Whole(n)];
    }
    sections := BuildGamePhases(size, limit, baseName, n);
  }

  method EmitStashTabSections(size: Size, fullSize: nat, limit: nat, baseName: string, n: nat) returns (sections: map<string, Part>)
    ensures fullSize <= limit ==> sections == map[baseName := Whole(n)]
    ensures fullSize > limit ==> Stored(sections, baseName, Greedy(size, limit, 0, 1, n))
  {
    if fullSize <= limit {
      return map[baseName := Whole(n)];
    }
    sections := EmitStashParts(size, limit, baseName, n);
  }

  // ---- The phase index ----

  /** The first `k` part names, in order. */
  function NamesUpTo(baseName: string, k: nat): (names: seq<string>)
    ensures |names| == k
  {
    if k == 0 then [] else NamesUpTo(baseName, k - 1) + [PartName(baseName, k)]
  }

  lemma {:induction false} NameAt(baseName: string, count: nat, k: nat)
    requires 1 <= k <= count
    ensures NamesUpTo(baseName, count)[k - 1] == PartName(baseName, k)
  {
    if k < count { NameAt(baseName, count - 1, k); }
  }

  /** Part names never repeat, so only so many can be present. */
  lemma {:induction false} NamesDistinct(baseName: string, count: nat, keys: set<string>)
    requires forall k: nat :: 1 <= k <= count ==> PartName(baseName, k) in keys
    ensures count <= |keys|
    decreases count
  {
    hide PartName;
    if count > 0 {
      var rest := keys - {PartName(baseName, count)};
      forall k: nat | 1 <= k <= count - 1
        ensures PartName(baseName, k) in rest
      {
        if PartName(baseName, k) == PartName(baseName, count) {
          PartNamesDiffer(baseName, k, count);
        }
      }
      NamesDistinct(baseName, count - 1, rest);
      assert |rest| == |keys| - 1;
    }
  }

  ghost predicate AllPresent(sections: map<string, Part>, baseName: string, count: nat) {
    forall k: nat :: 1 <= k <= count ==> PartName(baseName, k) in sections
  }

  /** Lists p1, p2, and so on until a name is missing. */
  method PhaseIndex(sections: map<string, Part>, baseName: string) returns (names: seq<string>)
    ensures names == NamesUpTo(baseName, |names|)
    ensures AllPresent(sections, baseName, |names|) && PartName(baseName, |names| + 1) !in sections
  {
    hide PartName;
    names := [];
    var phase := 1;
    while PartName(baseName, phase) in sections
      invariant phase == |names| + 1 && names == NamesUpTo(baseName, |names|)
      invariant AllPresent(sections, baseName, |names|) && |names| <= |sections.Keys|
      decreases |sections.Keys| - |names|
    {
      names := names + [PartName(baseName, phase)];
      phase := phase + 1;
      NamesDistinct(baseName, |names|, sections.Keys);
    }
  }

  /** Name `k` of the index leads to part `k`. */
  ghost predicate Indexed(sections: map<string, Part>, names: seq<string>, ends: seq<nat>, k: nat) {
    && 1 <= k <= |names| && k <= |ends|
    && names[k - 1] in sections && sections[names[k - 1]] == PartAt(ends, k)
  }

  /** The index of a split game leads to each of its phases, in order; it lists exactly
      those unless another section happens to bear the name of the next phase. */
  lemma IndexListsAllPhases(sections: map<string, Part>, own: map<string, Part>, baseName: string, ends: seq<nat>, count: nat)
    requires Stored(own, baseName, ends)
    requires forall name :: name in own ==> name in sections && sections[name] == own[name]
    requires AllPresent(sections, baseName, count) && PartName(baseName, count + 1) !in sections
    ensures count >= |ends|
    ensures forall k: nat :: 1 <= k <= |ends| ==> Indexed(sections, NamesUpTo(baseName, count), ends, k)
    ensures count == |ends| <==> PartName(baseName, |ends| + 1) !in sections
  {
    hide PartName, PartAt, NamesUpTo;
    OwnParts(own, baseName, ends, count + 1);
    forall k: nat | 1 <= k <= |ends|
      ensures Indexed(sections, NamesUpTo(baseName, count), ends, k)
    {
      NameAt(baseName, count, k);
      OwnParts(own, baseName, ends, k);
    }
  }

  lemma OwnParts(own: map<string, Part>, baseName: string, ends: seq<nat>, k: nat)
    requires Stored(own, baseName, ends)
    ensures PartName(baseName, k) in own <==> 1 <= k <= |ends|
  {
    hide PartName, PartAt;
    if PartName(baseName, k) in own {
      var j: nat :| 1 <= j <= |ends| && PartName(baseName, k) == PartName(baseName, j);
      PartNamesDiffer(baseName, k, j);
    }
  }
}
