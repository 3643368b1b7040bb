/** The "is newer" comparison of dotted version strings. */
module Versions {
  import opened Common
  import opened Sorting

  // ---- Parsing ----

  /** The pieces between dots; a string without dots is one piece. */
  function Split(v: string): (parts: seq<string>)
    ensures parts != []
  {
    if v == [] then [""]
    else
      var rest := Split(v[1..]);
      if v[0] == '.' then [""] + rest else [[v[0]] + rest[0]] + rest[1..]
  }

  function Digit(c: char): Option<nat> {
    if '0' <= c <= '9' then Some(c as int - '0' as int) else None
  }

  /** The value of a non-empty run of decimal digits. */
  function Digits(s: string): Option<nat> {
    if s == [] then None
    else
      match Digit(s[|s| - 1])
      case None => None
      case Some(d) =>
        if |s| == 1 then Some(d)
        else
          match Digits(s[..|s| - 1])
          case None => None
          case Some(n) => Some(10 * n + d)
  }

  const INT_LIMIT := 0x8000_0000_0000_0000

  /** A signed decimal that fits 64 bits. */
  function Atoi(s: string): Option<int> {
    var signed := s != [] && (s[0] == '+' || s[0] == '-');
    var negative := s != [] && s[0] == '-';
    match Digits(if signed then s[1..] else s)
    case None => None
    case Some(n) =>
      var k: int := n;
      if negative then (if k <= INT_LIMIT then Some(0 - k) else None)
      else if k < INT_LIMIT then Some(k) else None
  }

  function Segment(s: string): int {
    match Atoi(s)
    case None => 0
    case Some(n) => n
  }

  function Segments(parts: seq<string>): (ns: seq<int>)
    ensures |ns| == |parts|
    ensures forall i :: 0 <= i < |parts| ==> ns[i] == Segment(parts[i])
  {
    seq(|parts|, i requires 0 <= i < |parts| => Segment(parts[i]))
  }

  function Parse(v: string): seq<int> {
    Segments(Split(v))
  }

  // ---- Dotted decimals mean what they say ----

  /** A number in decimal digits. */
  function Decimal(n: nat): (s: string)
    ensures s != ""
  {
    if n < 10 then [DigitChar(n)] else Decimal(n / 10) + [DigitChar(n % 10)]
  }

  function DigitChar(d: nat): char
    requires d < 10
  {
    "0123456789"[d]
  }

  function Dotted(ns: seq<nat>): string
    requires ns != []
  {
    if |ns| == 1 then Decimal(ns[0]) else Decimal(ns[0]) + "." + Dotted(ns[1..])
  }

  lemma DigitRead(d: nat)
    requires d < 10
    ensures Digit(DigitChar(d)) == Some(d) && '0' <= DigitChar(d) <= '9'
  {
  }

  lemma {:induction false} DecimalRead(n: nat)
    ensures Digits(Decimal(n)) == Some(n)
    ensures forall i :: 0 <= i < |Decimal(n)| ==> '0' <= Decimal(n)[i] <= '9'
  {
    DigitRead(n % 10);
    hide DigitChar, Digit;
    if n >= 10 {
      DecimalRead(n / 10);
      var s, tens := Decimal(n), Decimal(n / 10);
      assert s == tens + [DigitChar(n % 10)];
      hide Decimal;
      assert s[..|s| - 1] == tens && s[|s| - 1] == DigitChar(n % 10);
    }
  }

  lemma DecimalSegment(n: nat)
    requires n < 0x8000_0000_0000_0000
    ensures Segment(Decimal(n)) == n
  {
    hide Digits;
    DecimalRead(n);
    assert '0' <= Decimal(n)[0] <= '9';
  }

  lemma {:induction false} SplitDotless(s: string)
    requires '.' !in s
    ensures Split(s) == [s]
  {
    if s != "" {
      SplitDotless(s[1..]);
      assert [s[0]] + s[1..] == s;
    }
  }

  lemma {:induction false} SplitAtDot(s: string, rest: string)
    requires '.' !in s
    ensures Split(s + "." + rest) == [s] + Split(rest)
  {
    var v := s + "." + rest;
    if s == "" {
      assert v[1..] == rest;
    } else {
      assert v[1..] == s[1..] + "." + rest;
      SplitAtDot(s[1..], rest);
      assert [s[0]] + s[1..] == s;
    }
  }

  /** A version written as decimals between dots is read back as those numbers. */
  lemma {:induction false} DottedRead(ns: seq<nat>)
    requires ns != [] && (forall i :: 0 <= i < |ns| ==> ns[i] < 0x8000_0000_0000_0000)
    ensures Parse(Dotted(ns)) == ns
    decreases |ns|
  {
    hide Segment, Decimal;
    DecimalSegment(ns[0]);
    DecimalRead(ns[0]);
    if |ns| == 1 {
      SplitDotless(Decimal(ns[0]));
    } else {
      SplitAtDot(Decimal(ns[0]), Dotted(ns[1..]));
      DottedRead(ns[1..]);
      var parts := Split(Dotted(ns[1..]));
      assert Segments([Decimal(ns[0])] + parts) == [Segment(Decimal(ns[0]))] + Segments(parts);
    }
  }

  // ---- The order ----

  /** A sequence extended with zeros without end. */
  function At(ns: seq<int>, i: nat): int {
    if i < |ns| then ns[i] else 0
  }

  /** The first place where the two differ is `i`, and `a` is larger there. */
  ghost predicate ExceedsAt(a: seq<int>, b: seq<int>, i: nat) {
    At(a, i) > At(b, i) && forall j: nat :: j < i ==> At(a, j) == At(b, j)
  }

  ghost predicate Exceeds(a: seq<int>, b: seq<int>) {
    exists i: nat :: ExceedsAt(a, b, i)
  }

  /** Strictly newer, in the lexicographic order of zero-extended segments. */
  ghost predicate Newer(latest: string, current: string) {
    Exceeds(Parse(latest), Parse(current))
  }

  ghost predicate Older(a: string, b: string) {
    Newer(b, a)
  }

  method ParseVersion(v: string) returns (parts: seq<int>)
    ensures parts == Parse(v)
  {
    hide Split, Atoi;
    parts := [];
    var pieces := Split(v);
    for i := 0 to |pieces|
      invariant parts == Segments(pieces[..i])
    {
      var n := 0;
      match Atoi(pieces[i]) {
        case None =>
        case Some(k) => n := k;
      }
      parts := parts + [n];
    }
    assert pieces[..|pieces|] == pieces;
  }

  method IsNewer(latest: string, current: string) returns (newer: bool)
    ensures newer == Newer(latest, current)
  {
    hide Parse;
    var latestParts := ParseVersion(latest);
    var currentParts := ParseVersion(current);
    var i := 0;
    while i < |latestParts| || i < |currentParts|
      invariant forall j: nat :: j < i ==> At(latestParts, j) == At(currentParts, j)
      decreases |latestParts| + |currentParts| - i
    {
      var lp, cp := 0, 0;
      if i < |latestParts| {
        lp := latestParts[i];
      }
      if i < |currentParts| {
        cp := currentParts[i];
      }
      if lp > cp {
        assert ExceedsAt(latestParts, currentParts, i);
        return true;
      }
      if lp < cp {
        DecidedOtherwise(latestParts, currentParts, i);
        return false;
      }
      i := i + 1;
    }
    return false;
  }

  /** Where `b` is larger first, `a` is nowhere larger first. */
  lemma DecidedOtherwise(a: seq<int>, b: seq<int>, i: nat)
    requires At(a, i) < At(b, i) && forall j: nat :: j < i ==> At(a, j) == At(b, j)
    ensures !Exceeds(a, b)
  {
    forall k: nat
      ensures !ExceedsAt(a, b, k)
    {
      assert k < i ==> At(a, k) == At(b, k);
    }
  }

  // ---- A strict weak order ----

  lemma ExceedsTransitive(a: seq<int>, b: seq<int>, c: seq<int>)
    requires Exceeds(a, b) && Exceeds(b, c)
    ensures Exceeds(a, c)
  {
    var i: nat :| ExceedsAt(a, b, i);
    var j: nat :| ExceedsAt(b, c, j);
    var k := if i < j then i else j;
    forall m: nat | m < k
      ensures At(a, m) == At(c, m)
    {
      assert At(a, m) == At(b, m);
      assert At(b, m) == At(c, m);
    }
    assert ExceedsAt(a, c, k);
  }

  /** Anything between two different versions differs from one of them. */
  lemma ExceedsSplits(a: seq<int>, b: seq<int>, c: seq<int>)
    requires Exceeds(a, c)
    ensures Exceeds(a, b) || Exceeds(b, c)
  {
    var i: nat :| ExceedsAt(a, c, i);
    FirstDifference(a, b, i);
    if j: nat :| j <= i && ExceedsAt(b, a, j) {
      forall m: nat | m < j
        ensures At(b, m) == At(c, m)
      {
        assert At(b, m) == At(a, m) == At(c, m);
      }
      assert ExceedsAt(b, c, j);
    } else if forall j: nat :: j <= i ==> At(a, j) == At(b, j) {
      assert ExceedsAt(b, c, i);
    }
  }

  /** Up to any place, two sequences agree or one exceeds the other. */
  lemma {:induction false} FirstDifference(a: seq<int>, b: seq<int>, i: nat)
    ensures
      || (forall j: nat :: j <= i ==> At(a, j) == At(b, j))
      || (exists j: nat :: j <= i && ExceedsAt(a, b, j))
      || (exists j: nat :: j <= i && ExceedsAt(b, a, j))
  {
    if i > 0 {
      FirstDifference(a, b, i - 1);
    }
    if forall j: nat :: j < i ==> At(a, j) == At(b, j) {
      assert At(a, i) > At(b, i) ==> ExceedsAt(a, b, i);
      assert At(b, i) > At(a, i) ==> ExceedsAt(b, a, i);
    }
  }

  lemma NeverNewerThanItself(v: string)
    ensures !Newer(v, v)
  {
  }

  /** The comparison is a strict weak order: versions it does not tell apart, such as
      "1.0" and "1.0.0", are interchangeable. */
  lemma VersionOrder()
    ensures StrictWeakOrder(Older)
  {
    forall x, y, z | Older(x, y) && Older(y, z)
      ensures Older(x, z)
    {
      ExceedsTransitive(Parse(z), Parse(y), Parse(x));
    }
    forall x, y, z | Older(x, z)
      ensures Older(x, y) || Older(y, z)
    {
      ExceedsSplits(Parse(z), Parse(y), Parse(x));
    }
  }

  /** Versions tie exactly when their zero-extended segments are the same. */
  lemma TiesAreEqualSegments(a: string, b: string)
    ensures !Newer(a, b) && !Newer(b, a) <==> forall i: nat :: At(Parse(a), i) == At(Parse(b), i)
  {
    var x, y := Parse(a), Parse(b);
    if !Newer(a, b) && !Newer(b, a) {
      forall i: nat
        ensures At(x, i) == At(y, i)
      {
        FirstDifference(x, y, i);
      }
    }
  }
}
