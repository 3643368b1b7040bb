/** Whole item lists: the parser gives back exactly the items that were laid out. */
module ItemStreams {
  import opened Bits
  import opened MagicLists
  import opened ItemFormat
  import opened ItemLists
  import opened ItemWriter

  datatype Stored = Stored(item: Item, skipped: Skipped)

  function Items(stored: seq<Stored>): (items: seq<Item>)
    ensures |items| == |stored|
  {
    if stored == [] then [] else [stored[0].item] + Items(stored[1..])
  }

  /** `bits` begins with the items, one after the other, each padded to its boundary. */
  ghost predicate LaidOut(stored: seq<Stored>, bits: Bitstring, layout: Layout) {
    if stored == [] then true
    else
      var item, skipped := stored[0].item, stored[0].skipped;
      && ItemOk(item, skipped, layout.version, layout.realm, layout.tables)
      && Aligned(item, skipped, layout.version, layout.realm, layout.tables)
      && Unambiguous(bits, item, skipped, layout.version, layout.tables)
      && var w := WriteItem(item, skipped, layout.version, layout.realm, layout.tables);
         w <= bits && LaidOut(stored[1..], bits[|w|..], layout)
  }

  /** The first `k` of them are what the stream's first `k` items read as. */
  lemma {:induction false} LaidOutRead(stored: seq<Stored>, bits: Bitstring, layout: Layout, k: nat)
    requires LaidOut(stored, bits, layout) && k <= |stored|
    ensures Stream(bits, k, layout).Got? && Stream(bits, k, layout).value == Items(stored)[..k]
    decreases k
  {
    hide ItemOk, Aligned, Unambiguous, WriteItem, ReadItem;
    if k > 0 {
      var item, skipped := stored[0].item, stored[0].skipped;
      var w := WriteItem(item, skipped, layout.version, layout.realm, layout.tables);
      assert bits == w + bits[|w|..];
      ReadUndoesWriteItem(item, skipped, layout.version, layout.realm, layout.tables, bits[|w|..]);
      LaidOutRead(stored[1..], bits[|w|..], layout, k - 1);
      assert Items(stored)[..k] == [item] + Items(stored[1..])[..k - 1];
    }
  }

  lemma {:induction false} StreamPrefix(bits: Bitstring, n: nat, layout: Layout, k: nat)
    requires Stream(bits, n, layout).Got? && k <= n
    ensures Stream(bits, k, layout).Got? && Stream(bits, k, layout).value == Stream(bits, n, layout).value[..k]
    decreases k
  {
    hide ReadItem;
    if k > 0 {
      var first := ReadItem(bits, layout.version, layout.realm, layout.tables);
      StreamPrefix(bits[first.next..], n - 1, layout, k - 1);
      var rest := Stream(bits[first.next..], n - 1, layout).value;
      assert ([first.value] + rest)[..k] == [first.value] + rest[..k - 1];
    }
  }

  lemma ResolvedLength(raw: seq<Item>, layout: Layout)
    ensures Resolved(raw, layout.tables) == [] <==> raw == []
  {
  }

  lemma NextRead(stored: seq<Stored>, bits: Bitstring, layout: Layout, n: nat)
    requires LaidOut(stored, bits, layout)
    ensures n < |stored| ==> Stream(bits, n + 1, layout).Got? && Stream(bits, n + 1, layout).value[n] == Items(stored)[n]
    ensures n <= |stored| ==> Stream(bits, n, layout).Got? && Stream(bits, n, layout).value == Items(stored)[..n]
    ensures n >= |stored| && Stream(bits, n, layout).Got? ==> Stream(bits, n, layout).value[..|stored|] == Items(stored)
  {
    hide LaidOut, Stream, Items;
    if n < |stored| {
      LaidOutRead(stored, bits, layout, n + 1);
    }
    if n <= |stored| {
      LaidOutRead(stored, bits, layout, n);
    }
    if n >= |stored| && Stream(bits, n, layout).Got? {
      LaidOutRead(stored, bits, layout, |stored|);
      StreamPrefix(bits, n, layout, |stored|);
      assert Items(stored)[..|stored|] == Items(stored);
    }
  }

  lemma WantedAt(count: nat, raw: seq<Item>, k: nat)
    requires Wanted(count, raw)
    ensures k < |raw| ==> k < count + AnnouncedBy(raw[..k])
  {
  }

  lemma NotLonger(count: nat, raw: seq<Item>, all: seq<Item>)
    requires Wanted(count, raw) && |all| == count + AnnouncedBy(all)
    requires |raw| >= |all| ==> raw[..|all|] == all
    ensures |raw| <= |all|
  {
    WantedAt(count, raw, |all|);
  }

  lemma NotShorter(count: nat, raw: seq<Item>, all: seq<Item>, ok: bool)
    requires Wanted(count, all) && |raw| <= |all| && raw == all[..|raw|]
    requires ok ==> |raw| == count + AnnouncedBy(raw)
    requires !ok && |raw| < |all| ==> raw == [] && IsSocketed(all[|raw|])
    requires all != [] ==> !IsSocketed(all[0])
    ensures |raw| == |all|
  {
    hide IsSocketed;
    WantedAt(count, all, |raw|);
  }

  /** A list of items laid out in full, starting with one that is not socketed and as
      long as its count and its sockets say, is parsed successfully and to those very
      items, each socketed one under the item it follows. */
  lemma LaidOutListParsed(stored: seq<Stored>, rest: seq<byte>, from: nat, count: nat, layout: Layout,
                          items: seq<Item>, ok: bool, raw: seq<Item>, to: nat)
    requires LaidOut(stored, BitsOf(rest), layout)
    requires |stored| == count + AnnouncedBy(Items(stored)) && Wanted(count, Items(stored))
    requires stored != [] ==> !IsSocketed(Items(stored)[0])
    requires ItemLists.Parsed(rest, from, count, layout, items, ok, raw, to)
    ensures ok && raw == Items(stored) && Flatten(items) == Resolved(Items(stored), layout.tables)
  {
    hide LaidOut, Stream, BitsOf, Resolved, AnnouncedBy, Announced, Items, ReadItem, IsSocketed;
    var all, n := Items(stored), |raw|;
    AnnouncedAlike(items, raw, layout.tables);
    NextRead(stored, BitsOf(rest), layout, n);
    NotLonger(count, raw, all);
    ResolvedLength(raw, layout);
    NotShorter(count, raw, all, ok);
    assert all[..n] == all;
  }
}
