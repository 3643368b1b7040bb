/** Item lists: the loop whose bound grows with every socketed item announced,
    and what it leaves behind in the byte stream. */
module ItemLists {
  import opened Bits
  import opened BitReaders
  import opened Common
  import opened Huffman
  import opened MagicLists
  import opened ItemFormat
  import opened ItemParser

  /** Everything but the bits that decides how an item is read. */
  datatype Layout = Layout(version: nat, realm: nat, tables: ItemTables)

  /** `n` items one after the other, each up to its byte boundary. */
  ghost function Stream(bits: Bitstring, n: nat, layout: Layout): (g: Got<seq<Item>>)
    ensures g.Got? ==> |g.value| == n && g.next <= |bits|
    ensures g.Got? ==> forall it | it in g.value :: it.socketedItems == []
    decreases n
  {
    if n == 0 then Got([], 0)
    else
      var (first, o1) :- ReadItem(bits, layout.version, layout.realm, layout.tables);
      if o1 > |bits| then Short
      else
        var (more, o2) :- Stream(bits[o1..], n - 1, layout);
        Got([first] + more, o1 + o2)
  }

  lemma {:induction false} StreamGrows(bits: Bitstring, n: nat, layout: Layout)
    requires Stream(bits, n, layout).Got?
    ensures
      var g := Stream(bits, n, layout);
      var last := ReadItem(bits[g.next..], layout.version, layout.realm, layout.tables);
      Stream(bits, n + 1, layout)
        == if last.Got? && g.next + last.next <= |bits| then Got(g.value + [last.value], g.next + last.next) else Short
    decreases n
  {
    hide ReadItem;
    var first := ReadItem(bits, layout.version, layout.realm, layout.tables);
    if n == 0 {
      assert bits[0..] == bits;
      if first.Got? && first.next <= |bits| {
        assert Stream(bits[first.next..], 0, layout) == Got([], 0);
        assert [first.value] + [] == [] + [first.value];
      }
    } else {
      var rest := bits[first.next..];
      StreamGrows(rest, n - 1, layout);
      var g := Stream(rest, n - 1, layout);
      assert rest[g.next..] == bits[first.next + g.next..];
      var last := ReadItem(rest[g.next..], layout.version, layout.realm, layout.tables);
      if last.Got? {
        assert [first.value] + (g.value + [last.value]) == ([first.value] + g.value) + [last.value];
      }
    }
  }

  // ---- Nesting ----

  predicate IsSocketed(item: Item) { item.head.place.location == LOCATION_SOCKETED }

  /** A gem or rune takes the properties it has inside its parent. */
  function Resolve(gem: Item, parent: Item, tables: ItemTables): Item {
    var key := (TypeOf(tables, parent.ItemCode()), gem.ItemCode());
    if key.0 != Other && key in tables.gems then gem.(lists := gem.lists.(magic := tables.gems[key])) else gem
  }

  /** A gem has exactly the properties of its table row for the kind of its parent, and
      keeps its own where there is none; nothing else of it changes. */
  lemma GemInParent(gem: Item, parent: Item, tables: ItemTables, gemCode: string, code: string)
    requires gem.head.tag.CodeTag? && gem.head.tag.code == gemCode && parent.head.tag.CodeTag? && parent.head.tag.code == code
    ensures
      var after := Resolve(gem, parent, tables);
      && (code in tables.armor && (Armor, gemCode) in tables.gems ==> after.lists.magic == tables.gems[(Armor, gemCode)])
      && (code !in tables.armor && code in tables.shields && (Shield, gemCode) in tables.gems ==>
            after.lists.magic == tables.gems[(Shield, gemCode)])
      && (code !in tables.armor && code !in tables.shields && code in tables.weapons && (Weapon, gemCode) in tables.gems ==>
            after.lists.magic == tables.gems[(Weapon, gemCode)])
      && (code !in tables.armor && code !in tables.shields && code !in tables.weapons ==> after == gem)
      && ((Armor, gemCode) !in tables.gems && (Shield, gemCode) !in tables.gems && (Weapon, gemCode) !in tables.gems ==> after == gem)
      && after == gem.(lists := Lists(after.lists.magic, gem.lists.sets, gem.lists.runeword))
  {
  }

  /** Every top-level item followed by the items socketed into it. */
  ghost function Flatten(items: seq<Item>): seq<Item> {
    if items == [] then [] else Flatten(items[..|items| - 1]) + Unpack(items[|items| - 1])
  }

  function Unpack(item: Item): seq<Item> {
    [item.(socketedItems := [])] + item.socketedItems
  }

  /** The last item of a stream that is not socketed into another. */
  ghost function LastParent(raw: seq<Item>): Option<Item> {
    if raw == [] then None
    else if IsSocketed(raw[|raw| - 1]) then LastParent(raw[..|raw| - 1])
    else Some(raw[|raw| - 1])
  }

  /** The stream with each socketed item resolved against the item it follows. */
  ghost function Resolved(raw: seq<Item>, tables: ItemTables): seq<Item> {
    if raw == [] then []
    else
      var init, last := raw[..|raw| - 1], raw[|raw| - 1];
      Resolved(init, tables)
      + [if IsSocketed(last) && LastParent(init).Some? then Resolve(last, LastParent(init).value, tables) else last]
  }

  /** The socketed items the top-level items announce. */
  ghost function Announced(items: seq<Item>): nat {
    if items == [] then 0
    else Announced(items[..|items| - 1]) + (if items[|items| - 1].Simple() then 0 else items[|items| - 1].SocketCount())
  }

  /** The same told from the stream: an item that is neither socketed nor simple
      announces the count of its own tag, and an ear nothing. */
  ghost function AnnouncedBy(raw: seq<Item>): nat {
    if raw == [] then 0 else AnnouncedBy(raw[..|raw| - 1]) + AnnouncedByOne(raw[|raw| - 1])
  }

  function AnnouncedByOne(item: Item): nat {
    match item.head.tag
    case EarTag(_, _, _) => 0
    case CodeTag(_, _, sockets) => if item.head.place.location == 6 || item.head.flags.simple then 0 else sockets
  }

  lemma {:induction false} AnnouncedConcat(a: seq<Item>, b: seq<Item>)
    ensures AnnouncedBy(a + b) == AnnouncedBy(a) + AnnouncedBy(b)
    decreases |b|
  {
    hide AnnouncedByOne;
    if b == [] {
      assert a + b == a;
    } else {
      assert (a + b)[..|a + b| - 1] == a + b[..|b| - 1];
      AnnouncedConcat(a, b[..|b| - 1]);
    }
  }

  lemma {:induction false} SocketedAnnounceNothing(gems: seq<Item>)
    requires forall gem | gem in gems :: IsSocketed(gem)
    ensures AnnouncedBy(gems) == 0
    decreases |gems|
  {
    if gems != [] {
      var last := gems[|gems| - 1];
      assert last in gems;
      SocketedAnnounceNothing(gems[..|gems| - 1]);
    }
  }

  lemma {:induction false} AnnouncedFlat(items: seq<Item>)
    requires forall i :: 0 <= i < |items| ==> Parent(items[i])
    ensures AnnouncedBy(Flatten(items)) == Announced(items)
    decreases |items|
  {
    hide Parent, AnnouncedByOne;
    if items != [] {
      var init, last := items[..|items| - 1], items[|items| - 1];
      AnnouncedFlat(init);
      AnnouncedUnpacked(last);
      AnnouncedConcat(Flatten(init), Unpack(last));
    }
  }

  lemma AnnouncedUnpacked(item: Item)
    requires Parent(item)
    ensures AnnouncedBy(Unpack(item)) == if item.Simple() then 0 else item.SocketCount()
  {
    var bare := [item.(socketedItems := [])];
    SocketedAnnounceNothing(item.socketedItems);
    AnnouncedConcat(bare, item.socketedItems);
    assert AnnouncedBy(bare[..0]) == 0;
  }

  lemma {:induction false} AnnouncedResolved(raw: seq<Item>, tables: ItemTables)
    ensures AnnouncedBy(Resolved(raw, tables)) == AnnouncedBy(raw)
    decreases |raw|
  {
    hide LastParent, TypeOf;
    if raw != [] {
      var init, last := raw[..|raw| - 1], raw[|raw| - 1];
      AnnouncedResolved(init, tables);
      var one := Resolved(raw, tables)[|Resolved(init, tables)|];
      assert Resolved(raw, tables) == Resolved(init, tables) + [one];
      AnnouncedConcat(Resolved(init, tables), [one]);
      assert AnnouncedBy([one][..0]) == 0;
    }
  }

  /** So the list and the stream announce alike. */
  lemma AnnouncedAlike(items: seq<Item>, raw: seq<Item>, tables: ItemTables)
    requires Flatten(items) == Resolved(raw, tables) && (forall i :: 0 <= i < |items| ==> Parent(items[i]))
    ensures Announced(items) == AnnouncedBy(raw)
  {
    AnnouncedFlat(items);
    AnnouncedResolved(raw, tables);
  }

  /** The loop was still short of its bound before each item of `raw`. */
  ghost predicate Wanted(count: nat, raw: seq<Item>) {
    forall k: nat :: k < |raw| ==> k < count + AnnouncedBy(raw[..k])
  }

  lemma OneMoreWanted(count: nat, raw: seq<Item>, item: Item)
    requires Wanted(count, raw) && |raw| < count + AnnouncedBy(raw)
    ensures Wanted(count, raw + [item])
  {
    hide AnnouncedBy;
    forall k: nat | k < |raw| + 1
      ensures k < count + AnnouncedBy((raw + [item])[..k])
    {
      assert (raw + [item])[..k] == raw[..k];
      assert k == |raw| ==> raw[..k] == raw;
    }
  }

  /** Not socketed itself, and holding only socketed items. */
  ghost predicate Parent(item: Item) {
    !IsSocketed(item) && forall gem | gem in item.socketedItems :: IsSocketed(gem)
  }

  /** What the list holds after the items of `raw`. */
  ghost predicate Nested(items: seq<Item>, raw: seq<Item>, tables: ItemTables) {
    && Flatten(items) == Resolved(raw, tables)
    && (forall i :: 0 <= i < |items| ==> Parent(items[i]))
    && (items == [] <==> raw == [])
    && (items != [] ==>
          LastParent(raw) == Some(items[|items| - 1].(socketedItems := [])))
  }

  function AddTop(items: seq<Item>, item: Item): seq<Item> {
    items + [item]
  }

  function AddSocketed(items: seq<Item>, gem: Item, tables: ItemTables): seq<Item>
    requires items != []
  {
    var last := items[|items| - 1];
    items[..|items| - 1] + [last.(socketedItems := last.socketedItems + [Resolve(gem, last, tables)])]
  }

  lemma NestTop(items: seq<Item>, raw: seq<Item>, item: Item, tables: ItemTables)
    requires Nested(items, raw, tables) && !IsSocketed(item) && item.socketedItems == []
    ensures Nested(AddTop(items, item), raw + [item], tables)
    ensures Announced(AddTop(items, item)) == Announced(items) + (if item.Simple() then 0 else item.SocketCount())
  {
    var more := AddTop(items, item);
    assert more[..|more| - 1] == items;
    assert (raw + [item])[..|raw|] == raw;
    assert Unpack(item) == [item];
  }

  lemma NestSocketed(items: seq<Item>, raw: seq<Item>, gem: Item, tables: ItemTables)
    requires Nested(items, raw, tables) && items != [] && IsSocketed(gem)
    ensures Nested(AddSocketed(items, gem, tables), raw + [gem], tables)
    ensures Announced(AddSocketed(items, gem, tables)) == Announced(items)
  {
    var more := AddSocketed(items, gem, tables);
    var last := items[|items| - 1];
    assert more[..|more| - 1] == items[..|items| - 1];
    assert (raw + [gem])[..|raw|] == raw;
    var bare := last.(socketedItems := []);
    assert Resolve(gem, last, tables) == Resolve(gem, bare, tables);
    assert Unpack(more[|more| - 1]) == Unpack(last) + [Resolve(gem, last, tables)];
    assert Flatten(more) == Flatten(items) + [Resolve(gem, last, tables)];
  }

  // ---- The loop ----

  lemma NothingWanted(count: nat)
    ensures Wanted(count, [])
  {
  }

  lemma NothingNested(tables: ItemTables)
    ensures Nested([], [], tables) && Announced([]) == 0
  {
  }

  /** The reader stands `bytes` whole bytes into `bits`, just after the items of
      `raw`, having looked at most `peek` bits further. */
  ghost predicate Reading(br: BitReader, bits: Bitstring, bytes: nat, peek: nat, raw: seq<Item>, layout: Layout)
    reads br, br.r
  {
    && br.Valid()
    && 8 * bytes <= |bits| && br.Pending() == bits[8 * bytes..] && br.cursor == 8 * bytes
    && br.high <= 8 * bytes + peek && peek <= (if layout.version >= D2R_V105 then 0 else 2)
    && Stream(bits, |raw|, layout) == Got(raw, 8 * bytes)
  }

  method NextItem(br: BitReader, ghost bits: Bitstring, ghost bytes: nat, ghost peek: nat, ghost raw: seq<Item>,
                  layout: Layout, tree: HuffmanTree)
    returns (item: Result<Item>, ghost bytes': nat, ghost peek': nat)
    requires Reading(br, bits, bytes, peek, raw, layout) && ItemTree(tree)
    modifies br, br.r
    ensures br.r.Valid() && ItemTree(tree)
    ensures item.Ok? ==>
      && Reading(br, bits, bytes', peek', raw + [item.value], layout) && br.start == old(br.start)
      && bytes < bytes' && item.value.socketedItems == []
    ensures item.Err? ==> Stream(bits, |raw| + 1, layout).Short?
  {
    hide Low, BitsOf, Fits, CeilBytes, ReadItem, ToNat, ItemTree, Stream;
    bytes', peek' := bytes, peek;
    br.totalRead := 0;
    StreamGrows(bits, |raw|, layout);
    ghost var tr := Track(bits[8 * bytes..], br.start, bytes, peek);
    ghost var g := ReadItem(tr.bits, layout.version, layout.realm, layout.tables);
    ghost var tr': Track;
    item, tr' := ParseItem(br, tr, layout.version, layout.realm, layout.tables, tree);
    if item.Ok? {
      assert tr.bits[g.next..] == bits[8 * bytes + g.next..];
      bytes', peek' := bytes + g.next / 8, if tr'.peek <= g.next then 0 else tr'.peek - g.next;
    }
  }

  /** Bytes drawn, from the bytes consumed and the look-ahead left over. */
  lemma DrawnBytes(br: BitReader, bits: Bitstring, bytes: nat, peek: nat, raw: seq<Item>, layout: Layout)
    requires Reading(br, bits, bytes, peek, raw, layout)
    ensures bytes <= br.r.pos - br.start <= bytes + 1
    ensures layout.version >= D2R_V105 ==> br.r.pos - br.start == bytes
  {
  }

  lemma ReadingStarts(br: BitReader, layout: Layout)
    requires br.Valid() && br.cursor == br.high == 0
    ensures Reading(br, br.Pending(), 0, 0, [], layout)
  {
    assert br.Pending()[0..] == br.Pending();
  }

  lemma ReadingFacts(br: BitReader, bits: Bitstring, bytes: nat, peek: nat, raw: seq<Item>, layout: Layout)
    requires Reading(br, bits, bytes, peek, raw, layout)
    ensures 8 * bytes <= |bits| && br.r.Valid()
    ensures Stream(bits, |raw|, layout) == Got(raw, 8 * bytes)
  {
  }

  /** What parsing `count` items from `rest` comes to: the stream's items in
      order, each socketed one under the parent it follows, `count` plus what was
      announced when it succeeds and never one more, and where the byte stream is left. */
  ghost predicate Parsed(rest: seq<byte>, from: nat, count: nat, layout: Layout,
                         items: seq<Item>, ok: bool, raw: seq<Item>, to: nat) {
    var g, next := Stream(BitsOf(rest), |raw|, layout), Stream(BitsOf(rest), |raw| + 1, layout);
    && g.Got? && g.value == raw
    && Flatten(items) == Resolved(raw, layout.tables)
    && (forall i :: 0 <= i < |items| ==> Parent(items[i]))
    && Wanted(count, raw)
    && (ok ==> |raw| == count + Announced(items))
    && (!ok ==> |raw| < count + Announced(items))
    && (!ok && next.Got? ==> items == [] && IsSocketed(next.value[|raw|]))
    && (ok ==> g.next % 8 == 0 && from + g.next / 8 <= to <= from + g.next / 8 + 1)
    && (ok && layout.version >= D2R_V105 ==> to == from + g.next / 8)
  }

  /** Reads `count` items and every item they announce as socketed. Whatever was
      read before an error is kept. */
  method ParseItems(stream: ByteStream, count: nat, layout: Layout, tree: HuffmanTree)
    returns (items: seq<Item>, ok: bool, ghost raw: seq<Item>)
    requires stream.Valid() && ItemTree(tree)
    modifies stream
    ensures stream.Valid() && ItemTree(tree)
    ensures Parsed(old(stream.Rest()), old(stream.pos), count, layout, items, ok, raw, stream.pos)
  {
    hide Reading, Flatten, Resolved, Announced, LastParent, Stream, BitsOf, Low, AnnouncedBy, Wanted;
    ghost var bits := BitsOf(stream.Rest());
    var br := new BitReader(stream);
    items, raw := [], [];
    var toRead, i := count, 0;
    ghost var bytes, peek := 0, 0;
    NothingNested(layout.tables);
    NothingWanted(count);
    ReadingStarts(br, layout);
    ReadingFacts(br, bits, bytes, peek, raw, layout);
    while i < toRead
      invariant fresh(br) && br.r == stream && ItemTree(tree) && br.start == old(stream.pos)
      invariant Reading(br, bits, bytes, peek, raw, layout) && 8 * bytes <= |bits|
      invariant Nested(items, raw, layout.tables)
      invariant i == |raw| <= toRead == count + Announced(items) && Wanted(count, raw)
      decreases |bits| - 8 * bytes
    {
      hide ItemTree;
      ReadingFacts(br, bits, bytes, peek, raw, layout);
      var item, bytes', peek' := NextItem(br, bits, bytes, peek, raw, layout, tree);
      if item.Err? {
        return items, false, raw;
      }
      ReadingFacts(br, bits, bytes', peek', raw + [item.value], layout);
      AnnouncedAlike(items, raw, layout.tables);
      OneMoreWanted(count, raw, item.value);
      if IsSocketed(item.value) {
        if items == [] {
          return items, false, raw;
        }
        NestSocketed(items, raw, item.value, layout.tables);
        items := AddSocketed(items, item.value, layout.tables);
      } else {
        NestTop(items, raw, item.value, layout.tables);
        items := AddTop(items, item.value);
        if item.value.SocketCount() > 0 && !item.value.Simple() {
          toRead := toRead + item.value.SocketCount();
        }
      }
      raw, bytes, peek := raw + [item.value], bytes', peek';
      i := i + 1;
    }
    ReadingFacts(br, bits, bytes, peek, raw, layout);
    DrawnBytes(br, bits, bytes, peek, raw, layout);
    return items, true, raw;
  }

  // ---- The list header ----

  /** The item count after the two letters "JM". */
  function ItemCount(rest: seq<byte>): Option<nat> {
    if |rest| < 4 || rest[0] != 0x4A || rest[1] != 0x4D then None else Some(rest[2] as nat + 256 * (rest[3] as nat))
  }

  method ReadHeader(stream: ByteStream) returns (header: Result<seq<byte>>)
    requires stream.Valid()
    modifies stream
    ensures stream.Valid()
    ensures |old(stream.Rest())| >= 4 ==>
      header == Ok(old(stream.Rest())[..4]) && stream.pos == old(stream.pos) + 4
    ensures |old(stream.Rest())| < 4 ==> header == Err && stream.pos == |stream.data|
  {
    var bytes: seq<byte> := [];
    while |bytes| < 4
      invariant stream.Valid() && |bytes| <= 4 && stream.pos == old(stream.pos) + |bytes|
      invariant bytes == stream.data[old(stream.pos)..stream.pos]
    {
      var b :- stream.ReadByte();
      bytes := bytes + [b];
    }
    assert bytes == old(stream.Rest())[..4];
    return Ok(bytes);
  }

  method ParseItemList(stream: ByteStream, layout: Layout, tree: HuffmanTree)
    returns (items: seq<Item>, ok: bool, ghost raw: seq<Item>)
    requires stream.Valid() && ItemTree(tree)
    modifies stream
    ensures stream.Valid() && ItemTree(tree)
    ensures ItemCount(old(stream.Rest())).None? ==> !ok && items == []
    ensures ItemCount(old(stream.Rest())).Some? ==>
      Parsed(old(stream.Rest())[4..], old(stream.pos) + 4, ItemCount(old(stream.Rest())).value, layout,
             items, ok, raw, stream.pos)
  {
    hide Parsed;
    ghost var rest := stream.Rest();
    var header := ReadHeader(stream);
    if header.Err? || header.value[0] != 0x4A || header.value[1] != 0x4D {
      return [], false, [];
    }
    assert stream.Rest() == rest[4..];
    items, ok, raw := ParseItems(stream, header.value[2] as nat + 256 * (header.value[3] as nat), layout, tree);
  }
}
