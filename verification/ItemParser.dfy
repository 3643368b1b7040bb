/** Reading items off the bit reader: every method lands exactly where the
    item grammar says. */
module ItemParser {
  import opened Bits
  import opened BitReaders
  import opened Common
  import opened Huffman
  import opened HuffmanTables
  import opened MagicLists
  import opened ItemFormat

  /** Where an item's reading started: `bytes` whole bytes after the reader's own
      start. `peek` bounds, in bits from there, how far the reader may have
      looked ahead of its cursor. */
  datatype Track = Track(bits: Bitstring, start: nat, bytes: nat, peek: nat)

  /** The reader stands `off` bits into the item. */
  ghost predicate At(br: BitReader, tr: Track, off: nat)
    reads br, br.r
  {
    && br.Valid()
    && off <= |tr.bits| && br.Pending() == tr.bits[off..]
    && br.start == tr.start && br.cursor == 8 * tr.bytes + off && br.totalRead == off
    && br.high <= 8 * tr.bytes + if off <= tr.peek then tr.peek else off
  }

  /** The outcome `res` and the reader's position are what the grammar got. */
  ghost predicate Follows<T>(got: Got<T>, res: Result<T>, br: BitReader, tr: Track)
    reads br, br.r
  {
    && br.r.Valid()
    && (res.Ok? <==> got.Got?)
    && (res.Ok? ==> res.value == got.value && At(br, tr, got.next))
  }

  method ReadField(br: BitReader, ghost tr: Track, ghost off: nat, n: nat) returns (v: Result<nat>)
    requires At(br, tr, off) && n <= 57
    modifies br, br.r
    ensures Follows(Field(tr.bits, off, n), v, br, tr) && old(br.r.pos) <= br.r.pos
  {
    hide Low, ToNat, BitsOf, Fits, CeilBytes;
    Slice(tr.bits, off, n);
    v := br.ReadBits(n);
  }

  lemma Slice(bits: Bitstring, off: nat, n: nat)
    requires off <= |bits|
    ensures off + n <= |bits| ==> bits[off..][..n] == bits[off..off + n] && bits[off..][n..] == bits[off + n..]
  {
  }

  method ReadFlag(br: BitReader, ghost tr: Track, ghost off: nat) returns (v: Result<bool>)
    requires At(br, tr, off)
    modifies br, br.r
    ensures Follows(Flag(tr.bits, off), v, br, tr) && old(br.r.pos) <= br.r.pos
  {
    hide At, Field;
    var one := ReadField(br, tr, off, 1);
    match one
    case Ok(b) => return Ok(b == 1);
    case Err => return Err;
  }

  /** Within an item the buffered bits always reach the byte boundary, so
      aligning never falls short. */
  method AlignItem(br: BitReader, ghost tr: Track, ghost off: nat)
    requires At(br, tr, off)
    modifies br
    ensures At(br, tr, AlignUp(off)) && br.r.pos == old(br.r.pos)
  {
    hide Low, ToNat, BitsOf, Fits, CeilBytes;
    var skip := AlignUp(off) - off;
    BoundaryIsBuffered(br.r.pos - br.start, tr.bytes, off, br.bits);
    Slice(tr.bits, off, skip);
    PendingCounts(br);
    hide AlignUp;
    br.Align();
  }

  lemma PendingCounts(br: BitReader)
    requires br.Valid()
    ensures br.bits <= |br.Pending()|
  {
  }

  lemma BoundaryIsBuffered(drawn: nat, bytes: nat, off: nat, bits: nat)
    requires 8 * drawn == 8 * bytes + off + bits
    ensures (bits + off) % 8 == 0
    ensures
      var rem := off % 8;
      AlignUp(off) - off == (if rem != 0 && 8 - rem <= bits then 8 - rem else 0) <= bits
  {
    var k := drawn - bytes - off / 8;
    assert bits == 8 * k - off % 8;
  }

  function Joined<T>(done: seq<T>, g: Got<seq<T>>): Got<seq<T>> {
    match g
    case Got(more, next) => Got(done + more, next)
    case Short => Short
  }

  lemma JoinedFacts<T>(done: seq<T>, first: seq<T>, g: Got<seq<T>>)
    ensures Joined([], g) == g
    ensures Joined(done + first, g) == Joined(done, Joined(first, g))
    ensures g.Got? && g.value == [] ==> Joined(done, g) == Got(done, g.next)
  {
    if g.Got? {
      assert [] + g.value == g.value;
      assert (done + first) + g.value == done + (first + g.value);
      assert g.value == [] ==> done + g.value == done;
    }
  }

  method ReadChars(br: BitReader, ghost tr: Track, ghost off: nat, w: nat) returns (s: Result<seq<nat>>)
    requires At(br, tr, off) && 0 < w <= 57
    modifies br, br.r
    ensures Follows(Chars(tr.bits, off, w), s, br, tr) && old(br.r.pos) <= br.r.pos
  {
    hide At, ToNat;
    var collected: seq<nat> := [];
    ghost var here := off;
    JoinedFacts(collected, [], Chars(tr.bits, off, w));
    AtInside(br, tr, here);
    while true
      invariant At(br, tr, here) && old(br.r.pos) <= br.r.pos && here <= |tr.bits|
      invariant Chars(tr.bits, off, w) == Joined(collected, Chars(tr.bits, here, w))
      decreases |tr.bits| - here
    {
      var c :- ReadField(br, tr, here, w);
      here := here + w;
      if c == 0 {
        JoinedFacts(collected, [], Got([], here));
        return Ok(collected);
      }
      JoinedFacts(collected, [c], Chars(tr.bits, here, w));
      collected := collected + [c];
    }
  }

  lemma AtInside(br: BitReader, tr: Track, off: nat)
    requires At(br, tr, off)
    ensures off <= |tr.bits| && br.r.Valid()
  {
  }

  // ---- Header ----

  method ReadMark(br: BitReader, ghost tr: Track, version: nat) returns (r: Result<()>)
    requires At(br, tr, 0)
    modifies br, br.r
    ensures Follows(ItemMark(tr.bits, 0, version), r, br, tr) && old(br.r.pos) <= br.r.pos
  {
    hide At, ToNat;
    AtInside(br, tr, 0);
    if version < D2R_VERSION {
      var j :- ReadField(br, tr, 0, 8);
      var m :- ReadField(br, tr, 8, 8);
      if !(j == 'J' as int && m == 'M' as int) {
        return Err;
      }
    }
    return Ok(());
  }

  lemma FlagIsBit(bits: Bitstring, off: nat)
    ensures Flag(bits, off) == if off < |bits| then Got(bits[off], off + 1) else Short
  {
    if off < |bits| {
      assert bits[off..off + 1] == [bits[off]];
      assert ToNat([bits[off]]) == (if bits[off] then 1 else 0) + 2 * ToNat([]);
    }
  }

  /** Skips `n` bits and reads the flag after them. */
  method SkipToFlag(br: BitReader, ghost tr: Track, ghost off: nat, n: nat) returns (v: Result<bool>)
    requires At(br, tr, off) && n <= 57
    modifies br, br.r
    ensures br.r.Valid() && old(br.r.pos) <= br.r.pos
    ensures v.Ok? <==> off + n < |tr.bits|
    ensures v.Ok? ==> v.value == tr.bits[off + n] && At(br, tr, off + n + 1)
  {
    hide At, ToNat;
    FlagIsBit(tr.bits, off + n);
    var _ :- ReadField(br, tr, off, n);
    v := ReadFlag(br, tr, off + n);
  }

  method ReadFlagsPart(br: BitReader, ghost tr: Track, ghost off: nat) returns (flags: Result<Flags>)
    requires At(br, tr, off)
    modifies br, br.r
    ensures Follows(FlagsPart(tr.bits, off), flags, br, tr) && old(br.r.pos) <= br.r.pos
  {
    hide At, ToNat;
    var identified :- SkipToFlag(br, tr, off, 4);
    var socketed :- SkipToFlag(br, tr, off + 5, 6);
    var isNew :- SkipToFlag(br, tr, off + 12, 1);
    var isEar :- SkipToFlag(br, tr, off + 14, 2);
    var starter :- SkipToFlag(br, tr, off + 17, 0);
    var simple :- SkipToFlag(br, tr, off + 18, 3);
    var ethereal :- SkipToFlag(br, tr, off + 22, 0);
    var personalized :- SkipToFlag(br, tr, off + 23, 1);
    var runeword :- SkipToFlag(br, tr, off + 25, 1);
    var _ :- ReadField(br, tr, off + 27, 5);
    return Ok(Flags(identified, socketed, isNew, isEar, starter, simple, ethereal, personalized, runeword));
  }

  method ReadPlacePart(br: BitReader, ghost tr: Track, ghost off: nat, version: nat) returns (r: Result<Place>)
    requires At(br, tr, off)
    modifies br, br.r
    ensures Follows(PlacePart(tr.bits, off, version), r, br, tr) && old(br.r.pos) <= br.r.pos
  {
    hide At, ToNat;
    ghost var here := off + if version >= D2R_VERSION then 3 else 10;
    var itemVersion: nat;
    if version >= D2R_VERSION {
      itemVersion :- ReadField(br, tr, off, 3);
    } else {
      itemVersion :- ReadField(br, tr, off, 8);
      var _ :- ReadField(br, tr, off + 8, 2);
    }
    var location :- ReadField(br, tr, here, 3);
    var slot :- ReadField(br, tr, here + 3, 4);
    var x :- ReadField(br, tr, here + 7, 4);
    var y :- ReadField(br, tr, here + 11, 4);
    var page :- ReadField(br, tr, here + 15, 3);
    return Ok(Place(itemVersion, location, slot, x, y, page));
  }

  // ---- Code or ear ----

  ghost predicate ItemTree(tree: HuffmanTree)
    reads tree, tree.at.Values
  {
    tree.Valid() && tree.inserted == ItemCodeTable()
  }

  method ReadCodeChar(br: BitReader, ghost tr: Track, ghost off: nat, version: nat, tree: HuffmanTree) returns (c: Result<char>)
    requires At(br, tr, off) && ItemTree(tree)
    modifies br, br.r
    ensures ItemTree(tree)
    ensures Follows(CodeChar(tr.bits, off, version), c, br, tr) && old(br.r.pos) <= br.r.pos
  {
    hide ToNat, Low, BitsOf, Fits, CeilBytes, Code, PrefixFree;
    if version >= D2R_VERSION {
      ItemCodesPrefixFree();
      SpaceIsCoded();
      c := tree.DecodeChar(br);
      if c.Ok? {
        CodeCharIs(tr.bits, off, version, c.value);
      }
    } else {
      var v :- ReadField(br, tr, off, 8);
      ByteValue(tr.bits, off);
      c := Ok(v as char);
    }
  }

  lemma SpaceIsCoded()
    ensures ItemCodeTable() != map[]
  {
    assert ' ' in ItemCodeTable();
  }

  lemma CodeCharIs(bits: Bitstring, off: nat, version: nat, c: char)
    requires off <= |bits| && version >= D2R_VERSION && Decodes(ItemCodeTable(), bits[off..], c)
    ensures
      var n := |ItemCodeTable()[c]|;
      CodeChar(bits, off, version) == Got(c, off + n) && bits[off..][n..] == bits[off + n..]
  {
    hide Code, PrefixFree;
    ItemCodesPrefixFree();
    var g := CodeChar(bits, off, version);
    DecodedSymbolUnique(ItemCodeTable(), bits[off..], c, g.value);
  }

  method ReadCodeChars(br: BitReader, ghost tr: Track, ghost off: nat, version: nat, tree: HuffmanTree, n: nat) returns (code: Result<string>)
    requires At(br, tr, off) && ItemTree(tree)
    modifies br, br.r
    ensures ItemTree(tree)
    ensures Follows(CodeChars(tr.bits, off, version, n), code, br, tr) && old(br.r.pos) <= br.r.pos
  {
    hide At, ItemTree, CodeChar;
    AtInside(br, tr, off);
    var collected := "";
    ghost var here := off;
    JoinedFacts(collected, "", CodeChars(tr.bits, off, version, n));
    for i := 0 to n
      invariant At(br, tr, here) && old(br.r.pos) <= br.r.pos && br.r.Valid() && ItemTree(tree)
      invariant CodeChars(tr.bits, off, version, n) == Joined(collected, CodeChars(tr.bits, here, version, n - i))
    {
      ghost var g := CodeChar(tr.bits, here, version);
      var c :- ReadCodeChar(br, tr, here, version, tree);
      here := g.next;
      JoinedFacts(collected, [c], CodeChars(tr.bits, here, version, n - i - 1));
      collected := collected + [c];
    }
    JoinedFacts(collected, "", Got("", here));
    return Ok(collected);
  }

  method ReadCodePart(br: BitReader, ghost tr: Track, ghost off: nat, simple: bool, version: nat, tables: ItemTables, tree: HuffmanTree)
    returns (r: Result<Tag>)
    requires At(br, tr, off) && ItemTree(tree)
    modifies br, br.r
    ensures ItemTree(tree)
    ensures Follows(CodePart(tr.bits, off, simple, version, tables), r, br, tr) && old(br.r.pos) <= br.r.pos
  {
    hide At, ToNat, ItemTree, CodeChars;
    ghost var g := CodeChars(tr.bits, off, version, 4);
    var padded :- ReadCodeChars(br, tr, off, version, tree, 4);
    ghost var here := g.next;
    var code := TrimRight(padded);
    var quest := code in tables.quest;
    var difficulty := 0;
    if quest {
      difficulty :- ReadField(br, tr, here, QUEST_BITS);
      here := here + QUEST_BITS;
    }
    var sockets :- ReadField(br, tr, here, if simple || quest then 1 else 3);
    return Ok(CodeTag(code, difficulty, sockets));
  }

  method ReadEarPart(br: BitReader, ghost tr: Track, ghost off: nat) returns (r: Result<Tag>)
    requires At(br, tr, off)
    modifies br, br.r
    ensures Follows(EarPart(tr.bits, off), r, br, tr) && old(br.r.pos) <= br.r.pos
  {
    hide At, ToNat, Chars, AlignUp;
    var cls :- ReadField(br, tr, off, 3);
    var level :- ReadField(br, tr, off + 3, 7);
    var name :- ReadChars(br, tr, off + 10, 7);
    AlignItem(br, tr, Chars(tr.bits, off + 10, 7).next);
    AtInside(br, tr, AlignUp(Chars(tr.bits, off + 10, 7).next));
    return Ok(EarTag(cls, level, name));
  }

  method ReadHeadPart(br: BitReader, ghost tr: Track, version: nat, tables: ItemTables, tree: HuffmanTree) returns (r: Result<Head>)
    requires At(br, tr, 0) && ItemTree(tree)
    modifies br, br.r
    ensures ItemTree(tree)
    ensures Follows(HeadPart(tr.bits, version, tables), r, br, tr) && old(br.r.pos) <= br.r.pos
  {
    hide At, ItemTree, ItemMark, FlagsPart, PlacePart, EarPart, CodePart;
    var _ :- ReadMark(br, tr, version);
    ghost var o1 := ItemMark(tr.bits, 0, version).next;
    var flags :- ReadFlagsPart(br, tr, o1);
    ghost var o2 := FlagsPart(tr.bits, o1).next;
    var place :- ReadPlacePart(br, tr, o2, version);
    ghost var o3 := PlacePart(tr.bits, o2, version).next;
    var tag: Tag;
    if flags.isEar {
      tag :- ReadEarPart(br, tr, o3);
    } else {
      tag :- ReadCodePart(br, tr, o3, flags.simple, version, tables, tree);
    }
    return Ok(Head(flags, place, tag));
  }

  // ---- Extended data ----

  method ReadOptional(br: BitReader, ghost tr: Track, ghost off: nat, n: nat) returns (r: Result<Option<nat>>)
    requires At(br, tr, off) && n <= 57
    modifies br, br.r
    ensures Follows(Optional(tr.bits, off, n), r, br, tr) && old(br.r.pos) <= br.r.pos
  {
    hide At, ToNat;
    var present :- ReadFlag(br, tr, off);
    if !present {
      return Ok(None);
    }
    var v :- ReadField(br, tr, off + 1, n);
    return Ok(Some(v));
  }

  method ReadIdentityPart(br: BitReader, ghost tr: Track, ghost off: nat) returns (r: Result<Identity>)
    requires At(br, tr, off)
    modifies br, br.r
    ensures Follows(IdentityPart(tr.bits, off), r, br, tr) && old(br.r.pos) <= br.r.pos
  {
    hide At, ToNat, Optional;
    var id :- ReadField(br, tr, off, 32);
    var level :- ReadField(br, tr, off + 32, 7);
    var quality :- ReadField(br, tr, off + 39, 4);
    var _ :- ReadOptional(br, tr, off + 43, 3);
    var _ :- ReadOptional(br, tr, Optional(tr.bits, off + 43, 3).next, 11);
    return Ok(Identity(id, level, quality));
  }

  function Max(a: nat, b: nat): nat { if a <= b then b else a }

  /** Reads twelve bits and puts them back unless they are all clear or all
      set; only the high-water mark remembers the look-ahead. */
  method Speculate(br: BitReader, ghost tr: Track, ghost off: nat) returns (r: Result<()>, ghost tr': Track)
    requires At(br, tr, off) && tr.peek <= 2
    modifies br, br.r
    ensures tr' == tr.(peek := Max(tr.peek, off + 12))
    ensures Follows(Speculative(tr.bits, off), r, br, tr') && old(br.r.pos) <= br.r.pos
  {
    hide Low, ToNat, BitsOf, Fits, CeilBytes;
    tr' := tr.(peek := Max(tr.peek, off + 12));
    var v := ReadField(br, tr, off, 12);
    if v.Err? {
      return Err, tr';
    }
    if v.value != 0 && v.value != 0xfff {
      FewBitsBuffered(br, tr, off + 12);
      PutBack(tr.bits, off, v.value);
      br.UnreadBits(v.value, 12);
    }
    return Ok(()), tr';
  }

  lemma FewBitsBuffered(br: BitReader, tr: Track, off: nat)
    requires At(br, tr, off) && tr.peek <= 2
    ensures br.bits <= 9
  {
  }

  lemma PutBack(bits: Bitstring, off: nat, v: nat)
    requires Field(bits, off, 12) == Got(v, off + 12)
    ensures Low(v, 12) + bits[off + 12..] == bits[off..]
  {
    hide Low, ToNat;
    var s := bits[off..off + 12];
    LowOfToNat(s);
    assert bits[off..] == s + bits[off + 12..];
  }

  method ReadRareAffixes(br: BitReader, ghost tr: Track, ghost off: nat, n: nat) returns (r: Result<()>)
    requires At(br, tr, off)
    modifies br, br.r
    ensures Follows(RareAffixes(tr.bits, off, n), r, br, tr) && old(br.r.pos) <= br.r.pos
  {
    hide At, Optional;
    AtInside(br, tr, off);
    ghost var here := off;
    for i := 0 to n
      invariant At(br, tr, here) && old(br.r.pos) <= br.r.pos && br.r.Valid()
      invariant RareAffixes(tr.bits, off, n) == RareAffixes(tr.bits, here, n - i)
    {
      var _ :- ReadOptional(br, tr, here, 11);
      here := Optional(tr.bits, here, 11).next;
    }
    return Ok(());
  }

  lemma AtWider(br: BitReader, tr: Track, tr': Track, off: nat)
    requires At(br, tr, off) && tr' == tr.(peek := tr'.peek) && tr.peek <= tr'.peek
    ensures At(br, tr', off)
  {
  }

  method ReadQualityPart(br: BitReader, ghost tr: Track, ghost off: nat, quality: nat) returns (r: Result<Affixes>, ghost tr': Track)
    requires At(br, tr, off) && tr.peek <= 2
    modifies br, br.r
    ensures tr' == tr.(peek := Max(tr.peek, off + 12))
    ensures Follows(QualityPart(tr.bits, off, quality), r, br, tr') && old(br.r.pos) <= br.r.pos
  {
    hide At, ToNat, RareAffixes, Speculative;
    tr' := tr.(peek := Max(tr.peek, off + 12));
    if quality == QUALITY_NORMAL {
      var spec;
      spec, tr' := Speculate(br, tr, off);
      r := if spec.Ok? then Ok(NO_AFFIXES) else Err;
      return;
    }
    r := ReadQualityFields(br, tr, off, quality);
    if r.Ok? {
      AtWider(br, tr, tr', QualityPart(tr.bits, off, quality).next);
    }
  }

  method ReadQualityFields(br: BitReader, ghost tr: Track, ghost off: nat, quality: nat) returns (r: Result<Affixes>)
    requires At(br, tr, off) && quality != QUALITY_NORMAL
    modifies br, br.r
    ensures Follows(QualityPart(tr.bits, off, quality), r, br, tr) && old(br.r.pos) <= br.r.pos
  {
    hide At, ToNat, RareAffixes, Speculative;
    AtInside(br, tr, off);
    if quality == QUALITY_LOW || quality == QUALITY_HIGH {
      var _ :- ReadField(br, tr, off, 3);
      return Ok(NO_AFFIXES);
    } else if quality == QUALITY_MAGICAL {
      var prefix :- ReadField(br, tr, off, 11);
      var suffix :- ReadField(br, tr, off + 11, 11);
      return Ok(NO_AFFIXES.(prefix := prefix, suffix := suffix));
    } else if quality == QUALITY_SET {
      var id :- ReadField(br, tr, off, 12);
      return Ok(NO_AFFIXES.(setID := id));
    } else if quality == QUALITY_RARE || quality == QUALITY_CRAFTED {
      var first :- ReadField(br, tr, off, 8);
      var second :- ReadField(br, tr, off + 8, 8);
      var _ :- ReadRareAffixes(br, tr, off + 16, 6);
      return Ok(NO_AFFIXES.(rareNames := [first, second]));
    } else if quality == QUALITY_UNIQUE {
      var id :- ReadField(br, tr, off, 12);
      return Ok(NO_AFFIXES.(uniqueID := id));
    }
    return Ok(NO_AFFIXES);
  }

  method ReadOwnerPart(br: BitReader, ghost tr: Track, ghost off: nat, flags: Flags, tome: bool, version: nat) returns (r: Result<Owner>)
    requires At(br, tr, off)
    modifies br, br.r
    ensures Follows(OwnerPart(tr.bits, off, flags, tome, version), r, br, tr) && old(br.r.pos) <= br.r.pos
  {
    hide At, ToNat, Chars;
    ghost var here := off;
    var runewordID := 0;
    if flags.runeword {
      runewordID :- ReadField(br, tr, here, 12);
      var _ :- ReadField(br, tr, here + 12, 4);
      here := here + 16;
    }
    var name: seq<nat> := [];
    if flags.personalized {
      var w := if version >= D2R_VERSION then 8 else 7;
      name :- ReadChars(br, tr, here, w);
      here := Chars(tr.bits, here, w).next;
    }
    if tome {
      var _ :- ReadField(br, tr, here, 5);
      here := here + 5;
    }
    var _ :- ReadField(br, tr, here, 1);
    return Ok(Owner(runewordID, name));
  }

  method ReadWearPart(br: BitReader, ghost tr: Track, ghost off: nat, kind: ItemType) returns (r: Result<Wear>)
    requires At(br, tr, off)
    modifies br, br.r
    ensures Follows(WearPart(tr.bits, off, kind), r, br, tr) && old(br.r.pos) <= br.r.pos
  {
    hide At, ToNat;
    AtInside(br, tr, off);
    ghost var here := off;
    var defense: int := 0;
    if kind.Armor? || kind.Shield? {
      var raw :- ReadField(br, tr, here, DEFENSE_BITS);
      defense := raw - DEFENSE_ADD;
      here := here + DEFENSE_BITS;
    }
    var maxDur, curDur := 0, 0;
    if !kind.Other? {
      maxDur :- ReadField(br, tr, here, MAX_DURABILITY_BITS);
      here := here + MAX_DURABILITY_BITS;
      if maxDur > 0 {
        curDur :- ReadField(br, tr, here, CUR_DURABILITY_BITS);
      }
    }
    return Ok(Wear(defense, maxDur, curDur));
  }

  method ReadCountsPart(br: BitReader, ghost tr: Track, ghost off: nat, stacked: bool, socketed: bool, inSet: bool, version: nat)
    returns (r: Result<Counts>)
    requires At(br, tr, off)
    modifies br, br.r
    ensures Follows(CountsPart(tr.bits, off, stacked, socketed, inSet, version), r, br, tr) && old(br.r.pos) <= br.r.pos
  {
    hide At, ToNat;
    AtInside(br, tr, off);
    ghost var here := off;
    var quantity, sockets, setFlags := 0, 0, 0;
    if stacked {
      quantity :- ReadField(br, tr, here, 9);
      here := here + 9;
    }
    if version >= D2R_V105 {
      var _ :- ReadField(br, tr, here, 1);
      here := here + 1;
    }
    if socketed {
      sockets :- ReadField(br, tr, here, 4);
      here := here + 4;
    }
    if inSet {
      setFlags :- ReadField(br, tr, here, 5);
    }
    return Ok(Counts(quantity, sockets, setFlags));
  }

  method ReadListAt(br: BitReader, ghost tr: Track, ghost off: nat) returns (attrs: Result<seq<MagicAttribute>>)
    requires At(br, tr, off)
    modifies br, br.r
    ensures Follows(ListAt(tr.bits, off), attrs, br, tr) && old(br.r.pos) <= br.r.pos
  {
    hide Low, ToNat, BitsOf, Fits, CeilBytes, ReadList;
    attrs := ParseMagicalList(br);
    if attrs.Ok? {
      ListIsSuffix(tr.bits, off);
      PendingLength(br);
    }
  }

  lemma PendingLength(br: BitReader)
    requires br.Valid()
    ensures |br.Pending()| == 8 * (|br.r.data| - br.start) - br.cursor
  {
  }

  lemma ListIsSuffix(bits: Bitstring, off: nat)
    requires off <= |bits| && ReadList(bits[off..]).Parsed?
    ensures
      var rest := ReadList(bits[off..]).rest;
      off <= |bits| - |rest| <= |bits| && rest == bits[|bits| - |rest|..]
  {
    hide ReadList, WriteList;
    WriteUndoesReadList(bits[off..]);
    var r := ReadList(bits[off..]);
    var k := |bits| - |r.rest|;
    assert bits[off..] == WriteList(r.value) + r.rest;
    assert |bits[off..]| == |bits| - off;
    assert bits[k..] == bits[off..][k - off..];
  }

  method ReadListsFor(br: BitReader, ghost tr: Track, ghost off: nat, flags: nat) returns (lists: Result<seq<seq<MagicAttribute>>>)
    requires At(br, tr, off)
    modifies br, br.r
    ensures Follows(ListsFor(tr.bits, off, flags), lists, br, tr) && old(br.r.pos) <= br.r.pos
  {
    hide At, ListAt;
    var collected: seq<seq<MagicAttribute>> := [];
    ghost var here := off;
    var left := flags;
    JoinedFacts(collected, [], ListsFor(tr.bits, off, flags));
    AtInside(br, tr, off);
    while left > 0
      invariant At(br, tr, here) && old(br.r.pos) <= br.r.pos && br.r.Valid()
      invariant ListsFor(tr.bits, off, flags) == Joined(collected, ListsFor(tr.bits, here, left))
      decreases left
    {
      if left % 2 != 0 {
        var one :- ReadListAt(br, tr, here);
        here := ListAt(tr.bits, here).next;
        JoinedFacts(collected, [one], ListsFor(tr.bits, here, left / 2));
        collected := collected + [one];
      }
      left := left / 2;
    }
    JoinedFacts(collected, [], Got([], here));
    return Ok(collected);
  }

  method ReadListsPart(br: BitReader, ghost tr: Track, ghost off: nat, setFlags: nat, runeword: bool) returns (r: Result<Lists>)
    requires At(br, tr, off)
    modifies br, br.r
    ensures Follows(ListsPart(tr.bits, off, setFlags, runeword), r, br, tr) && old(br.r.pos) <= br.r.pos
  {
    hide At, ListAt, ListsFor;
    var magic :- ReadListAt(br, tr, off);
    ghost var o1 := ListAt(tr.bits, off).next;
    var sets :- ReadListsFor(br, tr, o1, setFlags);
    ghost var o2 := ListsFor(tr.bits, o1, setFlags).next;
    var runewordMagic: seq<MagicAttribute> := [];
    if runeword {
      runewordMagic :- ReadListAt(br, tr, o2);
    }
    return Ok(Lists(magic, sets, runewordMagic));
  }

  method ReadBodyPart(br: BitReader, ghost tr: Track, ghost off: nat, flags: Flags, code: string, version: nat, tables: ItemTables)
    returns (r: Result<Body>, ghost tr': Track)
    requires At(br, tr, off) && tr.peek <= 2
    modifies br, br.r
    ensures Follows(BodyPart(tr.bits, off, flags, code, version, tables), r, br, tr') && old(br.r.pos) <= br.r.pos
    ensures tr' == tr.(peek := tr'.peek)
    ensures r.Ok? ==>
      tr'.peek <= BodyPart(tr.bits, off, flags, code, version, tables).next + (if version >= D2R_V105 then 10 else 11)
  {
    hide At, IdentityPart, QualityPart, OwnerPart, WearPart, CountsPart, TypeOf;
    tr' := tr;
    var identity :- ReadIdentityPart(br, tr, off);
    ghost var o1 := IdentityPart(tr.bits, off).next;
    var affixes;
    affixes, tr' := ReadQualityPart(br, tr, o1, identity.quality);
    if affixes.Err? {
      return Err, tr';
    }
    ghost var o2 := QualityPart(tr.bits, o1, identity.quality).next;
    var tome, stacked, kind := code in tables.tomes, code in tables.stacks, TypeOf(tables, code);
    var inSet := identity.quality == QUALITY_SET;
    var owner :- ReadOwnerPart(br, tr', o2, flags, tome, version);
    ghost var o3 := OwnerPart(tr.bits, o2, flags, tome, version).next;
    var wear :- ReadWearPart(br, tr', o3, kind);
    ghost var o4 := WearPart(tr.bits, o3, kind).next;
    var counts :- ReadCountsPart(br, tr', o4, stacked, flags.socketed, inSet, version);
    return Ok(Body(identity, affixes.value, owner, wear, counts)), tr';
  }

  method ReadExtendedPart(br: BitReader, ghost tr: Track, ghost off: nat, head: Head, version: nat, tables: ItemTables)
    returns (r: Result<Item>, ghost tr': Track)
    requires At(br, tr, off) && tr.peek <= if version >= D2R_V105 then 0 else 2
    modifies br, br.r
    ensures Follows(ExtendedPart(tr.bits, off, head, version, tables), r, br, tr') && old(br.r.pos) <= br.r.pos
    ensures tr' == tr.(peek := tr'.peek)
    ensures r.Ok? ==>
      tr'.peek <= ExtendedPart(tr.bits, off, head, version, tables).next + (if version >= D2R_V105 then 1 else 2)
  {
    hide At, BodyPart, ListsPart;
    tr' := tr;
    AtInside(br, tr, off);
    if head.flags.simple {
      return Ok(Item(head, None, NO_LISTS, 0, [])), tr';
    }
    var code := if head.tag.CodeTag? then head.tag.code else "";
    var body;
    body, tr' := ReadBodyPart(br, tr, off, head.flags, code, version, tables);
    if body.Err? {
      return Err, tr';
    }
    ghost var o1 := BodyPart(tr.bits, off, head.flags, code, version, tables).next;
    var lists :- ReadListsPart(br, tr', o1, body.value.counts.setFlags, head.flags.runeword);
    return Ok(Item(head, Some(body.value), lists, 0, [])), tr';
  }

  /** Reads one item and moves to the byte boundary after it. From version 0x69
      on nothing stays looked-ahead; before that at most two bits do. */
  method ParseItem(br: BitReader, ghost tr: Track, version: nat, realm: nat, tables: ItemTables, tree: HuffmanTree)
    returns (r: Result<Item>, ghost tr': Track)
    requires At(br, tr, 0) && ItemTree(tree)
    requires tr.peek <= if version >= D2R_V105 then 0 else 2
    modifies br, br.r
    ensures ItemTree(tree)
    ensures Follows(ReadItem(tr.bits, version, realm, tables), r, br, tr') && old(br.r.pos) <= br.r.pos
    ensures tr' == tr.(peek := tr'.peek)
    ensures r.Ok? ==>
      tr'.peek <= ReadItem(tr.bits, version, realm, tables).next + (if version >= D2R_V105 then 0 else 2)
  {
    hide At, ToNat, HeadPart, ExtendedPart, ItemTree, AlignUp;
    tr' := tr;
    var head :- ReadHeadPart(br, tr, version, tables, tree);
    ghost var here := HeadPart(tr.bits, version, tables).next;
    var item;
    item, tr' := ReadExtendedPart(br, tr, here, head, version, tables);
    if item.Err? {
      return Err, tr';
    }
    here := ExtendedPart(tr.bits, here, head, version, tables).next;
    if version >= D2R_V105 {
      var _ :- ReadField(br, tr', here, 1);
      here := here + 1;
    }
    var quantity := 0;
    if version >= D2R_V105 && realm == REALM_ROTW {
      if item.value.ItemCode() in tables.advancedStash {
        quantity :- ReadField(br, tr', here, 8);
        here := here + 8;
      }
    }
    AlignItem(br, tr', here);
    AtInside(br, tr', AlignUp(here));
    return Ok(item.value.(stashQuantity := quantity)), tr';
  }
}
