/** The bit layout of a Diablo II item, as a grammar over bit offsets. */
module ItemFormat {
  import opened Bits
  import opened Common
  import opened Huffman
  import opened HuffmanTables
  import opened MagicTable
  import opened MagicLists

  const D2R_VERSION := 0x61
  const D2R_V105 := 0x69
  const REALM_ROTW := 3
  const LOCATION_SOCKETED := 6

  const QUALITY_LOW := 1
  const QUALITY_NORMAL := 2
  const QUALITY_HIGH := 3
  const QUALITY_MAGICAL := 4
  const QUALITY_SET := 5
  const QUALITY_RARE := 6
  const QUALITY_UNIQUE := 7
  const QUALITY_CRAFTED := 8

  datatype ItemType = Armor | Shield | Weapon | Other

  /** The item-code tables an item's layout depends on. */
  datatype ItemTables = ItemTables(
    armor: set<string>, shields: set<string>, weapons: set<string>,
    quest: set<string>, tomes: set<string>, stacks: set<string>, advancedStash: set<string>,
    gems: map<(ItemType, string), seq<MagicAttribute>>)

  function TypeOf(tables: ItemTables, code: string): ItemType {
    if code in tables.armor then Armor
    else if code in tables.shields then Shield
    else if code in tables.weapons then Weapon
    else Other
  }

  datatype Flags = Flags(
    identified: bool, socketed: bool, isNew: bool, isEar: bool, starter: bool,
    simple: bool, ethereal: bool, personalized: bool, runeword: bool)
  datatype Place = Place(version: nat, location: nat, equipSlot: nat, x: nat, y: nat, page: nat)
  datatype Tag = CodeTag(code: string, questDifficulty: nat, socketCount: nat) | EarTag(earClass: nat, earLevel: nat, earName: seq<nat>)
  datatype Head = Head(flags: Flags, place: Place, tag: Tag)

  datatype Identity = Identity(id: nat, level: nat, quality: nat)
  datatype Affixes = Affixes(prefix: nat, suffix: nat, setID: nat, uniqueID: nat, rareNames: seq<nat>)
  datatype Owner = Owner(runewordID: nat, personalName: seq<nat>)
  datatype Wear = Wear(defense: int, maxDurability: nat, curDurability: nat)
  datatype Counts = Counts(quantity: nat, sockets: nat, setFlags: nat)
  datatype Lists = Lists(magic: seq<MagicAttribute>, sets: seq<seq<MagicAttribute>>, runeword: seq<MagicAttribute>)
  datatype Body = Body(identity: Identity, affixes: Affixes, owner: Owner, wear: Wear, counts: Counts)

  datatype Item = Item(head: Head, body: Option<Body>, lists: Lists, stashQuantity: nat, socketedItems: seq<Item>) {
    predicate Simple() { head.flags.simple }

    /** An ear carries no code and announces no socketed items. */
    function ItemCode(): string { if head.tag.CodeTag? then head.tag.code else "" }
    function SocketCount(): nat { if head.tag.CodeTag? then head.tag.socketCount else 0 }
  }

  /** Something read at a bit offset, and the offset after it. */
  datatype Got<+T> = Got(value: T, next: nat) | Short {
    predicate IsFailure() { Short? }
    function PropagateFailure<U>(): Got<U> requires Short? { Short }
    function Extract(): (T, nat) requires Got? { (value, next) }
  }

  function Field(bits: Bitstring, off: nat, n: nat): Got<nat> {
    if off + n <= |bits| then Got(ToNat(bits[off..off + n]), off + n) else Short
  }

  function Flag(bits: Bitstring, off: nat): Got<bool> {
    var (v, next) :- Field(bits, off, 1);
    Got(v == 1, next)
  }

  /** The next byte boundary, counted from the start of the item. */
  function AlignUp(off: nat): (aligned: nat)
    ensures off <= aligned < off + 8 && aligned % 8 == 0
  {
    off + (8 - off % 8) % 8
  }

  /** Characters of `w` bits up to and including a zero. */
  function Chars(bits: Bitstring, off: nat, w: nat): (g: Got<seq<nat>>)
    requires w > 0
    ensures g.Got? ==> off + w <= g.next <= |bits|
    decreases |bits| - off
  {
    var (c, next) :- Field(bits, off, w);
    if c == 0 then Got([], next)
    else
      var (more, after) :- Chars(bits, next, w);
      Got([c] + more, after)
  }

  // ---- Header: flags and placement ----

  function ItemMark(bits: Bitstring, off: nat, version: nat): (g: Got<()>)
    ensures g.Got? ==> off <= g.next <= off + 16
  {
    if version >= D2R_VERSION then Got((), off)
    else
      var (j, o1) :- Field(bits, off, 8);
      var (m, o2) :- Field(bits, o1, 8);
      if j == 'J' as int && m == 'M' as int then Got((), o2) else Short
  }

  /** The 32 flag bits. */
  function FlagsPart(bits: Bitstring, off: nat): (g: Got<Flags>)
    ensures g.Got? ==> g.next == off + 32
  {
    if off + 32 > |bits| then Short
    else Got(Flags(bits[off + 4], bits[off + 11], bits[off + 13], bits[off + 16], bits[off + 17],
                   bits[off + 21], bits[off + 22], bits[off + 24], bits[off + 26]), off + 32)
  }

  function PlacePart(bits: Bitstring, off: nat, version: nat): (g: Got<Place>)
    ensures g.Got? ==> off <= g.next <= |bits|
  {
    var (v, o1) :- Field(bits, off, if version >= D2R_VERSION then 3 else 8);
    var o2 := if version >= D2R_VERSION then o1 else o1 + 2;
    var (location, o3) :- Field(bits, o2, 3);
    var (slot, o4) :- Field(bits, o3, 4);
    var (x, o5) :- Field(bits, o4, 4);
    var (y, o6) :- Field(bits, o5, 4);
    var (page, o7) :- Field(bits, o6, 3);
    Got(Place(v, location, slot, x, y, page), o7)
  }

  // ---- Code or ear ----

  ghost function CodeChar(bits: Bitstring, off: nat, version: nat): (g: Got<char>)
    ensures g.Got? ==> off <= g.next <= |bits|
  {
    if version >= D2R_VERSION then
      if off <= |bits| && exists c :: Decodes(ItemCodeTable(), bits[off..], c) then
        var c :| Decodes(ItemCodeTable(), bits[off..], c);
        Got(c, off + |ItemCodeTable()[c]|)
      else Short
    else
      var (v, next) :- Field(bits, off, 8);
      ByteValue(bits, off);
      Got(v as char, next)
  }

  lemma ByteValue(bits: Bitstring, off: nat)
    requires Field(bits, off, 8).Got?
    ensures Field(bits, off, 8).value < 256
  {
    ToNatBound(bits[off..off + 8]);
    assert Pow2(8) == 256 by { assert Pow2(4) == 16; }
  }

  ghost function CodeChars(bits: Bitstring, off: nat, version: nat, n: nat): (g: Got<string>)
    ensures g.Got? && n > 0 ==> off <= g.next <= |bits|
    decreases n
  {
    if n == 0 then Got("", off)
    else
      var (c, next) :- CodeChar(bits, off, version);
      var (more, after) :- CodeChars(bits, next, version, n - 1);
      Got([c] + more, after)
  }

  function TrimRight(s: string): string {
    if s != "" && s[|s| - 1] == ' ' then TrimRight(s[..|s| - 1]) else s
  }

  /** Widths and offsets taken from the property table. */
  const QUEST_BITS := 2
  const DEFENSE_BITS := 11
  const DEFENSE_ADD := 10
  const MAX_DURABILITY_BITS := 8
  const CUR_DURABILITY_BITS := 9

  lemma WidthsComeFromTable()
    ensures MagicalProperty(356) == Some(MagicPropertyDef(QUEST_BITS, 0, 0, 0, 0, 0))
    ensures MagicalProperty(31) == Some(MagicPropertyDef(DEFENSE_BITS, DEFENSE_ADD, 0, 0, 19, 0))
    ensures MagicalProperty(73) == Some(MagicPropertyDef(MAX_DURABILITY_BITS, 0, 0, 0, 0, 0))
    ensures MagicalProperty(72) == Some(MagicPropertyDef(CUR_DURABILITY_BITS, 0, 0, 0, 0, 0))
  {
  }

  ghost function CodePart(bits: Bitstring, off: nat, simple: bool, version: nat, tables: ItemTables): (g: Got<Tag>)
    ensures g.Got? ==> off <= g.next
  {
    var (padded, o1) :- CodeChars(bits, off, version, 4);
    var code := TrimRight(padded);
    var quest := code in tables.quest;
    var (difficulty, o2) :- (if quest then Field(bits, o1, QUEST_BITS) else Got(0, o1));
    var (sockets, o3) :- Field(bits, o2, if simple || quest then 1 else 3);
    Got(CodeTag(code, difficulty, sockets), o3)
  }

  function EarPart(bits: Bitstring, off: nat): (g: Got<Tag>)
    ensures g.Got? ==> off <= g.next
  {
    var (cls, o1) :- Field(bits, off, 3);
    var (level, o2) :- Field(bits, o1, 7);
    var (name, o3) :- Chars(bits, o2, 7);
    Got(EarTag(cls, level, name), AlignUp(o3))
  }

  ghost function HeadPart(bits: Bitstring, version: nat, tables: ItemTables): (g: Got<Head>)
    ensures g.Got? ==> 32 <= g.next
  {
    var (_, o1) :- ItemMark(bits, 0, version);
    var (flags, o2) :- FlagsPart(bits, o1);
    var (place, o3) :- PlacePart(bits, o2, version);
    var (tag, o4) :- (if flags.isEar then EarPart(bits, o3) else CodePart(bits, o3, flags.simple, version, tables));
    Got(Head(flags, place, tag), o4)
  }

  // ---- Extended data ----

  /** `n` bits present only when the one-bit flag before them is set. */
  function Optional(bits: Bitstring, off: nat, n: nat): (g: Got<Option<nat>>)
    ensures g.Got? ==> off < g.next <= |bits|
  {
    var (present, o1) :- Flag(bits, off);
    if !present then Got(None, o1)
    else
      var (v, o2) :- Field(bits, o1, n);
      Got(Some(v), o2)
  }

  function IdentityPart(bits: Bitstring, off: nat): (g: Got<Identity>)
    ensures g.Got? ==> off + 43 <= g.next <= |bits|
  {
    var (id, o1) :- Field(bits, off, 32);
    var (level, o2) :- Field(bits, o1, 7);
    var (quality, o3) :- Field(bits, o2, 4);
    var (_, o4) :- Optional(bits, o3, 3);
    var (_, o5) :- Optional(bits, o4, 11);
    Got(Identity(id, level, quality), o5)
  }

  /** Twelve bits of a normal item are consumed only when all clear or all set. */
  function Speculative(bits: Bitstring, off: nat): (g: Got<()>)
    ensures g.Got? ==> off <= g.next && off + 12 <= |bits|
  {
    var (v, next) :- Field(bits, off, 12);
    Got((), if v == 0 || v == 0xfff then next else off)
  }

  function RareAffixes(bits: Bitstring, off: nat, n: nat): (g: Got<()>)
    ensures g.Got? ==> off <= g.next
    decreases n
  {
    if n == 0 then Got((), off)
    else
      var (_, next) :- Optional(bits, off, 11);
      RareAffixes(bits, next, n - 1)
  }

  const NO_AFFIXES := Affixes(0, 0, 0, 0, [])

  function QualityPart(bits: Bitstring, off: nat, quality: nat): (g: Got<Affixes>)
    ensures g.Got? ==> off <= g.next
  {
    if quality == QUALITY_LOW || quality == QUALITY_HIGH then
      var (_, o1) :- Field(bits, off, 3);
      Got(NO_AFFIXES, o1)
    else if quality == QUALITY_NORMAL then
      var (_, o1) :- Speculative(bits, off);
      Got(NO_AFFIXES, o1)
    else if quality == QUALITY_MAGICAL then
      var (prefix, o1) :- Field(bits, off, 11);
      var (suffix, o2) :- Field(bits, o1, 11);
      Got(NO_AFFIXES.(prefix := prefix, suffix := suffix), o2)
    else if quality == QUALITY_SET then
      var (id, o1) :- Field(bits, off, 12);
      Got(NO_AFFIXES.(setID := id), o1)
    else if quality == QUALITY_RARE || quality == QUALITY_CRAFTED then
      var (first, o1) :- Field(bits, off, 8);
      var (second, o2) :- Field(bits, o1, 8);
      var (_, o3) :- RareAffixes(bits, o2, 6);
      Got(NO_AFFIXES.(rareNames := [first, second]), o3)
    else if quality == QUALITY_UNIQUE then
      var (id, o1) :- Field(bits, off, 12);
      Got(NO_AFFIXES.(uniqueID := id), o1)
    else Got(NO_AFFIXES, off)
  }

  function OwnerPart(bits: Bitstring, off: nat, flags: Flags, tome: bool, version: nat): (g: Got<Owner>)
    ensures g.Got? ==> off < g.next <= |bits|
  {
    var (runewordID, o1) :- (if flags.runeword then Field(bits, off, 12) else Got(0, off));
    var (_, o2) :- (if flags.runeword then Field(bits, o1, 4) else Got(0, o1));
    var (name, o3) :- (if flags.personalized then Chars(bits, o2, if version >= D2R_VERSION then 8 else 7) else Got([], o2));
    var (_, o4) :- (if tome then Field(bits, o3, 5) else Got(0, o3));
    var (_, o5) :- Field(bits, o4, 1);
    Got(Owner(runewordID, name), o5)
  }

  function WearPart(bits: Bitstring, off: nat, kind: ItemType): (g: Got<Wear>)
    ensures g.Got? ==> off <= g.next
  {
    var (defense, o1) :- (if kind.Armor? || kind.Shield? then Field(bits, off, DEFENSE_BITS) else Got(DEFENSE_ADD, off));
    var (maxDur, o2) :- (if kind.Other? then Got(0, o1) else Field(bits, o1, MAX_DURABILITY_BITS));
    var (curDur, o3) :- (if maxDur > 0 then Field(bits, o2, CUR_DURABILITY_BITS) else Got(0, o2));
    Got(Wear(defense - DEFENSE_ADD, maxDur, curDur), o3)
  }

  function CountsPart(bits: Bitstring, off: nat, stacked: bool, socketed: bool, inSet: bool, version: nat): (g: Got<Counts>)
    ensures g.Got? ==> off + (if version >= D2R_V105 then 1 else 0) <= g.next
  {
    var (quantity, o1) :- (if stacked then Field(bits, off, 9) else Got(0, off));
    var (_, o2) :- (if version >= D2R_V105 then Field(bits, o1, 1) else Got(0, o1));
    var (sockets, o3) :- (if socketed then Field(bits, o2, 4) else Got(0, o2));
    var (setFlags, o4) :- (if inSet then Field(bits, o3, 5) else Got(0, o3));
    Got(Counts(quantity, sockets, setFlags), o4)
  }

  function ListAt(bits: Bitstring, off: nat): (g: Got<seq<MagicAttribute>>)
    ensures g.Got? ==> off + 9 <= g.next <= |bits|
  {
    if off > |bits| then Short
    else
      match ReadList(bits[off..])
      case Failed => Short
      case Parsed(attrs, rest) => Got(attrs, |bits| - |rest|)
  }

  /** One list for every bit set in `flags`. */
  function ListsFor(bits: Bitstring, off: nat, flags: nat): (g: Got<seq<seq<MagicAttribute>>>)
    ensures g.Got? ==> off <= g.next
    decreases flags
  {
    if flags == 0 then Got([], off)
    else if flags % 2 == 0 then ListsFor(bits, off, flags / 2)
    else
      var (first, o1) :- ListAt(bits, off);
      var (more, o2) :- ListsFor(bits, o1, flags / 2);
      Got([first] + more, o2)
  }

  function ListsPart(bits: Bitstring, off: nat, setFlags: nat, runeword: bool): (g: Got<Lists>)
    ensures g.Got? ==> off + 9 <= g.next
  {
    var (magic, o1) :- ListAt(bits, off);
    var (sets, o2) :- ListsFor(bits, o1, setFlags);
    var (runewordMagic, o3) :- (if runeword then ListAt(bits, o2) else Got([], o2));
    Got(Lists(magic, sets, runewordMagic), o3)
  }

  function BodyPart(bits: Bitstring, off: nat, flags: Flags, code: string, version: nat, tables: ItemTables): (g: Got<Body>)
    ensures g.Got? ==> off <= g.next
  {
    var (identity, o1) :- IdentityPart(bits, off);
    var (affixes, o2) :- QualityPart(bits, o1, identity.quality);
    var (owner, o3) :- OwnerPart(bits, o2, flags, code in tables.tomes, version);
    var (wear, o4) :- WearPart(bits, o3, TypeOf(tables, code));
    var (counts, o5) :- CountsPart(bits, o4, code in tables.stacks, flags.socketed, identity.quality == QUALITY_SET, version);
    Got(Body(identity, affixes, owner, wear, counts), o5)
  }

  const NO_LISTS := Lists([], [], [])

  /** The extended data of an item that is not simple. */
  function ExtendedPart(bits: Bitstring, off: nat, head: Head, version: nat, tables: ItemTables): (g: Got<Item>)
    ensures g.Got? ==> off <= g.next && g.value.socketedItems == []
  {
    if head.flags.simple then Got(Item(head, None, NO_LISTS, 0, []), off)
    else
      var code := if head.tag.CodeTag? then head.tag.code else "";
      var (body, o1) :- BodyPart(bits, off, head.flags, code, version, tables);
      var (lists, o2) :- ListsPart(bits, o1, body.counts.setFlags, head.flags.runeword);
      Got(Item(head, Some(body), lists, 0, []), o2)
  }

  /** One item, up to the byte boundary after it. */
  ghost function ReadItem(bits: Bitstring, version: nat, realm: nat, tables: ItemTables): (g: Got<Item>)
    ensures g.Got? ==> 32 <= g.next && g.next % 8 == 0 && g.value.socketedItems == []
  {
    var (head, o1) :- HeadPart(bits, version, tables);
    var (item, o2) :- ExtendedPart(bits, o1, head, version, tables);
    var (_, o3) :- (if version >= D2R_V105 then Field(bits, o2, 1) else Got(0, o2));
    var stash := version >= D2R_V105 && realm == REALM_ROTW && item.ItemCode() in tables.advancedStash;
    var (quantity, o4) :- (if stash then Field(bits, o3, 8) else Got(0, o3));
    Got(item.(stashQuantity := quantity), AlignUp(o4))
  }
}
