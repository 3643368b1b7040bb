/** A writer of Diablo II items that spells every field in its order on its own, and
    the proof that the reader gives back every item it writes. */
module ItemWriter {
  import opened Bits
  import opened Common
  import opened Huffman
  import opened HuffmanTables
  import opened MagicLists
  import opened ItemFormat
  import opened ItemParser

  // ---- What an item leaves unread ----

  /** Twelve bits some normal items carry: none, all clear, or all set. */
  datatype Twelve = Absent | Clear | Set

  /** The bits of an item that the parser skips, whatever they are. */
  datatype Skipped = Skipped(gaps: Bitstring, versionPad: Bitstring, earPad: Bitstring, picture: Option<nat>, classBits: Option<nat>,
                             grade: nat, twelve: Twelve, rares: seq<Option<nat>>, runewordBits: nat, tomeBits: nat,
                             timestamp: bool, early: bool, late: bool, endPad: Bitstring)

  // ---- The writer ----

  /** The first half of the flags, and the second. */
  function WriteFlags(f: Flags, gaps: Bitstring): (w: Bitstring)
    requires |gaps| == 23
    ensures |w| == 32
  {
    FirstFlags(f, gaps) + SecondFlags(f, gaps)
  }

  function FirstFlags(f: Flags, gaps: Bitstring): (w: Bitstring)
    requires |gaps| == 23
    ensures |w| == 16
  {
    gaps[..4] + [f.identified] + gaps[4..10] + [f.socketed] + gaps[10..11] + [f.isNew] + gaps[11..13]
  }

  function SecondFlags(f: Flags, gaps: Bitstring): (w: Bitstring)
    requires |gaps| == 23
    ensures |w| == 16
  {
    [f.isEar] + [f.starter] + gaps[13..16] + [f.simple] + [f.ethereal] + gaps[16..17] + [f.personalized] + gaps[17..18]
    + [f.runeword] + gaps[18..]
  }

  /** Column before row; three bits of version, or eight and two of padding before 0x61. */
  function WritePlace(p: Place, pad: Bitstring, version: nat): Bitstring {
    var position := Low(p.location, 3) + (Low(p.equipSlot, 4) + (Low(p.x, 4) + (Low(p.y, 4) + Low(p.page, 3))));
    if version >= 0x61 then Low(p.version, 3) + position else Low(p.version, 8) + (pad + position)
  }

  function WriteBytes(s: string): Bitstring {
    if s == "" then [] else Low(s[0] as nat, 8) + WriteBytes(s[1..])
  }

  /** A code of up to four characters, padded with spaces. */
  function Padded(code: string): string {
    if |code| == 0 then "    "
    else if |code| == 1 then code + "   "
    else if |code| == 2 then code + "  "
    else if |code| == 3 then code + " "
    else code
  }

  /** Bits of `w` each, and a zero to end them. */
  function WriteName(name: seq<nat>, w: nat): Bitstring {
    if name == [] then Low(0, w) else Low(name[0], w) + WriteName(name[1..], w)
  }

  function WriteOption(o: Option<nat>, n: nat): Bitstring {
    match o
    case None => [false]
    case Some(v) => [true] + Low(v, n)
  }

  function WriteOptions(os: seq<Option<nat>>, n: nat): Bitstring {
    if os == [] then [] else WriteOption(os[0], n) + WriteOptions(os[1..], n)
  }

  predicate CodeOk(code: string, version: nat) {
    && |code| <= 4 && (code != "" ==> code[|code| - 1] != ' ')
    && (forall c :: c in Padded(code) ==> if version >= 0x61 then c in ItemCodeTable() else c as nat < 256)
  }

  function WriteCode(code: string, version: nat): Bitstring
    requires CodeOk(code, version)
  {
    if version >= 0x61 then Encode(ItemCodeTable(), Padded(code)) else WriteBytes(Padded(code))
  }

  // ---- Reading at an offset ----

  /** The bits `w` lie at `off`. */
  predicate Lies(bits: Bitstring, off: nat, w: Bitstring) {
    off + |w| <= |bits| && bits[off..off + |w|] == w
  }

  lemma LiesApart(bits: Bitstring, off: nat, a: Bitstring, b: Bitstring)
    requires Lies(bits, off, a + b)
    ensures Lies(bits, off, a) && Lies(bits, off + |a|, b)
  {
    var s := bits[off..off + |a + b|];
    assert s[..|a|] == bits[off..off + |a|] && s[|a|..] == bits[off + |a|..off + |a| + |b|];
    assert (a + b)[..|a|] == a && (a + b)[|a|..] == b;
  }

  lemma FieldLies(bits: Bitstring, off: nat, v: nat, n: nat)
    requires Lies(bits, off, Low(v, n)) && v < Pow2(n)
    ensures Field(bits, off, n) == Got(v, off + n)
  {
    FitsIffBelow(v, n);
    ToNatOfLow(v, n);
  }

  lemma Powers()
    ensures Pow2(1) == 2 && Pow2(2) == 4 && Pow2(3) == 8 && Pow2(4) == 16 && Pow2(5) == 32 && Pow2(7) == 128 && Pow2(8) == 256
    ensures Pow2(9) == 512 && Pow2(11) == 2048 && Pow2(12) == 4096 && Pow2(32) == 0x1_0000_0000
  {
    assert Pow2(4) == 16;
    assert Pow2(7) == 128;
    assert Pow2(10) == 1024;
    assert Pow2(14) == 0x4000;
    assert Pow2(18) == 0x4_0000;
    assert Pow2(22) == 0x40_0000;
    assert Pow2(26) == 0x400_0000;
    assert Pow2(30) == 0x4000_0000;
  }

  lemma LiesInside(bits: Bitstring, off: nat, w: Bitstring)
    requires Lies(bits, off, w)
    ensures off + |w| <= |bits|
  {
  }

  lemma BitLies(bits: Bitstring, off: nat, w: Bitstring, i: nat)
    requires Lies(bits, off, w) && i < |w|
    ensures off + i < |bits| && bits[off + i] == w[i]
  {
    assert bits[off..off + |w|][i] == bits[off + i];
  }

  lemma FlagsPlaced(f: Flags, gaps: Bitstring)
    requires |gaps| == 23
    ensures
      var w := FirstFlags(f, gaps);
      w[4] == f.identified && w[11] == f.socketed && w[13] == f.isNew
    ensures
      var w := SecondFlags(f, gaps);
      w[0] == f.isEar && w[1] == f.starter && w[5] == f.simple && w[6] == f.ethereal && w[8] == f.personalized && w[10] == f.runeword
  {
  }

  lemma FlagsLie(bits: Bitstring, off: nat, f: Flags, gaps: Bitstring)
    requires |gaps| == 23 && Lies(bits, off, WriteFlags(f, gaps))
    ensures FlagsPart(bits, off) == Got(f, off + 32)
  {
    hide FirstFlags, SecondFlags, Lies;
    FlagsPlaced(f, gaps);
    var first, second := FirstFlags(f, gaps), SecondFlags(f, gaps);
    LiesApart(bits, off, first, second);
    LiesInside(bits, off, first + second);
    BitLies(bits, off, first, 4);
    BitLies(bits, off, first, 11);
    BitLies(bits, off, first, 13);
    BitLies(bits, off + 16, second, 0);
    BitLies(bits, off + 16, second, 1);
    BitLies(bits, off + 16, second, 5);
    BitLies(bits, off + 16, second, 6);
    BitLies(bits, off + 16, second, 8);
    BitLies(bits, off + 16, second, 10);
  }

  // ---- The head ----

  predicate PlaceOk(p: Place, version: nat) {
    && p.version < (if version >= 0x61 then 8 else 256)
    && p.location < 8 && p.equipSlot < 16 && p.x < 16 && p.y < 16 && p.page < 8
  }

  lemma PositionLies(bits: Bitstring, off: nat, p: Place, version: nat)
    requires PlaceOk(p, version)
    requires Lies(bits, off, Low(p.location, 3) + (Low(p.equipSlot, 4) + (Low(p.x, 4) + (Low(p.y, 4) + Low(p.page, 3)))))
    ensures Field(bits, off, 3) == Got(p.location, off + 3) && Field(bits, off + 3, 4) == Got(p.equipSlot, off + 7)
    ensures Field(bits, off + 7, 4) == Got(p.x, off + 11) && Field(bits, off + 11, 4) == Got(p.y, off + 15)
    ensures Field(bits, off + 15, 3) == Got(p.page, off + 18)
  {
    hide Field, Lies, Low, Pow2;
    Powers();
    var pages := Low(p.page, 3);
    var rows := Low(p.y, 4) + pages;
    var columns := Low(p.x, 4) + rows;
    var slots := Low(p.equipSlot, 4) + columns;
    LiesApart(bits, off, Low(p.location, 3), slots);
    LiesApart(bits, off + 3, Low(p.equipSlot, 4), columns);
    LiesApart(bits, off + 7, Low(p.x, 4), rows);
    LiesApart(bits, off + 11, Low(p.y, 4), pages);
    FieldLies(bits, off, p.location, 3);
    FieldLies(bits, off + 3, p.equipSlot, 4);
    FieldLies(bits, off + 7, p.x, 4);
    FieldLies(bits, off + 11, p.y, 4);
    FieldLies(bits, off + 15, p.page, 3);
  }

  lemma PlaceLies(bits: Bitstring, off: nat, p: Place, pad: Bitstring, version: nat)
    requires PlaceOk(p, version) && |pad| == 2 && Lies(bits, off, WritePlace(p, pad, version))
    ensures PlacePart(bits, off, version) == Got(p, off + |WritePlace(p, pad, version)|)
  {
    hide Field, Lies, Low, Pow2;
    Powers();
    var position := Low(p.location, 3) + (Low(p.equipSlot, 4) + (Low(p.x, 4) + (Low(p.y, 4) + Low(p.page, 3))));
    if version >= 0x61 {
      LiesApart(bits, off, Low(p.version, 3), position);
      FieldLies(bits, off, p.version, 3);
      PositionLies(bits, off + 3, p, version);
    } else {
      LiesApart(bits, off, Low(p.version, 8), pad + position);
      LiesApart(bits, off + 8, pad, position);
      FieldLies(bits, off, p.version, 8);
      PositionLies(bits, off + 10, p, version);
    }
  }

  /** The letters JM, ahead of every item of the old format. */
  function WriteMark(version: nat): Bitstring {
    if version >= 0x61 then [] else Low(0x4A, 8) + Low(0x4D, 8)
  }

  lemma MarkLies(bits: Bitstring, version: nat)
    requires Lies(bits, 0, WriteMark(version))
    ensures ItemMark(bits, 0, version) == Got((), |WriteMark(version)|)
  {
    hide Field, Lies, Low, Pow2;
    Powers();
    if version < 0x61 {
      LiesApart(bits, 0, Low(0x4A, 8), Low(0x4D, 8));
      FieldLies(bits, 0, 0x4A, 8);
      FieldLies(bits, 8, 0x4D, 8);
    }
  }

  // ---- Code or ear ----

  lemma {:induction false} BytesLie(bits: Bitstring, off: nat, s: string, version: nat)
    requires version < 0x61 && (forall c :: c in s ==> c as nat < 256) && Lies(bits, off, WriteBytes(s))
    ensures CodeChars(bits, off, version, |s|) == Got(s, off + |WriteBytes(s)|)
    decreases |s|
  {
    hide Field, Lies, Low, Pow2;
    Powers();
    if s != "" {
      LiesApart(bits, off, Low(s[0] as nat, 8), WriteBytes(s[1..]));
      assert s[0] in s && (forall c :: c in s[1..] ==> c in s);
      FieldLies(bits, off, s[0] as nat, 8);
      assert CodeChar(bits, off, version) == Got(s[0], off + 8);
      BytesLie(bits, off + 8, s[1..], version);
      assert [s[0]] + s[1..] == s;
    }
  }

  lemma {:induction false} CodesLie(bits: Bitstring, off: nat, s: string, version: nat)
    requires version >= 0x61 && (forall c :: c in s ==> c in ItemCodeTable()) && Lies(bits, off, Encode(ItemCodeTable(), s))
    ensures CodeChars(bits, off, version, |s|) == Got(s, off + |Encode(ItemCodeTable(), s)|)
    decreases |s|
  {
    hide ItemCodeTable, Lies, CodeChar;
    if s != "" {
      var code := ItemCodeTable()[s[0]];
      LiesApart(bits, off, code, Encode(ItemCodeTable(), s[1..]));
      CodeLies(bits, off, s[0], version);
      CodesLie(bits, off + |code|, s[1..], version);
      assert [s[0]] + s[1..] == s;
    }
  }

  lemma CodeLies(bits: Bitstring, off: nat, c: char, version: nat)
    requires version >= 0x61 && c in ItemCodeTable() && Lies(bits, off, ItemCodeTable()[c])
    ensures CodeChar(bits, off, version) == Got(c, off + |ItemCodeTable()[c]|)
  {
    hide ItemCodeTable, CodeChar;
    var code := ItemCodeTable()[c];
    assert bits[off..][..|code|] == bits[off..off + |code|];
    CodeCharIs(bits, off, version, c);
  }

  lemma PaddedTrims(code: string)
    requires |code| <= 4 && (code != "" ==> code[|code| - 1] != ' ')
    ensures |Padded(code)| == 4 && ItemFormat.TrimRight(Padded(code)) == code
  {
    SpacesTrim(code, 4 - |code|);
    FewSpaces();
    assert Padded(code) == code + Spaces(4 - |code|);
  }

  function Spaces(n: nat): (s: string)
    ensures |s| == n
  {
    if n == 0 then "" else Spaces(n - 1) + " "
  }

  lemma FewSpaces()
    ensures Spaces(0) == "" && Spaces(1) == " " && Spaces(2) == "  " && Spaces(3) == "   " && Spaces(4) == "    "
  {
    assert Spaces(2) == "  ";
  }

  lemma {:induction false} SpacesTrim(code: string, n: nat)
    requires n <= 4 && (code != "" ==> code[|code| - 1] != ' ')
    ensures ItemFormat.TrimRight(code + Spaces(n)) == code
  {
    var s := code + Spaces(n);
    if n == 0 {
      assert s == code;
    } else {
      assert s[|s| - 1] == ' ' && s[..|s| - 1] == code + Spaces(n - 1);
      SpacesTrim(code, n - 1);
    }
  }

  function WriteTag(tag: Tag, simple: bool, skipped: Skipped, version: nat, tables: ItemTables): Bitstring
    requires TagOk(tag, simple, version, tables)
  {
    match tag
    case CodeTag(code, difficulty, sockets) =>
      var quest := code in tables.quest;
      WriteCode(code, version) + ((if quest then Low(difficulty, 2) else []) + Low(sockets, if simple || quest then 1 else 3))
    case EarTag(class_, level, name) => Low(class_, 3) + (Low(level, 7) + (WriteName(name, 7) + skipped.earPad))
  }

  predicate NameOk(name: seq<nat>, limit: nat) {
    forall i :: 0 <= i < |name| ==> 0 < name[i] < limit
  }

  predicate TagOk(tag: Tag, simple: bool, version: nat, tables: ItemTables) {
    match tag
    case CodeTag(code, difficulty, sockets) =>
      && CodeOk(code, version)
      && difficulty < (if code in tables.quest then 4 else 1)
      && sockets < (if simple || code in tables.quest then 2 else 8)
    case EarTag(class_, level, name) => class_ < 8 && level < 128 && NameOk(name, 128)
  }

  lemma CodePadded(bits: Bitstring, off: nat, code: string, version: nat)
    requires CodeOk(code, version) && Lies(bits, off, WriteCode(code, version))
    ensures CodeChars(bits, off, version, 4) == Got(Padded(code), off + |WriteCode(code, version)|)
  {
    hide Lies, Encode, CodeChars, Padded;
    PaddedTrims(code);
    if version >= 0x61 {
      CodesLie(bits, off, Padded(code), version);
    } else {
      BytesLie(bits, off, Padded(code), version);
    }
  }

  lemma CodeTagLies(bits: Bitstring, off: nat, tag: Tag, simple: bool, skipped: Skipped, version: nat, tables: ItemTables)
    requires tag.CodeTag? && TagOk(tag, simple, version, tables) && Lies(bits, off, WriteTag(tag, simple, skipped, version, tables))
    ensures CodePart(bits, off, simple, version, tables) == Got(tag, off + |WriteTag(tag, simple, skipped, version, tables)|)
  {
    hide Field, Lies, Low, Pow2, CodeChars, Padded, ItemFormat.TrimRight, WriteCode;
    Powers();
    var quest := tag.code in tables.quest;
    var code := WriteCode(tag.code, version);
    var difficulty := if quest then Low(tag.questDifficulty, 2) else [];
    var sockets := Low(tag.socketCount, if simple || quest then 1 else 3);
    LiesApart(bits, off, code, difficulty + sockets);
    LiesApart(bits, off + |code|, difficulty, sockets);
    CodePadded(bits, off, tag.code, version);
    PaddedTrims(tag.code);
    if quest {
      FieldLies(bits, off + |code|, tag.questDifficulty, 2);
    }
    FieldLies(bits, off + |code| + |difficulty|, tag.socketCount, if simple || quest then 1 else 3);
  }

  lemma {:induction false} NameLies(bits: Bitstring, off: nat, name: seq<nat>, w: nat)
    requires w > 0 && NameOk(name, Pow2(w)) && Lies(bits, off, WriteName(name, w))
    ensures Chars(bits, off, w) == Got(name, off + |WriteName(name, w)|)
    decreases |name|
  {
    hide Lies, Low, Pow2, Field;
    if name == [] {
      Positive(w);
      FieldLies(bits, off, 0, w);
    } else {
      LiesApart(bits, off, Low(name[0], w), WriteName(name[1..], w));
      FieldLies(bits, off, name[0], w);
      NameLies(bits, off + w, name[1..], w);
      assert [name[0]] + name[1..] == name;
    }
  }

  lemma Positive(n: nat)
    ensures 0 < Pow2(n)
  {
  }

  /** Less than a byte of padding that reaches a boundary is what aligning skips. */
  lemma Pads(off: nat, k: nat)
    requires k < 8 && (off + k) % 8 == 0
    ensures AlignUp(off) == off + k
  {
  }

  lemma EarTagLies(bits: Bitstring, off: nat, tag: Tag, simple: bool, skipped: Skipped, version: nat, tables: ItemTables)
    requires tag.EarTag? && TagOk(tag, simple, version, tables) && Lies(bits, off, WriteTag(tag, simple, skipped, version, tables))
    requires |skipped.earPad| < 8 && (off + |WriteTag(tag, simple, skipped, version, tables)|) % 8 == 0
    ensures EarPart(bits, off) == Got(tag, off + |WriteTag(tag, simple, skipped, version, tables)|)
  {
    hide Field, Lies, Low, Pow2, Chars, WriteName, AlignUp;
    Powers();
    var name := WriteName(tag.earName, 7);
    LiesApart(bits, off, Low(tag.earClass, 3), Low(tag.earLevel, 7) + (name + skipped.earPad));
    LiesApart(bits, off + 3, Low(tag.earLevel, 7), name + skipped.earPad);
    LiesApart(bits, off + 10, name, skipped.earPad);
    FieldLies(bits, off, tag.earClass, 3);
    FieldLies(bits, off + 3, tag.earLevel, 7);
    NameLies(bits, off + 10, tag.earName, 7);
    Pads(off + 10 + |name|, |skipped.earPad|);
  }

  function WriteHead(head: Head, skipped: Skipped, version: nat, tables: ItemTables): Bitstring
    requires HeadOk(head, skipped, version, tables)
  {
    WriteMark(version)
    + (WriteFlags(head.flags, skipped.gaps)
       + (WritePlace(head.place, skipped.versionPad, version)
          + WriteTag(head.tag, head.flags.simple, skipped, version, tables)))
  }

  predicate HeadOk(head: Head, skipped: Skipped, version: nat, tables: ItemTables) {
    && |skipped.gaps| == 23 && |skipped.versionPad| == 2
    && PlaceOk(head.place, version)
    && (head.flags.isEar <==> head.tag.EarTag?)
    && TagOk(head.tag, head.flags.simple, version, tables)
  }

  /** An ear ends on a byte boundary. */
  predicate HeadAligned(head: Head, skipped: Skipped, version: nat, tables: ItemTables)
    requires HeadOk(head, skipped, version, tables)
  {
    head.flags.isEar ==> |skipped.earPad| < 8 && |WriteHead(head, skipped, version, tables)| % 8 == 0
  }

  lemma HeadLies(bits: Bitstring, head: Head, skipped: Skipped, version: nat, tables: ItemTables)
    requires HeadOk(head, skipped, version, tables) && HeadAligned(head, skipped, version, tables)
    requires Lies(bits, 0, WriteHead(head, skipped, version, tables))
    ensures HeadPart(bits, version, tables) == Got(head, |WriteHead(head, skipped, version, tables)|)
  {
    hide Lies, ItemMark, FlagsPart, PlacePart, EarPart, CodePart, WriteMark, WriteFlags, WritePlace, WriteTag;
    var mark, flags := WriteMark(version), WriteFlags(head.flags, skipped.gaps);
    var place := WritePlace(head.place, skipped.versionPad, version);
    var tag := WriteTag(head.tag, head.flags.simple, skipped, version, tables);
    LiesApart(bits, 0, mark, flags + (place + tag));
    LiesApart(bits, |mark|, flags, place + tag);
    LiesApart(bits, |mark| + 32, place, tag);
    MarkLies(bits, version);
    FlagsLie(bits, |mark|, head.flags, skipped.gaps);
    PlaceLies(bits, |mark| + 32, head.place, skipped.versionPad, version);
    if head.flags.isEar {
      EarTagLies(bits, |mark| + 32 + |place|, head.tag, head.flags.simple, skipped, version, tables);
    } else {
      CodeTagLies(bits, |mark| + 32 + |place|, head.tag, head.flags.simple, skipped, version, tables);
    }
  }

  // ---- The body ----

  lemma OptionLies(bits: Bitstring, off: nat, o: Option<nat>, n: nat)
    requires Lies(bits, off, WriteOption(o, n)) && (o.Some? ==> o.value < Pow2(n))
    ensures Optional(bits, off, n) == Got(o, off + |WriteOption(o, n)|)
  {
    hide Lies, Low, Pow2;
    if o.Some? {
      LiesApart(bits, off, [true], Low(o.value, n));
      OneBitLies(bits, off, true);
      FieldLies(bits, off + 1, o.value, n);
    } else {
      OneBitLies(bits, off, false);
    }
  }

  lemma OneBitLies(bits: Bitstring, off: nat, b: bool)
    requires Lies(bits, off, [b])
    ensures Field(bits, off, 1) == Got(if b then 1 else 0, off + 1)
  {
    assert bits[off..off + 1] == [b];
    assert ToNat([b][1..]) == 0;
  }

  predicate OptionOk(o: Option<nat>, limit: nat) {
    o.Some? ==> o.value < limit
  }

  function WriteIdentity(identity: Identity, skipped: Skipped): Bitstring {
    Low(identity.id, 32)
    + (Low(identity.level, 7) + (Low(identity.quality, 4) + (WriteOption(skipped.picture, 3) + WriteOption(skipped.classBits, 11))))
  }

  predicate IdentityOk(identity: Identity, skipped: Skipped) {
    && identity.id < 0x1_0000_0000 && identity.level < 128 && identity.quality < 16
    && OptionOk(skipped.picture, 8) && OptionOk(skipped.classBits, 2048)
  }

  lemma IdentityLies(bits: Bitstring, off: nat, identity: Identity, skipped: Skipped)
    requires IdentityOk(identity, skipped) && Lies(bits, off, WriteIdentity(identity, skipped))
    ensures IdentityPart(bits, off) == Got(identity, off + |WriteIdentity(identity, skipped)|)
  {
    hide Lies, Low, Pow2, Field, Optional, WriteOption;
    Powers();
    var picture, classBits := WriteOption(skipped.picture, 3), WriteOption(skipped.classBits, 11);
    var quality := Low(identity.quality, 4) + (picture + classBits);
    LiesApart(bits, off, Low(identity.id, 32), Low(identity.level, 7) + quality);
    LiesApart(bits, off + 32, Low(identity.level, 7), quality);
    LiesApart(bits, off + 39, Low(identity.quality, 4), picture + classBits);
    LiesApart(bits, off + 43, picture, classBits);
    FieldLies(bits, off, identity.id, 32);
    FieldLies(bits, off + 32, identity.level, 7);
    FieldLies(bits, off + 39, identity.quality, 4);
    OptionLies(bits, off + 43, skipped.picture, 3);
    OptionLies(bits, off + 43 + |picture|, skipped.classBits, 11);
  }

  /** Qualities: 1 low, 2 normal, 3 high, 4 magical, 5 set, 6 rare, 7 unique, 8 crafted. */
  function WriteAffixes(quality: nat, a: Affixes, skipped: Skipped): Bitstring
    requires AffixesOk(quality, a, skipped)
  {
    match quality
    case 1 => Low(skipped.grade, 3)
    case 2 => WriteTwelve(skipped.twelve)
    case 3 => Low(skipped.grade, 3)
    case 4 => Low(a.prefix, 11) + Low(a.suffix, 11)
    case 5 => Low(a.setID, 12)
    case 6 => Low(a.rareNames[0], 8) + (Low(a.rareNames[1], 8) + WriteOptions(skipped.rares, 11))
    case 7 => Low(a.uniqueID, 12)
    case 8 => Low(a.rareNames[0], 8) + (Low(a.rareNames[1], 8) + WriteOptions(skipped.rares, 11))
    case _ => []
  }

  function WriteTwelve(t: Twelve): Bitstring {
    match t
    case Absent => []
    case Clear => Low(0, 12)
    case Set => Low(0xfff, 12)
  }

  /** Only the fields of the quality are there; the others keep their zero. */
  predicate AffixesOk(quality: nat, a: Affixes, skipped: Skipped) {
    match quality
    case 1 => skipped.grade < 8 && a == Affixes(0, 0, 0, 0, [])
    case 3 => skipped.grade < 8 && a == Affixes(0, 0, 0, 0, [])
    case 4 => a.prefix < 2048 && a.suffix < 2048 && a == Affixes(a.prefix, a.suffix, 0, 0, [])
    case 5 => a.setID < 4096 && a == Affixes(0, 0, a.setID, 0, [])
    case 6 => RareOk(a, skipped)
    case 7 => a.uniqueID < 4096 && a == Affixes(0, 0, 0, a.uniqueID, [])
    case 8 => RareOk(a, skipped)
    case _ => a == Affixes(0, 0, 0, 0, [])
  }

  predicate RareOk(a: Affixes, skipped: Skipped) {
    && |a.rareNames| == 2 && a.rareNames[0] < 256 && a.rareNames[1] < 256 && a == Affixes(0, 0, 0, 0, a.rareNames)
    && |skipped.rares| == 6 && (forall i :: 0 <= i < 6 ==> OptionOk(skipped.rares[i], 2048))
  }

  lemma {:induction false} OptionsLie(bits: Bitstring, off: nat, os: seq<Option<nat>>)
    requires Lies(bits, off, WriteOptions(os, 11)) && (forall i :: 0 <= i < |os| ==> OptionOk(os[i], 2048))
    ensures RareAffixes(bits, off, |os|) == Got((), off + |WriteOptions(os, 11)|)
    decreases |os|
  {
    hide Lies, Low, Pow2, Optional, WriteOption;
    Powers();
    if os != [] {
      LiesApart(bits, off, WriteOption(os[0], 11), WriteOptions(os[1..], 11));
      OptionLies(bits, off, os[0], 11);
      OptionsLie(bits, off + |WriteOption(os[0], 11)|, os[1..]);
    }
  }

  /** Where nothing was written of the twelve bits, what follows is neither all clear nor all set. */
  predicate Mixed(bits: Bitstring, off: nat) {
    off + 12 <= |bits| && bits[off..off + 12] != Low(0, 12) && bits[off..off + 12] != Low(0xfff, 12)
  }

  lemma MixedValue(bits: Bitstring, off: nat)
    requires Mixed(bits, off)
    ensures Speculative(bits, off) == Got((), off)
  {
    hide Low, ToNat;
    LowOfToNat(bits[off..off + 12]);
  }

  lemma TwelveLies(bits: Bitstring, off: nat, t: Twelve)
    requires Lies(bits, off, WriteTwelve(t)) && (t == Absent ==> Mixed(bits, off))
    ensures Speculative(bits, off) == Got((), off + |WriteTwelve(t)|)
  {
    hide Low, Pow2, Field, Lies, Mixed;
    Powers();
    match t
    case Absent => MixedValue(bits, off);
    case Clear => FieldLies(bits, off, 0, 12);
    case Set => FieldLies(bits, off, 0xfff, 12);
  }

  lemma RareLies(bits: Bitstring, off: nat, a: Affixes, skipped: Skipped)
    requires RareOk(a, skipped)
    requires Lies(bits, off, Low(a.rareNames[0], 8) + (Low(a.rareNames[1], 8) + WriteOptions(skipped.rares, 11)))
    ensures Field(bits, off, 8) == Got(a.rareNames[0], off + 8) && Field(bits, off + 8, 8) == Got(a.rareNames[1], off + 16)
    ensures RareAffixes(bits, off + 16, 6) == Got((), off + 16 + |WriteOptions(skipped.rares, 11)|)
    ensures a == NO_AFFIXES.(rareNames := [a.rareNames[0], a.rareNames[1]])
  {
    hide Lies, Low, Pow2, Field, RareAffixes, WriteOptions;
    Powers();
    var rares := WriteOptions(skipped.rares, 11);
    LiesApart(bits, off, Low(a.rareNames[0], 8), Low(a.rareNames[1], 8) + rares);
    LiesApart(bits, off + 8, Low(a.rareNames[1], 8), rares);
    FieldLies(bits, off, a.rareNames[0], 8);
    FieldLies(bits, off + 8, a.rareNames[1], 8);
    OptionsLie(bits, off + 16, skipped.rares);
    assert [a.rareNames[0], a.rareNames[1]] == a.rareNames;
  }

  lemma AffixesLie(bits: Bitstring, off: nat, quality: nat, a: Affixes, skipped: Skipped)
    requires AffixesOk(quality, a, skipped) && Lies(bits, off, WriteAffixes(quality, a, skipped))
    requires quality == 2 && skipped.twelve == Absent ==> Mixed(bits, off)
    ensures QualityPart(bits, off, quality) == Got(a, off + |WriteAffixes(quality, a, skipped)|)
  {
    hide Lies, Low, Pow2, Field, RareAffixes, WriteOptions, Speculative, Mixed, WriteTwelve;
    Powers();
    match quality
    case 1 => FieldLies(bits, off, skipped.grade, 3);
    case 2 => TwelveLies(bits, off, skipped.twelve);
    case 3 => FieldLies(bits, off, skipped.grade, 3);
    case 4 =>
      LiesApart(bits, off, Low(a.prefix, 11), Low(a.suffix, 11));
      FieldLies(bits, off, a.prefix, 11);
      FieldLies(bits, off + 11, a.suffix, 11);
    case 5 => FieldLies(bits, off, a.setID, 12);
    case 6 => RareLies(bits, off, a, skipped);
    case 7 => FieldLies(bits, off, a.uniqueID, 12);
    case 8 => RareLies(bits, off, a, skipped);
    case _ =>
  }

  // ---- Owner, wear and counts ----

  lemma PresentLies(bits: Bitstring, off: nat, present: bool, v: nat, n: nat)
    requires Lies(bits, off, if present then Low(v, n) else []) && v < (if present then Pow2(n) else 1)
    ensures (if present then Field(bits, off, n) else Got(0, off)) == Got(v, off + |if present then Low(v, n) else []|)
  {
    hide Lies, Low, Pow2, Field;
    if present {
      FieldLies(bits, off, v, n);
    }
  }

  function WriteOwner(owner: Owner, flags: Flags, tome: bool, skipped: Skipped, version: nat): Bitstring {
    (if flags.runeword then Low(owner.runewordID, 12) + Low(skipped.runewordBits, 4) else [])
    + ((if flags.personalized then WriteName(owner.personalName, if version >= 0x61 then 8 else 7) else [])
       + ((if tome then Low(skipped.tomeBits, 5) else []) + [skipped.timestamp]))
  }

  predicate OwnerOk(owner: Owner, flags: Flags, skipped: Skipped, version: nat) {
    && owner.runewordID < (if flags.runeword then 4096 else 1)
    && (if flags.personalized then NameOk(owner.personalName, if version >= 0x61 then 256 else 128) else owner.personalName == [])
    && skipped.runewordBits < 16 && skipped.tomeBits < 32
  }

  lemma RunewordLies(bits: Bitstring, off: nat, owner: Owner, flags: Flags, skipped: Skipped, version: nat)
    requires OwnerOk(owner, flags, skipped, version)
    requires Lies(bits, off, if flags.runeword then Low(owner.runewordID, 12) + Low(skipped.runewordBits, 4) else [])
    ensures flags.runeword ==>
      Field(bits, off, 12) == Got(owner.runewordID, off + 12) && Field(bits, off + 12, 4) == Got(skipped.runewordBits, off + 16)
  {
    hide Lies, Low, Pow2, Field;
    Powers();
    if flags.runeword {
      LiesApart(bits, off, Low(owner.runewordID, 12), Low(skipped.runewordBits, 4));
      FieldLies(bits, off, owner.runewordID, 12);
      FieldLies(bits, off + 12, skipped.runewordBits, 4);
    }
  }

  lemma OwnerNameLies(bits: Bitstring, off: nat, owner: Owner, flags: Flags, skipped: Skipped, version: nat)
    requires OwnerOk(owner, flags, skipped, version) && flags.personalized
    requires Lies(bits, off, WriteName(owner.personalName, if version >= 0x61 then 8 else 7))
    ensures Chars(bits, off, if version >= 0x61 then 8 else 7)
         == Got(owner.personalName, off + |WriteName(owner.personalName, if version >= 0x61 then 8 else 7)|)
  {
    hide Lies, Low, Pow2, Field, WriteName, Chars;
    Powers();
    NameLies(bits, off, owner.personalName, if version >= 0x61 then 8 else 7);
  }

  lemma OwnerLies(bits: Bitstring, off: nat, owner: Owner, flags: Flags, tome: bool, skipped: Skipped, version: nat)
    requires OwnerOk(owner, flags, skipped, version) && Lies(bits, off, WriteOwner(owner, flags, tome, skipped, version))
    ensures OwnerPart(bits, off, flags, tome, version) == Got(owner, off + |WriteOwner(owner, flags, tome, skipped, version)|)
  {
    hide Lies, Low, Pow2, Field, WriteName, Chars, NameOk;
    Powers();
    var word := if flags.runeword then Low(owner.runewordID, 12) + Low(skipped.runewordBits, 4) else [];
    var name := if flags.personalized then WriteName(owner.personalName, if version >= 0x61 then 8 else 7) else [];
    var tomes := if tome then Low(skipped.tomeBits, 5) else [];
    var o1 := off + |word|;
    var o2 := o1 + |name|;
    LiesApart(bits, off, word, name + (tomes + [skipped.timestamp]));
    LiesApart(bits, o1, name, tomes + [skipped.timestamp]);
    LiesApart(bits, o2, tomes, [skipped.timestamp]);
    RunewordLies(bits, off, owner, flags, skipped, version);
    if flags.personalized {
      OwnerNameLies(bits, o1, owner, flags, skipped, version);
    }
    if tome {
      FieldLies(bits, o2, skipped.tomeBits, 5);
    }
    OneBitLies(bits, o2 + |tomes|, skipped.timestamp);
  }

  /** Armor and shields have a defense, stored 10 too high; those and weapons a
      durability, of which the current one is stored only below a maximum that is not zero. */
  function WriteWear(wear: Wear, code: string, tables: ItemTables): Bitstring
    requires WearOk(wear, code, tables)
  {
    (if Defends(code, tables) then Low(wear.defense + 10, 11) else [])
    + (if Wears(code, tables) then Low(wear.maxDurability, 8) + (if wear.maxDurability > 0 then Low(wear.curDurability, 9) else []) else [])
  }

  predicate Defends(code: string, tables: ItemTables) {
    code in tables.armor || code in tables.shields
  }

  predicate Wears(code: string, tables: ItemTables) {
    Defends(code, tables) || code in tables.weapons
  }

  predicate WearOk(wear: Wear, code: string, tables: ItemTables) {
    && (if Defends(code, tables) then -10 <= wear.defense < 2038 else wear.defense == 0)
    && wear.maxDurability < (if Wears(code, tables) then 256 else 1)
    && wear.curDurability < (if Wears(code, tables) && wear.maxDurability > 0 then 512 else 1)
  }

  lemma WearLies(bits: Bitstring, off: nat, wear: Wear, code: string, tables: ItemTables)
    requires WearOk(wear, code, tables) && Lies(bits, off, WriteWear(wear, code, tables))
    ensures WearPart(bits, off, TypeOf(tables, code)) == Got(wear, off + |WriteWear(wear, code, tables)|)
  {
    hide Lies, Low, Pow2, Field;
    Powers();
    var defense := if Defends(code, tables) then Low(wear.defense + 10, 11) else [];
    var current := if wear.maxDurability > 0 then Low(wear.curDurability, 9) else [];
    var durability := if Wears(code, tables) then Low(wear.maxDurability, 8) + current else [];
    LiesApart(bits, off, defense, durability);
    if Defends(code, tables) {
      FieldLies(bits, off, wear.defense + 10, 11);
    }
    if Wears(code, tables) {
      LiesApart(bits, off + |defense|, Low(wear.maxDurability, 8), current);
      FieldLies(bits, off + |defense|, wear.maxDurability, 8);
      if wear.maxDurability > 0 {
        FieldLies(bits, off + |defense| + 8, wear.curDurability, 9);
      }
    }
  }

  function WriteCounts(counts: Counts, stacked: bool, socketed: bool, quality: nat, skipped: Skipped, version: nat): Bitstring {
    (if stacked then Low(counts.quantity, 9) else [])
    + ((if version >= 0x69 then [skipped.early] else [])
       + ((if socketed then Low(counts.sockets, 4) else []) + (if quality == 5 then Low(counts.setFlags, 5) else [])))
  }

  predicate CountsOk(counts: Counts, stacked: bool, socketed: bool, quality: nat) {
    && counts.quantity < (if stacked then 512 else 1)
    && counts.sockets < (if socketed then 16 else 1)
    && counts.setFlags < (if quality == 5 then 32 else 1)
  }

  lemma CountsLie(bits: Bitstring, off: nat, counts: Counts, stacked: bool, socketed: bool, quality: nat, skipped: Skipped, version: nat)
    requires CountsOk(counts, stacked, socketed, quality)
    requires Lies(bits, off, WriteCounts(counts, stacked, socketed, quality, skipped, version))
    ensures CountsPart(bits, off, stacked, socketed, quality == QUALITY_SET, version)
         == Got(counts, off + |WriteCounts(counts, stacked, socketed, quality, skipped, version)|)
  {
    hide Lies, Low, Pow2, Field;
    Powers();
    var quantity := if stacked then Low(counts.quantity, 9) else [];
    var early := if version >= 0x69 then [skipped.early] else [];
    var sockets := if socketed then Low(counts.sockets, 4) else [];
    var setFlags := if quality == 5 then Low(counts.setFlags, 5) else [];
    var o1 := off + |quantity|;
    var o2 := o1 + |early|;
    LiesApart(bits, off, quantity, early + (sockets + setFlags));
    LiesApart(bits, o1, early, sockets + setFlags);
    LiesApart(bits, o2, sockets, setFlags);
    PresentLies(bits, off, stacked, counts.quantity, 9);
    if version >= 0x69 {
      OneBitLies(bits, o1, skipped.early);
    }
    PresentLies(bits, o2, socketed, counts.sockets, 4);
    PresentLies(bits, o2 + |sockets|, quality == 5, counts.setFlags, 5);
  }

  function WriteBody(b: Body, flags: Flags, code: string, skipped: Skipped, version: nat, tables: ItemTables): Bitstring
    requires BodyOk(b, flags, code, skipped, version, tables)
  {
    WriteIdentity(b.identity, skipped)
    + (WriteAffixes(b.identity.quality, b.affixes, skipped)
       + (WriteOwner(b.owner, flags, code in tables.tomes, skipped, version)
          + (WriteWear(b.wear, code, tables)
             + WriteCounts(b.counts, code in tables.stacks, flags.socketed, b.identity.quality, skipped, version))))
  }

  predicate BodyOk(b: Body, flags: Flags, code: string, skipped: Skipped, version: nat, tables: ItemTables) {
    && IdentityOk(b.identity, skipped) && AffixesOk(b.identity.quality, b.affixes, skipped)
    && OwnerOk(b.owner, flags, skipped, version) && WearOk(b.wear, code, tables)
    && CountsOk(b.counts, code in tables.stacks, flags.socketed, b.identity.quality)
  }

  lemma BodyLies(bits: Bitstring, off: nat, b: Body, flags: Flags, code: string, skipped: Skipped, version: nat, tables: ItemTables)
    requires BodyOk(b, flags, code, skipped, version, tables)
    requires Lies(bits, off, WriteBody(b, flags, code, skipped, version, tables))
    requires b.identity.quality == 2 && skipped.twelve == Absent ==> Mixed(bits, off + |WriteIdentity(b.identity, skipped)|)
    ensures BodyPart(bits, off, flags, code, version, tables) == Got(b, off + |WriteBody(b, flags, code, skipped, version, tables)|)
  {
    hide Lies, Mixed, WriteIdentity, WriteAffixes, WriteOwner, WriteWear, WriteCounts, IdentityPart, QualityPart, OwnerPart, WearPart, CountsPart,
      TypeOf, AffixesOk, OwnerOk, WearOk, CountsOk, IdentityOk;
    var identity, affixes := WriteIdentity(b.identity, skipped), WriteAffixes(b.identity.quality, b.affixes, skipped);
    var owner, wear := WriteOwner(b.owner, flags, code in tables.tomes, skipped, version), WriteWear(b.wear, code, tables);
    var counts := WriteCounts(b.counts, code in tables.stacks, flags.socketed, b.identity.quality, skipped, version);
    var o1 := off + |identity|;
    var o2 := o1 + |affixes|;
    var o3 := o2 + |owner|;
    LiesApart(bits, off, identity, affixes + (owner + (wear + counts)));
    LiesApart(bits, o1, affixes, owner + (wear + counts));
    LiesApart(bits, o2, owner, wear + counts);
    LiesApart(bits, o3, wear, counts);
    IdentityLies(bits, off, b.identity, skipped);
    AffixesLie(bits, o1, b.identity.quality, b.affixes, skipped);
    OwnerLies(bits, o2, b.owner, flags, code in tables.tomes, skipped, version);
    WearLies(bits, o3, b.wear, code, tables);
    CountsLie(bits, o3 + |wear|, b.counts, code in tables.stacks, flags.socketed, b.identity.quality, skipped, version);
  }

  // ---- Property lists ----

  ghost predicate AllWritable(attrs: seq<MagicAttribute>) {
    forall a | a in attrs :: Writable(a)
  }

  ghost function WriteAttributes(attrs: seq<MagicAttribute>): Bitstring
    requires AllWritable(attrs)
  {
    WriteList(attrs)
  }

  lemma ListLies(bits: Bitstring, off: nat, attrs: seq<MagicAttribute>)
    requires AllWritable(attrs) && Lies(bits, off, WriteAttributes(attrs))
    ensures ListAt(bits, off) == Got(attrs, off + |WriteAttributes(attrs)|)
  {
    hide WriteList, ReadList;
    var w := WriteAttributes(attrs);
    var rest := bits[off + |w|..];
    assert bits[off..] == w + rest;
    ReadUndoesWriteList(attrs, rest);
  }

  /** How many bits of `n` are set. */
  function Ones(n: nat): nat {
    if n == 0 then 0 else n % 2 + Ones(n / 2)
  }

  ghost function WriteLists(lists: seq<seq<MagicAttribute>>): Bitstring
    requires forall i :: 0 <= i < |lists| ==> AllWritable(lists[i])
  {
    if lists == [] then []
    else
      assert AllWritable(lists[0]);
      WriteAttributes(lists[0]) + WriteLists(lists[1..])
  }

  lemma {:induction false} SetListsLie(bits: Bitstring, off: nat, flags: nat, lists: seq<seq<MagicAttribute>>)
    requires |lists| == Ones(flags) && (forall i :: 0 <= i < |lists| ==> AllWritable(lists[i]))
    requires Lies(bits, off, WriteLists(lists))
    ensures ListsFor(bits, off, flags) == Got(lists, off + |WriteLists(lists)|)
    decreases flags
  {
    hide Lies, ListAt, WriteAttributes, AllWritable;
    if flags == 0 {
    } else if flags % 2 == 0 {
      SetListsLie(bits, off, flags / 2, lists);
    } else {
      LiesApart(bits, off, WriteAttributes(lists[0]), WriteLists(lists[1..]));
      ListLies(bits, off, lists[0]);
      SetListsLie(bits, off + |WriteAttributes(lists[0])|, flags / 2, lists[1..]);
      assert [lists[0]] + lists[1..] == lists;
    }
  }

  ghost predicate ListsOk(lists: Lists, setFlags: nat, runeword: bool) {
    && AllWritable(lists.magic) && |lists.sets| == Ones(setFlags) && (forall i :: 0 <= i < |lists.sets| ==> AllWritable(lists.sets[i]))
    && AllWritable(lists.runeword) && (!runeword ==> lists.runeword == [])
  }

  /** The item's own properties, a list for every bonus of its set, and its runeword's. */
  ghost function WriteAllLists(lists: Lists, setFlags: nat, runeword: bool): Bitstring
    requires ListsOk(lists, setFlags, runeword)
  {
    WriteAttributes(lists.magic) + (WriteLists(lists.sets) + (if runeword then WriteAttributes(lists.runeword) else []))
  }

  lemma ListsLie(bits: Bitstring, off: nat, lists: Lists, setFlags: nat, runeword: bool)
    requires ListsOk(lists, setFlags, runeword) && Lies(bits, off, WriteAllLists(lists, setFlags, runeword))
    ensures ListsPart(bits, off, setFlags, runeword) == Got(lists, off + |WriteAllLists(lists, setFlags, runeword)|)
  {
    hide Lies, ListAt, ListsFor, WriteAttributes, WriteLists, AllWritable, Ones;
    var magic, sets := WriteAttributes(lists.magic), WriteLists(lists.sets);
    var runes := if runeword then WriteAttributes(lists.runeword) else [];
    LiesApart(bits, off, magic, sets + runes);
    LiesApart(bits, off + |magic|, sets, runes);
    ListLies(bits, off, lists.magic);
    SetListsLie(bits, off + |magic|, setFlags, lists.sets);
    if runeword {
      ListLies(bits, off + |magic| + |sets|, lists.runeword);
    }
  }

  // ---- The item ----

  /** An ear has no code. */
  function CodeOf(tag: Tag): string {
    match tag
    case CodeTag(code, _, _) => code
    case EarTag(_, _, _) => ""
  }

  /** Body and lists, which a simple item does without. */
  ghost predicate ExtendedOk(item: Item, skipped: Skipped, version: nat, tables: ItemTables) {
    if item.head.flags.simple then item.body == None && item.lists == Lists([], [], [])
    else
      && item.body.Some? && BodyOk(item.body.value, item.head.flags, CodeOf(item.head.tag), skipped, version, tables)
      && ListsOk(item.lists, item.body.value.counts.setFlags, item.head.flags.runeword)
  }

  ghost function WriteExtended(item: Item, skipped: Skipped, version: nat, tables: ItemTables): Bitstring
    requires ExtendedOk(item, skipped, version, tables)
  {
    if item.head.flags.simple then []
    else
      WriteBody(item.body.value, item.head.flags, CodeOf(item.head.tag), skipped, version, tables)
      + WriteAllLists(item.lists, item.body.value.counts.setFlags, item.head.flags.runeword)
  }

  /** Realm 3 counts some items of the stash. */
  predicate Counted(item: Item, version: nat, realm: nat, tables: ItemTables) {
    version >= 0x69 && realm == 3 && CodeOf(item.head.tag) in tables.advancedStash
  }

  ghost predicate ItemOk(item: Item, skipped: Skipped, version: nat, realm: nat, tables: ItemTables) {
    && HeadOk(item.head, skipped, version, tables) && HeadAligned(item.head, skipped, version, tables)
    && ExtendedOk(item, skipped, version, tables)
    && item.stashQuantity < (if Counted(item, version, realm, tables) then 256 else 1)
    && item.socketedItems == []
  }

  function WriteEnd(item: Item, skipped: Skipped, version: nat, realm: nat, tables: ItemTables): Bitstring {
    (if version >= 0x69 then [skipped.late] else [])
    + ((if Counted(item, version, realm, tables) then Low(item.stashQuantity, 8) else []) + skipped.endPad)
  }

  ghost function WriteItem(item: Item, skipped: Skipped, version: nat, realm: nat, tables: ItemTables): Bitstring
    requires ItemOk(item, skipped, version, realm, tables)
  {
    WriteHead(item.head, skipped, version, tables)
    + (WriteExtended(item, skipped, version, tables) + WriteEnd(item, skipped, version, realm, tables))
  }

  /** The item is padded to a byte boundary. */
  ghost predicate Aligned(item: Item, skipped: Skipped, version: nat, realm: nat, tables: ItemTables)
    requires ItemOk(item, skipped, version, realm, tables)
  {
    |skipped.endPad| < 8 && |WriteItem(item, skipped, version, realm, tables)| % 8 == 0
  }

  /** A normal item without the twelve bits is not followed by bits that look like them. */
  ghost predicate Unambiguous(bits: Bitstring, item: Item, skipped: Skipped, version: nat, tables: ItemTables)
    requires HeadOk(item.head, skipped, version, tables)
  {
    item.body.Some? && item.body.value.identity.quality == 2 && skipped.twelve == Absent ==>
      Mixed(bits, |WriteHead(item.head, skipped, version, tables)| + |WriteIdentity(item.body.value.identity, skipped)|)
  }

  lemma ExtendedLies(bits: Bitstring, off: nat, item: Item, skipped: Skipped, version: nat, tables: ItemTables)
    requires ExtendedOk(item, skipped, version, tables) && Lies(bits, off, WriteExtended(item, skipped, version, tables))
    requires item.body.Some? && item.body.value.identity.quality == 2 && skipped.twelve == Absent ==>
      Mixed(bits, off + |WriteIdentity(item.body.value.identity, skipped)|)
    ensures ExtendedPart(bits, off, item.head, version, tables)
         == Got(item.(stashQuantity := 0, socketedItems := []), off + |WriteExtended(item, skipped, version, tables)|)
  {
    hide Lies, Mixed, BodyOk, BodyPart, WriteBody, ListsOk, ListsPart, WriteAllLists, WriteIdentity;
    if !item.head.flags.simple {
      var b, code := item.body.value, CodeOf(item.head.tag);
      var body := WriteBody(b, item.head.flags, code, skipped, version, tables);
      LiesApart(bits, off, body, WriteAllLists(item.lists, b.counts.setFlags, item.head.flags.runeword));
      BodyLies(bits, off, b, item.head.flags, code, skipped, version, tables);
      ListsLie(bits, off + |body|, item.lists, b.counts.setFlags, item.head.flags.runeword);
    }
  }

  lemma EndLies(bits: Bitstring, off: nat, item: Item, skipped: Skipped, version: nat, realm: nat, tables: ItemTables)
    requires Lies(bits, off, WriteEnd(item, skipped, version, realm, tables)) && |skipped.endPad| < 8
    requires (off + |WriteEnd(item, skipped, version, realm, tables)|) % 8 == 0
    requires item.stashQuantity < (if Counted(item, version, realm, tables) then 256 else 1)
    ensures
      var o3 := if version >= 0x69 then off + 1 else off;
      var o4 := if Counted(item, version, realm, tables) then o3 + 8 else o3;
      && (version >= 0x69 ==> Field(bits, off, 1) == Got(if skipped.late then 1 else 0, o3))
      && (Counted(item, version, realm, tables) ==> Field(bits, o3, 8) == Got(item.stashQuantity, o4))
      && AlignUp(o4) == off + |WriteEnd(item, skipped, version, realm, tables)|
  {
    hide Lies, Low, Pow2, Field, AlignUp, Counted;
    Powers();
    var late := if version >= 0x69 then [skipped.late] else [];
    var quantity := if Counted(item, version, realm, tables) then Low(item.stashQuantity, 8) else [];
    LiesApart(bits, off, late, quantity + skipped.endPad);
    LiesApart(bits, off + |late|, quantity, skipped.endPad);
    if version >= 0x69 {
      OneBitLies(bits, off, skipped.late);
    }
    if Counted(item, version, realm, tables) {
      FieldLies(bits, off + |late|, item.stashQuantity, 8);
    }
    Pads(off + |late| + |quantity|, |skipped.endPad|);
  }

  /** Reading undoes writing: every item in range, of either format, simple or not, ear or
      coded, of every quality and whatever its skipped bits, is read back field by field,
      and the reader stops at the byte boundary after it. */
  lemma ReadUndoesWriteItem(item: Item, skipped: Skipped, version: nat, realm: nat, tables: ItemTables, rest: Bitstring)
    requires ItemOk(item, skipped, version, realm, tables) && Aligned(item, skipped, version, realm, tables)
    requires Unambiguous(WriteItem(item, skipped, version, realm, tables) + rest, item, skipped, version, tables)
    ensures ReadItem(WriteItem(item, skipped, version, realm, tables) + rest, version, realm, tables)
         == Got(item, |WriteItem(item, skipped, version, realm, tables)|)
  {
    hide Lies, Mixed, HeadOk, HeadAligned, HeadPart, WriteHead, ExtendedOk, ExtendedPart, WriteExtended, WriteEnd, Field, AlignUp, WriteIdentity;
    var head, extended := WriteHead(item.head, skipped, version, tables), WriteExtended(item, skipped, version, tables);
    var end := WriteEnd(item, skipped, version, realm, tables);
    var bits := WriteItem(item, skipped, version, realm, tables) + rest;
    InFront(head + (extended + end), rest);
    LiesApart(bits, 0, head, extended + end);
    LiesApart(bits, |head|, extended, end);
    HeadLies(bits, item.head, skipped, version, tables);
    ExtendedLies(bits, |head|, item, skipped, version, tables);
    EndLies(bits, |head| + |extended|, item, skipped, version, realm, tables);
    CodeSame(item);
  }

  lemma InFront(w: Bitstring, rest: Bitstring)
    ensures Lies(w + rest, 0, w)
  {
  }

  lemma CodeSame(item: Item)
    ensures item.ItemCode() == CodeOf(item.head.tag)
  {
  }
}
