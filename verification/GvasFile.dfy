/** A whole GVAS file from the bytes of its fields, in the order they are stored. */
module GvasFile {
  import opened Bits
  import opened GvasText
  import opened GvasFormat
  import opened GvasProofs
  import opened GvasValues
  import opened GvasReader
  import opened GvasSave
  import opened GvasParser
  import opened GvasMeaning

  datatype VersionEntry = VersionEntry(guid: Guid, version: int)

  /** The fields ahead of the root property list, as they are stored. */
  datatype Fields = Fields(saveGame: nat, ue4: nat, ue5: nat, major: nat, minor: nat, patch: nat, build: nat,
                           branch: FString, format: nat, versions: seq<VersionEntry>, saveGameType: FString, reserved: byte)

  predicate FieldsOk(h: Fields) {
    && h.saveGame < 0x1_0000_0000 && h.ue4 < 0x1_0000_0000 && h.ue5 < 0x1_0000_0000
    && h.major < 0x1_0000 && h.minor < 0x1_0000 && h.patch < 0x1_0000 && h.build < 0x1_0000_0000
    && FStringOk(h.branch) && h.format < 0x1_0000_0000 && |h.versions| < 0x1_0000_0000 && FStringOk(h.saveGameType)
    && (forall i :: 0 <= i < |h.versions| ==> EntryOk(h.versions[i]))
  }

  predicate EntryOk(e: VersionEntry) {
    GuidOk(e.guid) && -0x8000_0000 <= e.version < 0x8000_0000
  }

  function PrintVersions(vs: seq<VersionEntry>, tail: seq<byte>): seq<byte> {
    if vs == [] then tail else PrintGuid(vs[0].guid, PrintWord(vs[0].version, 4, PrintVersions(vs[1..], tail)))
  }

  /** UE5 files of save game version 3 and up carry its package version; 34 does not. */
  predicate HasUe5(h: Fields) {
    h.saveGame >= 3 && h.saveGame != 34
  }

  /** Engine 5.4 and later leave a byte behind the save game type. */
  predicate HasReserved(h: Fields) {
    h.major > 5 || (h.major == 5 && h.minor >= 4)
  }

  function PrintEngine(h: Fields, tail: seq<byte>): seq<byte> {
    PrintWord(h.major, 2,
              PrintWord(h.minor, 2,
                        PrintWord(h.patch, 2,
                                  PrintWord(h.build, 4,
                                            PrintFString(h.branch, PrintWord(h.format, 4, PrintWord(|h.versions|, 4, tail)))))))
  }

  function PrintFile(h: Fields, b: seq<byte>): seq<byte> {
    var body := PrintFString(h.saveGameType, if HasReserved(h) then [h.reserved] + b else b);
    var engine := PrintEngine(h, PrintVersions(h.versions, body));
    var ue5 := if HasUe5(h) then PrintWord(h.ue5, 4, engine) else engine;
    [0x47, 0x56, 0x41, 0x53] + PrintWord(h.saveGame, 4, PrintWord(h.ue4, 4, ue5))
  }

  function VersionsKept(vs: seq<VersionEntry>): (r: seq<CustomVersion>)
    requires forall i :: 0 <= i < |vs| ==> EntryOk(vs[i])
    ensures |r| == |vs|
  {
    if vs == [] then []
    else
      assert EntryOk(vs[0]);
      [CustomVersion(GuidFields(vs[0].guid), vs[0].version)] + VersionsKept(vs[1..])
  }

  lemma VersionRead(e: VersionEntry, tail: seq<byte>)
    requires EntryOk(e)
    ensures ReadVersion(PrintGuid(e.guid, PrintWord(e.version, 4, tail))) == Got(CustomVersion(GuidFields(e.guid), e.version), tail)
  {
    hide ReadAtoms, PrintAtoms, AtomsOk, EraseAtoms, PrintWord, ReadWord, PrintGuid, GuidFields, GUID;
    Pow256Values();
    var atoms := GuidAtoms(e.guid, PrintWord(e.version, 4, tail));
    ReadPrintedAtoms(atoms, GUID, PrintWord(e.version, 4, tail));
    ReadPrintedWord(e.version, 4, true, tail);
  }

  lemma {:induction false} VersionsRead(vs: seq<VersionEntry>, tail: seq<byte>)
    requires forall i :: 0 <= i < |vs| ==> EntryOk(vs[i])
    ensures VersionsOf(|vs|, PrintVersions(vs, tail)) == Got(VersionsKept(vs), tail)
  {
    hide VersionsOf, ReadVersion, PrintGuid, PrintWord, EntryOk, GuidFields;
    VersionsStep(|vs|, PrintVersions(vs, tail));
    if vs != [] {
      VersionRead(vs[0], PrintVersions(vs[1..], tail));
      VersionsRead(vs[1..], tail);
    }
  }

  lemma EngineAtoms(h: Fields, tail: seq<byte>) returns (atoms: seq<Atom<FString>>)
    requires FieldsOk(h)
    ensures AtomsOk(atoms, ENGINE) && PrintAtoms(atoms, ENGINE, tail) == PrintEngine(h, tail)
    ensures EngineOf(EraseAtoms(atoms)) == Engine(h.major, h.minor, h.patch, h.build, TextOf(h.branch))
    ensures Number(atoms, 0) == h.major && Number(atoms, 1) == h.minor && Number(atoms, 6) == |h.versions|
  {
    hide PrintAtoms, AtomsOk, EraseAtoms, PrintWord, PrintFString, FStringOk, TextOf;
    Pow256Values();
    var a6 := [Num(|h.versions|)];
    OneAtom(a6[0], U32, tail);
    var a5 := [Num(h.format)] + a6;
    NextAtom(Num(h.format), a6, U32, [U32], tail);
    var a4 := [Text(h.branch)] + a5;
    NextAtom(Text(h.branch), a5, Chars, [U32] + [U32], tail);
    var a3 := [Num(h.build)] + a4;
    NextAtom(Num(h.build), a4, U32, [Chars] + ([U32] + [U32]), tail);
    var a2 := [Num(h.patch)] + a3;
    NextAtom(Num(h.patch), a3, U16, [U32] + ([Chars] + ([U32] + [U32])), tail);
    var a1 := [Num(h.minor)] + a2;
    NextAtom(Num(h.minor), a2, U16, [U16] + ([U32] + ([Chars] + ([U32] + [U32]))), tail);
    atoms := [Num(h.major)] + a1;
    NextAtom(Num(h.major), a1, U16, [U16] + ([U16] + ([U32] + ([Chars] + ([U32] + [U32])))), tail);
    assert [U16] + ([U16] + ([U16] + ([U32] + ([Chars] + ([U32] + [U32]))))) == ENGINE;
  }

  lemma FrontRead(h: Fields, tail: seq<byte>)
    requires FieldsOk(h)
    ensures
      var front := ReadAtoms(FRONT, PrintWord(h.saveGame, 4, PrintWord(h.ue4, 4, tail)));
      && front == Got([Num(h.saveGame), Num(h.ue4)], tail)
      && EraseAtoms(front.value) == [Num(h.saveGame), Num(h.ue4)]
  {
    hide ReadAtoms, PrintAtoms, AtomsOk, EraseAtoms, PrintWord;
    Pow256Values();
    TwoWords(h.saveGame, h.ue4, 4, false, tail);
    ReadPrintedAtoms([Num(h.saveGame), Num(h.ue4)], FRONT, tail);
  }

  /** The package version of UE5, when there is one. */
  lemma Ue5Read(h: Fields, tail: seq<byte>)
    requires FieldsOk(h)
    ensures
      var g := ReadAtoms(Ue5Shape(h.saveGame), if HasUe5(h) then PrintWord(h.ue5, 4, tail) else tail);
      g.Got? && g.rest == tail && FieldNumber(EraseAtoms(g.value), 0) == if HasUe5(h) then h.ue5 else 0
  {
    hide ReadAtoms, PrintAtoms, AtomsOk, EraseAtoms, PrintWord;
    Pow256Values();
    if HasUe5(h) {
      OneAtom(Num(h.ue5), U32, tail);
      ReadPrintedAtoms([Num(h.ue5)], [U32], tail);
    } else {
      GvasParser.NoAtoms(tail);
    }
  }

  lemma ReservedRead(h: Fields, b: seq<byte>)
    ensures
      var g := ReadAtoms(ReservedShape(h.major, h.minor), if HasReserved(h) then [h.reserved] + b else b);
      g.Got? && g.rest == b
  {
    hide ReadAtoms, PrintAtoms, AtomsOk, EraseAtoms, PrintWord;
    Pow256Values();
    if HasReserved(h) {
      OneAtom(Num(h.reserved), U8, b);
      ByteWord(h.reserved, b);
      ReadPrintedAtoms([Num(h.reserved)], [U8], b);
    } else {
      GvasParser.NoAtoms(b);
    }
  }

  lemma MagicRead(tail: seq<byte>)
    ensures ReadWord([0x47, 0x56, 0x41, 0x53] + tail, 4, false) == Got(0x5341_5647, tail)
  {
    var b := [0x47, 0x56, 0x41, 0x53] + tail;
    assert b[..4] == [0x47, 0x56, 0x41, 0x53] && b[4..] == tail;
    FourBytes(b[..4]);
  }

  lemma HeaderRead(h: Fields, tail: seq<byte>) returns (atoms: HeaderAtoms)
    requires FieldsOk(h)
    ensures
      var engine := PrintEngine(h, PrintVersions(h.versions, tail));
      var ue5 := if HasUe5(h) then PrintWord(h.ue5, 4, engine) else engine;
      ReadHeader([0x47, 0x56, 0x41, 0x53] + PrintWord(h.saveGame, 4, PrintWord(h.ue4, 4, ue5))) == Got(atoms, tail)
    ensures
      HeaderOf(atoms)
        == Header(h.saveGame, h.ue4, if HasUe5(h) then h.ue5 else 0,
                  Engine(h.major, h.minor, h.patch, h.build, TextOf(h.branch)), VersionsKept(h.versions))
    ensures ReservedOf(atoms.2) == ReservedShape(h.major, h.minor)
  {
    hide ReadAtoms, PrintAtoms, AtomsOk, EraseAtoms, PrintWord, ReadWord, PrintEngine, EngineOf, TextOf, Ue5Shape, HasUe5, Number,
      EraseVersions, PrintVersions, VersionsKept, ReservedShape, Copies, GvasSave.VERSION, ENGINE, FRONT;
    var versions := PrintVersions(h.versions, tail);
    var engine := PrintEngine(h, versions);
    var ue5 := if HasUe5(h) then PrintWord(h.ue5, 4, engine) else engine;
    MagicRead(PrintWord(h.saveGame, 4, PrintWord(h.ue4, 4, ue5)));
    FrontRead(h, ue5);
    FirstNumber(h.saveGame, h.ue4);
    Ue5Read(h, engine);
    var e := EngineAtoms(h, versions);
    ReadPrintedAtoms(e, ENGINE, versions);
    VersionsRead(h.versions, tail);
    var u := ReadAtoms(Ue5Shape(h.saveGame), ue5);
    var v := ReadAtoms(Copies(VERSION, |h.versions|), versions);
    atoms := ([Num(h.saveGame), Num(h.ue4)], u.value, e, v.value);
  }

  lemma FirstNumber(n: nat, m: nat)
    ensures Number([Num(n), Num(m)], 0) == n
    ensures FieldNumber([Num(n), Num(m)], 0) == n && FieldNumber([Num(n), Num(m)], 1) == m
  {
  }

  /** A file is the bytes GVAS, the save game version, the UE4 and perhaps the UE5
      package version, the engine's numbers and branch, the custom versions, the
      save game type and perhaps a reserved byte, and then the root properties:
      parsing it gives every field from its own place, and what is left over. */
  lemma FileRead(h: Fields, b: seq<byte>, props: seq<Property>, extra: seq<byte>)
    requires FieldsOk(h) && ParseProperties(b) == Got(props, extra)
    ensures
      SaveOf(PrintFile(h, b))
        == Ok(Save(Header(h.saveGame, h.ue4, if HasUe5(h) then h.ue5 else 0,
                          Engine(h.major, h.minor, h.patch, h.build, TextOf(h.branch)), VersionsKept(h.versions)),
                   TextOf(h.saveGameType), props, extra))
  {
    hide ReadAtoms, ReadFString, PrintFString, FStringOk, TextOf, PrintWord, PrintEngine, PrintVersions, VersionsKept, ReadProps,
      EraseProps, HeaderOf, ReadHeader, ReservedOf, ReservedShape, SaveOf, HasUe5, HasReserved;
    var reserved := if HasReserved(h) then [h.reserved] + b else b;
    var body := PrintFString(h.saveGameType, reserved);
    var atoms := HeaderRead(h, body);
    ReadPrintedFString(h.saveGameType, reserved);
    ReservedRead(h, b);
    SaveParts(PrintFile(h, b));
  }

  /** Any other four bytes in front are refused. */
  lemma BadMagic(magic: nat, b: seq<byte>)
    requires magic < 0x1_0000_0000 && magic != 0x5341_5647
    ensures SaveOf(PrintWord(magic, 4, b)) == Err(Malformed)
  {
    hide ReadWord, PrintWord;
    Pow256Values();
    ReadPrintedWord(magic, 4, false, b);
  }
}
