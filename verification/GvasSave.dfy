/** A whole GVAS save: the header, the root property list, and whatever follows. */
module GvasSave {
  import opened Bits
  import opened GvasText
  import opened GvasFormat
  import opened GvasProofs

  const GVAS_MAGIC := 0x5341_5647

  /** Save game version, UE4 package version. */
  const FRONT := [U32, U32]
  /** Engine major, minor, patch, build and branch; custom version format and count. */
  const ENGINE := [U16, U16, U16, U32, Chars, U32, U32]
  const VERSION := GUID + [I32]

  datatype CSave = CSave(front: seq<Atom<FString>>, ue5: seq<Atom<FString>>, engine: seq<Atom<FString>>,
                         versions: seq<Atom<FString>>, saveGameType: FString, reserved: seq<Atom<FString>>,
                         props: CProps)

  /** The number at position `i`. */
  function Number(atoms: seq<Atom<FString>>, i: nat): nat {
    if i < |atoms| && atoms[i].Num? && atoms[i].n >= 0 then atoms[i].n else 0
  }

  function Ue5Shape(saveGameVersion: nat): seq<AtomShape> {
    if saveGameVersion >= 3 && saveGameVersion != 34 then [U32] else []
  }

  function ReservedShape(major: nat, minor: nat): seq<AtomShape> {
    if major > 5 || (major == 5 && minor >= 4) then [U8] else []
  }

  function VersionsShape(engine: seq<Atom<FString>>): seq<AtomShape> {
    Copies(VERSION, Number(engine, 6))
  }

  function ReservedOf(engine: seq<Atom<FString>>): seq<AtomShape> {
    ReservedShape(Number(engine, 0), Number(engine, 1))
  }

  predicate SaveOk(s: CSave) {
    && AtomsOk(s.front, FRONT)
    && AtomsOk(s.ue5, Ue5Shape(Number(s.front, 0)))
    && AtomsOk(s.engine, ENGINE)
    && AtomsOk(s.versions, VersionsShape(s.engine))
    && FStringOk(s.saveGameType)
    && AtomsOk(s.reserved, ReservedOf(s.engine))
    && PropsOk(s.props)
  }

  function PrintSave(s: CSave, extra: seq<byte>): seq<byte> {
    var body := PrintFString(s.saveGameType, PrintAtoms(s.reserved, ReservedOf(s.engine), PrintProps(s.props, extra)));
    PrintWord(GVAS_MAGIC, 4,
              PrintAtoms(s.front, FRONT,
                         PrintAtoms(s.ue5, Ue5Shape(Number(s.front, 0)),
                                    PrintAtoms(s.engine, ENGINE,
                                               PrintAtoms(s.versions, VersionsShape(s.engine), body)))))
  }

  /** Versions, the UE5 package version if any, the engine, the custom versions. */
  type HeaderAtoms = (seq<Atom<FString>>, seq<Atom<FString>>, seq<Atom<FString>>, seq<Atom<FString>>)

  function ReadHeader(b: seq<byte>): Got<HeaderAtoms> {
    var (magic, r0) :- ReadWord(b, 4, false);
    if magic != GVAS_MAGIC then Failed(Malformed)
    else
      var (front, r1) :- ReadAtoms(FRONT, r0);
      var (ue5, r2) :- ReadAtoms(Ue5Shape(Number(front, 0)), r1);
      var (engine, r3) :- ReadAtoms(ENGINE, r2);
      var (versions, r4) :- ReadAtoms(VersionsShape(engine), r3);
      Got((front, ue5, engine, versions), r4)
  }

  function ReadBody(engine: seq<Atom<FString>>, b: seq<byte>): Got<(FString, seq<Atom<FString>>, CProps)> {
    var (saveGameType, r1) :- ReadFString(b);
    var (reserved, r2) :- ReadAtoms(ReservedOf(engine), r1);
    var (props, r3) :- ReadProps(r2);
    Got((saveGameType, reserved, props), r3)
  }

  function ReadSave(b: seq<byte>): Got<CSave> {
    var (h, r1) :- ReadHeader(b);
    var (body, extra) :- ReadBody(h.2, r1);
    Got(CSave(h.0, h.1, h.2, h.3, body.0, body.1, body.2), extra)
  }

  /** Every save within the limits is read back from its serialization, and the
      bytes after it are what is left over. */
  lemma ReadPrintedSave(s: CSave, extra: seq<byte>)
    requires SaveOk(s)
    ensures ReadSave(PrintSave(s, extra)) == Got(s, extra)
  {
    hide ReadWord, PrintWord, ReadAtoms, PrintAtoms, AtomsOk, ReadFString, PrintFString, FStringOk, ReadProps, PrintProps, PropsOk,
      Number, Ue5Shape, ReservedOf, VersionsShape;
    var r3 := PrintProps(s.props, extra);
    var r2 := PrintAtoms(s.reserved, ReservedOf(s.engine), r3);
    var r1 := PrintFString(s.saveGameType, r2);
    var h3 := PrintAtoms(s.versions, VersionsShape(s.engine), r1);
    var h2 := PrintAtoms(s.engine, ENGINE, h3);
    var h1 := PrintAtoms(s.ue5, Ue5Shape(Number(s.front, 0)), h2);
    Pow256Values();
    ReadPrintedWord(GVAS_MAGIC, 4, false, PrintAtoms(s.front, FRONT, h1));
    ReadPrintedAtoms(s.front, FRONT, h1);
    ReadPrintedAtoms(s.ue5, Ue5Shape(Number(s.front, 0)), h2);
    ReadPrintedAtoms(s.engine, ENGINE, h3);
    ReadPrintedAtoms(s.versions, VersionsShape(s.engine), r1);
    ReadPrintedFString(s.saveGameType, r2);
    ReadPrintedAtoms(s.reserved, ReservedOf(s.engine), r3);
    ReadPrintedProps(s.props, extra);
  }

  /** Nothing else is accepted: a file that parses is the serialization of a save
      within the limits, followed by the extra data. */
  lemma PrintReadSave(b: seq<byte>)
    requires ReadSave(b).Got?
    ensures SaveOk(ReadSave(b).value)
    ensures b == PrintSave(ReadSave(b).value, []) + ReadSave(b).rest
  {
    hide ReadWord, PrintWord, ReadAtoms, PrintAtoms, AtomsOk, ReadFString, PrintFString, FStringOk, ReadProps, PrintProps, PropsOk,
      Number, Ue5Shape, ReservedOf, VersionsShape;
    PrintReadWord(b, 4, false);
    var magic := ReadWord(b, 4, false);
    var front := ReadAtoms(FRONT, magic.rest);
    PrintReadAtoms(FRONT, magic.rest);
    PrintReadAtoms(Ue5Shape(Number(front.value, 0)), front.rest);
    var ue5 := ReadAtoms(Ue5Shape(Number(front.value, 0)), front.rest);
    PrintReadAtoms(ENGINE, ue5.rest);
    var engine := ReadAtoms(ENGINE, ue5.rest);
    PrintReadAtoms(VersionsShape(engine.value), engine.rest);
    var versions := ReadAtoms(VersionsShape(engine.value), engine.rest);
    PrintReadFString(versions.rest);
    var name := ReadFString(versions.rest);
    PrintReadAtoms(ReservedOf(engine.value), name.rest);
    var reserved := ReadAtoms(ReservedOf(engine.value), name.rest);
    PrintReadProps(reserved.rest);
    SaveExtends(ReadSave(b).value, [], ReadSave(b).rest);
    assert [] + ReadSave(b).rest == ReadSave(b).rest;
  }

  lemma SaveExtends(s: CSave, a: seq<byte>, t: seq<byte>)
    ensures PrintSave(s, a + t) == PrintSave(s, a) + t
  {
    hide PrintWord, PrintAtoms, PrintFString, PrintProps, Number, Ue5Shape, ReservedOf, VersionsShape;
    PropsExtend(s.props, a, t);
    var r3 := PrintProps(s.props, a);
    AtomsExtend(s.reserved, ReservedOf(s.engine), r3, t);
    var r2 := PrintAtoms(s.reserved, ReservedOf(s.engine), r3);
    FStringExtends(s.saveGameType, r2, t);
    var r1 := PrintFString(s.saveGameType, r2);
    AtomsExtend(s.versions, VersionsShape(s.engine), r1, t);
    var h3 := PrintAtoms(s.versions, VersionsShape(s.engine), r1);
    AtomsExtend(s.engine, ENGINE, h3, t);
    var h2 := PrintAtoms(s.engine, ENGINE, h3);
    AtomsExtend(s.ue5, Ue5Shape(Number(s.front, 0)), h2, t);
    var h1 := PrintAtoms(s.ue5, Ue5Shape(Number(s.front, 0)), h2);
    AtomsExtend(s.front, FRONT, h1, t);
    WordExtends(GVAS_MAGIC, 4, PrintAtoms(s.front, FRONT, h1), t);
  }
}
