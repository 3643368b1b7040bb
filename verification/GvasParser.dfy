/** Parsing a whole save, and what that says of every file. */
module GvasParser {
  import opened Bits
  import opened GvasText
  import opened GvasFormat
  import opened GvasValues
  import opened GvasReader
  import opened GvasSave

  datatype CustomVersion = CustomVersion(guid: seq<Field>, value: int)

  datatype Engine = Engine(major: nat, minor: nat, patch: nat, build: nat, text: GoString)

  datatype Header = Header(saveGameVersion: nat, packageVersionUE4: nat, packageVersionUE5: nat,
                           engine: Engine, customVersions: seq<CustomVersion>)

  datatype Save = Save(header: Header, saveGameType: GoString, properties: seq<Property>, extra: seq<byte>)

  function FieldNumber(fields: seq<Field>, i: nat): nat {
    if i < |fields| && fields[i].Num? && fields[i].n >= 0 then fields[i].n else 0
  }

  function FieldText(fields: seq<Field>, i: nat): GoString {
    if i < |fields| && fields[i].Text? then fields[i].s else []
  }

  function EngineOf(fields: seq<Field>): Engine {
    Engine(FieldNumber(fields, 0), FieldNumber(fields, 1), FieldNumber(fields, 2), FieldNumber(fields, 3), FieldText(fields, 4))
  }

  const VERSION_FIELDS := 11

  function EraseVersions(atoms: seq<Atom<FString>>): seq<CustomVersion> {
    if |atoms| < VERSION_FIELDS then []
    else
      [CustomVersion(EraseAtoms(atoms[..VERSION_FIELDS - 1]), IndexOf(atoms[VERSION_FIELDS - 1..]))]
      + EraseVersions(atoms[VERSION_FIELDS..])
  }

  function HeaderOf(h: HeaderAtoms): Header {
    Header(FieldNumber(EraseAtoms(h.0), 0), FieldNumber(EraseAtoms(h.0), 1), FieldNumber(EraseAtoms(h.1), 0),
           EngineOf(EraseAtoms(h.2)), EraseVersions(h.3))
  }

  function EraseSave(s: CSave, extra: seq<byte>): Save {
    Save(HeaderOf((s.front, s.ue5, s.engine, s.versions)), TextOf(s.saveGameType), EraseProps(s.props), extra)
  }

  // ---- Custom versions ----

  function VersionsOf(n: nat, b: seq<byte>): Got<seq<CustomVersion>> {
    Kept(ReadAtoms(Copies(VERSION, n), b), EraseVersions)
  }

  lemma {:induction false} AtomsConcat(s1: seq<AtomShape>, s2: seq<AtomShape>, b: seq<byte>)
    ensures
      ReadAtoms(s1 + s2, b)
        == (match ReadAtoms(s1, b)
            case Failed(why) => Failed(why)
            case Got(a1, r1) =>
              match ReadAtoms(s2, r1)
              case Failed(why) => Failed(why)
              case Got(a2, r2) => Got(a1 + a2, r2))
    decreases |s1|
  {
    hide ReadAtom;
    if s1 == [] {
      assert s1 + s2 == s2;
      var g := ReadAtoms(s2, b);
      assert g.Got? ==> [] + g.value == g.value;
    } else {
      assert (s1 + s2)[1..] == s1[1..] + s2;
      var first := ReadAtom(s1[0], b);
      if first.Got? {
        AtomsConcat(s1[1..], s2, first.rest);
        var g1 := ReadAtoms(s1[1..], first.rest);
        if g1.Got? {
          var g2 := ReadAtoms(s2, g1.rest);
          assert g2.Got? ==> [first.value] + (g1.value + g2.value) == ([first.value] + g1.value) + g2.value;
        }
      }
    }
  }

  function ReadVersion(b: seq<byte>): Got<CustomVersion> {
    var (guid, r1) :- ReadAtoms(GUID, b);
    var (value, r2) :- ReadWord(r1, 4, true);
    Got(CustomVersion(EraseAtoms(guid), value), r2)
  }

  lemma OneVersion(b: seq<byte>)
    ensures
      var g := ReadAtoms(VERSION, b);
      && (g.Failed? ==> ReadVersion(b) == Failed(g.why))
      && (g.Got? ==>
            ReadVersion(b)
              == Got(CustomVersion(EraseAtoms(g.value[..VERSION_FIELDS - 1]), IndexOf(g.value[VERSION_FIELDS - 1..])), g.rest))
  {
    AtomsConcat(GUID, [I32], b);
    hide EraseAtoms, ReadWord;
    var guid := ReadAtoms(GUID, b);
    if guid.Got? {
      var word := ReadWord(guid.rest, 4, true);
      var last := ReadAtoms([I32], guid.rest);
      assert word.Failed? ==> last == Failed(word.why);
      if word.Got? {
        assert ReadAtoms([I32][1..], word.rest) == Got([], word.rest);
        assert last == Got([Num(word.value)] + [], word.rest);
        assert (guid.value + last.value)[..VERSION_FIELDS - 1] == guid.value;
        assert (guid.value + last.value)[VERSION_FIELDS - 1..] == last.value;
      }
    }
  }

  lemma VersionsStep(n: nat, b: seq<byte>)
    ensures n == 0 ==> VersionsOf(n, b) == Got([], b)
    ensures n > 0 ==>
      VersionsOf(n, b)
        == (match ReadVersion(b)
            case Failed(why) => Failed(why)
            case Got(v, r1) => Onto([v], VersionsOf(n - 1, r1)))
  {
    hide ReadAtoms, EraseAtoms, ReadVersion, IndexOf;
    if n > 0 {
      AtomsConcat(VERSION, Copies(VERSION, n - 1), b);
      OneVersion(b);
      var first := ReadAtoms(VERSION, b);
      if first.Got? {
        var more := ReadAtoms(Copies(VERSION, n - 1), first.rest);
        if more.Got? {
          assert (first.value + more.value)[VERSION_FIELDS..] == more.value;
          assert (first.value + more.value)[..VERSION_FIELDS - 1] == first.value[..VERSION_FIELDS - 1];
          IndexOfFirst(first.value + more.value, first.value);
        }
      }
    } else {
      NoAtoms(b);
    }
  }

  lemma NoAtoms(b: seq<byte>)
    ensures ReadAtoms([], b) == Got([], b)
  {
  }

  lemma IndexOfFirst(all: seq<Atom<FString>>, first: seq<Atom<FString>>)
    requires |first| == VERSION_FIELDS && first <= all
    ensures IndexOf(all[VERSION_FIELDS - 1..]) == IndexOf(first[VERSION_FIELDS - 1..])
  {
  }

  method ReadCustomVersions(rd: Reader, count: nat) returns (r: Outcome<seq<CustomVersion>>)
    requires rd.Valid()
    modifies rd
    ensures rd.Agrees(VersionsOf(count, old(rd.Rest())), r)
  {
    hide VersionsOf, ReadAtoms, EraseAtoms, ReadWord;
    var versions: seq<CustomVersion> := [];
    OntoFacts(versions, CustomVersion([], 0), VersionsOf(count, rd.Rest()));
    for i := 0 to count
      invariant rd.Valid()
      invariant VersionsOf(count, old(rd.Rest())) == Onto(versions, VersionsOf(count - i, rd.Rest()))
    {
      VersionsStep(count - i, rd.Rest());
      var guid :- rd.ReadFields(GUID);
      var value :- rd.ReadNumber(4, true);
      OntoFacts(versions, CustomVersion(guid, value), VersionsOf(count - i - 1, rd.Rest()));
      versions := versions + [CustomVersion(guid, value)];
    }
    VersionsStep(0, rd.Rest());
    OntoFacts(versions, CustomVersion([], 0), VersionsOf(0, rd.Rest()));
    return Ok(versions);
  }

  // ---- The whole file ----

  lemma NumbersKept(atoms: seq<Atom<FString>>, i: nat)
    ensures FieldNumber(EraseAtoms(atoms), i) == Number(atoms, i)
  {
    if i < |atoms| {
      assert EraseAtoms(atoms)[i] == EraseAtom(atoms[i]);
    }
  }

  method ReadSaveHeader(rd: Reader) returns (r: Outcome<Header>, ghost engine: seq<Atom<FString>>)
    requires rd.Valid()
    modifies rd
    ensures rd.Agrees(Kept(ReadHeader(old(rd.Rest())), HeaderOf), r)
    ensures r.Ok? ==> engine == ReadHeader(old(rd.Rest())).value.2
  {
    hide ReadAtoms, EraseAtoms, ReadWord, EraseVersions, EngineOf, FieldNumber, Number, VERSION, Copies, Ue5Shape;
    engine := [];
    ghost var b := rd.Rest();
    ghost var g := ReadWord(b, 4, false);
    var magic := rd.ReadNumber(4, false);
    if magic.Err? || magic.value != GVAS_MAGIC {
      return Err(if magic.Err? then magic.why else Malformed), engine;
    }
    ghost var front0 := ReadAtoms(FRONT, rd.Rest());
    var front := rd.ReadFields(FRONT);
    if front.Err? {
      return Err(front.why), engine;
    }
    NumbersKept(front0.value, 0);
    ghost var ue50 := ReadAtoms(Ue5Shape(FieldNumber(front.value, 0)), rd.Rest());
    var ue5 := rd.ReadFields(Ue5Shape(FieldNumber(front.value, 0)));
    if ue5.Err? {
      return Err(ue5.why), engine;
    }
    ghost var engine0 := ReadAtoms(ENGINE, rd.Rest());
    var fields := rd.ReadFields(ENGINE);
    if fields.Err? {
      return Err(fields.why), engine;
    }
    engine := engine0.value;
    NumbersKept(engine, 6);
    var versions := ReadCustomVersions(rd, FieldNumber(fields.value, 6));
    if versions.Err? {
      return Err(versions.why), engine;
    }
    return Ok(Header(FieldNumber(front.value, 0), FieldNumber(front.value, 1), FieldNumber(ue5.value, 0),
                     EngineOf(fields.value), versions.value)), engine;
  }

  function BodyOf(body: (FString, seq<Atom<FString>>, CProps)): (GoString, seq<Property>) {
    (TextOf(body.0), EraseProps(body.2))
  }

  method ReadSaveBody(rd: Reader, engine: Engine, ghost atoms: seq<Atom<FString>>)
    returns (r: Outcome<(GoString, seq<Property>)>)
    requires rd.Valid() && ReservedShape(engine.major, engine.minor) == ReservedOf(atoms)
    modifies rd
    ensures rd.Agrees(Kept(ReadBody(atoms, old(rd.Rest())), BodyOf), r)
  {
    hide ReadAtoms, EraseAtoms, ReadFString, TextOf, ReadProps, EraseProps, ReservedShape, ReservedOf;
    var saveGameType :- rd.ReadString();
    var _ :- rd.ReadFields(ReservedShape(engine.major, engine.minor));
    var props :- rd.ReadProperties();
    return Ok((saveGameType, props));
  }

  /** What parsing a file comes to. */
  function SaveOf(data: seq<byte>): Outcome<Save> {
    match ReadSave(data)
    case Got(s, extra) => Ok(EraseSave(s, extra))
    case Failed(why) => Err(why)
  }

  lemma SaveParts(data: seq<byte>)
    ensures
      SaveOf(data)
        == (match ReadHeader(data)
            case Failed(why) => Err(why)
            case Got(h, r1) =>
              match ReadBody(h.2, r1)
              case Failed(why) => Err(why)
              case Got(body, extra) => Ok(Save(HeaderOf(h), BodyOf(body).0, BodyOf(body).1, extra)))
  {
    hide HeaderOf, ReadHeader, ReadBody, TextOf, EraseProps;
  }

  method Parse(data: seq<byte>) returns (r: Outcome<Save>)
    ensures r == SaveOf(data)
  {
    hide SaveOf, EraseAtoms, TextOf, EraseProps, ReadHeader, HeaderOf, ReadBody, BodyOf, ReservedShape, ReservedOf;
    SaveParts(data);
    var rd := new Reader(data);
    var header, engine := ReadSaveHeader(rd);
    if header.Err? {
      return Err(header.why);
    }
    SameEngine(engine, header.value, data);
    var body := ReadSaveBody(rd, header.value.engine, engine);
    if body.Err? {
      return Err(body.why);
    }
    return Ok(Save(header.value, body.value.0, body.value.1, rd.data[rd.pos..]));
  }

  lemma SameEngine(engine: seq<Atom<FString>>, header: Header, data: seq<byte>)
    requires ReadHeader(data).Got? && header == HeaderOf(ReadHeader(data).value)
    requires engine == ReadHeader(data).value.2
    ensures ReservedShape(header.engine.major, header.engine.minor) == ReservedOf(engine)
  {
    hide EraseAtoms, Number, ReadHeader;
    NumbersKept(engine, 0);
    NumbersKept(engine, 1);
  }
}
