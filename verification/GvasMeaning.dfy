/** What each type name stands for, spelled out in bytes: one statement per name,
    and none of them mentions a table that the reader and the printer share. */
module GvasMeaning {
  import opened Bits
  import opened Common
  import opened GvasText
  import opened GvasFormat
  import opened GvasNames
  import opened GvasProofs
  import opened GvasValues

  // ---- Words and strings, byte by byte ----

  /** Least significant byte first, and two's complement below zero. */
  lemma WordBytes(n: int, w: nat, tail: seq<byte>)
    ensures PrintWord(n, 0, tail) == tail
    ensures n >= 0 ==> PrintWord(n, w + 1, tail) == [n % 0x100] + PrintWord(n / 0x100, w, tail)
    ensures -0x8000_0000 <= n < 0 ==> PrintWord(n, 4, tail) == PrintWord(0x1_0000_0000 + n, 4, tail)
    ensures -0x8000_0000_0000_0000 <= n < 0 ==> PrintWord(n, 8, tail) == PrintWord(0x1_0000_0000_0000_0000 + n, 8, tail)
  {
    Pow256Values();
    var u := ToUnsigned(n, w);
    assert LeBytes(u, w + 1) + tail == [u % 0x100] + (LeBytes(u / 0x100, w) + tail);
    assert LeBytes(ToUnsigned(n, 0), 0) + tail == tail;
  }

  lemma ByteWord(n: byte, tail: seq<byte>)
    ensures PrintWord(n, 1, tail) == [n] + tail
  {
    assert LeBytes(n, 1) == [n];
  }

  /** A length and as many bytes, or a negated length and as many UTF-16 units. */
  lemma StringBytes(s: FString, tail: seq<byte>)
    ensures s == Empty ==> PrintFString(s, tail) == PrintWord(0, 4, tail)
    ensures s.Narrow? ==> PrintFString(s, tail) == PrintWord(|s.data|, 4, s.data + tail)
    ensures s.Wide? ==> PrintFString(s, tail) == PrintWord(-|s.units|, 4, UnitBytes(s.units) + tail)
  {
    hide PrintWord, UnitBytes;
  }

  lemma UnitByUnit(u: unit, units: seq<unit>)
    ensures UnitBytes([u] + units) == [u % 0x100, u / 0x100] + UnitBytes(units)
  {
    assert ([u] + units)[1..] == units;
  }

  // ---- Single values, in a property and on their own ----

  /** In a property of any size and flags, or on its own, `b` is the value `v` and then `tail`. */
  ghost predicate Stores(tree: Tree, b: seq<byte>, v: Value, tail: seq<byte>) {
    && (forall size: nat, flags: nat :: Kept(ReadTagged(tree, size, flags, b), EraseValue) == Got(v, tail))
    && Kept(ReadElement(tree, b), EraseValue) == Got(v, tail)
  }

  lemma ScalarStored(tree: Tree, k: ScalarKind, atoms: seq<Atom<FString>>, tail: seq<byte>)
    requires PropertyKindOf(tree.name) == ScalarP(k) || (PropertyKindOf(tree.name) == ByteP && k == ByteKind(tree))
    requires AtomsOk(atoms, Shape(k))
    ensures Stores(tree, PrintAtoms(atoms, Shape(k), tail), Scalar(k, EraseAtoms(atoms)), tail)
  {
    hide PropertyKindOf, Shape, AtomsOk, PrintAtoms, ReadScalar, EraseAtoms;
    ReadPrintedScalar(CScalar(k, atoms), k, tail);
  }

  lemma OneAtom(a: Atom<FString>, shape: AtomShape, tail: seq<byte>)
    ensures PrintAtoms([a], [shape], tail) == PrintAtom(a, shape, tail)
    ensures AtomsOk([a], [shape]) == AtomOk(a, shape)
    ensures EraseAtoms([a]) == [EraseAtom(a)]
  {
    hide PrintAtom, AtomOk, EraseAtom;
    assert [a][1..] == [] && [shape][1..] == [];
  }

  lemma NextAtom(a: Atom<FString>, atoms: seq<Atom<FString>>, shape: AtomShape, shapes: seq<AtomShape>, tail: seq<byte>)
    ensures PrintAtoms([a] + atoms, [shape] + shapes, tail) == PrintAtom(a, shape, PrintAtoms(atoms, shapes, tail))
    ensures AtomsOk([a] + atoms, [shape] + shapes) == (AtomOk(a, shape) && AtomsOk(atoms, shapes))
    ensures EraseAtoms([a] + atoms) == [EraseAtom(a)] + EraseAtoms(atoms)
  {
    hide PrintAtom, AtomOk, EraseAtom;
    assert ([a] + atoms)[1..] == atoms && ([shape] + shapes)[1..] == shapes;
  }

  lemma NumberStored(tree: Tree, k: ScalarKind, n: int, w: nat, signed: bool, tail: seq<byte>)
    requires PropertyKindOf(tree.name) == ScalarP(k) || (PropertyKindOf(tree.name) == ByteP && k == ByteKind(tree))
    requires Shape(k) == [Word(w, signed)] && WordInRange(n, w, signed)
    ensures Stores(tree, PrintWord(n, w, tail), Scalar(k, [Num(n)]), tail)
  {
    hide PropertyKindOf, Shape, WordInRange, Stores, PrintWord;
    OneAtom(Num(n), Word(w, signed), tail);
    ScalarStored(tree, k, [Num(n)], tail);
  }

  /** Numbers: a word of the width the name says, two's complement where it is signed. */
  lemma Numbers(tree: Tree, n: int, tail: seq<byte>)
    ensures tree.name == Lit("IntProperty") && -0x8000_0000 <= n < 0x8000_0000 ==>
      Stores(tree, PrintWord(n, 4, tail), Scalar(IntS, [Num(n)]), tail)
    ensures tree.name == Lit("UInt32Property") && 0 <= n < 0x1_0000_0000 ==>
      Stores(tree, PrintWord(n, 4, tail), Scalar(UInt32S, [Num(n)]), tail)
    ensures tree.name == Lit("Int64Property") && -0x8000_0000_0000_0000 <= n < 0x8000_0000_0000_0000 ==>
      Stores(tree, PrintWord(n, 8, tail), Scalar(Int64S, [Num(n)]), tail)
    ensures tree.name == Lit("UInt64Property") && 0 <= n < 0x1_0000_0000_0000_0000 ==>
      Stores(tree, PrintWord(n, 8, tail), Scalar(UInt64S, [Num(n)]), tail)
    ensures tree.name == Lit("FloatProperty") && 0 <= n < 0x1_0000_0000 ==>
      Stores(tree, PrintWord(n, 4, tail), Scalar(FloatS, [Num(n)]), tail)
    ensures tree.name == Lit("DoubleProperty") && 0 <= n < 0x1_0000_0000_0000_0000 ==>
      Stores(tree, PrintWord(n, 8, tail), Scalar(DoubleS, [Num(n)]), tail)
  {
    hide PropertyKindOf, Stores, PrintWord, Lit;
    NumberKinds();
    Pow256Values();
    var kind := PropertyKindOf(tree.name);
    if kind.ScalarP? && |Shape(kind.kind)| == 1 && Shape(kind.kind)[0].Word? {
      var word := Shape(kind.kind)[0];
      if WordInRange(n, word.width, word.signed) {
        NumberStored(tree, kind.kind, n, word.width, word.signed, tail);
      }
    }
  }

  lemma StringStored(tree: Tree, k: ScalarKind, s: FString, tail: seq<byte>)
    requires PropertyKindOf(tree.name) == ScalarP(k) || (PropertyKindOf(tree.name) == ByteP && k == ByteKind(tree))
    requires Shape(k) == [Chars] && FStringOk(s)
    ensures Stores(tree, PrintFString(s, tail), Scalar(k, [Text(TextOf(s))]), tail)
  {
    hide PropertyKindOf, Shape, FStringOk, Stores, PrintFString, TextOf;
    OneAtom(Text(s), Chars, tail);
    ScalarStored(tree, k, [Text(s)], tail);
  }

  /** Names: one string, whatever the name calls it. */
  lemma Strings(tree: Tree, s: FString, tail: seq<byte>)
    requires FStringOk(s)
    ensures tree.name == Lit("NameProperty") ==> Stores(tree, PrintFString(s, tail), Scalar(NameS, [Text(TextOf(s))]), tail)
    ensures tree.name == Lit("StrProperty") ==> Stores(tree, PrintFString(s, tail), Scalar(StrS, [Text(TextOf(s))]), tail)
    ensures tree.name == Lit("ObjectProperty") ==> Stores(tree, PrintFString(s, tail), Scalar(ObjectS, [Text(TextOf(s))]), tail)
    ensures tree.name == Lit("EnumProperty") ==> Stores(tree, PrintFString(s, tail), Scalar(EnumS, [Text(TextOf(s))]), tail)
  {
    hide PropertyKindOf, FStringOk, Stores, PrintFString, TextOf, Lit;
    StringKinds();
    var kind := PropertyKindOf(tree.name);
    if kind.ScalarP? && Shape(kind.kind) == [Chars] {
      StringStored(tree, kind.kind, s, tail);
    }
  }

  /** A byte is one byte, or the name of an enumerator when the type names an enumeration. */
  lemma Bytes(tree: Tree, n: byte, s: FString, tail: seq<byte>)
    requires tree.name == Lit("ByteProperty") && FStringOk(s)
    ensures tree.children == [] ==> Stores(tree, [n] + tail, Scalar(ByteS, [Num(n)]), tail)
    ensures tree.children != [] ==> Stores(tree, PrintFString(s, tail), Scalar(ByteEnumS, [Text(TextOf(s))]), tail)
  {
    hide PropertyKindOf, FStringOk, Stores, PrintFString, TextOf, Lit;
    FlagKinds();
    Pow256Values();
    if tree.children == [] {
      NumberStored(tree, ByteS, n, 1, false, tail);
      ByteWord(n, tail);
    } else {
      StringStored(tree, ByteEnumS, s, tail);
    }
  }

  /** A soft object is three strings. */
  lemma SoftObjects(tree: Tree, path: FString, package: FString, asset: FString, tail: seq<byte>)
    requires tree.name == Lit("SoftObjectProperty") && FStringOk(path) && FStringOk(package) && FStringOk(asset)
    ensures Stores(tree, PrintFString(path, PrintFString(package, PrintFString(asset, tail))),
                   Scalar(SoftObjectS, [Text(TextOf(path)), Text(TextOf(package)), Text(TextOf(asset))]), tail)
  {
    hide PropertyKindOf, FStringOk, Stores, PrintFString, TextOf, Lit;
    StringKinds();
    var a3 := [Text(asset)];
    var a2 := [Text(package)] + a3;
    OneAtom(Text(asset), Chars, tail);
    NextAtom(Text(package), a3, Chars, [Chars], tail);
    NextAtom(Text(path), a2, Chars, [Chars] + [Chars], tail);
    assert [Chars] + ([Chars] + [Chars]) == Shape(SoftObjectS);
    assert [Text(package)] + [Text(asset)] == [Text(package), Text(asset)];
    ScalarStored(tree, SoftObjectS, [Text(path)] + a2, tail);
    assert EraseAtoms([Text(path)] + a2) == [Text(TextOf(path)), Text(TextOf(package)), Text(TextOf(asset))];
  }

  /** A boolean property is a flag of its tag and takes no bytes; on its own it is
      a byte that is zero or not. */
  lemma Booleans(tree: Tree, size: nat, flags: nat, n: byte, tail: seq<byte>)
    requires tree.name == Lit("BoolProperty")
    ensures Kept(ReadTagged(tree, size, flags, tail), EraseValue) == Got(Bool(flags / 0x04 % 2 == 1), tail)
    ensures Kept(ReadElement(tree, [n] + tail), EraseValue) == Got(Bool(n != 0), tail)
  {
    hide PropertyKindOf, Lit, ReadWord, PrintWord;
    FlagKinds();
    Pow256Values();
    ByteWord(n, tail);
    ReadPrintedWord(n, 1, false, tail);
  }

  /** Not the name of any type the parser knows. */
  predicate Unknown(name: seq<byte>) {
    && name != Lit("IntProperty") && name != Lit("UInt32Property") && name != Lit("Int64Property")
    && name != Lit("UInt64Property") && name != Lit("FloatProperty") && name != Lit("DoubleProperty")
    && name != Lit("BoolProperty") && name != Lit("NameProperty") && name != Lit("StrProperty")
    && name != Lit("ObjectProperty") && name != Lit("EnumProperty") && name != Lit("ByteProperty")
    && name != Lit("SoftObjectProperty") && name != Lit("TextProperty") && name != Lit("StructProperty")
    && name != Lit("ArrayProperty") && name != Lit("MapProperty") && name != Lit("SetProperty")
  }

  lemma UnknownKind(name: seq<byte>)
    requires Unknown(name)
    ensures PropertyKindOf(name) == UnknownP
  {
    hide Lit;
  }

  /** Text and values of unknown types are kept as the `size` bytes of the tag. */
  lemma RawValues(tree: Tree, flags: nat, data: seq<byte>, tail: seq<byte>)
    ensures tree.name == Lit("TextProperty") ==>
      Kept(ReadTagged(tree, |data|, flags, data + tail), EraseValue) == Got(Raw(TextData, [], data), tail)
    ensures Unknown(tree.name) ==>
      Kept(ReadTagged(tree, |data|, flags, data + tail), EraseValue) == Got(Raw(UnknownType, tree.name, data), tail)
  {
    hide PropertyKindOf, Lit, Unknown;
    FlagKinds();
    TakeFront(data, tail);
    if Unknown(tree.name) {
      UnknownKind(tree.name);
    }
  }

  /** Text, containers and unknown types have no untagged form: as elements, keys
      or map values they are refused, whatever bytes follow. */
  lemma RefusedAlone(tree: Tree, b: seq<byte>)
    requires
      || tree.name in [Lit("TextProperty"), Lit("ArrayProperty"), Lit("MapProperty"), Lit("SetProperty")]
      || Unknown(tree.name)
    ensures ReadElement(tree, b) == Failed(Malformed)
  {
    hide PropertyKindOf, Lit, Unknown;
    FlagKinds();
    ContainerKinds();
    if Unknown(tree.name) {
      UnknownKind(tree.name);
    }
  }

  // ---- Structs ----

  predicate IsStruct(tree: Tree, name: seq<byte>) {
    tree.name == Lit("StructProperty") && tree.children != [] && tree.children[0].name == name
  }

  /** In a property without the binary flag, or on its own, `b` is the value `v` and then `tail`. */
  ghost predicate StoresStruct(tree: Tree, b: seq<byte>, v: Value, tail: seq<byte>) {
    && (forall size: nat, flags: nat ::
          flags / 0x10 % 2 == 0 ==> Kept(ReadTagged(tree, size, flags, b), EraseValue) == Got(v, tail))
    && Kept(ReadElement(tree, b), EraseValue) == Got(v, tail)
  }

  lemma StructStored(tree: Tree, v: CValue, tail: seq<byte>)
    requires tree.name == Lit("StructProperty") && StructOk(v, tree)
    ensures StoresStruct(tree, PrintValue(v, tail), EraseValue(v), tail)
  {
    hide PropertyKindOf, StructOk, PrintValue, ReadStruct, EraseValue, Lit, ReadRaw;
    ContainerKinds();
    ReadPrintedStruct(v, tree, tail);
  }

  lemma FixedStored(tree: Tree, name: seq<byte>, k: ScalarKind, atoms: seq<Atom<FString>>, tail: seq<byte>)
    requires IsStruct(tree, name) && StructKindOf(name) == FixedStruct(k) && AtomsOk(atoms, Shape(k))
    ensures StoresStruct(tree, PrintAtoms(atoms, Shape(k), tail), Scalar(k, EraseAtoms(atoms)), tail)
  {
    hide StructKindOf, AtomsOk, PrintAtoms, EraseAtoms, Shape, Lit, StoresStruct;
    StructStored(tree, CScalar(k, atoms), tail);
  }

  lemma TwoWords(x: int, y: int, w: nat, signed: bool, tail: seq<byte>)
    requires WordInRange(x, w, signed) && WordInRange(y, w, signed)
    ensures
      var atoms: seq<Atom<FString>>, shapes := [Num(x), Num(y)], [Word(w, signed), Word(w, signed)];
      && AtomsOk(atoms, shapes) && EraseAtoms(atoms) == [Num(x), Num(y)]
      && PrintAtoms(atoms, shapes, tail) == PrintWord(x, w, PrintWord(y, w, tail))
  {
    hide PrintWord, WordInRange;
    var word := Word(w, signed);
    var ax: Atom<FString> := Num(x);
    var ay: Atom<FString> := Num(y);
    OneAtom(ay, word, tail);
    NextAtom(ax, [ay], word, [word], tail);
    assert [ax] + [ay] == [ax, ay] && [word] + [word] == [word, word];
  }

  lemma MoreWords(x: int, y: int, z: int, t: int, w: nat, tail: seq<byte>)
    requires WordInRange(x, w, false) && WordInRange(y, w, false) && WordInRange(z, w, false) && WordInRange(t, w, false)
    ensures
      var atoms: seq<Atom<FString>>, shapes := [Num(x), Num(y), Num(z)], [Word(w, false), Word(w, false), Word(w, false)];
      && AtomsOk(atoms, shapes) && EraseAtoms(atoms) == [Num(x), Num(y), Num(z)]
      && PrintAtoms(atoms, shapes, tail) == PrintWord(x, w, PrintWord(y, w, PrintWord(z, w, tail)))
    ensures
      var atoms: seq<Atom<FString>>, shapes := [Num(x), Num(y), Num(z), Num(t)], [Word(w, false), Word(w, false), Word(w, false), Word(w, false)];
      && AtomsOk(atoms, shapes) && EraseAtoms(atoms) == [Num(x), Num(y), Num(z), Num(t)]
      && PrintAtoms(atoms, shapes, tail) == PrintWord(x, w, PrintWord(y, w, PrintWord(z, w, PrintWord(t, w, tail))))
  {
    hide PrintWord, WordInRange, AtomsOk, EraseAtoms, PrintAtoms;
    var word := Word(w, false);
    var ax: Atom<FString> := Num(x);
    var ay: Atom<FString> := Num(y);
    var az: Atom<FString> := Num(z);
    var at: Atom<FString> := Num(t);
    TwoWords(y, z, w, false, tail);
    NextAtom(ax, [ay, az], word, [word, word], tail);
    assert [ax] + [ay, az] == [ax, ay, az] && [word] + [word, word] == [word, word, word];
    TwoWords(z, t, w, false, tail);
    NextAtom(ay, [az, at], word, [word, word], tail);
    assert [ay] + [az, at] == [ay, az, at];
    NextAtom(ax, [ay, az, at], word, [word, word, word], tail);
    assert [ax] + [ay, az, at] == [ax, ay, az, at];
    assert [word] + [word, word, word] == [word, word, word, word];
  }

  /** The bits of a double, and of a float. */
  predicate Bits64(n: int) { 0 <= n < 0x1_0000_0000_0000_0000 }
  predicate Bits32(n: int) { 0 <= n < 0x1_0000_0000 }
  predicate Signed32(n: int) { -0x8000_0000 <= n < 0x8000_0000 }

  /** Vectors and rotators are three doubles, quaternions four, and colors four floats. */
  lemma SpatialStructs(tree: Tree, x: int, y: int, z: int, w: int, tail: seq<byte>)
    ensures IsStruct(tree, Lit("Vector")) && Bits64(x) && Bits64(y) && Bits64(z) ==>
      StoresStruct(tree, PrintWord(x, 8, PrintWord(y, 8, PrintWord(z, 8, tail))), Scalar(VectorS, [Num(x), Num(y), Num(z)]), tail)
    ensures IsStruct(tree, Lit("Rotator")) && Bits64(x) && Bits64(y) && Bits64(z) ==>
      StoresStruct(tree, PrintWord(x, 8, PrintWord(y, 8, PrintWord(z, 8, tail))), Scalar(RotatorS, [Num(x), Num(y), Num(z)]), tail)
    ensures IsStruct(tree, Lit("Quat")) && Bits64(x) && Bits64(y) && Bits64(z) && Bits64(w) ==>
      StoresStruct(tree, PrintWord(x, 8, PrintWord(y, 8, PrintWord(z, 8, PrintWord(w, 8, tail)))),
                   Scalar(QuatS, [Num(x), Num(y), Num(z), Num(w)]), tail)
    ensures IsStruct(tree, Lit("LinearColor")) && Bits32(x) && Bits32(y) && Bits32(z) && Bits32(w) ==>
      StoresStruct(tree, PrintWord(x, 4, PrintWord(y, 4, PrintWord(z, 4, PrintWord(w, 4, tail)))),
                   Scalar(LinearColorS, [Num(x), Num(y), Num(z), Num(w)]), tail)
  {
    hide StructKindOf, Lit, StoresStruct, PrintAtoms, AtomsOk, EraseAtoms, PrintWord, IsStruct;
    StructKinds();
    Pow256Values();
    if Bits64(x) && Bits64(y) && Bits64(z) {
      MoreWords(x, y, z, if Bits64(w) then w else 0, 8, tail);
      if IsStruct(tree, Lit("Vector")) {
        FixedStored(tree, Lit("Vector"), VectorS, [Num(x), Num(y), Num(z)], tail);
      }
      if IsStruct(tree, Lit("Rotator")) {
        FixedStored(tree, Lit("Rotator"), RotatorS, [Num(x), Num(y), Num(z)], tail);
      }
      if IsStruct(tree, Lit("Quat")) && Bits64(w) {
        FixedStored(tree, Lit("Quat"), QuatS, [Num(x), Num(y), Num(z), Num(w)], tail);
      }
    }
    if IsStruct(tree, Lit("LinearColor")) && Bits32(x) && Bits32(y) && Bits32(z) && Bits32(w) {
      MoreWords(x, y, z, w, 4, tail);
      FixedStored(tree, Lit("LinearColor"), LinearColorS, [Num(x), Num(y), Num(z), Num(w)], tail);
    }
  }

  /** Points in the plane are two doubles or two signed integers; a date is one unsigned word. */
  lemma PlaneStructs(tree: Tree, x: int, y: int, tail: seq<byte>)
    ensures IsStruct(tree, Lit("Vector2D")) && Bits64(x) && Bits64(y) ==>
      StoresStruct(tree, PrintWord(x, 8, PrintWord(y, 8, tail)), Scalar(Vector2DS, [Num(x), Num(y)]), tail)
    ensures IsStruct(tree, Lit("IntPoint")) && Signed32(x) && Signed32(y) ==>
      StoresStruct(tree, PrintWord(x, 4, PrintWord(y, 4, tail)), Scalar(IntPointS, [Num(x), Num(y)]), tail)
    ensures IsStruct(tree, Lit("DateTime")) && Bits64(x) ==>
      StoresStruct(tree, PrintWord(x, 8, tail), Scalar(DateTimeS, [Num(x)]), tail)
  {
    hide StructKindOf, Lit, StoresStruct, PrintAtoms, AtomsOk, EraseAtoms, PrintWord, IsStruct;
    StructKinds();
    Pow256Values();
    if IsStruct(tree, Lit("Vector2D")) && Bits64(x) && Bits64(y) {
      TwoWords(x, y, 8, false, tail);
      FixedStored(tree, Lit("Vector2D"), Vector2DS, [Num(x), Num(y)], tail);
    }
    if IsStruct(tree, Lit("IntPoint")) && Signed32(x) && Signed32(y) {
      TwoWords(x, y, 4, true, tail);
      FixedStored(tree, Lit("IntPoint"), IntPointS, [Num(x), Num(y)], tail);
    }
    if IsStruct(tree, Lit("DateTime")) && Bits64(x) {
      OneAtom(Num(x), Word(8, false), tail);
      FixedStored(tree, Lit("DateTime"), DateTimeS, [Num(x)], tail);
    }
  }

  /** Two words around eight bytes. */
  datatype Guid = Guid(a: nat, b: seq<byte>, c: seq<byte>, d: nat)

  predicate GuidOk(g: Guid) {
    g.a < 0x1_0000_0000 && |g.b| == |g.c| == 4 && g.d < 0x1_0000_0000
  }

  function PrintGuid(g: Guid, tail: seq<byte>): seq<byte> {
    PrintWord(g.a, 4, g.b + g.c + PrintWord(g.d, 4, tail))
  }

  function GuidFields(g: Guid): seq<Field>
    requires GuidOk(g)
  {
    [Num(g.a), Num(g.b[0]), Num(g.b[1]), Num(g.b[2]), Num(g.b[3]), Num(g.c[0]), Num(g.c[1]), Num(g.c[2]), Num(g.c[3]), Num(g.d)]
  }

  /** Some bytes and a last word, as the atoms they are stored as. */
  function ByteAtoms(bytes: seq<byte>, last: int): (atoms: seq<Atom<FString>>)
    ensures |atoms| == |bytes| + 1
  {
    if bytes == [] then [Num(last)] else [Num(bytes[0])] + ByteAtoms(bytes[1..], last)
  }

  function ByteShapes(n: nat): (shapes: seq<AtomShape>)
    ensures |shapes| == n + 1
  {
    if n == 0 then [U32] else [U8] + ByteShapes(n - 1)
  }

  lemma {:induction false} ByteAtomsPrinted(bytes: seq<byte>, last: int, tail: seq<byte>)
    requires 0 <= last < 0x1_0000_0000
    ensures AtomsOk(ByteAtoms(bytes, last), ByteShapes(|bytes|))
    ensures PrintAtoms(ByteAtoms(bytes, last), ByteShapes(|bytes|), tail) == bytes + PrintWord(last, 4, tail)
    ensures |EraseAtoms(ByteAtoms(bytes, last))| == |bytes| + 1 && EraseAtoms(ByteAtoms(bytes, last))[|bytes|] == Num(last)
    ensures forall i :: 0 <= i < |bytes| ==> EraseAtoms(ByteAtoms(bytes, last))[i] == Num(bytes[i])
  {
    hide PrintWord, PrintAtoms, AtomsOk, EraseAtoms;
    Pow256Values();
    if bytes == [] {
      OneAtom(Num(last), U32, tail);
      assert bytes + PrintWord(last, 4, tail) == PrintWord(last, 4, tail);
    } else {
      var atoms, shapes := ByteAtoms(bytes[1..], last), ByteShapes(|bytes| - 1);
      ByteAtomsPrinted(bytes[1..], last, tail);
      NextAtom(Num(bytes[0]), atoms, U8, shapes, tail);
      ByteWord(bytes[0], PrintAtoms(atoms, shapes, tail));
      assert bytes == [bytes[0]] + bytes[1..];
    }
  }

  lemma GuidAtoms(g: Guid, tail: seq<byte>) returns (atoms: seq<Atom<FString>>)
    requires GuidOk(g)
    ensures AtomsOk(atoms, GUID) && EraseAtoms(atoms) == GuidFields(g)
    ensures PrintAtoms(atoms, GUID, tail) == PrintGuid(g, tail)
  {
    hide PrintWord, PrintAtoms, AtomsOk, EraseAtoms;
    Pow256Values();
    var bytes := g.b + g.c;
    var more, shapes := ByteAtoms(bytes, g.d), ByteShapes(8);
    ByteAtomsPrinted(bytes, g.d, tail);
    NextAtom(Num(g.a), more, U32, shapes, tail);
    assert [U32] + shapes == GUID;
    atoms := [Num(g.a)] + more;
    assert EraseAtoms(atoms) == GuidFields(g);
  }

  lemma Guids(tree: Tree, g: Guid, tail: seq<byte>)
    requires IsStruct(tree, Lit("Guid")) && GuidOk(g)
    ensures StoresStruct(tree, PrintGuid(g, tail), Scalar(GuidS, GuidFields(g)), tail)
  {
    hide StructKindOf, Lit, StoresStruct, PrintAtoms, AtomsOk, EraseAtoms, PrintGuid, GuidFields;
    StructKinds();
    var atoms := GuidAtoms(g, tail);
    FixedStored(tree, Lit("Guid"), GuidS, atoms, tail);
  }

  function PrintStrings(strings: seq<FString>, tail: seq<byte>): seq<byte> {
    if strings == [] then tail else PrintFString(strings[0], PrintStrings(strings[1..], tail))
  }

  function Texts(strings: seq<FString>): (fields: seq<Field>)
    ensures |fields| == |strings|
  {
    if strings == [] then [] else [Text(TextOf(strings[0]))] + Texts(strings[1..])
  }

  function StringAtoms(strings: seq<FString>): (atoms: seq<Atom<FString>>)
    ensures |atoms| == |strings|
  {
    if strings == [] then [] else [Text(strings[0])] + StringAtoms(strings[1..])
  }

  lemma {:induction false} StringAtomsPrinted(strings: seq<FString>, tail: seq<byte>)
    requires forall i :: 0 <= i < |strings| ==> FStringOk(strings[i])
    ensures AtomsOk(StringAtoms(strings), Copies([Chars], |strings|))
    ensures PrintAtoms(StringAtoms(strings), Copies([Chars], |strings|), tail) == PrintStrings(strings, tail)
    ensures EraseAtoms(StringAtoms(strings)) == Texts(strings)
  {
    hide PrintFString, FStringOk, TextOf;
    if strings != [] {
      StringAtomsPrinted(strings[1..], tail);
      NextAtom(Text(strings[0]), StringAtoms(strings[1..]), Chars, Copies([Chars], |strings| - 1), tail);
    }
  }

  /** A tag container is a count and as many strings. */
  lemma TagContainers(tree: Tree, tags: seq<FString>, tail: seq<byte>)
    requires IsStruct(tree, Lit("GameplayTagContainer")) && |tags| < 0x1_0000_0000
    requires forall i :: 0 <= i < |tags| ==> FStringOk(tags[i])
    ensures StoresStruct(tree, PrintWord(|tags|, 4, PrintStrings(tags, tail)), TagList(Texts(tags)), tail)
  {
    hide StructKindOf, Lit, StoresStruct, PrintAtoms, AtomsOk, EraseAtoms, PrintWord, PrintStrings, Texts, StringAtoms, FStringOk, Copies;
    StructKinds();
    Pow256Values();
    StringAtomsPrinted(tags, tail);
    StructStored(tree, CTags(StringAtoms(tags)), tail);
  }

}
