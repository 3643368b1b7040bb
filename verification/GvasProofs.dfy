/** Reading undoes printing, and nothing but what printing produces is read. */
module GvasProofs {
  import opened Bits
  import opened GvasText
  import opened GvasFormat

  // ---- Reading what was printed ----

  lemma ReadPrintedAtom(a: Atom<FString>, shape: AtomShape, tail: seq<byte>)
    requires AtomOk(a, shape)
    ensures ReadAtom(shape, PrintAtom(a, shape, tail)) == Got(a, tail)
  {
    hide ReadWord, PrintWord, ReadFString, PrintFString;
    match shape
    case Word(w, signed) => ReadPrintedWord(a.n, w, signed, tail);
    case Chars => ReadPrintedFString(a.s, tail);
  }

  lemma {:induction false} ReadPrintedAtoms(atoms: seq<Atom<FString>>, shapes: seq<AtomShape>, tail: seq<byte>)
    requires AtomsOk(atoms, shapes)
    ensures ReadAtoms(shapes, PrintAtoms(atoms, shapes, tail)) == Got(atoms, tail)
    decreases |atoms|
  {
    hide AtomOk, ReadAtom, PrintAtom;
    if shapes != [] {
      ReadPrintedAtom(atoms[0], shapes[0], PrintAtoms(atoms[1..], shapes[1..], tail));
      ReadPrintedAtoms(atoms[1..], shapes[1..], tail);
      assert [atoms[0]] + atoms[1..] == atoms;
    }
  }

  lemma {:induction false} ReadPrintedTree(t: CTree, depth: nat, tail: seq<byte>)
    requires TreeOk(t, depth)
    ensures ReadTree(depth, PrintTree(t, tail)) == Got(t, tail)
    decreases t
  {
    hide ReadWord, PrintWord, ReadFString, PrintFString;
    var after := PrintTrees(t.children.trees, tail);
    ReadPrintedFString(t.name, PrintWord(t.children.count, 4, after));
    Pow256Values();
    ReadPrintedWord(t.children.count, 4, false, after);
    ReadPrintedTrees(t.children.trees, depth + 1, t.children.count, tail);
  }

  lemma {:induction false} ReadPrintedTrees(ts: List<CTree>, depth: nat, n: nat, tail: seq<byte>)
    requires TreesOk(ts, depth, n)
    ensures ReadTrees(depth, n, PrintTrees(ts, tail)) == Got(ts, tail)
    decreases ts
  {
    match ts
    case Nil =>
    case Cons(t, more) =>
      ReadPrintedTree(t, depth, PrintTrees(more, tail));
      ReadPrintedTrees(more, depth, n - 1, tail);
  }

  lemma ReadPrintedTag(tag: Tag, tail: seq<byte>)
    requires TagOk(tag)
    ensures ReadTag(PrintTag(tag, tail)) == Got(tag, tail)
  {
    hide ReadWord, PrintWord, WordInRange, ReadAtoms, PrintAtoms, AtomsOk, IndexShape, GuidShape;
    var r3 := PrintAtoms(tag.guid, GuidShape(tag.flags), tail);
    var r2 := PrintAtoms(tag.index, IndexShape(tag.flags), r3);
    ReadPrintedWord(tag.size, 4, false, PrintWord(tag.flags, 1, r2));
    ReadPrintedWord(tag.flags, 1, false, r2);
    ReadPrintedAtoms(tag.index, IndexShape(tag.flags), r3);
    ReadPrintedAtoms(tag.guid, GuidShape(tag.flags), tail);
  }

  lemma ReadPrintedScalar(v: CValue, k: ScalarKind, tail: seq<byte>)
    requires ScalarOk(v, k)
    ensures ReadScalar(k, PrintValue(v, tail)) == Got(v, tail)
  {
    hide ReadAtoms, PrintAtoms, AtomsOk, Shape;
    ReadPrintedAtoms(v.atoms, Shape(k), tail);
  }

  lemma ReadPrintedRaw(v: CValue, kind: RawKind, typeName: seq<byte>, size: nat, tail: seq<byte>)
    requires RawOk(v, kind, typeName, size)
    ensures ReadRaw(kind, typeName, size, PrintValue(v, tail)) == Got(v, tail)
  {
    TakeFront(v.data, tail);
  }

  lemma {:induction false} ReadPrintedTagged(v: CValue, tree: Tree, size: nat, flags: nat, tail: seq<byte>)
    requires TaggedOk(v, tree, size, flags)
    ensures ReadTagged(tree, size, flags, PrintValue(v, tail)) == Got(v, tail)
    decreases v, 2
  {
    hide PropertyKindOf, ScalarOk, RawOk, StructOk, RunOk, ReadScalar, ReadRaw, ReadStruct, ReadRun, PrintRun;
    match PropertyKindOf(tree.name)
    case ScalarP(k) => ReadPrintedScalar(v, k, tail);
    case ByteP => ReadPrintedScalar(v, ByteKind(tree), tail);
    case BoolP =>
    case TextP => ReadPrintedRaw(v, TextData, [], size, tail);
    case StructP =>
      if HasBinary(flags) {
        ReadPrintedRaw(v, BinaryStruct, FullPath(tree), size, tail);
      } else {
        ReadPrintedStruct(v, tree, tail);
      }
    case ArrayP =>
      ReadPrintedRun(v.run, tree.children[0], tree.children[0], false, true, tail);
    case MapP =>
      ReadPrintedRun(v.removed, tree.children[0], tree.children[0], false, false, PrintRun(v.run, tail));
      ReadPrintedRun(v.run, tree.children[0], tree.children[1], true, true, tail);
    case SetP =>
      ReadPrintedRun(v.removed, tree.children[0], tree.children[0], false, false, PrintRun(v.run, tail));
      ReadPrintedRun(v.run, tree.children[0], tree.children[0], false, true, tail);
    case UnknownP => ReadPrintedRaw(v, UnknownType, tree.name, size, tail);
  }

  lemma {:induction false} ReadPrintedStruct(v: CValue, tree: Tree, tail: seq<byte>)
    requires StructOk(v, tree)
    ensures ReadStruct(tree, PrintValue(v, tail)) == Got(v, tail)
    decreases v, 0
  {
    hide StructKindOf, ScalarOk, ReadScalar, ReadWord, PrintWord, ReadAtoms, PrintAtoms, AtomsOk, Copies,
      PropsOk, ReadProps, PrintProps, FullPath, ShortName;
    match StructKindOf(ShortName(tree))
    case FixedStruct(k) => ReadPrintedScalar(v, k, tail);
    case TagContainer =>
      var shapes := Copies([Chars], |v.tags|);
      ReadPrintedWord(|v.tags|, 4, false, PrintAtoms(v.tags, shapes, tail));
      ReadPrintedAtoms(v.tags, shapes, tail);
    case GenericStruct => ReadPrintedProps(v.props, tail);
  }

  lemma {:induction false} ReadPrintedElement(v: CValue, tree: Tree, tail: seq<byte>)
    requires ElementOk(v, tree)
    ensures ReadElement(tree, PrintValue(v, tail)) == Got(v, tail)
    decreases v, 1
  {
    hide PropertyKindOf, ScalarOk, StructOk, ReadScalar, ReadStruct, ReadWord, PrintWord;
    match PropertyKindOf(tree.name)
    case ScalarP(k) => ReadPrintedScalar(v, k, tail);
    case ByteP => ReadPrintedScalar(v, ByteKind(tree), tail);
    case BoolP => ReadPrintedWord(v.raw, 1, false, tail);
    case StructP => ReadPrintedStruct(v, tree, tail);
  }

  lemma {:induction false} ReadPrintedRun(run: Run, first: Tree, second: Tree, paired: bool, limited: bool, tail: seq<byte>)
    requires RunOk(run, first, second, paired, limited)
    ensures ReadRun(first, second, paired, limited, PrintRun(run, tail)) == Got(run, tail)
    decreases run
  {
    hide ReadWord, PrintWord, ReadElements, PrintElements;
    ReadPrintedWord(run.count, 4, false, PrintElements(run.items, tail));
    ReadPrintedElements(run.items, first, second, if paired then 2 * run.count else run.count, tail);
  }

  lemma {:induction false} ReadPrintedElements(vs: List<CValue>, first: Tree, second: Tree, n: nat, tail: seq<byte>)
    requires ElementsOk(vs, first, second, n)
    ensures ReadElements(first, second, n, PrintElements(vs, tail)) == Got(vs, tail)
    decreases vs
  {
    hide ElementOk, ReadElement, PrintValue;
    match vs
    case Nil =>
    case Cons(v, more) =>
      ReadPrintedElement(v, first, PrintElements(more, tail));
      ReadPrintedElements(more, second, first, n - 1, tail);
  }

  /** Parsing undoes printing: any property list within the limits, however its
      strings are encoded and whatever the parser will forget of it, is read back
      whole, and what follows it is left alone. */
  lemma {:induction false} ReadPrintedProps(ps: CProps, tail: seq<byte>)
    requires PropsOk(ps)
    ensures ReadProps(PrintProps(ps, tail)) == Got(ps, tail)
    decreases ps
  {
    hide ReadFString, PrintFString, FStringOk, TextOf, ReadTree, PrintTree, TreeOk, ReadTag, PrintTag, TagOk,
      ReadTagged, PrintValue, TaggedOk, EraseTree;
    match ps
    case End(name) => ReadPrintedFString(name, tail);
    case Prop(name, tree, tag, value, more) =>
      var r4 := PrintProps(more, tail);
      var r3 := PrintValue(value, r4);
      var r2 := PrintTag(tag, r3);
      ReadPrintedFString(name, PrintTree(tree, r2));
      ReadPrintedTree(tree, 0, r2);
      ReadPrintedTag(tag, r3);
      ReadPrintedTagged(value, EraseTree(tree), tag.size, tag.flags, r4);
      ReadPrintedProps(more, tail);
  }

  // ---- Printing what was read ----

  lemma PrintReadAtom(shape: AtomShape, b: seq<byte>)
    requires ReadAtom(shape, b).Got?
    ensures AtomOk(ReadAtom(shape, b).value, shape)
    ensures b == PrintAtom(ReadAtom(shape, b).value, shape, ReadAtom(shape, b).rest)
  {
    hide ReadWord, PrintWord, ReadFString, PrintFString;
    match shape
    case Word(w, signed) => PrintReadWord(b, w, signed);
    case Chars => PrintReadFString(b);
  }

  lemma {:induction false} PrintReadAtoms(shapes: seq<AtomShape>, b: seq<byte>)
    requires ReadAtoms(shapes, b).Got?
    ensures AtomsOk(ReadAtoms(shapes, b).value, shapes)
    ensures b == PrintAtoms(ReadAtoms(shapes, b).value, shapes, ReadAtoms(shapes, b).rest)
    decreases |shapes|
  {
    hide AtomOk, ReadAtom, PrintAtom;
    if shapes != [] {
      PrintReadAtom(shapes[0], b);
      var r1 := ReadAtom(shapes[0], b).rest;
      PrintReadAtoms(shapes[1..], r1);
      assert ReadAtoms(shapes, b).value[1..] == ReadAtoms(shapes[1..], r1).value;
    }
  }

  lemma {:induction false} PrintReadTree(depth: nat, b: seq<byte>)
    requires ReadTree(depth, b).Got?
    ensures TreeOk(ReadTree(depth, b).value, depth)
    ensures b == PrintTree(ReadTree(depth, b).value, ReadTree(depth, b).rest)
    decreases |b|, 0
  {
    hide ReadWord, PrintWord, WordInRange, ReadFString, PrintFString, FStringOk;
    PrintReadFString(b);
    var r1 := ReadFString(b).rest;
    PrintReadWord(r1, 4, false);
    var count := ReadWord(r1, 4, false);
    PrintReadTrees(depth + 1, count.value, count.rest);
  }

  lemma {:induction false} PrintReadTrees(depth: nat, n: nat, b: seq<byte>)
    requires ReadTrees(depth, n, b).Got?
    ensures TreesOk(ReadTrees(depth, n, b).value, depth, n)
    ensures b == PrintTrees(ReadTrees(depth, n, b).value, ReadTrees(depth, n, b).rest)
    decreases |b|, 1
  {
    if n > 0 {
      PrintReadTree(depth, b);
      PrintReadTrees(depth, n - 1, ReadTree(depth, b).rest);
    }
  }

  lemma PrintReadTag(b: seq<byte>)
    requires ReadTag(b).Got?
    ensures TagOk(ReadTag(b).value) && b == PrintTag(ReadTag(b).value, ReadTag(b).rest)
  {
    hide ReadWord, PrintWord, WordInRange, ReadAtoms, PrintAtoms, AtomsOk, IndexShape, GuidShape;
    PrintReadWord(b, 4, false);
    var r1 := ReadWord(b, 4, false).rest;
    PrintReadWord(r1, 1, false);
    var flags := ReadWord(r1, 1, false);
    PrintReadAtoms(IndexShape(flags.value), flags.rest);
    PrintReadAtoms(GuidShape(flags.value), ReadAtoms(IndexShape(flags.value), flags.rest).rest);
  }

  lemma PrintReadScalar(k: ScalarKind, b: seq<byte>)
    requires ReadScalar(k, b).Got?
    ensures ScalarOk(ReadScalar(k, b).value, k)
    ensures b == PrintValue(ReadScalar(k, b).value, ReadScalar(k, b).rest)
  {
    hide ReadAtoms, PrintAtoms, AtomsOk, Shape;
    PrintReadAtoms(Shape(k), b);
  }

  lemma {:induction false} PrintReadTagged(tree: Tree, size: nat, flags: nat, b: seq<byte>)
    requires ReadTagged(tree, size, flags, b).Got?
    ensures TaggedOk(ReadTagged(tree, size, flags, b).value, tree, size, flags)
    ensures b == PrintValue(ReadTagged(tree, size, flags, b).value, ReadTagged(tree, size, flags, b).rest)
    decreases |b|, 4
  {
    hide PropertyKindOf, ScalarOk, StructOk, RunOk, ReadScalar, ReadStruct, ReadRun, PrintRun;
    match PropertyKindOf(tree.name)
    case ScalarP(k) => PrintReadScalar(k, b);
    case ByteP => PrintReadScalar(ByteKind(tree), b);
    case BoolP =>
    case TextP =>
    case StructP =>
      if !HasBinary(flags) {
        PrintReadStruct(tree, b);
      }
    case ArrayP =>
      PrintReadRun(tree.children[0], tree.children[0], false, true, b);
    case MapP =>
      PrintReadRun(tree.children[0], tree.children[0], false, false, b);
      var r1 := ReadRun(tree.children[0], tree.children[0], false, false, b).rest;
      PrintReadRun(tree.children[0], tree.children[1], true, true, r1);
    case SetP =>
      PrintReadRun(tree.children[0], tree.children[0], false, false, b);
      var r1 := ReadRun(tree.children[0], tree.children[0], false, false, b).rest;
      PrintReadRun(tree.children[0], tree.children[0], false, true, r1);
    case UnknownP =>
  }

  lemma {:induction false} PrintReadStruct(tree: Tree, b: seq<byte>)
    requires ReadStruct(tree, b).Got?
    ensures StructOk(ReadStruct(tree, b).value, tree)
    ensures b == PrintValue(ReadStruct(tree, b).value, ReadStruct(tree, b).rest)
    decreases |b|, 1
  {
    hide StructKindOf, ScalarOk, ReadScalar, ReadWord, PrintWord, WordInRange, ReadAtoms, PrintAtoms, AtomsOk, Copies,
      PropsOk, ReadProps, PrintProps, FullPath, ShortName;
    match StructKindOf(ShortName(tree))
    case FixedStruct(k) => PrintReadScalar(k, b);
    case TagContainer =>
      PrintReadWord(b, 4, false);
      var count := ReadWord(b, 4, false);
      PrintReadAtoms(Copies([Chars], count.value), count.rest);
    case GenericStruct => PrintReadProps(b);
  }

  lemma {:induction false} PrintReadElement(tree: Tree, b: seq<byte>)
    requires ReadElement(tree, b).Got?
    ensures ElementOk(ReadElement(tree, b).value, tree)
    ensures b == PrintValue(ReadElement(tree, b).value, ReadElement(tree, b).rest)
    decreases |b|, 2
  {
    hide PropertyKindOf, ScalarOk, StructOk, ReadScalar, ReadStruct, ReadWord, PrintWord, WordInRange;
    match PropertyKindOf(tree.name)
    case ScalarP(k) => PrintReadScalar(k, b);
    case ByteP => PrintReadScalar(ByteKind(tree), b);
    case BoolP => PrintReadWord(b, 1, false);
    case StructP => PrintReadStruct(tree, b);
    case _ =>
  }

  lemma {:induction false} PrintReadRun(first: Tree, second: Tree, paired: bool, limited: bool, b: seq<byte>)
    requires ReadRun(first, second, paired, limited, b).Got?
    ensures RunOk(ReadRun(first, second, paired, limited, b).value, first, second, paired, limited)
    ensures b == PrintRun(ReadRun(first, second, paired, limited, b).value, ReadRun(first, second, paired, limited, b).rest)
    decreases |b|, 3
  {
    hide ReadWord, PrintWord, WordInRange, ReadElements, PrintElements, ElementsOk;
    PrintReadWord(b, 4, false);
    var count := ReadWord(b, 4, false);
    PrintReadElements(first, second, if paired then 2 * count.value else count.value, count.rest);
  }

  lemma {:induction false} PrintReadElements(first: Tree, second: Tree, n: nat, b: seq<byte>)
    requires ReadElements(first, second, n, b).Got?
    ensures ElementsOk(ReadElements(first, second, n, b).value, first, second, n)
    ensures b == PrintElements(ReadElements(first, second, n, b).value, ReadElements(first, second, n, b).rest)
    decreases |b|, 3
  {
    hide ElementOk, ReadElement, PrintValue;
    if n > 0 {
      PrintReadElement(first, b);
      PrintReadElements(second, first, n - 1, ReadElement(first, b).rest);
    }
  }

  /** Whatever is read is within the limits and was laid out as printing would. */
  lemma {:induction false} PrintReadProps(b: seq<byte>)
    requires ReadProps(b).Got?
    ensures PropsOk(ReadProps(b).value)
    ensures b == PrintProps(ReadProps(b).value, ReadProps(b).rest)
    decreases |b|, 0
  {
    hide ReadFString, PrintFString, FStringOk, TextOf, ReadTree, PrintTree, TreeOk, ReadTag, PrintTag, TagOk,
      ReadTagged, PrintValue, TaggedOk, EraseTree;
    PrintReadFString(b);
    var name := ReadFString(b);
    if TextOf(name.value) != Lit("None") {
      PrintReadTree(0, name.rest);
      var tree := ReadTree(0, name.rest);
      PrintReadTag(tree.rest);
      var tag := ReadTag(tree.rest);
      PrintReadTagged(EraseTree(tree.value), tag.value.size, tag.value.flags, tag.rest);
      var value := ReadTagged(EraseTree(tree.value), tag.value.size, tag.value.flags, tag.rest);
      PrintReadProps(value.rest);
    }
  }

  // ---- What follows a serialization never changes it ----

  lemma WordExtends(n: int, w: nat, a: seq<byte>, t: seq<byte>)
    ensures PrintWord(n, w, a + t) == PrintWord(n, w, a) + t
  {
  }

  lemma FStringExtends(s: FString, a: seq<byte>, t: seq<byte>)
    ensures PrintFString(s, a + t) == PrintFString(s, a) + t
  {
    match s
    case Empty =>
    case Narrow(data) => assert data + (a + t) == (data + a) + t;
    case Wide(units) => assert UnitBytes(units) + (a + t) == (UnitBytes(units) + a) + t;
  }

  lemma AtomExtends(x: Atom<FString>, shape: AtomShape, a: seq<byte>, t: seq<byte>)
    ensures PrintAtom(x, shape, a + t) == PrintAtom(x, shape, a) + t
  {
    hide PrintWord, PrintFString;
    match (x, shape)
    case (Num(n), Word(w, _)) => WordExtends(n, w, a, t);
    case (Text(s), Chars) => FStringExtends(s, a, t);
    case _ =>
  }

  lemma {:induction false} AtomsExtend(atoms: seq<Atom<FString>>, shapes: seq<AtomShape>, a: seq<byte>, t: seq<byte>)
    ensures PrintAtoms(atoms, shapes, a + t) == PrintAtoms(atoms, shapes, a) + t
    decreases |atoms|
  {
    hide PrintAtom;
    if atoms != [] && shapes != [] {
      AtomsExtend(atoms[1..], shapes[1..], a, t);
      AtomExtends(atoms[0], shapes[0], PrintAtoms(atoms[1..], shapes[1..], a), t);
    }
  }

  lemma {:induction false} TreeExtends(x: CTree, a: seq<byte>, t: seq<byte>)
    ensures PrintTree(x, a + t) == PrintTree(x, a) + t
    decreases x
  {
    hide PrintWord, PrintFString;
    TreesExtend(x.children.trees, a, t);
    var b := PrintTrees(x.children.trees, a);
    WordExtends(x.children.count, 4, b, t);
    FStringExtends(x.name, PrintWord(x.children.count, 4, b), t);
  }

  lemma {:induction false} TreesExtend(xs: List<CTree>, a: seq<byte>, t: seq<byte>)
    ensures PrintTrees(xs, a + t) == PrintTrees(xs, a) + t
    decreases xs
  {
    match xs
    case Nil =>
    case Cons(x, more) =>
      TreesExtend(more, a, t);
      TreeExtends(x, PrintTrees(more, a), t);
  }

  lemma TagExtends(tag: Tag, a: seq<byte>, t: seq<byte>)
    ensures PrintTag(tag, a + t) == PrintTag(tag, a) + t
  {
    hide PrintWord, PrintAtoms, IndexShape, GuidShape;
    AtomsExtend(tag.guid, GuidShape(tag.flags), a, t);
    var r3 := PrintAtoms(tag.guid, GuidShape(tag.flags), a);
    AtomsExtend(tag.index, IndexShape(tag.flags), r3, t);
    var r2 := PrintAtoms(tag.index, IndexShape(tag.flags), r3);
    WordExtends(tag.flags, 1, r2, t);
    WordExtends(tag.size, 4, PrintWord(tag.flags, 1, r2), t);
  }

  lemma {:induction false} ValueExtends(v: CValue, a: seq<byte>, t: seq<byte>)
    ensures PrintValue(v, a + t) == PrintValue(v, a) + t
    decreases v
  {
    hide PrintWord, PrintAtoms, Shape, Copies, PrintProps, PrintRun;
    match v
    case CScalar(k, atoms) => AtomsExtend(atoms, Shape(k), a, t);
    case CTagBool(_) =>
    case CByteBool(raw) => WordExtends(raw, 1, a, t);
    case CTags(tags) =>
      AtomsExtend(tags, Copies([Chars], |tags|), a, t);
      WordExtends(|tags|, 4, PrintAtoms(tags, Copies([Chars], |tags|), a), t);
    case CRaw(_, _, data) => assert data + (a + t) == (data + a) + t;
    case CStruct(_, props) => PropsExtend(props, a, t);
    case CArray(run) => RunExtends(run, a, t);
    case CSet(removed, run) =>
      RunExtends(run, a, t);
      RunExtends(removed, PrintRun(run, a), t);
    case CMap(removed, run) =>
      RunExtends(run, a, t);
      RunExtends(removed, PrintRun(run, a), t);
  }

  lemma {:induction false} RunExtends(run: Run, a: seq<byte>, t: seq<byte>)
    ensures PrintRun(run, a + t) == PrintRun(run, a) + t
    decreases run
  {
    hide PrintWord, PrintElements;
    ElementsExtend(run.items, a, t);
    WordExtends(run.count, 4, PrintElements(run.items, a), t);
  }

  lemma {:induction false} ElementsExtend(vs: List<CValue>, a: seq<byte>, t: seq<byte>)
    ensures PrintElements(vs, a + t) == PrintElements(vs, a) + t
    decreases vs
  {
    hide PrintValue;
    match vs
    case Nil =>
    case Cons(v, more) =>
      ElementsExtend(more, a, t);
      ValueExtends(v, PrintElements(more, a), t);
  }

  lemma {:induction false} PropsExtend(ps: CProps, a: seq<byte>, t: seq<byte>)
    ensures PrintProps(ps, a + t) == PrintProps(ps, a) + t
    decreases ps
  {
    hide PrintFString, PrintTree, PrintTag, PrintValue;
    match ps
    case End(name) => FStringExtends(name, a, t);
    case Prop(name, tree, tag, value, more) =>
      PropsExtend(more, a, t);
      var r4 := PrintProps(more, a);
      ValueExtends(value, r4, t);
      var r3 := PrintValue(value, r4);
      TagExtends(tag, r3, t);
      TreeExtends(tree, PrintTag(tag, r3), t);
      FStringExtends(name, PrintTree(tree, PrintTag(tag, r3)), t);
  }
}
