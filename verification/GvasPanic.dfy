/** When parsing a GVAS file can panic: only if the one length prefix whose negation
    overflows occurs somewhere in the file. */
module GvasPanic {
  import opened Bits
  import opened GvasText
  import opened GvasFormat
  import opened GvasProofs
  import opened GvasSave
  import opened GvasReader
  import opened GvasParser

  const PANIC_PREFIX: seq<byte> := [0, 0, 0, 0x80]

  predicate PrefixAt(b: seq<byte>, i: int) {
    0 <= i && i + 4 <= |b| && b[i..i + 4] == PANIC_PREFIX
  }

  /** The prefix occurs nowhere in the bytes. */
  ghost predicate NoPrefix(b: seq<byte>) {
    forall i :: !PrefixAt(b, i)
  }

  lemma SuffixHasNone(b: seq<byte>, k: nat)
    requires NoPrefix(b) && k <= |b|
    ensures NoPrefix(b[k..])
  {
    forall i
      ensures !PrefixAt(b[k..], i)
    {
      assert !PrefixAt(b, k + i);
      assert 0 <= i && i + 4 <= |b[k..]| ==> b[k..][i..i + 4] == b[k + i..k + i + 4];
    }
  }

  /** Does not panic, and leaves bytes of which the same can be said. */
  ghost predicate Calm<T>(g: Got<T>) {
    match g
    case Got(_, rest) => NoPrefix(rest)
    case Failed(why) => why == Malformed
  }

  lemma TakeCalm(b: seq<byte>, n: nat)
    requires NoPrefix(b)
    ensures Calm(Take(b, n))
  {
    if n <= |b| { SuffixHasNone(b, n); }
  }

  lemma WordCalm(b: seq<byte>, w: nat, signed: bool)
    requires NoPrefix(b)
    ensures Calm(ReadWord(b, w, signed))
  {
    hide NoPrefix;
    TakeCalm(b, w);
  }

  lemma FStringCalm(b: seq<byte>)
    requires NoPrefix(b)
    ensures Calm(ReadFString(b))
  {
    PanicsExactly(b);
    assert !PrefixAt(b, 0);
    FStringRest(b);
  }

  lemma FStringRest(b: seq<byte>)
    requires NoPrefix(b)
    ensures ReadFString(b).Got? ==> NoPrefix(ReadFString(b).rest)
  {
    hide NoPrefix, Take, ReadWord;
    WordCalm(b, 4, true);
    var length := ReadWord(b, 4, true);
    if length.Got? {
      if length.value > 0 {
        TakeCalm(length.rest, length.value);
      } else {
        TakeCalm(length.rest, 2 * -length.value);
      }
    }
  }

  lemma {:induction false} AtomsCalm(shapes: seq<AtomShape>, b: seq<byte>)
    requires NoPrefix(b)
    ensures Calm(ReadAtoms(shapes, b))
    decreases |shapes|
  {
    hide NoPrefix, ReadWord, ReadFString;
    if shapes != [] {
      match shapes[0] {
        case Word(w, signed) => WordCalm(b, w, signed);
        case Chars => FStringCalm(b);
      }
      var first := ReadAtom(shapes[0], b);
      if first.Got? {
        AtomsCalm(shapes[1..], first.rest);
      }
    }
  }

  lemma {:induction false} TreeCalm(depth: nat, b: seq<byte>)
    requires NoPrefix(b)
    ensures Calm(ReadTree(depth, b))
    decreases |b|, 0
  {
    hide NoPrefix, ReadWord, ReadFString;
    FStringCalm(b);
    var name := ReadFString(b);
    if name.Got? {
      WordCalm(name.rest, 4, false);
      var count := ReadWord(name.rest, 4, false);
      if count.Got? {
        TreesCalm(depth + 1, count.value, count.rest);
      }
    }
  }

  lemma {:induction false} TreesCalm(depth: nat, n: nat, b: seq<byte>)
    requires NoPrefix(b)
    ensures Calm(ReadTrees(depth, n, b))
    decreases |b|, 1
  {
    hide NoPrefix;
    if n > 0 {
      TreeCalm(depth, b);
      var t := ReadTree(depth, b);
      if t.Got? {
        TreesCalm(depth, n - 1, t.rest);
      }
    }
  }

  lemma TagCalm(b: seq<byte>)
    requires NoPrefix(b)
    ensures Calm(ReadTag(b))
  {
    hide NoPrefix, ReadWord, ReadAtoms, IndexShape, GuidShape;
    WordCalm(b, 4, false);
    var size := ReadWord(b, 4, false);
    if size.Got? {
      WordCalm(size.rest, 1, false);
      var flags := ReadWord(size.rest, 1, false);
      if flags.Got? {
        AtomsCalm(IndexShape(flags.value), flags.rest);
        var index := ReadAtoms(IndexShape(flags.value), flags.rest);
        if index.Got? {
          AtomsCalm(GuidShape(flags.value), index.rest);
        }
      }
    }
  }

  lemma ScalarCalm(k: ScalarKind, b: seq<byte>)
    requires NoPrefix(b)
    ensures Calm(ReadScalar(k, b))
  {
    hide NoPrefix, ReadAtoms, Shape;
    AtomsCalm(Shape(k), b);
  }

  lemma RawCalm(kind: RawKind, typeName: seq<byte>, size: nat, b: seq<byte>)
    requires NoPrefix(b)
    ensures Calm(ReadRaw(kind, typeName, size, b))
  {
    hide NoPrefix, Take;
    TakeCalm(b, size);
  }

  lemma {:induction false} TaggedCalm(tree: Tree, size: nat, flags: nat, b: seq<byte>)
    requires NoPrefix(b)
    ensures Calm(ReadTagged(tree, size, flags, b))
    decreases |b|, 4
  {
    hide NoPrefix, PropertyKindOf, ReadScalar, ReadRaw, ReadStruct, ReadRun, FullPath, HasBinary, BoolTrue;
    match PropertyKindOf(tree.name)
    case ScalarP(k) => ScalarCalm(k, b);
    case ByteP => ScalarCalm(ByteKind(tree), b);
    case BoolP =>
    case TextP => RawCalm(TextData, [], size, b);
    case StructP =>
      RawCalm(BinaryStruct, FullPath(tree), size, b);
      StructCalm(tree, b);
    case ArrayP =>
      if tree.children != [] {
        RunCalm(tree.children[0], tree.children[0], false, true, b);
      }
    case MapP =>
      if |tree.children| >= 2 {
        TwoRunsCalm(tree.children[0], tree.children[1], true, b);
      }
    case SetP =>
      if tree.children != [] {
        TwoRunsCalm(tree.children[0], tree.children[0], false, b);
      }
    case UnknownP => RawCalm(UnknownType, tree.name, size, b);
  }

  /** Removed keys, then the elements. */
  lemma {:induction false} TwoRunsCalm(key: Tree, value: Tree, paired: bool, b: seq<byte>)
    requires NoPrefix(b)
    ensures Calm(ReadRun(key, key, false, false, b))
    ensures
      var removed := ReadRun(key, key, false, false, b);
      removed.Got? ==> Calm(ReadRun(key, value, paired, true, removed.rest))
    decreases |b|, 3, 1
  {
    hide NoPrefix, ReadRun;
    RunCalm(key, key, false, false, b);
    var removed := ReadRun(key, key, false, false, b);
    if removed.Got? {
      RunCalm(key, value, paired, true, removed.rest);
    }
  }

  lemma {:induction false} StructCalm(tree: Tree, b: seq<byte>)
    requires NoPrefix(b)
    ensures Calm(ReadStruct(tree, b))
    decreases |b|, 1
  {
    hide NoPrefix, StructKindOf, ReadScalar, ReadAtoms, ReadWord, ReadProps, FullPath, ShortName, Copies;
    match StructKindOf(ShortName(tree))
    case FixedStruct(k) => ScalarCalm(k, b);
    case TagContainer =>
      WordCalm(b, 4, false);
      var count := ReadWord(b, 4, false);
      if count.Got? {
        AtomsCalm(Copies([Chars], count.value), count.rest);
      }
    case GenericStruct => PropsCalm(b);
  }

  lemma {:induction false} ElementCalm(tree: Tree, b: seq<byte>)
    requires NoPrefix(b)
    ensures Calm(ReadElement(tree, b))
    decreases |b|, 2
  {
    hide NoPrefix, PropertyKindOf, ReadScalar, ReadStruct, ReadWord;
    match PropertyKindOf(tree.name)
    case ScalarP(k) => ScalarCalm(k, b);
    case ByteP => ScalarCalm(ByteKind(tree), b);
    case BoolP => WordCalm(b, 1, false);
    case StructP => StructCalm(tree, b);
    case _ =>
  }

  lemma {:induction false} RunCalm(first: Tree, second: Tree, paired: bool, limited: bool, b: seq<byte>)
    requires NoPrefix(b)
    ensures Calm(ReadRun(first, second, paired, limited, b))
    decreases |b|, 3, 0
  {
    hide NoPrefix, ReadWord, ReadElements;
    WordCalm(b, 4, false);
    var count := ReadWord(b, 4, false);
    if count.Got? {
      ElementsCalm(first, second, if paired then 2 * count.value else count.value, count.rest);
    }
  }

  lemma {:induction false} ElementsCalm(first: Tree, second: Tree, n: nat, b: seq<byte>)
    requires NoPrefix(b)
    ensures Calm(ReadElements(first, second, n, b))
    decreases |b|, 3, 0
  {
    hide NoPrefix, ReadElement;
    if n > 0 {
      ElementCalm(first, b);
      var v := ReadElement(first, b);
      if v.Got? {
        ElementsCalm(second, first, n - 1, v.rest);
      }
    }
  }

  lemma {:induction false} PropsCalm(b: seq<byte>)
    requires NoPrefix(b)
    ensures Calm(ReadProps(b))
    decreases |b|, 0
  {
    hide NoPrefix, ReadFString, TextOf, ReadTree, ReadTag, ReadTagged, EraseTree, Lit;
    FStringCalm(b);
    var name := ReadFString(b);
    if name.Got? {
      TreeCalm(0, name.rest);
      var tree := ReadTree(0, name.rest);
      if tree.Got? {
        TagCalm(tree.rest);
        var tag := ReadTag(tree.rest);
        if tag.Got? {
          TaggedCalm(EraseTree(tree.value), tag.value.size, tag.value.flags, tag.rest);
          var value := ReadTagged(EraseTree(tree.value), tag.value.size, tag.value.flags, tag.rest);
          if value.Got? {
            PropsCalm(value.rest);
          }
        }
      }
    }
  }

  lemma HeaderCalm(b: seq<byte>)
    requires NoPrefix(b)
    ensures Calm(ReadHeader(b))
  {
    hide NoPrefix, ReadWord, ReadAtoms, Number, Ue5Shape, VersionsShape;
    WordCalm(b, 4, false);
    var magic := ReadWord(b, 4, false);
    if magic.Got? {
      AtomsCalm(FRONT, magic.rest);
      var front := ReadAtoms(FRONT, magic.rest);
      if front.Got? {
        var shape := Ue5Shape(Number(front.value, 0));
        AtomsCalm(shape, front.rest);
        var ue5 := ReadAtoms(shape, front.rest);
        if ue5.Got? {
          AtomsCalm(ENGINE, ue5.rest);
          var engine := ReadAtoms(ENGINE, ue5.rest);
          if engine.Got? {
            AtomsCalm(VersionsShape(engine.value), engine.rest);
          }
        }
      }
    }
  }

  lemma BodyCalm(engine: seq<Atom<FString>>, b: seq<byte>)
    requires NoPrefix(b)
    ensures Calm(ReadBody(engine, b))
  {
    hide NoPrefix, ReadFString, ReadAtoms, ReadProps, ReservedOf;
    FStringCalm(b);
    var name := ReadFString(b);
    if name.Got? {
      AtomsCalm(ReservedOf(engine), name.rest);
      var reserved := ReadAtoms(ReservedOf(engine), name.rest);
      if reserved.Got? {
        PropsCalm(reserved.rest);
      }
    }
  }

  /** A file in which the prefix occurs nowhere is parsed or refused with an error; a
      caller can check that before parsing. */
  lemma ParseNeverPanicsWithout(data: seq<byte>)
    requires NoPrefix(data)
    ensures SaveOf(data) != Err(Panic)
  {
    hide NoPrefix, ReadHeader, ReadBody;
    HeaderCalm(data);
    var h := ReadHeader(data);
    if h.Got? {
      BodyCalm(h.value.2, h.rest);
    }
  }

  const ENGINE_NUMBERS := [U16, U16, U16, U32]

  /** And where the prefix stands for the length of a string, parsing does panic: with
      any header, as the engine branch. */
  lemma PanickingEngineBranch(front: seq<Atom<FString>>, ue5: seq<Atom<FString>>, numbers: seq<Atom<FString>>, tail: seq<byte>)
    requires AtomsOk(front, FRONT) && AtomsOk(ue5, Ue5Shape(Number(front, 0))) && AtomsOk(numbers, ENGINE_NUMBERS)
    ensures
      var engine := PrintAtoms(numbers, ENGINE_NUMBERS, PANIC_PREFIX + tail);
      var data := PrintWord(GVAS_MAGIC, 4, PrintAtoms(front, FRONT, PrintAtoms(ue5, Ue5Shape(Number(front, 0)), engine)));
      SaveOf(data) == Err(Panic)
  {
    hide ReadWord, PrintWord, PrintAtoms, AtomsOk, Number, Ue5Shape, VersionsShape, ReadBody;
    var shape := Ue5Shape(Number(front, 0));
    var engine := PrintAtoms(numbers, ENGINE_NUMBERS, PANIC_PREFIX + tail);
    Pow256Values();
    ReadPrintedWord(GVAS_MAGIC, 4, false, PrintAtoms(front, FRONT, PrintAtoms(ue5, shape, engine)));
    ReadPrintedAtoms(front, FRONT, PrintAtoms(ue5, shape, engine));
    ReadPrintedAtoms(ue5, shape, engine);
    EnginePanics(numbers, tail);
  }

  lemma EnginePanics(numbers: seq<Atom<FString>>, tail: seq<byte>)
    requires AtomsOk(numbers, ENGINE_NUMBERS)
    ensures ReadAtoms(ENGINE, PrintAtoms(numbers, ENGINE_NUMBERS, PANIC_PREFIX + tail)) == Failed(Panic)
  {
    hide ReadWord, PrintWord, ReadFString, PrintAtoms, AtomsOk;
    var b := PANIC_PREFIX + tail;
    assert b[..4] == PANIC_PREFIX;
    PanicsExactly(b);
    assert ENGINE == ENGINE_NUMBERS + [Chars, U32, U32];
    AtomsConcat(ENGINE_NUMBERS, [Chars, U32, U32], PrintAtoms(numbers, ENGINE_NUMBERS, b));
    ReadPrintedAtoms(numbers, ENGINE_NUMBERS, b);
  }

  /** For one, a header of zeros. */
  lemma PanicHappens() returns (data: seq<byte>)
    ensures SaveOf(data) == Err(Panic)
  {
    var zero: Atom<FString> := Num(0);
    ZeroAtoms();
    PanickingEngineBranch([zero, zero], [], [zero, zero, zero, zero], []);
    var engine := PrintAtoms([zero, zero, zero, zero], ENGINE_NUMBERS, PANIC_PREFIX + []);
    data := PrintWord(GVAS_MAGIC, 4, PrintAtoms([zero, zero], FRONT, PrintAtoms([], Ue5Shape(0), engine)));
  }

  lemma ZeroAtoms()
    ensures AtomsOk([Num(0), Num(0)], FRONT) && Ue5Shape(Number([Num(0), Num(0)], 0)) == []
    ensures AtomsOk([], []) && AtomsOk([Num(0), Num(0), Num(0), Num(0)], ENGINE_NUMBERS)
  {
    Pow256Values();
    var two: seq<Atom<FString>> := [Num(0), Num(0)];
    var four: seq<Atom<FString>> := [Num(0), Num(0), Num(0), Num(0)];
    assert two[1..] == [Num(0)] && FRONT[1..] == [U32];
    assert four[1..][1..] == two && ENGINE_NUMBERS[1..][1..] == [U16, U32] && [U16, U32][1..] == [U32];
  }
}
