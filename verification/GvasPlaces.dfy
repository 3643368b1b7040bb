/** Where things lie in a GVAS save: what each container, each property and the
    header read, from the bytes of their parts in the order they are stored. */
module GvasPlaces {
  import opened Bits
  import opened Common
  import opened GvasText
  import opened GvasFormat
  import opened GvasNames
  import opened GvasProofs
  import opened GvasValues
  import opened GvasMeaning

  // ---- Structs by path ----

  /** The struct `name` of `package`, of no package, or no struct at all. */
  datatype Named = Unnamed | Plain(name: seq<byte>) | Packaged(package: seq<byte>, name: seq<byte>)

  /** Whatever else the type tree holds, this is the struct it names. */
  predicate Names(tree: Tree, s: Named) {
    && tree.name == Lit("StructProperty")
    && match s
       case Unnamed => tree.children == []
       case Plain(name) => tree.children != [] && tree.children[0] == Node(name, [])
       case Packaged(package, name) =>
         tree.children != [] && tree.children[0].name == name
         && tree.children[0].children != [] && tree.children[0].children[0].name == package
  }

  function Path(s: Named): seq<byte> {
    match s
    case Unnamed => []
    case Plain(name) => name
    case Packaged(package, name) => package + [0x2e] + name
  }

  /** Not a struct with a layout of its own. */
  predicate Generic(s: Named) {
    s == Unnamed
    || (s.name !in [Lit("Guid"), Lit("DateTime"), Lit("Vector"), Lit("Quat"), Lit("Rotator")]
        && s.name !in [Lit("LinearColor"), Lit("GameplayTagContainer"), Lit("Vector2D"), Lit("IntPoint")])
  }

  lemma PathNamed(tree: Tree, s: Named)
    requires Names(tree, s)
    ensures FullPath(tree) == Path(s)
    ensures ShortName(tree) == if s == Unnamed then [] else s.name
  {
    assert Lit(".") == [0x2e];
  }

  lemma NoName()
    ensures TellOf([]) == 0
  {
  }

  lemma GenericKind(s: Named)
    requires Generic(s)
    ensures StructKindOf(if s == Unnamed then [] else s.name) == GenericStruct
  {
    hide Lit, TellOf;
    PlaceNames();
    TurnNames();
    PointNames();
    NoName();
  }

  /** Any other struct is a property list, kept under its path; with the binary
      flag every struct is the `size` bytes of the tag, under the same path. */
  lemma GenericStructs(tree: Tree, s: Named, flags: nat, b: seq<byte>, props: seq<Property>, tail: seq<byte>, data: seq<byte>)
    requires Names(tree, s)
    ensures Generic(s) && ParseProperties(b) == Got(props, tail) ==> StoresStruct(tree, b, Struct(Path(s), props), tail)
    ensures flags / 0x10 % 2 == 1 ==>
      Kept(ReadTagged(tree, |data|, flags, data + tail), EraseValue) == Got(Raw(BinaryStruct, Path(s), data), tail)
  {
    hide PropertyKindOf, StructKindOf, Lit, ReadProps, ParseProperties, EraseProps, FullPath, ShortName, Path, Generic, Names, StoresStruct;
    NamesStruct(tree, s);
    ContainerKinds();
    PathNamed(tree, s);
    TakeFront(data, tail);
    if Generic(s) && ParseProperties(b) == Got(props, tail) {
      GenericKind(s);
      GenericRead(tree, b);
      OwnStruct(tree, b, Struct(Path(s), props), tail);
    }
  }

  lemma NamesStruct(tree: Tree, s: Named)
    requires Names(tree, s)
    ensures tree.name == Lit("StructProperty")
  {
    hide Lit;
  }

  lemma GenericRead(tree: Tree, b: seq<byte>)
    requires StructKindOf(ShortName(tree)) == GenericStruct
    ensures Kept(ReadStruct(tree, b), EraseValue)
         == (match ParseProperties(b)
             case Got(props, tail) => Got(Struct(FullPath(tree), props), tail)
             case Failed(why) => Failed(why))
  {
    hide StructKindOf, ReadProps, EraseProps, FullPath, ShortName;
  }

  lemma OwnStruct(tree: Tree, b: seq<byte>, v: Value, tail: seq<byte>)
    requires tree.name == Lit("StructProperty") && Kept(ReadStruct(tree, b), EraseValue) == Got(v, tail)
    ensures StoresStruct(tree, b, v, tail)
  {
    hide PropertyKindOf, Lit, ReadStruct, EraseValue, ReadRaw;
    ContainerKinds();
  }

  // ---- Containers ----

  /** `b` is the values `vs`, one after the other, each of the type `tree`, and then `tail`. */
  predicate Laid(tree: Tree, vs: seq<Value>, b: seq<byte>, tail: seq<byte>) {
    if vs == [] then b == tail
    else
      match ReadElement(tree, b)
      case Got(v, rest) => EraseValue(v) == vs[0] && Laid(tree, vs[1..], rest, tail)
      case Failed(_) => false
  }

  /** `b` is each key followed by its value, and then `tail`. */
  predicate LaidEntries(key: Tree, value: Tree, es: seq<MapEntry>, b: seq<byte>, tail: seq<byte>) {
    if es == [] then b == tail
    else
      match ReadElement(key, b)
      case Failed(_) => false
      case Got(k, r1) =>
        match ReadElement(value, r1)
        case Failed(_) => false
        case Got(v, r2) => MapEntry(EraseValue(k), EraseValue(v)) == es[0] && LaidEntries(key, value, es[1..], r2, tail)
  }

  lemma {:induction false} LaidRead(tree: Tree, vs: seq<Value>, b: seq<byte>, tail: seq<byte>)
    requires Laid(tree, vs, b, tail)
    ensures Kept(ReadElements(tree, tree, |vs|, b), EraseElements) == Got(vs, tail)
    decreases |vs|
  {
    hide ReadElement, EraseValue;
    if vs != [] {
      LaidRead(tree, vs[1..], ReadElement(tree, b).rest, tail);
      assert [vs[0]] + vs[1..] == vs;
    }
  }

  lemma {:induction false} LaidEntriesRead(key: Tree, value: Tree, es: seq<MapEntry>, b: seq<byte>, tail: seq<byte>)
    requires LaidEntries(key, value, es, b, tail)
    ensures Kept(ReadElements(key, value, 2 * |es|, b), EraseEntries) == Got(es, tail)
    decreases |es|
  {
    hide ReadElement, EraseValue;
    if es != [] {
      var k := ReadElement(key, b);
      var v := ReadElement(value, k.rest);
      LaidEntriesRead(key, value, es[1..], v.rest, tail);
      var more := ReadElements(key, value, 2 * (|es| - 1), v.rest);
      assert ReadElements(value, key, 2 * |es| - 1, k.rest) == Got(Cons(v.value, more.value), more.rest);
      assert [es[0]] + es[1..] == es;
    }
  }

  /** A counted run, from the bytes of its count and of its elements. */
  lemma CountedRead(first: Tree, second: Tree, paired: bool, limited: bool, n: nat, b: seq<byte>)
    requires n < 0x1_0000_0000
    ensures limited && n > 1_000_000 ==> ReadRun(first, second, paired, limited, PrintWord(n, 4, b)) == Failed(Malformed)
    ensures !(limited && n > 1_000_000) ==>
      ReadRun(first, second, paired, limited, PrintWord(n, 4, b))
        == (match ReadElements(first, second, if paired then 2 * n else n, b)
            case Got(items, rest) => Got(Run(n, items), rest)
            case Failed(why) => Failed(why))
  {
    hide ReadWord, PrintWord, ReadElements;
    Pow256Values();
    ReadPrintedWord(n, 4, false, b);
  }

  /** An array is a count of at most a million and as many elements of its one type. */
  lemma Arrays(tree: Tree, size: nat, flags: nat, n: nat, vs: seq<Value>, b: seq<byte>, tail: seq<byte>)
    requires tree.name == Lit("ArrayProperty") && n < 0x1_0000_0000
    ensures tree.children == [] ==> ReadTagged(tree, size, flags, b) == Failed(Malformed)
    ensures n > 1_000_000 ==> ReadTagged(tree, size, flags, PrintWord(n, 4, b)) == Failed(Malformed)
    ensures n == |vs| <= 1_000_000 && tree.children != [] && Laid(tree.children[0], vs, b, tail) ==>
      Kept(ReadTagged(tree, size, flags, PrintWord(n, 4, b)), EraseValue) == Got(Array(vs), tail)
  {
    hide PropertyKindOf, Lit, Laid, PrintWord, ReadRun, ReadElements, EraseElements;
    ContainerKinds();
    if tree.children != [] {
      CountedRead(tree.children[0], tree.children[0], false, true, n, b);
      if n == |vs| && Laid(tree.children[0], vs, b, tail) {
        LaidRead(tree.children[0], vs, b, tail);
      }
    }
  }

  /** A set is a count of removed elements and those elements, which are dropped,
      and then what an array is. */
  lemma Sets(tree: Tree, size: nat, flags: nat, gone: seq<Value>, b: seq<byte>, n: nat, vs: seq<Value>, more: seq<byte>, tail: seq<byte>)
    requires tree.name == Lit("SetProperty") && |gone| < 0x1_0000_0000 && n < 0x1_0000_0000
    ensures tree.children == [] ==> ReadTagged(tree, size, flags, b) == Failed(Malformed)
    ensures tree.children != [] && Laid(tree.children[0], gone, b, PrintWord(n, 4, more)) && n > 1_000_000 ==>
      ReadTagged(tree, size, flags, PrintWord(|gone|, 4, b)) == Failed(Malformed)
    ensures tree.children != [] && Laid(tree.children[0], gone, b, PrintWord(n, 4, more))
            && n == |vs| <= 1_000_000 && Laid(tree.children[0], vs, more, tail) ==>
      Kept(ReadTagged(tree, size, flags, PrintWord(|gone|, 4, b)), EraseValue) == Got(Array(vs), tail)
  {
    hide PropertyKindOf, Lit, Laid, PrintWord, ReadRun, ReadElements, EraseElements;
    ContainerKinds();
    if tree.children != [] && Laid(tree.children[0], gone, b, PrintWord(n, 4, more)) {
      var element := tree.children[0];
      CountedRead(element, element, false, false, |gone|, b);
      LaidRead(element, gone, b, PrintWord(n, 4, more));
      CountedRead(element, element, false, true, n, more);
      if n == |vs| && Laid(element, vs, more, tail) {
        LaidRead(element, vs, more, tail);
      }
    }
  }

  /** A map is a count of removed keys and those keys, which are dropped, and then a
      count of at most a million and as many keys, each followed by its value. */
  lemma Maps(tree: Tree, size: nat, flags: nat, gone: seq<Value>, b: seq<byte>, n: nat, es: seq<MapEntry>, more: seq<byte>, tail: seq<byte>)
    requires tree.name == Lit("MapProperty") && |gone| < 0x1_0000_0000 && n < 0x1_0000_0000
    ensures |tree.children| < 2 ==> ReadTagged(tree, size, flags, b) == Failed(Malformed)
    ensures |tree.children| >= 2 && Laid(tree.children[0], gone, b, PrintWord(n, 4, more)) && n > 1_000_000 ==>
      ReadTagged(tree, size, flags, PrintWord(|gone|, 4, b)) == Failed(Malformed)
    ensures |tree.children| >= 2 && Laid(tree.children[0], gone, b, PrintWord(n, 4, more))
            && n == |es| <= 1_000_000 && LaidEntries(tree.children[0], tree.children[1], es, more, tail) ==>
      Kept(ReadTagged(tree, size, flags, PrintWord(|gone|, 4, b)), EraseValue) == Got(Map(es), tail)
  {
    hide PropertyKindOf, Lit, Laid, LaidEntries, PrintWord, ReadRun, ReadElements, EraseElements, EraseEntries;
    ContainerKinds();
    if |tree.children| >= 2 && Laid(tree.children[0], gone, b, PrintWord(n, 4, more)) {
      var key, value := tree.children[0], tree.children[1];
      CountedRead(key, key, false, false, |gone|, b);
      LaidRead(key, gone, b, PrintWord(n, 4, more));
      CountedRead(key, value, true, true, n, more);
      if n == |es| && LaidEntries(key, value, es, more, tail) {
        LaidEntriesRead(key, value, es, more, tail);
      }
    }
  }

  // ---- Properties ----

  /** A type tree is its name, the number of its children, and the children in turn. */
  lemma TypeTrees(name: FString, n: nat, depth: nat, b: seq<byte>, ts: List<CTree>, tail: seq<byte>)
    requires FStringOk(name) && n < 0x1_0000_0000
    ensures ReadTrees(depth, 0, b) == Got(Nil, b)
    ensures n > 0 && ReadTree(depth, b).Got? && ReadTrees(depth, n - 1, ReadTree(depth, b).rest) == Got(ts, tail) ==>
      ReadTrees(depth, n, b) == Got(Cons(ReadTree(depth, b).value, ts), tail)
    ensures depth > 64 || n > 1_000_000 ==> ReadTree(depth, PrintFString(name, PrintWord(n, 4, b))) == Failed(Malformed)
    ensures depth <= 64 && n <= 1_000_000 && ReadTrees(depth + 1, n, b) == Got(ts, tail) ==>
      Kept(ReadTree(depth, PrintFString(name, PrintWord(n, 4, b))), EraseTree) == Got(Node(TextOf(name), EraseTrees(ts)), tail)
  {
    hide ReadWord, PrintWord, ReadFString, PrintFString, FStringOk, TextOf;
    Pow256Values();
    ReadPrintedFString(name, PrintWord(n, 4, b));
    ReadPrintedWord(n, 4, false, b);
  }

  /** The tag of a property: size, flags, the array index if bit 0 is set, the GUID
      if bit 1 is, and then the value. */
  function PrintTagOf(size: nat, flags: nat, index: nat, guid: Guid, b: seq<byte>): seq<byte> {
    var r2 := if flags / 0x02 % 2 == 1 then PrintGuid(guid, b) else b;
    var r1 := if flags / 0x01 % 2 == 1 then PrintWord(index, 4, r2) else r2;
    PrintWord(size, 4, PrintWord(flags, 1, r1))
  }

  lemma TagRead(size: nat, flags: nat, index: nat, guid: Guid, b: seq<byte>) returns (tag: Tag)
    requires size < 0x1_0000_0000 && flags < 0x100 && index < 0x1_0000_0000 && GuidOk(guid)
    ensures ReadTag(PrintTagOf(size, flags, index, guid, b)) == Got(tag, b)
    ensures tag.size == size && tag.flags == flags
    ensures ArrayIndexOf(tag) == if flags / 0x01 % 2 == 1 then index else 0
    ensures GuidOf(tag) == if flags / 0x02 % 2 == 1 then Some(GuidFields(guid)) else None
  {
    hide ReadTag, PrintWord, PrintGuid, PrintAtoms, AtomsOk, EraseAtoms, GuidFields, GUID;
    Pow256Values();
    var guidAtoms := GuidAtoms(guid, b);
    var second := if flags / 0x02 % 2 == 1 then guidAtoms else [];
    NoAtoms(b);
    var r2 := PrintAtoms(second, GuidShape(flags), b);
    var first := if flags / 0x01 % 2 == 1 then [Num(index)] else [];
    NoAtoms(r2);
    OneAtom(Num(index), U32, r2);
    tag := Tag(size, flags, first, second);
    ReadPrintedTag(tag, b);
  }

  lemma NoAtoms(tail: seq<byte>)
    ensures PrintAtoms([], [], tail) == tail && AtomsOk([], []) && EraseAtoms([]) == []
  {
  }

  /** A property list ends at the name None and is otherwise a name, a type tree, a
      tag and a value in front of more of the list. */
  lemma PropertyLists(name: FString, tree: CTree, size: nat, flags: nat, index: nat, guid: Guid, b: seq<byte>,
                      v: Value, rest: seq<byte>, more: seq<Property>, tail: seq<byte>)
    requires FStringOk(name) && TreeOk(tree, 0)
    requires size < 0x1_0000_0000 && flags < 0x100 && index < 0x1_0000_0000 && GuidOk(guid)
    ensures TextOf(name) == Lit("None") ==> ParseProperties(PrintFString(name, tail)) == Got([], tail)
    ensures TextOf(name) != Lit("None")
            && Kept(ReadTagged(EraseTree(tree), size, flags, b), EraseValue) == Got(v, rest)
            && ParseProperties(rest) == Got(more, tail) ==>
      ParseProperties(PrintFString(name, PrintTree(tree, PrintTagOf(size, flags, index, guid, b))))
        == Got([Property(TextOf(name), EraseTree(tree), if flags / 0x01 % 2 == 1 then index else 0,
                         if flags / 0x02 % 2 == 1 then Some(GuidFields(guid)) else None, v)] + more, tail)
  {
    hide ReadFString, PrintFString, FStringOk, TextOf, ReadTree, PrintTree, TreeOk, ReadTag, PrintTagOf, ReadTagged,
      EraseTree, EraseValue, GuidFields, ArrayIndexOf, GuidOf, Lit;
    ReadPrintedFString(name, tail);
    var r2 := PrintTagOf(size, flags, index, guid, b);
    ReadPrintedFString(name, PrintTree(tree, r2));
    ReadPrintedTree(tree, 0, r2);
    var tag := TagRead(size, flags, index, guid, b);
  }
}
