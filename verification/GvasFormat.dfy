/** The GVAS grammar: what a save may hold, how it is laid out in bytes, how it is
    read back, and what the parsed save keeps of it. Every printer takes the bytes
    that follow, so that a reader can be compared with it byte for byte. */
module GvasFormat {
  import opened Bits
  import opened GvasText

  datatype List<+T> = Nil | Cons(head: T, tail: List<T>)

  // ---- Fixed layouts ----

  /** A little-endian word or an FString; floats are kept as their bits. */
  datatype AtomShape = Word(width: nat, signed: bool) | Chars
  datatype Atom<+S> = Num(n: int) | Text(s: S)

  const U8 := Word(1, false)
  const U16 := Word(2, false)
  const U32 := Word(4, false)
  const I32 := Word(4, true)
  const U64 := Word(8, false)
  const I64 := Word(8, true)
  const F32 := Word(4, false)
  const F64 := Word(8, false)
  const GUID := [U32, U8, U8, U8, U8, U8, U8, U8, U8, U32]

  predicate AtomOk(a: Atom<FString>, shape: AtomShape) {
    match shape
    case Word(w, signed) => a.Num? && WordInRange(a.n, w, signed)
    case Chars => a.Text? && FStringOk(a.s)
  }

  predicate AtomsOk(atoms: seq<Atom<FString>>, shapes: seq<AtomShape>) {
    if shapes == [] then atoms == []
    else atoms != [] && AtomOk(atoms[0], shapes[0]) && AtomsOk(atoms[1..], shapes[1..])
  }

  function PrintAtom(a: Atom<FString>, shape: AtomShape, tail: seq<byte>): seq<byte> {
    match (a, shape)
    case (Num(n), Word(w, _)) => PrintWord(n, w, tail)
    case (Text(s), Chars) => PrintFString(s, tail)
    case _ => tail
  }

  function PrintAtoms(atoms: seq<Atom<FString>>, shapes: seq<AtomShape>, tail: seq<byte>): seq<byte> {
    if atoms == [] || shapes == [] then tail
    else PrintAtom(atoms[0], shapes[0], PrintAtoms(atoms[1..], shapes[1..], tail))
  }

  predicate Weighty(shape: AtomShape) { shape.Word? ==> shape.width > 0 }

  function ReadAtom(shape: AtomShape, b: seq<byte>): (g: Got<Atom<FString>>)
    ensures g.Got? ==> |g.rest| <= |b| && (Weighty(shape) ==> |g.rest| < |b|)
  {
    match shape
    case Word(w, signed) =>
      var (n, rest) :- ReadWord(b, w, signed);
      Got(Num(n), rest)
    case Chars =>
      var (s, rest) :- ReadFString(b);
      Got(Text(s), rest)
  }

  function ReadAtoms(shapes: seq<AtomShape>, b: seq<byte>): (g: Got<seq<Atom<FString>>>)
    ensures g.Got? ==> |g.value| == |shapes| && |g.rest| <= |b|
    ensures g.Got? && shapes != [] && Weighty(shapes[0]) ==> |g.rest| < |b|
  {
    if shapes == [] then Got([], b)
    else
      var (first, r1) :- ReadAtom(shapes[0], b);
      var (more, r2) :- ReadAtoms(shapes[1..], r1);
      Got([first] + more, r2)
  }

  function Copies<T>(s: seq<T>, n: nat): (r: seq<T>)
    ensures |r| == n * |s|
  {
    if n == 0 then [] else s + Copies(s, n - 1)
  }

  // ---- Type trees ----

  datatype CTree = CNode(name: FString, children: Forest)
  datatype Forest = Forest(count: nat, trees: List<CTree>)

  /** A type tree as the parsed save holds it. */
  datatype Tree = Node(name: seq<byte>, children: seq<Tree>)

  const MAX_ARRAY_COUNT := 1_000_000
  const MAX_RECURSE_DEPTH := 64

  predicate TreeOk(t: CTree, depth: nat)
    decreases t
  {
    && depth <= MAX_RECURSE_DEPTH && FStringOk(t.name)
    && t.children.count <= MAX_ARRAY_COUNT && TreesOk(t.children.trees, depth + 1, t.children.count)
  }

  predicate TreesOk(ts: List<CTree>, depth: nat, n: nat)
    decreases ts
  {
    match ts
    case Nil => n == 0
    case Cons(t, more) => n > 0 && TreeOk(t, depth) && TreesOk(more, depth, n - 1)
  }

  function PrintTree(t: CTree, tail: seq<byte>): seq<byte>
    decreases t
  {
    PrintFString(t.name, PrintWord(t.children.count, 4, PrintTrees(t.children.trees, tail)))
  }

  function PrintTrees(ts: List<CTree>, tail: seq<byte>): seq<byte>
    decreases ts
  {
    match ts
    case Nil => tail
    case Cons(t, more) => PrintTree(t, PrintTrees(more, tail))
  }

  function ReadTree(depth: nat, b: seq<byte>): (g: Got<CTree>)
    ensures g.Got? ==> |g.rest| < |b|
    decreases |b|, 0
  {
    if depth > MAX_RECURSE_DEPTH then Failed(Malformed)
    else
      var (name, r1) :- ReadFString(b);
      var (count, r2) :- ReadWord(r1, 4, false);
      if count > MAX_ARRAY_COUNT then Failed(Malformed)
      else
        var (trees, r3) :- ReadTrees(depth + 1, count, r2);
        Got(CNode(name, Forest(count, trees)), r3)
  }

  function ReadTrees(depth: nat, n: nat, b: seq<byte>): (g: Got<List<CTree>>)
    ensures g.Got? ==> |g.rest| <= |b|
    decreases |b|, 1
  {
    if n == 0 then Got(Nil, b)
    else
      var (t, r1) :- ReadTree(depth, b);
      var (more, r2) :- ReadTrees(depth, n - 1, r1);
      Got(Cons(t, more), r2)
  }

  function EraseTree(t: CTree): Tree
    decreases t
  {
    Node(TextOf(t.name), EraseTrees(t.children.trees))
  }

  function EraseTrees(ts: List<CTree>): seq<Tree>
    decreases ts
  {
    match ts
    case Nil => []
    case Cons(t, more) => [EraseTree(t)] + EraseTrees(more)
  }

  // ---- What the names of types stand for ----

  /** An ASCII literal as a string of bytes. */
  function Lit(s: string): seq<byte> {
    seq(|s|, i requires 0 <= i < |s| => s[i] as nat % 0x80)
  }

  datatype ScalarKind =
    | IntS | UInt32S | Int64S | UInt64S | FloatS | DoubleS
    | NameS | StrS | ObjectS | EnumS | ByteEnumS | ByteS | SoftObjectS
    | GuidS | DateTimeS | VectorS | QuatS | RotatorS | LinearColorS | Vector2DS | IntPointS

  datatype PropertyKind = ScalarP(kind: ScalarKind) | ByteP | BoolP | TextP | StructP | ArrayP | MapP | SetP | UnknownP

  datatype StructKind = FixedStruct(kind: ScalarKind) | TagContainer | GenericStruct

  function Shape(k: ScalarKind): (shapes: seq<AtomShape>)
    ensures shapes != [] && Weighty(shapes[0])
  {
    match k
    case IntS => [I32]
    case UInt32S => [U32]
    case Int64S => [I64]
    case UInt64S => [U64]
    case FloatS => [F32]
    case DoubleS => [F64]
    case NameS => [Chars]
    case StrS => [Chars]
    case ObjectS => [Chars]
    case EnumS => [Chars]
    case ByteEnumS => [Chars]
    case ByteS => [U8]
    case SoftObjectS => [Chars, Chars, Chars]
    case GuidS => GUID
    case DateTimeS => [U64]
    case VectorS => [F64, F64, F64]
    case QuatS => [F64, F64, F64, F64]
    case RotatorS => [F64, F64, F64]
    case LinearColorS => [F32, F32, F32, F32]
    case Vector2DS => [F64, F64]
    case IntPointS => [I32, I32]
  }

  function PropertyKindOf(name: seq<byte>): PropertyKind {
    if name == Lit("IntProperty") then ScalarP(IntS)
    else if name == Lit("UInt32Property") then ScalarP(UInt32S)
    else if name == Lit("Int64Property") then ScalarP(Int64S)
    else if name == Lit("UInt64Property") then ScalarP(UInt64S)
    else if name == Lit("FloatProperty") then ScalarP(FloatS)
    else if name == Lit("DoubleProperty") then ScalarP(DoubleS)
    else if name == Lit("BoolProperty") then BoolP
    else if name == Lit("NameProperty") then ScalarP(NameS)
    else if name == Lit("StrProperty") then ScalarP(StrS)
    else if name == Lit("ObjectProperty") then ScalarP(ObjectS)
    else if name == Lit("EnumProperty") then ScalarP(EnumS)
    else if name == Lit("ByteProperty") then ByteP
    else if name == Lit("SoftObjectProperty") then ScalarP(SoftObjectS)
    else if name == Lit("TextProperty") then TextP
    else if name == Lit("StructProperty") then StructP
    else if name == Lit("ArrayProperty") then ArrayP
    else if name == Lit("MapProperty") then MapP
    else if name == Lit("SetProperty") then SetP
    else UnknownP
  }

  function StructKindOf(shortName: seq<byte>): StructKind {
    if shortName == Lit("Guid") then FixedStruct(GuidS)
    else if shortName == Lit("DateTime") then FixedStruct(DateTimeS)
    else if shortName == Lit("Vector") then FixedStruct(VectorS)
    else if shortName == Lit("Quat") then FixedStruct(QuatS)
    else if shortName == Lit("Rotator") then FixedStruct(RotatorS)
    else if shortName == Lit("LinearColor") then FixedStruct(LinearColorS)
    else if shortName == Lit("GameplayTagContainer") then TagContainer
    else if shortName == Lit("Vector2D") then FixedStruct(Vector2DS)
    else if shortName == Lit("IntPoint") then FixedStruct(IntPointS)
    else GenericStruct
  }

  function ShortName(tree: Tree): seq<byte> {
    if tree.children == [] then [] else tree.children[0].name
  }

  function FullPath(tree: Tree): seq<byte> {
    if tree.children == [] then []
    else
      var node := tree.children[0];
      if node.children != [] then node.children[0].name + Lit(".") + node.name else node.name
  }

  function ByteKind(tree: Tree): ScalarKind {
    if tree.children != [] then ByteEnumS else ByteS
  }

  // ---- Values as stored ----

  datatype RawKind = TextData | UnknownType | BinaryStruct

  datatype CValue =
    | CScalar(kind: ScalarKind, atoms: seq<Atom<FString>>)
    | CTagBool(v: bool)                   // carried by the tag's flags
    | CByteBool(raw: int)
    | CTags(tags: seq<Atom<FString>>)
    | CRaw(rawKind: RawKind, typeName: seq<byte>, data: seq<byte>)
    | CStruct(typePath: seq<byte>, props: CProps)
    | CArray(run: Run)
    | CSet(removed: Run, run: Run)
    | CMap(removed: Run, run: Run)        // keys and values alternate

  /** A count and the elements it stands for. */
  datatype Run = Run(count: nat, items: List<CValue>)

  datatype CProps = End(name: FString) | Prop(name: FString, tree: CTree, tag: Tag, value: CValue, more: CProps)

  /** A tag's fields after the type tree; index and GUID when the flags say so. */
  datatype Tag = Tag(size: nat, flags: nat, index: seq<Atom<FString>>, guid: seq<Atom<FString>>)

  predicate HasArrayIndex(flags: nat) { flags % 2 == 1 }
  predicate HasPropertyGuid(flags: nat) { flags / 2 % 2 == 1 }
  predicate BoolTrue(flags: nat) { flags / 4 % 2 == 1 }
  predicate HasBinary(flags: nat) { flags / 16 % 2 == 1 }

  function IndexShape(flags: nat): seq<AtomShape> { if HasArrayIndex(flags) then [U32] else [] }
  function GuidShape(flags: nat): seq<AtomShape> { if HasPropertyGuid(flags) then GUID else [] }

  // ---- Which values fit where ----

  predicate TagOk(tag: Tag) {
    && WordInRange(tag.size, 4, false) && WordInRange(tag.flags, 1, false)
    && AtomsOk(tag.index, IndexShape(tag.flags)) && AtomsOk(tag.guid, GuidShape(tag.flags))
  }

  predicate ScalarOk(v: CValue, k: ScalarKind) {
    v.CScalar? && v.kind == k && AtomsOk(v.atoms, Shape(k))
  }

  predicate RawOk(v: CValue, kind: RawKind, typeName: seq<byte>, size: nat) {
    v.CRaw? && v.rawKind == kind && v.typeName == typeName && |v.data| == size
  }

  predicate TaggedOk(v: CValue, tree: Tree, size: nat, flags: nat)
    decreases v, 2
  {
    match PropertyKindOf(tree.name)
    case ScalarP(k) => ScalarOk(v, k)
    case ByteP => ScalarOk(v, ByteKind(tree))
    case BoolP => v == CTagBool(BoolTrue(flags))
    case TextP => RawOk(v, TextData, [], size)
    case StructP => if HasBinary(flags) then RawOk(v, BinaryStruct, FullPath(tree), size) else StructOk(v, tree)
    case ArrayP => tree.children != [] && v.CArray? && RunOk(v.run, tree.children[0], tree.children[0], false, true)
    case MapP =>
      && |tree.children| >= 2 && v.CMap?
      && RunOk(v.removed, tree.children[0], tree.children[0], false, false)
      && RunOk(v.run, tree.children[0], tree.children[1], true, true)
    case SetP =>
      && tree.children != [] && v.CSet?
      && RunOk(v.removed, tree.children[0], tree.children[0], false, false)
      && RunOk(v.run, tree.children[0], tree.children[0], false, true)
    case UnknownP => RawOk(v, UnknownType, tree.name, size)
  }

  predicate StructOk(v: CValue, tree: Tree)
    decreases v, 0
  {
    match StructKindOf(ShortName(tree))
    case FixedStruct(k) => ScalarOk(v, k)
    case TagContainer =>
      v.CTags? && WordInRange(|v.tags|, 4, false) && AtomsOk(v.tags, Copies([Chars], |v.tags|))
    case GenericStruct => v.CStruct? && v.typePath == FullPath(tree) && PropsOk(v.props)
  }

  predicate ElementOk(v: CValue, tree: Tree)
    decreases v, 1
  {
    match PropertyKindOf(tree.name)
    case ScalarP(k) => ScalarOk(v, k)
    case ByteP => ScalarOk(v, ByteKind(tree))
    case BoolP => v.CByteBool? && WordInRange(v.raw, 1, false)
    case StructP => StructOk(v, tree)
    case _ => false
  }

  predicate RunOk(run: Run, first: Tree, second: Tree, paired: bool, limited: bool)
    decreases run
  {
    && WordInRange(run.count, 4, false) && (limited ==> run.count <= MAX_ARRAY_COUNT)
    && ElementsOk(run.items, first, second, if paired then 2 * run.count else run.count)
  }

  /** Elements of the two types in turn, starting with the first. */
  predicate ElementsOk(vs: List<CValue>, first: Tree, second: Tree, n: nat)
    decreases vs
  {
    match vs
    case Nil => n == 0
    case Cons(v, more) => n > 0 && ElementOk(v, first) && ElementsOk(more, second, first, n - 1)
  }

  predicate PropsOk(ps: CProps)
    decreases ps
  {
    match ps
    case End(name) => FStringOk(name) && TextOf(name) == Lit("None")
    case Prop(name, tree, tag, value, more) =>
      && FStringOk(name) && TextOf(name) != Lit("None")
      && TreeOk(tree, 0) && TagOk(tag) && TaggedOk(value, EraseTree(tree), tag.size, tag.flags)
      && PropsOk(more)
  }

  // ---- Printing ----

  function PrintTag(tag: Tag, tail: seq<byte>): seq<byte> {
    PrintWord(tag.size, 4,
              PrintWord(tag.flags, 1,
                        PrintAtoms(tag.index, IndexShape(tag.flags),
                                   PrintAtoms(tag.guid, GuidShape(tag.flags), tail))))
  }

  function PrintValue(v: CValue, tail: seq<byte>): seq<byte>
    decreases v
  {
    match v
    case CScalar(k, atoms) => PrintAtoms(atoms, Shape(k), tail)
    case CTagBool(_) => tail
    case CByteBool(raw) => PrintWord(raw, 1, tail)
    case CTags(tags) => PrintWord(|tags|, 4, PrintAtoms(tags, Copies([Chars], |tags|), tail))
    case CRaw(_, _, data) => data + tail
    case CStruct(_, props) => PrintProps(props, tail)
    case CArray(run) => PrintRun(run, tail)
    case CSet(removed, run) => PrintRun(removed, PrintRun(run, tail))
    case CMap(removed, run) => PrintRun(removed, PrintRun(run, tail))
  }

  function PrintRun(run: Run, tail: seq<byte>): seq<byte>
    decreases run
  {
    PrintWord(run.count, 4, PrintElements(run.items, tail))
  }

  function PrintElements(vs: List<CValue>, tail: seq<byte>): seq<byte>
    decreases vs
  {
    match vs
    case Nil => tail
    case Cons(v, more) => PrintValue(v, PrintElements(more, tail))
  }

  function PrintProps(ps: CProps, tail: seq<byte>): seq<byte>
    decreases ps
  {
    match ps
    case End(name) => PrintFString(name, tail)
    case Prop(name, tree, tag, value, more) =>
      PrintFString(name, PrintTree(tree, PrintTag(tag, PrintValue(value, PrintProps(more, tail)))))
  }

  // ---- Reading ----

  function ReadTag(b: seq<byte>): (g: Got<Tag>)
    ensures g.Got? ==> |g.rest| < |b|
  {
    var (size, r1) :- ReadWord(b, 4, false);
    var (flags, r2) :- ReadWord(r1, 1, false);
    var (index, r3) :- ReadAtoms(IndexShape(flags), r2);
    var (guid, r4) :- ReadAtoms(GuidShape(flags), r3);
    Got(Tag(size, flags, index, guid), r4)
  }

  function ReadScalar(k: ScalarKind, b: seq<byte>): (g: Got<CValue>)
    ensures g.Got? ==> |g.rest| < |b|
  {
    var (atoms, rest) :- ReadAtoms(Shape(k), b);
    Got(CScalar(k, atoms), rest)
  }

  function ReadRaw(kind: RawKind, typeName: seq<byte>, size: nat, b: seq<byte>): (g: Got<CValue>)
    ensures g.Got? ==> |g.rest| <= |b|
  {
    var (data, rest) :- Take(b, size);
    Got(CRaw(kind, typeName, data), rest)
  }

  function ReadTagged(tree: Tree, size: nat, flags: nat, b: seq<byte>): (g: Got<CValue>)
    ensures g.Got? ==> |g.rest| <= |b|
    decreases |b|, 4
  {
    match PropertyKindOf(tree.name)
    case ScalarP(k) => ReadScalar(k, b)
    case ByteP => ReadScalar(ByteKind(tree), b)
    case BoolP => Got(CTagBool(BoolTrue(flags)), b)
    case TextP => ReadRaw(TextData, [], size, b)
    case StructP => if HasBinary(flags) then ReadRaw(BinaryStruct, FullPath(tree), size, b) else ReadStruct(tree, b)
    case ArrayP =>
      if tree.children == [] then Failed(Malformed)
      else
        var (run, rest) :- ReadRun(tree.children[0], tree.children[0], false, true, b);
        Got(CArray(run), rest)
    case MapP =>
      if |tree.children| < 2 then Failed(Malformed)
      else
        var (removed, r1) :- ReadRun(tree.children[0], tree.children[0], false, false, b);
        var (run, r2) :- ReadRun(tree.children[0], tree.children[1], true, true, r1);
        Got(CMap(removed, run), r2)
    case SetP =>
      if tree.children == [] then Failed(Malformed)
      else
        var (removed, r1) :- ReadRun(tree.children[0], tree.children[0], false, false, b);
        var (run, r2) :- ReadRun(tree.children[0], tree.children[0], false, true, r1);
        Got(CSet(removed, run), r2)
    case UnknownP => ReadRaw(UnknownType, tree.name, size, b)
  }

  function ReadStruct(tree: Tree, b: seq<byte>): (g: Got<CValue>)
    ensures g.Got? ==> |g.rest| < |b|
    decreases |b|, 1
  {
    match StructKindOf(ShortName(tree))
    case FixedStruct(k) => ReadScalar(k, b)
    case TagContainer =>
      var (count, r1) :- ReadWord(b, 4, false);
      var (tags, r2) :- ReadAtoms(Copies([Chars], count), r1);
      Got(CTags(tags), r2)
    case GenericStruct =>
      var (props, rest) :- ReadProps(b);
      Got(CStruct(FullPath(tree), props), rest)
  }

  function ReadElement(tree: Tree, b: seq<byte>): (g: Got<CValue>)
    ensures g.Got? ==> |g.rest| < |b|
    decreases |b|, 2
  {
    match PropertyKindOf(tree.name)
    case ScalarP(k) => ReadScalar(k, b)
    case ByteP => ReadScalar(ByteKind(tree), b)
    case BoolP =>
      var (raw, rest) :- ReadWord(b, 1, false);
      Got(CByteBool(raw), rest)
    case StructP => ReadStruct(tree, b)
    case _ => Failed(Malformed)
  }

  function ReadRun(first: Tree, second: Tree, paired: bool, limited: bool, b: seq<byte>): (g: Got<Run>)
    ensures g.Got? ==> |g.rest| < |b|
    decreases |b|, 3
  {
    var (count, r1) :- ReadWord(b, 4, false);
    if limited && count > MAX_ARRAY_COUNT then Failed(Malformed)
    else
      var (items, r2) :- ReadElements(first, second, if paired then 2 * count else count, r1);
      Got(Run(count, items), r2)
  }

  function ReadElements(first: Tree, second: Tree, n: nat, b: seq<byte>): (g: Got<List<CValue>>)
    ensures g.Got? ==> |g.rest| <= |b|
    decreases |b|, 3
  {
    if n == 0 then Got(Nil, b)
    else
      var (v, r1) :- ReadElement(first, b);
      var (more, r2) :- ReadElements(second, first, n - 1, r1);
      Got(Cons(v, more), r2)
  }

  function ReadProps(b: seq<byte>): (g: Got<CProps>)
    ensures g.Got? ==> |g.rest| < |b|
    decreases |b|, 0
  {
    var (name, r1) :- ReadFString(b);
    if TextOf(name) == Lit("None") then Got(End(name), r1)
    else
      var (tree, r2) :- ReadTree(0, r1);
      var (tag, r3) :- ReadTag(r2);
      var (value, r4) :- ReadTagged(EraseTree(tree), tag.size, tag.flags, r3);
      var (more, r5) :- ReadProps(r4);
      Got(Prop(name, tree, tag, value, more), r5)
  }
}
