/** The parsed save: what is left of a GVAS file once string encodings, sizes,
    unused flags and removed keys are forgotten, and a canonical way back. */
module GvasValues {
  import opened Bits
  import opened Common
  import opened GvasText
  import opened GvasFormat
  import opened GvasProofs

  type GoString = seq<byte>
  type Field = Atom<GoString>

  datatype Value =
    | Scalar(kind: ScalarKind, fields: seq<Field>)
    | Bool(v: bool)
    | TagList(tags: seq<Field>)
    | Raw(rawKind: RawKind, typeName: GoString, data: seq<byte>)
    | Struct(typePath: GoString, properties: seq<Property>)
    | Array(elements: seq<Value>)
    | Map(entries: seq<MapEntry>)

  datatype MapEntry = MapEntry(key: Value, value: Value)

  datatype Property = Property(name: GoString, tree: Tree, arrayIndex: int, guid: Option<seq<Field>>, value: Value)

  // ---- What is kept ----

  function EraseAtom(a: Atom<FString>): Field {
    match a
    case Num(n) => Num(n)
    case Text(s) => Text(TextOf(s))
  }

  function EraseAtoms(atoms: seq<Atom<FString>>): (fields: seq<Field>)
    ensures |fields| == |atoms|
    ensures forall i :: 0 <= i < |atoms| ==> fields[i] == EraseAtom(atoms[i])
  {
    if atoms == [] then [] else [EraseAtom(atoms[0])] + EraseAtoms(atoms[1..])
  }

  /** The one word there may be. */
  function IndexOf(atoms: seq<Atom<FString>>): int {
    if atoms != [] && atoms[0].Num? then atoms[0].n else 0
  }

  function ArrayIndexOf(tag: Tag): int {
    IndexOf(tag.index)
  }

  function GuidOf(tag: Tag): Option<seq<Field>> {
    if HasPropertyGuid(tag.flags) then Some(EraseAtoms(tag.guid)) else None
  }

  function EraseValue(v: CValue): Value
    decreases v
  {
    match v
    case CScalar(k, atoms) => Scalar(k, EraseAtoms(atoms))
    case CTagBool(v) => Bool(v)
    case CByteBool(raw) => Bool(raw != 0)
    case CTags(tags) => TagList(EraseAtoms(tags))
    case CRaw(kind, typeName, data) => Raw(kind, typeName, data)
    case CStruct(typePath, props) => Struct(typePath, EraseProps(props))
    case CArray(run) => Array(EraseElements(run.items))
    case CSet(_, run) => Array(EraseElements(run.items))
    case CMap(_, run) => Map(EraseEntries(run.items))
  }

  function EraseElements(vs: List<CValue>): seq<Value>
    decreases vs
  {
    match vs
    case Nil => []
    case Cons(v, more) => [EraseValue(v)] + EraseElements(more)
  }

  function EraseEntries(vs: List<CValue>): seq<MapEntry>
    decreases vs
  {
    match vs
    case Cons(k, Cons(v, more)) => [MapEntry(EraseValue(k), EraseValue(v))] + EraseEntries(more)
    case _ => []
  }

  function EraseProps(ps: CProps): seq<Property>
    decreases ps
  {
    match ps
    case End(_) => []
    case Prop(name, tree, tag, value, more) =>
      [Property(TextOf(name), EraseTree(tree), ArrayIndexOf(tag), GuidOf(tag), EraseValue(value))] + EraseProps(more)
  }

  // ---- A canonical layout ----

  function CanonString(s: GoString): FString {
    if s == [] then Empty else Narrow(s + [0])
  }

  function CanonAtom(f: Field): Atom<FString> {
    match f
    case Num(n) => Num(n)
    case Text(s) => Text(CanonString(s))
  }

  function CanonAtoms(fields: seq<Field>): (atoms: seq<Atom<FString>>)
    ensures |atoms| == |fields|
    ensures forall i :: 0 <= i < |atoms| ==> atoms[i] == CanonAtom(fields[i])
  {
    if fields == [] then [] else [CanonAtom(fields[0])] + CanonAtoms(fields[1..])
  }

  function CanonTree(t: Tree): CTree
    decreases t
  {
    CNode(CanonString(t.name), Forest(|t.children|, CanonTrees(t.children)))
  }

  function CanonTrees(ts: seq<Tree>): List<CTree>
    decreases ts
  {
    if ts == [] then Nil else Cons(CanonTree(ts[0]), CanonTrees(ts[1..]))
  }

  function Child(tree: Tree, i: nat): Tree {
    if i < |tree.children| then tree.children[i] else Node([], [])
  }

  function CanonValue(v: Value, tree: Tree, tagged: bool): CValue
    decreases v
  {
    match v
    case Scalar(k, fields) => CScalar(k, CanonAtoms(fields))
    case Bool(b) => if tagged then CTagBool(b) else CByteBool(if b then 1 else 0)
    case TagList(tags) => CTags(CanonAtoms(tags))
    case Raw(kind, typeName, data) => CRaw(kind, typeName, data)
    case Struct(typePath, properties) => CStruct(typePath, CanonProps(properties))
    case Array(elements) =>
      var run := Run(|elements|, CanonElements(elements, Child(tree, 0)));
      if PropertyKindOf(tree.name) == SetP then CSet(Run(0, Nil), run) else CArray(run)
    case Map(entries) => CMap(Run(0, Nil), Run(|entries|, CanonEntries(entries, Child(tree, 0), Child(tree, 1))))
  }

  function CanonElements(vs: seq<Value>, tree: Tree): List<CValue>
    decreases vs
  {
    if vs == [] then Nil else Cons(CanonValue(vs[0], tree, false), CanonElements(vs[1..], tree))
  }

  function CanonEntries(es: seq<MapEntry>, key: Tree, value: Tree): List<CValue>
    decreases es
  {
    if es == [] then Nil else CanonEntry(es[0], key, value, CanonEntries(es[1..], key, value))
  }

  function CanonEntry(e: MapEntry, key: Tree, value: Tree, more: List<CValue>): List<CValue>
    decreases e
  {
    Cons(CanonValue(e.key, key, false), Cons(CanonValue(e.value, value, false), more))
  }

  /** Flags are set only where the property needs them. */
  function CanonTag(p: Property): Tag {
    var size := if p.value.Raw? then |p.value.data| else 0;
    var index := if p.arrayIndex != 0 then 1 else 0;
    var guid := if p.guid.Some? then 2 else 0;
    var truth := if p.value == Bool(true) then 4 else 0;
    var binary := if p.value.Raw? && p.value.rawKind == BinaryStruct then 16 else 0;
    Tag(size, index + guid + truth + binary,
        if p.arrayIndex != 0 then [Num(p.arrayIndex)] else [],
        match p.guid case None => [] case Some(g) => CanonAtoms(g))
  }

  function CanonProps(ps: seq<Property>): CProps
    decreases ps
  {
    if ps == [] then End(CanonString(Lit("None")))
    else
      var p := ps[0];
      Prop(CanonString(p.name), CanonTree(p.tree), CanonTag(p), CanonValue(p.value, p.tree, true), CanonProps(ps[1..]))
  }

  // ---- Nothing is lost on the way ----

  lemma CanonStringKeeps(s: GoString)
    ensures TextOf(CanonString(s)) == s
  {
    if s != [] {
      assert (s + [0])[..|s|] == s;
    }
  }

  lemma CanonAtomsKeep(fields: seq<Field>)
    ensures EraseAtoms(CanonAtoms(fields)) == fields
  {
    forall i | 0 <= i < |fields|
      ensures EraseAtoms(CanonAtoms(fields))[i] == fields[i]
    {
      if fields[i].Text? {
        CanonStringKeeps(fields[i].s);
      }
    }
  }

  lemma {:induction false} CanonTreeKeeps(t: Tree)
    ensures EraseTree(CanonTree(t)) == t
    decreases t
  {
    CanonStringKeeps(t.name);
    CanonTreesKeep(t.children);
  }

  lemma {:induction false} CanonTreesKeep(ts: seq<Tree>)
    ensures EraseTrees(CanonTrees(ts)) == ts
    decreases ts
  {
    if ts != [] {
      CanonTreeKeeps(ts[0]);
      CanonTreesKeep(ts[1..]);
    }
  }

  lemma CanonTagKeeps(p: Property)
    ensures ArrayIndexOf(CanonTag(p)) == p.arrayIndex && GuidOf(CanonTag(p)) == p.guid
  {
    hide CanonAtoms, EraseAtoms;
    if p.guid.Some? {
      CanonAtomsKeep(p.guid.value);
    }
  }

  lemma {:induction false} CanonValueKeeps(v: Value, tree: Tree, tagged: bool)
    ensures EraseValue(CanonValue(v, tree, tagged)) == v
    decreases v
  {
    hide CanonAtoms, EraseAtoms, PropertyKindOf, Child;
    match v
    case Scalar(k, fields) => CanonAtomsKeep(fields);
    case Bool(b) =>
    case TagList(tags) => CanonAtomsKeep(tags);
    case Raw(kind, typeName, data) =>
    case Struct(typePath, properties) => CanonPropsKeep(properties);
    case Array(elements) => CanonElementsKeep(elements, Child(tree, 0));
    case Map(entries) => CanonEntriesKeep(entries, Child(tree, 0), Child(tree, 1));
  }

  lemma {:induction false} CanonElementsKeep(vs: seq<Value>, tree: Tree)
    ensures EraseElements(CanonElements(vs, tree)) == vs
    decreases vs
  {
    if vs != [] {
      CanonValueKeeps(vs[0], tree, false);
      CanonElementsKeep(vs[1..], tree);
    }
  }

  lemma {:induction false} CanonEntriesKeep(es: seq<MapEntry>, key: Tree, value: Tree)
    ensures EraseEntries(CanonEntries(es, key, value)) == es
    decreases es
  {
    if es != [] {
      CanonEntryKeeps(es[0], key, value, CanonEntries(es[1..], key, value));
      CanonEntriesKeep(es[1..], key, value);
    }
  }

  lemma {:induction false} CanonEntryKeeps(e: MapEntry, key: Tree, value: Tree, more: List<CValue>)
    ensures EraseEntries(CanonEntry(e, key, value, more)) == [e] + EraseEntries(more)
    decreases e
  {
    CanonValueKeeps(e.key, key, false);
    CanonValueKeeps(e.value, value, false);
  }

  lemma {:induction false} CanonPropsKeep(ps: seq<Property>)
    ensures EraseProps(CanonProps(ps)) == ps
    decreases ps
  {
    hide TextOf, CanonString, CanonTree, EraseTree, CanonTag, ArrayIndexOf, GuidOf, CanonValue, EraseValue;
    if ps != [] {
      var p := ps[0];
      CanonStringKeeps(p.name);
      CanonTreeKeeps(p.tree);
      CanonTagKeeps(p);
      CanonValueKeeps(p.value, p.tree, true);
      CanonPropsKeep(ps[1..]);
    }
  }

  // ---- The round trip, in terms of the parsed save ----

  /** A read, keeping only what `f` keeps of the value. */
  function Kept<T, U>(g: Got<T>, f: T -> U): Got<U> {
    match g
    case Got(v, rest) => Got(f(v), rest)
    case Failed(why) => Failed(why)
  }

  function ParseProperties(b: seq<byte>): Got<seq<Property>> {
    Kept(ReadProps(b), EraseProps)
  }

  /** Every value fits its type tree and every limit is respected. */
  predicate Serializable(ps: seq<Property>) {
    PropsOk(CanonProps(ps))
  }

  function Serialize(ps: seq<Property>): seq<byte> {
    PrintProps(CanonProps(ps), [])
  }

  /** Parsing returns the very property list that was serialized, consumes exactly
      its bytes and leaves the rest. */
  lemma ParseUndoesSerialize(ps: seq<Property>, extra: seq<byte>)
    requires Serializable(ps)
    ensures ParseProperties(Serialize(ps) + extra) == Got(ps, extra)
  {
    PropsExtend(CanonProps(ps), [], extra);
    assert [] + extra == extra;
    ReadPrintedProps(CanonProps(ps), extra);
    CanonPropsKeep(ps);
  }
}
