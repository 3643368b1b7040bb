/** Which parsed property lists can be laid out canonically: exactly those whose
    strings leave room for a terminator. */
module GvasLimits {
  import opened Common
  import opened GvasText
  import opened GvasFormat
  import opened GvasProofs
  import opened GvasValues

  // ---- String lengths ----

  predicate StringFits(s: GoString) {
    |s| < MAX_STRING_BYTES
  }

  predicate FieldsFit(fields: seq<Field>) {
    if fields == [] then true
    else (fields[0].Text? ==> StringFits(fields[0].s)) && FieldsFit(fields[1..])
  }

  predicate TreeFits(t: Tree)
    decreases t
  {
    StringFits(t.name) && TreesFit(t.children)
  }

  predicate TreesFit(ts: seq<Tree>)
    decreases ts
  {
    if ts == [] then true else TreeFits(ts[0]) && TreesFit(ts[1..])
  }

  predicate ValueFits(v: Value)
    decreases v
  {
    match v
    case Scalar(_, fields) => FieldsFit(fields)
    case Bool(_) => true
    case TagList(tags) => FieldsFit(tags)
    case Raw(_, _, _) => true
    case Struct(_, properties) => PropertiesFit(properties)
    case Array(elements) => ElementsFit(elements)
    case Map(entries) => EntriesFit(entries)
  }

  predicate ElementsFit(vs: seq<Value>)
    decreases vs
  {
    if vs == [] then true else ValueFits(vs[0]) && ElementsFit(vs[1..])
  }

  predicate EntryFits(e: MapEntry)
    decreases e
  {
    ValueFits(e.key) && ValueFits(e.value)
  }

  predicate EntriesFit(es: seq<MapEntry>)
    decreases es
  {
    if es == [] then true else EntryFits(es[0]) && EntriesFit(es[1..])
  }

  predicate PropertyFits(p: Property)
    decreases p
  {
    StringFits(p.name) && TreeFits(p.tree) && ValueFits(p.value)
  }

  /** Every name and text is shorter than the limit, by the byte of its terminator. */
  predicate PropertiesFit(ps: seq<Property>)
    decreases ps
  {
    if ps == [] then true else PropertyFits(ps[0]) && PropertiesFit(ps[1..])
  }

  // ---- What was stored and fits can be laid out ----

  lemma {:induction false} AtomsCanonOk(atoms: seq<Atom<FString>>, shapes: seq<AtomShape>)
    requires AtomsOk(atoms, shapes) && FieldsFit(EraseAtoms(atoms))
    ensures AtomsOk(CanonAtoms(EraseAtoms(atoms)), shapes)
    decreases |atoms|
  {
    if shapes != [] {
      var fields := EraseAtoms(atoms);
      assert fields[1..] == EraseAtoms(atoms[1..]);
      AtomsCanonOk(atoms[1..], shapes[1..]);
      assert CanonAtoms(fields)[1..] == CanonAtoms(fields[1..]);
    }
  }

  lemma {:induction false} NumbersFit(atoms: seq<Atom<FString>>, shapes: seq<AtomShape>)
    requires AtomsOk(atoms, shapes) && Chars !in shapes
    ensures FieldsFit(EraseAtoms(atoms))
    decreases |atoms|
  {
    if shapes != [] {
      assert shapes[0] in shapes;
      assert EraseAtoms(atoms)[1..] == EraseAtoms(atoms[1..]);
      NumbersFit(atoms[1..], shapes[1..]);
    }
  }

  lemma {:induction false} TreeCanonOk(t: CTree, depth: nat)
    requires TreeOk(t, depth) && TreeFits(EraseTree(t))
    ensures TreeOk(CanonTree(EraseTree(t)), depth)
    decreases t
  {
    TreesCanonOk(t.children.trees, depth + 1, t.children.count);
  }

  lemma {:induction false} TreesCanonOk(ts: List<CTree>, depth: nat, n: nat)
    requires TreesOk(ts, depth, n) && TreesFit(EraseTrees(ts))
    ensures |EraseTrees(ts)| == n && TreesOk(CanonTrees(EraseTrees(ts)), depth, n)
    decreases ts
  {
    match ts
    case Nil =>
    case Cons(t, more) =>
      assert EraseTrees(ts)[1..] == EraseTrees(more);
      TreeCanonOk(t, depth);
      TreesCanonOk(more, depth, n - 1);
  }

  lemma ScalarCanonOk(v: CValue, k: ScalarKind, tree: Tree, tagged: bool)
    requires ScalarOk(v, k) && ValueFits(EraseValue(v))
    ensures ScalarOk(CanonValue(EraseValue(v), tree, tagged), k)
  {
    hide Shape, PropertyKindOf;
    AtomsCanonOk(v.atoms, Shape(k));
  }

  /** The size and flags the canonical tag would have. */
  predicate CanonicalTag(v: Value, size: nat, flags: nat) {
    && (v.Raw? ==> size == |v.data|)
    && (HasBinary(flags) <==> v.Raw? && v.rawKind == BinaryStruct)
    && (BoolTrue(flags) <==> v == Bool(true))
  }

  lemma {:induction false} TaggedCanonOk(v: CValue, tree: Tree, size: nat, flags: nat, size': nat, flags': nat)
    requires TaggedOk(v, tree, size, flags) && ValueFits(EraseValue(v)) && CanonicalTag(EraseValue(v), size', flags')
    ensures TaggedOk(CanonValue(EraseValue(v), tree, true), tree, size', flags')
    decreases v, 2
  {
    hide PropertyKindOf, ScalarOk, StructOk, ElementsOk, HasBinary, BoolTrue, FullPath, StructKindOf;
    match PropertyKindOf(tree.name)
    case ScalarP(k) => ScalarCanonOk(v, k, tree, true);
    case ByteP => ScalarCanonOk(v, ByteKind(tree), tree, true);
    case BoolP =>
    case TextP =>
    case StructP =>
      if !HasBinary(flags) {
        StructCanonOk(v, tree, true);
      }
    case ArrayP => ElementsCanonOk(v.run.items, tree.children[0], v.run.count);
    case MapP =>
      EntriesCanonOk(v.run.items, tree.children[0], tree.children[1], v.run.count);
      NoneRemoved(tree.children[0]);
    case SetP =>
      ElementsCanonOk(v.run.items, tree.children[0], v.run.count);
      NoneRemoved(tree.children[0]);
    case UnknownP =>
  }

  lemma NoneRemoved(tree: Tree)
    ensures RunOk(Run(0, Nil), tree, tree, false, false)
  {
  }

  lemma {:induction false} StructCanonOk(v: CValue, tree: Tree, tagged: bool)
    requires StructOk(v, tree) && ValueFits(EraseValue(v))
    ensures StructOk(CanonValue(EraseValue(v), tree, tagged), tree) && !EraseValue(v).Raw?
    decreases v, 0
  {
    hide StructKindOf, ScalarOk, PropsOk, FullPath, ShortName, Copies, AtomsOk, PropertyKindOf;
    match StructKindOf(ShortName(tree))
    case FixedStruct(k) =>
      ScalarCanonOk(v, k, tree, tagged);
      ScalarIsNotRaw(v, k);
    case TagContainer => AtomsCanonOk(v.tags, Copies([Chars], |v.tags|));
    case GenericStruct => PropsCanonOk(v.props);
  }

  lemma ScalarIsNotRaw(v: CValue, k: ScalarKind)
    requires ScalarOk(v, k)
    ensures !EraseValue(v).Raw?
  {
    hide AtomsOk;
  }

  lemma {:induction false} ElementCanonOk(v: CValue, tree: Tree)
    requires ElementOk(v, tree) && ValueFits(EraseValue(v))
    ensures ElementOk(CanonValue(EraseValue(v), tree, false), tree)
    decreases v, 1
  {
    hide PropertyKindOf, ScalarOk, StructOk;
    match PropertyKindOf(tree.name)
    case ScalarP(k) => ScalarCanonOk(v, k, tree, false);
    case ByteP => ScalarCanonOk(v, ByteKind(tree), tree, false);
    case BoolP => Pow256Values();
    case StructP => StructCanonOk(v, tree, false);
  }

  lemma {:induction false} ElementsCanonOk(vs: List<CValue>, tree: Tree, n: nat)
    requires ElementsOk(vs, tree, tree, n) && ElementsFit(EraseElements(vs))
    ensures |EraseElements(vs)| == n && ElementsOk(CanonElements(EraseElements(vs), tree), tree, tree, n)
    decreases vs
  {
    hide ElementOk, CanonValue, EraseValue, ValueFits;
    match vs
    case Nil =>
    case Cons(v, more) =>
      assert EraseElements(vs)[1..] == EraseElements(more);
      ElementCanonOk(v, tree);
      ElementsCanonOk(more, tree, n - 1);
  }

  lemma {:induction false} EntriesCanonOk(vs: List<CValue>, key: Tree, value: Tree, n: nat)
    requires ElementsOk(vs, key, value, 2 * n) && EntriesFit(EraseEntries(vs))
    ensures |EraseEntries(vs)| == n && ElementsOk(CanonEntries(EraseEntries(vs), key, value), key, value, 2 * n)
    decreases vs
  {
    hide ElementOk, CanonValue, EraseValue, ValueFits;
    match vs
    case Nil =>
    case Cons(k, rest) =>
      var v, more := rest.head, rest.tail;
      assert EraseEntries(vs) == [MapEntry(EraseValue(k), EraseValue(v))] + EraseEntries(more);
      assert EraseEntries(vs)[1..] == EraseEntries(more);
      ElementCanonOk(k, key);
      ElementCanonOk(v, value);
      EntriesCanonOk(more, key, value, n - 1);
  }

  lemma CanonTagOk(p: Property, tag: Tag)
    requires TagOk(tag) && ArrayIndexOf(tag) == p.arrayIndex && GuidOf(tag) == p.guid
    requires p.value.Raw? ==> |p.value.data| == tag.size
    ensures TagOk(CanonTag(p)) && CanonicalTag(p.value, CanonTag(p).size, CanonTag(p).flags)
  {
    hide WordInRange;
    var c := CanonTag(p);
    CanonWords(p, tag);
    assert HasArrayIndex(c.flags) <==> p.arrayIndex != 0;
    assert HasPropertyGuid(c.flags) <==> p.guid.Some?;
    IndexCanonOk(p, tag);
    if p.guid.Some? {
      assert Chars !in GUID;
      NumbersFit(tag.guid, GUID);
      AtomsCanonOk(tag.guid, GUID);
    }
  }

  lemma CanonWords(p: Property, tag: Tag)
    requires TagOk(tag) && (p.value.Raw? ==> |p.value.data| == tag.size)
    ensures WordInRange(CanonTag(p).size, 4, false) && WordInRange(CanonTag(p).flags, 1, false)
  {
    hide AtomsOk, CanonAtoms;
    Pow256Values();
  }

  lemma IndexCanonOk(p: Property, tag: Tag)
    requires TagOk(tag) && ArrayIndexOf(tag) == p.arrayIndex
    ensures AtomsOk(CanonTag(p).index, if p.arrayIndex != 0 then [U32] else [])
  {
    hide CanonAtoms;
    assert [U32][1..] == [];
    assert CanonTag(p).index[if p.arrayIndex != 0 then 1 else 0..] == [];
  }

  lemma {:induction false} PropsCanonOk(ps: CProps)
    requires PropsOk(ps) && PropertiesFit(EraseProps(ps))
    ensures PropsOk(CanonProps(EraseProps(ps)))
    decreases ps
  {
    hide TaggedOk, TagOk, TreeOk, TreeFits, ValueFits, CanonTag, CanonValue, CanonTree, EraseTree, EraseValue,
      ArrayIndexOf, GuidOf, CanonicalTag, FStringOk, TextOf, CanonString;
    match ps
    case End(_) => NoneIsCanonical();
    case Prop(name, tree, tag, value, more) =>
      var all := EraseProps(ps);
      var p := all[0];
      assert all[1..] == EraseProps(more);
      assert PropertyFits(p);
      NameCanonOk(p.name);
      TreeCanonOk(tree, 0);
      CanonTreeKeeps(p.tree);
      RawSize(value, EraseTree(tree), tag.size, tag.flags);
      CanonTagOk(p, tag);
      var c := CanonTag(p);
      TaggedCanonOk(value, p.tree, tag.size, tag.flags, c.size, c.flags);
      PropsCanonOk(more);
  }

  lemma NameCanonOk(s: GoString)
    requires StringFits(s)
    ensures FStringOk(CanonString(s)) && TextOf(CanonString(s)) == s
  {
    CanonStringKeeps(s);
  }

  lemma NoneIsCanonical()
    ensures PropsOk(CanonProps([]))
  {
    NameCanonOk(Lit("None"));
  }

  lemma RawSize(v: CValue, tree: Tree, size: nat, flags: nat)
    requires TaggedOk(v, tree, size, flags)
    ensures EraseValue(v).Raw? ==> |EraseValue(v).data| == size
  {
    hide PropertyKindOf, AtomsOk, RunOk, PropsOk, StructKindOf, FullPath;
  }

  // ---- What can be laid out fits ----

  lemma {:induction false} AtomsFitIfOk(fields: seq<Field>, shapes: seq<AtomShape>)
    requires AtomsOk(CanonAtoms(fields), shapes)
    ensures FieldsFit(fields)
    decreases |fields|
  {
    if shapes != [] {
      assert CanonAtoms(fields)[1..] == CanonAtoms(fields[1..]);
      AtomsFitIfOk(fields[1..], shapes[1..]);
    }
  }

  lemma {:induction false} TreeFitsIfOk(t: Tree, depth: nat)
    requires TreeOk(CanonTree(t), depth)
    ensures TreeFits(t)
    decreases t
  {
    TreesFitIfOk(t.children, depth + 1, |t.children|);
  }

  lemma {:induction false} TreesFitIfOk(ts: seq<Tree>, depth: nat, n: nat)
    requires TreesOk(CanonTrees(ts), depth, n)
    ensures TreesFit(ts)
    decreases ts
  {
    if ts != [] {
      TreeFitsIfOk(ts[0], depth);
      TreesFitIfOk(ts[1..], depth, n - 1);
    }
  }

  lemma {:induction false} ValueFitsIfTagged(v: Value, tree: Tree, size: nat, flags: nat)
    requires TaggedOk(CanonValue(v, tree, true), tree, size, flags)
    ensures ValueFits(v)
    decreases v, 2
  {
    hide PropertyKindOf, StructOk, ElementsOk, Shape, AtomsOk, FullPath, HasBinary, BoolTrue;
    match PropertyKindOf(tree.name)
    case ScalarP(k) => AtomsFitIfOk(v.fields, Shape(k));
    case ByteP => AtomsFitIfOk(v.fields, Shape(ByteKind(tree)));
    case StructP =>
      if !HasBinary(flags) {
        StructFitsIfOk(v, tree, true);
      }
    case ArrayP => ElementsFitIfOk(v.elements, tree.children[0], |v.elements|);
    case MapP => EntriesFitIfOk(v.entries, tree.children[0], tree.children[1], 2 * |v.entries|);
    case SetP => ElementsFitIfOk(v.elements, tree.children[0], |v.elements|);
    case _ =>
  }

  lemma {:induction false} StructFitsIfOk(v: Value, tree: Tree, tagged: bool)
    requires StructOk(CanonValue(v, tree, tagged), tree)
    ensures ValueFits(v)
    decreases v, 0
  {
    hide StructKindOf, PropsOk, FullPath, ShortName, Copies, AtomsOk, PropertyKindOf, Shape;
    match StructKindOf(ShortName(tree))
    case FixedStruct(k) => AtomsFitIfOk(v.fields, Shape(k));
    case TagContainer => AtomsFitIfOk(v.tags, Copies([Chars], |v.tags|));
    case GenericStruct => PropertiesFitIfOk(v.properties);
  }

  lemma {:induction false} ElementFitsIfOk(v: Value, tree: Tree)
    requires ElementOk(CanonValue(v, tree, false), tree)
    ensures ValueFits(v)
    decreases v, 1
  {
    hide PropertyKindOf, StructOk, Shape, AtomsOk;
    match PropertyKindOf(tree.name)
    case ScalarP(k) => AtomsFitIfOk(v.fields, Shape(k));
    case ByteP => AtomsFitIfOk(v.fields, Shape(ByteKind(tree)));
    case BoolP =>
    case StructP => StructFitsIfOk(v, tree, false);
  }

  lemma {:induction false} ElementsFitIfOk(vs: seq<Value>, tree: Tree, n: nat)
    requires ElementsOk(CanonElements(vs, tree), tree, tree, n)
    ensures ElementsFit(vs)
    decreases vs
  {
    hide ElementOk, CanonValue, ValueFits;
    if vs != [] {
      ElementFitsIfOk(vs[0], tree);
      ElementsFitIfOk(vs[1..], tree, n - 1);
    }
  }

  lemma {:induction false} EntryFitsIfOk(e: MapEntry, key: Tree, value: Tree)
    requires ElementOk(CanonValue(e.key, key, false), key) && ElementOk(CanonValue(e.value, value, false), value)
    ensures EntryFits(e)
    decreases e
  {
    hide ElementOk, CanonValue, ValueFits;
    ElementFitsIfOk(e.key, key);
    ElementFitsIfOk(e.value, value);
  }

  lemma {:induction false} EntriesFitIfOk(es: seq<MapEntry>, key: Tree, value: Tree, n: nat)
    requires ElementsOk(CanonEntries(es, key, value), key, value, n)
    ensures EntriesFit(es)
    decreases es
  {
    hide ElementOk, CanonValue, EntryFits;
    if es != [] {
      EntryFitsIfOk(es[0], key, value);
      EntriesFitIfOk(es[1..], key, value, n - 2);
    }
  }

  lemma {:induction false} PropertyFitsIfOk(p: Property)
    requires FStringOk(CanonString(p.name)) && TreeOk(CanonTree(p.tree), 0)
    requires TaggedOk(CanonValue(p.value, p.tree, true), p.tree, CanonTag(p).size, CanonTag(p).flags)
    ensures PropertyFits(p)
    decreases p
  {
    hide TaggedOk, TreeOk, CanonTag, CanonValue, CanonTree;
    TreeFitsIfOk(p.tree, 0);
    ValueFitsIfTagged(p.value, p.tree, CanonTag(p).size, CanonTag(p).flags);
  }

  lemma {:induction false} PropertiesFitIfOk(ps: seq<Property>)
    requires PropsOk(CanonProps(ps))
    ensures PropertiesFit(ps)
    decreases ps
  {
    hide TaggedOk, TagOk, TreeOk, CanonTag, CanonValue, CanonTree, EraseTree, FStringOk, TextOf, CanonString, PropertyFits;
    if ps != [] {
      CanonTreeKeeps(ps[0].tree);
      PropertyFitsIfOk(ps[0]);
      PropertiesFitIfOk(ps[1..]);
    }
  }

  // ---- Exactly ----

  ghost predicate Parses(ps: seq<Property>) {
    exists b, rest :: ParseProperties(b) == Got(ps, rest)
  }

  /** A property list is serializable exactly when some file parses to it and its
      strings leave room for a terminator. */
  lemma SerializableExactly(ps: seq<Property>)
    ensures Serializable(ps) <==> Parses(ps) && PropertiesFit(ps)
  {
    hide PropsOk, CanonProps, PropertiesFit, EraseProps, PrintProps, ReadProps;
    if Serializable(ps) {
      ParseUndoesSerialize(ps, []);
      PropertiesFitIfOk(ps);
      assert ParseProperties(Serialize(ps) + []) == Got(ps, []);
    }
    if Parses(ps) && PropertiesFit(ps) {
      var b, rest :| ParseProperties(b) == Got(ps, rest);
      PrintReadProps(b);
      PropsCanonOk(ReadProps(b).value);
    }
  }
}
