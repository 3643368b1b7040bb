/** The GVAS parser itself: a reader over the bytes of a save, and the
    recursive-descent methods that advance it. */
module GvasReader {
  import opened Bits
  import opened Common
  import opened GvasText
  import opened GvasFormat
  import opened GvasValues

  datatype Outcome<+T> = Ok(value: T) | Err(why: Failure) {
    predicate IsFailure() { Err? }
    function PropagateFailure<U>(): Outcome<U> requires Err? { Err(why) }
    function Extract(): T requires Ok? { value }
  }

  /** Elements already read, put in front of those still to be. */
  function Onto<T>(done: seq<T>, g: Got<seq<T>>): Got<seq<T>> {
    match g
    case Got(more, rest) => Got(done + more, rest)
    case Failed(why) => Failed(why)
  }

  lemma OntoFacts<T>(done: seq<T>, x: T, g: Got<seq<T>>)
    ensures Onto([], g) == g
    ensures Onto(done, Onto([x], g)) == Onto(done + [x], g)
    ensures g.Got? && g.value == [] ==> Onto(done, g) == Got(done, g.rest)
  {
    if g.Got? {
      assert [] + g.value == g.value;
      assert done + ([x] + g.value) == (done + [x]) + g.value;
      assert g.value == [] ==> done + g.value == done;
    }
  }

  // ---- What one more element does to each list ----

  function FieldsOf(shapes: seq<AtomShape>, b: seq<byte>): Got<seq<Field>> {
    Kept(ReadAtoms(shapes, b), EraseAtoms)
  }

  function ChildrenOf(depth: nat, n: nat, b: seq<byte>): Got<seq<Tree>> {
    Kept(ReadTrees(depth, n, b), EraseTrees)
  }

  function ElementsOf(tree: Tree, n: nat, b: seq<byte>): Got<seq<Value>> {
    Kept(ReadElements(tree, tree, n, b), EraseElements)
  }

  function EntriesOf(key: Tree, value: Tree, n: nat, b: seq<byte>): Got<seq<MapEntry>> {
    Kept(ReadElements(key, value, 2 * n, b), EraseEntries)
  }

  lemma FieldsStep(shapes: seq<AtomShape>, b: seq<byte>)
    ensures shapes == [] ==> FieldsOf(shapes, b) == Got([], b)
    ensures shapes != [] ==>
      FieldsOf(shapes, b)
        == (match ReadAtom(shapes[0], b)
            case Failed(why) => Failed(why)
            case Got(a, r1) => Onto([EraseAtom(a)], FieldsOf(shapes[1..], r1)))
  {
    hide ReadAtom;
    if shapes != [] {
      var first := ReadAtom(shapes[0], b);
      if first.Got? {
        var more := ReadAtoms(shapes[1..], first.rest);
        if more.Got? {
          assert ([first.value] + more.value)[1..] == more.value;
        }
      }
    }
  }

  lemma ChildrenStep(depth: nat, n: nat, b: seq<byte>)
    ensures n == 0 ==> ChildrenOf(depth, n, b) == Got([], b)
    ensures n > 0 ==>
      ChildrenOf(depth, n, b)
        == (match ReadTree(depth, b)
            case Failed(why) => Failed(why)
            case Got(t, r1) => Onto([EraseTree(t)], ChildrenOf(depth, n - 1, r1)))
  {
    hide ReadTree, EraseTree;
  }

  lemma ElementsStep(tree: Tree, n: nat, b: seq<byte>)
    ensures n == 0 ==> ElementsOf(tree, n, b) == Got([], b)
    ensures n > 0 ==>
      ElementsOf(tree, n, b)
        == (match ReadElement(tree, b)
            case Failed(why) => Failed(why)
            case Got(v, r1) => Onto([EraseValue(v)], ElementsOf(tree, n - 1, r1)))
  {
    hide ReadElement, EraseValue;
  }

  function ReadEntry(key: Tree, value: Tree, b: seq<byte>): Got<MapEntry> {
    var (k, r1) :- ReadElement(key, b);
    var (v, r2) :- ReadElement(value, r1);
    Got(MapEntry(EraseValue(k), EraseValue(v)), r2)
  }

  lemma EntriesStep(key: Tree, value: Tree, n: nat, b: seq<byte>)
    ensures n == 0 ==> EntriesOf(key, value, n, b) == Got([], b)
    ensures n > 0 ==>
      EntriesOf(key, value, n, b)
        == (match ReadEntry(key, value, b)
            case Failed(why) => Failed(why)
            case Got(e, r2) => Onto([e], EntriesOf(key, value, n - 1, r2)))
  {
    hide ReadElement, EraseValue;
    if n > 0 {
      var k := ReadElement(key, b);
      if k.Got? {
        var v := ReadElement(value, k.rest);
        var values := ReadElements(value, key, 2 * n - 1, k.rest);
        assert v.Failed? ==> values == Failed(v.why);
        if v.Got? {
          var more := ReadElements(key, value, 2 * (n - 1), v.rest);
          assert more.Failed? ==> values == Failed(more.why);
          assert more.Got? ==> values == Got(Cons(v.value, more.value), more.rest);
        }
      }
    }
  }

  /** What follows a property's name. */
  function ReadProperty(name: GoString, r1: seq<byte>): Got<Property> {
    var (tree, r2) :- ReadTree(0, r1);
    var (tag, r3) :- ReadTag(r2);
    var (value, r4) :- ReadTagged(EraseTree(tree), tag.size, tag.flags, r3);
    Got(Property(name, EraseTree(tree), ArrayIndexOf(tag), GuidOf(tag), EraseValue(value)), r4)
  }

  lemma PropertiesStep(b: seq<byte>)
    ensures
      ParseProperties(b)
        == (match ReadFString(b)
            case Failed(why) => Failed(why)
            case Got(name, r1) =>
              if TextOf(name) == Lit("None") then Got([], r1)
              else
                match ReadProperty(TextOf(name), r1)
                case Failed(why) => Failed(why)
                case Got(p, r2) => Onto([p], ParseProperties(r2)))
  {
    hide ReadFString, TextOf, ReadTree, ReadTag, ReadTagged, EraseTree, EraseValue, ArrayIndexOf, GuidOf;
  }

  // ---- The reader ----

  class Reader {
    const data: seq<byte>
    var pos: nat

    ghost predicate Valid()
      reads this
    {
      pos <= |data|
    }

    ghost function Rest(): seq<byte>
      requires Valid()
      reads this
    {
      data[pos..]
    }

    /** The outcome, and where the reader now stands, are what `g` says. */
    ghost predicate Agrees<T>(g: Got<T>, r: Outcome<T>)
      reads this
    {
      && Valid()
      && match g
         case Got(v, rest) => r == Ok(v) && Rest() == rest
         case Failed(why) => r == Err(why)
    }

    constructor (data: seq<byte>)
      ensures Valid() && this.data == data && Rest() == data
    {
      this.data, pos := data, 0;
    }

    method ReadBytes(n: nat) returns (r: Outcome<seq<byte>>)
      requires Valid()
      modifies this
      ensures Agrees(Take(old(Rest()), n), r)
    {
      if |data| - pos < n {
        pos := |data|;
        return Err(Malformed);
      }
      assert Rest()[n..] == data[pos + n..];
      assert Rest()[..n] == data[pos..pos + n];
      r := Ok(data[pos..pos + n]);
      pos := pos + n;
    }

    method ReadNumber(w: nat, signed: bool) returns (r: Outcome<int>)
      requires Valid()
      modifies this
      ensures Agrees(ReadWord(old(Rest()), w, signed), r)
    {
      hide LeValue;
      var raw :- ReadBytes(w);
      return Ok(if signed then ToSigned(LeValue(raw), w) else LeValue(raw));
    }

    method ReadString() returns (r: Outcome<GoString>)
      requires Valid()
      modifies this
      ensures Agrees(Kept(ReadFString(old(Rest())), TextOf), r)
    {
      hide ReadWord, Utf8, DecodeUtf16, UnitsOf, Take;
      var length :- ReadNumber(4, true);
      if length == 0 {
        return Ok([]);
      }
      var absLen := if length < 0 && length != -0x8000_0000 then -length else length;
      if absLen > MAX_STRING_BYTES {
        return Err(Malformed);
      }
      if length > 0 {
        var data :- ReadBytes(length);
        return Ok(Stripped(data, 0));
      }
      if length == -0x8000_0000 {
        return Err(Panic);
      }
      var raw :- ReadBytes(2 * -length);
      var units := Decode16(raw);
      return Ok(Utf8(DecodeUtf16(Stripped(units, 0))));
    }

    method ReadFields(shapes: seq<AtomShape>) returns (r: Outcome<seq<Field>>)
      requires Valid()
      modifies this
      ensures Agrees(FieldsOf(shapes, old(Rest())), r)
    {
      hide FieldsOf, ReadWord, ReadFString, TextOf, WordInRange;
      var fields: seq<Field> := [];
      OntoFacts(fields, Num(0), FieldsOf(shapes, Rest()));
      for i := 0 to |shapes|
        invariant Valid()
        invariant FieldsOf(shapes, old(Rest())) == Onto(fields, FieldsOf(shapes[i..], Rest()))
      {
        FieldsStep(shapes[i..], Rest());
        ghost var b := Rest();
        var field: Field;
        match shapes[i] {
          case Word(w, signed) =>
            var n :- ReadNumber(w, signed);
            field := Num(n);
          case Chars =>
            var s :- ReadString();
            field := Text(s);
        }
        assert shapes[i..][1..] == shapes[i + 1..];
        OntoFacts(fields, field, FieldsOf(shapes[i + 1..], Rest()));
        fields := fields + [field];
      }
      FieldsStep(shapes[|shapes|..], Rest());
      OntoFacts(fields, Num(0), FieldsOf(shapes[|shapes|..], Rest()));
      return Ok(fields);
    }

    method ReadTypeTree(depth: nat) returns (r: Outcome<Tree>)
      requires Valid()
      modifies this
      ensures Agrees(Kept(ReadTree(depth, old(Rest())), EraseTree), r)
      decreases |data| - pos, 0
    {
      hide ReadTrees, EraseTrees, ReadWord, ReadFString, TextOf;
      if depth > MAX_RECURSE_DEPTH {
        return Err(Malformed);
      }
      var name :- ReadString();
      var count :- ReadNumber(4, false);
      if count > MAX_ARRAY_COUNT {
        return Err(Malformed);
      }
      var children :- ReadChildren(depth + 1, count);
      return Ok(Node(name, children));
    }

    method ReadChildren(depth: nat, count: nat) returns (r: Outcome<seq<Tree>>)
      requires Valid()
      modifies this
      ensures Agrees(ChildrenOf(depth, count, old(Rest())), r)
      decreases |data| - pos, 1
    {
      hide ChildrenOf, ReadTree, EraseTree;
      var children: seq<Tree> := [];
      OntoFacts(children, Node([], []), ChildrenOf(depth, count, Rest()));
      for i := 0 to count
        invariant Valid() && |data| - pos <= old(|data| - pos) && (i > 0 ==> |data| - pos < old(|data| - pos))
        invariant ChildrenOf(depth, count, old(Rest())) == Onto(children, ChildrenOf(depth, count - i, Rest()))
      {
        ChildrenStep(depth, count - i, Rest());
        var child :- ReadTypeTree(depth);
        OntoFacts(children, child, ChildrenOf(depth, count - i - 1, Rest()));
        children := children + [child];
      }
      ChildrenStep(depth, 0, Rest());
      OntoFacts(children, Node([], []), ChildrenOf(depth, 0, Rest()));
      return Ok(children);
    }

    // ---- Values ----

    method ReadScalarValue(k: ScalarKind) returns (r: Outcome<Value>)
      requires Valid()
      modifies this
      ensures Agrees(Kept(ReadScalar(k, old(Rest())), EraseValue), r)
    {
      hide ReadAtoms, EraseAtoms, Shape;
      var fields :- ReadFields(Shape(k));
      return Ok(Scalar(k, fields));
    }

    method ReadRawValue(kind: RawKind, typeName: GoString, size: nat) returns (r: Outcome<Value>)
      requires Valid()
      modifies this
      ensures Agrees(Kept(ReadRaw(kind, typeName, size, old(Rest())), EraseValue), r)
    {
      hide Take;
      var raw :- ReadBytes(size);
      return Ok(Raw(kind, typeName, raw));
    }

    method ReadProperties() returns (r: Outcome<seq<Property>>)
      requires Valid()
      modifies this
      ensures Agrees(ParseProperties(old(Rest())), r)
      decreases |data| - pos, 0
    {
      hide ParseProperties, ReadFString, TextOf, ReadTree, ReadTag, ReadTagged, EraseTree, EraseValue, Lit;
      var props: seq<Property> := [];
      OntoFacts(props, Property([], Node([], []), 0, None, Bool(false)), ParseProperties(Rest()));
      while true
        invariant Valid() && |data| - pos <= old(|data| - pos)
        invariant ParseProperties(old(Rest())) == Onto(props, ParseProperties(Rest()))
        decreases |data| - pos
      {
        ghost var b := Rest();
        PropertiesStep(b);
        var name :- ReadString();
        if name == Lit("None") {
          OntoFacts(props, Property([], Node([], []), 0, None, Bool(false)), Got([], Rest()));
          return Ok(props);
        }
        var prop :- ReadOneProperty(name);
        OntoFacts(props, prop, ParseProperties(Rest()));
        props := props + [prop];
      }
    }

    method ReadArrayIndex(flags: nat) returns (r: Outcome<int>)
      requires Valid()
      modifies this
      ensures Agrees(Kept(ReadAtoms(IndexShape(flags), old(Rest())), IndexOf), r)
    {
      hide ReadWord;
      if !HasArrayIndex(flags) {
        return Ok(0);
      }
      ghost var b := Rest();
      r := ReadNumber(4, false);
      if r.Ok? {
        assert ReadAtoms([U32], b) == Got([Num(r.value)] + [], Rest());
      }
    }

    method ReadTagFields() returns (r: Outcome<(nat, nat, int, Option<seq<Field>>)>)
      requires Valid()
      modifies this
      ensures Agrees(Kept(ReadTag(old(Rest())), TagFields), r)
    {
      hide ReadWord, ReadAtoms, EraseAtoms, IndexShape, IndexOf, GuidShape;
      var size :- ReadNumber(4, false);
      var flags :- ReadNumber(1, false);
      var arrayIndex :- ReadArrayIndex(flags);
      var guid :- ReadFields(GuidShape(flags));
      return Ok((size, flags, arrayIndex, if HasPropertyGuid(flags) then Some(guid) else None));
    }

    /** What follows a property's name: type tree, size, flags, index, GUID, value. */
    method ReadOneProperty(name: GoString) returns (r: Outcome<Property>)
      requires Valid()
      modifies this
      ensures Agrees(ReadProperty(name, old(Rest())), r)
      decreases |data| - pos, 6
    {
      hide ReadTree, ReadTagged, EraseTree, EraseValue, ReadTag, ArrayIndexOf, GuidOf;
      var tree :- ReadTypeTree(0);
      var tag :- ReadTagFields();
      var value :- ReadPropertyValue(tree, tag.0, tag.1);
      return Ok(Property(name, tree, tag.2, tag.3, value));
    }

    method ReadPropertyValue(tree: Tree, size: nat, flags: nat) returns (r: Outcome<Value>)
      requires Valid()
      modifies this
      ensures Agrees(Kept(ReadTagged(tree, size, flags, old(Rest())), EraseValue), r)
      decreases |data| - pos, 5
    {
      hide PropertyKindOf, ReadScalar, ReadRaw, ReadStruct, ReadRun, FullPath;
      match PropertyKindOf(tree.name) {
        case ScalarP(k) => r := ReadScalarValue(k);
        case ByteP => r := ReadScalarValue(ByteKind(tree));
        case BoolP => r := Ok(Bool(BoolTrue(flags)));
        case TextP => r := ReadRawValue(TextData, [], size);
        case StructP =>
          if HasBinary(flags) {
            r := ReadRawValue(BinaryStruct, FullPath(tree), size);
          } else {
            r := ReadStructValue(tree);
          }
        case ArrayP => r := ReadArrayProperty(tree);
        case MapP => r := ReadMapProperty(tree);
        case SetP => r := ReadSetProperty(tree);
        case UnknownP => r := ReadRawValue(UnknownType, tree.name, size);
      }
    }

    method ReadStructValue(tree: Tree) returns (r: Outcome<Value>)
      requires Valid()
      modifies this
      ensures Agrees(Kept(ReadStruct(tree, old(Rest())), EraseValue), r)
      decreases |data| - pos, 1
    {
      hide StructKindOf, ReadScalar, ReadAtoms, EraseAtoms, ReadProps, ReadWord, FullPath, ShortName, Copies;
      match StructKindOf(ShortName(tree)) {
        case FixedStruct(k) => r := ReadScalarValue(k);
        case TagContainer =>
          var count :- ReadNumber(4, false);
          var tags :- ReadFields(Copies([Chars], count));
          r := Ok(TagList(tags));
        case GenericStruct =>
          var props :- ReadProperties();
          r := Ok(Struct(FullPath(tree), props));
      }
    }

    /** A value outside a property tag: an array element, a map key or value. */
    method ReadValueByType(tree: Tree) returns (r: Outcome<Value>)
      requires Valid()
      modifies this
      ensures Agrees(Kept(ReadElement(tree, old(Rest())), EraseValue), r)
      decreases |data| - pos, 2
    {
      hide PropertyKindOf, ReadScalar, ReadStruct, ReadWord;
      match PropertyKindOf(tree.name) {
        case ScalarP(k) => r := ReadScalarValue(k);
        case ByteP => r := ReadScalarValue(ByteKind(tree));
        case BoolP =>
          var raw :- ReadNumber(1, false);
          r := Ok(Bool(raw != 0));
        case StructP => r := ReadStructValue(tree);
        case _ => r := Err(Malformed);
      }
    }

    method ReadElementValues(tree: Tree, count: nat) returns (r: Outcome<seq<Value>>)
      requires Valid()
      modifies this
      ensures Agrees(ElementsOf(tree, count, old(Rest())), r)
      decreases |data| - pos, 3
    {
      hide ElementsOf, ReadElement, EraseValue;
      var elements: seq<Value> := [];
      OntoFacts(elements, Bool(false), ElementsOf(tree, count, Rest()));
      for i := 0 to count
        invariant Valid() && |data| - pos <= old(|data| - pos)
        invariant ElementsOf(tree, count, old(Rest())) == Onto(elements, ElementsOf(tree, count - i, Rest()))
      {
        ElementsStep(tree, count - i, Rest());
        var v :- ReadValueByType(tree);
        OntoFacts(elements, v, ElementsOf(tree, count - i - 1, Rest()));
        elements := elements + [v];
      }
      ElementsStep(tree, 0, Rest());
      OntoFacts(elements, Bool(false), ElementsOf(tree, 0, Rest()));
      return Ok(elements);
    }

    method ReadArrayProperty(tree: Tree) returns (r: Outcome<Value>)
      requires Valid() && PropertyKindOf(tree.name) == ArrayP
      modifies this
      ensures Agrees(Kept(ReadTagged(tree, 0, 0, old(Rest())), EraseValue), r)
      decreases |data| - pos, 4
    {
      hide PropertyKindOf, ReadWord, ReadElements, EraseElements;
      if tree.children == [] {
        return Err(Malformed);
      }
      var count :- ReadNumber(4, false);
      if count > MAX_ARRAY_COUNT {
        return Err(Malformed);
      }
      var elements :- ReadElementValues(tree.children[0], count);
      return Ok(Array(elements));
    }

    /** The removed keys ahead of a set or a map: counted, read and dropped. */
    method SkipRemoved(tree: Tree) returns (r: Outcome<()>)
      requires Valid()
      modifies this
      ensures Agrees(Kept(ReadRun(tree, tree, false, false, old(Rest())), Dropped), r)
      decreases |data| - pos, 3
    {
      hide ReadWord, ReadElements, EraseElements;
      var count :- ReadNumber(4, false);
      var _ :- ReadElementValues(tree, count);
      return Ok(());
    }

    method ReadMapProperty(tree: Tree) returns (r: Outcome<Value>)
      requires Valid() && PropertyKindOf(tree.name) == MapP
      modifies this
      ensures Agrees(Kept(ReadTagged(tree, 0, 0, old(Rest())), EraseValue), r)
      decreases |data| - pos, 4
    {
      hide PropertyKindOf, ReadWord, ReadElements, EraseEntries;
      if |tree.children| < 2 {
        return Err(Malformed);
      }
      var _ :- SkipRemoved(tree.children[0]);
      var count :- ReadNumber(4, false);
      if count > MAX_ARRAY_COUNT {
        return Err(Malformed);
      }
      var entries :- ReadEntries(tree.children[0], tree.children[1], count);
      return Ok(Map(entries));
    }

    method ReadEntries(key: Tree, value: Tree, count: nat) returns (r: Outcome<seq<MapEntry>>)
      requires Valid()
      modifies this
      ensures Agrees(EntriesOf(key, value, count, old(Rest())), r)
      decreases |data| - pos, 3
    {
      hide EntriesOf, ReadElement, EraseValue;
      var entries: seq<MapEntry> := [];
      OntoFacts(entries, MapEntry(Bool(false), Bool(false)), EntriesOf(key, value, count, Rest()));
      for i := 0 to count
        invariant Valid() && |data| - pos <= old(|data| - pos)
        invariant EntriesOf(key, value, count, old(Rest())) == Onto(entries, EntriesOf(key, value, count - i, Rest()))
      {
        EntriesStep(key, value, count - i, Rest());
        var k :- ReadValueByType(key);
        var v :- ReadValueByType(value);
        OntoFacts(entries, MapEntry(k, v), EntriesOf(key, value, count - i - 1, Rest()));
        entries := entries + [MapEntry(k, v)];
      }
      EntriesStep(key, value, 0, Rest());
      OntoFacts(entries, MapEntry(Bool(false), Bool(false)), EntriesOf(key, value, 0, Rest()));
      return Ok(entries);
    }

    method ReadSetProperty(tree: Tree) returns (r: Outcome<Value>)
      requires Valid() && PropertyKindOf(tree.name) == SetP
      modifies this
      ensures Agrees(Kept(ReadTagged(tree, 0, 0, old(Rest())), EraseValue), r)
      decreases |data| - pos, 4
    {
      hide PropertyKindOf, ReadWord, ReadElements, EraseElements;
      if tree.children == [] {
        return Err(Malformed);
      }
      var _ :- SkipRemoved(tree.children[0]);
      var count :- ReadNumber(4, false);
      if count > MAX_ARRAY_COUNT {
        return Err(Malformed);
      }
      var elements :- ReadElementValues(tree.children[0], count);
      return Ok(Array(elements));
    }
  }

  function TagFields(tag: Tag): (nat, nat, int, Option<seq<Field>>) {
    (tag.size, tag.flags, ArrayIndexOf(tag), GuidOf(tag))
  }

  function Dropped(run: Run): () {
    ()
  }

  method Decode16(raw: seq<byte>) returns (units: seq<unit>)
    requires |raw| % 2 == 0
    ensures units == UnitsOf(raw)
  {
    hide UnitsOf;
    units := [];
    assert raw[0..] == raw;
    for i := 0 to |raw| / 2
      invariant UnitsOf(raw) == units + UnitsOf(raw[2 * i..])
    {
      OneMoreUnit(raw, i);
      units := units + [raw[2 * i] as int + 256 * (raw[2 * i + 1] as int)];
    }
  }

  lemma OneMoreUnit(raw: seq<byte>, i: nat)
    requires |raw| % 2 == 0 && 2 * i < |raw|
    ensures UnitsOf(raw[2 * i..]) == [raw[2 * i] as int + 256 * (raw[2 * i + 1] as int)] + UnitsOf(raw[2 * (i + 1)..])
  {
    assert raw[2 * i..][2..] == raw[2 * (i + 1)..];
  }
}
