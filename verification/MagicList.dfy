/** The magical property lists of Diablo II items: reading, writing, and the
    proof that each undoes the other. */
module MagicLists {
  import opened Bits
  import opened BitReaders
  import opened MagicTable

  datatype MagicAttribute = MagicAttribute(id: nat, values: seq<int>)

  /** A value read off the front of some bits, and the bits after it. */
  datatype Parsed<+T> = Parsed(value: T, rest: Bitstring) | Failed {
    predicate IsFailure() { Failed? }
    function PropagateFailure<U>(): Parsed<U> requires Failed? { Failed }
    function Extract(): (T, Bitstring) requires Parsed? { (value, rest) }
  }

  const LIST_END := 0x1ff

  // ---- Reading ----

  function TakeBits(bits: Bitstring, n: nat): Parsed<nat> {
    if n <= |bits| then Parsed(ToNat(bits[..n]), bits[n..]) else Failed
  }

  predicate PacksSkill(p: MagicPropertyDef) {
    p.encode == 2 || p.encode == 3
  }

  /** A parameter's values: skill tab (3 bits) or skill level (6 bits) split off first. */
  function ParamValues(p: MagicPropertyDef, param: nat): seq<int> {
    var tab := if p.descFunc == 14 then [param % 8] else [];
    var afterTab := if p.descFunc == 14 then param / 8 % 0x2000 else param;
    var level := if PacksSkill(p) then [afterTab % 64] else [];
    var afterLevel := if PacksSkill(p) then afterTab / 64 % 0x400 else afterTab;
    tab + level + [afterLevel]
  }

  /** A value with its offset removed, charges split into current and maximum. */
  function RawValues(p: MagicPropertyDef, raw: nat): seq<int> {
    var adjusted := raw - p.saveAdd;
    if p.encode == 3 then [adjusted % 256, adjusted / 256 % 256] else [adjusted]
  }

  function ReadProperty(p: MagicPropertyDef, bits: Bitstring): (r: Parsed<seq<int>>)
    ensures r.Parsed? ==> |r.rest| <= |bits|
  {
    var (params, afterParam) :-
      if p.saveParamBits == 0 then Parsed([], bits)
      else
        var (param, rest) :- TakeBits(bits, p.saveParamBits);
        Parsed(ParamValues(p, param), rest);
    if p.saveBits == 0 then Failed
    else
      var (raw, rest) :- TakeBits(afterParam, p.saveBits);
      Parsed(params + RawValues(p, raw), rest)
  }

  /** Properties `id + i` up to `id + n`, read one after the other. */
  function ReadCompound(id: nat, i: nat, n: nat, bits: Bitstring): (r: Parsed<seq<int>>)
    ensures r.Parsed? ==> |r.rest| <= |bits|
    decreases n - i
  {
    if i >= n then Parsed([], bits)
    else
      match MagicalProperty(id + i)
      case None => Failed
      case Some(p) =>
        var (first, rest) :- ReadProperty(p, bits);
        var (more, after) :- ReadCompound(id, i + 1, n, rest);
        Parsed(first + more, after)
  }

  function StatCount(p: MagicPropertyDef): nat {
    if p.numProps == 0 then 1 else p.numProps
  }

  function ReadList(bits: Bitstring): (r: Parsed<seq<MagicAttribute>>)
    ensures r.Parsed? ==> |r.rest| + 9 <= |bits|
    decreases |bits|
  {
    var (id, rest) :- TakeBits(bits, 9);
    if id == LIST_END then Parsed([], rest)
    else
      match MagicalProperty(id)
      case None => Failed
      case Some(p) =>
        var (values, afterValues) :- ReadCompound(id, 0, StatCount(p), rest);
        var (more, after) :- ReadList(afterValues);
        Parsed([MagicAttribute(id, values)] + more, after)
  }

  // ---- Writing ----

  function ParamArity(p: MagicPropertyDef): nat {
    if p.saveParamBits == 0 then 0 else 1 + (if p.descFunc == 14 then 1 else 0) + (if PacksSkill(p) then 1 else 0)
  }

  function Arity(p: MagicPropertyDef): nat {
    ParamArity(p) + (if p.encode == 3 then 2 else 1)
  }

  function PackParam(p: MagicPropertyDef, values: seq<int>): int
    requires p.saveParamBits > 0 && |values| == ParamArity(p) && WellLaid(p)
  {
    if p.descFunc == 14 then values[0] + 8 * values[1]
    else if PacksSkill(p) then values[0] + 64 * values[1]
    else values[0]
  }

  function PackRaw(p: MagicPropertyDef, values: seq<int>): int
    requires |values| == Arity(p) - ParamArity(p)
  {
    p.saveAdd + (if p.encode == 3 then values[0] + 256 * values[1] else values[0])
  }

  /** The values a property's bits can hold. */
  predicate ParamInRange(p: MagicPropertyDef, values: seq<int>) {
    && WellLaid(p) && p.saveParamBits > 0 && |values| == ParamArity(p)
    && (if p.descFunc == 14 then 0 <= values[0] < 8 && 0 <= values[1] < 0x2000
        else if PacksSkill(p) then 0 <= values[0] < 64 && 0 <= values[1] < 0x400
        else 0 <= values[0] < Pow2(p.saveParamBits))
  }

  predicate RawInRange(p: MagicPropertyDef, values: seq<int>) {
    && |values| == Arity(p) - ParamArity(p)
    && (if p.encode == 3 then 0 <= values[0] < 256 && 0 <= values[1] < 256
        else 0 <= values[0] + p.saveAdd < Pow2(p.saveBits))
  }

  predicate InRange(p: MagicPropertyDef, values: seq<int>) {
    && WellLaid(p) && |values| == Arity(p)
    && (p.saveParamBits > 0 ==> ParamInRange(p, values[..ParamArity(p)]))
    && RawInRange(p, values[ParamArity(p)..])
  }

  lemma PackedFits(p: MagicPropertyDef, values: seq<int>)
    requires InRange(p, values)
    ensures p.saveParamBits > 0 ==> 0 <= PackParam(p, values[..ParamArity(p)]) < Pow2(p.saveParamBits)
    ensures 0 <= PackRaw(p, values[ParamArity(p)..]) < Pow2(p.saveBits)
  {
    SixteenBits();
  }

  lemma SixteenBits()
    ensures Pow2(16) == 0x10000
  {
    assert Pow2(8) == 256 by { assert Pow2(4) == 16; }
    assert Pow2(12) == 4096;
  }

  function WriteProperty(p: MagicPropertyDef, values: seq<int>): Bitstring
    requires InRange(p, values)
  {
    PackedFits(p, values);
    (if p.saveParamBits == 0 then [] else Low(PackParam(p, values[..ParamArity(p)]), p.saveParamBits))
    + Low(PackRaw(p, values[ParamArity(p)..]), p.saveBits)
  }

  predicate CompoundInRange(id: nat, i: nat, n: nat, values: seq<int>)
    decreases n - i
  {
    if i >= n then values == []
    else
      match MagicalProperty(id + i)
      case None => false
      case Some(p) =>
        Arity(p) <= |values| && InRange(p, values[..Arity(p)]) && CompoundInRange(id, i + 1, n, values[Arity(p)..])
  }

  function WriteCompound(id: nat, i: nat, n: nat, values: seq<int>): Bitstring
    requires CompoundInRange(id, i, n, values)
    decreases n - i
  {
    if i >= n then []
    else
      var p := MagicalProperty(id + i).value;
      WriteProperty(p, values[..Arity(p)]) + WriteCompound(id, i + 1, n, values[Arity(p)..])
  }

  /** A known property whose values fit their bits. */
  predicate Writable(attr: MagicAttribute) {
    && attr.id < LIST_END
    && MagicalProperty(attr.id).Some?
    && CompoundInRange(attr.id, 0, StatCount(MagicalProperty(attr.id).value), attr.values)
  }

  function WriteAttribute(attr: MagicAttribute): Bitstring
    requires Writable(attr)
  {
    Low(attr.id, 9) + WriteCompound(attr.id, 0, StatCount(MagicalProperty(attr.id).value), attr.values)
  }

  function WriteList(attrs: seq<MagicAttribute>): Bitstring
    requires forall a | a in attrs :: Writable(a)
  {
    if attrs == [] then Low(LIST_END, 9) else WriteAttribute(attrs[0]) + WriteList(attrs[1..])
  }

  // ---- Each undoes the other ----

  lemma TakeUndoesLow(v: nat, n: nat, rest: Bitstring)
    requires v < Pow2(n)
    ensures TakeBits(Low(v, n) + rest, n) == Parsed(v, rest)
  {
    FitsIffBelow(v, n);
    ToNatOfLow(v, n);
    assert (Low(v, n) + rest)[..n] == Low(v, n);
    assert (Low(v, n) + rest)[n..] == rest;
  }

  lemma LowUndoesTake(bits: Bitstring, n: nat)
    requires n <= |bits|
    ensures ToNat(bits[..n]) < Pow2(n)
    ensures bits == Low(ToNat(bits[..n]), n) + bits[n..]
  {
    hide Low, ToNat, Pow2;
    var s := bits[..n];
    ToNatBound(s);
    LowOfToNat(s);
    assert |s| == n && bits == s + bits[n..];
  }

  lemma ParamRoundTrip(p: MagicPropertyDef, values: seq<int>)
    requires ParamInRange(p, values) && 0 <= PackParam(p, values)
    ensures ParamValues(p, PackParam(p, values)) == values
  {
    hide Pow2;
    if p.descFunc == 14 {
      EightSplits(values[0], values[1]);
    } else if PacksSkill(p) {
      SixtyFourSplits(values[0], values[1]);
    }
  }

  lemma EightSplits(a: nat, b: nat)
    requires a < 8
    ensures (a + 8 * b) % 8 == a && (a + 8 * b) / 8 == b
  {
  }

  lemma SixtyFourSplits(a: nat, b: nat)
    requires a < 64
    ensures (a + 64 * b) % 64 == a && (a + 64 * b) / 64 == b
  {
  }

  lemma RawRoundTrip(p: MagicPropertyDef, values: seq<int>)
    requires RawInRange(p, values) && WellLaid(p) && 0 <= PackRaw(p, values)
    ensures RawValues(p, PackRaw(p, values)) == values
  {
  }

  lemma ReadUndoesWriteProperty(p: MagicPropertyDef, values: seq<int>, rest: Bitstring)
    requires InRange(p, values)
    ensures ReadProperty(p, WriteProperty(p, values) + rest) == Parsed(values, rest)
  {
    hide ParamValues, RawValues, PackParam, PackRaw, ParamInRange, RawInRange, Pow2, TakeBits;
    PackedFits(p, values);
    var k := ParamArity(p);
    var raw := PackRaw(p, values[k..]);
    RawRoundTrip(p, values[k..]);
    TakeUndoesLow(raw, p.saveBits, rest);
    var bits := WriteProperty(p, values) + rest;
    if p.saveParamBits > 0 {
      var param := PackParam(p, values[..k]);
      ParamRoundTrip(p, values[..k]);
      TakeUndoesLow(param, p.saveParamBits, Low(raw, p.saveBits) + rest);
      assert bits == Low(param, p.saveParamBits) + (Low(raw, p.saveBits) + rest);
    } else {
      assert bits == Low(raw, p.saveBits) + rest;
    }
    assert values == values[..k] + values[k..];
  }

  lemma WriteUndoesReadProperty(p: MagicPropertyDef, bits: Bitstring)
    requires WellLaid(p) && ReadProperty(p, bits).Parsed?
    ensures
      var r := ReadProperty(p, bits);
      InRange(p, r.value) && WriteProperty(p, r.value) + r.rest == bits
  {
    hide ParamValues, RawValues, PackParam, PackRaw, Pow2, ParamInRange, RawInRange, Low;
    var r := ReadProperty(p, bits);
    var k := ParamArity(p);
    var n := p.saveParamBits;
    var after := bits[n..];
    var raw := ToNat(after[..p.saveBits]);
    LowUndoesTake(after, p.saveBits);
    RawUnpacks(p, raw);
    hide ToNat;
    if n > 0 {
      var param := ToNat(bits[..n]);
      LowUndoesTake(bits, n);
      ParamUnpacks(p, param);
      assert r == Parsed(ParamValues(p, param) + RawValues(p, raw), after[p.saveBits..]);
      Halves(ParamValues(p, param), RawValues(p, raw));
      assert bits == Low(param, n) + (Low(raw, p.saveBits) + after[p.saveBits..]);
    } else {
      assert after == bits;
      assert r == Parsed([] + RawValues(p, raw), after[p.saveBits..]);
      Halves([], RawValues(p, raw));
    }
  }

  lemma Halves(a: seq<int>, b: seq<int>)
    ensures (a + b)[..|a|] == a && (a + b)[|a|..] == b
  {
  }

  lemma ParamUnpacks(p: MagicPropertyDef, param: nat)
    requires WellLaid(p) && p.saveParamBits > 0 && param < Pow2(p.saveParamBits)
    ensures |ParamValues(p, param)| == ParamArity(p)
    ensures ParamInRange(p, ParamValues(p, param)) && PackParam(p, ParamValues(p, param)) == param
  {
    SixteenBits();
    hide Pow2;
    if p.descFunc == 14 {
      assert ParamValues(p, param) == [param % 8, param / 8];
    } else if PacksSkill(p) {
      assert ParamValues(p, param) == [param % 64, param / 64];
    } else {
      assert ParamValues(p, param) == [param];
    }
  }

  lemma RawUnpacks(p: MagicPropertyDef, raw: nat)
    requires WellLaid(p) && raw < Pow2(p.saveBits)
    ensures |RawValues(p, raw)| == Arity(p) - ParamArity(p)
    ensures RawInRange(p, RawValues(p, raw)) && PackRaw(p, RawValues(p, raw)) == raw
  {
    SixteenBits();
  }

  lemma {:induction false} ReadUndoesWriteCompound(id: nat, i: nat, n: nat, values: seq<int>, rest: Bitstring)
    requires CompoundInRange(id, i, n, values)
    ensures ReadCompound(id, i, n, WriteCompound(id, i, n, values) + rest) == Parsed(values, rest)
    decreases n - i
  {
    hide ReadProperty, WriteProperty, InRange, MagicalProperty, Arity;
    if i < n {
      var p := MagicalProperty(id + i).value;
      var first, more := values[..Arity(p)], values[Arity(p)..];
      var tail := WriteCompound(id, i + 1, n, more) + rest;
      ReadUndoesWriteProperty(p, first, tail);
      ReadUndoesWriteCompound(id, i + 1, n, more, rest);
      assert WriteCompound(id, i, n, values) + rest == WriteProperty(p, first) + tail;
      assert values == first + more;
    } else {
      assert WriteCompound(id, i, n, values) + rest == rest;
    }
  }

  lemma {:induction false} WriteUndoesReadCompound(id: nat, i: nat, n: nat, bits: Bitstring)
    requires ReadCompound(id, i, n, bits).Parsed?
    ensures
      var r := ReadCompound(id, i, n, bits);
      CompoundInRange(id, i, n, r.value) && WriteCompound(id, i, n, r.value) + r.rest == bits
    decreases n - i
  {
    hide ReadProperty, WriteProperty, InRange, MagicalProperty;
    if i < n {
      var p := MagicalProperty(id + i).value;
      PropertyWellLaid(id + i);
      WriteUndoesReadProperty(p, bits);
      var first := ReadProperty(p, bits);
      WriteUndoesReadCompound(id, i + 1, n, first.rest);
      var more := ReadCompound(id, i + 1, n, first.rest);
      var r := ReadCompound(id, i, n, bits);
      InRangeArity(p, first.value);
      assert r.value[..Arity(p)] == first.value && r.value[Arity(p)..] == more.value;
      assert WriteCompound(id, i, n, r.value) + r.rest
        == WriteProperty(p, first.value) + (WriteCompound(id, i + 1, n, more.value) + more.rest);
    }
  }

  lemma InRangeArity(p: MagicPropertyDef, values: seq<int>)
    requires InRange(p, values)
    ensures |values| == Arity(p)
  {
  }

  lemma NineBits()
    ensures Pow2(9) == 512
  {
    assert Pow2(5) == 32;
  }

  /** Reading a written list returns it and stops just past its terminator. */
  lemma {:induction false} ReadUndoesWriteList(attrs: seq<MagicAttribute>, rest: Bitstring)
    requires forall a | a in attrs :: Writable(a)
    ensures ReadList(WriteList(attrs) + rest) == Parsed(attrs, rest)
  {
    hide ReadCompound, WriteCompound, CompoundInRange, MagicalProperty, Low, Pow2, TakeBits;
    NineBits();
    if attrs == [] {
      TakeUndoesLow(LIST_END, 9, rest);
    } else {
      var a := attrs[0];
      assert a in attrs && Writable(a);
      var n := StatCount(MagicalProperty(a.id).value);
      var tail := WriteList(attrs[1..]) + rest;
      var body := WriteCompound(a.id, 0, n, a.values) + tail;
      var bits := WriteList(attrs) + rest;
      assert bits == Low(a.id, 9) + body;
      TakeUndoesLow(a.id, 9, body);
      ReadUndoesWriteCompound(a.id, 0, n, a.values, tail);
      ReadUndoesWriteList(attrs[1..], rest);
      assert attrs == [a] + attrs[1..];
    }
  }

  /** Conversely every list the reader accepts is the writing of what it returns. */
  lemma {:induction false} WriteUndoesReadList(bits: Bitstring)
    requires ReadList(bits).Parsed?
    ensures
      var r := ReadList(bits);
      (forall a | a in r.value :: Writable(a)) && WriteList(r.value) + r.rest == bits
    decreases |bits|
  {
    hide ReadCompound, WriteCompound, CompoundInRange, MagicalProperty, Low, Pow2;
    NineBits();
    LowUndoesTake(bits, 9);
    var id := ToNat(bits[..9]);
    var r := ReadList(bits);
    if id != LIST_END {
      var p := MagicalProperty(id).value;
      PropertyWellLaid(id);
      var values := ReadCompound(id, 0, StatCount(p), bits[9..]);
      WriteUndoesReadCompound(id, 0, StatCount(p), bits[9..]);
      WriteUndoesReadList(values.rest);
      var more := ReadList(values.rest);
      var a := MagicAttribute(id, values.value);
      assert Writable(a);
      assert r.value == [a] + more.value;
      assert r.value[1..] == more.value;
      assert WriteList(r.value) + r.rest
        == Low(id, 9) + (WriteCompound(id, 0, StatCount(p), values.value) + (WriteList(more.value) + more.rest));
    }
  }

  // ---- The reader itself ----

  function Prepend<T>(done: seq<T>, r: Parsed<seq<T>>): Parsed<seq<T>> {
    match r
    case Parsed(more, rest) => Parsed(done + more, rest)
    case Failed => Failed
  }

  lemma PrependFacts<T>(done: seq<T>, first: seq<T>, r: Parsed<seq<T>>)
    ensures Prepend([], r) == r
    ensures Prepend(done + first, r) == Prepend(done, Prepend(first, r))
    ensures r.Parsed? && r.value == [] ==> Prepend(done, r) == Parsed(done, r.rest)
  {
    if r.Parsed? {
      assert [] + r.value == r.value;
      assert (done + first) + r.value == done + (first + r.value);
      assert r.value == [] ==> done + r.value == done;
    }
  }

  /** `got` and the reader's position after it are what `r` says. */
  ghost predicate Agrees<T>(r: Parsed<T>, got: Result<T>, br: BitReader)
    reads br, br.r
  {
    && br.r.Valid()
    && (got.Ok? <==> r.Parsed?)
    && (got.Ok? ==> br.Valid() && got.value == r.value && br.Pending() == r.rest)
  }

  method ReadPropertyBits(br: BitReader, p: MagicPropertyDef) returns (values: Result<seq<int>>)
    requires br.Valid() && WellLaid(p)
    modifies br, br.r
    ensures Agrees(ReadProperty(p, old(br.Pending())), values, br)
    ensures br.Moved(values.Ok?)
  {
    hide Low, ToNat, BitsOf, Fits, CeilBytes, ParamValues, RawValues;
    var collected: seq<int> := [];
    if p.saveParamBits > 0 {
      var param := br.ReadBits(p.saveParamBits);
      if param.Err? {
        return Err;
      }
      collected := ParamValues(p, param.value);
    }
    if p.saveBits == 0 {
      return Err;
    }
    var raw := br.ReadBits(p.saveBits);
    if raw.Err? {
      return Err;
    }
    return Ok(collected + RawValues(p, raw.value));
  }

  method ReadCompoundBits(br: BitReader, id: nat, n: nat) returns (values: Result<seq<int>>)
    requires br.Valid()
    modifies br, br.r
    ensures Agrees(ReadCompound(id, 0, n, old(br.Pending())), values, br)
    ensures br.Moved(values.Ok?)
  {
    hide Low, ToNat, BitsOf, Fits, CeilBytes, ReadProperty, MagicalProperty, WellLaid;
    var collected: seq<int> := [];
    ghost var bits := br.Pending();
    PrependFacts(collected, collected, ReadCompound(id, 0, n, bits));
    for i := 0 to n
      invariant br.Valid() && br.Moved(true)
      invariant ReadCompound(id, 0, n, bits) == Prepend(collected, ReadCompound(id, i, n, br.Pending()))
    {
      match MagicalProperty(id + i)
      case None =>
        return Err;
      case Some(p) =>
        PropertyWellLaid(id + i);
        var one := ReadPropertyBits(br, p);
        if one.Err? {
          return Err;
        }
        PrependFacts(collected, one.value, ReadCompound(id, i + 1, n, br.Pending()));
        collected := collected + one.value;
    }
    PrependFacts(collected, [], ReadCompound(id, n, n, br.Pending()));
    return Ok(collected);
  }

  method ParseMagicalList(br: BitReader) returns (attrs: Result<seq<MagicAttribute>>)
    requires br.Valid()
    modifies br, br.r
    ensures Agrees(ReadList(old(br.Pending())), attrs, br)
    ensures br.Moved(attrs.Ok?)
  {
    hide Low, ToNat, BitsOf, Fits, CeilBytes, ReadCompound, MagicalProperty;
    var collected: seq<MagicAttribute> := [];
    ghost var bits := br.Pending();
    PrependFacts(collected, collected, ReadList(bits));
    while true
      invariant br.Valid() && br.Moved(true)
      invariant ReadList(bits) == Prepend(collected, ReadList(br.Pending()))
      decreases |br.Pending()|
    {
      var id := br.ReadBits(9);
      if id.Err? {
        return Err;
      }
      if id.value == LIST_END {
        PrependFacts(collected, [], Parsed([], br.Pending()));
        return Ok(collected);
      }
      match MagicalProperty(id.value)
      case None =>
        return Err;
      case Some(p) =>
        var values := ReadCompoundBits(br, id.value, StatCount(p));
        if values.Err? {
          return Err;
        }
        PrependFacts(collected, [MagicAttribute(id.value, values.value)], ReadList(br.Pending()));
        collected := collected + [MagicAttribute(id.value, values.value)];
    }
  }
}
