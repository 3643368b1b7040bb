/** What the bits of a magical property list say, property by property, from the
    fields of the table and without the writer or the grouping it shares with the reader. */
module MagicMeaning {
  import opened Common
  import opened Bits
  import opened MagicTable
  import opened MagicLists

  // ---- One property ----

  lemma {:induction false} LowConcat(a: nat, n: nat, b: nat, m: nat)
    requires a < Pow2(n)
    ensures Low(a, n) + Low(b, m) == Low(a + Shl(b, n), n + m)
  {
    if n > 0 {
      var whole := a + Shl(b, n);
      assert whole % 2 == a % 2 && whole / 2 == a / 2 + Shl(b, n - 1);
      LowConcat(a / 2, n - 1, b, m);
    }
  }

  lemma Shifts(b: nat)
    ensures Shl(b, 3) == 8 * b && Shl(b, 6) == 64 * b && Shl(b, 8) == 256 * b
  {
    assert Shl(b, 1) == 2 * b;
    assert Shl(b, 3) == 8 * b;
    assert Shl(b, 5) == 32 * b;
    assert Shl(b, 7) == 128 * b;
  }

  lemma TwoFields(a: nat, n: nat, b: nat, m: nat, whole: nat, rest: Bitstring)
    requires a < Pow2(n) && whole == a + Shl(b, n) && whole < Pow2(n + m)
    ensures TakeBits(Low(a, n) + Low(b, m) + rest, n + m) == Parsed(whole, rest)
  {
    hide TakeBits, Low, Pow2, Shl;
    LowConcat(a, n, b, m);
    TakeUndoesLow(whole, n + m, rest);
  }

  /** A property without a parameter is its value, less the table's offset. */
  lemma PlainProperty(p: MagicPropertyDef, raw: nat, rest: Bitstring)
    requires p.saveParamBits == 0 && p.encode != 3 && p.saveBits > 0 && raw < Pow2(p.saveBits)
    ensures ReadProperty(p, Low(raw, p.saveBits) + rest) == Parsed([raw - p.saveAdd], rest)
  {
    hide TakeBits, Low, Pow2;
    TakeUndoesLow(raw, p.saveBits, rest);
    assert [] + RawValues(p, raw) == [raw - p.saveAdd];
  }

  /** A plain parameter comes first, bit for bit. */
  lemma ParameterProperty(p: MagicPropertyDef, param: nat, raw: nat, rest: Bitstring)
    requires p.saveParamBits > 0 && p.saveBits > 0 && p.descFunc != 14 && p.encode != 2 && p.encode != 3
    requires param < Pow2(p.saveParamBits) && raw < Pow2(p.saveBits)
    ensures ReadProperty(p, Low(param, p.saveParamBits) + (Low(raw, p.saveBits) + rest)) == Parsed([param, raw - p.saveAdd], rest)
  {
    hide TakeBits, Low, Pow2;
    TakeUndoesLow(param, p.saveParamBits, Low(raw, p.saveBits) + rest);
    TakeUndoesLow(raw, p.saveBits, rest);
    assert ParamValues(p, param) + RawValues(p, raw) == [param, raw - p.saveAdd];
  }

  lemma Powers()
    ensures Pow2(3) == 8 && Pow2(6) == 64 && Pow2(8) == 256 && Pow2(10) == 1024 && Pow2(13) == 8192 && Pow2(16) == 65536
  {
    assert Pow2(3) == 8;
    assert Pow2(6) == 64;
    assert Pow2(9) == 512;
    assert Pow2(12) == 4096;
  }

  /** A skill tab is three bits, in front of thirteen bits of class. */
  lemma SkillTabProperty(p: MagicPropertyDef, tab: nat, class_: nat, raw: nat, rest: Bitstring)
    requires p.descFunc == 14 && p.encode != 2 && p.encode != 3 && p.saveParamBits == 16 && p.saveBits > 0
    requires tab < 8 && class_ < 8192 && raw < Pow2(p.saveBits)
    ensures ReadProperty(p, Low(tab, 3) + Low(class_, 13) + (Low(raw, p.saveBits) + rest))
         == Parsed([tab, class_, raw - p.saveAdd], rest)
  {
    hide TakeBits, Low, Pow2, Shl;
    Powers();
    Shifts(class_);
    TwoFields(tab, 3, class_, 13, tab + 8 * class_, Low(raw, p.saveBits) + rest);
    EightSplits(tab, class_);
    TakeUndoesLow(raw, p.saveBits, rest);
    assert ParamValues(p, tab + 8 * class_) + RawValues(p, raw) == [tab, class_, raw - p.saveAdd];
  }

  lemma SkillUnpacked(p: MagicPropertyDef, level: nat, skill: nat)
    requires (p.encode == 2 || p.encode == 3) && p.descFunc != 14 && level < 64 && skill < 1024
    ensures ParamValues(p, level + 64 * skill) == [level, skill]
  {
    SixtyFourSplits(level, skill);
  }

  /** A skill cast by chance is six bits of level and ten of skill, and then the chance. */
  lemma ChanceToCastProperty(p: MagicPropertyDef, level: nat, skill: nat, raw: nat, rest: Bitstring)
    requires p.encode == 2 && p.descFunc != 14 && p.saveParamBits == 16 && p.saveBits > 0
    requires level < 64 && skill < 1024 && raw < Pow2(p.saveBits)
    ensures ReadProperty(p, Low(level, 6) + Low(skill, 10) + (Low(raw, p.saveBits) + rest))
         == Parsed([level, skill, raw - p.saveAdd], rest)
  {
    hide TakeBits, Low, Pow2, Shl;
    Powers();
    Shifts(skill);
    TwoFields(level, 6, skill, 10, level + 64 * skill, Low(raw, p.saveBits) + rest);
    SkillUnpacked(p, level, skill);
    TakeUndoesLow(raw, p.saveBits, rest);
    assert ParamValues(p, level + 64 * skill) + RawValues(p, raw) == [level, skill, raw - p.saveAdd];
  }

  lemma ChargesUnpacked(p: MagicPropertyDef, current: nat, maximum: nat)
    requires p.encode == 3 && p.saveAdd == 0 && current < 256 && maximum < 256
    ensures RawValues(p, current + 256 * maximum) == [current, maximum]
  {
  }

  /** A charged skill is packed alike, and its charges are a byte each: those left, those there were. */
  lemma ChargesProperty(p: MagicPropertyDef, level: nat, skill: nat, current: nat, maximum: nat, rest: Bitstring)
    requires p.encode == 3 && p.descFunc != 14 && p.saveParamBits == 16 && p.saveBits == 16 && p.saveAdd == 0
    requires level < 64 && skill < 1024 && current < 256 && maximum < 256
    ensures ReadProperty(p, Low(level, 6) + Low(skill, 10) + (Low(current, 8) + Low(maximum, 8) + rest))
         == Parsed([level, skill, current, maximum], rest)
  {
    hide TakeBits, Low, Pow2, Shl;
    Powers();
    Shifts(skill);
    TwoFields(level, 6, skill, 10, level + 64 * skill, Low(current, 8) + Low(maximum, 8) + rest);
    Shifts(maximum);
    TwoFields(current, 8, maximum, 8, current + 256 * maximum, rest);
    SkillUnpacked(p, level, skill);
    ChargesUnpacked(p, current, maximum);
    hide ParamValues, RawValues;
    assert [level as int, skill] + [current as int, maximum] == [level, skill, current, maximum];
  }

  // ---- One attribute ----

  /** An attribute of a single property. */
  lemma SingleAttribute(id: nat, p: MagicPropertyDef, a: seq<int>, more: Bitstring)
    requires id < 0x1ff && MagicalProperty(id) == Some(p) && p.numProps <= 1 && InRange(p, a)
    ensures ReadList(Low(id, 9) + (WriteProperty(p, a) + more)) == Prepend([MagicAttribute(id, a)], ReadList(more))
  {
    hide MagicalProperty, ReadProperty, WriteProperty, InRange, Low, TakeBits, Pow2;
    NineBits();
    TakeUndoesLow(id, 9, WriteProperty(p, a) + more);
    ReadUndoesWriteProperty(p, a, more);
    assert ReadCompound(id, 1, 1, more) == Parsed([], more);
    assert ReadCompound(id, 0, 1, WriteProperty(p, a) + more) == Parsed(a + [], more);
    assert a + [] == a;
  }

  /** A compound of two: the property of the next id follows, under the first one's id. */
  lemma DoubleAttribute(id: nat, p: MagicPropertyDef, q: MagicPropertyDef, a: seq<int>, b: seq<int>, more: Bitstring)
    requires id < 0x1ff && MagicalProperty(id) == Some(p) && p.numProps == 2 && MagicalProperty(id + 1) == Some(q)
    requires InRange(p, a) && InRange(q, b)
    ensures ReadList(Low(id, 9) + (WriteProperty(p, a) + (WriteProperty(q, b) + more)))
         == Prepend([MagicAttribute(id, a + b)], ReadList(more))
  {
    hide MagicalProperty, ReadProperty, WriteProperty, InRange, Low, TakeBits, Pow2;
    NineBits();
    var bits := WriteProperty(p, a) + (WriteProperty(q, b) + more);
    TakeUndoesLow(id, 9, bits);
    ReadUndoesWriteProperty(p, a, WriteProperty(q, b) + more);
    ReadUndoesWriteProperty(q, b, more);
    assert ReadCompound(id, 2, 2, more) == Parsed([], more);
    assert ReadCompound(id, 1, 2, WriteProperty(q, b) + more) == Parsed(b + [], more);
    assert ReadCompound(id, 0, 2, bits) == Parsed(a + (b + []), more);
    assert a + (b + []) == a + b;
  }

  /** And a compound of three. */
  lemma TripleAttribute(id: nat, p: MagicPropertyDef, q: MagicPropertyDef, r: MagicPropertyDef,
                        a: seq<int>, b: seq<int>, c: seq<int>, more: Bitstring)
    requires id < 0x1ff && MagicalProperty(id) == Some(p) && p.numProps == 3
    requires MagicalProperty(id + 1) == Some(q) && MagicalProperty(id + 2) == Some(r)
    requires InRange(p, a) && InRange(q, b) && InRange(r, c)
    ensures ReadList(Low(id, 9) + (WriteProperty(p, a) + (WriteProperty(q, b) + (WriteProperty(r, c) + more))))
         == Prepend([MagicAttribute(id, a + b + c)], ReadList(more))
  {
    hide MagicalProperty, ReadProperty, WriteProperty, InRange, Low, TakeBits, Pow2;
    NineBits();
    var rest := WriteProperty(q, b) + (WriteProperty(r, c) + more);
    TakeUndoesLow(id, 9, WriteProperty(p, a) + rest);
    ReadUndoesWriteProperty(p, a, rest);
    ReadUndoesWriteProperty(q, b, WriteProperty(r, c) + more);
    ReadUndoesWriteProperty(r, c, more);
    assert ReadCompound(id, 3, 3, more) == Parsed([], more);
    assert ReadCompound(id, 2, 3, WriteProperty(r, c) + more) == Parsed(c + [], more);
    assert ReadCompound(id, 1, 3, rest) == Parsed(b + (c + []), more);
    assert ReadCompound(id, 0, 3, WriteProperty(p, a) + rest) == Parsed(a + (b + (c + [])), more);
    assert a + (b + (c + [])) == a + b + c;
  }

  /** Nine ones end the list, and an id the table does not have fails it. */
  lemma ListEnds(id: nat, rest: Bitstring)
    requires id < 512
    ensures id == 0x1ff ==> ReadList(Low(id, 9) + rest) == Parsed([], rest)
    ensures id != 0x1ff && MagicalProperty(id).None? ==> ReadList(Low(id, 9) + rest) == Failed
  {
    hide MagicalProperty, Low, TakeBits, Pow2, ReadCompound;
    NineBits();
    TakeUndoesLow(id, 9, rest);
  }

  /** Added fire damage from `low` to `high`, bit for bit: one attribute with both ends. */
  lemma FireDamage(low: nat, high: nat, rest: Bitstring)
    requires low < 256 && high < 512
    ensures ReadList(Low(48, 9) + (Low(low, 8) + (Low(high, 9) + (Low(0x1ff, 9) + rest))))
         == Parsed([MagicAttribute(48, [low, high])], rest)
  {
    hide Low, TakeBits, Pow2, ReadProperty;
    NineBits();
    Powers();
    var p, q := MagicPropertyDef(8, 0, 0, 0, 19, 2), MagicPropertyDef(9, 0, 0, 0, 19, 0);
    assert MagicalProperty(48) == Some(p) && MagicalProperty(49) == Some(q);
    hide MagicalProperty;
    var end := Low(0x1ff, 9) + rest;
    ListEnds(0x1ff, rest);
    PlainProperty(p, low, Low(high, 9) + end);
    PlainProperty(q, high, end);
    TakeUndoesLow(48, 9, Low(low, 8) + (Low(high, 9) + end));
    assert ReadCompound(48, 2, 2, end) == Parsed([], end);
    assert ReadCompound(48, 1, 2, Low(high, 9) + end) == Parsed([high as int] + [], end);
    assert ReadCompound(48, 0, 2, Low(low, 8) + (Low(high, 9) + end)) == Parsed([low as int] + ([high as int] + []), end);
    assert [low as int] + ([high as int] + []) == [low, high];
    assert [MagicAttribute(48, [low, high])] + [] == [MagicAttribute(48, [low, high])];
  }
}
