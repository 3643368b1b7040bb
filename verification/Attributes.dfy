/** The bit-packed character attributes that precede the skills section. */
module Attributes {
  import opened Bits
  import opened BitReaders
  import opened Common
  import opened MagicLists

  const ATTRIBUTE_COUNT := 16

  /** The bit length of each attribute, for the ids there are. */
  function AttributeBits(id: nat): Option<nat> {
    if id < 5 then Some(10)        // strength, energy, dexterity, vitality, unused stats
    else if id == 5 then Some(8)   // unused skills
    else if id < 12 then Some(21)  // hit points, mana, stamina: current and maximum
    else if id == 12 then Some(7)  // level
    else if id == 13 then Some(32) // experience
    else if id < 16 then Some(25)  // gold, stashed gold
    else None
  }

  datatype Entry = Entry(id: nat, value: nat)

  predicate EntryInRange(e: Entry) {
    AttributeBits(e.id).Some? && e.value < Pow2(AttributeBits(e.id).value)
  }

  predicate AllInRange(entries: seq<Entry>) {
    forall i :: 0 <= i < |entries| ==> EntryInRange(entries[i])
  }

  // ---- The format ----

  function ReadEntries(bits: Bitstring): (r: Parsed<seq<Entry>>)
    ensures r.Parsed? ==> |r.rest| + 9 <= |bits|
    decreases |bits|
  {
    var (id, rest) :- TakeBits(bits, 9);
    if id == LIST_END then Parsed([], rest)
    else
      match AttributeBits(id)
      case None => Failed
      case Some(n) =>
        var (value, afterValue) :- TakeBits(rest, n);
        var (more, after) :- ReadEntries(afterValue);
        Parsed([Entry(id, value)] + more, after)
  }

  function WriteEntries(entries: seq<Entry>): Bitstring
    requires AllInRange(entries)
  {
    if entries == [] then Low(LIST_END, 9)
    else
      var e := entries[0];
      assert EntryInRange(e);
      Low(e.id, 9) + Low(e.value, AttributeBits(e.id).value) + WriteEntries(entries[1..])
  }

  /** The value an attribute ends up with: the last one listed, or zero. */
  function Held(entries: seq<Entry>, id: nat): nat {
    if entries == [] then 0
    else if entries[|entries| - 1].id == id then entries[|entries| - 1].value
    else Held(entries[..|entries| - 1], id)
  }

  /** Reading undoes writing, whatever follows the section. */
  lemma {:induction false} ReadUndoesWriteEntries(entries: seq<Entry>, after: Bitstring)
    requires AllInRange(entries)
    ensures ReadEntries(WriteEntries(entries) + after) == Parsed(entries, after)
  {
    hide Low, Pow2, ReadEntries, WriteEntries, AllInRange;
    if entries == [] {
      NothingWritten();
      ReadEnd(after);
    } else {
      var e, more := entries[0], entries[1..];
      FirstOfAll(entries);
      var n := AttributeBits(e.id).value;
      assert entries == [e] + more;
      WriteOneMore(e, more);
      ReadUndoesWriteEntries(more, after);
      Reassociate(Low(e.id, 9), Low(e.value, n), WriteEntries(more), after);
      ReadOne(e, WriteEntries(more) + after);
    }
  }

  lemma FirstOfAll(entries: seq<Entry>)
    requires AllInRange(entries) && entries != []
    ensures EntryInRange(entries[0]) && AllInRange(entries[1..])
  {
  }

  lemma Reassociate(a: Bitstring, b: Bitstring, c: Bitstring, end: Bitstring)
    ensures (a + b + c) + end == a + (b + (c + end))
  {
  }

  lemma ReadEnd(after: Bitstring)
    ensures ReadEntries(Low(LIST_END, 9) + after) == Parsed([], after)
  {
    hide Low, Pow2, TakeBits;
    NineBits();
    TakeUndoesLow(LIST_END, 9, after);
  }

  lemma ReadOne(e: Entry, more: Bitstring)
    requires EntryInRange(e)
    ensures
      var r := ReadEntries(more);
      ReadEntries(Low(e.id, 9) + (Low(e.value, AttributeBits(e.id).value) + more))
        == if r.Parsed? then Parsed([e] + r.value, r.rest) else Failed
  {
    hide Low, Pow2, TakeBits;
    NineBits();
    var n := AttributeBits(e.id).value;
    TakeUndoesLow(e.id, 9, Low(e.value, n) + more);
    TakeUndoesLow(e.value, n, more);
  }

  /** Nothing but what writing produces is ever accepted. */
  lemma {:induction false} WriteUndoesReadEntries(bits: Bitstring)
    requires ReadEntries(bits).Parsed?
    ensures AllInRange(ReadEntries(bits).value)
    ensures bits == WriteEntries(ReadEntries(bits).value) + ReadEntries(bits).rest
    decreases |bits|
  {
    hide Low, Pow2, ToNat, WriteEntries, AllInRange;
    var id, rest := ToNat(bits[..9]), bits[9..];
    LowUndoesTake(bits, 9);
    if id == LIST_END {
      NothingWritten();
    } else {
      var n := AttributeBits(id).value;
      LowUndoesTake(rest, n);
      var e, r := Entry(id, ToNat(rest[..n])), ReadEntries(rest[n..]);
      WriteUndoesReadEntries(rest[n..]);
      WriteOneMore(e, r.value);
      Regroup(bits, Low(id, 9), rest, Low(e.value, n), rest[n..], WriteEntries(r.value), r.rest);
    }
  }

  lemma Regroup(bits: Bitstring, a: Bitstring, rest: Bitstring, b: Bitstring, tail: Bitstring, c: Bitstring, end: Bitstring)
    requires bits == a + rest && rest == b + tail && tail == c + end
    ensures bits == (a + b + c) + end
  {
  }

  lemma NothingWritten()
    ensures AllInRange([]) && WriteEntries([]) == Low(LIST_END, 9)
  {
  }

  lemma WriteOneMore(e: Entry, more: seq<Entry>)
    requires EntryInRange(e) && AllInRange(more)
    ensures AllInRange([e] + more)
    ensures WriteEntries([e] + more) == Low(e.id, 9) + Low(e.value, AttributeBits(e.id).value) + WriteEntries(more)
  {
    assert ([e] + more)[1..] == more;
  }

  // ---- The reader ----

  lemma HeldAppend(entries: seq<Entry>, e: Entry, id: nat)
    ensures Held(entries + [e], id) == if e.id == id then e.value else Held(entries, id)
  {
    assert (entries + [e])[..|entries|] == entries;
  }

  /** The attribute record, one field per id. */
  type Record = s: seq<nat> | |s| == ATTRIBUTE_COUNT witness seq(ATTRIBUTE_COUNT, _ => 0)

  ghost predicate Holds(a: Record, entries: seq<Entry>) {
    forall id :: 0 <= id < ATTRIBUTE_COUNT ==> a[id] == Held(entries, id)
  }

  lemma NoneHeld(a: Record)
    requires forall id :: 0 <= id < ATTRIBUTE_COUNT ==> a[id] == 0
    ensures Holds(a, [])
  {
  }

  lemma HoldsAppend(a: Record, entries: seq<Entry>, e: Entry)
    requires Holds(a, entries) && e.id < ATTRIBUTE_COUNT
    ensures Holds(a[e.id := e.value], entries + [e])
  {
    forall id | 0 <= id < ATTRIBUTE_COUNT
      ensures a[e.id := e.value][id] == Held(entries + [e], id)
    {
      HeldAppend(entries, e, id);
    }
  }

  /** Reads the attribute section, leaving the byte stream at the next section. */
  method ParseAttributes(stream: ByteStream) returns (attrs: Result<Record>)
    requires stream.Valid()
    modifies stream
    ensures stream.Valid()
    ensures
      var bits := BitsOf(old(stream.Rest()));
      var r := ReadEntries(bits);
      && (attrs.Ok? <==> r.Parsed?)
      && (attrs.Ok? ==>
            && Holds(attrs.value, r.value)
            && stream.pos == old(stream.pos) + CeilBytes(|bits| - |r.rest|))
  {
    hide Low, Fits, CeilBytes, ToNat, BitsOf, Holds, AttributeBits;
    ghost var bits := BitsOf(stream.Rest());
    var br := new BitReader(stream);
    var a: Record := seq(ATTRIBUTE_COUNT, _ => 0);
    ghost var read: seq<Entry> := [];
    NoneHeld(a);
    PrependFacts(read, read, ReadEntries(bits));
    while true
      invariant fresh(br) && br.r == stream && br.Valid()
      invariant br.start == old(stream.pos) && br.high == br.cursor == |bits| - |br.Pending()|
      invariant Holds(a, read)
      invariant ReadEntries(bits) == Prepend(read, ReadEntries(br.Pending()))
      decreases |br.Pending()|
    {
      var id := br.ReadBits(9);
      if id.Err? {
        return Err;
      }
      if id.value == LIST_END {
        PrependFacts(read, [], Parsed([], br.Pending()));
        return Ok(a);
      }
      match AttributeBits(id.value)
      case None =>
        return Err;
      case Some(n) =>
        AttributeWidths(id.value);
        var val := br.ReadBits(n);
        if val.Err? {
          return Err;
        }
        PrependFacts(read, [Entry(id.value, val.value)], ReadEntries(br.Pending()));
        HoldsAppend(a, read, Entry(id.value, val.value));
        a, read := a[id.value := val.value], read + [Entry(id.value, val.value)];
    }
  }

  lemma AttributeWidths(id: nat)
    ensures AttributeBits(id).Some? <==> id < ATTRIBUTE_COUNT
    ensures AttributeBits(id).Some? ==> AttributeBits(id).value <= 32
  {
  }

  /** An entry is nine bits of id and the value in the bits of its kind: ten for the four
      abilities and the unused points, eight for unused skills, 21 for the six vitals,
      seven for the level, 32 for experience and 25 for either gold. Sixteen ids and no
      more are known. */
  lemma StoredAttribute(id: nat, value: nat, width: nat, more: Bitstring)
    requires id < 512 && id != 0x1ff && value < Pow2(width)
    requires
      || (id <= 4 && width == 10) || (id == 5 && width == 8) || (6 <= id <= 11 && width == 21) || (id == 12 && width == 7)
      || (id == 13 && width == 32) || (14 <= id <= 15 && width == 25) || (id >= 16 && width == 0)
    ensures ReadEntries(Low(id, 9) + (Low(value, width) + more))
         == if id < 16 then Prepend([Entry(id, value)], ReadEntries(more)) else Failed
  {
    hide Low, Pow2, ReadEntries;
    if id < 16 {
      ReadOne(Entry(id, value), more);
    } else {
      NineBits();
      TakeUndoesLow(id, 9, Low(value, width) + more);
      UnknownRead(Low(id, 9) + (Low(value, width) + more), id);
    }
  }

  lemma UnknownRead(bits: Bitstring, id: nat)
    requires TakeBits(bits, 9).Parsed? && TakeBits(bits, 9).value == id >= 16 && id != LIST_END
    ensures ReadEntries(bits) == Failed
  {
  }

  /** A section written as whole bytes is consumed exactly: the reader stops where
      `after` begins. */
  lemma SectionConsumed(entries: seq<Entry>, section: seq<byte>, padding: Bitstring, after: seq<byte>)
    requires AllInRange(entries)
    requires BitsOf(section) == WriteEntries(entries) + padding && |padding| < 8
    ensures
      var bits := BitsOf(section + after);
      var r := ReadEntries(bits);
      && r.Parsed? && r.value == entries
      && CeilBytes(|bits| - |r.rest|) == |section|
  {
    hide ReadEntries, WriteEntries, BitsOf;
    BitsOfConcat(section, after);
    assert BitsOf(section + after) == WriteEntries(entries) + (padding + BitsOf(after));
    ReadUndoesWriteEntries(entries, padding + BitsOf(after));
  }
}
