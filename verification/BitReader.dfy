/** The bit cursor over a Diablo II save: bits are drawn from a byte stream
    LSB-first, can be pushed back, and are re-aligned after every item. */
module BitReaders {
  import opened Bits

  /** A read either yields a value or runs out of input. */
  datatype Result<+T> = Ok(value: T) | Err {
    predicate IsFailure() { Err? }
    function PropagateFailure<U>(): Result<U> requires Err? { Err }
    function Extract(): T requires Ok? { value }
  }

  /** The byte stream several readers take turns on. */
  class ByteStream {
    const data: seq<byte>
    var pos: nat

    ghost predicate Valid()
      reads this
    {
      pos <= |data|
    }

    constructor (data: seq<byte>)
      ensures Valid() && this.data == data && pos == 0
    {
      this.data, pos := data, 0;
    }

    ghost function Rest(): seq<byte>
      requires Valid()
      reads this
    {
      data[pos..]
    }

    method ReadByte() returns (r: Result<byte>)
      requires Valid()
      modifies this
      ensures Valid()
      ensures old(pos) < |data| ==> r == Ok(data[old(pos)]) && pos == old(pos) + 1
      ensures old(pos) == |data| ==> r == Err && pos == old(pos)
    {
      if pos == |data| {
        return Err;
      }
      r := Ok(data[pos]);
      pos := pos + 1;
    }
  }

  function CeilBytes(bits: nat): nat {
    (bits + 7) / 8
  }

  /** Whole bytes can be added to `bits` buffered bits until there are `n`, without ever
      exceeding the 64-bit buffer. Up to 57 bits that always holds. */
  predicate Room(bits: nat, n: nat) {
    n <= bits || bits + 8 * CeilBytes(n - bits) <= 64
  }

  class BitReader {
    const r: ByteStream
    var buf: nat        // a uint64
    var bits: nat       // bits available in buf
    var totalRead: nat  // bits consumed, reset for every item
    ghost var start: nat   // stream position when the reader was created
    ghost var cursor: nat  // bits consumed since then
    ghost var high: nat    // the furthest the cursor has ever been

    ghost predicate Valid()
      reads this, r
    {
      && r.Valid()
      && bits <= 64 && Fits(buf, bits)
      && start <= r.pos
      && cursor <= high
      && 8 * (r.pos - start) == cursor + bits
      && r.pos - start == CeilBytes(high)
    }

    /** The bits still to come: what is buffered, then what the stream holds. */
    ghost function Pending(): (s: Bitstring)
      requires Valid()
      reads this, r
      ensures |s| == bits + 8 * (|r.data| - r.pos)
    {
      Low(buf, bits) + BitsOf(r.Rest())
    }

    /** What every read respects: the stream only moves forward, and whatever is
        consumed is counted alike by the item and the reader. */
    twostate predicate Moved(ok: bool)
      reads this, r
    {
      && r.Valid() && old(r.pos) <= r.pos
      && (ok ==>
            && start == old(start)
            && totalRead - old(totalRead) == cursor - old(cursor) >= 0
            && high == if cursor <= old(high) then old(high) else cursor)
    }

    constructor (r: ByteStream)
      requires r.Valid()
      ensures Valid() && this.r == r && r.pos == old(r.pos)
      ensures start == r.pos && cursor == 0 && high == 0 && totalRead == 0 && bits == 0
      ensures Pending() == BitsOf(r.Rest())
    {
      this.r := r;
      buf, bits, totalRead := 0, 0, 0;
      start, cursor, high := r.pos, 0, 0;
    }

    /** Moves whole bytes into the buffer until it holds `n` bits. */
    method Fill(n: nat) returns (ok: bool)
      requires Valid() && (n <= 57 || Room(bits, n))
      modifies this`buf, this`bits, r
      ensures r.Valid() && bits <= 64 && Fits(buf, bits) && start <= r.pos
      ensures 8 * (r.pos - start) == cursor + bits
      ensures Low(buf, bits) + BitsOf(r.Rest()) == old(Pending())
      ensures ok <==> n <= |old(Pending())|
      ensures ok ==> n <= bits && (old(bits) >= n ==> bits == old(bits)) && (old(bits) < n ==> bits < n + 8)
      ensures !ok ==> r.pos == |r.data| && bits < n
      ensures old(r.pos) <= r.pos
    {
      hide Low, BitsOf, Fits, Or, Shl64, CeilBytes;
      RoomForBytes(bits, n);
      while bits < n
        invariant bits < n ==> Room(bits, n)
        invariant r.Valid() && bits <= 64 && Fits(buf, bits) && start <= r.pos
        invariant 8 * (r.pos - start) == cursor + bits
        invariant Low(buf, bits) + BitsOf(r.Rest()) == old(Pending())
        invariant old(r.pos) <= r.pos
        invariant old(bits) >= n ==> bits == old(bits)
        invariant old(bits) < n ==> bits < n + 8
        decreases |r.data| - r.pos
      {
        ghost var rest := r.Rest();
        var b := r.ReadByte();
        if b.Err? {
          return false;
        }
        RoomForBytes(bits, n);
        Appended(buf, bits, b.value, rest);
        buf := Or(buf, Shl64(b.value, bits));
        bits := bits + 8;
      }
      return true;
    }

    /** The next `n` bits as a number, or an error when fewer remain. */
    method ReadBits(n: nat) returns (val: Result<nat>)
      requires Valid() && (n <= 57 || Room(bits, n))
      modifies this, r
      ensures r.Valid() && start == old(start) && old(r.pos) <= r.pos
      ensures val.Ok? <==> n <= |old(Pending())|
      ensures val.Ok? ==>
        && Valid()
        && val.value == ToNat(old(Pending())[..n])
        && Pending() == old(Pending())[n..]
        && totalRead == old(totalRead) + n
        && cursor == old(cursor) + n && high == (if cursor <= old(high) then old(high) else cursor)
    {
      hide Low, Shr, And, BitsOf, Fits, CeilBytes, ToNat, Mask;
      ghost var rest0, bits0, high0 := r.pos, bits, high;
      var ok := Fill(n);
      if !ok {
        return Err;
      }
      Taken(buf, bits, n, BitsOf(r.Rest()));
      HighWater(cursor, bits0, high0, rest0 - start, n, bits, r.pos - start);
      val := Ok(And(buf, Mask(n)));
      buf := Shr(buf, n);
      bits := bits - n;
      totalRead := totalRead + n;
      cursor := cursor + n;
      high := if cursor <= high then high else cursor;
    }

    method ReadBit() returns (val: Result<nat>)
      requires Valid()
      modifies this, r
      ensures r.Valid() && start == old(start) && old(r.pos) <= r.pos
      ensures val.Ok? <==> old(Pending()) != []
      ensures val.Ok? ==>
        && Valid()
        && val.value == (if old(Pending())[0] then 1 else 0)
        && Pending() == old(Pending())[1..]
        && totalRead == old(totalRead) + 1
        && cursor == old(cursor) + 1 && high == (if cursor <= old(high) then old(high) else cursor)
    {
      hide Low, BitsOf, Fits, CeilBytes;
      ghost var pending := Pending();
      val := ReadBits(1);
      if val.Ok? {
        assert pending[..1] == [pending[0]];
      }
    }

    /** Pushes `n` bits of `val` back in front of everything still to come. */
    method UnreadBits(val: nat, n: nat)
      requires Valid() && bits + n <= 64 && n <= totalRead && n <= cursor
      modifies this
      ensures Valid() && start == old(start) && r.pos == old(r.pos)
      ensures Pending() == Low(val, n) + old(Pending())
      ensures bits == old(bits) + n && totalRead == old(totalRead) - n
      ensures cursor == old(cursor) - n && high == old(high)
    {
      PushedBack(buf, bits, val, n);
      hide Low, BitsOf, Fits, Or, Shl64, And, CeilBytes;
      buf := Or(Shl64(buf, n), And(val, Mask(n)));
      bits := bits + n;
      totalRead := totalRead - n;
      cursor := cursor - n;
      assert Low(buf, bits) + BitsOf(r.Rest()) == Low(val, n) + (Low(old(buf), old(bits)) + BitsOf(r.Rest()));
    }

    /** Drops the bits up to the next byte boundary of the current item. */
    method Align()
      requires Valid()
      modifies this
      ensures start == old(start) && r.pos == old(r.pos) && Valid()
      ensures
        var rem := old(totalRead) % 8;
        var skip := if rem != 0 && 8 - rem <= old(bits) then 8 - rem else 0;
        && skip <= |old(Pending())|
        && Pending() == old(Pending())[skip..]
        && bits == old(bits) - skip
        && totalRead == old(totalRead) + skip
        && cursor == old(cursor) + skip && high == (if cursor <= old(high) then old(high) else cursor)
    {
      hide Low, Shr, BitsOf, Fits, CeilBytes, And, ToNat, Mask;
      var remainder := totalRead % 8;
      if remainder != 0 {
        var skip := 8 - remainder;
        if skip <= bits {
          Taken(buf, bits, skip, BitsOf(r.Rest()));
          HighWater(cursor, bits, high, r.pos - start, skip, bits, r.pos - start);
          buf := Shr(buf, skip);
          bits := bits - skip;
          totalRead := totalRead + skip;
          cursor := cursor + skip;
          high := if cursor <= high then high else cursor;
        }
      }
    }
  }

  lemma RoomForBytes(bits: nat, n: nat)
    ensures n <= 57 && bits <= 64 ==> Room(bits, n)
    ensures Room(bits, n) && bits < n ==> bits <= 56 && (bits + 8 < n ==> Room(bits + 8, n))
  {
  }

  lemma {:induction false} ShiftedLow(b: nat, k: nat, w: nat)
    ensures ToNat(Low(Shl(b, k), k + w)) == Shl(ToNat(Low(b, w)), k)
  {
    if k > 0 {
      assert Shl(b, k) / 2 == Shl(b, k - 1) && Shl(b, k) % 2 == 0;
      ShiftedLow(b, k - 1, w);
      var s := Low(Shl(b, k), k + w);
      assert s[1..] == Low(Shl(b, k - 1), k - 1 + w);
    }
  }

  /** Without room, the byte that does not fit is appended correctly exactly when the
      bits pushed past the top of the buffer are zero. */
  lemma OverfullByte(buf: nat, bits: nat, b: byte)
    requires Fits(buf, bits) && 57 <= bits <= 63
    ensures Low(Or(buf, Shl64(b, bits)), bits + 8) == Low(buf, bits) + Low(b, 8) <==> Fits(b, 64 - bits)
  {
    var kept := ToNat(Low(b, 64 - bits));
    ShiftedLow(b, bits, 64 - bits);
    OrAppends(buf, kept, bits, 8);
    LowFits(Low(b, 64 - bits));
    FitsWider(kept, 64 - bits, 8);
    ByteFits(b);
    ToNatOfLow(kept, 8);
    ToNatOfLow(b, 8);
    if Fits(b, 64 - bits) {
      ToNatOfLow(b, 64 - bits);
    }
    var all := Low(buf, bits) + Low(b, 8);
    assert all[bits..] == Low(b, 8) && (Low(buf, bits) + Low(kept, 8))[bits..] == Low(kept, 8);
  }

  /** Taking `n` bits off a buffer takes them off everything to come. */
  lemma Taken(buf: nat, bits: nat, n: nat, rest: Bitstring)
    requires Fits(buf, bits) && n <= bits
    ensures And(buf, Mask(n)) == ToNat((Low(buf, bits) + rest)[..n])
    ensures Fits(Shr(buf, n), bits - n)
    ensures Low(Shr(buf, n), bits - n) + rest == (Low(buf, bits) + rest)[n..]
  {
    MaskTakesLow(buf, n);
    LowSplit(buf, n, bits - n);
    ShrShr(buf, n, bits - n);
    assert (Low(buf, bits) + rest)[..n] == Low(buf, n);
  }

  /** Bytes drawn keep up exactly with the furthest bit consumed. */
  lemma HighWater(cursor: nat, bits0: nat, high0: nat, drawn0: nat, n: nat, bits: nat, drawn: nat)
    requires 8 * drawn0 == cursor + bits0 && drawn0 == CeilBytes(high0) && cursor <= high0
    requires 8 * drawn == cursor + bits && n <= bits
    requires (bits0 >= n ==> bits == bits0) && (bits0 < n ==> bits < n + 8)
    ensures drawn == CeilBytes(if cursor + n <= high0 then high0 else cursor + n)
  {
  }

  /** Moving one byte from the stream to the buffer changes nothing to come. */
  lemma Appended(buf: nat, bits: nat, b: byte, rest: seq<byte>)
    requires Fits(buf, bits) && bits <= 56 && rest != [] && rest[0] == b
    ensures Fits(Or(buf, Shl64(b, bits)), bits + 8)
    ensures Low(Or(buf, Shl64(b, bits)), bits + 8) + BitsOf(rest[1..]) == Low(buf, bits) + BitsOf(rest)
  {
    ByteFits(b);
    Shl64Exact(b, 8, bits);
    OrAppends(buf, b, bits, 8);
    assert BitsOf(rest) == Low(b, 8) + BitsOf(rest[1..]);
  }

  lemma PushedBack(buf: nat, bits: nat, val: nat, n: nat)
    requires Fits(buf, bits) && bits + n <= 64
    ensures
      var pushed := Or(Shl64(buf, n), And(val, Mask(n)));
      Fits(pushed, bits + n) && Low(pushed, bits + n) == Low(val, n) + Low(buf, bits)
  {
    var low := And(val, Mask(n));
    MaskTakesLow(val, n);
    LowOfToNat(Low(val, n));
    LowFits(Low(val, n));
    Shl64Exact(buf, bits, n);
    OrCommutes(low, Shl(buf, n));
    OrAppends(low, buf, n, bits);
  }

  lemma LowFits(s: Bitstring)
    ensures Fits(ToNat(s), |s|)
  {
    ToNatBound(s);
    FitsIffBelow(ToNat(s), |s|);
  }
}
