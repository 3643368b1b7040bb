/** Natural numbers as LSB-first bit sequences, with the shift and mask
    operations the bit reader applies to its 64-bit buffer. */
module Bits {

  type Bitstring = seq<bool>
  type byte = x: nat | x < 256 witness 0

  /** The `n` lowest bits of `a`, least significant first. */
  function Low(a: nat, n: nat): (s: Bitstring)
    ensures |s| == n
  {
    if n == 0 then [] else [a % 2 == 1] + Low(a / 2, n - 1)
  }

  function ToNat(s: Bitstring): nat {
    if s == [] then 0 else (if s[0] then 1 else 0) + 2 * ToNat(s[1..])
  }

  function Pow2(n: nat): (p: nat)
    ensures p >= 1
  {
    if n == 0 then 1 else 2 * Pow2(n - 1)
  }

  function Shl(a: nat, n: nat): nat {
    if n == 0 then a else 2 * Shl(a, n - 1)
  }

  function Shr(a: nat, n: nat): nat {
    if n == 0 then a else Shr(a / 2, n - 1)
  }

  function Or(a: nat, b: nat): nat
    decreases a + b
  {
    if a == 0 then b else if b == 0 then a
    else (if a % 2 == 1 || b % 2 == 1 then 1 else 0) + 2 * Or(a / 2, b / 2)
  }

  function And(a: nat, b: nat): nat
    decreases a + b
  {
    if a == 0 || b == 0 then 0
    else (if a % 2 == 1 && b % 2 == 1 then 1 else 0) + 2 * And(a / 2, b / 2)
  }

  /** A left shift in a 64-bit register: bits pushed past the top are lost. */
  function Shl64(a: nat, n: nat): nat {
    ToNat(Low(Shl(a, n), 64))
  }

  /** `(1 << n) - 1` */
  function Mask(n: nat): nat {
    Pow2(n) - 1
  }

  /** `a` occupies at most `n` bits. */
  predicate Fits(a: nat, n: nat) {
    Shr(a, n) == 0
  }

  function BitsOf(bytes: seq<byte>): (s: Bitstring)
    ensures |s| == 8 * |bytes|
  {
    if bytes == [] then [] else Low(bytes[0], 8) + BitsOf(bytes[1..])
  }

  lemma {:induction false} LowOfToNat(s: Bitstring)
    ensures Low(ToNat(s), |s|) == s
  {
    if s != [] {
      LowOfToNat(s[1..]);
      assert ToNat(s) / 2 == ToNat(s[1..]);
    }
  }

  lemma {:induction false} ToNatOfLow(a: nat, n: nat)
    requires Fits(a, n)
    ensures ToNat(Low(a, n)) == a
  {
    if n > 0 {
      ToNatOfLow(a / 2, n - 1);
    }
  }

  lemma {:induction false} ToNatBound(s: Bitstring)
    ensures ToNat(s) < Pow2(|s|)
  {
    if s != [] { ToNatBound(s[1..]); }
  }

  lemma {:induction false} FitsIffBelow(a: nat, n: nat)
    ensures Fits(a, n) <==> a < Pow2(n)
  {
    if n > 0 { FitsIffBelow(a / 2, n - 1); }
  }

  lemma {:induction false} FitsWider(a: nat, n: nat, m: nat)
    requires Fits(a, n) && n <= m
    ensures Fits(a, m)
  {
    if n > 0 {
      FitsWider(a / 2, n - 1, m - 1);
    } else if m > 0 {
      FitsWider(a / 2, n, m - 1);
    }
  }

  lemma {:induction false} LowSplit(a: nat, k: nat, j: nat)
    ensures Low(a, k + j) == Low(a, k) + Low(Shr(a, k), j)
  {
    if k > 0 { LowSplit(a / 2, k - 1, j); }
  }

  lemma {:induction false} ShrShr(a: nat, k: nat, j: nat)
    ensures Shr(Shr(a, k), j) == Shr(a, k + j)
  {
    if k > 0 { ShrShr(a / 2, k - 1, j); }
  }

  lemma {:induction false} ShrShl(b: nat, k: nat, j: nat)
    ensures Shr(Shl(b, k), k + j) == Shr(b, j)
  {
    if k > 0 {
      assert Shl(b, k) / 2 == Shl(b, k - 1);
      ShrShl(b, k - 1, j);
    }
  }

  lemma {:induction false} MaskTakesLow(a: nat, n: nat)
    ensures And(a, Mask(n)) == ToNat(Low(a, n))
  {
    if n > 0 {
      assert Mask(n) / 2 == Mask(n - 1) && Mask(n) % 2 == 1;
      MaskTakesLow(a / 2, n - 1);
      if a == 0 { ZeroLow(n); }
    }
  }

  lemma {:induction false} ZeroLow(n: nat)
    ensures ToNat(Low(0, n)) == 0
  {
    if n > 0 { ZeroLow(n - 1); }
  }

  /** One bit position of an OR, whichever operand happens to be zero. */
  lemma OrHalves(a: nat, b: nat)
    ensures Or(a, b) % 2 == (if a % 2 == 1 || b % 2 == 1 then 1 else 0)
    ensures Or(a, b) / 2 == Or(a / 2, b / 2)
  {
    if a != 0 && b != 0 {
    } else if a == 0 {
      assert Or(a / 2, b / 2) == b / 2;
    } else {
      assert Or(a / 2, b / 2) == a / 2;
    }
  }

  /** OR-ing a shifted value above a buffer of `k` bits appends its bits. */
  lemma {:induction false} OrAppends(a: nat, b: nat, k: nat, j: nat)
    requires Fits(a, k)
    ensures Low(Or(a, Shl(b, k)), k + j) == Low(a, k) + Low(b, j)
    ensures Shr(Or(a, Shl(b, k)), k + j) == Shr(b, j)
  {
    if k > 0 {
      OrHalves(a, Shl(b, k));
      assert Shl(b, k) / 2 == Shl(b, k - 1) && Shl(b, k) % 2 == 0;
      OrAppends(a / 2, b, k - 1, j);
    }
  }

  lemma {:induction false} OrCommutes(a: nat, b: nat)
    ensures Or(a, b) == Or(b, a)
    decreases a + b
  {
    if a != 0 && b != 0 { OrCommutes(a / 2, b / 2); }
  }

  lemma ByteFits(b: byte)
    ensures Fits(b, 8)
  {
    FitsIffBelow(b, 8);
    assert Pow2(5) == 32;
    assert Pow2(8) == 256;
  }

  /** A shift that stays inside 64 bits is exact. */
  lemma Shl64Exact(a: nat, w: nat, n: nat)
    requires Fits(a, w) && w + n <= 64
    ensures Shl64(a, n) == Shl(a, n)
  {
    ShrShl(a, n, w);
    FitsWider(Shl(a, n), n + w, 64);
    ToNatOfLow(Shl(a, n), 64);
  }

  lemma {:induction false} BitsOfConcat(a: seq<byte>, b: seq<byte>)
    ensures BitsOf(a + b) == BitsOf(a) + BitsOf(b)
  {
    if a == [] {
      assert a + b == b;
    } else {
      assert (a + b)[1..] == a[1..] + b;
      BitsOfConcat(a[1..], b);
    }
  }
}
