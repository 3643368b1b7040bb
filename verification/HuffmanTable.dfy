/** The code table of Diablo II item types, and what is true of it alone. */
module HuffmanTables {
  import opened Bits
  import opened Huffman
  import opened Common

  /** The first `n` bits as a number, first bit most significant. */
  function Top(bits: Bitstring, n: nat): nat
    requires n <= |bits|
  {
    if n == 0 then 0 else 2 * Top(bits, n - 1) + (if bits[n - 1] then 1 else 0)
  }

  /** The `n`-bit pattern that spells `v`, first bit most significant. */
  function Pattern(n: nat, v: nat): (s: Bitstring)
    ensures |s| == n
  {
    if n == 0 then [] else Pattern(n - 1, v / 2) + [v % 2 == 1]
  }

  lemma {:induction false} PatternTop(bits: Bitstring, n: nat, v: nat)
    requires n <= |bits| && v < Pow2(n)
    ensures Pattern(n, v) <= bits <==> Top(bits, n) == v
  {
    if n > 0 {
      PatternTop(bits, n - 1, v / 2);
      var p := Pattern(n, v);
      assert p[..n - 1] == Pattern(n - 1, v / 2) && p[n - 1] == (v % 2 == 1);
      if p <= bits {
        assert p[..n - 1] <= bits;
      }
      if Top(bits, n) == v {
        assert Pattern(n - 1, v / 2) <= bits && p[n - 1] == bits[n - 1];
      }
    }
  }

  /** Fixing the first `n` bits confines the first `m` to one range of numbers. */
  lemma {:induction false} TopRange(bits: Bitstring, n: nat, m: nat, v: nat)
    requires n <= m <= |bits|
    ensures Top(bits, n) == v <==> Shl(v, m - n) <= Top(bits, m) < Shl(v + 1, m - n)
  {
    if n < m {
      TopRange(bits, n, m - 1, v);
    }
  }

  lemma {:induction false} TopBound(bits: Bitstring, n: nat)
    requires n <= |bits|
    ensures Top(bits, n) < Pow2(n)
  {
    if n > 0 { TopBound(bits, n - 1); }
  }

  predicate IsSymbol(c: char) {
    c == ' ' || '0' <= c <= '9' || 'a' <= c <= 'z'
  }

  /** Length and bit pattern of each symbol's code. */
  function Entry(sym: char): (nat, nat) {
    match sym
    case ' ' => (2, 2)        // 10
    case '0' => (8, 251)      // 11111011
    case '1' => (7, 124)      // 1111100
    case '2' => (6, 12)       // 001100
    case '3' => (7, 109)      // 1101101
    case '4' => (8, 250)      // 11111010
    case '5' => (8, 22)       // 00010110
    case '6' => (7, 111)      // 1101111
    case '7' => (5, 15)       // 01111
    case '8' => (6, 4)        // 000100
    case '9' => (5, 14)       // 01110
    case 'a' => (5, 30)       // 11110
    case 'b' => (4, 5)        // 0101
    case 'c' => (5, 8)        // 01000
    case 'd' => (6, 49)       // 110001
    case 'e' => (6, 48)       // 110000
    case 'f' => (6, 19)       // 010011
    case 'g' => (5, 26)       // 11010
    case 'h' => (5, 3)        // 00011
    case 'i' => (7, 126)      // 1111110
    case 'j' => (9, 46)       // 000101110
    case 'k' => (6, 18)       // 010010
    case 'l' => (5, 29)       // 11101
    case 'm' => (5, 13)       // 01101
    case 'n' => (6, 13)       // 001101
    case 'o' => (7, 127)      // 1111111
    case 'p' => (5, 25)       // 11001
    case 'q' => (8, 217)      // 11011001
    case 'r' => (5, 28)       // 11100
    case 's' => (4, 2)        // 0010
    case 't' => (5, 12)       // 01100
    case 'u' => (5, 1)        // 00001
    case 'v' => (7, 110)      // 1101110
    case 'w' => (5, 0)        // 00000
    case 'x' => (5, 7)        // 00111
    case 'y' => (7, 10)       // 0001010
    case 'z' => (8, 216)      // 11011000
    case _ => (0, 0)
  }

  function Code(sym: char): Bitstring {
    Pattern(Entry(sym).0, Entry(sym).1)
  }

  function ItemCodeTable(): CodeTable {
    map sym: char | IsSymbol(sym) :: Code(sym)
  }

  /** The symbol whose code a nine-bit number starts with: the codes cut
      0..511 into consecutive ranges that miss a single number. */
  function SymbolAt(k: nat): Option<char> {
    if k < 16 then Some('w')
    else if k < 32 then Some('u')
    else if k < 40 then Some('8')
    else if k < 44 then Some('y')
    else if k < 46 then Some('5')
    else if k < 47 then Some('j')
    else if k < 48 then None
    else if k < 64 then Some('h')
    else if k < 96 then Some('s')
    else if k < 104 then Some('2')
    else if k < 112 then Some('n')
    else if k < 128 then Some('x')
    else if k < 144 then Some('c')
    else if k < 152 then Some('k')
    else if k < 160 then Some('f')
    else if k < 192 then Some('b')
    else if k < 208 then Some('t')
    else if k < 224 then Some('m')
    else if k < 240 then Some('9')
    else if k < 256 then Some('7')
    else if k < 384 then Some(' ')
    else if k < 392 then Some('e')
    else if k < 400 then Some('d')
    else if k < 416 then Some('p')
    else if k < 432 then Some('g')
    else if k < 434 then Some('z')
    else if k < 436 then Some('q')
    else if k < 440 then Some('3')
    else if k < 444 then Some('v')
    else if k < 448 then Some('6')
    else if k < 464 then Some('r')
    else if k < 480 then Some('l')
    else if k < 496 then Some('a')
    else if k < 500 then Some('1')
    else if k < 502 then Some('4')
    else if k < 504 then Some('0')
    else if k < 508 then Some('i')
    else if k < 512 then Some('o')
    else None
  }

  /** `v * 2^j`, spelled out for the shifts that occur. */
  function Scaled(v: nat, j: nat): nat {
    match j
    case 0 => v
    case 1 => 2 * v
    case 2 => 4 * v
    case 3 => 8 * v
    case 4 => 16 * v
    case 5 => 32 * v
    case 6 => 64 * v
    case 7 => 128 * v
    case 8 => 256 * v
    case 9 => 512 * v
    case _ => 0
  }

  lemma {:induction false} ScaledIsShift(v: nat, j: nat)
    requires j <= 9
    ensures Scaled(v, j) == Shl(v, j) && Scaled(1, j) == Pow2(j)
  {
    if j > 0 { ScaledIsShift(v, j - 1); }
  }

  /** The nine-bit numbers that begin with `sym`'s code. */
  predicate InRange(sym: char, k: nat) {
    var (n, v) := Entry(sym);
    0 < n <= 9 && v < Scaled(1, n) && Scaled(v, 9 - n) <= k < Scaled(v + 1, 9 - n)
  }

  /** The one bit pattern that no code covers. */
  const GAP := Pattern(9, 47)  // 000101111

  /** The same range in numbers. */
  function Bounds(sym: char): (nat, nat) {
    match sym
    case ' ' => (256, 384)
    case '0' => (502, 504)
    case '1' => (496, 500)
    case '2' => (96, 104)
    case '3' => (436, 440)
    case '4' => (500, 502)
    case '5' => (44, 46)
    case '6' => (444, 448)
    case '7' => (240, 256)
    case '8' => (32, 40)
    case '9' => (224, 240)
    case 'a' => (480, 496)
    case 'b' => (160, 192)
    case 'c' => (128, 144)
    case 'd' => (392, 400)
    case 'e' => (384, 392)
    case 'f' => (152, 160)
    case 'g' => (416, 432)
    case 'h' => (48, 64)
    case 'i' => (504, 508)
    case 'j' => (46, 47)
    case 'k' => (144, 152)
    case 'l' => (464, 480)
    case 'm' => (208, 224)
    case 'n' => (104, 112)
    case 'o' => (508, 512)
    case 'p' => (400, 416)
    case 'q' => (434, 436)
    case 'r' => (448, 464)
    case 's' => (64, 96)
    case 't' => (192, 208)
    case 'u' => (16, 32)
    case 'v' => (440, 444)
    case 'w' => (0, 16)
    case 'x' => (112, 128)
    case 'y' => (40, 44)
    case 'z' => (432, 434)
    case _ => (0, 0)
  }

  lemma BoundsAreRange(sym: char)
    requires IsSymbol(sym)
    ensures
      var (n, v) := Entry(sym);
      0 < n <= 9 && Bounds(sym) == (Scaled(v, 9 - n), Scaled(v + 1, 9 - n))
  {
    hide SymbolAt;
  }

  lemma SymbolInBounds(sym: char, k: nat)
    requires Bounds(sym).0 <= k < Bounds(sym).1
    ensures SymbolAt(k) == Some(sym)
  {
    hide Entry;
  }

  lemma RangeBack(k: nat)
    requires k < 512
    ensures SymbolAt(k).Some? ==> InRange(SymbolAt(k).value, k)
  {
  }

  lemma EntryOk(sym: char)
    requires IsSymbol(sym)
    ensures 0 < Entry(sym).0 <= 9 && Entry(sym).1 < Scaled(1, Entry(sym).0)
  {
  }

  lemma RangeForth(sym: char, k: nat)
    requires IsSymbol(sym) && InRange(sym, k)
    ensures SymbolAt(k) == Some(sym)
  {
    hide SymbolAt, Bounds, Entry, Scaled, IsSymbol;
    BoundsAreRange(sym);
    SymbolInBounds(sym, k);
  }

  lemma CodeIffInRange(sym: char, bits: Bitstring)
    requires IsSymbol(sym) && |bits| >= 9
    ensures 0 < |Code(sym)| <= 9
    ensures Code(sym) <= bits <==> InRange(sym, Top(bits, 9))
  {
    hide Entry, Scaled, Shl, Pow2, Top, IsSymbol;
    EntryOk(sym);
    var (n, v) := Entry(sym);
    ScaledIsShift(1, n);
    ScaledIsShift(v, 9 - n);
    ScaledIsShift(v + 1, 9 - n);
    PatternTop(bits, n, v);
    TopRange(bits, n, 9, v);
  }

  lemma CodeRange(sym: char, bits: Bitstring)
    requires IsSymbol(sym) && |bits| >= 9
    ensures 0 < |Code(sym)| <= 9
    ensures Code(sym) <= bits <==> SymbolAt(Top(bits, 9)) == Some(sym)
  {
    hide Code, SymbolAt, InRange;
    CodeIffInRange(sym, bits);
    NineBits(bits);
    if InRange(sym, Top(bits, 9)) {
      RangeForth(sym, Top(bits, 9));
    }
    RangeBack(Top(bits, 9));
  }

  lemma NineBits(bits: Bitstring)
    requires |bits| >= 9
    ensures Top(bits, 9) < 512 == Pow2(9)
  {
    TopBound(bits, 9);
    assert Pow2(5) == 32;
  }

  lemma SymbolsAreListed(k: nat)
    requires k < 512
    ensures SymbolAt(k).None? <==> k == 47
    ensures SymbolAt(k).Some? ==> IsSymbol(SymbolAt(k).value)
  {
  }

  lemma ItemCodesPrefixFree()
    ensures PrefixFree(ItemCodeTable())
  {
    hide Code, SymbolAt;
    var table := ItemCodeTable();
    forall a | a in table
      ensures table[a] != []
    {
      CodeRange(a, seq(9, _ => false));
    }
    forall a, b | a in table && b in table && table[a] <= table[b]
      ensures a == b
    {
      var padded := table[b] + seq(9, _ => false);
      CodeRange(a, padded);
      CodeRange(b, padded);
    }
  }

  /** Given nine bits to look at, decoding fails exactly on the gap pattern. */
  lemma OnlyTheGapIsUndecodable(bits: Bitstring)
    requires |bits| >= 9
    ensures (exists sym :: Decodes(ItemCodeTable(), bits, sym)) <==> !(GAP <= bits)
  {
    hide Code, SymbolAt;
    var k := Top(bits, 9);
    NineBits(bits);
    PatternTop(bits, 9, 47);
    SymbolsAreListed(k);
    if SymbolAt(k).Some? {
      CodeRange(SymbolAt(k).value, bits);
      assert Decodes(ItemCodeTable(), bits, SymbolAt(k).value);
    }
    if sym :| Decodes(ItemCodeTable(), bits, sym) {
      CodeRange(sym, bits);
    }
  }
}
