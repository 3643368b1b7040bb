/** The primitive encodings of a GVAS save: little-endian words and FStrings. */
module GvasText {
  import opened Bits

  /** Why a parse stops: an error return, or a run-time panic. */
  datatype Failure = Malformed | Panic

  /** A value read off the front of some bytes, and the bytes after it. */
  datatype Got<+T> = Got(value: T, rest: seq<byte>) | Failed(why: Failure) {
    predicate IsFailure() { Failed? }
    function PropagateFailure<U>(): Got<U> requires Failed? { Failed(why) }
    function Extract(): (T, seq<byte>) requires Got? { (value, rest) }
  }

  // ---- Words ----

  function Pow256(w: nat): (p: nat)
    ensures p > 0
  {
    if w == 0 then 1 else 256 * Pow256(w - 1)
  }

  function LeValue(raw: seq<byte>): nat {
    if raw == [] then 0 else raw[0] + 256 * LeValue(raw[1..])
  }

  function LeBytes(n: nat, w: nat): (raw: seq<byte>)
    ensures |raw| == w
  {
    if w == 0 then [] else [n % 256] + LeBytes(n / 256, w - 1)
  }

  /** Two's complement. */
  function ToSigned(n: nat, w: nat): int {
    if 2 * n < Pow256(w) then n else n - Pow256(w)
  }

  function ToUnsigned(n: int, w: nat): nat {
    if n >= 0 then n else if n + Pow256(w) >= 0 then n + Pow256(w) else 0
  }

  predicate WordInRange(n: int, w: nat, signed: bool) {
    if signed then 0 <= 2 * n + Pow256(w) && 2 * n < Pow256(w) else 0 <= n < Pow256(w)
  }

  function ReadWord(b: seq<byte>, w: nat, signed: bool): (g: Got<int>)
    ensures g.Got? ==> |g.rest| == |b| - w && (!signed ==> g.value >= 0)
    ensures g.Failed? ==> g.why == Malformed
  {
    var (raw, rest) :- Take(b, w);
    Got(if signed then ToSigned(LeValue(raw), w) else LeValue(raw), rest)
  }

  function Take(b: seq<byte>, n: nat): (g: Got<seq<byte>>)
    ensures g.Got? ==> |g.rest| == |b| - n && |g.value| == n && b == g.value + g.rest
    ensures g.Failed? ==> g.why == Malformed
  {
    if n <= |b| then Got(b[..n], b[n..]) else Failed(Malformed)
  }

  /** The word, little-endian, in front of `tail`. */
  function PrintWord(n: int, w: nat, tail: seq<byte>): seq<byte> {
    LeBytes(ToUnsigned(n, w), w) + tail
  }

  lemma {:induction false} LeValueOfBytes(n: nat, w: nat)
    requires n < Pow256(w)
    ensures LeValue(LeBytes(n, w)) == n
  {
    if w > 0 { LeValueOfBytes(n / 256, w - 1); }
  }

  lemma {:induction false} LeBytesOfValue(raw: seq<byte>)
    ensures LeValue(raw) < Pow256(|raw|)
    ensures LeBytes(LeValue(raw), |raw|) == raw
  {
    if raw != [] { LeBytesOfValue(raw[1..]); }
  }

  lemma ReadPrintedWord(n: int, w: nat, signed: bool, tail: seq<byte>)
    requires WordInRange(n, w, signed)
    ensures ReadWord(PrintWord(n, w, tail), w, signed) == Got(n, tail)
  {
    var raw := LeBytes(ToUnsigned(n, w), w);
    assert (raw + tail)[..w] == raw && (raw + tail)[w..] == tail;
    LeValueOfBytes(ToUnsigned(n, w), w);
  }

  lemma PrintReadWord(b: seq<byte>, w: nat, signed: bool)
    requires ReadWord(b, w, signed).Got?
    ensures
      var g := ReadWord(b, w, signed);
      WordInRange(g.value, w, signed) && b == PrintWord(g.value, w, g.rest)
  {
    LeBytesOfValue(b[..w]);
  }

  // ---- FStrings ----

  /** An FString as stored: nothing, `length` bytes, or `-length` UTF-16 units.
      Any terminator is part of the data. */
  datatype FString = Empty | Narrow(data: seq<byte>) | Wide(units: seq<unit>)
  type unit = u: nat | u < 0x1_0000 witness 0

  const MAX_STRING_BYTES := 10 * 0x10_0000

  predicate FStringOk(s: FString) {
    match s
    case Empty => true
    case Narrow(data) => 0 < |data| <= MAX_STRING_BYTES
    case Wide(units) => 0 < |units| <= MAX_STRING_BYTES
  }

  function ReadFString(b: seq<byte>): (g: Got<FString>)
    ensures g.Got? ==> |g.rest| + 4 <= |b|
  {
    var (length, rest) :- ReadWord(b, 4, true);
    if length == 0 then Got(Empty, rest)
    else if length == -0x8000_0000 then Failed(Panic) // its negation overflows back to itself
    else if length > MAX_STRING_BYTES || -length > MAX_STRING_BYTES then Failed(Malformed)
    else if length > 0 then
      var (data, after) :- Take(rest, length);
      Got(Narrow(data), after)
    else
      var (data, after) :- Take(rest, 2 * -length);
      Got(Wide(UnitsOf(data)), after)
  }

  function UnitsOf(data: seq<byte>): (units: seq<unit>)
    requires |data| % 2 == 0
    ensures |units| == |data| / 2
  {
    if data == [] then [] else [data[0] as int + 256 * (data[1] as int)] + UnitsOf(data[2..])
  }

  function UnitBytes(units: seq<unit>): (data: seq<byte>)
    ensures |data| == 2 * |units|
  {
    if units == [] then [] else [units[0] % 256, units[0] / 256] + UnitBytes(units[1..])
  }

  function PrintFString(s: FString, tail: seq<byte>): seq<byte> {
    match s
    case Empty => PrintWord(0, 4, tail)
    case Narrow(data) => PrintWord(|data|, 4, data + tail)
    case Wide(units) => PrintWord(-|units|, 4, UnitBytes(units) + tail)
  }

  lemma Pow256Values()
    ensures Pow256(1) == 0x100 && Pow256(2) == 0x1_0000 && Pow256(4) == 0x1_0000_0000
    ensures Pow256(8) == 0x1_0000_0000_0000_0000
  {
    assert Pow256(3) == 0x100_0000;
    assert Pow256(5) == 0x100_0000_0000;
    assert Pow256(6) == 0x1_0000_0000_0000;
    assert Pow256(7) == 0x100_0000_0000_0000;
  }

  lemma {:induction false} UnitsOfBytes(units: seq<unit>)
    ensures UnitsOf(UnitBytes(units)) == units
  {
    if units != [] {
      UnitsOfBytes(units[1..]);
      assert UnitBytes(units)[2..] == UnitBytes(units[1..]);
    }
  }

  lemma {:induction false} BytesOfUnits(data: seq<byte>)
    requires |data| % 2 == 0
    ensures UnitBytes(UnitsOf(data)) == data
  {
    if data != [] {
      BytesOfUnits(data[2..]);
      assert UnitsOf(data)[1..] == UnitsOf(data[2..]);
    }
  }

  lemma TakeFront(a: seq<byte>, tail: seq<byte>)
    ensures Take(a + tail, |a|) == Got(a, tail)
  {
    assert (a + tail)[..|a|] == a && (a + tail)[|a|..] == tail;
  }

  lemma ReadPrintedFString(s: FString, tail: seq<byte>)
    requires FStringOk(s)
    ensures ReadFString(PrintFString(s, tail)) == Got(s, tail)
  {
    hide ReadWord, PrintWord, Take;
    Pow256Values();
    match s
    case Empty =>
      ReadPrintedWord(0, 4, true, tail);
    case Narrow(data) =>
      ReadPrintedWord(|data|, 4, true, data + tail);
      TakeFront(data, tail);
    case Wide(units) =>
      ReadPrintedWord(-|units|, 4, true, UnitBytes(units) + tail);
      TakeFront(UnitBytes(units), tail);
      UnitsOfBytes(units);
  }

  lemma PrintReadFString(b: seq<byte>)
    requires ReadFString(b).Got?
    ensures FStringOk(ReadFString(b).value)
    ensures b == PrintFString(ReadFString(b).value, ReadFString(b).rest)
  {
    hide ReadWord, PrintWord, Take;
    Pow256Values();
    PrintReadWord(b, 4, true);
    var word := ReadWord(b, 4, true);
    var s := ReadFString(b).value;
    if s.Wide? {
      BytesOfUnits(Take(word.rest, 2 * -word.value).value);
    }
  }

  lemma FourBytes(raw: seq<byte>)
    requires |raw| == 4
    ensures LeValue(raw) as int == raw[0] as int + 0x100 * (raw[1] as int) + 0x1_0000 * (raw[2] as int) + 0x100_0000 * (raw[3] as int)
  {
    var r1, r2, r3 := raw[1..], raw[2..], raw[3..];
    assert r1[1..] == r2 && r2[1..] == r3 && r3[1..] == [];
    assert LeValue(r3) == raw[3];
    assert LeValue(r2) == raw[2] + 256 * LeValue(r3);
    assert LeValue(r1) == raw[1] + 256 * LeValue(r2);
  }

  /** One length prefix makes the reader panic instead of returning an error. */
  lemma PanicsExactly(b: seq<byte>)
    ensures ReadFString(b) == Failed(Panic) <==> |b| >= 4 && b[..4] == [0, 0, 0, 0x80]
  {
    Pow256Values();
    if |b| >= 4 {
      FourBytes(b[..4]);
      assert b[..4] == [b[0], b[1], b[2], b[3]];
    }
  }

  // ---- What an FString says ----

  type rune = r: nat | r <= 0x10_FFFF witness 0

  const REPLACEMENT: rune := 0xFFFD

  predicate IsScalar(r: rune) {
    !(0xD800 <= r < 0xE000)
  }

  function DecodeUtf16(units: seq<unit>): seq<rune> {
    if units == [] then []
    else if IsScalar(units[0]) then [units[0]] + DecodeUtf16(units[1..])
    else if units[0] < 0xDC00 && |units| > 1 && 0xDC00 <= units[1] < 0xE000 then
      [0x1_0000 + 0x400 * (units[0] as int - 0xD800) + (units[1] as int - 0xDC00)] + DecodeUtf16(units[2..])
    else [REPLACEMENT] + DecodeUtf16(units[1..])
  }

  function EncodeUtf16(runes: seq<rune>): seq<unit> {
    if runes == [] then []
    else if runes[0] < 0x1_0000 then [runes[0]] + EncodeUtf16(runes[1..])
    else
      var v := runes[0] - 0x1_0000;
      [0xD800 + v / 0x400, 0xDC00 + v % 0x400] + EncodeUtf16(runes[1..])
  }

  function Utf8Rune(r: rune): seq<byte> {
    if r < 0x80 then [r]
    else if r < 0x800 then [0xC0 + r / 0x40, 0x80 + r % 0x40]
    else if r < 0x1_0000 then [0xE0 + r / 0x1000, 0x80 + r / 0x40 % 0x40, 0x80 + r % 0x40]
    else [0xF0 + r / 0x4_0000, 0x80 + r / 0x1000 % 0x40, 0x80 + r / 0x40 % 0x40, 0x80 + r % 0x40]
  }

  function Utf8(runes: seq<rune>): seq<byte> {
    if runes == [] then [] else Utf8Rune(runes[0]) + Utf8(runes[1..])
  }

  /** Without one trailing zero. */
  function Stripped<T(==)>(s: seq<T>, zero: T): seq<T> {
    if s != [] && s[|s| - 1] == zero then s[..|s| - 1] else s
  }

  /** The string an FString stands for. */
  function TextOf(s: FString): seq<byte> {
    match s
    case Empty => []
    case Narrow(data) => Stripped(data, 0)
    case Wide(units) => Utf8(DecodeUtf16(Stripped(units, 0)))
  }

  lemma {:induction false} DecodeEncodedUtf16(runes: seq<rune>)
    requires forall i :: 0 <= i < |runes| ==> IsScalar(runes[i])
    ensures DecodeUtf16(EncodeUtf16(runes)) == runes
  {
    if runes != [] {
      DecodeEncodedUtf16(runes[1..]);
      var units := EncodeUtf16(runes);
      if runes[0] < 0x1_0000 {
        assert units[1..] == EncodeUtf16(runes[1..]);
      } else {
        assert units[2..] == EncodeUtf16(runes[1..]);
      }
    }
  }

  /** Either encoding, terminated, gives the text back: wide ones in UTF-8. */
  lemma TerminatedText(text: seq<byte>, runes: seq<rune>)
    requires forall i :: 0 <= i < |runes| ==> IsScalar(runes[i])
    ensures TextOf(Narrow(text + [0])) == text
    ensures TextOf(Wide(EncodeUtf16(runes) + [0])) == Utf8(runes)
  {
    assert (text + [0])[..|text|] == text;
    var units := EncodeUtf16(runes);
    assert (units + [0])[..|units|] == units;
    DecodeEncodedUtf16(runes);
  }
}
