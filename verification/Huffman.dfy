/** The prefix code of Diablo II item types and the pointer tree that decodes it. */
module Huffman {
  import opened Bits
  import opened BitReaders

  /** A code table: one bit pattern per symbol. */
  type CodeTable = map<char, Bitstring>

  // ---- Prefix codes ----

  ghost predicate PrefixFree(table: CodeTable) {
    && (forall a | a in table :: table[a] != [])
    && (forall a, b | a in table && b in table && table[a] <= table[b] :: a == b)
  }

  /** `sym` is the symbol whose code `bits` starts with. */
  ghost predicate Decodes(table: CodeTable, bits: Bitstring, sym: char) {
    sym in table && table[sym] <= bits
  }

  lemma PrefixesOfSame(a: Bitstring, b: Bitstring, bits: Bitstring)
    requires a <= bits && b <= bits && |a| <= |b|
    ensures a <= b
  {
  }

  lemma DecodedSymbolUnique(table: CodeTable, bits: Bitstring, a: char, b: char)
    requires PrefixFree(table) && Decodes(table, bits, a) && Decodes(table, bits, b)
    ensures a == b
  {
    if |table[a]| <= |table[b]| {
      PrefixesOfSame(table[a], table[b], bits);
    } else {
      PrefixesOfSame(table[b], table[a], bits);
    }
  }

  function Encode(table: CodeTable, msg: string): Bitstring
    requires forall c | c in msg :: c in table
  {
    if msg == "" then [] else table[msg[0]] + Encode(table, msg[1..])
  }

  /** `msg` is read off `bits` symbol by symbol, leaving `rest`. */
  ghost predicate DecodesTo(table: CodeTable, bits: Bitstring, msg: string, rest: Bitstring) {
    if msg == "" then rest == bits
    else Decodes(table, bits, msg[0]) && DecodesTo(table, bits[|table[msg[0]]|..], msg[1..], rest)
  }

  lemma {:induction false} EncodedReads(table: CodeTable, msg: string, rest: Bitstring)
    requires forall c | c in msg :: c in table
    ensures DecodesTo(table, Encode(table, msg) + rest, msg, rest)
  {
    if msg == "" {
      assert Encode(table, msg) + rest == rest;
    } else {
      var code := table[msg[0]];
      var bits := Encode(table, msg) + rest;
      assert msg[0] in msg;
      assert bits == code + (Encode(table, msg[1..]) + rest);
      assert bits[|code|..] == Encode(table, msg[1..]) + rest;
      EncodedReads(table, msg[1..], rest);
    }
  }

  /** Decoding undoes encoding, for every symbol string and whatever follows it: the
      encoding of `msg` reads as `msg`, and as no other string of the same length. */
  lemma DecodingUndoesEncoding(table: CodeTable, msg: string, rest: Bitstring, other: string, otherRest: Bitstring)
    requires PrefixFree(table) && (forall c | c in msg :: c in table) && |other| == |msg|
    ensures DecodesTo(table, Encode(table, msg) + rest, other, otherRest) <==> other == msg && otherRest == rest
  {
    EncodedReads(table, msg, rest);
    if DecodesTo(table, Encode(table, msg) + rest, other, otherRest) {
      DecodingDeterministic(table, Encode(table, msg) + rest, msg, other, rest, otherRest);
    }
  }

  lemma {:induction false} DecodingDeterministic(
      table: CodeTable, bits: Bitstring, a: string, b: string, restA: Bitstring, restB: Bitstring)
    requires PrefixFree(table) && |a| == |b|
    requires DecodesTo(table, bits, a, restA) && DecodesTo(table, bits, b, restB)
    ensures a == b && restA == restB
  {
    if a != "" {
      DecodedSymbolUnique(table, bits, a[0], b[0]);
      DecodingDeterministic(table, bits[|table[a[0]]|..], a[1..], b[1..], restA, restB);
      assert a == [a[0]] + a[1..] && b == [b[0]] + b[1..];
    }
  }

  // ---- The pointer tree ----

  class HuffmanNode {
    var left: HuffmanNode?   // bit 0
    var right: HuffmanNode?  // bit 1
    var symbol: char

    constructor ()
      ensures left == null && right == null && symbol == '\0'
    {
      left, right, symbol := null, null, '\0';
    }
  }

  /** `path` is a node of the tree for `table`: the start of some code. */
  ghost predicate IsNodePath(table: CodeTable, path: Bitstring) {
    path == [] || exists s :: s in table && path <= table[s]
  }

  /** The tree paths once the first `n` bits of `code` have been walked as well. */
  ghost predicate IsPathDuring(table: CodeTable, code: Bitstring, n: nat, path: Bitstring)
    requires n <= |code|
  {
    IsNodePath(table, path) || path <= code[..n]
  }

  /** Above every node hangs the node one bit earlier. */
  ghost predicate Closed(paths: set<Bitstring>) {
    forall p: Bitstring, b: bool | p + [b] in paths :: p in paths
  }

  lemma PathsAreClosed(table: CodeTable, code: Bitstring, n: nat, paths: set<Bitstring>)
    requires n <= |code| && forall p :: p in paths <==> IsPathDuring(table, code, n, p)
    ensures Closed(paths)
  {
    hide IsPathDuring;
    forall p: Bitstring, b: bool | p + [b] in paths
      ensures p in paths
    {
      PathsClosed(table, code, n, p, b);
    }
  }

  lemma PathsClosed(table: CodeTable, code: Bitstring, n: nat, path: Bitstring, bit: bool)
    requires n <= |code| && IsPathDuring(table, code, n, path + [bit])
    ensures IsPathDuring(table, code, n, path)
  {
    if IsNodePath(table, path + [bit]) {
      var s :| s in table && path + [bit] <= table[s];
      assert path <= table[s];
    } else {
      assert path <= path + [bit];
    }
  }

  lemma PathsAtStart(table: CodeTable, code: Bitstring)
    ensures forall p :: IsPathDuring(table, code, 0, p) <==> IsNodePath(table, p)
  {
  }

  lemma PathsAfterStep(table: CodeTable, code: Bitstring, n: nat, path: Bitstring)
    requires n < |code|
    ensures IsPathDuring(table, code, n + 1, path) <==> IsPathDuring(table, code, n, path) || path == code[..n + 1]
  {
    if path <= code[..n + 1] && path != code[..n + 1] {
      assert |path| <= n;
      assert path <= code[..n];
    }
    assert code[..n] <= code[..n + 1];
  }

  lemma PathsAfterCode(table: CodeTable, sym: char, code: Bitstring, path: Bitstring)
    requires sym !in table
    ensures IsPathDuring(table, code, |code|, path) <==> IsNodePath(table[sym := code], path)
  {
    assert code[..|code|] == code;
    var more := table[sym := code];
    if IsNodePath(table, path) && path != [] {
      var s :| s in table && path <= table[s];
      assert s in more && path <= more[s];
    }
    if path <= code {
      assert sym in more && path <= more[sym];
    }
  }

  lemma PrefixTransitive(a: Bitstring, b: Bitstring, c: Bitstring)
    ensures a <= b && b <= c ==> a <= c
  {
  }

  /** No code ends at or above a node that still has a child. */
  lemma NoCodeAboveInnerNode(table: CodeTable, path: Bitstring, bit: bool, s: char)
    requires PrefixFree(table) && IsNodePath(table, path + [bit]) && s in table
    ensures !(table[s] <= path)
  {
    var t :| t in table && path + [bit] <= table[t];
    assert path <= path + [bit];
    PrefixTransitive(path, path + [bit], table[t]);
    PrefixTransitive(table[s], path, table[t]);
  }

  /** A code either ends at a node it passes through or goes on to a child. */
  lemma CodePassesOn(table: CodeTable, path: Bitstring, s: char)
    requires s in table && path <= table[s]
    ensures path == table[s] || IsNodePath(table, path + [table[s][|path|]])
    ensures path == table[s] || IsNodePath(table, path + [false]) || IsNodePath(table, path + [true])
  {
    if path != table[s] {
      var bit := table[s][|path|];
      assert path + [bit] <= table[s];
      assert path + [bit] == path + [if bit then true else false];
    }
  }

  /** A node without children ends a code. */
  lemma LeafEndsCode(table: CodeTable, path: Bitstring) returns (s: char)
    requires PrefixFree(table) && IsNodePath(table, path) && table != map[]
    requires !IsNodePath(table, path + [false]) && !IsNodePath(table, path + [true])
    ensures s in table && table[s] == path
  {
    if path == [] {
      s :| s in table;
    } else {
      s :| s in table && path <= table[s];
    }
    CodePassesOn(table, path, s);
  }

  lemma DecodedCodeReaches(table: CodeTable, bits: Bitstring, path: Bitstring, s: char)
    requires s in table && table[s] <= bits && path <= bits
    ensures table[s] <= path || (|path| < |bits| && IsNodePath(table, path + [bits[|path|]]))
  {
    if |table[s]| <= |path| {
      PrefixesOfSame(table[s], path, bits);
    } else {
      PrefixesOfSame(path, table[s], bits);
      CodePassesOn(table, path, s);
    }
  }

  /** Falling off the tree, or running out of bits, at an inner node means no
      code begins the bits. */
  lemma NothingDecodes(table: CodeTable, bits: Bitstring, path: Bitstring, child: bool)
    requires PrefixFree(table) && IsNodePath(table, path + [child]) && path <= bits
    requires bits == path || !IsNodePath(table, path + [bits[|path|]])
    ensures forall s :: !Decodes(table, bits, s)
  {
    hide PrefixFree, IsNodePath;
    forall s
      ensures !Decodes(table, bits, s)
    {
      if s in table && table[s] <= bits {
        NoCodeAboveInnerNode(table, path, child, s);
        DecodedCodeReaches(table, bits, path, s);
      }
    }
  }

  lemma PathsAfterInsert(table: CodeTable, sym: char, code: Bitstring)
    requires sym !in table && PrefixFree(table[sym := code])
    ensures forall s | s in table :: table[s] != code
    ensures forall p :: IsPathDuring(table, code, |code|, p) <==> IsNodePath(table[sym := code], p)
  {
    var more := table[sym := code];
    forall s | s in table
      ensures table[s] != code
    {
      assert more[s] == table[s] && more[sym] == code;
    }
    forall p
      ensures IsPathDuring(table, code, |code|, p) <==> IsNodePath(more, p)
    {
      PathsAfterCode(table, sym, code, p);
    }
  }

  class HuffmanTree {
    const root: HuffmanNode
    ghost var at: map<Bitstring, HuffmanNode>  // every node, by the path that leads to it
    ghost var inserted: CodeTable

    /** Each node's pointers lead to the nodes one bit further down its path. */
    ghost predicate Shaped()
      reads this`at, at.Values
    {
      && [] in at && at[[]] == root
      && (forall p, q | p in at && q in at && p != q :: at[p] != at[q])
      && (forall p | p in at :: at[p].left == if p + [false] in at then at[p + [false]] else null)
      && (forall p | p in at :: at[p].right == if p + [true] in at then at[p + [true]] else null)
    }

    ghost predicate Labelled()
      reads this, at.Values
    {
      forall s | s in inserted :: Carries(inserted[s], s)
    }

    ghost predicate Carries(path: Bitstring, sym: char)
      reads this`at, at.Values
    {
      path in at && at[path].symbol == sym
    }

    /** The tree holds exactly the paths of the inserted codes, and each code's
        last node carries its symbol: nothing depends on the insertion order. */
    ghost predicate Valid()
      reads this, at.Values
    {
      && Shaped() && Labelled()
      && (forall p :: p in at <==> IsNodePath(inserted, p))
    }

    constructor ()
      ensures Valid() && inserted == map[] && fresh(at.Values)
    {
      var node := new HuffmanNode();
      root := node;
      at := map[[] := node];
      inserted := map[];
    }

    /** The child of `cur` along `bit`, created when it is missing. */
    method Descend(cur: HuffmanNode, bit: bool, ghost path: Bitstring) returns (next: HuffmanNode)
      requires Shaped() && path in at && cur == at[path]
      requires Closed(at.Keys)
      modifies this`at, cur`left, cur`right
      ensures Shaped()
      ensures forall p :: p in at <==> p in old(at) || p == path + [bit]
      ensures forall p | p in old(at) :: at[p] == old(at)[p]
      ensures path + [bit] in at && next == at[path + [bit]]
      ensures fresh(at.Values - old(at.Values))
    {
      ghost var further := path + [bit];
      var child := if bit then cur.right else cur.left;
      if child != null {
        return child;
      }
      next := new HuffmanNode();
      if bit {
        cur.right := next;
      } else {
        cur.left := next;
      }
      at := at[further := next];
      assert forall b: bool :: further + [b] !in old(at);
      assert forall p, b | p + [b] == further :: p == path && b == bit by {
        forall p, b: bool | p + [b] == further
          ensures p == path && b == bit
        {
          assert (p + [b])[..|p|] == p && further[..|path|] == path;
        }
      }
    }

    method DescendLabelled(cur: HuffmanNode, bit: bool, ghost path: Bitstring) returns (next: HuffmanNode)
      requires Shaped() && Labelled() && path in at && cur == at[path]
      requires Closed(at.Keys)
      modifies this`at, cur`left, cur`right
      ensures Shaped() && Labelled()
      ensures forall p :: p in at <==> p in old(at) || p == path + [bit]
      ensures path + [bit] in at && next == at[path + [bit]]
      ensures fresh(at.Values - old(at.Values))
    {
      hide Shaped;
      next := Descend(cur, bit, path);
      assert forall s | s in inserted :: old(Carries(inserted[s], s));
    }

    lemma Children(path: Bitstring)
      requires Shaped() && path in at
      ensures at[path].left == if path + [false] in at then at[path + [false]] else null
      ensures at[path].right == if path + [true] in at then at[path + [true]] else null
    {
    }

    /** Walks `code` from the root, creating what is missing. */
    method Trace(code: Bitstring) returns (cur: HuffmanNode)
      requires Valid()
      modifies this`at, at.Values
      ensures Shaped() && Labelled()
      ensures code in at && cur == at[code]
      ensures forall p :: p in at <==> IsPathDuring(inserted, code, |code|, p)
      ensures fresh(at.Values - old(at.Values))
    {
      hide IsPathDuring, IsNodePath, Shaped, Labelled, Closed;
      PathsAtStart(inserted, code);
      RootPath();
      cur := root;
      for i := 0 to |code|
        invariant Shaped() && Labelled()
        invariant code[..i] in at && cur == at[code[..i]]
        invariant forall p :: p in at <==> IsPathDuring(inserted, code, i, p)
        invariant fresh(at.Values - old(at.Values))
        modifies this`at, at.Values
      {
        PathsAreClosed(inserted, code, i, at.Keys);
        cur := DescendLabelled(cur, code[i], code[..i]);
        assert code[..i] + [code[i]] == code[..i + 1];
        forall p
          ensures p in at <==> IsPathDuring(inserted, code, i + 1, p)
        {
          PathsAfterStep(inserted, code, i, p);
        }
      }
      assert code[..|code|] == code;
    }

    /** Adds one code: traces it and marks its last node. */
    method Insert(code: Bitstring, sym: char)
      requires Valid() && sym !in inserted && PrefixFree(inserted[sym := code])
      modifies this`at, this`inserted, at.Values
      ensures Valid() && inserted == old(inserted)[sym := code]
      ensures fresh(at.Values - old(at.Values))
    {
      var cur := Trace(code);
      hide IsPathDuring, IsNodePath, Shaped, PrefixFree, Labelled;
      PathsAfterInsert(inserted, sym, code);
      Mark(cur, code, sym);
    }

    method Mark(cur: HuffmanNode, ghost code: Bitstring, sym: char)
      requires Shaped() && Labelled() && code in at && cur == at[code]
      requires sym !in inserted && forall s | s in inserted :: inserted[s] != code
      modifies cur`symbol, this`inserted
      ensures Shaped() && Labelled() && inserted == old(inserted)[sym := code]
    {
      assert forall s | s in inserted :: Carries(inserted[s], s);
      cur.symbol := sym;
      inserted := inserted[sym := code];
    }

    /** Follows bits to a leaf: the symbol whose code comes next, or an error
        when no code does. */
    method DecodeChar(br: BitReader) returns (sym: Result<char>)
      requires Valid() && PrefixFree(inserted) && inserted != map[]
      requires br.Valid()
      modifies br, br.r
      ensures br.Moved(sym.Ok?)
      ensures sym.Ok? ==>
        && br.Valid()
        && Decodes(inserted, old(br.Pending()), sym.value)
        && br.Pending() == old(br.Pending())[|inserted[sym.value]|..]
      ensures sym.Err? ==> forall s :: !Decodes(inserted, old(br.Pending()), s)
    {
      hide PrefixFree, IsNodePath, Shaped, Labelled, Low, BitsOf, ToNat, CeilBytes, Fits;
      var cur := root;
      ghost var path: Bitstring := [];
      ghost var bits := br.Pending();
      RootPath();
      Children(path);
      while !(cur.left == null && cur.right == null)
        invariant Valid() && br.Valid() && br.Moved(true)
        invariant path in at && cur == at[path]
        invariant cur.left == if path + [false] in at then at[path + [false]] else null
        invariant cur.right == if path + [true] in at then at[path + [true]] else null
        invariant |path| <= |bits| && path == bits[..|path|] && br.Pending() == bits[|path|..]
        decreases |bits| - |path|
      {
        ghost var child := cur.right != null;
        Advance(bits, |path|);
        var bit := br.ReadBit();
        if bit.Err? {
          NothingDecodes(inserted, bits, path, child);
          return Err;
        }
        cur := if bit.value == 1 then cur.right else cur.left;
        if cur == null {
          NothingDecodes(inserted, bits, path, child);
          return Err;
        }
        path := path + [bit.value == 1];
        Children(path);
      }
      ghost var s := LeafEndsCode(inserted, path);
      Label(s);
      return Ok(cur.symbol);
    }

    lemma RootPath()
      requires Shaped()
      ensures [] in at && at[[]] == root
    {
    }

    lemma Label(s: char)
      requires Labelled() && s in inserted
      ensures inserted[s] in at && at[inserted[s]].symbol == s
    {
      assert Carries(inserted[s], s);
    }
  }

  lemma Advance(bits: Bitstring, k: nat)
    requires k <= |bits|
    ensures k < |bits| ==>
      && bits[k..][0] == bits[k]
      && bits[k..][1..] == bits[k + 1..]
      && bits[..k + 1] == bits[..k] + [bits[k]]
  {
  }

  /** Builds the tree from a table, in whatever order its entries come. */
  method NewHuffmanTree(table: CodeTable) returns (tree: HuffmanTree)
    requires PrefixFree(table)
    ensures fresh(tree) && fresh(tree.at.Values)
    ensures tree.Valid() && tree.inserted == table
  {
    hide PrefixFree, IsNodePath;
    tree := new HuffmanTree();
    var todo := table.Keys;
    while todo != {}
      invariant fresh(tree) && fresh(tree.at.Values) && tree.Valid()
      invariant todo <= table.Keys
      invariant tree.inserted.Keys == table.Keys - todo
      invariant forall s | s in tree.inserted :: tree.inserted[s] == table[s]
      decreases todo
    {
      var sym :| sym in todo;
      SubtablePrefixFree(table, tree.inserted[sym := table[sym]]);
      tree.Insert(table[sym], sym);
      todo := todo - {sym};
    }
  }

  lemma SubtablePrefixFree(table: CodeTable, sub: CodeTable)
    requires PrefixFree(table) && forall s | s in sub :: s in table && sub[s] == table[s]
    ensures PrefixFree(sub)
  {
  }

  // ---- Repeated decoding ----

  /** `bits` are the encoding of `msg`, followed by `rest`. */
  ghost predicate IsEncoding(table: CodeTable, bits: Bitstring, msg: string, rest: Bitstring) {
    (forall c | c in msg :: c in table) && bits == Encode(table, msg) + rest
  }

  /** Reading one more symbol at the end. */
  lemma {:induction false} DecodesOneMore(table: CodeTable, bits: Bitstring, msg: string, rest: Bitstring, c: char)
    requires DecodesTo(table, bits, msg, rest) && Decodes(table, rest, c)
    ensures DecodesTo(table, bits, msg + [c], rest[|table[c]|..])
  {
    if msg == "" {
      assert (msg + [c])[1..] == "";
    } else {
      DecodesOneMore(table, bits[|table[msg[0]]|..], msg[1..], rest, c);
      assert (msg + [c])[1..] == msg[1..] + [c];
    }
  }

  /** The start of a reading is the reading of its length. */
  lemma {:induction false} ReadingContinues(
      table: CodeTable, bits: Bitstring, msg: string, rest: Bitstring, longer: string, end: Bitstring)
    requires PrefixFree(table) && |msg| < |longer|
    requires DecodesTo(table, bits, msg, rest) && DecodesTo(table, bits, longer, end)
    ensures Decodes(table, rest, longer[|msg|])
  {
    if msg != "" {
      DecodedSymbolUnique(table, bits, msg[0], longer[0]);
      ReadingContinues(table, bits[|table[msg[0]]|..], msg[1..], rest, longer[1..], end);
    }
  }

  /** Decodes `n` symbols one after the other: the only reading of that length there
      is, or an error when there is none. In particular it inverts encoding. */
  method DecodeChars(tree: HuffmanTree, br: BitReader, n: nat) returns (s: Result<string>)
    requires tree.Valid() && PrefixFree(tree.inserted) && tree.inserted != map[] && br.Valid()
    modifies br, br.r
    ensures s.Ok? ==>
      && br.Valid() && |s.value| == n
      && DecodesTo(tree.inserted, old(br.Pending()), s.value, br.Pending())
    ensures s.Err? ==> forall msg, rest :: |msg| == n ==> !DecodesTo(tree.inserted, old(br.Pending()), msg, rest)
    ensures forall msg, rest :: |msg| == n && IsEncoding(tree.inserted, old(br.Pending()), msg, rest) ==>
              s == Ok(msg) && br.Pending() == rest
  {
    hide PrefixFree, Low, BitsOf;
    ghost var bits, table := br.Pending(), tree.inserted;
    var collected := "";
    for i := 0 to n
      invariant tree.Valid() && tree.inserted == table && br.Valid()
      invariant |collected| == i && DecodesTo(table, bits, collected, br.Pending())
    {
      ghost var here := br.Pending();
      var c := tree.DecodeChar(br);
      if c.Err? {
        forall msg, rest | |msg| == n
          ensures !DecodesTo(table, bits, msg, rest)
        {
          if DecodesTo(table, bits, msg, rest) {
            ReadingContinues(table, bits, collected, here, msg, rest);
          }
        }
        EncodedIsRead(table, bits, n);
        return Err;
      }
      DecodesOneMore(table, bits, collected, here, c.value);
      collected := collected + [c.value];
    }
    OnlyReading(table, bits, collected, br.Pending());
    return Ok(collected);
  }

  /** Bits that no string of a length is read from are no encoding of such a string. */
  lemma EncodedIsRead(table: CodeTable, bits: Bitstring, n: nat)
    requires forall msg, rest :: |msg| == n ==> !DecodesTo(table, bits, msg, rest)
    ensures forall msg, rest :: |msg| == n ==> !IsEncoding(table, bits, msg, rest)
  {
    forall msg, rest | |msg| == n
      ensures !IsEncoding(table, bits, msg, rest)
    {
      if IsEncoding(table, bits, msg, rest) {
        EncodedReads(table, msg, rest);
      }
    }
  }

  lemma OnlyReading(table: CodeTable, bits: Bitstring, read: string, left: Bitstring)
    requires PrefixFree(table) && DecodesTo(table, bits, read, left)
    ensures forall msg, rest :: |msg| == |read| && IsEncoding(table, bits, msg, rest) ==> read == msg && left == rest
  {
    hide PrefixFree;
    forall msg, rest | |msg| == |read| && IsEncoding(table, bits, msg, rest)
      ensures read == msg && left == rest
    {
      DecodingUndoesEncoding(table, msg, rest, read, left);
    }
  }
}
