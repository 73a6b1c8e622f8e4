/**
  The two lookup tables of the Huffman decoder: what their packed entries mean
  (src/hpack/huffman/decode.rs) and when a table is the right one for a code.
 */
module HuffmanTables {
  import opened Bits
  import opened Wrappers
  import opened HuffmanCode

  // ----- The 12-bit table

  const FAST_BITS: nat := 12
  const FAST_SIZE: nat := 4096

  lemma FastSize()
    ensures Pow2(FAST_BITS) == FAST_SIZE
  {
    Pow2Table();
    Pow2Adds(8, 4);
  }

  /** A 32-bit entry: bits used, number of symbols, second symbol, first symbol. */
  function FastEntry(used: nat, count: nat, second: nat, first: nat): nat {
    used * 0x100_0000 + count * 0x1_0000 + second * 0x100 + first
  }

  function FastUsed(e: nat): nat { e / 0x100_0000 }
  function FastCount(e: nat): nat { e / 0x1_0000 % 0x100 }
  function FastSecond(e: nat): Byte { e / 0x100 % 0x100 }
  function FastFirst(e: nat): Byte { e % 0x100 }

  lemma FastEntryFields(used: nat, count: nat, second: Byte, first: Byte)
    requires used < 256 && count < 256
    ensures var e := FastEntry(used, count, second, first);
            FastUsed(e) == used && FastCount(e) == count && FastSecond(e) == second && FastFirst(e) == first
  {
    var e := FastEntry(used, count, second, first);
    var e1 := used * 0x1_0000 + count * 0x100 + second;
    var e2 := used * 0x100 + count;
    Divide(e, e1, 0x100, first);
    Divide(e1, e2, 0x100, second);
    Divide(e2, used, 0x100, count);
    assert e / 0x1_0000 == e2 && e / 0x100_0000 == used by {
      Divide(e, e2, 0x1_0000, second * 0x100 + first);
      Divide(e, used, 0x100_0000, count * 0x1_0000 + second * 0x100 + first);
    }
  }

  lemma Divide(e: nat, q: nat, d: nat, r: nat)
    requires e == q * d + r && r < d
    ensures e / d == q && e % d == r
  {
    assert d * (e / d - q) == r - e % d;
    Apart(d, e / d - q);
  }

  lemma Apart(d: int, x: int)
    requires d >= 0
    ensures x >= 1 ==> d * x >= d
    ensures x <= -1 ==> d * x <= -d
  {
  }

  /** What a lookup must find when the next twelve bits are `chunk`. */
  function FastSpec(code: Code, chunk: BitString): (e: nat) {
    match FirstMatch(code, chunk, 0)
    case None => 0
    case Some(a) =>
      var rest := chunk[|code[a]|..];
      match FirstMatch(code, rest, 0)
      case None => FastEntry(|code[a]|, 1, 0, a)
      case Some(b) => FastEntry(|code[a]| + |code[b]|, 2, b, a)
  }

  ghost predicate FastTableFor(code: Code, fast: seq<nat>) {
    && |fast| == FAST_SIZE
    && forall i {:trigger fast[i]} :: 0 <= i < FAST_SIZE ==> fast[i] == FastSpec(code, Digits(i, FAST_BITS))
  }

  // ----- The byte trie

  const TABLE_WIDTH: nat := 256
  const BRANCH: nat := 0x8000
  const ERROR: nat := 0x80ff

  function LeafEntry(used: nat, octet: nat): nat { used * 0x100 + octet }
  function BranchEntry(table: nat): nat { BRANCH + table * 0x100 }

  predicate IsBranch(e: nat) { e / BRANCH % 2 == 1 }
  function LeafUsed(e: nat): nat { e / 0x100 }
  function LeafOctet(e: nat): Byte { e % 0x100 }
  function BranchTable(e: nat): nat { e % BRANCH / 0x100 }

  /** Where a walk down the trie ends: a symbol and its length, an invalid code, or off the trie. */
  datatype Walked = Found(octet: Byte, length: nat) | Invalid | OffTrie

  function Walk(trie: seq<nat>, table: nat, s: BitString): (r: Walked)
    decreases |s|
  {
    if |s| < 8 then OffTrie
    else
      var at := table * TABLE_WIDTH + Value(s[..8]);
      if at >= |trie| then OffTrie
      else
        var e := trie[at];
        if !IsBranch(e) then Found(LeafOctet(e), LeafUsed(e))
        else if BranchTable(e) == 0 then Invalid
        else Deeper(Walk(trie, BranchTable(e), s[8..]), 8)
  }

  /** The same walk seen from `n` bits further up. */
  function Deeper(w: Walked, n: nat): Walked {
    if w.Found? then w.(length := w.length + n) else w
  }

  const WALK_BITS: nat := 32

  /** A walk finds the code word that starts the input, and rejects EOS. */
  ghost predicate TrieFor(code: Code, trie: seq<nat>) {
    forall s: BitString, k {:trigger Walk(trie, 0, s), code[k]} ::
      |s| >= WALK_BITS && 0 <= k <= EOS && StartsWith(s, code[k])
      ==> Walk(trie, 0, s) == if k == EOS then Invalid else Found(k, |code[k]|)
  }
}
