/** Builds the byte trie, `decoding_tables` of util/genhuff/src/main.rs. */
module HuffmanTrie {
  import opened Bits
  import opened Words
  import opened Wrappers
  import opened HuffmanCode
  import opened HuffmanTables

  /** A branch holds its table index in seven bits. */
  const MAX_TABLES: nat := 128

  /** The node reached by `from` is where `w` ends, and `q` is one of its entries for it. */
  predicate Ends(w: BitString, from: BitString, q: BitString) {
    |from| < |w| <= |q| && w <= q
  }

  /** `w` goes on below `q`. */
  predicate Passes(w: BitString, q: BitString) {
    |q| < |w| && q <= w
  }

  function LeafFor(code: Code, k: nat, from: BitString): nat
    requires k <= EOS
  {
    if k == EOS || |code[k]| < |from| then ERROR else LeafEntry(|code[k]| - |from|, k)
  }

  /** `e` leads to the node for `q`. */
  predicate LeadsTo(paths: seq<BitString>, e: nat, q: BitString) {
    exists t :: 0 < t < |paths| && t < MAX_TABLES && paths[t] == q && e == BranchEntry(t)
  }

  function Extended(from: BitString, c: nat): BitString {
    from + Digits(c, 8)
  }

  /** Entry `c` of the node reached by `from`, once the symbols below `upto` are in. */
  ghost predicate EntryOk(code: Code, upto: nat, paths: seq<BitString>, from: BitString, c: nat, e: nat)
    requires upto <= EOS + 1
  {
    var q := Extended(from, c);
    && (forall k :: 0 <= k < upto && Ends(code[k], from, q) ==> e == LeafFor(code, k, from))
    && (forall k :: 0 <= k < upto && Passes(code[k], q) ==> LeadsTo(paths, e, q))
    && (e != 0 ==> exists k :: 0 <= k < upto && (Ends(code[k], from, q) || Passes(code[k], q)))
  }

  function Entry(tables: seq<nat>, t: nat, c: nat): nat
    requires c < TABLE_WIDTH && (t + 1) * TABLE_WIDTH <= |tables|
  {
    tables[t * TABLE_WIDTH + c]
  }

  /** Some code word goes on below the node reached by `q`. */
  ghost predicate Inner(code: Code, q: BitString) {
    |q| % 8 == 0 && exists k :: 0 <= k <= EOS && Passes(code[k], q)
  }

  ghost predicate Shape(code: Code, tables: seq<nat>, paths: seq<BitString>) {
    && |tables| == TABLE_WIDTH * |paths|
    && 0 < |paths| <= MAX_TABLES && paths[0] == []
    && (forall t :: 0 <= t < |paths| ==> Inner(code, paths[t]))
    && (forall t, u :: 0 <= t < u < |paths| ==> paths[t] != paths[u])
  }

  /** On the way of `w`, `d` bits down, entries already count `w` in. */
  predicate Visited(w: BitString, d: nat, q: BitString) {
    q <= w && |q| <= d
  }

  /** Every entry is right while symbol `o` is being added, `d` bits down. */
  ghost predicate Adding(code: Code, tables: seq<nat>, paths: seq<BitString>, o: nat, d: nat)
    requires o <= EOS
  {
    && Shape(code, tables, paths)
    && (forall t, c :: 0 <= t < |paths| && 0 <= c < TABLE_WIDTH ==>
          EntryOk(code, if Visited(code[o], d, Extended(paths[t], c)) then o + 1 else o,
                  paths, paths[t], c, Entry(tables, t, c)))
    && (forall t :: 0 < t < |paths| ==>
          Visited(code[o], d, paths[t]) || exists k :: 0 <= k < o && Passes(code[k], paths[t]))
  }

  /** Every entry is right between two symbols. */
  ghost predicate Built(code: Code, tables: seq<nat>, paths: seq<BitString>, upto: nat)
    requires upto <= EOS + 1
  {
    && Shape(code, tables, paths)
    && (forall t, c :: 0 <= t < |paths| && 0 <= c < TABLE_WIDTH ==>
          EntryOk(code, upto, paths, paths[t], c, Entry(tables, t, c)))
    && (forall t :: 0 < t < |paths| ==> exists k :: 0 <= k < upto && Passes(code[k], paths[t]))
  }

  lemma ExtendedIs(from: BitString, c: nat)
    requires c < 256
    ensures |Extended(from, c)| == |from| + 8 && from <= Extended(from, c)
  {
  }

  /** The entry for the next eight bits of `w`. */
  lemma NextEntry(from: BitString, next: BitString)
    requires |next| == 8
    ensures Value(next) < 256 && Extended(from, Value(next)) == from + next
  {
    Pow2Table();
    DigitsOfValue(next);
  }

  // ----- Starting

  lemma StartsBuilt(code: Code)
    requires Valid(code)
    ensures Built(code, seq(TABLE_WIDTH, _ => 0), [[]], 0)
  {
    assert Passes(code[0], []);
  }

  lemma StartsAdding(code: Code, tables: seq<nat>, paths: seq<BitString>, o: nat)
    requires o <= EOS && Built(code, tables, paths, o)
    ensures Adding(code, tables, paths, o, 0)
  {
    forall t, c | 0 <= t < |paths| && 0 <= c < TABLE_WIDTH
      ensures !Visited(code[o], 0, Extended(paths[t], c))
    {
      ExtendedIs(paths[t], c);
    }
  }

  // ----- Descending one level

  /** The entry the word passes through is empty or already leads to the right node. */
  lemma PassedEntry(code: Code, tables: seq<nat>, paths: seq<BitString>, o: nat, d: nat, t: nat, c: nat)
    requires Valid(code) && o <= EOS && Adding(code, tables, paths, o, d)
    requires t < |paths| && c < 256 && |paths[t]| == d && Passes(code[o], Extended(paths[t], c))
    ensures (t + 1) * TABLE_WIDTH <= |tables|
    ensures var e := Entry(tables, t, c);
            var q := Extended(paths[t], c);
            && (e != 0 ==> LeadsTo(paths, e, q))
            && (e == 0 ==> forall k :: 0 <= k < o ==> !Passes(code[k], q))
  {
    var q := Extended(paths[t], c);
    ExtendedIs(paths[t], c);
    var e := Entry(tables, t, c);
    assert EntryOk(code, o, paths, paths[t], c, e);
    forall k | 0 <= k < o ensures !Ends(code[k], paths[t], q) {
      if code[k] <= q {
        assert StartsWith(code[o], code[k]);
      }
    }
  }

  /** Two entries that stand for the same bits are the same entry. */
  lemma EntryUnique(code: Code, tables: seq<nat>, paths: seq<BitString>, t: nat, c: nat, u: nat, b: nat)
    requires Shape(code, tables, paths) && t < |paths| && u < |paths| && c < 256 && b < 256
    requires Extended(paths[t], c) == Extended(paths[u], b)
    ensures t == u && c == b
  {
    ExtendedIs(paths[t], c);
    ExtendedIs(paths[u], b);
    var n := |paths[t]|;
    assert paths[t] == Extended(paths[t], c)[..n] == Extended(paths[u], b)[..n] == paths[u];
    assert Digits(c, 8) == Extended(paths[t], c)[n..] == Digits(b, 8);
    ByteOfDigits(c, b);
  }

  /** What a word passes through counts it in once the entry leads on. */
  lemma EntryCountsPass(code: Code, o: nat, paths: seq<BitString>, from: BitString, c: nat, e: nat)
    requires Valid(code) && o <= EOS && c < 256
    requires Passes(code[o], Extended(from, c)) && LeadsTo(paths, e, Extended(from, c))
    ensures EntryOk(code, o + 1, paths, from, c, e)
  {
    var q := Extended(from, c);
    ExtendedIs(from, c);
    forall k | 0 <= k <= o ensures !Ends(code[k], from, q) {
      if k != o && code[k] <= q {
        assert StartsWith(code[o], code[k]);
      }
    }
  }

  lemma EntryGrows(code: Code, upto: nat, paths: seq<BitString>, q: BitString, from: BitString, c: nat, e: nat)
    requires upto <= EOS + 1 && EntryOk(code, upto, paths, from, c, e)
    ensures EntryOk(code, upto, paths + [q], from, c, e)
  {
    var x := Extended(from, c);
    if LeadsTo(paths, e, x) {
      var t :| 0 < t < |paths| && t < MAX_TABLES && paths[t] == x && e == BranchEntry(t);
      assert (paths + [q])[t] == x;
    }
  }

  /** The next entry on the way already leads to its node. */
  lemma DescendOld(code: Code, tables: seq<nat>, paths: seq<BitString>, o: nat, d: nat, t: nat, c: nat)
    requires Valid(code) && o <= EOS && Adding(code, tables, paths, o, d)
    requires t < |paths| && c < 256 && |paths[t]| == d && Passes(code[o], Extended(paths[t], c))
    requires Entry(tables, t, c) != 0
    ensures Adding(code, tables, paths, o, d + 8)
  {
    PassedEntry(code, tables, paths, o, d, t, c);
    forall u, b | 0 <= u < |paths| && 0 <= b < TABLE_WIDTH
      ensures EntryOk(code, if Visited(code[o], d + 8, Extended(paths[u], b)) then o + 1 else o,
                      paths, paths[u], b, Entry(tables, u, b))
    {
      DescendEntry(code, tables, paths, o, d, t, c, u, b);
    }
  }

  lemma DescendEntry(code: Code, tables: seq<nat>, paths: seq<BitString>, o: nat, d: nat, t: nat, c: nat, u: nat, b: nat)
    requires Valid(code) && o <= EOS && Adding(code, tables, paths, o, d)
    requires t < |paths| && c < 256 && |paths[t]| == d && Passes(code[o], Extended(paths[t], c))
    requires LeadsTo(paths, Entry(tables, t, c), Extended(paths[t], c))
    requires u < |paths| && b < 256
    ensures EntryOk(code, if Visited(code[o], d + 8, Extended(paths[u], b)) then o + 1 else o,
                    paths, paths[u], b, Entry(tables, u, b))
  {
    SameDepth(code, tables, paths, o, d, t, c, u, b);
    if u == t && b == c {
      EntryCountsPass(code, o, paths, paths[t], c, Entry(tables, t, c));
      ExtendedIs(paths[t], c);
    }
  }

  /** One more level down, only the entry passed through becomes visited. */
  lemma SameDepth(code: Code, tables: seq<nat>, paths: seq<BitString>, o: nat, d: nat, t: nat, c: nat, u: nat, b: nat)
    requires o <= EOS && Shape(code, tables, paths)
    requires t < |paths| && c < 256 && |paths[t]| == d && Passes(code[o], Extended(paths[t], c))
    requires u < |paths| && b < 256
    ensures Visited(code[o], d + 8, Extended(paths[u], b)) <==>
            Visited(code[o], d, Extended(paths[u], b)) || (u == t && b == c)
  {
    var q, x := Extended(paths[t], c), Extended(paths[u], b);
    ExtendedIs(paths[t], c);
    ExtendedIs(paths[u], b);
    if Visited(code[o], d + 8, x) && !Visited(code[o], d, x) {
      assert |x| == d + 8 by {
        assert Inner(code, paths[u]) && Inner(code, paths[t]);
      }
      assert x == code[o][..d + 8] == q;
      EntryUnique(code, tables, paths, t, c, u, b);
    }
  }

  // ----- A new node

  /** Points entry `c` of node `t` to a new empty node. */
  function WithNode(tables: seq<nat>, t: nat, c: nat, n: nat): (r: seq<nat>)
    requires c < TABLE_WIDTH && (t + 1) * TABLE_WIDTH <= |tables|
  {
    tables[t * TABLE_WIDTH + c := BranchEntry(n)] + seq(TABLE_WIDTH, _ => 0)
  }

  lemma WithNodeEntries(tables: seq<nat>, t: nat, c: nat, n: nat, u: nat, b: nat)
    requires |tables| == n * TABLE_WIDTH && t < n && c < 256 && u <= n && b < 256
    ensures |WithNode(tables, t, c, n)| == (n + 1) * TABLE_WIDTH
    ensures Entry(WithNode(tables, t, c, n), u, b) ==
            if u == n then 0 else if u == t && b == c then BranchEntry(n) else Entry(tables, u, b)
  {
  }

  /** Nothing added so far reaches a node that no entry leads to. */
  lemma FreshNodeEmpty(code: Code, paths: seq<BitString>, o: nat, q: BitString, b: nat)
    requires o <= EOS && b < 256
    requires forall k :: 0 <= k < o ==> !Passes(code[k], q)
    ensures EntryOk(code, o, paths, q, b, 0)
  {
    var x := Extended(q, b);
    ExtendedIs(q, b);
    forall k | 0 <= k < o ensures !Ends(code[k], q, x) && !Passes(code[k], x) {
      BelowPasses(code[k], q, x);
    }
  }

  /** Words that concern an entry pass through the node it belongs to. */
  lemma BelowPasses(w: BitString, from: BitString, x: BitString)
    requires from <= x && |from| < |x|
    ensures Ends(w, from, x) || Passes(w, x) ==> Passes(w, from)
  {
    assert x <= w ==> from == x[..|from|] == w[..|from|];
  }

  lemma DescendNew(code: Code, tables: seq<nat>, paths: seq<BitString>, o: nat, d: nat, t: nat, c: nat)
    requires Valid(code) && o <= EOS && Adding(code, tables, paths, o, d) && |paths| < MAX_TABLES
    requires t < |paths| && c < 256 && |paths[t]| == d && Passes(code[o], Extended(paths[t], c))
    requires Entry(tables, t, c) == 0
    ensures Adding(code, WithNode(tables, t, c, |paths|), paths + [Extended(paths[t], c)], o, d + 8)
  {
    var n, q := |paths|, Extended(paths[t], c);
    var tables1, paths1 := WithNode(tables, t, c, n), paths + [q];
    PassedEntry(code, tables, paths, o, d, t, c);
    ExtendedIs(paths[t], c);
    NewShape(code, tables, paths, o, d, t, c);
    forall u, b | 0 <= u < |paths1| && 0 <= b < TABLE_WIDTH
      ensures EntryOk(code, if Visited(code[o], d + 8, Extended(paths1[u], b)) then o + 1 else o,
                      paths1, paths1[u], b, Entry(tables1, u, b))
    {
      WithNodeEntries(tables, t, c, n, u, b);
      if u == n {
        FreshNodeEmpty(code, paths1, o, q, b);
        ExtendedIs(q, b);
      } else {
        DescendNewEntry(code, tables, paths, o, d, t, c, u, b);
      }
    }
    forall u | 0 < u < |paths1|
      ensures Visited(code[o], d + 8, paths1[u]) || exists k :: 0 <= k < o && Passes(code[k], paths1[u])
    {
    }
  }

  lemma NewShape(code: Code, tables: seq<nat>, paths: seq<BitString>, o: nat, d: nat, t: nat, c: nat)
    requires o <= EOS && Adding(code, tables, paths, o, d) && |paths| < MAX_TABLES
    requires t < |paths| && c < 256 && |paths[t]| == d && Passes(code[o], Extended(paths[t], c))
    requires forall k :: 0 <= k < o ==> !Passes(code[k], Extended(paths[t], c))
    ensures Shape(code, WithNode(tables, t, c, |paths|), paths + [Extended(paths[t], c)])
    ensures Extended(paths[t], c) !in paths
  {
    var q := Extended(paths[t], c);
    ExtendedIs(paths[t], c);
    hide Extended;
    assert Inner(code, paths[t]);
    assert Inner(code, q);
    forall u | 0 <= u < |paths| ensures paths[u] != q {
      assert u > 0 ==> Visited(code[o], d, paths[u]) || exists k :: 0 <= k < o && Passes(code[k], paths[u]);
    }
  }

  lemma DescendNewEntry(code: Code, tables: seq<nat>, paths: seq<BitString>, o: nat, d: nat, t: nat, c: nat,
                        u: nat, b: nat)
    requires Valid(code) && o <= EOS && Adding(code, tables, paths, o, d) && |paths| < MAX_TABLES
    requires t < |paths| && c < 256 && |paths[t]| == d && Passes(code[o], Extended(paths[t], c))
    requires u < |paths| && b < 256
    ensures EntryOk(code, if Visited(code[o], d + 8, Extended(paths[u], b)) then o + 1 else o,
                    paths + [Extended(paths[t], c)], paths[u], b,
                    if u == t && b == c then BranchEntry(|paths|) else Entry(tables, u, b))
  {
    var q := Extended(paths[t], c);
    var paths1 := paths + [q];
    SameDepth(code, tables, paths, o, d, t, c, u, b);
    if u == t && b == c {
      assert paths1[|paths|] == q;
      EntryCountsPass(code, o, paths1, paths[t], c, BranchEntry(|paths|));
      ExtendedIs(paths[t], c);
    } else {
      EntryGrows(code, if Visited(code[o], d, Extended(paths[u], b)) then o + 1 else o,
                 paths, q, paths[u], b, Entry(tables, u, b));
    }
  }

  // ----- The leaf

  /** No earlier word shares an entry with the leaf of `w`. */
  lemma LeafAlone(code: Code, o: nat, from: BitString, q: BitString)
    requires Valid(code) && o <= EOS && code[o] <= q
    ensures forall k :: 0 <= k < o ==> !Ends(code[k], from, q) && !Passes(code[k], q)
  {
    forall k | 0 <= k < o ensures !Ends(code[k], from, q) && !Passes(code[k], q) {
      assert q <= code[k] ==> StartsWith(code[k], code[o]);
      MatchUnique(code, q, k, o);
    }
  }

  /** The entries a leaf is written to are still empty: the generator's assertion holds. */
  lemma LeafFree(code: Code, tables: seq<nat>, paths: seq<BitString>, o: nat, d: nat, t: nat, b: nat)
    requires Valid(code) && o <= EOS && Adding(code, tables, paths, o, d) && d < |code[o]|
    requires t < |paths| && b < 256 && code[o] <= Extended(paths[t], b)
    ensures Entry(tables, t, b) == 0
  {
    LeafAlone(code, o, paths[t], Extended(paths[t], b));
    assert !Visited(code[o], d, Extended(paths[t], b));
    assert EntryOk(code, o, paths, paths[t], b, Entry(tables, t, b));
  }

  /** `tables1` is `tables` with the leaf of symbol `o` in every entry its code word covers. */
  ghost predicate LeafFilled(code: Code, tables: seq<nat>, tables1: seq<nat>, paths: seq<BitString>, o: nat, t: nat)
    requires o <= EOS && t < |paths| && |tables| == |paths| * TABLE_WIDTH
  {
    && |tables1| == |tables|
    && forall u, b :: 0 <= u < |paths| && 0 <= b < TABLE_WIDTH ==>
         Entry(tables1, u, b) ==
         if u == t && code[o] <= Extended(paths[t], b) then LeafFor(code, o, paths[t]) else Entry(tables, u, b)
  }

  lemma LeafBuilds(code: Code, tables: seq<nat>, tables1: seq<nat>, paths: seq<BitString>, o: nat, d: nat, t: nat)
    requires Valid(code) && o <= EOS && Adding(code, tables, paths, o, d)
    requires t < |paths| && |paths[t]| == d && paths[t] <= code[o] && d < |code[o]| <= d + 8
    requires LeafFilled(code, tables, tables1, paths, o, t)
    ensures Built(code, tables1, paths, o + 1)
  {
    forall u, b | 0 <= u < |paths| && 0 <= b < TABLE_WIDTH
      ensures EntryOk(code, o + 1, paths, paths[u], b, Entry(tables1, u, b))
    {
      if u == t && code[o] <= Extended(paths[t], b) {
        LeafAlone(code, o, paths[t], Extended(paths[t], b));
        ExtendedIs(paths[t], b);
        LeafNonzero(code, o, paths[t]);
      } else {
        LeafElsewhere(code, tables, paths, o, d, t, u, b);
      }
    }
    forall u | 0 < u < |paths| ensures exists k :: 0 <= k < o + 1 && Passes(code[k], paths[u]) {
      if Visited(code[o], d, paths[u]) {
        assert Passes(code[o], paths[u]);
      }
    }
  }

  lemma LeafNonzero(code: Code, o: nat, from: BitString)
    requires o <= EOS && |from| < |code[o]|
    ensures LeafFor(code, o, from) != 0
  {
  }

  lemma LeafElsewhere(code: Code, tables: seq<nat>, paths: seq<BitString>, o: nat, d: nat, t: nat, u: nat, b: nat)
    requires Valid(code) && o <= EOS && Adding(code, tables, paths, o, d)
    requires t < |paths| && |paths[t]| == d && paths[t] <= code[o] && d < |code[o]| <= d + 8
    requires u < |paths| && b < 256 && !(u == t && code[o] <= Extended(paths[t], b))
    ensures EntryOk(code, o + 1, paths, paths[u], b, Entry(tables, u, b))
  {
    var w, q := code[o], Extended(paths[u], b);
    ExtendedIs(paths[u], b);
    assert Inner(code, paths[u]) && Inner(code, paths[t]);
    WordElsewhere(w, d, paths[t], paths[u], b);
    assert paths[u] == paths[t] ==> u == t;
    if !Visited(w, d, q) {
      EntryUnaffected(code, o, paths, paths[u], b, Entry(tables, u, b));
    }
  }

  lemma EntryUnaffected(code: Code, o: nat, paths: seq<BitString>, from: BitString, b: nat, e: nat)
    requires o <= EOS && EntryOk(code, o, paths, from, b, e)
    requires !Ends(code[o], from, Extended(from, b)) && !Passes(code[o], Extended(from, b))
    ensures EntryOk(code, o + 1, paths, from, b, e)
  {
  }

  /** A word whose leaf belongs to node `leaf` ends at no other node and goes no deeper. */
  lemma WordElsewhere(w: BitString, d: nat, leaf: BitString, from: BitString, b: nat)
    requires |leaf| == d && leaf <= w && d < |w| <= d + 8 && d % 8 == 0 && |from| % 8 == 0 && b < 256
    ensures !Visited(w, d, Extended(from, b)) ==> !Passes(w, Extended(from, b))
    ensures Ends(w, from, Extended(from, b)) ==> from == leaf && w <= Extended(from, b)
  {
    ExtendedIs(from, b);
    SameOctet(|from|, d, |w|);
    EndsBelow(w, from, Extended(from, b));
  }

  lemma SameOctet(x: nat, y: nat, n: nat)
    requires x % 8 == 0 && y % 8 == 0 && y < n <= y + 8
    ensures x < n <= x + 8 ==> x == y
    ensures x + 8 < n ==> x + 8 <= y
  {
    assert x == 8 * (x / 8) && y == 8 * (y / 8);
  }

  lemma EndsBelow(w: BitString, from: BitString, q: BitString)
    requires from <= q
    ensures Ends(w, from, q) ==> from == w[..|from|]
  {
    assert Ends(w, from, q) ==> from == q[..|from|] == w[..|from|];
  }

  // ----- How many tables are needed

  /** The proper prefixes of code words that end on an octet boundary: one node each. */
  ghost function AlignedPrefixes(code: Code): set<BitString> {
    set k, j | 0 <= k <= EOS && 0 <= j < |code[k]| && j % 8 == 0 :: code[k][..j]
  }

  ghost predicate DistinctNodes(code: Code, paths: seq<BitString>) {
    && (forall t :: 0 <= t < |paths| ==> Inner(code, paths[t]))
    && (forall t, u :: 0 <= t < u < |paths| ==> paths[t] != paths[u])
  }

  function Elements(paths: seq<BitString>): set<BitString> {
    set t | 0 <= t < |paths| :: paths[t]
  }

  lemma {:induction false} ElementsCount(paths: seq<BitString>)
    requires forall t, u :: 0 <= t < u < |paths| ==> paths[t] != paths[u]
    ensures |Elements(paths)| == |paths|
  {
    if paths != [] {
      var n := |paths| - 1;
      ElementsCount(paths[..n]);
      assert Elements(paths) == Elements(paths[..n]) + {paths[n]};
    }
  }

  lemma InnerIsAligned(code: Code, q: BitString)
    requires Inner(code, q)
    ensures q in AlignedPrefixes(code)
  {
    var k :| 0 <= k <= EOS && Passes(code[k], q);
    assert code[k][..|q|] == q;
  }

  lemma NodesFit(code: Code, paths: seq<BitString>)
    requires DistinctNodes(code, paths)
    ensures |paths| <= |AlignedPrefixes(code)|
  {
    ElementsCount(paths);
    forall q | q in Elements(paths) ensures q in AlignedPrefixes(code) {
      InnerIsAligned(code, q);
    }
    SubsetCount(Elements(paths), AlignedPrefixes(code));
  }

  /** A finished trie has a node for every aligned prefix. */
  lemma {:induction false} NodeExists(code: Code, tables: seq<nat>, paths: seq<BitString>, k: nat, j: nat)
    requires Built(code, tables, paths, EOS + 1) && k <= EOS && j < |code[k]| && j % 8 == 0
    ensures code[k][..j] in paths
    decreases j
  {
    if j > 0 {
      NodeExists(code, tables, paths, k, j - 8);
      var t :| 0 <= t < |paths| && paths[t] == code[k][..j - 8];
      var next := code[k][j - 8..j];
      NextEntry(paths[t], next);
      assert paths[t] + next == code[k][..j];
      assert EntryOk(code, EOS + 1, paths, paths[t], Value(next), Entry(tables, t, Value(next)));
      assert Passes(code[k], code[k][..j]);
      assert LeadsTo(paths, Entry(tables, t, Value(next)), code[k][..j]);
    } else {
      assert code[k][..0] == paths[0];
    }
  }

  lemma NodesCover(code: Code, tables: seq<nat>, paths: seq<BitString>)
    requires Built(code, tables, paths, EOS + 1)
    ensures |AlignedPrefixes(code)| == |paths|
  {
    assert DistinctNodes(code, paths);
    NodesFit(code, paths);
    ElementsCount(paths);
    forall q | q in AlignedPrefixes(code) ensures q in Elements(paths) {
      var k, j :| 0 <= k <= EOS && 0 <= j < |code[k]| && j % 8 == 0 && q == code[k][..j];
      NodeExists(code, tables, paths, k, j);
    }
    SubsetCount(AlignedPrefixes(code), Elements(paths));
  }

  /** A node that no table is left for. */
  lemma OneTooMany(code: Code, tables: seq<nat>, paths: seq<BitString>, o: nat, d: nat, t: nat, c: nat)
    requires Valid(code) && o <= EOS && Adding(code, tables, paths, o, d) && |paths| == MAX_TABLES
    requires t < |paths| && c < 256 && |paths[t]| == d && Passes(code[o], Extended(paths[t], c))
    requires Entry(tables, t, c) == 0
    ensures |AlignedPrefixes(code)| > MAX_TABLES
  {
    var q := Extended(paths[t], c);
    PassedEntry(code, tables, paths, o, d, t, c);
    ExtendedIs(paths[t], c);
    assert Inner(code, paths[t]);
    assert Inner(code, q);
    forall u | 0 <= u < |paths| ensures paths[u] != q {
      assert u > 0 ==> Visited(code[o], d, paths[u]) || exists k :: 0 <= k < o && Passes(code[k], paths[u]);
    }
    assert DistinctNodes(code, paths + [q]);
    NodesFit(code, paths + [q]);
  }

  // ----- Walking a finished trie

  lemma LeafFields(used: nat, octet: Byte)
    requires used <= 8
    ensures var e := LeafEntry(used, octet);
            !IsBranch(e) && LeafUsed(e) == used && LeafOctet(e) == octet
    ensures IsBranch(ERROR) && BranchTable(ERROR) == 0
  {
  }

  lemma BranchFields(paths: seq<BitString>, e: nat, q: BitString)
    requires LeadsTo(paths, e, q)
    ensures IsBranch(e) && 0 < BranchTable(e) < |paths| && paths[BranchTable(e)] == q
  {
    var t :| 0 < t < |paths| && t < MAX_TABLES && paths[t] == q && e == BranchEntry(t);
    assert e / 0x8000 == 1;
  }

  lemma AnOctetLeft(code: Code, tables: seq<nat>, paths: seq<BitString>, t: nat, s: BitString, k: nat)
    requires Valid(code) && Built(code, tables, paths, EOS + 1) && t < |paths| && k <= EOS
    requires |paths[t]| < |code[k]| && |paths[t]| + |s| >= WALK_BITS
    ensures |s| >= 8
  {
    assert Inner(code, paths[t]);
  }

  lemma BuiltEntry(code: Code, tables: seq<nat>, paths: seq<BitString>, t: nat, c: nat)
    requires Built(code, tables, paths, EOS + 1) && t < |paths| && c < 256
    ensures Inner(code, paths[t]) && EntryOk(code, EOS + 1, paths, paths[t], c, Entry(tables, t, c))
    ensures |tables| == TABLE_WIDTH * |paths|
  {
  }

  /** From the node of `from`, a walk along `s` finds the code word that starts `from + s`. */
  lemma {:induction false} WalkFinds(code: Code, tables: seq<nat>, paths: seq<BitString>, t: nat, s: BitString, k: nat)
    requires Valid(code) && Built(code, tables, paths, EOS + 1) && t < |paths| && k <= EOS
    requires code[k] <= paths[t] + s && |paths[t]| < |code[k]| && |paths[t]| + |s| >= WALK_BITS
    ensures Walk(tables, t, s) == if k == EOS then Invalid else Found(k, |code[k]| - |paths[t]|)
    decreases |s|
  {
    hide Valid, IsBranch, LeafUsed, LeafOctet, BranchTable, Built, LeafEntry, Value, Extended;
    AnOctetLeft(code, tables, paths, t, s, k);
    var from := paths[t];
    var next := s[..8];
    var c := Value(next);
    BuiltEntry(code, tables, paths, t, c);
    NextEntry(from, next);
    var q := Extended(from, c);
    var e := Entry(tables, t, c);
    assert from + s == q + s[8..];
    if |code[k]| <= |q| {
      assert code[k] <= q by {
        assert code[k] == (q + s[8..])[..|code[k]|] == q[..|code[k]|];
      }
      LeafFields(|code[k]| - |from|, if k == EOS then 0 else k);
    } else {
      assert q == (q + s[8..])[..|q|] == code[k][..|q|];
      assert Passes(code[k], q);
      BranchFields(paths, e, q);
      WalkFinds(code, tables, paths, BranchTable(e), s[8..], k);
    }
  }

  lemma BuiltIsTrie(code: Code, tables: seq<nat>, paths: seq<BitString>)
    requires Valid(code) && Built(code, tables, paths, EOS + 1)
    ensures TrieFor(code, tables)
  {
    forall s: BitString, k | |s| >= WALK_BITS && 0 <= k <= EOS && StartsWith(s, code[k])
      ensures Walk(tables, 0, s) == if k == EOS then Invalid else Found(k, |code[k]|)
    {
      assert [] + s == s;
      WalkFinds(code, tables, paths, 0, s, k);
    }
  }

  /** The code being complete, no entry stays empty. */
  lemma NoEmptyEntry(code: Code, tables: seq<nat>, paths: seq<BitString>, t: nat, c: nat)
    requires Valid(code) && Built(code, tables, paths, EOS + 1) && t < |paths| && c < 256
    ensures Entry(tables, t, c) != 0
  {
    var from, q := paths[t], Extended(paths[t], c);
    ExtendedIs(from, c);
    var s := q + Fill(true, MAX_LENGTH);
    assert HasMatch(code, s);
    var k :| 0 <= k <= EOS && StartsWith(s, code[k]);
    assert Inner(code, from);
    var j :| 0 <= j <= EOS && Passes(code[j], from);
    assert |code[k]| <= |from| ==> StartsWith(code[j], code[k]) by {
      assert |code[k]| <= |from| ==> code[k] == s[..|code[k]|] == from[..|code[k]|] == code[j][..|code[k]|];
    }
    assert |code[k]| <= |q| ==> code[k] == q[..|code[k]|];
    assert |q| <= |code[k]| ==> q == code[k][..|q|];
    assert EntryOk(code, EOS + 1, paths, from, c, Entry(tables, t, c));
    assert Ends(code[k], from, q) || Passes(code[k], q);
    if Ends(code[k], from, q) {
      LeafNonzero(code, k, from);
    }
  }

  // ----- The builder

  /** The code word left-aligned in a 32-bit register, with `d` bits shifted out. */
  function Register(w: BitString, d: nat): (r: BitString)
    requires d <= |w| <= 32
    ensures |r| == 32
  {
    w[d..] + Fill(false, 32 - (|w| - d))
  }

  lemma RegisterShifts(w: BitString, d: nat)
    requires d + 8 <= |w| <= 32
    ensures Shl(Register(w, d), 8) == Register(w, d + 8)
    ensures Register(w, d)[..8] == w[d..d + 8]
  {
  }

  lemma {:induction false} ValueOfZeros(n: nat)
    ensures Value(Fill(false, n)) == 0
  {
    if n > 0 {
      assert Fill(false, n)[..n - 1] == Fill(false, n - 1);
      ValueOfZeros(n - 1);
    }
  }

  /** The entries that the last `left` bits of a word cover. */
  lemma LeafRange(w: BitString, d: nat, from: BitString, b: nat)
    requires d < |w| <= d + 8 && |w| <= 32 && |from| == d && from <= w && b < 256
    ensures var first := Value(Register(w, d)[..8]);
            && first + Pow2(8 - (|w| - d)) <= 256
            && (w <= Extended(from, b) <==> first <= b < first + Pow2(8 - (|w| - d)))
  {
    var tail := w[d..];
    var rem := 8 - |tail|;
    assert Register(w, d)[..8] == tail + Fill(false, rem);
    hide Value, Pow2, Digits, Register;
    Pow2Table();
    ValueConcat(tail, Fill(false, rem));
    ValueOfZeros(rem);
    ValueOfDigits(b, 8);
    PrefixValue(tail, Digits(b, 8));
    Distribute(Value(tail), Pow2(rem));
    TopValue(tail, rem);
    hide Fill;
    LeafUnder(w, d, from, b);
  }

  lemma LeafUnder(w: BitString, d: nat, from: BitString, b: nat)
    requires d <= |w| && |from| == d && from <= w && b < 256
    ensures w <= Extended(from, b) <==> w[d..] <= Digits(b, 8)
  {
    hide Digits;
    var tail := w[d..];
    assert w == from + tail;
    assert Extended(from, b) == from + Digits(b, 8);
    PrefixUnder(from, tail, Digits(b, 8));
  }

  lemma PrefixUnder(a: BitString, b: BitString, c: BitString)
    ensures a + b <= a + c <==> b <= c
  {
    if |b| <= |c| {
      assert (a + c)[..|a| + |b|] == a + c[..|b|];
      assert (a + b)[|a|..] == b && (a + c[..|b|])[|a|..] == c[..|b|];
    }
  }

  lemma TopValue(s: BitString, rem: nat)
    requires |s| + rem == 8
    ensures (Value(s) + 1) * Pow2(rem) <= 256
  {
    Pow2Adds(|s|, rem);
    Pow2Table();
    var v, p, q := Value(s) + 1, Pow2(|s|), Pow2(rem);
    hide *;
    MulMonotone(v, p, q);
  }

  lemma MulMonotone(a: int, b: int, c: int)
    requires a <= b && c >= 0
    ensures a * c <= b * c
  {
  }

  /** The innermost loop: one leaf for every suffix. */
  method FillLeaf(code: Code, tables: seq<nat>, ghost paths: seq<BitString>, o: nat, d: nat, t: nat)
    returns (out: seq<nat>)
    requires Valid(code) && o <= EOS && t < |paths| && |tables| == |paths| * TABLE_WIDTH
    requires |paths[t]| == d && paths[t] <= code[o] && d < |code[o]| <= d + 8 && |code[o]| <= 30
    requires forall b :: 0 <= b < 256 && code[o] <= Extended(paths[t], b) ==> Entry(tables, t, b) == 0
    ensures LeafFilled(code, tables, out, paths, o, t)
  {
    var first := Value(Register(code[o], d)[..8]);
    var left := |code[o]| - d;
    var count := Pow2(8 - left);
    var value := if o == EOS then ERROR else LeafEntry(left, o);
    forall b | 0 <= b < 256
      ensures first + count <= 256 && (code[o] <= Extended(paths[t], b) <==> first <= b < first + count)
    {
      LeafRange(code[o], d, paths[t], b);
    }
    assert first + count <= 256 by {
      LeafRange(code[o], d, paths[t], 0);
    }
    hide Extended, Register, Pow2, Value, Valid;
    out := FillRange(tables, |paths|, t, first, count, value);
  }

  method FillRange(tables: seq<nat>, ghost n: nat, t: nat, first: nat, count: nat, value: nat) returns (out: seq<nat>)
    requires |tables| == n * TABLE_WIDTH && t < n && first + count <= 256
    requires forall b :: first <= b < first + count ==> Entry(tables, t, b) == 0
    ensures |out| == |tables|
    ensures forall u, b :: 0 <= u < n && 0 <= b < TABLE_WIDTH ==>
              Entry(out, u, b) == if u == t && first <= b < first + count then value else Entry(tables, u, b)
  {
    out := tables;
    for suffix := 0 to count
      invariant |out| == |tables|
      invariant forall u, b :: 0 <= u < n && 0 <= b < TABLE_WIDTH ==>
                  Entry(out, u, b) == if u == t && first <= b < first + suffix then value else Entry(tables, u, b)
    {
      ghost var before := out;
      assert Entry(out, t, first + suffix) == 0;
      out := SetEntry(out, t, first + suffix, value);
      forall u, b | 0 <= u < n && 0 <= b < TABLE_WIDTH
        ensures Entry(out, u, b) == if u == t && b == first + suffix then value else Entry(before, u, b)
      {
        SetEntryOnly(before, t, first + suffix, value, u, b);
      }
    }
  }

  function SetEntry(tables: seq<nat>, t: nat, c: nat, e: nat): (r: seq<nat>)
    requires c < TABLE_WIDTH && (t + 1) * TABLE_WIDTH <= |tables|
    ensures |r| == |tables|
  {
    tables[t * TABLE_WIDTH + c := e]
  }

  lemma SetEntryOnly(tables: seq<nat>, t: nat, c: nat, e: nat, u: nat, b: nat)
    requires c < TABLE_WIDTH && (t + 1) * TABLE_WIDTH <= |tables|
    requires b < TABLE_WIDTH && (u + 1) * TABLE_WIDTH <= |tables|
    ensures Entry(SetEntry(tables, t, c, e), u, b) == if u == t && b == c then e else Entry(tables, u, b)
  {
  }

  /** Where the register stands: `t` is the node for the first `d` bits of symbol `o`. */
  ghost predicate Descending(code: Code, tables: seq<nat>, paths: seq<BitString>, o: nat, d: nat, t: nat) {
    && o <= EOS && Adding(code, tables, paths, o, d)
    && d < |code[o]| && t < |paths| && |paths[t]| == d && paths[t] <= code[o]
  }

  /** One branch down, through the existing entry or a new one. */
  method Descend(code: Code, tables: seq<nat>, ghost paths: seq<BitString>, o: nat, d: nat, t: nat)
    returns (ok: bool, out: seq<nat>, ghost paths': seq<BitString>, next: nat)
    requires Valid(code) && Descending(code, tables, paths, o, d, t) && d + 8 < |code[o]| <= 32
    ensures ok ==> Descending(code, out, paths', o, d + 8, next)
    ensures !ok ==> |AlignedPrefixes(code)| > MAX_TABLES
  {
    var index := Value(Register(code[o], d)[..8]);
    EntryOnTheWay(code[o], d, paths[t]);
    TablesLength(code, tables, paths, o, d);
    hide *;
    var e := Entry(tables, t, index);
    if e == 0 {
      next := |tables| / TABLE_WIDTH;
      DescendingNew(code, tables, paths, o, d, t, index);
      if next >= MAX_TABLES {
        return false, tables, paths, 0;
      }
      out, paths' := WithNode(tables, t, index, next), paths + [Extended(paths[t], index)];
    } else {
      DescendingOld(code, tables, paths, o, d, t, index);
      out, paths', next := tables, paths, BranchTable(e);
    }
    ok := true;
  }

  lemma DescendingNew(code: Code, tables: seq<nat>, paths: seq<BitString>, o: nat, d: nat, t: nat, c: nat)
    requires Valid(code) && Descending(code, tables, paths, o, d, t) && d + 8 < |code[o]|
    requires c < 256 && (t + 1) * TABLE_WIDTH <= |tables| && Entry(tables, t, c) == 0
    requires Extended(paths[t], c) == code[o][..d + 8]
    ensures |paths| < MAX_TABLES ==>
              Descending(code, WithNode(tables, t, c, |paths|), paths + [Extended(paths[t], c)], o, d + 8, |paths|)
    ensures |paths| >= MAX_TABLES ==> |AlignedPrefixes(code)| > MAX_TABLES
  {
    if |paths| < MAX_TABLES {
      DescendNew(code, tables, paths, o, d, t, c);
    } else {
      OneTooMany(code, tables, paths, o, d, t, c);
    }
  }

  lemma DescendingOld(code: Code, tables: seq<nat>, paths: seq<BitString>, o: nat, d: nat, t: nat, c: nat)
    requires Valid(code) && Descending(code, tables, paths, o, d, t) && d + 8 < |code[o]|
    requires c < 256 && (t + 1) * TABLE_WIDTH <= |tables| && Entry(tables, t, c) != 0
    requires Extended(paths[t], c) == code[o][..d + 8]
    ensures Descending(code, tables, paths, o, d + 8, BranchTable(Entry(tables, t, c)))
  {
    PassedEntry(code, tables, paths, o, d, t, c);
    BranchFields(paths, Entry(tables, t, c), Extended(paths[t], c));
    DescendOld(code, tables, paths, o, d, t, c);
  }

  lemma EntryOnTheWay(w: BitString, d: nat, from: BitString)
    requires d + 8 < |w| <= 32 && |from| == d && from <= w
    ensures var q := Extended(from, Value(Register(w, d)[..8]));
            q == w[..d + 8] && Passes(w, q)
    ensures Value(Register(w, d)[..8]) < 256
    ensures Shl(Register(w, d), 8) == Register(w, d + 8)
  {
    RegisterShifts(w, d);
    NextEntry(from, w[d..d + 8]);
    assert from + w[d..d + 8] == w[..d + 8];
  }

  /** Adds one symbol, or fails when it would need one table too many. */
  method AddSymbol(code: Code, tables: seq<nat>, ghost paths: seq<BitString>, o: nat)
    returns (ok: bool, out: seq<nat>, ghost paths': seq<BitString>)
    requires Valid(code) && o <= EOS && Built(code, tables, paths, o)
    ensures ok ==> Built(code, out, paths', o + 1)
    ensures !ok ==> |AlignedPrefixes(code)| > MAX_TABLES
  {
    StartsAdding(code, tables, paths, o);
    out, paths' := tables, paths;
    var t: nat, d: nat := 0, 0;
    assert MIN_LENGTH <= |code[o]| <= MAX_LENGTH;
    hide Valid, Adding, Built;
    while |code[o]| - d > 8
      invariant d < |code[o]| && Descending(code, out, paths', o, d, t)
    {
      ok, out, paths', t := Descend(code, out, paths', o, d, t);
      if !ok {
        return;
      }
      d := d + 8;
    }
    ghost var before := out;
    TablesLength(code, out, paths', o, d);
    forall b | 0 <= b < 256 && code[o] <= Extended(paths'[t], b) ensures Entry(out, t, b) == 0 {
      LeafFree(code, out, paths', o, d, t, b);
    }
    out := FillLeaf(code, out, paths', o, d, t);
    LeafBuilds(code, before, out, paths', o, d, t);
    ok := true;
  }

  lemma TablesLength(code: Code, tables: seq<nat>, paths: seq<BitString>, o: nat, d: nat)
    requires o <= EOS && Adding(code, tables, paths, o, d)
    ensures |tables| == TABLE_WIDTH * |paths| && |tables| / TABLE_WIDTH == |paths|
  {
  }

  /**
    Builds the trie. It fails, as the generator's assertion does, exactly for a code that needs
    more than 128 tables; otherwise walking it is greedy prefix matching and no entry is empty.
   */
  method DecodingTables(code: Code) returns (r: Option<seq<nat>>)
    requires Valid(code)
    ensures r.Some? <==> |AlignedPrefixes(code)| <= MAX_TABLES
    ensures r.Some? ==> TrieFor(code, r.value)
    ensures r.Some? ==> |r.value| == TABLE_WIDTH * |AlignedPrefixes(code)| && 0 !in r.value
  {
    var tables: seq<nat> := seq(TABLE_WIDTH, _ => 0);
    ghost var paths: seq<BitString> := [[]];
    StartsBuilt(code);
    for o := 0 to EOS + 1
      invariant Built(code, tables, paths, o)
    {
      var ok;
      ok, tables, paths := AddSymbol(code, tables, paths, o);
      if !ok {
        return None;
      }
    }
    NodesCover(code, tables, paths);
    BuiltIsTrie(code, tables, paths);
    NoneEmpty(code, tables, paths);
    return Some(tables);
  }

  lemma TablesAre(code: Code, tables: seq<nat>, paths: seq<BitString>)
    requires Built(code, tables, paths, EOS + 1)
    ensures |tables| == TABLE_WIDTH * |paths|
  {
  }

  lemma NoneEmpty(code: Code, tables: seq<nat>, paths: seq<BitString>)
    requires Valid(code) && Built(code, tables, paths, EOS + 1)
    ensures 0 !in tables
  {
    hide Valid, Built, Entry;
    TablesAre(code, tables, paths);
    forall i | 0 <= i < |tables| ensures tables[i] != 0 {
      NoEmptyEntry(code, tables, paths, i / TABLE_WIDTH, i % TABLE_WIDTH);
      EntryAt(tables, |paths|, i);
    }
  }

  lemma EntryAt(tables: seq<nat>, n: nat, i: nat)
    requires |tables| == TABLE_WIDTH * n && i < |tables|
    ensures i / TABLE_WIDTH < n && (i / TABLE_WIDTH + 1) * TABLE_WIDTH <= |tables|
    ensures Entry(tables, i / TABLE_WIDTH, i % TABLE_WIDTH) == tables[i]
  {
  }
}
