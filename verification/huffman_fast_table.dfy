/** Builds the 12-bit table, `build_fast_table` of src/hpack/huffman/decode.rs. */
module HuffmanFastTable {
  import opened Bits
  import opened Wrappers
  import opened HuffmanCode
  import opened HuffmanTables

  /** The twelve-bit numbers that start with `w` are a contiguous range. */
  lemma PrefixRange(w: BitString, i: nat)
    requires |w| <= FAST_BITS && i < FAST_SIZE
    ensures w <= Digits(i, FAST_BITS) <==>
            Value(w) * Pow2(FAST_BITS - |w|) <= i < (Value(w) + 1) * Pow2(FAST_BITS - |w|)
  {
    hide Pow2, Value, Digits;
    FastSize();
    ValueOfDigits(i, FAST_BITS);
    PrefixValue(w, Digits(i, FAST_BITS));
  }

  /** A word's range lies within the table. */
  lemma RangeFits(w: BitString)
    requires |w| <= FAST_BITS
    ensures (Value(w) + 1) * Pow2(FAST_BITS - |w|) <= FAST_SIZE
    ensures (Value(w) + 1) * Pow2(FAST_BITS - |w|) == Value(w) * Pow2(FAST_BITS - |w|) + Pow2(FAST_BITS - |w|)
  {
    FastSize();
    hide *;
    Distribute(Value(w), Pow2(FAST_BITS - |w|));
    Pow2Adds(|w|, FAST_BITS - |w|);
    Scale(Value(w) + 1, Pow2(|w|), Pow2(FAST_BITS - |w|));
  }

  lemma Scale(a: nat, b: nat, c: nat)
    requires a <= b
    ensures a * c <= b * c
  {
  }

  /** Sets every entry whose index starts with `w`, and no other. */
  method FillPrefix(table: array<nat>, w: BitString, entry: nat)
    requires table.Length == FAST_SIZE && |w| <= FAST_BITS
    modifies table
    ensures forall i {:trigger table[i]} :: 0 <= i < FAST_SIZE ==>
              table[i] == if w <= Digits(i, FAST_BITS) then entry else old(table[i])
  {
    var base := Value(w) * Pow2(FAST_BITS - |w|);
    var count := Pow2(FAST_BITS - |w|);
    RangeFits(w);
    for i := 0 to count
      invariant forall j {:trigger table[j]} :: 0 <= j < FAST_SIZE ==>
                  table[j] == if base <= j < base + i then entry else old(table[j])
    {
      table[base + i] := entry;
    }
    forall i | 0 <= i < FAST_SIZE
      ensures table[i] == if w <= Digits(i, FAST_BITS) then entry else old(table[i])
    {
      PrefixRange(w, i);
    }
  }

  /** The entry once single symbols below `a` are in. */
  function SingleSpec(code: Code, chunk: BitString, a: nat): nat {
    match FirstMatch(code, chunk, 0)
    case None => 0
    case Some(x) => if x < a then FastEntry(|code[x]|, 1, 0, x) else 0
  }

  /** The entry once the pairs below `(a, b)` are in too. */
  function PairSpec(code: Code, chunk: BitString, a: nat, b: nat): nat {
    match FirstMatch(code, chunk, 0)
    case None => 0
    case Some(x) =>
      match FirstMatch(code, chunk[|code[x]|..], 0)
      case None => FastEntry(|code[x]|, 1, 0, x)
      case Some(y) =>
        if x < a || (x == a && y < b) then FastEntry(|code[x]| + |code[y]|, 2, y, x)
        else FastEntry(|code[x]|, 1, 0, x)
  }

  lemma SingleStep(code: Code, chunk: BitString, a: nat)
    requires Valid(code) && a < EOS && |chunk| == FAST_BITS
    ensures SingleSpec(code, chunk, a + 1) ==
            if code[a] <= chunk then FastEntry(|code[a]|, 1, 0, a) else SingleSpec(code, chunk, a)
  {
    if code[a] <= chunk {
      FirstMatchIs(code, chunk, a);
    }
  }

  lemma PairStep(code: Code, chunk: BitString, a: nat, b: nat)
    requires Valid(code) && a < EOS && b < EOS && |chunk| == FAST_BITS
    ensures PairSpec(code, chunk, a, b + 1) ==
            if code[a] + code[b] <= chunk then FastEntry(|code[a]| + |code[b]|, 2, b, a)
            else PairSpec(code, chunk, a, b)
  {
    var v, w := code[a], code[b];
    ConcatPrefix(chunk, v, w);
    if v + w <= chunk {
      FirstMatchIs(code, chunk, a);
      FirstMatchIs(code, chunk[|v|..], b);
    }
  }

  lemma ConcatPrefix(s: BitString, v: BitString, w: BitString)
    ensures v + w <= s <==> v <= s && w <= s[|v|..]
  {
    if |v| + |w| <= |s| {
      assert s[..|v| + |w|] == s[..|v|] + s[|v|..][..|w|];
      assert (v + w)[..|v|] == v && (v + w)[|v|..] == w;
    }
  }

  /** Once every second symbol of `a` is in, the pairs of `a + 1` begin. */
  lemma PairNext(code: Code, chunk: BitString, a: nat)
    ensures PairSpec(code, chunk, a, EOS) == PairSpec(code, chunk, a + 1, 0)
    ensures PairSpec(code, chunk, 0, 0) == SingleSpec(code, chunk, EOS)
    ensures PairSpec(code, chunk, EOS, 0) == FastSpec(code, chunk)
  {
  }

  /** Nothing fits after a code word that leaves fewer than five bits. */
  lemma PairTooLong(code: Code, chunk: BitString, a: nat)
    requires Valid(code) && a < EOS && |chunk| == FAST_BITS && |code[a]| + MIN_LENGTH > FAST_BITS
    ensures PairSpec(code, chunk, a, EOS) == PairSpec(code, chunk, a, 0)
  {
    assert forall b :: 0 <= b < EOS ==> |code[b]| >= MIN_LENGTH;
  }

  ghost predicate HoldsSingles(code: Code, table: array<nat>, a: nat)
    reads table
  {
    table.Length == FAST_SIZE
    && forall i {:trigger table[i]} :: 0 <= i < FAST_SIZE ==> table[i] == SingleSpec(code, Digits(i, FAST_BITS), a)
  }

  ghost predicate HoldsPairs(code: Code, table: array<nat>, a: nat, b: nat)
    reads table
  {
    table.Length == FAST_SIZE
    && forall i {:trigger table[i]} :: 0 <= i < FAST_SIZE ==> table[i] == PairSpec(code, Digits(i, FAST_BITS), a, b)
  }

  method BuildFastTable(code: Code) returns (table: array<nat>)
    requires Valid(code)
    ensures fresh(table) && FastTableFor(code, table[..])
  {
    table := new nat[FAST_SIZE](_ => 0);
    for a := 0 to EOS
      invariant HoldsSingles(code, table, a)
    {
      FillSingles(code, table, a);
    }
    forall i | 0 <= i < FAST_SIZE ensures table[i] == PairSpec(code, Digits(i, FAST_BITS), 0, 0) {
      PairNext(code, Digits(i, FAST_BITS), 0);
    }
    for a := 0 to EOS
      invariant HoldsPairs(code, table, a, 0)
    {
      FillPairs(code, table, a);
    }
    forall i | 0 <= i < FAST_SIZE ensures table[i] == FastSpec(code, Digits(i, FAST_BITS)) {
      PairNext(code, Digits(i, FAST_BITS), 0);
    }
  }

  method FillSingles(code: Code, table: array<nat>, a: nat)
    requires Valid(code) && a < EOS && HoldsSingles(code, table, a)
    modifies table
    ensures HoldsSingles(code, table, a + 1)
  {
    forall i | 0 <= i < FAST_SIZE
      ensures SingleSpec(code, Digits(i, FAST_BITS), a + 1) ==
              if code[a] <= Digits(i, FAST_BITS) then FastEntry(|code[a]|, 1, 0, a) else table[i]
    {
      SingleStep(code, Digits(i, FAST_BITS), a);
    }
    hide SingleSpec, FastEntry, Digits, Valid;
    if |code[a]| <= FAST_BITS {
      FillPrefix(table, code[a], FastEntry(|code[a]|, 1, 0, a));
    }
  }

  method FillPairs(code: Code, table: array<nat>, a: nat)
    requires Valid(code) && a < EOS && HoldsPairs(code, table, a, 0)
    modifies table
    ensures HoldsPairs(code, table, a + 1, 0)
  {
    if |code[a]| + MIN_LENGTH <= FAST_BITS {
      for b := 0 to EOS
        invariant HoldsPairs(code, table, a, b)
      {
        FillPair(code, table, a, b);
      }
    } else {
      forall i | 0 <= i < FAST_SIZE ensures table[i] == PairSpec(code, Digits(i, FAST_BITS), a, EOS) {
        PairTooLong(code, Digits(i, FAST_BITS), a);
      }
    }
    forall i | 0 <= i < FAST_SIZE ensures table[i] == PairSpec(code, Digits(i, FAST_BITS), a + 1, 0) {
      PairNext(code, Digits(i, FAST_BITS), a);
    }
  }

  method FillPair(code: Code, table: array<nat>, a: nat, b: nat)
    requires Valid(code) && a < EOS && b < EOS && HoldsPairs(code, table, a, b)
    modifies table
    ensures HoldsPairs(code, table, a, b + 1)
  {
    forall i | 0 <= i < FAST_SIZE
      ensures PairSpec(code, Digits(i, FAST_BITS), a, b + 1) ==
              if code[a] + code[b] <= Digits(i, FAST_BITS) then FastEntry(|code[a]| + |code[b]|, 2, b, a) else table[i]
    {
      PairStep(code, Digits(i, FAST_BITS), a, b);
    }
    hide PairSpec, FastEntry, Digits, Valid;
    if |code[a]| + |code[b]| <= FAST_BITS {
      FillPrefix(table, code[a] + code[b], FastEntry(|code[a]| + |code[b]|, 2, b, a));
    }
  }
}
