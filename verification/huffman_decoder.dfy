/** The word-buffered Huffman decoder, src/hpack/huffman/decode.rs. */
module HuffmanDecoder {
  import opened Bits
  import opened Words
  import opened Wrappers
  import opened HuffmanCode
  import opened HuffmanTables

  /** A 64-bit register whose first `bits` bits are buffered input. */
  datatype Buffer = Buffer(acc: BitString, bits: nat) {
    predicate Valid() {
      |acc| == 64 && bits <= 64
    }
    function Front(): BitString
      requires Valid()
    {
      acc[..bits]
    }
    /** `acc <<= n; bits -= n`. */
    function Drop(n: nat): (b: Buffer)
      requires Valid() && n <= bits
      ensures b.Valid()
    {
      Buffer(Shl(acc, n), bits - n)
    }
  }

  /**
    `rest` is the input still to decode: the buffered bits, then bytes not yet loaded.
    Bits below the buffered ones are either clear or early copies of what follows.
   */
  ghost predicate Tracks(b: Buffer, rest: BitString) {
    && b.Valid() && b.bits <= |rest|
    && b.acc[..b.bits] == rest[..b.bits]
    && forall i :: b.bits <= i < 64 && b.acc[i] ==> i < |rest| && rest[i]
  }

  lemma DropTracks(b: Buffer, rest: BitString, n: nat)
    requires Tracks(b, rest) && n <= b.bits
    ensures Tracks(b.Drop(n), rest[n..])
  {
    var d := b.Drop(n);
    assert forall i :: 0 <= i < d.bits ==> d.acc[i] == b.acc[i + n] == rest[i + n];
    assert forall i :: 0 <= i < 64 - n ==> d.acc[i] == b.acc[i + n];
  }

  // ----- The slow path

  /** Which symbol the slow path decodes from a register, and how many bits it takes. */
  ghost predicate SlowFinds(code: Code, b: Buffer, k: nat) {
    b.Valid() && k < EOS && StartsWith(b.acc, code[k]) && |code[k]| <= b.bits
  }

  /** No whole octet is buffered. */
  ghost predicate SlowFails(code: Code, b: Buffer) {
    b.Valid() && forall k :: 0 <= k < EOS && StartsWith(b.acc, code[k]) ==> b.bits < |code[k]|
  }

  method DecodeCodeSlow(code: Code, trie: seq<nat>, start: Buffer, dst: array<Byte>, o: nat)
    returns (ok: bool, end: Buffer)
    requires Valid(code) && TrieFor(code, trie)
    requires start.Valid() && o < dst.Length
    modifies dst
    ensures ok ==> SlowFinds(code, start, dst[o]) && end == start.Drop(|code[dst[o]]|)
    ensures !ok ==> SlowFails(code, start)
    ensures forall i :: 0 <= i < dst.Length && (!ok || i != o) ==> dst[i] == old(dst[i])
  {
    ghost var k := LookAhead(code, trie, start.acc);
    SlowOutcome(code, start, k);
    hide SlowFinds, SlowFails, Valid, TrieFor, Walk, Shl, LeafUsed, LeafOctet, IsBranch, BranchTable, Value;
    DescentStarts(trie, start);
    end := start;
    var table: nat := 0;
    ghost var depth: nat := 0;
    while true
      invariant Descent(trie, start, end, table, depth)
      invariant dst[..] == old(dst[..])
      decreases end.bits
    {
      hide Descent;
      DescentEntry(trie, start, end, table, depth);
      var e := trie[table * TABLE_WIDTH + Value(end.acc[..8])];
      if !IsBranch(e) {
        var used := LeafUsed(e);
        if used > end.bits {
          return false, end;
        }
        dst[o] := LeafOctet(e);
        DropTwice(start, end, depth, used);
        end := end.Drop(used);
        return true, end;
      }
      if end.bits < 8 {
        return false, end;
      }
      if BranchTable(e) == 0 {
        return false, end;
      }
      DescentStep(trie, start, end, table, depth);
      table := BranchTable(e);
      end := end.Drop(8);
      depth := depth + 8;
    }
  }

  /** The walk has come `depth` bits down from `start` to `table`. */
  ghost predicate Descent(trie: seq<nat>, start: Buffer, end: Buffer, table: nat, depth: nat) {
    && start.Valid() && end.Valid()
    && end.bits + depth == start.bits && end.acc == Shl(start.acc, depth)
    && Walk(trie, 0, start.acc) != OffTrie
    && Walk(trie, 0, start.acc) == Deeper(Walk(trie, table, start.acc[depth..]), depth)
  }

  lemma DescentStarts(trie: seq<nat>, start: Buffer)
    requires start.Valid() && Walk(trie, 0, start.acc) != OffTrie
    ensures Descent(trie, start, start, 0, 0)
  {
    ShlNone(start.acc);
    assert start.acc[0..] == start.acc;
  }

  lemma DescentStep(trie: seq<nat>, start: Buffer, end: Buffer, table: nat, depth: nat)
    requires Descent(trie, start, end, table, depth) && end.bits >= 8
    requires table * TABLE_WIDTH + Value(end.acc[..8]) < |trie|
    requires IsBranch(trie[table * TABLE_WIDTH + Value(end.acc[..8])])
    requires BranchTable(trie[table * TABLE_WIDTH + Value(end.acc[..8])]) != 0
    ensures Descent(trie, start, end.Drop(8), BranchTable(trie[table * TABLE_WIDTH + Value(end.acc[..8])]), depth + 8)
  {
    DescentEntry(trie, start, end, table, depth);
    DropTwice(start, end, depth, 8);
    hide Walk, Shl, IsBranch, LeafUsed, LeafOctet, BranchTable;
  }

  /** What the entry read next says about the whole walk. */
  lemma DescentEntry(trie: seq<nat>, start: Buffer, end: Buffer, table: nat, depth: nat)
    requires Descent(trie, start, end, table, depth)
    ensures end.Valid() && end.bits + depth == start.bits && depth + 8 <= 64
    ensures end.acc == Shl(start.acc, depth)
    ensures table * TABLE_WIDTH + Value(end.acc[..8]) < |trie|
    ensures var e := trie[table * TABLE_WIDTH + Value(end.acc[..8])];
            Walk(trie, 0, start.acc) ==
            if !IsBranch(e) then Found(LeafOctet(e), depth + LeafUsed(e))
            else if BranchTable(e) == 0 then Invalid
            else Deeper(Walk(trie, BranchTable(e), start.acc[depth + 8..]), depth + 8)
  {
    hide Walk, Shl, IsBranch, LeafUsed, LeafOctet, BranchTable, Value;
    WalkOne(trie, table, start.acc[depth..]);
    ShlTwice(start.acc, depth, 8);
  }

  lemma DropTwice(start: Buffer, end: Buffer, depth: nat, n: nat)
    requires start.Valid() && end.bits + depth == start.bits && end.acc == Shl(start.acc, depth) && n <= end.bits
    ensures end.Drop(n) == start.Drop(depth + n)
  {
    ShlTwice(start.acc, depth, n);
  }

  /** One level of a walk that stays on the trie. */
  lemma WalkOne(trie: seq<nat>, table: nat, s: BitString)
    requires Walk(trie, table, s) != OffTrie
    ensures |s| >= 8 && table * TABLE_WIDTH + Value(s[..8]) < |trie|
    ensures var e := trie[table * TABLE_WIDTH + Value(s[..8])];
            Walk(trie, table, s) ==
            if !IsBranch(e) then Found(LeafOctet(e), LeafUsed(e))
            else if BranchTable(e) == 0 then Invalid
            else Deeper(Walk(trie, BranchTable(e), s[8..]), 8)
  {
  }

  /** The code word that starts a full register. */
  lemma LookAhead(code: Code, trie: seq<nat>, acc: BitString) returns (k: nat)
    requires Valid(code) && TrieFor(code, trie) && |acc| == 64
    ensures k <= EOS && StartsWith(acc, code[k])
    ensures Walk(trie, 0, acc) == if k == EOS then Invalid else Found(k, |code[k]|)
    ensures forall j :: 0 <= j <= EOS && StartsWith(acc, code[j]) ==> j == k
  {
    assert HasMatch(code, acc);
    k :| 0 <= k <= EOS && StartsWith(acc, code[k]);
    forall j | 0 <= j <= EOS && StartsWith(acc, code[j]) ensures j == k {
      MatchUnique(code, acc, j, k);
    }
  }

  lemma SlowOutcome(code: Code, start: Buffer, k: nat)
    requires start.Valid() && k <= EOS && StartsWith(start.acc, code[k])
    requires forall j :: 0 <= j <= EOS && StartsWith(start.acc, code[j]) ==> j == k
    ensures k < EOS && |code[k]| <= start.bits ==> SlowFinds(code, start, k)
    ensures k == EOS || |code[k]| > start.bits ==> SlowFails(code, start)
  {
  }

  // ----- Refilling the register

  /** `rest` is what the register and the bytes from `pos` on still hold. */
  ghost predicate Unread(src: Bytes, pos: nat, b: Buffer, rest: BitString) {
    pos <= |src| && Tracks(b, rest) && rest[b.bits..] == BytesBits(src[pos..])
  }

  lemma UnreadAfter(src: Bytes, pos: nat, bits: nat, rest: BitString, n: nat)
    requires bits <= |rest| && pos + n <= |src| && rest[bits..] == BytesBits(src[pos..])
    ensures bits + 8 * n <= |rest| && rest[bits + 8 * n..] == BytesBits(src[pos + n..])
  {
    var tail := src[pos..];
    BytesBitsSlice(tail, n, |tail|);
    assert tail[n..|tail|] == src[pos + n..];
    assert rest[bits + 8 * n..] == rest[bits..][8 * n..8 * |tail|];
  }

  /** Reading eight bytes at once leaves a register full of input. */
  method LoadWord(src: Bytes, pos: nat, b: Buffer, ghost rest: BitString) returns (b': Buffer, pos': nat)
    requires Unread(src, pos, b, rest) && b.bits < 56 && pos + 8 <= |src|
    ensures Unread(src, pos', b', rest) && pos < pos' && b'.bits >= 56
  {
    var word := BytesBits(src[pos..pos + 8]);
    var added := (63 - b.bits) / 8;
    // `bits |= 56` sets the bits of weight 32, 16 and 8
    b' := Buffer(Or(b.acc, Shr(word, b.bits)), 56 + b.bits % 8);
    pos' := pos + added;
    WordIsNext(src, pos, b.bits, rest, word);
    UnreadAfter(src, pos, b.bits, rest, added);
    OrWord(b, rest, word);
    hide BytesBits, Or, Shr;
  }

  lemma OrWord(b: Buffer, rest: BitString, word: BitString)
    requires Tracks(b, rest) && b.bits + 64 <= |rest| && word == rest[b.bits..b.bits + 64]
    ensures Or(b.acc, Shr(word, b.bits)) == rest[..64]
  {
    var r := Or(b.acc, Shr(word, b.bits));
    assert forall i :: 0 <= i < b.bits ==> b.acc[i] == b.acc[..b.bits][i] == rest[i];
  }

  lemma WordIsNext(src: Bytes, pos: nat, bits: nat, rest: BitString, word: BitString)
    requires bits <= |rest| && pos + 8 <= |src| && rest[bits..] == BytesBits(src[pos..])
    requires word == BytesBits(src[pos..pos + 8])
    ensures bits + 64 <= |rest| && word == rest[bits..bits + 64]
  {
    var tail := src[pos..];
    BytesBitsSlice(tail, 0, 8);
    assert tail[0..8] == src[pos..pos + 8];
    assert rest[bits..bits + 64] == rest[bits..][0..64];
  }

  /** `acc |= (src[pos] as u64) << (56 - bits)`. */
  method LoadByte(src: Bytes, pos: nat, b: Buffer, ghost rest: BitString) returns (b': Buffer)
    requires Unread(src, pos, b, rest) && b.bits <= 56 && pos < |src|
    ensures Unread(src, pos + 1, b', rest) && b'.bits == b.bits + 8
  {
    var octet := Digits(src[pos], 8);
    b' := Buffer(Or(b.acc, Shl(Widen(octet, 64), 56 - b.bits)), b.bits + 8);
    ByteIsNext(src, pos, b.bits, rest);
    UnreadAfter(src, pos, b.bits, rest, 1);
    OrByte(b, rest, octet, b');
  }

  lemma ByteIsNext(src: Bytes, pos: nat, bits: nat, rest: BitString)
    requires bits <= |rest| && pos < |src| && rest[bits..] == BytesBits(src[pos..])
    ensures bits + 8 <= |rest| && rest[bits..bits + 8] == Digits(src[pos], 8)
  {
    BytesBitsAt(src[pos..], 0);
    assert rest[bits..bits + 8] == rest[bits..][8 * 0..8 * 0 + 8];
  }

  lemma OrByte(b: Buffer, rest: BitString, octet: BitString, b': Buffer)
    requires Tracks(b, rest) && b.bits <= 56 && |octet| == 8
    requires b.bits + 8 <= |rest| && rest[b.bits..b.bits + 8] == octet
    requires b' == Buffer(Or(b.acc, Shl(Widen(octet, 64), 56 - b.bits)), b.bits + 8)
    ensures Tracks(b', rest)
  {
    var w := Shl(Widen(octet, 64), 56 - b.bits);
    ByteInPlace(octet, b.bits, w);
    hide Shl, Widen;
    forall i | 0 <= i < b.bits + 8 ensures b'.acc[i] == rest[i] {
      if i < b.bits {
        assert b.acc[i] == b.acc[..b.bits][i];
      } else {
        assert rest[i] == rest[b.bits..b.bits + 8][i - b.bits];
      }
    }
    assert b'.acc[..b'.bits] == rest[..b'.bits];
  }

  /** Where `octet as u64 << (56 - bits)` has its bits. */
  lemma ByteInPlace(octet: BitString, bits: nat, w: BitString)
    requires |octet| == 8 && bits <= 56 && w == Shl(Widen(octet, 64), 56 - bits)
    ensures forall i :: 0 <= i < bits ==> !w[i]
    ensures forall i :: bits <= i < bits + 8 ==> w[i] == octet[i - bits]
    ensures forall i :: bits + 8 <= i < 64 ==> !w[i]
  {
  }

  method Refill(src: Bytes, pos: nat, b: Buffer, ghost rest: BitString) returns (b': Buffer, pos': nat)
    requires Unread(src, pos, b, rest) && b.bits < 30
    ensures Unread(src, pos', b', rest)
    ensures pos <= pos' && (pos < |src| ==> pos < pos')
    ensures pos' == |src| || b'.bits >= 56
    ensures pos' == pos ==> b' == b
  {
    if pos + 8 <= |src| {
      b', pos' := LoadWord(src, pos, b, rest);
      return;
    }
    b', pos' := b, pos;
    while b'.bits <= 56 && pos' < |src|
      invariant Unread(src, pos', b', rest) && pos <= pos'
      invariant b'.bits == b.bits + 8 * (pos' - pos)
      invariant pos' == pos ==> b' == b
    {
      b' := LoadByte(src, pos', b', rest);
      pos' := pos' + 1;
    }
  }

  // ----- The decoding loop

  function PrependAll(out: Bytes, r: Result<Bytes, DecoderError>): Result<Bytes, DecoderError> {
    if r.Ok? then Ok(out + r.value) else r
  }

  /** `out` has been decoded, `rest` has not. */
  ghost predicate Progress(code: Code, src: Bytes, out: Bytes, rest: BitString) {
    && Decoded(code, src) == PrependAll(out, ReferenceDecode(code, rest))
    && MIN_LENGTH * |out| + |rest| <= 8 * |src|
  }

  lemma ProgressStart(code: Code, src: Bytes)
    ensures Progress(code, src, [], BytesBits(src))
  {
    var r := Decoded(code, src);
    assert r.Ok? ==> [] + r.value == r.value;
  }

  lemma ProgressStep(code: Code, src: Bytes, out: Bytes, rest: BitString, k: Byte)
    requires Valid(code) && Progress(code, src, out, rest) && StartsWith(rest, code[k])
    ensures Progress(code, src, out + [k], rest[|code[k]|..])
  {
    DecodeStep(code, k, rest);
    hide Decoded, ReferenceDecode, PrefixFree, Complete;
    PrependTwice(out, k, ReferenceDecode(code, rest[|code[k]|..]));
  }

  lemma PrependTwice(out: Bytes, k: Byte, r: Result<Bytes, DecoderError>)
    ensures PrependAll(out, Prepend(k, r)) == PrependAll(out + [k], r)
  {
    if r.Ok? {
      assert out + ([k] + r.value) == (out + [k]) + r.value;
    }
  }

  /** Within the buffered bits, the register and the input agree. */
  lemma BufferedPrefix(b: Buffer, rest: BitString, w: BitString)
    requires Tracks(b, rest) && |w| <= b.bits
    ensures StartsWith(rest, w) <==> StartsWith(b.acc, w)
  {
    assert rest[..|w|] == rest[..b.bits][..|w|];
    assert b.acc[..|w|] == b.acc[..b.bits][..|w|];
  }

  /** When enough is buffered and the slow path fails, so does the reference decoder. */
  lemma SlowIsComplete(code: Code, src: Bytes, pos: nat, b: Buffer, rest: BitString)
    requires Valid(code) && Unread(src, pos, b, rest) && SlowFails(code, b)
    requires pos == |src| || b.bits >= MAX_LENGTH
    requires |rest| >= 8 || !AllOnes(rest)
    ensures ReferenceDecode(code, rest) == Err(InvalidHuffmanCode)
  {
    forall k | 0 <= k < EOS ensures !StartsWith(rest, code[k]) {
      if |code[k]| <= b.bits {
        BufferedPrefix(b, rest, code[k]);
      }
    }
    assert FirstMatch(code, rest, 0) == None;
  }

  /** What the entry of a chunk says about the input that starts with the chunk. */
  ghost predicate FastNames(code: Code, chunk: BitString, e: nat) {
    && (FastCount(e) == 1 ==> FastUsed(e) == |code[FastFirst(e)]| && StartsWith(chunk, code[FastFirst(e)]))
    && (FastCount(e) == 2 ==>
          && FastUsed(e) == |code[FastFirst(e)]| + |code[FastSecond(e)]|
          && StartsWith(chunk, code[FastFirst(e)] + code[FastSecond(e)]))
    && FastCount(e) <= 2
  }

  lemma FastSpecNames(code: Code, chunk: BitString)
    requires |chunk| == FAST_BITS
    ensures FastNames(code, chunk, FastSpec(code, chunk))
  {
    var m := FirstMatch(code, chunk, 0);
    assert FastCount(0) == 0;
    if m.Some? {
      var w := code[m.value];
      var m2 := FirstMatch(code, chunk[|w|..], 0);
      hide *;
      if m2.Some? {
        FastPairNames(code, chunk, m.value, m2.value);
      } else {
        FastSingleNames(code, chunk, m.value);
      }
    }
  }

  lemma FastPairNames(code: Code, chunk: BitString, a: Byte, b: Byte)
    requires |chunk| == FAST_BITS && code[a] <= chunk && code[b] <= chunk[|code[a]|..]
    ensures FastNames(code, chunk, FastEntry(|code[a]| + |code[b]|, 2, b, a))
  {
    FastEntryFields(|code[a]| + |code[b]|, 2, b, a);
    hide FastEntry, FastUsed, FastCount, FastFirst, FastSecond;
    assert chunk[..|code[a]| + |code[b]|] == code[a] + code[b];
  }

  lemma FastSingleNames(code: Code, chunk: BitString, a: Byte)
    requires |chunk| == FAST_BITS && code[a] <= chunk
    ensures FastNames(code, chunk, FastEntry(|code[a]|, 1, 0, a))
  {
    FastEntryFields(|code[a]|, 1, 0, a);
    hide FastEntry, FastUsed, FastCount, FastFirst, FastSecond;
  }

  /** The entry that the next twelve bits select. */
  lemma FastLookup(code: Code, fast: seq<nat>, b: Buffer)
    requires FastTableFor(code, fast) && b.Valid() && b.bits >= FAST_BITS
    ensures Value(b.acc[..FAST_BITS]) < |fast|
    ensures FastNames(code, b.acc[..FAST_BITS], fast[Value(b.acc[..FAST_BITS])])
  {
    var chunk := b.acc[..FAST_BITS];
    FastSize();
    DigitsOfValue(chunk);
    FastSpecNames(code, chunk);
    assert fast[Value(chunk)] == FastSpec(code, Digits(Value(chunk), FAST_BITS));
  }

  lemma FastOne(code: Code, b: Buffer, src: Bytes, out: Bytes, rest: BitString, e: nat)
    requires Valid(code) && Tracks(b, rest) && b.bits >= FAST_BITS && Progress(code, src, out, rest)
    requires FastNames(code, b.acc[..FAST_BITS], e) && FastCount(e) == 1
    ensures FastUsed(e) <= b.bits
    ensures Progress(code, src, out + [FastFirst(e)], rest[FastUsed(e)..])
  {
    hide FastUsed, FastCount, FastFirst, FastSecond, Progress, Valid;
    BufferedPrefix(b, rest, b.acc[..FAST_BITS]);
    ProgressStep(code, src, out, rest, FastFirst(e));
  }

  lemma FastTwo(code: Code, b: Buffer, src: Bytes, out: Bytes, rest: BitString, e: nat)
    requires Valid(code) && Tracks(b, rest) && b.bits >= FAST_BITS && Progress(code, src, out, rest)
    requires FastNames(code, b.acc[..FAST_BITS], e) && FastCount(e) == 2
    ensures FastUsed(e) <= b.bits
    ensures Progress(code, src, out + [FastFirst(e), FastSecond(e)], rest[FastUsed(e)..])
  {
    hide FastUsed, FastCount, FastFirst, FastSecond, Progress, Valid;
    var v, w := code[FastFirst(e)], code[FastSecond(e)];
    BufferedPrefix(b, rest, b.acc[..FAST_BITS]);
    TwoPrefixes(rest, v, w);
    ProgressStep(code, src, out, rest, FastFirst(e));
    ProgressStep(code, src, out + [FastFirst(e)], rest[|v|..], FastSecond(e));
    assert (out + [FastFirst(e)]) + [FastSecond(e)] == out + [FastFirst(e), FastSecond(e)];
  }

  lemma TwoPrefixes(s: BitString, v: BitString, w: BitString)
    requires StartsWith(s, v + w)
    ensures StartsWith(s, v) && StartsWith(s[|v|..], w) && s[|v|..][|w|..] == s[|v| + |w|..]
  {
    assert s[..|v|] == (v + w)[..|v|] == v;
    assert s[|v|..][..|w|] == (v + w)[|v|..] == w;
  }

  /** The output buffer, the register and the input fit together. */
  ghost predicate Decoding(code: Code, src: Bytes, pos: nat, b: Buffer, out: Bytes, rest: BitString) {
    Unread(src, pos, b, rest) && Progress(code, src, out, rest)
  }

  lemma DecodingDrops(code: Code, src: Bytes, pos: nat, b: Buffer, out: Bytes, rest: BitString, n: nat, out': Bytes)
    requires Decoding(code, src, pos, b, out, rest) && n <= b.bits
    requires Progress(code, src, out', rest[n..])
    ensures Decoding(code, src, pos, b.Drop(n), out', rest[n..])
  {
    DropTracks(b, rest, n);
    assert rest[n..][b.bits - n..] == rest[b.bits..];
  }

  /** One symbol by the slow path, or the error of the reference decoder. */
  method SlowStep(code: Code, trie: seq<nat>, src: Bytes, pos: nat, b: Buffer, dst: array<Byte>, o: nat,
                  ghost rest: BitString)
    returns (ok: bool, b': Buffer, ghost rest': BitString)
    requires Valid(code) && TrieFor(code, trie)
    requires o < dst.Length && Decoding(code, src, pos, b, dst[..o], rest)
    requires pos == |src| || b.bits >= MAX_LENGTH
    requires |rest| >= 8 || !AllOnes(rest)
    modifies dst
    ensures ok ==> Decoding(code, src, pos, b', dst[..o + 1], rest') && b'.bits < b.bits
    ensures !ok ==> Decoded(code, src) == Err(InvalidHuffmanCode)
  {
    ghost var out := dst[..o];
    ok, b' := DecodeCodeSlow(code, trie, b, dst, o);
    if ok {
      ghost var k := dst[o];
      BufferedPrefix(b, rest, code[k]);
      ProgressStep(code, src, out, rest, k);
      assert dst[..o + 1] == out + [k];
      rest' := rest[|code[k]|..];
      DecodingDrops(code, src, pos, b, out, rest, |code[k]|, dst[..o + 1]);
    } else {
      SlowIsComplete(code, src, pos, b, rest);
      rest' := rest;
    }
  }

  /** One lookup in the 12-bit table; always writes two bytes. */
  method FastStep(code: Code, entry: nat, src: Bytes, pos: nat, b: Buffer, dst: array<Byte>, o: nat,
                  ghost rest: BitString)
    returns (b': Buffer, o': nat, ghost rest': BitString)
    requires Valid(code) && b.bits >= FAST_BITS
    requires o <= dst.Length && Decoding(code, src, pos, b, dst[..o], rest)
    requires dst.Length == |src| * 8 / 5 + 1
    requires FastNames(code, b.acc[..FAST_BITS], entry) && FastCount(entry) != 0
    modifies dst
    ensures o' <= dst.Length && Decoding(code, src, pos, b', dst[..o'], rest') && b'.bits < b.bits
  {
    hide FastCount, FastUsed, FastFirst, FastSecond;
    ghost var out := dst[..o];
    var consumed := FastUsed(entry);
    RoomForTwo(|src|, o, |rest|);
    dst[o] := FastFirst(entry);
    dst[o + 1] := FastSecond(entry);
    o' := o + FastCount(entry);
    if FastCount(entry) == 1 {
      FastOne(code, b, src, out, rest, entry);
      assert dst[..o'] == out + [FastFirst(entry)];
    } else {
      FastTwo(code, b, src, out, rest, entry);
      assert dst[..o'] == out + [FastFirst(entry), FastSecond(entry)];
    }
    DecodingDrops(code, src, pos, b, out, rest, consumed, dst[..o']);
    b' := b.Drop(consumed);
    rest' := rest[consumed..];
  }

  /** Twelve unread bits leave room for two bytes in the reservation. */
  lemma RoomForTwo(len: nat, o: nat, unread: nat)
    requires MIN_LENGTH * o + unread <= 8 * len && unread >= FAST_BITS
    ensures o + 1 < len * 8 / 5 + 1
  {
  }

  /**
    Decodes a Huffman string. On every input the result, success or error, is that of the
    bit-at-a-time decoder; no write leaves the reserved `len * 8 / 5 + 1` bytes.
   */
  method Decode(code: Code, fast: seq<nat>, trie: seq<nat>, src: Bytes) returns (r: Result<Bytes, DecoderError>)
    requires Valid(code) && FastTableFor(code, fast) && TrieFor(code, trie)
    ensures r == Decoded(code, src)
  {
    var dst := new Byte[|src| * 8 / 5 + 1](_ => 0);
    var o: nat, pos: nat := 0, 0;
    var b := Buffer(Fill(false, 64), 0);
    ghost var rest := BytesBits(src);
    ProgressStart(code, src);
    assert dst[..0] == [];
    label outer: while true
      invariant o <= dst.Length && Decoding(code, src, pos, b, dst[..o], rest)
      invariant b.bits < MAX_LENGTH
      invariant pos == |src| ==> b.bits < FAST_BITS
      decreases |src| - pos
    {
      ghost var start := pos;
      b, pos := Refill(src, pos, b, rest);
      while b.bits >= FAST_BITS
        invariant o <= dst.Length && Decoding(code, src, pos, b, dst[..o], rest)
        invariant start <= pos && (start < |src| ==> start < pos)
        invariant start == |src| ==> b.bits < FAST_BITS
        decreases b.bits
      {
        FastLookup(code, fast, b);
        var entry := fast[Value(b.acc[..FAST_BITS])];
        if FastCount(entry) == 0 {
          if b.bits < MAX_LENGTH && pos < |src| {
            continue outer;
          }
          RoomForTwo(|src|, o, |rest|);
          var ok;
          ok, b, rest := SlowStep(code, trie, src, pos, b, dst, o, rest);
          if !ok {
            return Err(InvalidHuffmanCode);
          }
          o := o + 1;
          continue;
        }
        b, o, rest := FastStep(code, entry, src, pos, b, dst, o, rest);
      }
      if pos >= |src| {
        break;
      }
    }
    r := DecodeTail(code, trie, src, b, dst, o, rest);
  }

  /** The input is exhausted and fewer than twelve bits remain. */
  method DecodeTail(code: Code, trie: seq<nat>, src: Bytes, last: Buffer, dst: array<Byte>, written: nat,
                    ghost unread: BitString)
    returns (r: Result<Bytes, DecoderError>)
    requires Valid(code) && TrieFor(code, trie)
    requires written <= dst.Length == |src| * 8 / 5 + 1
    requires Decoding(code, src, |src|, last, dst[..written], unread)
    modifies dst
    ensures r == Decoded(code, src)
  {
    var b, o: nat := last, written;
    ghost var rest := unread;
    while b.bits > 0
      invariant o <= dst.Length && Decoding(code, src, |src|, b, dst[..o], rest)
      decreases b.bits
    {
      assert rest == b.acc[..b.bits];
      if b.bits < 8 && AllOnes(b.acc[..b.bits]) {
        break;
      }
      var ok;
      ok, b, rest := SlowStep(code, trie, src, |src|, b, dst, o, rest);
      if !ok {
        return Err(InvalidHuffmanCode);
      }
      o := o + 1;
    }
    assert AllOnes(rest) && |rest| < 8;
    PaddingMatchesNothing(code, rest);
    assert dst[..o] + [] == dst[..o];
    return Ok(dst[..o]);
  }
}
