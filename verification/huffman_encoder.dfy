/** The word-at-a-time Huffman encoder, src/hpack/huffman/encode.rs. */
module HuffmanEncoder {
  import opened Bits
  import opened Words
  import opened HuffmanCode

  /** `put_u32` and `put_u8`: the octets of a word, most significant first. */
  method PutWord(w: BitString, dst: Bytes) returns (out: Bytes)
    requires |w| % 8 == 0
    ensures out == dst + BitsBytes(w)
    ensures BytesBits(out) == BytesBits(dst) + w
  {
    out := dst + BitsBytes(w);
    BytesBitsConcat(dst, BitsBytes(w));
    BytesBitsInverse(w);
  }

  /** The buffered bits are the low `len` bits of a 64-bit register. */
  ghost predicate Buffered(code: Code, done: Bytes, out: Bytes, bits: BitString, len: nat) {
    |bits| == 64 && len <= 64 && EncodedBits(code, done) == BytesBits(out) + Truncate(bits, len)
  }

  /** `bits = (bits << nbits) | code`. */
  lemma PushCode(code: Code, done: Bytes, b: Byte, out: Bytes, bits: BitString, len: nat)
    requires Buffered(code, done, out, bits, len) && len + |code[b]| <= 64
    ensures Buffered(code, done + [b], out, Or(Shl(bits, |code[b]|), Widen(code[b], 64)), len + |code[b]|)
  {
    ShiftIn(bits, code[b], len);
    assert (done + [b])[..|done|] == done;
  }

  lemma NothingBuffered(code: Code)
    ensures Buffered(code, [], [], Fill(false, 64), 0)
  {
    TruncateNone(Fill(false, 64));
  }

  /** The upper bits of what is buffered are written, the rest is kept. */
  lemma WordOut(code: Code, done: Bytes, out: Bytes, out1: Bytes, bits: BitString, len: nat)
    requires Buffered(code, done, out, bits, len) && 32 <= len <= 64
    requires BytesBits(out1) == BytesBits(out) + Truncate(Shr(bits, len - 32), 32)
    ensures Buffered(code, done, out1, And(bits, Widen(Fill(true, len - 32), 64)), len - 32)
  {
    ShiftOut(bits, len - 32, 32);
    MaskKeeps(bits, len - 32);
    Assoc(BytesBits(out), Truncate(Shr(bits, len - 32), 32), Truncate(bits, len - 32));
    hide BytesBits, EncodedBits, Shr;
  }

  method Encode(code: Code, src: Bytes, dst: Bytes) returns (out: Bytes)
    requires forall k :: 0 <= k < EOS ==> |code[k]| <= MAX_LENGTH
    ensures out == dst + Encoded(code, src)
  {
    var written: Bytes := [];
    var bits := Fill(false, 64);
    var len: nat := 0;
    NothingBuffered(code);
    hide Buffered, Truncate, Shr, Shl, Or, And, Widen, Fill, Encoded;
    assert src[..0] == [];
    for i := 0 to |src|
      invariant len < 32
      invariant Buffered(code, src[..i], written, bits, len)
    {
      var word := code[src[i]];
      PushCode(code, src[..i], src[i], written, bits, len);
      assert src[..i] + [src[i]] == src[..i + 1];
      bits := Or(Shl(bits, |word|), Widen(word, 64));
      len := len + |word|;
      if len >= 32 {
        var remaining := len - 32;
        ghost var before := written;
        written := PutWord(Truncate(Shr(bits, remaining), 32), written);
        WordOut(code, src[..i + 1], before, written, bits, len);
        len := remaining;
        bits := And(bits, Widen(Fill(true, remaining), 64));
      }
    }
    assert src[..|src|] == src;
    written := Finish(code, src, written, bits, len);
    out := dst + written;
  }

  lemma PushPadding(code: Code, src: Bytes, out: Bytes, bits: BitString, len: nat, padding: nat)
    requires Buffered(code, src, out, bits, len) && len + padding <= 64
    requires padding == PaddingLength(|EncodedBits(code, src)|)
    ensures BytesBits(out) + Truncate(Or(Shl(bits, padding), Widen(Fill(true, padding), 64)), len + padding)
            == PaddedBits(code, src)
  {
    ShiftIn(bits, Fill(true, padding), len);
    Assoc(BytesBits(out), Truncate(bits, len), Fill(true, padding));
  }

  lemma Assoc<T>(a: seq<T>, b: seq<T>, c: seq<T>)
    ensures a + (b + c) == (a + b) + c
  {
  }

  /** Pads the last octet with ones and writes the bits still buffered. */
  method Finish(code: Code, src: Bytes, written: Bytes, last: BitString, n: nat) returns (out: Bytes)
    requires Buffered(code, src, written, last, n) && n < 32
    ensures out == Encoded(code, src)
  {
    var padding := PaddingLength(n);
    PaddingShift(|written|, n);
    PushPadding(code, src, written, last, n, padding);
    var bits := Or(Shl(last, padding), Widen(Fill(true, padding), 64));
    hide Truncate, Or, Shl, Widen, PaddingLength;
    out := PutOctets(bits, n + padding, written);
    BytesBitsInverse(PaddedBits(code, src));
    BytesBitsInjective(out, Encoded(code, src));
  }

  lemma PaddingShift(octets: nat, n: nat)
    ensures PaddingLength(8 * octets + n) == PaddingLength(n)
  {
  }

  lemma TruncateNone(w: BitString)
    ensures Truncate(w, 0) == []
  {
  }

  /** Writes the low `n` bits of a register, octet by octet. */
  method PutOctets(bits: BitString, n: nat, dst: Bytes) returns (out: Bytes)
    requires |bits| == 64 && n <= 64 && n % 8 == 0
    ensures BytesBits(out) == BytesBits(dst) + Truncate(bits, n)
  {
    var len: nat := n;
    out := dst;
    TruncateNone(bits);
    hide *;
    while len != 0
      invariant len % 8 == 0 && len <= n
      invariant BytesBits(out) + Truncate(bits, len) == BytesBits(dst) + Truncate(bits, n)
    {
      len := len - 8;
      ShiftOut(bits, len, 8);
      Assoc(BytesBits(out), Truncate(Shr(bits, len), 8), Truncate(bits, len));
      out := PutWord(Truncate(Shr(bits, len), 8), out);
    }
  }
}
