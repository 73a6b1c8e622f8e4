/**
  Bytes, bit strings and the powers of two behind every shift and mask.

  A machine word is modelled as the list of its bits, most significant first,
  so that a shift drops bits at one end and fills the other with zeros.
 */
module Bits {
  type Byte = b: int | 0 <= b < 256
  type Bytes = seq<Byte>
  type BitString = seq<bool>

  function Pow2(n: nat): (p: nat)
    ensures p > 0
  {
    if n == 0 then 1 else 2 * Pow2(n - 1)
  }

  lemma {:induction false} Pow2Adds(m: nat, n: nat)
    ensures Pow2(m + n) == Pow2(m) * Pow2(n)
  {
    if n > 0 {
      Pow2Adds(m, n - 1);
      MulRegroup(Pow2(m), 2, Pow2(n - 1));
    }
  }

  /** Products regroup; kept apart because the verifier is slow on them. */
  lemma MulRegroup(a: int, b: int, c: int)
    ensures b * (a * c) == a * (b * c) == (a * b) * c
  {
  }

  lemma Pow2Table()
    ensures Pow2(1) == 2 && Pow2(2) == 4 && Pow2(3) == 8 && Pow2(4) == 16 && Pow2(5) == 32
    ensures Pow2(6) == 64 && Pow2(7) == 128 && Pow2(8) == 256
  {
    assert Pow2(4) == 16;
  }

  /** `n` masked to its `len` low bits. */
  function LowBits(n: nat, len: nat): (m: nat)
    ensures m < Pow2(len) && m <= n
  {
    if len == 0 then 0 else 2 * LowBits(n / 2, len - 1) + n % 2
  }

  /** The number a bit string denotes. */
  function Value(s: BitString): (n: nat)
    ensures n < Pow2(|s|)
  {
    if s == [] then 0
    else 2 * Value(s[..|s| - 1]) + (if s[|s| - 1] then 1 else 0)
  }

  /** The low `len` bits of `n`. */
  function Digits(n: nat, len: nat): (s: BitString)
    ensures |s| == len
  {
    if len == 0 then [] else Digits(n / 2, len - 1) + [n % 2 == 1]
  }

  lemma {:induction false} DigitsOfValue(s: BitString)
    ensures Digits(Value(s), |s|) == s
  {
    if s != [] {
      DigitsOfValue(s[..|s| - 1]);
    }
  }

  lemma {:induction false} ValueOfDigits(n: nat, len: nat)
    requires n < Pow2(len)
    ensures Value(Digits(n, len)) == n
  {
    if len > 0 {
      ValueOfDigits(n / 2, len - 1);
      assert Digits(n, len)[..len - 1] == Digits(n / 2, len - 1);
    }
  }

  lemma {:induction false} ValueConcat(a: BitString, b: BitString)
    ensures Value(a + b) == Value(a) * Pow2(|b|) + Value(b)
  {
    if b == [] {
      assert a + b == a;
    } else {
      var c := b[..|b| - 1];
      assert (a + b)[..|a + b| - 1] == a + c;
      ValueConcat(a, c);
      MulRegroup(Value(a), 2, Pow2(|c|));
    }
  }

  lemma ValueInjective(a: BitString, b: BitString)
    requires |a| == |b| && Value(a) == Value(b)
    ensures a == b
  {
    DigitsOfValue(a);
    DigitsOfValue(b);
  }

  /** A bit string starts with `w` exactly when its number lies in the range of `w`. */
  lemma PrefixValue(w: BitString, d: BitString)
    requires |w| <= |d|
    ensures w <= d <==> Value(w) * Pow2(|d| - |w|) <= Value(d) < (Value(w) + 1) * Pow2(|d| - |w|)
  {
    hide Pow2, Value;
    var rem := |d| - |w|;
    Distribute(Value(w), Pow2(rem));
    if w <= d {
      assert d == w + d[|w|..];
      ValueConcat(w, d[|w|..]);
    } else if Value(w) * Pow2(rem) <= Value(d) < Value(w) * Pow2(rem) + Pow2(rem) {
      ValueSplits(w, d, Value(d) - Value(w) * Pow2(rem));
    }
  }

  /** A number is the value of its leading bits and its trailing bits, in one way only. */
  lemma ValueSplits(w: BitString, d: BitString, low: nat)
    requires |w| <= |d| && low < Pow2(|d| - |w|) && Value(d) == Value(w) * Pow2(|d| - |w|) + low
    ensures w <= d
  {
    hide Pow2, Value, Digits, LowBits;
    var tail := Digits(low, |d| - |w|);
    ValueOfDigits(low, |d| - |w|);
    ValueConcat(w, tail);
    ValueInjective(w + tail, d);
  }

  lemma Distribute(a: int, b: int)
    ensures (a + 1) * b == a * b + b
  {
  }

  /** All bits equal to `b`. */
  function Fill(b: bool, n: nat): (s: BitString)
    ensures |s| == n && forall i :: 0 <= i < n ==> s[i] == b
  {
    seq(n, _ => b)
  }

  predicate AllOnes(s: BitString) {
    forall i :: 0 <= i < |s| ==> s[i]
  }

  /** `part` occurs in `src` at `pos`. */
  predicate At(src: Bytes, pos: nat, part: Bytes) {
    pos + |part| <= |src| && src[pos..pos + |part|] == part
  }

  lemma AtConcat(src: Bytes, pos: nat, a: Bytes, b: Bytes)
    ensures At(src, pos, a + b) <==> At(src, pos, a) && At(src, pos + |a|, b)
  {
    var n := |a|;
    if pos + n + |b| <= |src| {
      var s := src[pos..pos + |a + b|];
      assert s[..n] == src[pos..pos + n];
      assert s[n..] == src[pos + n..pos + n + |b|];
      assert (a + b)[..n] == a && (a + b)[n..] == b;
      assert s == s[..n] + s[n..];
    }
  }

  lemma AtOne(src: Bytes, pos: nat, b: Byte)
    ensures At(src, pos, [b]) <==> pos < |src| && src[pos] == b
  {
  }

  /** The bits of a byte string, in transmission order. */
  function BytesBits(bs: Bytes): (s: BitString)
    ensures |s| == 8 * |bs|
  {
    if bs == [] then [] else BytesBits(bs[..|bs| - 1]) + Digits(bs[|bs| - 1], 8)
  }

  lemma {:induction false} BytesBitsConcat(a: Bytes, b: Bytes)
    ensures BytesBits(a + b) == BytesBits(a) + BytesBits(b)
  {
    if b == [] {
      assert a + b == a;
    } else {
      assert (a + b)[..|a + b| - 1] == a + b[..|b| - 1];
      BytesBitsConcat(a, b[..|b| - 1]);
    }
  }

  lemma ByteOfDigits(a: Byte, b: Byte)
    requires Digits(a, 8) == Digits(b, 8)
    ensures a == b
  {
    Pow2Table();
    ValueOfDigits(a, 8);
    ValueOfDigits(b, 8);
  }

  lemma {:induction false} BytesBitsInjective(a: Bytes, b: Bytes)
    requires BytesBits(a) == BytesBits(b)
    ensures a == b
  {
    if a != [] {
      var n := |a| - 1;
      ConcatCancel(BytesBits(a[..n]), Digits(a[n], 8), BytesBits(b[..n]), Digits(b[n], 8));
      BytesBitsInjective(a[..n], b[..n]);
      ByteOfDigits(a[n], b[n]);
      assert a == a[..n] + [a[n]];
    }
  }

  lemma ConcatCancel<T>(x: seq<T>, y: seq<T>, u: seq<T>, v: seq<T>)
    requires x + y == u + v && |x| == |u|
    ensures x == u && y == v
  {
    assert (x + y)[..|x|] == x && (u + v)[..|u|] == u;
    assert (x + y)[|x|..] == y && (u + v)[|u|..] == v;
  }

  lemma BytesBitsSlice(bs: Bytes, lo: nat, hi: nat)
    requires lo <= hi <= |bs|
    ensures BytesBits(bs)[8 * lo..8 * hi] == BytesBits(bs[lo..hi])
  {
    hide BytesBits;
    Split3(bs, lo, hi);
    BytesBitsMiddle(bs, bs[..lo], bs[lo..hi], bs[hi..]);
  }

  lemma Split3<T>(s: seq<T>, lo: nat, hi: nat)
    requires lo <= hi <= |s|
    ensures s == s[..lo] + (s[lo..hi] + s[hi..])
  {
  }

  lemma BytesBitsMiddle(bs: Bytes, a: Bytes, b: Bytes, c: Bytes)
    requires bs == a + (b + c)
    ensures BytesBits(bs)[8 * |a|..8 * (|a| + |b|)] == BytesBits(b)
  {
    BytesBitsConcat(a, b + c);
    BytesBitsConcat(b, c);
    SliceOfConcat(BytesBits(bs), BytesBits(a), BytesBits(b), BytesBits(c), 8 * |a|, 8 * (|a| + |b|));
  }

  lemma SliceOfConcat<T>(s: seq<T>, a: seq<T>, b: seq<T>, c: seq<T>, lo: nat, hi: nat)
    requires s == a + (b + c) && lo == |a| && hi == |a| + |b|
    ensures s[lo..hi] == b
  {
  }

  /** Bits `8 * k` to `8 * k + 8` are the `k`-th byte. */
  lemma BytesBitsAt(bs: Bytes, k: nat)
    requires k < |bs|
    ensures BytesBits(bs)[8 * k..8 * k + 8] == Digits(bs[k], 8)
  {
    BytesBitsSlice(bs, k, k + 1);
    assert bs[k..k + 1] == [bs[k]];
    BytesBitsOne(bs[k]);
  }

  lemma BytesBitsOne(b: Byte)
    ensures BytesBits([b]) == Digits(b, 8)
  {
    assert [b][..0] == [];
    assert BytesBits([]) == [];
  }

  /** The bytes a whole number of octets spells. */
  function BitsBytes(s: BitString): (bs: Bytes)
    requires |s| % 8 == 0
    ensures |bs| == |s| / 8
  {
    if s == [] then []
    else
      Pow2Table();
      BitsBytes(s[..|s| - 8]) + [Value(s[|s| - 8..])]
  }

  lemma {:induction false} BytesBitsInverse(s: BitString)
    requires |s| % 8 == 0
    ensures BytesBits(BitsBytes(s)) == s
  {
    if s != [] {
      var n := |s| - 8;
      Pow2Table();
      assert BitsBytes(s) == BitsBytes(s[..n]) + [Value(s[n..])];
      hide *;
      BytesBitsInverse(s[..n]);
      BytesBitsSnoc(BitsBytes(s[..n]), Value(s[n..]));
      DigitsOfValue(s[n..]);
      SplitAt(s, n);
    }
  }

  lemma BytesBitsSnoc(bs: Bytes, b: Byte)
    ensures BytesBits(bs + [b]) == BytesBits(bs) + Digits(b, 8)
  {
    assert (bs + [b])[..|bs|] == bs;
  }

  lemma SplitAt<T>(s: seq<T>, n: nat)
    requires n <= |s|
    ensures s == s[..n] + s[n..]
  {
  }
}
