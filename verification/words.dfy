/** Fixed-width machine words as lists of bits, most significant first. */
module Words {
  import opened Bits

  /** `w << n`, keeping the width. */
  function Shl(w: BitString, n: nat): (r: BitString)
    requires n <= |w|
    ensures |r| == |w|
  {
    w[n..] + Fill(false, n)
  }

  /** `w >> n`. */
  function Shr(w: BitString, n: nat): (r: BitString)
    requires n <= |w|
    ensures |r| == |w|
  {
    Fill(false, n) + w[..|w| - n]
  }

  /** `a | b`. */
  function Or(a: BitString, b: BitString): (r: BitString)
    requires |a| == |b|
    ensures |r| == |a| && forall i :: 0 <= i < |r| ==> r[i] == (a[i] || b[i])
  {
    seq(|a|, i requires 0 <= i < |a| => a[i] || b[i])
  }

  /** `a & b`. */
  function And(a: BitString, b: BitString): (r: BitString)
    requires |a| == |b|
    ensures |r| == |a| && forall i :: 0 <= i < |r| ==> r[i] == (a[i] && b[i])
  {
    seq(|a|, i requires 0 <= i < |a| => a[i] && b[i])
  }

  /** Conversion to a wider word. */
  function Widen(s: BitString, width: nat): (r: BitString)
    requires |s| <= width
    ensures |r| == width
  {
    Fill(false, width - |s|) + s
  }

  /** Conversion to a narrower word: the low `width` bits. */
  function Truncate(w: BitString, width: nat): (r: BitString)
    requires width <= |w|
    ensures |r| == width
  {
    w[|w| - width..]
  }

  lemma ShlNone(w: BitString)
    ensures Shl(w, 0) == w
  {
  }

  lemma ShlTwice(w: BitString, m: nat, n: nat)
    requires m + n <= |w|
    ensures Shl(Shl(w, m), n) == Shl(w, m + n)
    ensures Shl(w, m)[..n] == w[m..][..n] && w[m..][n..] == w[m + n..]
  {
  }

  /** The low `n` bits of a word followed by `s`, made by shifting and or-ing. */
  lemma ShiftIn(w: BitString, s: BitString, n: nat)
    requires n + |s| <= |w|
    ensures Truncate(Or(Shl(w, |s|), Widen(s, |w|)), n + |s|) == Truncate(w, n) + s
  {
    var r := Or(Shl(w, |s|), Widen(s, |w|));
    var k := |w| - n - |s|;
    assert forall i :: k <= i < |w| - |s| ==> r[i] == w[i + |s|];
    assert forall i :: |w| - |s| <= i < |w| ==> r[i] == s[i - (|w| - |s|)];
    assert r[k..] == Truncate(w, n) + s;
  }

  /** Shifting right by `n` and truncating reads the bits above the low `n`. */
  lemma ShiftOut(w: BitString, n: nat, width: nat)
    requires n + width <= |w|
    ensures Truncate(Shr(w, n), width) + Truncate(w, n) == Truncate(w, n + width)
  {
    var r := Truncate(Shr(w, n), width);
    assert forall i :: 0 <= i < width ==> r[i] == w[|w| - n - width + i];
  }

  /** Masking with n ones keeps the low n bits. */
  lemma MaskKeeps(w: BitString, n: nat)
    requires n <= |w|
    ensures Truncate(And(w, Widen(Fill(true, n), |w|)), n) == Truncate(w, n)
  {
  }
}
