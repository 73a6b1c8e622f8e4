/**
  The order a robin-hood hash array keeps, and what inserting, removing and regrowing do to it
  (src/hpack/table.rs). Positions form a ring; an entry sits at some distance after the position
  its hash asks for.
 */
module RobinHood {
  import opened Bits
  import opened Wrappers

  /** One array slot: the virtual index of a table entry and the hash of its name. */
  datatype Pos = Pos(index: nat, hash: nat)

  type Indices = seq<Option<Pos>>

  /** 64-bit wrap-around. */
  const WORD: nat := 0x1_0000_0000_0000_0000

  function WrappingSub(a: nat, b: nat): (r: nat)
    requires a < WORD && b < WORD
    ensures r < WORD
  {
    if a >= b then a - b else a + WORD - b
  }

  function WrappingAdd(a: nat, b: nat): (r: nat)
    requires a < WORD && b < WORD
    ensures r < WORD
  {
    if a + b < WORD then a + b else a + b - WORD
  }

  /** `x & mask`. */
  function And(x: nat, mask: nat): (r: nat)
    ensures r <= mask
  {
    if mask == 0 then 0
    else 2 * And(x / 2, mask / 2) + if mask % 2 == 1 then x % 2 else 0
  }

  /** Array sizes are powers of two, so that masking is the remainder. */
  predicate PowerOfTwo(cap: nat) {
    cap == 1 || (cap > 1 && cap % 2 == 0 && PowerOfTwo(cap / 2))
  }

  // ----- Positions on the ring

  function Succ(p: nat, cap: nat): nat {
    if p + 1 < cap then p + 1 else 0
  }

  function Pred(p: nat, cap: nat): nat
    requires p < cap
  {
    if p > 0 then p - 1 else cap - 1
  }

  /** How far `p` lies after `from`. */
  function Off(from: nat, p: nat, cap: nat): (d: nat)
    requires from < cap && p < cap
    ensures d < cap
  {
    if p >= from then p - from else p + cap - from
  }

  /** The position `n` after `from`. */
  function Ahead(from: nat, n: nat, cap: nat): (p: nat)
    requires from < cap && n < cap
    ensures p < cap && Off(from, p, cap) == n
  {
    if from + n < cap then from + n else from + n - cap
  }

  lemma OffSucc(from: nat, p: nat, cap: nat)
    requires from < cap && p < cap
    ensures Off(from, Succ(p, cap), cap) == if Off(from, p, cap) + 1 < cap then Off(from, p, cap) + 1 else 0
  {
  }

  function Desired(hash: nat, cap: nat): (p: nat)
    requires cap > 0
    ensures p < cap
  {
    And(hash, cap - 1)
  }

  /** `probe_distance`: the masked, wrapping difference. */
  function ProbeDistance(mask: nat, hash: nat, current: nat): nat
    requires current <= mask < WORD
  {
    And(WrappingSub(current, And(hash, mask)), mask)
  }

  lemma {:induction false} AndSmall(x: nat, mask: nat)
    requires PowerOfTwo(mask + 1) && x <= mask
    ensures And(x, mask) == x
  {
    if mask > 0 {
      AndSmall(x / 2, mask / 2);
    }
  }

  lemma {:induction false} AndPeriod(x: nat, mask: nat)
    requires PowerOfTwo(mask + 1)
    ensures And(x + mask + 1, mask) == And(x, mask)
  {
    if mask > 0 {
      AndPeriod(x / 2, mask / 2);
    }
  }

  /** Halving both, the 64-bit wrap disappears under the mask. */
  lemma {:induction false} AndWraps(x: nat, word: nat, mask: nat)
    requires PowerOfTwo(mask + 1) && PowerOfTwo(word) && mask < word
    ensures And(x + word, mask) == And(x, mask)
    decreases word
  {
    if mask > 0 {
      AndWraps(x / 2, word / 2, mask / 2);
      assert (x + word) / 2 == x / 2 + word / 2 && (x + word) % 2 == x % 2;
    }
  }

  lemma {:induction false} Pow2IsPowerOfTwo(n: nat)
    ensures PowerOfTwo(Pow2(n))
  {
    if n > 0 {
      Pow2IsPowerOfTwo(n - 1);
    }
  }

  lemma WordIsPowerOfTwo()
    ensures PowerOfTwo(WORD)
  {
    Pow2Table();
    Pow2Adds(8, 8);
    Pow2Adds(16, 16);
    Pow2Adds(32, 32);
    Pow2IsPowerOfTwo(64);
    hide *;
  }

  /** The masked difference is the distance on the ring. */
  lemma ProbeDistanceIs(mask: nat, hash: nat, current: nat)
    requires current <= mask < WORD && PowerOfTwo(mask + 1)
    ensures ProbeDistance(mask, hash, current) == Off(Desired(hash, mask + 1), current, mask + 1)
  {
    var d := And(hash, mask);
    if current >= d {
      AndSmall(current - d, mask);
    } else {
      var x := current + (mask + 1) - d;
      AndSmall(x, mask);
      AndPeriod(x, mask);
      WordIsPowerOfTwo();
      AndWraps(x, WORD, mask);
      AndPeriod(current + WORD - d, mask);
      assert x + WORD == current + WORD - d + mask + 1;
    }
  }

  // ----- The order

  function Dist(ix: Indices, p: nat): nat
    requires p < |ix| && ix[p].Some?
  {
    Off(Desired(ix[p].value.hash, |ix|), p, |ix|)
  }

  /** An entry away from home follows one that is nearly as far from home. */
  predicate Follows(ix: Indices, p: nat)
    requires p < |ix|
  {
    var q := Succ(p, |ix|);
    ix[q].Some? && Dist(ix, q) > 0 ==> ix[p].Some? && Dist(ix, p) + 1 >= Dist(ix, q)
  }

  ghost predicate Ordered(ix: Indices) {
    forall p :: 0 <= p < |ix| ==> Follows(ix, p)
  }

  ghost predicate NoDuplicates(ix: Indices) {
    forall p, q :: 0 <= p < q < |ix| && ix[p].Some? ==> ix[p] != ix[q]
  }

  ghost predicate HasGap(ix: Indices) {
    exists p :: 0 <= p < |ix| && ix[p].None?
  }

  /** Walking back from an entry towards its home meets entries at least as far from theirs. */
  lemma {:induction false} ChainBack(ix: Indices, p: nat, i: nat)
    requires Ordered(ix) && p < |ix| && ix[p].Some? && i <= Dist(ix, p)
    ensures var q := Ahead(Desired(ix[p].value.hash, |ix|), i, |ix|);
            ix[q].Some? && Dist(ix, q) >= i
    decreases Dist(ix, p) - i
  {
    var home := Desired(ix[p].value.hash, |ix|);
    var q := Ahead(home, i, |ix|);
    if i == Dist(ix, p) {
      assert q == p;
    } else {
      ChainBack(ix, p, i + 1);
      assert Follows(ix, q);
    }
  }

  /** With a gap somewhere, no entry has gone all the way round. */
  lemma DistBound(ix: Indices, p: nat)
    requires Ordered(ix) && HasGap(ix) && p < |ix| && ix[p].Some?
    ensures Dist(ix, p) + 1 < |ix|
  {
    var gap :| 0 <= gap < |ix| && ix[gap].None?;
    var home := Desired(ix[p].value.hash, |ix|);
    var k := Off(home, gap, |ix|);
    assert Ahead(home, k, |ix|) == gap;
    if k <= Dist(ix, p) {
      ChainBack(ix, p, k);
    }
  }

  // ----- Looking a hash up

  /** The first `dist` positions from the home of `hash` have been passed over. */
  ghost predicate Passed(ix: Indices, hash: nat, dist: nat)
    requires |ix| > 0
  {
    dist <= |ix| && forall i :: 0 <= i < dist ==>
      var q := Ahead(Desired(hash, |ix|), i, |ix|);
      ix[q].Some? && Dist(ix, q) >= i
  }

  /** A probe that stops at a gap or at a nearer entry has met every entry with that hash. */
  lemma ProbeMeets(ix: Indices, hash: nat, dist: nat, p: nat)
    requires Ordered(ix) && p < |ix| && ix[p].Some? && ix[p].value.hash == hash
    requires dist < |ix|
    requires var q := Ahead(Desired(hash, |ix|), dist, |ix|); ix[q].None? || Dist(ix, q) < dist
    ensures Off(Desired(hash, |ix|), p, |ix|) < dist
  {
    if dist <= Dist(ix, p) {
      ChainBack(ix, p, dist);
    }
  }

  // ----- Inserting: the entries from `probe` to the next gap move one position on

  /** `ix1` is `ix` with `x` put at `probe` and the `k` entries from there pushed on by one. */
  ghost predicate Pushed(ix: Indices, ix1: Indices, probe: nat, k: nat, x: Pos) {
    && |ix1| == |ix| && probe < |ix| && k < |ix|
    && (forall p {:trigger ix1[p]} :: 0 <= p < |ix| ==>
          ix1[p] == var j := Off(probe, p, |ix|);
                    if j == 0 then Some(x) else if j <= k then ix[Pred(p, |ix|)] else ix[p])
    && (forall p :: 0 <= p < |ix| ==>
          (Off(probe, p, |ix|) < k ==> ix[p].Some?) && (Off(probe, p, |ix|) == k ==> ix[p].None?))
  }

  /** Where `x` may go: past entries no nearer their home, before nearer ones. */
  ghost predicate MayEnter(ix: Indices, probe: nat, x: Pos) {
    && probe < |ix|
    && var d := Off(Desired(x.hash, |ix|), probe, |ix|);
       && (d == 0 || (ix[Pred(probe, |ix|)].Some? && Dist(ix, Pred(probe, |ix|)) + 1 >= d))
       && (ix[probe].None? || Dist(ix, probe) < d)
  }

  /** An entry moved on by one is one further from home. */
  lemma PushedDist(ix: Indices, ix1: Indices, probe: nat, k: nat, x: Pos, p: nat)
    requires Pushed(ix, ix1, probe, k, x) && Ordered(ix) && HasGap(ix)
    requires p < |ix| && 0 < Off(probe, p, |ix|) <= k
    ensures ix1[p].Some? && ix1[p] == ix[Pred(p, |ix|)] && Dist(ix1, p) == Dist(ix, Pred(p, |ix|)) + 1
  {
    var b := Pred(p, |ix|);
    assert Off(probe, b, |ix|) == Off(probe, p, |ix|) - 1;
    DistBound(ix, b);
  }

  lemma PushedOrdered(ix: Indices, ix1: Indices, probe: nat, k: nat, x: Pos)
    requires Ordered(ix) && HasGap(ix) && MayEnter(ix, probe, x) && Pushed(ix, ix1, probe, k, x)
    ensures Ordered(ix1)
  {
    forall p | 0 <= p < |ix1| ensures Follows(ix1, p) {
      PushedFollows(ix, ix1, probe, k, x, p);
    }
  }

  lemma PushedFollows(ix: Indices, ix1: Indices, probe: nat, k: nat, x: Pos, p: nat)
    requires Ordered(ix) && HasGap(ix) && MayEnter(ix, probe, x) && Pushed(ix, ix1, probe, k, x)
    requires p < |ix|
    ensures Follows(ix1, p)
  {
    var q := Succ(p, |ix|);
    OffSucc(probe, p, |ix|);
    assert Follows(ix, p);
    assert Pred(q, |ix|) == p;
    var j := Off(probe, q, |ix|);
    if 0 < j <= k {
      PushedPair(ix, ix1, probe, k, x, p);
    } else if j == 0 {
      assert Off(probe, p, |ix|) <= k ==> ix[p].None?;
    } else if Off(probe, p, |ix|) == k {
      assert ix[p].None?;
    }
  }

  lemma PushedPair(ix: Indices, ix1: Indices, probe: nat, k: nat, x: Pos, p: nat)
    requires Ordered(ix) && HasGap(ix) && MayEnter(ix, probe, x) && Pushed(ix, ix1, probe, k, x)
    requires p < |ix| && 0 < Off(probe, Succ(p, |ix|), |ix|) <= k
    ensures Follows(ix1, p)
  {
    var q := Succ(p, |ix|);
    OffSucc(probe, p, |ix|);
    assert Pred(q, |ix|) == p;
    PushedDist(ix, ix1, probe, k, x, q);
    if p != probe {
      var b := Pred(p, |ix|);
      PushedDist(ix, ix1, probe, k, x, p);
      assert Succ(b, |ix|) == p;
      assert Follows(ix, b);
      hide Off, Desired, Succ, Pred, Pushed, MayEnter, Ordered, HasGap;
    }
  }

  /** Exactly `x` joins the entries. */
  lemma PushedContents(ix: Indices, ix1: Indices, probe: nat, k: nat, x: Pos, y: Pos)
    requires Pushed(ix, ix1, probe, k, x)
    ensures Some(y) in ix1 <==> Some(y) in ix || y == x
  {
    var cap := |ix|;
    if Some(y) in ix {
      var p :| 0 <= p < cap && ix[p] == Some(y);
      assert Pred(Succ(p, cap), cap) == p;
      if Off(probe, p, cap) < k {
        assert ix1[Succ(p, cap)] == ix[p];
      } else {
        assert ix1[p] == ix[p];
      }
    }
    assert ix1[probe] == Some(x);
  }

  lemma PushedDistinct(ix: Indices, ix1: Indices, probe: nat, k: nat, x: Pos)
    requires Pushed(ix, ix1, probe, k, x) && NoDuplicates(ix) && Some(x) !in ix
    ensures NoDuplicates(ix1)
  {
    forall p, q | 0 <= p < q < |ix1| && ix1[p].Some? ensures ix1[p] != ix1[q] {
      var a := PushedFrom(ix, ix1, probe, k, x, p);
      if ix1[q].Some? {
        var b := PushedFrom(ix, ix1, probe, k, x, q);
        assert a != b;
      }
    }
  }

  /** Where the entry now at `p` was; the gap's position stands for the new one. */
  lemma PushedFrom(ix: Indices, ix1: Indices, probe: nat, k: nat, x: Pos, p: nat) returns (b: nat)
    requires Pushed(ix, ix1, probe, k, x) && p < |ix| && ix1[p].Some?
    ensures b < |ix|
    ensures b == if p == probe then Ahead(probe, k, |ix|)
                 else if Off(probe, p, |ix|) <= k then Pred(p, |ix|) else p
    ensures p == probe ==> ix[b].None? && ix1[p] == Some(x)
    ensures p != probe ==> ix1[p] == ix[b]
  {
    b := if p == probe then Ahead(probe, k, |ix|) else if Off(probe, p, |ix|) <= k then Pred(p, |ix|) else p;
  }

  // ----- Removing: the displaced entries after `hole` move one position back

  /** `ix1` is `ix` without the entry at `hole`, the `k` displaced entries after it moved back. */
  ghost predicate Pulled(ix: Indices, ix1: Indices, hole: nat, k: nat) {
    && |ix1| == |ix| && hole < |ix| && k < |ix| && ix[hole].Some?
    && (forall p {:trigger ix1[p]} :: 0 <= p < |ix| ==>
          ix1[p] == var j := Off(hole, p, |ix|);
                    if j < k then ix[Succ(p, |ix|)] else if j == k then None else ix[p])
    && (forall p :: 0 <= p < |ix| && 0 < Off(hole, p, |ix|) <= k ==> ix[p].Some? && Dist(ix, p) > 0)
    && (k + 1 < |ix| ==> var p := Ahead(hole, k + 1, |ix|); ix[p].None? || Dist(ix, p) == 0)
  }

  lemma PulledDist(ix: Indices, ix1: Indices, hole: nat, k: nat, p: nat)
    requires Pulled(ix, ix1, hole, k) && p < |ix| && Off(hole, p, |ix|) < k
    ensures ix1[p].Some? && Dist(ix1, p) + 1 == Dist(ix, Succ(p, |ix|))
  {
    assert Off(hole, Succ(p, |ix|), |ix|) == Off(hole, p, |ix|) + 1;
  }

  /** No position ends up with an entry further from home than it had. */
  lemma PulledNearer(ix: Indices, ix1: Indices, hole: nat, k: nat, p: nat)
    requires Pulled(ix, ix1, hole, k) && Ordered(ix) && p < |ix|
    ensures ix1[p].None? || (ix[p].Some? && Dist(ix1, p) <= Dist(ix, p))
  {
    if Off(hole, p, |ix|) < k {
      PulledDist(ix, ix1, hole, k, p);
      assert Follows(ix, p);
    }
  }

  lemma PulledOrdered(ix: Indices, ix1: Indices, hole: nat, k: nat)
    requires Pulled(ix, ix1, hole, k) && Ordered(ix) && HasGap(ix)
    ensures Ordered(ix1) && HasGap(ix1)
  {
    PulledRoom(ix, ix1, hole, k);
    forall p | 0 <= p < |ix1| ensures Follows(ix1, p) {
      PulledFollows(ix, ix1, hole, k, p);
    }
    assert ix1[Ahead(hole, k, |ix|)].None?;
  }

  lemma PulledFollows(ix: Indices, ix1: Indices, hole: nat, k: nat, p: nat)
    requires Pulled(ix, ix1, hole, k) && Ordered(ix) && p < |ix| && k + 1 < |ix|
    ensures Follows(ix1, p)
  {
    var q := Succ(p, |ix|);
    OffSucc(hole, p, |ix|);
    assert Follows(ix, p) && Follows(ix, q);
    if Off(hole, q, |ix|) < k {
      PulledPair(ix, ix1, hole, k, p);
    } else if Off(hole, p, |ix|) == k {
      assert q == Ahead(hole, k + 1, |ix|);
    }
  }

  lemma PulledPair(ix: Indices, ix1: Indices, hole: nat, k: nat, p: nat)
    requires Pulled(ix, ix1, hole, k) && Ordered(ix) && p < |ix| && k + 1 < |ix|
    requires Off(hole, Succ(p, |ix|), |ix|) < k
    ensures Follows(ix1, p)
  {
    var q := Succ(p, |ix|);
    OffSucc(hole, p, |ix|);
    PulledNearer(ix, ix1, hole, k, q);
    assert Follows(ix, p);
    if Off(hole, p, |ix|) < k {
      PulledDist(ix, ix1, hole, k, p);
    } else {
      assert ix1[p] == ix[p];
    }
    hide Off, Desired, Succ, Pulled, Ordered;
  }

  lemma PulledRoom(ix: Indices, ix1: Indices, hole: nat, k: nat)
    requires Pulled(ix, ix1, hole, k) && HasGap(ix)
    ensures k + 1 < |ix|
  {
    var gap :| 0 <= gap < |ix| && ix[gap].None?;
    var j := Off(hole, gap, |ix|);
    assert j > 0;
    hide Off, Dist, Ahead;
    assert !(0 < j <= k);
  }

  /** Exactly the entry at `hole` leaves. */
  lemma PulledContents(ix: Indices, ix1: Indices, hole: nat, k: nat, y: Pos)
    requires Pulled(ix, ix1, hole, k) && NoDuplicates(ix)
    ensures Some(y) in ix1 <==> Some(y) in ix && Some(y) != ix[hole]
  {
    if Some(y) in ix && Some(y) != ix[hole] {
      var p :| 0 <= p < |ix| && ix[p] == Some(y);
      PulledTo(ix, ix1, hole, k, p);
    }
    if Some(y) in ix1 {
      var p :| 0 <= p < |ix| && ix1[p] == Some(y);
      var b := if Off(hole, p, |ix|) < k then Succ(p, |ix|) else p;
      OffSucc(hole, p, |ix|);
      assert ix[b] == Some(y) && b != hole;
    }
  }

  /** Where the entry at `p` ends up. */
  lemma PulledTo(ix: Indices, ix1: Indices, hole: nat, k: nat, p: nat)
    requires Pulled(ix, ix1, hole, k) && p < |ix| && p != hole
    ensures ix[p] in ix1
  {
    var b := if Off(hole, p, |ix|) <= k then Pred(p, |ix|) else p;
    assert Succ(Pred(p, |ix|), |ix|) == p;
    OffSucc(hole, Pred(p, |ix|), |ix|);
    assert ix1[b] == ix[p];
  }

  lemma PulledDistinct(ix: Indices, ix1: Indices, hole: nat, k: nat)
    requires Pulled(ix, ix1, hole, k) && NoDuplicates(ix)
    ensures NoDuplicates(ix1)
  {
    var cap := |ix|;
    forall p, q | 0 <= p < q < cap && ix1[p].Some? ensures ix1[p] != ix1[q] {
      var a := if Off(hole, p, cap) < k then Succ(p, cap) else p;
      var b := if Off(hole, q, cap) < k then Succ(q, cap) else q;
      assert ix1[p] == ix[a];
      assert ix1[q].Some? ==> ix1[q] == ix[b] && a != b;
    }
  }
}
