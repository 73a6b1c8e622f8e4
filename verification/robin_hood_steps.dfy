/** Single steps of the loops that shift entries of the hash array (src/hpack/table.rs). */
module RobinHoodSteps {
  import opened Bits
  import opened Wrappers
  import opened Headers
  import opened RobinHood
  import opened TableState

  /** Nothing moved further from its home. */
  ghost predicate Nearer(before: Indices, after: Indices) {
    && |before| == |after|
    && forall p :: 0 <= p < |after| ==> after[p].None? || (before[p].Some? && Dist(after, p) <= Dist(before, p))
  }

  /** Changing which entry of a name the array points to. */
  lemma Repointed(ix: Indices, p: nat, y: Pos)
    requires Ordered(ix) && NoDuplicates(ix) && p < |ix| && ix[p].Some?
    requires y.hash == ix[p].value.hash && Some(y) !in ix
    ensures Ordered(ix[p := Some(y)]) && NoDuplicates(ix[p := Some(y)]) && Nearer(ix, ix[p := Some(y)])
    ensures forall z :: Some(z) in ix[p := Some(y)] <==> (Some(z) in ix && z != ix[p].value) || z == y
  {
    var ix1 := ix[p := Some(y)];
    forall q | 0 <= q < |ix1| ensures Follows(ix1, q) {
      assert Follows(ix, q);
    }
    forall z ensures Some(z) in ix1 <==> (Some(z) in ix && z != ix[p].value) || z == y {
      RepointedContents(ix, p, y, z);
    }
  }

  lemma RepointedContents(ix: Indices, p: nat, y: Pos, z: Pos)
    requires NoDuplicates(ix) && p < |ix| && ix[p].Some?
    ensures Some(z) in ix[p := Some(y)] <==> (Some(z) in ix && z != ix[p].value) || z == y
  {
    var ix1 := ix[p := Some(y)];
    assert ix1[p] == Some(y);
    if Some(z) in ix && z != ix[p].value {
      var q :| 0 <= q < |ix| && ix[q] == Some(z);
      assert ix1[q] == Some(z);
    }
  }

  /** The array after the oldest entry has been dropped. */
  lemma HeldPops(ix: Indices, ix1: Indices, s: seq<Header>, inserted: nat, hasher: Bytes -> nat, tail: Tail)
    requires s != [] && TailOk(s, tail) && Held(ix, s, inserted, hasher, tail)
    requires Ordered(ix1) && NoDuplicates(ix1)
    requires forall z :: Some(z) in ix1 <==>
               || (Some(z) in ix && z != PosOf(s, |s| - 1, inserted, hasher))
               || Successor(s, inserted, hasher, tail) == Some(z)
    ensures Held(ix1, s[..|s| - 1], inserted, hasher, tail)
  {
    forall y ensures Some(y) in ix1 <==> Wanted(s[..|s| - 1], inserted, hasher, tail, y) {
      WantedPops(s, inserted, hasher, tail, y);
    }
  }

  /** While entries move back: like `Pulled`, but the next one has not been looked at. */
  ghost predicate Pulling(ix: Indices, ix1: Indices, hole: nat, k: nat) {
    && |ix1| == |ix| && hole < |ix| && k < |ix| && ix[hole].Some?
    && (forall p {:trigger ix1[p]} :: 0 <= p < |ix| ==>
          ix1[p] == var j := Off(hole, p, |ix|);
                    if j < k then ix[Succ(p, |ix|)] else if j == k then None else ix[p])
    && (forall p :: 0 <= p < |ix| && 0 < Off(hole, p, |ix|) <= k ==> ix[p].Some? && Dist(ix, p) > 0)
  }

  lemma PullingRoom(ix: Indices, ix1: Indices, hole: nat, k: nat)
    requires Pulling(ix, ix1, hole, k) && HasGap(ix)
    ensures k + 1 < |ix|
  {
    var gap :| 0 <= gap < |ix| && ix[gap].None?;
    assert Off(hole, gap, |ix|) > k;
  }

  lemma PullOne(ix: Indices, ix1: Indices, hole: nat, k: nat)
    requires Pulling(ix, ix1, hole, k) && k + 1 < |ix|
    requires var q := Ahead(hole, k + 1, |ix|); ix[q].Some? && Dist(ix, q) > 0
    ensures var last, q := Ahead(hole, k, |ix|), Ahead(hole, k + 1, |ix|);
            ix1[q] == ix[q] && q == Succ(last, |ix|) && Pulling(ix, ix1[last := ix1[q]][q := None], hole, k + 1)
  {
    var last, q := Ahead(hole, k, |ix|), Ahead(hole, k + 1, |ix|);
    var ix2 := ix1[last := ix1[q]][q := None];
    forall p | 0 <= p < |ix|
      ensures ix2[p] == var j := Off(hole, p, |ix|);
                        if j < k + 1 then ix[Succ(p, |ix|)] else if j == k + 1 then None else ix[p]
    {
      AheadOff(hole, p, |ix|);
    }
    forall p | 0 <= p < |ix| && 0 < Off(hole, p, |ix|) <= k + 1 ensures ix[p].Some? && Dist(ix, p) > 0 {
      AheadOff(hole, p, |ix|);
    }
  }

  lemma AheadOff(from: nat, p: nat, cap: nat)
    requires from < cap && p < cap
    ensures Ahead(from, Off(from, p, cap), cap) == p
  {
  }

  lemma AheadSucc(from: nat, k: nat, cap: nat)
    requires from < cap && k + 1 < cap
    ensures Succ(Ahead(from, k, cap), cap) == Ahead(from, k + 1, cap)
    ensures Ahead(from, 0, cap) == from
  {
  }

  /** While entries move on: the entry at offset `k` is in hand. */
  ghost predicate Pushing(ix: Indices, ix1: Indices, probe: nat, k: nat, x: Pos) {
    && |ix1| == |ix| && probe < |ix| && k < |ix|
    && (forall p {:trigger ix1[p]} :: 0 <= p < |ix| ==>
          ix1[p] == var j := Off(probe, p, |ix|);
                    if j == 0 then Some(x) else if j <= k then ix[Pred(p, |ix|)] else ix[p])
    && (forall p :: 0 <= p < |ix| && Off(probe, p, |ix|) < k ==> ix[p].Some?)
  }

  lemma PushStart(ix: Indices, probe: nat, x: Pos)
    requires probe < |ix|
    ensures Pushing(ix, ix[probe := Some(x)], probe, 0, x)
  {
  }

  lemma PushRoom(ix: Indices, ix1: Indices, probe: nat, k: nat, x: Pos)
    requires Pushing(ix, ix1, probe, k, x) && HasGap(ix) && ix[Ahead(probe, k, |ix|)].Some?
    ensures k + 1 < |ix|
  {
    var gap :| 0 <= gap < |ix| && ix[gap].None?;
    AheadOff(probe, gap, |ix|);
    assert Off(probe, gap, |ix|) > k;
  }

  lemma PushOne(ix: Indices, ix1: Indices, probe: nat, k: nat, x: Pos)
    requires Pushing(ix, ix1, probe, k, x) && k + 1 < |ix| && ix[Ahead(probe, k, |ix|)].Some?
    ensures var q := Ahead(probe, k + 1, |ix|);
            ix1[q] == ix[q] && q == Succ(Ahead(probe, k, |ix|), |ix|)
            && Pushing(ix, ix1[q := ix[Ahead(probe, k, |ix|)]], probe, k + 1, x)
  {
    var q := Ahead(probe, k + 1, |ix|);
    assert Pred(q, |ix|) == Ahead(probe, k, |ix|);
    var ix2 := ix1[q := ix[Ahead(probe, k, |ix|)]];
    forall p | 0 <= p < |ix|
      ensures ix2[p] == var j := Off(probe, p, |ix|);
                        if j == 0 then Some(x) else if j <= k + 1 then ix[Pred(p, |ix|)] else ix[p]
    {
      AheadOff(probe, p, |ix|);
    }
    forall p | 0 <= p < |ix| && Off(probe, p, |ix|) < k + 1 ensures ix[p].Some? {
      AheadOff(probe, p, |ix|);
    }
  }

  lemma PushDone(ix: Indices, ix1: Indices, probe: nat, k: nat, x: Pos)
    requires Pushing(ix, ix1, probe, k, x) && ix[Ahead(probe, k, |ix|)].None?
    ensures Pushed(ix, ix1, probe, k, x)
  {
    forall p | 0 <= p < |ix| && Off(probe, p, |ix|) == k ensures ix[p].None? {
      AheadOff(probe, p, |ix|);
    }
  }

  lemma NearerTrans(a: Indices, b: Indices, c: Indices)
    requires Nearer(a, b) && Nearer(b, c)
    ensures Nearer(a, c)
  {
  }

  /** The oldest entry has exactly one place in the array. */
  lemma OldestPlace(ix: Indices, s: seq<Header>, inserted: nat, hasher: Bytes -> nat, tail: Tail) returns (target: nat)
    requires s != [] && TailOk(s, tail) && Held(ix, s, inserted, hasher, tail)
    ensures target < |ix| && ix[target] == Some(PosOf(s, |s| - 1, inserted, hasher))
    ensures forall p :: 0 <= p < |ix| && ix[p].Some? && ix[p].value.index == Virtual(|s| - 1, inserted) ==> p == target
  {
    SuccessorFresh(ix, s, inserted, hasher, tail);
    var x := PosOf(s, |s| - 1, inserted, hasher);
    target :| 0 <= target < |ix| && ix[target] == Some(x);
    forall p | 0 <= p < |ix| && ix[p].Some? && ix[p].value.index == x.index ensures p == target {
      assert Some(ix[p].value) in ix && Some(x) in ix;
      IndexUnique(s, inserted, hasher, tail, ix[p].value, x);
    }
  }

  /** Dropping the oldest entry when another one takes over its place. */
  lemma HeldRepoints(ix: Indices, s: seq<Header>, inserted: nat, hasher: Bytes -> nat, tail: Tail, target: nat)
    requires s != [] && TailOk(s, tail) && Held(ix, s, inserted, hasher, tail)
    requires target < |ix| && ix[target] == Some(PosOf(s, |s| - 1, inserted, hasher))
    requires Successor(s, inserted, hasher, tail).Some?
    ensures var ix1 := ix[target := Successor(s, inserted, hasher, tail)];
            Held(ix1, s[..|s| - 1], inserted, hasher, tail) && Nearer(ix, ix1)
  {
    var y := Successor(s, inserted, hasher, tail).value;
    SuccessorFresh(ix, s, inserted, hasher, tail);
    Repointed(ix, target, y);
    HeldPops(ix, ix[target := Some(y)], s, inserted, hasher, tail);
  }

  /** Dropping the oldest entry when nothing takes its place. */
  lemma HeldPulls(ix: Indices, ix1: Indices, k: nat, s: seq<Header>, inserted: nat, hasher: Bytes -> nat, tail: Tail,
                  target: nat)
    requires s != [] && TailOk(s, tail) && Held(ix, s, inserted, hasher, tail) && HasGap(ix)
    requires target < |ix| && ix[target] == Some(PosOf(s, |s| - 1, inserted, hasher))
    requires Successor(s, inserted, hasher, tail).None? && Pulled(ix, ix1, target, k)
    ensures Held(ix1, s[..|s| - 1], inserted, hasher, tail) && Nearer(ix, ix1)
  {
    PulledOrdered(ix, ix1, target, k);
    PulledDistinct(ix, ix1, target, k);
    forall z ensures Some(z) in ix1 <==> Some(z) in ix && Some(z) != ix[target] {
      PulledContents(ix, ix1, target, k, z);
    }
    HeldPops(ix, ix1, s, inserted, hasher, tail);
    forall p | 0 <= p < |ix1| ensures ix1[p].None? || (ix[p].Some? && Dist(ix1, p) <= Dist(ix, p)) {
      PulledNearer(ix, ix1, target, k, p);
    }
  }
}
