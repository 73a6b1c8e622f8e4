/**
  Doubling the array (`grow` and `reinsert_entry_in_order` of src/hpack/table.rs): taken in ring
  order from an entry that sits at its home, the entries can be put back by simple linear probing
  and still end up in robin-hood order.
 */
module RobinHoodGrowth {
  import opened Wrappers
  import opened RobinHood

  /** The larger mask keeps one more bit of the hash. */
  lemma {:induction false} AndDoubles(x: nat, mask: nat)
    requires PowerOfTwo(mask + 1)
    ensures And(x, 2 * mask + 1) == And(x, mask) || And(x, 2 * mask + 1) == And(x, mask) + mask + 1
  {
    hide And, PowerOfTwo;
    AndNothing(x);
    if mask > 0 {
      PowerHalves(mask);
      AndStep(x, mask);
      AndStep(x, 2 * mask + 1);
      AndDoubles(x / 2, mask / 2);
    }
  }

  lemma AndNothing(x: nat)
    ensures And(x, 0) == 0 && And(x, 1) == x % 2
  {
  }

  lemma PowerHalves(mask: nat)
    requires mask > 0 && PowerOfTwo(mask + 1)
    ensures mask % 2 == 1 && PowerOfTwo(mask / 2 + 1)
  {
    hide PowerOfTwo;
    PowerHalf(mask + 1);
    assert (mask + 1) / 2 == mask / 2 + 1;
  }

  lemma PowerHalf(cap: nat)
    requires PowerOfTwo(cap)
    ensures cap >= 1 && (cap > 1 ==> cap % 2 == 0 && PowerOfTwo(cap / 2))
  {
  }

  lemma AndStep(x: nat, mask: nat)
    requires mask % 2 == 1
    ensures And(x, mask) == 2 * And(x / 2, mask / 2) + x % 2
  {
  }

  lemma DesiredDoubles(hash: nat, cap: nat)
    requires PowerOfTwo(cap)
    ensures Desired(hash, 2 * cap) == Desired(hash, cap) || Desired(hash, 2 * cap) == Desired(hash, cap) + cap
  {
    hide And, PowerOfTwo;
    PowerHalf(cap);
    AndDoubles(hash, cap - 1);
    assert 2 * (cap - 1) + 1 == 2 * cap - 1;
  }

  // ----- The order in which entries are taken

  /** `f` holds an entry at its home. */
  predicate Ideal(ix: Indices, f: nat) {
    f < |ix| && ix[f].Some? && Dist(ix, f) == 0
  }

  /** The `k`-th entry from `f`. */
  function Nth(ix: Indices, f: nat, k: nat): Option<Pos>
    requires f < |ix| && k < |ix|
  {
    ix[Ahead(f, k, |ix|)]
  }

  /** How far from `f` that entry's home is. */
  function HomeOff(ix: Indices, f: nat, k: nat): int
    requires f < |ix| && k < |ix| && Nth(ix, f, k).Some?
  {
    k - Dist(ix, Ahead(f, k, |ix|))
  }

  /** Between `f` and the home of an entry nothing is displaced past `f`. */
  lemma HomeAfter(ix: Indices, f: nat, j: nat, k: nat)
    requires Ordered(ix) && f < |ix| && j < k < |ix| && Nth(ix, f, j).Some? && Nth(ix, f, k).Some?
    ensures HomeOff(ix, f, j) <= HomeOff(ix, f, k)
  {
    var p := Ahead(f, k, |ix|);
    var i := Dist(ix, p) - (k - j);
    if i > 0 {
      ChainBack(ix, p, i);
      BackOf(Desired(ix[p].value.hash, |ix|), f, j, k, |ix|);
    }
  }

  /** `k - j` before the `k`-th position from `f` is the `j`-th. */
  lemma BackOf(home: nat, f: nat, j: nat, k: nat, cap: nat)
    requires home < cap && f < cap && j <= k < cap
    requires Off(home, Ahead(f, k, cap), cap) >= k - j
    ensures Ahead(home, Off(home, Ahead(f, k, cap), cap) - (k - j), cap) == Ahead(f, j, cap)
  {
  }

  lemma HomeInRange(ix: Indices, f: nat, k: nat)
    requires Ordered(ix) && Ideal(ix, f) && k < |ix| && Nth(ix, f, k).Some?
    ensures 0 <= HomeOff(ix, f, k) <= k
  {
    assert Ahead(f, 0, |ix|) == f;
    if k > 0 {
      HomeAfter(ix, f, 0, k);
    }
  }

  /** In the doubled ring the home keeps its place or moves to the other half. */
  lemma NewHome(ix: Indices, f: nat, k: nat)
    requires Ordered(ix) && Ideal(ix, f) && k < |ix| && Nth(ix, f, k).Some? && PowerOfTwo(|ix|)
    ensures var o := Off(f, Desired(Nth(ix, f, k).value.hash, 2 * |ix|), 2 * |ix|);
            o == HomeOff(ix, f, k) || o == HomeOff(ix, f, k) + |ix|
  {
    var hash := Nth(ix, f, k).value.hash;
    HomeInRange(ix, f, k);
    DesiredDoubles(hash, |ix|);
    HomeOffIs(Desired(hash, |ix|), f, k, |ix|);
  }

  lemma HomeOffIs(home: nat, f: nat, k: nat, cap: nat)
    requires home < cap && f < cap && k < cap && Off(home, Ahead(f, k, cap), cap) <= k
    ensures Off(f, home, cap) == k - Off(home, Ahead(f, k, cap), cap)
    ensures Off(f, home, 2 * cap) == Off(f, home, cap) || Off(f, home, 2 * cap) == Off(f, home, cap) + cap
    ensures Off(f, home + cap, 2 * cap) == Off(f, home, cap) || Off(f, home + cap, 2 * cap) == Off(f, home, cap) + cap
  {
  }

  // ----- The doubled array, half by half

  /** Position `o` of the half that starts `base` after `f`. */
  function At(f: nat, base: nat, o: nat, cap: nat): (p: nat)
    requires f < cap && o < cap && (base == 0 || base == cap)
    ensures p < 2 * cap
  {
    Ahead(f, base + o, 2 * cap)
  }

  /** A half is filled below `w` only; `last` is how far into it the last entry's home is. */
  ghost predicate Half(g: Indices, f: nat, base: nat, cap: nat, w: nat, last: nat) {
    && |g| == 2 * cap && f < cap && (base == 0 || base == cap) && w <= cap
    && (forall o :: w <= o < cap ==> g[At(f, base, o, cap)].None?)
    && (forall o :: 0 <= o < w && g[At(f, base, o, cap)].Some? ==> Dist(g, At(f, base, o, cap)) <= o)
    && (w == 0 ==> last == 0)
    && (w > 0 ==> g[At(f, base, w - 1, cap)].Some? && Dist(g, At(f, base, w - 1, cap)) + last == w - 1)
  }

  /** From the home of the next entry, positions are taken up to the watermark and free there. */
  lemma FreeAt(g: Indices, f: nat, base: nat, cap: nat, w: nat, last: nat, home: nat, o: nat)
    requires Half(g, f, base, cap, w, last) && Ordered(g)
    requires last <= home <= o < cap
    ensures g[At(f, base, o, cap)].Some? <==> o < w
  {
    if o < w {
      var p := At(f, base, w - 1, cap);
      ChainBack(g, p, o - last);
      BackOf(Desired(g[p].value.hash, 2 * cap), f, base + o, base + w - 1, 2 * cap);
    }
  }

  /** Putting the next entry in the first free position keeps the order. */
  lemma PlaceOrdered(g: Indices, f: nat, base: nat, cap: nat, w: nat, last: nat, w2: nat, last2: nat,
                     x: Pos, home: nat, e: nat)
    requires Half(g, f, base, cap, w, last) && Half(g, f, cap - base, cap, w2, last2) && Ordered(g)
    requires last <= home <= e < cap && e == (if home >= w then home else w)
    requires Off(f, Desired(x.hash, 2 * cap), 2 * cap) == base + home
    ensures Ordered(g[At(f, base, e, cap) := Some(x)])
  {
    var q := At(f, base, e, cap);
    var g1 := g[q := Some(x)];
    PlacedDist(f, base, cap, Desired(x.hash, 2 * cap), home, e);
    assert Dist(g1, q) == e - home;
    forall p | 0 <= p < |g1| ensures Follows(g1, p) {
      assert Follows(g, p);
      if Succ(p, 2 * cap) == q {
        if e > home {
          Before(f, base, cap, e, p);
        }
      } else if p == q {
        After(g, f, base, cap, w, last, w2, last2, e);
      }
    }
  }

  lemma PlacedDist(f: nat, base: nat, cap: nat, desired: nat, home: nat, e: nat)
    requires f < cap && (base == 0 || base == cap) && desired < 2 * cap && home <= e < cap
    requires Off(f, desired, 2 * cap) == base + home
    ensures Off(desired, At(f, base, e, cap), 2 * cap) == e - home
  {
  }

  lemma Before(f: nat, base: nat, cap: nat, e: nat, p: nat)
    requires f < cap && (base == 0 || base == cap) && 0 < e < cap && p < 2 * cap
    requires Succ(p, 2 * cap) == At(f, base, e, cap)
    ensures p == At(f, base, e - 1, cap)
  {
  }

  /** What comes after the new entry is free or starts the other half at its home. */
  lemma After(g: Indices, f: nat, base: nat, cap: nat, w: nat, last: nat, w2: nat, last2: nat, e: nat)
    requires Half(g, f, base, cap, w, last) && Half(g, f, cap - base, cap, w2, last2)
    requires w <= e < cap
    ensures var s := Succ(At(f, base, e, cap), 2 * cap);
            g[s].None? || Dist(g, s) == 0
    ensures Succ(At(f, base, e, cap), 2 * cap) != At(f, base, e, cap)
  {
    var s := Succ(At(f, base, e, cap), 2 * cap);
    if e + 1 < cap {
      assert s == At(f, base, e + 1, cap);
    } else {
      assert s == At(f, cap - base, 0, cap);
    }
  }

  lemma PlaceHalf(g: Indices, f: nat, base: nat, cap: nat, w: nat, last: nat, x: Pos, home: nat, e: nat)
    requires Half(g, f, base, cap, w, last)
    requires home <= e < cap && e == (if home >= w then home else w)
    requires Off(f, Desired(x.hash, 2 * cap), 2 * cap) == base + home
    ensures Half(g[At(f, base, e, cap) := Some(x)], f, base, cap, e + 1, home)
  {
    PlacedDist(f, base, cap, Desired(x.hash, 2 * cap), home, e);
  }

  lemma OtherHalf(g: Indices, f: nat, base: nat, cap: nat, w: nat, last: nat, x: Option<Pos>, e: nat)
    requires Half(g, f, base, cap, w, last) && e < cap
    ensures Half(g[At(f, cap - base, e, cap) := x], f, base, cap, w, last)
  {
    forall o | 0 <= o < cap ensures At(f, base, o, cap) != At(f, cap - base, e, cap) {
    }
  }

  // ----- The whole of it

  /** The first `k` entries from `f` are back, in two halves filled below `a` and `b`. */
  ghost predicate Regrown(ix: Indices, f: nat, k: nat, g: Indices, a: nat, lastA: nat, b: nat, lastB: nat) {
    && Ordered(ix) && Ideal(ix, f) && PowerOfTwo(|ix|) && k <= |ix|
    && Ordered(g) && Half(g, f, 0, |ix|, a, lastA) && Half(g, f, |ix|, |ix|, b, lastB)
    && a <= k && b <= k
    && (forall j :: k <= j < |ix| && Nth(ix, f, j).Some? ==> lastA <= HomeOff(ix, f, j) && lastB <= HomeOff(ix, f, j))
  }

  lemma RegrownStarts(ix: Indices, f: nat)
    requires Ordered(ix) && Ideal(ix, f) && PowerOfTwo(|ix|)
    ensures Regrown(ix, f, 0, seq(2 * |ix|, _ => None), 0, 0, 0, 0)
  {
    forall j | 0 <= j < |ix| && Nth(ix, f, j).Some? ensures 0 <= HomeOff(ix, f, j) {
      HomeInRange(ix, f, j);
    }
  }

  lemma RegrownSkips(ix: Indices, f: nat, k: nat, g: Indices, a: nat, lastA: nat, b: nat, lastB: nat)
    requires Regrown(ix, f, k, g, a, lastA, b, lastB) && k < |ix| && Nth(ix, f, k).None?
    ensures Regrown(ix, f, k + 1, g, a, lastA, b, lastB)
  {
  }

  /** The half that entry `k` goes to, and its place there. */
  function HalfOf(ix: Indices, f: nat, k: nat): (base: nat)
    requires f < |ix| && k < |ix| && Nth(ix, f, k).Some?
    ensures base == 0 || base == |ix|
  {
    if Off(f, Desired(Nth(ix, f, k).value.hash, 2 * |ix|), 2 * |ix|) < |ix| then 0 else |ix|
  }

  lemma NextHome(ix: Indices, f: nat, k: nat)
    requires Ordered(ix) && Ideal(ix, f) && PowerOfTwo(|ix|) && k < |ix| && Nth(ix, f, k).Some?
    ensures 0 <= HomeOff(ix, f, k) <= k
    ensures Off(f, Desired(Nth(ix, f, k).value.hash, 2 * |ix|), 2 * |ix|) == HalfOf(ix, f, k) + HomeOff(ix, f, k)
    ensures forall j :: k < j < |ix| && Nth(ix, f, j).Some? ==> HomeOff(ix, f, k) <= HomeOff(ix, f, j)
  {
    HomeInRange(ix, f, k);
    NewHome(ix, f, k);
    forall j | k < j < |ix| && Nth(ix, f, j).Some? ensures HomeOff(ix, f, k) <= HomeOff(ix, f, j) {
      HomeAfter(ix, f, k, j);
    }
  }

  lemma Placed(g: Indices, f: nat, base: nat, cap: nat, w: nat, last: nat, w2: nat, last2: nat,
               x: Pos, home: nat, e: nat)
    requires Half(g, f, base, cap, w, last) && Half(g, f, cap - base, cap, w2, last2) && Ordered(g)
    requires last <= home <= e < cap && e == (if home >= w then home else w)
    requires Off(f, Desired(x.hash, 2 * cap), 2 * cap) == base + home
    ensures Ordered(g[At(f, base, e, cap) := Some(x)])
    ensures Half(g[At(f, base, e, cap) := Some(x)], f, base, cap, e + 1, home)
    ensures Half(g[At(f, base, e, cap) := Some(x)], f, cap - base, cap, w2, last2)
  {
    hide *;
    PlaceOrdered(g, f, base, cap, w, last, w2, last2, x, home, e);
    PlaceHalf(g, f, base, cap, w, last, x, home, e);
    OtherHalf(g, f, cap - base, cap, w2, last2, Some(x), e);
  }

  lemma RegrownA(ix: Indices, f: nat, k: nat, g: Indices, a: nat, lastA: nat, b: nat, lastB: nat, e: nat)
    requires Regrown(ix, f, k, g, a, lastA, b, lastB) && k < |ix| && Nth(ix, f, k).Some?
    requires 0 <= HomeOff(ix, f, k) <= k && e < |ix| && HomeOff(ix, f, k) <= e <= k
    requires forall j :: k < j < |ix| && Nth(ix, f, j).Some? ==> HomeOff(ix, f, k) <= HomeOff(ix, f, j)
    requires var g1 := g[At(f, 0, e, |ix|) := Nth(ix, f, k)];
             Ordered(g1) && Half(g1, f, 0, |ix|, e + 1, HomeOff(ix, f, k)) && Half(g1, f, |ix|, |ix|, b, lastB)
    ensures Regrown(ix, f, k + 1, g[At(f, 0, e, |ix|) := Nth(ix, f, k)], e + 1, HomeOff(ix, f, k), b, lastB)
  {
    hide Half, Ordered, At, HomeOff, Nth, Ideal, PowerOfTwo;
  }

  lemma RegrownB(ix: Indices, f: nat, k: nat, g: Indices, a: nat, lastA: nat, b: nat, lastB: nat, e: nat)
    requires Regrown(ix, f, k, g, a, lastA, b, lastB) && k < |ix| && Nth(ix, f, k).Some?
    requires 0 <= HomeOff(ix, f, k) <= k && e < |ix| && HomeOff(ix, f, k) <= e <= k
    requires forall j :: k < j < |ix| && Nth(ix, f, j).Some? ==> HomeOff(ix, f, k) <= HomeOff(ix, f, j)
    requires var g1 := g[At(f, |ix|, e, |ix|) := Nth(ix, f, k)];
             Ordered(g1) && Half(g1, f, 0, |ix|, a, lastA) && Half(g1, f, |ix|, |ix|, e + 1, HomeOff(ix, f, k))
    ensures Regrown(ix, f, k + 1, g[At(f, |ix|, e, |ix|) := Nth(ix, f, k)], a, lastA, e + 1, HomeOff(ix, f, k))
  {
    hide Half, Ordered, At, HomeOff, Nth, Ideal, PowerOfTwo;
  }

  lemma RegrownHolds(ix: Indices, f: nat, k: nat, g: Indices, a: nat, lastA: nat, b: nat, lastB: nat)
    requires Regrown(ix, f, k, g, a, lastA, b, lastB) && k < |ix| && Nth(ix, f, k).Some?
    ensures Half(g, f, 0, |ix|, a, lastA) && Half(g, f, |ix|, |ix|, b, lastB) && Ordered(g)
    ensures lastA <= HomeOff(ix, f, k) && lastB <= HomeOff(ix, f, k) && a <= k && b <= k
  {
  }

  lemma RegrownRing(ix: Indices, f: nat, k: nat, g: Indices, a: nat, lastA: nat, b: nat, lastB: nat)
    requires Regrown(ix, f, k, g, a, lastA, b, lastB)
    ensures Ordered(ix) && Ideal(ix, f) && PowerOfTwo(|ix|) && f < |ix| && |g| == 2 * |ix|
  {
  }

  lemma RegrownPlaces(ix: Indices, f: nat, k: nat, g: Indices, a: nat, lastA: nat, b: nat, lastB: nat, e: nat)
    requires Regrown(ix, f, k, g, a, lastA, b, lastB) && k < |ix| && Nth(ix, f, k).Some?
    requires var home := HomeOff(ix, f, k);
             var w := if HalfOf(ix, f, k) == 0 then a else b;
             e == if home >= w then home else w
    ensures e < |ix|
    ensures var home := HomeOff(ix, f, k);
            var g1 := g[At(f, HalfOf(ix, f, k), e, |ix|) := Nth(ix, f, k)];
            home >= 0 &&
            if HalfOf(ix, f, k) == 0 then Regrown(ix, f, k + 1, g1, e + 1, home, b, lastB)
            else Regrown(ix, f, k + 1, g1, a, lastA, e + 1, home)
  {
    RegrownRing(ix, f, k, g, a, lastA, b, lastB);
    hide Regrown, Half, Ordered, Ideal, PowerOfTwo, At, HomeOff, HalfOf, Nth;
    NextHome(ix, f, k);
    var x := Nth(ix, f, k).value;
    var home: nat := HomeOff(ix, f, k);
    var base := HalfOf(ix, f, k);
    RegrownHolds(ix, f, k, g, a, lastA, b, lastB);
    if base == 0 {
      Placed(g, f, 0, |ix|, a, lastA, b, lastB, x, home, e);
      RegrownA(ix, f, k, g, a, lastA, b, lastB, e);
    } else {
      Placed(g, f, |ix|, |ix|, b, lastB, a, lastA, x, home, e);
      RegrownB(ix, f, k, g, a, lastA, b, lastB, e);
    }
  }
}
