/**
  How the hash array and the chains of the encoder's table describe its entries. The array holds
  the oldest entry of each name; from there `next` links lead to ever newer entries of that name.
  Entries are named by virtual indices that keep their value when newer entries are added.
 */
module TableState {
  import opened Bits
  import opened Wrappers
  import opened Headers
  import opened RobinHood

  datatype Slot = Slot(hash: nat, header: Header, next: Option<nat>)

  function Entries(slots: seq<Slot>): (s: seq<Header>)
    ensures |s| == |slots| && forall i :: 0 <= i < |s| ==> s[i] == slots[i].header
  {
    seq(|slots|, i requires 0 <= i < |slots| => slots[i].header)
  }

  // ----- Virtual indices

  /** The virtual index of entry `r` when `inserted` entries have been added, modulo 2^64. */
  function Virtual(r: nat, inserted: nat): (v: nat)
    requires r < WORD && inserted < WORD
    ensures v < WORD && WrappingAdd(v, inserted) == r
  {
    WrappingSub(r, inserted)
  }

  /** Adding an entry moves the others on by one and keeps their virtual indices. */
  lemma VirtualKept(r: nat, inserted: nat)
    requires r + 1 < WORD && inserted < WORD
    ensures Virtual(r + 1, WrappingAdd(inserted, 1)) == Virtual(r, inserted)
    ensures Virtual(0, WrappingAdd(inserted, 1)) == Virtual(WORD - 1, inserted)
  {
  }

  // ----- Chains

  /** The next newer entry called `name`, before position `r`. */
  function Newer(s: seq<Header>, name: Bytes, r: nat): (j: Option<nat>)
    requires r <= |s|
    ensures j.Some? ==> j.value < r && s[j.value].name == name && forall i :: j.value < i < r ==> s[i].name != name
    ensures j.None? ==> forall i :: 0 <= i < r ==> s[i].name != name
  {
    if r == 0 then None else if s[r - 1].name == name then Some(r - 1) else Newer(s, name, r - 1)
  }

  /** No older entry has the same name. */
  predicate Oldest(s: seq<Header>, r: nat)
    requires r < |s|
  {
    forall j :: r < j < |s| ==> s[j].name != s[r].name
  }

  predicate Present(s: seq<Header>, name: Bytes) {
    exists j :: 0 <= j < |s| && s[j].name == name
  }

  /** The hash of a name, cut to 16 bits. */
  function HashOf(hasher: Bytes -> nat, name: Bytes): nat {
    And(hasher(name), 0xffff)
  }

  /** A link to an entry, if there is one. */
  function LinkTo(j: Option<nat>, inserted: nat): Option<nat>
    requires inserted < WORD && (j.Some? ==> j.value < WORD)
  {
    if j.Some? then Some(Virtual(j.value, inserted)) else None
  }

  predicate LinkOk(slots: seq<Slot>, r: nat, inserted: nat, hasher: Bytes -> nat)
    requires r < |slots| < WORD && inserted < WORD
  {
    && slots[r].hash == HashOf(hasher, slots[r].header.name)
    && slots[r].next == LinkTo(Newer(Entries(slots), slots[r].header.name, r), inserted)
  }

  ghost predicate Linked(slots: seq<Slot>, inserted: nat, hasher: Bytes -> nat) {
    && inserted < WORD && |slots| < WORD - 1
    && forall r :: 0 <= r < |slots| ==> LinkOk(slots, r, inserted, hasher)
  }

  // ----- The array

  /** The newest entry of the name being added, which may be evicted before the addition is done. */
  type Tail = Option<(nat, Bytes)>

  predicate TailOk(s: seq<Header>, tail: Tail) {
    tail.Some? ==>
      && tail.value.0 < WORD - 1
      && if tail.value.0 < |s|
         then s[tail.value.0].name == tail.value.1 && Newer(s, tail.value.1, tail.value.0).None?
         else !Present(s, tail.value.1)
  }

  /** The chain of the name being added has been evicted altogether. */
  predicate Pending(s: seq<Header>, tail: Tail) {
    tail.Some? && tail.value.0 >= |s|
  }

  function PosOf(s: seq<Header>, r: nat, inserted: nat, hasher: Bytes -> nat): Pos
    requires r < |s| && |s| < WORD && inserted < WORD
  {
    Pos(Virtual(r, inserted), HashOf(hasher, s[r].name))
  }

  /** The place kept for the entry about to be added. */
  function PendingPos(tail: Tail, inserted: nat, hasher: Bytes -> nat): Pos
    requires tail.Some? && inserted < WORD
  {
    Pos(Virtual(WORD - 1, inserted), HashOf(hasher, tail.value.1))
  }

  /** What the array is to contain. */
  ghost predicate Wanted(s: seq<Header>, inserted: nat, hasher: Bytes -> nat, tail: Tail, y: Pos)
    requires |s| < WORD && inserted < WORD
  {
    || (exists r :: 0 <= r < |s| && Oldest(s, r) && y == PosOf(s, r, inserted, hasher))
    || (Pending(s, tail) && y == PendingPos(tail, inserted, hasher))
  }

  ghost predicate Held(ix: Indices, s: seq<Header>, inserted: nat, hasher: Bytes -> nat, tail: Tail) {
    && |s| < WORD - 1 && inserted < WORD
    && Ordered(ix) && NoDuplicates(ix)
    && forall y :: Some(y) in ix <==> Wanted(s, inserted, hasher, tail, y)
  }

  // ----- Dropping the oldest entry

  lemma NewerOfPrefix(s: seq<Header>, n: nat, name: Bytes, r: nat)
    requires r <= n <= |s|
    ensures Newer(s[..n], name, r) == Newer(s, name, r)
  {
  }

  lemma LinkedPops(slots: seq<Slot>, inserted: nat, hasher: Bytes -> nat)
    requires Linked(slots, inserted, hasher) && slots != []
    ensures Linked(slots[..|slots| - 1], inserted, hasher)
    ensures Entries(slots[..|slots| - 1]) == Entries(slots)[..|slots| - 1]
  {
    var n := |slots| - 1;
    assert Entries(slots[..n]) == Entries(slots)[..n];
    forall r | 0 <= r < n ensures LinkOk(slots[..n], r, inserted, hasher) {
      assert LinkOk(slots, r, inserted, hasher);
      NewerOfPrefix(Entries(slots), n, slots[r].header.name, r);
    }
  }

  lemma TailPops(s: seq<Header>, tail: Tail)
    requires TailOk(s, tail) && s != []
    ensures TailOk(s[..|s| - 1], tail)
  {
    if tail.Some? && tail.value.0 < |s| {
      var n := |s| - 1;
      if tail.value.0 < n {
        NewerOfPrefix(s, n, tail.value.1, tail.value.0);
      }
    }
  }

  /** The entry that takes the place of the oldest one in the array, if any. */
  function Successor(s: seq<Header>, inserted: nat, hasher: Bytes -> nat, tail: Tail): (y: Option<Pos>)
    requires s != [] && |s| < WORD && inserted < WORD
  {
    var n := |s| - 1;
    match Newer(s, s[n].name, n)
    case Some(j) => Some(PosOf(s, j, inserted, hasher))
    case None => if tail.Some? && tail.value.0 == n then Some(PendingPos(tail, inserted, hasher)) else None
  }

  /** Dropping the oldest entry replaces its place in the array by its successor's. */
  lemma WantedPops(s: seq<Header>, inserted: nat, hasher: Bytes -> nat, tail: Tail, y: Pos)
    requires s != [] && |s| < WORD - 1 && inserted < WORD && TailOk(s, tail)
    ensures Wanted(s[..|s| - 1], inserted, hasher, tail, y) <==>
            || (Wanted(s, inserted, hasher, tail, y) && y != PosOf(s, |s| - 1, inserted, hasher))
            || Successor(s, inserted, hasher, tail) == Some(y)
  {
    WantedPopsOnly(s, inserted, hasher, tail, y);
    WantedPopsBack(s, inserted, hasher, tail, y);
  }

  lemma OldestPops(s: seq<Header>, r: nat)
    requires r + 1 < |s|
    ensures Oldest(s[..|s| - 1], r) <==> Oldest(s, r) || Newer(s, s[|s| - 1].name, |s| - 1) == Some(r)
  {
    var n := |s| - 1;
    var s1 := s[..n];
    NewerIs(s, n, r);
    assert forall j :: r < j < n ==> s1[j] == s[j];
    assert Oldest(s, r) <==> Oldest(s1, r) && s[n].name != s[r].name;
  }

  lemma NewerIs(s: seq<Header>, n: nat, r: nat)
    requires r < n < |s|
    ensures Newer(s, s[n].name, n) == Some(r) <==>
            s[r].name == s[n].name && forall j :: r < j < n ==> s[j].name != s[n].name
  {
  }

  lemma WantedPopsOnly(s: seq<Header>, inserted: nat, hasher: Bytes -> nat, tail: Tail, y: Pos)
    requires s != [] && |s| < WORD - 1 && inserted < WORD && TailOk(s, tail)
    ensures Wanted(s[..|s| - 1], inserted, hasher, tail, y) ==>
            || (Wanted(s, inserted, hasher, tail, y) && y != PosOf(s, |s| - 1, inserted, hasher))
            || Successor(s, inserted, hasher, tail) == Some(y)
  {
    var n := |s| - 1;
    if r :| 0 <= r < n && Oldest(s[..n], r) && y == PosOf(s[..n], r, inserted, hasher) {
      OldestPops(s, r);
      assert y == PosOf(s, r, inserted, hasher);
    }
  }

  lemma WantedPopsBack(s: seq<Header>, inserted: nat, hasher: Bytes -> nat, tail: Tail, y: Pos)
    requires s != [] && |s| < WORD - 1 && inserted < WORD && TailOk(s, tail)
    ensures (Wanted(s, inserted, hasher, tail, y) && y != PosOf(s, |s| - 1, inserted, hasher))
            || Successor(s, inserted, hasher, tail) == Some(y)
            ==> Wanted(s[..|s| - 1], inserted, hasher, tail, y)
  {
    var n := |s| - 1;
    if r :| 0 <= r < n && Oldest(s, r) && y == PosOf(s, r, inserted, hasher) {
      OldestPops(s, r);
      assert y == PosOf(s[..n], r, inserted, hasher);
    }
    var m := Newer(s, s[n].name, n);
    if m.Some? {
      OldestPops(s, m.value);
      assert PosOf(s[..n], m.value, inserted, hasher) == PosOf(s, m.value, inserted, hasher);
    }
  }

  /** The successor is new to the array and has the same hash. */
  lemma SuccessorFresh(ix: Indices, s: seq<Header>, inserted: nat, hasher: Bytes -> nat, tail: Tail)
    requires s != [] && TailOk(s, tail) && Held(ix, s, inserted, hasher, tail)
    ensures Some(PosOf(s, |s| - 1, inserted, hasher)) in ix
    ensures Successor(s, inserted, hasher, tail).Some? ==>
              && Some(Successor(s, inserted, hasher, tail).value) !in ix
              && Successor(s, inserted, hasher, tail).value.hash == PosOf(s, |s| - 1, inserted, hasher).hash
  {
    var n := |s| - 1;
    assert Oldest(s, n);
    assert Wanted(s, inserted, hasher, tail, PosOf(s, n, inserted, hasher));
    var y := Successor(s, inserted, hasher, tail);
    if y.Some? {
      NotWanted(s, inserted, hasher, tail);
    }
  }

  lemma NotWanted(s: seq<Header>, inserted: nat, hasher: Bytes -> nat, tail: Tail)
    requires s != [] && |s| < WORD - 1 && inserted < WORD && TailOk(s, tail)
    requires Successor(s, inserted, hasher, tail).Some?
    ensures !Wanted(s, inserted, hasher, tail, Successor(s, inserted, hasher, tail).value)
  {
    var n := |s| - 1;
    var m := Newer(s, s[n].name, n);
    if m.Some? {
      assert !Oldest(s, m.value);
    }
  }

  /** The virtual index tells the entries of the array apart. */
  lemma IndexUnique(s: seq<Header>, inserted: nat, hasher: Bytes -> nat, tail: Tail, x: Pos, y: Pos)
    requires |s| < WORD - 1 && inserted < WORD
    requires Wanted(s, inserted, hasher, tail, x) && Wanted(s, inserted, hasher, tail, y) && x.index == y.index
    ensures x == y
  {
  }

  // ----- Adding an entry

  lemma {:induction false} NewerPushes(h: Header, s: seq<Header>, name: Bytes, r: nat)
    requires r <= |s|
    ensures Newer([h] + s, name, r + 1) ==
            if Newer(s, name, r).Some? then Some(Newer(s, name, r).value + 1)
            else if h.name == name then Some(0) else None
  {
    if r > 0 && s[r - 1].name != name {
      NewerPushes(h, s, name, r - 1);
    }
  }

  /** The entries with a new one in front, linked from the newest of its name if that is still there. */
  function Push(slots: seq<Slot>, hash: nat, h: Header, tail: Tail, inserted: nat): (r: seq<Slot>)
    requires inserted < WORD
    ensures Entries(r) == [h] + Entries(slots)
  {
    var base := [Slot(hash, h, None)] + slots;
    if tail.Some? && tail.value.0 + 1 < |base|
    then base[tail.value.0 + 1 := base[tail.value.0 + 1].(next := Some(Virtual(0, WrappingAdd(inserted, 1))))]
    else base
  }

  /** Only a tail of the right name, or no entry of that name at all, goes before a new entry. */
  predicate TailFor(s: seq<Header>, tail: Tail, name: Bytes) {
    TailOk(s, tail) && if tail.Some? then tail.value.1 == name else !Present(s, name)
  }

  lemma LinkedPushes(slots: seq<Slot>, inserted: nat, hasher: Bytes -> nat, h: Header, tail: Tail)
    requires Linked(slots, inserted, hasher) && |slots| + 2 < WORD
    requires TailFor(Entries(slots), tail, h.name)
    ensures Linked(Push(slots, HashOf(hasher, h.name), h, tail, inserted), WrappingAdd(inserted, 1), hasher)
  {
    hide LinkOk, Newer, Push, Entries, Present;
    var s := Entries(slots);
    var pushed := Push(slots, HashOf(hasher, h.name), h, tail, inserted);
    forall r | 0 <= r < |pushed| ensures LinkOk(pushed, r, WrappingAdd(inserted, 1), hasher) {
      if r > 0 {
        TailNewest(s, tail, h.name, r - 1);
        assert LinkOk(slots, r - 1, inserted, hasher);
        LinkPushes(slots, inserted, hasher, h, tail, r - 1);
      } else {
        LinkFirst(slots, inserted, hasher, h, tail);
      }
    }
  }

  lemma LinkFirst(slots: seq<Slot>, inserted: nat, hasher: Bytes -> nat, h: Header, tail: Tail)
    requires inserted < WORD && |slots| + 2 < WORD
    ensures LinkOk(Push(slots, HashOf(hasher, h.name), h, tail, inserted), 0, WrappingAdd(inserted, 1), hasher)
  {
  }

  lemma LinkPushes(slots: seq<Slot>, inserted: nat, hasher: Bytes -> nat, h: Header, tail: Tail, r: nat)
    requires inserted < WORD && |slots| + 2 < WORD && r < |slots| && LinkOk(slots, r, inserted, hasher)
    requires var s := Entries(slots);
             (tail.Some? && tail.value.0 == r) <==> (s[r].name == h.name && Newer(s, s[r].name, r).None?)
    ensures LinkOk(Push(slots, HashOf(hasher, h.name), h, tail, inserted), r + 1, WrappingAdd(inserted, 1), hasher)
  {
    hide Newer, Push, Virtual, HashOf;
    var name := slots[r].header.name;
    PushAt(slots, HashOf(hasher, h.name), h, tail, inserted, r);
    NewerPushes(h, Entries(slots), name, r);
    LinkMoves(Newer(Entries(slots), name, r), h.name == name, tail.Some? && tail.value.0 == r, inserted);
  }

  /** The link of an entry once a new one is in front: unchanged, or to the new entry. */
  lemma LinkMoves(m: Option<nat>, same: bool, atTail: bool, inserted: nat)
    requires inserted < WORD && (m.Some? ==> m.value + 1 < WORD)
    requires atTail <==> same && m.None?
    ensures (if atTail then Some(Virtual(0, WrappingAdd(inserted, 1))) else LinkTo(m, inserted)) ==
            LinkTo(if m.Some? then Some(m.value + 1) else if same then Some(0) else None, WrappingAdd(inserted, 1))
  {
    if m.Some? {
      VirtualKept(m.value, inserted);
    }
  }

  /** The tail is the newest entry of its name. */
  lemma TailNewest(s: seq<Header>, tail: Tail, name: Bytes, r: nat)
    requires TailFor(s, tail, name) && r < |s|
    ensures (tail.Some? && tail.value.0 == r) <==> (s[r].name == name && Newer(s, s[r].name, r).None?)
  {
    if s[r].name == name && Newer(s, name, r).None? {
      assert Present(s, name);
      SameNewest(s, name, r, tail.value.0);
    }
  }

  lemma PushAt(slots: seq<Slot>, hash: nat, h: Header, tail: Tail, inserted: nat, r: nat)
    requires inserted < WORD && r < |slots|
    ensures Push(slots, hash, h, tail, inserted)[r + 1] ==
            if tail.Some? && tail.value.0 == r then slots[r].(next := Some(Virtual(0, WrappingAdd(inserted, 1))))
            else slots[r]
  {
  }

  lemma SameNewest(s: seq<Header>, name: Bytes, r: nat, t: nat)
    requires r < |s| && t < |s| && s[r].name == name && s[t].name == name
    requires Newer(s, name, r).None? && Newer(s, name, t).None?
    ensures r == t
  {
  }

  lemma OldestPushes(h: Header, s: seq<Header>)
    ensures forall r :: 0 <= r < |s| ==> (Oldest([h] + s, r + 1) <==> Oldest(s, r))
    ensures Oldest([h] + s, 0) <==> !Present(s, h.name)
  {
    var t := [h] + s;
    forall r | 0 <= r < |s| ensures Oldest(t, r + 1) <==> Oldest(s, r) {
      assert forall j :: r < j < |s| ==> t[j + 1] == s[j];
      assert forall j :: r + 1 < j < |t| ==> t[j] == s[j - 1];
    }
    assert forall j :: 0 <= j < |s| ==> t[j + 1] == s[j];
    assert forall j :: 0 < j < |t| ==> t[j] == s[j - 1];
  }

  /** Adding an entry leaves the array as it is, unless the name is new. */
  lemma WantedPushes(h: Header, s: seq<Header>, inserted: nat, hasher: Bytes -> nat, tail: Tail, y: Pos)
    requires |s| + 2 < WORD && inserted < WORD && TailFor(s, tail, h.name)
    ensures Wanted([h] + s, WrappingAdd(inserted, 1), hasher, None, y) <==>
            || Wanted(s, inserted, hasher, tail, y)
            || (tail.None? && y == PosOf([h] + s, 0, WrappingAdd(inserted, 1), hasher))
  {
    WantedPushesOnly(h, s, inserted, hasher, tail, y);
    WantedPushesBack(h, s, inserted, hasher, tail, y);
  }

  lemma WantedPushesOnly(h: Header, s: seq<Header>, inserted: nat, hasher: Bytes -> nat, tail: Tail, y: Pos)
    requires |s| + 2 < WORD && inserted < WORD && TailFor(s, tail, h.name)
    ensures Wanted([h] + s, WrappingAdd(inserted, 1), hasher, None, y) ==>
            || Wanted(s, inserted, hasher, tail, y)
            || (tail.None? && y == PosOf([h] + s, 0, WrappingAdd(inserted, 1), hasher))
  {
    var t, ins := [h] + s, WrappingAdd(inserted, 1);
    OldestPushes(h, s);
    VirtualKept(0, inserted);
    if r :| 0 <= r < |t| && Oldest(t, r) && y == PosOf(t, r, ins, hasher) {
      if r > 0 {
        VirtualKept(r - 1, inserted);
        assert Oldest(s, r - 1) && y == PosOf(s, r - 1, inserted, hasher);
      } else {
        assert tail.Some? ==> Pending(s, tail) && y == PendingPos(tail, inserted, hasher);
      }
    }
  }

  lemma WantedPushesBack(h: Header, s: seq<Header>, inserted: nat, hasher: Bytes -> nat, tail: Tail, y: Pos)
    requires |s| + 2 < WORD && inserted < WORD && TailFor(s, tail, h.name)
    ensures Wanted(s, inserted, hasher, tail, y)
            || (tail.None? && y == PosOf([h] + s, 0, WrappingAdd(inserted, 1), hasher))
            ==> Wanted([h] + s, WrappingAdd(inserted, 1), hasher, None, y)
  {
    var t, ins := [h] + s, WrappingAdd(inserted, 1);
    OldestPushes(h, s);
    VirtualKept(0, inserted);
    if r :| 0 <= r < |s| && Oldest(s, r) && y == PosOf(s, r, inserted, hasher) {
      VirtualKept(r, inserted);
      assert Oldest(t, r + 1) && y == PosOf(t, r + 1, ins, hasher);
    } else if Pending(s, tail) || tail.None? {
      assert Oldest(t, 0);
      assert Pending(s, tail) ==> PendingPos(tail, inserted, hasher) == PosOf(t, 0, ins, hasher);
    }
  }

  // ----- The array always has room

  lemma {:induction false} DistinctValues(ix: Indices, n: nat)
    requires NoDuplicates(ix) && n <= |ix| && forall p :: 0 <= p < |ix| ==> ix[p].Some?
    ensures |set p | 0 <= p < n :: ix[p]| == n
  {
    if n > 0 {
      DistinctValues(ix, n - 1);
      assert (set p | 0 <= p < n :: ix[p]) == (set p | 0 <= p < n - 1 :: ix[p]) + {ix[n - 1]};
    }
  }

  lemma {:induction false} EntryValues(s: seq<Header>, inserted: nat, hasher: Bytes -> nat, n: nat)
    requires |s| < WORD && inserted < WORD && n <= |s|
    ensures |set r | 0 <= r < n :: Some(PosOf(s, r, inserted, hasher))| <= n
  {
    if n > 0 {
      EntryValues(s, inserted, hasher, n - 1);
      assert (set r | 0 <= r < n :: Some(PosOf(s, r, inserted, hasher)))
             == (set r | 0 <= r < n - 1 :: Some(PosOf(s, r, inserted, hasher))) + {Some(PosOf(s, n - 1, inserted, hasher))};
    }
  }

  /** Fewer entries than positions: some position is free. */
  lemma GapExists(ix: Indices, s: seq<Header>, inserted: nat, hasher: Bytes -> nat, tail: Tail)
    requires Held(ix, s, inserted, hasher, tail) && |s| + 1 < |ix|
    ensures HasGap(ix)
  {
    if forall p :: 0 <= p < |ix| ==> ix[p].Some? {
      var have := set p | 0 <= p < |ix| :: ix[p];
      var may := (set r | 0 <= r < |s| :: Some(PosOf(s, r, inserted, hasher)))
                 + if tail.Some? then {Some(PendingPos(tail, inserted, hasher))} else {};
      DistinctValues(ix, |ix|);
      EntryValues(s, inserted, hasher, |s|);
      forall p | 0 <= p < |ix| ensures ix[p] in may {
        assert Some(ix[p].value) in ix;
        assert Wanted(s, inserted, hasher, tail, ix[p].value);
      }
      SubsetCount(have, may);
    }
  }
}
