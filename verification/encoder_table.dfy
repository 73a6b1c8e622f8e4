/** The encoder's dynamic table, src/hpack/table.rs. */
module EncoderTable {
  import opened Bits
  import opened Wrappers
  import opened Headers
  import opened DynamicTable
  import opened RobinHood
  import opened RobinHoodGrowth
  import opened RobinHoodSteps
  import opened TableState

  const MIN_CAPACITY: nat := 8

  function UsableCapacity(cap: nat): nat {
    cap - cap / 4
  }

  function ToRawCapacity(n: nat): nat {
    n + n / 3
  }

  function NextPowerOfTwo(n: nat): (p: nat)
    ensures PowerOfTwo(p) && n <= p && (n > 0 ==> p < 2 * n)
  {
    if n <= 1 then 1
    else
      var p := NextPowerOfTwo((n + 1) / 2);
      assert 2 * p / 2 == p;
      2 * p
  }

  /** What `evict` is told about the entry that the new one will be chained to. */
  function PrevIndex(tail: Tail, inserted: nat): Option<nat>
    requires inserted < WORD && (tail.Some? ==> tail.value.0 < WORD)
  {
    if tail.Some? then Some(Virtual(tail.value.0, inserted)) else None
  }

  class Table {
    /** An arbitrary hash of names. */
    const hasher: Bytes -> nat
    var mask: nat
    var indices: Indices
    var slots: seq<Slot>
    var inserted: nat
    var size: nat
    var max_size: nat

    /** The entries, newest first. */
    ghost function View(): seq<Header>
      reads this
    {
      Entries(slots)
    }

    ghost predicate Storage()
      reads this
    {
      && max_size < WORD
      && |slots| <= UsableCapacity(|indices|)
      && (indices == [] || (PowerOfTwo(|indices|) && MIN_CAPACITY <= |indices| < WORD && mask + 1 == |indices|))
    }

    /** Everything fits together while `extra` octets are being made room for. */
    ghost predicate State(extra: nat, tail: Tail)
      reads this
    {
      && Storage()
      && Linked(slots, inserted, hasher)
      && TailOk(View(), tail)
      && Held(indices, View(), inserted, hasher, tail)
      && size == Size(View()) + extra
    }

    ghost predicate Valid()
      reads this
    {
      State(0, None) && Sound(View(), max_size)
    }

    constructor (max_size: nat, capacity: nat, hasher: Bytes -> nat)
      requires max_size < WORD && 4 * capacity < WORD
      ensures Valid() && View() == [] && this.max_size == max_size && this.hasher == hasher
    {
      this.hasher := hasher;
      this.max_size := max_size;
      slots, inserted, size := [], 0, 0;
      if capacity == 0 {
        mask, indices := 0, [];
      } else {
        var raw := NextPowerOfTwo(ToRawCapacity(capacity));
        assert raw < WORD && PowerOfTwo(MIN_CAPACITY);
        var cap := if raw > MIN_CAPACITY then raw else MIN_CAPACITY;
        mask, indices := cap - 1, seq(cap, _ => None);
      }
    }

    // ----- Dropping entries

    /** Probes for an entry that is known to be there. */
    method FindPosition(hash: nat, pos_idx: nat, ghost target: nat) returns (probe: nat)
      requires 0 < |indices| < WORD && PowerOfTwo(|indices|) && mask + 1 == |indices|
      requires Ordered(indices)
      requires target < |indices| && indices[target] == Some(Pos(pos_idx, hash))
      requires forall p :: 0 <= p < |indices| && indices[p].Some? && indices[p].value.index == pos_idx ==> p == target
      ensures probe == target
    {
      probe := And(hash, mask);
      ghost var home := Desired(hash, |indices|);
      ghost var dist := 0;
      while true
        invariant dist <= Dist(indices, target) && probe <= |indices|
        invariant (if probe == |indices| then 0 else probe) == Ahead(home, dist, |indices|)
        decreases Dist(indices, target) - dist, if probe == |indices| then 1 else 0
      {
        if probe < |indices| {
          ChainBack(indices, target, dist);
          if indices[probe].value.index == pos_idx {
            return;
          }
          AheadOff(home, target, |indices|);
          probe := probe + 1;
          dist := dist + 1;
        } else {
          probe := 0;
        }
      }
    }

    /** Closes the hole left by a removed entry. */
    method RemovePhaseTwo(hole: nat, ghost before: Indices) returns (ghost k: nat)
      requires 0 < |indices| < WORD && PowerOfTwo(|indices|) && mask + 1 == |indices|
      requires Ordered(before) && HasGap(before) && hole < |before| && before[hole].Some?
      requires indices == before[hole := None]
      modifies this`indices
      ensures Pulled(before, indices, hole, k)
    {
      hide Ordered, HasGap, PowerOfTwo, Pulling, Pulled, Off, Dist, Desired, And, ProbeDistance, Ahead;
      var last := hole;
      var probe := hole + 1;
      k := 0;
      PullStart(before, indices, hole);
      while true
        invariant |indices| == |before| && mask + 1 == |before| && k < |before|
        invariant Pulling(before, indices, hole, k) && last == Ahead(hole, k, |before|)
        invariant probe <= |before| && (if probe == |before| then 0 else probe) == Succ(last, |before|)
        decreases |before| - k, if probe == |before| then 1 else 0
      {
        PullingRoom(before, indices, hole, k);
        AheadSucc(hole, k, |before|);
        if probe < |indices| {
          PullNext(before, indices, hole, k);
          PullDone(before, indices, hole, k);
          if indices[probe].None? {
            return;
          }
          ProbeDistanceIs(mask, indices[probe].value.hash, probe);
          BackDistance(before, probe, mask);
          if ProbeDistance(mask, indices[probe].value.hash, probe) == 0 {
            return;
          }
          PullOne(before, indices, hole, k);
          indices := indices[last := indices[probe]][probe := None];
          last := probe;
          k := k + 1;
          probe := probe + 1;
        } else {
          probe := 0;
        }
      }
    }

    /** Drops the oldest entry. */
    method Evict(prev_idx: Option<nat>, ghost extra: nat, ghost tail: Tail)
      requires State(extra, tail) && slots != [] && prev_idx == PrevIndex(tail, inserted)
      modifies this`indices, this`slots, this`size
      ensures State(extra, tail) && View() == old(View())[..|old(View())| - 1]
      ensures Nearer(old(indices), indices)
    {
      hide Held, Linked, Ordered, HasGap, PowerOfTwo, Pulled, Nearer, TailOk, Newer, Successor, PosOf, LinkOk, Off, Dist,
        Virtual, WrappingSub, WrappingAdd, PrevIndex, UsableCapacity, Size, And, Desired, Sound;
      ghost var s, before := View(), indices;
      EvictBounds(indices, slots, inserted, hasher);
      var n := |slots| - 1;
      var pos_idx := WrappingSub(n, inserted);
      var slot := slots[n];
      ghost var target := EvictFacts(indices, slots, inserted, hasher, tail);
      var probe := FindPosition(slot.hash, pos_idx, target);
      EvictLinks(slots, inserted, hasher, tail);
      EvictSlots(slots, inserted, hasher, tail);
      slots := slots[..n];
      size := size - Len(slot.header);
      if slot.next.Some? {
        HeldRepoints(before, s, inserted, hasher, tail, target);
        indices := indices[probe := Some(Pos(slot.next.value, slot.hash))];
      } else if Some(pos_idx) == prev_idx {
        HeldRepoints(before, s, inserted, hasher, tail, target);
        indices := indices[probe := Some(Pos(WrappingSub(0, WrappingAdd(inserted, 1)), slot.hash))];
      } else {
        indices := indices[probe := None];
        ghost var k := RemovePhaseTwo(probe, before);
        HeldPulls(before, indices, k, s, inserted, hasher, tail, target);
      }
    }

    /** Evicts until the entries and what is to be added fit. */
    method Converge(prev_idx: Option<nat>, ghost extra: nat, ghost tail: Tail) returns (ret: bool)
      requires State(extra, tail) && prev_idx == PrevIndex(tail, inserted) && extra <= max_size
      modifies this`indices, this`slots, this`size
      ensures State(extra, tail) && View() == EvictTo(old(View()), max_size - extra) && size <= max_size
      ensures Nearer(old(indices), indices) && (!ret ==> indices == old(indices))
    {
      hide Held, Linked, Ordered, NoDuplicates, HasGap, PowerOfTwo, Nearer, TailOk, Sound, PrevIndex, And, Desired, Dist,
        UsableCapacity, WrappingSub, WrappingAdd, Virtual;
      ret := false;
      NearerSelf(indices);
      while size > max_size
        invariant State(extra, tail)
        invariant EvictTo(View(), max_size - extra) == EvictTo(old(View()), max_size - extra)
        invariant Nearer(old(indices), indices) && (!ret ==> indices == old(indices))
        decreases |slots|
      {
        ret := true;
        ghost var before := indices;
        Evict(prev_idx, extra, tail);
        NearerTrans(old(indices), before, indices);
      }
    }

    method UpdateSize(len: nat, prev_idx: Option<nat>, ghost tail: Tail) returns (ret: bool)
      requires State(0, tail) && prev_idx == PrevIndex(tail, inserted) && len <= max_size
      modifies this`indices, this`slots, this`size
      ensures State(len, tail) && View() == EvictTo(old(View()), max_size - len) && size <= max_size
      ensures Nearer(old(indices), indices) && (!ret ==> indices == old(indices))
    {
      hide Held, Linked, Ordered, NoDuplicates, HasGap, PowerOfTwo, Nearer, TailOk, Sound, PrevIndex, And, Desired, Dist,
        UsableCapacity;
      size := size + len;
      ret := Converge(prev_idx, len, tail);
    }

    /** Changes the largest size, dropping what no longer fits. */
    method Resize(size: nat)
      requires Valid() && size < WORD
      modifies this`max_size, this`size, this`indices, this`slots, this`inserted
      ensures Valid() && max_size == size && View() == EvictTo(old(View()), size)
    {
      hide Linked, Ordered, NoDuplicates, HasGap, PowerOfTwo, Nearer, TailOk, Sound, And, Desired, Dist, UsableCapacity;
      ResizeKeepsSound(View(), max_size, size);
      max_size := size;
      if size == 0 {
        EvictAll(View());
        this.size := 0;
        indices := seq(|indices|, _ => None);
        slots := [];
        inserted := 0;
        NoneHeld(indices, slots, inserted, hasher);
      } else {
        hide Held;
        var _ := Converge(None, 0, None);
      }
    }

    // ----- Growing the array

    /** Linear probing for the next entry of the old array `ix`, taken in ring order from `f`. */
    method ReinsertEntryInOrder(pos: Option<Pos>, ghost ix: Indices, ghost f: nat, ghost k: nat,
                                ghost a: nat, ghost lastA: nat, ghost b: nat, ghost lastB: nat)
      returns (ghost a1: nat, ghost lastA1: nat, ghost b1: nat, ghost lastB1: nat)
      requires Regrown(ix, f, k, indices, a, lastA, b, lastB) && Taken(ix, f, k, indices)
      requires k < |ix| && pos == Nth(ix, f, k) && NoDuplicates(ix)
      requires 2 * |ix| < WORD && mask + 1 == 2 * |ix|
      modifies this`indices
      ensures Regrown(ix, f, k + 1, indices, a1, lastA1, b1, lastB1) && Taken(ix, f, k + 1, indices)
    {
      hide *;
      RegrownShape(ix, f, k, indices, a, lastA, b, lastB);
      a1, lastA1, b1, lastB1 := a, lastA, b, lastB;
      if pos.Some? {
        ghost var g := indices;
        ghost var base, home, e;
        base, home, e, a1, lastA1, b1, lastB1 := FreeRun(ix, f, k, g, a, lastA, b, lastB, mask);
        var probe := And(pos.value.hash, mask);
        ghost var o := home;
        while true
          invariant indices == g && home <= o <= e && probe <= |g|
          invariant (if probe == |g| then 0 else probe) == RobinHoodGrowth.At(f, base, o, |ix|)
          decreases e - o, if probe == |g| then 1 else 0
        {
          if probe < |indices| {
            FreeRunAt(g, f, base, |ix|, home, e, o);
            if indices[probe].None? {
              TakenOne(ix, f, k, g, probe);
              indices := indices[probe := pos];
              return;
            }
            AtSucc(f, base, o, |ix|);
            probe := probe + 1;
            o := o + 1;
          } else {
            probe := 0;
          }
        }
      } else {
        RegrownSkips(ix, f, k, indices, a, lastA, b, lastB);
        TakenNone(ix, f, k, indices);
      }
    }

    /** Doubles the array. */
    method Grow(new_raw_cap: nat)
      requires State(0, None) && slots != [] && new_raw_cap == 2 * |indices| < WORD
      modifies this`indices, this`mask
      ensures State(0, None) && |indices| == new_raw_cap
    {
      hide Linked, Held, HasGap, Ordered, NoDuplicates, PowerOfTwo, TailOk, And, Regrown, Taken, Ideal, Nth, Dist;
      ghost var ideal := IdealEntry(indices, slots, inserted, hasher);
      var first_ideal: nat := 0;
      var i: nat := 0;
      while i < |indices|
        invariant i <= |indices|
        invariant first_ideal == 0 && forall p :: 0 <= p < i ==> !Ideal(indices, p)
        modifies {}
      {
        if indices[i].Some? {
          IdealIs(mask, indices, i);
          if ProbeDistance(mask, indices[i].value.hash, i) == 0 {
            first_ideal := i;
            break;
          }
        }
        IdealNone(indices, i);
        i := i + 1;
      }
      assert Ideal(indices, first_ideal);
      var old_indices := indices;
      ghost var f := first_ideal;
      HeldShape(old_indices, View(), inserted, hasher);
      mask, indices := new_raw_cap - 1, seq(new_raw_cap, _ => None);
      ghost var a, lastA, b, lastB := 0, 0, 0, 0;
      RegrownStarts(old_indices, f);
      TakenStarts(old_indices, f);
      i := first_ideal;
      while i < |old_indices|
        invariant first_ideal <= i <= |old_indices| && f < |old_indices|
        invariant mask + 1 == |indices| == new_raw_cap
        invariant Regrown(old_indices, f, i - f, indices, a, lastA, b, lastB) && Taken(old_indices, f, i - f, indices)
      {
        NthIs(old_indices, f, i);
        a, lastA, b, lastB := ReinsertEntryInOrder(old_indices[i], old_indices, f, i - f, a, lastA, b, lastB);
        RegrownLength(old_indices, f, i + 1 - f, indices, a, lastA, b, lastB);
        i := i + 1;
      }
      i := 0;
      while i < first_ideal
        invariant i <= first_ideal && f < |old_indices|
        invariant mask + 1 == |indices| == new_raw_cap
        invariant Regrown(old_indices, f, |old_indices| - f + i, indices, a, lastA, b, lastB)
        invariant Taken(old_indices, f, |old_indices| - f + i, indices)
      {
        NthIs(old_indices, f, i);
        a, lastA, b, lastB := ReinsertEntryInOrder(old_indices[i], old_indices, f, |old_indices| - f + i,
                                                   a, lastA, b, lastB);
        RegrownLength(old_indices, f, |old_indices| - f + i + 1, indices, a, lastA, b, lastB);
        i := i + 1;
      }
      TakenAll(old_indices, f, indices, a, lastA, b, lastB, View(), inserted, hasher);
    }

    /** Makes sure that one more entry can be indexed. */
    method ReserveOne()
      requires Valid()
      modifies this`indices, this`mask
      ensures Valid() && |slots| < UsableCapacity(|indices|)
    {
      hide Linked, Held, HasGap, Ordered, NoDuplicates, TailOk, Sound;
      var len := |slots|;
      if len == UsableCapacity(|indices|) {
        SlotsBound(slots, max_size, |indices|);
        if len == 0 {
          mask := 8 - 1;
          indices := seq(8, _ => None);
          LinkedBounds(slots, inserted, hasher);
          NoneHeld(indices, slots, inserted, hasher);
        } else {
          Grow(2 * |indices|);
        }
      }
    }

    // ----- Adding entries

    method Insert(header: Header, hash: nat)
      requires inserted < WORD
      modifies this`inserted, this`slots
      ensures inserted == WrappingAdd(old(inserted), 1) && slots == [Slot(hash, header, None)] + old(slots)
    {
      inserted := WrappingAdd(inserted, 1);
      slots := [Slot(hash, header, None)] + slots;
    }

    /** Adds an entry at the end of the chain that now ends at entry `r`. */
    method InsertLinked(header: Header, hash: nat, index: nat, ghost r: nat)
      requires Valid() && |slots| < UsableCapacity(|indices|) && Len(header) <= max_size
      requires hash == HashOf(hasher, header.name)
      requires r < |slots| && index == Virtual(r, inserted)
      requires View()[r].name == header.name && Newer(View(), header.name, r).None?
      requires !IsSensitive(header) && FindField(View(), header, 0).None?
      modifies this`indices, this`slots, this`size, this`inserted
      ensures Valid() && View() == DynamicTable.Insert(old(View()), max_size, header)
    {
      hide Held, Linked, NoDuplicates, Ordered, HasGap, PowerOfTwo, Nearer, TailOk, Sound, TailFor, Push, Newer, FindField,
        And, Desired, Dist, UsableCapacity, WrappingSub, WrappingAdd, Virtual, EvictTo, DynamicTable.Insert, HashOf, Size,
        Entries, IsSensitive, Len, LinkOk, Present, PrevIndex;
      ghost var tail: Tail := Some((r, header.name));
      ghost var s, ins := View(), inserted;
      BoundsOf(indices, slots, inserted, hasher);
      TailStarts(indices, s, inserted, hasher, r);
      var _ := UpdateSize(Len(header), Some(index), tail);
      NearerLength(old(indices), indices);
      ghost var kept := slots;
      Insert(header, hash);
      var new_real_idx := WrappingAdd(index, inserted);
      ChainEnd(kept, hash, header, tail, ins, index);
      if new_real_idx < |slots| {
        slots := slots[new_real_idx := slots[new_real_idx].(next := Some(WrappingSub(0, inserted)))];
      }
      Linking(indices, kept, ins, hasher, header, tail);
      Inserting(s, max_size, header, Entries(kept));
    }

    /** Searches the chain that starts at the oldest entry of the header's name. */
    method IndexOccupied(header: Header, hash: nat, start: nat, statik: Option<nat>, ghost r0: nat) returns (res: Index)
      requires Valid() && (IsSensitive(header) || |slots| < UsableCapacity(|indices|)) && Len(header) <= max_size
      requires hash == HashOf(hasher, header.name)
      requires r0 < |slots| && start == Virtual(r0, inserted) && Oldest(View(), r0) && View()[r0].name == header.name
      requires statik == StaticName(header)
      modifies this`indices, this`slots, this`size, this`inserted
      ensures Valid() && (res, View()) == DynamicTable.IndexDynamic(old(View()), max_size, header)
    {
      hide Held, NoDuplicates, Ordered, HasGap, PowerOfTwo, TailOk, Sound, Newer, FindField, FindName, Linked, LinkOk,
        And, Desired, Dist, UsableCapacity, WrappingSub, WrappingAdd, Virtual, DynamicTable.Insert, HashOf, Size,
        DynamicTable.IndexDynamic, StaticName, SameField, IsSensitive, Oldest;
      var index := start;
      ghost var r: nat, s := r0, View();
      LinkedBounds(slots, inserted, hasher);
      ChainStarts(s, r0, header);
      while true
        invariant unchanged(this) && r < |slots| < WORD && inserted < WORD
        invariant index == Virtual(r, inserted) && OlderDiffer(s, r, header)
        decreases r
      {
        RealIndex(r, inserted, |slots|);
        var real_idx := WrappingAdd(index, inserted);
        if ValueEq(slots[real_idx].header, header) {
          FoundField(s, max_size, header, r);
          return Indexed(real_idx + DYN_OFFSET, header);
        }
        ChainNext(slots, inserted, hasher, r, header);
        if slots[real_idx].next.Some? {
          index := slots[real_idx].next.value;
          r := Newer(s, header.name, r).value;
          continue;
        }
        FoundName(s, max_size, header, r);
        if IsSensitive(header) {
          return Name(real_idx + DYN_OFFSET, header);
        }
        InsertLinked(header, hash, index, r);
        return InsertedValue(if statik.Some? then statik.value else real_idx + DYN_OFFSET, 0);
      }
    }

    /** Puts `x` at `probe` and moves the entries from there to the next gap on by one. */
    method Place(probe: nat, x: Pos, ghost before: Indices) returns (ghost k: nat)
      requires indices == before && HasGap(before) && probe < |indices|
      modifies this`indices
      ensures Pushed(before, indices, probe, k, x)
    {
      hide Pushing, Pushed, HasGap;
      var taken := indices[probe];
      indices := indices[probe := Some(x)];
      k := 0;
      PushStart(before, probe, x);
      PushingLength(before, indices, probe, k, x);
      if taken.None? {
        PushDone(before, indices, probe, k, x);
        return;
      }
      var prev := taken.value;
      var at := probe + 1;
      while true
        invariant Pushing(before, indices, probe, k, x) && |indices| == |before| && k < |before|
        invariant before[Ahead(probe, k, |before|)] == Some(prev)
        invariant at <= |before| && (if at == |before| then 0 else at) == Succ(Ahead(probe, k, |before|), |before|)
        decreases |before| - k, if at == |before| then 1 else 0
      {
        PushRoom(before, indices, probe, k, x);
        PushOne(before, indices, probe, k, x);
        if at < |indices| {
          var pos := indices[at];
          indices := indices[at := Some(prev)];
          k := k + 1;
          if pos.None? {
            PushDone(before, indices, probe, k, x);
            return;
          }
          prev := pos.value;
          at := at + 1;
        } else {
          at := 0;
        }
      }
    }

    /** Inserts a header whose name has no entry. */
    method IndexVacant(header: Header, hash: nat, dist: nat, probe: nat, statik: Option<(nat, bool)>)
      returns (res: Index)
      requires Valid() && (IsSensitive(header) || |slots| < UsableCapacity(|indices|)) && Len(header) <= max_size
      requires hash == HashOf(hasher, header.name) && statik == IndexStatic(header)
      requires !Present(View(), header.name)
      requires indices != [] && Passed(indices, hash, dist) && Stops(indices, hash, dist, probe)
      modifies this`indices, this`slots, this`size, this`inserted
      ensures Valid() && (res, View()) == DynamicTable.IndexDynamic(old(View()), max_size, header)
    {
      hide Held, NoDuplicates, Ordered, HasGap, PowerOfTwo, TailOk, Sound, Newer, FindField, FindName, Linked,
        And, Desired, UsableCapacity, WrappingSub, WrappingAdd, Virtual, DynamicTable.Insert, HashOf, Size, Off, Dist,
        DynamicTable.IndexDynamic, IsSensitive, Oldest, IndexStatic, Passed, Nearer, Pushed, EvictTo, Len, Present, PrevIndex, Stops,
        MayStop, Entries, NewIndex;
      ghost var s, ins, before := View(), inserted, indices;
      VacantSpec(s, max_size, header);
      if IsSensitive(header) {
        return NewIndex(statik, header);
      }
      BoundsOf(indices, slots, inserted, hasher);
      NoTail(s, inserted, header.name);
      StopsAt(indices, hash, dist, probe);
      var dist: nat, probe: nat := dist, probe;
      var evicted := UpdateSize(Len(header), None, None);
      NearerLength(before, indices);
      assert View() == s[..|View()|];
      StopsStill(before, indices, hash, dist, probe);
      if evicted {
        while dist != 0
          invariant Stops(indices, hash, dist, probe) && probe < |indices| && dist < |indices|
          modifies {}
        {
          var back := And(WrappingSub(probe, 1), mask);
          StepBack(indices, hash, dist, probe, mask);
          if indices[back].Some? {
            ProbeDistanceIs(mask, indices[back].value.hash, back);
            BackDistance(indices, back, mask);
            if ProbeDistance(mask, indices[back].value.hash, back) < dist - 1 {
              probe := back;
              dist := dist - 1;
            } else {
              break;
            }
          } else {
            probe := back;
            dist := dist - 1;
          }
        }
        HomeMayStop(indices, dist, probe);
      } else {
        PassedMayStop(indices, hash, dist, probe);
      }
      ghost var kept := slots;
      GapIn(indices, kept, inserted, hasher);
      Insert(header, hash);
      var pos_idx := WrappingSub(0, inserted);
      ghost var mid := indices;
      ghost var k := Place(probe, Pos(pos_idx, hash), mid);
      Vacating(mid, indices, kept, ins, hasher, header, dist, probe, k);
      Inserting(s, max_size, header, Entries(kept));
      res := if statik.Some? then InsertedValue(statik.value.0, 0) else Inserted(0);
    }

    // ----- Indexing

    /** Looks the name up by robin-hood probing. */
    method IndexDynamic(header: Header, statik: Option<(nat, bool)>) returns (res: Index)
      requires Valid() && statik == IndexStatic(header) && Len(header) <= max_size
      modifies this`mask, this`indices, this`slots, this`size, this`inserted
      ensures Valid() && (res, View()) == DynamicTable.IndexDynamic(old(View()), max_size, header)
    {
      hide Held, NoDuplicates, Ordered, HasGap, PowerOfTwo, TailOk, Sound, Newer, FindField, FindName, Linked,
        And, Desired, UsableCapacity, WrappingSub, WrappingAdd, Virtual, DynamicTable.Insert, HashOf, Size, Off, Dist,
        DynamicTable.IndexDynamic, IsSensitive, Oldest, IndexStatic, Passed, Len, Present, Stops, NewIndex,
        ProbeDistance, Entries, Differs, NoMatch, Ahead;
      ghost var s := View();
      if Len(header) + size < max_size || !IsSensitive(header) {
        ReserveOne();
      }
      if indices == [] {
        UsableNone();
        EmptySpec(slots, max_size, header);
        return NewIndex(statik, header);
      }
      label Reserved:
      var hash := HashOf(hasher, header.name);
      var probe := And(hash, mask);
      var dist: nat := 0;
      GapHere(indices, slots, inserted, hasher);
      LinkedBounds(slots, inserted, hasher);
      ProbeStarts(indices, slots, inserted, hash, header.name, mask);
      while true
        invariant unchanged@Reserved(this)
        invariant probe <= |indices| && dist < |indices|
        invariant (if probe == |indices| then 0 else probe) == Ahead(Desired(hash, |indices|), dist, |indices|)
        invariant Passed(indices, hash, dist) && NoMatch(indices, slots, inserted, hash, header.name, dist)
        decreases |indices| - dist, if probe == |indices| then 1 else 0
      {
        if probe < |indices| {
          if indices[probe].None? {
            ProbeFails(indices, slots, inserted, hasher, hash, header.name, dist, probe);
            res := IndexVacant(header, hash, dist, probe, statik);
            return;
          }
          var pos := indices[probe].value;
          ProbeDistanceIs(mask, pos.hash, probe);
          BackDistance(indices, probe, mask);
          ghost var r := SlotOf(indices, slots, inserted, hasher, probe);
          var slot_idx := WrappingAdd(pos.index, inserted);
          if ProbeDistance(mask, pos.hash, probe) < dist {
            ProbeFails(indices, slots, inserted, hasher, hash, header.name, dist, probe);
            res := IndexVacant(header, hash, dist, probe, statik);
            return;
          }
          if pos.hash == hash && slots[slot_idx].header.name == header.name {
            res := IndexOccupied(header, hash, pos.index, if statik.Some? then Some(statik.value.0) else None, r);
            return;
          }
          ProbeNext(indices, slots, inserted, hash, header.name, dist, probe);
          probe := probe + 1;
          dist := dist + 1;
        } else {
          probe := 0;
        }
      }
    }

    /** Picks the reference to a header, adding an entry for it where that is worth while. */
    method Index(header: Header) returns (res: Index)
      requires Valid()
      modifies this`mask, this`indices, this`slots, this`size, this`inserted
      ensures Valid() && (res, View()) == IndexHeader(old(View()), max_size, header)
    {
      hide IndexStatic, SkipValueIndex, Valid, DynamicTable.IndexDynamic, Len;
      var statik := IndexStatic(header);
      if SkipValueIndex(header) {
        return NewIndex(statik, header);
      }
      if statik.Some? && statik.value.1 {
        return Indexed(statik.value.0, header);
      }
      if Len(header) * 4 > max_size * 3 {
        return NewIndex(statik, header);
      }
      res := IndexDynamic(header, statik);
    }
  }

  lemma PullStart(ix: Indices, ix1: Indices, hole: nat)
    requires hole < |ix| && ix[hole].Some? && ix1 == ix[hole := None]
    ensures Pulling(ix, ix1, hole, 0) && Ahead(hole, 0, |ix|) == hole
  {
  }

  lemma PullNext(ix: Indices, ix1: Indices, hole: nat, k: nat)
    requires Pulling(ix, ix1, hole, k) && k + 1 < |ix|
    ensures |ix1| == |ix| && ix1[Ahead(hole, k + 1, |ix|)] == ix[Ahead(hole, k + 1, |ix|)]
  {
  }

  lemma PullDone(ix: Indices, ix1: Indices, hole: nat, k: nat)
    requires Pulling(ix, ix1, hole, k) && k + 1 < |ix|
    ensures var q := Ahead(hole, k + 1, |ix|); ix[q].None? || Dist(ix, q) == 0 ==> Pulled(ix, ix1, hole, k)
  {
  }

  lemma EvictBounds(ix: Indices, slots: seq<Slot>, inserted: nat, hasher: Bytes -> nat)
    requires slots != [] && Linked(slots, inserted, hasher) && |slots| <= UsableCapacity(|ix|)
    ensures ix != [] && inserted < WORD && |slots| < WORD
  {
  }

  /** Where `evict` finds the oldest entry. */
  lemma EvictFacts(ix: Indices, slots: seq<Slot>, inserted: nat, hasher: Bytes -> nat, tail: Tail) returns (target: nat)
    requires slots != [] && Linked(slots, inserted, hasher) && TailOk(Entries(slots), tail)
    requires Held(ix, Entries(slots), inserted, hasher, tail) && |slots| <= UsableCapacity(|ix|) && 8 <= |ix|
    ensures var n := |slots| - 1;
            && target < |ix| && ix[target] == Some(Pos(WrappingSub(n, inserted), slots[n].hash))
            && ix[target] == Some(PosOf(Entries(slots), n, inserted, hasher))
            && (forall p :: 0 <= p < |ix| && ix[p].Some? && ix[p].value.index == WrappingSub(n, inserted) ==> p == target)
    ensures Ordered(ix) && HasGap(ix)
  {
    var s := Entries(slots);
    target := OldestPlace(ix, s, inserted, hasher, tail);
    GapExists(ix, s, inserted, hasher, tail);
    EvictLinks(slots, inserted, hasher, tail);
  }

  lemma EvictSlots(slots: seq<Slot>, inserted: nat, hasher: Bytes -> nat, tail: Tail)
    requires slots != [] && Linked(slots, inserted, hasher) && TailOk(Entries(slots), tail)
    ensures var s, n := Entries(slots), |slots| - 1;
            && Linked(slots[..n], inserted, hasher) && Entries(slots[..n]) == s[..n] && TailOk(s[..n], tail)
            && Size(s) == Size(s[..n]) + Len(slots[n].header)
  {
    LinkedPops(slots, inserted, hasher);
    TailPops(Entries(slots), tail);
  }

  /** What the three branches of `evict` put in the place of the oldest entry. */
  lemma EvictLinks(slots: seq<Slot>, inserted: nat, hasher: Bytes -> nat, tail: Tail)
    requires slots != [] && Linked(slots, inserted, hasher) && TailOk(Entries(slots), tail)
    ensures var s, n := Entries(slots), |slots| - 1;
            var slot := slots[n];
            && PosOf(s, n, inserted, hasher) == Pos(WrappingSub(n, inserted), slot.hash)
            && Successor(s, inserted, hasher, tail) ==
               if slot.next.Some? then Some(Pos(slot.next.value, slot.hash))
               else if Some(WrappingSub(n, inserted)) == PrevIndex(tail, inserted)
               then Some(Pos(WrappingSub(0, WrappingAdd(inserted, 1)), slot.hash))
               else None
  {
    var s, n := Entries(slots), |slots| - 1;
    assert LinkOk(slots, n, inserted, hasher);
    var m := Newer(s, s[n].name, n);
    if m.None? && tail.Some? {
      SameVirtual(n, tail.value.0, inserted);
    }
  }

  lemma SameVirtual(a: nat, b: nat, inserted: nat)
    requires a < WORD && b < WORD && inserted < WORD
    ensures Virtual(a, inserted) == Virtual(b, inserted) <==> a == b
    ensures Virtual(WORD - 1, inserted) == WrappingSub(0, WrappingAdd(inserted, 1))
  {
  }

  lemma NearerLength(a: Indices, b: Indices)
    requires Nearer(a, b)
    ensures |a| == |b|
  {
  }

  lemma NearerSelf(ix: Indices)
    ensures Nearer(ix, ix)
  {
  }

  lemma {:induction false} EvictAll(s: seq<Header>)
    ensures EvictTo(s, 0) == []
  {
    if s != [] {
      EvictAll(s[..|s| - 1]);
    }
  }

  lemma LinkedBounds(slots: seq<Slot>, inserted: nat, hasher: Bytes -> nat)
    requires Linked(slots, inserted, hasher)
    ensures inserted < WORD && |slots| < WORD - 1
  {
  }

  lemma NoneHeld(ix: Indices, slots: seq<Slot>, inserted: nat, hasher: Bytes -> nat)
    requires |slots| == 0 && inserted < WORD && forall p :: 0 <= p < |ix| ==> ix[p].None?
    ensures Held(ix, Entries(slots), inserted, hasher, None) && Linked(slots, inserted, hasher)
    ensures Entries(slots) == [] && TailOk(Entries(slots), None)
  {
  }

  // ----- Growing

  /** `g` holds the first `k` entries from `f`, once each. */
  ghost predicate Taken(ix: Indices, f: nat, k: nat, g: Indices) {
    && f < |ix| && k <= |ix| && NoDuplicates(g)
    && forall y :: Some(y) in g <==> exists j :: 0 <= j < k && Nth(ix, f, j) == Some(y)
  }

  lemma TakenStarts(ix: Indices, f: nat)
    requires f < |ix|
    ensures Taken(ix, f, 0, seq(2 * |ix|, _ => None))
  {
  }

  lemma TakenNone(ix: Indices, f: nat, k: nat, g: Indices)
    requires Taken(ix, f, k, g) && k < |ix| && Nth(ix, f, k).None?
    ensures Taken(ix, f, k + 1, g)
  {
    hide Nth;
  }

  lemma TakenOne(ix: Indices, f: nat, k: nat, g: Indices, p: nat)
    requires Taken(ix, f, k, g) && NoDuplicates(ix) && k < |ix| && Nth(ix, f, k).Some? && p < |g| && g[p].None?
    ensures Taken(ix, f, k + 1, g[p := Nth(ix, f, k)])
  {
    var x := Nth(ix, f, k);
    var g1 := g[p := x];
    NthOnce(ix, f, k);
    assert x !in g;
    hide Nth;
    forall y ensures Some(y) in g1 <==> exists j :: 0 <= j < k + 1 && Nth(ix, f, j) == Some(y) {
      Entered(g, p, x.value, y);
    }
  }

  lemma Entered(g: Indices, p: nat, x: Pos, y: Pos)
    requires p < |g| && g[p].None?
    ensures Some(y) in g[p := Some(x)] <==> Some(y) in g || y == x
  {
    var g1 := g[p := Some(x)];
    assert g1[p] == Some(x);
    if Some(y) in g {
      var q :| 0 <= q < |g| && g[q] == Some(y);
      assert g1[q] == Some(y);
    }
  }

  lemma NthOnce(ix: Indices, f: nat, k: nat)
    requires NoDuplicates(ix) && f < |ix| && k < |ix| && Nth(ix, f, k).Some?
    ensures forall j :: 0 <= j < k ==> Nth(ix, f, j) != Nth(ix, f, k)
  {
  }

  lemma RegrownShape(ix: Indices, f: nat, k: nat, g: Indices, a: nat, lastA: nat, b: nat, lastB: nat)
    requires Regrown(ix, f, k, g, a, lastA, b, lastB)
    ensures Ordered(ix) && Ideal(ix, f) && PowerOfTwo(|ix|) && f < |ix| && |g| == 2 * |ix|
  {
  }

  /** From the home of the next entry on, `g` is taken up to offset `e` and free there. */
  ghost predicate FreeAfter(g: Indices, f: nat, base: nat, cap: nat, home: nat, e: nat) {
    && |g| == 2 * cap && f < cap && (base == 0 || base == cap) && home <= e < cap
    && forall o :: home <= o <= e ==> (g[RobinHoodGrowth.At(f, base, o, cap)].Some? <==> o < e)
  }

  lemma FreeRun(ix: Indices, f: nat, k: nat, g: Indices, a: nat, lastA: nat, b: nat, lastB: nat, mask: nat)
    returns (base: nat, home: nat, e: nat, a1: nat, lastA1: nat, b1: nat, lastB1: nat)
    requires Regrown(ix, f, k, g, a, lastA, b, lastB) && f < |ix| && k < |ix| && Nth(ix, f, k).Some?
    requires mask + 1 == 2 * |ix|
    ensures FreeAfter(g, f, base, |ix|, home, e) && |g| == 2 * |ix| && f < |ix| && home <= e < |ix|
    ensures base == 0 || base == |ix|
    ensures RobinHoodGrowth.At(f, base, home, |ix|) == And(Nth(ix, f, k).value.hash, mask)
    ensures Regrown(ix, f, k + 1, g[RobinHoodGrowth.At(f, base, e, |ix|) := Nth(ix, f, k)], a1, lastA1, b1, lastB1)
  {
    hide *;
    RegrownShape(ix, f, k, g, a, lastA, b, lastB);
    RegrownHolds(ix, f, k, g, a, lastA, b, lastB);
    NextHome(ix, f, k);
    base, home := HalfOf(ix, f, k), HomeOff(ix, f, k);
    var w, last := if base == 0 then a else b, if base == 0 then lastA else lastB;
    e := if home >= w then home else w;
    RunPlaces(ix, f, k, g, a, lastA, b, lastB, e);
    HomeAt(f, base, home, |ix|, Desired(Nth(ix, f, k).value.hash, 2 * |ix|));
    DesiredIs(Nth(ix, f, k).value.hash, mask, |ix|);
    if base == 0 {
      a1, lastA1, b1, lastB1 := e + 1, home, b, lastB;
    } else {
      a1, lastA1, b1, lastB1 := a, lastA, e + 1, home;
    }
    RunFree(g, f, base, |ix|, w, last, home, e);
  }

  lemma DesiredIs(hash: nat, mask: nat, cap: nat)
    requires mask + 1 == 2 * cap
    ensures Desired(hash, 2 * cap) == And(hash, mask)
  {
  }

  lemma RunFree(g: Indices, f: nat, base: nat, cap: nat, w: nat, last: nat, home: nat, e: nat)
    requires Half(g, f, base, cap, w, last) && Ordered(g) && last <= home <= e < cap
    requires e == if home >= w then home else w
    ensures FreeAfter(g, f, base, cap, home, e)
  {
    forall o | home <= o <= e ensures g[RobinHoodGrowth.At(f, base, o, cap)].Some? <==> o < e {
      FreeAt(g, f, base, cap, w, last, home, o);
    }
  }

  lemma RunPlaces(ix: Indices, f: nat, k: nat, g: Indices, a: nat, lastA: nat, b: nat, lastB: nat, e: nat)
    requires Regrown(ix, f, k, g, a, lastA, b, lastB) && f < |ix| && k < |ix| && Nth(ix, f, k).Some?
    requires var w := if HalfOf(ix, f, k) == 0 then a else b;
             e == if HomeOff(ix, f, k) >= w then HomeOff(ix, f, k) else w
    ensures e < |ix| && |g| == 2 * |ix| && HomeOff(ix, f, k) >= 0
    ensures HalfOf(ix, f, k) == 0 ==>
              Regrown(ix, f, k + 1, g[RobinHoodGrowth.At(f, 0, e, |ix|) := Nth(ix, f, k)], e + 1, HomeOff(ix, f, k), b, lastB)
    ensures HalfOf(ix, f, k) != 0 ==>
              Regrown(ix, f, k + 1, g[RobinHoodGrowth.At(f, |ix|, e, |ix|) := Nth(ix, f, k)], a, lastA, e + 1, HomeOff(ix, f, k))
  {
    RegrownLength(ix, f, k, g, a, lastA, b, lastB);
    hide *;
    RegrownPlaces(ix, f, k, g, a, lastA, b, lastB, e);
  }

  lemma FreeRunAt(g: Indices, f: nat, base: nat, cap: nat, home: nat, e: nat, o: nat)
    requires FreeAfter(g, f, base, cap, home, e) && home <= o <= e
    ensures g[RobinHoodGrowth.At(f, base, o, cap)].Some? <==> o < e
  {
  }

  lemma RegrownLength(ix: Indices, f: nat, k: nat, g: Indices, a: nat, lastA: nat, b: nat, lastB: nat)
    requires Regrown(ix, f, k, g, a, lastA, b, lastB)
    ensures |g| == 2 * |ix|
  {
  }

  lemma HomeAt(f: nat, base: nat, home: nat, cap: nat, desired: nat)
    requires f < cap && (base == 0 || base == cap) && home < cap && desired < 2 * cap
    requires Off(f, desired, 2 * cap) == base + home
    ensures RobinHoodGrowth.At(f, base, home, cap) == desired
  {
  }

  lemma AtSucc(f: nat, base: nat, o: nat, cap: nat)
    requires f < cap && (base == 0 || base == cap) && o + 1 < cap
    ensures var p := RobinHoodGrowth.At(f, base, o, cap);
            RobinHoodGrowth.At(f, base, o + 1, cap) == if p + 1 < 2 * cap then p + 1 else 0
  {
  }

  lemma NthIs(ix: Indices, f: nat, i: nat)
    requires f < |ix| && i < |ix|
    ensures Nth(ix, f, if i >= f then i - f else |ix| - f + i) == ix[i]
  {
  }

  lemma IdealIs(mask: nat, ix: Indices, p: nat)
    requires p < |ix| < WORD && ix[p].Some? && mask + 1 == |ix| && PowerOfTwo(|ix|)
    ensures Ideal(ix, p) <==> ProbeDistance(mask, ix[p].value.hash, p) == 0
  {
    ProbeDistanceIs(mask, ix[p].value.hash, p);
  }

  lemma IdealNone(ix: Indices, p: nat)
    requires p < |ix|
    ensures ix[p].None? ==> !Ideal(ix, p)
  {
  }

  /** The first entry after a gap is at its home. */
  lemma {:induction false} IdealAfter(ix: Indices, gap: nat, p: nat) returns (f: nat)
    requires Ordered(ix) && gap < |ix| && p < |ix| && ix[gap].None? && ix[p].Some?
    ensures Ideal(ix, f)
    decreases Off(gap, p, |ix|)
  {
    if Dist(ix, p) == 0 {
      f := p;
    } else {
      var q := Pred(p, |ix|);
      assert Succ(q, |ix|) == p;
      assert Follows(ix, q);
      f := IdealAfter(ix, gap, q);
    }
  }

  lemma IdealEntry(ix: Indices, slots: seq<Slot>, inserted: nat, hasher: Bytes -> nat) returns (f: nat)
    requires slots != [] && Held(ix, Entries(slots), inserted, hasher, None) && |slots| <= UsableCapacity(|ix|) && 8 <= |ix|
    ensures Ideal(ix, f)
  {
    var s := Entries(slots);
    GapExists(ix, s, inserted, hasher, None);
    var gap :| 0 <= gap < |ix| && ix[gap].None?;
    SuccessorFresh(ix, s, inserted, hasher, None);
    var p :| 0 <= p < |ix| && ix[p] == Some(PosOf(s, |s| - 1, inserted, hasher));
    f := IdealAfter(ix, gap, p);
  }

  lemma HeldShape(ix: Indices, s: seq<Header>, inserted: nat, hasher: Bytes -> nat)
    requires Held(ix, s, inserted, hasher, None)
    ensures Ordered(ix) && NoDuplicates(ix)
  {
  }

  lemma TakenAll(ix: Indices, f: nat, g: Indices, a: nat, lastA: nat, b: nat, lastB: nat,
                 s: seq<Header>, inserted: nat, hasher: Bytes -> nat)
    requires Held(ix, s, inserted, hasher, None) && Regrown(ix, f, |ix|, g, a, lastA, b, lastB) && Taken(ix, f, |ix|, g)
    ensures Held(g, s, inserted, hasher, None) && PowerOfTwo(|g|)
  {
    hide Wanted, Half, Ideal, Nth, HomeOff, Follows;
    forall y ensures Some(y) in g <==> Some(y) in ix {
      InSomeOrder(ix, f, y);
    }
    RegrownShape(ix, f, |ix|, g, a, lastA, b, lastB);
  }

  lemma InSomeOrder(ix: Indices, f: nat, y: Pos)
    requires f < |ix|
    ensures Some(y) in ix <==> exists j :: 0 <= j < |ix| && Nth(ix, f, j) == Some(y)
  {
    if Some(y) in ix {
      var p :| 0 <= p < |ix| && ix[p] == Some(y);
      NthIs(ix, f, p);
    }
  }

  lemma SlotsBound(slots: seq<Slot>, max: nat, cap: nat)
    requires Sound(Entries(slots), max) && max < WORD && |slots| == UsableCapacity(cap)
    ensures 2 * cap < WORD
  {
  }

  // ----- Adding entries

  lemma BoundsOf(ix: Indices, slots: seq<Slot>, inserted: nat, hasher: Bytes -> nat)
    requires Linked(slots, inserted, hasher) && |slots| < UsableCapacity(|ix|) && |ix| < WORD
    ensures inserted < WORD && |slots| + 2 < WORD
  {
  }

  lemma TailStarts(ix: Indices, s: seq<Header>, inserted: nat, hasher: Bytes -> nat, r: nat)
    requires Held(ix, s, inserted, hasher, None) && r < |s| && Newer(s, s[r].name, r).None?
    ensures var tail := Some((r, s[r].name)); Held(ix, s, inserted, hasher, tail) && TailOk(s, tail)
    ensures PrevIndex(Some((r, s[r].name)), inserted) == Some(Virtual(r, inserted))
  {
    var tail := Some((r, s[r].name));
    forall y ensures Wanted(s, inserted, hasher, tail, y) <==> Wanted(s, inserted, hasher, None, y) {
    }
  }

  /** What the relinking at the end of `index_occupied` makes of the entries. */
  lemma ChainEnd(slots: seq<Slot>, hash: nat, h: Header, tail: Tail, inserted: nat, index: nat)
    requires inserted < WORD && |slots| + 2 < WORD && TailOk(Entries(slots), tail)
    requires tail.Some? && index == Virtual(tail.value.0, inserted)
    ensures var ins := WrappingAdd(inserted, 1);
            var base := [Slot(hash, h, None)] + slots;
            var i := WrappingAdd(index, ins);
            Push(slots, hash, h, tail, inserted) ==
            if i < |base| then base[i := base[i].(next := Some(WrappingSub(0, ins)))] else base
  {
    VirtualKept(tail.value.0, inserted);
  }

  /** With the new entry in front, chains and array fit again. */
  lemma Linking(ix: Indices, slots: seq<Slot>, inserted: nat, hasher: Bytes -> nat, h: Header, tail: Tail)
    requires Linked(slots, inserted, hasher) && |slots| + 2 < WORD && TailOk(Entries(slots), tail)
    requires Held(ix, Entries(slots), inserted, hasher, tail) && tail.Some? && tail.value.1 == h.name
    ensures var pushed, ins := Push(slots, HashOf(hasher, h.name), h, tail, inserted), WrappingAdd(inserted, 1);
            && Linked(pushed, ins, hasher) && Held(ix, Entries(pushed), ins, hasher, None)
            && Entries(pushed) == [h] + Entries(slots) && |pushed| == |slots| + 1 && TailOk(Entries(pushed), None)
  {
    LinkedPushes(slots, inserted, hasher, h, tail);
    var s := Entries(slots);
    forall y ensures Some(y) in ix <==> Wanted([h] + s, WrappingAdd(inserted, 1), hasher, None, y) {
      WantedPushes(h, s, inserted, hasher, tail, y);
    }
  }

  lemma Inserting(s: seq<Header>, max: nat, h: Header, kept: seq<Header>)
    requires Sound(s, max) && Len(h) <= max && kept == EvictTo(s, max - Len(h))
    requires !IsSensitive(h) && FindField(s, h, 0).None?
    ensures [h] + kept == DynamicTable.Insert(s, max, h) && Sound([h] + kept, max)
    ensures Size([h] + kept) == Size(kept) + Len(h)
  {
    SizeCons(h, kept);
    InsertKeepsSound(s, max, h);
  }

  // ----- Searching a chain

  function StaticName(h: Header): Option<nat> {
    if IndexStatic(h).Some? then Some(IndexStatic(h).value.0) else None
  }

  /** Entry `r` has the name sought; none older than it has the value too. */
  ghost predicate OlderDiffer(s: seq<Header>, r: nat, h: Header) {
    r < |s| && s[r].name == h.name && forall j :: r < j < |s| ==> !SameField(s[j], h)
  }

  lemma ChainStarts(s: seq<Header>, r: nat, h: Header)
    requires r < |s| && Oldest(s, r) && s[r].name == h.name
    ensures OlderDiffer(s, r, h)
  {
  }

  lemma RealIndex(r: nat, inserted: nat, len: nat)
    requires r < len < WORD && inserted < WORD
    ensures WrappingAdd(Virtual(r, inserted), inserted) == r
  {
  }

  lemma FoundField(s: seq<Header>, max: nat, h: Header, r: nat)
    requires Sound(s, max) && OlderDiffer(s, r, h) && s[r].value == h.value
    ensures IndexDynamic(s, max, h) == (Indexed(r + DYN_OFFSET, h), s)
  {
    hide IndexStatic, IsSensitive, DynamicTable.Insert, Len, FindName;
    assert SameField(s[r], h);
  }

  lemma ChainNext(slots: seq<Slot>, inserted: nat, hasher: Bytes -> nat, r: nat, h: Header)
    requires Linked(slots, inserted, hasher) && OlderDiffer(Entries(slots), r, h) && slots[r].header.value != h.value
    ensures var m := Newer(Entries(slots), h.name, r);
            slots[r].next == (if m.Some? then Some(Virtual(m.value, inserted)) else None)
            && (m.Some? ==> OlderDiffer(Entries(slots), m.value, h))
  {
    assert LinkOk(slots, r, inserted, hasher);
  }

  lemma FoundName(s: seq<Header>, max: nat, h: Header, r: nat)
    requires OlderDiffer(s, r, h) && s[r].value != h.value && Newer(s, h.name, r).None?
    ensures FindField(s, h, 0).None? && FindName(s, h.name, 0) == Some(r)
    ensures IndexDynamic(s, max, h) ==
            if IsSensitive(h) then (Name(r + DYN_OFFSET, h), s)
            else (InsertedValue(if StaticName(h).Some? then StaticName(h).value else r + DYN_OFFSET, 0),
                  DynamicTable.Insert(s, max, h))
  {
    hide IndexStatic, IsSensitive, DynamicTable.Insert, Len;
    NameAt(s, h, r);
  }

  lemma NameAt(s: seq<Header>, h: Header, r: nat)
    requires OlderDiffer(s, r, h) && s[r].value != h.value && Newer(s, h.name, r).None?
    ensures FindField(s, h, 0).None? && FindName(s, h.name, 0) == Some(r)
  {
    hide Newer, FindField, FindName;
    var n, f := FindName(s, h.name, 0), FindField(s, h, 0);
    assert n.Some?;
    assert n.value == r;
  }

  // ----- A name without an entry

  lemma PushingLength(ix: Indices, ix1: Indices, probe: nat, k: nat, x: Pos)
    requires Pushing(ix, ix1, probe, k, x)
    ensures |ix1| == |ix|
  {
  }

  lemma VacantSpec(s: seq<Header>, max: nat, h: Header)
    requires !Present(s, h.name)
    ensures FindField(s, h, 0).None?
    ensures IndexDynamic(s, max, h) ==
            if IsSensitive(h) then (NewIndex(IndexStatic(h), h), s)
            else (if IndexStatic(h).Some? then InsertedValue(IndexStatic(h).value.0, 0) else Inserted(0),
                  DynamicTable.Insert(s, max, h))
  {
    hide IndexStatic, IsSensitive, DynamicTable.Insert, Len, FindField, FindName;
    assert FindField(s, h, 0).None? && FindName(s, h.name, 0).None?;
  }

  lemma NoTail(s: seq<Header>, inserted: nat, name: Bytes)
    requires !Present(s, name) && inserted < WORD
    ensures TailOk(s, None) && PrevIndex(None, inserted) == None
    ensures forall n {:trigger s[..n]} :: 0 <= n <= |s| ==> TailFor(s[..n], None, name)
  {
    forall n | 0 <= n <= |s| ensures TailFor(s[..n], None, name) {
      if j :| 0 <= j < n && s[..n][j].name == name {
        assert s[j].name == name;
      }
    }
  }

  /** A search for `hash` ends at `probe`, `dist` after its home: a gap or a nearer entry is there. */
  ghost predicate Stops(ix: Indices, hash: nat, dist: nat, probe: nat) {
    && dist < |ix| && probe == Ahead(Desired(hash, |ix|), dist, |ix|)
    && (ix[probe].None? || Dist(ix, probe) < dist)
  }

  /** What comes before that place is no nearer its home. */
  ghost predicate MayStop(ix: Indices, dist: nat, probe: nat) {
    && probe < |ix|
    && (dist == 0 || (ix[Pred(probe, |ix|)].Some? && Dist(ix, Pred(probe, |ix|)) + 1 >= dist))
  }

  lemma StopsAt(ix: Indices, hash: nat, dist: nat, probe: nat)
    requires Stops(ix, hash, dist, probe)
    ensures dist < |ix| && probe < |ix|
  {
  }

  lemma StopsStill(ix: Indices, ix1: Indices, hash: nat, dist: nat, probe: nat)
    requires Stops(ix, hash, dist, probe) && Nearer(ix, ix1)
    ensures Stops(ix1, hash, dist, probe)
  {
  }

  lemma PassedMayStop(ix: Indices, hash: nat, dist: nat, probe: nat)
    requires Stops(ix, hash, dist, probe) && ix != [] && Passed(ix, hash, dist)
    ensures MayStop(ix, dist, probe)
  {
    if dist > 0 {
      assert Pred(probe, |ix|) == Ahead(Desired(hash, |ix|), dist - 1, |ix|);
    }
  }

  lemma HomeMayStop(ix: Indices, dist: nat, probe: nat)
    requires probe < |ix|
    ensures dist == 0 ==> MayStop(ix, dist, probe)
  {
  }

  lemma MaskedPred(probe: nat, mask: nat)
    requires probe <= mask < WORD && PowerOfTwo(mask + 1)
    ensures And(WrappingSub(probe, 1), mask) == Pred(probe, mask + 1)
  {
    if probe > 0 {
      AndSmall(probe - 1, mask);
    } else {
      WordIsPowerOfTwo();
      AndSmall(mask, mask);
      AndWraps(mask, WORD, mask);
      AndPeriod(WORD - 1, mask);
    }
  }

  lemma StepBack(ix: Indices, hash: nat, dist: nat, probe: nat, mask: nat)
    requires Stops(ix, hash, dist, probe) && dist > 0 && mask + 1 == |ix| < WORD && PowerOfTwo(|ix|)
    ensures var back := And(WrappingSub(probe, 1), mask);
            && back < |ix|
            && (ix[back].None? || Dist(ix, back) < dist - 1 ==> Stops(ix, hash, dist - 1, back))
            && (ix[back].Some? && Dist(ix, back) >= dist - 1 ==> MayStop(ix, dist, probe))
  {
    MaskedPred(probe, mask);
    assert Pred(probe, |ix|) == Ahead(Desired(hash, |ix|), dist - 1, |ix|);
  }

  lemma BackDistance(ix: Indices, p: nat, mask: nat)
    requires p < |ix| && ix[p].Some? && mask + 1 == |ix|
    ensures Dist(ix, p) == Off(Desired(ix[p].value.hash, mask + 1), p, mask + 1)
  {
  }

  lemma GapIn(ix: Indices, slots: seq<Slot>, inserted: nat, hasher: Bytes -> nat)
    requires Held(ix, Entries(slots), inserted, hasher, None) && |slots| < UsableCapacity(|ix|) && 8 <= |ix|
    ensures HasGap(ix)
  {
    GapExists(ix, Entries(slots), inserted, hasher, None);
  }

  lemma Vacating(ix: Indices, ix1: Indices, slots: seq<Slot>, inserted: nat, hasher: Bytes -> nat, h: Header,
                 dist: nat, probe: nat, k: nat)
    requires Linked(slots, inserted, hasher) && |slots| + 2 < WORD && TailFor(Entries(slots), None, h.name)
    requires Held(ix, Entries(slots), inserted, hasher, None) && HasGap(ix)
    requires Stops(ix, HashOf(hasher, h.name), dist, probe) && MayStop(ix, dist, probe)
    requires Pushed(ix, ix1, probe, k, Pos(WrappingSub(0, WrappingAdd(inserted, 1)), HashOf(hasher, h.name)))
    ensures var pushed, ins := [Slot(HashOf(hasher, h.name), h, None)] + slots, WrappingAdd(inserted, 1);
            && Linked(pushed, ins, hasher) && Held(ix1, Entries(pushed), ins, hasher, None)
            && Entries(pushed) == [h] + Entries(slots) && TailOk(Entries(pushed), None)
    ensures |ix1| == |ix|
  {
    var ins := WrappingAdd(inserted, 1);
    var s := Entries(slots);
    var x := Pos(WrappingSub(0, ins), HashOf(hasher, h.name));
    hide *;
    LinkedPushes(slots, inserted, hasher, h, None);
    PushNone(slots, HashOf(hasher, h.name), h, inserted);
    HeldPushes(ix, ix1, s, inserted, hasher, h, probe, k, x, dist);
  }

  lemma PushNone(slots: seq<Slot>, hash: nat, h: Header, inserted: nat)
    requires inserted < WORD
    ensures Push(slots, hash, h, None, inserted) == [Slot(hash, h, None)] + slots
  {
  }

  lemma HeldPushes(ix: Indices, ix1: Indices, s: seq<Header>, inserted: nat, hasher: Bytes -> nat, h: Header,
                   probe: nat, k: nat, x: Pos, dist: nat)
    requires |s| + 2 < WORD && inserted < WORD && TailFor(s, None, h.name)
    requires Held(ix, s, inserted, hasher, None) && HasGap(ix)
    requires x == Pos(WrappingSub(0, WrappingAdd(inserted, 1)), HashOf(hasher, h.name))
    requires Stops(ix, x.hash, dist, probe) && MayStop(ix, dist, probe) && Pushed(ix, ix1, probe, k, x)
    ensures Held(ix1, [h] + s, WrappingAdd(inserted, 1), hasher, None) && |ix1| == |ix|
    ensures TailOk([h] + s, None)
  {
    var ins := WrappingAdd(inserted, 1);
    assert MayEnter(ix, probe, x);
    PushedOrdered(ix, ix1, probe, k, x);
    assert !Wanted(s, inserted, hasher, None, x) by {
      VirtualKept(0, inserted);
    }
    PushedDistinct(ix, ix1, probe, k, x);
    hide Ordered, NoDuplicates, Wanted, Stops, MayStop, MayEnter, HasGap, Pushed, TailFor;
    forall y ensures Some(y) in ix1 <==> Wanted([h] + s, ins, hasher, None, y) {
      PushedContents(ix, ix1, probe, k, x, y);
      WantedPushes(h, s, inserted, hasher, None, y);
    }
    assert |ix1| == |ix| by {
      PushedLength(ix, ix1, probe, k, x);
    }
  }

  lemma PushedLength(ix: Indices, ix1: Indices, probe: nat, k: nat, x: Pos)
    requires Pushed(ix, ix1, probe, k, x)
    ensures |ix1| == |ix|
  {
  }

  // ----- Probing for a name

  lemma UsableNone()
    ensures UsableCapacity(0) == 0
  {
  }

  lemma EmptySpec(slots: seq<Slot>, max: nat, h: Header)
    requires |slots| <= UsableCapacity(0) && IsSensitive(h)
    ensures IndexDynamic(Entries(slots), max, h) == (NewIndex(IndexStatic(h), h), Entries(slots))
  {
    VacantSpec(Entries(slots), max, h);
  }

  lemma GapHere(ix: Indices, slots: seq<Slot>, inserted: nat, hasher: Bytes -> nat)
    requires Held(ix, Entries(slots), inserted, hasher, None) && |slots| <= UsableCapacity(|ix|) && 8 <= |ix|
    ensures HasGap(ix)
  {
    GapExists(ix, Entries(slots), inserted, hasher, None);
  }

  /** None of the first `dist` positions from the home of `hash` points to an entry called `name`. */
  ghost predicate NoMatch(ix: Indices, slots: seq<Slot>, inserted: nat, hash: nat, name: Bytes, dist: nat)
    requires inserted < WORD
  {
    && ix != [] && dist <= |ix|
    && forall i :: 0 <= i < dist ==>
         Differs(ix[Ahead(Desired(hash, |ix|), i, |ix|)], slots, inserted, hash, name)
  }

  predicate Differs(pos: Option<Pos>, slots: seq<Slot>, inserted: nat, hash: nat, name: Bytes)
    requires inserted < WORD
  {
    && pos.Some? && pos.value.index < WORD
    && var r := WrappingAdd(pos.value.index, inserted);
       r < |slots| && !(pos.value.hash == hash && slots[r].header.name == name)
  }

  lemma ProbeStarts(ix: Indices, slots: seq<Slot>, inserted: nat, hash: nat, name: Bytes, mask: nat)
    requires ix != [] && inserted < WORD && mask + 1 == |ix|
    ensures Passed(ix, hash, 0) && NoMatch(ix, slots, inserted, hash, name, 0)
    ensures And(hash, mask) == Ahead(Desired(hash, |ix|), 0, |ix|)
  {
  }

  /** A position holds an entry without older namesakes. */
  lemma SlotOf(ix: Indices, slots: seq<Slot>, inserted: nat, hasher: Bytes -> nat, p: nat) returns (r: nat)
    requires Held(ix, Entries(slots), inserted, hasher, None) && inserted < WORD && p < |ix| && ix[p].Some?
    ensures r < |slots| && Oldest(Entries(slots), r)
    ensures ix[p].value.index == Virtual(r, inserted) && WrappingAdd(ix[p].value.index, inserted) == r
    ensures ix[p].value.hash == HashOf(hasher, slots[r].header.name)
  {
    var s := Entries(slots);
    assert Some(ix[p].value) in ix;
    hide Ordered, NoDuplicates, HashOf;
    r :| 0 <= r < |s| && Oldest(s, r) && ix[p].value == PosOf(s, r, inserted, hasher);
  }

  lemma ProbeNext(ix: Indices, slots: seq<Slot>, inserted: nat, hash: nat, name: Bytes, dist: nat, probe: nat)
    requires inserted < WORD && dist < |ix| && Passed(ix, hash, dist) && NoMatch(ix, slots, inserted, hash, name, dist)
    requires probe == Ahead(Desired(hash, |ix|), dist, |ix|) && Differs(ix[probe], slots, inserted, hash, name)
    requires ix[probe].Some? && Dist(ix, probe) >= dist && HasGap(ix)
    ensures dist + 1 < |ix| && Passed(ix, hash, dist + 1) && NoMatch(ix, slots, inserted, hash, name, dist + 1)
    ensures (if probe + 1 == |ix| then 0 else probe + 1) == Ahead(Desired(hash, |ix|), dist + 1, |ix|)
  {
    var gap :| 0 <= gap < |ix| && ix[gap].None?;
    assert Ahead(Desired(hash, |ix|), Off(Desired(hash, |ix|), gap, |ix|), |ix|) == gap;
  }

  /** The name has an oldest entry, which the array holds. */
  lemma {:induction false} OldestOf(s: seq<Header>, name: Bytes, j: nat) returns (r: nat)
    requires j < |s| && s[j].name == name
    ensures r < |s| && Oldest(s, r) && s[r].name == name
    decreases |s| - j
  {
    if i :| j < i < |s| && s[i].name == name {
      r := OldestOf(s, name, i);
    } else {
      r := j;
    }
  }

  /** The probe can stop: no entry has the name. */
  lemma ProbeFails(ix: Indices, slots: seq<Slot>, inserted: nat, hasher: Bytes -> nat, hash: nat, name: Bytes,
                   dist: nat, probe: nat)
    requires inserted < WORD && |slots| < WORD && Held(ix, Entries(slots), inserted, hasher, None)
    requires hash == HashOf(hasher, name) && dist < |ix| && NoMatch(ix, slots, inserted, hash, name, dist)
    requires probe == Ahead(Desired(hash, |ix|), dist, |ix|) && (ix[probe].None? || Dist(ix, probe) < dist)
    ensures !Present(Entries(slots), name) && Stops(ix, hash, dist, probe)
  {
    var s := Entries(slots);
    if j :| 0 <= j < |s| && s[j].name == name {
      var r := OldestOf(s, name, j);
      var y := PosOf(s, r, inserted, hasher);
      assert Wanted(s, inserted, hasher, None, y);
      var p :| 0 <= p < |ix| && ix[p] == Some(y);
      ProbeMeets(ix, hash, dist, p);
      MatchMissed(ix, slots, inserted, hash, name, dist, p, r);
    }
  }

  lemma MatchMissed(ix: Indices, slots: seq<Slot>, inserted: nat, hash: nat, name: Bytes, dist: nat, p: nat, r: nat)
    requires inserted < WORD && NoMatch(ix, slots, inserted, hash, name, dist) && r < |slots| < WORD
    requires p < |ix| && Off(Desired(hash, |ix|), p, |ix|) < dist
    requires ix[p] == Some(Pos(Virtual(r, inserted), hash))
    ensures slots[r].header.name != name
  {
    assert Ahead(Desired(hash, |ix|), Off(Desired(hash, |ix|), p, |ix|), |ix|) == p;
    assert Differs(ix[p], slots, inserted, hash, name);
  }
}
