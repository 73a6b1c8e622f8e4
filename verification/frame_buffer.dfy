/**
  Queues of frames or events. The queues of all streams share one slab
  (src/proto/streams/buffer.rs).
 */
module FrameBuffer {
  import opened Wrappers

  datatype Slot<T> = Slot(value: T, next: Option<nat>)

  type Slab<T> = seq<Option<Slot<T>>>

  predicate Vacant<T>(slab: Slab<T>, k: nat) {
    k == |slab| || (k < |slab| && slab[k].None?)
  }

  /** The `i`-th slot has the `i`-th value and leads to the next slot. */
  ghost predicate HoldsAt<T>(slab: Slab<T>, keys: seq<nat>, values: seq<T>, i: nat)
    requires i < |keys| == |values|
  {
    keys[i] < |slab| && slab[keys[i]] == Some(Slot(values[i], if i + 1 < |keys| then Some(keys[i + 1]) else None))
  }

  /** The slots `keys` hold the list `values`. */
  ghost predicate Holds<T>(slab: Slab<T>, keys: seq<nat>, values: seq<T>) {
    && |keys| == |values|
    && (forall i, j :: 0 <= i < j < |keys| ==> keys[i] != keys[j])
    && (forall i :: 0 <= i < |keys| ==> HoldsAt(slab, keys, values, i))
  }

  predicate Apart(a: seq<nat>, b: seq<nat>) {
    forall k :: k in a ==> k !in b
  }

  /** Any list in other slots is still there, and still in other slots. */
  ghost predicate OthersKept<T(!new)>(a: Slab<T>, was: seq<nat>, b: Slab<T>, now: seq<nat>) {
    forall ks, vs: seq<T> :: Holds(a, ks, vs) && Apart(ks, was) ==> Holds(b, ks, vs) && Apart(ks, now)
  }

  datatype Indices = Indices(head: nat, tail: nat)

  class Buffer<T> {
    var slab: Slab<T>

    constructor ()
      ensures slab == []
    {
      slab := [];
    }

    method Insert(k: nat, s: Slot<T>)
      requires Vacant(slab, k)
      modifies this
      ensures slab == Inserted(old(slab), k, s)
    {
      slab := if k == |slab| then slab + [Some(s)] else slab[k := Some(s)];
    }

    method SetNext(k: nat, next: Option<nat>)
      requires k < |slab| && slab[k].Some?
      modifies this
      ensures slab == old(slab)[k := Some(old(slab)[k].value.(next := next))]
    {
      slab := slab[k := Some(slab[k].value.(next := next))];
    }

    method Remove(k: nat) returns (s: Slot<T>)
      requires k < |slab| && slab[k].Some?
      modifies this
      ensures s == old(slab)[k].value && slab == old(slab)[k := None]
    {
      s := slab[k].value;
      slab := slab[k := None];
    }
  }

  /** One list; `place` is the slot the slab chooses for a new element. */
  class Deque<T(!new)> {
    var indices: Option<Indices>
    ghost var keys: seq<nat>
    ghost var values: seq<T>

    ghost predicate Valid(buf: Buffer<T>)
      reads this, buf
    {
      && Holds(buf.slab, keys, values)
      && indices == if keys == [] then None else Some(Indices(keys[0], keys[|keys| - 1]))
    }

    constructor (buf: Buffer<T>)
      ensures Valid(buf) && values == []
    {
      indices, keys, values := None, [], [];
    }

    method IsEmpty(buf: Buffer<T>) returns (empty: bool)
      requires Valid(buf)
      ensures empty <==> values == []
    {
      empty := indices.None?;
    }

    method PushBack(buf: Buffer<T>, place: nat, value: T)
      requires Valid(buf) && Vacant(buf.slab, place)
      modifies this, buf
      ensures Valid(buf) && values == old(values) + [value]
      ensures OthersKept(old(buf.slab), old(keys), buf.slab, keys)
    {
      PushedBack(buf.slab, keys, values, place, value);
      buf.Insert(place, Slot(value, None));
      match indices {
        case Some(ix) =>
          buf.SetNext(ix.tail, Some(place));
          indices := Some(Indices(ix.head, place));
        case None =>
          indices := Some(Indices(place, place));
      }
      keys, values := keys + [place], values + [value];
    }

    method PushFront(buf: Buffer<T>, place: nat, value: T)
      requires Valid(buf) && Vacant(buf.slab, place)
      modifies this, buf
      ensures Valid(buf) && values == [value] + old(values)
      ensures OthersKept(old(buf.slab), old(keys), buf.slab, keys)
    {
      PushedFront(buf.slab, keys, values, place, value);
      buf.Insert(place, Slot(value, None));
      match indices {
        case Some(ix) =>
          buf.SetNext(place, Some(ix.head));
          indices := Some(Indices(place, ix.tail));
        case None =>
          indices := Some(Indices(place, place));
      }
      keys, values := [place] + keys, [value] + values;
    }

    method PopFront(buf: Buffer<T>) returns (value: Option<T>)
      requires Valid(buf)
      modifies this, buf
      ensures Valid(buf)
      ensures old(values) == [] ==> value == None && values == [] && buf.slab == old(buf.slab)
      ensures old(values) != [] ==> value == Some(old(values)[0]) && values == old(values)[1..]
      ensures OthersKept(old(buf.slab), old(keys), buf.slab, keys)
    {
      if indices.None? {
        return None;
      }
      PoppedFront(buf.slab, keys, values);
      var ix := indices.value;
      var slot := buf.Remove(ix.head);
      if ix.head == ix.tail {
        indices := None;
      } else {
        indices := Some(Indices(slot.next.value, ix.tail));
      }
      keys, values := keys[1..], values[1..];
      value := Some(slot.value);
    }
  }

  function Inserted<T>(slab: Slab<T>, k: nat, s: Slot<T>): Slab<T>
    requires Vacant(slab, k)
  {
    if k == |slab| then slab + [Some(s)] else slab[k := Some(s)]
  }

  predicate Taken<T>(slab: Slab<T>, k: nat) {
    k < |slab| && slab[k].Some?
  }

  lemma OthersUntouched<T(!new)>(a: Slab<T>, was: seq<nat>, b: Slab<T>, now: seq<nat>)
    requires forall k: nat :: Taken(a, k) && k !in was ==> k < |b| && b[k] == a[k]
    requires forall k :: k in now ==> k in was || !Taken(a, k)
    ensures OthersKept(a, was, b, now)
  {
    forall os, ws: seq<T> | Holds(a, os, ws) && Apart(os, was) ensures Holds(b, os, ws) && Apart(os, now) {
      forall i | 0 <= i < |os| ensures HoldsAt(b, os, ws, i) && os[i] !in now {
        assert HoldsAt(a, os, ws, i) && os[i] in os && Taken(a, os[i]);
      }
    }
  }

  function Appended<T>(slab: Slab<T>, keys: seq<nat>, k: nat, value: T): Slab<T>
    requires Vacant(slab, k)
  {
    var b := Inserted(slab, k, Slot(value, None));
    if keys != [] && keys[|keys| - 1] < |b| && b[keys[|keys| - 1]].Some?
    then b[keys[|keys| - 1] := Some(b[keys[|keys| - 1]].value.(next := Some(k)))] else b
  }

  lemma PushedBack<T(!new)>(a: Slab<T>, keys: seq<nat>, values: seq<T>, k: nat, value: T)
    requires Holds(a, keys, values) && Vacant(a, k)
    ensures var b := Appended(a, keys, k, value); Holds(b, keys + [k], values + [value]) && OthersKept(a, keys, b, keys + [k])
    ensures keys != [] ==> keys[|keys| - 1] < |a| && a[keys[|keys| - 1]].Some? && keys[|keys| - 1] != k
  {
    var b, ks, vs := Appended(a, keys, k, value), keys + [k], values + [value];
    if keys != [] {
      assert HoldsAt(a, keys, values, |keys| - 1);
    }
    forall i | 0 <= i < |keys| ensures keys[i] != k && HoldsAt(b, ks, vs, i) {
      assert HoldsAt(a, keys, values, i);
    }
    assert HoldsAt(b, ks, vs, |keys|);
    OthersUntouched(a, keys, b, ks);
  }

  function Prepended<T>(slab: Slab<T>, keys: seq<nat>, k: nat, value: T): Slab<T>
    requires Vacant(slab, k)
  {
    var b := Inserted(slab, k, Slot(value, None));
    if keys != [] then b[k := Some(Slot(value, Some(keys[0])))] else b
  }

  lemma ConsHolds<T>(b: Slab<T>, keys: seq<nat>, values: seq<T>, k: nat, value: T)
    requires Holds(b, keys, values) && k !in keys && k < |b|
    requires b[k] == Some(Slot(value, if keys != [] then Some(keys[0]) else None))
    ensures Holds(b, [k] + keys, [value] + values)
  {
    var ks, vs := [k] + keys, [value] + values;
    forall i | 0 <= i < |ks| ensures HoldsAt(b, ks, vs, i) {
      assert i > 0 ==> HoldsAt(b, keys, values, i - 1);
    }
    forall i, j | 0 <= i < j < |ks| ensures ks[i] != ks[j] {
      assert i > 0 ==> keys[i - 1] != keys[j - 1];
      assert ks[j] in keys;
    }
  }

  lemma PushedFront<T(!new)>(a: Slab<T>, keys: seq<nat>, values: seq<T>, k: nat, value: T)
    requires Holds(a, keys, values) && Vacant(a, k)
    ensures var b := Prepended(a, keys, k, value); Holds(b, [k] + keys, [value] + values) && OthersKept(a, keys, b, [k] + keys)
  {
    var b := Prepended(a, keys, k, value);
    forall i | 0 <= i < |keys| ensures keys[i] != k && HoldsAt(b, keys, values, i) {
      assert HoldsAt(a, keys, values, i);
    }
    ConsHolds(b, keys, values, k, value);
    OthersUntouched(a, keys, b, [k] + keys);
  }

  lemma PoppedFront<T(!new)>(a: Slab<T>, keys: seq<nat>, values: seq<T>)
    requires Holds(a, keys, values) && keys != []
    ensures HoldsAt(a, keys, values, 0) && (|keys| == 1 <==> keys[0] == keys[|keys| - 1])
    ensures var b := a[keys[0] := None]; Holds(b, keys[1..], values[1..]) && OthersKept(a, keys, b, keys[1..])
  {
    assert HoldsAt(a, keys, values, 0);
    var b, ks, vs := a[keys[0] := None], keys[1..], values[1..];
    forall i | 0 <= i < |ks| ensures HoldsAt(b, ks, vs, i) {
      assert HoldsAt(a, keys, values, i + 1);
    }
    assert keys[0] in keys;
    OthersUntouched(a, keys, b, ks);
  }
}
