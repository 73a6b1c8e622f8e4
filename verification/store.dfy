/**
  Intrusive queues over the store of streams (src/proto/streams/store.rs). A stream has one link
  field and one flag for each queue it can be in, so that any number of queues share the store.
 */
module Store {
  import opened Wrappers

  /** A slab index together with the id of the stream it was given for. */
  datatype Key = Key(index: nat, stream_id: nat)

  /** The link fields: send, capacity, open, accept, window update, reset expiry, push. */
  type Link = n: nat | n < 7

  /** A stream, as far as queues are concerned. */
  datatype Node = Node(id: nat, next: Link -> Option<Key>, queued: Link -> bool)

  function WithNext(s: Node, n: Link, k: Option<Key>): Node {
    s.(next := (m: Link) => if m == n then k else s.next(m))
  }

  function WithQueued(s: Node, n: Link, q: bool): Node {
    s.(queued := (m: Link) => if m == n then q else s.queued(m))
  }

  type Slab = seq<Option<Node>>

  /** `store[key]` does not panic: the stream the key was made for is still there. */
  predicate Resolves(slab: Slab, k: Key) {
    k.index < |slab| && slab[k.index].Some? && slab[k.index].value.id == k.stream_id
  }

  function At(slab: Slab, k: Key): Node
    requires Resolves(slab, k)
  {
    slab[k.index].value
  }

  predicate InQueue(slab: Slab, n: Link, k: Key) {
    Resolves(slab, k) && At(slab, k).queued(n)
  }

  function Put(slab: Slab, k: Key, s: Node): (r: Slab)
    requires Resolves(slab, k) && s.id == k.stream_id
    ensures forall j :: (Resolves(r, j) <==> Resolves(slab, j)) && (Resolves(r, j) ==> At(r, j) == if j == k then s else At(slab, j))
  {
    slab[k.index := Some(s)]
  }

  /** The link of the `i`-th element leads to the next one, and that of the last one nowhere. */
  predicate LinksTo(slab: Slab, n: Link, keys: seq<Key>, i: nat)
    requires i < |keys|
  {
    InQueue(slab, n, keys[i]) && At(slab, keys[i]).next(n) == if i + 1 < |keys| then Some(keys[i + 1]) else None
  }

  /**
    The links of kind `n` spell out the list `keys`: no stream twice, exactly the streams flagged
    for it, and every other stream without a link.
   */
  ghost predicate Chain(slab: Slab, n: Link, keys: seq<Key>) {
    && (forall i, j :: 0 <= i < j < |keys| ==> keys[i] != keys[j])
    && (forall i :: 0 <= i < |keys| ==> LinksTo(slab, n, keys, i))
    && (forall k: Key :: k in keys <==> InQueue(slab, n, k))
    && (forall k: Key :: Resolves(slab, k) && k !in keys ==> At(slab, k).next(n) == None)
  }

  datatype Indices = Indices(head: Key, tail: Key)

  /** What a queue stores of its list. */
  predicate Ends(ix: Option<Indices>, keys: seq<Key>) {
    if keys == [] then ix.None? else ix == Some(Indices(keys[0], keys[|keys| - 1]))
  }

  class Streams {
    var slab: Slab

    constructor ()
      ensures slab == []
    {
      slab := [];
    }

    /** A new stream in a vacant place, in no queue. */
    method Insert(index: nat, id: nat) returns (k: Key)
      requires index == |slab| || (index < |slab| && slab[index].None?)
      modifies this
      ensures k == Key(index, id) && Resolves(slab, k) && forall n :: !At(slab, k).queued(n)
      ensures forall j: Key | j.index != index :: Resolves(slab, j) <==> Resolves(old(slab), j)
      ensures forall j: Key | j.index != index && Resolves(slab, j) :: At(slab, j) == At(old(slab), j)
      ensures forall n, keys :: Chain(old(slab), n, keys) ==> Chain(slab, n, keys)
    {
      var s := Node(id, m => None, m => false);
      slab := if index == |slab| then slab + [Some(s)] else slab[index := Some(s)];
      k := Key(index, id);
      forall n: Link, keys | Chain(old(slab), n, keys) ensures Chain(slab, n, keys) {
        InsertKeeps(old(slab), slab, index, s, n, keys);
      }
    }

    /** `Ptr::remove`: the stream is in no queue, so no queue is left with a dangling key. */
    method Remove(k: Key)
      requires Resolves(slab, k) && forall n :: !At(slab, k).queued(n)
      modifies this
      ensures slab == old(slab)[k.index := None]
      ensures forall n, keys :: Chain(old(slab), n, keys) ==> Chain(slab, n, keys)
    {
      slab := slab[k.index := None];
      forall n: Link, keys | Chain(old(slab), n, keys) ensures Chain(slab, n, keys) {
        RemoveKeeps(old(slab), k, n, keys);
      }
    }

    method SetNext(n: Link, k: Key, next: Option<Key>)
      requires Resolves(slab, k)
      modifies this
      ensures slab == Put(old(slab), k, WithNext(At(old(slab), k), n, next))
      ensures OtherLinksKept(old(slab), slab, n)
    {
      slab := slab[k.index := Some(WithNext(slab[k.index].value, n, next))];
      OtherLinksOf(old(slab), slab, n);
    }

    method SetQueued(n: Link, k: Key, q: bool)
      requires Resolves(slab, k)
      modifies this
      ensures slab == Put(old(slab), k, WithQueued(At(old(slab), k), n, q))
      ensures OtherLinksKept(old(slab), slab, n)
    {
      slab := slab[k.index := Some(WithQueued(slab[k.index].value, n, q))];
      OtherLinksOf(old(slab), slab, n);
    }
  }

  /** A first-in first-out list of streams, kept in their link fields of kind `link`. */
  class Queue {
    const link: Link
    var indices: Option<Indices>
    ghost var keys: seq<Key>

    ghost predicate Valid(store: Streams)
      reads this, store
    {
      Ends(indices, keys) && Chain(store.slab, link, keys)
    }

    constructor (store: Streams, link: Link)
      requires Chain(store.slab, link, [])
      ensures Valid(store) && keys == [] && this.link == link
    {
      this.link := link;
      indices, keys := None, [];
    }

    method IsEmpty(store: Streams) returns (empty: bool)
      requires Valid(store)
      ensures empty <==> keys == []
    {
      empty := indices.None?;
    }

    /** Appends a stream, unless it is in the queue already. */
    method Push(store: Streams, k: Key) returns (pushed: bool)
      requires Valid(store) && Resolves(store.slab, k)
      modifies this, store
      ensures Valid(store) && pushed == (k !in old(keys))
      ensures keys == if pushed then old(keys) + [k] else old(keys)
      ensures OtherLinksKept(old(store.slab), store.slab, link)
    {
      OtherLinksSelf(store.slab, link);
      if store.slab[k.index].value.queued(link) {
        AlreadyIn(store.slab, link, keys, k);
        return false;
      }
      ghost var slab0 := store.slab;
      PushedBack(slab0, link, keys, k);
      store.SetQueued(link, k, true);
      match indices {
        case Some(ix) =>
          store.SetNext(link, ix.tail, Some(k));
          indices := Some(Indices(ix.head, k));
        case None =>
          indices := Some(Indices(k, k));
      }
      keys := keys + [k];
      pushed := true;
    }

    /** Puts a stream at the front, unless it is in the queue already. */
    method PushFront(store: Streams, k: Key) returns (pushed: bool)
      requires Valid(store) && Resolves(store.slab, k)
      modifies this, store
      ensures Valid(store) && pushed == (k !in old(keys))
      ensures keys == if pushed then [k] + old(keys) else old(keys)
      ensures OtherLinksKept(old(store.slab), store.slab, link)
    {
      OtherLinksSelf(store.slab, link);
      if store.slab[k.index].value.queued(link) {
        AlreadyIn(store.slab, link, keys, k);
        return false;
      }
      ghost var slab0 := store.slab;
      PushedFront(slab0, link, keys, k);
      store.SetQueued(link, k, true);
      match indices {
        case Some(ix) =>
          store.SetNext(link, k, Some(ix.head));
          indices := Some(Indices(k, ix.tail));
        case None =>
          indices := Some(Indices(k, k));
      }
      keys := [k] + keys;
      pushed := true;
    }

    /** Takes the first stream off. */
    method Pop(store: Streams) returns (k: Option<Key>)
      requires Valid(store)
      modifies this, store
      ensures Valid(store)
      ensures old(keys) == [] ==> k == None && keys == [] && store.slab == old(store.slab)
      ensures old(keys) != [] ==> k == Some(old(keys)[0]) && keys == old(keys)[1..] && Resolves(store.slab, old(keys)[0])
      ensures OtherLinksKept(old(store.slab), store.slab, link)
    {
      OtherLinksSelf(store.slab, link);
      if indices.None? {
        return None;
      }
      var ix := indices.value;
      ghost var slab0 := store.slab;
      HeadLinks(slab0, link, keys);
      PoppedFront(slab0, link, keys);
      if ix.head == ix.tail {
        indices := None;
      } else {
        indices := Some(Indices(store.slab[ix.head.index].value.next(link).value, ix.tail));
        store.SetNext(link, ix.head, None);
      }
      store.SetQueued(link, ix.head, false);
      keys := keys[1..];
      k := Some(ix.head);
    }

    /** Takes the first stream off if it is wanted. */
    method PopIf(store: Streams, wanted: Node -> bool) returns (k: Option<Key>)
      requires Valid(store)
      modifies this, store
      ensures Valid(store)
      ensures if old(keys) != [] && Resolves(old(store.slab), old(keys)[0]) && wanted(At(old(store.slab), old(keys)[0]))
              then k == Some(old(keys)[0]) && keys == old(keys)[1..]
              else k == None && keys == old(keys) && store.slab == old(store.slab)
      ensures OtherLinksKept(old(store.slab), store.slab, link)
    {
      OtherLinksSelf(store.slab, link);
      if indices.Some? {
        HeadLinks(store.slab, link, keys);
        if wanted(store.slab[indices.value.head.index].value) {
          k := Pop(store);
          return;
        }
      }
      k := None;
    }
  }

  /** Queues that use other links are what they were. */
  ghost predicate OtherLinksKept(a: Slab, b: Slab, n: Link) {
    forall m: Link, keys :: m != n && Chain(a, m, keys) ==> Chain(b, m, keys)
  }

  lemma OtherLinksSelf(slab: Slab, n: Link)
    ensures OtherLinksKept(slab, slab, n)
  {
  }

  /** The same streams, with the same links and flags of kind `m`. */
  ghost predicate SameLinks(a: Slab, b: Slab, m: Link) {
    && |a| == |b|
    && forall k: Key {:trigger Resolves(b, k)} :: (Resolves(a, k) <==> Resolves(b, k))
         && (Resolves(b, k) ==> At(a, k).next(m) == At(b, k).next(m) && At(a, k).queued(m) == At(b, k).queued(m))
  }

  lemma SameLinksChain(a: Slab, b: Slab, m: Link, keys: seq<Key>)
    requires SameLinks(a, b, m) && Chain(a, m, keys)
    ensures Chain(b, m, keys)
  {
    forall i | 0 <= i < |keys| ensures LinksTo(b, m, keys, i) {
      assert LinksTo(a, m, keys, i);
      assert Resolves(b, keys[i]);
    }
    forall k: Key ensures k in keys <==> InQueue(b, m, k) {
      assert InQueue(a, m, k) <==> InQueue(b, m, k);
    }
  }

  lemma OtherLinksOf(a: Slab, b: Slab, n: Link)
    requires forall m: Link :: m != n ==> SameLinks(a, b, m)
    ensures OtherLinksKept(a, b, n)
  {
    forall m: Link, keys | m != n && Chain(a, m, keys) ensures Chain(b, m, keys) {
      SameLinksChain(a, b, m, keys);
    }
  }

  lemma InsertKeeps(a: Slab, b: Slab, index: nat, s: Node, n: Link, keys: seq<Key>)
    requires Chain(a, n, keys) && (forall m: Link :: s.next(m) == None && !s.queued(m))
    requires if index == |a| then b == a + [Some(s)] else index < |a| && a[index].None? && b == a[index := Some(s)]
    ensures Chain(b, n, keys)
  {
    forall i | 0 <= i < |keys| ensures LinksTo(b, n, keys, i) {
      assert LinksTo(a, n, keys, i);
    }
    forall k: Key ensures k in keys <==> InQueue(b, n, k) {
      assert k.index != index ==> (InQueue(a, n, k) <==> InQueue(b, n, k));
      assert InQueue(a, n, k) ==> k.index != index;
    }
  }

  lemma RemoveKeeps(a: Slab, k: Key, n: Link, keys: seq<Key>)
    requires Chain(a, n, keys) && Resolves(a, k) && !At(a, k).queued(n)
    ensures Chain(a[k.index := None], n, keys)
  {
    var b := a[k.index := None];
    assert !InQueue(a, n, k);
    forall j: Key ensures j in keys <==> InQueue(b, n, j) {
      assert InQueue(a, n, j) ==> j.index != k.index;
      assert j.index != k.index ==> (InQueue(a, n, j) <==> InQueue(b, n, j));
    }
    forall i | 0 <= i < |keys| ensures LinksTo(b, n, keys, i) {
      assert LinksTo(a, n, keys, i) && keys[i] in keys;
      assert keys[i].index != k.index;
    }
  }

  lemma AlreadyIn(a: Slab, n: Link, keys: seq<Key>, k: Key)
    requires Chain(a, n, keys) && Resolves(a, k)
    ensures k in keys <==> At(a, k).queued(n)
  {
    assert k in keys <==> InQueue(a, n, k);
  }

  /** What `push` makes of the slab. */
  function PushBack(a: Slab, n: Link, keys: seq<Key>, k: Key): Slab
    requires Resolves(a, k) && (keys != [] ==> Resolves(a, keys[|keys| - 1]))
  {
    var b := Put(a, k, WithQueued(At(a, k), n, true));
    if keys == [] then b
    else var t := keys[|keys| - 1]; Put(b, t, WithNext(At(b, t), n, Some(k)))
  }

  lemma PushedBack(a: Slab, n: Link, keys: seq<Key>, k: Key)
    requires Chain(a, n, keys) && Resolves(a, k) && k !in keys
    ensures keys != [] ==> LinksTo(a, n, keys, |keys| - 1)
    ensures Chain(PushBack(a, n, keys, k), n, keys + [k])
  {
    assert keys != [] ==> LinksTo(a, n, keys, |keys| - 1);
    var b, all := PushBack(a, n, keys, k), keys + [k];
    forall i | 0 <= i < |all| ensures LinksTo(b, n, all, i) {
      assert i < |keys| ==> LinksTo(a, n, keys, i);
    }
    forall j: Key ensures j in all <==> InQueue(b, n, j) {
      assert j in keys <==> InQueue(a, n, j);
      assert j in all <==> j in keys || j == k;
    }
  }

  function PushFirst(a: Slab, n: Link, keys: seq<Key>, k: Key): Slab
    requires Resolves(a, k)
  {
    var b := Put(a, k, WithQueued(At(a, k), n, true));
    if keys == [] then b
    else Put(b, k, WithNext(At(b, k), n, Some(keys[0])))
  }

  lemma PushedFront(a: Slab, n: Link, keys: seq<Key>, k: Key)
    requires Chain(a, n, keys) && Resolves(a, k) && k !in keys
    ensures Chain(PushFirst(a, n, keys, k), n, [k] + keys)
  {
    var b, all := PushFirst(a, n, keys, k), [k] + keys;
    forall i | 0 <= i < |all| ensures LinksTo(b, n, all, i) {
      assert i > 0 ==> LinksTo(a, n, keys, i - 1);
    }
    forall j: Key ensures j in all <==> InQueue(b, n, j) {
      assert j in keys <==> InQueue(a, n, j);
      assert j in all <==> j in keys || j == k;
    }
  }

  /** What the first element leads to. */
  lemma HeadLinks(a: Slab, n: Link, keys: seq<Key>)
    requires Chain(a, n, keys) && keys != []
    ensures LinksTo(a, n, keys, 0)
    ensures |keys| == 1 <==> keys[0] == keys[|keys| - 1]
  {
    assert LinksTo(a, n, keys, 0);
  }

  function PopFront(a: Slab, n: Link, keys: seq<Key>): Slab
    requires keys != [] && Resolves(a, keys[0])
  {
    var b := if |keys| == 1 then a else Put(a, keys[0], WithNext(At(a, keys[0]), n, None));
    Put(b, keys[0], WithQueued(At(b, keys[0]), n, false))
  }

  lemma PoppedFront(a: Slab, n: Link, keys: seq<Key>)
    requires Chain(a, n, keys) && keys != [] && LinksTo(a, n, keys, 0)
    ensures Chain(PopFront(a, n, keys), n, keys[1..])
  {
    var b, rest := PopFront(a, n, keys), keys[1..];
    forall i | 0 <= i < |rest| ensures LinksTo(b, n, rest, i) {
      assert LinksTo(a, n, keys, i + 1);
    }
    forall j: Key ensures j in rest <==> InQueue(b, n, j) {
      assert j in keys <==> InQueue(a, n, j);
      assert keys == [keys[0]] + rest;
    }
  }
}
