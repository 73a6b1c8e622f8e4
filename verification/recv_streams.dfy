/**
  Streams as the receiving side sees them (src/proto/streams/stream.rs), and what always holds of
  all of them together.
 */
module RecvStreams {
  import opened Bits
  import opened Wrappers
  import opened FlowControl
  import opened StreamState
  import opened ReceiveWindows

  /** Slab index of a stream. */
  type Key = nat

  datatype ContentLength = Omitted | Head | Remaining(left: nat)

  /** What waits to be read by the application. */
  datatype Event = HeadersEvent | DataEvent(payload: Bytes) | TrailersEvent

  datatype RecvStream = RecvStream(
    state: State,
    held: Held,
    content_length: ContentLength,
    pending_recv: seq<Event>,
    is_recv: bool,
    is_pending_window_update: bool,
    is_linked: bool)

  /** `None` when the message turns out longer than announced. */
  function DecContentLength(c: ContentLength, len: nat): Option<ContentLength> {
    match c
    case Remaining(left) => if len <= left then Some(Remaining(left - len)) else None
    case Head => if len == 0 then Some(c) else None
    case Omitted => Some(c)
  }

  predicate ContentLengthZero(c: ContentLength) {
    c.Remaining? ==> c.left == 0
  }

  function Total(lens: seq<nat>): nat {
    if lens == [] then 0 else Total(lens[..|lens| - 1]) + lens[|lens| - 1]
  }

  /** What is left after frames of these lengths. */
  function Counted(c: ContentLength, lens: seq<nat>): Option<ContentLength> {
    if lens == [] then Some(c)
    else
      var before := Counted(c, lens[..|lens| - 1]);
      if before.None? then None else DecContentLength(before.value, lens[|lens| - 1])
  }

  /** Frames are taken as long as they are no more than was announced, and the last only if they are no less. */
  lemma {:induction false} ContentLengthKept(n: nat, lens: seq<nat>)
    ensures Counted(Remaining(n), lens) == if Total(lens) <= n then Some(Remaining(n - Total(lens))) else None
    ensures Counted(Remaining(n), lens).Some? && ContentLengthZero(Counted(Remaining(n), lens).value) <==> Total(lens) == n
  {
    if lens != [] {
      ContentLengthKept(n, lens[..|lens| - 1]);
    }
  }

  /** The answer to HEAD has no body, whatever it announced. */
  lemma {:induction false} HeadHasNone(lens: seq<nat>)
    ensures Counted(Head, lens) == if Total(lens) == 0 then Some(Head) else None
  {
    if lens != [] {
      HeadHasNone(lens[..|lens| - 1]);
    }
  }

  type Slab = seq<Option<RecvStream>>

  predicate Live(slab: Slab, k: Key) {
    k < |slab| && slab[k].Some?
  }

  // ----- One stream

  predicate StreamOk(s: RecvStream, init: nat) {
    && DetachedWindowOk(s.held)
    && (s.is_linked ==> StreamWindowOk(s.held, init))
    && (forall e :: e in s.pending_recv && e.DataEvent? ==> |e.payload| <= MAX_WINDOW_SIZE)
  }

  function PayloadOf(e: Event): Bytes {
    if e.DataEvent? then e.payload else []
  }

  /** All payload that waits, in order. */
  function Buffered(q: seq<Event>): Bytes {
    if q == [] then [] else PayloadOf(q[0]) + Buffered(q[1..])
  }

  lemma {:induction false} BufferedAppend(q: seq<Event>, e: Event)
    ensures Buffered(q + [e]) == Buffered(q) + PayloadOf(e)
  {
    if q == [] {
      assert [e][1..] == [];
    } else {
      assert (q + [e])[1..] == q[1..] + [e];
      BufferedAppend(q[1..], e);
    }
  }

  // ----- All streams

  ghost predicate AllOk(slab: Slab, init: nat) {
    forall k: Key :: Live(slab, k) ==> StreamOk(slab[k].value, init)
  }

  predicate Pending(slab: Slab, k: Key) {
    Live(slab, k) && slab[k].value.is_pending_window_update
  }

  predicate Linked(slab: Slab, k: Key) {
    Live(slab, k) && slab[k].value.is_linked
  }

  predicate NoRepeats(q: seq<Key>) {
    forall i, j :: 0 <= i < j < |q| ==> q[i] != q[j]
  }

  /** The queue holds each stream flagged for it exactly once. */
  ghost predicate QueueIs(q: seq<Key>, slab: Slab) {
    NoRepeats(q) && forall k: Key :: k in q <==> Pending(slab, k)
  }

  /** Streams that can be found by their identifier. */
  ghost predicate IdsAre(ids: seq<Key>, slab: Slab) {
    NoRepeats(ids) && forall k: Key :: k in ids <==> Linked(slab, k)
  }

  function InFlightAt(slab: Slab, k: Key): nat
    requires k < |slab|
  {
    if slab[k].Some? then slab[k].value.held.in_flight else 0
  }

  /** Octets held by all streams. */
  function InFlight(slab: Slab): nat {
    if slab == [] then 0 else InFlight(slab[..|slab| - 1]) + InFlightAt(slab, |slab| - 1)
  }

  lemma {:induction false} InFlightUpdate(slab: Slab, k: Key, x: Option<RecvStream>)
    requires k < |slab|
    ensures InFlight(slab[k := x]) == InFlight(slab) - InFlightAt(slab, k) + InFlightAt(slab[k := x], k)
    ensures InFlightAt(slab, k) <= InFlight(slab)
  {
    var n := |slab| - 1;
    if k == n {
      assert slab[k := x][..n] == slab[..n];
    } else {
      assert slab[k := x][..n] == slab[..n][k := x];
      InFlightUpdate(slab[..n], k, x);
    }
  }

  lemma InFlightAppend(slab: Slab, x: RecvStream)
    ensures InFlight(slab + [Some(x)]) == InFlight(slab) + x.held.in_flight
  {
    assert (slab + [Some(x)])[..|slab|] == slab;
  }

  lemma {:induction false} InFlightSame(a: Slab, b: Slab)
    requires |a| == |b| && forall k :: 0 <= k < |a| ==> InFlightAt(a, k) == InFlightAt(b, k)
    ensures InFlight(a) == InFlight(b)
  {
    if a != [] {
      var n := |a| - 1;
      forall k | 0 <= k < n ensures InFlightAt(a[..n], k) == InFlightAt(b[..n], k) {
        assert InFlightAt(a, k) == InFlightAt(b, k);
      }
      InFlightSame(a[..n], b[..n]);
      assert InFlightAt(a, n) == InFlightAt(b, n);
    }
  }

  /** A stream changes without entering or leaving the queue or the store. */
  lemma Replaced(slab: Slab, k: Key, s: RecvStream, init: nat, ids: seq<Key>, q: seq<Key>)
    requires Live(slab, k) && AllOk(slab, init) && IdsAre(ids, slab) && QueueIs(q, slab)
    requires StreamOk(s, init) && s.is_linked == slab[k].value.is_linked
    requires s.is_pending_window_update == slab[k].value.is_pending_window_update
    ensures AllOk(slab[k := Some(s)], init) && IdsAre(ids, slab[k := Some(s)]) && QueueIs(q, slab[k := Some(s)])
  {
    var t := slab[k := Some(s)];
    hide StreamOk;
    assert forall j: Key :: Pending(t, j) <==> Pending(slab, j);
    assert forall j: Key :: Linked(t, j) <==> Linked(slab, j);
    assert forall j: Key :: Live(t, j) <==> Live(slab, j);
  }

  /** A stream joins the queue. */
  lemma Enqueued(slab: Slab, k: Key, init: nat, ids: seq<Key>, q: seq<Key>)
    requires Live(slab, k) && AllOk(slab, init) && IdsAre(ids, slab) && QueueIs(q, slab)
    requires !slab[k].value.is_pending_window_update
    ensures var t := slab[k := Some(slab[k].value.(is_pending_window_update := true))];
            AllOk(t, init) && IdsAre(ids, t) && QueueIs(q + [k], t)
  {
    var s := slab[k].value.(is_pending_window_update := true);
    var t := slab[k := Some(s)];
    assert StreamOk(slab[k].value, init) && StreamOk(s, init);
    hide StreamOk;
    assert !Pending(slab, k);
    assert forall j: Key :: j != k ==> (Pending(t, j) <==> Pending(slab, j));
    assert Pending(t, k);
    assert forall j: Key :: Linked(t, j) <==> Linked(slab, j);
    assert forall j: Key :: Live(t, j) <==> Live(slab, j);
    assert forall j: Key :: j in q + [k] <==> j in q || j == k;
  }

  /** The first stream of the queue leaves it. */
  lemma Dequeued(slab: Slab, s: RecvStream, init: nat, ids: seq<Key>, q: seq<Key>)
    requires AllOk(slab, init) && IdsAre(ids, slab) && QueueIs(q, slab) && q != [] && Live(slab, q[0])
    requires StreamOk(s, init) && s.is_linked == slab[q[0]].value.is_linked && !s.is_pending_window_update
    ensures AllOk(slab[q[0] := Some(s)], init) && IdsAre(ids, slab[q[0] := Some(s)]) && QueueIs(q[1..], slab[q[0] := Some(s)])
  {
    var t := slab[q[0] := Some(s)];
    hide StreamOk;
    assert forall j: Key :: j != q[0] ==> (Pending(t, j) <==> Pending(slab, j));
    assert forall j: Key :: Linked(t, j) <==> Linked(slab, j);
    assert forall j: Key :: Live(t, j) <==> Live(slab, j);
    assert q == [q[0]] + q[1..];
    assert q[0] !in q[1..];
  }

  /** A stream joins the store. */
  lemma Inserted(slab: Slab, k: Key, s: RecvStream, init: nat, ids: seq<Key>, q: seq<Key>)
    requires k == |slab| || (k < |slab| && slab[k].None?)
    requires AllOk(slab, init) && IdsAre(ids, slab) && QueueIs(q, slab)
    requires StreamOk(s, init) && s.is_linked && !s.is_pending_window_update
    ensures var t := if k == |slab| then slab + [Some(s)] else slab[k := Some(s)];
            AllOk(t, init) && IdsAre(ids + [k], t) && QueueIs(q, t) && InFlight(t) == InFlight(slab) + s.held.in_flight
  {
    var t := if k == |slab| then slab + [Some(s)] else slab[k := Some(s)];
    if k == |slab| {
      InFlightAppend(slab, s);
    } else {
      InFlightUpdate(slab, k, Some(s));
    }
    hide StreamOk, InFlight;
    assert !Linked(slab, k) && !Pending(slab, k) && Linked(t, k) && !Pending(t, k);
    assert forall j: Key :: j != k ==> (Pending(t, j) <==> Pending(slab, j));
    assert forall j: Key :: j != k ==> (Linked(t, j) <==> Linked(slab, j));
    assert forall j: Key :: j != k ==> (Live(t, j) <==> Live(slab, j));
    assert forall j: Key :: j in ids + [k] <==> j in ids || j == k;
  }
}
