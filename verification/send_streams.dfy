/**
  Streams as the sending side sees them (src/proto/streams/stream.rs), and what always holds of
  each of them and of all of them together.
 */
module SendStreams {
  import opened Bits
  import opened Wrappers
  import opened FlowControl
  import opened StreamState

  const MAX_U32: nat := 0xffff_ffff

  /** Frames a stream has queued; HEADERS stands for trailers too. */
  datatype OutFrame = Headers(end_stream: bool) | Data(payload: Bytes, end_stream: bool) | Reset(reason: nat)

  /** Slab index of a stream. */
  type Key = nat

  datatype Stream = Stream(
    id: nat,
    state: State,
    is_counted: bool,
    ref_count: nat,
    is_linked: bool,
    send_flow: FlowControl,
    requested_send_capacity: nat,
    buffered_send_data: nat,
    pending_send: seq<OutFrame>,
    is_pending_send: bool,
    is_pending_send_capacity: bool,
    is_pending_open: bool,
    is_pending_accept: bool,
    is_pending_window_update: bool,
    is_pending_reset_expiration: bool)
  {
    predicate IsSendReady() {
      !is_pending_open
    }

    predicate IsClosed() {
      state.Closed? && pending_send == [] && buffered_send_data == 0
    }

    predicate IsReleased() {
      && IsClosed() && ref_count == 0
      && !is_pending_send && !is_pending_send_capacity && !is_pending_accept && !is_pending_window_update
      && !is_pending_open && !is_pending_reset_expiration
    }
  }

  type Slab = seq<Option<Stream>>

  predicate Live(slab: Slab, k: Key) {
    k < |slab| && slab[k].Some?
  }

  // ----- Queues: the link that a stream is queued by

  datatype Next = NextSend | NextSendCapacity | NextOpen

  predicate IsQueued(n: Next, s: Stream) {
    match n
    case NextSend => s.is_pending_send
    case NextSendCapacity => s.is_pending_send_capacity
    case NextOpen => s.is_pending_open
  }

  function SetQueued(n: Next, s: Stream, val: bool): (t: Stream)
    ensures IsQueued(n, t) == val
    ensures forall m :: m != n ==> IsQueued(m, t) == IsQueued(m, s)
  {
    match n
    case NextSend => s.(is_pending_send := val)
    case NextSendCapacity => s.(is_pending_send_capacity := val)
    case NextOpen => s.(is_pending_open := val)
  }

  predicate Member(n: Next, slab: Slab, k: Key) {
    Live(slab, k) && IsQueued(n, slab[k].value)
  }

  /** The queue holds each stream flagged for it exactly once. */
  ghost predicate QueueIs(n: Next, q: seq<Key>, slab: Slab) {
    && (forall i, j :: 0 <= i < j < |q| ==> q[i] != q[j])
    && (forall k :: k in q <==> Member(n, slab, k))
  }

  // ----- Data in queues

  function DataLen(q: seq<OutFrame>): nat {
    if q == [] then 0 else (if q[0].Data? then |q[0].payload| else 0) + DataLen(q[1..])
  }

  function DataBytes(q: seq<OutFrame>): (bs: Bytes)
    ensures |bs| == DataLen(q)
  {
    if q == [] then [] else (if q[0].Data? then q[0].payload else []) + DataBytes(q[1..])
  }

  lemma {:induction false} DataBytesAppend(q: seq<OutFrame>, f: OutFrame)
    ensures DataBytes(q + [f]) == DataBytes(q) + if f.Data? then f.payload else []
    ensures DataLen(q + [f]) == DataLen(q) + if f.Data? then |f.payload| else 0
  {
    if q == [] {
      assert q + [f] == [f] && [f][1..] == [];
    } else {
      var x := if f.Data? then f.payload else [];
      var first := if q[0].Data? then q[0].payload else [];
      assert (q + [f])[1..] == q[1..] + [f];
      DataBytesAppend(q[1..], f);
      hide DataBytes;
      assert first + DataBytes(q[1..]) + x == first + (DataBytes(q[1..]) + x);
    }
  }

  /** END_STREAM is only on the last DATA frame. */
  predicate EosLast(q: seq<OutFrame>) {
    forall i, j :: 0 <= i < j < |q| && q[i].Data? && q[i].end_stream ==> !q[j].Data?
  }

  predicate HasEos(q: seq<OutFrame>) {
    exists i :: 0 <= i < |q| && q[i].Data? && q[i].end_stream
  }

  predicate HasData(q: seq<OutFrame>) {
    exists i :: 0 <= i < |q| && q[i].Data?
  }

  // ----- The frame in the codec

  /** What remains of a DATA frame once the part handed to the codec is written. */
  datatype Written = Written(stream: Key, rest: Bytes, end_of_stream: bool)

  datatype InFlightData = Nothing | DataFrame(key: Key) | Drop

  /** The part of stream `k`'s data that will come back from the codec. */
  function RestOf(in_flight: InFlightData, slot: Option<Written>, k: Key): (w: Option<Written>)
    ensures w.Some? ==> slot == w && w.value.rest != []
  {
    if in_flight == DataFrame(k) && slot.Some? && slot.value.rest != [] then slot else None
  }

  function RestBytes(w: Option<Written>): Bytes {
    if w.Some? then w.value.rest else []
  }

  predicate RestEos(w: Option<Written>) {
    w.Some? && w.value.end_of_stream
  }

  ghost predicate CodecOk(in_flight: InFlightData, slot: Option<Written>, slab: Slab) {
    && (in_flight.Nothing? <==> slot.None?)
    && (in_flight.DataFrame? ==> slot.Some? && slot.value.stream == in_flight.key && |slot.value.rest| <= MAX_WINDOW_SIZE)
    && (in_flight.DataFrame? && slot.value.rest != [] ==> Live(slab, in_flight.key))
  }

  // ----- What has become of the data of a stream

  /**
    Octets given to `send_data`, octets handed to the codec, END_STREAM handed over, whether any
    were dropped, and whether more were ever buffered than a request for capacity can express.
   */
  datatype History = History(given: Bytes, sent: Bytes, ended: bool, dropped: bool, outgrown: bool)

  const NewHistory: History := History([], [], false, false, false)

  // ----- One stream

  /** HEADERS have not been sent yet. */
  predicate Unopened(s: State) {
    s.Idle? || s.ReservedLocal? || (s.Open? && s.mine.AwaitingHeaders?) || (s.HalfClosedRemote? && s.mine.AwaitingHeaders?)
  }

  /** `extra` octets are about to be queued. */
  predicate Sane(s: Stream, w: Option<Written>, extra: nat) {
    && 0 <= s.send_flow.available <= AsSize(s.send_flow.window_size)
    && s.send_flow.available <= s.requested_send_capacity <= MAX_U32
    && s.buffered_send_data == DataLen(s.pending_send) + |RestBytes(w)| + extra
    && (forall i :: 0 <= i < |s.pending_send| && s.pending_send[i].Data? ==> |s.pending_send[i].payload| <= MAX_WINDOW_SIZE)
    && (Unopened(s.state) ==> s.requested_send_capacity == 0 && s.buffered_send_data == 0)
    && (s.is_pending_open ==> s.send_flow.available == 0 && !s.is_pending_send && w.None?)
  }

  /** A stream that waits to send has something to send, or is closed. */
  predicate Backed(s: Stream, w: Option<Written>) {
    s.pending_send == [] && w.None? && (s.is_pending_send || s.is_pending_open) ==> s.state.Closed?
  }

  /**
    The stream is short of capacity, of its request or, once closed, of its data, and its own window
    has room.
   */
  predicate IsShort(s: Stream) {
    && !s.is_pending_open && s.send_flow.HasUnavailable()
    && s.send_flow.available < if s.state.IsSendStreaming() then s.requested_send_capacity else s.buffered_send_data
  }

  /** What the allocator goes by: beyond the request a stream is given nothing. */
  predicate Wants(s: Stream) {
    && !s.is_pending_open && s.send_flow.HasUnavailable()
    && s.send_flow.available < s.requested_send_capacity
    && (s.state.IsSendStreaming() || s.send_flow.available < s.buffered_send_data)
  }

  predicate Served(s: Stream) {
    Wants(s) ==> s.is_pending_send_capacity
  }

  /** DATA with something in it, for which there is no capacity. */
  predicate Blocked(f: OutFrame, available: int) {
    f.Data? && f.payload != [] && available == 0
  }

  /**
    A stream that is open and whose first frame can go waits in the send queue, unless part of its
    data is in the codec.
   */
  predicate Scheduled(s: Stream, w: Option<Written>) {
    s.pending_send != [] && !Blocked(s.pending_send[0], s.send_flow.available) && !s.is_pending_open && w.None? ==>
      s.is_pending_send
  }

  /** Data goes out in order and whole, with END_STREAM at its very end. */
  predicate Faithful(s: Stream, w: Option<Written>, h: History) {
    && (!h.dropped ==> h.sent + RestBytes(w) + DataBytes(s.pending_send) == h.given)
    && EosLast(s.pending_send)
    && (RestEos(w) ==> !HasData(s.pending_send))
    && (h.ended ==> !HasData(s.pending_send) && w.None?)
    && (h.ended || RestEos(w) || HasEos(s.pending_send) ==> s.state.IsSendClosed())
    && (!h.outgrown ==> DataLen(s.pending_send) + |RestBytes(w)| <= s.requested_send_capacity)
  }

  predicate StreamOk(s: Stream, w: Option<Written>, h: History) {
    Sane(s, w, 0) && Backed(s, w) && Served(s) && Scheduled(s, w) && Faithful(s, w, h)
  }

  // ----- All streams

  /** Connection capacity assigned to streams. */
  function Assigned(slab: Slab): int {
    if slab == [] then 0
    else Assigned(slab[..|slab| - 1]) +
         if slab[|slab| - 1].Some? then slab[|slab| - 1].value.send_flow.available else 0
  }

  function AvailableAt(slab: Slab, k: Key): int
    requires k < |slab|
  {
    if slab[k].Some? then slab[k].value.send_flow.available else 0
  }

  lemma {:induction false} AssignedUpdate(slab: Slab, k: Key, x: Option<Stream>)
    requires k < |slab|
    ensures Assigned(slab[k := x]) == Assigned(slab) - AvailableAt(slab, k) + AvailableAt(slab[k := x], k)
  {
    var n := |slab| - 1;
    if k == n {
      assert slab[k := x][..n] == slab[..n];
    } else {
      assert slab[k := x][..n] == slab[..n][k := x];
      AssignedUpdate(slab[..n], k, x);
    }
  }

  lemma {:induction false} AssignedBounds(slab: Slab, k: Key)
    requires forall j :: 0 <= j < |slab| ==> AvailableAt(slab, j) >= 0
    ensures Assigned(slab) >= 0
    ensures k < |slab| ==> Assigned(slab) >= AvailableAt(slab, k)
  {
    if slab != [] {
      var n := |slab| - 1;
      forall j | 0 <= j < n ensures AvailableAt(slab[..n], j) >= 0 {
        assert AvailableAt(slab, j) >= 0;
      }
      assert AvailableAt(slab, n) >= 0;
      AssignedBounds(slab[..n], k);
      if k < n {
        assert AvailableAt(slab[..n], k) == AvailableAt(slab, k);
      }
    }
  }

  /**
    The connection's window is shared out exactly: what is not assigned, what streams hold, and
    what removed streams took with them.
   */
  ghost predicate Accounted(slab: Slab, flow: FlowControl, leaked: nat) {
    flow.available >= 0 && flow.window_size == flow.available + Assigned(slab) + leaked
  }

  /** Every stream but `but` is in order. */
  ghost predicate AllOk(slab: Slab, in_flight: InFlightData, slot: Option<Written>, hs: seq<History>, but: set<Key>) {
    && |hs| == |slab|
    && forall k: Key {:trigger Live(slab, k)} :: Live(slab, k) && k !in but ==>
         StreamOk(slab[k].value, RestOf(in_flight, slot, k), hs[k])
  }

  /** What holds of a stream in the middle of an operation on it. */
  ghost predicate Midway(slab: Slab, in_flight: InFlightData, slot: Option<Written>, hs: seq<History>, k: Key, extra: nat) {
    && Live(slab, k) && k < |hs|
    && Sane(slab[k].value, RestOf(in_flight, slot, k), extra)
    && Scheduled(slab[k].value, RestOf(in_flight, slot, k))
    && Faithful(slab[k].value, RestOf(in_flight, slot, k), hs[k])
  }

  // ----- What giving capacity does to a stream

  /** `t` is `s` with more capacity, perhaps: it is scheduled if it got some and has data. */
  predicate Grown(s: Stream, t: Stream) {
    && t == s.(send_flow := t.send_flow, is_pending_send := t.is_pending_send,
               is_pending_send_capacity := t.is_pending_send_capacity)
    && t.send_flow == s.send_flow.(available := t.send_flow.available)
    && s.send_flow.available <= t.send_flow.available
    && t.send_flow.available <= Max(s.send_flow.available, Min(s.requested_send_capacity, AsSize(s.send_flow.window_size)))
    && (s.is_pending_send ==> t.is_pending_send)
    && (t.is_pending_send && !s.is_pending_send ==> s.buffered_send_data > 0 && !s.is_pending_open)
    && (t.send_flow.available > s.send_flow.available ==>
          !s.is_pending_open && (s.buffered_send_data > 0 ==> t.is_pending_send))
  }

  function Min(a: int, b: int): int { if a <= b then a else b }
  function Max(a: int, b: int): int { if a >= b then a else b }

  lemma GrownOk(s: Stream, t: Stream, w: Option<Written>, h: History)
    requires Grown(s, t) && Sane(s, w, 0) && Backed(s, w) && Scheduled(s, w) && Faithful(s, w, h) && Served(t)
    ensures StreamOk(t, w, h)
  {
    GrownSane(s, t, w, 0);
    GrownFaithful(s, t, w, h);
    hide Faithful, Served;
    if s.pending_send != [] && s.pending_send[0].Data? {
      assert DataLen(s.pending_send) >= |s.pending_send[0].payload|;
    }
  }

  lemma GrownSane(s: Stream, t: Stream, w: Option<Written>, extra: nat)
    requires Grown(s, t) && Sane(s, w, extra)
    ensures Sane(t, w, extra)
  {
    hide DataLen;
  }

  lemma GrownScheduled(s: Stream, t: Stream, w: Option<Written>, extra: nat)
    requires Grown(s, t) && Sane(s, w, extra) && Scheduled(s, w)
    ensures Scheduled(t, w)
  {
    if s.pending_send != [] && s.pending_send[0].Data? {
      assert DataLen(s.pending_send) >= |s.pending_send[0].payload|;
    }
  }

  lemma GrownFaithful(s: Stream, t: Stream, w: Option<Written>, h: History)
    requires Grown(s, t) && Faithful(s, w, h)
    ensures Faithful(t, w, h)
  {
    hide EosLast, HasEos, HasData;
  }

  lemma GrownTwice(s: Stream, t: Stream, u: Stream)
    requires Grown(s, t) && Grown(t, u)
    ensures Grown(s, u)
  {
  }

  // ----- One stream changes

  lemma AllOkPut(slab: Slab, in_flight: InFlightData, slot: Option<Written>, hs: seq<History>, but: set<Key>, k: Key, x: Stream)
    requires AllOk(slab, in_flight, slot, hs, but) && k < |slab|
    requires k in but || StreamOk(x, RestOf(in_flight, slot, k), hs[k])
    ensures AllOk(slab[k := Some(x)], in_flight, slot, hs, but)
  {
    hide StreamOk, RestOf;
    var slab1 := slab[k := Some(x)];
    forall j: Key | Live(slab1, j) && j !in but ensures StreamOk(slab1[j].value, RestOf(in_flight, slot, j), hs[j]) {
      assert j != k ==> Live(slab, j);
    }
  }

  /** Leaving a stream out of account, and taking it in again. */
  lemma AllOkBut(slab: Slab, in_flight: InFlightData, slot: Option<Written>, hs: seq<History>, but: set<Key>, k: Key)
    requires AllOk(slab, in_flight, slot, hs, but) || AllOk(slab, in_flight, slot, hs, but + {k})
    ensures |hs| == |slab|
    ensures AllOk(slab, in_flight, slot, hs, but) ==> AllOk(slab, in_flight, slot, hs, but + {k})
    ensures Live(slab, k) && k !in but && AllOk(slab, in_flight, slot, hs, but) ==>
              StreamOk(slab[k].value, RestOf(in_flight, slot, k), hs[k])
    ensures (AllOk(slab, in_flight, slot, hs, but + {k})
             && (Live(slab, k) ==> StreamOk(slab[k].value, RestOf(in_flight, slot, k), hs[k]))) ==>
              AllOk(slab, in_flight, slot, hs, but)
  {
    hide StreamOk, RestOf;
  }

  // ----- Queues change

  lemma QueueKept(n: Next, q: seq<Key>, slab: Slab, k: Key, x: Stream)
    requires QueueIs(n, q, slab) && Live(slab, k) && IsQueued(n, x) == IsQueued(n, slab[k].value)
    ensures QueueIs(n, q, slab[k := Some(x)])
  {
    forall j ensures Member(n, slab[k := Some(x)], j) <==> Member(n, slab, j) {
    }
  }

  lemma QueuePushes(n: Next, q: seq<Key>, slab: Slab, k: Key, x: Stream)
    requires QueueIs(n, q, slab) && Live(slab, k) && !IsQueued(n, slab[k].value) && IsQueued(n, x)
    ensures QueueIs(n, q + [k], slab[k := Some(x)]) && QueueIs(n, [k] + q, slab[k := Some(x)])
  {
    var slab1 := slab[k := Some(x)];
    assert k !in q;
    forall j ensures j in q + [k] <==> Member(n, slab1, j) {
      assert j in q <==> Member(n, slab, j);
    }
    forall j ensures j in [k] + q <==> Member(n, slab1, j) {
      assert j in q <==> Member(n, slab, j);
    }
  }

  lemma QueuePops(n: Next, q: seq<Key>, slab: Slab, x: Stream)
    requires QueueIs(n, q, slab) && q != []
    requires Live(slab, q[0]) ==> !IsQueued(n, x)
    ensures Live(slab, q[0]) && IsQueued(n, slab[q[0]].value)
    ensures QueueIs(n, q[1..], slab[q[0] := Some(x)])
  {
    var k := q[0];
    assert Member(n, slab, k);
    var slab1 := slab[k := Some(x)];
    forall j ensures j in q[1..] <==> Member(n, slab1, j) {
      assert j in q <==> Member(n, slab, j);
    }
  }

  // ----- Frames queued in all streams

  function FrameCount(slab: Slab): nat {
    if slab == [] then 0
    else FrameCount(slab[..|slab| - 1]) + if slab[|slab| - 1].Some? then |slab[|slab| - 1].value.pending_send| else 0
  }

  function FramesAt(slab: Slab, k: Key): nat
    requires k < |slab|
  {
    if slab[k].Some? then |slab[k].value.pending_send| else 0
  }

  lemma {:induction false} FrameCountUpdate(slab: Slab, k: Key, x: Option<Stream>)
    requires k < |slab|
    ensures FrameCount(slab[k := x]) == FrameCount(slab) - FramesAt(slab, k) + FramesAt(slab[k := x], k)
    ensures FrameCount(slab) >= FramesAt(slab, k)
  {
    var n := |slab| - 1;
    if k == n {
      assert slab[k := x][..n] == slab[..n];
    } else {
      assert slab[k := x][..n] == slab[..n][k := x];
      FrameCountUpdate(slab[..n], k, x);
    }
  }

  lemma {:induction false} FrameCountSame(a: Slab, b: Slab)
    requires |a| == |b| && forall k :: 0 <= k < |a| ==> FramesAt(a, k) == FramesAt(b, k)
    ensures FrameCount(a) == FrameCount(b)
  {
    if a != [] {
      var n := |a| - 1;
      forall k | 0 <= k < n ensures FramesAt(a[..n], k) == FramesAt(b[..n], k) {
        assert FramesAt(a, k) == FramesAt(b, k);
      }
      FrameCountSame(a[..n], b[..n]);
      assert FramesAt(a, n) == FramesAt(b, n);
    }
  }
}
