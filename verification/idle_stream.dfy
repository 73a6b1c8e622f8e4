/**
  A run after which a stream is never given the capacity it needs, although there is some: more was
  buffered for it than a 32-bit request for capacity can express.
 */
module IdleStream {
  import opened Bits
  import opened Wrappers
  import opened FlowControl
  import opened StreamState
  import opened SendStreams
  import opened Prioritize

  const DEFAULT_WINDOW: nat := 65535
  const FRAME_SIZE: nat := 16384

  /** One closed stream with data queued and nothing in the codec; `c` is the connection's window. */
  ghost predicate Lone(p: Prioritizer, window: int, requested: int, buffered: int, c: int)
    reads p
  {
    && p.Valid() && |p.slab| == 1 && Live(p.slab, 0) && p.leaked == 0 && p.flow.window_size == c
    && p.in_flight_data_frame.Nothing? && p.next.None? && p.last_data_frame.None?
    && Draining(p.slab[0].value, window, requested, buffered)
  }

  predicate Draining(s: Stream, window: int, requested: int, buffered: int) {
    && s.send_flow.window_size == window && s.requested_send_capacity == requested && s.buffered_send_data == buffered
    && !s.is_pending_open && s.state == Closed(EndStream)
    && forall i :: 0 <= i < |s.pending_send| ==> s.pending_send[i].Data? && s.pending_send[i].payload != []
  }

  /** Such a stream has the whole window of the connection and is the next to send. */
  lemma Ready(p: Prioritizer, window: int, requested: int, buffered: int)
    requires Lone(p, window, requested, buffered, window) && 0 < window <= requested < buffered
    ensures p.slab[0].value.send_flow.available == window && p.flow.available == 0
    ensures p.pending_send != [] && p.pending_send[0] == 0 && !Stuck(p.slab[0].value)
    ensures p.slab[0].value.pending_send != []
  {
    var s := p.slab[0].value;
    CapacityBounded(p, 0);
    assert p.slab[..0] == [] && Assigned(p.slab) == s.send_flow.available;
    if p.flow.available > 0 {
      IdleExactly(p, 0);
    }
    DataInOrder(p, 0);
    NothingForgotten(p, 0);
    assert p.pending_send[0] in p.pending_send;
    assert Member(NextSend, p.slab, p.pending_send[0]);
  }

  /** The stream after a frame of `len` octets has gone out and what is left of it has come back. */
  function Shrunk(s: Stream, len: nat): Stream
    requires s.pending_send != [] && s.pending_send[0].Data? && len <= |s.pending_send[0].payload|
    requires len <= s.send_flow.available && len <= s.buffered_send_data && len <= s.requested_send_capacity
    requires len > 0 ==> len <= s.send_flow.window_size
  {
    var t, w := Unlinked(Chunked(s, len)), Remainder(0, s, len);
    if w.rest != [] then PutBack(t, w) else t
  }

  lemma ShrunkDrains(s: Stream, len: nat, window: int, requested: int, buffered: int)
    requires Draining(s, window, requested, buffered) && s.pending_send != []
    requires s.pending_send[0].Data? && 0 < len <= |s.pending_send[0].payload|
    requires len <= s.send_flow.available && len <= window && len < buffered && len <= requested
    ensures Draining(Shrunk(s, len), window - len, requested - len, buffered - len)
    ensures !Chunked(s, len).IsReleased()
  {
  }

  /** Sends one frame; what is left of it comes back. */
  method SendFrame(p: Prioritizer, ghost window: int, ghost requested: int, ghost buffered: int) returns (ghost n: nat)
    requires Lone(p, window, requested, buffered, window) && 0 < window <= requested < buffered
    modifies p
    ensures 0 < n <= window && Lone(p, window - n, requested - n, buffered - n, window - n)
  {
    Ready(p, window, requested, buffered);
    ghost var s := p.slab[0].value;
    hide Prioritizer.Core, Prioritizer.Settled, Draining, Chunked, Unlinked, PutBack, Shrunk;
    n := PopOnly(p, window, requested, buffered);
    ghost var slab1 := p.slab;
    p.FrameWritten();
    var back := p.ReclaimFrame();
    assert p.slab == [Some(Shrunk(s, n))];
  }

  /** The frame itself. */
  method PopOnly(p: Prioritizer, ghost window: int, ghost requested: int, ghost buffered: int) returns (ghost n: nat)
    requires Lone(p, window, requested, buffered, window) && 0 < window <= requested < buffered
    requires p.slab[0].value.send_flow.available == window && p.flow.available == 0
    requires p.pending_send != [] && p.pending_send[0] == 0 && !Stuck(p.slab[0].value)
    requires p.slab[0].value.pending_send != []
    modifies p
    ensures p.Valid() && p.last_data_frame.None? && p.in_flight_data_frame == DataFrame(0) && p.leaked == 0
    ensures var s := old(p.slab)[0].value;
            && 0 < n <= window && s.pending_send[0].Data? && n <= |s.pending_send[0].payload|
            && n <= s.buffered_send_data && n <= s.requested_send_capacity && n <= s.send_flow.window_size
            && p.slab == [Some(Unlinked(Chunked(s, n)))] && p.next == Some(Remainder(0, s, n))
            && p.flow.window_size == window - n
            && Draining(Shrunk(s, n), window - n, requested - n, buffered - n)
  {
    ghost var s := p.slab[0].value;
    CapacityBounded(p, 0);
    Only(p.slab, s);
    hide Prioritizer.Core, Prioritizer.Settled, Chunked, Unlinked, Shrunk, PutBack;
    var frame := p.PopOne(FRAME_SIZE);
    n := |frame.value.payload|;
    ShrunkDrains(s, n, window, requested, buffered);
    assert p.slab == [Some(Unlinked(Chunked(s, n)))];
    CapacityBounded(p, 0);
    Only(p.slab, Unlinked(Chunked(s, n)));
    ChunkedAvailable(s, n);
  }

  lemma Only(slab: Slab, s: Stream)
    requires slab == [Some(s)]
    ensures Assigned(slab) == s.send_flow.available
  {
    assert slab[..0] == [];
  }

  lemma ChunkedAvailable(s: Stream, len: nat)
    requires s.pending_send != [] && len <= s.send_flow.available && len <= s.buffered_send_data
    requires len <= s.requested_send_capacity && (len > 0 ==> len <= s.send_flow.window_size)
    ensures Unlinked(Chunked(s, len)).send_flow.available == s.send_flow.available - len
  {
  }

  /** Sends frame after frame until both windows are used up. */
  method Drain(p: Prioritizer, window: nat, ghost requested: int, ghost buffered: int)
    requires Lone(p, window, requested, buffered, window) && window <= requested < buffered
    modifies p
    ensures Lone(p, 0, requested - window, buffered - window, 0)
  {
    hide Lone;
    ghost var sent: nat := 0;
    var left: nat := window;
    while left > 0
      invariant left + sent == window && Lone(p, left, requested - sent, buffered - sent, left)
    {
      ghost var n := SendFrame(p, left, requested - sent, buffered - sent);
      LoneWindow(p, left - n, requested - sent - n, buffered - sent - n);
      left := p.flow.WindowSize();
      sent := sent + n;
    }
  }

  lemma LoneWindow(p: Prioritizer, window: nat, requested: int, buffered: int)
    requires Lone(p, window, requested, buffered, window)
    ensures p.flow.WindowSize() == window
  {
  }

  /** The peer gives `n` more octets, for the connection and the stream. */
  method Replenish(p: Prioritizer, n: nat, ghost requested: int, ghost buffered: int)
    requires Lone(p, 0, requested, buffered, 0) && 0 < n <= MAX_WINDOW_SIZE && buffered > 0
    modifies p
    ensures Lone(p, n, requested, buffered, n)
  {
    hide Prioritizer.Core, Prioritizer.Settled;
    ghost var s, slab0 := p.slab[0].value, p.slab;
    var r := p.RecvConnectionWindowUpdate(n);
    GrownOne(slab0, p.slab, {}, 0);
    GrownLone(s, p.slab[0].value, 0, requested, buffered);
    ghost var t := p.slab[0].value;
    r := p.RecvStreamWindowUpdate(n, 0);
    GrownLone(Widened(t, n), p.slab[0].value, n, requested, buffered);
  }

  lemma GrownLone(s: Stream, t: Stream, window: int, requested: int, buffered: int)
    requires Grown(s, t) && Draining(s, window, requested, buffered)
    ensures Draining(t, window, requested, buffered)
  {
  }

  // ----- The run

  /** A stream on which the response is being sent; `requested` octets are all that is buffered so far. */
  ghost predicate Serving(p: Prioritizer, requested: int, buffered: int)
    reads p
  {
    && p.Valid() && |p.slab| == 1 && Live(p.slab, 0) && p.leaked == 0 && p.flow.window_size == MAX_WINDOW_SIZE
    && p.in_flight_data_frame.Nothing? && p.next.None? && p.last_data_frame.None?
    && Responding(p.slab[0].value, requested, buffered)
  }

  predicate Responding(s: Stream, requested: int, buffered: int) {
    && s.send_flow.window_size == MAX_WINDOW_SIZE && s.requested_send_capacity == requested && s.buffered_send_data == buffered
    && !s.is_pending_open && s.state == HalfClosedRemote(Streaming)
    && forall i :: 0 <= i < |s.pending_send| ==> s.pending_send[i].Data? && s.pending_send[i].payload != []
  }

  /** A request has been received, on a stream whose window the client's settings made as large as it can be. */
  function Requested(): Stream {
    Stream(1, Idle.RecvOpen(true, false).value.0, true, 1, true, FlowControl(MAX_WINDOW_SIZE, 0), 0, 0, [],
           false, false, false, false, false, false)
  }

  /** The connection has one stream so far. */
  method Receive() returns (p: Prioritizer)
    ensures fresh(p) && p.Valid() && p.slab == [Some(Requested())] && p.leaked == 0 && p.flow.window_size == MAX_WINDOW_SIZE
    ensures p.in_flight_data_frame.Nothing? && p.next.None? && p.last_data_frame.None?
  {
    hide Prioritizer.Core, Prioritizer.Settled, AllGrown, IsNew, Requested;
    p := new Prioritizer(DEFAULT_WINDOW);
    var w := p.RecvConnectionWindowUpdate(MAX_WINDOW_SIZE - DEFAULT_WINDOW);
    EmptyStays([], p.slab);
    RequestedIsNew();
    ghost var none := p.slab;
    p.Insert(0, Requested());
    assert none == [] && p.slab == none + [Some(Requested())];
  }

  /** The server sends the head of its response. */
  method Respond() returns (p: Prioritizer)
    ensures fresh(p) && Serving(p, 0, 0)
  {
    p := Receive();
    hide Prioritizer.Core, Prioritizer.Settled, Responding, Requested, HeadersQueued, Delivered, Stuck;
    HeadSent();
    ghost var s := p.slab[0].value;
    var h := p.SendHeaders(0, false, false);
    ghost var t := p.slab[0].value;
    NothingForgotten(p, 0);
    CapacityBounded(p, 0);
    Only(p.slab, t);
    var frame := p.PopOne(FRAME_SIZE);
    assert p.slab == [Some(Unlinked(Delivered(t)))];
    CapacityBounded(p, 0);
    Only(p.slab, p.slab[0].value);
  }

  /** What queueing and sending the HEADERS makes of the stream. */
  lemma HeadSent()
    ensures Requested().state.SendOpen(false) == Ok(HalfClosedRemote(Streaming))
    ensures var t := HeadersQueued(Requested(), HalfClosedRemote(Streaming), false, false);
            && t.pending_send == [Headers(false)] && !t.is_pending_open && t.is_pending_send && t.send_flow.available == 0
            && !Stuck(t) && !Delivered(t).IsReleased() && Responding(Unlinked(Delivered(t)), 0, 0)
            && Unlinked(Delivered(t)).send_flow.available == 0
  {
  }

  lemma RequestedIsNew()
    ensures IsNew(Requested())
  {
  }

  lemma EmptyStays(a: Slab, b: Slab)
    requires AllGrown(a, b, {}) && a == []
    ensures b == []
  {
  }

  /** The application hands over a piece of the body. */
  method Give(p: Prioritizer, payload: Bytes, last: bool, ghost requested: int, ghost buffered: int)
    requires Serving(p, requested, buffered) && 0 < |payload| <= MAX_WINDOW_SIZE
    modifies p
    ensures !last ==> Serving(p, Max(requested, Min(buffered + |payload|, MAX_U32)), buffered + |payload|)
    ensures last ==> Lone(p, MAX_WINDOW_SIZE, Min(buffered + |payload|, MAX_U32), buffered + |payload|, MAX_WINDOW_SIZE)
  {
    hide Prioritizer.Core, Prioritizer.Settled, Responding, Draining;
    ghost var s := p.slab[0].value;
    var r := p.SendData(0, payload, last);
    AcceptedMore(s, p.slab[0].value, payload, last, requested, buffered);
  }

  lemma AcceptedMore(s: Stream, t: Stream, payload: Bytes, last: bool, requested: int, buffered: int)
    requires Responding(s, requested, buffered) && payload != []
    ensures s.state.IsSendStreaming()
    ensures Accepted(s, t, payload, last) ==>
              if last then Draining(t, MAX_WINDOW_SIZE, Min(buffered + |payload|, MAX_U32), buffered + |payload|)
              else Responding(t, Max(requested, Min(buffered + |payload|, MAX_U32)), buffered + |payload|)
  {
  }

  /**
    2^32 octets are handed over in three pieces, and all but the last two go out. Then the peer opens
    both windows by two more: the request has room for one octet only, so one is left with the
    connection although the stream has both data and room for it.
   */
  method RequestTooSmall() returns (p: Prioritizer)
    ensures p.Valid() && p.flow.available > 0 && Live(p.slab, 0)
    ensures IsShort(p.slab[0].value) && p.slab[0].value.state == Closed(EndStream)
  {
    hide Lone, Serving;
    p := Respond();
    var piece := seq(MAX_WINDOW_SIZE, _ => 0);
    Give(p, piece, false, 0, 0);
    Give(p, piece, false, MAX_WINDOW_SIZE, MAX_WINDOW_SIZE);
    Give(p, [0, 0], true, 2 * MAX_WINDOW_SIZE, 2 * MAX_WINDOW_SIZE);
    Drain(p, MAX_WINDOW_SIZE, MAX_U32, MAX_U32 + 1);
    Replenish(p, MAX_WINDOW_SIZE, MAX_U32 - MAX_WINDOW_SIZE, MAX_U32 + 1 - MAX_WINDOW_SIZE);
    Drain(p, MAX_WINDOW_SIZE, MAX_U32 - MAX_WINDOW_SIZE, MAX_U32 + 1 - MAX_WINDOW_SIZE);
    Replenish(p, 2, 1, 2);
    OneLeft(p);
  }

  lemma OneLeft(p: Prioritizer)
    requires Lone(p, 2, 1, 2, 2)
    ensures p.Valid() && p.flow.available > 0 && Live(p.slab, 0)
    ensures IsShort(p.slab[0].value) && p.slab[0].value.state == Closed(EndStream)
  {
    CapacityBounded(p, 0);
    Only(p.slab, p.slab[0].value);
  }
}
