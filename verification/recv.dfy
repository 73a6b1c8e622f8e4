/** The receiving side of a connection (src/proto/streams/recv.rs). */
module Recv {
  import opened Bits
  import opened Wrappers
  import opened FlowControl
  import opened StreamState
  import opened ReceiveWindows
  import opened RecvStreams

  const DEFAULT_INITIAL_WINDOW_SIZE: nat := 65535

  datatype WireReason = ProtocolError | FlowError

  /** A stream error resets the stream, a connection error ends the connection. */
  datatype RecvError = StreamReset(reason: WireReason) | GoAway(reason: WireReason)

  datatype UserError = ReleaseCapacityTooBig

  /** What becomes of a DATA frame. */
  datatype Outcome =
    | Refused(error: RecvError)
    | Ignored
    | Accepted

  /** The checks of `recv_data`, in their order. */
  function Judge(conn: Held, s: RecvStream, payload: Bytes, padding: nat, eos: bool): Outcome {
    var sz := |payload| + padding;
    if !s.state.IsLocalError() && !s.state.IsRecvStreaming() then Refused(GoAway(WireReason.ProtocolError))
    else if conn.flow.WindowSize() < sz then Refused(GoAway(FlowError))
    else if s.state.IsLocalError() then Ignored
    else JudgeStream(s, payload, padding, eos)
  }

  /** Those of them that concern the stream alone. */
  function JudgeStream(s: RecvStream, payload: Bytes, padding: nat, eos: bool): Outcome {
    var sz := |payload| + padding;
    var left := DecContentLength(s.content_length, |payload|);
    if s.held.flow.WindowSize() < sz then Refused(StreamReset(FlowError))
    else if left.None? || (eos && !ContentLengthZero(left.value)) then Refused(StreamReset(WireReason.ProtocolError))
    else if !s.is_recv then Ignored
    else Accepted
  }

  /** A message of announced length: its frames are taken while they fit, and the last only if nothing is missing. */
  lemma JudgedByLength(conn: Held, s: RecvStream, payload: Bytes, padding: nat, eos: bool)
    requires s.state.IsRecvStreaming() && s.content_length.Remaining? && s.is_recv
    requires |payload| + padding <= AsSize(conn.flow.window_size) && |payload| + padding <= AsSize(s.held.flow.window_size)
    ensures Judge(conn, s, payload, padding, eos).Accepted? <==>
            |payload| <= s.content_length.left && (eos ==> |payload| == s.content_length.left)
    ensures !Judge(conn, s, payload, padding, eos).Accepted? ==>
              Judge(conn, s, payload, padding, eos) == Refused(StreamReset(WireReason.ProtocolError))
  {
  }

  /** A window update that goes out for a stream. */
  datatype Update = Update(key: Key, incr: nat)

  /** A stream's turn to send a window update. */
  function Turn(s: RecvStream): (t: RecvStream)
    ensures t.held.in_flight == s.held.in_flight && t.is_linked == s.is_linked && !t.is_pending_window_update
  {
    var u := s.(is_pending_window_update := false);
    if s.state.IsRecvStreaming() && s.held.flow.UnclaimedCapacity().Some?
    then u.(held := u.held.(flow := u.held.flow.(window_size := u.held.flow.available)))
    else u
  }

  predicate Announces(s: RecvStream) {
    s.state.IsRecvStreaming() && s.held.flow.UnclaimedCapacity().Some?
  }

  /** The stream is not queued, and if it receives data its peer is well informed. */
  predicate UpToDate(s: RecvStream) {
    && !s.is_pending_window_update
    && (s.state.IsRecvStreaming() ==>
         WellInformed(s.held.flow) && (s.held.flow.window_size <= 0 ==> s.held.flow.available <= 0))
  }

  lemma TurnInforms(s: RecvStream)
    ensures UpToDate(Turn(s))
    ensures Announces(s) <==> s.state.IsRecvStreaming() && s.held.flow.available > s.held.flow.window_size
                              && 2 * Lag(s.held) + 1 >= s.held.flow.window_size
  {
    UnclaimedExactly(s.held.flow);
    if s.held.flow.UnclaimedCapacity().None? {
      NoneDue(s.held.flow);
    }
  }

  lemma AllInformed(a: Slab, b: Slab, q: seq<Key>, n: nat)
    requires n <= |q| && Turned(a, b, q[..n]) && forall k: Key :: k in q ==> Live(a, k)
    ensures forall k: Key :: k in q[..n] ==> Live(b, k) && UpToDate(b[k].value)
  {
    hide Turn, UpToDate;
    forall k: Key | k in q[..n] ensures Live(b, k) && UpToDate(b[k].value) {
      assert k in q && Live(a, k);
      TurnInforms(a[k].value);
    }
  }

  function TurnUpdates(slab: Slab, q: seq<Key>): seq<Update> {
    if q == [] then []
    else
      var k := q[|q| - 1];
      TurnUpdates(slab, q[..|q| - 1]) +
      if Live(slab, k) && Announces(slab[k].value) then [Update(k, Lag(slab[k].value.held))] else []
  }

  /** The streams of `q` have had their turn. */
  ghost predicate Turned(a: Slab, b: Slab, q: seq<Key>) {
    |a| == |b| && forall k :: 0 <= k < |a| ==> b[k] == if k in q && a[k].Some? then Some(Turn(a[k].value)) else a[k]
  }

  /** The streams of `q` have a new initial window. */
  ghost predicate Resized(a: Slab, b: Slab, q: seq<Key>, was: nat, now: nat) {
    |a| == |b| && forall k :: 0 <= k < |a| ==> b[k] == if k in q then Moved(a[k], now - was) else a[k]
  }

  function Moved(s: Option<RecvStream>, d: int): Option<RecvStream> {
    if s.Some? && Checked(s.value.held.flow.window_size + d).Some? && Checked(s.value.held.flow.available + d).Some?
    then Some(s.value.(held := s.value.held.(flow := FlowControl(s.value.held.flow.window_size + d, s.value.held.flow.available + d))))
    else s
  }

  class Recv {
    var init_window_sz: nat
    var conn: Held
    var pending_window_updates: seq<Key>
    var slab: Slab
    var ids: seq<Key>

    /** The connection's target, the largest one so far, and octets held by streams that are gone. */
    ghost var target: nat
    ghost var largest: nat
    ghost var forgotten: nat

    ghost predicate Valid()
      reads this
    {
      && ConnectionOk(conn, target, largest)
      && conn.in_flight == InFlight(slab) + forgotten
      && init_window_sz <= MAX_WINDOW_SIZE
      && AllOk(slab, init_window_sz)
      && QueueIs(pending_window_updates, slab)
      && IdsAre(ids, slab)
    }

    constructor ()
      ensures Valid()
      ensures slab == [] && ids == [] && pending_window_updates == [] && forgotten == 0
      ensures init_window_sz == target == DEFAULT_INITIAL_WINDOW_SIZE && conn == NewHeld(DEFAULT_INITIAL_WINDOW_SIZE)
    {
      init_window_sz := DEFAULT_INITIAL_WINDOW_SIZE;
      conn := NewHeld(DEFAULT_INITIAL_WINDOW_SIZE);
      pending_window_updates, slab, ids := [], [], [];
      target, largest, forgotten := DEFAULT_INITIAL_WINDOW_SIZE, DEFAULT_INITIAL_WINDOW_SIZE, 0;
    }

    /** No more is held by a stream than by the connection. */
    lemma StreamHolds(k: Key)
      requires Valid() && Live(slab, k)
      ensures slab[k].value.held.in_flight <= InFlight(slab) <= conn.in_flight <= MAX_WINDOW_SIZE
      ensures StreamOk(slab[k].value, init_window_sz)
    {
      InFlightUpdate(slab, k, slab[k]);
    }

    /** Replaces a stream by one that holds `d` octets more. */
    method Set(k: Key, s: RecvStream)
      requires Live(slab, k) && AllOk(slab, init_window_sz) && QueueIs(pending_window_updates, slab) && IdsAre(ids, slab)
      requires StreamOk(s, init_window_sz) && s.is_linked == slab[k].value.is_linked
      requires s.is_pending_window_update == slab[k].value.is_pending_window_update
      modifies this`slab
      ensures slab == old(slab)[k := Some(s)]
      ensures AllOk(slab, init_window_sz) && QueueIs(pending_window_updates, slab) && IdsAre(ids, slab)
      ensures InFlight(slab) == InFlight(old(slab)) - old(slab)[k].value.held.in_flight + s.held.in_flight
    {
      HeldAt(slab, k, s);
      hide *;
      Replaced(slab, k, s, init_window_sz, ids, pending_window_updates);
      InFlightUpdate(slab, k, Some(s));
      slab := slab[k := Some(s)];
    }

    // ----- The life of a stream

    /** A new stream in a vacant place, found by its identifier. */
    method Insert(k: Key, state: State, content_length: ContentLength)
      requires Valid() && (k == |slab| || (k < |slab| && slab[k].None?))
      modifies this`slab, this`ids
      ensures Valid() && ids == old(ids) + [k] && Live(slab, k)
      ensures slab[k].value == RecvStream(state, NewHeld(init_window_sz), content_length, [], true, false, true)
      ensures slab == (if k == |old(slab)| then old(slab) + [slab[k]] else old(slab)[k := slab[k]])
    {
      var s := RecvStream(state, NewHeld(init_window_sz), content_length, [], true, false, true);
      NewOk(s, init_window_sz);
      Inserted(slab, k, s, init_window_sz, ids, pending_window_updates);
      hide InFlight, StreamOk, ConnectionOk, AllOk, QueueIs, IdsAre;
      slab := if k == |slab| then slab + [Some(s)] else slab[k := Some(s)];
      ids := ids + [k];
    }

    /** Anything the rest of the connection does to the state of a stream. */
    method Transition(k: Key, state: State)
      requires Valid() && Live(slab, k)
      modifies this`slab
      ensures Valid() && slab == old(slab)[k := Some(old(slab)[k].value.(state := state))]
    {
      StreamHolds(k);
      var s := slab[k].value.(state := state);
      StateFree(slab[k].value, s, init_window_sz);
      hide *;
      Set(k, s);
    }

    // ----- Capacity

    method ReleaseConnectionCapacity(capacity: nat)
      requires ConnectionOk(conn, target, largest) && capacity <= conn.in_flight
      modifies this`conn
      ensures ConnectionOk(conn, target, largest)
      ensures conn == Held(old(conn).flow.(available := old(conn).flow.available + capacity), old(conn).in_flight - capacity)
    {
      ConnectionReleases(conn, capacity, target, largest);
      conn := Release(conn, capacity);
    }

    /** Octets are counted against the connection, when its window allows them. */
    method ConsumeConnectionWindow(sz: nat) returns (ok: bool)
      requires ConnectionOk(conn, target, largest) && sz <= MAX_WINDOW_SIZE
      modifies this`conn
      ensures ConnectionOk(conn, target, largest)
      ensures ok <==> sz <= old(conn).flow.window_size
      ensures conn == if ok then Held(FlowControl(old(conn).flow.window_size - sz, old(conn).flow.available - sz),
                                      old(conn).in_flight + sz)
                      else old(conn)
    {
      ConnectionConsumes(conn, sz, target, largest);
      var c := Consume(conn, sz);
      if c.Err? {
        return false;
      }
      conn := c.value;
      ok := true;
    }

    /** Octets nobody will read: only the advertised window shrinks. */
    method IgnoreData(sz: nat) returns (ok: bool)
      requires Valid() && sz <= MAX_WINDOW_SIZE
      modifies this`conn
      ensures Valid() && (ok <==> sz <= old(conn).flow.window_size)
      ensures conn == if ok then old(conn).(flow := old(conn).flow.(window_size := old(conn).flow.window_size - sz)) else old(conn)
    {
      hide InFlight, AllOk, QueueIs, IdsAre;
      ok := ConsumeConnectionWindow(sz);
      if ok {
        ReleaseConnectionCapacity(sz);
      }
    }

    method Enqueue(k: Key)
      requires Live(slab, k) && AllOk(slab, init_window_sz) && QueueIs(pending_window_updates, slab) && IdsAre(ids, slab)
      modifies this`slab, this`pending_window_updates
      ensures AllOk(slab, init_window_sz) && QueueIs(pending_window_updates, slab) && IdsAre(ids, slab)
      ensures slab == old(slab)[k := Some(old(slab)[k].value.(is_pending_window_update := true))]
      ensures InFlight(slab) == InFlight(old(slab))
      ensures pending_window_updates == old(pending_window_updates) + if old(slab)[k].value.is_pending_window_update then [] else [k]
    {
      var s := slab[k].value.(is_pending_window_update := true);
      HeldAt(slab, k, s);
      hide *;
      if !slab[k].value.is_pending_window_update {
        Enqueued(slab, k, init_window_sz, ids, pending_window_updates);
        InFlightUpdate(slab, k, Some(s));
        slab := slab[k := Some(s)];
        pending_window_updates := pending_window_updates + [k];
      }
    }

    /** The application is done with octets of a stream: they go back to the connection and the stream. */
    method ReleaseCapacity(k: Key, capacity: nat) returns (r: Result<(), UserError>)
      requires Valid() && Live(slab, k)
      modifies this`conn, this`slab, this`pending_window_updates
      ensures Valid()
      ensures r.Ok? <==> capacity <= old(slab)[k].value.held.in_flight
      ensures r.Err? ==> conn == old(conn) && slab == old(slab) && pending_window_updates == old(pending_window_updates)
      ensures r.Ok? ==> Returned(old(conn), conn, capacity)
      ensures r.Ok? ==> Live(slab, k) && Returned(old(slab)[k].value.held, slab[k].value.held, capacity)
      ensures r.Ok? ==> slab == old(slab)[k := Some(old(slab)[k].value.(held := slab[k].value.held,
                                                   is_pending_window_update := slab[k].value.is_pending_window_update))]
      ensures r.Ok? ==> (slab[k].value.is_pending_window_update <==>
                          old(slab)[k].value.is_pending_window_update || slab[k].value.held.flow.UnclaimedCapacity().Some?)
    {
      StreamHolds(k);
      if capacity > slab[k].value.held.in_flight {
        return Err(ReleaseCapacityTooBig);
      }
      var s := slab[k].value;
      var t := s.(held := Release(s.held, capacity));
      ReleasedOk(s, capacity, init_window_sz);
      ReleaseConnectionCapacity(capacity);
      hide AllOk, QueueIs, IdsAre, StreamOk, InFlight, ConnectionOk, Release, FlowControl.UnclaimedCapacity;
      Set(k, t);
      if t.held.flow.UnclaimedCapacity().Some? {
        Enqueue(k);
      }
      r := Ok(());
    }

    /** What is buffered but not yet read counts as released, as far as the stream still holds it. */
    method ClearRecvBuffer(k: Key)
      requires Valid() && Live(slab, k)
      modifies this`conn, this`slab
      ensures Valid() && Live(slab, k)
      ensures Cleared(old(slab)[k].value, slab[k].value) && slab == old(slab)[k := slab[k]]
      ensures Returned(old(conn), conn, old(slab)[k].value.held.in_flight - slab[k].value.held.in_flight)
    {
      StreamHolds(k);
      var s := slab[k].value;
      var to_release := CountBuffered(s);
      var t := s.(pending_recv := [], held := s.held.(in_flight := s.held.in_flight - to_release));
      ClearedOk(s, to_release, init_window_sz);
      hide AllOk, QueueIs, IdsAre, StreamOk, InFlight, ConnectionOk, Release, FlowControl.UnclaimedCapacity, Buffered;
      Set(k, t);
      if to_release > 0 {
        ReleaseConnectionCapacity(to_release);
      }
    }

    /** How much of what is buffered the stream still holds; the sum does not go beyond 32 bits. */
    method CountBuffered(s: RecvStream) returns (to_release: nat)
      requires forall e :: e in s.pending_recv && e.DataEvent? ==> |e.payload| <= MAX_WINDOW_SIZE
      requires s.held.in_flight <= MAX_WINDOW_SIZE
      ensures to_release == Min(|Buffered(s.pending_recv)|, s.held.in_flight)
    {
      var q := s.pending_recv;
      to_release := 0;
      while q != []
        invariant to_release <= s.held.in_flight && forall e :: e in q ==> e in s.pending_recv
        invariant Min(to_release + |Buffered(q)|, s.held.in_flight) == Min(|Buffered(s.pending_recv)|, s.held.in_flight)
      {
        assert |Buffered(q)| == |PayloadOf(q[0])| + |Buffered(q[1..])|;
        assert q[0] in q;
        if q[0].DataEvent? {
          to_release := Min(Min(to_release + |q[0].payload|, 0xffff_ffff), s.held.in_flight);
        }
        q := q[1..];
      }
    }

    /** The application will not read any more. */
    method StopReading(k: Key)
      requires Valid() && Live(slab, k)
      modifies this`conn, this`slab
      ensures Valid() && Live(slab, k) && !slab[k].value.is_recv
      ensures Cleared(old(slab)[k].value.(is_recv := false), slab[k].value) && slab == old(slab)[k := slab[k]]
      ensures Returned(old(conn), conn, old(slab)[k].value.held.in_flight - slab[k].value.held.in_flight)
    {
      StreamHolds(k);
      var s := slab[k].value.(is_recv := false);
      ReadingFree(slab[k].value, s, init_window_sz);
      hide AllOk, QueueIs, IdsAre, StreamOk, InFlight, ConnectionOk, Cleared;
      Set(k, s);
      ClearRecvBuffer(k);
    }

    /** Nobody refers to the stream any more: the connection gets everything back. */
    method ReleaseClosedCapacity(k: Key)
      requires Valid() && Live(slab, k)
      modifies this`conn, this`slab
      ensures Valid() && Live(slab, k) && slab[k].value.held.in_flight == 0 && slab[k].value.pending_recv == []
      ensures slab == old(slab)[k := Some(old(slab)[k].value.(held := old(slab)[k].value.held.(in_flight := 0), pending_recv := []))]
      ensures Returned(old(conn), conn, old(slab)[k].value.held.in_flight)
    {
      StreamHolds(k);
      var s := slab[k].value;
      var n := s.held.in_flight;
      var t := s.(held := s.held.(in_flight := 0));
      ForgetsOk(s, init_window_sz);
      hide AllOk, QueueIs, IdsAre, StreamOk, InFlight, ConnectionOk;
      if n != 0 {
        ReleaseConnectionCapacity(n);
        Set(k, t);
      }
      ClearRecvBuffer(k);
    }

    /** The connection's share of memory changes. */
    method SetTargetConnectionWindow(next: nat)
      requires Valid() && next <= MAX_WINDOW_SIZE
      modifies this`conn, this`target, this`largest
      ensures Valid() && target == next && largest == Max(old(largest), next)
      ensures conn == old(conn).(flow := old(conn).flow.(available := next - old(conn).in_flight))
    {
      hide InFlight, AllOk, QueueIs, IdsAre;
      ConnectionRetargets(conn, next, target, largest);
      conn := Retarget(conn, next).value;
      target, largest := next, Max(largest, next);
    }

    // ----- DATA

    /**
      A DATA frame of a stream. The stream errors give the octets back to the connection at once,
      as the caller in the source does.
     */
    method RecvData(k: Key, payload: Bytes, padding: nat, eos: bool) returns (r: Result<(), RecvError>)
      requires Valid() && Live(slab, k) && |payload| + padding <= MAX_WINDOW_SIZE
      modifies this`conn, this`slab, this`pending_window_updates
      ensures Valid() && Live(slab, k)
      ensures var j := Judge(old(conn), old(slab)[k].value, payload, padding, eos);
              && r == (if j.Refused? then Err(j.error) else Ok(()))
              && (r.Err? && r.error.GoAway? ==> conn == old(conn) && slab == old(slab))
              && ((r.Ok? || r.error.StreamReset?) ==> Charged(old(conn), conn, |payload| + padding, if j.Accepted? then |payload| else 0))
              && slab == old(slab)[k := slab[k]]
              && (!j.Accepted? ==> slab[k].value.held == old(slab)[k].value.held && slab[k].value.pending_recv == old(slab)[k].value.pending_recv)
              && (j.Accepted? ==> Taken(old(slab)[k].value, slab[k].value, payload, padding, eos))
    {
      StreamHolds(k);
      var s := slab[k].value;
      var sz := |payload| + padding;
      if !s.state.IsLocalError() && !s.state.IsRecvStreaming() {
        return Err(GoAway(WireReason.ProtocolError));
      }
      hide AllOk, QueueIs, IdsAre, InFlight, StreamOk, Taken;
      if s.state.IsLocalError() {
        var ok := IgnoreData(sz);
        return if ok then Ok(()) else Err(GoAway(FlowError));
      }
      var ok := ConsumeConnectionWindow(sz);
      if !ok {
        return Err(GoAway(FlowError));
      }
      r := StreamData(k, payload, padding, eos);
    }

    /** The frame is counted against the connection; now for the stream. */
    method StreamData(k: Key, payload: Bytes, padding: nat, eos: bool) returns (r: Result<(), RecvError>)
      requires |payload| + padding <= MAX_WINDOW_SIZE && ConnectionOk(conn, target, largest)
      requires AllOk(slab, init_window_sz) && QueueIs(pending_window_updates, slab) && IdsAre(ids, slab)
      requires conn.in_flight == InFlight(slab) + forgotten + |payload| + padding && init_window_sz <= MAX_WINDOW_SIZE
      requires Live(slab, k) && slab[k].value.state.IsRecvStreaming()
      modifies this`conn, this`slab, this`pending_window_updates
      ensures Valid() && Live(slab, k)
      ensures var s, j := old(slab)[k].value, JudgeStream(old(slab)[k].value, payload, padding, eos);
              && r == (if j.Refused? then Err(j.error) else Ok(()))
              && Returned(old(conn), conn, |payload| + padding - if j.Accepted? then |payload| else 0)
              && slab == old(slab)[k := slab[k]]
              && (!j.Accepted? ==> slab[k].value.held == s.held && slab[k].value.pending_recv == s.pending_recv)
              && (j.Accepted? ==> Taken(s, slab[k].value, payload, padding, eos))
    {
      var s := slab[k].value;
      var sz := |payload| + padding;
      assert StreamOk(s, init_window_sz);
      hide AllOk, QueueIs, IdsAre, InFlight, StreamOk, Taken, ConnectionOk;
      if s.held.flow.WindowSize() < sz {
        ReleaseConnectionCapacity(sz);
        return Err(StreamReset(FlowError));
      }
      var left := DecContentLength(s.content_length, |payload|);
      if left.None? {
        ReleaseConnectionCapacity(sz);
        return Err(StreamReset(WireReason.ProtocolError));
      }
      var t := s.(content_length := left.value, state := if eos then s.state.RecvClose().value else s.state);
      if eos && !ContentLengthZero(left.value) {
        StateAndLengthFree(s, s.(content_length := left.value), init_window_sz);
        Set(k, s.(content_length := left.value));
        ReleaseConnectionCapacity(sz);
        return Err(StreamReset(WireReason.ProtocolError));
      }
      StateAndLengthFree(s, t, init_window_sz);
      if !s.is_recv {
        Set(k, t);
        ReleaseConnectionCapacity(sz);
        return Ok(());
      }
      Deposit(k, t, payload, padding, eos);
      TakenFrom(s, t, slab[k].value, payload, padding, eos);
      r := Ok(());
    }

    /** The frame fits the window of its stream, which holds it from now on; padding goes straight back. */
    method Deposit(k: Key, t: RecvStream, payload: Bytes, padding: nat, eos: bool)
      requires |payload| + padding <= MAX_WINDOW_SIZE && ConnectionOk(conn, target, largest)
      requires AllOk(slab, init_window_sz) && QueueIs(pending_window_updates, slab) && IdsAre(ids, slab)
      requires conn.in_flight == InFlight(slab) + forgotten + |payload| + padding && init_window_sz <= MAX_WINDOW_SIZE
      requires Live(slab, k) && t.held == slab[k].value.held && t.is_linked == slab[k].value.is_linked
      requires t.is_pending_window_update == slab[k].value.is_pending_window_update
      requires StreamOk(t, init_window_sz) && |payload| + padding <= t.held.flow.WindowSize()
      modifies this`conn, this`slab, this`pending_window_updates
      ensures Valid() && Live(slab, k)
      ensures Returned(old(conn), conn, padding)
      ensures slab == old(slab)[k := slab[k]] && TakenBy(t, slab[k].value, payload, padding, eos)
    {
      hide AllOk, QueueIs, IdsAre, InFlight, StreamOk, ConnectionOk, FlowControl.UnclaimedCapacity, FlowControl.WindowSize;
      Hold(k, t, |payload| + padding);
      if padding > 0 {
        var padded := ReleaseCapacity(k, padding);
      }
      if payload != [] || eos {
        PushEvent(k, DataEvent(payload));
      }
    }

    method Hold(k: Key, t: RecvStream, sz: nat)
      requires sz <= MAX_WINDOW_SIZE && ConnectionOk(conn, target, largest)
      requires AllOk(slab, init_window_sz) && QueueIs(pending_window_updates, slab) && IdsAre(ids, slab)
      requires conn.in_flight == InFlight(slab) + forgotten + sz && init_window_sz <= MAX_WINDOW_SIZE
      requires Live(slab, k) && t.held == slab[k].value.held && t.is_linked == slab[k].value.is_linked
      requires t.is_pending_window_update == slab[k].value.is_pending_window_update
      requires StreamOk(t, init_window_sz) && sz <= t.held.flow.WindowSize()
      modifies this`slab
      ensures Valid() && Live(slab, k) && Charged(t.held, slab[k].value.held, sz, sz)
      ensures slab == old(slab)[k := slab[k]] && slab[k].value == t.(held := slab[k].value.held)
    {
      DepositOk(t, sz, init_window_sz);
      hide AllOk, QueueIs, IdsAre, InFlight, StreamOk, ConnectionOk, Consume, FlowControl.UnclaimedCapacity, FlowControl.WindowSize;
      Set(k, t.(held := Consume(t.held, sz).value));
    }

    method PushEvent(k: Key, e: Event)
      requires Valid() && Live(slab, k) && |PayloadOf(e)| <= MAX_WINDOW_SIZE
      modifies this`slab
      ensures Valid() && Live(slab, k)
      ensures slab == old(slab)[k := Some(old(slab)[k].value.(pending_recv := old(slab)[k].value.pending_recv + [e]))]
    {
      StreamHolds(k);
      EventOk(slab[k].value, e, init_window_sz);
      hide AllOk, QueueIs, IdsAre, InFlight, StreamOk, ConnectionOk;
      Set(k, slab[k].value.(pending_recv := slab[k].value.pending_recv + [e]));
    }

    /** The next piece of payload, unless something else comes first. */
    method PollData(k: Key) returns (payload: Option<Bytes>)
      requires Valid() && Live(slab, k)
      modifies this`slab
      ensures Valid() && Live(slab, k)
      ensures payload.Some? <==> old(slab)[k].value.pending_recv != [] && old(slab)[k].value.pending_recv[0].DataEvent?
      ensures payload.Some? ==> Buffered(old(slab)[k].value.pending_recv) == payload.value + Buffered(slab[k].value.pending_recv)
      ensures payload.Some? ==> slab[k].value.pending_recv == old(slab)[k].value.pending_recv[1..]
      ensures slab == old(slab)[k := Some(old(slab)[k].value.(pending_recv := slab[k].value.pending_recv))]
      ensures payload.None? ==> slab == old(slab)
    {
      StreamHolds(k);
      var q := slab[k].value.pending_recv;
      if q == [] || !q[0].DataEvent? {
        return None;
      }
      PopOk(slab[k].value, init_window_sz);
      payload := Some(q[0].payload);
      hide AllOk, QueueIs, IdsAre, InFlight, StreamOk, ConnectionOk;
      Set(k, slab[k].value.(pending_recv := q[1..]));
    }

    // ----- Settings and window updates

    /** The peer acknowledged new settings. No stream makes it fail. */
    method ApplyLocalSettings(initial_window_size: Option<nat>)
      requires Valid() && (initial_window_size.Some? ==> initial_window_size.value <= MAX_WINDOW_SIZE)
      modifies this`init_window_sz, this`slab
      ensures Valid()
      ensures init_window_sz == if initial_window_size.Some? then initial_window_size.value else old(init_window_sz)
      ensures Resized(old(slab), slab, ids, old(init_window_sz), init_window_sz)
    {
      ResizedNone(slab, init_window_sz);
      ResizedEqually(slab, ids, init_window_sz);
      hide Resized, StreamOk, InFlight, ConnectionOk, AllOk, QueueIs, IdsAre;
      if initial_window_size.None? {
        return;
      }
      var was, now := init_window_sz, initial_window_size.value;
      init_window_sz := now;
      if now == was {
        return;
      }
      ghost var slab0 := slab;
      for i := 0 to |ids|
        invariant Resized(slab0, slab, ids[..i], was, now)
        modifies this`slab
      {
        ResizedNext(slab0, slab, ids, i, was, now, pending_window_updates);
        var s := slab[ids[i]].value;
        slab := slab[ids[i] := Some(s.(held := Resize(s.held, was, now).value))];
      }
      assert ids[..|ids|] == ids;
      ResizedOk(slab0, slab, ids, was, now, pending_window_updates);
    }

    /** The peer is told of released octets once they make up half of its window. */
    method SendConnectionWindowUpdate(has_capacity: bool) returns (incr: Option<nat>, full: bool)
      requires Valid()
      modifies this`conn
      ensures Valid()
      ensures incr.Some? || full <==> old(conn).flow.UnclaimedCapacity().Some?
      ensures full <==> !has_capacity && old(conn).flow.UnclaimedCapacity().Some?
      ensures incr.Some? || full <==>
                var f := old(conn).flow;
                f.available > f.window_size && 2 * (f.available - f.window_size) + 1 >= f.window_size
      ensures !full ==> WellInformed(conn.flow) && (conn.flow.window_size <= 0 ==> conn.flow.available <= 0)
      ensures incr.Some? ==> incr.value == Lag(old(conn)) > 0
                             && conn == old(conn).(flow := old(conn).flow.(window_size := old(conn).flow.available))
      ensures incr.None? ==> conn == old(conn)
    {
      UnclaimedExactly(conn.flow);
      var unclaimed := conn.flow.UnclaimedCapacity();
      if unclaimed.None? {
        NoneDue(conn.flow);
        return None, false;
      }
      ConnectionAnnounces(conn, target, largest);
      hide AllOk, QueueIs, IdsAre, InFlight;
      if !has_capacity {
        return None, true;
      }
      conn := Announce(conn, unclaimed.value).value;
      incr, full := unclaimed, false;
    }

    /** The streams in the queue have their turn, as long as the codec takes frames. */
    method SendStreamWindowUpdates(slots: nat) returns (frames: seq<Update>, full: bool)
      requires Valid()
      modifies this`slab, this`pending_window_updates
      ensures Valid()
      ensures |frames| <= slots && (full <==> |frames| == slots) && (!full ==> pending_window_updates == [])
      ensures var n := |old(pending_window_updates)| - |pending_window_updates|;
              && n >= 0 && pending_window_updates == old(pending_window_updates)[n..]
              && Turned(old(slab), slab, old(pending_window_updates)[..n])
              && frames == TurnUpdates(old(slab), old(pending_window_updates)[..n])
              && forall k: Key :: k in old(pending_window_updates)[..n] ==> Live(slab, k) && UpToDate(slab[k].value)
    {
      hide AllOk, QueueIs, IdsAre, InFlight, ConnectionOk, StreamOk, Turned, TurnUpdates, Announces;
      frames := [];
      ghost var q, n := pending_window_updates, 0;
      QueueLive(q, slab);
      TurnedNone(slab);
      assert q[..0] == [];
      while |frames| < slots && pending_window_updates != []
        invariant 0 <= n <= |q| && pending_window_updates == q[n..] && Valid() && |frames| <= slots
        invariant Turned(old(slab), slab, q[..n]) && frames == TurnUpdates(old(slab), q[..n])
        decreases |pending_window_updates|
        modifies this`slab, this`pending_window_updates
      {
        TurnedNext(old(slab), slab, q, n, pending_window_updates);
        var more := TakeTurn();
        frames := frames + more;
        n := n + 1;
      }
      full := |frames| == slots;
      AllInformed(old(slab), slab, q, n);
    }

    /** The first stream in the queue. */
    method TakeTurn() returns (frames: seq<Update>)
      requires Valid() && pending_window_updates != []
      modifies this`slab, this`pending_window_updates
      ensures Valid() && pending_window_updates == old(pending_window_updates)[1..]
      ensures var k := old(pending_window_updates)[0];
              && Live(old(slab), k) && slab == old(slab)[k := Some(Turn(old(slab)[k].value))]
              && frames == if Announces(old(slab)[k].value) then [Update(k, Lag(old(slab)[k].value.held))] else []
    {
      var k := pending_window_updates[0];
      assert Pending(slab, k);
      StreamHolds(k);
      var s := slab[k].value;
      var t := s.(is_pending_window_update := false);
      TurnOk(s, init_window_sz);
      hide AllOk, QueueIs, IdsAre, InFlight, ConnectionOk, StreamOk, Turn;
      frames := [];
      if s.state.IsRecvStreaming() {
        var unclaimed := t.held.flow.UnclaimedCapacity();
        if unclaimed.Some? {
          frames := [Update(k, unclaimed.value)];
          t := t.(held := Announce(t.held, unclaimed.value).value);
        }
      }
      Dequeued(slab, t, init_window_sz, ids, pending_window_updates);
      InFlightUpdate(slab, k, Some(t));
      HeldAt(slab, k, t);
      slab := slab[k := Some(t)];
      pending_window_updates := pending_window_updates[1..];
    }

    // ----- The end of a stream

    /** The stream can no longer be found by its identifier; settings do not reach it any more. */
    method Unlink(k: Key)
      requires Valid() && Live(slab, k)
      modifies this`slab, this`ids
      ensures Valid() && slab == old(slab)[k := Some(old(slab)[k].value.(is_linked := false))]
    {
      StreamHolds(k);
      var s := slab[k].value.(is_linked := false);
      UnlinkOk(slab[k].value, init_window_sz);
      HeldAt(slab, k, s);
      InFlightUpdate(slab, k, Some(s));
      ghost var slab0 := slab;
      Unlinked(slab, k, init_window_sz, ids, pending_window_updates);
      hide AllOk, QueueIs, IdsAre, InFlight, ConnectionOk, StreamOk, NoRepeats;
      slab := slab[k := Some(s)];
      ids := Without(ids, k);
    }

    /** The stream leaves the store; the connection does not get back what it still holds. */
    method Remove(k: Key)
      requires Valid() && Live(slab, k) && !slab[k].value.is_linked && !slab[k].value.is_pending_window_update
      modifies this`slab, this`forgotten
      ensures Valid() && slab == old(slab)[k := None]
      ensures forgotten == old(forgotten) + old(slab)[k].value.held.in_flight
    {
      InFlightUpdate(slab, k, None);
      Removed(slab, k, init_window_sz, ids, pending_window_updates);
      forgotten := forgotten + slab[k].value.held.in_flight;
      slab := slab[k := None];
      hide AllOk, QueueIs, IdsAre, InFlight, ConnectionOk, StreamOk;
    }

    // ----- What always holds

    /** Releases never take more than there is, and no more is ever held or promised than was once intended. */
    lemma ConnectionBounded()
      requires Valid()
      ensures conn.flow.available + conn.in_flight == target
      ensures InFlight(slab) <= conn.in_flight
      ensures conn.in_flight + conn.flow.window_size <= largest
      ensures conn.flow.UnclaimedCapacity().Some? ==> Announce(conn, conn.flow.UnclaimedCapacity().value).Ok?
    {
      if conn.flow.UnclaimedCapacity().Some? {
        ConnectionAnnounces(conn, target, largest);
      }
    }

    /**
      The windows of a stream that settings reach: promised <= available, available and held together
      no more than the initial window. New settings and updates cannot fail.
     */
    lemma StreamBounded(k: Key, now: nat)
      requires Valid() && Linked(slab, k) && now <= MAX_WINDOW_SIZE
      ensures var h := slab[k].value.held;
              && h.flow.window_size <= h.flow.available && h.flow.available + h.in_flight <= init_window_sz
              && Resize(h, init_window_sz, now).Ok?
              && (h.flow.UnclaimedCapacity().Some? ==> Announce(h, h.flow.UnclaimedCapacity().value).Ok?)
    {
      assert StreamOk(slab[k].value, init_window_sz);
      StreamResizes(slab[k].value.held, init_window_sz, now);
      if slab[k].value.held.flow.UnclaimedCapacity().Some? {
        StreamAnnounces(slab[k].value.held);
      }
    }
  }

  function Without(q: seq<Key>, k: Key): (r: seq<Key>)
  {
    if q == [] then [] else Without(q[..|q| - 1], k) + if q[|q| - 1] == k then [] else [q[|q| - 1]]
  }

  lemma {:induction false} WithoutOk(q: seq<Key>, k: Key)
    requires NoRepeats(q)
    ensures NoRepeats(Without(q, k))
    ensures forall j: Key :: j in Without(q, k) <==> j in q && j != k
  {
    if q != [] {
      var p := q[..|q| - 1];
      assert NoRepeats(p);
      WithoutOk(p, k);
      assert q == p + [q[|q| - 1]];
      assert forall j: Key :: j in q <==> j in p || j == q[|q| - 1];
      var w := Without(p, k);
      assert forall i :: 0 <= i < |w| ==> w[i] in p;
      assert q[|q| - 1] !in p;
    }
  }

  lemma Unlinked(slab: Slab, k: Key, init: nat, ids: seq<Key>, q: seq<Key>)
    requires Live(slab, k) && AllOk(slab, init) && IdsAre(ids, slab) && QueueIs(q, slab)
    ensures var t := slab[k := Some(slab[k].value.(is_linked := false))];
            AllOk(t, init) && IdsAre(Without(ids, k), t) && QueueIs(q, t)
  {
    var t := slab[k := Some(slab[k].value.(is_linked := false))];
    WithoutOk(ids, k);
    assert StreamOk(slab[k].value, init);
    UnlinkOk(slab[k].value, init);
    hide StreamOk, NoRepeats, Without;
    assert forall j: Key :: Pending(t, j) <==> Pending(slab, j);
    assert forall j: Key :: Linked(t, j) <==> Linked(slab, j) && j != k;
    assert forall j: Key :: Live(t, j) <==> Live(slab, j);
  }

  lemma UnlinkOk(s: RecvStream, init: nat)
    requires StreamOk(s, init)
    ensures StreamOk(s.(is_linked := false), init)
  {
  }

  lemma Removed(slab: Slab, k: Key, init: nat, ids: seq<Key>, q: seq<Key>)
    requires Live(slab, k) && AllOk(slab, init) && IdsAre(ids, slab) && QueueIs(q, slab)
    requires !slab[k].value.is_linked && !slab[k].value.is_pending_window_update
    ensures AllOk(slab[k := None], init) && IdsAre(ids, slab[k := None]) && QueueIs(q, slab[k := None])
  {
    var t := slab[k := None];
    hide StreamOk, NoRepeats;
    assert forall j: Key :: Pending(t, j) <==> Pending(slab, j);
    assert forall j: Key :: Linked(t, j) <==> Linked(slab, j);
    assert forall j: Key :: Live(t, j) <==> Live(slab, j) && j != k;
  }

  lemma TurnOk(s: RecvStream, init: nat)
    requires StreamOk(s, init)
    ensures StreamOk(Turn(s), init)
    ensures s.held.flow.UnclaimedCapacity().Some? ==>
              && 0 < s.held.flow.UnclaimedCapacity().value == Lag(s.held) <= MAX_WINDOW_SIZE
              && Announce(s.held, Lag(s.held)) == Ok(s.held.(flow := s.held.flow.(window_size := s.held.flow.available)))
    ensures Turn(s) == if Announces(s) then s.(is_pending_window_update := false, held := Announce(s.held, Lag(s.held)).value)
                       else s.(is_pending_window_update := false)
  {
    if s.held.flow.UnclaimedCapacity().Some? {
      StreamAnnounces(s.held);
    }
  }

  lemma QueueLive(q: seq<Key>, slab: Slab)
    requires QueueIs(q, slab)
    ensures forall k: Key :: k in q ==> Live(slab, k)
  {
    assert forall k: Key :: k in q ==> Pending(slab, k);
  }

  lemma TurnedNone(slab: Slab)
    ensures Turned(slab, slab, []) && TurnUpdates(slab, []) == []
  {
  }

  lemma TurnedNext(a: Slab, b: Slab, q: seq<Key>, n: nat, rest: seq<Key>)
    requires n < |q| && rest == q[n..] && Turned(a, b, q[..n]) && QueueIs(rest, b)
    ensures Live(b, q[n]) && Turned(a, b[q[n] := Some(Turn(b[q[n]].value))], q[..n + 1])
    ensures TurnUpdates(a, q[..n + 1]) ==
            TurnUpdates(a, q[..n]) + if Announces(b[q[n]].value) then [Update(q[n], Lag(b[q[n]].value.held))] else []
  {
    var k := q[n];
    assert rest[0] == k && Pending(b, k);
    assert q[..n + 1] == q[..n] + [k];
    hide TurnUpdates, Turn;
    TurnedNotPending(a, b, q[..n]);
    assert k !in q[..n];
    assert q[..n + 1][..n] == q[..n];
    TurnUpdatesNext(a, q[..n + 1]);
  }

  lemma TurnedNotPending(a: Slab, b: Slab, q: seq<Key>)
    requires Turned(a, b, q)
    ensures forall k: Key :: k in q ==> !Pending(b, k)
  {
  }

  lemma TurnUpdatesNext(slab: Slab, q: seq<Key>)
    requires q != []
    ensures var k := q[|q| - 1];
            TurnUpdates(slab, q) == TurnUpdates(slab, q[..|q| - 1]) +
              if Live(slab, k) && Announces(slab[k].value) then [Update(k, Lag(slab[k].value.held))] else []
  {
  }

  // ----- New settings, stream by stream

  lemma ResizedNone(slab: Slab, init: nat)
    ensures forall now: nat, ids: seq<Key> :: Resized(slab, slab, ids[..0], init, now)
  {
  }

  lemma ResizedEqually(slab: Slab, ids: seq<Key>, init: nat)
    ensures Resized(slab, slab, ids, init, init)
  {
  }

  lemma ResizedNext(a: Slab, b: Slab, ids: seq<Key>, i: nat, was: nat, now: nat, q: seq<Key>)
    requires i < |ids| && Resized(a, b, ids[..i], was, now) && now <= MAX_WINDOW_SIZE
    requires AllOk(a, was) && IdsAre(ids, a)
    ensures Live(b, ids[i]) && b[ids[i]] == a[ids[i]]
    ensures was <= MAX_WINDOW_SIZE && Resize(b[ids[i]].value.held, was, now).Ok?
    ensures Resized(a, b[ids[i] := Some(b[ids[i]].value.(held := Resize(b[ids[i]].value.held, was, now).value))], ids[..i + 1], was, now)
  {
    var k := ids[i];
    assert Linked(a, k) && StreamOk(a[k].value, was);
    assert k !in ids[..i];
    StreamResizes(a[k].value.held, was, now);
    assert ids[..i + 1] == ids[..i] + [k];
  }

  lemma ResizedStream(s: RecvStream, was: nat, now: nat)
    requires StreamOk(s, was) && s.is_linked && now <= MAX_WINDOW_SIZE
    ensures Moved(Some(s), now - was).Some? && StreamOk(Moved(Some(s), now - was).value, now)
  {
    StreamResizes(s.held, was, now);
    Detaches(Resize(s.held, was, now).value, now);
  }

  lemma ResizedOk(a: Slab, b: Slab, ids: seq<Key>, was: nat, now: nat, q: seq<Key>)
    requires Resized(a, b, ids, was, now) && now <= MAX_WINDOW_SIZE
    requires AllOk(a, was) && IdsAre(ids, a) && QueueIs(q, a)
    ensures AllOk(b, now) && IdsAre(ids, b) && QueueIs(q, b) && InFlight(a) == InFlight(b)
  {
    forall k: Key | Live(b, k) ensures StreamOk(b[k].value, now) {
      assert Live(a, k) && StreamOk(a[k].value, was);
      assert k in ids <==> Linked(a, k);
      if k in ids {
        ResizedStream(a[k].value, was, now);
      }
    }
    hide StreamOk;
    assert forall k: Key :: Live(a, k) <==> Live(b, k);
    assert forall k: Key :: Pending(b, k) <==> Pending(a, k);
    assert forall k: Key :: Linked(b, k) <==> Linked(a, k);
    InFlightSame(a, b);
  }

  /** The window shrinks by `sz`, of which `kept` octets are held and the rest is available again. */
  predicate Charged(a: Held, b: Held, sz: nat, kept: nat) {
    && b.flow.window_size == a.flow.window_size - sz
    && b.flow.available == a.flow.available - kept
    && b.in_flight == a.in_flight + kept
  }

  /** A frame was accepted: its payload waits to be read behind what waited before. */
  predicate Taken(s: RecvStream, t: RecvStream, payload: Bytes, padding: nat, eos: bool) {
    && Charged(s.held, t.held, |payload| + padding, |payload|)
    && t.pending_recv == s.pending_recv + (if payload != [] || eos then [DataEvent(payload)] else [])
    && Some(t.content_length) == DecContentLength(s.content_length, |payload|)
    && (if eos then Ok(t.state) == s.state.RecvClose() else t.state == s.state)
    && t.is_recv == s.is_recv && t.is_linked == s.is_linked
    && (t.is_pending_window_update <==>
         s.is_pending_window_update || (padding > 0 && t.held.flow.UnclaimedCapacity().Some?))
  }

  /** The part of it that the window sees. */
  predicate TakenBy(s: RecvStream, t: RecvStream, payload: Bytes, padding: nat, eos: bool) {
    && Charged(s.held, t.held, |payload| + padding, |payload|)
    && t.pending_recv == s.pending_recv + (if payload != [] || eos then [DataEvent(payload)] else [])
    && t == s.(held := t.held, pending_recv := t.pending_recv, is_pending_window_update := t.is_pending_window_update)
    && (t.is_pending_window_update <==>
         s.is_pending_window_update || (padding > 0 && t.held.flow.UnclaimedCapacity().Some?))
  }

  lemma TakenFrom(s: RecvStream, t: RecvStream, u: RecvStream, payload: Bytes, padding: nat, eos: bool)
    requires TakenBy(t, u, payload, padding, eos) && t == s.(content_length := t.content_length, state := t.state)
    requires Some(t.content_length) == DecContentLength(s.content_length, |payload|)
    requires if eos then Ok(t.state) == s.state.RecvClose() else t.state == s.state
    ensures Taken(s, u, payload, padding, eos)
  {
  }

  lemma StateAndLengthFree(s: RecvStream, t: RecvStream, init: nat)
    requires StreamOk(s, init) && t == s.(state := t.state, content_length := t.content_length)
    ensures StreamOk(t, init)
  {
  }

  lemma DepositOk(t: RecvStream, sz: nat, init: nat)
    requires StreamOk(t, init) && sz <= MAX_WINDOW_SIZE && sz <= t.held.flow.WindowSize()
    ensures Consume(t.held, sz).Ok? && Charged(t.held, Consume(t.held, sz).value, sz, sz)
    ensures StreamOk(t.(held := Consume(t.held, sz).value), init)
  {
    if t.is_linked {
      StreamConsumes(t.held, sz, init);
    }
  }

  lemma EventOk(s: RecvStream, e: Event, init: nat)
    requires StreamOk(s, init) && |PayloadOf(e)| <= MAX_WINDOW_SIZE
    ensures StreamOk(s.(pending_recv := s.pending_recv + [e]), init)
  {
  }

  lemma PopOk(s: RecvStream, init: nat)
    requires StreamOk(s, init) && s.pending_recv != []
    ensures StreamOk(s.(pending_recv := s.pending_recv[1..]), init)
  {
  }

  function Min(a: int, b: int): int { if a <= b then a else b }

  /** `n` octets were released from `a`: they are available again and no longer held. */
  predicate Returned(a: Held, b: Held, n: int) {
    && b.flow.window_size == a.flow.window_size
    && b.flow.available == a.flow.available + n
    && b.in_flight == a.in_flight - n
  }

  /** Nothing is buffered any more, and what was is no longer held, unless it had been released already. */
  predicate Cleared(s: RecvStream, t: RecvStream) {
    && t == s.(pending_recv := [], held := s.held.(in_flight := t.held.in_flight))
    && t.held.in_flight == Max(s.held.in_flight - |Buffered(s.pending_recv)|, 0)
  }

  lemma ReleasedOk(s: RecvStream, n: nat, init: nat)
    requires StreamOk(s, init) && n <= s.held.in_flight && s.held.in_flight <= MAX_WINDOW_SIZE
    ensures StreamOk(s.(held := Release(s.held, n)), init) && Returned(s.held, Release(s.held, n), n)
  {
    StreamReleases(s.held, n);
  }

  lemma ClearedOk(s: RecvStream, n: nat, init: nat)
    requires StreamOk(s, init) && n <= s.held.in_flight
    ensures StreamOk(s.(pending_recv := [], held := s.held.(in_flight := s.held.in_flight - n)), init)
  {
    StreamForgets(s.held, n);
  }

  lemma ForgetsOk(s: RecvStream, init: nat)
    requires StreamOk(s, init)
    ensures StreamOk(s.(held := s.held.(in_flight := 0)), init)
  {
    StreamForgets(s.held, s.held.in_flight);
  }

  lemma ReadingFree(s: RecvStream, t: RecvStream, init: nat)
    requires StreamOk(s, init) && t == s.(is_recv := t.is_recv)
    ensures StreamOk(t, init)
  {
  }

  lemma StateFree(s: RecvStream, t: RecvStream, init: nat)
    requires StreamOk(s, init) && t == s.(state := t.state)
    ensures StreamOk(t, init)
  {
  }

  lemma HeldAt(slab: Slab, k: Key, s: RecvStream)
    requires Live(slab, k)
    ensures k < |slab|
    ensures InFlightAt(slab, k) == slab[k].value.held.in_flight && InFlightAt(slab[k := Some(s)], k) == s.held.in_flight
  {
  }

  lemma NewOk(s: RecvStream, init: nat)
    requires init <= MAX_WINDOW_SIZE && s.held == NewHeld(init) && s.pending_recv == []
    ensures StreamOk(s, init)
  {
    NewWindowOk(init);
    Detaches(s.held, init);
  }
}
