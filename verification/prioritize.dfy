/** Sharing the connection's send window among streams (src/proto/streams/prioritize.rs). */
module Prioritize {
  import opened Bits
  import opened Wrappers
  import opened FlowControl
  import opened StreamState
  import opened SendStreams

  /** A frame handed to the codec, and the stream it belongs to. */
  datatype SentFrame = SentData(key: Key, payload: Bytes, end_stream: bool) | SentOther(key: Key, frame: OutFrame)

  const FLOW_CONTROL_ERROR: nat := 3

  /** Octets of data in a list of frames. */
  function DataSent(frames: seq<SentFrame>): nat {
    if frames == [] then 0
    else DataSent(frames[..|frames| - 1])
         + if frames[|frames| - 1].SentData? then |frames[|frames| - 1].payload| else 0
  }

  lemma DataSentAppend(frames: seq<SentFrame>, f: SentFrame)
    ensures DataSent(frames + [f]) == DataSent(frames) + if f.SentData? then |f.payload| else 0
  {
    assert (frames + [f])[..|frames|] == frames;
  }

  datatype UserError = PayloadTooBig | InactiveStreamId | UnexpectedFrameType

  /** The prioritizer with the streams of the store it works on and the codec's two slots for a DATA frame. */
  class Prioritizer {
    var slab: Slab
    var pending_send: seq<Key>
    var pending_capacity: seq<Key>
    var pending_open: seq<Key>
    var flow: FlowControl
    var in_flight_data_frame: InFlightData
    /** A DATA frame being written, and one that has been written. */
    var next: Option<Written>
    var last_data_frame: Option<Written>
    ghost var hs: seq<History>
    /** Capacity of removed streams. */
    ghost var leaked: nat

    ghost function Slot(): Option<Written>
      reads this
    {
      if next.Some? then next else last_data_frame
    }

    ghost function Rest(k: Key): Option<Written>
      reads this
    {
      RestOf(in_flight_data_frame, Slot(), k)
    }

    /** Everything is in order, but for the streams `but` and `loose` octets of capacity in nobody's hands. */
    ghost predicate Core(but: set<Key>, loose: nat)
      reads this
    {
      && QueueIs(NextSend, pending_send, slab)
      && QueueIs(NextSendCapacity, pending_capacity, slab)
      && QueueIs(NextOpen, pending_open, slab)
      && CodecOk(in_flight_data_frame, Slot(), slab) && (next.None? || last_data_frame.None?)
      && AllOk(slab, in_flight_data_frame, Slot(), hs, but)
      && Accounted(slab, flow, leaked + loose)
    }

    /** Nobody waits for capacity while some is left. */
    ghost predicate Settled()
      reads this
    {
      flow.available > 0 ==> pending_capacity == []
    }

    ghost predicate Valid()
      reads this
    {
      Core({}, 0) && Settled()
    }

    ghost predicate MidwayOn(k: Key, extra: nat)
      reads this
    {
      Midway(slab, in_flight_data_frame, Slot(), hs, k, extra)
    }

    constructor (remote_init_window_sz: nat)
      requires remote_init_window_sz <= MAX_WINDOW_SIZE
      ensures Valid() && slab == [] && flow == FlowControl(remote_init_window_sz, remote_init_window_sz) && leaked == 0
      ensures pending_send == pending_capacity == pending_open == [] && hs == []
      ensures in_flight_data_frame.Nothing? && next.None? && last_data_frame.None?
    {
      slab, pending_send, pending_capacity, pending_open := [], [], [], [];
      flow := FlowControl(remote_init_window_sz, remote_init_window_sz);
      in_flight_data_frame, next, last_data_frame := Nothing, None, None;
      hs, leaked := [], 0;
    }

    // ----- Queues

    /** `Queue::push` on the send queue. */
    method PushSend(k: Key, ghost but: set<Key>, ghost loose: nat)
      requires Core(but, loose) && k in but && Live(slab, k)
      modifies this`slab, this`pending_send
      ensures Core(but, loose)
      ensures slab == old(slab)[k := Some(old(slab)[k].value.(is_pending_send := true))]
      ensures old(slab)[k].value.is_pending_send ==> pending_send == old(pending_send)
      ensures !old(slab)[k].value.is_pending_send ==> pending_send == old(pending_send) + [k]
    {
      hide AllOk, QueueIs, CodecOk, Accounted, RestOf;
      var s := slab[k].value;
      if s.is_pending_send {
        assert slab[k := Some(s)] == slab;
        assert s.(is_pending_send := true) == s;
        return;
      }
      var t := s.(is_pending_send := true);
      ChangeFlags(slab, pending_send, pending_capacity, pending_open, in_flight_data_frame, Slot(), hs, but, flow, leaked + loose, k, t);
      QueuePushes(NextSend, pending_send, slab, k, t);
      slab := slab[k := Some(t)];
      pending_send := pending_send + [k];
    }

    method PushCapacity(k: Key, ghost but: set<Key>, ghost loose: nat)
      requires Core(but, loose) && k in but && Live(slab, k)
      modifies this`slab, this`pending_capacity
      ensures Core(but, loose)
      ensures slab == old(slab)[k := Some(old(slab)[k].value.(is_pending_send_capacity := true))]
      ensures pending_capacity == old(pending_capacity) + if old(slab)[k].value.is_pending_send_capacity then [] else [k]
    {
      hide AllOk, QueueIs, CodecOk, Accounted, RestOf;
      var s := slab[k].value;
      if s.is_pending_send_capacity {
        assert slab[k := Some(s)] == slab;
        assert s.(is_pending_send_capacity := true) == s;
        return;
      }
      var t := s.(is_pending_send_capacity := true);
      ChangeFlags(slab, pending_send, pending_capacity, pending_open, in_flight_data_frame, Slot(), hs, but, flow, leaked + loose, k, t);
      QueuePushes(NextSendCapacity, pending_capacity, slab, k, t);
      slab := slab[k := Some(t)];
      pending_capacity := pending_capacity + [k];
    }

    // ----- Handing out capacity

    /** Moves capacity from the connection to stream `k`. */
    method Give(k: Key, assign: nat, ghost but: set<Key>, ghost extra: nat)
      requires Core(but, 0) && k in but && MidwayOn(k, extra) && assign <= flow.available
      requires GiveFits(slab[k].value, assign)
      modifies this`slab, this`flow
      ensures Core(but, 0)
      ensures slab == old(slab)[k := Some(Given(old(slab)[k].value, assign))]
      ensures flow == old(flow).(available := old(flow).available - assign)
    {
      hide AllOk, QueueIs, CodecOk, Accounted, RestOf, Faithful, Sane;
      var s := slab[k].value;
      GiveExact(s, flow, assign);
      Assigning(slab, flow, leaked, k, assign);
      var t := s.(send_flow := s.send_flow.AssignCapacity(assign).value);
      ChangeFlow(slab, pending_send, pending_capacity, pending_open, in_flight_data_frame, Slot(), hs, but, k, t);
      slab := slab[k := Some(t)];
      flow := flow.ClaimCapacity(assign).value;
    }

    /** Queues stream `k` for what it still lacks, and for sending if it has data. */
    method Requeue(k: Key, ghost but: set<Key>)
      requires Core(but, 0) && k in but && Live(slab, k) && !slab[k].value.is_pending_open
      modifies this`slab, this`pending_send, this`pending_capacity
      ensures old(pending_capacity) <= pending_capacity
      ensures old(pending_send) <= pending_send
      ensures Core(but, 0) && slab == old(slab)[k := Some(Requeued(old(slab)[k].value))]
      ensures !Lacks(old(slab)[k].value) || old(slab)[k].value.is_pending_send_capacity ==>
                pending_capacity == old(pending_capacity)
      ensures pending_send == old(pending_send) || pending_send == old(pending_send) + [k]
    {
      hide Core, FlowControl.HasUnavailable;
      WaitForCapacity(k, but);
      if slab[k].value.buffered_send_data > 0 && slab[k].value.IsSendReady() {
        PushSend(k, but, 0);
      }
    }

    /** The stream waits for what its window would still allow. */
    method WaitForCapacity(k: Key, ghost but: set<Key>)
      requires Core(but, 0) && k in but && Live(slab, k)
      modifies this`slab, this`pending_capacity
      ensures old(pending_capacity) <= pending_capacity
      ensures Core(but, 0)
      ensures var s := old(slab)[k].value;
              slab == old(slab)[k := Some(s.(is_pending_send_capacity := s.is_pending_send_capacity || Lacks(s)))]
      ensures !Lacks(old(slab)[k].value) || old(slab)[k].value.is_pending_send_capacity ==>
                pending_capacity == old(pending_capacity)
    {
      hide Core, FlowControl.HasUnavailable;
      var s := slab[k].value;
      SlabSame(slab, k);
      if s.send_flow.available < s.requested_send_capacity && s.send_flow.HasUnavailable() {
        PushCapacity(k, but, 0);
      }
    }

    /** Gives stream `k` what it asked for, as far as its window and the connection's allow. */
    method TryAssignCapacity(k: Key, ghost but: set<Key>, ghost extra: nat)
      requires Core(but, 0) && k in but && MidwayOn(k, extra)
      modifies this`slab, this`pending_send, this`pending_capacity, this`flow
      ensures old(pending_capacity) <= pending_capacity
      ensures old(pending_send) <= pending_send
      ensures Core(but, 0) && MidwayOn(k, extra)
      ensures Live(old(slab), k) && Live(slab, k) && |slab| == |old(slab)| && slab == old(slab)[k := slab[k]]
      ensures Grown(old(slab)[k].value, slab[k].value) && Served(slab[k].value)
      ensures flow == old(flow).(available := flow.available) && flow.available <= old(flow).available
      ensures flow.available > 0 ==> pending_capacity == old(pending_capacity)
      ensures pending_send == old(pending_send) || pending_send == old(pending_send) + [k]
    {
      hide Core, Midway, Grown, Served, Requeued, Lacks, Given, GiveFits;
      MidwayIs(k, extra);
      GrownSelf(slab[k].value);
      GrownSlab(slab, k);
      if slab[k].value.is_pending_open {
        NotWanting(slab[k].value, 0);
        return;
      }
      var s := slab[k].value;
      var total_requested := s.requested_send_capacity;
      var wish := total_requested - AsSize(s.send_flow.available);
      var room := s.send_flow.WindowSize() - AsSize(s.send_flow.available);
      var additional := if wish <= room then wish else room;
      NotWanting(s, additional);
      if additional == 0 {
        return;
      }
      if !s.state.IsSendStreaming() && s.buffered_send_data == 0 {
        return;
      }
      var conn_available := AsSize(flow.available);
      CoreBounds(but, 0);
      var assign := if conn_available <= additional then conn_available else additional;
      ghost var slab0 := slab;
      WishFits(s, additional, assign);
      if conn_available > 0 {
        Give(k, assign, but, extra);
      }
      ghost var s1 := slab[k].value;
      Requeue(k, but);
      GrownStep(s, s1, additional, assign);
      assert slab == old(slab)[k := Some(Requeued(s1))];
      MidwayAgain(k, extra, slab0);
    }

    /** Takes the first stream that waits for capacity off its queue. */
    method PopCapacity(ghost but: set<Key>) returns (k: Key)
      requires Core(but, 0) && pending_capacity != []
      modifies this`slab, this`pending_capacity
      ensures k == old(pending_capacity)[0] && pending_capacity == old(pending_capacity)[1..]
      ensures Live(old(slab), k)
      ensures slab == old(slab)[k := Some(old(slab)[k].value.(is_pending_send_capacity := false))]
      ensures Core(but + {k}, 0)
    {
      hide AllOk, QueueIs, CodecOk, Accounted, RestOf;
      k := pending_capacity[0];
      QueueHead(NextSendCapacity, pending_capacity, slab);
      var t := slab[k].value.(is_pending_send_capacity := false);
      AllOkBut(slab, in_flight_data_frame, Slot(), hs, but, k);
      ChangeFlags(slab, pending_send, pending_capacity, pending_open, in_flight_data_frame, Slot(), hs, but + {k}, flow,
                  leaked, k, t);
      QueuePops(NextSendCapacity, pending_capacity, slab, t);
      slab := slab[k := Some(t)];
      pending_capacity := pending_capacity[1..];
    }

    /** Serves the first stream that waits for capacity, if it still wants any. */
    method ServeFirst(ghost but: set<Key>, ghost extra: nat)
      requires Core(but, 0) && pending_capacity != []
      requires forall j :: j in but ==> MidwayOn(j, extra)
      modifies this`slab, this`pending_send, this`pending_capacity, this`flow
      ensures old(pending_send) <= pending_send
      ensures Core(but, 0) && forall j :: j in but ==> MidwayOn(j, extra)
      ensures AllGrown(old(slab), slab, but) && flow.window_size == old(flow).window_size
      ensures var k := old(pending_capacity)[0];
              && k < |slab| == |old(slab)| && Live(slab, k) && slab == old(slab)[k := slab[k]]
              && old(pending_capacity)[1..] <= pending_capacity
              && (flow.available > 0 ==> pending_capacity == old(pending_capacity)[1..] && !Wants(slab[k].value))
    {
      hide Core, Midway, Grown, Served, AllGrown;
      ghost var slab0 := slab;
      ghost var k0 := pending_capacity[0];
      WaitingDistinct(but);
      MidwayStart(but, extra, k0);
      MidwayIs(k0, if k0 in but then extra else 0);
      var k := PopCapacity(but);
      PoppedGrown(slab0[k].value);
      ghost var more := if k in but then extra else 0;
      MidwayAgain(k, more, slab0);
      if slab[k].value.state.IsSendStreaming() || slab[k].value.buffered_send_data > 0 {
        ghost var s1 := slab[k].value;
        TryAssignCapacity(k, but + {k}, more);
        GrownTwice(slab0[k].value, s1, slab[k].value);
      }
      Reinstate(but, k, slab0, more);
      NotWaiting(but, k);
      ServedAll(slab0, slab, in_flight_data_frame, Slot(), hs, but, extra, k, more);
    }

    /** Puts capacity in nobody's hands with what the connection has left. */
    method Loosen(inc: nat, ghost but: set<Key>, ghost extra: nat)
      requires Core(but, inc) && inc <= MAX_WINDOW_SIZE
      requires forall j :: j in but ==> MidwayOn(j, extra)
      modifies this`flow
      ensures Core(but, 0) && flow == old(flow).(available := flow.available) && flow.available == old(flow).available + inc
    {
      AllAvailable(slab, in_flight_data_frame, Slot(), hs, but, extra);
      AssignedBounds(slab, |slab|);
      ExactAssign(flow, inc);
      hide QueueIs, AllOk, CodecOk, Midway;
      flow := flow.AssignCapacity(inc).value;
    }

    /** Hands `inc` octets, and whatever else is left, to the streams that wait for capacity. */
    method AssignConnectionCapacity(inc: nat, ghost but: set<Key>, ghost extra: nat)
      requires Core(but, inc) && inc <= MAX_WINDOW_SIZE
      requires forall j :: j in but ==> MidwayOn(j, extra)
      modifies this`slab, this`pending_send, this`pending_capacity, this`flow
      ensures old(pending_send) <= pending_send
      ensures Core(but, 0) && Settled()
      ensures forall j :: j in but ==> MidwayOn(j, extra)
      ensures AllGrown(old(slab), slab, but) && flow.window_size == old(flow).window_size
      ensures exists n :: InTurn(old(pending_capacity), n, old(slab), pending_capacity, slab, flow.available)
    {
      hide Core, Midway, AllGrown, InTurn;
      Loosen(inc, but, extra);
      AllGrownSelf(slab, but);
      ghost var n := 0;
      WaitingDistinct(but);
      InTurnNone(pending_capacity, slab, flow.available);
      while flow.available > 0
        invariant Core(but, 0) && AllGrown(old(slab), slab, but) && flow.window_size == old(flow).window_size
        invariant forall j :: j in but ==> MidwayOn(j, extra)
        invariant old(pending_send) <= pending_send
        invariant InTurn(old(pending_capacity), n, old(slab), pending_capacity, slab, flow.available)
        decreases if flow.available > 0 then |pending_capacity| + 1 else 0
      {
        if pending_capacity == [] {
          return;
        }
        ghost var slab0, waiting, left := slab, pending_capacity, flow.available;
        ServeFirst(but, extra);
        InTurnNext(old(pending_capacity), n, old(slab), waiting, slab0, left, pending_capacity, slab, flow.available);
        n := n + 1;
        AllGrownTwice(old(slab), slab0, slab, but);
      }
    }

    lemma NotWaiting(but: set<Key>, k: Key)
      requires Core(but, 0) && Live(slab, k) && Served(slab[k].value)
      ensures k !in pending_capacity ==> !Wants(slab[k].value)
    {
      assert k in pending_capacity <==> Member(NextSendCapacity, slab, k);
      hide AllOk, CodecOk, Accounted, Wants;
    }

    lemma WaitingDistinct(but: set<Key>)
      requires Core(but, 0)
      ensures forall i, j :: 0 <= i < j < |pending_capacity| ==> pending_capacity[i] != pending_capacity[j]
    {
    }

    lemma MidwayStart(but: set<Key>, extra: nat, k: Key)
      requires Core(but, 0) && (forall j :: j in but ==> MidwayOn(j, extra))
      requires pending_capacity != [] && k == pending_capacity[0]
      ensures Live(slab, k) && MidwayOn(k, if k in but then extra else 0)
      ensures k !in but ==> k < |hs| && StreamOk(slab[k].value, Rest(k), hs[k])
    {
      QueueHead(NextSendCapacity, pending_capacity, slab);
      AllOkBut(slab, in_flight_data_frame, Slot(), hs, but, k);
      hide QueueIs, AllOk, CodecOk, Accounted;
    }

    /** Stream `k` is in order again. */
    lemma Reinstate(but: set<Key>, k: Key, slab0: Slab, more: nat)
      requires Core(but + {k}, 0) && MidwayOn(k, more)
      requires Live(slab, k) && Live(slab0, k) && Grown(slab0[k].value, slab[k].value)
      requires Served(slab[k].value)
      requires k !in but ==> StreamOk(slab0[k].value, Rest(k), hs[k])
      ensures Core(but, 0)
    {
      hide QueueIs, AllOk, CodecOk, Accounted, RestOf, StreamOk, Served;
      if k in but {
        assert but + {k} == but;
      } else {
        StreamAgain(slab0[k].value, slab[k].value, Rest(k), hs[k]);
        AllOkBut(slab, in_flight_data_frame, Slot(), hs, but, k);
      }
    }

    // ----- Changing one stream

    /** Replaces stream `k`, its queues left alone. Capacity it loses is in nobody's hands. */
    method Set(k: Key, t: Stream, ghost but: set<Key>, ghost loose: nat, ghost freed: nat)
      requires Core(but, loose) && k in but && Live(slab, k) && SameQueues(slab[k].value, t)
      requires t.send_flow.available + freed == slab[k].value.send_flow.available
      modifies this`slab
      ensures Core(but, loose + freed) && slab == old(slab)[k := Some(t)]
    {
      hide AllOk, QueueIs, CodecOk, RestOf;
      ChangeFlow(slab, pending_send, pending_capacity, pending_open, in_flight_data_frame, Slot(), hs, but, k, t);
      AssignedUpdate(slab, k, Some(t));
      slab := slab[k := Some(t)];
    }

    /** Begins an operation on stream `k`. */
    lemma Enter(k: Key)
      requires Core({}, 0) && Live(slab, k)
      ensures Core({k}, 0) && MidwayOn(k, 0) && k < |hs| && |hs| == |slab| && StreamOk(slab[k].value, Rest(k), hs[k])
    {
      AllOkBut(slab, in_flight_data_frame, Slot(), hs, {}, k);
      assert {} + {k} == {k};
      hide QueueIs, AllOk, CodecOk, Accounted, Sane, Faithful, RestOf, Served, Backed;
    }

    /** Ends it. */
    lemma Leave(k: Key)
      requires Core({k}, 0) && Live(slab, k) && k < |hs| && StreamOk(slab[k].value, Rest(k), hs[k])
      ensures Core({}, 0)
    {
      assert {} + {k} == {k};
      AllOkBut(slab, in_flight_data_frame, Slot(), hs, {}, k);
      hide QueueIs, AllOk, CodecOk, Accounted, RestOf, StreamOk;
    }

    /** Appends a frame to the stream's own queue and lets the stream wait to send. */
    method QueueFrame(k: Key, frame: OutFrame, ghost but: set<Key>, ghost loose: nat)
      requires Core(but, loose) && k in but && Live(slab, k)
      modifies this`slab, this`pending_send
      ensures old(pending_send) <= pending_send
      ensures Core(but, loose) && slab == old(slab)[k := Some(FrameQueued(old(slab)[k].value, frame))]
    {
      hide Core;
      var s := slab[k].value;
      Set(k, s.(pending_send := s.pending_send + [frame]), but, loose, 0);
      ScheduleSend(k, but, loose);
    }

    method ScheduleSend(k: Key, ghost but: set<Key>, ghost loose: nat)
      requires Core(but, loose) && k in but && Live(slab, k)
      modifies this`slab, this`pending_send
      ensures old(pending_send) <= pending_send
      ensures Core(but, loose) && slab == old(slab)[k := Some(Schedulable(old(slab)[k].value))]
    {
      hide Core;
      if slab[k].value.IsSendReady() {
        PushSend(k, but, loose);
      } else {
        GrownSlab(slab, k);
        assert Schedulable(slab[k].value) == slab[k].value;
      }
    }

    // ----- Requests for capacity

    /** Asks for less than before: capacity beyond that goes to others. */
    method ReserveFewer(total: nat, k: Key, ghost extra: nat)
      requires Core({k}, 0) && Settled() && MidwayOn(k, extra) && Served(slab[k].value)
      requires slab[k].value.buffered_send_data <= total < slab[k].value.requested_send_capacity
      modifies this`slab, this`pending_send, this`pending_capacity, this`flow
      ensures old(pending_send) <= pending_send
      ensures Core({k}, 0) && Settled() && MidwayOn(k, extra) && Live(slab, k) && Served(slab[k].value)
      ensures OthersGrown(old(slab), slab, k)
      ensures |slab| == |old(slab)| && flow.window_size == old(flow).window_size
      ensures total <= MAX_U32 && old(slab)[k].value.send_flow.available >= 0
      ensures Grown(Lowered(old(slab)[k].value, total), slab[k].value)
    {
      hide Core, Midway, Grown, Served, AllGrown, Lowered, OthersGrown;
      MidwayIs(k, extra);
      var s := slab[k].value;
      var available := AsSize(s.send_flow.available);
      ReserveLess(slab, in_flight_data_frame, Slot(), hs, k, extra, total);
      LoweredIs(s, total);
      if available > total {
        var diff := available - total;
        Set(k, s.(requested_send_capacity := total, send_flow := s.send_flow.ClaimCapacity(diff).value), {k}, 0, diff);
        ghost var slab1 := slab;
        AssignConnectionCapacity(diff, {k}, extra);
        OthersAll(slab1, slab, {k}, k);
        OthersChain(old(slab), slab1, slab, k);
        GrownOne(old(slab)[k := Some(Lowered(s, total))], slab, {k}, k);
      } else {
        Set(k, s.(requested_send_capacity := total), {k}, 0, 0);
        GrownSelf(Lowered(s, total));
        OthersPut(old(slab), slab, k);
      }
    }

    /** Asks for room for `capacity` octets beyond what is buffered. */
    method ReserveMidway(capacity: nat, k: Key, ghost extra: nat)
      requires Core({k}, 0) && Settled() && MidwayOn(k, extra) && Served(slab[k].value) && capacity <= MAX_U32
      requires Unopened(slab[k].value.state) ==> capacity == 0
      modifies this`slab, this`pending_send, this`pending_capacity, this`flow
      ensures old(pending_send) <= pending_send
      ensures Core({k}, 0) && Settled() && MidwayOn(k, extra) && Live(slab, k) && Served(slab[k].value)
      ensures OthersGrown(old(slab), slab, k)
      ensures |slab| == |old(slab)| && flow.window_size == old(flow).window_size
      ensures Reserved(old(slab)[k].value, slab[k].value, capacity)
    {
      hide Core, Midway, Grown, Served, AllGrown, OthersGrown;
      MidwayIs(k, extra);
      var s := slab[k].value;
      OthersPut(slab, slab, k);
      var total := capacity + s.buffered_send_data;
      if total == s.requested_send_capacity {
        GrownSelf(s);
      } else if total < s.requested_send_capacity {
        ReserveFewer(total, k, extra);
      } else {
        if s.state.IsSendClosed() {
          GrownSelf(s);
          return;
        }
        ReserveMore(slab, in_flight_data_frame, Slot(), hs, k, extra, Min(total, MAX_U32));
        Set(k, s.(requested_send_capacity := Min(total, MAX_U32)), {k}, 0, 0);
        TryAssignCapacity(k, {k}, extra);
        OthersPut(old(slab), slab, k);
      }
    }

    /** `reserve_capacity`, for a stream whose HEADERS have been sent. */
    method ReserveCapacity(capacity: nat, k: Key)
      requires Valid() && Live(slab, k) && capacity <= MAX_U32 && !Unopened(slab[k].value.state)
      modifies this`slab, this`pending_send, this`pending_capacity, this`flow
      ensures old(pending_send) <= pending_send
      ensures Valid() && Live(slab, k) && Reserved(old(slab)[k].value, slab[k].value, capacity)
      ensures var s := old(slab)[k].value;
              var wanted := Min(capacity + s.buffered_send_data, MAX_U32);
              slab[k].value.requested_send_capacity ==
              if s.state.IsSendClosed() then Min(s.requested_send_capacity, capacity + s.buffered_send_data) else wanted
      ensures OthersGrown(old(slab), slab, k)
      ensures |slab| == |old(slab)| && flow.window_size == old(flow).window_size
    {
      hide Core, Midway, Grown, StreamOk, Reserved, OthersGrown;
      Enter(k);
      OkParts(slab[k].value, Rest(k), hs[k]);
      ReserveMidway(capacity, k, 0);
      MidwayParts(k, 0);
      ReservedRequests(old(slab)[k].value, slab[k].value, capacity);
      ReservedOk(old(slab)[k].value, slab[k].value, capacity, Rest(k), hs[k]);
      Leave(k);
    }

    /** WINDOW_UPDATE for a stream. */
    method RecvStreamWindowUpdate(inc: nat, k: Key) returns (r: Result<(), Reason>)
      requires Valid() && Live(slab, k) && inc <= MAX_WINDOW_SIZE
      modifies this`slab, this`pending_send, this`pending_capacity, this`flow
      ensures old(pending_send) <= pending_send
      ensures Valid() && Live(slab, k) && |slab| == |old(slab)| && flow.window_size == old(flow).window_size
      ensures slab == old(slab)[k := slab[k]]
      ensures var s := old(slab)[k].value;
              if s.state.IsSendClosed() && s.buffered_send_data == 0 then r == Ok(()) && slab == old(slab)
              else if s.send_flow.window_size + inc > MAX_WINDOW_SIZE then r == Err(FlowControlError) && slab == old(slab)
              else r == Ok(()) && Grown(Widened(s, inc), slab[k].value)
    {
      hide Core, Midway, Grown, StreamOk, Widened;
      var s := slab[k].value;
      if s.state.IsSendClosed() && s.buffered_send_data == 0 {
        return Ok(());
      }
      ExactInc(s.send_flow, inc);
      var f := s.send_flow.IncWindow(inc);
      if f.Err? {
        return Err(f.error);
      }
      Enter(k);
      OkParts(s, Rest(k), hs[k]);
      WidenedIs(s, inc);
      WidenedMidway(slab, in_flight_data_frame, Slot(), hs, k, inc);
      Set(k, s.(send_flow := f.value), {k}, 0, 0);
      TryAssignCapacity(k, {k}, 0);
      MidwayParts(k, 0);
      WidenedOk(s, slab[k].value, inc, Rest(k), hs[k]);
      Leave(k);
      r := Ok(());
    }

    /** WINDOW_UPDATE for the connection. */
    method RecvConnectionWindowUpdate(inc: nat) returns (r: Result<(), Reason>)
      requires Valid() && inc <= MAX_WINDOW_SIZE
      modifies this`slab, this`pending_send, this`pending_capacity, this`flow
      ensures old(pending_send) <= pending_send
      ensures Valid()
      ensures old(flow).window_size + inc > MAX_WINDOW_SIZE ==> r == Err(FlowControlError) && slab == old(slab) && flow == old(flow)
      ensures old(flow).window_size + inc <= MAX_WINDOW_SIZE ==>
                r == Ok(()) && flow.window_size == old(flow).window_size + inc && AllGrown(old(slab), slab, {})
    {
      ExactInc(flow, inc);
      var f := flow.IncWindow(inc);
      if f.Err? {
        return Err(f.error);
      }
      hide QueueIs, AllOk, CodecOk, AllGrown;
      flow := f.value;
      AssignConnectionCapacity(inc, {}, 0);
      r := Ok(());
    }

    // ----- Sending data

    /** Counts `sz` octets about to be queued and asks for capacity for them. */
    method CountData(k: Key, sz: nat)
      requires Core({k}, 0) && Settled() && Live(slab, k) && MidwayOn(k, 0)
      requires Served(slab[k].value) && slab[k].value.state.IsSendStreaming()
      modifies this`slab, this`pending_send, this`pending_capacity, this`flow
      ensures old(pending_send) <= pending_send
      ensures Core({k}, 0) && Settled() && MidwayOn(k, sz) && Live(slab, k) && Served(slab[k].value)
      ensures slab == old(slab)[k := slab[k]]
      ensures |slab| == |old(slab)| && flow.window_size == old(flow).window_size
      ensures Expecting(old(slab)[k].value, slab[k].value, sz, false)
    {
      hide Core, Midway, Grown, Served, Expecting;
      var s := slab[k].value;
      MoreData(slab, in_flight_data_frame, Slot(), hs, k, sz);
      var t := s.(buffered_send_data := s.buffered_send_data + sz);
      Set(k, t, {k}, 0, 0);
      MidwayIs(k, sz);
      var request := Min(t.buffered_send_data, MAX_U32);
      if t.requested_send_capacity < t.buffered_send_data {
        ReserveMore(slab, in_flight_data_frame, Slot(), hs, k, sz, request);
        Set(k, t.(requested_send_capacity := request), {k}, 0, 0);
        TryAssignCapacity(k, {k}, sz);
        ExpectingMore(s, t, slab[k].value, sz, request);
      } else {
        GrownSelf(t);
        ExpectingMore(s, t, t, sz, t.requested_send_capacity);
      }
    }

    /** The last octets end the request for capacity. */
    method RequestForData(k: Key, sz: nat, end_stream: bool)
      requires Core({k}, 0) && Settled() && Live(slab, k) && MidwayOn(k, 0)
      requires Served(slab[k].value) && slab[k].value.state.IsSendStreaming()
      modifies this`slab, this`pending_send, this`pending_capacity, this`flow
      ensures old(pending_send) <= pending_send
      ensures Core({k}, 0) && Settled() && MidwayOn(k, sz) && Live(slab, k) && Served(slab[k].value)
      ensures OthersGrown(old(slab), slab, k)
      ensures |slab| == |old(slab)| && flow.window_size == old(flow).window_size
      ensures Expecting(old(slab)[k].value, slab[k].value, sz, end_stream)
    {
      hide Core, Midway, Served, Reserved, Expecting, OthersGrown;
      CountData(k, sz);
      OthersPut(old(slab), slab, k);
      if end_stream {
        var t := slab[k].value;
        StillStreaming(old(slab)[k].value, t, sz);
        MidwayParts(k, sz);
        LastData(slab, in_flight_data_frame, Slot(), hs, k, sz);
        Set(k, t.(state := t.state.SendClose()), {k}, 0, 0);
        ghost var slab1 := slab;
        ReserveMidway(0, k, sz);
        OthersChain(old(slab), slab1, slab, k);
        ExpectingLast(old(slab)[k].value, t, slab[k].value, sz);
      }
    }

    /** Takes `payload` from the application. */
    method SendData(k: Key, payload: Bytes, end_stream: bool) returns (r: Result<(), UserError>)
      requires Valid() && Live(slab, k)
      modifies this`slab, this`pending_send, this`pending_capacity, this`flow, this`hs
      ensures old(pending_send) <= pending_send
      ensures OthersGrown(old(slab), slab, k)
      ensures Valid() && Live(slab, k) && |slab| == |old(slab)| && flow.window_size == old(flow).window_size
      ensures |payload| > MAX_WINDOW_SIZE ==> r == Err(PayloadTooBig) && slab == old(slab) && hs == old(hs)
      ensures |payload| <= MAX_WINDOW_SIZE && !old(slab)[k].value.state.IsSendStreaming() ==>
                r == Err(if old(slab)[k].value.state.Closed? then InactiveStreamId else UserError.UnexpectedFrameType)
                && slab == old(slab) && hs == old(hs)
      ensures |payload| <= MAX_WINDOW_SIZE && old(slab)[k].value.state.IsSendStreaming() ==>
                && r == Ok(()) && k < |old(hs)| && hs == old(hs)[k := Extended(old(hs)[k], old(slab)[k].value, payload)]
                && Accepted(old(slab)[k].value, slab[k].value, payload, end_stream)
                && var buffered := Min(old(slab)[k].value.buffered_send_data + |payload|, MAX_U32);
                   slab[k].value.requested_send_capacity ==
                   if end_stream then buffered else Max(old(slab)[k].value.requested_send_capacity, buffered)
    {
      hide Core, Midway, Grown, StreamOk, Expecting, Accepted, OthersGrown, Sane, Faithful, Scheduled, Served, Extended, Schedulable;
      OthersPut(slab, slab, k);
      if |payload| > MAX_WINDOW_SIZE {
        return Err(PayloadTooBig);
      }
      if !slab[k].value.state.IsSendStreaming() {
        return Err(if slab[k].value.state.Closed? then InactiveStreamId else UserError.UnexpectedFrameType);
      }
      ghost var s := slab[k].value;
      Enter(k);
      OkParts(s, Rest(k), hs[k]);
      RequestForData(k, |payload|, end_stream);
      MidwayParts(k, |payload|);
      ghost var t, slab1 := slab[k].value, slab;
      var frame := Data(payload, end_stream);
      if slab[k].value.send_flow.available > 0 || slab[k].value.buffered_send_data == 0 {
        QueueFrame(k, frame, {k}, 0);
      } else {
        Set(k, slab[k].value.(pending_send := slab[k].value.pending_send + [frame]), {k}, 0, 0);
      }
      OthersThen(old(slab), slab1, slab, k);
      AcceptedMeans(s, slab[k].value, payload, end_stream);
      DataQueued(s, t, slab[k].value, Rest(k), hs[k], payload, end_stream);
      SetHistory(k, Extended(hs[k], s, payload), {k}, 0);
      Leave(k);
      r := Ok(());
    }

    /** Notes what has become of the data of a stream. */
    ghost method SetHistory(k: Key, h: History, but: set<Key>, loose: nat)
      requires Core(but, loose) && k in but && k < |hs|
      modifies this`hs
      ensures Core(but, loose) && hs == old(hs)[k := h]
    {
      hide QueueIs, CodecOk, Accounted, StreamOk, RestOf;
      hs := hs[k := h];
      forall j: Key | Live(slab, j) && j !in but ensures StreamOk(slab[j].value, RestOf(in_flight_data_frame, Slot(), j), hs[j]) {
      }
    }

    // ----- Giving up

    /** Drops what a stream has queued, and what of its data is to come back from the codec. */
    method ClearQueue(k: Key, ghost loose: nat)
      requires Core({k}, loose) && Live(slab, k) && k < |hs|
      modifies this`slab, this`in_flight_data_frame, this`hs
      ensures Core({k}, loose) && Live(slab, k) && Rest(k).None?
      ensures slab == old(slab)[k := Some(Cleared(old(slab)[k].value))]
      ensures hs == old(hs)[k := old(hs)[k].(dropped := true)]
      ensures in_flight_data_frame == if old(in_flight_data_frame) == DataFrame(k) then Drop else old(in_flight_data_frame)
    {
      hide Core;
      var s := slab[k].value;
      var frames := s.pending_send;
      while frames != []
        decreases |frames|
        modifies {}
      {
        frames := frames[1..];
      }
      Set(k, s.(pending_send := frames, buffered_send_data := 0, requested_send_capacity := 0), {k}, loose, 0);
      ForgetInFlight(k, loose);
      SetHistory(k, hs[k].(dropped := true), {k}, loose);
    }

    method ForgetInFlight(k: Key, ghost loose: nat)
      requires Core({k}, loose)
      modifies this`in_flight_data_frame
      ensures Core({k}, loose) && Rest(k).None?
      ensures in_flight_data_frame == if old(in_flight_data_frame) == DataFrame(k) then Drop else old(in_flight_data_frame)
    {
      hide QueueIs, Accounted, StreamOk;
      if in_flight_data_frame == DataFrame(k) {
        in_flight_data_frame := Drop;
      }
    }

    /** Gives all the stream's capacity to others. */
    method ReclaimAllCapacity(k: Key)
      requires Core({k}, 0) && Settled() && Live(slab, k) && slab[k].value.send_flow.available >= 0
      requires Midway(slab[k := Some(Unassigned(slab[k].value))], in_flight_data_frame, Slot(), hs, k, 0)
      requires Served(Unassigned(slab[k].value))
      modifies this`slab, this`pending_send, this`pending_capacity, this`flow
      ensures old(pending_send) <= pending_send
      ensures Core({k}, 0) && Settled() && Live(slab, k) && MidwayOn(k, 0) && Served(slab[k].value)
      ensures flow.window_size == old(flow).window_size
      ensures AllGrown(old(slab)[k := Some(Unassigned(old(slab)[k].value))], slab, {k})
    {
      hide Core, Midway, Grown, Served, AllGrown, Unassigned;
      var s := slab[k].value;
      var available := AsSize(s.send_flow.available);
      UnassignedIs(s);
      if available > 0 {
        Set(k, s.(send_flow := s.send_flow.ClaimCapacity(available).value), {k}, 0, available);
        AssignConnectionCapacity(available, {k}, 0);
        GrownOne(old(slab)[k := Some(Unassigned(s))], slab, {k}, k);
      } else {
        NothingAssigned(s);
        SlabSame(slab, k);
        AllGrownSelf(slab, {k});
      }
    }

    /** Gives away what is not needed for data already buffered. */
    method ReclaimReservedCapacity(k: Key)
      requires Core({k}, 0) && Settled() && Live(slab, k) && MidwayOn(k, 0) && Served(slab[k].value)
      requires !slab[k].value.state.IsSendStreaming()
      modifies this`slab, this`pending_send, this`pending_capacity, this`flow
      ensures old(pending_send) <= pending_send
      ensures Core({k}, 0) && Settled() && Live(slab, k) && MidwayOn(k, 0) && Served(slab[k].value)
      ensures OthersGrown(old(slab), slab, k)
      ensures |slab| == |old(slab)| && flow.window_size == old(flow).window_size
      ensures Grown(Trimmed(old(slab)[k].value), slab[k].value)
    {
      hide Core, Midway, Grown, Served, AllGrown, OthersGrown;
      MidwayIs(k, 0);
      var s := slab[k].value;
      if AsSize(s.send_flow.available) > s.buffered_send_data {
        var reserved := AsSize(s.send_flow.available) - s.buffered_send_data;
        ExactClaim(s.send_flow, reserved);
        TrimmedMidway(slab, in_flight_data_frame, Slot(), hs, k);
        Set(k, s.(send_flow := s.send_flow.ClaimCapacity(reserved).value), {k}, 0, reserved);
        ghost var slab1 := slab;
        AssignConnectionCapacity(reserved, {k}, 0);
        OthersAll(slab1, slab, {k}, k);
        OthersChain(old(slab), slab1, slab, k);
        GrownOne(old(slab)[k := Some(Trimmed(s))], slab, {k}, k);
      } else {
        GrownSelf(s);
        OthersPut(slab, slab, k);
      }
    }

    /** A stream that has failed sends nothing more. */
    method HandleError(k: Key)
      requires Valid() && Live(slab, k) && slab[k].value.state.Closed?
      modifies this`slab, this`pending_send, this`pending_capacity, this`flow, this`in_flight_data_frame, this`hs
      ensures old(pending_send) <= pending_send
      ensures OthersGrown(old(slab), slab, k)
      ensures Valid() && Live(slab, k) && |slab| == |old(slab)| && flow.window_size == old(flow).window_size
      ensures k < |old(hs)| && hs == old(hs)[k := old(hs)[k].(dropped := true)]
      ensures var t := slab[k].value;
              t.pending_send == [] && t.buffered_send_data == 0 && t.requested_send_capacity == 0
              && t.send_flow.available == 0 && t.state == old(slab)[k].value.state
    {
      hide Core, Midway, Grown, StreamOk, OthersGrown, AllGrown;
      var s := slab[k].value;
      Enter(k);
      ghost var w, h := Rest(k), hs[k];
      ClearQueue(k, 0);
      ClearedMidway(slab, in_flight_data_frame, Slot(), hs, k, s, w, h);
      ghost var slab1 := slab;
      ReclaimAllCapacity(k);
      GrownOne(slab1[k := Some(Unassigned(Cleared(s)))], slab, {k}, k);
      OthersAll(slab1[k := Some(Unassigned(Cleared(s)))], slab, {k}, k);
      OthersChain(old(slab), slab1[k := Some(Unassigned(Cleared(s)))], slab, k);
      MidwayParts(k, 0);
      ErrorOk(s, slab[k].value, w, h);
      Leave(k);
    }

    /** RST_STREAM is received. One for a stream the peer cannot know yet is an error. */
    method RecvReset(k: Key) returns (r: Result<(), StateError>)
      requires Valid() && Live(slab, k)
      modifies this`slab, this`pending_send, this`pending_capacity, this`flow, this`in_flight_data_frame, this`hs
      ensures old(pending_send) <= pending_send
      ensures OthersGrown(old(slab), slab, k)
      ensures Valid() && Live(slab, k) && |slab| == |old(slab)| && flow.window_size == old(flow).window_size
      ensures old(slab)[k].value.is_pending_open ==> r == Err(StateError.ProtocolError) && slab == old(slab) && hs == old(hs)
      ensures !old(slab)[k].value.is_pending_open ==>
                && r == Ok(()) && k < |old(hs)| && hs == old(hs)[k := old(hs)[k].(dropped := true)]
                && var s, t := old(slab)[k].value, slab[k].value;
                   && t.state == s.state.RecvReset(s.is_pending_send)
                   && t.pending_send == [] && t.buffered_send_data == 0 && t.send_flow.available == 0
    {
      hide Core, Midway, Grown, StreamOk, OthersGrown;
      OthersPut(slab, slab, k);
      if slab[k].value.is_pending_open {
        return Err(StateError.ProtocolError);
      }
      var s := slab[k].value;
      Enter(k);
      ghost var w, h := Rest(k), hs[k];
      Set(k, s.(state := s.state.RecvReset(s.is_pending_send)), {k}, 0, 0);
      ResetOk(s, slab[k].value, w, h);
      Leave(k);
      ghost var slab1 := slab;
      HandleError(k);
      OthersChain(old(slab), slab1, slab, k);
      r := Ok(());
    }

    // ----- Operations of `Send` (src/proto/streams/send.rs)

    /** Queues HEADERS; a stream this end opens waits until the peer's limit allows it. */
    method SendHeaders(k: Key, end_stream: bool, local_init: bool) returns (r: Result<(), StateError>)
      requires Valid() && Live(slab, k)
      requires local_init ==> slab[k].value.pending_send == [] && !slab[k].value.is_pending_open
      modifies this`slab, this`pending_send, this`pending_open
      ensures old(pending_send) <= pending_send
      ensures Valid() && Live(slab, k) && |slab| == |old(slab)|
      ensures var s := old(slab)[k].value;
              match s.state.SendOpen(end_stream)
              case Err(e) => r == Err(e) && slab == old(slab)
              case Ok(state) =>
                r == Ok(()) && slab == old(slab)[k := Some(HeadersQueued(s, state, end_stream, local_init))]
                && slab[k].value.pending_send == s.pending_send + [Headers(end_stream)] && slab[k].value.state == state
    {
      hide Core, StreamOk, FrameQueued, State.SendOpen, Sane, Served, Backed, Scheduled, Faithful;
      var s := slab[k].value;
      var state := s.state.SendOpen(end_stream);
      if state.Err? {
        return Err(state.error);
      }
      Enter(k);
      OpenAndQueue(k, state.value, end_stream, local_init);
      HeadersOk(s, slab[k].value, state.value, end_stream, local_init, Rest(k), hs[k]);
      Leave(k);
      r := Ok(());
    }

    method OpenAndQueue(k: Key, state: State, end_stream: bool, local_init: bool)
      requires Core({k}, 0) && Live(slab, k) && (local_init ==> !slab[k].value.is_pending_open)
      modifies this`slab, this`pending_send, this`pending_open
      ensures old(pending_send) <= pending_send
      ensures Core({k}, 0)
      ensures slab == old(slab)[k := Some(HeadersQueued(old(slab)[k].value, state, end_stream, local_init))]
    {
      hide Core, FrameQueued;
      Set(k, slab[k].value.(state := state), {k}, 0, 0);
      QueueOpen(k, local_init);
      QueueFrame(k, Headers(end_stream), {k}, 0);
    }

    method QueueOpen(k: Key, local_init: bool)
      requires Core({k}, 0) && Live(slab, k) && (local_init ==> !slab[k].value.is_pending_open)
      modifies this`slab, this`pending_open
      ensures Core({k}, 0)
      ensures var s := old(slab)[k].value;
              slab == old(slab)[k := Some(s.(is_pending_open := s.is_pending_open || local_init))]
    {
      hide AllOk, QueueIs, CodecOk, Accounted, RestOf;
      if !local_init {
        SlabSame(slab, k);
        return;
      }
      var t := slab[k].value.(is_pending_open := true);
      ChangeFlags(slab, pending_send, pending_capacity, pending_open, in_flight_data_frame, Slot(), hs, {k}, flow, leaked, k, t);
      QueuePushes(NextOpen, pending_open, slab, k, t);
      slab := slab[k := Some(t)];
      pending_open := pending_open + [k];
    }

    /** Queues trailers, which end the stream, and gives up capacity not needed for them. */
    method SendTrailers(k: Key) returns (r: Result<(), StateError>)
      requires Valid() && Live(slab, k)
      modifies this`slab, this`pending_send, this`pending_capacity, this`flow
      ensures old(pending_send) <= pending_send
      ensures OthersGrown(old(slab), slab, k)
      ensures Valid() && Live(slab, k) && |slab| == |old(slab)| && flow.window_size == old(flow).window_size
      ensures !old(slab)[k].value.state.IsSendStreaming() ==> r == Err(StateError.UnexpectedFrameType) && slab == old(slab)
      ensures old(slab)[k].value.state.IsSendStreaming() ==>
                r == Ok(()) && Reserved(Trailed(old(slab)[k].value), slab[k].value, 0)
                && slab[k].value.pending_send == old(slab)[k].value.pending_send + [Headers(true)]
                && slab[k].value.state.IsSendClosed()
    {
      hide Core, Midway, Grown, StreamOk, Reserved, OthersGrown;
      OthersPut(slab, slab, k);
      var s := slab[k].value;
      if !s.state.IsSendStreaming() {
        return Err(StateError.UnexpectedFrameType);
      }
      Enter(k);
      OkParts(s, Rest(k), hs[k]);
      QueueTrailers(k);
      TrailedOk(s, Rest(k), hs[k]);
      OkMidway(slab, in_flight_data_frame, Slot(), hs, k);
      OkParts(slab[k].value, Rest(k), hs[k]);
      ghost var slab1 := slab;
      ReserveMidway(0, k, 0);
      OthersChain(old(slab), slab1, slab, k);
      MidwayParts(k, 0);
      ReservedSteady(Trailed(s), slab[k].value, 0);
      ReservedOk(Trailed(s), slab[k].value, 0, Rest(k), hs[k]);
      Leave(k);
      r := Ok(());
    }

    method QueueTrailers(k: Key)
      requires Core({k}, 0) && Live(slab, k) && slab[k].value.state.IsSendStreaming()
      modifies this`slab, this`pending_send
      ensures old(pending_send) <= pending_send
      ensures Core({k}, 0) && slab == old(slab)[k := Some(Trailed(old(slab)[k].value))]
    {
      hide Core;
      Set(k, slab[k].value.(state := slab[k].value.state.SendClose()), {k}, 0, 0);
      QueueFrame(k, Headers(true), {k}, 0);
    }

    /** Resets a stream: what it has queued is dropped, unless the peer does not know the stream yet. */
    method SendReset(k: Key, reason: nat)
      requires Valid() && Live(slab, k)
      modifies this`slab, this`pending_send, this`pending_capacity, this`flow, this`in_flight_data_frame, this`hs
      ensures old(pending_send) <= pending_send
      ensures OthersGrown(old(slab), slab, k)
      ensures |hs| == |old(hs)| && forall j :: 0 <= j < |hs| && j != k ==> hs[j] == old(hs)[j]
      ensures Valid() && Live(slab, k) && |slab| == |old(slab)| && |hs| == |old(hs)| && flow.window_size == old(flow).window_size
      ensures old(slab)[k].value.state.IsReset() ==> slab == old(slab) && hs == old(hs)
      ensures var s, t := old(slab)[k].value, slab[k].value;
              !s.state.IsReset() ==> (
                t.state == Closed(Error(true)) &&
                if s.state.Closed? && s.pending_send == [] then t == s.(state := t.state)
                else t.pending_send == (if s.is_pending_open then s.pending_send else []) + [OutFrame.Reset(reason)]
                     && t.send_flow.available == 0)
    {
      hide Core, Midway, Grown, StreamOk, FrameQueued, Cleared, Unassigned, Sane, Scheduled, Faithful, Served, OthersGrown;
      OthersPut(slab, slab, k);
      var s := slab[k].value;
      if s.state.IsReset() {
        return;
      }
      Enter(k);
      ghost var w, h := Rest(k), hs[k];
      Set(k, s.(state := Closed(Error(true))), {k}, 0, 0);
      ClosedOk(s, Error(true), w, h);
      if s.state.Closed? && s.pending_send == [] {
        OthersPut(old(slab), slab, k);
        Leave(k);
        return;
      }
      if !slab[k].value.is_pending_open {
        ClearQueue(k, 0);
      }
      ghost var slab1 := slab;
      QueueReset(k, reason, s, w, h);
      OthersChain(old(slab), slab1, slab, k);
    }

    /** Queues RST_STREAM behind what is left and gives the capacity away. */
    method QueueReset(k: Key, reason: nat, ghost s: Stream, ghost w: Option<Written>, ghost h: History)
      requires Core({k}, 0) && Settled() && Live(slab, k) && k < |hs| && BeforeReset(s, slab[k].value) && StreamOk(s, w, h)
      requires if s.is_pending_open then Rest(k) == w && hs[k] == h else Rest(k).None? && hs[k] == h.(dropped := true)
      modifies this`slab, this`pending_send, this`pending_capacity, this`flow
      ensures old(pending_send) <= pending_send
      ensures OthersGrown(old(slab), slab, k)
      ensures Valid() && Live(slab, k) && |slab| == |old(slab)| && flow.window_size == old(flow).window_size
      ensures var t := slab[k].value;
              && t.state == Closed(Error(true)) && t.send_flow.available == 0
              && t.pending_send == (if s.is_pending_open then s.pending_send else []) + [OutFrame.Reset(reason)]
    {
      hide Core, Midway, Grown, StreamOk, FrameQueued, Cleared, Unassigned, Sane, Scheduled, Faithful, Served, BeforeReset, OthersGrown, AllGrown;
      ghost var w1, h1, t := Rest(k), hs[k], slab[k].value;
      QueueFrame(k, OutFrame.Reset(reason), {k}, 0);
      ResetMidway(slab, in_flight_data_frame, Slot(), hs, k, s, t, reason, w, h);
      ghost var slab1 := slab;
      ReclaimAllCapacity(k);
      GrownOne(slab1[k := Some(Unassigned(slab1[k].value))], slab, {k}, k);
      OthersAll(slab1[k := Some(Unassigned(slab1[k].value))], slab, {k}, k);
      OthersChain(old(slab), slab1[k := Some(Unassigned(slab1[k].value))], slab, k);
      MidwayParts(k, 0);
      ResetQueuedOk(s, t, slab[k].value, reason, w1, h1);
      Leave(k);
    }

    /** Arranges for a stream nobody is interested in any more to be reset once its data is out. */
    method ScheduleImplicitReset(k: Key, reason: nat)
      requires Valid() && Live(slab, k)
      modifies this`slab, this`pending_send, this`pending_capacity, this`flow
      ensures old(pending_send) <= pending_send
      ensures OthersGrown(old(slab), slab, k)
      ensures Valid() && Live(slab, k) && |slab| == |old(slab)| && flow.window_size == old(flow).window_size
      ensures old(slab)[k].value.state.Closed? ==> slab == old(slab)
      ensures var s, t := old(slab)[k].value, slab[k].value;
              !s.state.Closed? ==>
                && t.state == Closed(ScheduledLibraryReset(reason)) && t.pending_send == s.pending_send
                && t.buffered_send_data == s.buffered_send_data && (!s.is_pending_open ==> t.is_pending_send)
    {
      hide Core, Midway, Grown, StreamOk, OthersGrown;
      OthersPut(slab, slab, k);
      var s := slab[k].value;
      if s.state.Closed? {
        return;
      }
      Enter(k);
      ghost var w, h := Rest(k), hs[k];
      ghost var s1 := s.(state := Closed(ScheduledLibraryReset(reason)));
      Set(k, s.(state := Closed(ScheduledLibraryReset(reason))), {k}, 0, 0);
      ClosedOk(s, ScheduledLibraryReset(reason), w, h);
      OkMidway(slab, in_flight_data_frame, Slot(), hs, k);
      OkParts(s1, w, h);
      ghost var slab1 := slab;
      ReclaimReservedCapacity(k);
      OthersChain(old(slab), slab1, slab, k);
      ghost var slab2 := slab;
      ghost var s2 := slab[k].value;
      MidwayParts(k, 0);
      ScheduleSend(k, {k}, 0);
      OthersThen(old(slab), slab2, slab, k);
      ScheduledResetOk(s, s1, s2, w, h);
      Leave(k);
    }

    // ----- The store

    /** A new stream, in a vacant place of the slab. */
    method Insert(k: Key, s: Stream)
      requires Valid() && (k == |slab| || (k < |slab| && slab[k].None?)) && IsNew(s)
      modifies this`slab, this`hs
      ensures Valid() && Live(slab, k)
      ensures slab == if k == |old(slab)| then old(slab) + [Some(s)] else old(slab)[k := Some(s)]
      ensures |hs| == |slab| && (forall j :: 0 <= j < |hs| && j != k ==> j < |old(hs)| && hs[j] == old(hs)[j]) && hs[k] == NewHistory
    {
      hide StreamOk, RestOf;
      NewOk(s);
      NothingRests(slab, in_flight_data_frame, Slot(), k);
      if k == |slab| {
        AssignedAppend(slab, s);
        slab, hs := slab + [Some(s)], hs + [NewHistory];
      } else {
        AssignedUpdate(slab, k, Some(s));
        slab, hs := slab[k := Some(s)], hs[k := NewHistory];
      }
      NewQueues(old(slab), slab, k, s, pending_send, pending_capacity, pending_open);
    }

    /** What `transition_after` does to the store: closed streams are forgotten, released ones removed. */
    method TransitionAfter(k: Key)
      requires Valid() && Live(slab, k)
      modifies this`slab, this`leaked
      ensures Valid() && |slab| == |old(slab)|
      ensures var s := old(slab)[k].value;
              && slab == old(slab)[k := if s.IsReleased() then None else Some(Unlinked(s))]
              && leaked == old(leaked) + if s.IsReleased() then s.send_flow.available else 0
      ensures old(slab)[k].value.send_flow.available >= 0
    {
      hide Core, StreamOk;
      var s := slab[k].value;
      Enter(k);
      if s.IsClosed() && !s.is_pending_reset_expiration {
        Set(k, s.(is_linked := false), {k}, 0, 0);
      } else {
        SlabSame(slab, k);
      }
      UnlinkedOk(s, Rest(k), hs[k]);
      Leave(k);
      if slab[k].value.IsReleased() {
        Remove(k);
      }
    }

    method Remove(k: Key)
      requires Core({}, 0) && Live(slab, k) && slab[k].value.IsReleased()
      modifies this`slab, this`leaked
      ensures Core({}, 0) && slab == old(slab)[k := None]
      ensures old(slab)[k].value.send_flow.available >= 0
      ensures leaked == old(leaked) + old(slab)[k].value.send_flow.available
    {
      hide StreamOk;
      Enter(k);
      RestNeedsBuffer(slab[k].value, Rest(k), hs[k]);
      AssignedUpdate(slab, k, None);
      leaked := leaked + slab[k].value.send_flow.available;
      slab := slab[k := None];
      RemovedQueues(old(slab), slab, k, pending_send, pending_capacity, pending_open);
      RemovedOk(old(slab), slab, in_flight_data_frame, Slot(), hs, k);
    }

    // ----- The codec

    /** The frame being written is done. */
    method FrameWritten()
      requires Valid() && next.Some?
      modifies this`next, this`last_data_frame
      ensures Valid() && next.None? && last_data_frame == old(next)
    {
      hide QueueIs, AllOk, CodecOk, Accounted;
      last_data_frame, next := next, None;
    }

    /** Takes back what is left of a written DATA frame. */
    method ReclaimFrame() returns (reclaimed: bool)
      requires Valid()
      modifies this`slab, this`pending_send, this`in_flight_data_frame, this`last_data_frame
      ensures old(pending_send) <= pending_send
      ensures Valid() && last_data_frame.None? && (next.None? ==> in_flight_data_frame.Nothing?)
      ensures reclaimed <==> old(last_data_frame).Some? && !old(in_flight_data_frame).Drop? && old(last_data_frame).value.rest != []
      ensures reclaimed ==> PutBackOn(old(slab), slab, old(last_data_frame).value)
      ensures !reclaimed ==> slab == old(slab)
    {
      if last_data_frame.None? {
        return false;
      }
      var w := last_data_frame.value;
      var k := w.stream;
      if in_flight_data_frame.Drop? || w.rest == [] {
        Discard();
        return false;
      }
      PushBackFrame(k, w);
      reclaimed := true;
    }

    /** Nothing is to come back. */
    method Discard()
      requires Valid() && last_data_frame.Some? && (in_flight_data_frame.Drop? || last_data_frame.value.rest == [])
      modifies this`in_flight_data_frame, this`last_data_frame
      ensures Valid() && last_data_frame.None? && in_flight_data_frame.Nothing?
    {
      hide QueueIs, Accounted, StreamOk;
      in_flight_data_frame, last_data_frame := Nothing, None;
    }

    /** Puts the rest of a frame at the front of the stream's own queue. */
    method PushBackFrame(k: Key, w: Written)
      requires Valid() && last_data_frame == Some(w) && w.stream == k && w.rest != [] && in_flight_data_frame.DataFrame?
      modifies this`slab, this`pending_send, this`in_flight_data_frame, this`last_data_frame
      ensures old(pending_send) <= pending_send
      ensures Valid() && last_data_frame.None? && in_flight_data_frame.Nothing?
      ensures Live(old(slab), k) && Live(slab, k) && slab == old(slab)[k := slab[k]]
      ensures slab[k].value == PutBack(old(slab)[k].value, w)
    {
      hide Core, StreamOk;
      RestIsLive(k);
      var s := slab[k].value;
      Enter(k);
      ghost var h := hs[k];
      Landed(k);
      Set(k, s.(pending_send := [Data(w.rest, w.end_of_stream)] + s.pending_send), {k}, 0, 0);
      if slab[k].value.send_flow.available > 0 {
        PushSend(k, {k}, 0);
      }
      BackOk(s, slab[k].value, w, h);
      Leave(k);
    }

    lemma RestIsLive(k: Key)
      requires Core({}, 0) && last_data_frame.Some? && last_data_frame.value.rest != [] && in_flight_data_frame.DataFrame?
      requires k == last_data_frame.value.stream
      ensures Live(slab, k) && Rest(k) == last_data_frame && |last_data_frame.value.rest| <= MAX_WINDOW_SIZE && next.None?
    {
      hide QueueIs, AllOk, Accounted;
    }

    /** The codec's slot is emptied; stream `k` is left to be put right. */
    method Landed(ghost k: Key)
      requires Core({k}, 0) && last_data_frame.Some? && in_flight_data_frame.DataFrame? && last_data_frame.value.stream == k
      modifies this`in_flight_data_frame, this`last_data_frame
      ensures Core({k}, 0) && last_data_frame.None? && in_flight_data_frame.Nothing? && Rest(k).None?
    {
      hide QueueIs, Accounted, StreamOk;
      in_flight_data_frame, last_data_frame := Nothing, None;
    }

    // ----- Popping frames

    /** Takes the first stream that waits to send off its queue. */
    method PopSend() returns (k: Key)
      requires Core({}, 0) && pending_send != []
      modifies this`slab, this`pending_send
      ensures k == old(pending_send)[0] && pending_send == old(pending_send)[1..]
      ensures Live(old(slab), k) && k < |hs| && StreamOk(old(slab)[k].value, Rest(k), hs[k])
      ensures old(slab)[k].value.is_pending_send
      ensures slab == old(slab)[k := Some(old(slab)[k].value.(is_pending_send := false))]
      ensures Core({k}, 0)
    {
      hide AllOk, QueueIs, CodecOk, Accounted, RestOf, StreamOk;
      k := pending_send[0];
      QueueHead(NextSend, pending_send, slab);
      var t := slab[k].value.(is_pending_send := false);
      assert {} + {k} == {k};
      AllOkBut(slab, in_flight_data_frame, Slot(), hs, {}, k);
      ChangeFlags(slab, pending_send, pending_capacity, pending_open, in_flight_data_frame, Slot(), hs, {k}, flow, leaked, k, t);
      QueuePops(NextSend, pending_send, slab, t);
      slab := slab[k := Some(t)];
      pending_send := pending_send[1..];
    }

    /** A stream to be reset gives up its data. */
    method DropData(k: Key, ghost s: Stream)
      requires Core({k}, 0) && Settled() && Live(slab, k) && k < |hs| && slab[k].value == s.(is_pending_send := false)
      requires StreamOk(s, Rest(k), hs[k]) && s.state.Closed? && !s.is_pending_open && s.is_pending_send
      modifies this`slab, this`pending_send, this`pending_capacity, this`flow, this`in_flight_data_frame, this`hs
      ensures old(pending_send) <= pending_send
      ensures Valid() && AllGrown(old(slab)[k := Some(Unassigned(Cleared(s)))], slab, {})
      ensures hs == old(hs)[k := old(hs)[k].(dropped := true)] && flow.window_size == old(flow).window_size
      ensures next == old(next) && last_data_frame == old(last_data_frame)
      ensures in_flight_data_frame == if old(in_flight_data_frame) == DataFrame(k) then Drop else old(in_flight_data_frame)
    {
      hide Core, Midway, Grown, StreamOk, AllGrown, Served;
      ghost var w, h := Rest(k), hs[k];
      ClearQueue(k, 0);
      PoppedCleared(slab, in_flight_data_frame, Slot(), hs, k, s, w, h);
      ghost var slab1 := slab;
      ReclaimAllCapacity(k);
      MidwayParts(k, 0);
      ghost var slab2, s2 := slab, slab[k].value;
      ghost var slab3 := slab1[k := Some(Unassigned(slab1[k].value))];
      GrownOne(slab3, slab2, {k}, k);
      AllGrownOne(slab3, slab2, k, Unassigned(Cleared(s)));
      assert slab3[k := Some(Unassigned(Cleared(s)))] == old(slab)[k := Some(Unassigned(Cleared(s)))];
      PushSend(k, {k}, 0);
      DroppedOk(s, s2, w, h);
      Leave(k);
    }

    /** Takes `len` octets off the stream's and the connection's windows and hands the frame to the codec. */
    method Consume(k: Key, t: Stream, len: nat, rest: Bytes, end_stream: bool)
      requires Core({k}, 0) && Live(slab, k) && SameQueues(slab[k].value, t) && in_flight_data_frame.Nothing?
      requires slab[k].value.send_flow.available >= len && t.send_flow.available == slab[k].value.send_flow.available - len
      requires len <= MAX_WINDOW_SIZE && |rest| <= MAX_WINDOW_SIZE
      modifies this`slab, this`flow, this`in_flight_data_frame, this`next
      ensures Core({k}, 0) && slab == old(slab)[k := Some(t)]
      ensures len <= old(flow).window_size && flow == FlowControl(old(flow).window_size - len, old(flow).available)
      ensures in_flight_data_frame == DataFrame(k) && next == Some(Written(k, rest, end_stream))
    {
      WindowCovers(slab, in_flight_data_frame, Slot(), hs, flow, leaked, k);
      ExactAssign(flow, len);
      ExactSend(flow.(available := flow.available + len), len);
      hide QueueIs, StreamOk;
      Set(k, t, {k}, 0, len);
      flow := flow.AssignCapacity(len).value;
      flow := flow.SendData(len).value;
      in_flight_data_frame, next := DataFrame(k), Some(Written(k, rest, end_stream));
    }

    /** A stream that has more to send goes to the end of the queue. */
    method QueueAgain(k: Key)
      requires Core({k}, 0) && Live(slab, k) && !slab[k].value.is_pending_send
      modifies this`slab, this`pending_send
      ensures pending_send == old(pending_send) + if MoreToSend(old(slab)[k].value) then [k] else []
      ensures Core({k}, 0)
      ensures var u := old(slab)[k].value;
              slab == old(slab)[k := Some(u.(is_pending_send := MoreToSend(u)))]
    {
      hide Core;
      if slab[k].value.pending_send != [] || slab[k].value.state.IsScheduledReset() {
        PushSend(k, {k}, 0);
      } else {
        NotPending(slab[k].value);
        SlabSame(slab, k);
      }
    }

    /** Sends as much of the stream's first frame as the windows and the frame size allow. */
    method SendChunk(k: Key, max_len: nat, ghost s: Stream) returns (payload: Bytes, end_stream: bool)
      requires Core({k}, 0) && Settled() && Live(slab, k) && k < |hs| && slab[k].value == s.(is_pending_send := false)
      requires in_flight_data_frame.Nothing? && StreamOk(s, None, hs[k]) && !s.is_pending_open
      requires s.pending_send != [] && s.pending_send[0].Data? && !Blocked(s.pending_send[0], s.send_flow.available)
      modifies this`slab, this`pending_send, this`flow, this`in_flight_data_frame, this`next, this`hs
      ensures pending_send == old(pending_send) + if MoreAfter(s) then [k] else []
      ensures Valid() && Live(slab, k)
      ensures Chunk(s, payload, end_stream, max_len) && |payload| <= old(flow).window_size
      ensures flow == FlowControl(old(flow).window_size - |payload|, old(flow).available)
      ensures slab == old(slab)[k := Some(Chunked(s, |payload|))]
      ensures hs == old(hs)[k := Sent(old(hs)[k], payload, end_stream)]
      ensures end_stream && !old(hs)[k].dropped ==> hs[k].sent == hs[k].given
      ensures in_flight_data_frame == DataFrame(k) && next == Some(Remainder(k, s, |payload|))
    {
      hide Core, StreamOk, Chunked, Chunk, Shortened, SameQueues, MoreToSend, MoreAfter;
      var t := slab[k].value;
      var frame := t.pending_send[0];
      ChunkFits(s, hs[k]);
      var len := Min(Min(|frame.payload|, max_len), AsSize(t.send_flow.available));
      ChunkIs(s, t, frame, len);
      ChunkOk(s, frame, len, hs[k], k);
      ghost var h := hs[k];
      payload, end_stream := frame.payload[..len], frame.end_stream && |frame.payload| <= len;
      ChunkMeans(s, payload, end_stream, max_len, h);
      var u := Shortened(t, len);
      Consume(k, u, len, frame.payload[len..], frame.end_stream);
      SetHistory(k, Sent(h, payload, end_stream), {k}, 0);
      MoreAfterIs(s, u);
      QueueAgain(k);
      Leave(k);
    }

    /** Sends the stream's first frame, which is not DATA. */
    method SendOther(k: Key, ghost s: Stream)
      requires Core({k}, 0) && Settled() && Live(slab, k) && k < |hs| && slab[k].value == s.(is_pending_send := false)
      requires in_flight_data_frame.Nothing? && StreamOk(s, None, hs[k]) && !s.is_pending_open
      requires s.pending_send != [] && !s.pending_send[0].Data?
      modifies this`slab, this`pending_send
      ensures pending_send == old(pending_send) + if MoreAfter(s) then [k] else []
      ensures Valid() && Live(slab, k) && slab == old(slab)[k := Some(FirstSent(s))]
    {
      hide Core, StreamOk, FirstSent, MoreToSend, MoreAfter;
      var t := slab[k].value;
      var u := t.(pending_send := t.pending_send[1..]);
      FirstSentOk(s, hs[k]);
      MoreAfterIs(s, u);
      FirstSentIs(s, u);
      Set(k, u, {k}, 0, 0);
      QueueAgain(k);
      Leave(k);
    }

    /** Nothing is left to send but, perhaps, RST_STREAM. */
    method SendNothing(k: Key, ghost s: Stream) returns (reset: Option<nat>)
      requires Core({k}, 0) && Settled() && Live(slab, k) && k < |hs| && slab[k].value == s.(is_pending_send := false)
      requires in_flight_data_frame.Nothing? && StreamOk(s, None, hs[k]) && s.is_pending_send && s.pending_send == []
      modifies this`slab
      ensures Valid() && Live(slab, k) && s.state.Closed?
      ensures reset == if s.state.IsScheduledReset() then Some(s.state.cause.reason) else None
      ensures slab == old(slab)[k := Some(s.(is_pending_send := false,
                                             state := if reset.Some? then Closed(Error(true)) else s.state))]
    {
      hide Core, StreamOk;
      var t := slab[k].value;
      NothingLeft(s, hs[k]);
      if t.state.IsScheduledReset() {
        reset := Some(t.state.cause.reason);
        Set(k, t.(state := Closed(Error(true))), {k}, 0, 0);
      } else {
        reset := None;
        SlabSame(slab, k);
      }
      Leave(k);
    }

    /** The stream had nothing queued; `transition_after` follows. */
    method PopNothing(k: Key, max_len: nat, ghost s: Stream) returns (frame: Option<SentFrame>)
      requires Core({k}, 0) && Settled() && Live(slab, k) && k < |hs| && slab[k].value == s.(is_pending_send := false)
      requires in_flight_data_frame.Nothing? && StreamOk(s, None, hs[k]) && s.is_pending_send && s.pending_send == []
      modifies this`slab, this`leaked
      ensures |slab| == |old(slab)| && slab == old(slab)[k := slab[k]]
      ensures Valid() && |slab| == |old(slab)|
      ensures frame.None? ==> !s.state.IsScheduledReset()
      ensures frame.None? ==> FrameCount(slab) <= FrameCount(old(slab)) && Unsent(old(slab)[k := Some(s)], hs, slab, hs)
      ensures frame.Some? ==> frame.value.SentOther? && frame.value.key == k
                              && FrameAllowed(old(slab)[k := Some(s)], flow, hs, max_len, frame.value, slab, flow, hs)
    {
      hide Core, StreamOk, FrameCount, Unsent, Unlinked, FrameAllowed;
      ghost var slab0 := slab[k := Some(s)];
      var reset := SendNothing(k, s);
      ghost var slab1 := slab;
      assert slab1 == slab0[k := slab1[k]];
      TransitionAfter(k);
      assert slab == slab0[k := slab[k]];
      if reset.Some? {
        frame := Some(SentOther(k, OutFrame.Reset(reset.value)));
        AllowedOther(slab0, flow, hs, max_len, frame.value, slab);
      } else {
        FrameCountUpdate(old(slab), k, slab[k]);
        assert slab == old(slab)[k := slab[k]];
        UnlinkedSends(slab1[k].value);
        UnsentAt(slab0, hs, k, slab);
        frame := None;
      }
    }

    /** A DATA frame that may be sent; `transition_after` follows. */
    method PopData(k: Key, max_len: nat, ghost s: Stream) returns (frame: SentFrame)
      requires Core({k}, 0) && Settled() && Live(slab, k) && k < |hs| && slab[k].value == s.(is_pending_send := false)
      requires in_flight_data_frame.Nothing? && StreamOk(s, None, hs[k]) && !s.is_pending_open
      requires s.pending_send != [] && s.pending_send[0].Data? && !Blocked(s.pending_send[0], s.send_flow.available)
      modifies this`slab, this`pending_send, this`flow, this`in_flight_data_frame, this`next, this`hs, this`leaked
      ensures |slab| == |old(slab)| && slab == old(slab)[k := slab[k]]
      ensures pending_send == old(pending_send) + if MoreAfter(s) then [k] else []
      ensures Valid() && frame.SentData? && frame.key == k && in_flight_data_frame == DataFrame(k)
      ensures |frame.payload| <= |s.pending_send[0].payload| && next == Some(Remainder(k, s, |frame.payload|))
      ensures FrameAllowed(old(slab)[k := Some(s)], old(flow), old(hs), max_len, frame, slab, flow, hs)
    {
      hide Core, StreamOk, Chunked, Unlinked, FrameAllowed;
      ghost var slab0 := slab[k := Some(s)];
      var payload, end_stream := SendChunk(k, max_len, s);
      TransitionAfter(k);
      assert slab == slab0[k := slab[k]];
      frame := SentData(k, payload, end_stream);
      AllowedData(slab0, old(flow), old(hs), max_len, frame, slab, flow, hs);
    }

    /** Any other frame; `transition_after` follows. */
    method PopOther(k: Key, max_len: nat, ghost s: Stream) returns (frame: SentFrame)
      requires Core({k}, 0) && Settled() && Live(slab, k) && k < |hs| && slab[k].value == s.(is_pending_send := false)
      requires in_flight_data_frame.Nothing? && StreamOk(s, None, hs[k]) && !s.is_pending_open
      requires s.pending_send != [] && !s.pending_send[0].Data?
      modifies this`slab, this`pending_send, this`leaked
      ensures |slab| == |old(slab)| && slab == old(slab)[k := slab[k]]
      ensures pending_send == old(pending_send) + if MoreAfter(s) then [k] else []
      ensures Valid() && frame.SentOther? && frame.key == k
      ensures FrameAllowed(old(slab)[k := Some(s)], flow, hs, max_len, frame, slab, flow, hs)
    {
      hide Core, StreamOk, FirstSent, Unlinked, FrameAllowed;
      ghost var slab0 := slab[k := Some(s)];
      frame := SentOther(k, slab[k].value.pending_send[0]);
      SendOther(k, s);
      TransitionAfter(k);
      assert slab == slab0[k := slab[k]];
      AllowedOther(slab0, flow, hs, max_len, frame, slab);
    }

    /** One round of the loop of `pop_frame`: a frame, or a stream that could not send after all. */
    method PopOne(max_len: nat) returns (frame: Option<SentFrame>)
      requires Valid() && in_flight_data_frame.Nothing? && next.None? && last_data_frame.None? && pending_send != []
      modifies this`slab, this`pending_send, this`pending_capacity, this`flow, this`in_flight_data_frame, this`next, this`hs,
               this`leaked
      ensures old(pending_send)[1..] <= pending_send
      ensures OthersGrown(old(slab), slab, old(pending_send)[0])
      ensures Valid() && last_data_frame.None?
      ensures frame.None? ==> in_flight_data_frame.Nothing? && next.None? && flow.window_size == old(flow).window_size
      ensures frame.None? ==> FrameCount(slab) < FrameCount(old(slab))
                              || (FrameCount(slab) == FrameCount(old(slab)) && |pending_send| < |old(pending_send)|)
      ensures frame.None? ==> Unsent(old(slab), old(hs), slab, hs)
      ensures Live(old(slab), old(pending_send)[0]) && (frame.None? ==> Stuck(old(slab)[old(pending_send)[0]].value))
      ensures frame.Some? ==>
                pending_send == old(pending_send)[1..] +
                                if MoreAfter(old(slab)[old(pending_send)[0]].value) then [old(pending_send)[0]] else []
      ensures frame.Some? ==> frame.value.key == old(pending_send)[0]
                              && FrameAllowed(old(slab), old(flow), old(hs), max_len, frame.value, slab, flow, hs)
      ensures frame.Some? ==> (in_flight_data_frame.DataFrame? <==> frame.value.SentData?)
                              && (in_flight_data_frame.Nothing? || in_flight_data_frame == DataFrame(frame.value.key))
                              && (frame.value.SentOther? ==> next.None?)
      ensures frame.Some? && frame.value.SentData? ==>
                var s := old(slab)[frame.value.key].value;
                && s.pending_send != [] && s.pending_send[0].Data? && |frame.value.payload| <= |s.pending_send[0].payload|
                && next == Some(Remainder(frame.value.key, s, |frame.value.payload|))
    {
      hide Core, StreamOk, FrameCount, Unsent, AllGrown, FrameAllowed, OthersGrown;
      ghost var slab0 := slab;
      NothingRestsAtAll();
      var k := PopSend();
      ghost var s, slab1 := slab0[k].value, slab;
      assert slab1[k := Some(s)] == slab0;
      FrameCountUpdate(slab0, k, slab1[k]);
      var t := slab[k].value;
      PoppedFacts(s, hs[k]);
      if t.pending_send == [] {
        frame := PopNothing(k, max_len, s);
        OthersPut(slab0, slab, k);
        return;
      }
      var first := t.pending_send[0];
      if first.Data? {
        if t.state.IsScheduledReset() && t.state.cause.reason != NO_ERROR {
          ghost var hs0 := hs;
          DropData(k, s);
          DroppedFrames(slab0, slab1, slab, k, s);
          OthersAll(slab1[k := Some(Unassigned(Cleared(s)))], slab, {}, k);
          OthersChain(slab0, slab1[k := Some(Unassigned(Cleared(s)))], slab, k);
          UnsentDropped(slab0, hs0, k, s, slab, hs);
          return None;
        }
        if first.payload != [] && t.send_flow.available == 0 {
          BlockedOk(s, hs[k]);
          UnsentAt(slab0, hs, k, slab);
          OthersPut(slab0, slab, k);
          Leave(k);
          return None;
        }
        var data := PopData(k, max_len, s);
        OthersPut(slab0, slab, k);
        return Some(data);
      }
      var other := PopOther(k, max_len, s);
      OthersPut(slab0, slab, k);
      frame := Some(other);
    }

    /** The next frame to write, of at most `max_len` octets of data, if any stream can send. */
    method PopFrame(max_len: nat) returns (frame: Option<SentFrame>)
      requires Valid() && in_flight_data_frame.Nothing? && next.None? && last_data_frame.None?
      modifies this`slab, this`pending_send, this`pending_capacity, this`flow, this`in_flight_data_frame, this`next, this`hs,
               this`leaked
      ensures Valid() && last_data_frame.None?
      ensures frame.None? ==> pending_send == [] && in_flight_data_frame.Nothing? && flow.window_size == old(flow).window_size
      ensures frame.Some? && frame.value.SentData? ==>
                && in_flight_data_frame == DataFrame(frame.value.key) && |frame.value.payload| <= max_len
                && |frame.value.payload| <= old(flow).window_size
                && flow.window_size == old(flow).window_size - |frame.value.payload|
      ensures frame.Some? && !frame.value.SentData? ==> in_flight_data_frame.Nothing? && flow.window_size == old(flow).window_size
      ensures frame.Some? ==> FrameFits(old(slab), old(hs), frame.value, hs)
      ensures exists n :: PassedOver(old(pending_send), n, old(slab)) &&
                          if frame.None? then n == |old(pending_send)|
                          else TookTurn(old(pending_send), n, frame.value.key, pending_send)
    {
      hide Core, FrameCount, Unsent, FrameFits, Stuck, OnlyGrown;
      frame := None;
      UnsentSelf(slab, hs);
      ghost var q, n := pending_send, 0;
      SendersDistinct();
      NothingNegative();
      OnlyGrownSelf(q, slab);
      while pending_send != []
        invariant Valid() && in_flight_data_frame.Nothing? && next.None? && last_data_frame.None? && frame.None?
        invariant flow.window_size == old(flow).window_size && Unsent(old(slab), old(hs), slab, hs)
        invariant n <= |q| && q[n..] <= pending_send && PassedOver(q, n, old(slab)) && OnlyGrown(q[n..], old(slab), slab)
        decreases FrameCount(slab), |pending_send|
      {
        ghost var slab0, flow0, hs0 := slab, flow, hs;
        ghost var queue := pending_send;
        SendersDistinct();
        frame := PopOne(max_len);
        if n < |q| {
          Turn(q, n, old(slab), slab0, slab, queue);
        } else {
          OnlyGrownNone(q, old(slab), slab);
        }
        if frame.Some? {
          LastInLine(queue, pending_send, MoreAfter(slab0[queue[0]].value));
          AllowedMeans(slab0, flow0, hs0, max_len, frame.value, slab, flow, hs);
          AllowedFits(old(slab), old(hs), slab0, flow0, hs0, max_len, frame.value, slab, flow, hs);
          return;
        }
        UnsentTwice(old(slab), old(hs), slab0, hs0, slab, hs);
        n := if n < |q| then n + 1 else n;
      }
    }

    lemma NothingNegative()
      requires Valid()
      ensures forall k: Key :: Live(slab, k) ==> 0 <= slab[k].value.send_flow.available
    {
      forall k: Key | Live(slab, k) ensures 0 <= slab[k].value.send_flow.available {
        CapacityOf(k);
      }
    }

    lemma CapacityOf(k: Key)
      requires Valid() && Live(slab, k)
      ensures 0 <= slab[k].value.send_flow.available
    {
      Enter(k);
      hide Faithful, Scheduled, Served, QueueIs, CodecOk;
    }

    lemma SendersDistinct()
      requires Valid()
      ensures forall i, j :: 0 <= i < j < |pending_send| ==> pending_send[i] != pending_send[j]
      ensures forall i :: 0 <= i < |pending_send| ==> Live(slab, pending_send[i])
    {
      forall i | 0 <= i < |pending_send| ensures Live(slab, pending_send[i]) {
        assert pending_send[i] in pending_send;
        assert Member(NextSend, slab, pending_send[i]);
      }
    }

    lemma NothingRestsAtAll()
      requires in_flight_data_frame.Nothing?
      ensures forall k: Key :: Rest(k).None?
    {
    }

    // ----- Opening streams and filling the codec

    /** Opens the stream that has waited longest, ahead of all others that wait to send. */
    method OpenNext() returns (k: Key)
      requires Valid() && pending_open != []
      modifies this`slab, this`pending_open, this`pending_send, this`pending_capacity, this`flow
      ensures pending_send != [] && [pending_send[0]] + old(pending_send) <= pending_send
      ensures Valid() && k == old(pending_open)[0] && pending_open == old(pending_open)[1..]
      ensures |slab| == |old(slab)| && flow.window_size == old(flow).window_size
      ensures Live(old(slab), k) && Live(slab, k) && slab[k].value.is_pending_send && !slab[k].value.is_pending_open
      ensures slab == old(slab)[k := slab[k]] && pending_send != [] && pending_send[0] == k
    {
      hide Core, Midway, Grown, StreamOk, Served;
      k := PopOpen();
      ghost var s := old(slab)[k].value;
      NotYetSending(s, Rest(k), hs[k]);
      PushSendFront(k);
      OpenedMidway(slab, in_flight_data_frame, Slot(), hs, k, s);
      TryAssignCapacity(k, {k}, 0);
      MidwayParts(k, 0);
      OpenedOk(s, slab[k].value, Rest(k), hs[k]);
      Leave(k);
    }

    method PopOpen() returns (k: Key)
      requires Core({}, 0) && pending_open != []
      modifies this`slab, this`pending_open
      ensures k == old(pending_open)[0] && pending_open == old(pending_open)[1..]
      ensures Live(old(slab), k) && k < |hs| && StreamOk(old(slab)[k].value, Rest(k), hs[k]) && old(slab)[k].value.is_pending_open
      ensures slab == old(slab)[k := Some(old(slab)[k].value.(is_pending_open := false, is_counted := true))]
      ensures Core({k}, 0)
    {
      hide AllOk, QueueIs, CodecOk, Accounted, RestOf, StreamOk;
      k := pending_open[0];
      QueueHead(NextOpen, pending_open, slab);
      var t := slab[k].value.(is_pending_open := false, is_counted := true);
      assert {} + {k} == {k};
      AllOkBut(slab, in_flight_data_frame, Slot(), hs, {}, k);
      ChangeFlags(slab, pending_send, pending_capacity, pending_open, in_flight_data_frame, Slot(), hs, {k}, flow, leaked, k, t);
      QueuePops(NextOpen, pending_open, slab, t);
      slab := slab[k := Some(t)];
      pending_open := pending_open[1..];
    }

    /** `Queue::push_front` on the send queue. */
    method PushSendFront(k: Key)
      requires Core({k}, 0) && Live(slab, k)
      modifies this`slab, this`pending_send
      ensures Core({k}, 0) && slab == old(slab)[k := Some(old(slab)[k].value.(is_pending_send := true))]
      ensures pending_send == if old(slab)[k].value.is_pending_send then old(pending_send) else [k] + old(pending_send)
    {
      hide AllOk, QueueIs, CodecOk, Accounted, RestOf;
      var s := slab[k].value;
      if s.is_pending_send {
        assert slab[k := Some(s)] == slab;
        assert s.(is_pending_send := true) == s;
        return;
      }
      var t := s.(is_pending_send := true);
      ChangeFlags(slab, pending_send, pending_capacity, pending_open, in_flight_data_frame, Slot(), hs, {k}, flow, leaked, k, t);
      QueuePushes(NextSend, pending_send, slab, k, t);
      slab := slab[k := Some(t)];
      pending_send := [k] + pending_send;
    }

    /**
      Fills the codec: it takes at most `slots` frames, keeps DATA of `chain_threshold` octets or
      more for a while, and up to `openable` streams may be opened.
     */
    method BufferPending(slots: nat, max_len: nat, chain_threshold: nat, openable: nat)
      returns (frames: seq<SentFrame>, complete: bool)
      requires Valid()
      modifies this
      ensures Valid() && |frames| <= slots
      ensures flow.window_size == old(flow).window_size - DataSent(frames)
      ensures forall i :: 0 <= i < |frames| && frames[i].SentData? ==> |frames[i].payload| <= max_len
      ensures complete ==> pending_send == []
    {
      hide Core;
      frames, complete := [], false;
      var left := openable;
      var _ := ReclaimFrame();
      while true
        invariant Valid() && |frames| <= slots && last_data_frame.None? && (next.None? ==> in_flight_data_frame.Nothing?)
        invariant flow.window_size == old(flow).window_size - DataSent(frames)
        invariant forall i :: 0 <= i < |frames| && frames[i].SentData? ==> |frames[i].payload| <= max_len
        decreases slots - |frames|
      {
        if next.Some? || |frames| == slots {
          return frames, false;
        }
        if left > 0 && pending_open != [] {
          var _ := OpenNext();
          left := left - 1;
        }
        SlotFilled();
        var f := PopFrame(max_len);
        if f.None? {
          return frames, true;
        }
        DataSentAppend(frames, f.value);
        frames := frames + [f.value];
        SlotFilled();
        if f.value.SentData? && |f.value.payload| < chain_threshold && next.Some? {
          FrameWritten();
          var _ := ReclaimFrame();
        }
      }
    }

    lemma SlotFilled()
      requires Valid() && last_data_frame.None?
      ensures next.None? ==> in_flight_data_frame.Nothing?
    {
    }

    // ----- A new initial window

    /** SETTINGS_INITIAL_WINDOW_SIZE is lowered by `dec`: capacity beyond the smaller windows goes to others. */
    method LowerWindows(ids: seq<Key>, dec: nat) returns (r: Result<(), Reason>)
      requires Valid() && dec <= MAX_WINDOW_SIZE && LinkedKeys(slab, ids)
      modifies this`slab, this`pending_send, this`pending_capacity, this`flow
      ensures old(pending_send) <= pending_send
      ensures r.Ok? ==> Valid() && flow.window_size == old(flow).window_size
                        && Shifted(old(slab), slab, ids, |ids|, -(dec as int))
      ensures r.Err? ==> exists i :: 0 <= i < |ids| && Live(old(slab), ids[i]) && LeavesRange(old(slab)[ids[i]].value, -(dec as int))
    {
      hide Core, StreamOk, AllGrown, Shifted, Lower;
      var total_reclaimed: nat := 0;
      LooseCovered(0);
      ShiftedNone(slab, ids, -(dec as int));
      for i := 0 to |ids|
        invariant Core({}, total_reclaimed) && flow == old(flow) && total_reclaimed <= flow.window_size
        invariant old(pending_send) <= pending_send
        invariant Shifted(old(slab), slab, ids, i, -(dec as int))
      {
        var k := ids[i];
        ShiftedLive(old(slab), slab, ids, i, -(dec as int));
        var s := slab[k].value;
        if s.state.IsSendClosed() && s.buffered_send_data == 0 {
          ShiftedSkips(old(slab), slab, ids, i, -(dec as int));
        } else {
          ghost var slab0 := slab;
          var reclaimed := LowerWindow(k, dec, total_reclaimed);
          if reclaimed.Err? {
            return Err(reclaimed.error);
          }
          ShiftedLowers(old(slab), slab0, ids, i, dec, slab[k].value);
          total_reclaimed := total_reclaimed + reclaimed.value;
        }
      }
      ghost var slab1 := slab;
      AssignConnectionCapacity(total_reclaimed, {}, 0);
      ShiftedGrows(old(slab), slab1, slab, ids, -(dec as int));
      r := Ok(());
    }

    /** One stream's window is lowered; what it then has too much of is in nobody's hands. */
    method LowerWindow(k: Key, dec: nat, ghost loose: nat) returns (reclaimed: Result<nat, Reason>)
      requires Core({}, loose) && Live(slab, k) && dec <= MAX_WINDOW_SIZE
      modifies this`slab
      ensures reclaimed.Err? <==> Checked(old(slab)[k].value.send_flow.window_size - dec).None?
      ensures reclaimed.Err? ==> slab == old(slab)
      ensures reclaimed.Ok? ==>
                && Core({}, loose + reclaimed.value) && loose + reclaimed.value <= flow.window_size
                && Live(slab, k) && slab == old(slab)[k := slab[k]]
                && Some(slab[k].value) == Lower(old(slab)[k].value, dec)
                && slab[k].value == old(slab)[k].value.(send_flow := slab[k].value.send_flow)
                && slab[k].value.send_flow.window_size == old(slab)[k].value.send_flow.window_size - dec
                && reclaimed.value == old(slab)[k].value.send_flow.available - slab[k].value.send_flow.available
    {
      hide Core, StreamOk, Lower, FlowControl.DecSendWindow, FlowControl.ClaimCapacity, FlowControl.WindowSize, Checked;
      var s := slab[k].value;
      LowerRefused(s.send_flow, dec);
      var f := s.send_flow.DecSendWindow(dec);
      if f.Err? {
        return Err(f.error);
      }
      EnterLoose(k, loose);
      LowerOk(s, dec, Rest(k), hs[k]);
      LowerAmount(s, dec);
      var t := s.(send_flow := f.value);
      var available := AsSize(t.send_flow.available);
      var reclaim := if available > t.send_flow.WindowSize() then available - t.send_flow.WindowSize() else 0;
      if reclaim > 0 {
        t := t.(send_flow := t.send_flow.ClaimCapacity(reclaim).value);
      }
      Set(k, t, {k}, loose, reclaim);
      LeaveLoose(k, loose + reclaim);
      LooseCovered(loose + reclaim);
      reclaimed := Ok(reclaim);
    }

    lemma EnterLoose(k: Key, loose: nat)
      requires Core({}, loose) && Live(slab, k)
      ensures Core({k}, loose) && k < |hs| && StreamOk(slab[k].value, Rest(k), hs[k])
    {
      AllOkBut(slab, in_flight_data_frame, Slot(), hs, {}, k);
      assert {} + {k} == {k};
      hide QueueIs, AllOk, CodecOk, Accounted, RestOf, StreamOk;
    }

    lemma LeaveLoose(k: Key, loose: nat)
      requires Core({k}, loose) && Live(slab, k) && k < |hs| && StreamOk(slab[k].value, Rest(k), hs[k])
      ensures Core({}, loose)
    {
      assert {} + {k} == {k};
      AllOkBut(slab, in_flight_data_frame, Slot(), hs, {}, k);
      hide QueueIs, AllOk, CodecOk, Accounted, RestOf, StreamOk;
    }

    lemma LooseCovered(loose: nat)
      requires Core({}, loose)
      ensures loose <= flow.window_size
    {
      AllAvailable(slab, in_flight_data_frame, Slot(), hs, {}, 0);
      AssignedBounds(slab, |slab|);
      hide QueueIs, AllOk, CodecOk;
    }

    /** SETTINGS_INITIAL_WINDOW_SIZE is raised by `inc`. */
    method RaiseWindows(ids: seq<Key>, inc: nat) returns (r: Result<(), Reason>)
      requires Valid() && inc <= MAX_WINDOW_SIZE && LinkedKeys(slab, ids)
      modifies this
      ensures old(pending_send) <= pending_send
      ensures Valid() && flow.window_size == old(flow).window_size
      ensures r.Ok? ==> Shifted(old(slab), slab, ids, |ids|, inc)
      ensures r.Err? ==> exists i :: 0 <= i < |ids| && Live(old(slab), ids[i]) && LeavesRange(old(slab)[ids[i]].value, inc)
    {
      hide Core, StreamOk, Shifted, Grown, Widened;
      ShiftedNone(slab, ids, inc);
      for i := 0 to |ids|
        invariant Valid() && flow.window_size == old(flow).window_size
        invariant old(pending_send) <= pending_send
        invariant Shifted(old(slab), slab, ids, i, inc)
      {
        var k := ids[i];
        ShiftedLive(old(slab), slab, ids, i, inc);
        ghost var slab0 := slab;
        r := RecvStreamWindowUpdate(inc, k);
        if r.Err? {
          SendReset(k, FLOW_CONTROL_ERROR);
          return;
        }
        ShiftedWidens(old(slab), slab0, slab, ids, i, inc);
      }
      r := Ok(());
    }

    lemma MidwayParts(k: Key, extra: nat)
      requires MidwayOn(k, extra)
      ensures k < |hs| && Live(slab, k) && Sane(slab[k].value, Rest(k), extra) && Scheduled(slab[k].value, Rest(k))
              && Faithful(slab[k].value, Rest(k), hs[k])
    {
    }

    lemma CoreBounds(but: set<Key>, loose: nat)
      requires Core(but, loose)
      ensures flow.available >= 0
    {
    }

    lemma MidwayIs(k: Key, extra: nat)
      requires MidwayOn(k, extra)
      ensures Live(slab, k)
      ensures var s := slab[k].value;
              0 <= s.send_flow.available <= AsSize(s.send_flow.window_size)
              && s.send_flow.available <= s.requested_send_capacity <= MAX_U32
              && (Unopened(s.state) ==> s.requested_send_capacity == 0 && s.buffered_send_data == 0)
    {
    }

    lemma MidwayAgain(k: Key, extra: nat, slab0: Slab)
      requires Midway(slab0, in_flight_data_frame, Slot(), hs, k, extra)
      requires Live(slab, k) && Grown(slab0[k].value, slab[k].value)
      ensures MidwayOn(k, extra)
    {
      GrownMidway(slab0, slab, in_flight_data_frame, Slot(), hs, k, extra);
    }
  }

  // ----- What queueing does to a stream

  predicate Lacks(s: Stream) {
    s.send_flow.available < s.requested_send_capacity && s.send_flow.HasUnavailable()
  }

  function Requeued(s: Stream): Stream {
    s.(is_pending_send_capacity := s.is_pending_send_capacity || Lacks(s),
       is_pending_send := s.is_pending_send || (s.buffered_send_data > 0 && s.IsSendReady()))
  }

  // ----- Facts about single steps

  lemma GrownSelf(s: Stream)
    ensures Grown(s, s)
  {
  }

  lemma GrownSlab(slab: Slab, k: Key)
    requires Live(slab, k)
    ensures slab == slab[k := slab[k]]
  {
  }

  /** A change of queue flags other than those of the queue at hand. */
  lemma ChangeFlags(slab: Slab, send: seq<Key>, capacity: seq<Key>, open: seq<Key>, in_flight: InFlightData,
                    slot: Option<Written>, hs: seq<History>, but: set<Key>, flow: FlowControl, leaked: nat, k: Key, t: Stream)
    requires Live(slab, k) && k in but && AllOk(slab, in_flight, slot, hs, but) && CodecOk(in_flight, slot, slab)
    requires t.send_flow == slab[k].value.send_flow
    ensures var slab1 := slab[k := Some(t)];
            && AllOk(slab1, in_flight, slot, hs, but) && CodecOk(in_flight, slot, slab1)
            && (Accounted(slab, flow, leaked) ==> Accounted(slab1, flow, leaked))
            && (QueueIs(NextSend, send, slab) && t.is_pending_send == slab[k].value.is_pending_send ==>
                  QueueIs(NextSend, send, slab1))
            && (QueueIs(NextSendCapacity, capacity, slab)
                && t.is_pending_send_capacity == slab[k].value.is_pending_send_capacity ==>
                  QueueIs(NextSendCapacity, capacity, slab1))
            && (QueueIs(NextOpen, open, slab) && t.is_pending_open == slab[k].value.is_pending_open ==>
                  QueueIs(NextOpen, open, slab1))
  {
    hide AllOk, QueueIs, RestOf;
    AllOkPut(slab, in_flight, slot, hs, but, k, t);
    AssignedUpdate(slab, k, Some(t));
    if QueueIs(NextSend, send, slab) && t.is_pending_send == slab[k].value.is_pending_send {
      QueueKept(NextSend, send, slab, k, t);
    }
    if QueueIs(NextSendCapacity, capacity, slab) && t.is_pending_send_capacity == slab[k].value.is_pending_send_capacity {
      QueueKept(NextSendCapacity, capacity, slab, k, t);
    }
    if QueueIs(NextOpen, open, slab) && t.is_pending_open == slab[k].value.is_pending_open {
      QueueKept(NextOpen, open, slab, k, t);
    }
  }

  /** A change that leaves queue membership alone. */
  lemma ChangeFlow(slab: Slab, send: seq<Key>, capacity: seq<Key>, open: seq<Key>, in_flight: InFlightData,
                   slot: Option<Written>, hs: seq<History>, but: set<Key>, k: Key, t: Stream)
    requires Live(slab, k) && k in but && AllOk(slab, in_flight, slot, hs, but) && CodecOk(in_flight, slot, slab)
    requires QueueIs(NextSend, send, slab) && QueueIs(NextSendCapacity, capacity, slab) && QueueIs(NextOpen, open, slab)
    requires forall n :: IsQueued(n, t) == IsQueued(n, slab[k].value)
    ensures var slab1 := slab[k := Some(t)];
            && AllOk(slab1, in_flight, slot, hs, but) && CodecOk(in_flight, slot, slab1)
            && QueueIs(NextSend, send, slab1) && QueueIs(NextSendCapacity, capacity, slab1) && QueueIs(NextOpen, open, slab1)
  {
    hide AllOk, QueueIs, RestOf, IsQueued;
    AllOkPut(slab, in_flight, slot, hs, but, k, t);
    QueueKept(NextSend, send, slab, k, t);
    QueueKept(NextSendCapacity, capacity, slab, k, t);
    QueueKept(NextOpen, open, slab, k, t);
  }

  /** Moving capacity from the connection to a stream keeps the sum. */
  lemma Assigning(slab: Slab, flow: FlowControl, leaked: nat, k: Key, n: nat)
    requires Accounted(slab, flow, leaked) && Live(slab, k) && n <= flow.available
    requires slab[k].value.send_flow.available + n <= MAX_WINDOW_SIZE
    ensures var s := slab[k].value;
            Accounted(slab[k := Some(s.(send_flow := s.send_flow.(available := s.send_flow.available + n)))],
                      flow.(available := flow.available - n), leaked)
  {
    var s := slab[k].value;
    AssignedUpdate(slab, k, Some(s.(send_flow := s.send_flow.(available := s.send_flow.available + n))));
  }

  predicate GiveFits(s: Stream, n: nat) {
    s.send_flow.available + n <= Min(s.requested_send_capacity, s.send_flow.WindowSize())
  }

  function Given(s: Stream, n: nat): (t: Stream)
    requires GiveFits(s, n)
    ensures t == s.(send_flow := t.send_flow)
  {
    s.(send_flow := s.send_flow.(available := s.send_flow.available + n))
  }

  lemma WishFits(s: Stream, additional: nat, n: nat)
    requires 0 <= s.send_flow.available && n <= additional
    requires additional == Min(s.requested_send_capacity - AsSize(s.send_flow.available),
                               s.send_flow.WindowSize() - AsSize(s.send_flow.available))
    ensures GiveFits(s, n) && (n == 0 ==> Given(s, n) == s) && Given(s, n).is_pending_open == s.is_pending_open
  {
  }

  /** More capacity, then queueing: if the connection had enough, the stream lacks nothing. */
  lemma GrownStep(s0: Stream, s1: Stream, additional: nat, assign: nat)
    requires 0 <= s0.send_flow.available <= AsSize(s0.send_flow.window_size) && !s0.is_pending_open
    requires s0.send_flow.available <= s0.requested_send_capacity
    requires additional == Min(s0.requested_send_capacity - AsSize(s0.send_flow.available),
                               s0.send_flow.WindowSize() - AsSize(s0.send_flow.available))
    requires GiveFits(s0, assign) && s1 == Given(s0, assign)
    ensures Grown(s0, Requeued(s1)) && Served(Requeued(s1))
    ensures assign == additional ==> !Lacks(s1)
  {
  }

  lemma GiveExact(s: Stream, flow: FlowControl, n: nat)
    requires n <= flow.available && GiveFits(s, n)
    ensures s.send_flow.AssignCapacity(n) == Ok(s.send_flow.(available := s.send_flow.available + n))
    ensures flow.ClaimCapacity(n) == Ok(flow.(available := flow.available - n))
    ensures n <= MAX_WINDOW_SIZE && s.send_flow.available + n <= MAX_WINDOW_SIZE
  {
  }

  /** Nothing more to be had, or nothing to be had it for. */
  lemma NotWanting(s: Stream, additional: nat)
    requires !s.is_pending_open ==>
               && 0 <= s.send_flow.available <= AsSize(s.send_flow.window_size) && s.send_flow.available <= s.requested_send_capacity
               && additional == Min(s.requested_send_capacity - AsSize(s.send_flow.available),
                                    s.send_flow.WindowSize() - AsSize(s.send_flow.available))
    ensures s.is_pending_open || additional == 0 || (!s.state.IsSendStreaming() && s.buffered_send_data == 0) ==> Served(s)
  {
  }

  lemma GrownMidway(slab0: Slab, slab: Slab, in_flight: InFlightData, slot: Option<Written>, hs: seq<History>, k: Key, extra: nat)
    requires Midway(slab0, in_flight, slot, hs, k, extra) && Live(slab, k) && Grown(slab0[k].value, slab[k].value)
    ensures Midway(slab, in_flight, slot, hs, k, extra)
  {
    hide Grown, Sane, Scheduled, Faithful, RestOf;
    GrownSane(slab0[k].value, slab[k].value, RestOf(in_flight, slot, k), extra);
    GrownScheduled(slab0[k].value, slab[k].value, RestOf(in_flight, slot, k), extra);
    GrownFaithful(slab0[k].value, slab[k].value, RestOf(in_flight, slot, k), hs[k]);
  }

  lemma QueueHead(n: Next, q: seq<Key>, slab: Slab)
    requires QueueIs(n, q, slab) && q != []
    ensures Live(slab, q[0]) && IsQueued(n, slab[q[0]].value)
  {
    assert q[0] in q;
    assert Member(n, slab, q[0]);
  }

  lemma PoppedGrown(s: Stream)
    ensures Grown(s, s.(is_pending_send_capacity := false))
    ensures !(s.state.IsSendStreaming() || s.buffered_send_data > 0) && 0 <= s.send_flow.available ==>
              Served(s.(is_pending_send_capacity := false))
  {
  }

  lemma StreamAgain(s: Stream, t: Stream, w: Option<Written>, h: History)
    requires StreamOk(s, w, h) && Grown(s, t) && Served(t)
    ensures StreamOk(t, w, h)
  {
    GrownOk(s, t, w, h);
  }

  /**
    The first `n` that waited for capacity have been served, in turn, and no other stream has changed.
    Each of them but the last has all it wants, and if some were not reached nothing is left.
   */
  ghost predicate InTurn(q: seq<Key>, n: nat, a: Slab, r: seq<Key>, b: Slab, left: int) {
    && n <= |q| && q[n..] <= r && |a| == |b|
    && (forall k: Key :: k < |a| && k !in q[..n] ==> b[k] == a[k])
    && (forall i :: 0 <= i < n ==> Live(b, q[i]))
    && (forall i :: 0 <= i < n && (left > 0 || i < n - 1) ==> !Wants(b[q[i]].value))
    && (left > 0 ==> r == q[n..])
  }

  lemma InTurnNone(q: seq<Key>, slab: Slab, left: int)
    ensures InTurn(q, 0, slab, q, slab, left)
  {
  }

  lemma InTurnNext(q: seq<Key>, n: nat, a: Slab, r: seq<Key>, b: Slab, left: int, r1: seq<Key>, c: Slab, left1: int)
    requires left > 0 && InTurn(q, n, a, r, b, left) && r != [] && r[0] < |b| == |c| && c == b[r[0] := c[r[0]]] && Live(c, r[0])
    requires r[1..] <= r1 && (left1 > 0 ==> r1 == r[1..] && !Wants(c[r[0]].value))
    requires forall i, j :: 0 <= i < j < |q| ==> q[i] != q[j]
    ensures InTurn(q, n + 1, a, r1, c, left1)
  {
    hide Wants;
    assert r[0] == q[n] && q[..n + 1] == q[..n] + [q[n]] && r[1..] == q[n + 1..];
    forall i | 0 <= i < n ensures q[i] != q[n] {
    }
  }

  /** The longest waiting is served first: who gets capacity leaves nobody wanting who has waited longer. */
  lemma LongestWaitingFirst(q: seq<Key>, n: nat, a: Slab, r: seq<Key>, b: Slab, left: int, i: nat, j: nat)
    requires InTurn(q, n, a, r, b, left) && i < j < |q| && q[j] < |a| && b[q[j]] != a[q[j]]
    requires forall x, y :: 0 <= x < y < |q| ==> q[x] != q[y]
    ensures Live(b, q[i]) && !Wants(b[q[i]].value)
  {
    assert q[j] in q[..n];
  }

  /** Every stream is still there and has at most got more capacity; those in `but` wait for more if they did before. */
  ghost predicate AllGrown(a: Slab, b: Slab, but: set<Key>) {
    && |a| == |b|
    && forall k: Key {:trigger Live(b, k)} :: (Live(a, k) <==> Live(b, k)) && (Live(b, k) ==>
         Grown(a[k].value, b[k].value) && (k in but && Served(a[k].value) ==> Served(b[k].value)))
  }

  /** Every stream but `k` is still there and has at most got more capacity. */
  ghost predicate OthersGrown(a: Slab, b: Slab, k: Key) {
    && |a| == |b|
    && (forall j: Key {:trigger Live(b, j)} :: j != k ==> (Live(a, j) <==> Live(b, j)))
    && (forall j: Key {:trigger Live(b, j)} :: j != k && Live(b, j) && Live(a, j) ==> Grown(a[j].value, b[j].value))
  }

  lemma OthersPut(a: Slab, b: Slab, k: Key)
    requires k < |a| == |b| && b == a[k := b[k]]
    ensures OthersGrown(a, b, k)
  {
    hide Grown;
    forall j: Key | j != k && Live(b, j) ensures Grown(a[j].value, b[j].value) {
      GrownSelf(b[j].value);
    }
  }

  lemma OthersAll(a: Slab, b: Slab, but: set<Key>, k: Key)
    requires AllGrown(a, b, but)
    ensures OthersGrown(a, b, k)
  {
    hide Grown, Served;
  }

  /** Stream `k` changes first. */
  lemma OthersChain(a: Slab, b: Slab, c: Slab, k: Key)
    requires k < |a| == |b| && b == a[k := b[k]] && OthersGrown(b, c, k)
    ensures OthersGrown(a, c, k)
  {
    hide Grown;
    assert forall j: Key :: j != k ==> (Live(a, j) <==> Live(b, j));
  }

  /** Stream `k` changes last. */
  lemma OthersThen(a: Slab, b: Slab, c: Slab, k: Key)
    requires OthersGrown(a, b, k) && k < |b| == |c| && c == b[k := c[k]]
    ensures OthersGrown(a, c, k)
  {
    hide Grown;
    assert forall j: Key :: j != k ==> (Live(b, j) <==> Live(c, j));
  }

  lemma AllGrownSelf(slab: Slab, but: set<Key>)
    ensures AllGrown(slab, slab, but)
  {
  }

  lemma AllGrownTwice(a: Slab, b: Slab, c: Slab, but: set<Key>)
    requires AllGrown(a, b, but) && AllGrown(b, c, but)
    ensures AllGrown(a, c, but)
  {
    hide Served, Grown;
    forall k: Key | Live(c, k) ensures Live(a, k) && Grown(a[k].value, c[k].value)
      && (k in but && Served(a[k].value) ==> Served(c[k].value))
    {
      assert Live(b, k);
      GrownTwice(a[k].value, b[k].value, c[k].value);
    }
    forall k: Key | Live(a, k) ensures Live(c, k) {
      assert Live(b, k) && Live(c, k);
    }
  }

  lemma AllAvailable(slab: Slab, in_flight: InFlightData, slot: Option<Written>, hs: seq<History>, but: set<Key>, extra: nat)
    requires AllOk(slab, in_flight, slot, hs, but)
    requires forall j :: j in but ==> Midway(slab, in_flight, slot, hs, j, extra)
    ensures forall k: Key :: k < |slab| ==> AvailableAt(slab, k) >= 0
  {
    forall k: Key | k < |slab| ensures AvailableAt(slab, k) >= 0 {
      if Live(slab, k) && k !in but {
        assert StreamOk(slab[k].value, RestOf(in_flight, slot, k), hs[k]);
      } else if k in but {
        assert Midway(slab, in_flight, slot, hs, k, extra);
      }
    }
  }

  /** One stream of `slab0` has been served. */
  lemma ServedAll(slab0: Slab, slab: Slab, in_flight: InFlightData, slot: Option<Written>, hs: seq<History>, but: set<Key>,
                  extra: nat, k: Key, more: nat)
    requires Live(slab0, k) && Live(slab, k) && slab == slab0[k := slab[k]]
    requires Grown(slab0[k].value, slab[k].value) && Served(slab[k].value)
    requires Midway(slab, in_flight, slot, hs, k, more) && (k in but ==> more == extra)
    requires forall j :: j in but ==> Midway(slab0, in_flight, slot, hs, j, extra)
    ensures AllGrown(slab0, slab, but) && forall j :: j in but ==> Midway(slab, in_flight, slot, hs, j, extra)
  {
    hide Grown, Served, Sane, Scheduled, Faithful, RestOf;
    forall j: Key | Live(slab, j) && j != k ensures Grown(slab0[j].value, slab[j].value) {
      GrownSelf(slab[j].value);
    }
    forall j | j in but ensures Midway(slab, in_flight, slot, hs, j, extra) {
      assert Midway(slab0, in_flight, slot, hs, j, extra);
    }
  }

  predicate SameQueues(s: Stream, t: Stream) {
    && s.is_pending_send == t.is_pending_send && s.is_pending_send_capacity == t.is_pending_send_capacity
    && s.is_pending_open == t.is_pending_open
  }

  function Schedulable(s: Stream): (t: Stream)
    ensures t == s.(is_pending_send := t.is_pending_send) && t.is_pending_send == (s.is_pending_send || !s.is_pending_open)
  {
    s.(is_pending_send := s.is_pending_send || s.IsSendReady())
  }

  function FrameQueued(s: Stream, f: OutFrame): (t: Stream)
    ensures t == s.(pending_send := s.pending_send + [f], is_pending_send := s.is_pending_send || !s.is_pending_open)
  {
    Schedulable(s.(pending_send := s.pending_send + [f]))
  }

  function Lowered(s: Stream, total: nat): (t: Stream)
    ensures t == s.(requested_send_capacity := t.requested_send_capacity, send_flow := t.send_flow)
  {
    s.(requested_send_capacity := total, send_flow := s.send_flow.(available := Min(s.send_flow.available, total)))
  }

  lemma LoweredIs(s: Stream, total: nat)
    requires s.send_flow.available >= 0
    ensures s.send_flow.available > total ==>
              var diff := s.send_flow.available - total;
              && diff <= MAX_WINDOW_SIZE && s.send_flow.ClaimCapacity(diff).Ok?
              && s.(requested_send_capacity := total, send_flow := s.send_flow.ClaimCapacity(diff).value) == Lowered(s, total)
              && Lowered(s, total).send_flow.available + diff == s.send_flow.available
    ensures s.send_flow.available <= total ==> s.(requested_send_capacity := total) == Lowered(s, total)
    ensures SameQueues(s, Lowered(s, total))
  {
  }

  /** The stream once it has asked for `capacity` octets more than it has buffered. */
  function Asked(s: Stream, capacity: nat): (t: Stream)
    ensures t == s.(requested_send_capacity := t.requested_send_capacity, send_flow := t.send_flow)
  {
    var total := capacity + s.buffered_send_data;
    if total < s.requested_send_capacity then Lowered(s, total)
    else if total > s.requested_send_capacity && !s.state.IsSendClosed() then
      s.(requested_send_capacity := Min(total, MAX_U32))
    else s
  }

  /** The request a stream ends up with, and whatever capacity it then got. */
  predicate Reserved(s: Stream, t: Stream, capacity: nat) {
    Grown(Asked(s, capacity), t)
  }

  lemma ReserveLess(slab: Slab, in_flight: InFlightData, slot: Option<Written>, hs: seq<History>, k: Key, extra: nat, total: nat)
    requires Midway(slab, in_flight, slot, hs, k, extra) && total < slab[k].value.requested_send_capacity
    requires total >= slab[k].value.buffered_send_data
    ensures var s := slab[k].value;
            s.send_flow.available >= 0 && Midway(slab[k := Some(Lowered(s, total))], in_flight, slot, hs, k, extra)
            && (Served(s) ==> Served(Lowered(s, total)))
  {
    hide EosLast, HasEos, HasData, RestOf, DataLen;
  }

  lemma ReserveMore(slab: Slab, in_flight: InFlightData, slot: Option<Written>, hs: seq<History>, k: Key, extra: nat, total: nat)
    requires Midway(slab, in_flight, slot, hs, k, extra) && slab[k].value.requested_send_capacity <= total <= MAX_U32
    requires !Unopened(slab[k].value.state)
    ensures Midway(slab[k := Some(slab[k].value.(requested_send_capacity := total))], in_flight, slot, hs, k, extra)
  {
    hide EosLast, HasEos, HasData, RestOf, DataLen;
  }

  lemma GrownOne(a: Slab, b: Slab, but: set<Key>, k: Key)
    requires AllGrown(a, b, but) && Live(a, k)
    ensures |a| == |b| && Live(b, k) && Grown(a[k].value, b[k].value)
    ensures k in but && Served(a[k].value) ==> Served(b[k].value)
  {
    assert Live(b, k) <==> Live(a, k);
  }

  lemma OkParts(s: Stream, w: Option<Written>, h: History)
    requires StreamOk(s, w, h)
    ensures Sane(s, w, 0) && Backed(s, w) && Served(s) && Scheduled(s, w) && Faithful(s, w, h)
  {
  }

  /** Queues and state are as they were, up to more scheduling of buffered data. */
  predicate Steady(s: Stream, t: Stream) {
    && t.pending_send == s.pending_send && t.state == s.state && t.is_pending_open == s.is_pending_open
    && t.buffered_send_data == s.buffered_send_data
    && (s.is_pending_send ==> t.is_pending_send)
    && (t.is_pending_send && !s.is_pending_send ==> s.buffered_send_data > 0 && !s.is_pending_open)
  }

  lemma SteadyOk(s: Stream, t: Stream, w: Option<Written>, h: History)
    requires StreamOk(s, w, h) && Steady(s, t)
    requires Sane(t, w, 0) && Served(t) && Scheduled(t, w) && Faithful(t, w, h)
    ensures StreamOk(t, w, h)
  {
    hide Faithful, Served;
    assert DataLen([]) == 0;
  }

  lemma ReservedOk(s: Stream, t: Stream, capacity: nat, w: Option<Written>, h: History)
    requires StreamOk(s, w, h) && Reserved(s, t, capacity)
    requires Sane(t, w, 0) && Served(t) && Scheduled(t, w) && Faithful(t, w, h)
    ensures StreamOk(t, w, h)
  {
    hide *;
    ReservedSteady(s, t, capacity);
    SteadyOk(s, t, w, h);
  }

  lemma ReservedRequests(s: Stream, t: Stream, capacity: nat)
    requires Reserved(s, t, capacity) && s.requested_send_capacity <= MAX_U32
    ensures t.requested_send_capacity ==
            if s.state.IsSendClosed() then Min(s.requested_send_capacity, capacity + s.buffered_send_data)
            else Min(capacity + s.buffered_send_data, MAX_U32)
  {
    hide Grown, Asked;
    GrownRequest(Asked(s, capacity), t);
    AskedRequest(s, capacity);
  }

  lemma GrownRequest(s: Stream, t: Stream)
    requires Grown(s, t)
    ensures t.requested_send_capacity == s.requested_send_capacity
  {
  }

  lemma AskedRequest(s: Stream, capacity: nat)
    requires s.requested_send_capacity <= MAX_U32
    ensures Asked(s, capacity).requested_send_capacity ==
            if s.state.IsSendClosed() then Min(s.requested_send_capacity, capacity + s.buffered_send_data)
            else Min(capacity + s.buffered_send_data, MAX_U32)
  {
    hide Lowered, State.IsSendClosed;
    LoweredRequest(s, capacity + s.buffered_send_data);
  }

  lemma LoweredRequest(s: Stream, total: nat)
    ensures Lowered(s, total).requested_send_capacity == total
  {
  }

  lemma ReservedSteady(s: Stream, t: Stream, capacity: nat)
    requires Reserved(s, t, capacity)
    ensures Steady(s, t)
  {
    hide Grown, Asked;
    GrownSteady(Asked(s, capacity), t);
  }

  lemma GrownSteady(s: Stream, t: Stream)
    requires Grown(s, t)
    ensures Steady(s, t)
  {
  }

  function Widened(s: Stream, inc: nat): Stream
    requires s.send_flow.window_size + inc <= MAX_WINDOW_SIZE
  {
    s.(send_flow := s.send_flow.(window_size := s.send_flow.window_size + inc))
  }

  lemma WidenedIs(s: Stream, inc: nat)
    requires s.send_flow.window_size + inc <= MAX_WINDOW_SIZE && inc <= MAX_WINDOW_SIZE
    ensures s.send_flow.IncWindow(inc) == Ok(Widened(s, inc).send_flow) && SameQueues(s, Widened(s, inc))
    ensures Widened(s, inc) == s.(send_flow := Widened(s, inc).send_flow)
    ensures Widened(s, inc).send_flow.available == s.send_flow.available
  {
    ExactInc(s.send_flow, inc);
  }

  lemma WidenedMidway(slab: Slab, in_flight: InFlightData, slot: Option<Written>, hs: seq<History>, k: Key, inc: nat)
    requires Midway(slab, in_flight, slot, hs, k, 0) && slab[k].value.send_flow.window_size + inc <= MAX_WINDOW_SIZE
    ensures Midway(slab[k := Some(Widened(slab[k].value, inc))], in_flight, slot, hs, k, 0)
  {
    hide EosLast, HasEos, HasData, RestOf, DataLen;
  }

  lemma WidenedOk(s: Stream, t: Stream, inc: nat, w: Option<Written>, h: History)
    requires StreamOk(s, w, h) && s.send_flow.window_size + inc <= MAX_WINDOW_SIZE && Grown(Widened(s, inc), t)
    requires Sane(t, w, 0) && Served(t) && Scheduled(t, w) && Faithful(t, w, h)
    ensures StreamOk(t, w, h)
  {
    hide StreamOk, Sane, Faithful, Served, Scheduled;
    SteadyOk(s, t, w, h);
  }

  // ----- Facts about data

  /** How a stream looks when `sz` octets are about to be queued. */
  predicate Expecting(s: Stream, t: Stream, sz: nat, end_stream: bool) {
    && t.pending_send == s.pending_send && t.is_pending_open == s.is_pending_open
    && s.state.IsSendStreaming() && t.state == (if end_stream then s.state.SendClose() else s.state)
    && t.buffered_send_data == s.buffered_send_data + sz
    && (s.is_pending_send ==> t.is_pending_send)
    && (t.is_pending_send && !s.is_pending_send ==> t.buffered_send_data > 0 && !s.is_pending_open)
    && t.send_flow.window_size == s.send_flow.window_size
    && t.requested_send_capacity == Requested(s, sz, end_stream)
  }

  /** The request covers what is buffered, as far as 32 bits allow; the last data leaves no more than that. */
  function Requested(s: Stream, sz: nat, end_stream: bool): int {
    var needed := Min(s.buffered_send_data + sz, MAX_U32);
    if end_stream then needed else Max(s.requested_send_capacity, needed)
  }

  lemma StillStreaming(s: Stream, t: Stream, sz: nat)
    requires Expecting(s, t, sz, false)
    ensures t.state.IsSendStreaming()
  {
  }

  lemma ExpectingMore(s: Stream, s1: Stream, s2: Stream, sz: nat, request: nat)
    requires s.state.IsSendStreaming() && s1 == s.(buffered_send_data := s.buffered_send_data + sz)
    requires Grown(s1.(requested_send_capacity := request), s2) && request == Requested(s, sz, false)
    ensures Expecting(s, s2, sz, false)
  {
  }

  lemma ExpectingLast(s: Stream, s2: Stream, t: Stream, sz: nat)
    requires Expecting(s, s2, sz, false) && Reserved(s2.(state := s2.state.SendClose()), t, 0)
    requires s2.requested_send_capacity <= MAX_U32
    ensures Expecting(s, t, sz, true)
  {
    hide Reserved, Grown;
    var c := s2.(state := s2.state.SendClose());
    ReservedSteady(c, t, 0);
    ReservedRequest(c, t);
  }

  /** A closed stream that asks for nothing more keeps no request beyond its data. */
  lemma ReservedRequest(c: Stream, t: Stream)
    requires Reserved(c, t, 0) && c.state.IsSendClosed()
    ensures t.requested_send_capacity == Min(c.buffered_send_data, c.requested_send_capacity)
    ensures t.send_flow.window_size == c.send_flow.window_size
  {
  }

  lemma MoreData(slab: Slab, in_flight: InFlightData, slot: Option<Written>, hs: seq<History>, k: Key, sz: nat)
    requires Midway(slab, in_flight, slot, hs, k, 0) && slab[k].value.state.IsSendStreaming()
    ensures var s := slab[k].value;
            var t := s.(buffered_send_data := s.buffered_send_data + sz);
            Midway(slab[k := Some(t)], in_flight, slot, hs, k, sz) && (Served(s) ==> Served(t))
  {
    hide EosLast, HasEos, HasData, RestOf, DataLen;
  }

  lemma LastData(slab: Slab, in_flight: InFlightData, slot: Option<Written>, hs: seq<History>, k: Key, sz: nat)
    requires Midway(slab, in_flight, slot, hs, k, sz) && slab[k].value.state.IsSendStreaming()
    ensures var s := slab[k].value;
            var t := s.(state := s.state.SendClose());
            Midway(slab[k := Some(t)], in_flight, slot, hs, k, sz) && (Served(s) ==> Served(t)) && !Unopened(t.state)
  {
    hide EosLast, HasEos, HasData, RestOf, DataLen;
  }

  /** The stream after `send_data`. */
  predicate Accepted(s: Stream, t: Stream, payload: Bytes, end_stream: bool) {
    && t.pending_send == s.pending_send + [Data(payload, end_stream)]
    && t.buffered_send_data == s.buffered_send_data + |payload|
    && s.state.IsSendStreaming() && t.state == (if end_stream then s.state.SendClose() else s.state)
    && t.send_flow.window_size == s.send_flow.window_size && t.is_pending_open == s.is_pending_open
    && t.requested_send_capacity == Requested(s, |payload|, end_stream)
  }

  lemma AcceptedMeans(s: Stream, t: Stream, payload: Bytes, end_stream: bool)
    ensures Accepted(s, t, payload, end_stream) ==>
              var buffered := Min(s.buffered_send_data + |payload|, MAX_U32);
              t.requested_send_capacity == if end_stream then buffered else Max(s.requested_send_capacity, buffered)
  {
  }

  /** What the application gives is added; so is that a request no longer covers it. */
  function Extended(h: History, s: Stream, payload: Bytes): History {
    h.(given := h.given + payload, outgrown := h.outgrown || s.buffered_send_data + |payload| > MAX_U32)
  }

  lemma DataQueued(s: Stream, t: Stream, u: Stream, w: Option<Written>, h: History, payload: Bytes, end_stream: bool)
    requires StreamOk(s, w, h) && |payload| <= MAX_WINDOW_SIZE && Expecting(s, t, |payload|, end_stream)
    requires Sane(t, w, |payload|) && Served(t) && Scheduled(t, w) && Faithful(t, w, h)
    requires var queued := t.(pending_send := t.pending_send + [Data(payload, end_stream)]);
             u == if t.send_flow.available > 0 || t.buffered_send_data == 0 then Schedulable(queued) else queued
    ensures StreamOk(u, w, Extended(h, s, payload)) && Accepted(s, u, payload, end_stream)
  {
    DataBytesAppend(t.pending_send, Data(payload, end_stream));
    DataSane(t, u, w, payload, end_stream);
    DataFaithful(s, t, u, w, h, payload, end_stream);
    hide StreamOk, Sane, Faithful, DataLen, DataBytes;
    DataScheduled(s, t, u, w, h, payload, end_stream);
  }

  lemma DataSane(t: Stream, u: Stream, w: Option<Written>, payload: Bytes, end_stream: bool)
    requires Sane(t, w, |payload|) && |payload| <= MAX_WINDOW_SIZE && Served(t)
    requires u == t.(pending_send := t.pending_send + [Data(payload, end_stream)], is_pending_send := u.is_pending_send)
    requires u.is_pending_send && !t.is_pending_send ==> !t.is_pending_open
    ensures Sane(u, w, 0) && Served(u)
  {
    DataBytesAppend(t.pending_send, Data(payload, end_stream));
    hide DataLen, DataBytes;
  }

  lemma DataFaithful(s: Stream, t: Stream, u: Stream, w: Option<Written>, h: History, payload: Bytes, end_stream: bool)
    requires Faithful(s, w, h) && Expecting(s, t, |payload|, end_stream)
    requires u == t.(pending_send := t.pending_send + [Data(payload, end_stream)], is_pending_send := u.is_pending_send)
    requires Sane(t, w, |payload|)
    ensures Faithful(u, w, Extended(h, s, payload))
  {
    DataBytesAppend(s.pending_send, Data(payload, end_stream));
    hide DataBytes, DataLen;
    var q := s.pending_send;
    EosAppend(q, Data(payload, end_stream));
    assert h.sent + RestBytes(w) + (DataBytes(q) + payload) == h.sent + RestBytes(w) + DataBytes(q) + payload;
  }

  lemma EosAppend(q: seq<OutFrame>, f: OutFrame)
    ensures !HasEos(q) ==> EosLast(q + [f]) && (HasEos(q + [f]) <==> f.Data? && f.end_stream)
    ensures !f.Data? && EosLast(q) ==> EosLast(q + [f]) && (HasEos(q + [f]) <==> HasEos(q))
    ensures !f.Data? ==> (HasData(q + [f]) <==> HasData(q))
  {
    var r := q + [f];
    assert forall i :: 0 <= i < |q| ==> r[i] == q[i];
    assert r[|q|] == f;
  }

  lemma DataScheduled(s: Stream, t: Stream, u: Stream, w: Option<Written>, h: History, payload: Bytes, end_stream: bool)
    requires StreamOk(s, w, h) && Expecting(s, t, |payload|, end_stream) && Scheduled(t, w) && Sane(t, w, |payload|)
    requires var queued := t.(pending_send := t.pending_send + [Data(payload, end_stream)]);
             u == if t.send_flow.available > 0 || t.buffered_send_data == 0 then Schedulable(queued) else queued
    ensures Scheduled(u, w) && Backed(u, w)
  {
    hide Faithful, Served;
    assert u.pending_send[0] == if t.pending_send == [] then Data(payload, end_stream) else t.pending_send[0];
    assert DataLen([]) == 0;
  }

  // ----- Facts about giving up

  function Cleared(s: Stream): Stream {
    s.(pending_send := [], buffered_send_data := 0, requested_send_capacity := 0)
  }

  function Unassigned(s: Stream): (t: Stream)
    ensures t == s.(send_flow := t.send_flow)
  {
    s.(send_flow := s.send_flow.(available := 0))
  }

  lemma UnassignedIs(s: Stream)
    requires s.send_flow.available >= 0
    ensures var available := s.send_flow.available;
            && s.send_flow.ClaimCapacity(available) == Ok(Unassigned(s).send_flow)
            && SameQueues(s, Unassigned(s)) && Unassigned(s).send_flow.available == 0
            && Unassigned(s) == s.(send_flow := Unassigned(s).send_flow)
  {
    ExactClaim(s.send_flow, s.send_flow.available);
  }

  lemma NothingAssigned(s: Stream)
    requires s.send_flow.available == 0
    ensures Unassigned(s) == s
  {
    assert s.send_flow.(available := 0) == s.send_flow;
  }

  lemma SlabSame(slab: Slab, k: Key)
    requires Live(slab, k)
    ensures slab[k := Some(slab[k].value)] == slab
  {
  }

  function Trimmed(s: Stream): (t: Stream)
    ensures t == s.(send_flow := t.send_flow)
  {
    if s.send_flow.available > s.buffered_send_data
    then s.(send_flow := s.send_flow.(available := s.buffered_send_data)) else s
  }

  lemma TrimmedMidway(slab: Slab, in_flight: InFlightData, slot: Option<Written>, hs: seq<History>, k: Key)
    requires Midway(slab, in_flight, slot, hs, k, 0) && !slab[k].value.state.IsSendStreaming()
    ensures var s := slab[k].value;
            Midway(slab[k := Some(Trimmed(s))], in_flight, slot, hs, k, 0) && (Served(s) ==> Served(Trimmed(s)))
  {
    hide EosLast, HasEos, HasData, RestOf, DataLen, DataBytes;
  }

  lemma ClearedMidway(slab: Slab, in_flight: InFlightData, slot: Option<Written>, hs: seq<History>, k: Key,
                      s: Stream, w: Option<Written>, h: History)
    requires Live(slab, k) && k < |hs| && slab[k].value == Cleared(s) && hs[k] == h.(dropped := true)
    requires StreamOk(s, w, h) && s.state.Closed? && RestOf(in_flight, slot, k).None?
    ensures Midway(slab[k := Some(Unassigned(slab[k].value))], in_flight, slot, hs, k, 0)
    ensures Served(Unassigned(slab[k].value)) && slab[k].value.send_flow.available >= 0
  {
    hide RestOf, DataBytes;
    assert DataLen([]) == 0;
  }

  lemma ErrorOk(s: Stream, t: Stream, w: Option<Written>, h: History)
    requires StreamOk(s, w, h) && s.state.Closed? && Grown(Unassigned(Cleared(s)), t)
    requires Sane(t, None, 0) && Faithful(t, None, h.(dropped := true)) && Served(t)
    ensures StreamOk(t, None, h.(dropped := true))
    ensures t.pending_send == [] && t.buffered_send_data == 0 && t.requested_send_capacity == 0
            && t.send_flow.available == 0 && t.state == s.state
  {
    hide Faithful;
  }

  lemma ResetOk(s: Stream, t: Stream, w: Option<Written>, h: History)
    requires StreamOk(s, w, h) && t == s.(state := s.state.RecvReset(s.is_pending_send))
    ensures StreamOk(t, w, h)
  {
    hide DataLen, EosLast, HasEos, HasData;
  }

  // ----- Facts about the operations of `Send`

  lemma OkMidway(slab: Slab, in_flight: InFlightData, slot: Option<Written>, hs: seq<History>, k: Key)
    requires Live(slab, k) && k < |hs| && StreamOk(slab[k].value, RestOf(in_flight, slot, k), hs[k])
    ensures Midway(slab, in_flight, slot, hs, k, 0)
  {
    hide Sane, Faithful, Served, Backed, Scheduled, RestOf;
  }

  /** A stream whose HEADERS are queued, perhaps until it may be opened. */
  function HeadersQueued(s: Stream, state: State, end_stream: bool, local_init: bool): Stream {
    FrameQueued(s.(state := state, is_pending_open := s.is_pending_open || local_init), Headers(end_stream))
  }

  lemma HeadersOk(s: Stream, t: Stream, state: State, end_stream: bool, local_init: bool, w: Option<Written>, h: History)
    requires StreamOk(s, w, h) && s.state.SendOpen(end_stream) == Ok(state) && (w.Some? ==> w.value.rest != [])
    requires local_init ==> s.pending_send == [] && !s.is_pending_open
    requires t == HeadersQueued(s, state, end_stream, local_init)
    ensures StreamOk(t, w, h)
  {
    DataBytesAppend(s.pending_send, Headers(end_stream));
    EosAppend(s.pending_send, Headers(end_stream));
    hide DataLen, DataBytes, EosLast, HasEos, HasData;
    assert s.requested_send_capacity == 0 && s.buffered_send_data == 0;
    assert t.pending_send[0] == if s.pending_send == [] then Headers(end_stream) else s.pending_send[0];
  }

  /** A stream whose trailers are queued. */
  function Trailed(s: Stream): Stream
    requires s.state.IsSendStreaming()
  {
    FrameQueued(s.(state := s.state.SendClose()), Headers(true))
  }

  lemma TrailedOk(s: Stream, w: Option<Written>, h: History)
    requires StreamOk(s, w, h) && s.state.IsSendStreaming()
    ensures StreamOk(Trailed(s), w, h)
  {
    DataBytesAppend(s.pending_send, Headers(true));
    EosAppend(s.pending_send, Headers(true));
    hide DataLen, DataBytes, EosLast, HasEos, HasData;
    assert Trailed(s).pending_send[0] == if s.pending_send == [] then Headers(true) else s.pending_send[0];
  }

  lemma ClosedOk(s: Stream, cause: Cause, w: Option<Written>, h: History)
    requires StreamOk(s, w, h)
    ensures StreamOk(s.(state := Closed(cause)), w, h)
  {
    hide DataLen, DataBytes, EosLast, HasEos, HasData;
  }

  /** What `send_reset` queues its frame behind. */
  predicate BeforeReset(s: Stream, t: Stream) {
    var closed := s.(state := Closed(Error(true)));
    t == if s.is_pending_open then closed else Cleared(closed)
  }

  /** The stream with RST_STREAM queued and its capacity taken away. */
  lemma ResetSane(s: Stream, t: Stream, reason: nat, w: Option<Written>, w1: Option<Written>, h: History, h1: History)
    requires StreamOk(s, w, h) && BeforeReset(s, t)
    requires if s.is_pending_open then w1 == w && h1 == h else w1.None? && h1 == h.(dropped := true)
    ensures var u := Unassigned(FrameQueued(t, OutFrame.Reset(reason)));
            Sane(u, w1, 0) && Served(u) && Scheduled(u, w1) && Faithful(u, w1, h1)
            && FrameQueued(t, OutFrame.Reset(reason)).send_flow.available >= 0
  {
    ClosedOk(s, Error(true), w, h);
    if s.is_pending_open {
      ResetOpening(t, reason, w, h);
    } else {
      ResetCleared(s.(state := Closed(Error(true))), reason, w, h);
    }
    hide *;
  }

  lemma ResetOpening(t: Stream, reason: nat, w: Option<Written>, h: History)
    requires StreamOk(t, w, h) && t.is_pending_open && t.state.Closed?
    ensures var u := Unassigned(FrameQueued(t, OutFrame.Reset(reason)));
            Sane(u, w, 0) && Served(u) && Scheduled(u, w) && Faithful(u, w, h) && u.send_flow.available >= 0
  {
    DataBytesAppend(t.pending_send, OutFrame.Reset(reason));
    EosAppend(t.pending_send, OutFrame.Reset(reason));
    hide DataLen, DataBytes, EosLast, HasEos, HasData, FrameQueued, Schedulable;
  }

  lemma ResetCleared(s: Stream, reason: nat, w: Option<Written>, h: History)
    requires StreamOk(s, w, h) && !s.is_pending_open && s.state.Closed?
    ensures var u := Unassigned(FrameQueued(Cleared(s), OutFrame.Reset(reason)));
            Sane(u, None, 0) && Served(u) && Scheduled(u, None) && Faithful(u, None, h.(dropped := true))
  {
    assert DataLen([]) == 0 && DataBytes([]) == [];
    DataBytesAppend([], OutFrame.Reset(reason));
    EosAppend([], OutFrame.Reset(reason));
    hide DataLen, DataBytes, FrameQueued, Schedulable;
  }

  lemma ResetMidway(slab: Slab, in_flight: InFlightData, slot: Option<Written>, hs: seq<History>, k: Key,
                    s: Stream, t: Stream, reason: nat, w: Option<Written>, h: History)
    requires Live(slab, k) && k < |hs| && slab[k].value == FrameQueued(t, OutFrame.Reset(reason)) && BeforeReset(s, t)
    requires StreamOk(s, w, h)
    requires if s.is_pending_open then RestOf(in_flight, slot, k) == w && hs[k] == h
             else RestOf(in_flight, slot, k).None? && hs[k] == h.(dropped := true)
    ensures Midway(slab[k := Some(Unassigned(slab[k].value))], in_flight, slot, hs, k, 0)
    ensures Served(Unassigned(slab[k].value)) && slab[k].value.send_flow.available >= 0
  {
    ResetSane(s, t, reason, w, RestOf(in_flight, slot, k), h, hs[k]);
    hide Sane, Served, Scheduled, Faithful, RestOf, StreamOk, Unassigned, FrameQueued;
  }

  lemma ResetQueuedOk(s: Stream, t: Stream, u: Stream, reason: nat, w1: Option<Written>, h1: History)
    requires BeforeReset(s, t) && Grown(Unassigned(FrameQueued(t, OutFrame.Reset(reason))), u)
    requires Sane(u, w1, 0) && Served(u) && Scheduled(u, w1) && Faithful(u, w1, h1)
    ensures StreamOk(u, w1, h1)
    ensures u.pending_send == (if s.is_pending_open then s.pending_send else []) + [OutFrame.Reset(reason)]
    ensures u.state == Closed(Error(true)) && u.send_flow.available == 0
  {
    GrownNothing(Unassigned(FrameQueued(t, OutFrame.Reset(reason))), u);
    GrownSteady(Unassigned(FrameQueued(t, OutFrame.Reset(reason))), u);
    hide Faithful, Served, Sane, Scheduled, Grown, FrameQueued, Schedulable;
  }

  /** A stream that asked for nothing, or is not open yet, gets nothing. */
  lemma GrownNothing(s: Stream, u: Stream)
    requires Grown(s, u) && s.send_flow.available == 0 && (s.requested_send_capacity == 0 || s.is_pending_open)
    ensures u.send_flow.available == 0
  {
  }

  lemma ScheduledResetOk(s: Stream, s1: Stream, s2: Stream, w: Option<Written>, h: History)
    requires StreamOk(s1, w, h) && s1.state.Closed? && s1 == s.(state := s1.state)
    requires Grown(Trimmed(s1), s2) && Sane(s2, w, 0) && Served(s2) && Scheduled(s2, w) && Faithful(s2, w, h)
    ensures StreamOk(Schedulable(s2), w, h)
    ensures var t := Schedulable(s2);
            && t.state == s1.state && t.pending_send == s.pending_send && t.buffered_send_data == s.buffered_send_data
            && (!s.is_pending_open ==> t.is_pending_send)
  {
    hide Faithful, DataLen, Sane, Served, Scheduled, Grown, Trimmed, Schedulable;
    GrownSteady(Trimmed(s1), s2);
    OnlyScheduled(s2, Schedulable(s2), w, h);
  }

  /** Waiting to send changes nothing else. */
  lemma OnlyScheduled(s: Stream, t: Stream, w: Option<Written>, h: History)
    requires Sane(s, w, 0) && Served(s) && Scheduled(s, w) && Faithful(s, w, h)
    requires t == s.(is_pending_send := t.is_pending_send) && (s.is_pending_send ==> t.is_pending_send)
    requires t.is_pending_send && !s.is_pending_send ==> !s.is_pending_open
    ensures Sane(t, w, 0) && Served(t) && Scheduled(t, w) && Faithful(t, w, h)
  {
    hide DataLen, DataBytes, EosLast, HasEos, HasData;
  }

  // ----- Facts about the store

  predicate IsNew(s: Stream) {
    && s.send_flow.available == 0 && s.requested_send_capacity == 0 && s.buffered_send_data == 0 && s.pending_send == []
    && !s.is_pending_send && !s.is_pending_send_capacity && !s.is_pending_open
  }

  lemma NewOk(s: Stream)
    requires IsNew(s)
    ensures StreamOk(s, None, NewHistory)
  {
    assert DataLen([]) == 0 && DataBytes([]) == [];
  }

  lemma NothingRests(slab: Slab, in_flight: InFlightData, slot: Option<Written>, k: Key)
    requires CodecOk(in_flight, slot, slab) && !Live(slab, k)
    ensures RestOf(in_flight, slot, k).None?
  {
  }

  lemma AssignedAppend(slab: Slab, s: Stream)
    ensures Assigned(slab + [Some(s)]) == Assigned(slab) + s.send_flow.available
  {
    assert (slab + [Some(s)])[..|slab|] == slab;
  }

  lemma NewQueues(a: Slab, b: Slab, k: Key, s: Stream, send: seq<Key>, capacity: seq<Key>, open: seq<Key>)
    requires !Live(a, k) && Live(b, k) && b[k] == Some(s) && IsNew(s)
    requires forall j: Key :: j != k ==> (Live(b, j) <==> Live(a, j)) && (Live(b, j) ==> b[j] == a[j])
    requires QueueIs(NextSend, send, a) && QueueIs(NextSendCapacity, capacity, a) && QueueIs(NextOpen, open, a)
    ensures QueueIs(NextSend, send, b) && QueueIs(NextSendCapacity, capacity, b) && QueueIs(NextOpen, open, b)
  {
    forall n, j: Key ensures Member(n, b, j) <==> Member(n, a, j) {
      assert j != k ==> (Live(b, j) <==> Live(a, j));
    }
  }

  lemma RemovedQueues(a: Slab, b: Slab, k: Key, send: seq<Key>, capacity: seq<Key>, open: seq<Key>)
    requires Live(a, k) && a[k].value.IsReleased() && b == a[k := None]
    requires QueueIs(NextSend, send, a) && QueueIs(NextSendCapacity, capacity, a) && QueueIs(NextOpen, open, a)
    ensures QueueIs(NextSend, send, b) && QueueIs(NextSendCapacity, capacity, b) && QueueIs(NextOpen, open, b)
  {
    forall n, j: Key ensures Member(n, b, j) <==> Member(n, a, j) {
    }
  }

  lemma RemovedOk(a: Slab, b: Slab, in_flight: InFlightData, slot: Option<Written>, hs: seq<History>, k: Key)
    requires AllOk(a, in_flight, slot, hs, {}) && CodecOk(in_flight, slot, a)
    requires Live(a, k) && b == a[k := None] && RestOf(in_flight, slot, k).None?
    ensures AllOk(b, in_flight, slot, hs, {}) && CodecOk(in_flight, slot, b)
  {
    hide StreamOk;
    forall j: Key | Live(b, j) ensures StreamOk(b[j].value, RestOf(in_flight, slot, j), hs[j]) {
      assert Live(a, j);
    }
  }

  function Unlinked(s: Stream): Stream {
    if s.IsClosed() && !s.is_pending_reset_expiration then s.(is_linked := false) else s
  }

  lemma UnlinkedOk(s: Stream, w: Option<Written>, h: History)
    requires StreamOk(s, w, h)
    ensures StreamOk(Unlinked(s), w, h) && 0 <= s.send_flow.available && Unlinked(s).IsReleased() == s.IsReleased()
  {
    hide DataLen, DataBytes, EosLast, HasEos, HasData;
  }

  lemma RestNeedsBuffer(s: Stream, w: Option<Written>, h: History)
    requires StreamOk(s, w, h) && s.buffered_send_data == 0 && (w.Some? ==> w.value.rest != [])
    ensures w.None? && s.send_flow.available >= 0
  {
  }

  /** The rest of a frame is at the front of its stream's queue again. */
  predicate PutBackOn(a: Slab, b: Slab, w: Written) {
    && Live(a, w.stream) && Live(b, w.stream) && b == a[w.stream := b[w.stream]]
    && b[w.stream].value == PutBack(a[w.stream].value, w)
  }

  function PutBack(s: Stream, w: Written): Stream {
    s.(pending_send := [Data(w.rest, w.end_of_stream)] + s.pending_send,
       is_pending_send := s.is_pending_send || s.send_flow.available > 0)
  }

  lemma BackOk(s: Stream, t: Stream, w: Written, h: History)
    requires StreamOk(s, Some(w), h) && w.rest != [] && |w.rest| <= MAX_WINDOW_SIZE
    requires t == s.(pending_send := [Data(w.rest, w.end_of_stream)] + s.pending_send,
                     is_pending_send := s.is_pending_send || s.send_flow.available > 0)
    ensures StreamOk(t, None, h)
  {
    var f := Data(w.rest, w.end_of_stream);
    assert ([f] + s.pending_send)[1..] == s.pending_send;
    assert h.sent + w.rest + DataBytes(s.pending_send) == h.sent + (w.rest + DataBytes(s.pending_send));
    assert DataBytes(t.pending_send) == w.rest + DataBytes(s.pending_send);
    EosFront(s.pending_send, f);
    hide DataLen, DataBytes, EosLast, HasEos, HasData;
  }

  lemma EosFront(q: seq<OutFrame>, f: OutFrame)
    ensures EosLast(q) && (f.Data? && f.end_stream ==> !HasData(q)) ==> EosLast([f] + q)
    ensures HasEos([f] + q) <==> HasEos(q) || (f.Data? && f.end_stream)
    ensures HasData([f] + q) <==> HasData(q) || f.Data?
  {
    var r := [f] + q;
    assert r[0] == f && forall i :: 0 < i < |r| ==> r[i] == q[i - 1];
    if i :| 0 <= i < |q| && q[i].Data? && q[i].end_stream {
      assert r[i + 1] == q[i];
    }
    if i :| 0 <= i < |q| && q[i].Data? {
      assert r[i + 1] == q[i];
    }
  }

  // ----- Facts about popping

  lemma PoppedCleared(slab: Slab, in_flight: InFlightData, slot: Option<Written>, hs: seq<History>, k: Key,
                      s: Stream, w: Option<Written>, h: History)
    requires Live(slab, k) && k < |hs| && slab[k].value == Cleared(s.(is_pending_send := false)) && hs[k] == h.(dropped := true)
    requires StreamOk(s, w, h) && s.state.Closed? && RestOf(in_flight, slot, k).None?
    ensures Midway(slab[k := Some(Unassigned(slab[k].value))], in_flight, slot, hs, k, 0)
    ensures Served(Unassigned(slab[k].value)) && slab[k].value.send_flow.available >= 0
  {
    hide RestOf, DataBytes;
    assert DataLen([]) == 0;
  }

  lemma DroppedOk(s: Stream, s2: Stream, w: Option<Written>, h: History)
    requires StreamOk(s, w, h) && s.state.Closed? && !s.is_pending_open
    requires Grown(Unassigned(Cleared(s.(is_pending_send := false))), s2)
    requires Sane(s2, None, 0) && Faithful(s2, None, h.(dropped := true)) && Served(s2)
    ensures StreamOk(s2.(is_pending_send := true), None, h.(dropped := true))
  {
    hide EosLast, HasEos, HasData, DataLen, DataBytes;
  }

  /** A stream is put back in the queue it was taken from. */
  lemma AllGrownOne(a: Slab, b: Slab, k: Key, s: Stream)
    requires Live(a, k) && a[k].value == s.(is_pending_send := false) && s.is_pending_send && AllGrown(a, b, {k})
    ensures Live(b, k) && AllGrown(a[k := Some(s)], b[k := Some(b[k].value.(is_pending_send := true))], {})
  {
    assert Live(b, k) <==> Live(a, k);
    hide Served;
    var a1, b1 := a[k := Some(s)], b[k := Some(b[k].value.(is_pending_send := true))];
    forall j: Key | Live(b1, j) ensures Live(a1, j) && Grown(a1[j].value, b1[j].value) {
      assert Live(b, j);
    }
    forall j: Key | Live(a1, j) ensures Live(b1, j) {
      assert Live(b, j) <==> Live(a, j);
    }
  }

  /** The window of the connection covers what its streams hold. */
  lemma WindowCovers(slab: Slab, in_flight: InFlightData, slot: Option<Written>, hs: seq<History>, flow: FlowControl,
                     leaked: nat, k: Key)
    requires AllOk(slab, in_flight, slot, hs, {k}) && Live(slab, k) && slab[k].value.send_flow.available >= 0
    requires Accounted(slab, flow, leaked)
    ensures slab[k].value.send_flow.available + flow.available <= flow.window_size && 0 <= flow.available
  {
    forall j: Key | j < |slab| ensures AvailableAt(slab, j) >= 0 {
      if Live(slab, j) && j != k {
        assert StreamOk(slab[j].value, RestOf(in_flight, slot, j), hs[j]);
      }
    }
    AssignedBounds(slab, k);
  }

  lemma ChunkFits(s: Stream, h: History)
    requires StreamOk(s, None, h) && s.pending_send != [] && s.pending_send[0].Data?
    ensures 0 <= s.send_flow.available <= AsSize(s.send_flow.window_size)
    ensures s.send_flow.available <= s.requested_send_capacity && |s.pending_send[0].payload| <= s.buffered_send_data
    ensures |s.pending_send[0].payload| <= MAX_WINDOW_SIZE
    ensures s.send_flow.available > 0 ==> s.send_flow.available <= s.send_flow.window_size
  {
    hide Faithful;
  }

  /** The stream after `len` octets of its first frame have gone to the codec. */
  function Chunked(s: Stream, len: nat): Stream
    requires len <= s.send_flow.available && len <= s.buffered_send_data && len <= s.requested_send_capacity
    requires s.pending_send != [] && (len > 0 ==> len <= s.send_flow.window_size)
  {
    s.(send_flow := FlowControl(if len > 0 then s.send_flow.window_size - len else s.send_flow.window_size,
                                s.send_flow.available - len),
       buffered_send_data := s.buffered_send_data - len, requested_send_capacity := s.requested_send_capacity - len,
       pending_send := s.pending_send[1..],
       is_pending_send := s.pending_send[1..] != [] || s.state.IsScheduledReset())
  }

  /** What is sent of a stream's first frame: as much as it has, the frame size and its capacity allow. */
  predicate Chunk(s: Stream, payload: Bytes, end_stream: bool, max_len: nat) {
    && s.pending_send != [] && s.pending_send[0].Data? && |payload| <= |s.pending_send[0].payload|
    && payload == s.pending_send[0].payload[..|payload|]
    && |payload| == Min(Min(|s.pending_send[0].payload|, max_len), s.send_flow.available) && |payload| <= s.buffered_send_data
    && |payload| <= s.requested_send_capacity && (payload != [] ==> |payload| <= s.send_flow.window_size)
    && (end_stream <==> s.pending_send[0].end_stream && |payload| == |s.pending_send[0].payload|)
  }

  function Sent(h: History, payload: Bytes, end_stream: bool): History {
    h.(sent := h.sent + payload, ended := h.ended || end_stream)
  }

  /** The stream without the first `len` octets, or all, of its first frame. */
  function Shortened(t: Stream, len: nat): Stream
    requires len <= t.send_flow.available && len <= t.buffered_send_data && len <= t.requested_send_capacity
    requires t.pending_send != [] && (len > 0 ==> len <= t.send_flow.window_size)
  {
    t.(send_flow := t.send_flow.SendData(len).value, buffered_send_data := t.buffered_send_data - len,
       requested_send_capacity := t.requested_send_capacity - len, pending_send := t.pending_send[1..])
  }

  lemma ChunkIs(s: Stream, t: Stream, frame: OutFrame, len: nat)
    requires t == s.(is_pending_send := false) && s.pending_send != [] && frame == s.pending_send[0] && frame.Data?
    requires 0 <= s.send_flow.available <= AsSize(s.send_flow.window_size) && len <= s.send_flow.available
    requires len <= s.requested_send_capacity && len <= s.buffered_send_data
    ensures len > 0 ==> len <= s.send_flow.window_size
    ensures var u := Shortened(t, len);
            && SameQueues(t, u) && u.send_flow.available == t.send_flow.available - len
            && u.pending_send == t.pending_send[1..] && u.state == t.state && !u.is_pending_send
            && Chunked(s, len) == u.(is_pending_send := MoreToSend(u))
  {
    if len > 0 {
      ExactSend(s.send_flow, len);
    }
    assert t.send_flow.SendData(len) == Ok(Chunked(s, len).send_flow);
  }

  lemma NotPending(u: Stream)
    requires !u.is_pending_send
    ensures u.(is_pending_send := false) == u
  {
  }

  lemma {:induction false} NoData(q: seq<OutFrame>)
    requires !HasData(q)
    ensures DataBytes(q) == []
  {
    if q != [] {
      assert !q[0].Data? && forall i :: 0 <= i < |q[1..]| ==> q[1..][i] == q[i + 1];
      NoData(q[1..]);
    }
  }

  lemma ChunkMeans(s: Stream, payload: Bytes, end_stream: bool, max_len: nat, h: History)
    requires StreamOk(s, None, h) && s.pending_send != [] && s.pending_send[0].Data?
    requires var frame := s.pending_send[0];
             var len := Min(Min(|frame.payload|, max_len), AsSize(s.send_flow.available));
             payload == frame.payload[..len] && end_stream == (frame.end_stream && |frame.payload| <= len)
    ensures Chunk(s, payload, end_stream, max_len)
    ensures end_stream && !h.dropped ==> Sent(h, payload, end_stream).sent == h.given
  {
    ChunkFits(s, h);
    if end_stream {
      LastSent(s, payload, h);
    }
    hide StreamOk, Sent;
  }

  lemma LastSent(s: Stream, payload: Bytes, h: History)
    requires Faithful(s, None, h) && s.pending_send != [] && s.pending_send[0].Data? && s.pending_send[0].end_stream
    requires payload == s.pending_send[0].payload[..|s.pending_send[0].payload|]
    ensures !h.dropped ==> h.sent + payload == h.given
  {
    var frame, tail := s.pending_send[0], s.pending_send[1..];
    assert payload == frame.payload;
    assert forall i :: 0 <= i < |tail| ==> tail[i] == s.pending_send[i + 1];
    NoData(tail);
    assert DataBytes(s.pending_send) == payload;
  }

  lemma ChunkOk(s: Stream, frame: OutFrame, len: nat, h: History, k: Key)
    requires StreamOk(s, None, h) && !s.is_pending_open && s.pending_send != [] && frame == s.pending_send[0] && frame.Data?
    requires len <= |frame.payload| && len <= s.send_flow.available && len <= s.buffered_send_data
    requires len <= s.requested_send_capacity && (len > 0 ==> len <= s.send_flow.window_size)
    ensures var rest := frame.payload[len..];
            var w := if rest != [] then Some(Written(k, rest, frame.end_stream)) else None;
            StreamOk(Chunked(s, len), w, Sent(h, frame.payload[..len], frame.end_stream && |frame.payload| <= len))
  {
    hide Faithful, Sent, DataBytes;
    ChunkFaithful(s, frame, len, h, k);
  }

  lemma ChunkFaithful(s: Stream, frame: OutFrame, len: nat, h: History, k: Key)
    requires Faithful(s, None, h) && s.pending_send != [] && frame == s.pending_send[0] && frame.Data?
    requires len <= |frame.payload| && len <= s.send_flow.available && len <= s.buffered_send_data
    requires len <= s.requested_send_capacity && (len > 0 ==> len <= s.send_flow.window_size)
    ensures var rest := frame.payload[len..];
            var w := if rest != [] then Some(Written(k, rest, frame.end_stream)) else None;
            Faithful(Chunked(s, len), w, Sent(h, frame.payload[..len], frame.end_stream && |frame.payload| <= len))
  {
    hide DataBytes, DataLen, EosLast, HasEos, HasData;
    DataBytesFirst(s.pending_send);
    Rejoined(h.sent, frame.payload, len, DataBytes(s.pending_send[1..]));
    EosTail(s.pending_send);
  }

  lemma DataBytesFirst(q: seq<OutFrame>)
    requires q != [] && q[0].Data?
    ensures DataBytes(q) == q[0].payload + DataBytes(q[1..])
  {
  }

  lemma Rejoined(a: Bytes, p: Bytes, len: nat, b: Bytes)
    requires len <= |p|
    ensures a + p[..len] + p[len..] + b == a + [] + (p + b)
    ensures len == |p| ==> p[len..] == [] && a + p[..len] + [] + b == a + [] + (p + b)
  {
    assert p[..len] + p[len..] == p;
    assert a + p[..len] + p[len..] + b == a + (p[..len] + p[len..]) + b;
    assert a + [] == a;
  }

  lemma EosTail(q: seq<OutFrame>)
    requires q != [] && EosLast(q)
    ensures EosLast(q[1..])
    ensures q[0].Data? && q[0].end_stream ==> !HasData(q[1..]) && HasEos(q)
    ensures (q[0].Data? ==> HasData(q)) && (HasEos(q[1..]) ==> HasEos(q))
    ensures HasData(q[1..]) ==> HasData(q)
  {
    assert forall i :: 0 <= i < |q[1..]| ==> q[1..][i] == q[i + 1];
  }

  /** A stream with frames left, or one that is to be reset, waits to send again. */
  predicate MoreToSend(s: Stream) {
    s.pending_send != [] || s.state.IsScheduledReset()
  }

  /** So will this one be once its first frame has gone. */
  predicate MoreAfter(s: Stream) {
    s.pending_send != [] && MoreToSend(s.(pending_send := s.pending_send[1..]))
  }

  lemma MoreAfterIs(s: Stream, u: Stream)
    requires s.pending_send != [] && u.pending_send == s.pending_send[1..] && u.state == s.state
    ensures MoreToSend(u) == MoreAfter(s)
  {
  }

  lemma FirstSentIs(s: Stream, u: Stream)
    requires s.pending_send != [] && u == s.(is_pending_send := false, pending_send := s.pending_send[1..])
    ensures FirstSent(s) == u.(is_pending_send := MoreToSend(u))
  {
  }

  /** The stream without its first frame. */
  function FirstSent(s: Stream): Stream
    requires s.pending_send != []
  {
    s.(pending_send := s.pending_send[1..], is_pending_send := s.pending_send[1..] != [] || s.state.IsScheduledReset())
  }

  lemma FirstSentOk(s: Stream, h: History)
    requires StreamOk(s, None, h) && !s.is_pending_open && s.pending_send != [] && !s.pending_send[0].Data?
    ensures StreamOk(FirstSent(s), None, h)
    ensures FirstSent(s) == s.(pending_send := s.pending_send[1..],
                               is_pending_send := s.pending_send[1..] != [] || s.state.IsScheduledReset())
  {
    assert DataLen(s.pending_send) == DataLen(s.pending_send[1..]);
    assert DataBytes(s.pending_send) == DataBytes(s.pending_send[1..]);
    EosTail(s.pending_send);
    hide DataLen, DataBytes, EosLast, HasEos, HasData;
  }

  lemma NothingLeft(s: Stream, h: History)
    requires StreamOk(s, None, h) && s.is_pending_send && s.pending_send == []
    ensures s.state.Closed? && StreamOk(s.(is_pending_send := false), None, h)
    ensures StreamOk(s.(is_pending_send := false, state := Closed(Error(true))), None, h)
  {
    hide DataLen, DataBytes, EosLast, HasEos, HasData;
  }

  lemma BlockedOk(s: Stream, h: History)
    requires StreamOk(s, None, h) && s.pending_send != [] && Blocked(s.pending_send[0], s.send_flow.available)
    ensures StreamOk(s.(is_pending_send := false), None, h)
  {
    hide DataLen, DataBytes, EosLast, HasEos, HasData;
  }

  lemma PoppedFacts(s: Stream, h: History)
    requires StreamOk(s, None, h) && s.is_pending_send
    ensures !s.is_pending_open
  {
    hide Faithful;
  }

  /** What the codec will give back once `len` octets of the first frame are written. */
  function Remainder(k: Key, s: Stream, len: nat): Written
    requires s.pending_send != [] && s.pending_send[0].Data? && len <= |s.pending_send[0].payload|
  {
    Written(k, s.pending_send[0].payload[len..], s.pending_send[0].end_stream)
  }

  /** The first `n` in the queue could not send. */
  ghost predicate PassedOver(q: seq<Key>, n: nat, slab: Slab) {
    n <= |q| && forall i :: 0 <= i < n ==> Live(slab, q[i]) && Stuck(slab[q[i]].value)
  }

  /**
    It was the turn of the `n`-th; if there is none, of one that came later. Those behind it stay in
    order, before any other; it is now the last, if it has more to send.
   */
  predicate TookTurn(q: seq<Key>, n: nat, k: Key, r: seq<Key>) {
    (n < |q| ==> k == q[n] && q[n + 1..] <= r) && (k in r ==> r[|r| - 1] == k)
  }

  lemma LastInLine(q: seq<Key>, r: seq<Key>, more: bool)
    requires q != [] && (forall i, j :: 0 <= i < j < |q| ==> q[i] != q[j])
    requires r == q[1..] + if more then [q[0]] else []
    ensures q[0] in r ==> r[|r| - 1] == q[0]
  {
  }

  /** The streams of a queue have at most got more capacity. */
  ghost predicate OnlyGrown(q: seq<Key>, a: Slab, b: Slab) {
    forall i :: 0 <= i < |q| ==> GrownIn(a, b, q[i])
  }

  predicate GrownIn(a: Slab, b: Slab, k: Key) {
    Live(a, k) && Live(b, k) && Grown(a[k].value, b[k].value)
  }

  lemma OnlyGrownSelf(q: seq<Key>, slab: Slab)
    requires forall i :: 0 <= i < |q| ==> Live(slab, q[i])
    ensures OnlyGrown(q, slab, slab) && q[0..] == q
  {
    forall i | 0 <= i < |q| ensures GrownIn(slab, slab, q[i]) {
      GrownSelf(slab[q[i]].value);
    }
    hide Grown;
  }

  lemma OnlyGrownNone(q: seq<Key>, a: Slab, b: Slab)
    ensures OnlyGrown(q[|q|..], a, b)
  {
  }

  /** Who cannot send with more capacity cannot with less. */
  lemma StuckBefore(s: Stream, t: Stream)
    requires Grown(s, t) && Stuck(t) && 0 <= s.send_flow.available
    ensures Stuck(s)
  {
  }

  /** One more turn, in which nothing is sent. */
  lemma Turn(q: seq<Key>, n: nat, a: Slab, b: Slab, c: Slab, r: seq<Key>)
    requires n < |q| && q[n..] <= r && PassedOver(q, n, a) && OnlyGrown(q[n..], a, b) && OthersGrown(b, c, r[0])
    requires forall i, j :: 0 <= i < j < |q| ==> q[i] != q[j]
    requires forall k: Key :: Live(a, k) ==> 0 <= a[k].value.send_flow.available
    ensures r[0] == q[n] && q[n + 1..] <= r[1..] && OnlyGrown(q[n + 1..], a, c)
    ensures Live(b, r[0]) && (Stuck(b[r[0]].value) ==> PassedOver(q, n + 1, a))
  {
    assert r[0] == r[..|q| - n][0] == q[n..][0] && GrownIn(a, b, q[n..][0]);
    if Stuck(b[r[0]].value) {
      StuckBefore(a[r[0]].value, b[r[0]].value);
    }
    hide Stuck, Grown;
    var rest := q[n + 1..];
    forall i | 0 <= i < |rest| ensures GrownIn(a, c, rest[i]) {
      var k := rest[i];
      assert k == q[n..][i + 1] && k != q[n] && GrownIn(a, b, q[n..][i + 1]);
      assert Live(b, k) && Live(c, k);
      GrownTwice(a[k].value, b[k].value, c[k].value);
    }
  }

  /** What a frame popped in one state may be, given that state, and what it leaves of its stream. */
  ghost predicate FrameAllowed(slab: Slab, flow: FlowControl, hs: seq<History>, max_len: nat, f: SentFrame,
                               slab1: Slab, flow1: FlowControl, hs1: seq<History>)
  {
    && Live(slab, f.key)
    && match f
       case SentOther(k, frame) =>
         && NextOther(slab[k].value, frame) && flow1 == flow && hs1 == hs
         && Leaves(slab, k, Delivered(slab[k].value), slab1)
       case SentData(k, payload, end_stream) =>
         && k < |hs| && Chunk(slab[k].value, payload, end_stream, max_len)
         && Leaves(slab, k, Chunked(slab[k].value, |payload|), slab1)
         && |payload| <= flow.window_size && flow1 == FlowControl(flow.window_size - |payload|, flow.available)
         && hs1 == hs[k := Sent(hs[k], payload, end_stream)]
         && (end_stream && !hs[k].dropped ==> hs1[k].sent == hs1[k].given)
  }

  /** The first frame of a stream that is not DATA; after all its frames the reset that was arranged. */
  predicate NextOther(s: Stream, frame: OutFrame) {
    if s.pending_send != [] then frame == s.pending_send[0] && !frame.Data?
    else s.state.IsScheduledReset() && frame == OutFrame.Reset(s.state.cause.reason)
  }

  /** The stream without that frame; RST_STREAM is its last. */
  function Delivered(s: Stream): Stream {
    if s.pending_send != [] then FirstSent(s) else s.(is_pending_send := false, state := Closed(Error(true)))
  }

  /** Stream `k` is now `t`, or gone if nothing holds on to that; no other stream has changed. */
  ghost predicate Leaves(a: Slab, k: Key, t: Stream, b: Slab) {
    k < |a| && b == a[k := if t.IsReleased() then None else Some(Unlinked(t))]
  }

  /** Why the first stream in the queue sends nothing. */
  predicate Stuck(s: Stream) {
    if s.pending_send == [] then !s.state.IsScheduledReset()
    else s.pending_send[0].Data? && (
           (s.state.IsScheduledReset() && s.state.cause.reason != NO_ERROR)
           || Blocked(s.pending_send[0], s.send_flow.available))
  }

  lemma AllowedMeans(slab: Slab, flow: FlowControl, hs: seq<History>, max_len: nat, f: SentFrame,
                     slab1: Slab, flow1: FlowControl, hs1: seq<History>)
    requires FrameAllowed(slab, flow, hs, max_len, f, slab1, flow1, hs1)
    ensures f.SentData? ==>
              && |f.payload| <= max_len && |f.payload| <= flow.window_size
              && flow1.window_size == flow.window_size - |f.payload| && f.key < |hs1|
              && (f.end_stream && !hs1[f.key].dropped ==> hs1[f.key].sent == hs1[f.key].given)
    ensures f.SentOther? ==> flow1.window_size == flow.window_size
  {
  }

  /**
    A DATA frame fits the window that its stream had, continues what was sent before, and if it ends
    the stream then nothing that was given is missing. Any other frame was the first of its stream,
    or is its reset.
   */
  ghost predicate FrameFits(slab: Slab, hs: seq<History>, f: SentFrame, hs1: seq<History>) {
    && Live(slab, f.key) && |hs| == |hs1|
    && match f
       case SentOther(k, frame) => frame.Reset? || NextOther(slab[k].value, frame)
       case SentData(k, payload, end_stream) =>
         && k < |hs|
         && |payload| <= AsSize(slab[k].value.send_flow.window_size)
         && hs1[k].sent == hs[k].sent + payload
         && (end_stream && !hs1[k].dropped ==> hs1[k].sent == hs1[k].given)
  }

  /** No frames have left the stream's queue, unless all were dropped. */
  predicate OnlyDropped(s: Stream, t: Stream) {
    t.state == s.state && (t.pending_send == s.pending_send || t.pending_send == [])
  }

  /** Nothing was sent meanwhile. */
  ghost predicate Unsent(a: Slab, ha: seq<History>, b: Slab, hb: seq<History>) {
    && |a| == |b| && |ha| == |hb|
    && (forall k: Key :: Live(b, k) ==> Live(a, k) && b[k].value.send_flow.window_size == a[k].value.send_flow.window_size)
    && (forall k: Key :: Live(b, k) && Live(a, k) ==> OnlyDropped(a[k].value, b[k].value))
    && (forall k :: 0 <= k < |ha| ==> hb[k].sent == ha[k].sent)
  }

  lemma UnsentSelf(slab: Slab, hs: seq<History>)
    ensures Unsent(slab, hs, slab, hs)
  {
  }

  lemma UnsentTwice(a: Slab, ha: seq<History>, b: Slab, hb: seq<History>, c: Slab, hc: seq<History>)
    requires Unsent(a, ha, b, hb) && Unsent(b, hb, c, hc)
    ensures Unsent(a, ha, c, hc)
  {
    assert forall k: Key :: Live(c, k) ==> Live(b, k);
  }

  lemma UnsentAt(a: Slab, hs: seq<History>, k: Key, b: Slab)
    requires Live(a, k) && |b| == |a| && b == a[k := b[k]]
    requires Live(b, k) ==> b[k].value.send_flow.window_size == a[k].value.send_flow.window_size
    requires Live(b, k) ==> OnlyDropped(a[k].value, b[k].value)
    ensures Unsent(a, hs, b, hs)
  {
  }

  lemma UnsentDropped(a: Slab, ha: seq<History>, k: Key, s: Stream, b: Slab, hb: seq<History>)
    requires Live(a, k) && k < |ha| && s == a[k].value
    requires AllGrown(a[k := Some(s.(is_pending_send := false))][k := Some(Unassigned(Cleared(s)))], b, {})
    requires hb == ha[k := ha[k].(dropped := true)]
    ensures Unsent(a, ha, b, hb)
  {
    var c := a[k := Some(s.(is_pending_send := false))][k := Some(Unassigned(Cleared(s)))];
    assert forall j: Key | Live(b, j) :: Live(c, j) && c[j].value.send_flow.window_size == a[j].value.send_flow.window_size
                                         && OnlyDropped(a[j].value, c[j].value);
  }

  lemma AllowedFits(a: Slab, ha: seq<History>, slab: Slab, flow: FlowControl, hs: seq<History>, max_len: nat, f: SentFrame,
                    slab1: Slab, flow1: FlowControl, hs1: seq<History>)
    requires Unsent(a, ha, slab, hs) && FrameAllowed(slab, flow, hs, max_len, f, slab1, flow1, hs1)
    ensures FrameFits(a, ha, f, hs1)
  {
  }

  lemma AllowedData(slab: Slab, flow: FlowControl, hs: seq<History>, max_len: nat, f: SentFrame,
                    slab1: Slab, flow1: FlowControl, hs1: seq<History>)
    requires f.SentData? && Live(slab, f.key) && f.key < |hs| && Chunk(slab[f.key].value, f.payload, f.end_stream, max_len)
    requires Leaves(slab, f.key, Chunked(slab[f.key].value, |f.payload|), slab1)
    requires |f.payload| <= flow.window_size && flow1 == FlowControl(flow.window_size - |f.payload|, flow.available)
    requires hs1 == hs[f.key := Sent(hs[f.key], f.payload, f.end_stream)]
    requires f.end_stream && !hs[f.key].dropped ==> hs1[f.key].sent == hs1[f.key].given
    ensures FrameAllowed(slab, flow, hs, max_len, f, slab1, flow1, hs1)
  {
  }

  lemma AllowedOther(slab: Slab, flow: FlowControl, hs: seq<History>, max_len: nat, f: SentFrame, slab1: Slab)
    requires f.SentOther? && Live(slab, f.key) && NextOther(slab[f.key].value, f.frame)
    requires Leaves(slab, f.key, Delivered(slab[f.key].value), slab1)
    ensures FrameAllowed(slab, flow, hs, max_len, f, slab1, flow, hs)
  {
  }

  lemma UnlinkedSends(s: Stream)
    ensures var t := Unlinked(s); t.send_flow == s.send_flow && t.state == s.state && t.pending_send == s.pending_send
  {
  }

  /** A stream that drops its data has fewer frames; capacity changes no frames. */
  lemma DroppedFrames(slab0: Slab, slab1: Slab, slab: Slab, k: Key, s: Stream)
    requires Live(slab0, k) && slab0[k].value == s && s.pending_send != [] && k < |slab1| && slab1 == slab0[k := slab1[k]]
    requires AllGrown(slab1[k := Some(Unassigned(Cleared(s)))], slab, {})
    ensures FrameCount(slab) < FrameCount(slab0)
  {
    var a := slab1[k := Some(Unassigned(Cleared(s)))];
    assert a == slab0[k := Some(Unassigned(Cleared(s)))];
    FrameCountUpdate(slab0, k, Some(Unassigned(Cleared(s))));
    forall j | 0 <= j < |a| ensures FramesAt(a, j) == FramesAt(slab, j) {
      assert Live(a, j) <==> Live(slab, j);
    }
    FrameCountSame(a, slab);
  }

  // ----- Facts about opening streams

  lemma OpenedMidway(slab: Slab, in_flight: InFlightData, slot: Option<Written>, hs: seq<History>, k: Key, s: Stream)
    requires Live(slab, k) && k < |hs| && StreamOk(s, RestOf(in_flight, slot, k), hs[k]) && s.is_pending_open
    requires slab[k].value == s.(is_pending_open := false, is_counted := true, is_pending_send := true)
    ensures Midway(slab, in_flight, slot, hs, k, 0)
  {
    hide DataLen, DataBytes, EosLast, HasEos, HasData, RestOf;
  }

  lemma NotYetSending(s: Stream, w: Option<Written>, h: History)
    requires StreamOk(s, w, h) && s.is_pending_open
    ensures !s.is_pending_send
  {
    hide Faithful;
  }

  lemma OpenedOk(s: Stream, t: Stream, w: Option<Written>, h: History)
    requires StreamOk(s, w, h) && s.is_pending_open
    requires Grown(s.(is_pending_open := false, is_counted := true, is_pending_send := true), t)
    requires Sane(t, w, 0) && Served(t) && Scheduled(t, w) && Faithful(t, w, h)
    ensures StreamOk(t, w, h) && t.is_pending_send && !t.is_pending_open
  {
    hide Faithful, DataLen;
  }

  // ----- Facts about window changes

  /** The id map: every stream that can still be found, once. */
  ghost predicate LinkedKeys(slab: Slab, ids: seq<Key>) {
    && (forall i :: 0 <= i < |ids| ==> Live(slab, ids[i]))
    && (forall k: Key {:trigger Live(slab, k)} :: Live(slab, k) ==> (slab[k].value.is_linked <==> k in ids))
    && (forall i, j :: 0 <= i < j < |ids| ==> ids[i] != ids[j])
  }

  predicate Skipped(s: Stream) {
    s.state.IsSendClosed() && s.buffered_send_data == 0
  }

  /** The change takes the window of a stream that may still send out of range. */
  predicate LeavesRange(s: Stream, delta: int) {
    !Skipped(s) && Checked(s.send_flow.window_size + delta).None?
  }

  function Shift(s: Stream, delta: int): int {
    if Skipped(s) then 0 else delta
  }

  /** The windows of the first `n` streams of `ids` that may still send have changed by `delta`. */
  ghost predicate Shifted(a: Slab, b: Slab, ids: seq<Key>, n: nat, delta: int)
  {
    && |a| == |b| && n <= |ids| && LinkedKeys(a, ids)
    && (forall k: Key {:trigger Live(b, k)} :: (Live(a, k) <==> Live(b, k)) && (Live(b, k) ==> SameButFlow(a[k].value, b[k].value)))
    && (forall i :: 0 <= i < |ids| ==> (
          Live(b, ids[i]) &&
          b[ids[i]].value.send_flow.window_size ==
          a[ids[i]].value.send_flow.window_size + if i < n then Shift(a[ids[i]].value, delta) else 0))
  }

  predicate SameButFlow(s: Stream, t: Stream) {
    s.state == t.state && s.buffered_send_data == t.buffered_send_data
  }

  lemma ShiftedNone(slab: Slab, ids: seq<Key>, delta: int)
    requires LinkedKeys(slab, ids)
    ensures Shifted(slab, slab, ids, 0, delta)
  {
  }

  lemma ShiftedLive(a: Slab, b: Slab, ids: seq<Key>, i: nat, delta: int)
    requires Shifted(a, b, ids, i, delta) && i < |ids|
    ensures Live(b, ids[i]) && Live(a, ids[i]) && SameButFlow(a[ids[i]].value, b[ids[i]].value)
    ensures b[ids[i]].value.send_flow.window_size == a[ids[i]].value.send_flow.window_size
  {
  }

  lemma ShiftedSkips(a: Slab, b: Slab, ids: seq<Key>, i: nat, delta: int)
    requires Shifted(a, b, ids, i, delta) && i < |ids| && Live(b, ids[i]) && Skipped(b[ids[i]].value)
    ensures Shifted(a, b, ids, i + 1, delta)
  {
  }

  /** What a smaller window leaves of a stream's capacity. */
  function Lower(s: Stream, dec: nat): Option<Stream>
    requires dec <= MAX_WINDOW_SIZE
  {
    var v := Checked(s.send_flow.window_size - dec);
    if v.None? then None
    else Some(s.(send_flow := FlowControl(v.value, Min(s.send_flow.available, AsSize(v.value)))))
  }

  lemma LowerOk(s: Stream, dec: nat, w: Option<Written>, h: History)
    requires StreamOk(s, w, h) && dec <= MAX_WINDOW_SIZE && s.send_flow.DecSendWindow(dec).Ok?
    ensures Lower(s, dec).Some? && StreamOk(Lower(s, dec).value, w, h) && 0 <= s.send_flow.available
    ensures var f := s.send_flow.DecSendWindow(dec).value;
            var t := s.(send_flow := f);
            && f.available == s.send_flow.available
            && (AsSize(f.available) > f.WindowSize() ==>
                  f.ClaimCapacity(AsSize(f.available) - f.WindowSize()).Ok?
                  && Lower(s, dec).value == t.(send_flow := f.ClaimCapacity(AsSize(f.available) - f.WindowSize()).value))
            && (AsSize(f.available) <= f.WindowSize() ==> Lower(s, dec).value == t)
  {
    hide Faithful, DataLen, Lower;
    LowerIs(s, dec);
    LowerFaithful(s, Lower(s, dec).value, w, h);
  }

  lemma LowerIs(s: Stream, dec: nat)
    requires dec <= MAX_WINDOW_SIZE && s.send_flow.DecSendWindow(dec).Ok? && 0 <= s.send_flow.available
    ensures Lower(s, dec).Some?
    ensures var f, t := s.send_flow.DecSendWindow(dec).value, Lower(s, dec).value;
            && f == s.send_flow.(window_size := f.window_size) && f.window_size == s.send_flow.window_size - dec
            && t == s.(send_flow := t.send_flow)
            && t.send_flow == f.(available := Min(f.available, AsSize(f.window_size)))
            && (AsSize(f.available) > f.WindowSize() ==>
                  f.ClaimCapacity(AsSize(f.available) - f.WindowSize()) == Ok(t.send_flow))
            && (AsSize(f.available) <= f.WindowSize() ==> t.send_flow == f)
  {
  }

  lemma LowerRefused(f: FlowControl, dec: nat)
    requires dec <= MAX_WINDOW_SIZE
    ensures f.DecSendWindow(dec).Err? <==> Checked(f.window_size - dec).None?
  {
  }

  lemma LowerAmount(s: Stream, dec: nat)
    requires dec <= MAX_WINDOW_SIZE && s.send_flow.DecSendWindow(dec).Ok? && 0 <= s.send_flow.available
    ensures Lower(s, dec).Some?
    ensures var f, t := s.send_flow.DecSendWindow(dec).value, Lower(s, dec).value;
            && t.send_flow.window_size == s.send_flow.window_size - dec && t == s.(send_flow := t.send_flow)
            && s.send_flow.available - t.send_flow.available ==
               (if AsSize(f.available) > f.WindowSize() then AsSize(f.available) - f.WindowSize() else 0)
  {
    LowerIs(s, dec);
  }

  lemma LowerFaithful(s: Stream, t: Stream, w: Option<Written>, h: History)
    requires Faithful(s, w, h) && t == s.(send_flow := t.send_flow)
    ensures Faithful(t, w, h)
  {
    hide EosLast, HasEos, HasData;
  }

  lemma ShiftedLowers(a: Slab, b: Slab, ids: seq<Key>, i: nat, dec: nat, t: Stream)
    requires Shifted(a, b, ids, i, -(dec as int)) && i < |ids| && Live(b, ids[i]) && !Skipped(b[ids[i]].value)
    requires t == b[ids[i]].value.(send_flow := t.send_flow)
    requires t.send_flow.window_size == b[ids[i]].value.send_flow.window_size - dec
    ensures Shifted(a, b[ids[i] := Some(t)], ids, i + 1, -(dec as int))
  {
    var b1 := b[ids[i] := Some(t)];
    forall k: Key | Live(b1, k) ensures Live(a, k) && SameButFlow(a[k].value, b1[k].value) {
      assert Live(b, k);
    }
    forall k: Key | Live(a, k) ensures Live(b1, k) {
      assert Live(b, k) <==> Live(a, k);
    }
  }

  lemma ShiftedGrows(a: Slab, b: Slab, c: Slab, ids: seq<Key>, delta: int)
    requires Shifted(a, b, ids, |ids|, delta) && AllGrown(b, c, {})
    ensures Shifted(a, c, ids, |ids|, delta)
  {
    forall k: Key | Live(c, k) ensures Live(a, k) && SameButFlow(a[k].value, c[k].value)
      && c[k].value.send_flow.window_size == b[k].value.send_flow.window_size
    {
      assert Live(b, k);
    }
    forall k: Key | Live(a, k) ensures Live(c, k) {
      assert Live(b, k) && Live(c, k);
    }
  }

  lemma ShiftedWidens(a: Slab, b: Slab, c: Slab, ids: seq<Key>, i: nat, inc: nat)
    requires Shifted(a, b, ids, i, inc) && i < |ids| && Live(b, ids[i]) && Live(c, ids[i]) && c == b[ids[i] := c[ids[i]]]
    requires var s, t := b[ids[i]].value, c[ids[i]].value;
             if Skipped(s) then t == s else s.send_flow.window_size + inc <= MAX_WINDOW_SIZE && Grown(Widened(s, inc), t)
    ensures Shifted(a, c, ids, i + 1, inc)
  {
    forall k: Key | Live(c, k) ensures Live(a, k) && SameButFlow(a[k].value, c[k].value) {
      assert Live(b, k);
    }
    forall k: Key | Live(a, k) ensures Live(c, k) {
      assert Live(b, k) <==> Live(a, k);
    }
  }

  // ----- What the invariant means

  /**
    No capacity lies idle: while the connection has some left, no open stream that is short of its
    request, or closed and short of its data, has room in its own window, as long as it never had
    more than 2^32 - 1 octets buffered.
   */
  lemma NothingIdle(p: Prioritizer, k: Key)
    requires p.Valid() && p.flow.available > 0 && Live(p.slab, k)
    ensures k < |p.hs| && (!p.hs[k].outgrown ==> !IsShort(p.slab[k].value))
  {
    p.Enter(k);
    hide Scheduled;
    assert k in p.pending_capacity <==> Member(NextSendCapacity, p.slab, k);
  }

  /** Exactly the closed streams whose request is used up before their data is are left without. */
  lemma IdleExactly(p: Prioritizer, k: Key)
    requires p.Valid() && p.flow.available > 0 && Live(p.slab, k)
    ensures var s := p.slab[k].value;
            IsShort(s) <==> !s.is_pending_open && s.send_flow.HasUnavailable() && !s.state.IsSendStreaming()
                            && s.send_flow.available == s.requested_send_capacity < s.buffered_send_data
  {
    p.Enter(k);
    hide Faithful, Scheduled;
    assert k in p.pending_capacity <==> Member(NextSendCapacity, p.slab, k);
  }

  /** No stream holds more than its own window, its request, or the connection's window allow. */
  lemma CapacityBounded(p: Prioritizer, k: Key)
    requires p.Valid() && Live(p.slab, k)
    ensures var s := p.slab[k].value;
            && 0 <= s.send_flow.available <= AsSize(s.send_flow.window_size)
            && s.send_flow.available <= s.requested_send_capacity
            && s.send_flow.available + p.flow.available <= p.flow.window_size
    ensures p.flow.window_size == p.flow.available + Assigned(p.slab) + p.leaked
  {
    p.Enter(k);
    hide Faithful, Scheduled, Served, QueueIs, CodecOk;
    WindowCovers(p.slab, p.in_flight_data_frame, p.Slot(), p.hs, p.flow, p.leaked, k);
  }

  /** Data is neither lost nor reordered: what went out, comes back and waits is what was given. */
  lemma DataInOrder(p: Prioritizer, k: Key)
    requires p.Valid() && Live(p.slab, k)
    ensures k < |p.hs|
    ensures !p.hs[k].dropped ==>
              p.hs[k].sent + RestBytes(p.Rest(k)) + DataBytes(p.slab[k].value.pending_send) == p.hs[k].given
    ensures p.hs[k].ended ==> !HasData(p.slab[k].value.pending_send) && p.Rest(k).None?
    ensures p.hs[k].ended && !p.hs[k].dropped ==> p.hs[k].sent == p.hs[k].given
    ensures EosLast(p.slab[k].value.pending_send) && (RestEos(p.Rest(k)) ==> !HasData(p.slab[k].value.pending_send))
    ensures p.slab[k].value.buffered_send_data ==
            DataLen(p.slab[k].value.pending_send) + |RestBytes(p.Rest(k))|
  {
    p.Enter(k);
    if p.hs[k].ended {
      NoData(p.slab[k].value.pending_send);
    }
    hide DataLen, DataBytes, QueueIs, AllOk, CodecOk, Accounted, RestOf, HasData, EosLast, HasEos;
  }

  /** Whatever can be sent is waited for, and no stream waits to be opened and to send at once. */
  lemma NothingForgotten(p: Prioritizer, k: Key)
    requires p.Valid() && Live(p.slab, k)
    ensures var s := p.slab[k].value;
            (s.pending_send != [] && !s.is_pending_open && p.Rest(k).None?
             && !Blocked(s.pending_send[0], s.send_flow.available)) ==> k in p.pending_send
    ensures !(k in p.pending_send && k in p.pending_open)
  {
    p.Enter(k);
    hide Faithful, Served, AllOk, CodecOk, Accounted, RestOf, DataLen;
    assert k in p.pending_send <==> Member(NextSend, p.slab, k);
    assert k in p.pending_open <==> Member(NextOpen, p.slab, k);
  }
}
