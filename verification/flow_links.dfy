/**
  What ties the two ends of `FlowProtocol` to the classes: a DATA frame that a prioritizer takes off
  its queue is one that the sender there may send, and the verdict of a receiver on a DATA frame is
  the verdict there.
 */
module SenderLink {
  import opened Wrappers
  import opened FlowControl
  import opened SendStreams
  import opened Prioritize
  import FlowProtocol

  /** The sender of `c` has the windows of the connection and of stream `k`, which is called `id` there. */
  ghost predicate Mirrors(c: FlowProtocol.Config, slab: Slab, flow: FlowControl, k: Key, id: FlowProtocol.Id) {
    && Live(slab, k) && c.snd.window == flow.window_size
    && id in c.snd.streams && c.snd.streams[id] == FlowProtocol.Sending(slab[k].value.send_flow.window_size, true)
  }

  /** What `PopFrame` promises of a DATA frame is what the sender needs for sending it. */
  lemma PoppedIsSent(c: FlowProtocol.Config, slab: Slab, flow: FlowControl, hs: seq<History>, f: SentFrame, hs1: seq<History>,
                     id: FlowProtocol.Id)
    requires f.SentData? && FrameFits(slab, hs, f, hs1) && |f.payload| <= flow.window_size && |f.payload| <= MAX_WINDOW_SIZE
    requires Mirrors(c, slab, flow, f.key, id)
    ensures FlowProtocol.DoSendData(c, id, |f.payload|).Moved?
    ensures var d := FlowProtocol.DoSendData(c, id, |f.payload|).c;
            d.snd.window == flow.window_size - |f.payload| && d.down == c.down + [FlowProtocol.Data(id, |f.payload|)]
  {
  }

  /** One round of the loop: the two stay mirrors of each other. */
  lemma PopOneIsStep(c: FlowProtocol.Config, slab: Slab, flow: FlowControl, hs: seq<History>, max_len: nat, f: SentFrame,
                     slab1: Slab, flow1: FlowControl, hs1: seq<History>, id: FlowProtocol.Id)
    requires f.SentData? && FrameAllowed(slab, flow, hs, max_len, f, slab1, flow1, hs1) && |f.payload| <= MAX_WINDOW_SIZE
    requires Mirrors(c, slab, flow, f.key, id)
    ensures FlowProtocol.DoSendData(c, id, |f.payload|).Moved?
    ensures Live(slab1, f.key) ==> Mirrors(FlowProtocol.DoSendData(c, id, |f.payload|).c, slab1, flow1, f.key, id)
  {
    hide Stream.IsReleased;
  }
}

module ReceiverLink {
  import opened Bits
  import opened Wrappers
  import opened FlowControl
  import opened StreamState
  import opened ReceiveWindows
  import opened RecvStreams
  import opened Recv
  import FlowProtocol
  import FlowSafety

  /** The receiver of `c` has the connection's window and stream `s`, which is called `id` there. */
  ghost predicate Mirrors(c: FlowProtocol.Config, conn: Held, s: RecvStream, id: FlowProtocol.Id) {
    && c.rcv.conn == conn && id in c.rcv.streams
    && c.rcv.streams[id] == if s.state.IsLocalError() then FlowProtocol.Closed
                            else FlowProtocol.Receiving(s.held, s.is_recv, s.state.IsRecvStreaming())
  }

  predicate BreaksWindow(j: Outcome) {
    j == Refused(GoAway(FlowError)) || j == Refused(StreamReset(FlowError))
  }

  /**
    `RecvData` refuses for want of window exactly when reading the frame fails there; otherwise, if
    the frame is refused at all, it is for what it says about its length.
   */
  lemma SameVerdict(c: FlowProtocol.Config, conn: Held, s: RecvStream, id: FlowProtocol.Id, payload: Bytes, eos: bool,
                    target: nat, largest: nat, init: nat)
    requires c.down != [] && c.down[0] == FlowProtocol.Data(id, |payload|) && |payload| <= MAX_WINDOW_SIZE
    requires Mirrors(c, conn, s, id) && (s.state.IsLocalError() || s.state.IsRecvStreaming())
    requires ConnectionOk(conn, target, largest) && StreamOk(s, init) && s.is_linked
    ensures var j, o := Judge(conn, s, payload, 0, eos), FlowProtocol.DoReadDown(c);
            && (BreaksWindow(j) <==> o == FlowProtocol.Failed(FlowProtocol.FlowControlViolated))
            && (!BreaksWindow(j) ==> o.Moved?)
            && (j.Accepted? ==> Charged(conn, o.c.rcv.conn, |payload|, |payload|))
            && (j.Ignored? ==> Charged(conn, o.c.rcv.conn, |payload|, 0))
            && (j.Refused? && !BreaksWindow(j) ==> j == Refused(StreamReset(WireReason.ProtocolError)))
  {
    ConnectionConsumes(conn, |payload|, target, largest);
    StreamConsumes(s.held, |payload|, init);
    if |payload| <= conn.flow.window_size {
      ConnectionReleases(Consume(conn, |payload|).value, |payload|, target, largest);
    }
    hide Consume, Release, StreamWindowOk, ConnectionOk;
  }

  /** In every run, the receiver that a DATA frame reaches finds it within both windows. */
  lemma NeverTooMuch(sender_is_client: bool, settings: Option<nat>, es: seq<FlowProtocol.Event>, c: FlowProtocol.Config,
                     conn: Held, s: RecvStream, id: FlowProtocol.Id, payload: Bytes, eos: bool)
    requires settings.Some? ==> settings.value <= MAX_WINDOW_SIZE
    requires FlowProtocol.Run(FlowProtocol.Start(sender_is_client, settings), es) == FlowProtocol.Moved(c)
    requires c.down != [] && c.down[0] == FlowProtocol.Data(id, |payload|)
    requires Mirrors(c, conn, s, id) && (s.state.IsLocalError() || s.state.IsRecvStreaming())
    requires StreamOk(s, c.rcv.init) && s.is_linked
    ensures !BreaksWindow(Judge(conn, s, payload, 0, eos))
  {
    FlowSafety.StartSafe(sender_is_client, settings);
    FlowSafety.RunSafe(FlowProtocol.Start(sender_is_client, settings), es);
    assert FlowSafety.DownSafe(c, c.down[0]);
    FlowSafety.DoSafe(c, FlowProtocol.ReadDown);
    SameVerdict(c, conn, s, id, payload, eos, c.rcv.target, c.rcv.largest, c.rcv.init);
  }
}
