/**
  Nobody is ever refused: with both endpoints keeping to `FlowProtocol`, no run reaches a failure.
  The invariant says what the receiver's windows will be once it has read all that is under way.
 */
module FlowSafety {
  import opened Wrappers
  import opened FlowControl
  import opened ReceiveWindows
  import opened FlowProtocol

  // ----- Reading ahead

  /** A window as the receiver sees it, what settings will add to it, and whether data may arrive. */
  datatype View = View(w: int, delta: int, is_open: bool)

  /** `who` is a stream, or nothing for the connection. */
  predicate Counts(f: Down, who: Option<Id>) {
    f.Data? && (who.None? || who.value == f.id)
  }

  function After(v: View, f: Down, who: Option<Id>): View {
    match f
    case Data(id, sz) => if Counts(f, who) then v.(w := v.w - sz) else v
    case Ack => View(v.w + v.delta, 0, v.is_open)
    case Headers(id) => if who == Some(id) then v.(is_open := true) else v
  }

  predicate Accepts(v: View, f: Down, who: Option<Id>) {
    Counts(f, who) ==> v.is_open && (f.sz == 0 || f.sz <= v.w)
  }

  /** Every frame of `q` will be accepted. */
  predicate Fits(v: View, q: seq<Down>, who: Option<Id>)
    decreases |q|
  {
    q == [] || (Accepts(v, q[0], who) && Fits(After(v, q[0], who), q[1..], who))
  }

  function Final(v: View, q: seq<Down>, who: Option<Id>): View
    decreases |q|
  {
    if q == [] then v else Final(After(v, q[0], who), q[1..], who)
  }

  function Acks(q: seq<Down>): nat {
    if q == [] then 0 else (if q[0].Ack? then 1 else 0) + Acks(q[1..])
  }

  /** What updates under way will add to the sender's window. */
  function Granted(q: seq<Up>, who: Option<Id>): nat {
    if q == [] then 0
    else (if q[0].WindowUpdate? && q[0].who == who then q[0].incr else 0) + Granted(q[1..], who)
  }

  function SettingsIn(q: seq<Up>): nat {
    if q == [] then 0 else (if q[0].Settings? then 1 else 0) + SettingsIn(q[1..])
  }

  lemma {:induction false} DownAppend(v: View, q: seq<Down>, f: Down, who: Option<Id>)
    ensures Fits(v, q + [f], who) <==> Fits(v, q, who) && Accepts(Final(v, q, who), f, who)
    ensures Final(v, q + [f], who) == After(Final(v, q, who), f, who)
    ensures Acks(q + [f]) == Acks(q) + if f.Ack? then 1 else 0
    decreases |q|
  {
    if q == [] {
      assert [f][1..] == [];
      assert Final(After(v, f, who), [], who) == After(v, f, who);
    } else {
      assert (q + [f])[1..] == q[1..] + [f];
      DownAppend(After(v, q[0], who), q[1..], f, who);
    }
  }

  lemma {:induction false} UpAppend(q: seq<Up>, f: Up, who: Option<Id>)
    ensures Granted(q + [f], who) == Granted(q, who) + if f.WindowUpdate? && f.who == who then f.incr else 0
    ensures SettingsIn(q + [f]) == SettingsIn(q) + if f.Settings? then 1 else 0
  {
    if q == [] {
      assert [f][1..] == [];
    } else {
      assert (q + [f])[1..] == q[1..] + [f];
      UpAppend(q[1..], f, who);
    }
  }

  /** A larger window stays larger. */
  lemma {:induction false} Larger(v: View, u: View, q: seq<Down>, who: Option<Id>)
    requires v.w <= u.w && v.delta == u.delta && (v.is_open ==> u.is_open)
    ensures Fits(v, q, who) ==> Fits(u, q, who)
    ensures Final(u, q, who).w == Final(v, q, who).w + u.w - v.w
    ensures Final(v, q, who).is_open ==> Final(u, q, who).is_open
    decreases |q|
  {
    if q != [] {
      Larger(After(v, q[0], who), After(u, q[0], who), q[1..], who);
    }
  }

  /** Without an acknowledgement under way it does not matter what settings will add. */
  lemma {:induction false} Unacknowledged(v: View, q: seq<Down>, who: Option<Id>, d: int)
    requires Acks(q) == 0
    ensures Fits(v, q, who) ==> Fits(v.(delta := d), q, who)
    ensures Final(v.(delta := d), q, who) == Final(v, q, who).(delta := d)
    decreases |q|
  {
    if q != [] {
      Unacknowledged(After(v, q[0], who), q[1..], who, d);
    }
  }

  lemma {:induction false} FinalBounded(v: View, q: seq<Down>, who: Option<Id>)
    ensures Final(v, q, who).w <= v.w + if Acks(q) > 0 then v.delta else 0
    decreases |q|
  {
    if q != [] {
      FinalBounded(After(v, q[0], who), q[1..], who);
    }
  }

  // ----- The invariant

  function At<T>(m: map<Id, T>, id: Id): Option<T> {
    if id in m then Some(m[id]) else None
  }

  /** By how much the windows of the receiver change once the settings it sent are acknowledged. */
  function Delta(r: Receiver): int {
    if r.local.WaitingAck? && r.local.init.Some? then r.local.init.value - r.init else 0
  }

  function StreamView(rinit: nat, r: Option<RecvSide>, delta: int): View {
    if r.Some? && r.value.Receiving? then View(r.value.held.flow.window_size, delta, r.value.streaming)
    else View(rinit, delta, false)
  }

  /** The connection: what the receiver will be left with is what the sender counts on. */
  ghost predicate ConnectionSafe(c: Config) {
    var v := View(c.rcv.conn.flow.window_size, 0, true);
    && ConnectionOk(c.rcv.conn, c.rcv.target, c.rcv.largest)
    && 0 <= c.snd.window
    && Fits(v, c.down, None)
    && Final(v, c.down, None).w == c.snd.window + Granted(c.up, None)
  }

  /** The stream is read, or may yet be. */
  predicate IsRead(r: Option<RecvSide>) {
    r.Some? ==> r.value.Receiving? && r.value.is_recv
  }

  /** A stream, on either side possibly unknown: the receiver will be left with at least what the sender counts on, and with just that while the stream is read. */
  ghost predicate StreamSafe(sinit: nat, s: Option<SendSide>, rinit: nat, r: Option<RecvSide>, delta: int,
                             down: seq<Down>, up: seq<Up>, id: Id) {
    var v := StreamView(rinit, r, delta);
    var w := if s.Some? && s.value.Sending? then s.value.window else sinit;
    && (r.Some? && r.value.Receiving? ==> StreamWindowOk(r.value.held, rinit))
    && (r != Some(Closed) ==> Fits(v, down, Some(id)))
    && (r != Some(Closed) && s != Some(Done) ==> w + Granted(up, Some(id)) <= Final(v, down, Some(id)).w)
    && (IsRead(r) && s != Some(Done) ==> w + Granted(up, Some(id)) == Final(v, down, Some(id)).w)
    && (r != Some(Closed) && s.Some? && s.value.Sending? && s.value.is_open ==> Final(v, down, Some(id)).is_open)
    && (s.Some? && s.value.Sending? ==> w + Granted(up, Some(id)) <= sinit && sinit - MAX_WINDOW_SIZE <= w)
    && (s.None? ==> Granted(up, Some(id)) == 0)
  }

  ghost predicate StreamsSafe(c: Config) {
    forall id: Id :: StreamSafeIn(c, id)
  }

  ghost predicate StreamSafeIn(c: Config, id: Id) {
    StreamSafe(c.snd.init, At(c.snd.streams, id), c.rcv.init, At(c.rcv.streams, id), Delta(c.rcv), c.down, c.up, id)
  }

  /** The settings are in exactly one place, and the two sides differ by what an acknowledgement under way says. */
  ghost predicate SettingsSafe(c: Config) {
    && c.rcv.init <= MAX_WINDOW_SIZE && c.snd.init <= MAX_WINDOW_SIZE
    && SettingsIn(c.up) + (if c.snd.remote.Some? then 1 else 0) + Acks(c.down) == (if c.rcv.local.WaitingAck? then 1 else 0)
    && (c.snd.remote.Some? ==> c.rcv.local == WaitingAck(c.snd.remote.value))
    && (!c.rcv.local.Synced? && c.rcv.local.init.Some? ==> c.rcv.local.init.value <= MAX_WINDOW_SIZE)
    && c.snd.init == c.rcv.init + if Acks(c.down) > 0 then Delta(c.rcv) else 0
  }

  /** A stream is known where it has to be. */
  ghost predicate IdsSafe(c: Config) {
    && (forall id: Id :: id in c.rcv.streams && SenderOpens(c, id) ==> id in c.snd.streams)
    && (forall id: Id :: id in c.snd.streams && !SenderOpens(c, id) ==> id in c.rcv.streams)
    && (forall id: Id :: id in c.rcv.streams && c.rcv.streams[id].Receiving? && c.rcv.streams[id].streaming ==> id in c.snd.streams)
  }

  predicate UpSafe(c: Config, f: Up) {
    match f
    case Opening(id) => id in c.rcv.streams
    case WindowUpdate(who, incr) => 0 < incr <= MAX_WINDOW_SIZE && (who.Some? ==> who.value in c.snd.streams)
    case Settings(init) => c.rcv.local == WaitingAck(init)
  }

  predicate DownSafe(c: Config, f: Down) {
    match f
    case Headers(id) => id in c.snd.streams
    case Data(id, sz) => id in c.snd.streams && sz <= MAX_WINDOW_SIZE
    case Ack => true
  }

  ghost predicate FramesSafe(c: Config) {
    && (forall i :: 0 <= i < |c.up| ==> UpSafe(c, c.up[i]))
    && (forall i :: 0 <= i < |c.down| ==> DownSafe(c, c.down[i]))
  }

  ghost predicate Safe(c: Config) {
    ConnectionSafe(c) && StreamsSafe(c) && SettingsSafe(c) && IdsSafe(c) && FramesSafe(c)
  }

  ghost predicate Leads(o: Outcome) {
    !o.Failed? && (o.Moved? ==> Safe(o.c))
  }

  lemma StartSafe(sender_is_client: bool, settings: Option<nat>)
    requires settings.Some? ==> settings.value <= MAX_WINDOW_SIZE
    ensures Safe(Start(sender_is_client, settings))
  {
    var c := Start(sender_is_client, settings);
    assert c.up[1..] == [];
    assert SettingsIn(c.up) == 1 && forall who :: Granted(c.up, who) == 0;
    forall id: Id ensures StreamSafeIn(c, id) {
      assert Fits(StreamView(c.rcv.init, None, Delta(c.rcv)), c.down, Some(id));
    }
  }

  // ----- Steps that leave the windows alone

  /** Frames that do not concern a stream make no difference to it. */
  lemma OtherUps(c: Config, d: Config, id: Id)
    requires StreamSafeIn(c, id) && d.snd.init == c.snd.init && At(d.snd.streams, id) == At(c.snd.streams, id)
    requires d.rcv.init == c.rcv.init && At(d.rcv.streams, id) == At(c.rcv.streams, id) && d.rcv.local == c.rcv.local
    requires d.down == c.down && Granted(d.up, Some(id)) == Granted(c.up, Some(id))
    ensures StreamSafeIn(d, id)
  {
    hide Fits, Final, Granted, StreamWindowOk;
  }

  /** Frames stay in place when more streams are known. */
  lemma FramesKept(c: Config, d: Config)
    requires FramesSafe(c) && d.up == c.up && d.down == c.down && d.rcv.local == c.rcv.local
    requires c.snd.streams.Keys <= d.snd.streams.Keys && c.rcv.streams.Keys <= d.rcv.streams.Keys
    ensures FramesSafe(d)
  {
    forall i | 0 <= i < |d.up| ensures UpSafe(d, d.up[i]) {
      assert UpSafe(c, c.up[i]);
    }
    forall i | 0 <= i < |d.down| ensures DownSafe(d, d.down[i]) {
      assert DownSafe(c, c.down[i]);
    }
  }

  lemma CreateSafe(c: Config, id: Id)
    requires Safe(c)
    ensures Leads(Create(c, id))
  {
    var o := Create(c, id);
    if o.Moved? {
      hide Fits, Final, Granted, Acks, SettingsIn, ConnectionOk;
      FramesKept(c, o.c);
      forall j: Id ensures StreamSafeIn(o.c, j) {
        assert StreamSafeIn(c, j);
      }
    }
  }

  lemma FinishSafe(c: Config, id: Id)
    requires Safe(c)
    ensures Leads(Finish(c, id))
  {
    var o := Finish(c, id);
    if o.Moved? {
      hide Fits, Final, Granted, Acks, SettingsIn, ConnectionOk;
      FramesKept(c, o.c);
      forall j: Id ensures StreamSafeIn(o.c, j) {
        assert StreamSafeIn(c, j);
      }
    }
  }

  lemma OpenSafe(c: Config, id: Id)
    requires Safe(c)
    ensures Leads(Open(c, id))
  {
    var o := Open(c, id);
    if o.Moved? {
      hide Fits, Final, Granted, Acks, SettingsIn, ConnectionOk;
      FramesKept(c, o.c);
      forall j: Id ensures StreamSafeIn(o.c, j) {
        assert StreamSafeIn(c, j);
      }
    }
  }

  lemma CloseSafe(c: Config, id: Id)
    requires Safe(c)
    ensures Leads(Close(c, id))
  {
    var o := Close(c, id);
    if o.Moved? {
      hide Fits, Final, Granted, Acks, SettingsIn, ConnectionOk;
      FramesKept(c, o.c);
      forall j: Id ensures StreamSafeIn(o.c, j) {
        assert StreamSafeIn(c, j);
      }
    }
  }

  lemma ConnectionReleasesSafe(c: Config, n: nat)
    requires Safe(c)
    ensures Leads(DoReleaseConnection(c, n))
  {
    var o := DoReleaseConnection(c, n);
    if o.Moved? {
      ConnectionReleases(c.rcv.conn, n, c.rcv.target, c.rcv.largest);
      hide Fits, Final, Granted, Acks, SettingsIn, ConnectionOk, Release;
      FramesKept(c, o.c);
      forall j: Id ensures StreamSafeIn(o.c, j) {
        assert StreamSafeIn(c, j);
      }
    }
  }

  lemma StreamReleasesSafe(c: Config, id: Id, n: nat)
    requires Safe(c)
    ensures Leads(DoReleaseStream(c, id, n))
  {
    var o := DoReleaseStream(c, id, n);
    if o.Moved? {
      ConnectionReleases(c.rcv.conn, n, c.rcv.target, c.rcv.largest);
      assert StreamSafeIn(c, id);
      Detaches(c.rcv.streams[id].held, c.rcv.init);
      StreamReleases(c.rcv.streams[id].held, n);
      hide Fits, Final, Granted, Acks, SettingsIn, ConnectionOk, Release, StreamWindowOk;
      FramesKept(c, o.c);
      forall j: Id ensures StreamSafeIn(o.c, j) {
        assert StreamSafeIn(c, j);
      }
    }
  }

  lemma StopReadingSafe(c: Config, id: Id, n: nat)
    requires Safe(c)
    ensures Leads(DoStopReading(c, id, n))
  {
    var o := DoStopReading(c, id, n);
    if o.Moved? {
      ConnectionReleases(c.rcv.conn, n, c.rcv.target, c.rcv.largest);
      assert StreamSafeIn(c, id);
      Detaches(c.rcv.streams[id].held, c.rcv.init);
      StreamForgets(c.rcv.streams[id].held, n);
      hide Fits, Final, Granted, Acks, SettingsIn, ConnectionOk, Release, StreamWindowOk;
      FramesKept(c, o.c);
      forall j: Id ensures StreamSafeIn(o.c, j) {
        assert StreamSafeIn(c, j);
      }
    }
  }

  lemma SetTargetSafe(c: Config, target: nat)
    requires Safe(c)
    ensures Leads(DoSetTarget(c, target))
  {
    if target <= MAX_WINDOW_SIZE {
      var o := DoSetTarget(c, target);
      ConnectionRetargets(c.rcv.conn, target, c.rcv.target, c.rcv.largest);
      assert o.Moved?;
      hide Fits, Final, Granted, Acks, SettingsIn, ConnectionOk, Retarget;
      FramesKept(c, o.c);
      forall j: Id ensures StreamSafeIn(o.c, j) {
        assert StreamSafeIn(c, j);
      }
    }
  }

  lemma ChangeSettingsSafe(c: Config, init: Option<nat>)
    requires Safe(c)
    ensures Leads(DoChangeSettings(c, init))
  {
    var o := DoChangeSettings(c, init);
    if o.Moved? {
      var d := o.c;
      hide Fits, Final, Granted, SettingsIn, Acks, ConnectionOk;
      NoSettings(c);
      forall i | 0 <= i < |d.up| ensures UpSafe(d, d.up[i]) {
        assert UpSafe(c, c.up[i]);
      }
      forall i | 0 <= i < |d.down| ensures DownSafe(d, d.down[i]) {
        assert DownSafe(c, c.down[i]);
      }
      forall j: Id ensures StreamSafeIn(d, j) {
        assert StreamSafeIn(c, j);
      }
    }
  }

  /** Unless an acknowledgement is awaited, no settings are under way. */
  lemma NoSettings(c: Config)
    requires FramesSafe(c) && !c.rcv.local.WaitingAck?
    ensures forall i :: 0 <= i < |c.up| ==> !c.up[i].Settings?
  {
    forall i | 0 <= i < |c.up| ensures !c.up[i].Settings? {
      assert UpSafe(c, c.up[i]);
    }
  }

  // ----- Frames go out

  /** A frame to the receiver: what is under way before it stays as it was. */
  lemma DownPushed(c: Config, d: Config, f: Down)
    requires FramesSafe(c) && d.up == c.up && d.down == c.down + [f] && d.rcv.local == c.rcv.local && DownSafe(d, f)
    requires c.snd.streams.Keys <= d.snd.streams.Keys && c.rcv.streams.Keys <= d.rcv.streams.Keys
    ensures FramesSafe(d)
  {
    forall i | 0 <= i < |d.up| ensures UpSafe(d, d.up[i]) {
      assert UpSafe(c, c.up[i]);
    }
    forall i | 0 <= i < |d.down| ensures DownSafe(d, d.down[i]) {
      assert i < |c.down| ==> DownSafe(c, c.down[i]);
    }
  }

  lemma UpPushed(c: Config, d: Config, f: Up)
    requires FramesSafe(c) && d.down == c.down && d.up == c.up + [f] && UpSafe(d, f)
    requires d.rcv.local == c.rcv.local || !c.rcv.local.WaitingAck?
    requires c.snd.streams.Keys <= d.snd.streams.Keys && c.rcv.streams.Keys <= d.rcv.streams.Keys
    ensures FramesSafe(d)
  {
    if !c.rcv.local.WaitingAck? {
      NoSettings(c);
    }
    forall i | 0 <= i < |d.up| ensures UpSafe(d, d.up[i]) {
      assert i < |c.up| ==> UpSafe(c, c.up[i]);
    }
    forall i | 0 <= i < |d.down| ensures DownSafe(d, d.down[i]) {
      assert DownSafe(c, c.down[i]);
    }
  }

  lemma SendHeadersSafe(c: Config, id: Id)
    requires Safe(c)
    ensures Leads(DoSendHeaders(c, id))
  {
    var o := DoSendHeaders(c, id);
    if o.Moved? {
      var d, f := o.c, Headers(id);
      DownPushed(c, d, f);
      DownAppend(View(c.rcv.conn.flow.window_size, 0, true), c.down, f, None);
      hide Fits, Final, Granted, Acks, SettingsIn, ConnectionOk;
      forall j: Id ensures StreamSafeIn(d, j) {
        assert StreamSafeIn(c, j);
        DownAppend(StreamView(c.rcv.init, At(c.rcv.streams, j), Delta(c.rcv)), c.down, f, Some(j));
      }
    }
  }

  lemma SendDataSafe(c: Config, id: Id, sz: nat)
    requires Safe(c)
    ensures Leads(DoSendData(c, id, sz))
  {
    var o := DoSendData(c, id, sz);
    hide Fits, Final, Granted, Acks, SettingsIn, ConnectionOk;
    if !o.Impossible? {
      var f := Data(id, sz);
      assert StreamSafeIn(c, id);
      assert o.Moved?;
      var d := o.c;
      DownPushed(c, d, f);
      ConnectionOpen(c);
      DownAppend(View(c.rcv.conn.flow.window_size, 0, true), c.down, f, None);
      forall j: Id ensures StreamSafeIn(d, j) {
        assert StreamSafeIn(c, j);
        DownAppend(StreamView(c.rcv.init, At(c.rcv.streams, j), Delta(c.rcv)), c.down, f, Some(j));
      }
    }
  }

  /** The connection takes data at any time. */
  lemma ConnectionOpen(c: Config)
    ensures Final(View(c.rcv.conn.flow.window_size, 0, true), c.down, None).is_open
  {
    Larger(View(c.rcv.conn.flow.window_size, 0, true), View(c.rcv.conn.flow.window_size, 0, true), c.down, None);
    StaysOpen(View(c.rcv.conn.flow.window_size, 0, true), c.down, None);
  }

  lemma {:induction false} StaysOpen(v: View, q: seq<Down>, who: Option<Id>)
    requires v.is_open
    ensures Final(v, q, who).is_open
    decreases |q|
  {
    if q != [] {
      StaysOpen(After(v, q[0], who), q[1..], who);
    }
  }

  lemma SendOpeningSafe(c: Config, id: Id)
    requires Safe(c)
    ensures Leads(DoSendOpening(c, id))
  {
    var o := DoSendOpening(c, id);
    if o.Moved? {
      var f := Opening(id);
      UpPushed(c, o.c, f);
      UpAppend(c.up, f, None);
      hide Fits, Final, Granted, Acks, SettingsIn, ConnectionOk;
      forall j: Id ensures StreamSafeIn(o.c, j) {
        assert StreamSafeIn(c, j);
        UpAppend(c.up, f, Some(j));
      }
    }
  }

  lemma SendSettingsSafe(c: Config)
    requires Safe(c)
    ensures Leads(DoSendSettings(c))
  {
    var o := DoSendSettings(c);
    if o.Moved? {
      var d, f := o.c, Settings(c.rcv.local.init);
      UpPushed(c, d, f);
      UpAppend(c.up, f, None);
      hide Fits, Final, Granted, Acks, SettingsIn, ConnectionOk;
      assert Acks(c.down) == 0;
      forall j: Id ensures StreamSafeIn(d, j) {
        assert StreamSafeIn(c, j);
        UpAppend(c.up, f, Some(j));
        Unacknowledged(StreamView(c.rcv.init, At(c.rcv.streams, j), Delta(c.rcv)), c.down, Some(j), Delta(d.rcv));
      }
    }
  }

  lemma UpdateConnectionSafe(c: Config)
    requires Safe(c)
    ensures Leads(DoUpdateConnection(c))
  {
    if c.rcv.conn.flow.UnclaimedCapacity().Some? {
      var o := DoUpdateConnection(c);
      ConnectionAnnounces(c.rcv.conn, c.rcv.target, c.rcv.largest);
      assert o.Moved?;
      var d, f := o.c, WindowUpdate(None, c.rcv.conn.flow.UnclaimedCapacity().value);
      assert f.incr == d.rcv.conn.flow.window_size - c.rcv.conn.flow.window_size;
      UpPushed(c, d, f);
      UpAppend(c.up, f, None);
      Larger(View(c.rcv.conn.flow.window_size, 0, true), View(d.rcv.conn.flow.window_size, 0, true), c.down, None);
      hide Fits, Final, Granted, Acks, SettingsIn, ConnectionOk, Announce, StreamSafe, FlowControl.UnclaimedCapacity;
      forall j: Id ensures StreamSafeIn(d, j) {
        assert StreamSafeIn(c, j);
        UpAppend(c.up, f, Some(j));
        OtherUps(c, d, j);
      }
    }
  }

  lemma UpdateStreamSafe(c: Config, id: Id)
    requires Safe(c)
    ensures Leads(DoUpdateStream(c, id))
  {
    hide Fits, Final, Granted, Acks, SettingsIn, ConnectionOk, Announce, StreamWindowOk, FlowControl.UnclaimedCapacity;
    var o := DoUpdateStream(c, id);
    if !o.Impossible? {
      var s := c.rcv.streams[id];
      assert StreamSafeIn(c, id);
      Detaches(s.held, c.rcv.init);
      StreamAnnounces(s.held);
      assert o.Moved?;
      var d, f := o.c, WindowUpdate(Some(id), Lag(s.held));
      UpPushed(c, d, f);
      UpAppend(c.up, f, None);
      forall j: Id ensures StreamSafeIn(d, j) {
        assert StreamSafeIn(c, j);
        UpAppend(c.up, f, Some(j));
        if j == id {
          UpdatedStream(c, d, id);
        }
      }
    }
  }

  lemma UpdatedStream(c: Config, d: Config, id: Id)
    requires SettingsSafe(c) && StreamSafeIn(c, id) && At(c.rcv.streams, id).Some? && At(c.rcv.streams, id).value.Receiving?
    requires var s := c.rcv.streams[id];
             && DetachedWindowOk(s.held)
             && d == c.(rcv := c.rcv.(streams := c.rcv.streams[id := s.(held := s.held.(flow := s.held.flow.(window_size := s.held.flow.available)))]),
                        up := c.up + [WindowUpdate(Some(id), Lag(s.held))])
    requires StreamWindowOk(d.rcv.streams[id].held, d.rcv.init)
    requires id in c.snd.streams && Lag(c.rcv.streams[id].held) >= 0
    requires Granted(d.up, Some(id)) == Granted(c.up, Some(id)) + Lag(c.rcv.streams[id].held)
    ensures StreamSafeIn(d, id)
  {
    var v, u := StreamView(c.rcv.init, At(c.rcv.streams, id), Delta(c.rcv)), StreamView(d.rcv.init, At(d.rcv.streams, id), Delta(d.rcv));
    Larger(v, u, c.down, Some(id));
    FinalBounded(u, d.down, Some(id));
    hide Fits, Final, Granted, Acks, SettingsIn;
  }

  // ----- Frames come in

  /** The first frame to the receiver has been read. */
  lemma DownTaken(c: Config, d: Config)
    requires FramesSafe(c) && c.down != [] && d.down == c.down[1..] && d.up == c.up
    requires d.rcv.local == c.rcv.local || forall i :: 0 <= i < |c.up| ==> !c.up[i].Settings?
    requires c.snd.streams.Keys <= d.snd.streams.Keys && c.rcv.streams.Keys <= d.rcv.streams.Keys
    ensures FramesSafe(d)
  {
    forall i | 0 <= i < |d.up| ensures UpSafe(d, d.up[i]) {
      assert UpSafe(c, c.up[i]);
    }
    forall i | 0 <= i < |d.down| ensures DownSafe(d, d.down[i]) {
      assert DownSafe(c, c.down[i + 1]);
    }
  }

  lemma UpTaken(c: Config, d: Config)
    requires FramesSafe(c) && c.up != [] && d.up == c.up[1..] && d.down == c.down && d.rcv.local == c.rcv.local
    requires c.snd.streams.Keys <= d.snd.streams.Keys && c.rcv.streams.Keys <= d.rcv.streams.Keys
    ensures FramesSafe(d) && UpSafe(c, c.up[0])
  {
    assert UpSafe(c, c.up[0]);
    forall i | 0 <= i < |d.up| ensures UpSafe(d, d.up[i]) {
      assert UpSafe(c, c.up[i + 1]);
    }
    forall i | 0 <= i < |d.down| ensures DownSafe(d, d.down[i]) {
      assert DownSafe(c, c.down[i]);
    }
  }

  /** What one frame adds to the counts. */
  lemma UpFirst(q: seq<Up>, who: Option<Id>)
    requires q != []
    ensures Granted(q, who) == (if q[0].WindowUpdate? && q[0].who == who then q[0].incr else 0) + Granted(q[1..], who)
    ensures SettingsIn(q) == (if q[0].Settings? then 1 else 0) + SettingsIn(q[1..])
  {
  }

  lemma DownFirst(v: View, q: seq<Down>, who: Option<Id>)
    requires q != []
    ensures Fits(v, q, who) <==> Accepts(v, q[0], who) && Fits(After(v, q[0], who), q[1..], who)
    ensures Final(v, q, who) == Final(After(v, q[0], who), q[1..], who)
    ensures Acks(q) == (if q[0].Ack? then 1 else 0) + Acks(q[1..])
  {
  }

  lemma ReadUpSafe(c: Config)
    requires Safe(c)
    ensures Leads(DoReadUp(c))
  {
    if c.snd.remote.None? && c.up != [] {
      match c.up[0]
      case Opening(id) => ReadOpeningSafe(c, id);
      case WindowUpdate(None, incr) => ReadConnectionUpdateSafe(c, incr);
      case WindowUpdate(Some(id), incr) => ReadStreamUpdateSafe(c, id, incr);
      case Settings(init) => ReadSettingsSafe(c, init);
    }
  }

  lemma ReadOpeningSafe(c: Config, id: Id)
    requires Safe(c) && c.snd.remote.None? && c.up != [] && c.up[0] == Opening(id)
    ensures Leads(DoReadUp(c))
  {
    hide Fits, Final, Granted, Acks, SettingsIn, ConnectionOk, StreamWindowOk;
    var o := DoReadUp(c);
    assert UpSafe(c, c.up[0]);
    assert o.Moved?;
    UpTaken(c, o.c);
    UpFirst(c.up, None);
    forall j: Id ensures StreamSafeIn(o.c, j) {
      assert StreamSafeIn(c, j);
      UpFirst(c.up, Some(j));
    }
  }

  lemma ReadConnectionUpdateSafe(c: Config, incr: nat)
    requires Safe(c) && c.snd.remote.None? && c.up != [] && c.up[0] == WindowUpdate(None, incr)
    ensures Leads(DoReadUp(c))
  {
    hide Fits, Final, Granted, Acks, SettingsIn, StreamSafe;
    var o := DoReadUp(c);
    assert UpSafe(c, c.up[0]);
    UpFirst(c.up, None);
    FinalBounded(View(c.rcv.conn.flow.window_size, 0, true), c.down, None);
    assert o.Moved?;
    UpTaken(c, o.c);
    forall j: Id ensures StreamSafeIn(o.c, j) {
      assert StreamSafeIn(c, j);
      UpFirst(c.up, Some(j));
      OtherUps(c, o.c, j);
    }
  }

  lemma ReadStreamUpdateSafe(c: Config, id: Id, incr: nat)
    requires Safe(c) && c.snd.remote.None? && c.up != [] && c.up[0] == WindowUpdate(Some(id), incr)
    ensures Leads(DoReadUp(c))
  {
    hide Fits, Final, Granted, Acks, SettingsIn, StreamWindowOk, ConnectionOk;
    var o := DoReadUp(c);
    assert UpSafe(c, c.up[0]);
    UpFirst(c.up, None);
    assert StreamSafeIn(c, id);
    UpFirst(c.up, Some(id));
    assert o.Moved?;
    UpTaken(c, o.c);
    assert StreamSafeIn(o.c, id);
    hide StreamSafe;
    forall j: Id ensures StreamSafeIn(o.c, j) {
      assert StreamSafeIn(c, j);
      UpFirst(c.up, Some(j));
      if j != id {
        OtherUps(c, o.c, j);
      }
    }
  }

  lemma ReadSettingsSafe(c: Config, init: Option<nat>)
    requires Safe(c) && c.snd.remote.None? && c.up != [] && c.up[0] == Settings(init)
    ensures Leads(DoReadUp(c))
  {
    hide Fits, Final, Granted, Acks, SettingsIn, StreamSafe, ConnectionOk;
    var o := DoReadUp(c);
    UpTaken(c, o.c);
    UpFirst(c.up, None);
    forall j: Id ensures StreamSafeIn(o.c, j) {
      assert StreamSafeIn(c, j);
      UpFirst(c.up, Some(j));
      OtherUps(c, o.c, j);
    }
  }

  /** While settings are unacknowledged at the sender, none are acknowledged under way. */
  lemma {:induction false} AdjustedExactly(w: Window, was: nat, now: nat)
    requires was <= MAX_WINDOW_SIZE && now <= MAX_WINDOW_SIZE && was - MAX_WINDOW_SIZE <= w <= was
    ensures Adjusted(w, was, now) == Ok(w + now - was)
  {
  }

  lemma AckSettingsSafe(c: Config)
    requires Safe(c)
    ensures Leads(DoAckSettings(c))
  {
    hide Fits, Final, Granted, Acks, SettingsIn, StreamWindowOk, ConnectionOk, Adjusted;
    var o := DoAckSettings(c);
    if c.snd.remote.Some? {
      var was := c.snd.init;
      forall id | id in c.snd.streams && c.snd.streams[id].Sending? && c.snd.remote.value.Some?
        ensures Adjusted(c.snd.streams[id].window, was, c.snd.remote.value.value) ==
                Ok(c.snd.streams[id].window + c.snd.remote.value.value - was) {
        assert StreamSafeIn(c, id);
        AdjustedExactly(c.snd.streams[id].window, was, c.snd.remote.value.value);
      }
      assert o.Moved?;
      var d := o.c;
      DownPushed(c, d, Ack);
      var v := View(c.rcv.conn.flow.window_size, 0, true);
      DownAppend(v, c.down, Ack, None);
      Unacknowledged(v, c.down, None, 0);
      forall j: Id ensures StreamSafeIn(d, j) {
        AckedStream(c, d, j);
      }
    }
  }

  lemma AckedStream(c: Config, d: Config, id: Id)
    requires SettingsSafe(c) && StreamSafeIn(c, id) && c.snd.remote.Some?
    requires d.rcv == c.rcv && d.up == c.up && d.down == c.down + [Ack] && d.snd.init == c.snd.init + Delta(c.rcv)
    requires At(d.snd.streams, id) ==
             (var s := At(c.snd.streams, id);
              if s.Some? && s.value.Sending? && Checked(s.value.window + Delta(c.rcv)).Some?
              then Some(s.value.(window := s.value.window + Delta(c.rcv))) else s)
    requires d.snd.init <= MAX_WINDOW_SIZE
    ensures StreamSafeIn(d, id)
  {
    var v := StreamView(c.rcv.init, At(c.rcv.streams, id), Delta(c.rcv));
    DownAppend(v, c.down, Ack, Some(id));
    Unacknowledged(v, c.down, Some(id), v.delta);
    hide Fits, Final, Granted, Acks, SettingsIn, StreamWindowOk;
  }

  lemma ReadDownSafe(c: Config)
    requires Safe(c)
    ensures Leads(DoReadDown(c))
  {
    if c.down != [] {
      match c.down[0]
      case Headers(id) => ReadHeadersSafe(c, id);
      case Data(id, sz) => ReadDataSafe(c, id, sz);
      case Ack => ReadAckSafe(c);
    }
  }

  lemma ReadHeadersSafe(c: Config, id: Id)
    requires Safe(c) && c.down != [] && c.down[0] == Headers(id)
    ensures Leads(DoReadDown(c))
  {
    hide Fits, Final, Granted, Acks, SettingsIn, ConnectionOk, StreamSafe;
    var o := DoReadDown(c);
    assert DownSafe(c, c.down[0]);
    assert o.Moved?;
    DownTaken(c, o.c);
    DownFirst(View(c.rcv.conn.flow.window_size, 0, true), c.down, None);
    forall j: Id ensures StreamSafeIn(o.c, j) {
      assert StreamSafeIn(c, j);
      HeadersStream(c, o.c, id, j);
    }
  }

  lemma HeadersStream(c: Config, d: Config, id: Id, j: Id)
    requires StreamSafeIn(c, j) && c.down != [] && c.down[0] == Headers(id) && c.rcv.init <= MAX_WINDOW_SIZE
    requires d.snd == c.snd && d.up == c.up && d.down == c.down[1..] && d.rcv.init == c.rcv.init && d.rcv.local == c.rcv.local
    requires At(d.rcv.streams, j) ==
             (var r := At(c.rcv.streams, j);
              if j != id || r == Some(Closed) then r
              else if r.None? then Some(Receiving(NewHeld(c.rcv.init), true, true))
              else Some(r.value.(streaming := true)))
    ensures StreamSafeIn(d, j)
  {
    DownFirst(StreamView(c.rcv.init, At(c.rcv.streams, j), Delta(c.rcv)), c.down, Some(j));
    NewWindowOk(c.rcv.init);
    hide Fits, Final, Granted, Acks, SettingsIn, ConnectionOk, StreamWindowOk;
  }

  lemma ReadDataSafe(c: Config, id: Id, sz: nat)
    requires Safe(c) && c.down != [] && c.down[0] == Data(id, sz)
    ensures Leads(DoReadDown(c))
  {
    hide Fits, Final, Granted, Acks, SettingsIn, FlowControl.SendData;
    assert DownSafe(c, c.down[0]);
    DownFirst(View(c.rcv.conn.flow.window_size, 0, true), c.down, None);
    ConnectionConsumes(c.rcv.conn, sz, c.rcv.target, c.rcv.largest);
    var conn := Consume(c.rcv.conn, sz).value;
    ConnectionReleases(conn, sz, c.rcv.target, c.rcv.largest);
    assert StreamSafeIn(c, id);
    DownFirst(StreamView(c.rcv.init, At(c.rcv.streams, id), Delta(c.rcv)), c.down, Some(id));
    assert id in c.rcv.streams;
    if c.rcv.streams[id].Receiving? {
      StreamConsumes(c.rcv.streams[id].held, sz, c.rcv.init);
    }
    hide StreamWindowOk, Consume, Release;
    DataTaken(c, DoReadDown(c).c, id, sz);
  }

  /** Data has arrived: the window of the connection shrinks, and that of the stream at most as much. */
  lemma DataTaken(c: Config, d: Config, id: Id, sz: nat)
    requires Safe(c) && c.down != [] && c.down[0] == Data(id, sz) && id in c.rcv.streams
    requires d == c.(down := c.down[1..], rcv := c.rcv.(conn := d.rcv.conn, streams := d.rcv.streams))
    requires ConnectionOk(d.rcv.conn, d.rcv.target, d.rcv.largest)
    requires d.rcv.conn.flow.window_size == c.rcv.conn.flow.window_size - sz
    requires id in d.rcv.streams && d.rcv.streams == c.rcv.streams[id := d.rcv.streams[id]]
    requires var s, t := c.rcv.streams[id], d.rcv.streams[id];
             if s.Closed? then t.Closed?
             else t.Receiving? && t.streaming == s.streaming && StreamWindowOk(t.held, c.rcv.init)
                  && t.is_recv == s.is_recv
                  && t.held.flow.window_size == s.held.flow.window_size - if s.is_recv then sz else 0
    ensures Safe(d)
  {
    hide Fits, Final, Granted, Acks, SettingsIn, StreamWindowOk, ConnectionOk;
    DownTaken(c, d);
    DownFirst(View(c.rcv.conn.flow.window_size, 0, true), c.down, None);
    forall j: Id ensures StreamSafeIn(d, j) {
      assert StreamSafeIn(c, j);
      var v := StreamView(c.rcv.init, At(c.rcv.streams, j), Delta(c.rcv));
      DownFirst(v, c.down, Some(j));
      if j == id {
        Larger(v.(w := v.w - sz), StreamView(d.rcv.init, At(d.rcv.streams, j), Delta(d.rcv)), d.down, Some(j));
      }
    }
  }

  lemma {:induction false} NoneAmong(q: seq<Up>)
    requires SettingsIn(q) == 0
    ensures forall i :: 0 <= i < |q| ==> !q[i].Settings?
  {
    if q != [] {
      NoneAmong(q[1..]);
      assert forall i :: 0 < i < |q| ==> q[i] == q[1..][i - 1];
    }
  }

  lemma ReadAckSafe(c: Config)
    requires Safe(c) && c.down != [] && c.down[0] == Ack
    ensures Leads(DoReadDown(c))
  {
    hide Fits, Final, Granted, Acks, SettingsIn, StreamWindowOk, ConnectionOk, Resize;
    var o := DoReadDown(c);
    DownFirst(View(c.rcv.conn.flow.window_size, 0, true), c.down, None);
    assert c.rcv.local.WaitingAck? && SettingsIn(c.up) == 0;
    var m := c.rcv.streams;
    forall id | id in m && m[id].Receiving? && c.rcv.local.init.Some?
      ensures Resize(m[id].held, c.rcv.init, c.rcv.local.init.value).Ok? {
      assert StreamSafeIn(c, id);
      StreamResizes(m[id].held, c.rcv.init, c.rcv.local.init.value);
    }
    assert o.Moved?;
    NoneAmong(c.up);
    DownTaken(c, o.c);
    forall j: Id ensures StreamSafeIn(o.c, j) {
      assert StreamSafeIn(c, j);
      AckReadStream(c, o.c, j);
    }
  }

  lemma AckReadStream(c: Config, d: Config, id: Id)
    requires StreamSafeIn(c, id) && SettingsSafe(c) && c.down != [] && c.down[0] == Ack && c.rcv.local.WaitingAck?
    requires d.snd == c.snd && d.up == c.up && d.down == c.down[1..] && d.rcv.local == Synced
    requires d.rcv.init == if c.rcv.local.init.Some? then c.rcv.local.init.value else c.rcv.init
    requires At(d.rcv.streams, id) ==
             (var r := At(c.rcv.streams, id);
              if r.Some? && r.value.Receiving? && c.rcv.local.init.Some?
                 && Resize(r.value.held, c.rcv.init, c.rcv.local.init.value).Ok?
              then Some(r.value.(held := Resize(r.value.held, c.rcv.init, c.rcv.local.init.value).value)) else r)
    ensures StreamSafeIn(d, id)
  {
    if id in c.rcv.streams && c.rcv.streams[id].Receiving? && c.rcv.local.init.Some? {
      ResizedSide(c, id);
    }
    DownFirst(StreamView(c.rcv.init, At(c.rcv.streams, id), Delta(c.rcv)), c.down, Some(id));
    hide Fits, Final, Granted, Acks, SettingsIn, StreamWindowOk, Resize;
  }

  lemma ResizedSide(c: Config, id: Id)
    requires StreamSafeIn(c, id) && SettingsSafe(c)
    requires id in c.rcv.streams && c.rcv.streams[id].Receiving? && c.rcv.local.WaitingAck? && c.rcv.local.init.Some?
    ensures var h, r := c.rcv.streams[id].held, Resize(c.rcv.streams[id].held, c.rcv.init, c.rcv.local.init.value);
            && r.Ok? && StreamWindowOk(r.value, c.rcv.local.init.value)
            && r.value.flow.window_size == h.flow.window_size + Delta(c.rcv)
  {
    StreamResizes(c.rcv.streams[id].held, c.rcv.init, c.rcv.local.init.value);
  }

  // ----- Every run

  lemma DoSafe(c: Config, e: Event)
    requires Safe(c)
    ensures Leads(Do(c, e))
  {
    hide Leads, Safe, Create, DoSendHeaders, DoSendData, Finish, DoReadUp, DoAckSettings, Open, DoSendOpening, DoReadDown,
         DoReleaseStream, DoReleaseConnection, DoStopReading, Close, DoSetTarget, DoUpdateConnection, DoUpdateStream,
         DoChangeSettings, DoSendSettings;
    match e
    case CreateStream(id) => CreateSafe(c, id);
    case SendHeaders(id) => SendHeadersSafe(c, id);
    case SendData(id, sz) => SendDataSafe(c, id, sz);
    case FinishStream(id) => FinishSafe(c, id);
    case ReadUp => ReadUpSafe(c);
    case AckSettings => AckSettingsSafe(c);
    case OpenStream(id) => OpenSafe(c, id);
    case SendOpening(id) => SendOpeningSafe(c, id);
    case ReadDown => ReadDownSafe(c);
    case ReleaseStream(id, n) => StreamReleasesSafe(c, id, n);
    case ReleaseConnection(n) => ConnectionReleasesSafe(c, n);
    case StopReading(id, n) => StopReadingSafe(c, id, n);
    case CloseStream(id) => CloseSafe(c, id);
    case SetTarget(target) => SetTargetSafe(c, target);
    case UpdateConnection => UpdateConnectionSafe(c);
    case UpdateStream(id) => UpdateStreamSafe(c, id);
    case ChangeSettings(init) => ChangeSettingsSafe(c, init);
    case SendSettings => SendSettingsSafe(c);
  }

  lemma {:induction false} RunSafe(c: Config, es: seq<Event>)
    requires Safe(c)
    ensures Leads(Run(c, es))
    decreases |es|
  {
    if es != [] {
      DoSafe(c, es[0]);
      hide Do, Safe;
      if Do(c, es[0]).Moved? {
        RunSafe(Do(c, es[0]).c, es[1..]);
      }
    }
  }

  /**
    However the endpoints behave and however their frames interleave, the receiver never finds more
    data than it allowed, no window on either side overflows, and no frame comes where it must not.
   */
  lemma NoRunFails(sender_is_client: bool, settings: Option<nat>, es: seq<Event>)
    requires settings.Some? ==> settings.value <= MAX_WINDOW_SIZE
    ensures !Run(Start(sender_is_client, settings), es).Failed?
  {
    StartSafe(sender_is_client, settings);
    RunSafe(Start(sender_is_client, settings), es);
  }

  /** Octets of data that are under way. */
  function InTransit(q: seq<Down>): nat {
    if q == [] then 0 else (if q[0].Data? then q[0].sz else 0) + InTransit(q[1..])
  }

  lemma {:induction false} FinalConnection(v: View, q: seq<Down>)
    requires v.delta == 0
    ensures Final(v, q, None).w == v.w - InTransit(q)
    decreases |q|
  {
    if q != [] {
      FinalConnection(After(v, q[0], None), q[1..]);
    }
  }

  /**
    No credit is lost or made up: at every moment of every run the window the receiver has advertised
    is the sender's, together with the updates and the data under way.
   */
  lemma CreditConserved(sender_is_client: bool, settings: Option<nat>, es: seq<Event>, c: Config)
    requires settings.Some? ==> settings.value <= MAX_WINDOW_SIZE
    requires Run(Start(sender_is_client, settings), es) == Moved(c)
    ensures c.rcv.conn.flow.window_size == c.snd.window + Granted(c.up, None) + InTransit(c.down)
  {
    StartSafe(sender_is_client, settings);
    RunSafe(Start(sender_is_client, settings), es);
    FinalConnection(View(c.rcv.conn.flow.window_size, 0, true), c.down);
  }

  /** Octets of data for one stream that are under way. */
  function InTransitTo(q: seq<Down>, id: Id): nat {
    if q == [] then 0 else (if q[0].Data? && q[0].id == id then q[0].sz else 0) + InTransitTo(q[1..], id)
  }

  lemma {:induction false} FinalStream(v: View, q: seq<Down>, id: Id)
    ensures Final(v, q, Some(id)).w == v.w + (if Acks(q) > 0 then v.delta else 0) - InTransitTo(q, id)
    decreases |q|
  {
    if q != [] {
      FinalStream(After(v, q[0], Some(id)), q[1..], id);
    }
  }

  /**
    Nor for a stream: while it is open at both ends and read, its advertised window, with what an
    acknowledgement under way changes, is the sender's together with its updates and data under way.
   */
  lemma StreamCreditConserved(sender_is_client: bool, settings: Option<nat>, es: seq<Event>, c: Config, id: Id)
    requires settings.Some? ==> settings.value <= MAX_WINDOW_SIZE
    requires Run(Start(sender_is_client, settings), es) == Moved(c)
    requires id in c.rcv.streams && c.rcv.streams[id].Receiving? && c.rcv.streams[id].is_recv
    requires id in c.snd.streams && c.snd.streams[id].Sending?
    ensures c.rcv.streams[id].held.flow.window_size + (if Acks(c.down) > 0 then Delta(c.rcv) else 0) ==
            c.snd.streams[id].window + Granted(c.up, Some(id)) + InTransitTo(c.down, id)
  {
    StartSafe(sender_is_client, settings);
    RunSafe(Start(sender_is_client, settings), es);
    assert StreamSafeIn(c, id);
    FinalStream(StreamView(c.rcv.init, At(c.rcv.streams, id), Delta(c.rcv)), c.down, id);
  }
}
