/**
  Flow control between two endpoints, section 6.9 of RFC 9113: one direction of a connection, its
  sender, its receiver, and the two channels between them, in which frames stay in order. An event
  is anything either endpoint may do next. The receiver computes with the windows of
  `ReceiveWindows`, the sender with those of `FlowControl`; which of its streams a sender serves,
  and how much it sends, is left open.
 */
module FlowProtocol {
  import opened Wrappers
  import opened FlowControl
  import opened ReceiveWindows

  const DEFAULT_INITIAL_WINDOW_SIZE: nat := 65535

  type Id = nat

  /** Frames from the sender to the receiver. */
  datatype Down = Headers(id: Id) | Data(id: Id, sz: nat) | Ack

  /** Frames from the receiver to the sender; a window update without a stream is for the connection. */
  datatype Up = Opening(id: Id) | WindowUpdate(who: Option<Id>, incr: nat) | Settings(init: Option<nat>)

  datatype SendSide = Sending(window: Window, is_open: bool) | Done

  /** `remote` holds settings that have been read but not yet acknowledged. */
  datatype Sender = Sender(window: Window, init: nat, streams: map<Id, SendSide>, remote: Option<Option<nat>>)

  /** A closed stream was reset here or is forgotten: its data only counts for the connection. */
  datatype RecvSide = Receiving(held: Held, is_recv: bool, streaming: bool) | Closed

  datatype Local = ToSend(init: Option<nat>) | WaitingAck(init: Option<nat>) | Synced

  datatype Receiver = Receiver(
    conn: Held, target: nat, largest: nat,
    init: nat, streams: map<Id, RecvSide>, local: Local)

  datatype Config = Config(sender_is_client: bool, snd: Sender, rcv: Receiver, down: seq<Down>, up: seq<Up>)

  /** Which side may open a stream follows from its identifier. */
  predicate SenderOpens(c: Config, id: Id) {
    (id % 2 == 1) == c.sender_is_client
  }

  /** Both sides start from the defaults; the first settings are on their way. */
  function Start(sender_is_client: bool, settings: Option<nat>): Config {
    Config(sender_is_client,
           Sender(DEFAULT_INITIAL_WINDOW_SIZE, DEFAULT_INITIAL_WINDOW_SIZE, map[], None),
           Receiver(NewHeld(DEFAULT_INITIAL_WINDOW_SIZE), DEFAULT_INITIAL_WINDOW_SIZE, DEFAULT_INITIAL_WINDOW_SIZE,
                    DEFAULT_INITIAL_WINDOW_SIZE, map[], WaitingAck(settings)),
           [], [Settings(settings)])
  }

  datatype Event =
    // of the sender
    | CreateStream(id: Id)
    | SendHeaders(id: Id)
    | SendData(id: Id, sz: nat)
    | FinishStream(id: Id)
    | ReadUp
    | AckSettings
    // of the receiver
    | OpenStream(id: Id)
    | SendOpening(id: Id)
    | ReadDown
    | ReleaseStream(id: Id, n: nat)
    | ReleaseConnection(n: nat)
    | StopReading(id: Id, n: nat)
    | CloseStream(id: Id)
    | SetTarget(target: nat)
    | UpdateConnection
    | UpdateStream(id: Id)
    | ChangeSettings(init: Option<nat>)
    | SendSettings

  datatype Failure =
    // the receiver finds more data than it allowed
    | FlowControlViolated
    // a window would exceed its range
    | WindowOverflow
    // a frame where it has no business
    | UnexpectedFrame

  /** An event cannot happen, or it brings the connection down, or it leads on. */
  datatype Outcome = Impossible | Failed(why: Failure) | Moved(c: Config)

  // ----- The sender

  function Create(c: Config, id: Id): Outcome {
    if id in c.snd.streams || !SenderOpens(c, id) || c.snd.init > MAX_WINDOW_SIZE then Impossible
    else Moved(c.(snd := c.snd.(streams := c.snd.streams[id := Sending(c.snd.init, false)])))
  }

  function DoSendHeaders(c: Config, id: Id): Outcome {
    if id !in c.snd.streams || !c.snd.streams[id].Sending? || c.snd.streams[id].is_open then Impossible
    else Moved(c.(snd := c.snd.(streams := c.snd.streams[id := c.snd.streams[id].(is_open := true)]),
                  down := c.down + [Headers(id)]))
  }

  /** DATA frames never exceed the window of the stream or that of the connection. */
  function DoSendData(c: Config, id: Id, sz: nat): Outcome {
    if id !in c.snd.streams || !c.snd.streams[id].Sending? || !c.snd.streams[id].is_open
       || sz > AsSize(c.snd.streams[id].window) || sz > AsSize(c.snd.window) then Impossible
    else
      var w, conn := DecreaseBy(c.snd.streams[id].window, sz), DecreaseBy(c.snd.window, sz);
      if w.Err? || conn.Err? then Failed(WindowOverflow)
      else Moved(c.(snd := c.snd.(window := conn.value, streams := c.snd.streams[id := Sending(w.value, true)]),
                    down := c.down + [Data(id, sz)]))
  }

  function Finish(c: Config, id: Id): Outcome {
    if id !in c.snd.streams then Impossible
    else Moved(c.(snd := c.snd.(streams := c.snd.streams[id := Done])))
  }

  /** The next frame from the receiver, unless settings wait to be acknowledged. */
  function DoReadUp(c: Config): Outcome {
    if c.snd.remote.Some? || c.up == [] then Impossible
    else
      var d := c.(up := c.up[1..]);
      match c.up[0]
      case Opening(id) => ReadOpening(d, id)
      case WindowUpdate(None, incr) => ReadConnectionUpdate(d, incr)
      case WindowUpdate(Some(id), incr) => ReadStreamUpdate(d, id, incr)
      case Settings(init) => Moved(d.(snd := d.snd.(remote := Some(init))))
  }

  function ReadOpening(c: Config, id: Id): Outcome {
    if id in c.snd.streams then Moved(c)
    else if SenderOpens(c, id) || c.snd.init > MAX_WINDOW_SIZE then Failed(UnexpectedFrame)
    else Moved(c.(snd := c.snd.(streams := c.snd.streams[id := Sending(c.snd.init, false)])))
  }

  function ReadConnectionUpdate(c: Config, incr: nat): Outcome {
    if incr == 0 || incr > MAX_WINDOW_SIZE then Failed(UnexpectedFrame)
    else
      var w := IncreaseBy(c.snd.window, incr);
      if w.Err? then Failed(WindowOverflow) else Moved(c.(snd := c.snd.(window := w.value)))
  }

  function ReadStreamUpdate(c: Config, id: Id, incr: nat): Outcome {
    if incr == 0 || incr > MAX_WINDOW_SIZE || id !in c.snd.streams then Failed(UnexpectedFrame)
    else if c.snd.streams[id].Done? then Moved(c)
    else
      var w := IncreaseBy(c.snd.streams[id].window, incr);
      if w.Err? then Failed(WindowOverflow)
      else Moved(c.(snd := c.snd.(streams := c.snd.streams[id := c.snd.streams[id].(window := w.value)])))
  }

  /** A window of the sender after the initial window changed. */
  function Adjusted(w: Window, was: nat, now: nat): Result<Window, Reason>
    requires was <= MAX_WINDOW_SIZE && now <= MAX_WINDOW_SIZE
  {
    if now < was then DecreaseBy(w, was - now) else IncreaseBy(w, now - was)
  }

  /** The acknowledgement goes out, then the settings apply. */
  function DoAckSettings(c: Config): Outcome {
    if c.snd.remote.None? then Impossible
    else
      var d := c.(snd := c.snd.(remote := None), down := c.down + [Ack]);
      var was, m := c.snd.init, c.snd.streams;
      if c.snd.remote.value.None? then Moved(d)
      else
        var now := c.snd.remote.value.value;
        if was > MAX_WINDOW_SIZE || now > MAX_WINDOW_SIZE then Failed(UnexpectedFrame)
        else if exists id :: id in m && m[id].Sending? && Adjusted(m[id].window, was, now).Err? then Failed(WindowOverflow)
        else Moved(d.(snd := d.snd.(init := now,
                                    streams := map id | id in m ::
                                      if m[id].Sending? then m[id].(window := Adjusted(m[id].window, was, now).value) else m[id])))
  }

  // ----- The receiver

  function Open(c: Config, id: Id): Outcome {
    if id in c.rcv.streams || SenderOpens(c, id) || c.rcv.init > MAX_WINDOW_SIZE then Impossible
    else Moved(c.(rcv := c.rcv.(streams := c.rcv.streams[id := Receiving(NewHeld(c.rcv.init), true, false)])))
  }

  function DoSendOpening(c: Config, id: Id): Outcome {
    if id !in c.rcv.streams then Impossible else Moved(c.(up := c.up + [Opening(id)]))
  }

  function DoReadDown(c: Config): Outcome {
    if c.down == [] then Impossible
    else
      var d := c.(down := c.down[1..]);
      match c.down[0]
      case Headers(id) => ReadHeaders(d, id)
      case Data(id, sz) => ReadData(d, id, sz)
      case Ack => ReadAck(d)
  }

  function ReadHeaders(c: Config, id: Id): Outcome {
    if id !in c.rcv.streams then
      if !SenderOpens(c, id) || c.rcv.init > MAX_WINDOW_SIZE then Failed(UnexpectedFrame)
      else Moved(c.(rcv := c.rcv.(streams := c.rcv.streams[id := Receiving(NewHeld(c.rcv.init), true, true)])))
    else if c.rcv.streams[id].Closed? then Moved(c)
    else Moved(c.(rcv := c.rcv.(streams := c.rcv.streams[id := c.rcv.streams[id].(streaming := true)])))
  }

  /** The checks on the two windows, first that of the connection. */
  function ReadData(c: Config, id: Id, sz: nat): Outcome {
    if sz > MAX_WINDOW_SIZE || id !in c.rcv.streams then Failed(UnexpectedFrame)
    else
      var s := c.rcv.streams[id];
      if s.Receiving? && !s.streaming then Failed(UnexpectedFrame)
      else
        var conn := Consume(c.rcv.conn, sz);
        if conn.Err? then Failed(FlowControlViolated)
        else if s.Closed? then GiveBack(c, conn.value, sz)
        else
          var held := Consume(s.held, sz);
          if held.Err? then Failed(FlowControlViolated)
          else if !s.is_recv then GiveBack(c, conn.value, sz)
          else Moved(c.(rcv := c.rcv.(conn := conn.value, streams := c.rcv.streams[id := s.(held := held.value)])))
  }

  function GiveBack(c: Config, conn: Held, sz: nat): Outcome {
    if sz <= conn.in_flight <= 0xffff_ffff then Moved(c.(rcv := c.rcv.(conn := Release(conn, sz))))
    else Failed(WindowOverflow)
  }

  function ReadAck(c: Config): Outcome {
    if !c.rcv.local.WaitingAck? then Failed(UnexpectedFrame)
    else
      var d := c.(rcv := c.rcv.(local := Synced));
      var was, m := c.rcv.init, c.rcv.streams;
      if c.rcv.local.init.None? then Moved(d)
      else
        var now := c.rcv.local.init.value;
        if was > MAX_WINDOW_SIZE || now > MAX_WINDOW_SIZE then Failed(UnexpectedFrame)
        else if exists id :: id in m && m[id].Receiving? && Resize(m[id].held, was, now).Err? then Failed(WindowOverflow)
        else Moved(d.(rcv := d.rcv.(init := now,
                                    streams := map id | id in m ::
                                      if m[id].Receiving? then m[id].(held := Resize(m[id].held, was, now).value) else m[id])))
  }

  /** The application releases octets of a stream. */
  function DoReleaseStream(c: Config, id: Id, n: nat): Outcome {
    if id !in c.rcv.streams || !c.rcv.streams[id].Receiving? || n > c.rcv.streams[id].held.in_flight
       || n > c.rcv.conn.in_flight || c.rcv.streams[id].held.in_flight > 0xffff_ffff || c.rcv.conn.in_flight > 0xffff_ffff
    then Impossible
    else
      var s := c.rcv.streams[id];
      Moved(c.(rcv := c.rcv.(conn := Release(c.rcv.conn, n), streams := c.rcv.streams[id := s.(held := Release(s.held, n))])))
  }

  /** Octets of streams that are closed or gone are released. */
  function DoReleaseConnection(c: Config, n: nat): Outcome {
    if n > c.rcv.conn.in_flight || c.rcv.conn.in_flight > 0xffff_ffff then Impossible
    else Moved(c.(rcv := c.rcv.(conn := Release(c.rcv.conn, n))))
  }

  /** Nobody reads the stream any more; `n` buffered octets go back to the connection. */
  function DoStopReading(c: Config, id: Id, n: nat): Outcome {
    if id !in c.rcv.streams || !c.rcv.streams[id].Receiving? || n > c.rcv.streams[id].held.in_flight
       || n > c.rcv.conn.in_flight || c.rcv.conn.in_flight > 0xffff_ffff
    then Impossible
    else
      var s := c.rcv.streams[id];
      Moved(c.(rcv := c.rcv.(conn := Release(c.rcv.conn, n),
                             streams := c.rcv.streams[id := s.(is_recv := false, held := s.held.(in_flight := s.held.in_flight - n))])))
  }

  function Close(c: Config, id: Id): Outcome {
    if id !in c.rcv.streams then Impossible
    else Moved(c.(rcv := c.rcv.(streams := c.rcv.streams[id := Closed])))
  }

  function DoSetTarget(c: Config, target: nat): Outcome {
    if target > MAX_WINDOW_SIZE then Impossible
    else if c.rcv.conn.in_flight > 0xffff_ffff || c.rcv.conn.flow.available + c.rcv.conn.in_flight < 0 then Failed(WindowOverflow)
    else
      var h := Retarget(c.rcv.conn, target);
      if h.Err? then Failed(WindowOverflow)
      else Moved(c.(rcv := c.rcv.(conn := h.value, target := target, largest := Max(c.rcv.largest, target))))
  }

  function DoUpdateConnection(c: Config): Outcome {
    var incr := c.rcv.conn.flow.UnclaimedCapacity();
    if incr.None? then Impossible
    else if incr.value > MAX_WINDOW_SIZE || Announce(c.rcv.conn, incr.value).Err? then Failed(WindowOverflow)
    else Moved(c.(rcv := c.rcv.(conn := Announce(c.rcv.conn, incr.value).value), up := c.up + [WindowUpdate(None, incr.value)]))
  }

  function DoUpdateStream(c: Config, id: Id): Outcome {
    if id !in c.rcv.streams || !c.rcv.streams[id].Receiving? || !c.rcv.streams[id].streaming then Impossible
    else
      var s := c.rcv.streams[id];
      var incr := s.held.flow.UnclaimedCapacity();
      if incr.None? then Impossible
      else if incr.value > MAX_WINDOW_SIZE || Announce(s.held, incr.value).Err? then Failed(WindowOverflow)
      else Moved(c.(rcv := c.rcv.(streams := c.rcv.streams[id := s.(held := Announce(s.held, incr.value).value)]),
                    up := c.up + [WindowUpdate(Some(id), incr.value)]))
  }

  /** One set of settings at a time. */
  function DoChangeSettings(c: Config, init: Option<nat>): Outcome {
    if !c.rcv.local.Synced? || (init.Some? && init.value > MAX_WINDOW_SIZE) then Impossible
    else Moved(c.(rcv := c.rcv.(local := ToSend(init))))
  }

  function DoSendSettings(c: Config): Outcome {
    if !c.rcv.local.ToSend? then Impossible
    else Moved(c.(rcv := c.rcv.(local := WaitingAck(c.rcv.local.init)), up := c.up + [Settings(c.rcv.local.init)]))
  }

  function Do(c: Config, e: Event): Outcome {
    match e
    case CreateStream(id) => Create(c, id)
    case SendHeaders(id) => DoSendHeaders(c, id)
    case SendData(id, sz) => DoSendData(c, id, sz)
    case FinishStream(id) => Finish(c, id)
    case ReadUp => DoReadUp(c)
    case AckSettings => DoAckSettings(c)
    case OpenStream(id) => Open(c, id)
    case SendOpening(id) => DoSendOpening(c, id)
    case ReadDown => DoReadDown(c)
    case ReleaseStream(id, n) => DoReleaseStream(c, id, n)
    case ReleaseConnection(n) => DoReleaseConnection(c, n)
    case StopReading(id, n) => DoStopReading(c, id, n)
    case CloseStream(id) => Close(c, id)
    case SetTarget(target) => DoSetTarget(c, target)
    case UpdateConnection => DoUpdateConnection(c)
    case UpdateStream(id) => DoUpdateStream(c, id)
    case ChangeSettings(init) => DoChangeSettings(c, init)
    case SendSettings => DoSendSettings(c)
  }

  /** All events of a run, in order. */
  function Run(c: Config, es: seq<Event>): Outcome
    decreases |es|
  {
    if es == [] then Moved(c)
    else
      var o := Do(c, es[0]);
      if o.Moved? then Run(o.c, es[1..]) else o
  }
}
