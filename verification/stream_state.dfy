/** The stream state machine, section 5.1 of RFC 9113 (src/proto/streams/state.rs). */
module StreamState {
  import opened Wrappers

  const NO_ERROR: nat := 0

  datatype Peer = AwaitingHeaders | Streaming

  /** Why a stream is closed. */
  datatype Cause =
    | EndStream
    | Error(local: bool)
    | ErrorAfterEndStream(local: bool)
    | ScheduledLibraryReset(reason: nat)

  datatype StateError = UnexpectedFrameType | ProtocolError

  datatype State =
    | Idle
    | ReservedLocal
    | ReservedRemote
    | Open(mine: Peer, theirs: Peer)
    | HalfClosedLocal(theirs: Peer)
    | HalfClosedRemote(mine: Peer)
    | Closed(cause: Cause)
  {
    /** HEADERS are sent. */
    function SendOpen(eos: bool): Result<State, StateError> {
      match this
      case Idle => Ok(if eos then HalfClosedLocal(AwaitingHeaders) else Open(Streaming, AwaitingHeaders))
      case Open(AwaitingHeaders, theirs) => Ok(if eos then HalfClosedLocal(theirs) else Open(Streaming, theirs))
      case HalfClosedRemote(AwaitingHeaders) => Ok(if eos then Closed(EndStream) else HalfClosedRemote(Streaming))
      case ReservedLocal => Ok(if eos then Closed(EndStream) else HalfClosedRemote(Streaming))
      case _ => Err(UnexpectedFrameType)
    }

    /** HEADERS are received; the flag says whether they open the stream. */
    function RecvOpen(eos: bool, informational: bool): Result<(State, bool), StateError> {
      match this
      case Idle =>
        Ok((if eos then HalfClosedRemote(AwaitingHeaders)
            else Open(AwaitingHeaders, if informational then AwaitingHeaders else Streaming), true))
      case ReservedRemote =>
        Ok((if eos then Closed(EndStream) else if informational then ReservedRemote else HalfClosedLocal(Streaming), true))
      case Open(mine, AwaitingHeaders) =>
        Ok((if eos then HalfClosedRemote(mine) else Open(mine, if informational then AwaitingHeaders else Streaming), false))
      case HalfClosedLocal(AwaitingHeaders) =>
        Ok((if eos then Closed(EndStream) else HalfClosedLocal(if informational then AwaitingHeaders else Streaming), false))
      case _ => Err(ProtocolError)
    }

    /** The last frame is received. */
    function RecvClose(): Result<State, StateError> {
      match this
      case Open(mine, _) => Ok(HalfClosedRemote(mine))
      case HalfClosedLocal(_) => Ok(Closed(EndStream))
      case _ => Err(ProtocolError)
    }

    /** RST_STREAM is received; `queued` says whether the stream still waits to send. */
    function RecvReset(queued: bool): State {
      if Closed? && !queued then this
      else Closed(if IsRecvEndStream() then ErrorAfterEndStream(false) else Error(false))
    }

    /** The connection fails. */
    function Failed(local: bool): State {
      if Closed? then this
      else Closed(if IsRecvEndStream() then ErrorAfterEndStream(local) else Error(local))
    }

    /** The last frame is queued for sending. */
    function SendClose(): State
      requires Open? || HalfClosedRemote?
    {
      if Open? then HalfClosedLocal(theirs) else Closed(EndStream)
    }

    predicate IsScheduledReset() {
      Closed? && cause.ScheduledLibraryReset?
    }

    predicate IsReset() {
      Closed? && !cause.EndStream?
    }

    predicate IsSendStreaming() {
      (Open? && mine.Streaming?) || (HalfClosedRemote? && mine.Streaming?)
    }

    predicate IsRecvHeaders() {
      Idle? || ReservedRemote? || (Open? && theirs.AwaitingHeaders?) || (HalfClosedLocal? && theirs.AwaitingHeaders?)
    }

    predicate IsRecvStreaming() {
      (Open? && theirs.Streaming?) || (HalfClosedLocal? && theirs.Streaming?)
    }

    predicate IsRecvEndStream() {
      HalfClosedRemote? || (Closed? && (cause.EndStream? || cause.ErrorAfterEndStream?))
    }

    predicate IsSendClosed() {
      Closed? || HalfClosedLocal? || ReservedRemote?
    }

    predicate IsLocalError() {
      Closed? && (cause.ScheduledLibraryReset? || ((cause.Error? || cause.ErrorAfterEndStream?) && cause.local))
    }
  }

  // ----- The two sides of a stream

  /** One direction: HEADERS have not gone yet, data may, nothing may. */
  datatype Side = NotYet | Active | Over

  function SideOf(p: Peer): Side {
    if p.Streaming? then Active else NotYet
  }

  function Sending(s: State): Side {
    match s
    case Idle | ReservedLocal => NotYet
    case Open(mine, _) => SideOf(mine)
    case HalfClosedRemote(mine) => SideOf(mine)
    case _ => Over
  }

  function Receiving(s: State): Side {
    match s
    case Idle | ReservedRemote => NotYet
    case Open(_, theirs) => SideOf(theirs)
    case HalfClosedLocal(theirs) => SideOf(theirs)
    case _ => Over
  }

  /** HEADERS can be sent once, as the first frame, and make no difference to the other side. */
  lemma SendOpenSides(s: State, eos: bool)
    ensures s.SendOpen(eos).Ok? <==> Sending(s).NotYet?
    ensures s.SendOpen(eos).Ok? ==>
              Sending(s.SendOpen(eos).value) == (if eos then Over else Active) && Receiving(s.SendOpen(eos).value) == Receiving(s)
  {
  }

  /** They can be received once, apart from informational ones. */
  lemma RecvOpenSides(s: State, eos: bool, informational: bool)
    ensures s.RecvOpen(eos, informational).Ok? <==> Receiving(s).NotYet?
    ensures s.RecvOpen(eos, informational).Ok? ==>
              var (t, initial) := s.RecvOpen(eos, informational).value;
              && Receiving(t) == (if eos then Over else if informational then NotYet else Active)
              && Sending(t) == Sending(s)
              && (initial <==> s.Idle? || s.ReservedRemote?)
  {
  }

  /** The end of one direction leaves the other. */
  lemma CloseSides(s: State)
    ensures s.RecvClose().Ok? ==> Receiving(s.RecvClose().value) == Over && Sending(s.RecvClose().value) == Sending(s)
    ensures s.RecvClose().Ok? <==> !Receiving(s).Over? && !s.Idle? && !s.ReservedRemote?
    ensures s.Open? || s.HalfClosedRemote? ==> Sending(s.SendClose()) == Over && Receiving(s.SendClose()) == Receiving(s)
  {
  }

  /** What the questions asked of a state mean. */
  lemma SidesMean(s: State)
    ensures s.IsSendStreaming() <==> Sending(s).Active?
    ensures s.IsSendClosed() <==> Sending(s).Over?
    ensures s.IsRecvStreaming() <==> Receiving(s).Active?
    ensures s.IsRecvHeaders() <==> Receiving(s).NotYet?
    ensures s.IsRecvEndStream() ==> Receiving(s).Over?
  {
  }

  /** Failures end both directions, and it is not forgotten whether the peer had finished. */
  lemma FailuresRemember(s: State, queued: bool, local: bool)
    ensures s.RecvReset(queued).Closed? && (s.RecvReset(queued).IsRecvEndStream() <==> s.IsRecvEndStream())
    ensures s.Failed(local).Closed? && (s.Failed(local).IsRecvEndStream() <==> s.IsRecvEndStream())
    ensures !s.Closed? ==> s.RecvReset(queued).IsReset() && !s.RecvReset(queued).IsLocalError()
                           && (s.Failed(local).IsLocalError() <==> local)
  {
  }
}
