/**
  A window together with the octets received through it and not yet released. The receiving side
  keeps one for the connection and one for each stream (src/proto/streams/recv.rs). The functions
  compute as the source does, overflow checks included; the lemmas say that in the states a
  receiver reaches no check fires and nothing wraps.
 */
module ReceiveWindows {
  import opened Wrappers
  import opened FlowControl

  datatype Held = Held(flow: FlowControl, in_flight: nat)

  /** Octets arrive; refused when the window does not allow them. */
  function Consume(h: Held, sz: nat): Result<Held, Reason>
    requires sz <= MAX_WINDOW_SIZE
  {
    if h.flow.WindowSize() < sz then Err(FlowControlError)
    else
      var f :- h.flow.SendData(sz);
      Ok(Held(f, h.in_flight + sz))
  }

  /** Octets are released. That the window overflows goes unnoticed. */
  function Release(h: Held, n: nat): Held
    requires n <= h.in_flight <= 0xffff_ffff
  {
    var f := h.flow.AssignCapacity(n);
    Held(if f.Ok? then f.value else h.flow, h.in_flight - n)
  }

  /** The total wanted, released octets or not, becomes `target`. */
  function Retarget(h: Held, target: nat): Result<Held, Reason>
    requires target <= MAX_WINDOW_SIZE && h.in_flight <= 0xffff_ffff && h.flow.available + h.in_flight >= 0
  {
    var current :- IncreaseBy(h.flow.available, h.in_flight);
    var size := AsSize(current);
    var f :- if target > size then h.flow.AssignCapacity(target - size) else h.flow.ClaimCapacity(size - target);
    Ok(h.(flow := f))
  }

  /** A WINDOW_UPDATE by `incr` is on its way. */
  function Announce(h: Held, incr: nat): Result<Held, Reason>
    requires incr <= MAX_WINDOW_SIZE
  {
    var f :- h.flow.IncWindow(incr);
    Ok(h.(flow := f))
  }

  /** The peer acknowledged a new initial window. */
  function Resize(h: Held, was: nat, now: nat): Result<Held, Reason>
    requires was <= MAX_WINDOW_SIZE && now <= MAX_WINDOW_SIZE
  {
    if now < was then
      var f :- h.flow.DecRecvWindow(was - now);
      Ok(h.(flow := f))
    else if now > was then
      var f :- h.flow.IncWindow(now - was);
      var g :- f.AssignCapacity(now - was);
      Ok(h.(flow := g))
    else Ok(h)
  }

  function NewHeld(init: nat): Held
    requires init <= MAX_WINDOW_SIZE
  {
    Held(FlowControl(init, init), 0)
  }

  /** The octets by which the peer's window lags behind. */
  function Lag(h: Held): int {
    h.flow.available - h.flow.window_size
  }

  // ----- The connection

  /** What may be used and what is held add up to the target; the peer was never told of more than `largest`. */
  predicate ConnectionOk(h: Held, target: nat, largest: nat) {
    && 0 <= h.flow.window_size
    && h.flow.available + h.in_flight == target <= largest <= MAX_WINDOW_SIZE
    && h.in_flight + h.flow.window_size <= largest
  }

  /** Octets are refused exactly when they exceed the advertised window; otherwise they are accounted for. */
  lemma ConnectionConsumes(h: Held, sz: nat, target: nat, largest: nat)
    requires ConnectionOk(h, target, largest) && sz <= MAX_WINDOW_SIZE
    ensures Consume(h, sz).Ok? <==> sz <= h.flow.window_size
    ensures sz <= h.flow.window_size ==>
              && Consume(h, sz).value == Held(FlowControl(h.flow.window_size - sz, h.flow.available - sz), h.in_flight + sz)
              && ConnectionOk(Consume(h, sz).value, target, largest)
  {
  }

  lemma ConnectionReleases(h: Held, n: nat, target: nat, largest: nat)
    requires ConnectionOk(h, target, largest) && n <= h.in_flight
    ensures ConnectionOk(Release(h, n), target, largest)
    ensures Release(h, n) == Held(h.flow.(available := h.flow.available + n), h.in_flight - n)
  {
    ExactAssign(h.flow, n);
  }

  /** Any new target is taken, without an overflow or the assertion on a negative window. */
  lemma ConnectionRetargets(h: Held, next: nat, target: nat, largest: nat)
    requires ConnectionOk(h, target, largest) && next <= MAX_WINDOW_SIZE
    ensures Retarget(h, next) == Ok(h.(flow := h.flow.(available := next - h.in_flight)))
    ensures ConnectionOk(Retarget(h, next).value, next, Max(largest, next))
  {
    assert IncreaseBy(h.flow.available, h.in_flight) == Ok(target);
    if next > target {
      ExactAssign(h.flow, next - target);
    }
  }

  /** The update brings the peer's window up to what is available, and cannot overflow. */
  lemma ConnectionAnnounces(h: Held, target: nat, largest: nat)
    requires ConnectionOk(h, target, largest) && h.flow.UnclaimedCapacity().Some?
    ensures 0 < h.flow.UnclaimedCapacity().value <= MAX_WINDOW_SIZE
    ensures Announce(h, h.flow.UnclaimedCapacity().value) == Ok(h.(flow := h.flow.(window_size := h.flow.available)))
    ensures ConnectionOk(h.(flow := h.flow.(window_size := h.flow.available)), target, largest)
  {
  }

  // ----- A stream

  /** `init` is the initial window the peer is held to. */
  predicate StreamWindowOk(h: Held, init: nat) {
    && init <= MAX_WINDOW_SIZE
    && init - MAX_WINDOW_SIZE <= h.flow.window_size <= h.flow.available
    && h.flow.available + h.in_flight <= init
  }

  /** What is left of it once settings no longer reach the stream. */
  predicate DetachedWindowOk(h: Held) {
    && h.flow.window_size <= h.flow.available
    && h.flow.available + h.in_flight <= MAX_WINDOW_SIZE
    && Lag(h) + h.in_flight <= MAX_WINDOW_SIZE
  }

  lemma NewWindowOk(init: nat)
    requires init <= MAX_WINDOW_SIZE
    ensures StreamWindowOk(NewHeld(init), init)
  {
  }

  lemma Detaches(h: Held, init: nat)
    requires StreamWindowOk(h, init)
    ensures DetachedWindowOk(h)
  {
  }

  lemma StreamConsumes(h: Held, sz: nat, init: nat)
    requires StreamWindowOk(h, init) && sz <= MAX_WINDOW_SIZE
    ensures Consume(h, sz).Ok? <==> sz <= AsSize(h.flow.window_size)
    ensures sz <= AsSize(h.flow.window_size) ==>
              && (sz > 0 ==> Consume(h, sz).value.flow == FlowControl(h.flow.window_size - sz, h.flow.available - sz))
              && (sz == 0 ==> Consume(h, sz).value == h)
              && Consume(h, sz).value.in_flight == h.in_flight + sz
              && StreamWindowOk(Consume(h, sz).value, init)
  {
  }

  lemma StreamReleases(h: Held, n: nat)
    requires DetachedWindowOk(h) && n <= h.in_flight
    ensures Release(h, n) == Held(h.flow.(available := h.flow.available + n), h.in_flight - n)
    ensures DetachedWindowOk(Release(h, n))
    ensures forall init :: StreamWindowOk(h, init) ==> StreamWindowOk(Release(h, n), init)
  {
    ExactAssign(h.flow, n);
  }

  /** Octets that are given back to the connection only. */
  lemma StreamForgets(h: Held, n: nat)
    requires DetachedWindowOk(h) && n <= h.in_flight
    ensures DetachedWindowOk(h.(in_flight := h.in_flight - n))
    ensures forall init :: StreamWindowOk(h, init) ==> StreamWindowOk(h.(in_flight := h.in_flight - n), init)
  {
  }

  /** The subtraction in `unclaimed_capacity` does not overflow either. */
  lemma StreamAnnounces(h: Held)
    requires DetachedWindowOk(h) && h.flow.UnclaimedCapacity().Some?
    ensures 0 < h.flow.UnclaimedCapacity().value == Lag(h) <= MAX_WINDOW_SIZE
    ensures Announce(h, Lag(h)) == Ok(h.(flow := h.flow.(window_size := h.flow.available)))
    ensures DetachedWindowOk(h.(flow := h.flow.(window_size := h.flow.available)))
    ensures forall init :: StreamWindowOk(h, init) ==> StreamWindowOk(h.(flow := h.flow.(window_size := h.flow.available)), init)
  {
  }

  /** New settings, up or down, are applied exactly: neither overflow branch can be taken. */
  lemma StreamResizes(h: Held, was: nat, now: nat)
    requires StreamWindowOk(h, was) && now <= MAX_WINDOW_SIZE
    ensures Resize(h, was, now) ==
            Ok(h.(flow := FlowControl(h.flow.window_size + now - was, h.flow.available + now - was)))
    ensures StreamWindowOk(Resize(h, was, now).value, now)
  {
  }

  function Max(a: int, b: int): int { if a >= b then a else b }
}
