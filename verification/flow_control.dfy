/** Flow-control windows, section 6.9 of RFC 9113 (src/proto/streams/flow_control.rs). */
module FlowControl {
  import opened Wrappers

  const MAX_WINDOW_SIZE: int := 0x7fff_ffff
  const MIN_WINDOW: int := -0x8000_0000

  datatype Reason = FlowControlError

  /** A window that fits 32 signed bits. */
  type Window = w: int | MIN_WINDOW <= w <= MAX_WINDOW_SIZE witness 0

  /** `as i32` on an unsigned 32-bit number. */
  function AsI32(n: nat): int
    requires n <= 0xffff_ffff
  {
    if n <= MAX_WINDOW_SIZE then n else n - 0x1_0000_0000
  }

  function Checked(v: int): Option<Window> {
    if MIN_WINDOW <= v <= MAX_WINDOW_SIZE then Some(v) else None
  }

  /** A window as a size: nothing when it is negative. */
  function AsSize(w: Window): nat {
    if w < 0 then 0 else w
  }

  function DecreaseBy(w: Window, n: nat): Result<Window, Reason>
    requires n <= 0xffff_ffff
  {
    var v := Checked(w - AsI32(n));
    if v.Some? then Ok(v.value) else Err(FlowControlError)
  }

  function IncreaseBy(w: Window, n: nat): Result<Window, Reason>
    requires n <= 0xffff_ffff
  {
    var v := Checked(w + AsI32(n));
    if v.Some? then Ok(v.value) else Err(FlowControlError)
  }

  /** `window_size` is what the peer knows, `available` what the application may use. */
  datatype FlowControl = FlowControl(window_size: Window, available: Window) {
    function WindowSize(): nat {
      AsSize(window_size)
    }

    predicate HasUnavailable() {
      window_size >= 0 && window_size > available
    }

    function ClaimCapacity(capacity: nat): Result<FlowControl, Reason>
      requires capacity <= 0xffff_ffff
    {
      var v :- DecreaseBy(available, capacity);
      Ok(this.(available := v))
    }

    function AssignCapacity(capacity: nat): Result<FlowControl, Reason>
      requires capacity <= 0xffff_ffff
    {
      var v :- IncreaseBy(available, capacity);
      Ok(this.(available := v))
    }

    /** After a WINDOW_UPDATE. */
    function IncWindow(sz: nat): Result<FlowControl, Reason>
      requires sz <= 0xffff_ffff
    {
      var v :- IncreaseBy(window_size, sz);
      Ok(this.(window_size := v))
    }

    /** After the peer lowered the initial window. */
    function DecSendWindow(sz: nat): Result<FlowControl, Reason>
      requires sz <= 0xffff_ffff
    {
      var v :- DecreaseBy(window_size, sz);
      Ok(this.(window_size := v))
    }

    /** After the peer acknowledged a lower initial window. */
    function DecRecvWindow(sz: nat): Result<FlowControl, Reason>
      requires sz <= 0xffff_ffff
    {
      var v :- DecreaseBy(window_size, sz);
      var a :- DecreaseBy(available, sz);
      Ok(FlowControl(v, a))
    }

    /** Data has gone through; the caller makes sure the window allows it. */
    function SendData(sz: nat): Result<FlowControl, Reason>
      requires sz <= 0xffff_ffff && (sz > 0 ==> window_size >= AsI32(sz))
    {
      if sz > 0 then
        var v :- DecreaseBy(window_size, sz);
        var a :- DecreaseBy(available, sz);
        Ok(FlowControl(v, a))
      else Ok(this)
    }

    /** The WINDOW_UPDATE worth sending, if any: at least half of what the peer has left. */
    function UnclaimedCapacity(): Option<nat> {
      if window_size >= available then None
      else
        var unclaimed := available - window_size;
        var threshold := HalfTowardsZero(window_size);
        if unclaimed < threshold then None else Some(unclaimed)
    }
  }

  /** `/ 2` of the source, which truncates. */
  function HalfTowardsZero(w: int): int {
    if w >= 0 then w / 2 else -(-w / 2)
  }

  /** An update is due exactly when it makes up at least half of what the peer has left. */
  lemma UnclaimedExactly(f: FlowControl)
    ensures f.UnclaimedCapacity().Some? <==>
            f.available > f.window_size && 2 * (f.available - f.window_size) + 1 >= f.window_size
    ensures f.UnclaimedCapacity().Some? ==> f.UnclaimedCapacity().value == f.available - f.window_size
  {
  }

  /** The peer knows of more than two thirds of what is available. */
  predicate WellInformed(f: FlowControl) {
    f.window_size >= f.available || 3 * f.window_size > 2 * f.available
  }

  /** As long as no update is due, the peer is well informed; once it has none left, anything at all is due. */
  lemma NoneDue(f: FlowControl)
    requires f.UnclaimedCapacity().None?
    ensures WellInformed(f) && (f.window_size <= 0 ==> f.available <= 0)
  {
  }

  // ----- With sane arguments the arithmetic is exact

  lemma ExactClaim(f: FlowControl, n: nat)
    requires n <= f.available
    ensures f.ClaimCapacity(n) == Ok(f.(available := f.available - n))
  {
  }

  lemma ExactAssign(f: FlowControl, n: nat)
    requires n <= MAX_WINDOW_SIZE && f.available + n <= MAX_WINDOW_SIZE
    ensures f.AssignCapacity(n) == Ok(f.(available := f.available + n))
  {
  }

  /** A window update is refused exactly when the window would exceed 2^31 - 1. */
  lemma ExactInc(f: FlowControl, n: nat)
    requires n <= MAX_WINDOW_SIZE
    ensures f.IncWindow(n) ==
            if f.window_size + n <= MAX_WINDOW_SIZE then Ok(f.(window_size := f.window_size + n)) else Err(FlowControlError)
  {
  }

  lemma ExactSend(f: FlowControl, n: nat)
    requires n <= f.available <= f.window_size
    ensures f.SendData(n) == Ok(FlowControl(f.window_size - n, f.available - n))
  {
  }
}
