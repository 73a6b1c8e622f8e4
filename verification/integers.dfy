/**
  Prefix integers, section 5.1 of RFC 7541.
  The encoder is src/hpack/encoder.rs, the decoder src/hpack/decoder.rs.
 */
module Integers {
  import opened Bits
  import opened Wrappers

  /** A decoder stops after this many octets, prefix included. */
  const MAX_BYTES: nat := 5

  /** What fits in the four octets after the prefix: 2^28. */
  const VARINT_LIMIT: nat := 0x1000_0000

  /** `base` leaves the low `prefix` bits of the first octet free. */
  predicate ValidPrefix(prefix: int, base: Byte) {
    1 <= prefix <= 8 && LowBits(base, prefix) == 0 && base + Pow2(prefix) <= 256
  }

  /** Groups of seven bits, least significant first, with a continuation flag. */
  function Varint(v: nat): (bs: Bytes)
    ensures |bs| > 0
  {
    if v < 128 then [v] else [128 + v % 128] + Varint(v / 128)
  }

  function EncodedInt(value: nat, prefix: nat, base: Byte): (bs: Bytes)
    requires ValidPrefix(prefix, base)
    ensures |bs| > 0
  {
    var low := Pow2(prefix) - 1;
    if value < low then [base + value] else [base + low] + Varint(value - low)
  }

  /** The loop of the encoder, appending to `dst`. */
  method EncodeInt(value: nat, prefix: nat, base: Byte, dst: Bytes) returns (out: Bytes)
    requires ValidPrefix(prefix, base)
    ensures out == dst + EncodedInt(value, prefix, base)
  {
    hide Pow2, Varint, LowBits;
    var low := Pow2(prefix) - 1;
    var head: Bytes := [base + if value < low then value else low];
    out := dst + head;
    if value >= low {
      out := EncodeVarint(value - low, out);
      assert dst + head + Varint(value - low) == dst + (head + Varint(value - low));
    }
  }

  method EncodeVarint(v: nat, dst: Bytes) returns (out: Bytes)
    ensures out == dst + Varint(v)
  {
    out := dst;
    var rest := v;
    ghost var done := [];
    while rest >= 128
      invariant out == dst + done && done + Varint(rest) == Varint(v)
    {
      out := out + [128 + rest % 128];
      done := done + [128 + rest % 128];
      rest := rest / 128;
    }
    out := out + [rest];
  }

  /** `n << shift`. */
  function Shifted(n: nat, shift: nat): nat {
    n * Pow2(shift)
  }

  /** Value and end position of the varint at `pos`; `count` octets were read before it. */
  function ReadVarint(src: Bytes, pos: nat, acc: nat, shift: nat, count: nat): (r: Result<(nat, nat), DecoderError>)
    requires pos <= |src|
    requires count < MAX_BYTES
    ensures r.Ok? ==> pos < r.value.1 <= |src|
    decreases |src| - pos
  {
    if pos == |src| then Err(NeedMore(IntegerUnderflow))
    else
      var b := src[pos];
      var sum := acc + Shifted(b % 128, shift);
      if b < 128 then Ok((sum, pos + 1))
      else if count + 1 == MAX_BYTES then Err(IntegerOverflow)
      else ReadVarint(src, pos + 1, sum, shift + 7, count + 1)
  }

  /** Value and end position of the integer whose first octet is at `pos`. */
  function ReadInt(src: Bytes, pos: nat, prefix: nat): (r: Result<(nat, nat), DecoderError>)
    requires pos <= |src|
    ensures r.Ok? ==> pos < r.value.1 <= |src|
  {
    if prefix < 1 || prefix > 8 then Err(InvalidIntegerPrefix)
    else if pos == |src| then Err(NeedMore(IntegerUnderflow))
    else ReadRest(src, pos + 1, LowBits(src[pos], prefix), Pow2(prefix) - 1)
  }

  /** `first` is the prefix of the integer and `full` the prefix whose bits are all set. */
  function ReadRest(src: Bytes, pos: nat, first: nat, full: nat): (r: Result<(nat, nat), DecoderError>)
    requires pos <= |src|
    ensures r.Ok? ==> pos <= r.value.1 <= |src|
  {
    if first < full then Ok((first, pos)) else ReadVarint(src, pos, first, 0, 1)
  }

  method DecodeInt(src: Bytes, pos: nat, prefix: nat) returns (r: Result<(nat, nat), DecoderError>)
    requires pos <= |src|
    ensures r == ReadInt(src, pos, prefix)
  {
    if prefix < 1 || prefix > 8 {
      return Err(InvalidIntegerPrefix);
    }
    if pos == |src| {
      return Err(NeedMore(IntegerUnderflow));
    }
    var full := Pow2(prefix) - 1;
    var ret: nat := LowBits(src[pos], prefix);
    if ret < full {
      return Ok((ret, pos + 1));
    }
    var count, shift, at := 1, 0, pos + 1;
    while at < |src|
      invariant at <= |src| && count < MAX_BYTES
      invariant ReadInt(src, pos, prefix) == ReadVarint(src, at, ret, shift, count)
    {
      var b := src[at];
      at := at + 1;
      count := count + 1;
      ret := ret + Shifted(b % 128, shift);
      shift := shift + 7;
      if b < 128 {
        return Ok((ret, at));
      }
      if count == MAX_BYTES {
        return Err(IntegerOverflow);
      }
    }
    return Err(NeedMore(IntegerUnderflow));
  }

  lemma SevenBitLimits(left: nat)
    ensures Pow2(7 * (left + 1)) == 128 * Pow2(7 * left) && Pow2(0) == 1
  {
    Pow2Table();
    Pow2Adds(7 * left, 7);
  }

  lemma FourSevens()
    ensures Pow2(7 * 4) == VARINT_LIMIT
  {
    SevenBitLimits(0);
    SevenBitLimits(1);
    SevenBitLimits(2);
    SevenBitLimits(3);
  }

  lemma ShiftedSum(v: nat, shift: nat)
    ensures Shifted(v % 128, shift) + Shifted(v / 128, shift + 7) == Shifted(v, shift)
    ensures Shifted(v, 0) == v
    ensures v < 128 ==> Shifted(v % 128, shift) == Shifted(v, shift)
  {
    Pow2Adds(shift, 7);
    Pow2Table();
    WeightedSum(v % 128, v / 128, Pow2(shift));
  }

  lemma WeightedSum(lo: int, hi: int, weight: int)
    ensures lo * weight + hi * (weight * 128) == (lo + 128 * hi) * weight
  {
  }

  /** Reading what `Varint` wrote: the value, if it took no more octets than are left. */
  lemma {:induction false} VarintInverse(src: Bytes, pos: nat, v: nat, acc: nat, shift: nat, count: nat)
    requires count < MAX_BYTES
    requires pos <= |src| && At(src, pos, Varint(v))
    ensures ReadVarint(src, pos, acc, shift, count) ==
            if v < Pow2(7 * (MAX_BYTES - count)) then Ok((acc + Shifted(v, shift), pos + |Varint(v)|))
            else Err(IntegerOverflow)
    decreases v
  {
    hide Varint, Shifted, Pow2, At;
    VarintHead(src, pos, v);
    VarintFits(v, MAX_BYTES - count - 1);
    ShiftedSum(v, shift);
    if v >= 128 && count + 1 < MAX_BYTES {
      VarintInverse(src, pos + 1, v / 128, acc + Shifted(v % 128, shift), shift + 7, count + 1);
    }
  }

  lemma VarintFits(v: nat, left: nat)
    ensures v < Pow2(7 * (left + 1)) <==> v / 128 < Pow2(7 * left)
    ensures v < 128 ==> v < Pow2(7 * (left + 1))
    ensures v < Pow2(7 * (0 + 1)) <==> v < 128
  {
    SevenBitLimits(left);
    SevenBitLimits(0);
  }

  lemma VarintHead(src: Bytes, pos: nat, v: nat)
    requires At(src, pos, Varint(v))
    ensures pos < |src|
    ensures v < 128 ==> src[pos] == v && |Varint(v)| == 1
    ensures v >= 128 ==> src[pos] == 128 + v % 128 && At(src, pos + 1, Varint(v / 128))
    ensures v >= 128 ==> |Varint(v)| == 1 + |Varint(v / 128)|
  {
    if v < 128 {
      AtOne(src, pos, v);
    } else {
      AtConcat(src, pos, [128 + v % 128], Varint(v / 128));
      AtOne(src, pos, 128 + v % 128);
    }
  }

  lemma {:induction false} FirstOctet(x: nat, prefix: nat, base: nat)
    requires LowBits(base, prefix) == 0 && x < Pow2(prefix)
    ensures LowBits(base + x, prefix) == x
  {
    if prefix > 0 {
      FirstOctet(x / 2, prefix - 1, base / 2);
    }
  }

  /**
    Whatever the prefix size, a decoder returns the number that was encoded when it is below
    2^N - 1 + 2^28 and reports an overflow for every other number (section 5.1 of RFC 7541).
   */
  lemma IntRoundTrip(value: nat, prefix: nat, base: Byte, src: Bytes, pos: nat)
    requires ValidPrefix(prefix, base)
    requires pos <= |src| && At(src, pos, EncodedInt(value, prefix, base))
    ensures ReadInt(src, pos, prefix) ==
            if value < Pow2(prefix) - 1 + VARINT_LIMIT then Ok((value, pos + |EncodedInt(value, prefix, base)|))
            else Err(IntegerOverflow)
  {
    var full := Pow2(prefix) - 1;
    hide Pow2, LowBits, ReadInt, Varint;
    if value < full {
      ShortInt(value, prefix, base, src, pos);
    } else {
      AtConcat(src, pos, [base + full], Varint(value - full));
      LongInt(value - full, prefix, base, src, pos);
    }
  }

  lemma ShortInt(value: nat, prefix: nat, base: Byte, src: Bytes, pos: nat)
    requires ValidPrefix(prefix, base) && value < Pow2(prefix) - 1
    requires pos <= |src| && At(src, pos, [base + value])
    ensures ReadInt(src, pos, prefix) == Ok((value, pos + 1))
  {
    FirstOctet(value, prefix, base);
    hide Pow2, LowBits;
    AtOne(src, pos, base + value);
  }

  lemma LongInt(rest: nat, prefix: nat, base: Byte, src: Bytes, pos: nat)
    requires ValidPrefix(prefix, base)
    requires At(src, pos, [base + Pow2(prefix) - 1]) && At(src, pos + 1, Varint(rest))
    ensures ReadInt(src, pos, prefix) ==
            if rest < VARINT_LIMIT then Ok((Pow2(prefix) - 1 + rest, pos + 1 + |Varint(rest)|))
            else Err(IntegerOverflow)
  {
    hide *;
    FullPrefix(prefix, base, src, pos);
    VarintAfter(rest, Pow2(prefix) - 1, src, pos + 1);
  }

  lemma FullPrefix(prefix: nat, base: Byte, src: Bytes, pos: nat)
    requires ValidPrefix(prefix, base) && At(src, pos, [base + Pow2(prefix) - 1])
    ensures pos < |src|
    ensures ReadInt(src, pos, prefix) == ReadVarint(src, pos + 1, Pow2(prefix) - 1, 0, 1)
  {
    var full := Pow2(prefix) - 1;
    FirstOctet(full, prefix, base);
    hide Pow2, LowBits, ReadVarint;
    AtOne(src, pos, base + full);
  }

  lemma VarintAfter(rest: nat, full: nat, src: Bytes, pos: nat)
    requires pos <= |src| && At(src, pos, Varint(rest))
    ensures ReadVarint(src, pos, full, 0, 1) ==
            if rest < VARINT_LIMIT then Ok((full + rest, pos + |Varint(rest)|)) else Err(IntegerOverflow)
  {
    FourSevens();
    ShiftedSum(rest, 0);
    hide Pow2, Shifted, ReadVarint, Varint;
    VarintInverse(src, pos, rest, full, 0, 1);
  }

  // ----- Resuming after a truncated read

  lemma {:induction false} ReadVarintTruncated(src: Bytes, pos: nat, acc: nat, shift: nat, count: nat, k: nat)
    requires pos <= k <= |src| && count < MAX_BYTES
    requires ReadVarint(src, pos, acc, shift, count).Ok?
    ensures ReadVarint(src[..k], pos, acc, shift, count) ==
            if k < ReadVarint(src, pos, acc, shift, count).value.1 then Err(NeedMore(IntegerUnderflow))
            else ReadVarint(src, pos, acc, shift, count)
    decreases |src| - pos
  {
    if pos < k && src[pos] >= 128 {
      ReadVarintTruncated(src, pos + 1, acc + Shifted(src[pos] % 128, shift), shift + 7, count + 1, k);
    }
  }

  /** An integer cut short asks for more; one that is wholly there reads the same. */
  lemma ReadIntTruncated(src: Bytes, pos: nat, prefix: nat, k: nat)
    requires pos <= k <= |src|
    requires ReadInt(src, pos, prefix).Ok?
    ensures ReadInt(src[..k], pos, prefix) ==
            if k < ReadInt(src, pos, prefix).value.1 then Err(NeedMore(IntegerUnderflow))
            else ReadInt(src, pos, prefix)
  {
    if pos < k && LowBits(src[pos], prefix) >= Pow2(prefix) - 1 {
      ReadVarintTruncated(src, pos + 1, LowBits(src[pos], prefix), 0, 1, k);
    }
  }

  lemma {:induction false} ReadVarintExtended(src: Bytes, pos: nat, acc: nat, shift: nat, count: nat, k: nat)
    requires pos <= k <= |src| && count < MAX_BYTES
    requires ReadVarint(src[..k], pos, acc, shift, count).Ok?
    ensures ReadVarint(src, pos, acc, shift, count) == ReadVarint(src[..k], pos, acc, shift, count)
    decreases |src| - pos
  {
    if pos < k && src[pos] >= 128 && count + 1 < MAX_BYTES {
      ReadVarintExtended(src, pos + 1, acc + Shifted(src[pos] % 128, shift), shift + 7, count + 1, k);
    }
  }

  /** What follows an integer makes no difference. */
  lemma ReadIntExtended(src: Bytes, pos: nat, prefix: nat, k: nat)
    requires pos <= k <= |src|
    requires ReadInt(src[..k], pos, prefix).Ok?
    ensures ReadInt(src, pos, prefix) == ReadInt(src[..k], pos, prefix)
  {
    if LowBits(src[pos], prefix) >= Pow2(prefix) - 1 {
      ReadVarintExtended(src, pos + 1, LowBits(src[pos], prefix), 0, 1, k);
    }
  }
}
