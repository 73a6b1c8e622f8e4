/**
  Header blocks as HEADERS and CONTINUATION frames, sections 4.3 and 6.10 of RFC 9113
  (src/frame/head.rs, src/frame/headers.rs, src/codec/framed_write.rs).
 */
module HeaderFrames {
  import opened Bits
  import opened Wrappers

  const HEADER_LEN: nat := 9
  const END_HEADERS: Byte := 4
  const KIND_HEADERS: Byte := 1
  const KIND_CONTINUATION: Byte := 9

  /** The largest SETTINGS_MAX_FRAME_SIZE, 2^24 - 1. */
  const MAX_MAX_FRAME_SIZE: nat := 0xff_ffff

  datatype Head = Head(kind: Byte, flag: Byte, stream_id: nat)

  datatype Frame = Frame(head: Head, payload: Bytes)

  /** Bit 2 of the flags. */
  predicate EndsHeaders(flag: Byte) {
    flag / 4 % 2 == 1
  }

  // ----- Frames as octets

  function U24(n: nat): Bytes
    requires n <= MAX_MAX_FRAME_SIZE
  {
    [n / 0x1_0000, n / 0x100 % 0x100, n % 0x100]
  }

  function U32(n: nat): Bytes
    requires n < 0x8000_0000
  {
    [n / 0x100_0000] + U24(n % 0x100_0000)
  }

  function EncodedHead(len: nat, h: Head): (bs: Bytes)
    requires len <= MAX_MAX_FRAME_SIZE && h.stream_id < 0x8000_0000
    ensures |bs| == HEADER_LEN
  {
    U24(len) + [h.kind, h.flag] + U32(h.stream_id)
  }

  function Octets(f: Frame): Bytes
    requires |f.payload| <= MAX_MAX_FRAME_SIZE && f.head.stream_id < 0x8000_0000
  {
    EncodedHead(|f.payload|, f.head) + f.payload
  }

  function ParsedHead(bs: Bytes): Head
    requires |bs| >= HEADER_LEN
  {
    Head(bs[3], bs[4], bs[5] as int % 0x80 * 0x100_0000 + bs[6] as int * 0x1_0000 + bs[7] as int * 0x100 + bs[8])
  }

  /** A received frame is its octets, cut where the length says. */
  function ParsedFrame(bs: Bytes): Frame
    requires |bs| >= HEADER_LEN
  {
    Frame(ParsedHead(bs), bs[HEADER_LEN..])
  }

  function ParsedLength(bs: Bytes): nat
    requires |bs| >= HEADER_LEN
  {
    bs[0] as int * 0x1_0000 + bs[1] as int * 0x100 + bs[2]
  }

  lemma U32Parts(n: nat)
    requires n < 0x8000_0000
    ensures n / 0x100_0000 < 0x80
    ensures n / 0x100_0000 % 0x80 * 0x100_0000 + n % 0x100_0000 / 0x1_0000 * 0x1_0000
            + n % 0x100_0000 / 0x100 % 0x100 * 0x100 + n % 0x100_0000 % 0x100 == n
  {
  }

  lemma U24Parts(n: nat)
    requires n <= MAX_MAX_FRAME_SIZE
    ensures n / 0x1_0000 * 0x1_0000 + n / 0x100 % 0x100 * 0x100 + n % 0x100 == n
  {
  }

  lemma OctetsParse(f: Frame)
    requires |f.payload| <= MAX_MAX_FRAME_SIZE && f.head.stream_id < 0x8000_0000
    ensures ParsedFrame(Octets(f)) == f && ParsedLength(Octets(f)) == |f.payload|
    ensures |Octets(f)| == HEADER_LEN + |f.payload|
  {
    U32Parts(f.head.stream_id);
    U24Parts(|f.payload|);
    assert Octets(f)[HEADER_LEN..] == f.payload;
  }

  // ----- Cutting a block up

  /** As much as fits goes into each frame. */
  function Fragments(block: Bytes, room: nat): (parts: seq<Bytes>)
    requires room > 0
    ensures |parts| > 0 && forall i :: 0 <= i < |parts| ==> |parts[i]| <= room
    decreases |block|
  {
    if |block| <= room then [block] else [block[..room]] + Fragments(block[room..], room)
  }

  function Concat(parts: seq<Bytes>): Bytes {
    if parts == [] then [] else parts[0] + Concat(parts[1..])
  }

  /** Nothing is lost. */
  lemma {:induction false} FragmentsConcat(block: Bytes, room: nat)
    requires room > 0
    ensures Concat(Fragments(block, room)) == block
    decreases |block|
  {
    if |block| <= room {
      assert Fragments(block, room)[1..] == [];
    } else {
      FragmentsConcat(block[room..], room);
      assert Fragments(block, room)[1..] == Fragments(block[room..], room);
      assert block[..room] + block[room..] == block;
    }
  }

  /** The frames for the parts of a block: END_HEADERS is set on the last one only. */
  function Framed(parts: seq<Bytes>, head: Head): (fs: seq<Frame>)
    requires EndsHeaders(head.flag)
    ensures |fs| == |parts|
    decreases |parts|
  {
    if parts == [] then []
    else if |parts| == 1 then [Frame(head, parts[0])]
    else [Frame(head.(flag := head.flag - END_HEADERS), parts[0])] + Framed(parts[1..], ContinuationHead(head.stream_id))
  }

  function ContinuationHead(stream_id: nat): (h: Head)
    ensures EndsHeaders(h.flag)
  {
    Head(KIND_CONTINUATION, END_HEADERS, stream_id)
  }

  /** `EncodingHeaderBlock::encode`: the length and the flag are patched once it is known how much fits. */
  method EncodeBlock(block: Bytes, head: Head, dst: Bytes, max_frame_size: nat)
    returns (out: Bytes, continuation: Option<Bytes>)
    requires 0 < max_frame_size <= MAX_MAX_FRAME_SIZE && EndsHeaders(head.flag) && head.stream_id < 0x8000_0000
    ensures |block| <= max_frame_size ==> continuation == None && out == dst + Octets(Frame(head, block))
    ensures |block| > max_frame_size ==>
              && continuation == Some(block[max_frame_size..])
              && out == dst + Octets(Frame(head.(flag := head.flag - END_HEADERS), block[..max_frame_size]))
  {
    var head_pos := |dst|;
    out := dst + EncodedHead(0, head);
    var payload_pos := |out|;
    var part;
    if |block| > max_frame_size {
      part, continuation := block[..max_frame_size], Some(block[max_frame_size..]);
    } else {
      part, continuation := block, None;
    }
    ghost var empty := out;
    out := out + part;
    var payload_len := |out| - payload_pos;
    var len := U24(payload_len);
    var flag := if continuation.Some? then head.flag - END_HEADERS else head.flag;
    out := out[head_pos := len[0]][head_pos + 1 := len[1]][head_pos + 2 := len[2]];
    if continuation.Some? {
      out := out[head_pos + 4 := out[head_pos + 4] - END_HEADERS];
    }
    assert out == dst + (EncodedHead(|part|, head.(flag := flag)) + part);
  }

  /** What goes out: a frame for as much as fits, then the rest. */
  function Sent(block: Bytes, head: Head, room: nat): (r: seq<Bytes>)
    requires 0 < room <= MAX_MAX_FRAME_SIZE && EndsHeaders(head.flag) && head.stream_id < 0x8000_0000
    decreases |block|
  {
    if |block| <= room then [Octets(Frame(head, block))]
    else [Octets(Frame(head.(flag := head.flag - END_HEADERS), block[..room]))]
         + Sent(block[room..], ContinuationHead(head.stream_id), room)
  }

  /** Buffers a HEADERS frame and then one CONTINUATION frame after the other, as the write side drains. */
  method SendBlock(block: Bytes, head: Head, max_frame_size: nat) returns (sent: seq<Bytes>)
    requires 0 < max_frame_size <= MAX_MAX_FRAME_SIZE && EndsHeaders(head.flag) && head.stream_id < 0x8000_0000
    ensures sent == Sent(block, head, max_frame_size)
  {
    hide Octets;
    SentFirst(block, head, max_frame_size);
    var buf, next := EncodeBlock(block, head, [], max_frame_size);
    sent := [buf];
    ghost var all := Sent(block, head, max_frame_size);
    while next.Some?
      invariant all == if next.Some? then sent + Sent(next.value, ContinuationHead(head.stream_id), max_frame_size) else sent
      decreases if next.Some? then |next.value| + 1 else 0
    {
      var rest := next.value;
      ghost var before := sent;
      SentFirst(rest, ContinuationHead(head.stream_id), max_frame_size);
      buf, next := EncodeBlock(rest, ContinuationHead(head.stream_id), [], max_frame_size);
      sent := sent + [buf];
      if next.Some? {
        ghost var tail := Sent(next.value, ContinuationHead(head.stream_id), max_frame_size);
        assert before + ([buf] + tail) == sent + tail;
      }
    }
  }

  lemma SentFirst(block: Bytes, head: Head, room: nat)
    requires 0 < room <= MAX_MAX_FRAME_SIZE && EndsHeaders(head.flag) && head.stream_id < 0x8000_0000
    ensures |block| <= room ==> Sent(block, head, room) == [[] + Octets(Frame(head, block))]
    ensures |block| > room ==>
              Sent(block, head, room) ==
              [[] + Octets(Frame(head.(flag := head.flag - END_HEADERS), block[..room]))]
              + Sent(block[room..], ContinuationHead(head.stream_id), room)
  {
    hide Octets;
    assert forall bs: Bytes :: [] + bs == bs;
  }

  /** Each frame sent keeps within the limit and parses back as its fragment of the block. */
  lemma {:induction false} SentParses(block: Bytes, head: Head, room: nat)
    requires 0 < room <= MAX_MAX_FRAME_SIZE && EndsHeaders(head.flag) && head.stream_id < 0x8000_0000
    ensures var sent, fs := Sent(block, head, room), Framed(Fragments(block, room), head);
            && |sent| == |fs|
            && forall i :: 0 <= i < |sent| ==>
                 HEADER_LEN <= |sent[i]| <= HEADER_LEN + room && ParsedFrame(sent[i]) == fs[i]
                 && ParsedLength(sent[i]) == |fs[i].payload|
    decreases |block|
  {
    hide ParsedFrame, ParsedLength, Octets;
    if |block| <= room {
      OctetsParse(Frame(head, block));
    } else {
      var h := ContinuationHead(head.stream_id);
      OctetsParse(Frame(head.(flag := head.flag - END_HEADERS), block[..room]));
      SentParses(block[room..], h, room);
      assert Fragments(block, room)[1..] == Fragments(block[room..], room);
    }
  }

  lemma {:induction false} FramedParts(parts: seq<Bytes>, head: Head)
    requires EndsHeaders(head.flag)
    ensures forall i :: 0 <= i < |parts| ==>
              Framed(parts, head)[i].payload == parts[i] && Framed(parts, head)[i].head.stream_id == head.stream_id
    ensures forall i :: 0 <= i < |parts| ==> (EndsHeaders(Framed(parts, head)[i].head.flag) <==> i == |parts| - 1)
    ensures forall i :: 1 <= i < |parts| ==> Framed(parts, head)[i].head.kind == KIND_CONTINUATION
    ensures |parts| > 0 ==> Framed(parts, head)[0].head.kind == head.kind
    decreases |parts|
  {
    if |parts| > 1 {
      var h := ContinuationHead(head.stream_id);
      FramedParts(parts[1..], h);
      assert !EndsHeaders(head.flag - END_HEADERS);
      forall i | 1 <= i < |parts|
        ensures Framed(parts, head)[i] == Framed(parts[1..], h)[i - 1] && parts[i] == parts[1..][i - 1]
      {
      }
    }
  }
}
