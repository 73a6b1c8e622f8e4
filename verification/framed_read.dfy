/** The reading side of the codec, for header blocks (src/codec/framed_read.rs). */
module FramedRead {
  import opened Bits
  import opened Wrappers
  import opened Integers
  import opened HuffmanCode
  import opened Strings
  import opened Headers
  import opened HeaderBlocks
  import opened Fields
  import opened HeaderFrames
  import opened Reassembly
  import HpackConnection
  import HpackDecoder
  import HpackEncoder
  import RoundTrip

  /** How many CONTINUATION frames may come before the last one. */
  function CalcMaxContinuationFrames(header_max: nat, frame_max: nat): nat
    requires frame_max > 0
  {
    var min_frames_for_list := if header_max / frame_max > 1 then header_max / frame_max else 1;
    var most := min_frames_for_list + min_frames_for_list / 4;
    if most > 5 then most else 5
  }

  lemma {:induction false} FragmentCount(block: Bytes, room: nat, n: nat)
    requires room > 0 && |block| < (n + 1) * room
    ensures |Fragments(block, room)| <= n + 1
    decreases n
  {
    if |block| > room {
      assert n > 0 by {
        assert n == 0 ==> |block| < room;
      }
      assert (n + 1) * room == n * room + room;
      FragmentCount(block[room..], room, n - 1);
    }
  }

  /** A block no longer than the largest header list never has too many frames when they are filled. */
  lemma EnoughFrames(block: Bytes, header_max: nat, frame_max: nat)
    requires frame_max > 0 && |block| <= header_max
    ensures |Fragments(block, frame_max)| <= CalcMaxContinuationFrames(header_max, frame_max) + 2
  {
    var n := header_max / frame_max;
    assert header_max < (n + 1) * frame_max;
    FragmentCount(block, frame_max, n);
  }

  class FrameDecoder {
    const hpack: HpackDecoder.Decoder
    const max_continuation_frames: nat
    var partial: Option<Partial>

    ghost predicate Valid()
      reads this, hpack, hpack.table
    {
      hpack.Valid()
    }

    ghost function State(): Reader
      reads this, hpack, hpack.table
    {
      Reader(hpack.table.View(), partial)
    }

    /** The largest table size that the next block may ask for. */
    ghost function Limit(): nat
      reads this, hpack
    {
      if hpack.max_size_update.Some? then hpack.max_size_update.value else hpack.last_max_update
    }

    constructor (hpack: HpackDecoder.Decoder, header_max: nat, frame_max: nat)
      requires hpack.Valid() && frame_max > 0
      ensures Valid() && this.hpack == hpack && partial == None
      ensures max_continuation_frames == CalcMaxContinuationFrames(header_max, frame_max)
    {
      this.hpack := hpack;
      max_continuation_frames := CalcMaxContinuationFrames(header_max, frame_max);
      partial := None;
    }

    /** Decodes the octets of one frame. */
    method DecodeFrame(bytes: Bytes) returns (o: Outcome)
      requires Valid() && |bytes| >= HEADER_LEN
      modifies this, hpack, hpack.table
      ensures Valid()
      ensures (o, State()) == ReadFrame(hpack.huffman.code, hpack.checks, old(Limit()), max_continuation_frames,
                                        old(State()), ParsedFrame(bytes))
      ensures ParsedHead(bytes).kind in {KIND_HEADERS, KIND_CONTINUATION} && o.Ok? ==> Limit() == old(Limit())
    {
      hide HpackDecoder.Table.View, DecodedBlock, HpackDecoder.Decoder.Valid;
      var head := ParsedHead(bytes);
      if partial.Some? && head.kind != KIND_CONTINUATION {
        return Err(ProtocolError);
      }
      if head.kind == KIND_HEADERS {
        o := Load(Partial(head.stream_id, [], [], 0), bytes[HEADER_LEN..], EndsHeaders(head.flag));
      } else if head.kind == KIND_CONTINUATION {
        if partial.None? {
          return Err(ProtocolError);
        }
        var p := partial.value;
        partial := None;
        if p.stream_id != head.stream_id {
          return Err(ProtocolError);
        }
        if EndsHeaders(head.flag) {
          p := p.(continuation_frames_count := 0);
        } else {
          var cnt := p.continuation_frames_count + 1;
          if cnt > max_continuation_frames {
            return Err(EnhanceYourCalm);
          }
          p := p.(continuation_frames_count := cnt);
        }
        var buf: Bytes;
        if p.buf == [] {
          buf := bytes[HEADER_LEN..];
          assert p.buf + buf == buf;
        } else {
          buf := p.buf + bytes[HEADER_LEN..];
        }
        o := Load(p, buf, EndsHeaders(head.flag));
      } else {
        o := Ok(None);
      }
    }

    /** `load_hpack` and what follows it: the frame is finished or kept for the next one. */
    method Load(p: Partial, buf: Bytes, ends: bool) returns (o: Outcome)
      requires Valid() && partial == None
      modifies this, hpack, hpack.table
      ensures Valid() && Limit() == old(Limit())
      ensures (o, State()) == Loaded(DecodedBlock(hpack.huffman.code, hpack.checks, old(hpack.table.View()), old(Limit()), true, buf),
                                     p, ends)
    {
      hide HpackDecoder.Table.View, DecodedBlock, HpackDecoder.Decoder.Valid;
      var src := new HpackDecoder.Cursor(buf);
      var headers, r := hpack.Decode(src);
      if r.Err? && !(r.error.NeedMore? && !ends) {
        return Err(ProtocolError);
      }
      if ends {
        o := Ok(Some(p.headers + headers));
      } else {
        partial := Some(p.(headers := p.headers + headers, buf := src.buf));
        o := Ok(None);
      }
    }

    /** Decodes frame after frame until a header list is complete or one is refused. */
    method DecodeFrames(frames: seq<Bytes>) returns (o: Outcome)
      requires Valid() && forall i :: 0 <= i < |frames| ==> |frames[i]| >= HEADER_LEN
      requires forall i :: 0 <= i < |frames| ==> ParsedHead(frames[i]).kind in {KIND_HEADERS, KIND_CONTINUATION}
      modifies this, hpack, hpack.table
      ensures Valid()
      ensures (o, State()) == ReadFrames(hpack.huffman.code, hpack.checks, old(Limit()), max_continuation_frames,
                                         old(State()), Parsed(frames))
    {
      hide ReadFrame, Valid, State, ParsedFrame, ParsedHead, Limit;
      o := Ok(None);
      ghost var start, limit := State(), Limit();
      assert frames[0..] == frames;
      for i := 0 to |frames|
        invariant Valid() && o == Ok(None) && Limit() == limit
        invariant ReadFrames(hpack.huffman.code, hpack.checks, limit, max_continuation_frames, start, Parsed(frames)) ==
                  ReadFrames(hpack.huffman.code, hpack.checks, limit, max_continuation_frames, State(), Parsed(frames[i..]))
      {
        assert Parsed(frames[i..])[1..] == Parsed(frames[i + 1..]);
        o := DecodeFrame(frames[i]);
        if o.Err? || o.value.Some? {
          return;
        }
      }
    }
  }

  function Parsed(frames: seq<Bytes>): (fs: seq<Frame>)
    requires forall i :: 0 <= i < |frames| ==> |frames[i]| >= HEADER_LEN
    ensures |fs| == |frames|
  {
    seq(|frames|, i requires 0 <= i < |frames| => ParsedFrame(frames[i]))
  }

  /** The frames sent for a block parse back into its parts. */
  lemma SentIsFramed(block: Bytes, head: Head, room: nat)
    requires 0 < room <= MAX_MAX_FRAME_SIZE && EndsHeaders(head.flag) && head.stream_id < 0x8000_0000
    requires head.kind == KIND_HEADERS
    ensures var sent := Sent(block, head, room);
            && (forall i :: 0 <= i < |sent| ==> |sent[i]| >= HEADER_LEN)
            && (forall i :: 0 <= i < |sent| ==> ParsedHead(sent[i]).kind in {KIND_HEADERS, KIND_CONTINUATION})
            && Parsed(sent) == Framed(Fragments(block, room), head)
  {
    SentParses(block, head, room);
    FramedParts(Fragments(block, room), head);
    var sent := Sent(block, head, room);
    hide Sent, Framed, Fragments, ParsedHead;
    forall i | 0 <= i < |sent| ensures ParsedHead(sent[i]).kind in {KIND_HEADERS, KIND_CONTINUATION} {
      assert ParsedFrame(sent[i]).head.kind in {KIND_HEADERS, KIND_CONTINUATION};
    }
  }

  /**
    From encoder to decoder through the codec: the block is written out as HEADERS and CONTINUATION
    frames no longer than the frame size allows, and reading those gives the headers back.
   */
  method SendAndReceive(encoder: HpackEncoder.Encoder, reader: FrameDecoder, headers: seq<FieldLine>, head: Head,
                        max_frame_size: nat)
    returns (received: Outcome)
    requires HpackConnection.Joined(encoder, reader.hpack) && reader.partial == None
    requires HpackConnection.FrameOk(encoder.code, reader.hpack.checks, HpackConnection.HeaderFrame([], headers))
    requires 0 < max_frame_size <= MAX_MAX_FRAME_SIZE
    requires EndsHeaders(head.flag) && head.stream_id < 0x8000_0000 && head.kind == KIND_HEADERS
    modifies encoder, encoder.table, reader, reader.hpack, reader.hpack.table
    ensures var block := EncodedBlock(encoder.code, old(encoder.View()), None, headers).0;
            |Fragments(block, max_frame_size)| <= reader.max_continuation_frames + 2 ==>
              && received == Ok(Some(RoundTrip.Expected(headers, [])))
              && reader.partial == None && encoder.Valid() && reader.Valid()
              && reader.hpack.table.View() == RoundTrip.Mirrored(encoder.View())
  {
    hide HuffmanCode.Valid, HpackEncoder.WritableLines, RoundTrip.AllSendable, EncodedBlock, DecodedBlock, RoundTrip.Mirrored,
      RoundTrip.Small, RoundTrip.Expected, Updates, Huffman.Ready, HpackDecoder.Decoder.Valid, HpackEncoder.Encoder.Valid,
      StartsNamed, HpackDecoder.Table.View, HpackEncoder.Encoder.View, Fragments, Framed, ReadFrames, Sent, Parsed,
      HpackConnection.FrameOk;
    ghost var d, limit := encoder.View(), reader.Limit();
    HpackConnection.EncoderSmall(encoder);
    HpackConnection.FrameParts(encoder.code, reader.hpack.checks, HpackConnection.HeaderFrame([], headers));
    BlockIsRead(encoder.code, reader.hpack.checks, d, limit, reader.max_continuation_frames, headers, head, max_frame_size);
    var block := encoder.Encode(headers, []);
    assert block == EncodedBlock(encoder.code, d, None, headers).0;
    var sent := SendBlock(block, head, max_frame_size);
    received := reader.DecodeFrames(sent);
  }

  /** The frames sent for a block, read one after the other. */
  lemma BlockIsRead(code: Code, c: Checks, d: Dynamic, limit: nat, most: nat, headers: seq<FieldLine>, head: Head, room: nat)
    requires HuffmanCode.Valid(code) && RoundTrip.Small(d) && StartsNamed(headers) && RoundTrip.AllSendable(code, c, headers, [])
    requires 0 < room <= MAX_MAX_FRAME_SIZE
    requires EndsHeaders(head.flag) && head.stream_id < 0x8000_0000 && head.kind == KIND_HEADERS
    ensures var (block, after) := EncodedBlock(code, d, None, headers);
            var sent := Sent(block, head, room);
            && (forall i :: 0 <= i < |sent| ==> |sent[i]| >= HEADER_LEN)
            && (forall i :: 0 <= i < |sent| ==> ParsedHead(sent[i]).kind in {KIND_HEADERS, KIND_CONTINUATION})
            && (|Fragments(block, room)| <= most + 2 ==>
                  ReadFrames(code, c, limit, most, Reader(RoundTrip.Mirrored(d), None), Parsed(sent)) ==
                  (Ok(Some(RoundTrip.Expected(headers, []))), Reader(RoundTrip.Mirrored(after), None)))
  {
    hide *;
    NoUpdatesBelow(limit);
    RoundTrip.BlockComesBack(code, c, d, limit, None, headers);
    var block := EncodedBlock(code, d, None, headers).0;
    SentIsFramed(block, head, room);
    FragmentsConcat(block, room);
    if |Fragments(block, room)| <= most + 2 {
      BlockReassembles(code, c, limit, most, RoundTrip.Mirrored(d), Fragments(block, room), head);
    }
  }

  lemma NoUpdatesBelow(limit: nat)
    ensures RoundTrip.AllBelow(Updates(None), limit)
    ensures RoundTrip.AllBelow(Updates(None), VARINT_LIMIT - 1)
  {
  }
}
