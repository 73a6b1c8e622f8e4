/** A whole connection's worth of header blocks: the run of src/hpack/test/fuzz.rs, on every input. */
module HpackConnection {
  import opened Wrappers
  import opened Integers
  import opened HuffmanCode
  import opened Strings
  import opened Headers
  import opened DynamicTable
  import opened HeaderBlocks
  import opened Fields
  import opened RoundTrip
  import HpackEncoder
  import HpackDecoder

  /** The peer's changes of the table size, then a list of headers. */
  datatype HeaderFrame = HeaderFrame(resizes: seq<nat>, headers: seq<FieldLine>)

  predicate FrameOk(code: Code, c: Checks, f: HeaderFrame) {
    StartsNamed(f.headers) && AllSendable(code, c, f.headers, []) && HpackEncoder.WritableLines(code, f.headers)
  }

  // ----- The two ends as values

  /** Table of the encoder, table of the decoder, and the largest size the decoder accepts. */
  datatype Ends = Ends(encoder: Dynamic, decoder: Dynamic, limit: nat)

  ghost predicate InStep(e: Ends) {
    Small(e.encoder) && e.decoder == Mirrored(e.encoder)
  }

  /** The sizes the encoder is told, each capped at what it is willing to use. */
  function Capped(sizes: seq<nat>, cap: nat): (r: seq<nat>)
    ensures |r| == |sizes| && forall i :: 0 <= i < |r| ==> r[i] <= cap && r[i] <= sizes[i]
  {
    seq(|sizes|, i requires 0 <= i < |sizes| => if sizes[i] <= cap then sizes[i] else cap)
  }

  function MaxOf(sizes: seq<nat>): (m: nat)
    requires sizes != []
    ensures forall i :: 0 <= i < |sizes| ==> sizes[i] <= m
    decreases |sizes|
  {
    if |sizes| == 1 then sizes[0]
    else
      var n := |sizes| - 1;
      var m := MaxOf(sizes[..n]);
      assert forall i :: 0 <= i < n ==> sizes[..n][i] == sizes[i];
      if m > sizes[n] then m else sizes[n]
  }

  function NewLimit(limit: nat, sizes: seq<nat>): nat {
    if sizes == [] then limit else MaxOf(sizes)
  }

  /** One block sent and received: what the decoder made of it, and both ends afterwards. */
  function Exchanged(code: Code, c: Checks, e: Ends, f: HeaderFrame, cap: nat): (Run, Ends)
    requires StartsNamed(f.headers)
  {
    var pending := QueuedAll(None, e.encoder.max, Capped(f.resizes, cap));
    var limit := NewLimit(e.limit, f.resizes);
    var (bs, encoder) := EncodedBlock(code, e.encoder, pending, f.headers);
    var run := DecodedBlock(code, c, e.decoder, limit, true, bs);
    (run, Ends(encoder, run.table, limit))
  }

  /** The sizes written are among those asked for, so the decoder accepts them. */
  lemma {:induction false} QueuedBelow(pending: Option<SizeUpdate>, max: nat, vals: seq<nat>, limit: nat)
    requires AllBelow(Updates(pending), limit) && AllBelow(vals, limit)
    ensures AllBelow(Updates(QueuedAll(pending, max, vals)), limit)
    decreases |vals|
  {
    if vals != [] {
      QueuedBelow(Queued(pending, max, vals[0]), max, vals[1..], limit);
    }
  }

  /** A block keeps the ends in step and delivers exactly its headers, whatever sizes were asked for before. */
  lemma ExchangeKeepsStep(code: Code, c: Checks, e: Ends, f: HeaderFrame, cap: nat)
    requires HuffmanCode.Valid(code) && InStep(e) && FrameOk(code, c, f) && cap < VARINT_LIMIT
    ensures var (run, after) := Exchanged(code, c, e, f, cap);
            && run.headers == Expected(f.headers, []) && run.error == None && run.rest == []
            && InStep(after)
            && after.encoder.max == Eagerly(e.encoder, Capped(f.resizes, cap)).max
  {
    hide HuffmanCode.Valid, AllSendable, HpackEncoder.WritableLines, EncodedLines, DecodedBlock, Mirrored, Small, Eagerly,
      Expected, MaxOf, QueuedAll, Updates;
    var vals := Capped(f.resizes, cap);
    var pending := QueuedAll(None, e.encoder.max, vals);
    var limit := NewLimit(e.limit, f.resizes);
    NoUpdates(cap);
    NoUpdates(limit);
    QueuedBelow(None, e.encoder.max, vals, cap);
    if f.resizes == [] {
      NothingQueued(e.encoder.max, vals);
      NoUpdates(limit);
    } else {
      QueuedBelow(None, e.encoder.max, vals, limit);
    }
    BelowMore(Updates(pending), cap, VARINT_LIMIT - 1);
    BlockComesBack(code, c, e.encoder, limit, pending, f.headers);
    SmallFits(e.encoder);
    UpdatesSuffice(e.encoder, vals);
  }

  lemma NoUpdates(limit: nat)
    ensures AllBelow(Updates(None), limit)
  {
  }

  lemma NothingQueued(max: nat, vals: seq<nat>)
    requires vals == []
    ensures QueuedAll(None, max, vals) == None
  {
  }

  lemma BelowMore(vals: seq<nat>, a: nat, b: nat)
    requires AllBelow(vals, a) && a <= b
    ensures AllBelow(vals, b)
  {
  }

  lemma SmallFits(d: Dynamic)
    requires Small(d)
    ensures Size(d.entries) <= d.max
  {
  }

  /** What the decoder makes of one block after the other, and the ends after each of them. */
  function Exchanges(code: Code, c: Checks, e: Ends, frames: seq<HeaderFrame>, cap: nat): (r: seq<(Run, Ends)>)
    requires forall f :: f in frames ==> StartsNamed(f.headers)
    ensures |r| == |frames|
    decreases |frames|
  {
    if frames == [] then []
    else
      var (run, after) := Exchanged(code, c, e, frames[0], cap);
      [(run, after)] + Exchanges(code, c, after, frames[1..], cap)
  }

  /**
    For every sequence of size changes and header lists: each block decodes to exactly its headers
    and after each block both ends hold the same entries and largest size.
   */
  lemma {:induction false} ConnectionRoundTrip(code: Code, c: Checks, e: Ends, frames: seq<HeaderFrame>, cap: nat, i: nat)
    requires HuffmanCode.Valid(code) && InStep(e) && cap < VARINT_LIMIT && i < |frames|
    requires forall f :: f in frames ==> StartsNamed(f.headers) && FrameOk(code, c, f)
    ensures var (run, ends) := Exchanges(code, c, e, frames, cap)[i];
            && run.headers == Expected(frames[i].headers, []) && run.error == None && run.rest == []
            && ends.decoder == Mirrored(ends.encoder) && Size(ends.encoder.entries) <= ends.encoder.max
    decreases |frames|
  {
    hide HuffmanCode.Valid, FrameOk, Exchanged, Expected, Mirrored, Small;
    var (run, after) := Exchanged(code, c, e, frames[0], cap);
    ExchangeKeepsStep(code, c, e, frames[0], cap);
    if i == 0 {
      SmallFits(after.encoder);
    } else {
      assert forall f :: f in frames[1..] ==> f in frames;
      ConnectionRoundTrip(code, c, after, frames[1..], cap, i - 1);
    }
  }

  // ----- The two ends as objects

  ghost predicate Joined(encoder: HpackEncoder.Encoder, decoder: HpackDecoder.Decoder)
    reads encoder, encoder.table, decoder, decoder.table
  {
    && encoder.Valid() && decoder.Valid()
    && encoder.code == decoder.huffman.code
    && encoder.size_update == None && decoder.max_size_update == None
    && decoder.table.View() == Mirrored(encoder.View())
  }

  /** Sends one block from a real encoder to a real decoder. */
  method Exchange(encoder: HpackEncoder.Encoder, decoder: HpackDecoder.Decoder, frame: HeaderFrame)
    returns (headers: seq<Header>, r: Result<(), DecoderError>)
    requires Joined(encoder, decoder) && FrameOk(encoder.code, decoder.checks, frame)
    modifies encoder, encoder.table, decoder, decoder.table
    ensures Joined(encoder, decoder)
    ensures r == Ok(()) && headers == Expected(frame.headers, [])
    ensures encoder.View().max == Eagerly(old(encoder.View()), Capped(frame.resizes, encoder.max_allowed_size)).max
  {
    hide HuffmanCode.Valid, HpackEncoder.WritableLines, AllSendable, EncodedBlock, DecodedBlock, Mirrored, Small, Expected,
      Updates, Eagerly, QueuedAll, Queued, Huffman.Ready, HpackDecoder.Decoder.Valid, HpackEncoder.Encoder.Valid, Capped,
      MaxOf, StartsNamed, HpackDecoder.Table.View;
    ghost var e := Ends(encoder.View(), decoder.table.View(), decoder.last_max_update);
    EncoderSmall(encoder);
    FrameParts(encoder.code, decoder.checks, frame);
    ExchangeKeepsStep(encoder.code, decoder.checks, e, frame, encoder.max_allowed_size);
    if frame.resizes != [] {
      var max := Largest(frame.resizes);
      decoder.QueueSizeUpdate(max);
    }
    QueueAll(encoder, frame.resizes);
    var buf := encoder.Encode(frame.headers, []);
    assert buf == EncodedBlock(encoder.code, e.encoder,
                               QueuedAll(None, e.encoder.max, Capped(frame.resizes, encoder.max_allowed_size)),
                               frame.headers).0;
    var src := new HpackDecoder.Cursor(buf);
    assert decoder.table.View() == e.decoder;
    headers, r := decoder.Decode(src);
    ghost var after := Exchanged(encoder.code, decoder.checks, e, frame, encoder.max_allowed_size);
    assert decoder.table.View() == after.0.table && encoder.View() == after.1.encoder;
  }

  lemma FrameParts(code: Code, c: Checks, f: HeaderFrame)
    requires FrameOk(code, c, f)
    ensures StartsNamed(f.headers) && AllSendable(code, c, f.headers, []) && HpackEncoder.WritableLines(code, f.headers)
  {
  }

  lemma EncoderSmall(encoder: HpackEncoder.Encoder)
    requires encoder.Valid()
    ensures Small(encoder.View()) && HuffmanCode.Valid(encoder.code) && encoder.max_allowed_size < VARINT_LIMIT
  {
  }

  method Largest(sizes: seq<nat>) returns (m: nat)
    requires sizes != []
    ensures m == MaxOf(sizes)
  {
    m := sizes[0];
    for i := 1 to |sizes|
      invariant m == MaxOf(sizes[..i])
    {
      assert sizes[..i + 1][..i] == sizes[..i];
      if sizes[i] >= m {
        m := sizes[i];
      }
    }
    assert sizes[..|sizes|] == sizes;
  }

  method QueueAll(encoder: HpackEncoder.Encoder, sizes: seq<nat>)
    requires encoder.Valid() && encoder.size_update == None
    modifies encoder`size_update
    ensures encoder.Valid()
    ensures encoder.size_update ==
            QueuedAll(None, encoder.table.max_size, Capped(sizes, encoder.max_allowed_size))
  {
    ghost var vals := Capped(sizes, encoder.max_allowed_size);
    assert vals[0..] == vals;
    for i := 0 to |sizes|
      invariant encoder.Valid()
      invariant QueuedAll(encoder.size_update, encoder.table.max_size, vals[i..]) ==
                QueuedAll(None, encoder.table.max_size, vals)
    {
      assert vals[i..][1..] == vals[i + 1..];
      encoder.UpdateMaxSize(sizes[i]);
    }
  }

  /** The whole run: every list of headers arrives, and the ends stay in step throughout. */
  method ExchangeAll(encoder: HpackEncoder.Encoder, decoder: HpackDecoder.Decoder, frames: seq<HeaderFrame>)
    returns (received: seq<seq<Header>>)
    requires Joined(encoder, decoder)
    requires forall f :: f in frames ==> FrameOk(encoder.code, decoder.checks, f)
    modifies encoder, encoder.table, decoder, decoder.table
    ensures Joined(encoder, decoder) && |received| == |frames|
    ensures forall i :: 0 <= i < |frames| ==> received[i] == Expected(frames[i].headers, [])
  {
    hide Joined, FrameOk, Expected;
    received := [];
    for i := 0 to |frames|
      invariant Joined(encoder, decoder) && |received| == i
      invariant forall j :: 0 <= j < i ==> received[j] == Expected(frames[j].headers, [])
    {
      var headers, r := Exchange(encoder, decoder, frames[i]);
      received := received + [headers];
    }
  }
}
