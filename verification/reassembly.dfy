/**
  Putting header blocks back together: CONTINUATION frames and decoding that resumes where the
  octets ran out (src/codec/framed_read.rs).
 */
module Reassembly {
  import opened Bits
  import opened Wrappers
  import opened Integers
  import opened HuffmanCode
  import opened Strings
  import opened Headers
  import opened DynamicTable
  import opened HeaderBlocks
  import opened Fields
  import opened HeaderFrames
  import HpackDecoder

  // ----- Decoding a prefix

  /** The start of a literal with a new name either reads the same or asks for more. */
  lemma NewNameTruncated(code: Code, c: Checks, src: Bytes, p: nat, k: nat)
    requires 0 < p <= k <= |src| && ReadNewName(code, c, src, p).Ok?
    ensures var r := ReadNewName(code, c, src, p);
            if k >= r.value.1 then ReadNewName(code, c, src[..k], p) == r
            else WantsMore(ReadNewName(code, c, src[..k], p))
  {
    hide ReadStr, NewHeader;
    ReadStrTruncated(code, src, p, k);
    var q := ReadStr(code, src, p).value.1;
    if k >= q {
      ReadStrTruncated(code, src, q, k);
    }
  }

  lemma OldNameTruncated(code: Code, c: Checks, e: Result<Header, DecoderError>, src: Bytes, p: nat, k: nat)
    requires 0 < p <= k <= |src| && ReadOldName(code, c, e, src, p).Ok?
    ensures var r := ReadOldName(code, c, e, src, p);
            if k >= r.value.1 then ReadOldName(code, c, e, src[..k], p) == r
            else WantsMore(ReadOldName(code, c, e, src[..k], p))
  {
    hide ReadStr, IntoEntry;
    ReadStrTruncated(code, src, p, k);
  }

  predicate WantsMore<T>(r: Result<T, Failure>) {
    r.Err? && r.error.error.NeedMore? && r.error.taken == 0
  }

  lemma LiteralTruncated(code: Code, c: Checks, s: seq<Header>, src: Bytes, index: bool, k: nat)
    requires 0 < k <= |src| && ReadLiteral(code, c, s, src, index).Ok?
    ensures var r := ReadLiteral(code, c, s, src, index);
            if k >= r.value.1 then ReadLiteral(code, c, s, src[..k], index) == r
            else WantsMore(ReadLiteral(code, c, s, src[..k], index))
  {
    LiteralParts(code, c, s, src, index);
    LiteralParts(code, c, s, src[..k], index);
    hide ReadLiteral, ReadInt, ReadNewName, ReadOldName, Get;
    ReadIntTruncated(src, 0, LiteralPrefix(index), k);
    var n := ReadInt(src, 0, LiteralPrefix(index));
    var p := n.value.1;
    if k >= p {
      if n.value.0 == 0 {
        NewNameTruncated(code, c, src, p, k);
      } else {
        OldNameTruncated(code, c, Get(s, n.value.0), src, p, k);
      }
    } else {
      LiteralAfterInt(code, c, s, src, index);
    }
  }

  lemma LiteralParts(code: Code, c: Checks, s: seq<Header>, src: Bytes, index: bool)
    ensures var n := ReadInt(src, 0, LiteralPrefix(index));
            ReadLiteral(code, c, s, src, index) ==
            if n.Err? then Err(Failure(n.error, 0))
            else if n.value.0 == 0 then ReadNewName(code, c, src, n.value.1)
            else ReadOldName(code, c, Get(s, n.value.0), src, n.value.1)
  {
    hide ReadInt, ReadNewName, ReadOldName, Get;
  }

  lemma LiteralAfterInt(code: Code, c: Checks, s: seq<Header>, src: Bytes, index: bool)
    requires ReadLiteral(code, c, s, src, index).Ok?
    ensures ReadInt(src, 0, LiteralPrefix(index)).Ok?
    ensures ReadLiteral(code, c, s, src, index).value.1 > ReadInt(src, 0, LiteralPrefix(index)).value.1
  {
    hide ReadInt, ReadStr, Get, NewHeader, IntoEntry;
  }

  /** One representation, cut short, asks for more; otherwise nothing changes. */
  lemma StepTruncated(code: Code, c: Checks, d: Dynamic, limit: nat, can_resize: bool, src: Bytes, k: nat)
    requires 0 < k <= |src| && NextStep(code, c, d, limit, can_resize, src).Ok?
    ensures var r := NextStep(code, c, d, limit, can_resize, src);
            if k >= r.value.used then NextStep(code, c, d, limit, can_resize, src[..k]) == r
            else WantsMore(NextStep(code, c, d, limit, can_resize, src[..k]))
  {
    hide ReadInt, ReadLiteral, Get, Resized, Insert, Load;
    assert src[..k][0] == src[0];
    match Load(src[0]).value
    case IndexedField => ReadIntTruncated(src, 0, 7, k);
    case LiteralWithIndexing => LiteralTruncated(code, c, d.entries, src, true, k);
    case LiteralWithoutIndexing => LiteralTruncated(code, c, d.entries, src, false, k);
    case LiteralNeverIndexed => LiteralTruncated(code, c, d.entries, src, false, k);
    case SizeUpdate => ReadIntTruncated(src, 0, 5, k);
  }

  /** A block that decodes at all decodes the same when size updates are still allowed. */
  lemma {:induction false} ResizeAllowed(code: Code, c: Checks, d: Dynamic, limit: nat, can_resize: bool, src: Bytes)
    requires DecodedBlock(code, c, d, limit, can_resize, src).error == None
    ensures DecodedBlock(code, c, d, limit, true, src) == DecodedBlock(code, c, d, limit, can_resize, src)
    decreases |src|
  {
    if src != [] && !can_resize {
      StepAllowed(code, c, d, limit, src);
      hide NextStep;
      var step := NextStep(code, c, d, limit, false, src).value;
      ResizeAllowed(code, c, step.table, limit, false, src[step.used..]);
      ResizeAllowed(code, c, step.table, limit, step.headers == [], src[step.used..]);
    }
  }

  lemma StepAllowed(code: Code, c: Checks, d: Dynamic, limit: nat, src: Bytes)
    requires src != [] && NextStep(code, c, d, limit, false, src).Ok?
    ensures NextStep(code, c, d, limit, true, src) == NextStep(code, c, d, limit, false, src)
    ensures NextStep(code, c, d, limit, false, src).value.headers != []
  {
    hide ReadInt, ReadLiteral, Get, Resized, Insert, Load;
  }

  /** `first` decodes a part of a block and `whole` all of it; what is left can be decoded later. */
  ghost predicate Resumes(code: Code, c: Checks, limit: nat, first: Run, later: Bytes, whole: Run) {
    && (first.error == None || first.error.value.NeedMore?)
    && var second := DecodedBlock(code, c, first.table, limit, true, first.rest + later);
       second.error == None && After(first.headers, second) == whole
  }

  /** One step of `DecodedBlock`. */
  lemma BlockCons(code: Code, c: Checks, d: Dynamic, limit: nat, can_resize: bool, src: Bytes)
    requires src != []
    ensures var r := NextStep(code, c, d, limit, can_resize, src);
            DecodedBlock(code, c, d, limit, can_resize, src) ==
            if r.Err? then Run([], d, src[r.error.taken..], Some(r.error.error))
            else After(r.value.headers, DecodedBlock(code, c, r.value.table, limit, can_resize && r.value.headers == [],
                                                     src[r.value.used..]))
  {
    hide NextStep;
  }

  lemma BlockNil(code: Code, c: Checks, d: Dynamic, limit: nat, can_resize: bool, src: Bytes)
    requires src == []
    ensures DecodedBlock(code, c, d, limit, can_resize, src) == Run([], d, [], None)
  {
  }

  /** Decoding the first `k` octets and then the rest is decoding the whole, if that succeeds. */
  lemma {:induction false} DecodingResumes(code: Code, c: Checks, d: Dynamic, limit: nat, can_resize: bool, src: Bytes, k: nat)
    requires k <= |src| && DecodedBlock(code, c, d, limit, can_resize, src).error == None
    ensures Resumes(code, c, limit, DecodedBlock(code, c, d, limit, can_resize, src[..k]), src[k..],
                    DecodedBlock(code, c, d, limit, can_resize, src))
    decreases k
  {
    hide NextStep, DecodedBlock, Resumes;
    if k == 0 {
      BlockNil(code, c, d, limit, can_resize, src[..k]);
      NothingYet(code, c, d, limit, can_resize, src, k, None);
    } else {
      BlockCons(code, c, d, limit, can_resize, src);
      BlockCons(code, c, d, limit, can_resize, src[..k]);
      StepTruncated(code, c, d, limit, can_resize, src, k);
      var step := NextStep(code, c, d, limit, can_resize, src).value;
      if k >= step.used {
        var tail := src[step.used..];
        assert src[..k][step.used..] == tail[..k - step.used] && tail[k - step.used..] == src[k..];
        DecodingResumes(code, c, step.table, limit, can_resize && step.headers == [], tail, k - step.used);
        ResumesAfter(code, c, limit, DecodedBlock(code, c, step.table, limit, can_resize && step.headers == [],
                                                  tail[..k - step.used]), src[k..],
                     DecodedBlock(code, c, step.table, limit, can_resize && step.headers == [], tail), step.headers);
      } else {
        var error := DecodedBlock(code, c, d, limit, can_resize, src[..k]).error;
        assert src[..k][0..] == src[..k];
        NothingYet(code, c, d, limit, can_resize, src, k, error);
      }
    }
  }

  lemma NothingYet(code: Code, c: Checks, d: Dynamic, limit: nat, can_resize: bool, src: Bytes, k: nat,
                   error: Option<DecoderError>)
    requires k <= |src| && DecodedBlock(code, c, d, limit, can_resize, src).error == None
    requires error.None? || error.value.NeedMore?
    ensures Resumes(code, c, limit, Run([], d, src[..k], error), src[k..], DecodedBlock(code, c, d, limit, can_resize, src))
  {
    assert src[..k] + src[k..] == src;
    hide DecodedBlock;
    ResizeAllowed(code, c, d, limit, can_resize, src);
    HpackDecoder.AfterNothing(DecodedBlock(code, c, d, limit, can_resize, src));
  }

  lemma ResumesAfter(code: Code, c: Checks, limit: nat, first: Run, later: Bytes, whole: Run, headers: seq<Header>)
    requires Resumes(code, c, limit, first, later, whole)
    ensures Resumes(code, c, limit, After(headers, first), later, After(headers, whole))
  {
    hide DecodedBlock;
    HpackDecoder.AfterBoth(headers, first.headers, DecodedBlock(code, c, first.table, limit, true, first.rest + later));
  }

  // ----- Frames into blocks

  /** Headers so far, the octets not decoded yet, and how many CONTINUATION frames there were. */
  datatype Partial = Partial(stream_id: nat, headers: seq<Header>, buf: Bytes, continuation_frames_count: nat)

  datatype ReadError = ProtocolError | EnhanceYourCalm

  /** What is known between frames. */
  datatype Reader = Reader(table: Dynamic, partial: Option<Partial>)

  /** The outcome of one frame: an error, nothing yet, or a whole header list. */
  type Outcome = Result<Option<seq<Header>>, ReadError>

  function Loaded(run: Run, p: Partial, ends: bool): (Outcome, Reader) {
    var headers := p.headers + run.headers;
    if run.error.Some? && !(run.error.value.NeedMore? && !ends) then (Err(ProtocolError), Reader(run.table, None))
    else if ends then (Ok(Some(headers)), Reader(run.table, None))
    else (Ok(None), Reader(run.table, Some(p.(headers := headers, buf := run.rest))))
  }

  /** `decode_frame`, for what concerns header blocks; `most` is the limit on CONTINUATION frames. */
  function ReadFrame(code: Code, c: Checks, limit: nat, most: nat, r: Reader, f: Frame): (Outcome, Reader) {
    if r.partial.Some? && f.head.kind != KIND_CONTINUATION then (Err(ProtocolError), r)
    else if f.head.kind == KIND_HEADERS then
      Loaded(DecodedBlock(code, c, r.table, limit, true, f.payload), Partial(f.head.stream_id, [], [], 0),
             EndsHeaders(f.head.flag))
    else if f.head.kind == KIND_CONTINUATION then
      if r.partial.None? then (Err(ProtocolError), r)
      else
        var p := r.partial.value;
        if p.stream_id != f.head.stream_id then (Err(ProtocolError), r.(partial := None))
        else if !EndsHeaders(f.head.flag) && p.continuation_frames_count + 1 > most then
          (Err(EnhanceYourCalm), r.(partial := None))
        else
          var count := if EndsHeaders(f.head.flag) then 0 else p.continuation_frames_count + 1;
          Loaded(DecodedBlock(code, c, r.table, limit, true, p.buf + f.payload),
                 p.(continuation_frames_count := count), EndsHeaders(f.head.flag))
    else (Ok(None), r)
  }

  /** Every frame in turn, up to the first error. */
  function ReadFrames(code: Code, c: Checks, limit: nat, most: nat, r: Reader, fs: seq<Frame>): (Outcome, Reader)
    decreases |fs|
  {
    if fs == [] then (Ok(None), r)
    else
      var (o, r1) := ReadFrame(code, c, limit, most, r, fs[0]);
      if o.Err? || o.value.Some? then (o, r1) else ReadFrames(code, c, limit, most, r1, fs[1..])
  }

  /** The parts still to come complete a block that decodes to `whole`. */
  ghost predicate Completes(code: Code, c: Checks, limit: nat, d: Dynamic, p: Partial, parts: seq<Bytes>, whole: Run) {
    var rest := DecodedBlock(code, c, d, limit, true, p.buf + Concat(parts));
    rest.error == None && After(p.headers, rest) == whole
  }

  lemma WholeLeavesNothing(code: Code, c: Checks, d: Dynamic, limit: nat, can_resize: bool, src: Bytes)
    requires DecodedBlock(code, c, d, limit, can_resize, src).error == None
    ensures DecodedBlock(code, c, d, limit, can_resize, src).rest == []
    decreases |src|
  {
    if src != [] {
      hide NextStep;
      var step := NextStep(code, c, d, limit, can_resize, src).value;
      WholeLeavesNothing(code, c, step.table, limit, can_resize && step.headers == [], src[step.used..]);
    }
  }

  lemma PartSplits(buf: Bytes, parts: seq<Bytes>)
    requires parts != []
    ensures (buf + Concat(parts))[..|buf + parts[0]|] == buf + parts[0]
    ensures (buf + Concat(parts))[|buf + parts[0]|..] == Concat(parts[1..])
  {
    assert buf + (parts[0] + Concat(parts[1..])) == (buf + parts[0]) + Concat(parts[1..]);
  }

  /** One more part of the block, not the last. */
  lemma PartResumes(code: Code, c: Checks, limit: nat, d: Dynamic, p: Partial, parts: seq<Bytes>, whole: Run)
    requires parts != [] && Completes(code, c, limit, d, p, parts, whole)
    ensures var run := DecodedBlock(code, c, d, limit, true, p.buf + parts[0]);
            && (run.error == None || run.error.value.NeedMore?)
            && forall count :: Completes(code, c, limit, run.table,
                 Partial(p.stream_id, p.headers + run.headers, run.rest, count), parts[1..], whole)
  {
    var all := p.buf + Concat(parts);
    PartSplits(p.buf, parts);
    hide DecodedBlock;
    DecodingResumes(code, c, d, limit, true, all, |p.buf + parts[0]|);
    var run := DecodedBlock(code, c, d, limit, true, p.buf + parts[0]);
    var second := DecodedBlock(code, c, run.table, limit, true, run.rest + Concat(parts[1..]));
    HpackDecoder.AfterBoth(p.headers, run.headers, second);
  }

  lemma OnePart(buf: Bytes, parts: seq<Bytes>)
    requires |parts| == 1
    ensures buf + Concat(parts) == buf + parts[0]
  {
    assert Concat(parts[1..]) == [];
  }

  /** CONTINUATION frames after a first one. */
  lemma {:induction false} ContinuationsDecode(code: Code, c: Checks, limit: nat, most: nat, r: Reader, parts: seq<Bytes>,
                                              head: Head, whole: Run)
    requires parts != [] && EndsHeaders(head.flag) && head.kind == KIND_CONTINUATION
    requires r.partial.Some? && r.partial.value.stream_id == head.stream_id
    requires r.partial.value.continuation_frames_count + |parts| - 1 <= most
    requires Completes(code, c, limit, r.table, r.partial.value, parts, whole)
    ensures ReadFrames(code, c, limit, most, r, Framed(parts, head)) == (Ok(Some(whole.headers)), Reader(whole.table, None))
    decreases |parts|
  {
    hide DecodedBlock, Completes;
    var p := r.partial.value;
    var fs := Framed(parts, head);
    var run := DecodedBlock(code, c, r.table, limit, true, p.buf + parts[0]);
    if |parts| == 1 {
      OnePart(p.buf, parts);
      LastPart(code, c, limit, r.table, p, parts, whole);
    } else {
      PartResumes(code, c, limit, r.table, p, parts, whole);
      NotLast(head.flag);
      var p1 := Partial(p.stream_id, p.headers + run.headers, run.rest, p.continuation_frames_count + 1);
      assert ReadFrame(code, c, limit, most, r, fs[0]) == (Ok(None), Reader(run.table, Some(p1)));
      assert fs[1..] == Framed(parts[1..], ContinuationHead(head.stream_id));
      ContinuationsDecode(code, c, limit, most, Reader(run.table, Some(p1)), parts[1..],
                          ContinuationHead(head.stream_id), whole);
    }
  }

  lemma NotLast(flag: Byte)
    requires EndsHeaders(flag)
    ensures flag >= END_HEADERS && !EndsHeaders(flag - END_HEADERS)
  {
  }

  lemma LastPart(code: Code, c: Checks, limit: nat, d: Dynamic, p: Partial, parts: seq<Bytes>, whole: Run)
    requires Completes(code, c, limit, d, p, parts, whole)
    ensures var rest := DecodedBlock(code, c, d, limit, true, p.buf + Concat(parts));
            rest.error == None && p.headers + rest.headers == whole.headers && rest.table == whole.table
  {
    hide DecodedBlock;
  }

  /**
    However a block is cut into a HEADERS frame and CONTINUATION frames, the receiver ends up with
    the headers and the table that decoding it whole gives, if that succeeds and the frames are
    not too many.
   */
  lemma BlockReassembles(code: Code, c: Checks, limit: nat, most: nat, d: Dynamic, parts: seq<Bytes>, head: Head)
    requires parts != [] && EndsHeaders(head.flag) && head.kind == KIND_HEADERS && |parts| <= most + 2
    requires DecodedBlock(code, c, d, limit, true, Concat(parts)).error == None
    ensures var whole := DecodedBlock(code, c, d, limit, true, Concat(parts));
            ReadFrames(code, c, limit, most, Reader(d, None), Framed(parts, head)) ==
            (Ok(Some(whole.headers)), Reader(whole.table, None))
  {
    var whole := DecodedBlock(code, c, d, limit, true, Concat(parts));
    var p := Partial(head.stream_id, [], [], 0);
    var fs := Framed(parts, head);
    assert [] + Concat(parts) == Concat(parts) && [] + parts[0] == parts[0];
    HpackDecoder.AfterNothing(whole);
    assert Completes(code, c, limit, d, p, parts, whole);
    hide DecodedBlock, Completes;
    var run := DecodedBlock(code, c, d, limit, true, [] + parts[0]);
    assert [] + run.headers == run.headers;
    if |parts| == 1 {
      OnePart([], parts);
      assert fs == [Frame(head, parts[0])];
    } else {
      PartResumes(code, c, limit, d, p, parts, whole);
      NotLast(head.flag);
      var p1 := Partial(head.stream_id, run.headers, run.rest, 0);
      assert ReadFrame(code, c, limit, most, Reader(d, None), fs[0]) == (Ok(None), Reader(run.table, Some(p1)));
      assert fs[1..] == Framed(parts[1..], ContinuationHead(head.stream_id));
      ContinuationsDecode(code, c, limit, most, Reader(run.table, Some(p1)), parts[1..],
                          ContinuationHead(head.stream_id), whole);
    }
  }
}
