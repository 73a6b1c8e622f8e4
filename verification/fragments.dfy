/**
  What a block that arrives in fragments may contain although the same block, arriving whole, may
  not (src/codec/framed_read.rs, src/hpack/decoder.rs). Every fragment is decoded as if it were the
  start of a block, and one that asks for more octets is taken to be incomplete.
 */
module Fragments {
  import opened Bits
  import opened Wrappers
  import opened Integers
  import opened HuffmanCode
  import opened Strings
  import opened Headers
  import opened DynamicTable
  import opened HeaderBlocks
  import opened Fields
  import opened HeaderFrames
  import opened Reassembly
  import HpackDecoder

  // ----- Literals without a name

  /** A whole literal whose name is a string, the empty one. */
  predicate Nameless(code: Code, src: Bytes)
  {
    && src != [] && IsLiteral(src[0])
    && var n := ReadInt(src, 0, PrefixOf(src[0]));
       && n.Ok? && n.value.0 == 0
       && var name := ReadStr(code, src, n.value.1);
          name.Ok? && name.value.0 == [] && ReadStr(code, src, name.value.1).Ok?
  }

  predicate IsLiteral(b: Byte) {
    Load(b).value in {LiteralWithIndexing, LiteralWithoutIndexing, LiteralNeverIndexed}
  }

  function PrefixOf(b: Byte): nat {
    LiteralPrefix(Load(b).value == LiteralWithIndexing)
  }

  /** Only an empty name makes a header ask for more. */
  lemma EmptyNameAsks(c: Checks, name: Bytes, value: Bytes)
    ensures NewHeader(c, name, value).Err? && NewHeader(c, name, value).error.NeedMore? <==> name == []
    ensures name == [] ==> NewHeader(c, name, value) == Err(NeedMore(UnexpectedEndOfStream))
  {
  }

  /** A literal without a name asks for more octets, whatever octets follow it. */
  lemma NamelessAsks(code: Code, c: Checks, d: Dynamic, limit: nat, can_resize: bool, src: Bytes, more: Bytes)
    requires Nameless(code, src)
    ensures Nameless(code, src + more)
    ensures NextStep(code, c, d, limit, can_resize, src + more).Err?
    ensures NextStep(code, c, d, limit, can_resize, src + more).error.error == NeedMore(UnexpectedEndOfStream)
  {
    var all := src + more;
    assert all[..|src|] == src;
    hide ReadInt, ReadStr;
    var n := ReadInt(src, 0, PrefixOf(src[0]));
    ReadIntExtended(all, 0, PrefixOf(src[0]), |src|);
    ReadStrExtended(code, all, n.value.1, |src|);
    ReadStrExtended(code, all, ReadStr(code, src, n.value.1).value.1, |src|);
    NamelessStep(code, c, d, limit, can_resize, all);
  }

  lemma NamelessStep(code: Code, c: Checks, d: Dynamic, limit: nat, can_resize: bool, src: Bytes)
    requires Nameless(code, src)
    ensures NextStep(code, c, d, limit, can_resize, src).Err?
    ensures NextStep(code, c, d, limit, can_resize, src).error.error == NeedMore(UnexpectedEndOfStream)
  {
    hide ReadInt, ReadStr;
    LiteralParts(code, c, d.entries, src, Load(src[0]).value == LiteralWithIndexing);
  }

  /** Octets are only lost to a request for more when the name of a literal was empty. */
  lemma TakenNameless(code: Code, c: Checks, d: Dynamic, limit: nat, can_resize: bool, src: Bytes)
    requires src != [] && NextStep(code, c, d, limit, can_resize, src).Err?
    requires NextStep(code, c, d, limit, can_resize, src).error.taken > 0
    requires NextStep(code, c, d, limit, can_resize, src).error.error.NeedMore?
    ensures Nameless(code, src)
  {
    hide ReadInt, ReadStr, ReadLiteral, Get, Load;
    LoadIs(src[0]);
    LiteralParts(code, c, d.entries, src, Load(src[0]).value == LiteralWithIndexing);
  }

  lemma LoadIs(b: Byte)
    ensures IsLiteral(b) <==> Load(b).value !in {IndexedField, SizeUpdate}
  {
  }

  // ----- A representation, with more octets behind it

  lemma LiteralExtended(code: Code, c: Checks, s: seq<Header>, src: Bytes, index: bool, k: nat)
    requires 0 < k <= |src| && ReadLiteral(code, c, s, src[..k], index).Ok?
    ensures ReadLiteral(code, c, s, src, index) == ReadLiteral(code, c, s, src[..k], index)
  {
    LiteralParts(code, c, s, src, index);
    LiteralParts(code, c, s, src[..k], index);
    hide ReadLiteral, ReadInt, ReadStr, Get, NewHeader, IntoEntry;
    ReadIntExtended(src, 0, LiteralPrefix(index), k);
    var n := ReadInt(src, 0, LiteralPrefix(index)).value;
    ReadStrExtended(code, src, n.1, k);
    if n.0 == 0 {
      ReadStrExtended(code, src, ReadStr(code, src, n.1).value.1, k);
    }
  }

  lemma StepExtended(code: Code, c: Checks, d: Dynamic, limit: nat, can_resize: bool, src: Bytes, k: nat)
    requires 0 < k <= |src| && NextStep(code, c, d, limit, can_resize, src[..k]).Ok?
    ensures NextStep(code, c, d, limit, can_resize, src) == NextStep(code, c, d, limit, can_resize, src[..k])
  {
    hide ReadInt, ReadLiteral, Get, Resized, Insert, Load;
    assert src[..k][0] == src[0];
    match Load(src[0]).value
    case IndexedField => ReadIntExtended(src, 0, 7, k);
    case LiteralWithIndexing => LiteralExtended(code, c, d.entries, src, true, k);
    case LiteralWithoutIndexing => LiteralExtended(code, c, d.entries, src, false, k);
    case LiteralNeverIndexed => LiteralExtended(code, c, d.entries, src, false, k);
    case SizeUpdate => ReadIntExtended(src, 0, 5, k);
  }

  // ----- What decides about a block

  /** A change of the table size comes after a field; `seen` says whether there was one before. */
  predicate LateUpdate(code: Code, c: Checks, d: Dynamic, limit: nat, seen: bool, src: Bytes)
    decreases |src|
  {
    src != [] && (
      (seen && Load(src[0]).value == SizeUpdate)
      || var r := NextStep(code, c, d, limit, true, src);
         r.Ok? && LateUpdate(code, c, r.value.table, limit, seen || r.value.headers != [], src[r.value.used..]))
  }

  /** The block comes to a literal without a name. */
  predicate MeetsNameless(code: Code, c: Checks, d: Dynamic, limit: nat, src: Bytes)
    decreases |src|
  {
    src != [] && (
      Nameless(code, src)
      || var r := NextStep(code, c, d, limit, true, src);
         r.Ok? && MeetsNameless(code, c, r.value.table, limit, src[r.value.used..]))
  }

  /** Why a block is refused whole, if its fragments are not. */
  function Objection(code: Code, c: Checks, d: Dynamic, limit: nat, seen: bool, src: Bytes): Option<DecoderError> {
    if LateUpdate(code, c, d, limit, seen, src) then Some(InvalidMaxDynamicSize)
    else if MeetsNameless(code, c, d, limit, src) then Some(NeedMore(UnexpectedEndOfStream))
    else None
  }

  /** Decoded whole, the block is refused for one of these reasons, or it gives the same headers and table. */
  ghost predicate Verdict(code: Code, c: Checks, limit: nat, d: Dynamic, seen: bool, src: Bytes,
                          headers: seq<Header>, table: Dynamic)
  {
    var run := DecodedBlock(code, c, d, limit, !seen, src);
    && run.error == Objection(code, c, d, limit, seen, src)
    && (run.error.None? ==> run.headers == headers && run.table == table)
  }

  /** The first representation is decoded. */
  lemma VerdictCons(code: Code, c: Checks, limit: nat, d: Dynamic, seen: bool, src: Bytes, headers: seq<Header>, table: Dynamic)
    requires src != [] && NextStep(code, c, d, limit, true, src).Ok?
    requires seen ==> Load(src[0]).value != SizeUpdate
    requires var step := NextStep(code, c, d, limit, true, src).value;
             Verdict(code, c, limit, step.table, seen || step.headers != [], src[step.used..], headers, table)
    ensures Verdict(code, c, limit, d, seen, src, NextStep(code, c, d, limit, true, src).value.headers + headers, table)
  {
    var step := NextStep(code, c, d, limit, true, src).value;
    SameStep(code, c, d, limit, !seen, src);
    BlockCons(code, c, d, limit, !seen, src);
    NamelessFails(code, c, d, limit, src);
    hide NextStep, DecodedBlock, Nameless;
    assert !(seen || step.headers != []) == (!seen && step.headers == []);
  }

  /** Only size updates depend on where they stand. */
  lemma SameStep(code: Code, c: Checks, d: Dynamic, limit: nat, can_resize: bool, src: Bytes)
    requires src != []
    ensures can_resize || Load(src[0]).value != SizeUpdate ==>
              NextStep(code, c, d, limit, can_resize, src) == NextStep(code, c, d, limit, true, src)
    ensures !can_resize && Load(src[0]).value == SizeUpdate ==>
              NextStep(code, c, d, limit, can_resize, src) == Err(Failure(InvalidMaxDynamicSize, 0))
    ensures NextStep(code, c, d, limit, true, src).Ok? ==>
              (NextStep(code, c, d, limit, true, src).value.headers == [] <==> Load(src[0]).value == SizeUpdate)
  {
    hide IndexedStep, LiteralStep, ResizeStep, Load;
    StepHeaders(code, c, d, limit, src);
  }

  lemma StepHeaders(code: Code, c: Checks, d: Dynamic, limit: nat, src: Bytes)
    ensures IndexedStep(d, src).Ok? ==> IndexedStep(d, src).value.headers != []
    ensures forall index :: LiteralStep(code, c, d, src, index).Ok? ==> LiteralStep(code, c, d, src, index).value.headers != []
    ensures ResizeStep(d, limit, src).Ok? ==> ResizeStep(d, limit, src).value.headers == []
  {
    hide ReadInt, ReadLiteral, Get, Resized, Insert;
  }

  lemma NamelessFails(code: Code, c: Checks, d: Dynamic, limit: nat, src: Bytes)
    requires src != []
    ensures NextStep(code, c, d, limit, true, src).Ok? ==> !Nameless(code, src)
  {
    if Nameless(code, src) {
      NamelessStep(code, c, d, limit, true, src);
    }
  }

  /** A size update after a field is refused. */
  lemma VerdictLate(code: Code, c: Checks, limit: nat, d: Dynamic, src: Bytes, headers: seq<Header>, table: Dynamic)
    requires src != [] && Load(src[0]).value == SizeUpdate
    ensures Verdict(code, c, limit, d, true, src, headers, table)
  {
    SameStep(code, c, d, limit, false, src);
    BlockCons(code, c, d, limit, false, src);
    hide NextStep, DecodedBlock;
  }

  /** So is a literal without a name. */
  lemma VerdictNameless(code: Code, c: Checks, limit: nat, d: Dynamic, seen: bool, src: Bytes,
                        headers: seq<Header>, table: Dynamic)
    requires Nameless(code, src)
    ensures Verdict(code, c, limit, d, seen, src, headers, table)
  {
    NamelessStep(code, c, d, limit, !seen, src);
    NamelessStep(code, c, d, limit, true, src);
    BlockCons(code, c, d, limit, !seen, src);
    LoadIs(src[0]);
    hide NextStep, DecodedBlock;
  }

  /** A fragment in front of what follows: decoding it by itself goes as far as decoding the whole does. */
  lemma {:induction false} FragmentFirst(code: Code, c: Checks, limit: nat, d: Dynamic, can_resize: bool, seen: bool,
                                         frag: Bytes, later: Bytes, headers: seq<Header>, table: Dynamic)
    requires !can_resize ==> seen
    requires var run := DecodedBlock(code, c, d, limit, can_resize, frag);
             && (run.error.None? || run.error.value.NeedMore?)
             && (forall s :: Verdict(code, c, limit, run.table, s, run.rest + later, headers, table))
    ensures Verdict(code, c, limit, d, seen, frag + later,
                    DecodedBlock(code, c, d, limit, can_resize, frag).headers + headers, table)
    decreases |frag|
  {
    hide NextStep, DecodedBlock, Verdict, Nameless;
    var run := DecodedBlock(code, c, d, limit, can_resize, frag);
    var all := frag + later;
    if frag == [] {
      BlockNil(code, c, d, limit, can_resize, frag);
      assert [] + headers == headers && [] + later == all;
      assert run.rest + later == all && run.headers + headers == headers;
      return;
    }
    assert all[..|frag|] == frag && all[0] == frag[0];
    BlockCons(code, c, d, limit, can_resize, frag);
    SameStep(code, c, d, limit, can_resize, frag);
    var r := NextStep(code, c, d, limit, can_resize, frag);
    if r.Err? {
      if r.error.taken == 0 {
        assert frag[0..] == frag && [] + headers == headers;
      } else {
        TakenNameless(code, c, d, limit, can_resize, frag);
        NamelessAsks(code, c, d, limit, true, frag, later);
        VerdictNameless(code, c, limit, d, seen, all, run.headers + headers, table);
      }
    } else if seen && Load(frag[0]).value == SizeUpdate {
      VerdictLate(code, c, limit, d, all, run.headers + headers, table);
    } else {
      var step := r.value;
      StepExtended(code, c, d, limit, true, all, |frag|);
      assert all[step.used..] == frag[step.used..] + later;
      var next := DecodedBlock(code, c, step.table, limit, can_resize && step.headers == [], frag[step.used..]);
      FragmentFirst(code, c, limit, step.table, can_resize && step.headers == [], seen || step.headers != [],
                    frag[step.used..], later, headers, table);
      VerdictCons(code, c, limit, d, seen, all, next.headers + headers, table);
      assert step.headers + (next.headers + headers) == (step.headers + next.headers) + headers;
    }
  }

  // ----- Frames

  lemma NothingLater(code: Code, c: Checks, limit: nat, d: Dynamic, s: bool)
    ensures Verdict(code, c, limit, d, s, [], [], d)
  {
  }

  /** The last fragment. */
  lemma LastFragment(code: Code, c: Checks, limit: nat, d: Dynamic, s: bool, frag: Bytes)
    requires DecodedBlock(code, c, d, limit, true, frag).error == None
    ensures var run := DecodedBlock(code, c, d, limit, true, frag);
            Verdict(code, c, limit, d, s, frag, run.headers, run.table)
  {
    WholeLeavesNothing(code, c, d, limit, true, frag);
    hide DecodedBlock, Verdict;
    var run := DecodedBlock(code, c, d, limit, true, frag);
    forall s1 ensures Verdict(code, c, limit, run.table, s1, run.rest + [], [], run.table) {
      NothingLater(code, c, limit, run.table, s1);
      assert run.rest + [] == [];
    }
    FragmentFirst(code, c, limit, d, true, s, frag, [], [], run.table);
    assert frag + [] == frag && run.headers + [] == run.headers;
  }

  /** What a frame that does not end the block leaves behind. */
  lemma FrameNotLast(run: Run, p: Partial)
    ensures var o := Loaded(run, p, false);
            !o.0.Err? ==> (run.error.None? || run.error.value.NeedMore?)
                          && o == (Ok(None), Reader(run.table, Some(p.(headers := p.headers + run.headers, buf := run.rest))))
  {
  }

  /** CONTINUATION frames that are accepted: the verdict on what they and the octets kept before contain. */
  lemma {:induction false} ContinuationsJudged(code: Code, c: Checks, limit: nat, most: nat, r: Reader, parts: seq<Bytes>,
                                               head: Head, headers: seq<Header>, r1: Reader, s: bool)
    requires parts != [] && EndsHeaders(head.flag) && head.kind == KIND_CONTINUATION
    requires r.partial.Some? && r.partial.value.stream_id == head.stream_id
    requires ReadFrames(code, c, limit, most, r, Framed(parts, head)) == (Ok(Some(headers)), r1)
    ensures r.partial.value.headers <= headers
    ensures Verdict(code, c, limit, r.table, s, r.partial.value.buf + Concat(parts),
                    headers[|r.partial.value.headers|..], r1.table)
    decreases |parts|
  {
    hide DecodedBlock, Verdict;
    var p := r.partial.value;
    var fs := Framed(parts, head);
    var frag := p.buf + parts[0];
    var run := DecodedBlock(code, c, r.table, limit, true, frag);
    if |parts| == 1 {
      OnePart(p.buf, parts);
      assert headers == p.headers + run.headers && r1.table == run.table;
      LastFragment(code, c, limit, r.table, s, frag);
      assert headers[|p.headers|..] == run.headers;
    } else {
      NotLast(head.flag);
      var count := p.continuation_frames_count + 1;
      FrameNotLast(run, p.(continuation_frames_count := count));
      var p1 := Partial(p.stream_id, p.headers + run.headers, run.rest, count);
      assert ReadFrame(code, c, limit, most, r, fs[0]) == (Ok(None), Reader(run.table, Some(p1)));
      assert fs[1..] == Framed(parts[1..], ContinuationHead(head.stream_id));
      ContinuationsJudged(code, c, limit, most, Reader(run.table, Some(p1)), parts[1..],
                          ContinuationHead(head.stream_id), headers, r1, s);
      forall s1 ensures Verdict(code, c, limit, run.table, s1, run.rest + Concat(parts[1..]), headers[|p1.headers|..], r1.table) {
        ContinuationsJudged(code, c, limit, most, Reader(run.table, Some(p1)), parts[1..],
                            ContinuationHead(head.stream_id), headers, r1, s1);
      }
      FragmentFirst(code, c, limit, r.table, true, s, frag, Concat(parts[1..]), headers[|p1.headers|..], r1.table);
      assert frag + Concat(parts[1..]) == p.buf + Concat(parts);
      assert headers[|p.headers|..] == run.headers + headers[|p1.headers|..];
    }
  }

  /**
    Where the fragments of a block are accepted, the whole block gives the same headers and table,
    unless it is refused. It is refused exactly if the size of the table changes after a field, in a
    later fragment, or else if it comes to a literal without a name, which its own fragment dropped.
   */
  lemma FragmentsJudged(code: Code, c: Checks, limit: nat, most: nat, d: Dynamic, parts: seq<Bytes>, head: Head,
                        headers: seq<Header>, r1: Reader)
    requires parts != [] && EndsHeaders(head.flag) && head.kind == KIND_HEADERS
    requires ReadFrames(code, c, limit, most, Reader(d, None), Framed(parts, head)) == (Ok(Some(headers)), r1)
    ensures var src := Concat(parts);
            var whole := DecodedBlock(code, c, d, limit, true, src);
            && (whole.error.None? ==> whole.headers == headers && whole.table == r1.table)
            && (whole.error == Some(InvalidMaxDynamicSize) <==> LateUpdate(code, c, d, limit, false, src))
            && (whole.error == Some(NeedMore(UnexpectedEndOfStream)) <==>
                 !LateUpdate(code, c, d, limit, false, src) && MeetsNameless(code, c, d, limit, src))
            && whole.error in {None, Some(InvalidMaxDynamicSize), Some(NeedMore(UnexpectedEndOfStream))}
  {
    var fs := Framed(parts, head);
    var run := DecodedBlock(code, c, d, limit, true, parts[0]);
    assert [] + run.headers == run.headers;
    hide DecodedBlock, LateUpdate, MeetsNameless;
    if |parts| == 1 {
      OnePart([], parts);
      assert [] + parts[0] == parts[0] && [] + Concat(parts) == Concat(parts);
      assert fs == [Frame(head, parts[0])];
      LastFragment(code, c, limit, d, false, parts[0]);
    } else {
      NotLast(head.flag);
      FrameNotLast(run, Partial(head.stream_id, [], [], 0));
      var p1 := Partial(head.stream_id, run.headers, run.rest, 0);
      assert ReadFrame(code, c, limit, most, Reader(d, None), fs[0]) == (Ok(None), Reader(run.table, Some(p1)));
      assert fs[1..] == Framed(parts[1..], ContinuationHead(head.stream_id));
      JudgeRest(code, c, limit, most, d, parts, head, headers, r1, p1);
    }
  }

  lemma JudgeRest(code: Code, c: Checks, limit: nat, most: nat, d: Dynamic, parts: seq<Bytes>, head: Head,
                  headers: seq<Header>, r1: Reader, p1: Partial)
    requires |parts| > 1
    requires var run := DecodedBlock(code, c, d, limit, true, parts[0]);
             && (run.error.None? || run.error.value.NeedMore?)
             && p1 == Partial(head.stream_id, run.headers, run.rest, 0)
             && ReadFrames(code, c, limit, most, Reader(run.table, Some(p1)), Framed(parts[1..], ContinuationHead(head.stream_id)))
                == (Ok(Some(headers)), r1)
    ensures Verdict(code, c, limit, d, false, Concat(parts), headers, r1.table)
  {
    hide DecodedBlock, Verdict, ReadFrames;
    var run := DecodedBlock(code, c, d, limit, true, parts[0]);
    ContinuationsJudged(code, c, limit, most, Reader(run.table, Some(p1)), parts[1..],
                        ContinuationHead(head.stream_id), headers, r1, false);
    forall s1 ensures Verdict(code, c, limit, run.table, s1, run.rest + Concat(parts[1..]), headers[|p1.headers|..], r1.table) {
      ContinuationsJudged(code, c, limit, most, Reader(run.table, Some(p1)), parts[1..],
                          ContinuationHead(head.stream_id), headers, r1, s1);
    }
    FragmentFirst(code, c, limit, d, true, false, parts[0], Concat(parts[1..]), headers[|p1.headers|..], r1.table);
    assert headers == run.headers + headers[|p1.headers|..];
  }

  // ----- Two blocks that are refused whole but accepted in fragments

  /** An indexed field, `:method: GET`. */
  const FIELD: Bytes := [0x82]
  /** The size of the table becomes zero. */
  const UPDATE: Bytes := [0x20]
  /** A literal whose name and value are empty. */
  const EMPTY_LITERAL: Bytes := [0x40, 0, 0]

  lemma FieldStep(code: Code, c: Checks, d: Dynamic, limit: nat, can_resize: bool, more: Bytes)
    ensures NextStep(code, c, d, limit, can_resize, FIELD + more) == Ok(Step([GetStatic(2)], d, 1))
    ensures (FIELD + more)[1..] == more
  {
    Prefixes();
    assert (FIELD + more)[0] == 0x82;
    hide Resized, Insert, ReadLiteral, GetStatic, LowBits, Pow2;
    assert Load(0x82).value == IndexedField;
  }

  lemma UpdateStep(code: Code, c: Checks, d: Dynamic, limit: nat)
    ensures NextStep(code, c, d, limit, true, UPDATE) == Ok(Step([], Resized(d, 0), 1))
    ensures Load(UPDATE[0]).value == SizeUpdate
  {
    Prefixes();
    hide Resized, Insert, ReadLiteral, GetStatic, LowBits, Pow2;
  }

  lemma Prefixes()
    ensures LowBits(0x82, 7) == 2 && LowBits(0x20, 5) == 0 && LowBits(0x40, 6) == 0 && LowBits(0, 7) == 0
    ensures Pow2(7) == 128 && Pow2(6) == 64 && Pow2(5) == 32
  {
    Pow2Table();
  }

  /** A block that is just a field, or just a size update. */
  lemma OneStep(code: Code, c: Checks, d: Dynamic, limit: nat, can_resize: bool)
    ensures DecodedBlock(code, c, d, limit, can_resize, FIELD) == Run([GetStatic(2)], d, [], None)
    ensures DecodedBlock(code, c, d, limit, true, UPDATE) == Run([], Resized(d, 0), [], None)
  {
    FieldStep(code, c, d, limit, can_resize, []);
    assert FIELD + [] == FIELD && FIELD[1..] == [] && UPDATE[1..] == [];
    UpdateStep(code, c, d, limit);
    hide NextStep, Resized, GetStatic;
    BlockCons(code, c, d, limit, can_resize, FIELD);
    BlockCons(code, c, d, limit, true, UPDATE);
    BlockNil(code, c, d, limit, false, []);
    BlockNil(code, c, Resized(d, 0), limit, true, []);
  }

  /** A field, then a size update, cut between the two. */
  lemma LateUpdateAccepted(code: Code, c: Checks, limit: nat, most: nat, d: Dynamic, stream_id: nat)
    ensures ReadFrames(code, c, limit, most, Reader(d, None),
                       Framed([FIELD, UPDATE], Head(KIND_HEADERS, END_HEADERS, stream_id)))
            == (Ok(Some([GetStatic(2)])), Reader(Resized(d, 0), None))
    ensures DecodedBlock(code, c, d, limit, true, FIELD + UPDATE).error == Some(InvalidMaxDynamicSize)
  {
    OneStep(code, c, d, limit, true);
    FieldStep(code, c, d, limit, true, UPDATE);
    SameStep(code, c, d, limit, false, UPDATE);
    UpdateStep(code, c, d, limit);
    BlockCons(code, c, d, limit, true, FIELD + UPDATE);
    BlockCons(code, c, d, limit, false, UPDATE);
    hide DecodedBlock, NextStep, Resized, GetStatic;
    TwoFrames(FIELD, UPDATE, stream_id);
    assert [] + UPDATE == UPDATE && [] + [GetStatic(2)] == [GetStatic(2)] && [GetStatic(2)] + [] == [GetStatic(2)];
  }

  lemma TwoFrames(a: Bytes, b: Bytes, stream_id: nat)
    ensures var fs := Framed([a, b], Head(KIND_HEADERS, END_HEADERS, stream_id));
            && fs == [Frame(Head(KIND_HEADERS, 0, stream_id), a), Frame(ContinuationHead(stream_id), b)]
            && fs[1..] == [Frame(ContinuationHead(stream_id), b)]
            && fs[1..][1..] == []
  {
    assert [a, b][1..] == [b];
    assert Framed([b], ContinuationHead(stream_id)) == [Frame(ContinuationHead(stream_id), b)];
  }

  /** The literal is taken from the buffer, and then asks for more. */
  lemma EmptyLiteralStep(code: Code, c: Checks, d: Dynamic, limit: nat, can_resize: bool, more: Bytes)
    ensures NextStep(code, c, d, limit, can_resize, EMPTY_LITERAL + more) ==
            Err(Failure(NeedMore(UnexpectedEndOfStream), 3))
  {
    Prefixes();
    var src := EMPTY_LITERAL + more;
    assert src[0] == 0x40 && src[1] == 0 && src[2] == 0 && src[2..2] == [] && src[3..3] == [];
    hide Insert, LowBits, Pow2;
    assert Load(0x40).value == LiteralWithIndexing;
    assert ReadStr(code, src, 1) == Ok(([], 2));
    assert ReadStr(code, src, 2) == Ok(([], 3));
    hide ReadStr;
    LiteralParts(code, c, d.entries, src, true);
  }

  /** A literal without a name, then a field: the first fragment is taken to be incomplete and forgotten. */
  lemma NamelessAccepted(code: Code, c: Checks, limit: nat, most: nat, d: Dynamic, stream_id: nat)
    ensures ReadFrames(code, c, limit, most, Reader(d, None),
                       Framed([EMPTY_LITERAL, FIELD], Head(KIND_HEADERS, END_HEADERS, stream_id)))
            == (Ok(Some([GetStatic(2)])), Reader(d, None))
    ensures DecodedBlock(code, c, d, limit, true, EMPTY_LITERAL + FIELD).error == Some(NeedMore(UnexpectedEndOfStream))
  {
    OneStep(code, c, d, limit, true);
    EmptyLiteralStep(code, c, d, limit, true, FIELD);
    EmptyLiteralStep(code, c, d, limit, true, []);
    assert EMPTY_LITERAL + [] == EMPTY_LITERAL && EMPTY_LITERAL[3..] == [] && [] + FIELD == FIELD;
    BlockCons(code, c, d, limit, true, EMPTY_LITERAL + FIELD);
    BlockCons(code, c, d, limit, true, EMPTY_LITERAL);
    hide DecodedBlock, NextStep, Resized, GetStatic, Framed, ReadFrames;
    assert [] + [GetStatic(2)] == [GetStatic(2)];
    var none: seq<Header> := [];
    assert none + none == none;
    var p := Partial(stream_id, none, [], 0);
    assert ReadFrame(code, c, limit, most, Reader(d, None), Frame(Head(KIND_HEADERS, 0, stream_id), EMPTY_LITERAL)) ==
           (Ok(None), Reader(d, Some(p)));
    assert ReadFrame(code, c, limit, most, Reader(d, Some(p)), Frame(ContinuationHead(stream_id), FIELD)) ==
           (Ok(Some([GetStatic(2)])), Reader(d, None));
    TwoRead(code, c, limit, most, Reader(d, None), Reader(d, Some(p)), Reader(d, None), EMPTY_LITERAL, FIELD, stream_id,
            [GetStatic(2)]);
  }

  lemma TwoRead(code: Code, c: Checks, limit: nat, most: nat, r0: Reader, r1: Reader, r2: Reader, a: Bytes, b: Bytes,
                stream_id: nat, headers: seq<Header>)
    requires ReadFrame(code, c, limit, most, r0, Frame(Head(KIND_HEADERS, 0, stream_id), a)) == (Ok(None), r1)
    requires ReadFrame(code, c, limit, most, r1, Frame(ContinuationHead(stream_id), b)) == (Ok(Some(headers)), r2)
    ensures ReadFrames(code, c, limit, most, r0, Framed([a, b], Head(KIND_HEADERS, END_HEADERS, stream_id))) ==
            (Ok(Some(headers)), r2)
  {
    TwoFrames(a, b, stream_id);
    hide ReadFrame, Framed;
  }
}
