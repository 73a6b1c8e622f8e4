/** Decoding what was encoded, block after block (src/hpack/test/fuzz.rs). */
module RoundTrip {
  import opened Bits
  import opened Wrappers
  import opened Integers
  import opened HuffmanCode
  import opened Strings
  import opened Headers
  import opened DynamicTable
  import opened HeaderBlocks
  import opened Fields

  // ----- Tables in step

  /** A header as the decoder reports it. */
  function Plain(h: Header): Header {
    h.(sensitive := false)
  }

  function Plains(s: seq<Header>): (t: seq<Header>)
    ensures |t| == |s| && forall i :: 0 <= i < |s| ==> t[i] == Plain(s[i])
  {
    seq(|s|, i requires 0 <= i < |s| => Plain(s[i]))
  }

  /** The decoder's table when the encoder's is `d`. */
  function Mirrored(d: Dynamic): Dynamic {
    Dynamic(Plains(d.entries), d.max)
  }

  lemma {:induction false} PlainsSize(s: seq<Header>)
    ensures Size(Plains(s)) == Size(s)
  {
    if s != [] {
      var n := |s| - 1;
      assert Plains(s)[..n] == Plains(s[..n]);
      PlainsSize(s[..n]);
    }
  }

  lemma {:induction false} PlainsEvict(s: seq<Header>, bound: int)
    ensures EvictTo(Plains(s), bound) == Plains(EvictTo(s, bound))
  {
    PlainsSize(s);
    if s != [] && Size(s) > bound {
      var n := |s| - 1;
      assert Plains(s)[..n] == Plains(s[..n]);
      PlainsEvict(s[..n], bound);
    }
  }

  lemma PlainsInsert(s: seq<Header>, max: nat, h: Header)
    ensures Insert(Plains(s), max, Plain(h)) == Plains(Insert(s, max, h))
  {
    hide EvictTo, Plains;
    PlainsEvict(s, max - Len(h));
    PlainsCons(h, EvictTo(s, max - Len(h)));
    assert Plains([]) == [];
  }

  lemma PlainsCons(h: Header, s: seq<Header>)
    ensures Plains([h] + s) == [Plain(h)] + Plains(s)
  {
    hide Plains;
  }

  lemma {:induction false} EagerlyMirrored(d: Dynamic, vals: seq<nat>)
    ensures Eagerly(Mirrored(d), vals) == Mirrored(Eagerly(d, vals))
    decreases |vals|
  {
    if vals != [] {
      PlainsEvict(d.entries, vals[0]);
      EagerlyMirrored(Resized(d, vals[0]), vals[1..]);
    }
  }

  // ----- What may be sent

  predicate Bounded(code: Code, s: Bytes) {
    s == [] || |Encoded(code, s)| < 127 + VARINT_LIMIT
  }

  /** A header that the decoder's checks accept, within the integer bound. */
  predicate Sendable(code: Code, c: Checks, h: Header) {
    && Bounded(code, h.name) && Bounded(code, h.value)
    && NewHeader(c, h.name, h.value) == Ok(Plain(h))
  }

  /** The name that a field without one takes. */
  function NameAfter(lines: seq<FieldLine>, name: Bytes): Bytes
    requires lines != []
  {
    if lines[0].Named? then lines[0].header.name else name
  }

  /** Every line, with its name filled in, may be sent. */
  predicate AllSendable(code: Code, c: Checks, lines: seq<FieldLine>, name: Bytes)
    decreases |lines|
  {
    lines == [] || (
      && Sendable(code, c, FullHeader(lines[0], name))
      && AllSendable(code, c, lines[1..], NameAfter(lines, name)))
  }

  function FullHeader(line: FieldLine, name: Bytes): Header {
    match line
    case Named(h) => h
    case Nameless(value, sensitive) => Header(name, value, sensitive)
  }

  /** The headers a receiver is to see. */
  function Expected(lines: seq<FieldLine>, name: Bytes): (hs: seq<Header>)
    ensures |hs| == |lines|
    decreases |lines|
  {
    if lines == [] then []
    else [Plain(FullHeader(lines[0], name))] + Expected(lines[1..], NameAfter(lines, name))
  }

  // ----- Integers and the first octet

  lemma FirstByte(value: nat, prefix: nat, base: Byte)
    requires ValidPrefix(prefix, base)
    ensures base <= EncodedInt(value, prefix, base)[0] < base + Pow2(prefix)
  {
  }

  /** An index or size at the front of the buffer. */
  lemma FrontInt(value: nat, prefix: nat, base: Byte, rest: Bytes)
    requires ValidPrefix(prefix, base) && value < VARINT_LIMIT
    ensures ReadInt(EncodedInt(value, prefix, base) + rest, 0, prefix) == Ok((value, |EncodedInt(value, prefix, base)|))
    ensures base <= (EncodedInt(value, prefix, base) + rest)[0] < base + Pow2(prefix)
  {
    var bs := EncodedInt(value, prefix, base);
    assert At(bs + rest, 0, bs);
    IntRoundTrip(value, prefix, base, bs + rest, 0);
    FirstByte(value, prefix, base);
    Pow2Positive(prefix);
  }

  lemma {:induction false} Pow2Positive(n: nat)
    ensures Pow2(n) >= 1
  {
    if n > 0 {
      Pow2Positive(n - 1);
    }
  }

  lemma NextStr(code: Code, val: Bytes, before: Bytes, after: Bytes, src: Bytes)
    requires HuffmanCode.Valid(code) && Bounded(code, val) && src == before + (EncodedStr(code, val) + after)
    ensures ReadStr(code, src, |before|) == Ok((val, |before| + |EncodedStr(code, val)|))
  {
    hide EncodedStr, ReadStr, HuffmanCode.Valid;
    assert At(src, |before|, EncodedStr(code, val)) by {
      assert src[|before|..|before| + |EncodedStr(code, val)|] == EncodedStr(code, val);
    }
    StrRoundTrip(code, val, src, |before|);
  }

  // ----- What an index refers to

  predicate RefersName(s: seq<Header>, idx: nat, name: Bytes) {
    idx < DYN_OFFSET + |s| && Get(s, idx).Ok? && Get(s, idx).value.name == name
  }

  predicate RefersField(s: seq<Header>, idx: nat, h: Header) {
    RefersName(s, idx, h.name) && Get(s, idx).value.value == h.value
  }

  /** The reference picked for a header says what the header is. */
  lemma IndexMeans(s: seq<Header>, max: nat, h: Header)
    ensures var (index, after) := IndexHeader(s, max, h);
            match index
            case Indexed(idx, x) => x == h && RefersField(s, idx, h) && after == s
            case Name(idx, x) => x == h && RefersName(s, idx, h.name) && after == s
            case Inserted(slot) => slot == 0 && after == Insert(s, max, h) && !IsSensitive(h)
            case InsertedValue(idx, slot) => slot == 0 && RefersName(s, idx, h.name) && after == Insert(s, max, h) && !IsSensitive(h)
            case NotIndexed(x) => x == h && after == s
  {
    StaticMeans(s, h);
    hide IndexStatic, SkipValueIndex, IsSensitive, Insert, GetStatic, FindField, FindName;
  }

  lemma StaticMeans(s: seq<Header>, h: Header)
    ensures IndexStatic(h).Some? ==> RefersName(s, IndexStatic(h).value.0, h.name)
    ensures IndexStatic(h).Some? && IndexStatic(h).value.1 ==> RefersField(s, IndexStatic(h).value.0, h)
  {
    StaticAgrees(h);
    hide IndexStatic, GetStatic;
  }

  /** What the decoder finds there. */
  lemma GetMirrored(s: seq<Header>, idx: nat, name: Bytes)
    requires RefersName(s, idx, name)
    ensures idx > 0 && Get(Plains(s), idx) == Ok(Plain(Get(s, idx).value))
  {
    if 0 < idx <= STATIC_SIZE {
      StaticIsPlain(idx);
    }
    hide GetStatic;
  }

  lemma StaticIsPlain(idx: nat)
    requires 1 <= idx <= STATIC_SIZE
    ensures !GetStatic(idx).sensitive
  {
    hide Static;
  }

  // ----- One header

  lemma IndexedComesBack(code: Code, c: Checks, d: Dynamic, limit: nat, can_resize: bool, idx: nat, h: Header, rest: Bytes)
    requires RefersField(d.entries, idx, h) && idx < VARINT_LIMIT
    ensures ValidPrefix(7, INDEXED)
    ensures var bs := EncodedInt(idx, 7, INDEXED);
            NextStep(code, c, Mirrored(d), limit, can_resize, bs + rest) == Ok(Step([Plain(h)], Mirrored(d), |bs|))
  {
    FieldPrefixes();
    Pow2Table();
    FrontInt(idx, 7, INDEXED, rest);
    GetMirrored(d.entries, idx, h.name);
    var src := EncodedInt(idx, 7, INDEXED) + rest;
    assert Load(src[0]) == Ok(IndexedField);
    hide ReadInt, EncodedInt, Get, Load, Pow2;
  }

  /** A literal whose name is that of entry `idx`. */
  lemma OldNameComesBack(code: Code, c: Checks, s: seq<Header>, index: bool, base: Byte, idx: nat, h: Header, rest: Bytes)
    requires HuffmanCode.Valid(code) && ValidPrefix(LiteralPrefix(index), base)
    requires RefersName(s, idx, h.name) && idx < VARINT_LIMIT && Sendable(code, c, h)
    ensures var bs := EncodedInt(idx, LiteralPrefix(index), base) + EncodedStr(code, h.value);
            ReadLiteral(code, c, Plains(s), bs + rest, index) == Ok((Plain(h), |bs|))
            && base <= (bs + rest)[0] < base + Pow2(LiteralPrefix(index))
  {
    hide Sendable, RefersName, ReadInt, ReadStr, EncodedInt, EncodedStr, ValidPrefix, Pow2, HuffmanCode.Valid, Get, Bounded;
    var head, str := EncodedInt(idx, LiteralPrefix(index), base), EncodedStr(code, h.value);
    var src := head + str + rest;
    assert src == head + (str + rest);
    FrontInt(idx, LiteralPrefix(index), base, str + rest);
    GetMirrored(s, idx, h.name);
    SendableParts(code, c, h);
    NextStr(code, h.value, head, rest, src);
    RefersNameIs(s, idx, h.name);
  }

  lemma RefersNameIs(s: seq<Header>, idx: nat, name: Bytes)
    requires RefersName(s, idx, name)
    ensures Get(s, idx).Ok? && Plain(Get(s, idx).value).name == name
  {
  }

  lemma SendableParts(code: Code, c: Checks, h: Header)
    requires Sendable(code, c, h)
    ensures Bounded(code, h.name) && Bounded(code, h.value) && c.valueOk(h.name, h.value)
    ensures NewHeader(c, h.name, h.value) == Ok(Plain(h)) && IntoEntry(c, h.name, h.value) == Ok(Plain(h))
  {
  }

  /** A literal whose name is spelled out. */
  lemma NewNameComesBack(code: Code, c: Checks, s: seq<Header>, index: bool, base: Byte, h: Header, rest: Bytes)
    requires HuffmanCode.Valid(code) && ValidPrefix(LiteralPrefix(index), base) && Sendable(code, c, h)
    ensures var bs := [base] + EncodedStr(code, h.name) + EncodedStr(code, h.value);
            ReadLiteral(code, c, Plains(s), bs + rest, index) == Ok((Plain(h), |bs|))
  {
    hide Sendable, ReadInt, ReadStr, EncodedInt, EncodedStr, ValidPrefix, Pow2, HuffmanCode.Valid, Bounded, NewHeader;
    var n, v := EncodedStr(code, h.name), EncodedStr(code, h.value);
    var src := [base] + n + v + rest;
    assert src == [base] + (n + (v + rest));
    assert src == [base] + n + (v + rest);
    ZeroInt(LiteralPrefix(index), base);
    FrontInt(0, LiteralPrefix(index), base, n + (v + rest));
    SendableParts(code, c, h);
    NextStr(code, h.name, [base], v + rest, src);
    NextStr(code, h.value, [base] + n, rest, src);
  }

  lemma ZeroInt(prefix: nat, base: Byte)
    requires ValidPrefix(prefix, base)
    ensures EncodedInt(0, prefix, base) == [base]
  {
    Pow2Positive(prefix - 1);
  }

  /** A literal that is not added to the table. */
  lemma NotIndexedComesBack(code: Code, c: Checks, d: Dynamic, limit: nat, can_resize: bool, bs: Bytes, h: Header,
                            sensitive: bool, rest: Bytes)
    requires bs != [] && NeverFlag(sensitive) <= (bs + rest)[0] < NeverFlag(sensitive) + 16
    requires ReadLiteral(code, c, Plains(d.entries), bs + rest, false) == Ok((Plain(h), |bs|))
    ensures NextStep(code, c, Mirrored(d), limit, can_resize, bs + rest) == Ok(Step([Plain(h)], Mirrored(d), |bs|))
  {
    hide ReadLiteral;
    assert Load((bs + rest)[0]).value == if sensitive then LiteralNeverIndexed else LiteralWithoutIndexing;
  }

  /** A literal that is added to the table. */
  lemma InsertedComesBack(code: Code, c: Checks, d: Dynamic, limit: nat, can_resize: bool, bs: Bytes, h: Header, rest: Bytes)
    requires bs != [] && WITH_INDEXING <= (bs + rest)[0] < WITH_INDEXING + 64
    requires ReadLiteral(code, c, Plains(d.entries), bs + rest, true) == Ok((Plain(h), |bs|))
    ensures NextStep(code, c, Mirrored(d), limit, can_resize, bs + rest) ==
            Ok(Step([Plain(h)], Mirrored(d.(entries := Insert(d.entries, d.max, h))), |bs|))
  {
    PlainsInsert(d.entries, d.max, h);
    hide ReadLiteral, Insert;
    assert Load((bs + rest)[0]).value == LiteralWithIndexing;
  }

  /** Every index stays below the integer bound when the table is small enough. */
  predicate Small(d: Dynamic) {
    Size(d.entries) <= d.max < VARINT_LIMIT
  }

  lemma SmallIndex(d: Dynamic, idx: nat, name: Bytes)
    requires Small(d) && RefersName(d.entries, idx, name)
    ensures idx < VARINT_LIMIT
  {
  }

  /** Whatever index is picked for a header, decoding gives the header and the mirrored table. */
  lemma HeaderComesBack(code: Code, c: Checks, d: Dynamic, limit: nat, can_resize: bool, h: Header, rest: Bytes)
    requires HuffmanCode.Valid(code) && Small(d) && Sendable(code, c, h)
    ensures Resolves(IndexHeader(d.entries, d.max, h).0, IndexHeader(d.entries, d.max, h).1)
    ensures var (index, after) := IndexHeader(d.entries, d.max, h);
            var bs := EncodedHeader(code, index, after);
            bs != [] && NextStep(code, c, Mirrored(d), limit, can_resize, bs + rest) ==
                        Ok(Step([Plain(h)], Mirrored(Dynamic(after, d.max)), |bs|))
  {
    hide IndexHeader, Insert, Sendable, RefersName, RefersField, ReadLiteral, NextStep, EncodedInt, EncodedStr, ValidPrefix,
      HuffmanCode.Valid, Mirrored, Small, IsSensitive;
    FieldPrefixes();
    Pow2Table();
    IndexMeans(d.entries, d.max, h);
    IndexResolves(d.entries, d.max, h);
    var (index, after) := IndexHeader(d.entries, d.max, h);
    var bs := EncodedHeader(code, index, after);
    match index
    case Indexed(idx, _) =>
      FieldIsName(d.entries, idx, h);
      SmallIndex(d, idx, h.name);
      IndexedComesBack(code, c, d, limit, can_resize, idx, h, rest);
    case Name(idx, _) =>
      SmallIndex(d, idx, h.name);
      OldNameComesBack(code, c, d.entries, false, NeverFlag(IsSensitive(h)), idx, h, rest);
      NotIndexedComesBack(code, c, d, limit, can_resize, bs, h, IsSensitive(h), rest);
    case Inserted(_) =>
      NewNameComesBack(code, c, d.entries, true, WITH_INDEXING, h, rest);
      InsertedComesBack(code, c, d, limit, can_resize, bs, h, rest);
    case InsertedValue(idx, _) =>
      SmallIndex(d, idx, h.name);
      OldNameComesBack(code, c, d.entries, true, WITH_INDEXING, idx, h, rest);
      InsertedComesBack(code, c, d, limit, can_resize, bs, h, rest);
    case NotIndexed(_) =>
      NewNameComesBack(code, c, d.entries, false, NeverFlag(IsSensitive(h)), h, rest);
      NotIndexedComesBack(code, c, d, limit, can_resize, bs, h, IsSensitive(h), rest);
  }

  lemma FieldIsName(s: seq<Header>, idx: nat, h: Header)
    requires RefersField(s, idx, h)
    ensures RefersName(s, idx, h.name)
  {
  }

  // ----- A list of headers

  /** The name that one more value would be given is the one that was encoded last. */
  predicate NamesLast(last: Index, s: seq<Header>, name: Bytes) {
    && Resolves(last, s)
    && if last.NotIndexed? then last.header.name == name else RefersName(s, ResolveIdx(last), name)
  }

  lemma HeaderNamesLast(s: seq<Header>, max: nat, h: Header)
    ensures NamesLast(IndexHeader(s, max, h).0, IndexHeader(s, max, h).1, h.name)
  {
    IndexMeans(s, max, h);
    IndexResolves(s, max, h);
    hide IndexHeader, IsSensitive, Insert, GetStatic;
  }

  lemma NamelessComesBack(code: Code, c: Checks, d: Dynamic, limit: nat, can_resize: bool, last: Index, h: Header, rest: Bytes)
    requires HuffmanCode.Valid(code) && Small(d) && Sendable(code, c, h) && NamesLast(last, d.entries, h.name)
    ensures var bs := EncodedNameless(code, last, d.entries, h.value, h.sensitive);
            bs != [] && NextStep(code, c, Mirrored(d), limit, can_resize, bs + rest) ==
                        Ok(Step([Plain(h)], Mirrored(d), |bs|))
  {
    hide RefersName, Sendable, ReadLiteral, NextStep, EncodedInt, EncodedStr, ValidPrefix, HuffmanCode.Valid, Mirrored, Small;
    FieldPrefixes();
    Pow2Table();
    var bs := EncodedNameless(code, last, d.entries, h.value, h.sensitive);
    if last.NotIndexed? {
      NewNameComesBack(code, c, d.entries, false, NeverFlag(h.sensitive), h, rest);
    } else {
      SmallIndex(d, ResolveIdx(last), h.name);
      OldNameComesBack(code, c, d.entries, false, NeverFlag(h.sensitive), ResolveIdx(last), h, rest);
    }
    NotIndexedComesBack(code, c, d, limit, can_resize, bs, h, h.sensitive, rest);
  }

  lemma Unrolled(code: Code, c: Checks, d: Dynamic, limit: nat, can_resize: bool, bs: Bytes, rest: Bytes, step: Step)
    requires bs != [] && NextStep(code, c, d, limit, can_resize, bs + rest) == Ok(step) && step.used == |bs|
    ensures DecodedBlock(code, c, d, limit, can_resize, bs + rest) ==
            After(step.headers, DecodedBlock(code, c, step.table, limit, can_resize && step.headers == [], rest))
  {
    assert (bs + rest)[|bs|..] == rest;
    hide NextStep;
  }

  lemma IndexKeepsSmall(d: Dynamic, h: Header)
    requires Small(d)
    ensures Small(Dynamic(IndexHeader(d.entries, d.max, h).1, d.max))
  {
    IndexMeans(d.entries, d.max, h);
    hide IndexHeader, EvictTo;
  }

  /** Fields, repeats of a name included, come back in order; the tables stay in step. */
  lemma {:induction false} LinesComeBack(code: Code, c: Checks, d: Dynamic, limit: nat, can_resize: bool,
                                         lines: seq<FieldLine>, last: Option<Index>, name: Bytes, rest: Bytes)
    requires HuffmanCode.Valid(code) && Small(d) && AllSendable(code, c, lines, name)
    requires last.None? ==> StartsNamed(lines)
    requires last.Some? ==> NamesLast(last.value, d.entries, name)
    ensures last.Some? ==> Resolves(last.value, d.entries)
    ensures var (bs, after) := EncodedLines(code, d, lines, last);
            DecodedBlock(code, c, Mirrored(d), limit, can_resize, bs + rest) ==
            After(Expected(lines, name),
                  DecodedBlock(code, c, Mirrored(Dynamic(after, d.max)), limit, can_resize && lines == [], rest))
    decreases |lines|
  {
    hide IndexHeader, Sendable, NextStep, HuffmanCode.Valid, EncodedHeader, EncodedNameless, NamesLast, Small, Mirrored,
      DecodedBlock;
    if last.Some? {
      NamesLastResolves(last.value, d.entries, name);
    }
    var (bs, after) := EncodedLines(code, d, lines, last);
    if lines == [] {
      assert bs + rest == rest;
      AfterNone(DecodedBlock(code, c, Mirrored(d), limit, can_resize, rest));
      assert Dynamic(after, d.max) == d;
    } else {
      LineComesBack(code, c, d, limit, can_resize, lines, last, name, rest);
    }
  }

  lemma AfterNone(run: Run)
    ensures After([], run) == run
  {
    assert [] + run.headers == run.headers;
  }

  lemma AfterTwo(a: seq<Header>, b: seq<Header>, run: Run)
    ensures After(a, After(b, run)) == After(a + b, run)
  {
    assert a + (b + run.headers) == a + b + run.headers;
  }

  lemma NamesLastResolves(last: Index, s: seq<Header>, name: Bytes)
    requires NamesLast(last, s, name)
    ensures Resolves(last, s)
  {
  }

  lemma {:induction false} LineComesBack(code: Code, c: Checks, d: Dynamic, limit: nat, can_resize: bool,
                                         lines: seq<FieldLine>, last: Option<Index>, name: Bytes, rest: Bytes)
    requires HuffmanCode.Valid(code) && Small(d) && lines != [] && AllSendable(code, c, lines, name)
    requires last.None? ==> StartsNamed(lines)
    requires last.Some? ==> NamesLast(last.value, d.entries, name) && Resolves(last.value, d.entries)
    ensures var (bs, after) := EncodedLines(code, d, lines, last);
            DecodedBlock(code, c, Mirrored(d), limit, can_resize, bs + rest) ==
            After(Expected(lines, name), DecodedBlock(code, c, Mirrored(Dynamic(after, d.max)), limit, false, rest))
    decreases |lines|, 0
  {
    hide IndexHeader, Sendable, NextStep, HuffmanCode.Valid, EncodedHeader, EncodedNameless, NamesLast, Small, Mirrored,
      DecodedBlock, AllSendable, EncodedLines, Expected;
    LineParts(code, c, lines, name);
    match lines[0]
    case Named(h) =>
      var (index, s) := IndexHeader(d.entries, d.max, h);
      IndexResolves(d.entries, d.max, h);
      HeaderNamesLast(d.entries, d.max, h);
      IndexKeepsSmall(d, h);
      LinesCons(code, d, lines, last);
      var head := EncodedHeader(code, index, s);
      var (tail, after) := EncodedLines(code, Dynamic(s, d.max), lines[1..], Some(index));
      assert head + tail + rest == head + (tail + rest);
      HeaderComesBack(code, c, d, limit, can_resize, h, tail + rest);
      Unrolled(code, c, Mirrored(d), limit, can_resize, head, tail + rest,
               Step([Plain(h)], Mirrored(Dynamic(s, d.max)), |head|));
      LinesComeBack(code, c, Dynamic(s, d.max), limit, false, lines[1..], Some(index), h.name, rest);
      AfterTwo([Plain(h)], Expected(lines[1..], h.name),
               DecodedBlock(code, c, Mirrored(Dynamic(after, d.max)), limit, false, rest));
    case Nameless(value, sensitive) =>
      var h := Header(name, value, sensitive);
      LinesCons(code, d, lines, last);
      var head := EncodedNameless(code, last.value, d.entries, value, sensitive);
      var (tail, after) := EncodedLines(code, d, lines[1..], last);
      assert head + tail + rest == head + (tail + rest);
      NamelessComesBack(code, c, d, limit, can_resize, last.value, h, tail + rest);
      Unrolled(code, c, Mirrored(d), limit, can_resize, head, tail + rest, Step([Plain(h)], Mirrored(d), |head|));
      LinesComeBack(code, c, d, limit, false, lines[1..], last, name, rest);
      AfterTwo([Plain(h)], Expected(lines[1..], name),
               DecodedBlock(code, c, Mirrored(Dynamic(after, d.max)), limit, false, rest));
  }

  lemma LineParts(code: Code, c: Checks, lines: seq<FieldLine>, name: Bytes)
    requires lines != [] && AllSendable(code, c, lines, name)
    ensures Sendable(code, c, FullHeader(lines[0], name)) && AllSendable(code, c, lines[1..], NameAfter(lines, name))
    ensures Expected(lines, name) == [Plain(FullHeader(lines[0], name))] + Expected(lines[1..], NameAfter(lines, name))
  {
    hide Sendable;
  }

  // ----- A block

  predicate AllBelow(vals: seq<nat>, limit: nat) {
    forall i :: 0 <= i < |vals| ==> vals[i] <= limit
  }

  lemma {:induction false} EagerlySmall(d: Dynamic, vals: seq<nat>)
    requires Small(d) && AllBelow(vals, VARINT_LIMIT - 1)
    ensures Small(Eagerly(d, vals))
    decreases |vals|
  {
    if vals != [] {
      EvictSmall(d.entries, vals[0]);
      EagerlySmall(Resized(d, vals[0]), vals[1..]);
    }
  }

  lemma EvictSmall(s: seq<Header>, bound: nat)
    ensures Size(EvictTo(s, bound)) <= bound
  {
    assert Size([]) == 0;
  }

  lemma UpdateComesBack(code: Code, c: Checks, d: Dynamic, limit: nat, val: nat, rest: Bytes)
    requires val <= limit && val < VARINT_LIMIT
    ensures ValidPrefix(5, SIZE_UPDATE)
    ensures var bs := EncodedInt(val, 5, SIZE_UPDATE);
            NextStep(code, c, Mirrored(d), limit, true, bs + rest) == Ok(Step([], Mirrored(Resized(d, val)), |bs|))
  {
    FieldPrefixes();
    Pow2Table();
    FrontInt(val, 5, SIZE_UPDATE, rest);
    PlainsEvict(d.entries, val);
    var src := EncodedInt(val, 5, SIZE_UPDATE) + rest;
    assert Load(src[0]) == Ok(SizeUpdate);
    hide ReadInt, EncodedInt, Load, Pow2, EvictTo;
  }

  /** Size updates within the limit, at the start of a block, resize the decoder's table as they did the encoder's. */
  lemma {:induction false} UpdatesComeBack(code: Code, c: Checks, d: Dynamic, limit: nat, vals: seq<nat>, rest: Bytes)
    requires AllBelow(vals, limit) && AllBelow(vals, VARINT_LIMIT - 1)
    ensures DecodedBlock(code, c, Mirrored(d), limit, true, EncodedUpdates(vals) + rest) ==
            DecodedBlock(code, c, Mirrored(Eagerly(d, vals)), limit, true, rest)
    decreases |vals|
  {
    hide NextStep, EncodedInt, ValidPrefix, Mirrored, DecodedBlock, Resized;
    if vals == [] {
      assert EncodedUpdates(vals) + rest == rest;
    } else {
      FieldPrefixes();
      var head, tail := EncodedInt(vals[0], 5, SIZE_UPDATE), EncodedUpdates(vals[1..]);
      assert head + tail + rest == head + (tail + rest);
      UpdateComesBack(code, c, d, limit, vals[0], tail + rest);
      Unrolled(code, c, Mirrored(d), limit, true, head, tail + rest,
               Step([], Mirrored(Resized(d, vals[0])), |head|));
      AfterNone(DecodedBlock(code, c, Mirrored(Resized(d, vals[0])), limit, true, tail + rest));
      UpdatesComeBack(code, c, Resized(d, vals[0]), limit, vals[1..], rest);
    }
  }

  /** One block: exactly the headers come out, nothing is left over and the tables are in step. */
  lemma BlockComesBack(code: Code, c: Checks, d: Dynamic, limit: nat, pending: Option<SizeUpdate>, lines: seq<FieldLine>)
    requires HuffmanCode.Valid(code) && Small(d) && StartsNamed(lines) && AllSendable(code, c, lines, [])
    requires AllBelow(Updates(pending), limit) && AllBelow(Updates(pending), VARINT_LIMIT - 1)
    ensures var (bs, after) := EncodedBlock(code, d, pending, lines);
            DecodedBlock(code, c, Mirrored(d), limit, true, bs) == Run(Expected(lines, []), Mirrored(after), [], None)
            && Small(after)
  {
    hide HuffmanCode.Valid, NextStep, Updates, AllSendable, EncodedLines, Eagerly, Mirrored, Small, Expected, EncodedUpdates;
    var vals := Updates(pending);
    var d1 := Eagerly(d, vals);
    EagerlySmall(d, vals);
    var (bs, after) := EncodedLines(code, d1, lines, None);
    UpdatesComeBack(code, c, d, limit, vals, bs);
    assert bs + [] == bs;
    LinesComeBack(code, c, d1, limit, true, lines, None, [], []);
    LinesKeepSmall(code, d1, lines, None);
    assert Expected(lines, []) + [] == Expected(lines, []);
  }

  lemma {:induction false} LinesKeepSmall(code: Code, d: Dynamic, lines: seq<FieldLine>, last: Option<Index>)
    requires Small(d) && (last.None? ==> StartsNamed(lines)) && (last.Some? ==> Resolves(last.value, d.entries))
    ensures Small(Dynamic(EncodedLines(code, d, lines, last).1, d.max))
    decreases |lines|
  {
    hide IndexHeader, EncodedHeader, EncodedNameless, Small;
    if lines == [] {
      assert EncodedLines(code, d, lines, last).1 == d.entries;
    } else {
      LinesCons(code, d, lines, last);
      match lines[0]
      case Named(h) =>
        IndexKeepsSmall(d, h);
        var (index, s) := IndexHeader(d.entries, d.max, h);
        LinesKeepSmall(code, Dynamic(s, d.max), lines[1..], Some(index));
      case Nameless(_, _) =>
        LinesKeepSmall(code, d, lines[1..], last);
    }
  }
}
