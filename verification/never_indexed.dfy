/**
  Sensitive fields on the wire, section 7.1.3 of RFC 7541: those that are written as literals are
  marked never to be indexed, and no others are (src/hpack/encoder.rs).
 */
module NeverIndexed {
  import opened Bits
  import opened Wrappers
  import opened Integers
  import opened HuffmanCode
  import opened Strings
  import opened Headers
  import opened DynamicTable
  import opened HeaderBlocks
  import opened Fields
  import opened RoundTrip

  // ----- The first octet

  /** How a header is written, whatever reference was picked. */
  lemma HeaderKind(code: Code, s: seq<Header>, max: nat, h: Header)
    ensures Resolves(IndexHeader(s, max, h).0, IndexHeader(s, max, h).1)
    ensures var (index, after) := IndexHeader(s, max, h);
            var bs := EncodedHeader(code, index, after);
            bs != [] && KindIs(IsSensitive(h), index.Indexed?, Load(bs[0]).value)
  {
    IndexResolves(s, max, h);
    IndexMeans(s, max, h);
    FieldPrefixes();
    Pow2Table();
    var (index, after) := IndexHeader(s, max, h);
    hide IndexHeader, EncodedStr, EncodedInt, RefersName, RefersField, Insert, IsSensitive, Pow2, ValidPrefix;
    match index
    case Indexed(idx, _) => FirstByte(idx, 7, INDEXED);
    case Name(idx, _) => FirstByte(idx, 4, NeverFlag(IsSensitive(h)));
    case Inserted(_) =>
    case InsertedValue(idx, _) => FirstByte(idx, 6, WITH_INDEXING);
    case NotIndexed(_) =>
  }

  /** And one more value for the same name. */
  lemma NamelessKind(code: Code, last: Index, s: seq<Header>, value: Bytes, sensitive: bool)
    requires Resolves(last, s)
    ensures var bs := EncodedNameless(code, last, s, value, sensitive);
            bs != [] && KindIs(sensitive, false, Load(bs[0]).value)
  {
    hide EncodedStr, EncodedInt, Pow2, ValidPrefix, Load, KindIs, NeverFlag;
    Pow2Table();
    if !last.NotIndexed? {
      FirstByte(ResolveIdx(last), 4, NeverFlag(sensitive));
    }
    NeverKind(sensitive, EncodedNameless(code, last, s, value, sensitive)[0]);
  }

  lemma NeverKind(sensitive: bool, b: Byte)
    requires NeverFlag(sensitive) <= b < NeverFlag(sensitive) + 16
    ensures KindIs(sensitive, false, Load(b).value)
  {
  }

  /** Never indexed exactly if sensitive and not just an index; an index exactly if it was one. */
  predicate KindIs(sensitive: bool, indexed: bool, r: Representation) {
    && (r == LiteralNeverIndexed <==> sensitive && !indexed)
    && (r == IndexedField <==> indexed)
    && r != SizeUpdate
  }

  // ----- A block

  /** The kinds of representations that a decoder meets in a block. */
  function Kinds(code: Code, c: Checks, d: Dynamic, limit: nat, can_resize: bool, src: Bytes): seq<Representation>
    decreases |src|
  {
    if src == [] then []
    else
      [Load(src[0]).value] +
      match NextStep(code, c, d, limit, can_resize, src)
      case Err(_) => []
      case Ok(step) => Kinds(code, c, step.table, limit, can_resize && step.headers == [], src[step.used..])
  }

  /** Which lines are written as an index of the table. */
  function WereIndexed(d: Dynamic, lines: seq<FieldLine>): (r: seq<bool>)
    ensures |r| == |lines|
    decreases |lines|
  {
    if lines == [] then []
    else match lines[0]
      case Named(h) =>
        var (index, s) := IndexHeader(d.entries, d.max, h);
        [index.Indexed?] + WereIndexed(Dynamic(s, d.max), lines[1..])
      case Nameless(_, _) => [false] + WereIndexed(d, lines[1..])
  }

  predicate LineSensitive(line: FieldLine) {
    match line
    case Named(h) => IsSensitive(h)
    case Nameless(_, sensitive) => sensitive
  }

  /** Each line is written as it has to be. */
  predicate KindsMatch(lines: seq<FieldLine>, indexed: seq<bool>, kinds: seq<Representation>) {
    && |lines| == |indexed| == |kinds|
    && forall i :: 0 <= i < |lines| ==> KindIs(LineSensitive(lines[i]), indexed[i], kinds[i])
  }

  lemma KindsCons(code: Code, c: Checks, d: Dynamic, limit: nat, can_resize: bool, bs: Bytes, rest: Bytes, step: Step)
    requires bs != [] && NextStep(code, c, d, limit, can_resize, bs + rest) == Ok(step) && step.used == |bs|
    ensures Kinds(code, c, d, limit, can_resize, bs + rest) ==
            [Load(bs[0]).value] + Kinds(code, c, step.table, limit, can_resize && step.headers == [], rest)
  {
    assert (bs + rest)[|bs|..] == rest;
    hide NextStep, Load;
  }

  lemma MatchCons(line: FieldLine, lines: seq<FieldLine>, i: bool, indexed: seq<bool>, r: Representation, kinds: seq<Representation>)
    requires KindIs(LineSensitive(line), i, r) && KindsMatch(lines, indexed, kinds)
    ensures KindsMatch([line] + lines, [i] + indexed, [r] + kinds)
  {
    hide KindIs, LineSensitive;
  }

  lemma {:induction false} LinesKinds(code: Code, c: Checks, d: Dynamic, limit: nat, can_resize: bool,
                                      lines: seq<FieldLine>, last: Option<Index>, name: Bytes)
    requires HuffmanCode.Valid(code) && Small(d) && AllSendable(code, c, lines, name)
    requires last.None? ==> StartsNamed(lines)
    requires last.Some? ==> NamesLast(last.value, d.entries, name) && Resolves(last.value, d.entries)
    ensures KindsMatch(lines, WereIndexed(d, lines),
                       Kinds(code, c, Mirrored(d), limit, can_resize, EncodedLines(code, d, lines, last).0))
    decreases |lines|
  {
    hide IndexHeader, Sendable, NextStep, HuffmanCode.Valid, EncodedHeader, EncodedNameless, NamesLast, Small, Mirrored,
      KindIs, LineSensitive, Load, Kinds, KindsMatch, EncodedLines, AllSendable;
    if lines == [] {
      NoLines(code, c, d, limit, can_resize, last);
      return;
    }
    LineParts(code, c, lines, name);
    LinesCons(code, d, lines, last);
    assert [lines[0]] + lines[1..] == lines;
    match lines[0]
    case Named(h) =>
      var (index, s) := IndexHeader(d.entries, d.max, h);
      HeaderKind(code, d.entries, d.max, h);
      HeaderNamesLast(d.entries, d.max, h);
      IndexKeepsSmall(d, h);
      var head, tail := EncodedHeader(code, index, s), EncodedLines(code, Dynamic(s, d.max), lines[1..], Some(index)).0;
      HeaderComesBack(code, c, d, limit, can_resize, h, tail);
      KindsCons(code, c, Mirrored(d), limit, can_resize, head, tail, Step([Plain(h)], Mirrored(Dynamic(s, d.max)), |head|));
      LinesKinds(code, c, Dynamic(s, d.max), limit, false, lines[1..], Some(index), h.name);
      NamedSensitive(h);
      MatchCons(lines[0], lines[1..], index.Indexed?, WereIndexed(Dynamic(s, d.max), lines[1..]), Load(head[0]).value,
                Kinds(code, c, Mirrored(Dynamic(s, d.max)), limit, false, tail));
    case Nameless(value, sensitive) =>
      var h := Header(name, value, sensitive);
      NamelessKind(code, last.value, d.entries, value, sensitive);
      var head, tail := EncodedNameless(code, last.value, d.entries, value, sensitive), EncodedLines(code, d, lines[1..], last).0;
      NamelessComesBack(code, c, d, limit, can_resize, last.value, h, tail);
      KindsCons(code, c, Mirrored(d), limit, can_resize, head, tail, Step([Plain(h)], Mirrored(d), |head|));
      LinesKinds(code, c, d, limit, false, lines[1..], last, name);
      NamelessSensitive(value, sensitive);
      MatchCons(lines[0], lines[1..], false, WereIndexed(d, lines[1..]), Load(head[0]).value,
                Kinds(code, c, Mirrored(d), limit, false, tail));
  }

  lemma NoLines(code: Code, c: Checks, d: Dynamic, limit: nat, can_resize: bool, last: Option<Index>)
    requires last.Some? ==> Resolves(last.value, d.entries)
    ensures KindsMatch([], WereIndexed(d, []), Kinds(code, c, Mirrored(d), limit, can_resize, EncodedLines(code, d, [], last).0))
  {
  }

  lemma NamedSensitive(h: Header)
    ensures LineSensitive(Named(h)) == IsSensitive(h)
  {
  }

  lemma NamelessSensitive(value: Bytes, sensitive: bool)
    ensures LineSensitive(Nameless(value, sensitive)) == sensitive
  {
  }

  /** Size updates come first. */
  lemma {:induction false} UpdatesKinds(code: Code, c: Checks, d: Dynamic, limit: nat, vals: seq<nat>, rest: Bytes)
    requires AllBelow(vals, limit) && AllBelow(vals, VARINT_LIMIT - 1)
    ensures var kinds := Kinds(code, c, Mirrored(d), limit, true, EncodedUpdates(vals) + rest);
            && |kinds| >= |vals| && (forall i :: 0 <= i < |vals| ==> kinds[i] == SizeUpdate)
            && kinds[|vals|..] == Kinds(code, c, Mirrored(Eagerly(d, vals)), limit, true, rest)
    decreases |vals|
  {
    hide NextStep, EncodedInt, ValidPrefix, Mirrored, Kinds, Resized, Load;
    if vals == [] {
      assert EncodedUpdates(vals) + rest == rest;
    } else {
      FieldPrefixes();
      var head, tail := EncodedInt(vals[0], 5, SIZE_UPDATE), EncodedUpdates(vals[1..]);
      assert head + tail + rest == head + (tail + rest);
      UpdateComesBack(code, c, d, limit, vals[0], tail + rest);
      UpdateKind(vals[0]);
      KindsCons(code, c, Mirrored(d), limit, true, head, tail + rest, Step([], Mirrored(Resized(d, vals[0])), |head|));
      UpdatesKinds(code, c, Resized(d, vals[0]), limit, vals[1..], rest);
    }
  }

  lemma UpdateKind(val: nat)
    requires ValidPrefix(5, SIZE_UPDATE)
    ensures Load(EncodedInt(val, 5, SIZE_UPDATE)[0]).value == SizeUpdate
  {
    Pow2Table();
    FirstByte(val, 5, SIZE_UPDATE);
    hide EncodedInt, Pow2;
  }

  /**
    In a whole block, the representations that are never to be indexed are exactly those of the
    sensitive lines that are not just an index.
   */
  lemma SensitiveLinesMarked(code: Code, c: Checks, d: Dynamic, limit: nat, pending: Option<SizeUpdate>, lines: seq<FieldLine>)
    requires HuffmanCode.Valid(code) && Small(d) && StartsNamed(lines) && AllSendable(code, c, lines, [])
    requires AllBelow(Updates(pending), limit) && AllBelow(Updates(pending), VARINT_LIMIT - 1)
    ensures var n, d1 := |Updates(pending)|, Eagerly(d, Updates(pending));
            var kinds := Kinds(code, c, Mirrored(d), limit, true, EncodedBlock(code, d, pending, lines).0);
            && |kinds| == n + |lines|
            && (forall i :: 0 <= i < n ==> kinds[i] == SizeUpdate)
            && (forall i :: 0 <= i < |lines| ==>
                  (kinds[n + i] == LiteralNeverIndexed <==> LineSensitive(lines[i]) && !WereIndexed(d1, lines)[i]))
  {
    hide HuffmanCode.Valid, NextStep, Updates, AllSendable, EncodedLines, Eagerly, Mirrored, Small, EncodedUpdates, Kinds,
      LineSensitive, WereIndexed, Load;
    var vals := Updates(pending);
    var d1 := Eagerly(d, vals);
    EagerlySmall(d, vals);
    var bs := EncodedLines(code, d1, lines, None).0;
    UpdatesKinds(code, c, d, limit, vals, bs);
    LinesKinds(code, c, d1, limit, true, lines, None, []);
    var kinds := Kinds(code, c, Mirrored(d), limit, true, EncodedUpdates(vals) + bs);
    var rest := kinds[|vals|..];
    forall i | 0 <= i < |lines| ensures
      kinds[|vals| + i] == LiteralNeverIndexed <==> LineSensitive(lines[i]) && !WereIndexed(d1, lines)[i]
    {
      assert kinds[|vals| + i] == rest[i];
    }
  }
}
