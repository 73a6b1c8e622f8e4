/**
  Literals whose strings are not Huffman coded, sections 5.2 and 6.2 of RFC 7541. This encoder writes
  none, but other peers do; a decoder has to return them as they are (src/hpack/decoder.rs).
 */
module RawLiterals {
  import opened Bits
  import opened Wrappers
  import opened Integers
  import opened HuffmanCode
  import opened Strings
  import opened Headers
  import opened DynamicTable
  import opened HeaderBlocks
  import opened Fields
  import RoundTrip
  import Reassembly

  function RawStr(s: Bytes): (bs: Bytes)
    ensures bs != []
  {
    Plain7();
    EncodedInt(|s|, 7, 0) + s
  }

  lemma Plain7()
    ensures ValidPrefix(7, 0)
  {
    Pow2Table();
  }

  /** A raw string of up to 127 + 2^28 octets is returned unchanged; a longer one is refused. */
  lemma RawStrReads(code: Code, before: Bytes, s: Bytes, after: Bytes)
    ensures ReadStr(code, before + RawStr(s) + after, |before|) ==
            if |s| < 127 + VARINT_LIMIT then Ok((s, |before| + |RawStr(s)|)) else Err(IntegerOverflow)
  {
    Plain7();
    Seven();
    hide EncodedInt, ReadInt, Decoded, Pow2, ValidPrefix, ReadStr, Delivered;
    var head := EncodedInt(|s|, 7, 0);
    var src := before + RawStr(s) + after;
    var start := |before| + |head|;
    assert src == before + (head + (s + after));
    assert src[|before|..start] == head && src[start..start + |s|] == s;
    IntRoundTrip(|s|, 7, 0, src, |before|);
    RawFlag(|s|);
    assert src[|before|] == head[0];
    if |s| < 127 + VARINT_LIMIT {
      ReadStrIs(code, src, |before|, |s|, start);
      DeliveredRaw(code, src[|before|], s, start + |s|);
    } else {
      ReadStrNeedsInt(code, src, |before|);
    }
  }

  lemma Seven()
    ensures Pow2(7) == 128
  {
    Pow2Table();
  }

  lemma RawFlag(len: nat)
    requires ValidPrefix(7, 0)
    ensures EncodedInt(len, 7, 0)[0] < HUFFMAN_FLAG
  {
    Seven();
  }

  lemma DeliveredRaw(code: Code, first: Byte, s: Bytes, end: nat)
    requires first < HUFFMAN_FLAG
    ensures Delivered(code, first, s, end) == Ok((s, end))
  {
  }

  // ----- Fields

  /** Added to the table, not added, or never to be added. */
  datatype Kind = WithIndexing | WithoutIndexing | NeverIndexed

  function First(kind: Kind): (b: Byte)
    ensures ValidPrefix(PrefixLength(kind), b)
  {
    FieldPrefixes();
    match kind
    case WithIndexing => WITH_INDEXING
    case WithoutIndexing => 0
    case NeverIndexed => NEVER_INDEXED
  }

  function PrefixLength(kind: Kind): nat {
    LiteralPrefix(kind.WithIndexing?)
  }

  /** A literal with a name of its own or that of an entry. */
  datatype RawField = NewName(kind: Kind, name: Bytes, value: Bytes) | OldName(kind: Kind, idx: nat, value: Bytes)

  function RawLiteral(f: RawField): (bs: Bytes)
    ensures bs != []
  {
    match f
    case NewName(kind, name, value) => [First(kind)] + RawStr(name) + RawStr(value)
    case OldName(kind, idx, value) => EncodedInt(idx, PrefixLength(kind), First(kind)) + RawStr(value)
  }

  predicate Short(s: Bytes) {
    |s| < 127 + VARINT_LIMIT
  }

  /** Within the integer bound. */
  predicate Readable(f: RawField) {
    && Short(f.value)
    && match f
       case NewName(_, name, _) => Short(name)
       case OldName(_, idx, _) => 0 < idx < VARINT_LIMIT
  }

  /** The name the field is given, if there is one. */
  function NameOf(entries: seq<Header>, f: RawField): Result<Bytes, DecoderError> {
    match f
    case NewName(_, name, _) => Ok(name)
    case OldName(_, idx, _) =>
      var e :- Get(entries, idx);
      Ok(e.name)
  }

  /** What the checks say to a name and a value. */
  function Checked(c: Checks, f: RawField, name: Bytes): Result<Header, DecoderError> {
    if f.NewName? then NewHeader(c, name, f.value) else IntoEntry(c, name, f.value)
  }

  /** A header that passes the checks has exactly the name and value it was made of. */
  lemma CheckedIsExact(c: Checks, f: RawField, name: Bytes)
    ensures Checked(c, f, name).Ok? ==> Checked(c, f, name).value == Header(name, f.value, false)
  {
  }

  /** How a literal reads, whatever follows it. */
  lemma LiteralReads(code: Code, c: Checks, entries: seq<Header>, f: RawField, rest: Bytes)
    requires Readable(f)
    ensures var r := ReadLiteral(code, c, entries, RawLiteral(f) + rest, f.kind.WithIndexing?);
            var name := NameOf(entries, f);
            if name.Err? then r == Err(Failure(name.error, 0))
            else if Checked(c, f, name.value).Err? then r.Err? && r.error.error == Checked(c, f, name.value).error
            else r == Ok((Checked(c, f, name.value).value, |RawLiteral(f)|))
  {
    hide ReadInt, ReadStr, EncodedInt, RawStr, Get, NewHeader, IntoEntry, First, ReadLiteral, ReadNewName, ReadOldName;
    var src := RawLiteral(f) + rest;
    Reassembly.LiteralParts(code, c, entries, src, f.kind.WithIndexing?);
    match f
    case NewName(kind, name, value) =>
      var n, v := RawStr(name), RawStr(value);
      assert src == [First(kind)] + (n + v + rest);
      RoundTrip.ZeroInt(PrefixLength(kind), First(kind));
      RoundTrip.FrontInt(0, PrefixLength(kind), First(kind), n + v + rest);
      NewNameReads(code, c, First(kind), name, value, rest);
    case OldName(kind, idx, value) =>
      var head := EncodedInt(idx, PrefixLength(kind), First(kind));
      assert src == head + (RawStr(value) + rest) && src == head + RawStr(value) + rest;
      RoundTrip.FrontInt(idx, PrefixLength(kind), First(kind), RawStr(value) + rest);
      OldNameReads(code, c, Get(entries, idx), head, value, rest);
  }

  lemma NewNameReads(code: Code, c: Checks, first: Byte, name: Bytes, value: Bytes, rest: Bytes)
    requires Short(name) && Short(value)
    ensures var bs := [first] + RawStr(name) + RawStr(value);
            var r := ReadNewName(code, c, bs + rest, 1);
            if NewHeader(c, name, value).Err? then r.Err? && r.error.error == NewHeader(c, name, value).error
            else r == Ok((NewHeader(c, name, value).value, |bs|))
  {
    hide ReadStr, RawStr, NewHeader, Raw;
    var n, v := RawStr(name), RawStr(value);
    var src := [first] + n + v + rest;
    assert src == [first] + n + (v + rest);
    RawStrReads(code, [first], name, v + rest);
    RawStrReads(code, [first] + n, value, rest);
  }

  lemma OldNameReads(code: Code, c: Checks, e: Result<Header, DecoderError>, head: Bytes, value: Bytes, rest: Bytes)
    requires Short(value) && head != []
    ensures var r := ReadOldName(code, c, e, head + RawStr(value) + rest, |head|);
            if e.Err? then r == Err(Failure(e.error, 0))
            else if IntoEntry(c, e.value.name, value).Err? then r.Err? && r.error.error == IntoEntry(c, e.value.name, value).error
            else r == Ok((IntoEntry(c, e.value.name, value).value, |head + RawStr(value)|))
  {
    hide ReadStr, RawStr, IntoEntry, Raw;
    RawStrReads(code, head, value, rest);
  }

  /** The first octet says which kind of literal it is. */
  lemma FirstSays(f: RawField, rest: Bytes)
    ensures Load((RawLiteral(f) + rest)[0]).value ==
            match f.kind
            case WithIndexing => LiteralWithIndexing
            case WithoutIndexing => LiteralWithoutIndexing
            case NeverIndexed => LiteralNeverIndexed
  {
    Pow2Table();
    if f.OldName? {
      RoundTrip.FirstByte(f.idx, PrefixLength(f.kind), First(f.kind));
    }
    hide EncodedInt, RawStr, Pow2;
  }

  /**
    One literal: it is reported with exactly the name and value it carries, and enters the table if
    it says so, or it is refused by the checks.
   */
  lemma RawLiteralReads(code: Code, c: Checks, d: Dynamic, limit: nat, can_resize: bool, f: RawField, rest: Bytes)
    requires Readable(f)
    ensures var r := NextStep(code, c, d, limit, can_resize, RawLiteral(f) + rest);
            var name := NameOf(d.entries, f);
            if name.Err? || Checked(c, f, name.value).Err? then r.Err?
            else
              var h := Header(name.value, f.value, false);
              r == Ok(Step([h], if f.kind.WithIndexing? then d.(entries := Insert(d.entries, d.max, h)) else d,
                           |RawLiteral(f)|))
  {
    LiteralReads(code, c, d.entries, f, rest);
    FirstSays(f, rest);
    if NameOf(d.entries, f).Ok? {
      CheckedIsExact(c, f, NameOf(d.entries, f).value);
    }
    hide ReadLiteral, RawLiteral, NameOf, Checked, Insert, Load, Readable;
  }

  // ----- A block of such literals

  function RawBlock(fs: seq<RawField>): Bytes {
    if fs == [] then [] else RawLiteral(fs[0]) + RawBlock(fs[1..])
  }

  /** Every field is readable, names an entry that is there, and passes the checks. */
  predicate AllFine(c: Checks, d: Dynamic, fs: seq<RawField>)
    decreases |fs|
  {
    fs == [] || (
      && Readable(fs[0]) && NameOf(d.entries, fs[0]).Ok? && Checked(c, fs[0], NameOf(d.entries, fs[0]).value).Ok?
      && AllFine(c, Entered(d, fs[0]), fs[1..]))
  }

  /** The header that a field stands for. */
  function Meant(d: Dynamic, f: RawField): Header
    requires NameOf(d.entries, f).Ok?
  {
    Header(NameOf(d.entries, f).value, f.value, false)
  }

  /** The table after it. */
  function Entered(d: Dynamic, f: RawField): Dynamic
    requires NameOf(d.entries, f).Ok?
  {
    if f.kind.WithIndexing? then d.(entries := Insert(d.entries, d.max, Meant(d, f))) else d
  }

  /** What a block stands for: its headers and the table after it. */
  function AllMeant(c: Checks, d: Dynamic, fs: seq<RawField>): (seq<Header>, Dynamic)
    requires AllFine(c, d, fs)
    decreases |fs|
  {
    if fs == [] then ([], d)
    else
      var (hs, after) := AllMeant(c, Entered(d, fs[0]), fs[1..]);
      ([Meant(d, fs[0])] + hs, after)
  }

  /** A block of raw literals decodes to exactly the names and values it carries. */
  lemma {:induction false} RawBlockReads(code: Code, c: Checks, d: Dynamic, limit: nat, can_resize: bool, fs: seq<RawField>)
    requires AllFine(c, d, fs)
    ensures DecodedBlock(code, c, d, limit, can_resize, RawBlock(fs)) ==
            Run(AllMeant(c, d, fs).0, AllMeant(c, d, fs).1, [], None)
    decreases |fs|
  {
    if fs != [] {
      var rest := RawBlock(fs[1..]);
      RawLiteralReads(code, c, d, limit, can_resize, fs[0], rest);
      RawBlockReads(code, c, Entered(d, fs[0]), limit, false, fs[1..]);
      Reassembly.BlockCons(code, c, d, limit, can_resize, RawLiteral(fs[0]) + rest);
      assert (RawLiteral(fs[0]) + rest)[|RawLiteral(fs[0])|..] == rest;
      hide NextStep, DecodedBlock, RawLiteral, Readable, NameOf, Checked, Insert;
    }
  }
}
