/** What an encoder writes for a list of headers, sections 3.2 and 6 of RFC 7541 (src/hpack/encoder.rs). */
module HeaderBlocks {
  import opened Bits
  import opened Wrappers
  import opened Integers
  import opened HuffmanCode
  import opened Strings
  import opened Headers
  import opened DynamicTable

  // ----- Table size updates

  /** What is left of the size changes since the last block. */
  datatype SizeUpdate = One(size: nat) | Two(min: nat, max: nat)

  /** Entries, newest first, and the largest size they may take. */
  datatype Dynamic = Dynamic(entries: seq<Header>, max: nat)

  /** `update_max_size`, given the size the table has now. */
  function Queued(pending: Option<SizeUpdate>, max: nat, val: nat): Option<SizeUpdate> {
    match pending
    case Some(One(prior)) =>
      if val > prior then (if prior > max then Some(One(val)) else Some(Two(prior, val))) else Some(One(val))
    case Some(Two(min, _)) => if val < min then Some(One(val)) else Some(Two(min, val))
    case None => if val != max then Some(One(val)) else None
  }

  function QueuedAll(pending: Option<SizeUpdate>, max: nat, vals: seq<nat>): Option<SizeUpdate>
    decreases |vals|
  {
    if vals == [] then pending else QueuedAll(Queued(pending, max, vals[0]), max, vals[1..])
  }

  function Resized(d: Dynamic, val: nat): Dynamic {
    Dynamic(EvictTo(d.entries, val), val)
  }

  /** Every size change carried out at once, in order. */
  function Eagerly(d: Dynamic, vals: seq<nat>): Dynamic
    decreases |vals|
  {
    if vals == [] then d else Eagerly(Resized(d, vals[0]), vals[1..])
  }

  /** The sizes written before the next block. */
  function Updates(pending: Option<SizeUpdate>): seq<nat> {
    match pending
    case None => []
    case Some(One(val)) => [val]
    case Some(Two(min, max)) => [min, max]
  }

  /** What is pending stands for the size changes `vals` of a table that `d` describes. */
  ghost predicate StandsFor(pending: Option<SizeUpdate>, d: Dynamic, now: Dynamic) {
    && Size(d.entries) <= d.max
    && match pending
       case None => now == d
       case Some(One(val)) => now == Resized(d, val)
       case Some(Two(min, max)) => min <= max && now == Dynamic(EvictTo(d.entries, min), max)
  }

  lemma QueuedStandsFor(pending: Option<SizeUpdate>, d: Dynamic, now: Dynamic, val: nat)
    requires StandsFor(pending, d, now)
    ensures StandsFor(Queued(pending, d.max, val), d, Resized(now, val))
  {
    hide EvictTo;
    match pending
    case None =>
      EvictNothing(d.entries, d.max);
    case Some(One(prior)) =>
      EvictTwice(d.entries, prior, val);
      if prior > d.max {
        EvictNothing(d.entries, prior);
      }
      if val > d.max {
        EvictNothing(d.entries, val);
      }
    case Some(Two(min, _)) =>
      EvictTwice(d.entries, min, val);
  }

  lemma {:induction false} QueuedAllStandsFor(pending: Option<SizeUpdate>, d: Dynamic, now: Dynamic, vals: seq<nat>)
    requires StandsFor(pending, d, now)
    ensures StandsFor(QueuedAll(pending, d.max, vals), d, Eagerly(now, vals))
    decreases |vals|
  {
    if vals != [] {
      QueuedStandsFor(pending, d, now, vals[0]);
      QueuedAllStandsFor(Queued(pending, d.max, vals[0]), d, Resized(now, vals[0]), vals[1..]);
    }
  }

  lemma EagerlyTwo(d: Dynamic, a: nat, b: nat)
    ensures Eagerly(d, [a, b]) == Resized(Resized(d, a), b)
    ensures Eagerly(d, [a]) == Resized(d, a)
  {
    assert [a, b][1..] == [b];
    assert Eagerly(Resized(d, a), [b]) == Resized(Resized(d, a), b);
  }

  /**
    Section 4.2 of RFC 7541: however often the size changes between two blocks, the at most two
    updates written have the same effect on the table as all the changes in order.
   */
  lemma UpdatesSuffice(d: Dynamic, vals: seq<nat>)
    requires Size(d.entries) <= d.max
    ensures Eagerly(d, Updates(QueuedAll(None, d.max, vals))) == Eagerly(d, vals)
    ensures |Updates(QueuedAll(None, d.max, vals))| <= 2
  {
    QueuedAllStandsFor(None, d, d, vals);
    var pending := QueuedAll(None, d.max, vals);
    match pending
    case None =>
    case Some(One(val)) =>
    case Some(Two(min, max)) =>
      EvictTwice(d.entries, min, max);
      EagerlyTwo(d, min, max);
  }

  /** Only sizes that were asked for are written. */
  lemma {:induction false} UpdatesAreAsked(pending: Option<SizeUpdate>, max: nat, vals: seq<nat>)
    ensures forall u :: u in Updates(QueuedAll(pending, max, vals)) ==> u in Updates(pending) || u in vals
    decreases |vals|
  {
    if vals != [] {
      UpdatesAreAsked(Queued(pending, max, vals[0]), max, vals[1..]);
    }
  }

  // ----- Header fields

  const INDEXED: Byte := 0x80
  const WITH_INDEXING: Byte := 0x40
  const NEVER_INDEXED: Byte := 0x10
  const SIZE_UPDATE: Byte := 0x20

  lemma FieldPrefixes()
    ensures ValidPrefix(7, INDEXED) && ValidPrefix(6, WITH_INDEXING) && ValidPrefix(5, SIZE_UPDATE)
    ensures ValidPrefix(4, NEVER_INDEXED) && ValidPrefix(4, 0)
  {
    Pow2Table();
  }

  function EncodedUpdates(vals: seq<nat>): Bytes {
    FieldPrefixes();
    if vals == [] then [] else EncodedInt(vals[0], 5, SIZE_UPDATE) + EncodedUpdates(vals[1..])
  }

  function NeverFlag(sensitive: bool): (b: Byte)
    ensures ValidPrefix(4, b)
  {
    FieldPrefixes();
    if sensitive then NEVER_INDEXED else 0
  }

  function NotIndexedField(code: Code, name: nat, value: Bytes, sensitive: bool): Bytes {
    EncodedInt(name, 4, NeverFlag(sensitive)) + EncodedStr(code, value)
  }

  function NotIndexedLiteral(code: Code, name: Bytes, value: Bytes, sensitive: bool): Bytes {
    [NeverFlag(sensitive)] + EncodedStr(code, name) + EncodedStr(code, value)
  }

  /** The slot of an index is an entry. */
  predicate Resolves(index: Index, s: seq<Header>) {
    (index.Inserted? || index.InsertedValue?) ==> index.slot < |s|
  }

  function Resolve(index: Index, s: seq<Header>): Header
    requires Resolves(index, s)
  {
    match index
    case Indexed(_, h) => h
    case Name(_, h) => h
    case Inserted(slot) => s[slot]
    case InsertedValue(_, slot) => s[slot]
    case NotIndexed(h) => h
  }

  function ResolveIdx(index: Index): nat
    requires !index.NotIndexed?
  {
    match index
    case Indexed(idx, _) => idx
    case Name(idx, _) => idx
    case Inserted(slot) => slot + DYN_OFFSET
    case InsertedValue(_, slot) => slot + DYN_OFFSET
  }

  /** A header after it has been indexed. */
  function EncodedHeader(code: Code, index: Index, s: seq<Header>): Bytes
    requires Resolves(index, s)
  {
    FieldPrefixes();
    var h := Resolve(index, s);
    match index
    case Indexed(idx, _) => EncodedInt(idx, 7, INDEXED)
    case Name(idx, _) => NotIndexedField(code, idx, h.value, IsSensitive(h))
    case Inserted(_) => [WITH_INDEXING] + EncodedStr(code, h.name) + EncodedStr(code, h.value)
    case InsertedValue(idx, _) => EncodedInt(idx, 6, WITH_INDEXING) + EncodedStr(code, h.value)
    case NotIndexed(_) => NotIndexedLiteral(code, h.name, h.value, IsSensitive(h))
  }

  /** One more value for the name that was indexed last. */
  function EncodedNameless(code: Code, last: Index, s: seq<Header>, value: Bytes, sensitive: bool): Bytes
    requires Resolves(last, s)
  {
    if last.NotIndexed? then NotIndexedLiteral(code, Resolve(last, s).name, value, sensitive)
    else NotIndexedField(code, ResolveIdx(last), value, sensitive)
  }

  /** An index never names a slot that is not there. */
  lemma IndexResolves(s: seq<Header>, max: nat, h: Header)
    ensures Resolves(IndexHeader(s, max, h).0, IndexHeader(s, max, h).1)
    ensures IndexHeader(s, max, h).0.Inserted? || IndexHeader(s, max, h).0.InsertedValue? ==>
              IndexHeader(s, max, h).0.slot == 0 && !IsSensitive(h) && IndexHeader(s, max, h).1 == Insert(s, max, h)
              && IndexHeader(s, max, h).1[0] == h
    ensures Resolve(IndexHeader(s, max, h).0, IndexHeader(s, max, h).1) == h
  {
    hide IndexStatic, SkipValueIndex, IsSensitive, FindField, FindName, EvictTo;
  }

  /** Only a header with a name can come first. */
  predicate StartsNamed(lines: seq<FieldLine>) {
    lines != [] ==> lines[0].Named?
  }

  /** The fields of a block, and the entries after it. */
  function EncodedLines(code: Code, d: Dynamic, lines: seq<FieldLine>, last: Option<Index>): (r: (Bytes, seq<Header>))
    requires last.None? ==> StartsNamed(lines)
    requires last.Some? ==> Resolves(last.value, d.entries)
    decreases |lines|
  {
    if lines == [] then ([], d.entries)
    else match lines[0]
      case Named(h) =>
        var (index, s) := IndexHeader(d.entries, d.max, h);
        IndexResolves(d.entries, d.max, h);
        var (bs, after) := EncodedLines(code, Dynamic(s, d.max), lines[1..], Some(index));
        (EncodedHeader(code, index, s) + bs, after)
      case Nameless(value, sensitive) =>
        var (bs, after) := EncodedLines(code, d, lines[1..], last);
        (EncodedNameless(code, last.value, d.entries, value, sensitive) + bs, after)
  }

  lemma AppendedNone(r: (Bytes, seq<Header>))
    ensures Appended([], r) == r
  {
    assert [] + r.0 == r.0;
  }

  function Appended(done: Bytes, r: (Bytes, seq<Header>)): (Bytes, seq<Header>) {
    (done + r.0, r.1)
  }

  lemma AppendedTwice(a: Bytes, b: Bytes, r: (Bytes, seq<Header>))
    ensures Appended(a, Appended(b, r)) == Appended(a + b, r)
  {
    assert a + (b + r.0) == a + b + r.0;
  }

  /** One step of `EncodedLines`. */
  lemma LinesCons(code: Code, d: Dynamic, lines: seq<FieldLine>, last: Option<Index>)
    requires lines != [] && (last.None? ==> StartsNamed(lines)) && (last.Some? ==> Resolves(last.value, d.entries))
    ensures lines[0].Named? ==>
              var (index, s) := IndexHeader(d.entries, d.max, lines[0].header);
              && Resolves(index, s)
              && EncodedLines(code, d, lines, last) ==
                 Appended(EncodedHeader(code, index, s), EncodedLines(code, Dynamic(s, d.max), lines[1..], Some(index)))
    ensures lines[0].Nameless? ==>
              EncodedLines(code, d, lines, last) ==
              Appended(EncodedNameless(code, last.value, d.entries, lines[0].value, lines[0].sensitive),
                       EncodedLines(code, d, lines[1..], last))
  {
    if lines[0].Named? {
      IndexResolves(d.entries, d.max, lines[0].header);
    }
    hide IndexHeader, EncodedHeader, EncodedNameless;
  }

  /** A whole block: size updates, then fields. */
  function EncodedBlock(code: Code, d: Dynamic, pending: Option<SizeUpdate>, lines: seq<FieldLine>): (r: (Bytes, Dynamic))
    requires StartsNamed(lines)
  {
    var vals := Updates(pending);
    var d1 := Eagerly(d, vals);
    var (bs, after) := EncodedLines(code, d1, lines, None);
    (EncodedUpdates(vals) + bs, Dynamic(after, d1.max))
  }
}
