/** What a decoder makes of a header block, section 3 of RFC 7541 (src/hpack/decoder.rs). */
module Fields {
  import opened Bits
  import opened Wrappers
  import opened Integers
  import opened HuffmanCode
  import opened Strings
  import opened Headers
  import opened DynamicTable
  import opened HeaderBlocks

  // ----- Header validation

  /** The checks of the `http` crate: on the name of a field, and on a value given its name. */
  datatype Checks = Checks(nameOk: Bytes -> bool, valueOk: (Bytes, Bytes) -> bool)

  predicate KnownPseudo(name: Bytes) {
    name in [Ascii(":authority"), Ascii(":method"), Ascii(":scheme"), Ascii(":path"), Ascii(":protocol"), Ascii(":status")]
  }

  /** `Header::new`. */
  function NewHeader(c: Checks, name: Bytes, value: Bytes): Result<Header, DecoderError> {
    if name == [] then Err(NeedMore(UnexpectedEndOfStream))
    else if IsPseudo(name) then
      if !KnownPseudo(name) then Err(InvalidPseudoheader)
      else if c.valueOk(name, value) then Ok(Header(name, value, false)) else Err(InvalidUtf8)
    else if c.nameOk(name) && c.valueOk(name, value) then Ok(Header(name, value, false))
    else Err(InvalidUtf8)
  }

  /** `Name::into_entry`: the name is that of an entry. */
  function IntoEntry(c: Checks, name: Bytes, value: Bytes): Result<Header, DecoderError> {
    if c.valueOk(name, value) then Ok(Header(name, value, false))
    else if name == Ascii(":status") then Err(InvalidStatusCode)
    else Err(InvalidUtf8)
  }

  // ----- Representations

  datatype Representation =
    IndexedField | LiteralWithIndexing | LiteralWithoutIndexing | LiteralNeverIndexed | SizeUpdate

  function Load(byte: Byte): (r: Result<Representation, DecoderError>)
    ensures r.Ok?
  {
    if byte / 0x80 % 2 == 1 then Ok(IndexedField)
    else if byte / 0x40 % 2 == 1 then Ok(LiteralWithIndexing)
    else if byte / 0x10 == 0 then Ok(LiteralWithoutIndexing)
    else if byte / 0x10 == 1 then Ok(LiteralNeverIndexed)
    else if byte / 0x20 == 1 then Ok(SizeUpdate)
    else Err(InvalidRepresentation)
  }

  /** The entry at an index of the combined table, section 2.3.3 of RFC 7541. */
  function Get(entries: seq<Header>, idx: nat): Result<Header, DecoderError> {
    if idx == 0 then Err(InvalidTableIndex)
    else if idx <= STATIC_SIZE then Ok(GetStatic(idx))
    else if idx - DYN_OFFSET < |entries| then Ok(entries[idx - DYN_OFFSET])
    else Err(InvalidTableIndex)
  }

  // ----- One representation

  /** Why decoding stops, and how many octets have been taken from the buffer by then. */
  datatype Failure = Failure(error: DecoderError, taken: nat)

  /** A string that is not Huffman coded is cut out of the buffer, with all that is before it. */
  predicate Raw(src: Bytes, pos: nat)
    requires pos < |src|
  {
    src[pos] < HUFFMAN_FLAG
  }

  function LiteralPrefix(index: bool): nat {
    if index then 6 else 4
  }

  /** A literal header field and where it ends. */
  function ReadLiteral(code: Code, c: Checks, entries: seq<Header>, src: Bytes, index: bool): (r: Result<(Header, nat), Failure>)
    ensures r.Ok? ==> 0 < r.value.1 <= |src|
    ensures r.Err? ==> r.error.taken <= |src|
  {
    match ReadInt(src, 0, LiteralPrefix(index))
    case Err(e) => Err(Failure(e, 0))
    case Ok((0, p)) => ReadNewName(code, c, src, p)
    case Ok((idx, p)) => ReadOldName(code, c, Get(entries, idx), src, p)
  }

  /** Name and value are strings. */
  function ReadNewName(code: Code, c: Checks, src: Bytes, p: nat): (r: Result<(Header, nat), Failure>)
    requires 0 < p <= |src|
    ensures r.Ok? ==> 0 < r.value.1 <= |src|
    ensures r.Err? ==> r.error.taken <= |src|
  {
    match ReadStr(code, src, p)
    case Err(e) => Err(Failure(e, 0))
    case Ok((name, q)) =>
      match ReadStr(code, src, q)
      case Err(e) => Err(Failure(e, 0))
      case Ok((value, end)) =>
        match NewHeader(c, name, value)
        case Ok(h) => Ok((h, end))
        case Err(e) => Err(Failure(e, if Raw(src, q) then end else if Raw(src, p) then q else 0))
  }

  /** The name is that of an entry. */
  function ReadOldName(code: Code, c: Checks, entry: Result<Header, DecoderError>, src: Bytes, p: nat):
    (r: Result<(Header, nat), Failure>)
    requires 0 < p <= |src|
    ensures r.Ok? ==> 0 < r.value.1 <= |src|
    ensures r.Err? ==> r.error.taken <= |src|
  {
    match entry
    case Err(e) => Err(Failure(e, 0))
    case Ok(h) =>
      match ReadStr(code, src, p)
      case Err(e) => Err(Failure(e, 0))
      case Ok((value, end)) =>
        match IntoEntry(c, h.name, value)
        case Ok(x) => Ok((x, end))
        case Err(e) => Err(Failure(e, if Raw(src, p) then end else 0))
  }

  /** The effect of one representation: at most one header, the table after it, the octets used. */
  datatype Step = Step(headers: seq<Header>, table: Dynamic, used: nat)

  function NextStep(code: Code, c: Checks, d: Dynamic, limit: nat, can_resize: bool, src: Bytes): (r: Result<Step, Failure>)
    requires src != []
    ensures r.Ok? ==> 0 < r.value.used <= |src|
    ensures r.Err? ==> r.error.taken <= |src|
  {
    match Load(src[0]).value
    case IndexedField => IndexedStep(d, src)
    case LiteralWithIndexing => LiteralStep(code, c, d, src, true)
    case LiteralWithoutIndexing => LiteralStep(code, c, d, src, false)
    case LiteralNeverIndexed => LiteralStep(code, c, d, src, false)
    case SizeUpdate => if can_resize then ResizeStep(d, limit, src) else Err(Failure(InvalidMaxDynamicSize, 0))
  }

  function IndexedStep(d: Dynamic, src: Bytes): (r: Result<Step, Failure>)
    ensures r.Ok? ==> 0 < r.value.used <= |src|
    ensures r.Err? ==> r.error.taken == 0
  {
    match ReadInt(src, 0, 7)
    case Err(e) => Err(Failure(e, 0))
    case Ok((idx, p)) =>
      match Get(d.entries, idx)
      case Err(e) => Err(Failure(e, 0))
      case Ok(h) => Ok(Step([h], d, p))
  }

  function LiteralStep(code: Code, c: Checks, d: Dynamic, src: Bytes, index: bool): (r: Result<Step, Failure>)
    ensures r.Ok? ==> 0 < r.value.used <= |src|
    ensures r.Err? ==> r.error.taken <= |src|
  {
    match ReadLiteral(code, c, d.entries, src, index)
    case Err(f) => Err(f)
    case Ok((h, end)) => Ok(Step([h], if index then d.(entries := Insert(d.entries, d.max, h)) else d, end))
  }

  function ResizeStep(d: Dynamic, limit: nat, src: Bytes): (r: Result<Step, Failure>)
    ensures r.Ok? ==> 0 < r.value.used <= |src|
    ensures r.Err? ==> r.error.taken == 0
  {
    match ReadInt(src, 0, 5)
    case Err(e) => Err(Failure(e, 0))
    case Ok((size, p)) =>
      if size > limit then Err(Failure(InvalidMaxDynamicSize, 0)) else Ok(Step([], Resized(d, size), p))
  }

  // ----- A block

  /** Headers so far, the table, what is left in the buffer, and why it stopped if not at the end. */
  datatype Run = Run(headers: seq<Header>, table: Dynamic, rest: Bytes, error: Option<DecoderError>)

  function After(hs: seq<Header>, run: Run): Run {
    run.(headers := hs + run.headers)
  }

  function DecodedBlock(code: Code, c: Checks, d: Dynamic, limit: nat, can_resize: bool, src: Bytes): Run
    decreases |src|
  {
    if src == [] then Run([], d, [], None)
    else match NextStep(code, c, d, limit, can_resize, src)
      case Err(f) => Run([], d, src[f.taken..], Some(f.error))
      case Ok(step) =>
        After(step.headers,
              DecodedBlock(code, c, step.table, limit, can_resize && step.headers == [], src[step.used..]))
  }
}
