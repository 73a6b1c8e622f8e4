/** Header fields and the static table (src/hpack/header.rs, appendix A of RFC 7541). */
module Headers {
  import opened Bits
  import opened Wrappers

  /** A field; pseudo-header fields have a name that starts with a colon. */
  datatype Header = Header(name: Bytes, value: Bytes, sensitive: bool)

  /** What a caller hands to the encoder: a field without a name repeats the last one. */
  datatype FieldLine = Named(header: Header) | Nameless(value: Bytes, sensitive: bool)

  const STATIC_SIZE: nat := 61

  /** The dynamic table follows the static one in the index space. */
  const DYN_OFFSET: nat := 62

  /** The octets of an ASCII literal. */
  function Ascii(s: string): (bs: Bytes)
    ensures |bs| == |s|
  {
    seq(|s|, i requires 0 <= i < |s| => if s[i] < 128 as char then s[i] as int else 0)
  }

  predicate IsPseudo(name: Bytes) {
    name != [] && name[0] == ':' as int
  }

  /** Only fields can be marked sensitive. */
  predicate IsSensitive(h: Header) {
    h.sensitive && !IsPseudo(h.name)
  }

  /** `value_eq`: the same value in the same kind of header. */
  predicate ValueEq(a: Header, b: Header) {
    a.value == b.value && (a.name == b.name || (!IsPseudo(a.name) && !IsPseudo(b.name)))
  }

  /** Size of an entry, section 4.1 of RFC 7541. */
  function Len(h: Header): (n: nat)
    ensures n >= 32
  {
    32 + |h.name| + |h.value|
  }

  /** Fields whose values change too often to be worth an entry. */
  predicate SkipValueIndex(h: Header) {
    h.name in [Ascii("age"), Ascii("authorization"), Ascii("content-length"), Ascii("etag"),
               Ascii("if-modified-since"), Ascii("if-none-match"), Ascii("location"), Ascii("cookie"),
               Ascii("set-cookie"), Ascii(":path")]
  }

  function Static(name: string, value: string): (h: Header)
    ensures !h.sensitive
  {
    Header(Ascii(name), Ascii(value), false)
  }

  function GetStatic(idx: nat): Header
    requires 1 <= idx <= STATIC_SIZE
  {
    match idx
    case 1 => Static(":authority", "")
    case 2 => Static(":method", "GET")
    case 3 => Static(":method", "POST")
    case 4 => Static(":path", "/")
    case 5 => Static(":path", "/index.html")
    case 6 => Static(":scheme", "http")
    case 7 => Static(":scheme", "https")
    case 8 => Static(":status", "200")
    case 9 => Static(":status", "204")
    case 10 => Static(":status", "206")
    case 11 => Static(":status", "304")
    case 12 => Static(":status", "400")
    case 13 => Static(":status", "404")
    case 14 => Static(":status", "500")
    case 15 => Static("accept-charset", "")
    case 16 => Static("accept-encoding", "gzip, deflate")
    case 17 => Static("accept-language", "")
    case 18 => Static("accept-ranges", "")
    case 19 => Static("accept", "")
    case 20 => Static("access-control-allow-origin", "")
    case 21 => Static("age", "")
    case 22 => Static("allow", "")
    case 23 => Static("authorization", "")
    case 24 => Static("cache-control", "")
    case 25 => Static("content-disposition", "")
    case 26 => Static("content-encoding", "")
    case 27 => Static("content-language", "")
    case 28 => Static("content-length", "")
    case 29 => Static("content-location", "")
    case 30 => Static("content-range", "")
    case 31 => Static("content-type", "")
    case 32 => Static("cookie", "")
    case 33 => Static("date", "")
    case 34 => Static("etag", "")
    case 35 => Static("expect", "")
    case 36 => Static("expires", "")
    case 37 => Static("from", "")
    case 38 => Static("host", "")
    case 39 => Static("if-match", "")
    case 40 => Static("if-modified-since", "")
    case 41 => Static("if-none-match", "")
    case 42 => Static("if-range", "")
    case 43 => Static("if-unmodified-since", "")
    case 44 => Static("last-modified", "")
    case 45 => Static("link", "")
    case 46 => Static("location", "")
    case 47 => Static("max-forwards", "")
    case 48 => Static("proxy-authenticate", "")
    case 49 => Static("proxy-authorization", "")
    case 50 => Static("range", "")
    case 51 => Static("referer", "")
    case 52 => Static("refresh", "")
    case 53 => Static("retry-after", "")
    case 54 => Static("server", "")
    case 55 => Static("set-cookie", "")
    case 56 => Static("strict-transport-security", "")
    case 57 => Static("transfer-encoding", "")
    case 58 => Static("user-agent", "")
    case 59 => Static("vary", "")
    case 60 => Static("via", "")
    case 61 => Static("www-authenticate", "")
  }

  /** The static entry for a header, and whether its value matches too. */
  function IndexStatic(h: Header): Option<(nat, bool)> {
    var n, v := h.name, h.value;
    if n == Ascii(":authority") then Some((1, false))
    else if n == Ascii(":method") then
      Some(if v == Ascii("GET") then (2, true) else if v == Ascii("POST") then (3, true) else (2, false))
    else if n == Ascii(":scheme") then
      Some(if v == Ascii("http") then (6, true) else if v == Ascii("https") then (7, true) else (6, false))
    else if n == Ascii(":path") then
      Some(if v == Ascii("/") then (4, true) else if v == Ascii("/index.html") then (5, true) else (4, false))
    else if n == Ascii(":status") then
      Some(if v == Ascii("200") then (8, true) else if v == Ascii("204") then (9, true)
           else if v == Ascii("206") then (10, true) else if v == Ascii("304") then (11, true)
           else if v == Ascii("400") then (12, true) else if v == Ascii("404") then (13, true)
           else if v == Ascii("500") then (14, true) else (8, false))
    else if n == Ascii("accept-encoding") then Some((16, v == Ascii("gzip, deflate")))
    else IndexStaticField(n)
  }

  /** Fields that the static table lists by name only. */
  function IndexStaticField(n: Bytes): Option<(nat, bool)> {
    if n == Ascii("accept-charset") then Some((15, false))
    else if n == Ascii("accept-language") then Some((17, false))
    else if n == Ascii("accept-ranges") then Some((18, false))
    else if n == Ascii("accept") then Some((19, false))
    else if n == Ascii("access-control-allow-origin") then Some((20, false))
    else if n == Ascii("age") then Some((21, false))
    else if n == Ascii("allow") then Some((22, false))
    else if n == Ascii("authorization") then Some((23, false))
    else if n == Ascii("cache-control") then Some((24, false))
    else if n == Ascii("content-disposition") then Some((25, false))
    else if n == Ascii("content-encoding") then Some((26, false))
    else if n == Ascii("content-language") then Some((27, false))
    else IndexStaticField2(n)
  }

  function IndexStaticField2(n: Bytes): Option<(nat, bool)> {
    if n == Ascii("content-length") then Some((28, false))
    else if n == Ascii("content-location") then Some((29, false))
    else if n == Ascii("content-range") then Some((30, false))
    else if n == Ascii("content-type") then Some((31, false))
    else if n == Ascii("cookie") then Some((32, false))
    else if n == Ascii("date") then Some((33, false))
    else if n == Ascii("etag") then Some((34, false))
    else if n == Ascii("expect") then Some((35, false))
    else if n == Ascii("expires") then Some((36, false))
    else if n == Ascii("from") then Some((37, false))
    else if n == Ascii("host") then Some((38, false))
    else if n == Ascii("if-match") then Some((39, false))
    else IndexStaticField3(n)
  }

  function IndexStaticField3(n: Bytes): Option<(nat, bool)> {
    if n == Ascii("if-modified-since") then Some((40, false))
    else if n == Ascii("if-none-match") then Some((41, false))
    else if n == Ascii("if-range") then Some((42, false))
    else if n == Ascii("if-unmodified-since") then Some((43, false))
    else if n == Ascii("last-modified") then Some((44, false))
    else if n == Ascii("link") then Some((45, false))
    else if n == Ascii("location") then Some((46, false))
    else if n == Ascii("max-forwards") then Some((47, false))
    else if n == Ascii("proxy-authenticate") then Some((48, false))
    else if n == Ascii("proxy-authorization") then Some((49, false))
    else if n == Ascii("range") then Some((50, false))
    else if n == Ascii("referer") then Some((51, false))
    else IndexStaticField4(n)
  }

  function IndexStaticField4(n: Bytes): Option<(nat, bool)> {
    if n == Ascii("refresh") then Some((52, false))
    else if n == Ascii("retry-after") then Some((53, false))
    else if n == Ascii("server") then Some((54, false))
    else if n == Ascii("set-cookie") then Some((55, false))
    else if n == Ascii("strict-transport-security") then Some((56, false))
    else if n == Ascii("transfer-encoding") then Some((57, false))
    else if n == Ascii("user-agent") then Some((58, false))
    else if n == Ascii("vary") then Some((59, false))
    else if n == Ascii("via") then Some((60, false))
    else if n == Ascii("www-authenticate") then Some((61, false))
    else None
  }

  /** The encoder's static lookup and the decoder's static table agree. */
  lemma StaticAgrees(h: Header)
    ensures IndexStatic(h).Some? ==>
              && 1 <= IndexStatic(h).value.0 <= STATIC_SIZE
              && GetStatic(IndexStatic(h).value.0).name == h.name
              && (IndexStatic(h).value.1 ==> GetStatic(IndexStatic(h).value.0).value == h.value)
  {
    hide Ascii, IndexStaticField;
    StaticFieldAgrees(h.name);
  }

  lemma StaticFieldAgrees(n: Bytes)
    ensures IndexStaticField(n).Some? ==>
              && 1 <= IndexStaticField(n).value.0 <= STATIC_SIZE && !IndexStaticField(n).value.1
              && GetStatic(IndexStaticField(n).value.0).name == n
  {
    hide Ascii, IndexStaticField2;
    StaticFieldAgrees2(n);
  }

  lemma StaticFieldAgrees2(n: Bytes)
    ensures IndexStaticField2(n).Some? ==>
              && 1 <= IndexStaticField2(n).value.0 <= STATIC_SIZE && !IndexStaticField2(n).value.1
              && GetStatic(IndexStaticField2(n).value.0).name == n
  {
    hide Ascii, IndexStaticField3;
    StaticFieldAgrees3(n);
  }

  lemma StaticFieldAgrees3(n: Bytes)
    ensures IndexStaticField3(n).Some? ==>
              && 1 <= IndexStaticField3(n).value.0 <= STATIC_SIZE && !IndexStaticField3(n).value.1
              && GetStatic(IndexStaticField3(n).value.0).name == n
  {
    hide Ascii, IndexStaticField4;
    StaticFieldAgrees4(n);
  }

  lemma StaticFieldAgrees4(n: Bytes)
    ensures IndexStaticField4(n).Some? ==>
              && 1 <= IndexStaticField4(n).value.0 <= STATIC_SIZE && !IndexStaticField4(n).value.1
              && GetStatic(IndexStaticField4(n).value.0).name == n
  {
    hide Ascii;
  }

  /** Headers that are never given an entry always have a static name. */
  lemma SkippedIsStatic(h: Header)
    requires SkipValueIndex(h)
    ensures IndexStatic(h).Some?
  {
    hide Ascii;
  }
}
