/**
  Which reference the encoder picks for a header (src/hpack/table.rs), said in terms of the combined
  table of section 2.3 of RFC 7541 and of nothing that the search is made of.
 */
module References {
  import opened Bits
  import opened Wrappers
  import opened Headers
  import opened DynamicTable
  import opened HeaderBlocks
  import opened Fields
  import RoundTrip

  /** Entry `idx` of the combined table is the field. */
  predicate IsField(s: seq<Header>, idx: nat, h: Header) {
    Get(s, idx).Ok? && Get(s, idx).value.name == h.name && Get(s, idx).value.value == h.value
  }

  predicate IsName(s: seq<Header>, idx: nat, name: Bytes) {
    Get(s, idx).Ok? && Get(s, idx).value.name == name
  }

  /** The table is open to the header: its value may be worth an entry, and it would leave room for others. */
  predicate Welcome(max: nat, h: Header) {
    !SkipValueIndex(h) && Len(h) * 4 <= max * 3
  }

  // ----- The static table

  /** Names that differ early on. */
  lemma PseudoNamesDiffer()
    ensures Ascii(":method") != Ascii(":authority")
    ensures Ascii(":scheme") !in [Ascii(":authority"), Ascii(":method")]
    ensures Ascii(":path") !in [Ascii(":authority"), Ascii(":method"), Ascii(":scheme")]
    ensures Ascii(":status") !in [Ascii(":authority"), Ascii(":method"), Ascii(":scheme"), Ascii(":path")]
    ensures Ascii("accept-encoding") !in [Ascii(":authority"), Ascii(":method"), Ascii(":scheme"), Ascii(":path"), Ascii(":status")]
  {
    assert Ascii(":method")[1] == 'm' as int && Ascii(":authority")[1] == 'a' as int && Ascii(":path")[1] == 'p' as int;
    assert Ascii(":scheme")[2] == 'c' as int && Ascii(":status")[2] == 't' as int && Ascii(":scheme")[1] == 's' as int;
    assert Ascii(":status")[1] == 's' as int && Ascii("accept-encoding")[0] == 'a' as int;
    assert Ascii(":method")[0] == Ascii(":authority")[0] == Ascii(":path")[0] == Ascii(":scheme")[0] == Ascii(":status")[0] == ':' as int;
  }

  lemma EmptyAscii()
    ensures Ascii("") == []
  {
  }

  /** A static entry with a value is found as such. */
  lemma StaticValueFound(idx: nat, h: Header)
    requires 1 <= idx <= STATIC_SIZE && GetStatic(idx).name == h.name && GetStatic(idx).value == h.value && h.value != []
    ensures IndexStatic(h).Some? && IndexStatic(h).value.1
  {
    EmptyAscii();
    PseudoNamesDiffer();
    hide Ascii, IndexStaticField;
  }

  /** A name in the static table is found there. */
  lemma StaticNameFound(idx: nat, h: Header)
    requires 1 <= idx <= STATIC_SIZE && GetStatic(idx).name == h.name
    ensures IndexStatic(h).Some?
  {
    hide Ascii;
  }

  // ----- Headers that are there already

  /** The dynamic part of the combined table. */
  lemma DynamicEntry(s: seq<Header>, idx: nat)
    requires Get(s, idx).Ok? && idx > STATIC_SIZE
    ensures idx - DYN_OFFSET < |s| && Get(s, idx).value == s[idx - DYN_OFFSET]
  {
    hide GetStatic;
  }

  lemma StaticEntry(s: seq<Header>, idx: nat)
    requires Get(s, idx).Ok? && idx <= STATIC_SIZE
    ensures idx >= 1 && Get(s, idx).value == GetStatic(idx)
  {
    hide GetStatic;
  }

  /**
    A field that is in the table is referred to by an index of it: always if the entry is static and
    has a value, and otherwise if the table is open to the header.
   */
  lemma PresentIsIndexed(s: seq<Header>, max: nat, h: Header, idx: nat)
    requires IsField(s, idx, h) && if idx <= STATIC_SIZE then h.value != [] else Welcome(max, h)
    ensures IndexHeader(s, max, h).1 == s && IndexHeader(s, max, h).0.Indexed? && IndexHeader(s, max, h).0.header == h
    ensures IsField(s, IndexHeader(s, max, h).0.idx, h)
  {
    RoundTrip.IndexMeans(s, max, h);
    if idx <= STATIC_SIZE {
      StaticEntry(s, idx);
      StaticValueFound(idx, h);
    } else {
      DynamicEntry(s, idx);
    }
    hide IndexStatic, SkipValueIndex, IsSensitive, Insert, GetStatic, Get;
  }

  /**
    A name that is in the table is made use of. Only a header that is too large for the table, and
    whose name is in its dynamic part only, is spelled out nevertheless.
   */
  lemma NamedIsReferred(s: seq<Header>, max: nat, h: Header, idx: nat)
    requires IsName(s, idx, h.name)
    ensures !IndexHeader(s, max, h).0.Inserted?
    ensures IndexHeader(s, max, h).0.NotIndexed? ==>
              Len(h) * 4 > max * 3 && forall j :: 1 <= j <= STATIC_SIZE ==> !IsName(s, j, h.name)
  {
    if idx <= STATIC_SIZE {
      StaticEntry(s, idx);
      StaticNameFound(idx, h);
    } else {
      DynamicEntry(s, idx);
    }
    if IndexStatic(h).None? {
      forall j | 1 <= j <= STATIC_SIZE ensures !IsName(s, j, h.name) {
        if IsName(s, j, h.name) {
          StaticEntry(s, j);
          StaticNameFound(j, h);
        }
      }
      if SkipValueIndex(h) {
        SkippedIsStatic(h);
      }
    }
    hide IndexStatic, SkipValueIndex, IsSensitive, Insert, GetStatic, Get, IsName;
  }

  /** Conversely, a header spelled out, or entered with its name, has a name that is nowhere in the table, or is too large. */
  lemma NewOnlyIfAbsent(s: seq<Header>, max: nat, h: Header, idx: nat)
    requires IndexHeader(s, max, h).0.Inserted? || (IndexHeader(s, max, h).0.NotIndexed? && Len(h) * 4 <= max * 3)
    ensures !IsName(s, idx, h.name)
  {
    if IsName(s, idx, h.name) {
      NamedIsReferred(s, max, h, idx);
    }
    hide IndexHeader, IsName;
  }

  /** A name from the dynamic part is that of the newest entry that has it; a new entry prefers a static one. */
  lemma NewestName(s: seq<Header>, max: nat, h: Header, j: nat)
    ensures var r := IndexHeader(s, max, h).0;
            (r.Name? || r.InsertedValue?) && r.idx > STATIC_SIZE && j < r.idx && IsName(s, j, h.name) ==>
              j <= STATIC_SIZE && r.Name? && IsSensitive(h)
  {
    var r := IndexHeader(s, max, h).0;
    if (r.Name? || r.InsertedValue?) && r.idx > STATIC_SIZE && j < r.idx && IsName(s, j, h.name) {
      StaticMeansSmall(h);
      if j <= STATIC_SIZE {
        StaticEntry(s, j);
        StaticNameFound(j, h);
      } else {
        DynamicEntry(s, j);
      }
    }
    hide IndexStatic, SkipValueIndex, IsSensitive, Insert, GetStatic, Get;
  }

  lemma StaticMeansSmall(h: Header)
    ensures IndexStatic(h).Some? ==> 1 <= IndexStatic(h).value.0 <= STATIC_SIZE
  {
    StaticAgrees(h);
    hide IndexStatic, GetStatic;
  }

  /** A header is entered exactly if it is worth it, may be, and is not there. */
  lemma EnteredExactly(s: seq<Header>, max: nat, h: Header)
    ensures var r := IndexHeader(s, max, h).0;
            r.Inserted? || r.InsertedValue? <==>
            Welcome(max, h) && !IsSensitive(h) && !(IndexStatic(h).Some? && IndexStatic(h).value.1)
            && forall i :: 0 <= i < |s| ==> !SameField(s[i], h)
  {
    hide IndexStatic, SkipValueIndex, IsSensitive, Insert;
  }

  /** The same header again is one octet or two, not a literal. */
  lemma AgainIsIndexed(s: seq<Header>, max: nat, h: Header)
    requires Welcome(max, h) && !IsSensitive(h)
    ensures var s1 := IndexHeader(s, max, h).1;
            IndexHeader(s1, max, h).0.Indexed? && IndexHeader(s1, max, h).1 == s1 && IsField(s1, IndexHeader(s1, max, h).0.idx, h)
  {
    var s1 := IndexHeader(s, max, h).1;
    RoundTrip.IndexMeans(s, max, h);
    IndexResolves(s, max, h);
    RoundTrip.IndexMeans(s1, max, h);
    if IndexHeader(s, max, h).0.Inserted? || IndexHeader(s, max, h).0.InsertedValue? {
      assert s1[0] == h;
      NewestIsField(s1, h);
      PresentIsIndexed(s1, max, h, DYN_OFFSET);
    }
    hide IndexStatic, SkipValueIndex, IsSensitive, Insert, GetStatic, Get;
  }

  lemma NewestIsField(s: seq<Header>, h: Header)
    requires s != [] && s[0] == h
    ensures IsField(s, DYN_OFFSET, h)
  {
    hide GetStatic;
  }
}
