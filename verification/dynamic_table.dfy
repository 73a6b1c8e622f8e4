/**
  The dynamic table of section 2.3.2 of RFC 7541 as a list, newest entry first, and the
  encoder's lookup on it by plain search. The hashed table refines this one.
 */
module DynamicTable {
  import opened Bits
  import opened Wrappers
  import opened Headers

  function Size(s: seq<Header>): (n: nat)
    ensures n >= 32 * |s|
  {
    if s == [] then 0 else Size(s[..|s| - 1]) + Len(s[|s| - 1])
  }

  /** Drops oldest entries until the rest takes at most `bound` octets. */
  function EvictTo(s: seq<Header>, bound: int): (r: seq<Header>)
    ensures |r| <= |s| && r == s[..|r|]
    ensures r == [] || Size(r) <= bound
  {
    if s == [] || Size(s) <= bound then s else EvictTo(s[..|s| - 1], bound)
  }

  /** Adding an entry, section 4.4 of RFC 7541: one that does not fit empties the table. */
  function Insert(s: seq<Header>, max: nat, h: Header): (r: seq<Header>)
    ensures Size(s) <= max ==> Size(r) <= max
  {
    if Len(h) <= max then
      SizeCons(h, EvictTo(s, max - Len(h)));
      [h] + EvictTo(s, max - Len(h))
    else []
  }

  lemma {:induction false} SizeCons(h: Header, s: seq<Header>)
    ensures Size([h] + s) == Len(h) + Size(s)
  {
    var t := [h] + s;
    if s == [] {
      assert t[..0] == [] && t[0] == h;
    } else {
      assert t[..|t| - 1] == [h] + s[..|s| - 1];
      SizeCons(h, s[..|s| - 1]);
    }
  }

  lemma {:induction false} SizePrefix(s: seq<Header>, n: nat)
    requires n <= |s|
    ensures Size(s[..n]) <= Size(s)
  {
    if n < |s| {
      assert s[..|s| - 1][..n] == s[..n];
      SizePrefix(s[..|s| - 1], n);
    } else {
      assert s[..n] == s;
    }
  }

  /** Resizing twice is resizing to the smaller bound. */
  lemma {:induction false} EvictTwice(s: seq<Header>, a: int, b: int)
    ensures EvictTo(EvictTo(s, a), b) == EvictTo(s, if a <= b then a else b)
  {
    if s != [] && Size(s) > a {
      EvictTwice(s[..|s| - 1], a, b);
    }
  }

  /** No more entries are dropped than have to be: one more than what is kept would not fit. */
  lemma {:induction false} EvictsNoMore(s: seq<Header>, bound: int, n: nat)
    requires |EvictTo(s, bound)| < n <= |s|
    ensures Size(s[..n]) > bound
    decreases |s|
  {
    if n < |s| {
      assert s[..|s| - 1][..n] == s[..n];
      EvictsNoMore(s[..|s| - 1], bound, n);
    } else {
      assert s[..n] == s;
    }
  }

  /** The newest entries that fit beside a new one stay; none does if the new one is too large (section 4.4 of RFC 7541). */
  lemma InsertExactly(s: seq<Header>, max: nat, h: Header)
    ensures Len(h) > max ==> Insert(s, max, h) == []
    ensures Len(h) <= max ==>
              var r := Insert(s, max, h);
              && r != [] && r[0] == h && r[1..] <= s && Size(r) <= max
              && forall n :: |r| <= n <= |s| ==> Len(h) + Size(s[..n]) > max
  {
    if Len(h) <= max {
      var kept := EvictTo(s, max - Len(h));
      SizeCons(h, kept);
      assert ([h] + kept)[1..] == kept;
      forall n | |kept| + 1 <= n <= |s| ensures Len(h) + Size(s[..n]) > max {
        EvictsNoMore(s, max - Len(h), n);
      }
    }
  }

  lemma EvictNothing(s: seq<Header>, bound: int)
    requires Size(s) <= bound
    ensures EvictTo(s, bound) == s
  {
  }

  // ----- Searching

  /** The newest entry with this name, from `i` on. */
  function FindName(s: seq<Header>, name: Bytes, i: nat): (r: Option<nat>)
    requires i <= |s|
    ensures r.Some? ==> i <= r.value < |s| && s[r.value].name == name
                        && forall j :: i <= j < r.value ==> s[j].name != name
    ensures r.None? ==> forall j :: i <= j < |s| ==> s[j].name != name
    decreases |s| - i
  {
    if i == |s| then None else if s[i].name == name then Some(i) else FindName(s, name, i + 1)
  }

  predicate SameField(a: Header, b: Header) {
    a.name == b.name && a.value == b.value
  }

  /** The newest entry with this name and value, from `i` on. */
  function FindField(s: seq<Header>, h: Header, i: nat): (r: Option<nat>)
    requires i <= |s|
    ensures r.Some? ==> i <= r.value < |s| && SameField(s[r.value], h)
    ensures r.None? ==> forall j :: i <= j < |s| ==> !SameField(s[j], h)
    decreases |s| - i
  {
    if i == |s| then None else if SameField(s[i], h) then Some(i) else FindField(s, h, i + 1)
  }

  /** No two entries are the same field. */
  predicate Unique(s: seq<Header>) {
    forall i, j :: 0 <= i < j < |s| ==> !SameField(s[i], s[j])
  }

  // ----- Indexing a header

  /** How the encoder refers to a header. */
  datatype Index =
    | Indexed(idx: nat, header: Header)
    | Name(idx: nat, header: Header)
    | Inserted(slot: nat)
    | InsertedValue(idx: nat, slot: nat)
    | NotIndexed(header: Header)

  function NewIndex(statik: Option<(nat, bool)>, h: Header): Index {
    match statik
    case None => NotIndexed(h)
    case Some((n, true)) => Indexed(n, h)
    case Some((n, false)) => Name(n, h)
  }

  /** Whether the table is consulted at all. */
  predicate Bypasses(max: nat, h: Header) {
    || SkipValueIndex(h)
    || (IndexStatic(h).Some? && IndexStatic(h).value.1)
    || Len(h) * 4 > max * 3
  }

  /** The reference the encoder picks for `h`, and the table afterwards. */
  function IndexHeader(s: seq<Header>, max: nat, h: Header): (r: (Index, seq<Header>)) {
    if Bypasses(max, h) then (NewIndex(IndexStatic(h), h), s) else IndexDynamic(s, max, h)
  }

  function IndexDynamic(s: seq<Header>, max: nat, h: Header): (r: (Index, seq<Header>)) {
    var statik := IndexStatic(h);
    match FindField(s, h, 0)
    case Some(i) => (Indexed(i + DYN_OFFSET, h), s)
    case None =>
      match FindName(s, h.name, 0)
      case Some(i) =>
        if IsSensitive(h) then (Name(i + DYN_OFFSET, h), s)
        else (InsertedValue(if statik.Some? then statik.value.0 else i + DYN_OFFSET, 0), Insert(s, max, h))
      case None =>
        if IsSensitive(h) then (NewIndex(statik, h), s)
        else (if statik.Some? then InsertedValue(statik.value.0, 0) else Inserted(0), Insert(s, max, h))
  }

  // ----- What every lookup keeps

  /** Entries are unique, never sensitive, and fit. */
  predicate Sound(s: seq<Header>, max: nat) {
    && Unique(s)
    && (forall i :: 0 <= i < |s| ==> !IsSensitive(s[i]))
    && Size(s) <= max
  }

  lemma IndexKeepsSound(s: seq<Header>, max: nat, h: Header)
    requires Sound(s, max)
    ensures Sound(IndexHeader(s, max, h).1, max)
  {
    var r := IndexHeader(s, max, h).1;
    if r != s {
      assert FindField(s, h, 0).None?;
      assert r == Insert(s, max, h);
      InsertKeepsSound(s, max, h);
    }
  }

  lemma InsertKeepsSound(s: seq<Header>, max: nat, h: Header)
    requires Sound(s, max) && !IsSensitive(h) && FindField(s, h, 0).None?
    ensures Sound(Insert(s, max, h), max)
  {
    if Len(h) <= max {
      var kept := EvictTo(s, max - Len(h));
      assert kept == s[..|kept|];
      SizeCons(h, kept);
    }
  }

  lemma ResizeKeepsSound(s: seq<Header>, old_max: nat, max: nat)
    requires Sound(s, old_max)
    ensures Sound(EvictTo(s, max), max)
  {
    var kept := EvictTo(s, max);
    assert kept == s[..|kept|];
    assert Size([]) == 0;
  }
}
