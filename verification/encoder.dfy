/** The HPACK encoder, src/hpack/encoder.rs. */
module HpackEncoder {
  import opened Bits
  import opened Wrappers
  import opened Integers
  import opened HuffmanCode
  import opened Strings
  import opened Headers
  import opened DynamicTable
  import opened HeaderBlocks
  import opened RobinHood
  import EncoderTable

  const DEFAULT_MAX_ALLOWED_SIZE: nat := 4096

  /** The length of the encoded string fits the placeholder. */
  predicate Writable(code: Code, s: Bytes) {
    |StrHead(code, s)| <= PLACEHOLDER_LEN
  }

  predicate WritableLine(code: Code, line: FieldLine) {
    match line
    case Named(h) => Writable(code, h.name) && Writable(code, h.value)
    case Nameless(value, _) => Writable(code, value)
  }

  predicate WritableLines(code: Code, lines: seq<FieldLine>) {
    forall i :: 0 <= i < |lines| ==> WritableLine(code, lines[i])
  }

  /** An index whose name can be written out again. */
  predicate WritableIndex(code: Code, index: Index) {
    index.NotIndexed? ==> Writable(code, index.header.name)
  }

  class Encoder {
    const code: Code
    const table: EncoderTable.Table
    const max_allowed_size: nat
    var size_update: Option<SizeUpdate>

    ghost function View(): Dynamic
      reads this, table
    {
      Dynamic(table.View(), table.max_size)
    }

    ghost predicate Valid()
      reads this, table
    {
      && HuffmanCode.Valid(code)
      && table.Valid() && table.max_size <= max_allowed_size == DEFAULT_MAX_ALLOWED_SIZE
      && forall val :: val in Updates(size_update) ==> val <= max_allowed_size
    }

    constructor (code: Code, hasher: Bytes -> nat, max_size: nat, capacity: nat)
      requires HuffmanCode.Valid(code) && 4 * capacity < WORD
      ensures Valid() && fresh(table) && this.code == code && size_update == None
      ensures View() == Dynamic([], if max_size <= DEFAULT_MAX_ALLOWED_SIZE then max_size else DEFAULT_MAX_ALLOWED_SIZE)
    {
      this.code := code;
      max_allowed_size := DEFAULT_MAX_ALLOWED_SIZE;
      size_update := None;
      var max := if max_size <= DEFAULT_MAX_ALLOWED_SIZE then max_size else DEFAULT_MAX_ALLOWED_SIZE;
      table := new EncoderTable.Table(max, capacity, hasher);
    }

    /** Remembers that the peer changed the table size. */
    method UpdateMaxSize(size: nat)
      requires Valid()
      modifies this`size_update
      ensures Valid()
      ensures size_update == Queued(old(size_update), table.max_size,
                                    if size <= max_allowed_size then size else max_allowed_size)
    {
      var val := if size <= max_allowed_size then size else max_allowed_size;
      match size_update {
        case Some(One(prior)) =>
          if val > prior {
            if prior > table.max_size {
              size_update := Some(One(val));
            } else {
              size_update := Some(Two(prior, val));
            }
          } else {
            size_update := Some(One(val));
          }
        case Some(Two(min, _)) =>
          if val < min {
            size_update := Some(One(val));
          } else {
            size_update := Some(Two(min, val));
          }
        case None =>
          if val != table.max_size {
            size_update := Some(One(val));
          }
      }
    }

    method EncodeSizeUpdate(val: nat, dst: Bytes) returns (out: Bytes)
      ensures out == dst + EncodedUpdates([val])
    {
      FieldPrefixes();
      out := EncodeInt(val, 5, SIZE_UPDATE, dst);
      assert [val][1..] == [] && EncodedUpdates([]) == [];
    }

    /** Carries the pending changes out and writes them down. */
    method EncodeSizeUpdates(dst: Bytes) returns (out: Bytes)
      requires Valid()
      modifies this, table
      ensures Valid() && size_update == None
      ensures View() == Eagerly(old(View()), Updates(old(size_update)))
      ensures out == dst + EncodedUpdates(Updates(old(size_update)))
    {
      hide EncodedInt, EvictTo, ValidPrefix, EncoderTable.Table.Valid, EncoderTable.Table.View;
      ghost var d := View();
      var pending := size_update;
      size_update := None;
      match pending {
        case Some(One(val)) =>
          assert val in Updates(pending);
          EagerlyTwo(d, val, val);
          table.Resize(val);
          out := EncodeSizeUpdate(val, dst);
        case Some(Two(min, max)) =>
          assert min in Updates(pending) && max in Updates(pending);
          EagerlyTwo(d, min, max);
          UpdatesConcat(min, max);
          table.Resize(min);
          table.Resize(max);
          out := EncodeSizeUpdate(min, dst);
          out := EncodeSizeUpdate(max, out);
        case None =>
          out := dst;
      }
    }

    method EncodeNotIndexed(name: nat, value: Bytes, sensitive: bool, dst: Bytes) returns (out: Bytes)
      requires Lengths(code) && Writable(code, value)
      ensures out == dst + NotIndexedField(code, name, value, sensitive)
    {
      hide EncodedInt, EncodedStr;
      FieldPrefixes();
      if sensitive {
        out := EncodeInt(name, 4, NEVER_INDEXED, dst);
      } else {
        out := EncodeInt(name, 4, 0, dst);
      }
      out := EncodeStr(code, value, out);
      Assoc(dst, EncodedInt(name, 4, NeverFlag(sensitive)), EncodedStr(code, value));
    }

    method EncodeNotIndexed2(name: Bytes, value: Bytes, sensitive: bool, dst: Bytes) returns (out: Bytes)
      requires Lengths(code) && Writable(code, name) && Writable(code, value)
      ensures out == dst + NotIndexedLiteral(code, name, value, sensitive)
    {
      hide EncodedStr;
      out := dst + if sensitive then [NEVER_INDEXED] else [0];
      out := EncodeStr(code, name, out);
      out := EncodeStr(code, value, out);
      Assoc(dst, [NeverFlag(sensitive)], EncodedStr(code, name));
      Assoc(dst, [NeverFlag(sensitive)] + EncodedStr(code, name), EncodedStr(code, value));
    }

    method EncodeStrings(name: Option<Bytes>, value: Bytes, dst: Bytes, ghost before: Bytes, ghost head: Bytes)
      returns (out: Bytes)
      requires Lengths(code) && Writable(code, value) && (name.Some? ==> Writable(code, name.value))
      requires dst == before + head
      ensures out == before + if name.Some? then head + EncodedStr(code, name.value) + EncodedStr(code, value)
                              else head + EncodedStr(code, value)
    {
      hide EncodedStr;
      out := dst;
      if name.Some? {
        out := EncodeStr(code, name.value, out);
      }
      out := EncodeStr(code, value, out);
    }

    method EncodeHeader(index: Index, dst: Bytes) returns (out: Bytes)
      requires Valid() && Resolves(index, View().entries)
      requires var h := Resolve(index, View().entries);
               && Writable(code, h.name) && Writable(code, h.value)
               && (index.Inserted? || index.InsertedValue? ==> !IsSensitive(h))
      ensures out == dst + HeaderBlocks.EncodedHeader(code, index, View().entries)
    {
      hide EncodedStr, EncodedInt, HuffmanCode.Valid, Writable, IsSensitive, EncoderTable.Table.Valid;
      LengthsOf(code);
      FieldPrefixes();
      match index {
        case Indexed(idx, _) =>
          out := EncodeInt(idx, 7, INDEXED, dst);
        case Name(idx, header) =>
          out := EncodeNotIndexed(idx, header.value, IsSensitive(header), dst);
        case Inserted(slot) =>
          var header := table.slots[slot].header;
          out := EncodeStrings(Some(header.name), header.value, dst + [WITH_INDEXING], dst, [WITH_INDEXING]);
        case InsertedValue(idx, slot) =>
          var header := table.slots[slot].header;
          out := EncodeInt(idx, 6, WITH_INDEXING, dst);
          out := EncodeStrings(None, header.value, out, dst, EncodedInt(idx, 6, WITH_INDEXING));
        case NotIndexed(header) =>
          out := EncodeNotIndexed2(header.name, header.value, IsSensitive(header), dst);
      }
    }

    method EncodeHeaderWithoutName(last: Index, value: Bytes, sensitive: bool, dst: Bytes) returns (out: Bytes)
      requires Valid() && Resolves(last, View().entries) && WritableIndex(code, last) && Writable(code, value)
      ensures out == dst + EncodedNameless(code, last, View().entries, value, sensitive)
    {
      hide HuffmanCode.Valid, Writable, NotIndexedField, NotIndexedLiteral;
      LengthsOf(code);
      if last.NotIndexed? {
        out := EncodeNotIndexed2(last.header.name, value, sensitive, dst);
      } else {
        out := EncodeNotIndexed(ResolveIdx(last), value, sensitive, dst);
      }
    }

    /** Appends a header block to `dst`. */
    method Encode(headers: seq<FieldLine>, dst: Bytes) returns (out: Bytes)
      requires Valid() && StartsNamed(headers) && WritableLines(code, headers)
      modifies this, table
      ensures Valid() && size_update == None
      ensures var (bs, d) := EncodedBlock(code, old(View()), old(size_update), headers);
              out == dst + bs && View() == d
    {
      hide HuffmanCode.Valid, Writable, EncodedHeader, EncodedNameless, Eagerly, EncodedUpdates, Updates, IndexHeader,
        EncoderTable.Table.Valid, EncoderTable.Table.View, WritableLine, Resolve, IsSensitive;
      out := EncodeSizeUpdates(dst);
      ghost var d, first := View(), out;
      assert headers[0..] == headers;
      AppendedNone(EncodedLines(code, d, headers, None));
      var last_index: Option<Index> := None;
      var i: nat := 0;
      assert out == first + [];
      ghost var done: Bytes := [];
      while i < |headers|
        invariant Valid() && size_update == None && i <= |headers| && table.max_size == d.max
        invariant last_index.None? ==> StartsNamed(headers[i..])
        invariant last_index.Some? ==> Resolves(last_index.value, View().entries) && WritableIndex(code, last_index.value)
        invariant out == first + done
        invariant EncodedLines(code, d, headers, None) ==
                  Appended(done, EncodedLines(code, View(), headers[i..], last_index))
      {
        hide EncodedLines;
        LinesCons(code, View(), headers[i..], last_index);
        assert headers[i..][1..] == headers[i + 1..] && headers[i..][0] == headers[i];
        LineFits(code, headers, i);
        match headers[i] {
          case Named(header) =>
            IndexResolves(table.View(), table.max_size, header);
            ghost var s := table.View();
            var index := table.Index(header);
            IndexWritable(code, s, table.max_size, header);
            assert (index, table.View()) == IndexHeader(s, d.max, header);
            out := EncodeHeader(index, out);
            AppendedTwice(done, EncodedHeader(code, index, View().entries),
                          EncodedLines(code, View(), headers[i + 1..], Some(index)));
            done := done + EncodedHeader(code, index, View().entries);
            last_index := Some(index);
          case Nameless(value, sensitive) =>
            out := EncodeHeaderWithoutName(last_index.value, value, sensitive, out);
            ghost var bs := EncodedNameless(code, last_index.value, View().entries, value, sensitive);
            AppendedTwice(done, bs, EncodedLines(code, View(), headers[i + 1..], last_index));
            done := done + bs;
        }
        i := i + 1;
      }
    }
  }

  predicate Lengths(code: Code) {
    forall k :: 0 <= k < EOS ==> |code[k]| <= MAX_LENGTH
  }

  lemma LengthsOf(code: Code)
    requires HuffmanCode.Valid(code)
    ensures Lengths(code)
  {
  }

  lemma Assoc(a: Bytes, b: Bytes, c: Bytes)
    ensures a + b + c == a + (b + c)
  {
  }

  lemma UpdatesConcat(a: nat, b: nat)
    ensures EncodedUpdates([a, b]) == EncodedUpdates([a]) + EncodedUpdates([b])
  {
    assert [a, b][1..] == [b] && [a][1..] == [] && EncodedUpdates([]) == [];
  }

  lemma LineFits(code: Code, lines: seq<FieldLine>, i: nat)
    requires WritableLines(code, lines) && i < |lines|
    ensures lines[i].Named? ==> Writable(code, lines[i].header.name) && Writable(code, lines[i].header.value)
    ensures lines[i].Nameless? ==> Writable(code, lines[i].value)
  {
    assert WritableLine(code, lines[i]);
  }

  lemma IndexWritable(code: Code, s: seq<Header>, max: nat, h: Header)
    requires Writable(code, h.name)
    ensures WritableIndex(code, IndexHeader(s, max, h).0)
  {
    IndexResolves(s, max, h);
    hide IndexHeader, Writable;
    var r := IndexHeader(s, max, h);
    assert Resolve(r.0, r.1) == h;
    assert r.0.NotIndexed? ==> r.0.header == h;
  }
}
