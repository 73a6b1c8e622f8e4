/** The HPACK decoder, src/hpack/decoder.rs. */
module HpackDecoder {
  import opened Bits
  import opened Wrappers
  import opened Integers
  import opened HuffmanCode
  import opened Strings
  import opened Headers
  import opened DynamicTable
  import opened HeaderBlocks
  import opened Fields

  /** A read position in a buffer whose front can be cut off. */
  class Cursor {
    var buf: Bytes
    var pos: nat

    constructor (buf: Bytes)
      ensures this.buf == buf && pos == 0
    {
      this.buf, pos := buf, 0;
    }

    /** Cuts everything up to `n` octets after the position off and returns those octets. */
    method Take(n: nat) returns (head: Bytes)
      requires pos + n <= |buf|
      modifies this
      ensures head == old(buf[pos..pos + n]) && buf == old(buf[pos + n..]) && pos == 0
    {
      head := buf[pos..pos + n];
      buf, pos := buf[pos + n..], 0;
    }

    /** Moves past a string found at the position. */
    method ConsumeMarker(m: StringMarker) returns (s: Bytes)
      requires pos + m.offset + m.len <= |buf|
      modifies this
      ensures s == old(Contents(m, buf, pos))
      ensures m.decoded.Some? ==> buf == old(buf) && pos == old(pos) + m.offset + m.len
      ensures m.decoded.None? ==> buf == old(buf)[old(pos) + m.offset + m.len..] && pos == 0
    {
      pos := pos + m.offset;
      match m.decoded {
        case Some(decoded) =>
          pos := pos + m.len;
          s := decoded;
        case None =>
          s := Take(m.len);
      }
    }
  }

  class Table {
    var entries: seq<Header>
    var size: nat
    var max_size: nat

    ghost function View(): Dynamic
      reads this
    {
      Dynamic(entries, max_size)
    }

    ghost predicate Valid()
      reads this
    {
      size == Size(entries) <= max_size
    }

    constructor (size: nat)
      ensures Valid() && View() == Dynamic([], size)
    {
      entries, this.size, max_size := [], 0, size;
    }

    method Get(index: nat) returns (r: Result<Header, DecoderError>)
      ensures r == Fields.Get(entries, index)
    {
      if index == 0 {
        return Err(InvalidTableIndex);
      }
      if index <= 61 {
        return Ok(GetStatic(index));
      }
      if index - 62 < |entries| {
        return Ok(entries[index - 62]);
      }
      return Err(InvalidTableIndex);
    }

    method Insert(entry: Header)
      requires Valid()
      modifies this
      ensures Valid() && View() == old(View().(entries := DynamicTable.Insert(entries, max_size, entry)))
    {
      var len := Len(entry);
      Reserve(len);
      if size + len <= max_size {
        SizeCons(entry, entries);
        size := size + len;
        entries := [entry] + entries;
      }
    }

    method SetMaxSize(size: nat)
      requires Valid()
      modifies this
      ensures Valid() && View() == Resized(old(View()), size)
    {
      max_size := size;
      Consolidate();
    }

    /** Makes room for `room` octets, as far as that is possible. */
    method Reserve(room: nat)
      requires size == Size(entries)
      modifies this`entries, this`size
      ensures entries == EvictTo(old(entries), max_size - room) && size == Size(entries) <= old(size)
    {
      while size + room > max_size
        invariant size == Size(entries) <= old(size)
        invariant EvictTo(entries, max_size - room) == EvictTo(old(entries), max_size - room)
        decreases |entries|
      {
        if entries == [] {
          return;
        }
        var last := entries[|entries| - 1];
        entries := entries[..|entries| - 1];
        size := size - Len(last);
      }
    }

    method Consolidate()
      requires size == Size(entries)
      modifies this`entries, this`size
      ensures entries == EvictTo(old(entries), max_size) && size == Size(entries) <= max_size
    {
      while size > max_size
        invariant size == Size(entries)
        invariant EvictTo(entries, max_size) == EvictTo(old(entries), max_size)
        decreases |entries|
      {
        var last := entries[|entries| - 1];
        size := size - Len(last);
        entries := entries[..|entries| - 1];
      }
    }
  }

  class Decoder {
    const huffman: Huffman
    const checks: Checks
    const table: Table
    var max_size_update: Option<nat>
    var last_max_update: nat

    ghost predicate Valid()
      reads this, table
    {
      huffman.Ready() && table.Valid()
    }

    constructor (huffman: Huffman, checks: Checks, size: nat)
      requires huffman.Ready()
      ensures Valid() && fresh(table) && this.huffman == huffman && this.checks == checks
      ensures table.View() == Dynamic([], size) && max_size_update == None && last_max_update == size
    {
      this.huffman, this.checks := huffman, checks;
      max_size_update, last_max_update := None, size;
      table := new Table(size);
    }

    /** Allows the encoder a larger table from the next block on. */
    method QueueSizeUpdate(size: nat)
      requires Valid()
      modifies this`max_size_update
      ensures Valid()
      ensures max_size_update ==
              match old(max_size_update) case Some(v) => Some(if v > size then v else size) case None => Some(size)
    {
      max_size_update := match max_size_update case Some(v) => Some(if v > size then v else size) case None => Some(size);
    }

    /** Decodes what the buffer holds. Undecoded octets stay in it. */
    method Decode(src: Cursor) returns (headers: seq<Header>, r: Result<(), DecoderError>)
      requires Valid() && src.pos == 0
      modifies this`max_size_update, this`last_max_update, table, src
      ensures Valid() && max_size_update == None
      ensures last_max_update == if old(max_size_update).Some? then old(max_size_update).value else old(last_max_update)
      ensures var run := DecodedBlock(huffman.code, checks, old(table.View()), last_max_update, true, old(src.buf));
              && headers == run.headers && table.View() == run.table && src.buf == run.rest
              && r == if run.error.Some? then Err(run.error.value) else Ok(())
    {
      hide Table.Valid, Table.View, NextStep, Huffman.Ready;
      var can_resize := true;
      headers := [];
      if max_size_update.Some? {
        last_max_update := max_size_update.value;
        max_size_update := None;
      }
      ghost var d, whole := table.View(), src.buf;
      AfterNothing(DecodedBlock(huffman.code, checks, d, last_max_update, true, whole));
      while src.buf != []
        invariant Valid() && src.pos == 0 && max_size_update == None
        invariant last_max_update == if old(max_size_update).Some? then old(max_size_update).value else old(last_max_update)
        invariant DecodedBlock(huffman.code, checks, d, last_max_update, true, whole) ==
                  After(headers, DecodedBlock(huffman.code, checks, table.View(), last_max_update, can_resize, src.buf))
        decreases |src.buf|
      {
        ghost var run := DecodedBlock(huffman.code, checks, table.View(), last_max_update, can_resize, src.buf);
        var more := DecodeOne(src, can_resize);
        if more.Err? {
          return headers, Err(more.error);
        }
        var _ := src.Take(0);
        can_resize := can_resize && more.value == [];
        AfterBoth(headers, more.value,
                  DecodedBlock(huffman.code, checks, table.View(), last_max_update, can_resize, src.buf));
        headers := headers + more.value;
      }
      r := Ok(());
    }

    /** Decodes one representation: a header, or a change of the table size. */
    method DecodeOne(src: Cursor, can_resize: bool) returns (r: Result<seq<Header>, DecoderError>)
      requires Valid() && src.pos == 0 && src.buf != []
      modifies table, src
      ensures Valid() && src.pos <= |src.buf|
      ensures var step := NextStep(huffman.code, checks, old(table.View()), last_max_update, can_resize, old(src.buf));
              && (r.Ok? <==> step.Ok?)
              && (r.Err? ==> r.error == step.error.error && table.View() == old(table.View())
                             && src.buf == old(src.buf)[step.error.taken..])
              && (r.Ok? ==> r.value == step.value.headers && table.View() == step.value.table
                            && src.buf[src.pos..] == old(src.buf)[step.value.used..])
    {
      hide Table.Valid, ReadInt, ReadLiteral, Resized, DynamicTable.Insert, Load, Huffman.Ready;
      match Load(src.buf[0]).value {
        case IndexedField =>
          var entry := DecodeIndexed(src);
          r := if entry.Ok? then Ok([entry.value]) else Err(entry.error);
        case LiteralWithIndexing =>
          var entry := DecodeLiteral(src, true);
          if entry.Err? {
            return Err(entry.error);
          }
          table.Insert(entry.value);
          r := Ok([entry.value]);
        case LiteralWithoutIndexing =>
          var entry := DecodeLiteral(src, false);
          r := if entry.Ok? then Ok([entry.value]) else Err(entry.error);
        case LiteralNeverIndexed =>
          var entry := DecodeLiteral(src, false);
          r := if entry.Ok? then Ok([entry.value]) else Err(entry.error);
        case SizeUpdate =>
          if !can_resize {
            return Err(InvalidMaxDynamicSize);
          }
          var done := ProcessSizeUpdate(src);
          r := if done.Ok? then Ok([]) else Err(done.error);
      }
    }

    method ProcessSizeUpdate(src: Cursor) returns (r: Result<(), DecoderError>)
      requires Valid() && src.pos == 0
      modifies table, src
      ensures Valid() && src.buf == old(src.buf) && src.pos <= |src.buf|
      ensures var step := ResizeStep(old(table.View()), last_max_update, src.buf);
              && (r.Ok? <==> step.Ok?)
              && (r.Err? ==> r.error == step.error.error && table.View() == old(table.View()))
              && (r.Ok? ==> table.View() == step.value.table && src.pos == step.value.used)
    {
      hide ReadInt;
      var n := DecodeInt(src.buf, src.pos, 5);
      if n.Err? {
        return Err(n.error);
      }
      src.pos := n.value.1;
      if n.value.0 > last_max_update {
        return Err(InvalidMaxDynamicSize);
      }
      table.SetMaxSize(n.value.0);
      r := Ok(());
    }

    method DecodeIndexed(src: Cursor) returns (r: Result<Header, DecoderError>)
      requires Valid() && src.pos == 0
      modifies src
      ensures src.buf == old(src.buf) && src.pos <= |src.buf|
      ensures var step := IndexedStep(table.View(), src.buf);
              && (r.Ok? <==> step.Ok?)
              && (r.Err? ==> r.error == step.error.error)
              && (r.Ok? ==> [r.value] == step.value.headers && src.pos == step.value.used)
    {
      hide ReadInt;
      var n := DecodeInt(src.buf, src.pos, 7);
      if n.Err? {
        return Err(n.error);
      }
      src.pos := n.value.1;
      r := table.Get(n.value.0);
    }

    method DecodeLiteral(src: Cursor, index: bool) returns (r: Result<Header, DecoderError>)
      requires Valid() && src.pos == 0 && src.buf != []
      modifies src
      ensures src.pos <= |src.buf|
      ensures var lit := ReadLiteral(huffman.code, checks, table.entries, old(src.buf), index);
              && (r.Ok? <==> lit.Ok?)
              && (r.Err? ==> r.error == lit.error.error && src.buf == old(src.buf)[lit.error.taken..])
              && (r.Ok? ==> r.value == lit.value.0 && src.buf[src.pos..] == old(src.buf)[lit.value.1..])
    {
      hide ReadInt, ReadStr, NewHeader, IntoEntry, Fields.Get, Huffman.Ready, Contents;
      var prefix := if index then 6 else 4;
      var n := DecodeInt(src.buf, src.pos, prefix);
      if n.Err? {
        return Err(n.error);
      }
      src.pos := n.value.1;
      if n.value.0 == 0 {
        r := DecodeNewName(src);
      } else {
        var e := table.Get(n.value.0);
        if e.Err? {
          return Err(e.error);
        }
        r := DecodeOldName(src, e.value);
      }
    }

    /** Both strings are looked at before either is taken. */
    method DecodeNewName(src: Cursor) returns (r: Result<Header, DecoderError>)
      requires Valid() && 0 < src.pos <= |src.buf|
      modifies src
      ensures src.pos <= |src.buf|
      ensures var lit := ReadNewName(huffman.code, checks, old(src.buf), old(src.pos));
              && (r.Ok? <==> lit.Ok?)
              && (r.Err? ==> r.error == lit.error.error && src.buf == old(src.buf)[lit.error.taken..])
              && (r.Ok? ==> r.value == lit.value.0 && src.buf[src.pos..] == old(src.buf)[lit.value.1..])
    {
      hide ReadStr, NewHeader, Huffman.Ready, Contents;
      var name_marker := TryDecodeString(huffman, src.buf, src.pos);
      if name_marker.Err? {
        return Err(name_marker.error);
      }
      var value_marker := TryDecodeString(huffman, src.buf, name_marker.value.1);
      if value_marker.Err? {
        return Err(value_marker.error);
      }
      ContentsMoved(value_marker.value.0, src.buf, name_marker.value.1);
      var name := src.ConsumeMarker(name_marker.value.0);
      var value := src.ConsumeMarker(value_marker.value.0);
      r := NewHeader(checks, name, value);
    }

    method DecodeOldName(src: Cursor, e: Header) returns (r: Result<Header, DecoderError>)
      requires Valid() && 0 < src.pos <= |src.buf|
      modifies src
      ensures src.pos <= |src.buf|
      ensures var lit := ReadOldName(huffman.code, checks, Ok(e), old(src.buf), old(src.pos));
              && (r.Ok? <==> lit.Ok?)
              && (r.Err? ==> r.error == lit.error.error && src.buf == old(src.buf)[lit.error.taken..])
              && (r.Ok? ==> r.value == lit.value.0 && src.buf[src.pos..] == old(src.buf)[lit.value.1..])
    {
      hide ReadStr, IntoEntry, Huffman.Ready, Contents;
      var marker := TryDecodeString(huffman, src.buf, src.pos);
      if marker.Err? {
        return Err(marker.error);
      }
      var value := src.ConsumeMarker(marker.value.0);
      r := IntoEntry(checks, e.name, value);
    }
  }

  lemma AfterNothing(run: Run)
    ensures After([], run) == run
  {
    assert [] + run.headers == run.headers;
  }

  lemma AfterBoth(a: seq<Header>, b: seq<Header>, run: Run)
    ensures After(a, After(b, run)) == After(a + b, run)
  {
    assert a + (b + run.headers) == a + b + run.headers;
  }
}
