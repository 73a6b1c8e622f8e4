/** String literals, section 5.2 of RFC 7541 (src/hpack/encoder.rs, src/hpack/decoder.rs). */
module Strings {
  import opened Bits
  import opened Wrappers
  import opened Integers
  import opened HuffmanCode
  import HuffmanEncoder
  import HuffmanDecoder
  import opened HuffmanTables

  /** The encoder leaves this much room for a length that does not fit in one octet. */
  const PLACEHOLDER_LEN: nat := 8

  const HUFFMAN_FLAG: Byte := 0x80

  /** The Huffman tables a decoder holds. */
  datatype Huffman = Huffman(code: Code, fast: seq<nat>, trie: seq<nat>) {
    ghost predicate Ready() {
      HuffmanCode.Valid(code) && FastTableFor(code, fast) && TrieFor(code, trie)
    }
  }

  // ----- Encoding

  function StrHead(code: Code, val: Bytes): Bytes {
    Flagged7();
    EncodedInt(|Encoded(code, val)|, 7, HUFFMAN_FLAG)
  }

  function EncodedStr(code: Code, val: Bytes): (bs: Bytes)
    ensures |bs| > 0
  {
    if val == [] then [0] else StrHead(code, val) + Encoded(code, val)
  }

  lemma Flagged7()
    ensures ValidPrefix(7, HUFFMAN_FLAG) && Pow2(7) == 128
  {
    Pow2Table();
  }

  /** Encodes in place behind one octet, then makes room if the length needs more than that. */
  method EncodeStr(code: Code, val: Bytes, dst: Bytes) returns (out: Bytes)
    requires forall k :: 0 <= k < EOS ==> |code[k]| <= MAX_LENGTH
    requires |StrHead(code, val)| <= PLACEHOLDER_LEN
    ensures out == dst + EncodedStr(code, val)
  {
    hide Encoded, EncodedInt, ValidPrefix, Pow2;
    if val == [] {
      return dst + [0];
    }
    ghost var huff := Encoded(code, val);
    var idx := |dst|;
    out := HuffmanEncoder.Encode(code, val, dst + [0]);
    var huff_len := |out| - (idx + 1);
    assert out == dst + [0] + huff;
    Flagged7();
    if huff_len < Pow2(7) - 1 {
      ShortHead(huff_len);
      out := out[idx := HUFFMAN_FLAG + huff_len];
      assert out == dst + ([HUFFMAN_FLAG + huff_len] + huff);
    } else {
      var head := EncodeInt(huff_len, 7, HUFFMAN_FLAG, []);
      assert head == StrHead(code, val);
      LongHead(huff_len);
      var head_len := |head|;
      out := out + head[1..head_len];
      out := ShiftForward(out, idx, head_len, huff_len, huff, dst);
      out := CopyHead(out, idx, head, huff, dst);
    }
  }

  method CopyHead(buf: Bytes, idx: nat, head: Bytes, ghost huff: Bytes, ghost before: Bytes) returns (out: Bytes)
    requires |buf| == idx + |head| + |huff| && |before| == idx
    requires buf[..idx] == before && buf[idx + |head|..] == huff
    ensures out == before + (head + huff)
  {
    out := buf;
    for i := 0 to |head|
      invariant |out| == |buf| && out[..idx] == before && out[idx + |head|..] == huff
      invariant forall j :: 0 <= j < i ==> out[idx + j] == head[j]
    {
      out := out[idx + i := head[i]];
    }
    assert out[idx..idx + |head|] == head;
    assert out == out[..idx] + (out[idx..idx + |head|] + out[idx + |head|..]);
  }

  /** The loop that moves the encoded string behind a longer header, last octet first. */
  method ShiftForward(buf: Bytes, idx: nat, head_len: nat, huff_len: nat, ghost huff: Bytes, ghost before: Bytes)
    returns (out: Bytes)
    requires head_len >= 1 && |huff| == huff_len && |buf| == idx + head_len + huff_len && |before| == idx
    requires buf[..idx] == before && buf[idx + 1..idx + 1 + huff_len] == huff
    ensures |out| == |buf| && out[..idx] == before && out[idx + head_len..] == huff
  {
    out := buf;
    for i := 0 to huff_len
      invariant |out| == |buf| && out[..idx] == before
      invariant forall j :: 0 <= j < huff_len - i ==> out[idx + 1 + j] == huff[j]
      invariant forall j :: huff_len - i <= j < huff_len ==> out[idx + head_len + j] == huff[j]
    {
      var src_i := idx + 1 + (huff_len - (i + 1));
      var dst_i := idx + head_len + (huff_len - (i + 1));
      out := out[dst_i := out[src_i]];
    }
  }

  lemma ShortHead(len: nat)
    requires len < Pow2(7) - 1
    ensures ValidPrefix(7, HUFFMAN_FLAG) && EncodedInt(len, 7, HUFFMAN_FLAG) == [HUFFMAN_FLAG + len]
  {
    Flagged7();
  }

  lemma LongHead(len: nat)
    requires len >= Pow2(7) - 1
    ensures ValidPrefix(7, HUFFMAN_FLAG) && |EncodedInt(len, 7, HUFFMAN_FLAG)| >= 2
  {
    Flagged7();
  }

  // ----- Decoding

  function Delivered(code: Code, first: Byte, raw: Bytes, end: nat): Result<(Bytes, nat), DecoderError> {
    if first < HUFFMAN_FLAG then Ok((raw, end))
    else match Decoded(code, raw)
      case Err(e) => Err(e)
      case Ok(s) => Ok((s, end))
  }

  /** The string at `pos` and where it ends. */
  function ReadStr(code: Code, src: Bytes, pos: nat): (r: Result<(Bytes, nat), DecoderError>)
    requires pos <= |src|
    ensures r.Ok? ==> pos < r.value.1 <= |src|
  {
    if pos == |src| then Err(NeedMore(UnexpectedEndOfStream))
    else match ReadInt(src, pos, 7)
      case Err(e) => Err(e)
      case Ok((len, start)) =>
        if len > |src| - start then Err(NeedMore(StringUnderflow))
        else Delivered(code, src[pos], src[start..start + len], start + len)
  }

  /** Where a string was found: its contents are left in the buffer unless they had to be decoded. */
  datatype StringMarker = StringMarker(offset: nat, len: nat, decoded: Option<Bytes>)

  method TryDecodeString(h: Huffman, src: Bytes, pos: nat) returns (r: Result<(StringMarker, nat), DecoderError>)
    requires pos <= |src| && h.Ready()
    ensures r.Err? <==> ReadStr(h.code, src, pos).Err?
    ensures r.Err? ==> r.error == ReadStr(h.code, src, pos).error
    ensures r.Ok? ==>
              && r.value.1 == ReadStr(h.code, src, pos).value.1 == pos + r.value.0.offset + r.value.0.len
              && Contents(r.value.0, src, pos) == ReadStr(h.code, src, pos).value.0
              && (r.value.0.decoded.None? <==> src[pos] < HUFFMAN_FLAG)
  {
    hide ReadInt, Decoded;
    if pos == |src| {
      return Err(NeedMore(UnexpectedEndOfStream));
    }
    var huff := src[pos] >= HUFFMAN_FLAG;
    var n := DecodeInt(src, pos, 7);
    if n.Err? {
      return Err(n.error);
    }
    var len, at := n.value.0, n.value.1;
    if len > |src| - at {
      return Err(NeedMore(StringUnderflow));
    }
    var offset := at - pos;
    if huff {
      var s := HuffmanDecoder.Decode(h.code, h.fast, h.trie, src[at..at + len]);
      match s
      case Err(e) => return Err(e);
      case Ok(decoded) => return Ok((StringMarker(offset, len, Some(decoded)), at + len));
    } else {
      return Ok((StringMarker(offset, len, None), at + len));
    }
  }

  /** The string a marker stands for, when its header is at `pos`. */
  function Contents(m: StringMarker, src: Bytes, pos: nat): Bytes
    requires pos + m.offset + m.len <= |src|
  {
    if m.decoded.Some? then m.decoded.value else src[pos + m.offset..pos + m.offset + m.len]
  }

  lemma ContentsMoved(m: StringMarker, src: Bytes, pos: nat)
    requires pos + m.offset + m.len <= |src|
    ensures Contents(m, src[pos..], 0) == Contents(m, src, pos)
  {
    if m.decoded.None? {
      assert src[pos..][m.offset..m.offset + m.len] == src[pos + m.offset..pos + m.offset + m.len];
    }
  }

  // ----- Round trip

  /** Strings whose encoding is shorter than 127 + 2^28 octets come back; longer ones are refused. */
  lemma StrRoundTrip(code: Code, val: Bytes, src: Bytes, pos: nat)
    requires HuffmanCode.Valid(code) && pos <= |src| && At(src, pos, EncodedStr(code, val))
    ensures ReadStr(code, src, pos) ==
            if val == [] || |Encoded(code, val)| < 127 + VARINT_LIMIT then Ok((val, pos + |EncodedStr(code, val)|))
            else Err(IntegerOverflow)
  {
    hide *;
    EncodedStrIs(code, val);
    if val == [] {
      EmptyStr(code, src, pos);
    } else {
      var huff := Encoded(code, val);
      AtConcat(src, pos, StrHead(code, val), huff);
      Flagged7();
      IntRoundTrip(|huff|, 7, HUFFMAN_FLAG, src, pos);
      HeadFlag(|huff|, src, pos);
      HuffmanRoundTrip(code, val);
      CodedStr(code, val, huff, src, pos, |StrHead(code, val)|);
    }
  }

  lemma EncodedStrIs(code: Code, val: Bytes)
    ensures StrHead(code, val) == (Flagged7(); EncodedInt(|Encoded(code, val)|, 7, HUFFMAN_FLAG))
    ensures EncodedStr(code, val) == if val == [] then [0] else StrHead(code, val) + Encoded(code, val)
  {
  }

  lemma CodedStr(code: Code, val: Bytes, huff: Bytes, src: Bytes, pos: nat, head: nat)
    requires pos < |src| && src[pos] >= HUFFMAN_FLAG && At(src, pos + head, huff) && Decoded(code, huff) == Ok(val)
    requires ReadInt(src, pos, 7) ==
             if |huff| < Pow2(7) - 1 + VARINT_LIMIT then Ok((|huff|, pos + head)) else Err(IntegerOverflow)
    ensures ReadStr(code, src, pos) ==
            if |huff| < 127 + VARINT_LIMIT then Ok((val, pos + head + |huff|)) else Err(IntegerOverflow)
  {
    Flagged7();
    hide ReadInt, Decoded, Pow2;
  }

  lemma HeadFlag(len: nat, src: Bytes, pos: nat)
    requires ValidPrefix(7, HUFFMAN_FLAG) && pos <= |src| && At(src, pos, EncodedInt(len, 7, HUFFMAN_FLAG))
    ensures pos < |src| && src[pos] >= HUFFMAN_FLAG
  {
    assert EncodedInt(len, 7, HUFFMAN_FLAG)[0] >= HUFFMAN_FLAG;
    assert src[pos] == src[pos..pos + |EncodedInt(len, 7, HUFFMAN_FLAG)|][0];
  }

  lemma EmptyStr(code: Code, src: Bytes, pos: nat)
    requires pos <= |src| && At(src, pos, [0])
    ensures ReadStr(code, src, pos) == Ok(([], pos + 1))
  {
    AtOne(src, pos, 0);
    Pow2Table();
    FirstOctet(0, 7, 0);
    assert LowBits(0, 7) == 0 && src[pos + 1..pos + 1] == [];
  }

  lemma ReadStrIs(code: Code, src: Bytes, pos: nat, len: nat, start: nat)
    requires pos < |src| && ReadInt(src, pos, 7) == Ok((len, start)) && start <= |src|
    ensures len > |src| - start ==> ReadStr(code, src, pos) == Err(NeedMore(StringUnderflow))
    ensures len <= |src| - start ==> ReadStr(code, src, pos) == Delivered(code, src[pos], src[start..start + len], start + len)
  {
    hide ReadInt, Decoded;
  }

  lemma ReadStrNeedsInt(code: Code, src: Bytes, pos: nat)
    requires pos < |src|
    ensures ReadInt(src, pos, 7).Err? ==> ReadStr(code, src, pos) == Err(ReadInt(src, pos, 7).error)
    ensures ReadStr(code, src, pos).Ok? ==>
              ReadInt(src, pos, 7).Ok? && ReadInt(src, pos, 7).value.1 + ReadInt(src, pos, 7).value.0 == ReadStr(code, src, pos).value.1
  {
    hide ReadInt, Decoded;
  }

  /** A string cut short asks for more; one that is wholly there reads the same. */
  lemma ReadStrTruncated(code: Code, src: Bytes, pos: nat, k: nat)
    requires pos <= k <= |src| && ReadStr(code, src, pos).Ok?
    ensures k < ReadStr(code, src, pos).value.1 ==>
              ReadStr(code, src[..k], pos).Err? && ReadStr(code, src[..k], pos).error.NeedMore?
    ensures k >= ReadStr(code, src, pos).value.1 ==> ReadStr(code, src[..k], pos) == ReadStr(code, src, pos)
  {
    if pos < k {
      hide ReadInt, Decoded, ReadStr, Delivered;
      ReadStrNeedsInt(code, src, pos);
      ReadStrNeedsInt(code, src[..k], pos);
      ReadIntTruncated(src, pos, 7, k);
      var n := ReadInt(src, pos, 7);
      var len, start := n.value.0, n.value.1;
      ReadStrIs(code, src, pos, len, start);
      assert src[..k][pos] == src[pos];
      if k >= start {
        ReadStrIs(code, src[..k], pos, len, start);
        if k >= start + len {
          assert src[..k][start..start + len] == src[start..start + len];
        }
      }
    }
  }

  /** What follows a string makes no difference. */
  lemma ReadStrExtended(code: Code, src: Bytes, pos: nat, k: nat)
    requires pos <= k <= |src| && ReadStr(code, src[..k], pos).Ok?
    ensures ReadStr(code, src, pos) == ReadStr(code, src[..k], pos)
  {
    ReadStrSome(code, src[..k], pos);
    hide ReadInt, Decoded, ReadStr, Delivered;
    ReadStrNeedsInt(code, src[..k], pos);
    ReadIntExtended(src, pos, 7, k);
    var n := ReadInt(src, pos, 7);
    ReadStrIs(code, src, pos, n.value.0, n.value.1);
    ReadStrIs(code, src[..k], pos, n.value.0, n.value.1);
    SliceOfPrefix(src, k, n.value.1, n.value.1 + n.value.0);
  }

  lemma SliceOfPrefix(s: Bytes, k: nat, lo: nat, hi: nat)
    requires lo <= hi <= k <= |s|
    ensures s[..k][lo..hi] == s[lo..hi]
  {
  }

  lemma ReadStrSome(code: Code, src: Bytes, pos: nat)
    requires pos <= |src| && ReadStr(code, src, pos).Ok?
    ensures pos < |src| && ReadInt(src, pos, 7).Ok?
    ensures ReadInt(src, pos, 7).value.0 + ReadInt(src, pos, 7).value.1 <= |src|
  {
    hide ReadInt, Decoded;
  }
}
