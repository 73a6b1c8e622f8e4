/**
  A few encodings written out, so that both directions cannot be wrong in the same way: the examples
  of appendix C of RFC 7541 and section 4.1 of RFC 9113.
 */
module WireExamples {
  import opened Bits
  import opened Wrappers
  import opened Integers
  import opened HuffmanCode
  import opened Strings
  import opened Headers
  import opened DynamicTable
  import opened HeaderBlocks
  import opened Fields
  import opened HeaderFrames
  import opened RawLiterals
  import References

  lemma Powers()
    ensures Pow2(4) == 16 && Pow2(5) == 32 && Pow2(6) == 64 && Pow2(7) == 128 && Pow2(8) == 256
  {
    Pow2Table();
  }

  /** Appendix C.1: 10 and 1337 with a prefix of five bits, 42 on an octet boundary. */
  lemma IntegerExamples()
    ensures ValidPrefix(5, 0) && ValidPrefix(8, 0)
    ensures EncodedInt(10, 5, 0) == [10] && EncodedInt(1337, 5, 0) == [31, 154, 10] && EncodedInt(42, 8, 0) == [42]
  {
    Powers();
    hide Pow2;
    assert Varint(1306) == [154] + Varint(10);
  }

  /** Short raw strings: the length, then the octets. */
  lemma ShortRawStr(s: Bytes)
    requires |s| < 127
    ensures RawStr(s) == [|s|] + s
  {
    Powers();
    hide Pow2;
  }

  /** Appendix C.2.1: a literal with indexing; appendix C.2.3: one never to be indexed. */
  lemma LiteralExamples()
    ensures RawLiteral(NewName(WithIndexing, Ascii("custom-key"), Ascii("custom-header"))) ==
            [0x40, 0x0a] + Ascii("custom-key") + [0x0d] + Ascii("custom-header")
    ensures RawLiteral(NewName(NeverIndexed, Ascii("password"), Ascii("secret"))) ==
            [0x10, 0x08] + Ascii("password") + [0x06] + Ascii("secret")
  {
    ShortRawStr(Ascii("custom-key"));
    ShortRawStr(Ascii("custom-header"));
    ShortRawStr(Ascii("password"));
    ShortRawStr(Ascii("secret"));
    hide RawStr;
    var k, v, p, s := Ascii("custom-key"), Ascii("custom-header"), Ascii("password"), Ascii("secret");
    assert |k| == 10 && |v| == 13 && |p| == 8 && |s| == 6;
    assert [0x40] + ([10] + k) + ([13] + v) == [0x40, 0x0a] + k + [0x0d] + v;
    assert [0x10] + ([8] + p) + ([6] + s) == [0x10, 0x08] + p + [0x06] + s;
  }

  /** Appendix C.2.2: a literal without indexing whose name is an entry. */
  lemma OldNameExample()
    ensures RawLiteral(OldName(WithoutIndexing, 4, Ascii("/sample/path"))) == [0x04, 0x0c] + Ascii("/sample/path")
  {
    ShortRawStr(Ascii("/sample/path"));
    Powers();
    hide RawStr, Pow2;
    var p := Ascii("/sample/path");
    assert |p| == 12;
    assert [4] + ([12] + p) == [0x04, 0x0c] + p;
  }

  /** Appendix C.2.4: an index, `:method: GET`. */
  lemma IndexExample(code: Code, s: seq<Header>, max: nat)
    ensures var h := Header(Ascii(":method"), Ascii("GET"), false);
            && IndexHeader(s, max, h) == (Indexed(2, h), s)
            && EncodedHeader(code, Indexed(2, h), s) == [0x82]
  {
    References.PseudoNamesDiffer();
    Powers();
    FieldPrefixes();
    hide Ascii, Pow2;
  }

  /** Section 6.3: a table of no size. */
  lemma UpdateExample()
    ensures EncodedUpdates([0]) == [0x20]
  {
    Powers();
    FieldPrefixes();
    hide Pow2;
    assert EncodedUpdates([]) == [];
    assert [0][1..] == [];
  }

  /** Appendix C.3.1: the size of an entry. */
  lemma SizeExample()
    ensures Len(Header(Ascii(":authority"), Ascii("www.example.com"), false)) == 57
  {
    assert |Ascii(":authority")| == 10 && |Ascii("www.example.com")| == 15;
  }

  /** The head of a frame: length, type, flags, stream. */
  lemma HeadExample(payload: Bytes)
    requires |payload| == 0x010203
    ensures Octets(Frame(Head(1, 4, 0x04050607), payload)) == [1, 2, 3, 1, 4, 4, 5, 6, 7] + payload
  {
  }
}
