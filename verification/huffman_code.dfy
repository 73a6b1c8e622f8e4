/**
  The Huffman code of section 5.2 of RFC 7541, taken as a parameter, with the
  bit-at-a-time decoder that the tests of src/hpack/huffman/decode.rs compare against.
 */
module HuffmanCode {
  import opened Bits
  import opened Wrappers

  const EOS: nat := 256
  const MIN_LENGTH: nat := 5
  const MAX_LENGTH: nat := 30

  /** The code words of the 256 octets, then that of EOS. */
  type Code = c: seq<BitString> | |c| == EOS + 1 witness seq(EOS + 1, _ => [])

  predicate StartsWith(s: BitString, w: BitString) {
    w <= s
  }

  ghost predicate PrefixFree(code: Code) {
    forall i, j {:trigger StartsWith(code[j], code[i])} ::
      0 <= i <= EOS && 0 <= j <= EOS && StartsWith(code[j], code[i]) ==> i == j
  }

  ghost predicate HasMatch(code: Code, s: BitString) {
    exists k :: 0 <= k <= EOS && StartsWith(s, code[k])
  }

  /** Every long enough bit string starts with a code word. */
  ghost predicate Complete(code: Code) {
    forall s: BitString {:trigger HasMatch(code, s)} :: |s| >= MAX_LENGTH ==> HasMatch(code, s)
  }

  /** What the decoder relies on. */
  ghost predicate Valid(code: Code) {
    && (forall k :: 0 <= k <= EOS ==> MIN_LENGTH <= |code[k]| <= MAX_LENGTH)
    && PrefixFree(code)
    && Complete(code)
    && AllOnes(code[EOS])
  }

  /** Eight bits for each octet but the last, which shares the eight ones with EOS. */
  function PlainWord(k: nat): (w: BitString)
    ensures |w| == if k < 255 then 8 else 9
  {
    if k < 255 then Digits(k, 8) else Fill(true, 8) + [k == EOS]
  }

  function PlainCode(): Code {
    seq(EOS + 1, k requires 0 <= k => PlainWord(k))
  }

  lemma PlainWordStarts(k: nat)
    requires k <= EOS
    ensures PlainWord(k)[..8] == Digits(if k < 255 then k else 255, 8)
  {
    if k >= 255 {
      assert Digits(255, 8) == Fill(true, 8);
      assert PlainWord(k)[..8] == Fill(true, 8);
    }
  }

  lemma PlainPrefixFree(i: nat, j: nat)
    requires i <= EOS && j <= EOS && StartsWith(PlainWord(j), PlainWord(i))
    ensures i == j
  {
    hide Digits, Value, Pow2;
    Pow2Table();
    PlainWordStarts(i);
    PlainWordStarts(j);
    assert PlainWord(i)[..8] == PlainWord(j)[..8];
    ValueOfDigits(if i < 255 then i else 255, 8);
    ValueOfDigits(if j < 255 then j else 255, 8);
    if i >= 255 {
      assert PlainWord(i)[8] == PlainWord(j)[8];
    }
  }

  lemma PlainComplete(s: BitString)
    requires |s| >= MAX_LENGTH
    ensures exists k :: 0 <= k <= EOS && StartsWith(s, PlainWord(k))
  {
    hide Digits, Value, Pow2;
    Pow2Table();
    var v := Value(s[..8]);
    DigitsOfValue(s[..8]);
    var k := if v < 255 then v else if s[8] then EOS else 255;
    PlainWordStarts(k);
    assert PlainWord(k) == s[..|PlainWord(k)|];
    assert StartsWith(s, PlainWord(k));
  }

  /** Codes of the shape the decoder relies on exist. */
  lemma ValidCodeExists()
    ensures Valid(PlainCode())
  {
    var code := PlainCode();
    hide PlainWord;
    forall i, j | 0 <= i <= EOS && 0 <= j <= EOS && StartsWith(code[j], code[i]) ensures i == j {
      PlainPrefixFree(i, j);
    }
    forall s: BitString | |s| >= MAX_LENGTH ensures HasMatch(code, s) {
      PlainComplete(s);
      var k :| 0 <= k <= EOS && StartsWith(s, PlainWord(k));
      assert StartsWith(s, code[k]);
    }
    PlainEos();
  }

  lemma PlainEos()
    ensures AllOnes(PlainWord(EOS))
  {
  }

  /** The first octet at or after `from` whose code word starts `s`. */
  function FirstMatch(code: Code, s: BitString, from: nat): (r: Option<Byte>)
    ensures r.Some? ==> from <= r.value && code[r.value] != [] && code[r.value] <= s
    ensures r.None? ==> forall k :: from <= k < EOS && code[k] != [] ==> !(code[k] <= s)
    decreases EOS - from
  {
    if from >= EOS then None
    else if code[from] != [] && code[from] <= s then Some(from)
    else FirstMatch(code, s, from + 1)
  }

  /** Strips one code word after another; at most seven one bits may remain. */
  function ReferenceDecode(code: Code, s: BitString): (r: Result<Bytes, DecoderError>)
    decreases |s|
  {
    match FirstMatch(code, s, 0)
    case Some(octet) =>
      var rest :- ReferenceDecode(code, s[|code[octet]|..]);
      Ok([octet] + rest)
    case None =>
      if |s| >= 8 || !AllOnes(s) then Err(InvalidHuffmanCode) else Ok([])
  }

  /** The code words of the octets, one after the other. */
  function EncodedBits(code: Code, src: Bytes): (s: BitString) {
    if src == [] then [] else EncodedBits(code, src[..|src| - 1]) + code[src[|src| - 1]]
  }

  /** How many one bits complete the last octet. */
  function PaddingLength(n: nat): (p: nat)
    ensures p < 8 && (n + p) % 8 == 0
  {
    (8 - n % 8) % 8
  }

  function PaddedBits(code: Code, src: Bytes): (s: BitString)
    ensures |s| % 8 == 0
  {
    var s := EncodedBits(code, src);
    s + Fill(true, PaddingLength(|s|))
  }

  function Encoded(code: Code, src: Bytes): (bs: Bytes) {
    BitsBytes(PaddedBits(code, src))
  }

  function Decoded(code: Code, src: Bytes): (r: Result<Bytes, DecoderError>) {
    ReferenceDecode(code, BytesBits(src))
  }

  // ----- At most one code word starts a bit string

  lemma PrefixesNest(a: BitString, b: BitString, s: BitString)
    requires a <= s && b <= s && |a| <= |b|
    ensures a <= b
  {
  }

  lemma MatchUnique(code: Code, s: BitString, i: nat, j: nat)
    requires PrefixFree(code) && i <= EOS && j <= EOS
    ensures code[i] <= s && code[j] <= s ==> i == j
  {
    if code[i] <= s && code[j] <= s {
      if |code[i]| <= |code[j]| {
        PrefixesNest(code[i], code[j], s);
        assert StartsWith(code[j], code[i]);
      } else {
        PrefixesNest(code[j], code[i], s);
        assert StartsWith(code[i], code[j]);
      }
    }
  }

  lemma FirstMatchIs(code: Code, s: BitString, k: nat)
    requires Valid(code) && k < EOS && code[k] <= s
    ensures FirstMatch(code, s, 0) == Some(k)
  {
    var r := FirstMatch(code, s, 0);
    assert code[k] != [];
    assert r.Some?;
    MatchUnique(code, s, r.value, k);
  }

  /** EOS being all ones, no octet's code word is. */
  lemma OctetHasZero(code: Code, k: nat)
    requires Valid(code) && k < EOS
    ensures !AllOnes(code[k])
  {
    var w, e := code[k], code[EOS];
    assert AllOnes(w) && |w| <= |e| ==> StartsWith(e, w);
    assert AllOnes(w) && |e| <= |w| ==> StartsWith(w, e);
  }

  lemma PaddingMatchesNothing(code: Code, s: BitString)
    requires Valid(code) && AllOnes(s)
    ensures FirstMatch(code, s, 0) == None
  {
    var r := FirstMatch(code, s, 0);
    if r.Some? {
      OctetHasZero(code, r.value);
    }
  }

  // ----- Decoding inverts encoding

  lemma {:induction false} EncodedBitsCons(code: Code, b: Byte, src: Bytes)
    ensures EncodedBits(code, [b] + src) == code[b] + EncodedBits(code, src)
  {
    var all := [b] + src;
    if src == [] {
      assert all[..0] == [] && EncodedBits(code, []) == [];
    } else {
      var n := |src| - 1;
      assert all[..n + 1] == [b] + src[..n];
      EncodedBitsCons(code, b, src[..n]);
    }
  }

  /** Decoding a code word and then the rest. */
  function Prepend(b: Byte, r: Result<Bytes, DecoderError>): Result<Bytes, DecoderError> {
    if r.Ok? then Ok([b] + r.value) else r
  }

  lemma DecodeStep(code: Code, b: Byte, s: BitString)
    requires Valid(code) && code[b] <= s
    ensures ReferenceDecode(code, s) == Prepend(b, ReferenceDecode(code, s[|code[b]|..]))
  {
    FirstMatchIs(code, s, b);
  }

  lemma {:induction false} DecodeEncoded(code: Code, src: Bytes, pad: nat)
    requires Valid(code) && pad < 8
    ensures ReferenceDecode(code, EncodedBits(code, src) + Fill(true, pad)) == Ok(src)
    decreases |src|
  {
    var s := EncodedBits(code, src) + Fill(true, pad);
    if src == [] {
      assert s == Fill(true, pad);
      PaddingMatchesNothing(code, s);
    } else {
      var b, rest := src[0], src[1..];
      assert src == [b] + rest;
      EncodedBitsCons(code, b, rest);
      var t := EncodedBits(code, rest) + Fill(true, pad);
      assert s == code[b] + t;
      DecodeStep(code, b, s);
      assert s[|code[b]|..] == t;
      DecodeEncoded(code, rest, pad);
    }
  }

  /** Decoding inverts encoding, for every octet string (section 5.2 of RFC 7541). */
  lemma HuffmanRoundTrip(code: Code, src: Bytes)
    requires Valid(code)
    ensures Decoded(code, Encoded(code, src)) == Ok(src)
  {
    BytesBitsInverse(PaddedBits(code, src));
    DecodeEncoded(code, src, PaddingLength(|EncodedBits(code, src)|));
  }
}
