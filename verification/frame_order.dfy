/** Which runs of frames can yield a header list, section 6.10 of RFC 9113 (src/codec/framed_read.rs). */
module FrameOrder {
  import opened Bits
  import opened Wrappers
  import opened HuffmanCode
  import opened Headers
  import opened HeaderBlocks
  import opened Fields
  import opened HeaderFrames
  import opened Reassembly

  /** Frames up to the `j`-th continue a block of stream `id`, and the `j`-th ends it. */
  predicate Continues(fs: seq<Frame>, id: nat, j: nat) {
    && j < |fs| && EndsHeaders(fs[j].head.flag)
    && (forall m :: 0 <= m < j ==> !EndsHeaders(fs[m].head.flag))
    && (forall m :: 0 <= m <= j ==> fs[m].head.kind == KIND_CONTINUATION && fs[m].head.stream_id == id)
  }

  /** HEADERS is frame `i`, CONTINUATION of the same stream all frames behind it up to the `j`-th, which alone ends the block. */
  predicate BlockAt(fs: seq<Frame>, i: nat, j: nat) {
    && i <= j < |fs| && fs[i].head.kind == KIND_HEADERS
    && (forall m :: 0 <= m < i ==> fs[m].head.kind !in {KIND_HEADERS, KIND_CONTINUATION})
    && EndsHeaders(fs[j].head.flag)
    && (forall m :: i <= m < j ==> !EndsHeaders(fs[m].head.flag))
    && (forall m :: i < m <= j ==> fs[m].head.kind == KIND_CONTINUATION && fs[m].head.stream_id == fs[i].head.stream_id)
  }

  lemma {:induction false} RestContinues(code: Code, c: Checks, limit: nat, most: nat, r: Reader, fs: seq<Frame>) returns (j: nat)
    requires r.partial.Some?
    requires ReadFrames(code, c, limit, most, r, fs).0.Ok? && ReadFrames(code, c, limit, most, r, fs).0.value.Some?
    ensures Continues(fs, r.partial.value.stream_id, j) && (j > 0 ==> r.partial.value.continuation_frames_count + j <= most)
    decreases |fs|
  {
    hide DecodedBlock;
    var (o, r1) := ReadFrame(code, c, limit, most, r, fs[0]);
    if o.value.Some? {
      j := 0;
    } else {
      var k := RestContinues(code, c, limit, most, r1, fs[1..]);
      j := k + 1;
      assert forall m :: 0 < m < |fs| ==> fs[m] == fs[1..][m - 1];
    }
  }

  /**
    A header list only comes of HEADERS followed by CONTINUATION frames of the same stream, nothing
    in between, none behind END_HEADERS, and no more of them without it than are allowed.
   */
  lemma {:induction false} OnlyWholeBlocks(code: Code, c: Checks, limit: nat, most: nat, d: Dynamic, fs: seq<Frame>)
    returns (i: nat, j: nat)
    requires ReadFrames(code, c, limit, most, Reader(d, None), fs).0.Ok?
    requires ReadFrames(code, c, limit, most, Reader(d, None), fs).0.value.Some?
    ensures BlockAt(fs, i, j) && j <= i + most + 1
    decreases |fs|
  {
    hide DecodedBlock;
    var (o, r1) := ReadFrame(code, c, limit, most, Reader(d, None), fs[0]);
    if o.value.Some? {
      i, j := 0, 0;
    } else if fs[0].head.kind == KIND_HEADERS {
      var k := RestContinues(code, c, limit, most, r1, fs[1..]);
      i, j := 0, k + 1;
      assert forall m :: 0 < m < |fs| ==> fs[m] == fs[1..][m - 1];
    } else {
      var i1, j1 := OnlyWholeBlocks(code, c, limit, most, d, fs[1..]);
      i, j := i1 + 1, j1 + 1;
      assert forall m :: 0 < m < |fs| ==> fs[m] == fs[1..][m - 1];
    }
  }
}
