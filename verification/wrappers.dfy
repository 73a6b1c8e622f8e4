/** Options, results and the errors an HPACK decoder reports (src/hpack/decoder.rs). */
module Wrappers {
  datatype Option<+T> = None | Some(value: T)

  datatype Result<+T, +E> = Ok(value: T) | Err(error: E) {
    predicate IsFailure() {
      Err?
    }
    function PropagateFailure<U>(): Result<U, E>
      requires Err?
    {
      Err(error)
    }
    function Extract(): T
      requires Ok?
    {
      value
    }
  }

  datatype MoreKind = UnexpectedEndOfStream | IntegerUnderflow | StringUnderflow

  datatype DecoderError =
    | InvalidRepresentation
    | InvalidIntegerPrefix
    | InvalidTableIndex
    | InvalidHuffmanCode
    | InvalidUtf8
    | InvalidStatusCode
    | InvalidPseudoheader
    | InvalidMaxDynamicSize
    | IntegerOverflow
    | NeedMore(kind: MoreKind)

  lemma SubsetCount<T>(a: set<T>, b: set<T>)
    requires a <= b
    ensures |a| <= |b|
  {
    assert b == a + (b - a);
  }
}
