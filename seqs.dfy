/** The subsequence relation that the filters of the model are stated with. */
module Seqs {

  /** `a` is obtained from `b` by deleting zero or more elements (order kept). */
  predicate Subseq<T(==)>(a: seq<T>, b: seq<T>)
    decreases |b|
  {
    a == [] || (b != [] && ((a[0] == b[0] && Subseq(a[1..], b[1..])) || Subseq(a, b[1..])))
  }
}
