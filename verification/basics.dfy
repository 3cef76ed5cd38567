/** Small vocabulary shared by the models: options, results, and facts about
    finite sets that the counting proofs rest on. */
module Basics {
  datatype Option<+T> = None | Some(value: T)

  datatype Result<+T, +E> = Ok(value: T) | Err(error: E)

  /** An identifier: what the source calls a Uuid. Only equality is used. */
  type Id = nat

  /** A part is never larger than the whole. */
  lemma SubsetSize<T>(part: set<T>, whole: set<T>)
    requires part <= whole
    ensures |part| <= |whole|
  {
    assert whole == part + (whole - part);
  }

  /** Two parts with nothing in common fit in the whole together. */
  lemma DisjointPartsFit<T>(a: set<T>, b: set<T>, whole: set<T>)
    requires a <= whole && b <= whole && a !! b
    ensures |a| + |b| <= |whole|
  {
    assert |a + b| == |a| + |b|;
    SubsetSize(a + b, whole);
  }
}
