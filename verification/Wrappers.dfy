/** The two carriers the models share: a value that may be absent, and a list membership test. */
module Wrappers {
  datatype Option<+T> = None | Some(value: T)

  /** No element of `xs` occurs at two positions. */
  predicate Distinct<T(==)>(xs: seq<T>) {
    forall i, j :: 0 <= i < j < |xs| ==> xs[i] != xs[j]
  }
}
