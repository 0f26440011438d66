/** Failure-compatible results shared by every module. */
module Prelude {
  datatype Option<+T> = None | Some(value: T)

  /** The elements of a sequence, as a set. */
  ghost function Elements<T>(xs: seq<T>): set<T> {
    set x | x in xs
  }

  ghost predicate Distinct<T(!new)>(xs: seq<T>) {
    forall i, j :: 0 <= i < j < |xs| ==> xs[i] != xs[j]
  }
}
