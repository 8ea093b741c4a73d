/** Vocabulary shared by every component: optional values and instants. */
module Basics {

  datatype Option<+T> = None | Some(value: T)

  /** An instant, counted in nanoseconds; ZERO_TIME is the unset timestamp. */
  type Time = int

  const ZERO_TIME: Time := 0

  predicate IsZero(t: Time) { t == ZERO_TIME }

  function Min(a: int, b: int): int { if a < b then a else b }

  predicate NoDuplicates<T(==)>(s: seq<T>) {
    forall i, j :: 0 <= i < j < |s| ==> s[i] != s[j]
  }
}
