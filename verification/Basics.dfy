/** What several mechanisms share: time, options, bounds and small set facts. */
module Basics {

  /** Nanoseconds. */
  type Time = int

  const MAX_INT64: int := 9_223_372_036_854_775_807

  datatype Option<T> = None | Some(value: T)

  function Min(a: int, b: int): int { if a < b then a else b }

  function Max(a: int, b: int): int { if a < b then b else a }

  function PowerOfTwo(e: nat): (p: nat)
    ensures p >= 1
  {
    if e == 0 then 1 else 2 * PowerOfTwo(e - 1)
  }

  /** A list names nothing twice. */
  ghost predicate Distinct<T>(s: seq<T>) {
    forall i, j :: 0 <= i < j < |s| ==> s[i] != s[j]
  }

  function Elements<T(==)>(s: seq<T>): set<T> { set x | x in s }

  lemma SubsetSize<T>(a: set<T>, b: set<T>)
    requires a <= b
    ensures |a| <= |b|
  {
    assert b == a + (b - a);
  }
}
