/** Sequences without repetition, and where an element stands in a sequence. */
module Sequences {

  ghost predicate Distinct<T>(xs: seq<T>) { forall i, j :: 0 <= i < j < |xs| ==> xs[i] != xs[j] }

  /** The first place of x in xs, or -1. */
  function IndexOf<T(==)>(xs: seq<T>, x: T): (i: int)
    ensures if x in xs then 0 <= i < |xs| && xs[i] == x else i == -1
  {
    if xs == [] then -1
    else if xs[0] == x then 0
    else var i := IndexOf(xs[1..], x); if i < 0 then -1 else i + 1
  }
}
