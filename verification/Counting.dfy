/** Finite counting arguments shared by the passes. */
module Counting {
  import opened Sequences

  ghost function Upto(n: nat): (s: set<int>)
    ensures |s| == n && forall k :: k in s <==> 0 <= k < n
  {
    if n == 0 then {} else Upto(n - 1) + {n - 1}
  }

  lemma {:induction false} DistinctFit(xs: seq<int>, s: set<int>)
    requires Distinct(xs) && forall i :: 0 <= i < |xs| ==> xs[i] in s
    ensures |xs| <= |s|
    decreases |xs|
  {
    if xs != [] {
      var last := |xs| - 1;
      DistinctFit(xs[..last], s - {xs[last]});
    }
  }

  lemma UptoDiff(m: nat, n: nat)
    requires m <= n
    ensures |Upto(n) - Upto(m)| == n - m
  {
    assert Upto(m) <= Upto(n);
    assert |Upto(n) - Upto(m)| == |Upto(n)| - |Upto(m)|;
  }
}
