/** Real polynomials as coefficient lists: evaluation and the binomial shift behind the symbolic
  * values of source/compiler/opt_for_fold.c. The shift loop occurs there twice, at lines 133-144 and
  * 171-182, for degree 3; here it is one method for every degree. Times is the product of two reals,
  * named so that proofs can say which of its laws they need. */
module Polynomials {

  /** Multiplication by name: most proofs hide it, so that sums of products stay linear for the
    * verifier, and use its laws below. */
  function Times(x: real, y: real): real { x * y }

  lemma Distribute(x: real, y: real, z: real)
    ensures Times(x, y + z) == Times(x, y) + Times(x, z)
    ensures Times(y + z, x) == Times(y, x) + Times(z, x)
  {
  }

  lemma Assoc(x: real, y: real, z: real)
    ensures Times(Times(x, y), z) == Times(x, Times(y, z))
  {
  }

  lemma Commute(x: real, y: real)
    ensures Times(x, y) == Times(y, x)
  {
  }

  lemma Units(x: real)
    ensures Times(x, 0.0) == Times(0.0, x) == 0.0 && Times(x, 1.0) == Times(1.0, x) == x
  {
  }

  function Pow(x: real, n: nat): real {
    if n == 0 then 1.0 else Times(x, Pow(x, n - 1))
  }

  /** p[0] + p[1] x + p[2] x^2 + ... */
  function At(p: seq<real>, x: real): real {
    if p == [] then 0.0 else At(p[..|p| - 1], x) + Times(p[|p| - 1], Pow(x, |p| - 1))
  }

  lemma AtStep(p: seq<real>, k: nat, x: real)
    requires k < |p|
    ensures At(p[..k + 1], x) == At(p[..k], x) + Times(p[k], Pow(x, k))
  {
    var q := p[..k + 1];
    assert q[..k] == p[..k];
  }

  /** sv_eval's loop: from the highest coefficient down. */
  method Horner(p: seq<real>, x: real) returns (v: real)
    ensures v == At(p, x)
  {
    hide Times, At;
    v := 0.0;
    var k := |p|;
    assert p[..k] == p;
    Units(Pow(x, k));
    while k > 0
      invariant 0 <= k <= |p| && At(p, x) == At(p[..k], x) + Times(v, Pow(x, k))
    {
      k := k - 1;
      AtStep(p, k, x);
      Assoc(v, x, Pow(x, k));
      Distribute(Pow(x, k), Times(v, x), p[k]);
      v := Times(v, x) + p[k];
    }
    Units(v);
    AtZeros(p[..0], x);
  }

  lemma {:induction false} AtZeros(p: seq<real>, x: real)
    requires forall k :: 0 <= k < |p| ==> p[k] == 0.0
    ensures At(p, x) == 0.0
  {
    if p != [] {
      AtZeros(p[..|p| - 1], x);
      Units(Pow(x, |p| - 1));
    }
  }

  lemma {:induction false} Bump(p: seq<real>, j: nat, d: real, x: real)
    requires j < |p|
    ensures At(p[j := p[j] + d], x) == At(p, x) + Times(d, Pow(x, j))
  {
    hide Pow, Times;
    var n := |p| - 1;
    if j < n {
      Bump(p[..n], j, d, x);
      assert p[j := p[j] + d][..n] == p[..n][j := p[j] + d];
    } else {
      assert p[j := p[j] + d][..n] == p[..n];
      Distribute(Pow(x, j), p[j], d);
    }
  }

  // ----- the shift P(a + m) -----

  /** The number of j-element subsets of k. */
  function Choose(k: nat, j: nat): nat {
    if j == 0 then 1 else if k == 0 then 0 else Choose(k - 1, j - 1) + Choose(k - 1, j)
  }

  lemma {:induction false} ChooseNone(k: nat, j: nat)
    requires j > k
    ensures Choose(k, j) == 0
  {
    if k > 0 {
      ChooseNone(k - 1, j - 1);
      ChooseNone(k - 1, j);
    }
  }

  /** The update of the binomial coefficient along a row. */
  lemma {:induction false} ChooseNext(k: nat, j: nat)
    requires j <= k
    ensures Choose(k, j) * (k - j) == Choose(k, j + 1) * (j + 1)
  {
    if k == 0 {
    } else if j == k {
      ChooseNone(k, j + 1);
    } else if j == 0 {
      ChooseNext(k - 1, 0);
      assert Choose(k, 1) == 1 + Choose(k - 1, 1);
    } else {
      ChooseNext(k - 1, j - 1);
      ChooseNext(k - 1, j);
      PascalArith(Choose(k - 1, j - 1), Choose(k - 1, j), Choose(k - 1, j + 1), k, j);
    }
  }

  lemma PascalArith(u: int, v: int, w: int, k: int, j: int)
    requires u * (k - j) == v * j && v * (k - 1 - j) == w * (j + 1)
    ensures (u + v) * (k - j) == (v + w) * (j + 1)
  {
    assert (u + v) * (k - j) == u * (k - j) + v * (k - 1 - j) + v;
    assert (v + w) * (j + 1) == v * j + v + w * (j + 1);
  }

  function Term(k: nat, j: nat, a: real, m: real): real
    requires j <= k
  {
    Times(Times(Choose(k, j) as real, Pow(a, k - j)), Pow(m, j))
  }

  /** The first j terms of the expansion of (a + m)^k. */
  function Expansion(k: nat, j: nat, a: real, m: real): real
    requires j <= k + 1
  {
    if j == 0 then 0.0 else Expansion(k, j - 1, a, m) + Term(k, j - 1, a, m)
  }

  /** Each term of row k + 1 comes from two neighbours of row k. */
  lemma TermStep(k: nat, j: nat, a: real, m: real)
    requires 0 < j <= k
    ensures Term(k + 1, j, a, m) == Times(a, Term(k, j, a, m)) + Times(m, Term(k, j - 1, a, m))
  {
    TermArith(Choose(k, j - 1) as real, Choose(k, j) as real, a, m, Pow(a, k - j), Pow(m, j - 1));
  }

  lemma TermArith(x: real, y: real, a: real, m: real, p: real, q: real)
    ensures Times(Times(x + y, Times(a, p)), Times(m, q)) ==
            Times(a, Times(Times(y, p), Times(m, q))) + Times(m, Times(Times(x, Times(a, p)), q))
  {
    hide Times;
    var ap, mq := Times(a, p), Times(m, q);
    Distribute(ap, x, y);
    Distribute(mq, Times(x, ap), Times(y, ap));
    Assoc(y, a, p);
    Commute(y, a);
    Assoc(a, y, p);
    Assoc(a, Times(y, p), mq);
    Assoc(Times(x, ap), m, q);
    Commute(Times(x, ap), m);
    Assoc(m, Times(x, ap), q);
  }

  lemma FirstTerm(k: nat, a: real, m: real)
    ensures Expansion(k, 0, a, m) == 0.0 && Expansion(k, 1, a, m) == Pow(a, k)
  {
    hide Times;
    Units(Pow(a, k));
    assert Expansion(k, 1, a, m) == 0.0 + Term(k, 0, a, m);
  }

  lemma LastTerm(k: nat, a: real, m: real)
    requires k > 0
    ensures Term(k, k, a, m) == Times(m, Term(k - 1, k - 1, a, m))
  {
    hide Times;
    ChooseNone(k - 1, k);
    var c := Times(Choose(k, k) as real, 1.0);
    Assoc(c, m, Pow(m, k - 1));
    Commute(c, m);
    Assoc(m, c, Pow(m, k - 1));
  }

  /** One row of Pascal's triangle gives the next, term by term. */
  lemma {:induction false} ExpansionStep(k: nat, j: nat, a: real, m: real)
    requires j <= k
    ensures Expansion(k + 1, j + 1, a, m) == Times(a, Expansion(k, j + 1, a, m)) + Times(m, Expansion(k, j, a, m))
  {
    hide Times, Term;
    if j == 0 {
      FirstTerm(k, a, m);
      FirstTerm(k + 1, a, m);
      Units(m);
    } else {
      ExpansionStep(k, j - 1, a, m);
      TermStep(k, j, a, m);
      Distribute(a, Expansion(k, j, a, m), Term(k, j, a, m));
      Distribute(m, Expansion(k, j - 1, a, m), Term(k, j - 1, a, m));
    }
  }

  lemma {:induction false} BinomialTheorem(k: nat, a: real, m: real)
    ensures Expansion(k, k + 1, a, m) == Pow(a + m, k)
  {
    hide Term, Times;
    if k == 0 {
      FirstTerm(0, a, m);
    } else {
      BinomialTheorem(k - 1, a, m);
      ExpansionStep(k - 1, k - 1, a, m);
      LastTerm(k, a, m);
      Distribute(m, Expansion(k - 1, k - 1, a, m), Term(k - 1, k - 1, a, m));
      Distribute(Pow(a + m, k - 1), a, m);
    }
  }

  /** Powers of a, up to the degree. */
  method Powers(a: real, n: nat) returns (apow: seq<real>)
    requires n > 0
    ensures |apow| == n && forall k :: 0 <= k < n ==> apow[k] == Pow(a, k)
  {
    apow := [1.0];
    for k := 1 to n
      invariant |apow| == k && forall i :: 0 <= i < k ==> apow[i] == Pow(a, i)
    {
      Commute(apow[k - 1], a);
      apow := apow + [Times(apow[k - 1], a)];
    }
  }

  /** Adds c (a + m)^k to sh as a polynomial in m. */
  method AddRow(sh: seq<real>, apow: seq<real>, a: real, k: nat, c: real) returns (r: seq<real>)
    requires k < |sh| == |apow| && forall i :: 0 <= i < |apow| ==> apow[i] == Pow(a, i)
    ensures |r| == |sh| && forall m: real :: At(r, m) == At(sh, m) + Times(c, Pow(a + m, k))
    ensures r[k] == sh[k] + c && forall i :: k < i < |sh| ==> r[i] == sh[i]
  {
    hide At, Expansion, Choose, Pow, Times;
    r := sh;
    var binom: real := 1.0;
    NoTermsYet(k, a, c);
    for j := 0 to k + 1
      invariant |r| == |sh| && binom == Choose(k, j) as real
      invariant forall m: real :: At(r, m) == At(sh, m) + Times(c, Expansion(k, j, a, m))
      invariant r[k] == sh[k] + (if j == k + 1 then c else 0.0) && forall i :: k < i < |sh| ==> r[i] == sh[i]
    {
      var d := Times(Times(c, binom), apow[k - j]);
      ghost var was := r;
      r := r[j := r[j] + d];
      forall m: real ensures At(r, m) == At(sh, m) + Times(c, Expansion(k, j + 1, a, m)) {
        OneMoreTerm(was, j, d, m, At(sh, m), c, k, a, binom);
      }
      if j == k { LastCoefficient(k, a, c); }
      NextBinom(k, j, binom);
      binom := binom * (k - j) as real / (j + 1) as real;
    }
    forall m: real ensures At(r, m) == At(sh, m) + Times(c, Pow(a + m, k)) { BinomialTheorem(k, a, m); }
  }

  lemma NoTermsYet(k: nat, a: real, c: real)
    ensures Choose(k, 0) == 1 && forall m: real :: Times(c, Expansion(k, 0, a, m)) == 0.0
  {
    Units(c);
  }

  lemma LastCoefficient(k: nat, a: real, c: real)
    ensures Times(Times(c, Choose(k, k) as real), Pow(a, 0)) == c
    decreases k
  {
    if k > 0 {
      LastCoefficient(k - 1, a, c);
      ChooseNone(k - 1, k);
    }
  }

  lemma OneMoreTerm(r: seq<real>, j: nat, d: real, m: real, s: real, c: real, k: nat, a: real, binom: real)
    requires j < |r| && j <= k && binom == Choose(k, j) as real && d == Times(Times(c, binom), Pow(a, k - j))
    requires At(r, m) == s + Times(c, Expansion(k, j, a, m))
    ensures At(r[j := r[j] + d], m) == s + Times(c, Expansion(k, j + 1, a, m))
  {
    hide At, Choose, Pow, Times;
    Bump(r, j, d, m);
    var p, q := Pow(a, k - j), Pow(m, j);
    Distribute(c, Expansion(k, j, a, m), Term(k, j, a, m));
    Assoc(c, binom, p);
    Assoc(c, Times(binom, p), q);
  }

  lemma NextBinom(k: nat, j: nat, binom: real)
    requires j <= k && binom == Choose(k, j) as real
    ensures binom * (k - j) as real / (j + 1) as real == Choose(k, j + 1) as real
  {
    ChooseNext(k, j);
    CastProduct(Choose(k, j), k - j);
    CastProduct(Choose(k, j + 1), j + 1);
    Cancel(Choose(k, j + 1) as real, (j + 1) as real);
  }

  lemma {:induction false} CastProduct(x: int, n: nat)
    ensures x as real * n as real == (x * n) as real
  {
    if n > 0 {
      CastProduct(x, n - 1);
      assert x * n == x * (n - 1) + x;
      assert x as real * n as real == x as real * (n - 1) as real + x as real;
    }
  }

  lemma Cancel(x: real, y: real)
    requires y != 0.0
    ensures x * y / y == x
  {
  }

  /** No coefficient at d or above. */
  ghost predicate Below(p: seq<real>, d: int) {
    forall i :: 0 <= i < |p| && d <= i ==> p[i] == 0.0
  }

  /** The coefficients, in m, of p at a + m, for a polynomial of any degree: the double loop shared by
    * sv_sum and sv_cumsum_incl. */
  method Shift(p: seq<real>, a: real) returns (sh: seq<real>)
    requires p != []
    ensures |sh| == |p| && forall m: real :: At(sh, m) == At(p, a + m)
    ensures sh[|p| - 1] == p[|p| - 1] && forall d :: Below(p, d) ==> Below(sh, d)
  {
    hide At, Pow, Times;
    sh := seq(|p|, _ => 0.0);
    var apow := Powers(a, |p|);
    forall m: real ensures At(sh, m) == At(p[..0], a + m) {
      AtZeros(sh, m);
      AtZeros(p[..0], a + m);
    }
    for k := 0 to |p|
      invariant |sh| == |p| && forall m: real :: At(sh, m) == At(p[..k], a + m)
      invariant sh[|p| - 1] == if k == |p| then p[k - 1] else 0.0
      invariant Below(sh, k) && forall d :: Below(p, d) ==> Below(sh, d)
    {
      ghost var was := sh;
      if p[k] != 0.0 { sh := AddRow(sh, apow, a, k, p[k]); }
      forall m: real ensures At(sh, m) == At(p[..k + 1], a + m) {
        AtStep(p, k, a + m);
        if p[k] == 0.0 { Units(Pow(a + m, k)); }
      }
    }
    assert p[..|p|] == p;
  }
}
