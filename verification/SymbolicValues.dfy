/** Symbolic values v(i) = P(i) + Q(i) r^i with cubic P and Q: source/compiler/opt_for_fold.c:12-207.
  * Coefficients are exact reals and C's pow is a parameter with the laws of powers. Products of
  * variables go through Times, whose few laws are used by name where the solver would search for them. */
module SymbolicValues {
  import opened Polynomials

  datatype SymF = Fail | Form(poly: seq<real>, hasGeo: bool, geo: seq<real>, r: real) {
    predicate Valid() { Form? ==> |poly| == |geo| == 4 }
  }

  const ZEROS := [0.0, 0.0, 0.0, 0.0]

  function SvConst(c: real): (f: SymF)
    ensures f.Valid()
  {
    Form([c, 0.0, 0.0, 0.0], false, ZEROS, 0.0)
  }

  function SvLoop(): (f: SymF)
    ensures f.Valid()
  {
    Form([0.0, 1.0, 0.0, 0.0], false, ZEROS, 0.0)
  }

  function Plus(p: seq<real>, q: seq<real>): (s: seq<real>)
    requires |p| == |q|
    ensures |s| == |p|
  {
    seq(|p|, k requires 0 <= k < |p| => p[k] + q[k])
  }

  function Minus(p: seq<real>): (s: seq<real>)
    ensures |s| == |p|
  {
    seq(|p|, k requires 0 <= k < |p| => -p[k])
  }

  function SvAdd(a: SymF, b: SymF): (f: SymF)
    requires a.Valid() && b.Valid()
    ensures f.Valid()
  {
    if a.Fail? || b.Fail? then Fail
    else
      var poly := Plus(a.poly, b.poly);
      if !b.hasGeo then a.(poly := poly)
      else if !a.hasGeo then Form(poly, true, b.geo, b.r)
      else if a.r == b.r then Form(poly, true, Plus(a.geo, b.geo), a.r)
      else Fail
  }

  function SvNeg(a: SymF): (f: SymF)
    requires a.Valid()
    ensures f.Valid()
  {
    if a.Fail? then Fail else Form(Minus(a.poly), a.hasGeo, if a.hasGeo then Minus(a.geo) else a.geo, a.r)
  }

  /** acc + c x^i (q[0] + .. + q[j-1] x^(j-1)) as a coefficient list. */
  function Row(acc: seq<real>, c: real, q: seq<real>, i: nat, j: nat): (r: seq<real>)
    requires i + j <= |acc| && j <= |q|
    ensures |r| == |acc|
  {
    if j == 0 then acc else
      var r := Row(acc, c, q, i, j - 1);
      r[i + j - 1 := r[i + j - 1] + Times(c, q[j - 1])]
  }

  /** The product of the first i coefficients of p with q, without the powers that do not fit. */
  function Rows(p: seq<real>, q: seq<real>, i: nat): (r: seq<real>)
    requires i <= |p| == |q|
    ensures |r| == |p|
  {
    if i == 0 then seq(|p|, _ => 0.0)
    else if p[i - 1] == 0.0 then Rows(p, q, i - 1)
    else Row(Rows(p, q, i - 1), p[i - 1], q, i - 1, |p| - (i - 1))
  }

  function Product(p: seq<real>, q: seq<real>): (r: seq<real>)
    requires |p| == |q|
    ensures |r| == |p|
  {
    Rows(p, q, |p|)
  }

  /** sv_mul's double loop. */
  method MulCoefficients(p: seq<real>, q: seq<real>) returns (r: seq<real>)
    requires |p| == |q|
    ensures r == Product(p, q)
  {
    r := seq(|p|, _ => 0.0);
    for i := 0 to |p|
      invariant r == Rows(p, q, i)
    {
      if p[i] == 0.0 { continue; }
      ghost var acc := r;
      for j := 0 to |p| - i
        invariant r == Row(acc, p[i], q, i, j)
      {
        r := r[i + j := r[i + j] + Times(p[i], q[j])];
      }
    }
  }

  /** What the truncated product is short of. */
  ghost function Lost(p: seq<real>, q: seq<real>, i: nat, x: real): real
    requires i <= |p| == |q|
  {
    if i == 0 then 0.0 else
    Lost(p, q, i - 1, x) + Times(Times(p[i - 1], Pow(x, i - 1)), At(q, x) - At(q[..|q| - (i - 1)], x))
  }

  lemma {:induction false} RowAt(acc: seq<real>, c: real, q: seq<real>, i: nat, j: nat, x: real)
    requires i + j <= |acc| && j <= |q|
    ensures At(Row(acc, c, q, i, j), x) == At(acc, x) + Times(Times(c, Pow(x, i)), At(q[..j], x))
  {
    hide Times, At, Pow;
    var base := Times(c, Pow(x, i));
    if j == 0 {
      AtZeros(q[..0], x);
      Units(base);
    } else {
      RowAt(acc, c, q, i, j - 1, x);
      Bump(Row(acc, c, q, i, j - 1), i + j - 1, Times(c, q[j - 1]), x);
      AtStep(q, j - 1, x);
      PowSum(x, i, j - 1);
      var s, t, u := q[j - 1], Pow(x, i), Pow(x, j - 1);
      Distribute(base, At(q[..j - 1], x), Times(s, u));
      Shuffle(c, s, t, u);
    }
  }

  lemma Shuffle(c: real, s: real, t: real, u: real)
    ensures Times(Times(c, s), Times(t, u)) == Times(Times(c, t), Times(s, u))
  {
    hide Times;
    Assoc(c, s, Times(t, u));
    Assoc(s, t, u);
    Commute(s, t);
    Assoc(t, s, u);
    Assoc(c, t, Times(s, u));
  }

  lemma {:induction false} PowSum(x: real, i: nat, j: nat)
    ensures Pow(x, i + j) == Times(Pow(x, i), Pow(x, j))
  {
    hide Times;
    if i == 0 {
      Units(Pow(x, j));
    } else {
      PowSum(x, i - 1, j);
      Assoc(x, Pow(x, i - 1), Pow(x, j));
    }
  }

  lemma {:induction false} RowsAt(p: seq<real>, q: seq<real>, i: nat, x: real)
    requires i <= |p| == |q|
    ensures At(Rows(p, q, i), x) + Lost(p, q, i, x) == Times(At(p[..i], x), At(q, x))
  {
    hide Times, At, Pow;
    if i == 0 {
      AtZeros(Rows(p, q, 0), x);
      AtZeros(p[..0], x);
      Units(At(q, x));
    } else {
      RowsAt(p, q, i - 1, x);
      AtStep(p, i - 1, x);
      var c, t, low, all := p[i - 1], Times(p[i - 1], Pow(x, i - 1)), At(q[..|q| - (i - 1)], x), At(q, x);
      Distribute(all, At(p[..i - 1], x), t);
      Distribute(t, low, all - low);
      if c == 0.0 {
        Units(Pow(x, i - 1));
        Units(all);
        Units(all - low);
      } else {
        RowAt(Rows(p, q, i - 1), c, q, i - 1, |p| - (i - 1), x);
      }
    }
  }

  /** No product of coefficients falls off the end. */
  predicate Fits(p: seq<real>, q: seq<real>)
    requires |p| == |q|
  {
    forall i, j :: 0 <= i < |p| && |p| - i <= j < |q| ==> p[i] == 0.0 || q[j] == 0.0
  }

  lemma {:induction false} TailZero(q: seq<real>, k: nat, n: nat, x: real)
    requires k <= n <= |q| && forall j :: k <= j < n ==> q[j] == 0.0
    ensures At(q[..n], x) == At(q[..k], x)
  {
    hide Times, At, Pow;
    if k < n {
      TailZero(q, k, n - 1, x);
      AtStep(q, n - 1, x);
      Units(Pow(x, n - 1));
    }
  }

  lemma {:induction false} NothingLost(p: seq<real>, q: seq<real>, i: nat, x: real)
    requires i <= |p| == |q| && Fits(p, q)
    ensures Lost(p, q, i, x) == 0.0
  {
    hide Times, At, Pow;
    if i > 0 {
      NothingLost(p, q, i - 1, x);
      if p[i - 1] == 0.0 {
        Units(Pow(x, i - 1));
        Units(At(q, x) - At(q[..|q| - (i - 1)], x));
      } else {
        TailZero(q, |q| - (i - 1), |q|, x);
        assert q[..|q|] == q;
        Units(Times(p[i - 1], Pow(x, i - 1)));
      }
    }
  }

  /** The truncated product is exact exactly where the lost part vanishes, so wherever it fits. */
  lemma ProductAt(p: seq<real>, q: seq<real>, x: real)
    requires |p| == |q|
    ensures At(Product(p, q), x) == Times(At(p, x), At(q, x)) <==> Lost(p, q, |p|, x) == 0.0
    ensures Fits(p, q) ==> Lost(p, q, |p|, x) == 0.0
  {
    hide Times, At, Pow, Lost, Rows;
    RowsAt(p, q, |p|, x);
    assert p[..|p|] == p;
    if Fits(p, q) { NothingLost(p, q, |p|, x); }
  }

  function SvMul(a: SymF, b: SymF): (f: SymF)
    requires a.Valid() && b.Valid()
    ensures f.Valid()
  {
    if a.Fail? || b.Fail? then Fail
    else if a.hasGeo && b.hasGeo then Fail
    else
      var (p, g) := if a.hasGeo then (b, a) else (a, b);
      if g.hasGeo then Form(Product(p.poly, g.poly), true, Product(p.poly, g.geo), g.r)
      else Form(Product(p.poly, g.poly), false, ZEROS, 0.0)
  }

  /** sv_mul: the operands are swapped so that only the second can be geometric. */
  method Multiply(a: SymF, b: SymF) returns (f: SymF)
    requires a.Valid() && b.Valid()
    ensures f == SvMul(a, b)
  {
    if a.Fail? || b.Fail? || (a.hasGeo && b.hasGeo) { return Fail; }
    var p, g := a, b;
    if a.hasGeo { p, g := b, a; }
    var poly := MulCoefficients(p.poly, g.poly);
    f := Form(poly, false, ZEROS, 0.0);
    if g.hasGeo {
      var geo := MulCoefficients(p.poly, g.geo);
      f := Form(poly, true, geo, g.r);
    }
  }

  /** The product needs no degree above 3. */
  predicate MulFits(a: SymF, b: SymF)
    requires a.Valid() && b.Valid()
  {
    a.Form? && b.Form? && !(a.hasGeo && b.hasGeo) ==>
      var (p, g) := if a.hasGeo then (b, a) else (a, b);
      Fits(p.poly, g.poly) && (g.hasGeo ==> Fits(p.poly, g.geo))
  }

  // ----- evaluation -----

  type Power = (real, real) -> real

  ghost predicate PowStep(pow: Power, r: real, x: real) {
    r != 0.0 ==> pow(r, x + 1.0) == r * pow(r, x) && pow(r, x) != 0.0
  }

  /** What the C library's pow is used for here, over exact reals. */
  ghost predicate PowLaws(pow: Power) {
    (forall r :: pow(r, 0.0) == 1.0) && (forall x :: x > 0.0 ==> pow(0.0, x) == 0.0) &&
    forall r, x :: PowStep(pow, r, x)
  }

  /** Powers with whole exponents, negative ones included, meet the laws; a fractional part is dropped. */
  function WholePow(r: real, n: int): real
    requires r != 0.0
    decreases if n < 0 then -n else n
  {
    if n == 0 then 1.0 else if n > 0 then r * WholePow(r, n - 1) else WholePow(r, n + 1) / r
  }

  lemma {:induction false} WholePowStep(r: real, n: int)
    requires r != 0.0
    ensures WholePow(r, n + 1) == r * WholePow(r, n) && WholePow(r, n) != 0.0
    decreases if n < 0 then -n else n
  {
    if n > 0 {
      WholePowStep(r, n - 1);
      NonzeroProduct(r, WholePow(r, n - 1));
    } else if n < 0 {
      WholePowStep(r, n + 1);
      assert r * (WholePow(r, n + 1) / r) == WholePow(r, n + 1);
    }
  }

  lemma NonzeroProduct(x: real, y: real)
    requires x != 0.0 && y != 0.0
    ensures x * y != 0.0
  {
  }

  lemma PowLawsMet() returns (pow: Power)
    ensures PowLaws(pow)
  {
    hide WholePow;
    pow := (r, x) => if r == 0.0 then (if x == 0.0 then 1.0 else 0.0) else WholePow(r, x.Floor);
    forall r ensures pow(r, 0.0) == 1.0 {
      if r != 0.0 { WholePowZero(r); }
    }
    forall r, x ensures PowStep(pow, r, x) {
      if r != 0.0 {
        assert (x + 1.0).Floor == x.Floor + 1;
        WholePowStep(r, x.Floor);
      }
    }
  }

  lemma WholePowZero(r: real)
    requires r != 0.0
    ensures WholePow(r, 0) == 1.0
  {
  }

  /** sv_eval. */
  function SvEval(f: SymF, i: real, pow: Power): real {
    if f.Fail? then 0.0 else At(f.poly, i) + if f.hasGeo then Times(At(f.geo, i), pow(f.r, i)) else 0.0
  }

  lemma {:induction false} PlusAt(p: seq<real>, q: seq<real>, x: real)
    requires |p| == |q|
    ensures At(Plus(p, q), x) == At(p, x) + At(q, x)
  {
    hide Times, Pow;
    if p != [] {
      var n := |p| - 1;
      PlusAt(p[..n], q[..n], x);
      assert Plus(p, q)[..n] == Plus(p[..n], q[..n]);
      Distribute(Pow(x, n), p[n], q[n]);
    }
  }

  lemma {:induction false} MinusAt(p: seq<real>, x: real)
    ensures At(Minus(p), x) == -At(p, x)
  {
    hide Times, Pow;
    if p != [] {
      var n := |p| - 1;
      MinusAt(p[..n], x);
      assert Minus(p)[..n] == Minus(p[..n]);
      Negate(p[n], Pow(x, n));
    }
  }

  lemma Negate(x: real, y: real)
    ensures Times(-x, y) == -Times(x, y)
  {
  }

  lemma AddEval(a: SymF, b: SymF, i: real, pow: Power)
    requires a.Valid() && b.Valid()
    ensures SvAdd(a, b).Form? <==> a.Form? && b.Form? && (a.hasGeo && b.hasGeo ==> a.r == b.r)
    ensures SvAdd(a, b).Form? ==> SvEval(SvAdd(a, b), i, pow) == SvEval(a, i, pow) + SvEval(b, i, pow)
  {
    hide Times, Pow, At;
    if SvAdd(a, b).Form? {
      PlusAt(a.poly, b.poly, i);
      if a.hasGeo && b.hasGeo {
        PlusAt(a.geo, b.geo, i);
        Distribute(pow(a.r, i), At(a.geo, i), At(b.geo, i));
      }
    }
  }

  lemma NegEval(a: SymF, i: real, pow: Power)
    requires a.Valid() && a.Form?
    ensures SvEval(SvNeg(a), i, pow) == -SvEval(a, i, pow)
  {
    hide Times, Pow, At;
    MinusAt(a.poly, i);
    MinusAt(a.geo, i);
    Negate(At(a.geo, i), pow(a.r, i));
  }

  lemma MulEval(a: SymF, b: SymF, i: real, pow: Power)
    requires a.Valid() && b.Valid()
    ensures SvMul(a, b).Form? <==> a.Form? && b.Form? && !(a.hasGeo && b.hasGeo)
    ensures SvMul(a, b).Form? && MulFits(a, b) ==>
              SvEval(SvMul(a, b), i, pow) == Times(SvEval(a, i, pow), SvEval(b, i, pow))
  {
    hide Times, Pow, At, Fits, Product;
    if SvMul(a, b).Form? && MulFits(a, b) {
      var (p, g) := if a.hasGeo then (b, a) else (a, b);
      ProductAt(p.poly, g.poly, i);
      var x, y, z, w := At(p.poly, i), At(g.poly, i), At(g.geo, i), pow(g.r, i);
      if g.hasGeo {
        ProductAt(p.poly, g.geo, i);
        Assoc(x, z, w);
        Distribute(x, y, Times(z, w));
      }
      Commute(x, SvEval(g, i, pow));
    }
  }

  lemma ConstEval(c: real, i: real, pow: Power)
    ensures SvEval(SvConst(c), i, pow) == c && SvEval(SvLoop(), i, pow) == i
  {
    CubicAt([c, 0.0, 0.0, 0.0], i);
    CubicAt([0.0, 1.0, 0.0, 0.0], i);
  }

  lemma CubicAt(p: seq<real>, x: real)
    requires |p| == 4
    ensures At(p, x) == p[0] + p[1] * x + p[2] * (x * x) + p[3] * (x * x * x)
  {
    hide Times;
    assert p[..4] == p;
    AtStep(p, 3, x);
    AtStep(p, 2, x);
    AtStep(p, 1, x);
    AtStep(p, 0, x);
    assert At(p[..0], x) == 0.0;
    assert Pow(x, 1) == Times(x, Pow(x, 0)) && Pow(x, 2) == Times(x, Pow(x, 1)) && Pow(x, 3) == Times(x, Pow(x, 2));
    CubicArith(p[0], p[1], p[2], p[3], x);
  }

  lemma CubicArith(a: real, b: real, c: real, d: real, x: real)
    ensures Times(a, 1.0) == a && Times(b, Times(x, 1.0)) == b * x
    ensures Times(c, Times(x, Times(x, 1.0))) == c * (x * x)
    ensures Times(d, Times(x, Times(x, Times(x, 1.0)))) == d * (x * x * x)
  {
  }

  // ----- sums -----

  /** f(a) + f(a + 1) + ... , n terms. */
  function SumOf(f: SymF, pow: Power, a: real, n: nat): real {
    if n == 0 then 0.0 else SumOf(f, pow, a, n - 1) + SvEval(f, a + (n - 1) as real, pow)
  }

  function CubicPart(f: SymF): SymF { if f.Fail? then f else f.(hasGeo := false) }

  /** The sums of m^j over m = 0 .. M - 1, as the code writes them. */
  function PowerSums(M: real): (s: seq<real>)
    ensures |s| == 4
  {
    [M, M * (M - 1.0) / 2.0, M * (M - 1.0) * (2.0 * M - 1.0) / 6.0, M * M * (M - 1.0) * (M - 1.0) / 4.0]
  }

  lemma PowerSumStep(M: real)
    ensures PowerSums(M + 1.0)[0] - PowerSums(M)[0] == 1.0
    ensures PowerSums(M + 1.0)[1] - PowerSums(M)[1] == M
    ensures PowerSums(M + 1.0)[2] - PowerSums(M)[2] == M * M
    ensures PowerSums(M + 1.0)[3] - PowerSums(M)[3] == M * M * M
  {
  }

  function Weighted(sh: seq<real>, s: seq<real>): real
    requires |sh| == |s| == 4
  {
    Times(sh[0], s[0]) + Times(sh[1], s[1]) + Times(sh[2], s[2]) + Times(sh[3], s[3])
  }

  /** Adding the next value of the shifted polynomial moves every power sum on by one. */
  lemma WeightedStep(sh: seq<real>, M: real)
    requires |sh| == 4
    ensures Weighted(sh, PowerSums(M + 1.0)) == Weighted(sh, PowerSums(M)) + At(sh, M)
  {
    hide PowerSums, At, Weighted;
    PowerSumStep(M);
    CubicAt(sh, M);
    WeightedApart(sh, PowerSums(M), PowerSums(M + 1.0), M, M * M, M * M * M);
  }

  /** Lists apart by 1, d1, d2 and d3 have weighted sums apart by their combination. */
  lemma WeightedApart(sh: seq<real>, s: seq<real>, t: seq<real>, d1: real, d2: real, d3: real)
    requires |sh| == |s| == |t| == 4
    requires t[0] - s[0] == 1.0 && t[1] - s[1] == d1 && t[2] - s[2] == d2 && t[3] - s[3] == d3
    ensures Weighted(sh, t) == Weighted(sh, s) + (sh[0] + sh[1] * d1 + sh[2] * d2 + sh[3] * d3)
  {
    hide Times;
    Split(sh[0], s[0], t[0], 1.0);
    Split(sh[1], s[1], t[1], d1);
    Split(sh[2], s[2], t[2], d2);
    Split(sh[3], s[3], t[3], d3);
  }

  lemma Split(c: real, s: real, t: real, d: real)
    requires t - s == d
    ensures Times(c, t) == Times(c, s) + c * d
  {
  }

  lemma {:induction false} CubicSum(f: SymF, pow: Power, a: real, n: nat, sh: seq<real>)
    requires f.Form? && f.Valid() && !f.hasGeo && |sh| == 4 && forall m: real :: At(sh, m) == At(f.poly, a + m)
    ensures Weighted(sh, PowerSums(n as real)) == SumOf(f, pow, a, n)
  {
    hide At, Times, PowerSums;
    if n == 0 {
      Zero(sh);
    } else {
      CubicSum(f, pow, a, n - 1, sh);
      WeightedStep(sh, (n - 1) as real);
      hide Weighted;
    }
  }

  lemma Zero(sh: seq<real>)
    requires |sh| == 4
    ensures Weighted(sh, PowerSums(0.0)) == 0.0
  {
  }

  // ----- arithmetico-geometric sums -----

  /** The sums of r^m and of m r^m over m = 0 .. n - 1. */
  function Geo0(r: real, n: nat): real { if n == 0 then 0.0 else Geo0(r, n - 1) + Pow(r, n - 1) }

  function Geo1(r: real, n: nat): real {
    if n == 0 then 0.0 else Geo1(r, n - 1) + Times((n - 1) as real, Pow(r, n - 1))
  }

  lemma {:induction false} Geo0Closed(r: real, n: nat)
    ensures Geo0(r, n) * (r - 1.0) == Pow(r, n) - 1.0
  {
    if n > 0 {
      Geo0Closed(r, n - 1);
      Geo0Arith(Geo0(r, n - 1), r, Pow(r, n - 1), Geo0(r, n), Pow(r, n));
    }
  }

  lemma Geo0Arith(g: real, r: real, t: real, g': real, t': real)
    requires g * (r - 1.0) == t - 1.0 && g' == g + t && t' == Times(r, t)
    ensures g' * (r - 1.0) == t' - 1.0
  {
  }

  /** The numerator of the second closed form. */
  function Geo1Top(r: real, M: real, rM: real): real { r - M * rM + (M - 1.0) * r * rM }

  lemma {:induction false} Geo1Closed(r: real, n: nat)
    ensures Times(Geo1(r, n), Times(1.0 - r, 1.0 - r)) == Geo1Top(r, n as real, Pow(r, n))
  {
    hide Times, Geo1Top;
    if n == 0 {
      Geo1Start(r);
    } else {
      Geo1Closed(r, n - 1);
      Geo1Step(Geo1(r, n - 1), r, (n - 1) as real, Pow(r, n - 1));
    }
  }

  lemma Geo1Start(r: real)
    ensures Times(0.0, Times(1.0 - r, 1.0 - r)) == Geo1Top(r, 0.0, 1.0)
  {
  }

  lemma Geo1Step(g: real, r: real, m: real, t: real)
    requires Times(g, Times(1.0 - r, 1.0 - r)) == Geo1Top(r, m, t)
    ensures Times(g + Times(m, t), Times(1.0 - r, 1.0 - r)) == Geo1Top(r, m + 1.0, Times(r, t))
  {
    var d := (1.0 - r) * (1.0 - r);
    assert (g + m * t) * d == g * d + (m * t) * d;
    assert (m * t) * d == m * t - 2.0 * (m * (r * t)) + m * (r * (r * t));
    assert (m - 1.0) * r * t == m * (r * t) - r * t;
    assert (m + 1.0) * (r * t) == m * (r * t) + r * t;
    assert m * r * (r * t) == m * (r * (r * t));
  }

  lemma {:induction false} OnesSum(n: nat)
    ensures Geo0(1.0, n) == n as real && Geo1(1.0, n) == n as real * (n as real - 1.0) / 2.0 && Pow(1.0, n) == 1.0
  {
    if n > 0 { OnesSum(n - 1); }
  }

  /** pow at a + m steps away from a. */
  lemma {:induction false} PowSteps(pow: Power, r: real, a: real, m: nat)
    requires PowLaws(pow) && r != 0.0
    ensures pow(r, a + m as real) == Times(pow(r, a), Pow(r, m))
  {
    hide Times;
    if m == 0 {
      Units(pow(r, a));
    } else {
      PowSteps(pow, r, a, m - 1);
      assert PowStep(pow, r, a + (m - 1) as real);
      assert a + m as real == a + (m - 1) as real + 1.0;
      TimesIs(r, pow(r, a + (m - 1) as real));
      Commute(r, Times(pow(r, a), Pow(r, m - 1)));
      Assoc(pow(r, a), Pow(r, m - 1), r);
      Commute(Pow(r, m - 1), r);
    }
  }

  lemma PowWhole(pow: Power, r: real, m: nat)
    requires PowLaws(pow) && r != 0.0
    ensures pow(r, m as real) == Pow(r, m)
  {
    PowSteps(pow, r, 0.0, m);
    Units(Pow(r, m));
  }

  lemma TimesIs(x: real, y: real)
    ensures Times(x, y) == x * y
  {
  }

  /** The geometric part of a sum, with Q(i) = geo[0] + geo[1] i. */
  lemma {:induction false} GeoSum(f: SymF, pow: Power, a: real, n: nat)
    requires f.Form? && f.Valid() && f.hasGeo && f.geo[2] == f.geo[3] == 0.0 && f.r != 0.0 && PowLaws(pow)
    ensures SumOf(f, pow, a, n) == SumOf(CubicPart(f), pow, a, n) +
            Times(pow(f.r, a), Times(f.geo[0] + f.geo[1] * a, Geo0(f.r, n)) + Times(f.geo[1], Geo1(f.r, n)))
  {
    hide Times, At, Pow, PowLaws;
    var g0, g1, w := f.geo[0] + f.geo[1] * a, f.geo[1], pow(f.r, a);
    if n == 0 {
      Units(g0);
      Units(g1);
      Units(w);
    } else {
      GeoSum(f, pow, a, n - 1);
      var m, t := (n - 1) as real, Pow(f.r, n - 1);
      PowSteps(pow, f.r, a, n - 1);
      LinearAt(f.geo, a + m);
      assert SvEval(f, a + m, pow) == SvEval(CubicPart(f), a + m, pow) +
          Times(f.geo[0] + Times(g1, a + m), Times(w, t));
      GeoTerm(f.geo[0], g1, g0, a, m, w, t);
      Distribute(g0, Geo0(f.r, n - 1), t);
      Distribute(g1, Geo1(f.r, n - 1), Times(m, t));
      var was, more := Times(g0, Geo0(f.r, n - 1)) + Times(g1, Geo1(f.r, n - 1)), Times(g0, t) + Times(g1, Times(m, t));
      assert Times(g0, Geo0(f.r, n)) + Times(g1, Geo1(f.r, n)) == was + more;
      Distribute(w, was, more);
    }
  }

  lemma LinearAt(p: seq<real>, x: real)
    requires |p| == 4 && p[2] == p[3] == 0.0
    ensures At(p, x) == p[0] + Times(p[1], x)
  {
    CubicAt(p, x);
  }

  lemma GeoTerm(q0: real, q1: real, g0: real, a: real, m: real, w: real, t: real)
    requires g0 == q0 + q1 * a
    ensures Times(q0 + Times(q1, a + m), Times(w, t)) == Times(w, Times(g0, t) + Times(q1, Times(m, t)))
  {
    var x, y := g0, q1 * m;
    assert q0 + Times(q1, a + m) == x + y;
    hide Times;
    Distribute(Times(w, t), x, y);
    Swap(x, w, t);
    Swap(y, w, t);
    TimesIs(q1, m);
    Assoc(q1, m, t);
    Distribute(w, Times(x, t), Times(y, t));
  }

  lemma Swap(x: real, w: real, t: real)
    ensures Times(x, Times(w, t)) == Times(w, Times(x, t))
  {
    hide Times;
    Assoc(x, w, t);
    Commute(x, w);
    Assoc(w, x, t);
  }

  /** With ratio 0 only the first term counts; from a negative a the powers would not be finite. */
  lemma {:induction false} ZeroRatioSum(f: SymF, pow: Power, a: real, n: nat)
    requires f.Form? && f.Valid() && f.hasGeo && f.geo[2] == f.geo[3] == 0.0 && f.r == 0.0 && PowLaws(pow) && a >= 0.0
    ensures SumOf(f, pow, a, n) == SumOf(CubicPart(f), pow, a, n) +
            if n == 0 then 0.0 else Times(f.geo[0] + f.geo[1] * a, pow(0.0, a))
  {
    if n > 0 {
      ZeroRatioSum(f, pow, a, n - 1);
      var i := a + (n - 1) as real;
      LinearAt(f.geo, i);
      TimesIs(f.geo[1], i);
      hide At, SumOf;
      assert n > 1 ==> pow(0.0, i) == 0.0;
      ZeroRatioTerm(f, pow, a, n);
    }
  }

  lemma ZeroRatioTerm(f: SymF, pow: Power, a: real, n: nat)
    requires f.Form? && f.Valid() && f.hasGeo && n > 0
    ensures SumOf(f, pow, a, n) - SumOf(f, pow, a, n - 1) ==
            SumOf(CubicPart(f), pow, a, n) - SumOf(CubicPart(f), pow, a, n - 1) +
            Times(At(f.geo, a + (n - 1) as real), pow(f.r, a + (n - 1) as real))
  {
    hide At, Times;
  }

  lemma GeoSumsAtZero(n: nat, rM: real, s0: real, s1: real)
    requires AreGeoSums(0.0, n as real, rM, s0, s1) && rM == if n == 0 then 1.0 else 0.0
    ensures s0 == (if n == 0 then 0.0 else 1.0) && s1 == 0.0
  {
    var one, zero := 1.0, 0.0;
    assert Geo1Top(0.0, n as real, rM) == 0.0;
    TimesIs(s0, zero - one);
    Units(one);
    Units(s1);
  }

  lemma ZeroRatio(f: SymF, pow: Power, a: real, n: nat, s0: real, s1: real)
    requires f.Form? && f.Valid() && f.hasGeo && f.geo[2] == f.geo[3] == 0.0 && f.r == 0.0 && PowLaws(pow) && a >= 0.0
    requires AreGeoSums(0.0, n as real, pow(0.0, n as real), s0, s1)
    ensures SumOf(f, pow, a, n) == SumOf(CubicPart(f), pow, a, n) +
            Times(pow(f.r, a), Times(f.geo[0] + f.geo[1] * a, s0) + Times(f.geo[1], s1))
  {
    hide Times, SumOf, At, AreGeoSums;
    ZeroRatioSum(f, pow, a, n);
    GeoSumsAtZero(n, pow(0.0, n as real), s0, s1);
    var g, w := f.geo[0] + f.geo[1] * a, pow(0.0, a);
    Units(g);
    Units(f.geo[1]);
    Units(w);
    Commute(g, w);
  }

  /** sv_sum: the sum of f over the inclusive range from a to b, for b - a whole. */
  method SvSum(f: SymF, a: real, b: real, pow: Power) returns (s: real)
    requires f.Valid()
    ensures f.Fail? || (f.hasGeo && (f.geo[2] != 0.0 || f.geo[3] != 0.0)) ==> s == 0.0
    ensures f.Form? && (f.hasGeo ==> f.geo[2] == f.geo[3] == 0.0 && (f.r == 0.0 ==> a >= 0.0) && PowLaws(pow)) ==>
              forall n: nat :: b - a + 1.0 == n as real ==> s == SumOf(f, pow, a, n)
  {
    if f.Fail? { return 0.0; }
    var M := b - a + 1.0;
    var sh := Shift(f.poly, a);
    var S := PowerSums(M);
    var sp := 0.0;
    for j := 0 to 4
      invariant sp == (if j > 0 then Times(sh[0], S[0]) else 0.0) + (if j > 1 then Times(sh[1], S[1]) else 0.0) +
                      (if j > 2 then Times(sh[2], S[2]) else 0.0) + (if j > 3 then Times(sh[3], S[3]) else 0.0)
    {
      sp := sp + Times(sh[j], S[j]);
    }
    assert sp == Weighted(sh, S);
    hide Weighted, PowerSums, At, Times, SumOf, Pow, PowLaws;
    forall n: nat | M == n as real
      ensures sp == SumOf(CubicPart(f), pow, a, n) { CubicSum(CubicPart(f), pow, a, n, sh); }
    if !f.hasGeo {
      assert CubicPart(f) == f;
      return sp;
    }
    if f.geo[2] != 0.0 || f.geo[3] != 0.0 { return 0.0; }
    var g0, g1, rM := f.geo[0] + f.geo[1] * a, f.geo[1], pow(f.r, M);
    var s0, s1 := GeoSums(f.r, M, rM);
    s := sp + Times(pow(f.r, a), Times(g0, s0) + Times(g1, s1));
    forall n: nat | M == n as real && (f.r == 0.0 ==> a >= 0.0) && PowLaws(pow) ensures s == SumOf(f, pow, a, n) {
      if f.r == 0.0 {
        ZeroRatio(f, pow, a, n, s0, s1);
      } else {
        GeoSum(f, pow, a, n);
        PowWhole(pow, f.r, n);
        GeoUnique(f.r, n, s0, s1);
      }
    }
  }

  /** The two closed forms, by their defining equations. */
  ghost predicate AreGeoSums(r: real, M: real, rM: real, s0: real, s1: real) {
    if r == 1.0 then s0 == M && s1 == M * (M - 1.0) / 2.0
    else Times(s0, r - 1.0) == rM - 1.0 && Times(s1, Times(1.0 - r, 1.0 - r)) == Geo1Top(r, M, rM)
  }

  method GeoSums(r: real, M: real, rM: real) returns (s0: real, s1: real)
    ensures AreGeoSums(r, M, rM, s0, s1)
  {
    if r == 1.0 {
      s0, s1 := M, M * (M - 1.0) / 2.0;
    } else {
      hide Times;
      var d := Times(1.0 - r, 1.0 - r);
      Square(1.0 - r);
      s0 := (rM - 1.0) / (r - 1.0);
      s1 := (r - M * rM + (M - 1.0) * r * rM) / d;
      Undo(rM - 1.0, r - 1.0);
      Undo(Geo1Top(r, M, rM), d);
    }
  }

  lemma Undo(x: real, y: real)
    requires y != 0.0
    ensures Times(x / y, y) == x
  {
  }

  lemma Positive(x: real, y: real)
    requires x > 0.0 && y > 0.0
    ensures Times(x, y) > 0.0
  {
  }

  lemma Square(d: real)
    requires d != 0.0
    ensures Times(d, d) != 0.0
  {
    hide Times;
    if d > 0.0 {
      Positive(d, d);
    } else {
      Positive(-d, -d);
      Negate(d, -d);
      Negate(d, d);
      Commute(d, -d);
    }
  }

  lemma GeoUnique(r: real, n: nat, s0: real, s1: real)
    requires AreGeoSums(r, n as real, Pow(r, n), s0, s1)
    ensures s0 == Geo0(r, n) && s1 == Geo1(r, n)
  {
    hide Times, Geo1Top, Pow;
    if r == 1.0 {
      OnesSum(n);
    } else {
      Geo0Closed(r, n);
      TimesIs(Geo0(r, n), r - 1.0);
      SameFactor(s0, Geo0(r, n), r - 1.0);
      Geo1Closed(r, n);
      Square(1.0 - r);
      SameFactor(s1, Geo1(r, n), Times(1.0 - r, 1.0 - r));
    }
  }

  lemma SameFactor(x: real, y: real, z: real)
    requires Times(x, z) == Times(y, z) && z != 0.0
    ensures x == y
  {
    assert (x - y) * z == 0.0;
  }

  /** sv_cumsum_incl: fails exactly for a geometric or cubic delta; otherwise its value at i is the sum
    * of delta over a .. i, for every i from a - 1 on. */
  method SvCumsum(delta: SymF, a: real) returns (r: SymF)
    requires delta.Valid()
    ensures r.Valid() && (r.Form? <==> delta.Form? && !delta.hasGeo && delta.poly[3] == 0.0)
    ensures r.Form? ==> !r.hasGeo && forall d: nat :: Below(delta.poly, d) ==> Below(r.poly, d + 1)
    ensures r.Form? ==> forall pow: Power, n: nat :: SvEval(r, a - 1.0 + n as real, pow) == SumOf(delta, pow, a, n)
  {
    if delta.Fail? || delta.hasGeo { return Fail; }
    var sh := Shift(delta.poly, a);
    if sh[3] != 0.0 { return Fail; }
    var A := a - 1.0;
    var p := [sh[0] * -A + sh[1] * (A * A + A) / 2.0 + sh[2] * (-2.0 * A * A * A - 3.0 * A * A - A) / 6.0,
              sh[0] + sh[1] * -(2.0 * A + 1.0) / 2.0 + sh[2] * (6.0 * A * A + 6.0 * A + 1.0) / 6.0,
              sh[1] * 0.5 + sh[2] * (-6.0 * A - 3.0) / 6.0,
              sh[2] * 2.0 / 6.0];
    r := Form(p, false, ZEROS, 0.0);
    forall pow: Power, n: nat ensures SvEval(r, A + n as real, pow) == SumOf(delta, pow, a, n) {
      CubicSum(delta, pow, a, n, sh);
      CubicAt(p, A + n as real);
    }
  }

  /** sv_geo_val: the form given to a repeated multiplication of v0 by c. */
  function SvGeoVal(v0: real, c: real, a: real, pow: Power): (f: SymF)
    requires PowLaws(pow)
    ensures f.Valid() && (f.Form? <==> c != 0.0)
  {
    if c == 0.0 then Fail
    else
      assert PowStep(pow, c, a);
      Form(ZEROS, true, [v0 / pow(c, a), 0.0, 0.0, 0.0], c)
  }

  lemma GeoValEval(v0: real, c: real, a: real, pow: Power, n: nat)
    requires PowLaws(pow) && c != 0.0
    ensures SvEval(SvGeoVal(v0, c, a, pow), a + n as real, pow) == Times(v0, Pow(c, n))
  {
    var i, w, t := a + n as real, pow(c, a), Pow(c, n);
    assert PowStep(pow, c, a);
    PowSteps(pow, c, a, n);
    CubicAt([v0 / w, 0.0, 0.0, 0.0], i);
    AtZeros(ZEROS, i);
    hide Times, At, Pow;
    Undo(v0, w);
    Assoc(v0 / w, w, t);
  }

  /** sv_eval as a method. */
  method EvalForm(f: SymF, i: real, pow: Power) returns (v: real)
    ensures v == SvEval(f, i, pow)
  {
    if f.Fail? { return 0.0; }
    v := Horner(f.poly, i);
    if f.hasGeo {
      var q := Horner(f.geo, i);
      v := v + Times(q, pow(f.r, i));
    }
  }
}
