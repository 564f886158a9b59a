/** Loop bodies that read a name assigned later in them: when resolve_forms (opt_for_fold.c:276-310), which
  * does not look at the order of the body, still folds the loop right. The condition compares its forms
  * with those of a resolution that takes later targets one turn late. */
module LateReads {
  import opened Polynomials
  import opened SymbolicValues
  import opened ConstantFolding
  import opened SymbolicLoop

  // ----- the resolution that minds the order -----

  /** The coefficients of P(i - 1). */
  function Earlier(f: SymF): (g: SymF)
    requires f.Valid()
    ensures g.Valid() && (g.Form? <==> f.Form?)
  {
    if f.Fail? then Fail else
    var p := f.poly;
    Form([p[0] - p[1] + p[2] - p[3], p[1] - 2.0 * p[2] + 3.0 * p[3], p[2] - 3.0 * p[3], p[3]], false, ZEROS, 0.0)
  }

  lemma EarlierEval(f: SymF, d: nat, i: real, pow: Power)
    requires f.Form? && Poly(f, d)
    ensures SvEval(Earlier(f), i, pow) == SvEval(f, i - 1.0, pow) && Poly(Earlier(f), d)
  {
    CubicAt(Earlier(f).poly, i);
    CubicAt(f.poly, i - 1.0);
    hide At;
    EarlierArith(f.poly[1], f.poly[2], f.poly[3], i);
  }

  lemma EarlierArith(b: real, c: real, d: real, x: real)
    ensures b * (x - 1.0) == b * x - b
    ensures c * ((x - 1.0) * (x - 1.0)) == c * (x * x) - 2.0 * c * x + c
    ensures d * ((x - 1.0) * (x - 1.0) * (x - 1.0)) == d * (x * x * x) - 3.0 * d * (x * x) + 3.0 * d * x - d
  {
  }

  /** What statement p reads: this turn's forms of the targets before it, last turn's of those after it. */
  function Late(L: Loop, ready: seq<SymF>, p: nat): (r: seq<SymF>)
    requires Forms(L, ready)
    ensures Forms(L, r)
  {
    seq(|ready|, q requires 0 <= q < |ready| =>
      if q < p then ready[q] else if q == p then Fail else Earlier(ready[q]))
  }

  function LateForm(L: Loop, ready: seq<SymF>, p: nat): (f: SymF)
    requires AllSimple(L) && Forms(L, ready) && p < |L.body|
    ensures f.Valid()
  {
    SymFromAst(KindOf(L, p).rhs, L, ReadyForms(L, Late(L, ready, p), |ready|))
  }

  function LateSweep(L: Loop, ready: seq<SymF>, i: nat): (r: seq<SymF>)
    requires AllSimple(L) && Forms(L, ready) && i <= |ready|
    ensures Forms(L, r)
    decreases |ready| - i
  {
    if i == |ready| then ready
    else if ready[i].Form? then LateSweep(L, ready, i + 1)
    else LateSweep(L, ready[i := LateForm(L, ready, i)], i + 1)
  }

  function LatePasses(L: Loop, ready: seq<SymF>, n: nat): (r: seq<SymF>)
    requires AllSimple(L) && Forms(L, ready)
    ensures Forms(L, r)
    decreases n
  {
    if n == 0 then ready else LatePasses(L, LateSweep(L, ready, 0), n - 1)
  }

  function LateResolution(L: Loop): (r: seq<SymF>)
    requires AllSimple(L)
    ensures Forms(L, r)
  {
    LatePasses(L, seq(|L.body|, _ => Fail), |L.body| + 1)
  }

  // ----- it finds a form just when the other one does -----

  /** Forms for the same targets, none of them geometric. */
  predicate Alike(a: seq<SymF>, b: seq<SymF>) {
    |a| == |b| && forall p :: 0 <= p < |a| ==>
      a[p].Valid() && b[p].Valid() && (a[p].Form? <==> b[p].Form?) && (a[p].Form? ==> !a[p].hasGeo && !b[p].hasGeo)
  }

  /** More names with forms, none geometric, lose no form. */
  lemma {:induction false} SymFound(e: Expr, L: Loop, a: map<string, SymF>, b: map<string, SymF>)
    requires forall x :: x in a ==> a[x].Valid() && a[x].Form? && !a[x].hasGeo && x in b
    requires forall x :: x in b ==> b[x].Valid() && b[x].Form? && !b[x].hasGeo && x in L.Targets()
    requires L.var_ !in L.Targets()
    ensures SymFromAst(e, L, a).Form? ==>
              !SymFromAst(e, L, a).hasGeo && SymFromAst(e, L, b).Form? && !SymFromAst(e, L, b).hasGeo
  {
    match e
    case Num(_) =>
    case Id(x) =>
    case Neg(d) => SymFound(d, L, a, b);
    case Bin(_, l, r) =>
      SymFound(l, L, a, b);
      SymFound(r, L, a, b);
  }

  /** A binding is the form of the target with that name. */
  lemma BoundBy(L: Loop, ready: seq<SymF>, x: string) returns (q: nat)
    requires L.Distinct() && Forms(L, ready) && x in ReadyForms(L, ready, |ready|)
    ensures q < |ready| && L.body[q].x == x && ready[q].Form? && ReadyForms(L, ready, |ready|)[x] == ready[q]
  {
    hide ReadyForms;
    q := IndexOfTarget(L, x);
    ReadyUpto(L, ready, |ready|);
  }

  /** What the reordered bindings hold depends only on which targets have forms. */
  lemma LateFound(L: Loop, a: seq<SymF>, b: seq<SymF>, p: nat)
    requires AllSimple(L) && L.Distinct() && Forms(L, a) && Forms(L, b) && p < |L.body|
    requires forall q :: 0 <= q < |a| && q != p && a[q].Form? ==> !a[q].hasGeo && b[q].Form?
    requires forall q :: 0 <= q < |b| && q != p && b[q].Form? ==> !b[q].hasGeo
    ensures LateForm(L, a, p).Form? ==> !LateForm(L, a, p).hasGeo && LateForm(L, b, p).Form?
  {
    hide ReadyForms, SymFromAst, KindOf;
    var a', b' := Late(L, a, p), Late(L, b, p);
    KeysGrow(L, a', b');
    SymFound(KindOf(L, p).rhs, L, ReadyForms(L, a', |a|), ReadyForms(L, b', |b|));
  }

  lemma KeysGrow(L: Loop, a: seq<SymF>, b: seq<SymF>)
    requires L.Distinct() && Forms(L, a) && Forms(L, b)
    requires forall q :: 0 <= q < |a| && a[q].Form? ==> !a[q].hasGeo && b[q].Form?
    requires forall q :: 0 <= q < |b| && b[q].Form? ==> !b[q].hasGeo
    ensures var m, n := ReadyForms(L, a, |a|), ReadyForms(L, b, |b|);
            (forall x :: x in m ==> m[x].Valid() && m[x].Form? && !m[x].hasGeo && x in n) &&
            (forall x :: x in n ==> n[x].Valid() && n[x].Form? && !n[x].hasGeo && x in L.Targets())
  {
    hide ReadyForms, L.Distinct;
    var m, n := ReadyForms(L, a, |a|), ReadyForms(L, b, |b|);
    forall x | x in m ensures m[x].Valid() && m[x].Form? && !m[x].hasGeo && x in n {
      var q := BoundBy(L, a, x);
      ReadyUpto(L, b, |b|);
    }
    forall x | x in n ensures n[x].Valid() && n[x].Form? && !n[x].hasGeo && x in L.Targets() {
      var q := BoundBy(L, b, x);
    }
  }

  /** Both sweeps find forms for the same targets. */
  lemma {:induction false} SweepsAlike(L: Loop, a: seq<SymF>, b: seq<SymF>, i: nat)
    requires AllSimple(L) && L.Distinct() && Forms(L, a) && Forms(L, b) && Alike(a, b) && i <= |a|
    ensures Alike(Sweep(L, a, i), LateSweep(L, b, i))
    decreases |a| - i
  {
    hide SymFromAst, KindOf, ReadyForms, L.Distinct;
    if i < |a| {
      if a[i].Form? {
        SweepsAlike(L, a, b, i + 1);
      } else {
        var f, g := SymFromAst(KindOf(L, i).rhs, L, ReadyForms(L, a, |a|)), LateForm(L, b, i);
        OneAlike(L, a, b, i);
        SweepsAlike(L, a[i := f], b[i := g], i + 1);
      }
    }
  }

  lemma OneAlike(L: Loop, a: seq<SymF>, b: seq<SymF>, i: nat)
    requires AllSimple(L) && L.Distinct() && Forms(L, a) && Forms(L, b) && Alike(a, b) && i < |a| && a[i].Fail?
    ensures var f, g := SymFromAst(KindOf(L, i).rhs, L, ReadyForms(L, a, |a|)), LateForm(L, b, i);
            (f.Form? <==> g.Form?) && (f.Form? ==> !f.hasGeo && !g.hasGeo)
  {
    hide SymFromAst, KindOf, ReadyForms;
    var b', rhs := Late(L, b, i), KindOf(L, i).rhs;
    KeysGrow(L, a, b');
    KeysGrow(L, b', a);
    SymFound(rhs, L, ReadyForms(L, a, |a|), ReadyForms(L, b', |b|));
    SymFound(rhs, L, ReadyForms(L, b', |b|), ReadyForms(L, a, |a|));
  }

  lemma {:induction false} PassesAlike(L: Loop, a: seq<SymF>, b: seq<SymF>, n: nat)
    requires AllSimple(L) && L.Distinct() && Forms(L, a) && Forms(L, b) && Alike(a, b)
    ensures Alike(Passes(L, a, n), LatePasses(L, b, n))
    decreases n
  {
    hide Alike, Sweep, LateSweep;
    if n > 0 {
      SweepsAlike(L, a, b, 0);
      PassesAlike(L, Sweep(L, a, 0), LateSweep(L, b, 0), n - 1);
    }
  }

  lemma ResolutionsAlike(L: Loop)
    requires AllSimple(L) && L.Distinct()
    ensures Alike(Resolution(L), LateResolution(L))
  {
    PassesAlike(L, seq(|L.body|, _ => Fail), seq(|L.body|, _ => Fail), |L.body| + 1);
  }

  // ----- and its forms are right once the loop has settled -----

  /** Degrees for the targets under which no product goes beyond degree 3. */
  ghost predicate Graded(L: Loop, degs: map<string, nat>) {
    L.var_ !in degs && forall p :: 0 <= p < |L.body| ==> L.body[p].x in degs && GradedAt(L, degs, p)
  }

  ghost predicate GradedAt(L: Loop, degs: map<string, nat>, p: nat)
    requires p < |L.body|
  {
    L.body[p].x in degs && KindOf(L, p).Simple? &&
    Low(KindOf(L, p).rhs, L, degs) && Degree(KindOf(L, p).rhs, L, degs) <= degs[L.body[p].x]
  }

  ghost predicate WithinDegrees(L: Loop, ready: seq<SymF>, degs: map<string, nat>)
    requires |ready| == |L.body|
  {
    forall p :: 0 <= p < |ready| && ready[p].Form? ==> L.body[p].x in degs && Poly(ready[p], degs[L.body[p].x])
  }

  /** A name bound for statement p is a target whose form is right where p reads it. */
  lemma LateBinding(L: Loop, ready: seq<SymF>, degs: map<string, nat>, p: nat, env: Env, n: nat, pow: Power,
                    x: string)
    requires AllSimple(L) && L.Distinct() && FactsHold(L.facts, env) && p < |L.body|
    requires Forms(L, ready) && WithinDegrees(L, ready, degs)
    requires forall q :: 0 <= q < p && ready[q].Form? ==> RepresentsAt(L, env, q, ready[q], pow, n)
    requires forall q :: p < q < |L.body| && ready[q].Form? ==> n > 0 && RepresentsAt(L, env, q, ready[q], pow, n - 1)
    requires x in ReadyForms(L, Late(L, ready, p), |ready|)
    ensures var f := ReadyForms(L, Late(L, ready, p), |ready|)[x];
            Get(Before(L, env, n, p), x) == SvEval(f, L.a + n as real, pow) && x in degs && Poly(f, degs[x])
  {
    hide SvEval, ReadyForms, Before, After, Poly, L.Distinct, Earlier;
    TurnState(L, env, n, p);
    var q := BoundBy(L, Late(L, ready, p), x);
    if q > p {
      LaterHeld(L, env, n, p, q);
      EarlierEval(ready[q], degs[x], L.a + n as real, pow);
    }
  }

  /** A later target still holds what the turn before left in it. */
  lemma LaterHeld(L: Loop, env: Env, n: nat, p: nat, q: nat)
    requires L.Distinct() && p < q < |L.body|
    ensures Get(Before(L, env, n, p), L.body[q].x) == Get(After(L, env, n), L.body[q].x)
  {
    assert L.body[q] in L.body;
    BodyFrame(L, p, Enter(L, After(L, env, n), n), L.body[q].x);
  }

  /** Statement p's late form gives its value, when the forms it reads are right where they are read. */
  lemma LateEval(L: Loop, ready: seq<SymF>, degs: map<string, nat>, p: nat, env: Env, n: nat, pow: Power)
    requires AllSimple(L) && L.Distinct() && Graded(L, degs) && FactsHold(L.facts, env) && p < |L.body|
    requires Forms(L, ready) && WithinDegrees(L, ready, degs)
    requires forall q :: 0 <= q < p && ready[q].Form? ==> RepresentsAt(L, env, q, ready[q], pow, n)
    requires forall q :: p < q < |L.body| && ready[q].Form? ==> n > 0 && RepresentsAt(L, env, q, ready[q], pow, n - 1)
    ensures var f := LateForm(L, ready, p);
            Poly(f, degs[L.body[p].x]) && (f.Form? ==> RepresentsAt(L, env, p, f, pow, n))
  {
    assert KindOf(L, p) == Classify(L.body[p], L.facts);
    hide SvEval, ReadyForms, SymFromAst, KindOf, Degree, Low, Before, After, L.Distinct;
    var rhs, i, s := KindOf(L, p).rhs, L.a + n as real, Before(L, env, n, p);
    var late := Late(L, ready, p);
    var forms := ReadyForms(L, late, |ready|);
    assert GradedAt(L, degs, p);
    TurnState(L, env, n, p);
    forall x | x in forms ensures Get(s, x) == SvEval(forms[x], i, pow) && x in degs && Poly(forms[x], degs[x]) {
      LateBinding(L, ready, degs, p, env, n, pow, x);
    }
    SymRight(rhs, L, forms, degs, Reads(rhs), s, i, pow);
    ClassifiedValue(L.body[p], L.facts, s);
  }

  /** How many of the first k targets have forms. */
  function Found(ready: seq<SymF>, k: nat): nat
    requires k <= |ready|
  {
    if k == 0 then 0 else Found(ready, k - 1) + (if ready[k - 1].Form? then 1 else 0)
  }

  lemma {:induction false} FoundMore(ready: seq<SymF>, i: nat, f: SymF, k: nat)
    requires k <= |ready| && i < |ready| && ready[i].Fail?
    ensures Found(ready[i := f], k) == Found(ready, k) + (if f.Form? && i < k then 1 else 0)
  {
    if k > 0 { FoundMore(ready, i, f, k - 1); }
  }

  lemma {:induction false} FoundAtMost(ready: seq<SymF>, k: nat)
    requires k <= |ready|
    ensures Found(ready, k) <= k && ((exists p :: 0 <= p < k && ready[p].Form?) ==> Found(ready, k) > 0)
  {
    if k > 0 { FoundAtMost(ready, k - 1); }
  }

  /** The forms found are right after every turn, once as many turns are over as forms are found. */
  ghost predicate Settles(L: Loop, ready: seq<SymF>, pow: Power)
    requires |ready| == |L.body|
  {
    forall env, n: nat :: FactsHold(L.facts, env) && Found(ready, |ready|) <= n + 1 ==> AllRight(L, env, ready, pow, n)
  }

  ghost predicate AllRight(L: Loop, env: Env, ready: seq<SymF>, pow: Power, n: nat)
    requires |ready| == |L.body|
  {
    forall p :: 0 <= p < |ready| && ready[p].Form? ==> RepresentsAt(L, env, p, ready[p], pow, n)
  }

  /** Each form found is one its statement still has, whatever else is found. */
  ghost predicate Supported(L: Loop, ready: seq<SymF>)
    requires AllSimple(L) && Forms(L, ready)
  {
    forall p :: 0 <= p < |ready| && ready[p].Form? ==> !ready[p].hasGeo && LateForm(L, ready, p).Form?
  }

  ghost predicate Sound(L: Loop, ready: seq<SymF>, degs: map<string, nat>, pow: Power)
    requires AllSimple(L)
  {
    Forms(L, ready) && WithinDegrees(L, ready, degs) && Settles(L, ready, pow) && Supported(L, ready)
  }

  lemma LateOne(L: Loop, ready: seq<SymF>, degs: map<string, nat>, i: nat, pow: Power)
    requires AllSimple(L) && L.Distinct() && Graded(L, degs) && Sound(L, ready, degs, pow)
    requires i < |ready| && ready[i].Fail?
    ensures Sound(L, ready[i := LateForm(L, ready, i)], degs, pow)
  {
    hide LateForm, Poly, L.Distinct;
    var f := LateForm(L, ready, i);
    var now := ready[i := f];
    if f.Form? {
      OneWithin(L, ready, degs, i, pow);
      OneSettled(L, ready, degs, i, pow);
      OneSupported(L, ready, degs, i, pow);
    } else {
      assert now == ready;
    }
  }

  lemma OneWithin(L: Loop, ready: seq<SymF>, degs: map<string, nat>, i: nat, pow: Power)
    requires AllSimple(L) && L.Distinct() && Graded(L, degs) && Sound(L, ready, degs, pow)
    requires i < |ready| && ready[i].Fail?
    ensures WithinDegrees(L, ready[i := LateForm(L, ready, i)], degs)
  {
    hide LateForm, Poly, L.Distinct, AllRight, RepresentsAt;
    var n := Found(ready, |ready|);
    assert FactsHold(L.facts, L.facts);
    RightBefore(L, L.facts, ready, i, n, pow);
    LateEval(L, ready, degs, i, L.facts, n, pow);
  }

  /** With a turn to spare the forms found are right on this turn and on the one before. */
  lemma RightBefore(L: Loop, env: Env, ready: seq<SymF>, i: nat, n: nat, pow: Power)
    requires |ready| == |L.body| && Settles(L, ready, pow) && FactsHold(L.facts, env) && Found(ready, |ready|) <= n
    ensures forall q :: 0 <= q < i && q < |ready| && ready[q].Form? ==> RepresentsAt(L, env, q, ready[q], pow, n)
    ensures forall q :: i < q < |ready| && ready[q].Form? ==> n > 0 && RepresentsAt(L, env, q, ready[q], pow, n - 1)
  {
    hide RepresentsAt;
    assert AllRight(L, env, ready, pow, n);
    FoundAtMost(ready, |ready|);
    if n > 0 { assert AllRight(L, env, ready, pow, n - 1); }
  }

  lemma OneSettled(L: Loop, ready: seq<SymF>, degs: map<string, nat>, i: nat, pow: Power)
    requires AllSimple(L) && L.Distinct() && Graded(L, degs) && Sound(L, ready, degs, pow)
    requires i < |ready| && ready[i].Fail? && LateForm(L, ready, i).Form?
    ensures Settles(L, ready[i := LateForm(L, ready, i)], pow)
  {
    hide LateForm, Poly, L.Distinct, RepresentsAt, WithinDegrees;
    var f := LateForm(L, ready, i);
    var now := ready[i := f];
    FoundMore(ready, i, f, |ready|);
    forall env, n: nat | FactsHold(L.facts, env) && Found(now, |now|) <= n + 1
      ensures AllRight(L, env, now, pow, n)
    {
      RightBefore(L, env, ready, i, n, pow);
      LateEval(L, ready, degs, i, env, n, pow);
      assert AllRight(L, env, ready, pow, n);
    }
  }

  lemma OneSupported(L: Loop, ready: seq<SymF>, degs: map<string, nat>, i: nat, pow: Power)
    requires AllSimple(L) && L.Distinct() && Forms(L, ready) && Supported(L, ready)
    requires i < |ready| && ready[i].Fail? && LateForm(L, ready, i).Form?
    ensures Supported(L, ready[i := LateForm(L, ready, i)])
  {
    hide LateForm, L.Distinct;
    var now := ready[i := LateForm(L, ready, i)];
    forall p | 0 <= p < |now| && now[p].Form? ensures !now[p].hasGeo && LateForm(L, now, p).Form? {
      LateFound(L, ready, ready, i);
      LateFound(L, ready, now, p);
    }
  }

  lemma {:induction false} SweepSound(L: Loop, ready: seq<SymF>, degs: map<string, nat>, i: nat, pow: Power)
    requires AllSimple(L) && L.Distinct() && Graded(L, degs) && Sound(L, ready, degs, pow) && i <= |ready|
    ensures Sound(L, LateSweep(L, ready, i), degs, pow)
    decreases |ready| - i
  {
    hide LateForm, WithinDegrees, Settles, Supported, L.Distinct, Graded;
    if i < |ready| {
      if ready[i].Form? {
        SweepSound(L, ready, degs, i + 1, pow);
      } else {
        LateOne(L, ready, degs, i, pow);
        SweepSound(L, ready[i := LateForm(L, ready, i)], degs, i + 1, pow);
      }
    }
  }

  lemma {:induction false} PassesSound(L: Loop, ready: seq<SymF>, degs: map<string, nat>, n: nat, pow: Power)
    requires AllSimple(L) && L.Distinct() && Graded(L, degs) && Sound(L, ready, degs, pow)
    ensures Sound(L, LatePasses(L, ready, n), degs, pow)
    decreases n
  {
    hide LateSweep, Graded, L.Distinct, WithinDegrees, Settles, Supported;
    if n > 0 {
      SweepSound(L, ready, degs, 0, pow);
      PassesSound(L, LateSweep(L, ready, 0), degs, n - 1, pow);
    }
  }

  lemma LateSound(L: Loop, degs: map<string, nat>, pow: Power)
    requires AllSimple(L) && L.Distinct() && Graded(L, degs)
    ensures Sound(L, LateResolution(L), degs, pow)
  {
    hide LatePasses, Graded, L.Distinct;
    PassesSound(L, seq(|L.body|, _ => Fail), degs, |L.body| + 1, pow);
  }

  // ----- when the folded loop ends right -----

  lemma {:induction false} FoundAll(ready: seq<SymF>, k: nat)
    requires k <= |ready| && forall p :: 0 <= p < |ready| ==> ready[p].Form?
    ensures Found(ready, k) == k
  {
    if k > 0 { FoundAll(ready, k - 1); }
  }

  /** A body without accumulators that is folded. */
  ghost predicate Folded(L: Loop) {
    AllSimple(L) && L.Distinct() && 0 < |L.body| <= 16 && forall p :: 0 <= p < |L.body| ==> Resolution(L)[p].Form?
  }

  lemma FoldedFolds(L: Loop, b: real, pow: Power)
    requires AllSimple(L) && L.a <= b
    ensures SimpleFold(L, b, pow).Folds? <==> Folded(L)
    ensures Folded(L) ==> var finals := SimpleFold(L, b, pow).finals;
              |finals| == |L.body| && forall p :: 0 <= p < |finals| ==> finals[p] == SvEval(Resolution(L)[p], b, pow)
  {
    hide Resolution, SvEval;
  }

  /** From as many turns on as there are statements, the loop leaves the late forms' values. */
  lemma LateAfter(L: Loop, degs: map<string, nat>, env: Env, n: nat, pow: Power)
    requires Folded(L) && Graded(L, degs) && FactsHold(L.facts, env) && n + 1 >= |L.body|
    ensures forall p :: 0 <= p < |L.body| ==> LateResolution(L)[p].Form?
    ensures AllRight(L, env, LateResolution(L), pow, n)
  {
    hide Resolution, LateResolution, RepresentsAt, L.Distinct, WithinDegrees, Supported;
    var late := LateResolution(L);
    ResolutionsAlike(L);
    LateSound(L, degs, pow);
    FoundAll(late, |late|);
  }

  lemma AtLeastOne(a: real, b: real)
    requires a <= b
    ensures Trips(a, b) > 0
  {
  }

  /** The ends agree just when the loop leaves the emitted values in the targets. */
  lemma EndsIff(L: Loop, b: real, env: Env, finals: seq<real>)
    requires L.Distinct() && |finals| == |L.body| && L.a <= b
    ensures SameEnds(L, b, env, finals) <==>
            forall p :: 0 <= p < |L.body| ==> Get(LoopEnd(L, b, env), L.body[p].x) == finals[p]
  {
    hide After, Emitted, Trips;
    assert Trips(L.a, b) > 0 by { AtLeastOne(L.a, b); }
    EmittedAt(L, env, finals, |finals|);
    AfterKeys(L, env, Trips(L.a, b));
    if forall p :: 0 <= p < |L.body| ==> Get(LoopEnd(L, b, env), L.body[p].x) == finals[p] {
      OthersAgree(L, b, env, finals);
    } else {
      var p :| 0 <= p < |L.body| && Get(LoopEnd(L, b, env), L.body[p].x) != finals[p];
      TargetDiffers(L, b, env, finals, p);
    }
  }

  lemma TargetDiffers(L: Loop, b: real, env: Env, finals: seq<real>, p: nat)
    requires L.Distinct() && |finals| == |L.body| && L.a <= b && p < |L.body|
    requires Get(LoopEnd(L, b, env), L.body[p].x) != finals[p]
    ensures !SameEnds(L, b, env, finals)
  {
    hide LoopEnd, Emitted;
    EmittedAt(L, env, finals, |finals|);
    var F, E, x := FoldedEnd(L, b, env, finals), LoopEnd(L, b, env), L.body[p].x;
    assert L.body[p] in L.body;
    assert x in F - {L.var_} && (F - {L.var_})[x] == finals[p];
    if x in E { assert (E - {L.var_})[x] == Get(E, x); }
  }

  /** A loop of at least as many turns as statements is folded right, from whatever state it starts, if and
    * only if the forms found and those found with later targets read late have the same values at its end. */
  lemma LateReadsIff(L: Loop, degs: map<string, nat>, b: real, env: Env, pow: Power)
    requires AllSimple(L) && Graded(L, degs) && FactsHold(L.facts, env)
    requires SimpleFold(L, b, pow).Folds? && Whole(L.a, b) && Trips(L.a, b) >= |L.body|
    ensures |SimpleFold(L, b, pow).finals| == |L.body|
    ensures SameEnds(L, b, env, SimpleFold(L, b, pow).finals) <==>
            forall p :: 0 <= p < |L.body| ==>
              SvEval(Resolution(L)[p], b, pow) == SvEval(LateResolution(L)[p], b, pow)
  {
    assert L.a <= b;
    FoldedFolds(L, b, pow);
    EndsIff(L, b, env, SimpleFold(L, b, pow).finals);
    LateEnd(L, degs, b, env, pow);
    hide Resolution, LateResolution, SvEval, LoopEnd, L.Distinct, SameEnds, SimpleFold, Graded, Folded, Trips;
  }

  lemma LateEnd(L: Loop, degs: map<string, nat>, b: real, env: Env, pow: Power)
    requires Folded(L) && Graded(L, degs) && FactsHold(L.facts, env) && Whole(L.a, b) && Trips(L.a, b) >= |L.body|
    ensures forall p :: 0 <= p < |L.body| ==>
              Get(LoopEnd(L, b, env), L.body[p].x) == SvEval(LateResolution(L)[p], b, pow)
  {
    hide Resolution, LateResolution, SvEval, After, L.Distinct, Graded;
    var n := Trips(L.a, b) - 1;
    LateAfter(L, degs, env, n, pow);
    assert b == L.a + n as real;
    forall p | 0 <= p < |L.body|
      ensures Get(LoopEnd(L, b, env), L.body[p].x) == SvEval(LateResolution(L)[p], b, pow)
    {
      assert RepresentsAt(L, env, p, LateResolution(L)[p], pow, n);
    }
  }

  // ----- when every range is folded right -----

  /** Cubics with the same values at four consecutive points are the same. */
  lemma CubicUnique(p: seq<real>, q: seq<real>, x: real)
    requires |p| == |q| == 4
    requires At(p, x) == At(q, x) && At(p, x + 1.0) == At(q, x + 1.0)
    requires At(p, x + 2.0) == At(q, x + 2.0) && At(p, x + 3.0) == At(q, x + 3.0)
    ensures p == q
  {
    hide At, Times;
    CubicSteps(p, x);
    CubicSteps(q, x);
    assert p[3] == q[3];
    assert p[2] == q[2];
    assert p[1] == q[1];
  }

  /** The value at x and the differences to x + 1, x + 2 and x + 3. */
  lemma CubicSteps(p: seq<real>, x: real)
    requires |p| == 4
    ensures At(p, x) == p[0] + Times(p[1], x) + Times(p[2], x * x) + Times(p[3], x * x * x)
    ensures At(p, x + 1.0) - At(p, x) ==
            p[1] + Times(p[2], 2.0 * x + 1.0) + Times(p[3], 3.0 * (x * x) + 3.0 * x + 1.0)
    ensures At(p, x + 2.0) - 2.0 * At(p, x + 1.0) + At(p, x) == 2.0 * p[2] + Times(p[3], 6.0 * x + 6.0)
    ensures At(p, x + 3.0) - 3.0 * At(p, x + 2.0) + 3.0 * At(p, x + 1.0) - At(p, x) == 6.0 * p[3]
  {
    hide At, Times;
    CubicShift(p, x, 0.0);
    CubicShift(p, x, 1.0);
    CubicShift(p, x, 2.0);
    CubicShift(p, x, 3.0);
    DifferenceArith(p[2], p[3], x, x * x);
  }

  lemma CubicShift(p: seq<real>, x: real, k: real)
    requires |p| == 4
    ensures At(p, x + k) ==
            p[0] + Times(p[1], x) + k * p[1] + Times(p[2], x * x) + 2.0 * k * Times(p[2], x) + k * k * p[2] +
            Times(p[3], x * x * x) + 3.0 * k * Times(p[3], x * x) + 3.0 * k * k * Times(p[3], x) + k * k * k * p[3]
  {
    CubicAt(p, x + k);
    hide At;
    ShiftArith(p[1], p[2], p[3], x, k);
    hide Times;
  }

  lemma ShiftArith(b: real, c: real, d: real, x: real, k: real)
    ensures b * (x + k) == Times(b, x) + k * b
    ensures c * ((x + k) * (x + k)) == Times(c, x * x) + 2.0 * k * Times(c, x) + k * k * c
    ensures d * ((x + k) * (x + k) * (x + k)) ==
            Times(d, x * x * x) + 3.0 * k * Times(d, x * x) + 3.0 * k * k * Times(d, x) + k * k * k * d
  {
  }

  lemma DifferenceArith(c: real, d: real, x: real, s: real)
    ensures Times(c, 2.0 * x + 1.0) == 2.0 * Times(c, x) + c
    ensures Times(d, 3.0 * s + 3.0 * x + 1.0) == 3.0 * Times(d, s) + 3.0 * Times(d, x) + d
    ensures Times(d, 6.0 * x + 6.0) == 6.0 * Times(d, x) + 6.0 * d
  {
  }

  /** The two resolutions find the same polynomials. */
  ghost predicate SameForms(L: Loop)
    requires AllSimple(L)
  {
    forall p :: 0 <= p < |L.body| ==>
      Resolution(L)[p].Form? && LateResolution(L)[p].Form? && Resolution(L)[p].poly == LateResolution(L)[p].poly
  }

  /** The first turn leaves the forms' values, whatever the targets held before it. */
  ghost predicate FirstTurn(L: Loop, pow: Power)
    requires AllSimple(L)
  {
    forall env :: FactsHold(L.facts, env) ==> AllRight(L, env, Resolution(L), pow, 0)
  }

  /** Folded over any range, from any start, the loop ends right. */
  ghost predicate EveryRange(L: Loop, pow: Power)
    requires Folded(L)
  {
    forall b, env :: L.a <= b && Whole(L.a, b) && FactsHold(L.facts, env) ==> RangeRight(L, b, env, pow)
  }

  ghost predicate RangeRight(L: Loop, b: real, env: Env, pow: Power)
    requires Folded(L) && L.a <= b
  {
    var r := SimpleFold(L, b, pow);
    r.Folds? && |r.finals| == |L.body| && SameEnds(L, b, env, r.finals)
  }

  lemma TripsOf(a: real, n: nat)
    ensures Whole(a, a + n as real) && Trips(a, a + n as real) == n + 1
  {
    assert a + n as real - a == n as real && (n as real).Floor == n;
  }

  lemma RangeRightIff(L: Loop, b: real, env: Env, n: nat, pow: Power)
    requires Folded(L) && b == L.a + n as real
    ensures Whole(L.a, b) && (RangeRight(L, b, env, pow) <==> AllRight(L, env, Resolution(L), pow, n))
  {
    TripsOf(L.a, n);
    FoldedFolds(L, b, pow);
    hide Resolution, SvEval, After, L.Distinct, SameEnds, SimpleFold, AllSimple, Trips, Whole;
    EndsIff(L, b, env, SimpleFold(L, b, pow).finals);
    RightIffValues(L, b, env, SimpleFold(L, b, pow).finals, n, pow);
  }

  lemma RightIffValues(L: Loop, b: real, env: Env, finals: seq<real>, n: nat, pow: Power)
    requires Folded(L) && b == L.a + n as real && Trips(L.a, b) == n + 1 && |finals| == |L.body|
    requires forall p :: 0 <= p < |finals| ==> finals[p] == SvEval(Resolution(L)[p], b, pow)
    ensures AllRight(L, env, Resolution(L), pow, n) <==>
            forall p :: 0 <= p < |L.body| ==> Get(LoopEnd(L, b, env), L.body[p].x) == finals[p]
  {
    hide Resolution, SvEval, After, L.Distinct, AllSimple, Trips;
    assert Folded(L) && forall p :: 0 <= p < |L.body| ==> Resolution(L)[p].Form?;
    if forall p :: 0 <= p < |L.body| ==> Get(LoopEnd(L, b, env), L.body[p].x) == finals[p] {
      forall p | 0 <= p < |L.body| ensures RepresentsAt(L, env, p, Resolution(L)[p], pow, n) { }
    } else {
      var p :| 0 <= p < |L.body| && Get(LoopEnd(L, b, env), L.body[p].x) != finals[p];
      assert !RepresentsAt(L, env, p, Resolution(L)[p], pow, n);
    }
  }

  /** Four points in a row decide a form without geometric part. */
  lemma FormUnique(f: SymF, g: SymF, x: real, pow: Power)
    requires f.Valid() && g.Valid() && f.Form? && g.Form? && !f.hasGeo && !g.hasGeo
    requires forall k: nat :: k < 4 ==> SameAt(f, g, x, k, pow)
    ensures f.poly == g.poly
  {
    hide At;
    assert SameAt(f, g, x, 0, pow) && SameAt(f, g, x, 1, pow) && SameAt(f, g, x, 2, pow) && SameAt(f, g, x, 3, pow);
    CubicUnique(f.poly, g.poly, x);
  }

  ghost predicate SameAt(f: SymF, g: SymF, x: real, k: nat, pow: Power) {
    SvEval(f, x + k as real, pow) == SvEval(g, x + k as real, pow)
  }

  /** Right for every range, the forms found have the late ones' values on settled turns. */
  lemma FormsAgreeAt(L: Loop, degs: map<string, nat>, p: nat, n: nat, pow: Power)
    requires Folded(L) && Graded(L, degs) && EveryRange(L, pow) && p < |L.body| && n >= |L.body|
    ensures SvEval(Resolution(L)[p], L.a + n as real, pow) == SvEval(LateResolution(L)[p], L.a + n as real, pow)
  {
    hide Resolution, LateResolution, SvEval, L.Distinct, Graded, EveryRange, After, AllSimple;
    assert FactsHold(L.facts, L.facts);
    LateAfter(L, degs, L.facts, n, pow);
    AllRightAt(L, L.facts, n, pow);
    assert RepresentsAt(L, L.facts, p, Resolution(L)[p], pow, n);
    assert RepresentsAt(L, L.facts, p, LateResolution(L)[p], pow, n);
  }

  /** So they are the late ones. */
  lemma FormsAgree(L: Loop, degs: map<string, nat>, pow: Power)
    requires Folded(L) && Graded(L, degs) && EveryRange(L, pow)
    ensures SameForms(L)
  {
    hide Resolution, LateResolution, SvEval, L.Distinct, Graded, EveryRange;
    var forms, late, x := Resolution(L), LateResolution(L), L.a + |L.body| as real;
    ResolutionsAlike(L);
    forall p | 0 <= p < |L.body| ensures forms[p].Form? && late[p].Form? && forms[p].poly == late[p].poly {
      assert forms[p].Form?;
      forall k: nat {:trigger SameAt(forms[p], late[p], x, k, pow)} | k < 4
        ensures SameAt(forms[p], late[p], x, k, pow)
      {
        FormsAgreeAt(L, degs, p, |L.body| + k, pow);
        assert L.a + (|L.body| + k) as real == x + k as real;
      }
      FormUnique(forms[p], late[p], x, pow);
    }
  }

  lemma AllRightAt(L: Loop, env: Env, n: nat, pow: Power)
    requires Folded(L) && EveryRange(L, pow) && FactsHold(L.facts, env)
    ensures AllRight(L, env, Resolution(L), pow, n)
  {
    hide Resolution, AllRight, RangeRight, L.Distinct;
    var b := L.a + n as real;
    RangeRightIff(L, b, env, n, pow);
    assert RangeRight(L, b, env, pow);
  }

  /** On a settled turn a statement's late form has the value of the form found for it. */
  lemma LateFixedAt(L: Loop, degs: map<string, nat>, p: nat, n: nat, pow: Power)
    requires Folded(L) && Graded(L, degs) && p < |L.body| && n >= |L.body| && LateForm(L, LateResolution(L), p).Form?
    ensures var f, g := LateForm(L, LateResolution(L), p), LateResolution(L)[p];
            SvEval(f, L.a + n as real, pow) == SvEval(g, L.a + n as real, pow)
  {
    hide Resolution, LateResolution, LateForm, SvEval, L.Distinct, Graded, Settles, Supported, After;
    assert FactsHold(L.facts, L.facts);
    LateSound(L, degs, pow);
    LateAfter(L, degs, L.facts, n, pow);
    LateAfter(L, degs, L.facts, n - 1, pow);
    LateEval(L, LateResolution(L), degs, p, L.facts, n, pow);
    assert RepresentsAt(L, L.facts, p, LateResolution(L)[p], pow, n);
  }

  /** What a statement's late form is in the end. */
  lemma LateFixed(L: Loop, degs: map<string, nat>, p: nat, pow: Power)
    requires Folded(L) && Graded(L, degs) && p < |L.body|
    ensures var f, g := LateForm(L, LateResolution(L), p), LateResolution(L)[p];
            f.Form? && g.Form? && !f.hasGeo && !g.hasGeo && f.poly == g.poly
  {
    hide Resolution, LateResolution, LateForm, SvEval, L.Distinct, Graded, Settles, WithinDegrees;
    var late := LateResolution(L);
    ResolutionsAlike(L);
    LateSound(L, degs, pow);
    var f, g := LateForm(L, late, p), late[p];
    assert f.Form? && g.Form?;
    LateFound(L, late, late, p);
    var x := L.a + |L.body| as real;
    forall k: nat | k < 4 ensures SameAt(f, g, x, k, pow) {
      LateFixedAt(L, degs, p, |L.body| + k, pow);
      assert L.a + (|L.body| + k) as real == x + k as real;
    }
    FormUnique(f, g, x, pow);
  }

  /** The late forms are right for the first k statements of turn n, after a turn on which all are. */
  lemma {:induction false} TurnUpto(L: Loop, degs: map<string, nat>, env: Env, n: nat, k: nat, pow: Power)
    requires Folded(L) && Graded(L, degs) && FactsHold(L.facts, env) && k <= |L.body| && n > 0
    requires AllRight(L, env, LateResolution(L), pow, n - 1)
    ensures forall p :: 0 <= p < k ==> RepresentsAt(L, env, p, LateResolution(L)[p], pow, n)
  {
    hide Resolution, LateResolution, LateForm, L.Distinct, Graded, Settles, Supported, RepresentsAt;
    if k > 0 {
      var late := LateResolution(L);
      TurnUpto(L, degs, env, n, k - 1, pow);
      LateSound(L, degs, pow);
      LateEval(L, late, degs, k - 1, env, n, pow);
      LateFixed(L, degs, k - 1, pow);
      SameRepresents(L, env, k - 1, LateForm(L, late, k - 1), late[k - 1], n, pow);
    }
  }

  lemma SameRepresents(L: Loop, env: Env, p: nat, f: SymF, g: SymF, n: nat, pow: Power)
    requires p < |L.body| && f.Form? && g.Form? && !f.hasGeo && !g.hasGeo && f.poly == g.poly
    ensures RepresentsAt(L, env, p, f, pow, n) <==> RepresentsAt(L, env, p, g, pow, n)
  {
  }

  /** From a right first turn on, every turn is right. */
  lemma {:induction false} EveryTurn(L: Loop, degs: map<string, nat>, env: Env, n: nat, pow: Power)
    requires Folded(L) && Graded(L, degs) && FactsHold(L.facts, env)
    requires AllRight(L, env, LateResolution(L), pow, 0)
    ensures AllRight(L, env, LateResolution(L), pow, n)
  {
    hide Resolution, LateResolution, L.Distinct, Graded, RepresentsAt;
    if n > 0 {
      EveryTurn(L, degs, env, n - 1, pow);
      TurnUpto(L, degs, env, n, |L.body|, pow);
    }
  }

  /** Forms with the same polynomials are right together. */
  lemma RightTogether(L: Loop, env: Env, n: nat, pow: Power)
    requires Folded(L) && SameForms(L)
    ensures AllRight(L, env, Resolution(L), pow, n) <==> AllRight(L, env, LateResolution(L), pow, n)
  {
    ResolutionsAlike(L);
    hide Resolution, LateResolution, RepresentsAt, L.Distinct;
    forall p | 0 <= p < |L.body|
      ensures RepresentsAt(L, env, p, Resolution(L)[p], pow, n) <==>
              RepresentsAt(L, env, p, LateResolution(L)[p], pow, n)
    {
      SameRepresents(L, env, p, Resolution(L)[p], LateResolution(L)[p], n, pow);
    }
  }

  /** A folded body is folded right over every range and from every start if and only if the forms found are
    * the late ones and the first turn does not see what later targets held before the loop. */
  lemma EveryRangeIff(L: Loop, degs: map<string, nat>, pow: Power)
    requires Folded(L) && Graded(L, degs)
    ensures EveryRange(L, pow) <==> SameForms(L) && FirstTurn(L, pow)
  {
    hide Resolution, LateResolution, L.Distinct, Graded, SameForms, AllRight, RangeRight, AllSimple;
    if EveryRange(L, pow) {
      FormsAgree(L, degs, pow);
      forall env | FactsHold(L.facts, env) ensures AllRight(L, env, Resolution(L), pow, 0) {
        AllRightAt(L, env, 0, pow);
      }
    }
    if SameForms(L) && FirstTurn(L, pow) {
      forall b, env | L.a <= b && Whole(L.a, b) && FactsHold(L.facts, env) ensures RangeRight(L, b, env, pow) {
        var n: nat := (b - L.a).Floor;
        RightTogether(L, env, 0, pow);
        EveryTurn(L, degs, env, n, pow);
        RightTogether(L, env, n, pow);
        RangeRightIff(L, b, env, n, pow);
      }
    }
  }

  /** The loop that reads x before it assigns it is one of these, and is not folded right over every range. */
  lemma LaterReadCovered(pow: Power)
    ensures Folded(LATER_READ) && Graded(LATER_READ, map["y" := 1, "x" := 1]) && !EveryRange(LATER_READ, pow)
  {
    var L, env: Env := LATER_READ, map[];
    LaterReadsGoWrong(env, pow);
    LaterReadGraded();
    FoldedFolds(L, 2.0, pow);
    hide Resolution, LoopEnd, FoldedEnd, SimpleFold, L.Distinct, Graded;
    assert (FoldedEnd(L, 2.0, env, [2.0, 2.0]) - {"i"})["y"] != (LoopEnd(L, 2.0, env) - {"i"})["y"];
    assert !RangeRight(L, 2.0, env, pow);
    assert FactsHold(L.facts, env) && Whole(L.a, 2.0);
  }

  lemma LaterReadGraded()
    ensures Graded(LATER_READ, map["y" := 1, "x" := 1])
  {
    assert KindOf(LATER_READ, 0) == Simple(Id("x")) && KindOf(LATER_READ, 1) == Simple(Id("i"));
  }
}
