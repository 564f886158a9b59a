/** Folding a constant-range loop of assignments to its final values: opt_for_fold.c:72-310, 517-665. */
module SymbolicLoop {
  import opened Polynomials
  import opened SymbolicValues
  import opened ConstantFolding

  /** name = value; decl marks a declaration. */
  datatype Stmt = Bind(x: string, e: Expr, decl: bool)

  /** for var = a, a + 1, .. { body }, with the facts known on entry. */
  datatype Loop = Loop(body: seq<Stmt>, var_: string, a: real, facts: Env) {
    function Targets(): set<string> { set s | s in body :: s.x }

    ghost predicate Distinct() {
      (forall p, q :: 0 <= p < q < |body| ==> body[p].x != body[q].x) && var_ !in Targets()
    }
  }

  // ----- really running the loop -----

  /** The first p statements of the body. */
  function RunBody(L: Loop, p: nat, env: Env): Env
    requires p <= |L.body|
  {
    if p == 0 then env else
      var mid := RunBody(L, p - 1, env);
      mid[L.body[p - 1].x := Value(L.body[p - 1].e, mid)]
  }

  function Enter(L: Loop, env: Env, n: nat): Env { env[L.var_ := L.a + n as real] }

  /** The state after n turns. */
  function After(L: Loop, env: Env, n: nat): Env {
    if n == 0 then env else RunBody(L, |L.body|, Enter(L, After(L, env, n - 1), n - 1))
  }

  /** How many of a, a + 1, .. do not exceed b. */
  function Trips(a: real, b: real): nat { if b < a then 0 else (b - a).Floor + 1 }

  /** The state when the loop is over; FOR_NEXT leaves the variable at its last value. */
  function LoopEnd(L: Loop, b: real, env: Env): Env { After(L, env, Trips(L.a, b)) }

  lemma {:induction false} BodyFrame(L: Loop, p: nat, env: Env, x: string)
    requires p <= |L.body| && forall q :: 0 <= q < p ==> L.body[q].x != x
    ensures (x in RunBody(L, p, env) <==> x in env) && Get(RunBody(L, p, env), x) == Get(env, x)
  {
    if p > 0 { BodyFrame(L, p - 1, env, x); }
  }

  /** A statement's target keeps, to the end of the turn, the value it is given. */
  lemma {:induction false} BodyValue(L: Loop, p: nat, q: nat, env: Env)
    requires L.Distinct() && q < p <= |L.body|
    ensures L.body[q].x in RunBody(L, p, env)
    ensures Get(RunBody(L, p, env), L.body[q].x) == Value(L.body[q].e, RunBody(L, q, env))
  {
    if q < p - 1 { BodyValue(L, p - 1, q, env); }
  }

  // ----- classification -----

  datatype Kind = Simple(rhs: Expr) | AccPlus(rhs: Expr) | AccMul(factor: Expr, c: real)

  predicate IsSelf(e: Expr, x: string) { e.Id? && e.x == x }

  /** classify_assign. */
  function Classify(s: Stmt, facts: Env): Kind {
    if s.decl then Simple(s.e)
    else if s.e.Bin? && s.e.op.Plus? && IsSelf(s.e.l, s.x) != IsSelf(s.e.r, s.x) then
      AccPlus(if IsSelf(s.e.l, s.x) then s.e.r else s.e.l)
    else if s.e.Bin? && s.e.op.Star? && IsSelf(s.e.l, s.x) && !IsSelf(s.e.r, s.x) &&
            FoldNumber(s.e.r, facts).Known? then
      AccMul(s.e.r, FoldNumber(s.e.r, facts).v)
    else if s.e.Bin? && s.e.op.Star? && IsSelf(s.e.r, s.x) && !IsSelf(s.e.l, s.x) &&
            FoldNumber(s.e.l, facts).Known? then
      AccMul(s.e.l, FoldNumber(s.e.l, facts).v)
    else Simple(s.e)
  }

  function KindOf(L: Loop, p: nat): Kind
    requires p < |L.body|
  {
    Classify(L.body[p], L.facts)
  }

  lemma ClassifiedValue(s: Stmt, facts: Env, env: Env)
    ensures var k := Classify(s, facts);
            (k.Simple? ==> Value(s.e, env) == Value(k.rhs, env)) &&
            (k.AccPlus? ==> Value(s.e, env) == Get(env, s.x) + Value(k.rhs, env)) &&
            (k.AccMul? ==>
               Value(s.e, env) == Times(Get(env, s.x), Value(k.factor, env)) &&
               FoldNumber(k.factor, facts) == Known(k.c))
  {
    if s.e.Bin? && s.e.op.Star? { Commute(Value(s.e.l, env), Value(s.e.r, env)); }
  }

  /** s combines its target, standing on exactly one side, with d. */
  predicate Self(s: Stmt, op: Op, d: Expr) {
    !s.decl && d != Id(s.x) && (s.e == Bin(op, Id(s.x), d) || s.e == Bin(op, d, Id(s.x)))
  }

  /** Exactly the additions to the target and its multiplications by what the facts settle are told apart. */
  lemma ClassifyIff(s: Stmt, facts: Env, d: Expr, c: real)
    ensures Classify(s, facts) == AccPlus(d) <==> Self(s, Plus, d)
    ensures Classify(s, facts) == AccMul(d, c) <==>
            Self(s, Star, d) && ConstantFolding.Settled(d, facts) && c == Value(d, facts)
    ensures Classify(s, facts) == Simple(d) ==> d == s.e
  {
    FoldNumberIff(d, facts);
    if s.e.Bin? {
      FoldNumberIff(s.e.l, facts);
      FoldNumberIff(s.e.r, facts);
    }
  }

  // ----- symbolic evaluation -----

  /** sym_from_ast on the forms of two operands. */
  function Combine(op: Op, a: SymF, b: SymF): (f: SymF)
    requires a.Valid() && b.Valid()
    ensures f.Valid()
  {
    if a.Fail? || b.Fail? then Fail
    else match op
      case Plus => SvAdd(a, b)
      case Minus => SvAdd(a, SvNeg(b))
      case Star => SvMul(a, b)
      case _ => Fail
  }

  /** sym_from_ast: forms holds the body's names resolved so far. */
  function SymFromAst(e: Expr, L: Loop, forms: map<string, SymF>): (f: SymF)
    requires forall x :: x in forms ==> forms[x].Valid()
    ensures f.Valid()
  {
    match e
    case Num(v) => SvConst(v)
    case Id(x) =>
      if x in forms then forms[x]
      else if x == L.var_ then SvLoop()
      else if x in L.Targets() then Fail
      else if x in L.facts then SvConst(L.facts[x])
      else Fail
    case Neg(e) => SvNeg(SymFromAst(e, L, forms))
    case Bin(op, l, r) => Combine(op, SymFromAst(l, L, forms), SymFromAst(r, L, forms))
  }

  /** An upper bound on the degree of e in the loop variable. */
  function Degree(e: Expr, L: Loop, degs: map<string, nat>): nat {
    match e
    case Num(_) => 0
    case Id(x) => if x in degs then degs[x] else if x == L.var_ then 1 else 0
    case Neg(e) => Degree(e, L, degs)
    case Bin(op, l, r) =>
      var m, n := Degree(l, L, degs), Degree(r, L, degs);
      if op.Star? then m + n else if m > n then m else n
  }

  /** No multiplication in e goes beyond degree 3. */
  predicate Low(e: Expr, L: Loop, degs: map<string, nat>) {
    match e
    case Num(_) => true
    case Id(_) => true
    case Neg(e) => Low(e, L, degs)
    case Bin(op, l, r) => Low(l, L, degs) && Low(r, L, degs) && (op.Star? ==> Degree(e, L, degs) <= 3)
  }

  /** The degrees of the first p targets; an accumulator is one above what it adds. */
  function Degrees(L: Loop, p: nat): map<string, nat>
    requires p <= |L.body|
  {
    if p == 0 then map[] else
      var degs := Degrees(L, p - 1);
      degs[L.body[p - 1].x := match KindOf(L, p - 1)
                              case Simple(rhs) => Degree(rhs, L, degs)
                              case AccPlus(rhs) => Degree(rhs, L, degs) + 1
                              case AccMul(_, _) => 0]
  }

  /** Right-hand sides read the loop variable, names the loop leaves alone, and names assigned earlier
    * in the body that are not multiplied up; factors are constant; no product exceeds degree 3. */
  ghost predicate Regular(L: Loop) {
    forall p :: 0 <= p < |L.body| ==> RegularAt(L, p)
  }

  ghost predicate RegularAt(L: Loop, p: nat)
    requires p < |L.body|
  {
    var k := KindOf(L, p);
    if k.AccMul? then
      L.var_ !in Reads(k.factor) && Reads(k.factor) !! L.Targets()
    else
      Low(k.rhs, L, Degrees(L, p)) &&
      forall q :: 0 <= q < |L.body| && L.body[q].x in Reads(k.rhs) ==> q <= p && !KindOf(L, q).AccMul?
  }

  /** What a value with this degree looks like. */
  ghost predicate Poly(f: SymF, d: nat) { f.Valid() && (f.Form? ==> !f.hasGeo && Below(f.poly, d + 1)) }

  lemma {:induction false} RowsBelow(p: seq<real>, q: seq<real>, i: nat, m: nat, n: nat)
    requires i <= |p| == |q| && Below(p, m + 1) && Below(q, n + 1)
    ensures Below(Rows(p, q, i), m + n + 1)
  {
    if i > 0 {
      RowsBelow(p, q, i - 1, m, n);
      if p[i - 1] != 0.0 {
        RowBelow(Rows(p, q, i - 1), p[i - 1], q, i - 1, |p| - (i - 1), m, n);
      }
    }
  }

  lemma {:induction false} RowBelow(acc: seq<real>, c: real, q: seq<real>, i: nat, j: nat, m: nat, n: nat)
    requires i + j <= |acc| && j <= |q| && i <= m && Below(acc, m + n + 1) && Below(q, n + 1)
    ensures Below(Row(acc, c, q, i, j), m + n + 1)
  {
    if j > 0 {
      RowBelow(acc, c, q, i, j - 1, m, n);
      Units(c);
    }
  }

  lemma MulPoly(a: SymF, b: SymF, m: nat, n: nat)
    requires Poly(a, m) && Poly(b, n) && m + n <= 3
    ensures Poly(SvMul(a, b), m + n) && MulFits(a, b)
  {
    if a.Form? && b.Form? { RowsBelow(a.poly, b.poly, 4, m, n); }
  }

  /** The forms of the names e reads are right at point i in the given state. */
  ghost predicate Right(L: Loop, forms: map<string, SymF>, degs: map<string, nat>, used: set<string>, env: Env,
                        i: real, pow: Power) {
    (forall x :: x in forms ==> forms[x].Valid()) && Get(env, L.var_) == i && L.var_ !in degs &&
    (forall x :: x in used && x in forms ==>
       Get(env, x) == SvEval(forms[x], i, pow) && x in degs && Poly(forms[x], degs[x])) &&
    (forall x :: x in L.facts && x !in L.Targets() && x != L.var_ ==> Get(env, x) == L.facts[x])
  }

  lemma CombineRight(op: Op, a: SymF, b: SymF, m: nat, n: nat, i: real, pow: Power, x: real, y: real)
    requires Poly(a, m) && Poly(b, n) && (op.Star? ==> m + n <= 3)
    requires (a.Form? ==> SvEval(a, i, pow) == x) && (b.Form? ==> SvEval(b, i, pow) == y)
    ensures Poly(Combine(op, a, b), if op.Star? then m + n else if m > n then m else n)
    ensures Combine(op, a, b).Form? ==> SvEval(Combine(op, a, b), i, pow) == Calculate(op, x, y)
  {
    hide SvEval, SvAdd, SvMul, SvNeg, Times, At;
    if a.Form? && b.Form? {
      match op
      case Plus => AddPoly(a, b, m, n, i, pow);
      case Minus =>
        NegPoly(b, n, i, pow);
        AddPoly(a, SvNeg(b), m, n, i, pow);
      case Star =>
        MulPoly(a, b, m, n);
        if SvMul(a, b).Form? { MulEval(a, b, i, pow); }
        TimesIs(x, y);
      case _ =>
    }
  }

  /** A form found for e has e's value and degree. */
  lemma {:induction false} SymRight(e: Expr, L: Loop, forms: map<string, SymF>, degs: map<string, nat>,
                                    used: set<string>, env: Env, i: real, pow: Power)
    requires Right(L, forms, degs, used, env, i, pow) && Low(e, L, degs) && Reads(e) <= used
    ensures Poly(SymFromAst(e, L, forms), Degree(e, L, degs))
    ensures SymFromAst(e, L, forms).Form? ==> SvEval(SymFromAst(e, L, forms), i, pow) == Value(e, env)
  {
    hide SvEval, SvAdd, SvMul, SvNeg, Times, At, Calculate, Combine;
    match e
    case Num(v) => ConstEval(v, i, pow);
    case Id(x) =>
      ConstEval(if x in L.facts then L.facts[x] else 0.0, i, pow);
      assert x in Reads(e);
    case Neg(d) =>
      SymRight(d, L, forms, degs, used, env, i, pow);
      NegPoly(SymFromAst(d, L, forms), Degree(d, L, degs), i, pow);
    case Bin(op, l, r) =>
      SymRight(l, L, forms, degs, used, env, i, pow);
      SymRight(r, L, forms, degs, used, env, i, pow);
      CombineRight(op, SymFromAst(l, L, forms), SymFromAst(r, L, forms), Degree(l, L, degs), Degree(r, L, degs), i, pow,
                   Value(l, env), Value(r, env));
  }

  lemma NegPoly(a: SymF, n: nat, i: real, pow: Power)
    requires Poly(a, n)
    ensures Poly(SvNeg(a), n) && (SvNeg(a).Form? <==> a.Form?)
    ensures a.Form? ==> SvEval(SvNeg(a), i, pow) == -SvEval(a, i, pow)
  {
    if a.Form? { NegEval(a, i, pow); }
  }

  lemma AddPoly(a: SymF, b: SymF, m: nat, n: nat, i: real, pow: Power)
    requires Poly(a, m) && Poly(b, n) && a.Form? && b.Form?
    ensures var f := SvAdd(a, b);
            f.Form? && Poly(f, if m > n then m else n) && SvEval(f, i, pow) == SvEval(a, i, pow) + SvEval(b, i, pow)
  {
    AddEval(a, b, i, pow);
  }

  // ----- what a resolved form must satisfy -----

  /** f gives p's target after every turn. */
  ghost predicate Represents(L: Loop, env: Env, p: nat, f: SymF, pow: Power)
    requires p < |L.body|
  {
    forall n: nat :: RepresentsAt(L, env, p, f, pow, n)
  }

  ghost predicate RepresentsAt(L: Loop, env: Env, p: nat, f: SymF, pow: Power, n: nat)
    requires p < |L.body|
  {
    Get(After(L, env, n + 1), L.body[p].x) == SvEval(f, L.a + n as real, pow)
  }

  /** v(i) = v0 c^(i - a), one factor short of the value after turn i. */
  ghost predicate Geometric(L: Loop, p: nat, f: SymF, v0: real, c: real, pow: Power)
    requires p < |L.body|
  {
    forall n: nat :: SvEval(f, L.a + n as real, pow) == Times(v0, Pow(c, n))
  }

  ghost predicate Resolved(L: Loop, env: Env, p: nat, f: SymF, pow: Power)
    requires p < |L.body|
  {
    var k := KindOf(L, p);
    if k.AccMul? then L.body[p].x in L.facts && k.c != 0.0 && Geometric(L, p, f, L.facts[L.body[p].x], k.c, pow)
    else Represents(L, env, p, f, pow) && L.body[p].x in Degrees(L, p + 1) && Poly(f, Degrees(L, p + 1)[L.body[p].x])
  }

  lemma {:induction false} DegreesOf(L: Loop, p: nat)
    requires p <= |L.body| && L.Distinct()
    ensures Degrees(L, p).Keys <= L.Targets() && L.var_ !in Degrees(L, p)
    ensures forall q :: 0 <= q < p ==>
            L.body[q].x in Degrees(L, p) && Degrees(L, p)[L.body[q].x] == Degrees(L, q + 1)[L.body[q].x]
  {
    hide Degree, KindOf, Degrees;
    DegreesStep(L, p);
    if p > 0 {
      DegreesOf(L, p - 1);
      assert L.body[p - 1] in L.body;
    }
  }

  lemma DegreesStep(L: Loop, p: nat)
    requires p <= |L.body|
    ensures if p == 0 then Degrees(L, p) == map[] else
              var x := L.body[p - 1].x;
              x in Degrees(L, p) && Degrees(L, p) == Degrees(L, p - 1)[x := Degrees(L, p)[x]]
  {
    hide Degree, KindOf;
  }

  /** Names the loop leaves alone keep their values. */
  lemma {:induction false} AfterFrame(L: Loop, env: Env, n: nat, x: string)
    requires x !in L.Targets() && x != L.var_
    ensures (x in After(L, env, n) <==> x in env) && Get(After(L, env, n), x) == Get(env, x)
  {
    if n > 0 {
      AfterFrame(L, env, n - 1, x);
      BodyFrame(L, |L.body|, Enter(L, After(L, env, n - 1), n - 1), x);
    }
  }

  /** The state in which statement p runs on turn n. */
  function Before(L: Loop, env: Env, n: nat, p: nat): Env
    requires p <= |L.body|
  {
    RunBody(L, p, Enter(L, After(L, env, n), n))
  }

  /** What statement p sees on turn n: the variable, untouched names, this turn's values of the targets
    * before it, last turn's values of the others. */
  lemma TurnState(L: Loop, env: Env, n: nat, p: nat)
    requires L.Distinct() && p < |L.body| && FactsHold(L.facts, env)
    ensures Get(Before(L, env, n, p), L.var_) == L.a + n as real
    ensures forall x :: x in L.facts && x !in L.Targets() && x != L.var_ ==> Get(Before(L, env, n, p), x) == L.facts[x]
    ensures forall q :: 0 <= q < p ==> Get(Before(L, env, n, p), L.body[q].x) == Get(After(L, env, n + 1), L.body[q].x)
    ensures Get(Before(L, env, n, p), L.body[p].x) == Get(After(L, env, n), L.body[p].x)
    ensures Get(After(L, env, n + 1), L.body[p].x) == Value(L.body[p].e, Before(L, env, n, p))
  {
    var start := Enter(L, After(L, env, n), n);
    assert forall q :: 0 <= q < |L.body| ==> L.body[q] in L.body;
    BodyFrame(L, p, start, L.var_);
    BodyFrame(L, p, start, L.body[p].x);
    BodyValue(L, |L.body|, p, start);
    forall x | x in L.facts && x !in L.Targets() && x != L.var_ ensures Get(Before(L, env, n, p), x) == L.facts[x] {
      BodyFrame(L, p, start, x);
      AfterFrame(L, env, n, x);
    }
    forall q | 0 <= q < p ensures Get(Before(L, env, n, p), L.body[q].x) == Get(After(L, env, n + 1), L.body[q].x) {
      BodyValue(L, p, q, start);
      BodyValue(L, |L.body|, q, start);
    }
  }

  /** The forms resolved so far, by name. */
  ghost predicate Bindings(L: Loop, forms: map<string, SymF>, ready: seq<SymF>) {
    |ready| == |L.body| && (forall p :: 0 <= p < |ready| ==> ready[p].Valid()) &&
    (forall p :: 0 <= p < |ready| ==> (L.body[p].x in forms <==> ready[p].Form?)) &&
    (forall p :: 0 <= p < |ready| && ready[p].Form? ==> forms[L.body[p].x] == ready[p]) &&
    (forall x :: x in forms ==> x in L.Targets() && forms[x].Valid())
  }

  ghost predicate AllResolved(L: Loop, env: Env, ready: seq<SymF>, pow: Power)
    requires |ready| == |L.body|
  {
    forall p :: 0 <= p < |ready| && ready[p].Form? ==> Resolved(L, env, p, ready[p], pow)
  }

  /** An earlier target's form is right for a later statement of the same turn. */
  lemma EarlierRight(L: Loop, env: Env, p: nat, q: nat, f: SymF, n: nat, pow: Power)
    requires L.Distinct() && FactsHold(L.facts, env) && q < p < |L.body| && !KindOf(L, q).AccMul? &&
             Resolved(L, env, q, f, pow)
    ensures var x := L.body[q].x; Get(Before(L, env, n, p), x) == SvEval(f, L.a + n as real, pow)
    ensures var x := L.body[q].x; x in Degrees(L, p) && Poly(f, Degrees(L, p)[x])
  {
    hide SvEval, Degrees, Before, Poly;
    TurnState(L, env, n, p);
    DegreesOf(L, p);
    assert RepresentsAt(L, env, q, f, pow, n);
  }

  /** The right-hand side of a simple assignment or what an accumulator adds is read right on every
    * turn. */
  lemma RhsRight(L: Loop, env: Env, p: nat, forms: map<string, SymF>, ready: seq<SymF>, n: nat, pow: Power)
    requires L.Distinct() && Regular(L) && FactsHold(L.facts, env) && p < |L.body| && !KindOf(L, p).AccMul?
    requires Bindings(L, forms, ready) && AllResolved(L, env, ready, pow) && ready[p].Fail?
    ensures var rhs := KindOf(L, p).rhs;
            Right(L, forms, Degrees(L, p), Reads(rhs), Before(L, env, n, p), L.a + n as real, pow) &&
            Low(rhs, L, Degrees(L, p))
  {
    hide SvEval, Low, Degrees, Resolved, KindOf, Before, Poly;
    var rhs := KindOf(L, p).rhs;
    assert RegularAt(L, p);
    TurnState(L, env, n, p);
    DegreesOf(L, p);
    forall x | x in Reads(rhs) && x in forms
      ensures Get(Before(L, env, n, p), x) == SvEval(forms[x], L.a + n as real, pow) && x in Degrees(L, p) &&
              Poly(forms[x], Degrees(L, p)[x])
    {
      var q := IndexOfTarget(L, x);
      assert q != p;
      EarlierRight(L, env, p, q, ready[q], n, pow);
    }
  }

  lemma IndexOfTarget(L: Loop, x: string) returns (q: nat)
    requires x in L.Targets()
    ensures q < |L.body| && L.body[q].x == x
  {
    var s :| s in L.body && s.x == x;
    q :| 0 <= q < |L.body| && L.body[q] == s;
  }

  /** An accumulator holds its first value plus everything added so far. */
  lemma {:induction false} Accumulated(L: Loop, env: Env, p: nat, forms: map<string, SymF>, ready: seq<SymF>, n: nat,
                                       pow: Power)
    requires L.Distinct() && Regular(L) && FactsHold(L.facts, env) && p < |L.body| && KindOf(L, p).AccPlus? &&
             L.body[p].x in L.facts
    requires Bindings(L, forms, ready) && AllResolved(L, env, ready, pow) && ready[p].Fail?
    requires SymFromAst(KindOf(L, p).rhs, L, forms).Form?
    ensures var d := SymFromAst(KindOf(L, p).rhs, L, forms);
            Get(After(L, env, n), L.body[p].x) == L.facts[L.body[p].x] + SumOf(d, pow, L.a, n)
  {
    hide SvEval, Low, Degrees, Before, Right, AllResolved, Bindings, RunBody;
    if n > 0 {
      var k := KindOf(L, p);
      Accumulated(L, env, p, forms, ready, n - 1, pow);
      RhsRight(L, env, p, forms, ready, n - 1, pow);
      SymRight(k.rhs, L, forms, Degrees(L, p), Reads(k.rhs), Before(L, env, n - 1, p), L.a + (n - 1) as real, pow);
      TurnState(L, env, n - 1, p);
      ClassifiedValue(L.body[p], L.facts, Before(L, env, n - 1, p));
    }
  }

  lemma SimpleResolved(L: Loop, env: Env, p: nat, forms: map<string, SymF>, ready: seq<SymF>, pow: Power)
    requires L.Distinct() && Regular(L) && FactsHold(L.facts, env) && p < |L.body| && KindOf(L, p).Simple?
    requires Bindings(L, forms, ready) && AllResolved(L, env, ready, pow) && ready[p].Fail?
    requires SymFromAst(KindOf(L, p).rhs, L, forms).Form?
    ensures Resolved(L, env, p, SymFromAst(KindOf(L, p).rhs, L, forms), pow)
  {
    hide RepresentsAt, AllResolved, SymFromAst, Poly, Degree, KindOf, FactsHold, Regular;
    forall n: nat ensures RepresentsAt(L, env, p, SymFromAst(KindOf(L, p).rhs, L, forms), pow, n) {
      SimpleTurn(L, env, p, forms, ready, n, pow);
    }
    RhsPoly(L, env, p, forms, ready, pow);
  }

  lemma SimpleTurn(L: Loop, env: Env, p: nat, forms: map<string, SymF>, ready: seq<SymF>, n: nat, pow: Power)
    requires L.Distinct() && Regular(L) && FactsHold(L.facts, env) && p < |L.body| && KindOf(L, p).Simple?
    requires Bindings(L, forms, ready) && AllResolved(L, env, ready, pow) && ready[p].Fail?
    requires SymFromAst(KindOf(L, p).rhs, L, forms).Form?
    ensures RepresentsAt(L, env, p, SymFromAst(KindOf(L, p).rhs, L, forms), pow, n)
  {
    hide SvEval, Low, Before, Right, AllResolved, RunBody, After, SymFromAst, Poly, Degree, Classify;
    hide FactsHold, Regular, Degrees, L.Distinct;
    var rhs := KindOf(L, p).rhs;
    RhsRight(L, env, p, forms, ready, n, pow);
    SymRight(rhs, L, forms, Degrees(L, p), Reads(rhs), Before(L, env, n, p), L.a + n as real, pow);
    TurnState(L, env, n, p);
    ClassifiedValue(L.body[p], L.facts, Before(L, env, n, p));
  }

  /** The form found for a right-hand side has its degree. */
  lemma RhsPoly(L: Loop, env: Env, p: nat, forms: map<string, SymF>, ready: seq<SymF>, pow: Power)
    requires L.Distinct() && Regular(L) && FactsHold(L.facts, env) && p < |L.body| && !KindOf(L, p).AccMul?
    requires Bindings(L, forms, ready) && AllResolved(L, env, ready, pow) && ready[p].Fail?
    ensures var rhs := KindOf(L, p).rhs; Poly(SymFromAst(rhs, L, forms), Degree(rhs, L, Degrees(L, p)))
  {
    var rhs := KindOf(L, p).rhs;
    RhsRight(L, env, p, forms, ready, 0, pow);
    SymRight(rhs, L, forms, Degrees(L, p), Reads(rhs), Before(L, env, 0, p), L.a + 0.0, pow);
  }

  lemma AccPlusResolved(L: Loop, env: Env, p: nat, forms: map<string, SymF>, ready: seq<SymF>, cs: SymF, pow: Power)
    requires L.Distinct() && Regular(L) && FactsHold(L.facts, env) && p < |L.body| && KindOf(L, p).AccPlus? &&
             L.body[p].x in L.facts
    requires Bindings(L, forms, ready) && AllResolved(L, env, ready, pow) && ready[p].Fail?
    requires SymFromAst(KindOf(L, p).rhs, L, forms).Form? && cs.Valid() && cs.Form? && !cs.hasGeo
    requires forall d: nat :: Below(SymFromAst(KindOf(L, p).rhs, L, forms).poly, d) ==> Below(cs.poly, d + 1)
    requires forall n: nat :: SvEval(cs, L.a - 1.0 + n as real, pow) ==
               SumOf(SymFromAst(KindOf(L, p).rhs, L, forms), pow, L.a, n)
    ensures Resolved(L, env, p, SvAdd(SvConst(L.facts[L.body[p].x]), cs), pow)
  {
    var rhs, v0 := KindOf(L, p).rhs, L.facts[L.body[p].x];
    var d, f := SymFromAst(rhs, L, forms), SvAdd(SvConst(v0), cs);
    hide SvEval, Low, Before, Right, AllResolved, Bindings, RunBody, After, SumOf;
    forall n: nat ensures RepresentsAt(L, env, p, f, pow, n) {
      Accumulated(L, env, p, forms, ready, n + 1, pow);
      assert L.a - 1.0 + (n + 1) as real == L.a + n as real;
      AddEval(SvConst(v0), cs, L.a + n as real, pow);
      ConstEval(v0, L.a + n as real, pow);
    }
    RhsPoly(L, env, p, forms, ready, pow);
    var m := Degree(rhs, L, Degrees(L, p));
    assert Below(d.poly, m + 1) && Below(cs.poly, m + 1 + 1);
  }

  lemma AccMulResolved(L: Loop, env: Env, p: nat, pow: Power)
    requires PowLaws(pow) && p < |L.body| && KindOf(L, p).AccMul? && KindOf(L, p).c != 0.0 && L.body[p].x in L.facts
    ensures Resolved(L, env, p, SvGeoVal(L.facts[L.body[p].x], KindOf(L, p).c, L.a, pow), pow)
  {
    hide SvEval, Times, Pow, SvGeoVal;
    var v0, c := L.facts[L.body[p].x], KindOf(L, p).c;
    forall n: nat ensures SvEval(SvGeoVal(v0, c, L.a, pow), L.a + n as real, pow) == Times(v0, Pow(c, n)) {
      GeoValEval(v0, c, L.a, pow, n);
    }
  }

  /** Really running a multiplication multiplies once per turn. */
  lemma {:induction false} Multiplied(L: Loop, env: Env, p: nat, n: nat)
    requires L.Distinct() && Regular(L) && FactsHold(L.facts, env) && p < |L.body| && KindOf(L, p).AccMul? &&
             L.body[p].x in L.facts
    ensures Get(After(L, env, n), L.body[p].x) == Times(L.facts[L.body[p].x], Pow(KindOf(L, p).c, n))
  {
    hide Times, RunBody, Before;
    var k, v0 := KindOf(L, p), L.facts[L.body[p].x];
    if n == 0 {
      Units(v0);
    } else {
      Multiplied(L, env, p, n - 1);
      assert RegularAt(L, p);
      TurnState(L, env, n - 1, p);
      var here := Before(L, env, n - 1, p);
      ClassifiedValue(L.body[p], L.facts, here);
      FactorFixed(L, env, p, n - 1);
      Assoc(v0, Pow(k.c, n - 1), k.c);
      Commute(Pow(k.c, n - 1), k.c);
    }
  }

  lemma FactorFixed(L: Loop, env: Env, p: nat, n: nat)
    requires L.Distinct() && Regular(L) && FactsHold(L.facts, env) && p < |L.body| && KindOf(L, p).AccMul?
    ensures Value(KindOf(L, p).factor, Before(L, env, n, p)) == KindOf(L, p).c
  {
    var k, start := KindOf(L, p), Enter(L, After(L, env, n), n);
    assert RegularAt(L, p);
    assert forall q :: 0 <= q < |L.body| ==> L.body[q] in L.body;
    forall x | x in Reads(k.factor) ensures Get(Before(L, env, n, p), x) == Get(env, x) {
      BodyFrame(L, p, start, x);
      AfterFrame(L, env, n, x);
    }
    ValueReads(k.factor, Before(L, env, n, p), env);
    ClassifiedValue(L.body[p], L.facts, env);
    FoldNumberSound(k.factor, L.facts, env);
  }

  // ----- the resolution loop -----

  /** Bindings for the forms found among the first k statements. */
  function ReadyForms(L: Loop, ready: seq<SymF>, k: nat): (m: map<string, SymF>)
    requires k <= |ready| == |L.body| && forall p :: 0 <= p < |ready| ==> ready[p].Valid()
    ensures forall x :: x in m ==> m[x].Valid()
    ensures forall x :: x in m ==> x in L.Targets()
  {
    if k == 0 then map[] else
      assert L.body[k - 1] in L.body;
      var m := ReadyForms(L, ready, k - 1);
      if ready[k - 1].Form? then m[L.body[k - 1].x := ready[k - 1]] else m
  }

  lemma {:induction false} ReadyUpto(L: Loop, ready: seq<SymF>, k: nat)
    requires k <= |ready| == |L.body| && L.Distinct() && forall p :: 0 <= p < |ready| ==> ready[p].Valid()
    ensures var m := ReadyForms(L, ready, k);
            (forall p :: 0 <= p < |ready| ==> (L.body[p].x in m <==> p < k && ready[p].Form?)) &&
            (forall p :: 0 <= p < k && ready[p].Form? ==> m[L.body[p].x] == ready[p])
  {
    if k > 0 { ReadyUpto(L, ready, k - 1); }
  }

  /** Every form found is right, from whatever state the loop starts. */
  ghost predicate FormsRight(L: Loop, ready: seq<SymF>, pow: Power)
    requires |ready| == |L.body|
  {
    Regular(L) ==> forall env :: FactsHold(L.facts, env) ==> AllResolved(L, env, ready, pow)
  }

  /** Multiplications by a nonzero constant always get a form. */
  predicate MulReady(L: Loop, ready: seq<SymF>, p: nat)
    requires p < |ready| == |L.body|
  {
    KindOf(L, p).AccMul? && KindOf(L, p).c != 0.0 ==> ready[p].Form?
  }

  predicate Seeded(L: Loop) { forall p :: 0 <= p < |L.body| && !KindOf(L, p).Simple? ==> L.body[p].x in L.facts }

  // ----- which loops are sure to fold -----

  /** Sums, differences and products only. */
  predicate Plain(e: Expr) {
    match e
    case Num(_) => true
    case Id(_) => true
    case Neg(e) => Plain(e)
    case Bin(op, l, r) => (op.Plus? || op.Minus? || op.Star?) && Plain(l) && Plain(r)
  }

  /** Is the target of statement i read by another statement's right-hand side? */
  predicate Needed(L: Loop, i: nat)
    requires i < |L.body|
  {
    exists k :: 0 <= k < |L.body| && k != i && !KindOf(L, k).AccMul? && L.body[i].x in Reads(KindOf(L, k).rhs)
  }

  /** x is a name statement p may read: the variable, a known name, or a target assigned before p. */
  ghost predicate Readable(L: Loop, p: nat, x: string) {
    x == L.var_ || (x in L.facts && x !in L.Targets()) || exists q :: 0 <= q < p && q < |L.body| && L.body[q].x == x
  }

  /** A sum nobody else reads may be of degree 4, any other of degree 3. */
  ghost predicate FoldableAt(L: Loop, p: nat)
    requires p < |L.body|
  {
    var k := KindOf(L, p);
    !k.AccMul? ==>
      Plain(k.rhs) && (forall x :: x in Reads(k.rhs) ==> Readable(L, p, x)) &&
      (k.AccPlus? ==> Degree(k.rhs, L, Degrees(L, p)) <= 2 || !Needed(L, p))
  }

  /** The regular loops over known names that the fold never declines. */
  ghost predicate Foldable(L: Loop) {
    0 < |L.body| <= 16 && L.Distinct() && Seeded(L) && Regular(L) && forall p :: 0 <= p < |L.body| ==> FoldableAt(L, p)
  }

  /** In a foldable loop a statement is left without a form only if nobody needs it. */
  ghost predicate Settled(L: Loop, ready: seq<SymF>, p: nat)
    requires p < |ready| == |L.body|
  {
    Foldable(L) ==> KindOf(L, p).AccMul? || ready[p].Form? || (KindOf(L, p).AccPlus? && !Needed(L, p))
  }

  lemma {:induction false} FormFound(e: Expr, L: Loop, forms: map<string, SymF>)
    requires Plain(e) && L.Distinct() && forall x :: x in forms ==> forms[x].Valid() && x in L.Targets()
    requires forall x :: x in Reads(e) ==>
               if x in forms then forms[x].Form? && !forms[x].hasGeo
               else x == L.var_ || (x in L.facts && x !in L.Targets())
    ensures var f := SymFromAst(e, L, forms); f.Form? && !f.hasGeo
  {
    match e
    case Num(_) =>
    case Id(x) => assert x in Reads(e);
    case Neg(d) => FormFound(d, L, forms);
    case Bin(_, l, r) =>
      FormFound(l, L, forms);
      FormFound(r, L, forms);
  }

  /** In a foldable loop a right-hand side has a form once the statements before it are settled. */
  lemma RhsFound(L: Loop, ready: seq<SymF>, p: nat, pow: Power)
    requires Foldable(L) && p < |ready| == |L.body| && ready[p].Fail? && !KindOf(L, p).AccMul?
    requires (forall q :: 0 <= q < |ready| ==> ready[q].Valid()) && FormsRight(L, ready, pow)
    requires forall q :: 0 <= q < p ==> Settled(L, ready, q)
    ensures var rhs := KindOf(L, p).rhs;
            var f := SymFromAst(rhs, L, ReadyForms(L, ready, |ready|));
            f.Form? && Poly(f, Degree(rhs, L, Degrees(L, p)))
  {
    hide SvEval, KindOf, Degree, Low, SymFromAst, Degrees, Regular;
    var rhs, forms := KindOf(L, p).rhs, ReadyForms(L, ready, |ready|);
    ReadyUpto(L, ready, |ready|);
    assert FoldableAt(L, p);
    assert AllResolved(L, L.facts, ready, pow) by { assert FactsHold(L.facts, L.facts); }
    forall x | x in Reads(rhs)
      ensures if x in forms then forms[x].Form? && !forms[x].hasGeo
              else x == L.var_ || (x in L.facts && x !in L.Targets())
    {
      assert Readable(L, p, x);
      if q :| 0 <= q < p && L.body[q].x == x {
        TargetFormed(L, ready, p, q);
        assert forms[x] == ready[q] && Resolved(L, L.facts, q, ready[q], pow);
      }
    }
    FormFound(rhs, L, forms);
    RhsPoly(L, L.facts, p, forms, ready, pow);
  }

  /** A target read later in the body is settled by having a form, and is no multiplication. */
  lemma TargetFormed(L: Loop, ready: seq<SymF>, p: nat, q: nat)
    requires Foldable(L) && q < p < |ready| == |L.body| && Settled(L, ready, q)
    requires !KindOf(L, p).AccMul? && L.body[q].x in Reads(KindOf(L, p).rhs)
    ensures ready[q].Form? && !KindOf(L, q).AccMul?
  {
    assert RegularAt(L, p);
    assert Needed(L, q);
  }

  /** One turn of resolve_forms: try to find a form for statement i. */
  method ResolveOne(L: Loop, ready: seq<SymF>, i: nat, pow: Power) returns (f: SymF)
    requires PowLaws(pow) && L.Distinct() && Seeded(L) && i < |ready| == |L.body| && ready[i].Fail?
    requires (forall p :: 0 <= p < |ready| ==> ready[p].Valid()) && FormsRight(L, ready, pow)
    ensures f.Valid() && FormsRight(L, ready[i := f], pow) && MulReady(L, ready[i := f], i)
    ensures (forall q :: 0 <= q < i ==> Settled(L, ready, q)) ==> Settled(L, ready[i := f], i)
    ensures KindOf(L, i).Simple? ==> f == SymFromAst(KindOf(L, i).rhs, L, ReadyForms(L, ready, |ready|))
  {
    hide Regular, SvEval, SumOf, PowLaws, AllResolved, KindOf, SymFromAst, Resolved, L.Distinct, Foldable, Needed;
    hide Degree;
    OneSettles(L, ready, i, pow);
    var forms := ReadyForms(L, ready, |ready|);
    ReadyUpto(L, ready, |ready|);
    var k := KindOf(L, i);
    f := Fail;
    match k {
      case Simple(rhs) =>
        f := SymFromAst(rhs, L, forms);
        if f.Form? {
          forall env | Regular(L) && FactsHold(L.facts, env) ensures Resolved(L, env, i, f, pow) {
            SimpleResolved(L, env, i, forms, ready, pow);
          }
        }
      case AccPlus(rhs) =>
        var d := SymFromAst(rhs, L, forms);
        if d.Form? {
          var cs := SvCumsum(d, L.a);
          if cs.Form? {
            f := SvAdd(SvConst(L.facts[L.body[i].x]), cs);
            forall env | Regular(L) && FactsHold(L.facts, env) ensures Resolved(L, env, i, f, pow) {
              AccPlusResolved(L, env, i, forms, ready, cs, pow);
            }
          }
        }
      case AccMul(_, c) =>
        f := SvGeoVal(L.facts[L.body[i].x], c, L.a, pow);
        if c != 0.0 {
          forall env | Regular(L) && FactsHold(L.facts, env) ensures Resolved(L, env, i, f, pow) {
            AccMulResolved(L, env, i, pow);
          }
        }
    }
    forall env | Regular(L) && FactsHold(L.facts, env) ensures AllResolved(L, env, ready[i := f], pow) {
      OneMore(L, env, ready, i, f, pow);
    }
  }

  /** What ResolveOne finds in a foldable loop. */
  lemma OneSettles(L: Loop, ready: seq<SymF>, i: nat, pow: Power)
    requires i < |ready| == |L.body| && ready[i].Fail? && L.Distinct()
    requires (forall q :: 0 <= q < |ready| ==> ready[q].Valid()) && FormsRight(L, ready, pow)
    ensures Foldable(L) && (forall q :: 0 <= q < i ==> Settled(L, ready, q)) && !KindOf(L, i).AccMul? ==>
            var d := SymFromAst(KindOf(L, i).rhs, L, ReadyForms(L, ready, |ready|));
            d.Form? && !d.hasGeo && (KindOf(L, i).AccPlus? ==> d.poly[3] == 0.0 || !Needed(L, i))
  {
    hide Regular, SvEval, SymFromAst, KindOf, Degree, Needed;
    if Foldable(L) && (forall q :: 0 <= q < i ==> Settled(L, ready, q)) && !KindOf(L, i).AccMul? {
      RhsFound(L, ready, i, pow);
      assert FoldableAt(L, i);
    }
  }

  lemma OneMore(L: Loop, env: Env, ready: seq<SymF>, i: nat, f: SymF, pow: Power)
    requires i < |ready| == |L.body| && AllResolved(L, env, ready, pow) && (f.Form? ==> Resolved(L, env, i, f, pow))
    ensures AllResolved(L, env, ready[i := f], pow)
  {
  }

  // ----- bodies without accumulators: the passes as functions -----

  predicate AllSimple(L: Loop) { forall p :: 0 <= p < |L.body| ==> KindOf(L, p).Simple? }

  predicate Forms(L: Loop, ready: seq<SymF>) {
    |ready| == |L.body| && forall p :: 0 <= p < |ready| ==> ready[p].Valid()
  }

  /** One pass from statement i on; each statement sees the forms found so far, later ones included. */
  function Sweep(L: Loop, ready: seq<SymF>, i: nat): (r: seq<SymF>)
    requires AllSimple(L) && Forms(L, ready) && i <= |ready|
    ensures Forms(L, r)
    decreases |ready| - i
  {
    if i == |ready| then ready
    else if ready[i].Form? then Sweep(L, ready, i + 1)
    else Sweep(L, ready[i := SymFromAst(KindOf(L, i).rhs, L, ReadyForms(L, ready, |ready|))], i + 1)
  }

  function Passes(L: Loop, ready: seq<SymF>, n: nat): (r: seq<SymF>)
    requires AllSimple(L) && Forms(L, ready)
    ensures Forms(L, r)
    decreases n
  {
    if n == 0 then ready else Passes(L, Sweep(L, ready, 0), n - 1)
  }

  /** The forms found for a body without accumulators. */
  function Resolution(L: Loop): (r: seq<SymF>)
    requires AllSimple(L)
    ensures Forms(L, r)
  {
    Passes(L, seq(|L.body|, _ => Fail), |L.body| + 1)
  }

  /** A pass that finds nothing is the last one. */
  lemma {:induction false} PassesDone(L: Loop, ready: seq<SymF>, n: nat)
    requires AllSimple(L) && Forms(L, ready) && Sweep(L, ready, 0) == ready
    ensures Passes(L, ready, n) == ready
    decreases n
  {
    if n > 0 { PassesDone(L, ready, n - 1); }
  }

  /** A pass changes nothing before its start, and no form already found. */
  lemma {:induction false} SweepKeeps(L: Loop, ready: seq<SymF>, i: nat)
    requires AllSimple(L) && Forms(L, ready) && i <= |ready|
    ensures forall p :: 0 <= p < |ready| && (p < i || ready[p].Form?) ==> Sweep(L, ready, i)[p] == ready[p]
    decreases |ready| - i
  {
    hide SymFromAst, KindOf;
    if i < |ready| {
      var next := if ready[i].Form? then ready
                  else ready[i := SymFromAst(KindOf(L, i).rhs, L, ReadyForms(L, ready, |ready|))];
      SweepKeeps(L, next, i + 1);
    }
  }

  /** Statement i has no form on the forms found. */
  predicate Stuck(L: Loop, ready: seq<SymF>, i: nat)
    requires AllSimple(L) && Forms(L, ready) && i < |ready|
  {
    SymFromAst(KindOf(L, i).rhs, L, ReadyForms(L, ready, |ready|)).Fail?
  }

  lemma {:induction false} SweepStuck(L: Loop, ready: seq<SymF>, i: nat)
    requires AllSimple(L) && Forms(L, ready) && i <= |ready| && Sweep(L, ready, i) == ready
    ensures forall j :: i <= j < |ready| && ready[j].Fail? ==> Stuck(L, ready, j)
    decreases |ready| - i
  {
    hide SymFromAst, KindOf;
    if i < |ready| {
      if ready[i].Fail? {
        var f := SymFromAst(KindOf(L, i).rhs, L, ReadyForms(L, ready, |ready|));
        SweepKeeps(L, ready[i := f], i + 1);
        assert ready[i := f] == ready;
      }
      SweepStuck(L, ready, i + 1);
    }
  }

  /** How many of the first k statements have a form. */
  function Found(ready: seq<SymF>, k: nat): nat
    requires k <= |ready|
  {
    if k == 0 then 0 else Found(ready, k - 1) + (if ready[k - 1].Form? then 1 else 0)
  }

  lemma {:induction false} FoundGrows(was: seq<SymF>, now: seq<SymF>, k: nat)
    requires k <= |was| == |now| && forall p :: 0 <= p < k && was[p].Form? ==> now[p] == was[p]
    ensures Found(was, k) <= Found(now, k) <= k
    ensures was[..k] != now[..k] ==> Found(was, k) < Found(now, k)
  {
    if k > 0 {
      FoundGrows(was, now, k - 1);
      assert was[..k] == was[..k - 1] + [was[k - 1]] && now[..k] == now[..k - 1] + [now[k - 1]];
    }
  }

  lemma {:induction false} PassesStuck(L: Loop, ready: seq<SymF>, n: nat)
    requires AllSimple(L) && Forms(L, ready) && n + Found(ready, |ready|) > |ready|
    ensures Sweep(L, Passes(L, ready, n), 0) == Passes(L, ready, n)
    decreases n
  {
    hide AllSimple, Sweep;
    FoundGrows(ready, ready, |ready|);
    var next := Sweep(L, ready, 0);
    SweepKeeps(L, ready, 0);
    FoundGrows(ready, next, |ready|);
    assert ready[..|ready|] == ready && next[..|ready|] == next;
    if next == ready { PassesDone(L, ready, n); } else { PassesStuck(L, next, n - 1); }
  }

  /** The passes stop only when no statement left has a form on the forms found. */
  lemma ResolutionStuck(L: Loop, i: nat)
    requires AllSimple(L) && i < |L.body| && Resolution(L)[i].Fail?
    ensures SymFromAst(L.body[i].e, L, ReadyForms(L, Resolution(L), |L.body|)).Fail?
  {
    hide AllSimple, Sweep, Passes, SymFromAst;
    var none := seq(|L.body|, _ => Fail);
    PassesStuck(L, none, |L.body| + 1);
    SweepStuck(L, Resolution(L), 0);
    assert Stuck(L, Resolution(L), i) && KindOf(L, i) == Simple(L.body[i].e) by { SimpleRhs(L, i); }
  }

  lemma SimpleRhs(L: Loop, i: nat)
    requires AllSimple(L) && i < |L.body|
    ensures KindOf(L, i) == Simple(L.body[i].e)
  {
  }

  /** The pass, gone on with at statement i, will find `end`. */
  ghost predicate SweepsTo(L: Loop, ready: seq<SymF>, i: nat, end: seq<SymF>) {
    AllSimple(L) ==> Forms(L, ready) && i <= |ready| && Sweep(L, ready, i) == end
  }

  /** And n more passes will. */
  ghost predicate PassesTo(L: Loop, ready: seq<SymF>, n: nat, end: seq<SymF>) {
    AllSimple(L) ==> Forms(L, ready) && Passes(L, ready, n) == end
  }

  lemma SweepsOn(L: Loop, ready: seq<SymF>, i: nat, f: SymF, end: seq<SymF>)
    requires Forms(L, ready) && i < |ready| && f.Valid() && SweepsTo(L, ready, i, end)
    requires if ready[i].Form? then f == ready[i]
             else KindOf(L, i).Simple? ==> f == SymFromAst(KindOf(L, i).rhs, L, ReadyForms(L, ready, |ready|))
    ensures SweepsTo(L, ready[i := f], i + 1, end)
  {
    hide SymFromAst, KindOf;
    if ready[i].Form? { assert ready[i := f] == ready; }
  }

  /** At the end of a pass from `was`: on to the next, or done when nothing was found. */
  lemma PassOver(L: Loop, was: seq<SymF>, ready: seq<SymF>, swept: seq<SymF>, n: nat, end: seq<SymF>)
    requires Forms(L, was) && Forms(L, ready) && n > 0 && PassesTo(L, was, n, end)
    requires SweepsTo(L, was, 0, swept) && SweepsTo(L, ready, |ready|, swept)
    ensures PassesTo(L, ready, n - 1, end)
    ensures AllSimple(L) && ready == was ==> ready == end
  {
    if AllSimple(L) && ready == was { PassesDone(L, ready, n); }
  }

  /** resolve_forms: passes over the body until nothing new is found. */
  method ResolveForms(L: Loop, ready: array<SymF>, pow: Power)
    requires PowLaws(pow) && L.Distinct() && Seeded(L) && ready.Length == |L.body|
    requires forall p :: 0 <= p < ready.Length ==> ready[p].Fail?
    modifies ready
    ensures Forms(L, ready[..]) && FormsRight(L, ready[..], pow)
    ensures forall p :: 0 <= p < ready.Length ==> MulReady(L, ready[..], p) && Settled(L, ready[..], p)
    ensures AllSimple(L) ==> ready[..] == Passes(L, old(ready[..]), |L.body| + 1)
  {
    hide AllSimple, KindOf, SymFromAst, Sweep, Passes, FormsRight, MulReady, Settled;
    ghost var n := ready.Length + 1;
    ghost var end := if AllSimple(L) then Passes(L, ready[..], n) else [];
    NothingFound(L, ready[..], pow);
    for pass := 0 to ready.Length + 1
      invariant Forms(L, ready[..]) && FormsRight(L, ready[..], pow) && PassesTo(L, ready[..], n - pass, end)
      invariant pass > 0 ==> forall p :: 0 <= p < ready.Length ==> MulReady(L, ready[..], p) && Settled(L, ready[..], p)
    {
      ghost var start := ready[..];
      ghost var swept := if AllSimple(L) then Sweep(L, start, 0) else [];
      var progress := ResolvePass(L, ready, pow, pass, swept);
      PassOver(L, start, ready[..], swept, n - pass, end);
      if !progress { return; }
    }
    PassesNone(L, ready[..], end);
  }

  lemma NothingFound(L: Loop, ready: seq<SymF>, pow: Power)
    requires |ready| == |L.body| && forall p :: 0 <= p < |ready| ==> ready[p].Fail?
    ensures Forms(L, ready) && FormsRight(L, ready, pow)
  {
  }

  lemma PassesNone(L: Loop, ready: seq<SymF>, end: seq<SymF>)
    requires PassesTo(L, ready, 0, end)
    ensures AllSimple(L) ==> ready == end
  {
  }

  /** One pass over the body. */
  method ResolvePass(L: Loop, ready: array<SymF>, pow: Power, ghost pass: nat, ghost swept: seq<SymF>)
    returns (progress: bool)
    requires PowLaws(pow) && L.Distinct() && Seeded(L) && ready.Length == |L.body|
    requires Forms(L, ready[..]) && FormsRight(L, ready[..], pow) && SweepsTo(L, ready[..], 0, swept)
    requires pass > 0 ==> forall p :: 0 <= p < ready.Length ==> MulReady(L, ready[..], p) && Settled(L, ready[..], p)
    modifies ready
    ensures Forms(L, ready[..]) && FormsRight(L, ready[..], pow) && SweepsTo(L, ready[..], ready.Length, swept)
    ensures forall p :: 0 <= p < ready.Length ==> MulReady(L, ready[..], p) && Settled(L, ready[..], p)
    ensures !progress ==> ready[..] == old(ready[..])
  {
    hide KindOf, SymFromAst, AllSimple, FormsRight, SweepsTo, L.Distinct, Seeded, PowLaws;
    progress := false;
    for i := 0 to ready.Length
      invariant Forms(L, ready[..]) && FormsRight(L, ready[..], pow) && SweepsTo(L, ready[..], i, swept)
      invariant forall p :: 0 <= p < ready.Length && (p < i || pass > 0) ==>
                MulReady(L, ready[..], p) && Settled(L, ready[..], p)
      invariant !progress ==> ready[..] == old(ready[..])
    {
      ghost var was := ready[..];
      if ready[i].Form? {
        assert MulReady(L, ready[..], i) && Settled(L, ready[..], i);
        SweepsOn(L, was, i, was[i], swept);
        assert was[i := was[i]] == was;
        continue;
      }
      var f := ResolveOne(L, ready[..], i, pow);
      SweepsOn(L, was, i, f, swept);
      if f.Fail? { assert was[i := f] == was; }
      ready[i] := f;
      ghost var now := was[i := f];
      assert ready[..] == now;
      forall p | 0 <= p < ready.Length && (p < i + 1 || pass > 0) ensures MulReady(L, now, p) && Settled(L, now, p) {
        if p != i { assert MulReady(L, was, p) && Settled(L, was, p); }
      }
      if f.Form? { progress := true; }
    }
  }

  // ----- the whole loop -----

  datatype Result = Folds(finals: seq<real>) | Declines

  /** What the folded loop emits: one load per target, then the variable one past the end. */
  function Emitted(L: Loop, env: Env, finals: seq<real>, k: nat): Env
    requires k <= |finals| == |L.body|
  {
    if k == 0 then env else Emitted(L, env, finals, k - 1)[L.body[k - 1].x := finals[k - 1]]
  }

  function FoldedEnd(L: Loop, b: real, env: Env, finals: seq<real>): Env
    requires |finals| == |L.body|
  {
    Emitted(L, env, finals, |finals|)[L.var_ := b + 1.0]
  }

  /** The end is a whole number of steps away. */
  predicate Whole(a: real, b: real) { (b - a).Floor as real == b - a }

  /** A multiplication whose missing last factor does not show. */
  predicate Harmless(L: Loop, p: nat)
    requires p < |L.body|
  {
    var k := KindOf(L, p);
    k.AccMul? && L.body[p].x in L.facts ==> L.facts[L.body[p].x] == 0.0 || k.c == 1.0 || k.c == 0.0
  }

  /** v is what p's target holds after n turns, just when p is harmless. */
  ghost predicate FinalRight(L: Loop, env: Env, p: nat, n: nat, v: real)
    requires p < |L.body|
  {
    v == Get(After(L, env, n), L.body[p].x) <==> Harmless(L, p)
  }

  /** b is the value of the variable on turn number n - 1, in a run the facts are true of. */
  ghost predicate LastTurn(L: Loop, env: Env, b: real, n: nat) {
    Regular(L) && FactsHold(L.facts, env) && n > 0 && b == L.a + n as real - 1.0
  }

  ghost predicate FinalsRight(L: Loop, finals: seq<real>, b: real, k: nat)
    requires k <= |finals| <= |L.body|
  {
    forall env, n: nat :: LastTurn(L, env, b, n) ==>
      FinalsRightFrom(L, env, finals, n, k)
  }

  ghost predicate FinalsRightFrom(L: Loop, env: Env, finals: seq<real>, n: nat, k: nat)
    requires k <= |finals| <= |L.body|
  {
    forall p :: 0 <= p < k ==> FinalRight(L, env, p, n, finals[p])
  }

  /** The value of a resolved form at the last turn. */
  lemma FormFinal(L: Loop, env: Env, p: nat, f: SymF, n: nat, b: real, pow: Power)
    requires L.Distinct() && Regular(L) && FactsHold(L.facts, env) && p < |L.body| && f.Form? &&
             Resolved(L, env, p, f, pow)
    requires n > 0 && b == L.a + n as real - 1.0
    ensures FinalRight(L, env, p, n, SvEval(f, b, pow))
  {
    hide SvEval, After, Regular, Times, Pow;
    var k := KindOf(L, p);
    assert b == L.a + (n - 1) as real;
    if k.AccMul? {
      var v0 := L.facts[L.body[p].x];
      Multiplied(L, env, p, n);
      assert SvEval(f, b, pow) == Times(v0, Pow(k.c, n - 1));
      OneFactorShort(v0, k.c, n);
    } else {
      assert RepresentsAt(L, env, p, f, pow, n - 1);
    }
  }

  lemma {:induction false} PowNonzero(c: real, n: nat)
    requires c != 0.0
    ensures Pow(c, n) != 0.0
  {
    if n > 0 { PowNonzero(c, n - 1); }
  }

  /** Multiplying once too few times shows unless the value is zero or the factor is one. */
  lemma OneFactorShort(v0: real, c: real, n: nat)
    requires c != 0.0 && n > 0
    ensures Times(v0, Pow(c, n - 1)) == Times(v0, Pow(c, n)) <==> v0 == 0.0 || c == 1.0
  {
    PowNonzero(c, n - 1);
    ShortArith(v0, c, Pow(c, n - 1), Pow(c, n));
  }

  lemma ShortArith(v: real, c: real, t: real, u: real)
    requires t != 0.0 && u == Times(c, t)
    ensures Times(v, t) == Times(v, u) <==> v == 0.0 || c == 1.0
  {
    if Times(v, t) == Times(v, u) && v != 0.0 {
      Commute(v, t);
      Commute(v, u);
      SameFactor(t, u, v);
      Units(t);
      SameFactor(1.0, c, t);
    }
  }

  /** An accumulator without a form, summed numerically. */
  lemma SumFinal(L: Loop, env: Env, p: nat, ready: seq<SymF>, n: nat, s: real, pow: Power)
    requires L.Distinct() && Regular(L) && FactsHold(L.facts, env) && p < |L.body| && KindOf(L, p).AccPlus? &&
             L.body[p].x in L.facts
    requires |ready| == |L.body| && (forall q :: 0 <= q < |ready| ==> ready[q].Valid()) &&
             AllResolved(L, env, ready, pow) && ready[p].Fail?
    requires var d := SymFromAst(KindOf(L, p).rhs, L, ReadyForms(L, ready, |ready|));
             d.Form? && s == SumOf(d, pow, L.a, n)
    ensures FinalRight(L, env, p, n, L.facts[L.body[p].x] + s)
  {
    ReadyUpto(L, ready, |ready|);
    Accumulated(L, env, p, ReadyForms(L, ready, |ready|), ready, n, pow);
  }

  /** What is summed is never geometric. */
  lemma SummandPoly(L: Loop, env: Env, p: nat, ready: seq<SymF>, pow: Power)
    requires L.Distinct() && Regular(L) && FactsHold(L.facts, env) && p < |L.body| && KindOf(L, p).AccPlus?
    requires |ready| == |L.body| && (forall q :: 0 <= q < |ready| ==> ready[q].Valid()) &&
             AllResolved(L, env, ready, pow) && ready[p].Fail?
    ensures var d := SymFromAst(KindOf(L, p).rhs, L, ReadyForms(L, ready, |ready|)); d.Form? ==> !d.hasGeo
  {
    ReadyUpto(L, ready, |ready|);
    RhsPoly(L, env, p, ReadyForms(L, ready, |ready|), ready, pow);
  }

  lemma ZeroFactor(L: Loop, env: Env, p: nat, n: nat)
    requires L.Distinct() && Regular(L) && FactsHold(L.facts, env) && p < |L.body| && KindOf(L, p).AccMul? &&
             L.body[p].x in L.facts
    requires KindOf(L, p).c == 0.0 && n > 0
    ensures FinalRight(L, env, p, n, 0.0)
  {
    Multiplied(L, env, p, n);
    Units(Pow(0.0, n - 1));
    Units(L.facts[L.body[p].x]);
  }

  lemma ProductUnread(L: Loop, i: nat)
    requires Regular(L) && i < |L.body| && KindOf(L, i).AccMul?
    ensures !Needed(L, i)
  {
    hide KindOf;
    forall k | 0 <= k < |L.body| && !KindOf(L, k).AccMul? ensures L.body[i].x !in Reads(KindOf(L, k).rhs) {
      assert RegularAt(L, k);
    }
  }

  /** A foldable loop has a final value for every target. */
  lemma FinalFound(L: Loop, ready: seq<SymF>, i: nat, pow: Power)
    requires Foldable(L) && i < |ready| == |L.body| && ready[i].Fail?
    requires forall q :: 0 <= q < |ready| ==> Settled(L, ready, q)
    requires (forall q :: 0 <= q < |ready| ==> ready[q].Valid()) && FormsRight(L, ready, pow)
    ensures !Needed(L, i) && !KindOf(L, i).Simple?
    ensures KindOf(L, i).AccPlus? ==> SymFromAst(KindOf(L, i).rhs, L, ReadyForms(L, ready, |ready|)).Form?
  {
    hide KindOf, SymFromAst, Degree, SvEval;
    assert Settled(L, ready, i);
    if KindOf(L, i).AccMul? {
      ProductUnread(L, i);
    } else {
      RhsFound(L, ready, i, pow);
    }
  }

  /** The final value of statement i's target. */
  method FinalOf(L: Loop, b: real, ready: seq<SymF>, i: nat, pow: Power) returns (r: Folded<real>)
    requires PowLaws(pow) && L.Distinct() && Seeded(L) && i < |ready| == |L.body| && L.a <= b
    requires (forall p :: 0 <= p < |ready| ==> ready[p].Valid()) && FormsRight(L, ready, pow) && MulReady(L, ready, i)
    ensures r.Known? ==> forall env, n: nat :: LastTurn(L, env, b, n) ==>
              FinalRight(L, env, i, n, r.v)
    ensures Foldable(L) && (forall p :: 0 <= p < |ready| ==> Settled(L, ready, p)) ==> r.Known?
    ensures ready[i].Form? ==> r == Known(SvEval(ready[i], b, pow))
    ensures ready[i].Fail? && KindOf(L, i).Simple? ==> r.Unknown?
  {
    hide Regular, SvEval, SumOf, KindOf, SymFromAst, Resolved, L.Distinct, Harmless, FinalRight, Foldable;
    if ready[i].Fail? && Foldable(L) && forall p :: 0 <= p < |ready| ==> Settled(L, ready, p) {
      FinalFound(L, ready, i, pow);
    }
    if ready[i].Form? {
      var v := EvalForm(ready[i], b, pow);
      forall env, n: nat | LastTurn(L, env, b, n) ensures FinalRight(L, env, i, n, v) {
        FormFinal(L, env, i, ready[i], n, b, pow);
      }
      return Known(v);
    }
    if Needed(L, i) { return Unknown; }
    hide AllResolved;
    var k, x := KindOf(L, i), L.body[i].x;
    match k {
      case Simple(_) => return Unknown;
      case AccPlus(rhs) =>
        var d := SymFromAst(rhs, L, ReadyForms(L, ready, |ready|));
        if d.Fail? { return Unknown; }
        var s := SvSum(d, L.a, b, pow);
        forall env, n: nat | LastTurn(L, env, b, n)
          ensures FinalRight(L, env, i, n, L.facts[x] + s)
        {
          SummandPoly(L, env, i, ready, pow);
          assert b - L.a + 1.0 == n as real;
          SumFinal(L, env, i, ready, n, s, pow);
        }
        return Known(L.facts[x] + s);
      case AccMul(_, c) =>
        var v := Times(L.facts[x], pow(c, b - L.a + 1.0));
        assert c == 0.0 ==> v == 0.0 by { Units(L.facts[x]); }
        assert MulReady(L, ready, i);
        forall env, n: nat | LastTurn(L, env, b, n) ensures FinalRight(L, env, i, n, v) {
          ZeroFactor(L, env, i, n);
        }
        return Known(v);
    }
  }

  /** The folded code stores each target's final value. */
  lemma {:induction false} EmittedAt(L: Loop, env: Env, finals: seq<real>, k: nat)
    requires k <= |finals| == |L.body| && L.Distinct()
    ensures forall x :: x in Emitted(L, env, finals, k) <==> x in env || exists p :: 0 <= p < k && L.body[p].x == x
    ensures forall p :: 0 <= p < k ==> Emitted(L, env, finals, k)[L.body[p].x] == finals[p]
  {
    if k > 0 { EmittedAt(L, env, finals, k - 1); }
  }

  /** Names the loop does not assign are untouched by it. */
  lemma {:induction false} EmittedElsewhere(L: Loop, env: Env, finals: seq<real>, k: nat, x: string)
    requires k <= |finals| == |L.body| && x in env && x !in L.Targets()
    ensures x in Emitted(L, env, finals, k) && Emitted(L, env, finals, k)[x] == env[x]
  {
    if k > 0 {
      EmittedElsewhere(L, env, finals, k - 1, x);
      assert L.body[k - 1] in L.body;
    }
  }

  lemma {:induction false} BodyKeys(L: Loop, p: nat, env: Env)
    requires p <= |L.body|
    ensures forall x :: x in RunBody(L, p, env) <==> x in env || exists q :: 0 <= q < p && L.body[q].x == x
  {
    if p > 0 { BodyKeys(L, p - 1, env); }
  }

  lemma {:induction false} AfterKeys(L: Loop, env: Env, n: nat)
    requires n > 0
    ensures forall x :: x in After(L, env, n) <==>
            x in env || x == L.var_ || exists q :: 0 <= q < |L.body| && L.body[q].x == x
  {
    var start := Enter(L, After(L, env, n - 1), n - 1);
    BodyKeys(L, |L.body|, start);
    if n > 1 { AfterKeys(L, env, n - 1); }
  }

  /** The folded code and the loop leave the same values everywhere but in the loop variable. */
  ghost predicate SameEnds(L: Loop, b: real, env: Env, finals: seq<real>)
    requires |finals| == |L.body|
  {
    FoldedEnd(L, b, env, finals) - {L.var_} == LoopEnd(L, b, env) - {L.var_}
  }

  /** They do just when every multiplication is harmless; the variable the folded code always leaves one
    * too high. */
  ghost predicate EndsAgree(L: Loop, b: real, env: Env, finals: seq<real>)
    requires |finals| == |L.body|
  {
    var F, E := FoldedEnd(L, b, env, finals), LoopEnd(L, b, env);
    (SameEnds(L, b, env, finals) <==> forall p :: 0 <= p < |L.body| ==> Harmless(L, p)) &&
    L.var_ in F && L.var_ in E && F[L.var_] == E[L.var_] + 1.0
  }

  lemma FoldedEnds(L: Loop, b: real, env: Env, finals: seq<real>)
    requires L.Distinct() && Regular(L) && FactsHold(L.facts, env) && |finals| == |L.body| && L.a <= b && Whole(L.a, b)
    requires FinalsRight(L, finals, b, |finals|)
    ensures EndsAgree(L, b, env, finals)
  {
    hide Regular, Harmless, After, RunBody, KindOf, Emitted, FactsHold, L.Distinct;
    var F, E := FoldedEnd(L, b, env, finals), LoopEnd(L, b, env);
    LastValue(L, env, Trips(L.a, b));
    TargetsAgree(L, b, env, finals);
    var F', E' := F - {L.var_}, E - {L.var_};
    if forall p :: 0 <= p < |L.body| ==> Harmless(L, p) {
      OthersAgree(L, b, env, finals);
    } else {
      var p :| 0 <= p < |L.body| && !Harmless(L, p);
      assert F'[L.body[p].x] != E'[L.body[p].x];
    }
  }

  lemma TargetsAgree(L: Loop, b: real, env: Env, finals: seq<real>)
    requires L.Distinct() && Regular(L) && FactsHold(L.facts, env) && |finals| == |L.body| && L.a <= b && Whole(L.a, b)
    requires FinalsRight(L, finals, b, |finals|)
    ensures forall p :: 0 <= p < |L.body| ==>
              (var x, F, E := L.body[p].x, FoldedEnd(L, b, env, finals), LoopEnd(L, b, env);
               x != L.var_ && x in F && x in E && (F[x] == E[x] <==> Harmless(L, p)))
  {
    hide Regular, Harmless, After, RunBody, KindOf, Emitted;
    var n := Trips(L.a, b);
    assert FinalsRightFrom(L, env, finals, n, |finals|) by { assert LastTurn(L, env, b, n); }
    EmittedAt(L, env, finals, |finals|);
    AfterKeys(L, env, n);
    forall p | 0 <= p < |L.body|
      ensures var x, F, E := L.body[p].x, FoldedEnd(L, b, env, finals), LoopEnd(L, b, env);
              x != L.var_ && x in F && x in E && (F[x] == E[x] <==> Harmless(L, p))
    {
      assert L.body[p] in L.body;
      assert FinalRight(L, env, p, n, finals[p]);
    }
  }

  lemma OthersAgree(L: Loop, b: real, env: Env, finals: seq<real>)
    requires L.Distinct() && |finals| == |L.body| && L.a <= b
    requires forall p :: 0 <= p < |L.body| ==>
               (var x, F, E := L.body[p].x, FoldedEnd(L, b, env, finals), LoopEnd(L, b, env);
                x in F && x in E && F[x] == E[x])
    ensures FoldedEnd(L, b, env, finals) - {L.var_} == LoopEnd(L, b, env) - {L.var_}
  {
    hide After, RunBody, Emitted;
    var n := Trips(L.a, b);
    EmittedAt(L, env, finals, |finals|);
    AfterKeys(L, env, n);
    var F, E := FoldedEnd(L, b, env, finals) - {L.var_}, LoopEnd(L, b, env) - {L.var_};
    forall x | x in F ensures x in E && F[x] == E[x] {
      if x !in L.Targets() {
        AfterFrame(L, env, n, x);
        if x in env { EmittedElsewhere(L, env, finals, |finals|, x); }
      }
    }
    assert F.Keys == E.Keys;
  }

  lemma LastValue(L: Loop, env: Env, n: nat)
    requires n > 0 && L.Distinct()
    ensures L.var_ in After(L, env, n) && After(L, env, n)[L.var_] == L.a + (n - 1) as real
  {
    assert forall q :: 0 <= q < |L.body| ==> L.body[q] in L.body;
    BodyFrame(L, |L.body|, Enter(L, After(L, env, n - 1), n - 1), L.var_);
  }

  /** What the fold gives for a body without accumulators. */
  ghost function SimpleFold(L: Loop, b: real, pow: Power): Result
    requires AllSimple(L)
  {
    var n, forms := |L.body|, Resolution(L);
    if b < L.a || n == 0 || !L.Distinct() || n > 16 || exists i :: 0 <= i < n && forms[i].Fail? then Declines
    else Folds(seq(n, i requires 0 <= i < n => SvEval(forms[i], b, pow)))
  }

  lemma OneMissing(L: Loop, b: real, pow: Power, forms: seq<SymF>, i: nat)
    requires AllSimple(L) && i < |L.body| && forms == Resolution(L) && forms[i].Fail?
    ensures SimpleFold(L, b, pow) == Declines
  {
    hide Resolution;
  }

  lemma AllFound(L: Loop, b: real, pow: Power, forms: seq<SymF>, finals: seq<real>)
    requires AllSimple(L) && forms == Resolution(L)
    requires L.a <= b && 0 < |L.body| <= 16 && L.Distinct() && |finals| == |L.body|
    requires forall k :: 0 <= k < |L.body| ==> forms[k].Form? && finals[k] == SvEval(forms[k], b, pow)
    ensures SimpleFold(L, b, pow) == Folds(finals)
  {
    hide Resolution, SvEval;
    assert seq(|L.body|, i requires 0 <= i < |L.body| => SvEval(forms[i], b, pow)) == finals;
  }

  lemma SimpleFoldIs(L: Loop, b: real, pow: Power)
    requires AllSimple(L)
    ensures b < L.a || L.body == [] || !L.Distinct() || |L.body| > 16 ==> SimpleFold(L, b, pow) == Declines
  {
  }

  /** The checks before the resolution: distinct targets, few enough, accumulators with a known start. */
  method Admitted(L: Loop, b: real) returns (ok: bool)
    ensures ok <==> L.a <= b && 0 < |L.body| <= 16 && L.Distinct() && Seeded(L)
  {
    if b < L.a || L.body == [] { return false; }
    var n := |L.body|;
    for i := 0 to n
      invariant forall p, q :: 0 <= p < q < i ==> L.body[p].x != L.body[q].x
      invariant forall p :: 0 <= p < i ==> L.body[p].x != L.var_
    {
      assert L.body[i] in L.body;
      if L.body[i].x == L.var_ { return false; }
      for k := 0 to i
        invariant forall p :: 0 <= p < k ==> L.body[p].x != L.body[i].x
      {
        if L.body[k].x == L.body[i].x { return false; }
      }
    }
    if n > 16 { return false; }
    for i := 0 to n
      invariant forall p :: 0 <= p < i && !KindOf(L, p).Simple? ==> L.body[p].x in L.facts
    {
      if !KindOf(L, i).Simple? && L.body[i].x !in L.facts { return false; }
    }
    return true;
  }

  /** The final values of all targets, unless one of them is unknown. */
  method FinalValues(L: Loop, b: real, forms: seq<SymF>, pow: Power) returns (r: Result)
    requires PowLaws(pow) && L.Distinct() && Seeded(L) && L.a <= b && Forms(L, forms) && FormsRight(L, forms, pow)
    requires forall p :: 0 <= p < |forms| ==> MulReady(L, forms, p) && Settled(L, forms, p)
    ensures r.Folds? ==> |r.finals| == |L.body| && FinalsRight(L, r.finals, b, |L.body|)
    ensures Foldable(L) ==> r.Folds?
    ensures AllSimple(L) && r.Folds? ==>
              forall k :: 0 <= k < |L.body| ==> forms[k].Form? && r.finals[k] == SvEval(forms[k], b, pow)
    ensures AllSimple(L) && r.Declines? ==> exists i :: 0 <= i < |forms| && forms[i].Fail?
  {
    hide SvEval, Regular, KindOf, L.Distinct, FormsRight, MulReady, Foldable, FinalsRight;
    var finals := [];
    NoFinals(L, b);
    for i := 0 to |L.body|
      invariant |finals| == i && FinalsRight(L, finals, b, i)
      invariant AllSimple(L) ==> forall k :: 0 <= k < i ==> forms[k].Form? && finals[k] == SvEval(forms[k], b, pow)
    {
      var v := FinalOf(L, b, forms, i, pow);
      if v.Unknown? { return Declines; }
      FinalsGrow(L, finals, b, i, v.v);
      finals := finals + [v.v];
    }
    return Folds(finals);
  }

  lemma NoFinals(L: Loop, b: real)
    ensures FinalsRight(L, [], b, 0)
  {
  }

  /** try_emit_symbolic_loop on a range loop whose bounds and step fold to a, b and 1. It never
    * declines a foldable loop, and when it folds a regular loop whose end is whole steps away, the ends
    * agree as EndsAgree says. */
  method TryFoldLoop(L: Loop, b: real, pow: Power) returns (r: Result)
    requires PowLaws(pow)
    ensures r.Folds? ==> |r.finals| == |L.body| > 0 && L.Distinct() && L.a <= b
    ensures r.Folds? && Regular(L) && Whole(L.a, b) ==> forall env :: FactsHold(L.facts, env) ==>
              EndsAgree(L, b, env, r.finals)
    ensures Foldable(L) && L.a <= b ==> r.Folds?
    ensures AllSimple(L) ==> r == SimpleFold(L, b, pow)
  {
    hide SvEval, Regular, FoldedEnd, LoopEnd, SimpleFold, L.Distinct;
    if AllSimple(L) { SimpleFoldIs(L, b, pow); }
    var ok := Admitted(L, b);
    if !ok { return Declines; }
    var n := |L.body|;
    var ready := new SymF[n](_ => Fail);
    assert ready[..] == seq(n, _ => Fail);
    ResolveForms(L, ready, pow);
    r := FinalValues(L, b, ready[..], pow);
    if r.Folds? {
      forall env | Regular(L) && Whole(L.a, b) && FactsHold(L.facts, env) ensures EndsAgree(L, b, env, r.finals) {
        FoldedEnds(L, b, env, r.finals);
      }
      if AllSimple(L) { AllFound(L, b, pow, ready[..], r.finals); }
    } else if AllSimple(L) {
      var i :| 0 <= i < n && ready[i].Fail?;
      OneMissing(L, b, pow, ready[..], i);
    }
  }

  lemma FinalsGrow(L: Loop, finals: seq<real>, b: real, i: nat, v: real)
    requires i == |finals| < |L.body| && FinalsRight(L, finals, b, i)
    requires forall env, n: nat :: LastTurn(L, env, b, n) ==>
               FinalRight(L, env, i, n, v)
    ensures FinalsRight(L, finals + [v], b, i + 1)
  {
    hide Regular, FinalRight;
    forall env, n: nat | LastTurn(L, env, b, n)
      ensures FinalsRightFrom(L, env, finals + [v], n, i + 1)
    {
      assert FinalsRightFrom(L, env, finals, n, i);
    }
  }

  /** for i = 1, 2 { y = x; x = i } */
  const LATER_READ := Loop([Bind("y", Id("x"), false), Bind("x", Id("i"), false)], "i", 1.0, map[])

  /** The second pass gives y the form the first one found for x. */
  lemma LaterReadFolds(pow: Power)
    ensures AllSimple(LATER_READ) && SimpleFold(LATER_READ, 2.0, pow) == Folds([2.0, 2.0])
  {
    var L := LATER_READ;
    assert KindOf(L, 0) == Simple(Id("x")) && KindOf(L, 1) == Simple(Id("i"));
    assert L.Targets() == {"x", "y"} by {
      assert L.body[0] in L.body && L.body[1] in L.body;
    }
    var none, one, both: seq<SymF> := [Fail, Fail], [Fail, SvLoop()], [SvLoop(), SvLoop()];
    assert seq(2, _ => Fail) == none;
    FirstPass(L, none, one);
    SecondPass(L, one, both);
    assert Sweep(L, both, 2) == both && Sweep(L, both, 1) == both && Sweep(L, both, 0) == both;
    assert Passes(L, both, 0) == both && Passes(L, both, 1) == both;
    assert Passes(L, one, 2) == both && Passes(L, none, 3) == both;
    LoopAt(2.0, pow);
    assert [SvEval(both[0], 2.0, pow), SvEval(both[1], 2.0, pow)] == [2.0, 2.0];
  }

  lemma LoopAt(i: real, pow: Power)
    ensures SvEval(SvLoop(), i, pow) == i
  {
    CubicAt([0.0, 1.0, 0.0, 0.0], i);
  }

  lemma FirstPass(L: Loop, none: seq<SymF>, one: seq<SymF>)
    requires L == LATER_READ && AllSimple(L) && none == [Fail, Fail] && one == [Fail, SvLoop()]
    requires L.Targets() == {"x", "y"}
    ensures Sweep(L, none, 0) == one
  {
    assert ReadyForms(L, none, 0) == map[] && ReadyForms(L, none, 1) == map[] && ReadyForms(L, none, 2) == map[];
    assert none[0 := Fail] == none && none[1 := SvLoop()] == one;
    assert Sweep(L, one, 2) == one && Sweep(L, none, 1) == one;
  }

  lemma SecondPass(L: Loop, one: seq<SymF>, both: seq<SymF>)
    requires L == LATER_READ && AllSimple(L) && one == [Fail, SvLoop()] && both == [SvLoop(), SvLoop()]
    ensures Sweep(L, one, 0) == both
  {
    assert ReadyForms(L, one, 0) == map[] && ReadyForms(L, one, 1) == map[];
    assert ReadyForms(L, one, 2) == map["x" := SvLoop()];
    assert one[0 := SvLoop()] == both;
    assert Sweep(L, both, 2) == both && Sweep(L, both, 1) == both;
  }

  /** Reading a name assigned later in the body must be ruled out: for { y = x; x = i } the compiler
    * folds, and leaves y this turn's x, while the loop stores last turn's. */
  lemma LaterReadsGoWrong(env: Env, pow: Power)
    ensures AllSimple(LATER_READ) && SimpleFold(LATER_READ, 2.0, pow) == Folds([2.0, 2.0]) && !Regular(LATER_READ)
    ensures var F, E := FoldedEnd(LATER_READ, 2.0, env, [2.0, 2.0]), LoopEnd(LATER_READ, 2.0, env);
            "y" in F && "y" in E && F["y"] == 2.0 && E["y"] == 1.0
  {
    LaterReadFolds(pow);
    LaterReadRuns(LATER_READ, env);
  }

  lemma LaterReadRuns(L: Loop, env: Env)
    requires L == LATER_READ
    ensures !Regular(L)
    ensures var F, E := FoldedEnd(L, 2.0, env, [2.0, 2.0]), LoopEnd(L, 2.0, env);
            "y" in F && "y" in E && F["y"] == 2.0 && E["y"] == 1.0
  {
    var finals := [2.0, 2.0];
    assert KindOf(L, 0) == Simple(Id("x"));
    assert L.body[1].x in Reads(KindOf(L, 0).rhs);
    assert !RegularAt(L, 0);
    var e0 := Enter(L, env, 0);
    TwoStatements(L, e0);
    var s1 := After(L, env, 1);
    assert s1 == RunBody(L, 2, e0) by { assert After(L, env, 0) == env; }
    assert s1["x"] == 1.0;
    var e1 := Enter(L, s1, 1);
    TwoStatements(L, e1);
    var s2 := After(L, env, 2);
    assert s2 == RunBody(L, 2, e1);
    assert s2["y"] == 1.0;
    assert Trips(1.0, 2.0) == 2;
    assert Emitted(L, env, finals, 1)["y"] == 2.0;
    assert Emitted(L, env, finals, 2)["y"] == 2.0;
    assert FoldedEnd(L, 2.0, env, finals)["y"] == 2.0;
  }

  lemma TwoStatements(L: Loop, env: Env)
    requires |L.body| == 2
    ensures var mid := env[L.body[0].x := Value(L.body[0].e, env)];
            RunBody(L, 2, env) == mid[L.body[1].x := Value(L.body[1].e, mid)]
  {
    assert RunBody(L, 0, env) == env;
    assert RunBody(L, 1, env) == env[L.body[0].x := Value(L.body[0].e, env)];
  }
}
