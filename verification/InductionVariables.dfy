/** Strength reduction of `var + c` and `var * c` in range loops: codegen_for.c:293-330, 734-750,
  * 818-912 and the substitution in codegen_expr.c:690-720. Numbers are exact integers. */
module InductionVariables {
  import opened Bodies
  import opened Sequences

  /** What a body names: variables of the program, and the accumulators' registers. */
  datatype Slot = Name(x: string) | Acc(i: nat)

  type E = Expr<Slot>
  type S = Stmt<Slot>

  /** Sums, products and range loops mean what they say. */
  ghost predicate Arithmetic(I: Interp) {
    (forall a, b, w :: I.apply("+", [a, b], w) == (a + b, w)) &&
    (forall a, b, w :: I.apply("*", [a, b], w) == (a * b, w)) &&
    forall s, e, t, n, cur, w :: I.turn("range", [s, e, t], n, cur, w) == (RangeTurn(s, e, t, n), w)
  }

  /** FOR_NEXT: the index starts at s and moves by t, whatever the body does to the variable. */
  function RangeTurn(s: int, e: int, t: int, n: nat): Turn {
    var c := s + n * t;
    if (t > 0 && c <= e) || (t < 0 && c >= e) then Go(c) else Stop
  }

  function Calc(op: string, a: int, b: int): int { if op == "*" then a * b else a + b }

  // ----- folding and candidates -----

  datatype Folded = Known(v: int) | Unknown

  /** try_fold_number, for sums and products. */
  function Fold(e: E, facts: map<string, int>): Folded {
    match e
    case Lit(v) => Known(v)
    case Var(Name(x)) => if x in facts then Known(facts[x]) else Unknown
    case Apply(op, args) =>
      if |args| == 2 && (op == "+" || op == "*") then
        var a, b := Fold(args[0], facts), Fold(args[1], facts);
        if a.Known? && b.Known? then Known(Calc(op, a.v, b.v)) else Unknown
      else Unknown
    case _ => Unknown
  }

  /** An accumulator stands for `var op c`. */
  datatype Iv = Iv(op: string, c: int)

  /** The loop, the facts left after invalidation, and the chosen candidates. */
  datatype Reduction = Reduction(k: string, facts: map<string, int>, ivs: seq<Iv>) {
    predicate Valid() { k !in facts && forall i :: 0 <= i < |ivs| ==> ivs[i].op == "+" || ivs[i].op == "*" }
  }

  /** The other operand of `var op other`, in either order. */
  function Other(e: E, k: string): E {
    if e.Apply? && |e.args| == 2 then
      if e.args[0] == Var(Name(k)) then e.args[1] else if e.args[1] == Var(Name(k)) then e.args[0] else e
    else e
  }

  /** Which accumulator replaces e, or -1. */
  function Chosen(e: E, R: Reduction): (i: int)
    ensures -1 <= i < |R.ivs|
  {
    if e.Apply? && |e.args| == 2 && (e.op == "+" || e.op == "*") && Other(e, R.k) != e then
      (match Fold(Other(e, R.k), R.facts)
       case Known(c) => IndexOf(R.ivs, Iv(e.op, c))
       case Unknown => -1)
    else -1
  }

  /** codegen_expression's substitution, tried at every node from the top down. */
  function Subst(e: E, R: Reduction): E {
    if Chosen(e, R) >= 0 then Var(Acc(Chosen(e, R)))
    else match e
      case Apply(op, args) => Apply(op, SubstAll(args, R))
      case Cond(c, a, b) => Cond(Subst(c, R), Subst(a, R), Subst(b, R))
      case _ => e
  }

  function SubstAll(es: seq<E>, R: Reduction): (r: seq<E>)
    ensures |r| == |es|
  {
    if es == [] then [] else SubstAll(es[..|es| - 1], R) + [Subst(es[|es| - 1], R)]
  }

  /** Statements; a nested loop is emitted without substitution. */
  function SubstStmt(s: S, R: Reduction): S {
    match s
    case Then(a, rest) => Then(SubstStmt(a, R), SubstStmt(rest, R))
    case Assign(k, e) => Assign(k, Subst(e, R))
    case Effect(e) => Effect(Subst(e, R))
    case If(c, thn, els) => If(Subst(c, R), SubstStmt(thn, R), SubstStmt(els, R))
    case Return(e) => Return(Subst(e, R))
    case _ => s
  }

  /** body_has_continue. */
  predicate HasContinue(s: S) {
    match s
    case Continue => true
    case Then(a, rest) => HasContinue(a) || HasContinue(rest)
    case If(_, thn, els) => HasContinue(thn) || HasContinue(els)
    case _ => false
  }

  predicate OnlyNames(ks: set<Slot>) { forall k :: k in ks ==> k.Name? }

  // ----- the emitted loop -----

  /** acc := var op c, for accumulators i, i + 1, .. */
  function InitFrom(R: Reduction, i: nat): S
    requires i <= |R.ivs|
    decreases |R.ivs| - i
  {
    if i == |R.ivs| then Skip
    else Then(Assign(Acc(i), Apply(R.ivs[i].op, [Var(Name(R.k)), Lit(R.ivs[i].c)])), InitFrom(R, i + 1))
  }

  function Increment(iv: Iv, step: int): int { if iv.op == "*" then iv.c * step else step }

  /** acc := acc + increment. */
  function AdvanceFrom(R: Reduction, step: int, i: nat): S
    requires i <= |R.ivs|
    decreases |R.ivs| - i
  {
    if i == |R.ivs| then Skip
    else Then(Assign(Acc(i), Apply("+", [Var(Acc(i)), Lit(Increment(R.ivs[i], step))])), AdvanceFrom(R, step, i + 1))
  }

  datatype RangeLoop = RangeLoop(start: E, end: E, step: E, body: S)

  function Original(L: RangeLoop, k: string): S {
    Then(Assign(Name(k), L.start), For("range", Name(k), [Var(Name(k)), L.end, L.step], L.body))
  }

  function Reduced(L: RangeLoop, R: Reduction, step: int): S {
    Then(Assign(Name(R.k), L.start),
         Then(InitFrom(R, 0), For("range", Name(R.k), [Var(Name(R.k)), L.end, L.step],
                                  Then(SubstStmt(L.body, R), AdvanceFrom(R, step, 0)))))
  }

  // ----- the two states -----

  type Env = map<Slot, Value>

  ghost predicate SameNames(env: Env, env': Env) {
    forall x: string :: (Name(x) in env <==> Name(x) in env') && Get(env, Name(x)) == Get(env', Name(x))
  }

  /** Every accumulator holds what it stands for when the variable is v. */
  ghost predicate Accs(env': Env, R: Reduction, v: int) {
    forall i :: 0 <= i < |R.ivs| ==> Get(env', Acc(i)) == Calc(R.ivs[i].op, v, R.ivs[i].c)
  }

  ghost predicate Facts(env: Env, R: Reduction) { forall x :: x in R.facts ==> Get(env, Name(x)) == R.facts[x] }

  ghost predicate Related(env: Env, env': Env, R: Reduction) {
    SameNames(env, env') && Accs(env', R, Get(env, Name(R.k))) && Facts(env, R)
  }

  lemma Eval2(op: string, a: E, b: E, env: Env, w: World, I: Interp)
    ensures var (x, w1) := Eval(a, env, w, I); var (y, w2) := Eval(b, env, w1, I);
            EvalAll([a, b], env, w, I) == ([x, y], w2) && Eval(Apply(op, [a, b]), env, w, I) == I.apply(op, [x, y], w2)
  {
    var one, two: seq<E> := [a], [a, b];
    assert one[..0] == [] && one[0] == a && two[..1] == one && two[1] == b;
    assert EvalAll(one[..0], env, w, I) == ([], w);
    var (x, w1) := Eval(a, env, w, I);
    assert EvalAll(one, env, w, I) == ([] + [x], w1);
    assert [] + [x] == [x];
    var (y, w2) := Eval(b, env, w1, I);
    assert EvalAll(two, env, w, I) == ([x] + [y], w2);
    assert [x] + [y] == [x, y];
  }

  /** What folds has that value, and evaluating it does nothing else. */
  lemma {:induction false} FoldSound(e: E, R: Reduction, env: Env, w: World, I: Interp)
    requires Arithmetic(I) && Facts(env, R) && Fold(e, R.facts).Known?
    ensures Eval(e, env, w, I) == (Fold(e, R.facts).v, w)
    decreases e
  {
    if e.Apply? {
      FoldSound(e.args[0], R, env, w, I);
      FoldSound(e.args[1], R, env, w, I);
      assert e.args == [e.args[0], e.args[1]];
      Eval2(e.op, e.args[0], e.args[1], env, w, I);
    }
  }

  /** `var op c` has the value of the accumulator chosen for it. */
  lemma ChosenEval(e: E, R: Reduction, env: Env, env': Env, w: World, I: Interp)
    requires Arithmetic(I) && R.Valid() && Related(env, env', R) && Chosen(e, R) >= 0
    ensures Eval(Subst(e, R), env', w, I) == Eval(e, env, w, I)
  {
    ChosenIs(e, R);
    assert Subst(e, R) == Var(Acc(Chosen(e, R)));
    hide SameNames, Chosen, Other, Fold, Subst;
    var a, b := e.args[0], e.args[1];
    assert e.args == [a, b];
    FoldSound(Other(e, R.k), R, env, w, I);
    Eval2(e.op, a, b, env, w, I);
  }

  lemma ChosenIs(e: E, R: Reduction)
    requires Chosen(e, R) >= 0
    ensures e.Apply? && |e.args| == 2 && (e.op == "+" || e.op == "*")
    ensures var other := Other(e, R.k); var f := Fold(other, R.facts);
            f.Known? && R.ivs[Chosen(e, R)] == Iv(e.op, f.v) &&
            (e.args == [Var(Name(R.k)), other] || e.args == [other, Var(Name(R.k))])
  {
    hide Fold;
    assert e.args == [e.args[0], e.args[1]];
  }

  /** A substituted expression has the value of the original. */
  lemma {:induction false} SubstEval(e: E, R: Reduction, env: Env, env': Env, w: World, I: Interp)
    requires Arithmetic(I) && R.Valid() && Related(env, env', R) && OnlyNames(Refs(e))
    ensures Eval(Subst(e, R), env', w, I) == Eval(e, env, w, I)
    decreases e, 1
  {
    if Chosen(e, R) >= 0 {
      ChosenEval(e, R, env, env', w, I);
    } else {
      hide Chosen, Arithmetic, Accs, Facts;
      match e
      case Lit(_) =>
      case Var(x) => assert x in Refs(e);
      case Apply(_, args) => SubstEvalAll(args, R, env, env', w, I);
      case Cond(c, a, b) =>
        SubstEval(c, R, env, env', w, I);
        var w1 := Eval(c, env, w, I).1;
        SubstEval(a, R, env, env', w1, I);
        SubstEval(b, R, env, env', w1, I);
    }
  }

  lemma {:induction false} SubstEvalAll(es: seq<E>, R: Reduction, env: Env, env': Env, w: World, I: Interp)
    requires Arithmetic(I) && R.Valid() && Related(env, env', R) && OnlyNames(RefsAll(es))
    ensures EvalAll(SubstAll(es, R), env', w, I) == EvalAll(es, env, w, I)
    decreases es, 0
  {
    if es != [] {
      var n := |es| - 1;
      SubstEvalAll(es[..n], R, env, env', w, I);
      SubstEval(es[n], R, env, env', EvalAll(es[..n], env, w, I).1, I);
      var rs := SubstAll(es, R);
      assert rs[..n] == SubstAll(es[..n], R) && rs[n] == Subst(es[n], R);
    }
  }

  /** e' is e, substituted or not. */
  lemma EitherEval(e: E, on: bool, R: Reduction, env: Env, env': Env, w: World, I: Interp)
    requires Arithmetic(I) && R.Valid() && Related(env, env', R) && OnlyNames(Refs(e))
    ensures Eval(if on then Subst(e, R) else e, env', w, I) == Eval(e, env, w, I)
  {
    if on {
      SubstEval(e, R, env, env', w, I);
    } else {
      forall x | x in Refs(e) ensures Get(env, x) == Get(env', x) { }
      EvalReads(e, env, env', w, I);
    }
  }

  ghost predicate Kept(r: Run<Slot>, q: Run<Slot>, R: Reduction) {
    r.flow == q.flow && r.world == q.world && Related(r.env, q.env, R)
  }

  /** The body leaves the variable and the facts alone and knows no accumulator. */
  ghost predicate Leaves(s: S, R: Reduction) {
    Name(R.k) !in Assigned(s) && (forall x :: x in R.facts ==> Name(x) !in Assigned(s)) && OnlyNames(StmtRefs(s))
  }

  /** Running a body with substitution keeps the states related. */
  lemma {:induction false} SubstExec(s: S, on: bool, R: Reduction, env: Env, env': Env, w: World, fuel: nat, I: Interp)
    requires Arithmetic(I) && R.Valid() && Related(env, env', R) && Leaves(s, R)
    ensures Kept(Exec(s, env, w, fuel, I), Exec(if on then SubstStmt(s, R) else s, env', w, fuel, I), R)
    decreases fuel, s, 1
  {
    hide Arithmetic, Subst, Related;
    match s
    case Skip =>
    case Then(a, rest) =>
      SubstExec(a, on, R, env, env', w, fuel, I);
      var r, q := Exec(a, env, w, fuel, I), Exec(if on then SubstStmt(a, R) else a, env', w, fuel, I);
      if r.flow.Next? { SubstExec(rest, on, R, r.env, q.env, r.world, fuel, I); }
    case Assign(k, e) =>
      EitherEval(e, on, R, env, env', w, I);
      StepKeeps(k, Eval(e, env, w, I).0, R, env, env');
    case Effect(e) => EitherEval(e, on, R, env, env', w, I);
    case If(c, thn, els) =>
      EitherEval(c, on, R, env, env', w, I);
      var (v, w1) := Eval(c, env, w, I);
      SubstExec(if I.truthy(v) then thn else els, on, R, env, env', w1, fuel, I);
    case While(c, body) =>
      if fuel > 0 {
        EitherEval(c, false, R, env, env', w, I);
        var (v, w1) := Eval(c, env, w, I);
        if I.truthy(v) {
          SubstExec(body, false, R, env, env', w1, fuel, I);
          var r, q := Exec(body, env, w1, fuel, I), Exec(body, env', w1, fuel, I);
          if r.flow.Next? || r.flow.Continued? { SubstExec(s, false, R, r.env, q.env, r.world, fuel - 1, I); }
        }
      }
    case For(_, _, inputs, _) =>
      SameInputs(inputs, R, env, env', w, I);
      var (vs, w1) := EvalAll(inputs, env, w, I);
      SameTurns(s, R, vs, 0, 0, env, env', w1, fuel, I);
    case Return(e) => EitherEval(e, on, R, env, env', w, I);
    case Break =>
    case Continue =>
  }

  lemma SameInputs(es: seq<E>, R: Reduction, env: Env, env': Env, w: World, I: Interp)
    requires Related(env, env', R) && OnlyNames(RefsAll(es))
    ensures EvalAll(es, env, w, I) == EvalAll(es, env', w, I)
  {
    forall x | x in RefsAll(es) ensures Get(env, x) == Get(env', x) { }
    EvalAllReads(es, env, env', w, I);
  }

  lemma StepKeeps(k: Slot, v: Value, R: Reduction, env: Env, env': Env)
    requires Related(env, env', R) && k.Name? && k.x != R.k && k.x !in R.facts
    ensures Related(env[k := v], env'[k := v], R)
  {
  }

  /** A nested loop runs unchanged on related states. */
  lemma {:induction false} SameTurns(s: S, R: Reduction, vs: seq<Value>, n: nat, cur: Value, env: Env, env': Env,
                                     w: World, fuel: nat, I: Interp)
    requires s.For? && Arithmetic(I) && R.Valid() && Related(env, env', R) && Leaves(s, R)
    ensures Kept(Turns(s, vs, n, cur, env, w, fuel, I), Turns(s, vs, n, cur, env', w, fuel, I), R)
    decreases fuel, s, 0
  {
    hide Arithmetic, Related;
    if fuel > 0 {
      var (turn, w1) := I.turn(s.kind, vs, n, cur, w);
      if !turn.Stop? {
        assert s.k in StmtRefs(s);
        StepKeeps(s.k, turn.v, R, env, env');
        if turn.Go? {
          SubstExec(s.body, false, R, env[s.k := turn.v], env'[s.k := turn.v], w1, fuel, I);
          var r, q := Exec(s.body, env[s.k := turn.v], w1, fuel, I), Exec(s.body, env'[s.k := turn.v], w1, fuel, I);
          if r.flow.Next? || r.flow.Continued? {
            SameNamesAt(r.env, q.env, R, s.k);
            SameTurns(s, R, vs, n + 1, Get(r.env, s.k), r.env, q.env, r.world, fuel - 1, I);
          }
        }
      }
    }
  }

  lemma SameNamesAt(env: Env, env': Env, R: Reduction, k: Slot)
    requires Related(env, env', R) && k.Name?
    ensures Get(env, k) == Get(env', k)
  {
  }

  lemma {:induction false} NoContinue(s: S, env: Env, w: World, fuel: nat, I: Interp)
    requires !HasContinue(s)
    ensures !Exec(s, env, w, fuel, I).flow.Continued?
    decreases fuel, s, 1
  {
    match s
    case Then(a, rest) =>
      NoContinue(a, env, w, fuel, I);
      var r := Exec(a, env, w, fuel, I);
      if r.flow.Next? { NoContinue(rest, r.env, r.world, fuel, I); }
    case If(c, thn, els) =>
      var w1 := Eval(c, env, w, I).1;
      NoContinue(thn, env, w1, fuel, I);
      NoContinue(els, env, w1, fuel, I);
    case While(c, body) =>
      if fuel > 0 {
        var w1 := Eval(c, env, w, I).1;
        var r := Exec(body, env, w1, fuel, I);
        if r.flow.Next? || r.flow.Continued? { NoContinue(s, r.env, r.world, fuel - 1, I); }
      }
    case For(_, _, inputs, _) =>
      var (vs, w1) := EvalAll(inputs, env, w, I);
      TurnsNeverContinue(s, vs, 0, 0, env, w1, fuel, I);
    case _ =>
  }

  lemma {:induction false} TurnsNeverContinue(s: S, vs: seq<Value>, n: nat, cur: Value, env: Env, w: World, fuel: nat,
                                              I: Interp)
    requires s.For?
    ensures !Turns(s, vs, n, cur, env, w, fuel, I).flow.Continued?
    decreases fuel, s, 0
  {
    if fuel > 0 {
      var (turn, w1) := I.turn(s.kind, vs, n, cur, w);
      if turn.Go? {
        var r := Exec(s.body, env[s.k := turn.v], w1, fuel, I);
        if r.flow.Next? || r.flow.Continued? {
          TurnsNeverContinue(s, vs, n + 1, Get(r.env, s.k), r.env, r.world, fuel - 1, I);
        }
      }
    }
  }

  // ----- the whole loop -----

  lemma InitOne(R: Reduction, i: nat, env: Env, w: World, I: Interp)
    requires Arithmetic(I) && R.Valid() && i < |R.ivs|
    ensures var (iv, x) := (R.ivs[i], Name(R.k));
            Eval(Apply(iv.op, [Var(x), Lit(iv.c)]), env, w, I) == (Calc(iv.op, Get(env, x), iv.c), w)
  {
    Eval2(R.ivs[i].op, Var(Name(R.k)), Lit(R.ivs[i].c), env, w, I);
  }

  /** The initialisations set every accumulator from i on. */
  lemma {:induction false} InitRuns(R: Reduction, i: nat, env: Env, w: World, fuel: nat, I: Interp)
    requires Arithmetic(I) && R.Valid() && i <= |R.ivs|
    ensures var q := Exec(InitFrom(R, i), env, w, fuel, I);
            q.flow == Next && q.world == w && SameNames(env, q.env) &&
            (forall j :: 0 <= j < |R.ivs| ==>
               Get(q.env, Acc(j)) ==
               if j < i then Get(env, Acc(j)) else Calc(R.ivs[j].op, Get(env, Name(R.k)), R.ivs[j].c))
    decreases |R.ivs| - i
  {
    hide Arithmetic, Calc, Eval;
    if i < |R.ivs| {
      InitOne(R, i, env, w, I);
      var env1 := env[Acc(i) := Calc(R.ivs[i].op, Get(env, Name(R.k)), R.ivs[i].c)];
      InitRuns(R, i + 1, env1, w, fuel, I);
    }
  }

  /** The increments move every accumulator from i on, from v to v + step. */
  lemma {:induction false} AdvanceRuns(R: Reduction, step: int, i: nat, v: int, env: Env, w: World, fuel: nat,
                                       I: Interp)
    requires Arithmetic(I) && R.Valid() && i <= |R.ivs|
    requires forall j :: i <= j < |R.ivs| ==> Get(env, Acc(j)) == Calc(R.ivs[j].op, v, R.ivs[j].c)
    requires forall j :: 0 <= j < i ==> Get(env, Acc(j)) == Calc(R.ivs[j].op, v + step, R.ivs[j].c)
    ensures var q := Exec(AdvanceFrom(R, step, i), env, w, fuel, I);
            q.flow == Next && q.world == w && SameNames(env, q.env) && Accs(q.env, R, v + step)
    decreases |R.ivs| - i
  {
    hide Arithmetic, Calc, Increment;
    if i < |R.ivs| {
      var inc := Increment(R.ivs[i], step);
      Eval2("+", Var(Acc(i)), Lit(inc), env, w, I);
      SumIs(Get(env, Acc(i)), inc, w, I);
      OneStep(R.ivs[i], v, step);
      var next := env[Acc(i) := Get(env, Acc(i)) + inc];
      AdvanceRuns(R, step, i + 1, v, next, w, fuel, I);
    }
  }

  lemma SumIs(a: int, b: int, w: World, I: Interp)
    requires Arithmetic(I)
    ensures I.apply("+", [a, b], w) == (a + b, w)
  {
  }

  lemma OneStep(iv: Iv, v: int, step: int)
    ensures Calc(iv.op, v, iv.c) + Increment(iv, step) == Calc(iv.op, v + step, iv.c)
  {
    assert v * iv.c + iv.c * step == (v + step) * iv.c;
  }

  /** What the turns leave: the same end, the same world, the same variables. */
  ghost predicate SameRun(r: Run<Slot>, q: Run<Slot>) {
    r.flow == q.flow && r.world == q.world && SameNames(r.env, q.env)
  }

  /** At the start of every turn each accumulator is `var op c` for the value the variable is about to
    * take; the body, with its substitutions, and the increments keep that. */
  lemma {:induction false} TurnsReduced(L: RangeLoop, R: Reduction, from: int, end: int, step: int, n: nat,
                                        cur: Value, env: Env, env': Env, w: World, fuel: nat, I: Interp)
    requires Arithmetic(I) && R.Valid() && Leaves(L.body, R) && !HasContinue(L.body)
    requires SameNames(env, env') && Facts(env, R) && Accs(env', R, from + n * step)
    ensures var head := [Var(Name(R.k)), L.end, L.step]; var vs := [from, end, step];
            SameRun(Turns(For("range", Name(R.k), head, L.body), vs, n, cur, env, w, fuel, I),
                    Turns(For("range", Name(R.k), head, Then(SubstStmt(L.body, R), AdvanceFrom(R, step, 0))),
                          vs, n, cur, env', w, fuel, I))
    decreases fuel
  {
    hide SubstStmt, AdvanceFrom, Leaves, HasContinue, Exec, SameNames, Accs, Facts;
    if fuel > 0 && RangeTurn(from, end, step, n).Go? {
      var v := from + n * step;
      OneTurn(L, R, step, v, env, env', w, fuel, I);
      var r := Exec(L.body, env[Name(R.k) := v], w, fuel, I);
      var q := Exec(Then(SubstStmt(L.body, R), AdvanceFrom(R, step, 0)), env'[Name(R.k) := v], w, fuel, I);
      if r.flow.Next? {
        assert v + step == from + (n + 1) * step;
        var (k, k') := (Get(r.env, Name(R.k)), Get(q.env, Name(R.k)));
        TurnsReduced(L, R, from, end, step, n + 1, k, r.env, q.env, r.world, fuel - 1, I);
        CurIrrelevant(L, R, from, end, step, n + 1, k, k', q.env, r.world, fuel - 1, I);
      }
    }
  }

  /** A range header does not look at the variable. */
  lemma CurIrrelevant(L: RangeLoop, R: Reduction, from: int, end: int, step: int, n: nat, cur: Value, cur': Value,
                      env: Env, w: World, fuel: nat, I: Interp)
    requires Arithmetic(I)
    ensures var s := For("range", Name(R.k), [Var(Name(R.k)), L.end, L.step],
                         Then(SubstStmt(L.body, R), AdvanceFrom(R, step, 0)));
            Turns(s, [from, end, step], n, cur, env, w, fuel, I) ==
            Turns(s, [from, end, step], n, cur', env, w, fuel, I)
  {
    hide Exec, SubstStmt, AdvanceFrom;
  }

  /** The body, then the increments. */
  lemma OneTurn(L: RangeLoop, R: Reduction, step: int, v: int, env: Env, env': Env, w: World, fuel: nat, I: Interp)
    requires Arithmetic(I) && R.Valid() && Leaves(L.body, R) && !HasContinue(L.body)
    requires SameNames(env, env') && Facts(env, R) && Accs(env', R, v)
    ensures var r := Exec(L.body, env[Name(R.k) := v], w, fuel, I);
            var q := Exec(Then(SubstStmt(L.body, R), AdvanceFrom(R, step, 0)), env'[Name(R.k) := v], w, fuel, I);
            SameRun(r, q) && !r.flow.Continued? && (r.flow.Next? ==> Facts(r.env, R) && Accs(q.env, R, v + step))
  {
    hide SubstStmt, AdvanceFrom, Leaves, HasContinue;
    var env1, env1' := env[Name(R.k) := v], env'[Name(R.k) := v];
    assert Related(env1, env1', R);
    SubstExec(L.body, true, R, env1, env1', w, fuel, I);
    NoContinue(L.body, env1, w, fuel, I);
    var r, q := Exec(L.body, env1, w, fuel, I), Exec(SubstStmt(L.body, R), env1', w, fuel, I);
    if r.flow.Next? {
      VariableKept(L, R, env1, w, fuel, I);
      AdvanceRuns(R, step, 0, v, q.env, q.world, fuel, I);
    }
  }

  lemma VariableKept(L: RangeLoop, R: Reduction, env: Env, w: World, fuel: nat, I: Interp)
    requires Leaves(L.body, R)
    ensures Get(Exec(L.body, env, w, fuel, I).env, Name(R.k)) == Get(env, Name(R.k))
  {
    ExecFrame(L.body, env, w, fuel, I, Name(R.k));
  }

  /** When the body neither assigns the variable nor continues the loop and the step folds, the reduced
    * loop ends like the original, returns the same value and leaves the same world and variables: for
    * every step, sign and choice of candidates, and with breaks and returns. */
  lemma ReductionPreserves(L: RangeLoop, R: Reduction, step: int, env: Env, w: World, fuel: nat, I: Interp)
    requires Arithmetic(I) && R.Valid() && Leaves(L.body, R) && !HasContinue(L.body) && Facts(env, R)
    requires Fold(L.step, R.facts) == Known(step) && OnlyNames(Refs(L.start)) && OnlyNames(Refs(L.end)) &&
             OnlyNames(Refs(L.step))
    ensures SameRun(Exec(Original(L, R.k), env, w, fuel, I), Exec(Reduced(L, R, step), env, w, fuel, I))
  {
    hide Arithmetic, SubstStmt, AdvanceFrom, InitFrom, Leaves, HasContinue, Fold, SameNames, Accs, Turns;
    var (from, w1) := Eval(L.start, env, w, I);
    var env1 := env[Name(R.k) := from];
    Start(R, env, from, w1, fuel, I);
    var env1' := Exec(InitFrom(R, 0), env1, w1, fuel, I).env;
    var head: seq<E> := [Var(Name(R.k)), L.end, L.step];
    var (end, w2) := Eval(L.end, env1, w1, I);
    HeadValues(L, R, step, env1, w1, I);
    SameHead(L, R, env1, env1', w1, I);
    assert from + 0 * step == from;
    TurnsReduced(L, R, from, end, step, 0, 0, env1, env1', w2, fuel, I);
    var loop := For("range", Name(R.k), head, L.body);
    var loop' := For("range", Name(R.k), head, Then(SubstStmt(L.body, R), AdvanceFrom(R, step, 0)));
    assert Exec(Original(L, R.k), env, w, fuel, I) == Exec(loop, env1, w1, fuel, I);
    assert Exec(Reduced(L, R, step), env, w, fuel, I) == Exec(loop', env1', w1, fuel, I);
  }

  /** The state the accumulators start from. */
  lemma Start(R: Reduction, env: Env, from: int, w: World, fuel: nat, I: Interp)
    requires Arithmetic(I) && R.Valid() && Facts(env, R)
    ensures var env1 := env[Name(R.k) := from]; var q := Exec(InitFrom(R, 0), env1, w, fuel, I);
            q.flow == Next && q.world == w && SameNames(env1, q.env) && Accs(q.env, R, from) && Facts(env1, R)
  {
    InitRuns(R, 0, env[Name(R.k) := from], w, fuel, I);
  }

  lemma HeadValues(L: RangeLoop, R: Reduction, step: int, env: Env, w: World, I: Interp)
    requires Arithmetic(I) && Facts(env, R) && Fold(L.step, R.facts) == Known(step)
    ensures var (end, w2) := Eval(L.end, env, w, I);
            EvalAll([Var(Name(R.k)), L.end, L.step], env, w, I) == ([Get(env, Name(R.k)), end, step], w2)
  {
    FoldSound(L.step, R, env, Eval(L.end, env, w, I).1, I);
    Eval3(Var(Name(R.k)), L.end, L.step, env, w, I);
  }

  lemma SameHead(L: RangeLoop, R: Reduction, env: Env, env': Env, w: World, I: Interp)
    requires SameNames(env, env') && OnlyNames(Refs(L.end)) && OnlyNames(Refs(L.step))
    ensures var head := [Var(Name(R.k)), L.end, L.step]; EvalAll(head, env, w, I) == EvalAll(head, env', w, I)
  {
    var one, two, three: seq<E> := [Var(Name(R.k))], [Var(Name(R.k)), L.end], [Var(Name(R.k)), L.end, L.step];
    assert one[..0] == [] && two[..1] == one && three[..2] == two && two[1] == L.end && three[2] == L.step;
    assert RefsAll(one) == {Name(R.k)};
    assert RefsAll(two) == RefsAll(two[..1]) + Refs(two[1]);
    assert RefsAll(three) == RefsAll(three[..2]) + Refs(three[2]);
    forall x | x in RefsAll(three) ensures Get(env, x) == Get(env', x) { }
    EvalAllReads(three, env, env', w, I);
  }

  lemma Eval3(a: E, b: E, c: E, env: Env, w: World, I: Interp)
    ensures var (x, w1) := Eval(a, env, w, I); var (y, w2) := Eval(b, env, w1, I); var (z, w3) := Eval(c, env, w2, I);
            EvalAll([a, b, c], env, w, I) == ([x, y, z], w3)
  {
    Eval2("+", a, b, env, w, I);
    var three: seq<E> := [a, b, c];
    assert three[..2] == [a, b] && three[2] == c;
    var (x, w1) := Eval(a, env, w, I);
    var (y, w2) := Eval(b, env, w1, I);
    var (z, w3) := Eval(c, env, w2, I);
    assert EvalAll(three, env, w, I) == ([x, y] + [z], w3);
    assert [x, y] + [z] == [x, y, z];
  }

  // ----- collecting the candidates -----

  /** What one node offers: itself, when it is `var op c` with c constant. */
  function Offered(e: E, k: string, facts: map<string, int>): set<Iv> {
    if e.Apply? && |e.args| == 2 && (e.op == "+" || e.op == "*") && Other(e, k) != e then
      (match Fold(Other(e, k), facts) case Known(c) => {Iv(e.op, c)} case Unknown => {})
    else {}
  }

  function Candidates(e: E, k: string, facts: map<string, int>): (c: set<Iv>)
    ensures forall iv :: iv in c ==> iv.op == "+" || iv.op == "*"
  {
    match e
    case Lit(_) => {}
    case Var(_) => {}
    case Apply(_, args) => Offered(e, k, facts) + CandidatesAll(args, k, facts)
    case Cond(c, a, b) => Candidates(c, k, facts) + Candidates(a, k, facts) + Candidates(b, k, facts)
  }

  function CandidatesAll(es: seq<E>, k: string, facts: map<string, int>): (c: set<Iv>)
    ensures forall iv :: iv in c ==> iv.op == "+" || iv.op == "*"
  {
    if es == [] then {} else CandidatesAll(es[..|es| - 1], k, facts) + Candidates(es[|es| - 1], k, facts)
  }

  /** Nested loops are left to themselves. */
  function BodyCandidates(s: S, k: string, facts: map<string, int>): (c: set<Iv>)
    ensures forall iv :: iv in c ==> iv.op == "+" || iv.op == "*"
  {
    match s
    case Then(a, rest) => BodyCandidates(a, k, facts) + BodyCandidates(rest, k, facts)
    case Assign(_, e) => Candidates(e, k, facts)
    case Effect(e) => Candidates(e, k, facts)
    case Return(e) => Candidates(e, k, facts)
    case If(c, thn, els) => Candidates(c, k, facts) + BodyCandidates(thn, k, facts) + BodyCandidates(els, k, facts)
    case _ => {}
  }

  // ----- exactly what folds, what is a candidate and what is replaced -----

  /** Sums and products of numbers and of names with a fact. */
  predicate Constant(e: E, facts: map<string, int>) {
    match e
    case Lit(_) => true
    case Var(s) => s.Name? && s.x in facts
    case Apply(op, args) =>
      |args| == 2 && op in {"+", "*"} && Constant(args[0], facts) && Constant(args[1], facts)
    case Cond(_, _, _) => false
  }

  lemma {:induction false} FoldIff(e: E, facts: map<string, int>)
    ensures Fold(e, facts).Known? <==> Constant(e, facts)
  {
    if e.Apply? && |e.args| == 2 {
      FoldIff(e.args[0], facts);
      FoldIff(e.args[1], facts);
    }
  }

  /** An expression and the expressions inside it. */
  ghost function Nodes(e: E): set<E> {
    match e
    case Apply(_, args) => {e} + NodesAll(args)
    case Cond(c, a, b) => {e} + Nodes(c) + Nodes(a) + Nodes(b)
    case _ => {e}
  }

  ghost function NodesAll(es: seq<E>): set<E> {
    if es == [] then {} else NodesAll(es[..|es| - 1]) + Nodes(es[|es| - 1])
  }

  /** The expressions of a body outside nested loops. */
  ghost function BodyNodes(s: S): set<E> {
    match s
    case Then(a, rest) => BodyNodes(a) + BodyNodes(rest)
    case Assign(_, e) => Nodes(e)
    case Effect(e) => Nodes(e)
    case Return(e) => Nodes(e)
    case If(c, thn, els) => Nodes(c) + BodyNodes(thn) + BodyNodes(els)
    case _ => {}
  }

  /** e adds a constant to the variable or multiplies it by one, in either order. */
  predicate Steps(e: E, k: string, facts: map<string, int>, iv: Iv) {
    e.Apply? && e.op == iv.op && iv.op in {"+", "*"} && |e.args| == 2 &&
    ((e.args[0] == Var(Name(k)) && Constant(e.args[1], facts) && Fold(e.args[1], facts) == Known(iv.c)) ||
     (e.args[1] == Var(Name(k)) && Constant(e.args[0], facts) && Fold(e.args[0], facts) == Known(iv.c)))
  }

  /** The candidates are what some expression of the body, outside nested loops, does to the variable. */
  lemma {:induction false} CandidateIff(s: S, k: string, facts: map<string, int>, iv: Iv)
    ensures iv in BodyCandidates(s, k, facts) <==> exists e :: e in BodyNodes(s) && Steps(e, k, facts, iv)
  {
    hide Steps, Candidates, Nodes;
    match s
    case Then(a, rest) =>
      CandidateIff(a, k, facts, iv);
      CandidateIff(rest, k, facts, iv);
    case Assign(_, e) => CandidateInIff(e, k, facts, iv);
    case Effect(e) => CandidateInIff(e, k, facts, iv);
    case Return(e) => CandidateInIff(e, k, facts, iv);
    case If(c, thn, els) =>
      CandidateInIff(c, k, facts, iv);
      CandidateIff(thn, k, facts, iv);
      CandidateIff(els, k, facts, iv);
    case _ =>
  }

  lemma {:induction false} CandidateInIff(e: E, k: string, facts: map<string, int>, iv: Iv)
    ensures iv in Candidates(e, k, facts) <==> exists d :: d in Nodes(e) && Steps(d, k, facts, iv)
    decreases e, 1
  {
    hide Steps, Offered;
    OfferedIff(e, k, facts, iv);
    match e
    case Lit(_) =>
    case Var(_) =>
    case Apply(_, args) => CandidateInAllIff(args, k, facts, iv);
    case Cond(c, a, b) =>
      CandidateInIff(c, k, facts, iv);
      CandidateInIff(a, k, facts, iv);
      CandidateInIff(b, k, facts, iv);
  }

  lemma {:induction false} CandidateInAllIff(es: seq<E>, k: string, facts: map<string, int>, iv: Iv)
    ensures iv in CandidatesAll(es, k, facts) <==> exists d :: d in NodesAll(es) && Steps(d, k, facts, iv)
    decreases es, 0
  {
    hide Steps;
    if es != [] {
      CandidateInAllIff(es[..|es| - 1], k, facts, iv);
      CandidateInIff(es[|es| - 1], k, facts, iv);
    }
  }

  lemma OfferedIff(e: E, k: string, facts: map<string, int>, iv: Iv)
    ensures iv in Offered(e, k, facts) <==> Steps(e, k, facts, iv)
    ensures !e.Apply? ==> !Steps(e, k, facts, iv)
  {
    if e.Apply? && |e.args| == 2 {
      FoldIff(e.args[0], facts);
      FoldIff(e.args[1], facts);
    }
  }

  /** No candidate that got an accumulator is left in the reduced body outside nested loops. */
  lemma {:induction false} NoneLeft(s: S, R: Reduction, iv: Iv)
    requires iv in R.ivs
    ensures iv !in BodyCandidates(SubstStmt(s, R), R.k, R.facts)
  {
    hide Candidates, Subst;
    match s
    case Then(a, rest) =>
      NoneLeft(a, R, iv);
      NoneLeft(rest, R, iv);
    case Assign(_, e) => NoneLeftIn(e, R, iv);
    case Effect(e) => NoneLeftIn(e, R, iv);
    case Return(e) => NoneLeftIn(e, R, iv);
    case If(c, thn, els) =>
      NoneLeftIn(c, R, iv);
      NoneLeft(thn, R, iv);
      NoneLeft(els, R, iv);
    case _ =>
  }

  lemma {:induction false} NoneLeftIn(e: E, R: Reduction, iv: Iv)
    requires iv in R.ivs
    ensures iv !in Candidates(Subst(e, R), R.k, R.facts)
    decreases e, 1
  {
    hide Offered, Chosen;
    if Chosen(e, R) < 0 {
      match e
      case Apply(_, args) =>
        NoneLeftInAll(args, R, iv);
        NotOffered(e, R, iv);
      case Cond(c, a, b) =>
        NoneLeftIn(c, R, iv);
        NoneLeftIn(a, R, iv);
        NoneLeftIn(b, R, iv);
      case _ =>
    }
  }

  lemma {:induction false} NoneLeftInAll(es: seq<E>, R: Reduction, iv: Iv)
    requires iv in R.ivs
    ensures iv !in CandidatesAll(SubstAll(es, R), R.k, R.facts)
    decreases es, 0
  {
    hide Subst, Candidates;
    if es != [] {
      var r := SubstAll(es, R);
      assert r[..|r| - 1] == SubstAll(es[..|es| - 1], R);
      NoneLeftInAll(es[..|es| - 1], R, iv);
      NoneLeftIn(es[|es| - 1], R, iv);
    }
  }

  lemma SubstTwo(es: seq<E>, R: Reduction)
    requires |es| == 2
    ensures SubstAll(es, R) == [Subst(es[0], R), Subst(es[1], R)]
  {
    hide Subst;
    var one := es[..1];
    assert one[0] == es[0] && one[..0] == [];
    assert SubstAll(one, R) == [Subst(es[0], R)];
  }

  lemma NotOffered(e: E, R: Reduction, iv: Iv)
    requires e.Apply? && Chosen(e, R) < 0 && iv in R.ivs
    ensures iv !in Offered(Apply(e.op, SubstAll(e.args, R)), R.k, R.facts)
  {
    hide Subst, Fold;
    if |e.args| == 2 {
      SubstTwo(e.args, R);
      SubstKeeps(e.args[0], R);
      SubstKeeps(e.args[1], R);
    }
  }

  /** Substitution makes neither the variable nor a constant out of anything else. */
  lemma {:induction false} SubstKeeps(e: E, R: Reduction)
    ensures Subst(e, R) == Var(Name(R.k)) <==> e == Var(Name(R.k))
    ensures Fold(Subst(e, R), R.facts).Known? ==> Fold(e, R.facts) == Fold(Subst(e, R), R.facts)
  {
    if Chosen(e, R) < 0 && e.Apply? && |e.args| == 2 {
      SubstTwo(e.args, R);
      SubstKeeps(e.args[0], R);
      SubstKeeps(e.args[1], R);
    }
  }

  /** A statement and the statements inside it, outside nested loops. */
  ghost function OuterParts(s: S): set<S> {
    {s} + match s
          case Then(a, rest) => OuterParts(a) + OuterParts(rest)
          case If(_, thn, els) => OuterParts(thn) + OuterParts(els)
          case _ => {}
  }

  lemma {:induction false} HasContinueIff(s: S)
    ensures HasContinue(s) <==> Continue in OuterParts(s)
  {
    match s
    case Then(a, rest) =>
      HasContinueIff(a);
      HasContinueIff(rest);
    case If(_, thn, els) =>
      HasContinueIff(thn);
      HasContinueIff(els);
    case _ =>
  }

  /** r is ivs with each candidate found added once, all of them unless the table is full. */
  ghost predicate Gathered(ivs: seq<Iv>, r: seq<Iv>, found: set<Iv>, max: nat) {
    ivs <= r && |r| <= (if |ivs| < max then max else |ivs|) &&
    (forall i, j :: 0 <= i < j < |r| ==> r[i] != r[j]) &&
    (forall iv :: iv in r ==> iv in ivs || iv in found) &&
    (|r| < max ==> forall iv :: iv in found ==> iv in r)
  }

  lemma GatherMore(ivs: seq<Iv>, mid: seq<Iv>, r: seq<Iv>, found: set<Iv>, more: set<Iv>, max: nat)
    requires Gathered(ivs, mid, found, max) && Gathered(mid, r, more, max)
    ensures Gathered(ivs, r, found + more, max)
  {
  }

  method CollectNode(e: E, k: string, facts: map<string, int>, ivs: seq<Iv>, max: nat) returns (r: seq<Iv>)
    requires Distinct(ivs)
    ensures Gathered(ivs, r, Offered(e, k, facts), max)
  {
    if |ivs| >= max { return ivs; }
    if e.Apply? && |e.args| == 2 && (e.op == "+" || e.op == "*") && Other(e, k) != e {
      var f := Fold(Other(e, k), facts);
      if f.Known? {
        for i := 0 to |ivs|
          invariant forall j :: 0 <= j < i ==> ivs[j] != Iv(e.op, f.v)
        {
          if ivs[i] == Iv(e.op, f.v) { return ivs; }
        }
        return ivs + [Iv(e.op, f.v)];
      }
    }
    return ivs;
  }

  /** collect_iv_candidates on an expression. */
  method Collect(e: E, k: string, facts: map<string, int>, ivs: seq<Iv>, max: nat) returns (r: seq<Iv>)
    requires Distinct(ivs)
    ensures Gathered(ivs, r, Candidates(e, k, facts), max)
    decreases e, 1
  {
    hide Offered;
    match e {
      case Lit(_) => r := ivs;
      case Var(_) => r := ivs;
      case Apply(_, args) =>
        var mid := CollectNode(e, k, facts, ivs, max);
        r := CollectAll(args, k, facts, mid, max);
        GatherMore(ivs, mid, r, Offered(e, k, facts), CandidatesAll(args, k, facts), max);
      case Cond(c, a, b) =>
        var r1 := Collect(c, k, facts, ivs, max);
        var r2 := Collect(a, k, facts, r1, max);
        GatherMore(ivs, r1, r2, Candidates(c, k, facts), Candidates(a, k, facts), max);
        r := Collect(b, k, facts, r2, max);
        GatherMore(ivs, r2, r, Candidates(c, k, facts) + Candidates(a, k, facts), Candidates(b, k, facts), max);
    }
  }

  method CollectAll(es: seq<E>, k: string, facts: map<string, int>, ivs: seq<Iv>, max: nat) returns (r: seq<Iv>)
    requires Distinct(ivs)
    ensures Gathered(ivs, r, CandidatesAll(es, k, facts), max)
    decreases es, 0
  {
    r := ivs;
    for i := 0 to |es|
      invariant Gathered(ivs, r, CandidatesAll(es[..i], k, facts), max)
    {
      var more := Collect(es[i], k, facts, r, max);
      assert es[..i + 1][..i] == es[..i];
      GatherMore(ivs, r, more, CandidatesAll(es[..i], k, facts), Candidates(es[i], k, facts), max);
      r := more;
    }
    assert es[..|es|] == es;
  }

  /** collect_iv_candidates on the loop's body. */
  method CollectBody(s: S, k: string, facts: map<string, int>, ivs: seq<Iv>, max: nat) returns (r: seq<Iv>)
    requires Distinct(ivs)
    ensures Gathered(ivs, r, BodyCandidates(s, k, facts), max)
    decreases s
  {
    match s {
      case Then(a, rest) =>
        var mid := CollectBody(a, k, facts, ivs, max);
        r := CollectBody(rest, k, facts, mid, max);
        GatherMore(ivs, mid, r, BodyCandidates(a, k, facts), BodyCandidates(rest, k, facts), max);
      case Assign(_, e) => r := Collect(e, k, facts, ivs, max);
      case Effect(e) => r := Collect(e, k, facts, ivs, max);
      case Return(e) => r := Collect(e, k, facts, ivs, max);
      case If(c, thn, els) =>
        var r1 := Collect(c, k, facts, ivs, max);
        var r2 := CollectBody(thn, k, facts, r1, max);
        GatherMore(ivs, r1, r2, Candidates(c, k, facts), BodyCandidates(thn, k, facts), max);
        r := CollectBody(els, k, facts, r2, max);
        var found := Candidates(c, k, facts) + BodyCandidates(thn, k, facts);
        GatherMore(ivs, r2, r, found, BodyCandidates(els, k, facts), max);
      case _ => r := ivs;
    }
  }

  /** The loop as emitted: reduced when the body neither assigns the variable nor continues and the step
    * folds, with at most 8 accumulators; either way it runs like the loop as written. */
  method ReduceLoop(L: RangeLoop, k: string, facts: map<string, int>) returns (s: S, R: Reduction)
    requires k !in facts && forall x :: x in facts ==> Name(x) !in Assigned(L.body)
    requires OnlyNames(StmtRefs(L.body)) && OnlyNames(Refs(L.start)) && OnlyNames(Refs(L.end))
    requires OnlyNames(Refs(L.step))
    ensures R == Reduction(k, facts, R.ivs) && Gathered([], R.ivs, BodyCandidates(L.body, k, facts), 8)
    ensures s == if Name(k) !in Assigned(L.body) && !HasContinue(L.body) && Fold(L.step, facts).Known?
                 then Reduced(L, R, Fold(L.step, facts).v) else Original(L, k)
    ensures forall env, w, fuel, I :: Arithmetic(I) && Facts(env, R) ==>
              SameRun(Exec(Original(L, k), env, w, fuel, I), Exec(s, env, w, fuel, I))
  {
    hide Arithmetic, Facts, Reduced, Original, Fold, HasContinue, Gathered, OnlyNames;
    var ivs := CollectBody(L.body, k, facts, [], 8);
    R := Reduction(k, facts, ivs);
    GatheredOps(ivs, BodyCandidates(L.body, k, facts), 8);
    var step := Fold(L.step, facts);
    if Name(k) in Assigned(L.body) || HasContinue(L.body) || step.Unknown? { return Original(L, k), R; }
    s := Reduced(L, R, step.v);
    forall env, w, fuel, I | Arithmetic(I) && Facts(env, R)
      ensures SameRun(Exec(Original(L, k), env, w, fuel, I), Exec(s, env, w, fuel, I))
    {
      ReductionPreserves(L, R, step.v, env, w, fuel, I);
    }
  }

  lemma GatheredOps(r: seq<Iv>, found: set<Iv>, max: nat)
    requires Gathered([], r, found, max) && forall iv :: iv in found ==> iv.op == "+" || iv.op == "*"
    ensures forall i :: 0 <= i < |r| ==> r[i].op == "+" || r[i].op == "*"
  {
    assert forall i :: 0 <= i < |r| ==> r[i] in r;
  }
}
