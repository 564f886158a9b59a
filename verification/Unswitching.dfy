/** Loop unswitching: an invariant `if` moved out of a loop: source/compiler/codegen_for.c:12-142,
  * opt_licm.c:80-180. */
module Unswitching {
  import opened Bodies

  /** A missing else is not an empty one: only the first lets the second loop be left out. */
  datatype Else = NoElse | ElseBlock(ss: seq<Stmt<string>>) {
    function Stmts(): seq<Stmt<string>> { if NoElse? then [] else ss }
  }

  /** A top-level statement of the loop body: an if without else-ifs, its branches as lists, or anything else. */
  datatype Item = IfItem(c: Expr<string>, thn: seq<Stmt<string>>, els: Else) | Plain(s: Stmt<string>)

  function Block(ss: seq<Stmt<string>>): Stmt<string> {
    if ss == [] then Skip else Then(ss[0], Block(ss[1..]))
  }

  function Lower(item: Item): Stmt<string> {
    match item
    case IfItem(c, thn, els) => If(c, Block(thn), Block(els.Stmts()))
    case Plain(s) => s
  }

  function LowerAll(items: seq<Item>): (ss: seq<Stmt<string>>)
    ensures |ss| == |items|
  {
    seq(|items|, i requires 0 <= i < |items| => Lower(items[i]))
  }

  // ----- when an if may be moved -----

  /** Calls, awaits and indexed assignments; every other operator leaves the world alone. */
  predicate Effectful(op: string) { op == "call" || op == "await" || op == "store" }

  ghost predicate Quiet(I: Interp) {
    (forall op, vs, w :: !Effectful(op) ==> I.apply(op, vs, w).1 == w) &&
    (forall kind, vs, n, cur, w :: I.turn(kind, vs, n, cur, w).1 == w)
  }

  predicate CallFree(e: Expr<string>) {
    match e
    case Lit(_) => true
    case Var(_) => true
    case Apply(op, args) => !Effectful(op) && CallFreeAll(args)
    case Cond(c, a, b) => CallFree(c) && CallFree(a) && CallFree(b)
  }

  predicate CallFreeAll(es: seq<Expr<string>>) {
    es == [] || (CallFreeAll(es[..|es| - 1]) && CallFree(es[|es| - 1]))
  }

  /** !body_unsafe_for_licm. */
  predicate SafeBody(s: Stmt<string>) {
    match s
    case Then(a, rest) => SafeBody(a) && SafeBody(rest)
    case Assign(_, e) => CallFree(e)
    case Effect(e) => CallFree(e)
    case If(c, thn, els) => CallFree(c) && SafeBody(thn) && SafeBody(els)
    case While(c, body) => CallFree(c) && SafeBody(body)
    case For(_, _, inputs, body) => CallFreeAll(inputs) && SafeBody(body)
    case Return(e) => CallFree(e)
    case _ => true
  }

  /** The operators applied in an expression, and those applied anywhere in a statement. */
  ghost function Operators(e: Expr<string>): set<string> {
    match e
    case Apply(op, args) => {op} + OperatorsAll(args)
    case Cond(c, a, b) => Operators(c) + Operators(a) + Operators(b)
    case _ => {}
  }

  ghost function OperatorsAll(es: seq<Expr<string>>): set<string> {
    if es == [] then {} else OperatorsAll(es[..|es| - 1]) + Operators(es[|es| - 1])
  }

  ghost function BodyOperators(s: Stmt<string>): set<string> {
    match s
    case Then(a, rest) => BodyOperators(a) + BodyOperators(rest)
    case Assign(_, e) => Operators(e)
    case Effect(e) => Operators(e)
    case If(c, thn, els) => Operators(c) + BodyOperators(thn) + BodyOperators(els)
    case While(c, body) => Operators(c) + BodyOperators(body)
    case For(_, _, inputs, body) => OperatorsAll(inputs) + BodyOperators(body)
    case Return(e) => Operators(e)
    case _ => {}
  }

  /** Only a call, an await or an indexed assignment makes a body unsafe. */
  lemma {:induction false} SafeBodyIff(s: Stmt<string>)
    ensures SafeBody(s) <==> BodyOperators(s) !! {"call", "await", "store"}
  {
    match s
    case Then(a, rest) =>
      SafeBodyIff(a);
      SafeBodyIff(rest);
    case Assign(_, e) => CallFreeIff(e);
    case Effect(e) => CallFreeIff(e);
    case If(c, thn, els) =>
      CallFreeIff(c);
      SafeBodyIff(thn);
      SafeBodyIff(els);
    case While(c, body) =>
      CallFreeIff(c);
      SafeBodyIff(body);
    case For(_, _, inputs, body) =>
      CallFreeAllIff(inputs);
      SafeBodyIff(body);
    case Return(e) => CallFreeIff(e);
    case _ =>
  }

  lemma {:induction false} CallFreeIff(e: Expr<string>)
    ensures CallFree(e) <==> Operators(e) !! {"call", "await", "store"}
    decreases e, 1
  {
    match e
    case Lit(_) =>
    case Var(_) =>
    case Apply(_, args) => CallFreeAllIff(args);
    case Cond(c, a, b) =>
      CallFreeIff(c);
      CallFreeIff(a);
      CallFreeIff(b);
  }

  lemma {:induction false} CallFreeAllIff(es: seq<Expr<string>>)
    ensures CallFreeAll(es) <==> OperatorsAll(es) !! {"call", "await", "store"}
    decreases es, 0
  {
    if es != [] {
      CallFreeAllIff(es[..|es| - 1]);
      CallFreeIff(es[|es| - 1]);
    }
  }

  /** cond_reads_assigned: conservative on calls. */
  predicate ReadsAssigned(c: Expr<string>, body: Stmt<string>) {
    match c
    case Lit(_) => false
    case Var(k) => k in Assigned(body)
    case Apply(op, args) => Effectful(op) || ReadsAssignedAll(args, body)
    case Cond(c, a, b) => ReadsAssigned(c, body) || ReadsAssigned(a, body) || ReadsAssigned(b, body)
  }

  predicate ReadsAssignedAll(es: seq<Expr<string>>, body: Stmt<string>) {
    es != [] && (ReadsAssignedAll(es[..|es| - 1], body) || ReadsAssigned(es[|es| - 1], body))
  }

  /** cond_is_loop_invariant. */
  predicate Invariant(c: Expr<string>, body: Stmt<string>, k: string) { k !in Refs(c) && !ReadsAssigned(c, body) }

  /** What the checks on a condition amount to: no calls, and it reads nothing the loop changes. */
  lemma {:induction false} InvariantMeans(c: Expr<string>, body: Stmt<string>)
    ensures !ReadsAssigned(c, body) <==> CallFree(c) && Refs(c) !! Assigned(body)
    decreases c, 1
  {
    match c
    case Lit(_) =>
    case Var(_) =>
    case Apply(_, args) => InvariantMeansAll(args, body);
    case Cond(d, a, b) =>
      InvariantMeans(d, body);
      InvariantMeans(a, body);
      InvariantMeans(b, body);
  }

  lemma {:induction false} InvariantMeansAll(es: seq<Expr<string>>, body: Stmt<string>)
    ensures !ReadsAssignedAll(es, body) <==> CallFreeAll(es) && RefsAll(es) !! Assigned(body)
    decreases es, 0
  {
    if es != [] {
      InvariantMeansAll(es[..|es| - 1], body);
      InvariantMeans(es[|es| - 1], body);
    }
  }

  /** find_unswitchable_if: the first top-level if with an invariant condition, or -1; bodies that are
    * unsafe or too long are left alone. */
  method FindUnswitchable(items: seq<Item>, k: string) returns (idx: int)
    ensures -1 <= idx < |items|
    ensures idx >= 0 ==>
            SafeBody(Block(LowerAll(items))) && |items| <= 7 && items[idx].IfItem? &&
            Invariant(items[idx].c, Block(LowerAll(items)), k)
    ensures idx >= 0 ==> forall j :: 0 <= j < idx && items[j].IfItem? ==>
              !Invariant(items[j].c, Block(LowerAll(items)), k)
    ensures idx == -1 && SafeBody(Block(LowerAll(items))) && |items| <= 7 ==>
              forall j :: 0 <= j < |items| && items[j].IfItem? ==> !Invariant(items[j].c, Block(LowerAll(items)), k)
  {
    var body := Block(LowerAll(items));
    if !SafeBody(body) { return -1; }
    if |items| - 1 > 6 { return -1; }
    for i := 0 to |items|
      invariant forall j :: 0 <= j < i && items[j].IfItem? ==> !Invariant(items[j].c, body, k)
    {
      if items[i].IfItem? && Invariant(items[i].c, body, k) { return i; }
    }
    return -1;
  }

  /** build_split_stmts: the body with the if replaced by one of its branches. */
  method BuildSplit(items: seq<Item>, idx: nat, branch: seq<Stmt<string>>) returns (ss: seq<Stmt<string>>)
    requires idx < |items|
    ensures ss == LowerAll(items[..idx]) + branch + LowerAll(items[idx + 1..])
  {
    ss := [];
    for i := 0 to |items|
      invariant ss == if i <= idx then LowerAll(items[..i])
                else LowerAll(items[..idx]) + branch + LowerAll(items[idx + 1..i])
    {
      if i == idx {
        for j := 0 to |branch|
          invariant ss == LowerAll(items[..idx]) + branch[..j]
        {
          ss := ss + [branch[j]];
        }
        assert branch[..|branch|] == branch;
      } else {
        ss := ss + [Lower(items[i])];
      }
    }
    assert items[idx + 1..|items|] == items[idx + 1..];
  }

  // ----- the loops -----

  datatype Loop = Loop(kind: string, k: string, inputs: seq<Expr<string>>) {
    function Over(body: Stmt<string>): Stmt<string> { For(kind, k, inputs, body) }
  }

  /** emit_unswitched_for: two loops guarded by the condition; with no else and no other statement the
    * second loop is left out. */
  method Unswitch(L: Loop, items: seq<Item>, idx: nat) returns (s: Stmt<string>)
    requires idx < |items| && items[idx].IfItem?
    ensures s == if |items| == 1 && items[idx].els.NoElse? then If(items[idx].c, L.Over(Block(items[idx].thn)), Skip)
                 else If(items[idx].c, L.Over(Split(items, idx, true)), L.Over(Split(items, idx, false)))
  {
    var thn := BuildSplit(items, idx, items[idx].thn);
    if |items| == 1 && items[idx].els.NoElse? {
      assert thn == items[idx].thn;
      return If(items[idx].c, L.Over(Block(thn)), Skip);
    }
    var els := BuildSplit(items, idx, items[idx].els.Stmts());
    return If(items[idx].c, L.Over(Block(thn)), L.Over(Block(els)));
  }

  function Split(items: seq<Item>, idx: nat, side: bool): Stmt<string>
    requires idx < |items| && items[idx].IfItem?
  {
    var chosen := if side then items[idx].thn else items[idx].els.Stmts();
    Block(LowerAll(items[..idx]) + chosen + LowerAll(items[idx + 1..]))
  }

  // ----- the body and its split agree -----

  lemma {:induction false} QuietEval(e: Expr<string>, env: map<string, Value>, w: World, I: Interp)
    requires Quiet(I) && CallFree(e)
    ensures Eval(e, env, w, I).1 == w
    decreases e, 1
  {
    match e
    case Lit(_) =>
    case Var(_) =>
    case Apply(_, args) => QuietEvalAll(args, env, w, I);
    case Cond(c, a, b) =>
      QuietEval(c, env, w, I);
      QuietEval(a, env, w, I);
      QuietEval(b, env, w, I);
  }

  lemma {:induction false} QuietEvalAll(es: seq<Expr<string>>, env: map<string, Value>, w: World, I: Interp)
    requires Quiet(I) && CallFreeAll(es)
    ensures EvalAll(es, env, w, I).1 == w
    decreases es, 0
  {
    if es != [] {
      QuietEvalAll(es[..|es| - 1], env, w, I);
      QuietEval(es[|es| - 1], env, w, I);
    }
  }

  /** A safe body leaves the world alone. */
  lemma {:induction false} QuietExec(s: Stmt<string>, env: map<string, Value>, w: World, fuel: nat, I: Interp)
    requires Quiet(I) && SafeBody(s)
    ensures Exec(s, env, w, fuel, I).world == w
    decreases fuel, s, 1
  {
    match s
    case Then(a, rest) =>
      QuietExec(a, env, w, fuel, I);
      QuietExec(rest, Exec(a, env, w, fuel, I).env, w, fuel, I);
    case Assign(_, e) => QuietEval(e, env, w, I);
    case Effect(e) => QuietEval(e, env, w, I);
    case Return(e) => QuietEval(e, env, w, I);
    case If(c, thn, els) =>
      QuietEval(c, env, w, I);
      QuietExec(thn, env, w, fuel, I);
      QuietExec(els, env, w, fuel, I);
    case While(c, body) =>
      if fuel > 0 {
        QuietEval(c, env, w, I);
        QuietExec(body, env, w, fuel, I);
        QuietExec(s, Exec(body, env, w, fuel, I).env, w, fuel - 1, I);
      }
    case For(_, _, inputs, _) =>
      QuietEvalAll(inputs, env, w, I);
      QuietTurns(s, EvalAll(inputs, env, w, I).0, 0, 0, env, w, fuel, I);
    case _ =>
  }

  lemma {:induction false} QuietTurns(s: Stmt<string>, vs: seq<Value>, n: nat, cur: Value, env: map<string, Value>,
                                      w: World, fuel: nat, I: Interp)
    requires s.For? && Quiet(I) && SafeBody(s)
    ensures Turns(s, vs, n, cur, env, w, fuel, I).world == w
    decreases fuel, s, 0
  {
    if fuel > 0 {
      var turn := I.turn(s.kind, vs, n, cur, w).0;
      if turn.Go? {
        QuietExec(s.body, env[s.k := turn.v], w, fuel, I);
        var r := Exec(s.body, env[s.k := turn.v], w, fuel, I);
        QuietTurns(s, vs, n + 1, Get(r.env, s.k), r.env, w, fuel - 1, I);
      }
    }
  }

  lemma {:induction false} BlockAppend(a: seq<Stmt<string>>, b: seq<Stmt<string>>, env: map<string, Value>, w: World,
                                       fuel: nat, I: Interp)
    ensures Exec(Block(a + b), env, w, fuel, I) == Exec(Then(Block(a), Block(b)), env, w, fuel, I)
    decreases |a|
  {
    if a == [] {
      assert a + b == b;
    } else {
      assert (a + b)[0] == a[0] && (a + b)[1..] == a[1..] + b;
      var r := Exec(a[0], env, w, fuel, I);
      BlockAppend(a[1..], b, r.env, r.world, fuel, I);
    }
  }

  lemma {:induction false} BlockHas(ss: seq<Stmt<string>>, i: nat)
    requires i < |ss|
    ensures Assigned(ss[i]) <= Assigned(Block(ss)) && (SafeBody(Block(ss)) ==> SafeBody(ss[i]))
  {
    if i > 0 { BlockHas(ss[1..], i - 1); }
  }

  lemma {:induction false} BlockParts(a: seq<Stmt<string>>, b: seq<Stmt<string>>)
    ensures Assigned(Block(a + b)) == Assigned(Block(a)) + Assigned(Block(b))
    ensures SafeBody(Block(a + b)) <==> SafeBody(Block(a)) && SafeBody(Block(b))
    decreases |a|
  {
    if a == [] {
      assert a + b == b;
    } else {
      assert (a + b)[0] == a[0] && (a + b)[1..] == a[1..] + b;
      BlockParts(a[1..], b);
    }
  }

  /** An if whose condition is known runs like its branch. */
  lemma BranchTaken(c: Expr<string>, thn: seq<Stmt<string>>, els: seq<Stmt<string>>, side: bool,
                    post: seq<Stmt<string>>, env: map<string, Value>, w: World, fuel: nat, I: Interp)
    requires I.truthy(Eval(c, env, w, I).0) == side && Eval(c, env, w, I).1 == w
    ensures var chosen := if side then thn else els;
            Exec(Block([If(c, Block(thn), Block(els))] + post), env, w, fuel, I) ==
            Exec(Block(chosen + post), env, w, fuel, I)
  {
    var mid, chosen := If(c, Block(thn), Block(els)), if side then thn else els;
    BlockAppend(chosen, post, env, w, fuel, I);
    assert ([mid] + post)[0] == mid && ([mid] + post)[1..] == post;
    assert Exec(mid, env, w, fuel, I) == Exec(Block(chosen), env, w, fuel, I);
    assert Exec(Block([mid] + post), env, w, fuel, I) == Exec(Then(mid, Block(post)), env, w, fuel, I);
  }

  /** The statements before it leave the condition and the world as they were. */
  lemma ConditionKept(c: Expr<string>, pre: Stmt<string>, env: map<string, Value>, w: World, fuel: nat, I: Interp)
    requires Quiet(I) && SafeBody(pre) && CallFree(c) && Refs(c) !! Assigned(pre)
    ensures var r := Exec(pre, env, w, fuel, I);
            r.world == w && Eval(c, r.env, w, I).0 == Eval(c, env, w, I).0 && Eval(c, r.env, w, I).1 == w
  {
    var r := Exec(pre, env, w, fuel, I);
    QuietExec(pre, env, w, fuel, I);
    forall x | x in Refs(c) ensures Get(r.env, x) == Get(env, x) { ExecFrame(pre, env, w, fuel, I, x); }
    EvalReads(c, r.env, env, w, I);
    QuietEval(c, r.env, w, I);
  }

  /** One pass of the body takes the branch the condition already had before the loop. */
  lemma BodyAgrees(items: seq<Item>, idx: nat, side: bool, env: map<string, Value>, w: World, fuel: nat, I: Interp)
    requires Quiet(I) && idx < |items| && items[idx].IfItem? && SafeBody(Block(LowerAll(items)))
    requires CallFree(items[idx].c) && Refs(items[idx].c) !! Assigned(Block(LowerAll(items)))
    requires I.truthy(Eval(items[idx].c, env, w, I).0) == side
    ensures Exec(Block(LowerAll(items)), env, w, fuel, I) == Exec(Split(items, idx, side), env, w, fuel, I)
  {
    hide SafeBody, Assigned, CallFree, Refs, Quiet, Block;
    var c, pre, post := items[idx].c, LowerAll(items[..idx]), LowerAll(items[idx + 1..]);
    var branch := if side then items[idx].thn else items[idx].els.Stmts();
    var mid := Lower(items[idx]);
    assert LowerAll(items) == pre + ([mid] + post);
    assert pre + branch + post == pre + (branch + post);
    BlockParts(pre, [mid] + post);
    BlockParts([mid], post);
    BlockAppend(pre, [mid] + post, env, w, fuel, I);
    BlockAppend(pre, branch + post, env, w, fuel, I);
    var r := Exec(Block(pre), env, w, fuel, I);
    ConditionKept(c, Block(pre), env, w, fuel, I);
    BranchTaken(c, items[idx].thn, items[idx].els.Stmts(), side, post, r.env, w, fuel, I);
  }

  /** So every turn does. */
  lemma {:induction false} TurnsAgree(L: Loop, items: seq<Item>, idx: nat, side: bool, vs: seq<Value>, n: nat,
                                      cur: Value, env: map<string, Value>, w: World, fuel: nat, I: Interp)
    requires Quiet(I) && idx < |items| && items[idx].IfItem? && SafeBody(Block(LowerAll(items)))
    requires CallFree(items[idx].c) && Refs(items[idx].c) !! Assigned(Block(LowerAll(items))) &&
             L.k !in Refs(items[idx].c)
    requires I.truthy(Eval(items[idx].c, env, w, I).0) == side
    ensures Turns(L.Over(Block(LowerAll(items))), vs, n, cur, env, w, fuel, I) ==
            Turns(L.Over(Split(items, idx, side)), vs, n, cur, env, w, fuel, I)
    decreases fuel
  {
    if fuel > 0 {
      var body, c, turn := Block(LowerAll(items)), items[idx].c, I.turn(L.kind, vs, n, cur, w).0;
      if turn.Go? {
        var env1 := env[L.k := turn.v];
        EvalReads(c, env1, env, w, I);
        BodyAgrees(items, idx, side, env1, w, fuel, I);
        var r := Exec(body, env1, w, fuel, I);
        QuietExec(body, env1, w, fuel, I);
        forall x | x in Refs(c) ensures Get(r.env, x) == Get(env1, x) { ExecFrame(body, env1, w, fuel, I, x); }
        EvalReads(c, r.env, env1, w, I);
        TurnsAgree(L, items, idx, side, vs, n + 1, Get(r.env, L.k), r.env, w, fuel - 1, I);
      }
    }
  }

  /** Unswitching preserves meaning: with effect-free bounds, the loop and the two guarded loops end the
    * same way in the same state, for every number of turns, with breaks, continues and returns. */
  lemma UnswitchingPreserves(L: Loop, items: seq<Item>, idx: nat, env: map<string, Value>, w: World, fuel: nat,
                             I: Interp)
    requires Quiet(I) && CallFreeAll(L.inputs) && idx < |items| && items[idx].IfItem?
    requires SafeBody(Block(LowerAll(items))) && Invariant(items[idx].c, Block(LowerAll(items)), L.k)
    ensures var split := If(items[idx].c, L.Over(Split(items, idx, true)), L.Over(Split(items, idx, false)));
            Exec(split, env, w, fuel, I) == Exec(L.Over(Block(LowerAll(items))), env, w, fuel, I)
  {
    var c := items[idx].c;
    InvariantMeans(c, Block(LowerAll(items)));
    QuietEval(c, env, w, I);
    QuietEvalAll(L.inputs, env, w, I);
    var side := I.truthy(Eval(c, env, w, I).0);
    TurnsAgree(L, items, idx, side, EvalAll(L.inputs, env, w, I).0, 0, 0, env, w, fuel, I);
  }

  /** A loop with an empty body changes nothing but its variable, which it never unsets. */
  lemma {:induction false} EmptyTurns(L: Loop, vs: seq<Value>, n: nat, cur: Value, env: map<string, Value>, w: World,
                                      fuel: nat, I: Interp)
    requires Quiet(I)
    ensures var r := Turns(L.Over(Skip), vs, n, cur, env, w, fuel, I);
            (r.flow.Next? || r.flow.OutOfFuel?) && r.world == w && r.env - {L.k} == env - {L.k} &&
            (L.k in env ==> L.k in r.env)
    decreases fuel
  {
    if fuel > 0 {
      var turn := I.turn(L.kind, vs, n, cur, w).0;
      if turn.Go? { EmptyTurns(L, vs, n + 1, turn.v, env[L.k := turn.v], w, fuel - 1, I); }
    }
  }

  /** A loop around one if without else, as it is and with the else loop left out. */
  predicate Omittable(L: Loop, items: seq<Item>) {
    |items| == 1 && items[0].IfItem? && items[0].els.NoElse? && CallFreeAll(L.inputs) &&
    SafeBody(Block(LowerAll(items))) && Invariant(items[0].c, Block(LowerAll(items)), L.k)
  }

  function Whole(L: Loop, items: seq<Item>): Stmt<string> { L.Over(Block(LowerAll(items))) }

  function Guarded(L: Loop, items: seq<Item>): Stmt<string>
    requires Omittable(L, items)
  {
    If(items[0].c, L.Over(Block(items[0].thn)), Skip)
  }

  /** Whether the condition holds before the loop. */
  predicate Entered(items: seq<Item>, env: map<string, Value>, w: World, I: Interp)
    requires |items| == 1 && items[0].IfItem?
  {
    I.truthy(Eval(items[0].c, env, w, I).0)
  }

  /** When the condition fails the whole loop runs empty. */
  lemma RunsEmpty(L: Loop, items: seq<Item>, env: map<string, Value>, w: World, fuel: nat, I: Interp)
    requires Quiet(I) && Omittable(L, items) && !Entered(items, env, w, I)
    ensures Exec(Whole(L, items), env, w, fuel, I) ==
            Turns(L.Over(Skip), EvalAll(L.inputs, env, w, I).0, 0, 0, env, w, fuel, I)
    ensures Exec(Guarded(L, items), env, w, fuel, I) == Run(Next, env, w)
  {
    UnswitchingPreserves(L, items, 0, env, w, fuel, I);
    assert LowerAll(items[..0]) + items[0].els.Stmts() + LowerAll(items[1..]) == [];
    InvariantMeans(items[0].c, Block(LowerAll(items)));
    QuietEval(items[0].c, env, w, I);
    QuietEvalAll(L.inputs, env, w, I);
  }

  /** Leaving out the else loop: whenever the original loop gets to its end, so does the guarded one, in
    * the same world and with the same values everywhere but in the loop variable, which it sets only if
    * the condition holds. */
  lemma OmittedElsePreserves(L: Loop, items: seq<Item>, env: map<string, Value>, w: World, fuel: nat, I: Interp)
    requires Quiet(I) && Omittable(L, items)
    ensures var r, q := Exec(Whole(L, items), env, w, fuel, I), Exec(Guarded(L, items), env, w, fuel, I);
            if Entered(items, env, w, I) then q == r
            else q == Run(Next, env, w) && (r.flow.Next? || r.flow.OutOfFuel?) && r.world == w &&
                 r.env - {L.k} == env - {L.k}
  {
    if Entered(items, env, w, I) {
      UnswitchingPreserves(L, items, 0, env, w, fuel, I);
      assert LowerAll(items[..0]) + items[0].thn + LowerAll(items[1..]) == items[0].thn;
    } else {
      RunsEmpty(L, items, env, w, fuel, I);
      EmptyTurns(L, EvalAll(L.inputs, env, w, I).0, 0, 0, env, w, fuel, I);
    }
  }

  /** What a loop header alone does to the variable when nothing in the body changes it. */
  datatype Header = SetsNothing | Sets(v: Value) | Unfinished

  function HeaderEnd(kind: string, vs: seq<Value>, n: nat, cur: Value, before: Header, w: World, fuel: nat, I: Interp)
    : Header
    decreases fuel
  {
    if fuel == 0 then Unfinished else
    match I.turn(kind, vs, n, cur, w).0
    case Stop => before
    case StopWith(v) => Sets(v)
    case Go(v) => HeaderEnd(kind, vs, n + 1, v, Sets(v), w, fuel - 1, I)
  }

  function Applied(env: map<string, Value>, k: string, h: Header): map<string, Value> {
    if h.Sets? then env[k := h.v] else env
  }

  /** A loop with an empty body does what its header does. */
  lemma {:induction false} EmptyTurnsEnd(L: Loop, vs: seq<Value>, n: nat, cur: Value, env: map<string, Value>,
                                         before: Header, w: World, fuel: nat, I: Interp)
    requires Quiet(I) && !before.Unfinished?
    ensures var r := Turns(L.Over(Skip), vs, n, cur, Applied(env, L.k, before), w, fuel, I);
            var h := HeaderEnd(L.kind, vs, n, cur, before, w, fuel, I);
            if h.Unfinished? then r.flow.OutOfFuel? else r == Run(Next, Applied(env, L.k, h), w)
    decreases fuel
  {
    if fuel > 0 {
      var turn := I.turn(L.kind, vs, n, cur, w).0;
      if turn.Go? || turn.StopWith? { assert Applied(env, L.k, before)[L.k := turn.v] == env[L.k := turn.v]; }
      if turn.Go? { EmptyTurnsEnd(L, vs, n + 1, turn.v, env, Sets(turn.v), w, fuel - 1, I); }
    }
  }

  /** The header makes no turn, or its last one leaves the value the variable had before the loop. */
  predicate KeepsVariable(L: Loop, env: map<string, Value>, w: World, fuel: nat, I: Interp) {
    match HeaderEnd(L.kind, EvalAll(L.inputs, env, w, I).0, 0, 0, SetsNothing, w, fuel, I)
    case SetsNothing => true
    case Sets(v) => L.k in env && env[L.k] == v
    case Unfinished => false
  }

  /** The two agree on everything, the loop variable included, if and only if the condition holds or the
    * header leaves the variable as it was. */
  lemma OmittedElseAgreesIff(L: Loop, items: seq<Item>, env: map<string, Value>, w: World, fuel: nat, I: Interp)
    requires Quiet(I) && Omittable(L, items)
    ensures Exec(Guarded(L, items), env, w, fuel, I) == Exec(Whole(L, items), env, w, fuel, I) <==>
            Entered(items, env, w, I) || KeepsVariable(L, env, w, fuel, I)
  {
    OmittedElsePreserves(L, items, env, w, fuel, I);
    if !Entered(items, env, w, I) {
      RunsEmpty(L, items, env, w, fuel, I);
      var vs := EvalAll(L.inputs, env, w, I).0;
      EmptyTurnsEnd(L, vs, 0, 0, env, SetsNothing, w, fuel, I);
      var h := HeaderEnd(L.kind, vs, 0, 0, SetsNothing, w, fuel, I);
      if h.Sets? { SameUpdate(env, L.k, h.v); }
    }
  }

  lemma SameUpdate(env: map<string, Value>, k: string, v: Value)
    ensures env == env[k := v] <==> k in env && env[k] == v
  {
    if env == env[k := v] { assert k in env[k := v]; }
  }

  /** Counting 1, 2 with 0 for false. */
  const COUNT_TO_TWO := Interp(
    (op: string, vs: seq<Value>, w: World) => (0, w),
    (v: Value) => v != 0,
    (kind: string, vs: seq<Value>, n: nat, cur: Value, w: World) => (if n < 2 then Go(n + 1) else Stop, w))

  /** for i = 1, 2 { if false { } }: the loop leaves i at 2, the emitted code leaves it unset. */
  lemma OmittedElseLosesVariable(w: World)
    ensures var L, items := Loop("range", "i", [Lit(1), Lit(2)]), [IfItem(Lit(0), [], NoElse)];
            Omittable(L, items) && Quiet(COUNT_TO_TWO) &&
            Exec(Whole(L, items), map[], w, 3, COUNT_TO_TWO) == Run(Next, map["i" := 2], w) &&
            Exec(Guarded(L, items), map[], w, 3, COUNT_TO_TWO) == Run(Next, map[], w)
  {
    var L, items := Loop("range", "i", [Lit(1), Lit(2)]), [IfItem(Lit(0), [], NoElse)];
    var body: Stmt<string> := If(Lit(0), Skip, Skip);
    assert Block(LowerAll(items)) == Then(body, Skip) by {
      assert LowerAll(items)[1..] == [];
      assert Lower(items[0]) == body;
    }
    var one: seq<Expr<string>> := [Lit(1)];
    assert L.inputs[..1] == one && one[..0] == [];
    RunsEmpty(L, items, map[], w, 3, COUNT_TO_TWO);
    var vs := EvalAll(L.inputs, map[], w, COUNT_TO_TWO).0;
    var e1: map<string, Value> := map["i" := 1];
    assert Turns(L.Over(Skip), vs, 2, 2, e1["i" := 2], w, 1, COUNT_TO_TWO) == Run(Next, map["i" := 2], w);
    assert Turns(L.Over(Skip), vs, 1, 1, e1, w, 2, COUNT_TO_TWO) == Run(Next, map["i" := 2], w);
  }
}
