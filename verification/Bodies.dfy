/** Function bodies and what running them does. Operators, calls and loop headers are interpreted by a
  * parameter, so that a result here holds whatever they mean. */
module Bodies {

  type Value = int
  type World = int

  // ----- bodies, over names or over registers -----

  datatype Expr<K> =
    | Lit(v: Value)
    | Var(k: K)
    | Apply(op: string, args: seq<Expr<K>>)
    | Cond(c: Expr<K>, a: Expr<K>, b: Expr<K>)

  /** A block is Skip or a statement followed by a block; an else-if is an If in `els`. */
  datatype Stmt<K> =
    | Skip
    | Then(s: Stmt<K>, rest: Stmt<K>)
    | Assign(k: K, e: Expr<K>)
    | Effect(e: Expr<K>)
    | If(c: Expr<K>, thn: Stmt<K>, els: Stmt<K>)
    | While(c: Expr<K>, body: Stmt<K>)
    | For(kind: string, k: K, inputs: seq<Expr<K>>, body: Stmt<K>)
    | Return(e: Expr<K>)
    | Break
    | Continue

  /** What operators, calls and loop headers do; they may read and change the world. */
  datatype Turn = Stop | StopWith(v: Value) | Go(v: Value)

  datatype Interp = Interp(
    apply: (string, seq<Value>, World) -> (Value, World),
    truthy: Value -> bool,
    turn: (string, seq<Value>, nat, Value, World) -> (Turn, World))

  function Refs<K>(e: Expr<K>): set<K> {
    match e
    case Lit(_) => {}
    case Var(k) => {k}
    case Apply(_, args) => RefsAll(args)
    case Cond(c, a, b) => Refs(c) + Refs(a) + Refs(b)
  }

  function RefsAll<K>(es: seq<Expr<K>>): set<K> {
    if es == [] then {} else RefsAll(es[..|es| - 1]) + Refs(es[|es| - 1])
  }

  /** Everything a statement reads or writes. */
  function StmtRefs<K>(s: Stmt<K>): set<K> {
    match s
    case Skip => {}
    case Then(a, rest) => StmtRefs(a) + StmtRefs(rest)
    case Assign(k, e) => {k} + Refs(e)
    case Effect(e) => Refs(e)
    case If(c, thn, els) => Refs(c) + StmtRefs(thn) + StmtRefs(els)
    case While(c, body) => Refs(c) + StmtRefs(body)
    case For(_, k, inputs, body) => {k} + RefsAll(inputs) + StmtRefs(body)
    case Return(e) => Refs(e)
    case Break => {}
    case Continue => {}
  }

  // ----- running a body -----

  datatype Flow = Next | Broke | Continued | Returned(v: Value) | OutOfFuel

  datatype Run<K> = Run(flow: Flow, env: map<K, Value>, world: World)

  function Get<K>(env: map<K, Value>, k: K): Value { if k in env then env[k] else 0 }

  function Eval<K>(e: Expr<K>, env: map<K, Value>, w: World, I: Interp): (Value, World) {
    match e
    case Lit(v) => (v, w)
    case Var(k) => (Get(env, k), w)
    case Apply(op, args) => (var (vs, w1) := EvalAll(args, env, w, I); I.apply(op, vs, w1))
    case Cond(c, a, b) =>
      (var (v, w1) := Eval(c, env, w, I); if I.truthy(v) then Eval(a, env, w1, I) else Eval(b, env, w1, I))
  }

  function EvalAll<K>(es: seq<Expr<K>>, env: map<K, Value>, w: World, I: Interp): (seq<Value>, World) {
    if es == [] then ([], w) else
      var (vs, w1) := EvalAll(es[..|es| - 1], env, w, I);
      var (v, w2) := Eval(es[|es| - 1], env, w1, I);
      (vs + [v], w2)
  }

  function Exec<K>(s: Stmt<K>, env: map<K, Value>, w: World, fuel: nat, I: Interp): Run<K>
    decreases fuel, s, 1
  {
    match s
    case Skip => Run(Next, env, w)
    case Then(a, rest) =>
      (var r := Exec(a, env, w, fuel, I); if r.flow.Next? then Exec(rest, r.env, r.world, fuel, I) else r)
    case Assign(k, e) => (var (v, w1) := Eval(e, env, w, I); Run(Next, env[k := v], w1))
    case Effect(e) => Run(Next, env, Eval(e, env, w, I).1)
    case If(c, thn, els) =>
      (var (v, w1) := Eval(c, env, w, I); Exec(if I.truthy(v) then thn else els, env, w1, fuel, I))
    case While(c, body) =>
      if fuel == 0 then Run(OutOfFuel, env, w) else
        var (v, w1) := Eval(c, env, w, I);
        if !I.truthy(v) then Run(Next, env, w1) else
          var r := Exec(body, env, w1, fuel, I);
          if r.flow.Broke? then Run(Next, r.env, r.world)
          else if r.flow.Next? || r.flow.Continued? then Exec(s, r.env, r.world, fuel - 1, I)
          else r
    case For(_, _, inputs, _) => (var (vs, w1) := EvalAll(inputs, env, w, I); Turns(s, vs, 0, 0, env, w1, fuel, I))
    case Return(e) => (var (v, w1) := Eval(e, env, w, I); Run(Returned(v), env, w1))
    case Break => Run(Broke, env, w)
    case Continue => Run(Continued, env, w)
  }

  /** The turns of a For from the n-th on; the header sees the loop variable's value but not on
    * turn 0, where it may be unset. */
  function Turns<K>(s: Stmt<K>, vs: seq<Value>, n: nat, cur: Value, env: map<K, Value>, w: World, fuel: nat,
                    I: Interp): Run<K>
    requires s.For?
    decreases fuel, s, 0
  {
    if fuel == 0 then Run(OutOfFuel, env, w) else
      var (turn, w1) := I.turn(s.kind, vs, n, cur, w);
      match turn
      case Stop => Run(Next, env, w1)
      case StopWith(v) => Run(Next, env[s.k := v], w1)
      case Go(v) =>
        (var r := Exec(s.body, env[s.k := v], w1, fuel, I);
         if r.flow.Broke? then Run(Next, r.env, r.world)
         else if r.flow.Next? || r.flow.Continued?
         then Turns(s, vs, n + 1, Get(r.env, s.k), r.env, r.world, fuel - 1, I)
         else r)
  }

  // ----- what running a body depends on and changes -----

  /** A value depends only on the names read. */
  lemma {:induction false} EvalReads<K>(e: Expr<K>, env: map<K, Value>, env': map<K, Value>, w: World, I: Interp)
    requires forall k :: k in Refs(e) ==> Get(env, k) == Get(env', k)
    ensures Eval(e, env, w, I) == Eval(e, env', w, I)
    decreases e, 1
  {
    match e
    case Lit(_) =>
    case Var(k) => assert k in Refs(e);
    case Apply(op, args) => EvalAllReads(args, env, env', w, I);
    case Cond(c, a, b) =>
      EvalReads(c, env, env', w, I);
      var w1 := Eval(c, env, w, I).1;
      EvalReads(a, env, env', w1, I);
      EvalReads(b, env, env', w1, I);
  }

  lemma {:induction false} EvalAllReads<K>(es: seq<Expr<K>>, env: map<K, Value>, env': map<K, Value>, w: World,
                                           I: Interp)
    requires forall k :: k in RefsAll(es) ==> Get(env, k) == Get(env', k)
    ensures EvalAll(es, env, w, I) == EvalAll(es, env', w, I)
    decreases es, 0
  {
    if es != [] {
      var n := |es| - 1;
      EvalAllReads(es[..n], env, env', w, I);
      EvalReads(es[n], env, env', EvalAll(es[..n], env, w, I).1, I);
    }
  }

  /** body_assigns_name. */
  function Assigned<K>(s: Stmt<K>): set<K> {
    match s
    case Then(a, rest) => Assigned(a) + Assigned(rest)
    case Assign(k, _) => {k}
    case If(_, thn, els) => Assigned(thn) + Assigned(els)
    case While(_, body) => Assigned(body)
    case For(_, k, _, body) => {k} + Assigned(body)
    case _ => {}
  }

  /** A statement and the statements inside it. */
  ghost function Parts<K>(s: Stmt<K>): set<Stmt<K>> {
    {s} + match s
          case Then(a, rest) => Parts(a) + Parts(rest)
          case If(_, thn, els) => Parts(thn) + Parts(els)
          case While(_, body) => Parts(body)
          case For(_, _, _, body) => Parts(body)
          case _ => {}
  }

  /** Exactly the targets of assignments and the variables of for loops are assigned. */
  lemma {:induction false} AssignedIff<K>(s: Stmt<K>, x: K)
    ensures x in Assigned(s) <==> exists t :: t in Parts(s) && ((t.Assign? || t.For?) && t.k == x)
  {
    match s
    case Then(a, rest) =>
      AssignedIff(a, x);
      AssignedIff(rest, x);
    case If(_, thn, els) =>
      AssignedIff(thn, x);
      AssignedIff(els, x);
    case While(_, body) => AssignedIff(body, x);
    case For(_, k, _, body) =>
      AssignedIff(body, x);
      assert s in Parts(s);
    case _ => assert s in Parts(s);
  }

  /** Names a statement does not assign keep their values, however it ends. */
  lemma {:induction false} ExecFrame<K>(s: Stmt<K>, env: map<K, Value>, w: World, fuel: nat, I: Interp, x: K)
    requires x !in Assigned(s)
    ensures var r := Exec(s, env, w, fuel, I); (x in r.env <==> x in env) && Get(r.env, x) == Get(env, x)
    decreases fuel, s, 1
  {
    match s
    case Then(a, rest) =>
      ExecFrame(a, env, w, fuel, I, x);
      var r := Exec(a, env, w, fuel, I);
      ExecFrame(rest, r.env, r.world, fuel, I, x);
    case If(c, thn, els) =>
      var w1 := Eval(c, env, w, I).1;
      ExecFrame(thn, env, w1, fuel, I, x);
      ExecFrame(els, env, w1, fuel, I, x);
    case While(c, body) =>
      if fuel > 0 {
        var w1 := Eval(c, env, w, I).1;
        ExecFrame(body, env, w1, fuel, I, x);
        var r := Exec(body, env, w1, fuel, I);
        ExecFrame(s, r.env, r.world, fuel - 1, I, x);
      }
    case For(_, _, inputs, _) =>
      var (vs, w1) := EvalAll(inputs, env, w, I);
      TurnsFrame(s, vs, 0, 0, env, w1, fuel, I, x);
    case _ =>
  }

  lemma {:induction false} TurnsFrame<K>(s: Stmt<K>, vs: seq<Value>, n: nat, cur: Value, env: map<K, Value>, w: World,
                                         fuel: nat, I: Interp, x: K)
    requires s.For? && x !in Assigned(s)
    ensures var r := Turns(s, vs, n, cur, env, w, fuel, I); (x in r.env <==> x in env) && Get(r.env, x) == Get(env, x)
    decreases fuel, s, 0
  {
    if fuel > 0 {
      var (turn, w1) := I.turn(s.kind, vs, n, cur, w);
      if turn.Go? {
        ExecFrame(s.body, env[s.k := turn.v], w1, fuel, I, x);
        var r := Exec(s.body, env[s.k := turn.v], w1, fuel, I);
        TurnsFrame(s, vs, n + 1, Get(r.env, s.k), r.env, r.world, fuel - 1, I, x);
      }
    }
  }
}
