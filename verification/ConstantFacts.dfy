/** Constant facts about locals through branches, table loops and merges, and the dropping of branches
  * they decide: opt_branch_merge.c:11-52, codegen_if.c:94-234, codegen_for.c:618-664,
  * codegen_stmt.c:197-208, 230-296, 592-627, opt_licm.c:443-454. */
module ConstantFacts {
  import opened ConstantFolding
  import opened Sequences

  /** Call-free bodies on numeric variables; a table loop binds k to each item in turn. */
  datatype Stmt =
    | Skip
    | Then(s: Stmt, rest: Stmt)
    | Assign(x: string, e: Expr)
    | If(branches: Tail)
    | ForEach(k: string, table: string, body: Stmt)
    | Return(e: Expr)
    | Break
    | Continue

  /** An if statement is If(Elif(..)); what follows its first branch is the else-if chain or the else. */
  datatype Tail = NoElse | Else(s: Stmt) | Elif(c: Cond, thn: Stmt, tail: Tail)

  // ----- running -----

  datatype Flow = Next | Broke | Continued | Returned(v: real)

  datatype Run = Run(flow: Flow, env: Env)

  /** The items a table holds when its loop starts. */
  type Tables = (string, Env) -> seq<real>

  function Exec(s: Stmt, env: Env, T: Tables): Run
    decreases s, 0
  {
    match s
    case Skip => Run(Next, env)
    case Then(a, rest) => (var r := Exec(a, env, T); if r.flow.Next? then Exec(rest, r.env, T) else r)
    case Assign(x, e) => Run(Next, env[x := Value(e, env)])
    case If(branches) => ExecTail(branches, env, T)
    case ForEach(k, table, body) => Each(k, body, T(table, env), env, T)
    case Return(e) => Run(Returned(Value(e, env)), env)
    case Break => Run(Broke, env)
    case Continue => Run(Continued, env)
  }

  function ExecTail(t: Tail, env: Env, T: Tables): Run
    decreases t, 0
  {
    match t
    case NoElse => Run(Next, env)
    case Else(s) => Exec(s, env, T)
    case Elif(c, thn, tail) => if Truth(c, env) then Exec(thn, env, T) else ExecTail(tail, env, T)
  }

  function Each(k: string, body: Stmt, xs: seq<real>, env: Env, T: Tables): Run
    decreases body, 1, |xs|
  {
    if xs == [] then Run(Next, env) else
      var r := Exec(body, env[k := xs[0]], T);
      if r.flow.Broke? then Run(Next, r.env)
      else if r.flow.Next? || r.flow.Continued? then Each(k, body, xs[1..], r.env, T)
      else r
  }

  /** body_assigns_name. */
  function Assigned(s: Stmt): set<string> {
    match s
    case Then(a, rest) => Assigned(a) + Assigned(rest)
    case Assign(x, _) => {x}
    case If(branches) => AssignedTail(branches)
    case ForEach(k, _, body) => {k} + Assigned(body)
    case _ => {}
  }

  function AssignedTail(t: Tail): set<string> {
    match t
    case NoElse => {}
    case Else(s) => Assigned(s)
    case Elif(_, thn, tail) => Assigned(thn) + AssignedTail(tail)
  }

  /** A statement and the statements inside it. */
  ghost function Parts(s: Stmt): set<Stmt> {
    {s} + match s
          case Then(a, rest) => Parts(a) + Parts(rest)
          case If(branches) => TailParts(branches)
          case ForEach(_, _, body) => Parts(body)
          case _ => {}
  }

  ghost function TailParts(t: Tail): set<Stmt> {
    match t
    case NoElse => {}
    case Else(s) => Parts(s)
    case Elif(_, thn, tail) => Parts(thn) + TailParts(tail)
  }

  predicate Sets(s: Stmt, x: string) { (s.Assign? && s.x == x) || (s.ForEach? && s.k == x) }

  /** Exactly the targets of assignments and the variables of table loops are assigned. */
  lemma {:induction false} AssignedIff(s: Stmt, x: string)
    ensures x in Assigned(s) <==> exists t :: t in Parts(s) && Sets(t, x)
    decreases s
  {
    assert s in Parts(s);
    match s
    case Then(a, rest) =>
      AssignedIff(a, x);
      AssignedIff(rest, x);
    case If(branches) => AssignedTailIff(branches, x);
    case ForEach(k, _, body) =>
      AssignedIff(body, x);
      assert Sets(s, x) <==> k == x;
    case _ =>
      assert Parts(s) == {s};
      assert x in Assigned(s) <==> Sets(s, x);
  }

  lemma {:induction false} AssignedTailIff(t: Tail, x: string)
    ensures x in AssignedTail(t) <==> exists s :: s in TailParts(t) && Sets(s, x)
    decreases t
  {
    match t
    case NoElse =>
    case Else(s) => AssignedIff(s, x);
    case Elif(_, thn, tail) =>
      AssignedIff(thn, x);
      AssignedTailIff(tail, x);
  }

  /** stmt_always_exits. */
  predicate AlwaysExits(s: Stmt) {
    match s
    case Return(_) => true
    case Break => true
    case Continue => true
    case Then(a, rest) => AlwaysExits(a) || AlwaysExits(rest)
    case If(branches) => TailExits(branches)
    case _ => false
  }

  predicate TailExits(t: Tail) {
    match t
    case NoElse => false
    case Else(s) => AlwaysExits(s)
    case Elif(_, thn, tail) => AlwaysExits(thn) && TailExits(tail)
  }

  // ----- facts and emission as functions -----

  /** const survives a merge only if both sides agree on the same value. */
  function Meet(a: Env, b: Env): Env { map x | x in a && x in b && a[x] == b[x] :: a[x] }

  function AfterAssign(facts: Env, x: string, e: Expr): Env {
    match FoldNumber(e, facts)
    case Known(v) => facts[x := v]
    case Unknown => facts - {x}
  }

  datatype Emitted<S> = Emitted(code: S, facts: Env)

  /** What is emitted for s under the given facts, and the facts after it. */
  function Emit(s: Stmt, facts: Env): Emitted<Stmt> {
    match s
    case Then(a, rest) =>
      var first := Emit(a, facts);
      if AlwaysExits(a) then first
      else (var second := Emit(rest, first.facts); Emitted(Then(first.code, second.code), second.facts))
    case Assign(x, e) => Emitted(s, AfterAssign(facts, x, e))
    case If(branches) => EmitIf(branches, facts)
    case ForEach(k, table, body) =>
      var entry := facts - (Assigned(body) + {k});
      Emitted(ForEach(k, table, Emit(body, entry).code), entry)
    case _ => Emitted(s, facts)
  }

  /** codegen_if_statement: a condition that folds leaves one branch, or the rest of the chain as an if
    * of its own, which may fold too. */
  function EmitIf(t: Tail, facts: Env): Emitted<Stmt> {
    match t
    case NoElse => Emitted(Skip, facts)
    case Else(s) => Emit(s, facts)
    case Elif(c, thn, tail) =>
      (match FoldBool(c, facts)
       case Known(b) => if b then Emit(thn, facts) else EmitIf(tail, facts)
       case Unknown =>
         var t := Emit(thn, facts);
         var rest := EmitTail(tail, facts, t.facts);
         Emitted(If(Elif(c, t.code, rest.code)), rest.facts))
  }

  /** The branches after the first, each from the entry facts; their exits are met one by one. */
  function EmitTail(t: Tail, entry: Env, merged: Env): Emitted<Tail> {
    match t
    case NoElse => Emitted(NoElse, Meet(merged, entry))
    case Else(s) => (var e := Emit(s, entry); Emitted(Else(e.code), Meet(merged, e.facts)))
    case Elif(c, thn, tail) =>
      var e := Emit(thn, entry);
      var rest := EmitTail(tail, entry, Meet(merged, e.facts));
      Emitted(Elif(c, e.code, rest.code), rest.facts)
  }

  // ----- the facts are true, and the emitted code does what the source does -----

  ghost predicate Sub(a: Env, b: Env) { forall x :: x in a ==> x in b && a[x] == b[x] }

  /** Merging only forgets. */
  lemma {:induction false} TailForgets(t: Tail, entry: Env, merged: Env)
    ensures Sub(EmitTail(t, entry, merged).facts, merged)
    decreases t
  {
    match t
    case NoElse =>
    case Else(_) =>
    case Elif(_, thn, tail) => TailForgets(tail, entry, Meet(merged, Emit(thn, entry).facts));
  }

  lemma {:induction false} Exits(s: Stmt, env: Env, T: Tables)
    requires AlwaysExits(s)
    ensures !Exec(s, env, T).flow.Next?
    decreases s
  {
    match s
    case Then(a, rest) =>
      if AlwaysExits(a) {
        Exits(a, env, T);
      } else if Exec(a, env, T).flow.Next? {
        Exits(rest, Exec(a, env, T).env, T);
      }
    case If(branches) => ExitsTail(branches, env, T);
    case _ =>
  }

  lemma {:induction false} ExitsTail(t: Tail, env: Env, T: Tables)
    requires TailExits(t)
    ensures !ExecTail(t, env, T).flow.Next?
    decreases t
  {
    match t
    case Else(s) => Exits(s, env, T);
    case Elif(_, thn, tail) =>
      Exits(thn, env, T);
      ExitsTail(tail, env, T);
  }

  lemma {:induction false} Frame(s: Stmt, env: Env, T: Tables, x: string)
    requires x !in Assigned(s)
    ensures var r := Exec(s, env, T); (x in r.env <==> x in env) && Get(r.env, x) == Get(env, x)
    decreases s, 0
  {
    match s
    case Then(a, rest) =>
      Frame(a, env, T, x);
      Frame(rest, Exec(a, env, T).env, T, x);
    case If(branches) => FrameTail(branches, env, T, x);
    case ForEach(k, table, body) => FrameEach(k, body, T(table, env), env, T, x);
    case _ =>
  }

  lemma {:induction false} FrameTail(t: Tail, env: Env, T: Tables, x: string)
    requires x !in AssignedTail(t)
    ensures var r := ExecTail(t, env, T); (x in r.env <==> x in env) && Get(r.env, x) == Get(env, x)
    decreases t, 0
  {
    match t
    case NoElse =>
    case Else(s) => Frame(s, env, T, x);
    case Elif(_, thn, tail) =>
      Frame(thn, env, T, x);
      FrameTail(tail, env, T, x);
  }

  lemma {:induction false} FrameEach(k: string, body: Stmt, xs: seq<real>, env: Env, T: Tables, x: string)
    requires x !in Assigned(body) && x != k
    ensures var r := Each(k, body, xs, env, T); (x in r.env <==> x in env) && Get(r.env, x) == Get(env, x)
    decreases body, 1, |xs|
  {
    if xs != [] {
      Frame(body, env[k := xs[0]], T, x);
      FrameEach(k, body, xs[1..], Exec(body, env[k := xs[0]], T).env, T, x);
    }
  }

  /** The emitted code runs like the source, and facts after it are true when it gets to its end. */
  ghost predicate Agrees(r: Run, q: Run, after: Env) { q == r && (r.flow.Next? ==> FactsHold(after, r.env)) }

  lemma {:induction false} EmitPreserves(s: Stmt, facts: Env, env: Env, T: Tables)
    requires FactsHold(facts, env)
    ensures Agrees(Exec(s, env, T), Exec(Emit(s, facts).code, env, T), Emit(s, facts).facts)
    decreases s, 0
  {
    match s
    case Then(a, rest) =>
      EmitPreserves(a, facts, env, T);
      if AlwaysExits(a) {
        Exits(a, env, T);
      } else if Exec(a, env, T).flow.Next? {
        EmitPreserves(rest, Emit(a, facts).facts, Exec(a, env, T).env, T);
      }
    case Assign(_, e) => FoldNumberSound(e, facts, env);
    case If(branches) => IfPreserves(branches, facts, env, T);
    case ForEach(k, table, body) => EachPreserves(k, body, T(table, env), facts - (Assigned(body) + {k}), env, T);
    case _ =>
  }

  lemma {:induction false} IfPreserves(t: Tail, facts: Env, env: Env, T: Tables)
    requires FactsHold(facts, env)
    ensures Agrees(ExecTail(t, env, T), Exec(EmitIf(t, facts).code, env, T), EmitIf(t, facts).facts)
    decreases t, 0
  {
    match t
    case NoElse =>
    case Else(s) => EmitPreserves(s, facts, env, T);
    case Elif(c, thn, tail) =>
      FoldBoolSound(c, facts, env);
      EmitPreserves(thn, facts, env, T);
      if FoldBool(c, facts).Known? {
        IfPreserves(tail, facts, env, T);
      } else {
        var first := Emit(thn, facts);
        TailPreserves(tail, facts, first.facts, env, T);
        TailForgets(tail, facts, first.facts);
      }
  }

  lemma {:induction false} TailPreserves(t: Tail, entry: Env, merged: Env, env: Env, T: Tables)
    requires FactsHold(entry, env)
    ensures var e := EmitTail(t, entry, merged); var r := ExecTail(t, env, T);
            ExecTail(e.code, env, T) == r && (r.flow.Next? ==> FactsHold(e.facts, r.env))
    decreases t, 0
  {
    match t
    case NoElse =>
    case Else(s) => EmitPreserves(s, entry, env, T);
    case Elif(c, thn, tail) =>
      EmitPreserves(thn, entry, env, T);
      var e := Emit(thn, entry);
      TailPreserves(tail, entry, Meet(merged, e.facts), env, T);
      TailForgets(tail, entry, Meet(merged, e.facts));
  }

  /** Facts about names a table loop does not assign hold on every turn and after it, breaks included. */
  lemma {:induction false} EachPreserves(k: string, body: Stmt, xs: seq<real>, entry: Env, env: Env, T: Tables)
    requires FactsHold(entry, env) && k !in entry && entry.Keys !! Assigned(body)
    ensures var r := Each(k, body, xs, env, T);
            Each(k, Emit(body, entry).code, xs, env, T) == r && FactsHold(entry, r.env)
    decreases body, 1, |xs|
  {
    if xs != [] {
      var env1 := env[k := xs[0]];
      EmitPreserves(body, entry, env1, T);
      var r := Exec(body, env1, T);
      forall x | x in entry ensures x in r.env && r.env[x] == entry[x] { Frame(body, env1, T, x); }
      EachPreserves(k, body, xs[1..], entry, r.env, T);
    }
  }

  // ----- nothing that the facts decide is left, and no fact is given up early -----

  /** After x = e: the other facts stay, and x has a fact just when what is known settles e. */
  ghost predicate Learns(facts: Env, x: string, e: Expr, after: Env) {
    forall y, v: real :: Has(after, y, v) <==>
      if y == x then Settled(e, facts) && v == Value(e, facts) else Has(facts, y, v)
  }

  predicate Has(facts: Env, y: string, v: real) { y in facts && facts[y] == v }

  /** The facts that every one of several exits has. */
  ghost predicate Agreed(exits: seq<Env>, after: Env) {
    forall y, v: real :: Has(after, y, v) <==> forall i :: 0 <= i < |exits| ==> Has(exits[i], y, v)
  }

  /** The facts but those about some names. */
  ghost predicate Forgets(facts: Env, names: set<string>, after: Env) {
    forall y, v: real :: Has(after, y, v) <==> Has(facts, y, v) && y !in names
  }

  /** Walking emitted code with the facts at each point meets no if whose first condition they settle. */
  ghost predicate Reduced(code: Stmt, facts: Env, after: Env) {
    match code
    case Then(a, rest) => exists mid :: Reduced(a, facts, mid) && Reduced(rest, mid, after)
    case Assign(x, e) => Learns(facts, x, e, after)
    case If(branches) =>
      branches.Elif? && !SettledCond(branches.c, facts) &&
      exists exits :: ReducedTail(branches, facts, exits) && Agreed(exits, after)
    case ForEach(k, _, body) =>
      exists names, end :: Assigned(body) + {k} <= names && Forgets(facts, names, after) && Reduced(body, after, end)
    case _ => after == facts
  }

  /** exits are the facts at the ends of the branches, with those at the entry when there is no else. */
  ghost predicate ReducedTail(t: Tail, entry: Env, exits: seq<Env>) {
    match t
    case NoElse => exits == [entry]
    case Else(s) => |exits| == 1 && Reduced(s, entry, exits[0])
    case Elif(_, thn, tail) => |exits| > 0 && Reduced(thn, entry, exits[0]) && ReducedTail(tail, entry, exits[1..])
  }

  lemma {:induction false} EmitReduced(s: Stmt, facts: Env)
    ensures Reduced(Emit(s, facts).code, facts, Emit(s, facts).facts)
    decreases s, 0
  {
    match s
    case Then(a, rest) =>
      EmitReduced(a, facts);
      if !AlwaysExits(a) { EmitReduced(rest, Emit(a, facts).facts); }
    case Assign(x, e) => FoldNumberIff(e, facts);
    case If(branches) => IfReduced(branches, facts);
    case ForEach(k, _, body) =>
      var names := Assigned(body) + {k};
      EmitReduced(body, facts - names);
      EmitAssigns(body, facts - names);
      assert Forgets(facts, names, facts - names);
    case _ =>
  }

  lemma {:induction false} IfReduced(t: Tail, facts: Env)
    ensures Reduced(EmitIf(t, facts).code, facts, EmitIf(t, facts).facts)
    decreases t, 0
  {
    match t
    case NoElse =>
    case Else(s) => EmitReduced(s, facts);
    case Elif(c, thn, tail) =>
      FoldBoolIff(c, facts);
      EmitReduced(thn, facts);
      if SettledCond(c, facts) {
        IfReduced(tail, facts);
      } else {
        var first := Emit(thn, facts);
        var exits := TailReduced(tail, facts, first.facts);
        var rest := EmitTail(tail, facts, first.facts);
        assert ([first.facts] + exits)[1..] == exits;
        assert ReducedTail(Elif(c, first.code, rest.code), facts, [first.facts] + exits);
      }
  }

  /** The exits of the branches left, and the facts that they share with those before them. */
  lemma {:induction false} TailReduced(t: Tail, entry: Env, merged: Env) returns (exits: seq<Env>)
    ensures ReducedTail(EmitTail(t, entry, merged).code, entry, exits)
    ensures Agreed([merged] + exits, EmitTail(t, entry, merged).facts)
    decreases t, 0
  {
    match t
    case NoElse =>
      exits := [entry];
      MeetTwo(merged, entry);
    case Else(s) =>
      EmitReduced(s, entry);
      exits := [Emit(s, entry).facts];
      MeetTwo(merged, exits[0]);
    case Elif(_, thn, tail) =>
      EmitReduced(thn, entry);
      var e := Emit(thn, entry);
      var rest := TailReduced(tail, entry, Meet(merged, e.facts));
      exits := [e.facts] + rest;
      assert exits[1..] == rest;
      MeetAgreed(merged, e.facts, rest, EmitTail(tail, entry, Meet(merged, e.facts)).facts);
  }

  lemma MeetTwo(a: Env, b: Env)
    ensures Agreed([a] + [b], Meet(a, b))
  {
    var xs := [a] + [b];
    forall y, v: real ensures Has(Meet(a, b), y, v) <==> forall i :: 0 <= i < |xs| ==> Has(xs[i], y, v) {
      assert xs[0] == a && xs[1] == b;
    }
  }

  lemma MeetAgreed(a: Env, b: Env, rest: seq<Env>, after: Env)
    requires Agreed([Meet(a, b)] + rest, after)
    ensures Agreed([a] + ([b] + rest), after)
  {
    var xs, ys := [Meet(a, b)] + rest, [a] + ([b] + rest);
    forall y, v: real ensures Has(after, y, v) <==> forall i :: 0 <= i < |ys| ==> Has(ys[i], y, v) {
      if Has(after, y, v) {
        assert Has(xs[0], y, v);
        forall i | 0 <= i < |ys| ensures Has(ys[i], y, v) { assert i < 2 || ys[i] == xs[i - 1]; }
      } else if forall i :: 0 <= i < |ys| ==> Has(ys[i], y, v) {
        assert Has(ys[0], y, v) && Has(ys[1], y, v);
        forall i | 0 <= i < |xs| ensures Has(xs[i], y, v) { assert i == 0 || xs[i] == ys[i + 1]; }
      }
    }
  }

  /** Emission adds no assignments. */
  lemma {:induction false} EmitAssigns(s: Stmt, facts: Env)
    ensures Assigned(Emit(s, facts).code) <= Assigned(s)
    decreases s, 0
  {
    match s
    case Then(a, rest) =>
      EmitAssigns(a, facts);
      EmitAssigns(rest, Emit(a, facts).facts);
    case If(branches) => IfAssigns(branches, facts);
    case ForEach(k, _, body) => EmitAssigns(body, facts - (Assigned(body) + {k}));
    case _ =>
  }

  lemma {:induction false} IfAssigns(t: Tail, facts: Env)
    ensures Assigned(EmitIf(t, facts).code) <= AssignedTail(t)
    decreases t, 0
  {
    match t
    case NoElse =>
    case Else(s) => EmitAssigns(s, facts);
    case Elif(c, thn, tail) =>
      EmitAssigns(thn, facts);
      IfAssigns(tail, facts);
      TailAssigns(tail, facts, Emit(thn, facts).facts);
  }

  lemma {:induction false} TailAssigns(t: Tail, entry: Env, merged: Env)
    ensures AssignedTail(EmitTail(t, entry, merged).code) <= AssignedTail(t)
    decreases t, 0
  {
    match t
    case NoElse =>
    case Else(s) => EmitAssigns(s, entry);
    case Elif(_, thn, tail) =>
      EmitAssigns(thn, entry);
      TailAssigns(tail, entry, Meet(merged, Emit(thn, entry).facts));
  }

  /** A chain whose first condition is settled leaves the code and the facts of the branch that its truth
    * selects, in every state the facts are true of. */
  lemma DecidedIf(c: Cond, thn: Stmt, tail: Tail, facts: Env, env: Env)
    requires SettledCond(c, facts) && FactsHold(facts, env)
    ensures Emit(If(Elif(c, thn, tail)), facts) ==
            if Truth(c, env) then Emit(thn, facts)
            else if tail.Else? then Emit(tail.s, facts)
            else if tail.Elif? then Emit(If(tail), facts)
            else Emitted(Skip, facts)
  {
    FoldBoolIff(c, facts);
    FoldBoolSound(c, facts, env);
    var t := Elif(c, thn, tail);
    assert Emit(If(t), facts) == EmitIf(t, facts) == if Truth(c, env) then Emit(thn, facts) else EmitIf(tail, facts);
  }

  /** A table loop gives up exactly the facts about the names its source assigns. */
  lemma LoopForgets(k: string, table: string, body: Stmt, facts: Env)
    ensures Forgets(facts, Assigned(body) + {k}, Emit(ForEach(k, table, body), facts).facts)
  {
  }

  // ----- what always exits -----

  /** The same statement but for its conditions. */
  predicate SameShape(s: Stmt, t: Stmt) {
    match s
    case Then(a, rest) => t.Then? && SameShape(a, t.s) && SameShape(rest, t.rest)
    case If(branches) => t.If? && SameShapeTail(branches, t.branches)
    case ForEach(k, table, body) => t.ForEach? && t.k == k && t.table == table && SameShape(body, t.body)
    case _ => t == s
  }

  predicate SameShapeTail(s: Tail, t: Tail) {
    match s
    case NoElse => t.NoElse?
    case Else(a) => t.Else? && SameShape(a, t.s)
    case Elif(_, thn, tail) => t.Elif? && SameShape(thn, t.thn) && SameShapeTail(tail, t.tail)
  }

  /** A statement counts as always exiting exactly when no choice of its conditions lets control past it. */
  lemma AlwaysExitsIff(s: Stmt)
    ensures AlwaysExits(s) <==>
            forall t: Stmt, env: Env, T: Tables :: SameShape(s, t) ==> !Exec(t, env, T).flow.Next?
  {
    if AlwaysExits(s) {
      forall t: Stmt, env: Env, T: Tables | SameShape(s, t) ensures !Exec(t, env, T).flow.Next? {
        ShapeExits(s, t);
        Exits(t, env, T);
      }
    } else {
      var T: Tables := (table, env) => [];
      var t := Past(s, map[], T);
      assert SameShape(s, t);
    }
  }

  lemma {:induction false} ShapeExits(s: Stmt, t: Stmt)
    requires SameShape(s, t)
    ensures AlwaysExits(s) == AlwaysExits(t)
    decreases s
  {
    match s
    case Then(a, rest) =>
      ShapeExits(a, t.s);
      ShapeExits(rest, t.rest);
    case If(branches) => ShapeExitsTail(branches, t.branches);
    case _ =>
  }

  lemma {:induction false} ShapeExitsTail(s: Tail, t: Tail)
    requires SameShapeTail(s, t)
    ensures TailExits(s) == TailExits(t)
    decreases s
  {
    match s
    case NoElse =>
    case Else(a) => ShapeExits(a, t.s);
    case Elif(_, thn, tail) =>
      ShapeExits(thn, t.thn);
      ShapeExitsTail(tail, t.tail);
  }

  /** Conditions that let control past a statement when no table has items. */
  lemma {:induction false} Past(s: Stmt, env: Env, T: Tables) returns (t: Stmt)
    requires !AlwaysExits(s) && forall table, e :: T(table, e) == []
    ensures SameShape(s, t) && Exec(t, env, T).flow.Next?
    decreases s
  {
    match s
    case Then(a, rest) =>
      var a' := Past(a, env, T);
      var rest' := Past(rest, Exec(a', env, T).env, T);
      t := Then(a', rest');
    case If(branches) =>
      var branches' := PastTail(branches, env, T);
      t := If(branches');
    case ForEach(_, _, body) =>
      SameShapeSelf(body);
      t := s;
    case _ => t := s;
  }

  lemma {:induction false} PastTail(s: Tail, env: Env, T: Tables) returns (t: Tail)
    requires !TailExits(s) && forall table, e :: T(table, e) == []
    ensures SameShapeTail(s, t) && ExecTail(t, env, T).flow.Next?
    decreases s
  {
    match s
    case NoElse => t := s;
    case Else(a) =>
      var a' := Past(a, env, T);
      t := Else(a');
    case Elif(_, thn, tail) =>
      if AlwaysExits(thn) {
        SameShapeSelf(thn);
        var tail' := PastTail(tail, env, T);
        t := Elif(Bool(false), thn, tail');
      } else {
        SameShapeSelfTail(tail);
        var thn' := Past(thn, env, T);
        t := Elif(Bool(true), thn', tail);
      }
  }

  lemma {:induction false} SameShapeSelf(s: Stmt)
    ensures SameShape(s, s)
    decreases s
  {
    match s
    case Then(a, rest) =>
      SameShapeSelf(a);
      SameShapeSelf(rest);
    case If(branches) => SameShapeSelfTail(branches);
    case ForEach(_, _, body) => SameShapeSelf(body);
    case _ =>
  }

  lemma {:induction false} SameShapeSelfTail(t: Tail)
    ensures SameShapeTail(t, t)
    decreases t
  {
    match t
    case NoElse =>
    case Else(s) => SameShapeSelf(s);
    case Elif(_, thn, tail) =>
      SameShapeSelf(thn);
      SameShapeSelfTail(tail);
  }

  // ----- the facts as the compiler's arrays -----

  /** The facts that flag and value arrays stand for. */
  ghost function FactsOf(names: seq<string>, known: seq<bool>, value: seq<real>): (facts: Env)
    requires |names| == |known| == |value| && Distinct(names)
    ensures forall x :: x in facts ==> x in names
    ensures forall i :: 0 <= i < |names| ==>
            (names[i] in facts <==> known[i]) && (known[i] ==> facts[names[i]] == value[i])
  {
    map i: int | 0 <= i < |names| && known[i] :: names[i] := value[i]
  }

  lemma FactsEqual(names: seq<string>, known: seq<bool>, value: seq<real>, facts: Env)
    requires |names| == |known| == |value| && Distinct(names) && facts.Keys <= (set x | x in names)
    requires forall i :: 0 <= i < |names| ==>
             (names[i] in facts <==> known[i]) && (known[i] ==> facts[names[i]] == value[i])
    ensures FactsOf(names, known, value) == facts
  {
    var f := FactsOf(names, known, value);
    forall x | x in f ensures x in facts && f[x] == facts[x] {
      var i :| 0 <= i < |names| && names[i] == x;
    }
    forall x | x in facts ensures x in f {
      assert x in names;
      var i :| 0 <= i < |names| && names[i] == x;
    }
  }

  /** What the special case for x = x + 1 and x = x - 1 relies on. */
  lemma StepFold(names: seq<string>, known: seq<bool>, value: seq<real>, i: nat, e: Expr)
    requires |names| == |known| == |value| && Distinct(names) && i < |names|
    ensures e == Bin(Plus, Id(names[i]), Num(1.0)) ==>
              FoldNumber(e, FactsOf(names, known, value)) == if known[i] then Known(value[i] + 1.0) else Unknown
    ensures e == Bin(Minus, Id(names[i]), Num(1.0)) ==>
              FoldNumber(e, FactsOf(names, known, value)) == if known[i] then Known(value[i] - 1.0) else Unknown
  {
    var facts := FactsOf(names, known, value);
    assert FoldNumber(Id(names[i]), facts) == if known[i] then Known(value[i]) else Unknown;
  }

  /** Changing the flags of one local. */
  lemma OneFact(names: seq<string>, known: seq<bool>, value: seq<real>, known': seq<bool>, value': seq<real>, i: nat,
                f: Folded<real>)
    requires |names| == |known| == |value| == |known'| == |value'| && Distinct(names) && i < |names|
    requires forall j :: 0 <= j < |names| && j != i ==> known'[j] == known[j] && value'[j] == value[j]
    requires known'[i] == f.Known? && (f.Known? ==> value'[i] == f.v)
    ensures var facts := FactsOf(names, known, value);
            FactsOf(names, known', value') ==
            (match f case Known(v) => facts[names[i] := v] case Unknown => facts - {names[i]})
  {
    var facts := FactsOf(names, known, value);
    FactsEqual(names, known', value', match f case Known(v) => facts[names[i] := v] case Unknown => facts - {names[i]});
  }

  datatype Snap = Snap(known: seq<bool>, value: seq<real>)

  /** The names a body assigns are all locals. */
  predicate Within(s: Stmt, names: seq<string>) { forall x :: x in Assigned(s) ==> x in names }

  class Locals {
    const names: seq<string>
    const known: array<bool>
    const value: array<real>

    constructor (names: seq<string>)
      requires Distinct(names)
      ensures this.names == names && Valid() && Facts() == map[] && fresh(known) && fresh(value)
    {
      this.names := names;
      known := new bool[|names|](_ => false);
      value := new real[|names|](_ => 0.0);
      new;
      FactsEqual(names, known[..], value[..], map[]);
    }

    ghost predicate Valid()
    {
      Distinct(names) && known.Length == value.Length == |names|
    }

    ghost function Facts(): (facts: Env)
      requires Valid()
      reads known, value
    {
      FactsOf(names, known[..], value[..])
    }

    ghost predicate Fits(s: Snap) { |s.known| == |s.value| == |names| }

    ghost function SnapFacts(s: Snap): Env
      requires Valid() && Fits(s)
    {
      FactsOf(names, s.known, s.value)
    }

    /** snap_numbers. */
    method Snapshot() returns (s: Snap)
      requires Valid()
      ensures Fits(s) && SnapFacts(s) == Facts()
    {
      s := Snap(known[..], value[..]);
    }

    /** restore_numbers. */
    method Restore(s: Snap)
      requires Valid() && Fits(s)
      modifies known, value
      ensures Facts() == SnapFacts(s)
    {
      for i := 0 to |names|
        invariant forall j :: 0 <= j < i ==> known[j] == s.known[j] && value[j] == s.value[j]
      {
        known[i], value[i] := s.known[i], s.value[i];
      }
      assert known[..] == s.known && value[..] == s.value;
    }

    /** merge_numbers. */
    method Merge(a: Snap, b: Snap)
      requires Valid() && Fits(a) && Fits(b)
      modifies known, value
      ensures Facts() == Meet(SnapFacts(a), SnapFacts(b))
    {
      for i := 0 to |names|
        invariant forall j :: 0 <= j < i ==> known[j] == (a.known[j] && b.known[j] && a.value[j] == b.value[j])
        invariant forall j :: 0 <= j < i && known[j] ==> value[j] == a.value[j]
      {
        if a.known[i] && b.known[i] && a.value[i] == b.value[i] {
          known[i], value[i] := true, a.value[i];
        } else {
          known[i] := false;
        }
      }
      FactsEqual(names, known[..], value[..], Meet(SnapFacts(a), SnapFacts(b)));
    }

    /** invalidate_loop_consts. */
    method InvalidateLoop(body: Stmt, k: string)
      requires Valid()
      modifies known
      ensures Facts() == old(Facts()) - (Assigned(body) + {k})
    {
      ghost var before := known[..];
      for i := 0 to |names|
        invariant forall j :: 0 <= j < i ==> known[j] == (before[j] && names[j] != k && names[j] !in Assigned(body))
        invariant forall j :: i <= j < |names| ==> known[j] == before[j]
      {
        if names[i] == k {
          known[i] := false;
        } else if names[i] in Assigned(body) {
          known[i] := false;
        }
      }
      FactsEqual(names, known[..], value[..], old(Facts()) - (Assigned(body) + {k}));
    }

    /** The fold the compiler does with its arrays. */
    method FoldNow(e: Expr) returns (r: Folded<real>)
      requires Valid()
      ensures r == FoldNumber(e, Facts())
      decreases e
    {
      match e
      case Num(v) => return Known(v);
      case Id(x) =>
        var i := IndexOf(names, x);
        if i < 0 || !known[i] { return Unknown; }
        return Known(value[i]);
      case Neg(d) =>
        var v := FoldNow(d);
        if v.Unknown? { return Unknown; }
        return Known(-v.v);
      case Bin(op, l, r') =>
        var a := FoldNow(l);
        if a.Unknown? { return Unknown; }
        var b := FoldNow(r');
        if b.Unknown? { return Unknown; }
        return FoldOp(op, a.v, b.v);
    }

    method FoldCondNow(c: Cond) returns (r: Folded<bool>)
      requires Valid()
      ensures r == FoldBool(c, Facts())
      decreases c
    {
      match c
      case Bool(b) => return Known(b);
      case Compare(cmp, l, r') =>
        var a := FoldNow(l);
        var b := FoldNow(r');
        if a.Unknown? || b.Unknown? { return Unknown; }
        return Known(FoldCmp(cmp, a.v, b.v));
      case And(p, q) =>
        var a := FoldCondNow(p);
        var b := FoldCondNow(q);
        if a.Unknown? || b.Unknown? { return Unknown; }
        return Known(a.v && b.v);
      case Or(p, q) =>
        var a := FoldCondNow(p);
        var b := FoldCondNow(q);
        if a.Unknown? || b.Unknown? { return Unknown; }
        return Known(a.v || b.v);
    }

    /** The flag update of an assignment; x = x + 1 and x = x - 1 carry a known constant forward. */
    method Assigns(x: string, e: Expr)
      requires Valid() && x in names
      modifies known, value
      ensures Facts() == AfterAssign(old(Facts()), x, e)
    {
      hide FactsOf;
      var i := IndexOf(names, x);
      ghost var f, facts, wasKnown, wasValue := FoldNumber(e, Facts()), Facts(), known[..], value[..];
      StepFold(names, wasKnown, wasValue, i, e);
      if e == Bin(Plus, Id(x), Num(1.0)) || e == Bin(Minus, Id(x), Num(1.0)) {
        if known[i] { value[i] := if e.op.Plus? then value[i] + 1.0 else value[i] - 1.0; }
      } else {
        var v := FoldNow(e);
        if v.Known? {
          known[i], value[i] := true, v.v;
        } else {
          known[i] := false;
        }
      }
      OneFact(names, wasKnown, wasValue, known[..], value[..], i, f);
    }

    /** Emission of a statement, updating the facts in place as it goes. */
    method EmitStmt(s: Stmt) returns (code: Stmt)
      requires Valid() && Within(s, names)
      modifies known, value
      ensures Emitted(code, Facts()) == Emit(s, old(Facts()))
      decreases s, 0
    {
      match s
      case Then(a, rest) =>
        var first := EmitStmt(a);
        if AlwaysExits(a) { return first; }
        var second := EmitStmt(rest);
        return Then(first, second);
      case Assign(x, e) =>
        Assigns(x, e);
        return s;
      case If(branches) => code := EmitBranches(branches);
      case ForEach(k, table, body) =>
        InvalidateLoop(body, k);
        var entry := Snapshot();
        var inner := EmitStmt(body);
        Restore(entry);
        return ForEach(k, table, inner);
      case _ => return s;
    }

    /** codegen_if_statement. */
    method EmitBranches(t: Tail) returns (code: Stmt)
      requires Valid() && forall x :: x in AssignedTail(t) ==> x in names
      modifies known, value
      ensures Emitted(code, Facts()) == EmitIf(t, old(Facts()))
      decreases t, 1
    {
      match t
      case NoElse => return Skip;
      case Else(s) => code := EmitStmt(s);
      case Elif(c, thn, tail) =>
        var f := FoldCondNow(c);
        if f.Known? {
          if f.v { code := EmitStmt(thn); } else { code := EmitBranches(tail); }
          return;
        }
        var entry := Snapshot();
        var first := EmitStmt(thn);
        var afterThen := Snapshot();
        var rest := EmitChain(tail, entry, afterThen);
        return If(Elif(c, first, rest));
    }

    /** The loop over the else-if chain and the else, with the running intersection of the exits. */
    method EmitChain(t: Tail, entry: Snap, merged: Snap) returns (code: Tail)
      requires Valid() && Fits(entry) && Fits(merged) && forall x :: x in AssignedTail(t) ==> x in names
      modifies known, value
      ensures Emitted(code, Facts()) == EmitTail(t, SnapFacts(entry), SnapFacts(merged))
      decreases t, 0
    {
      match t
      case NoElse =>
        Merge(merged, entry);
        return NoElse;
      case Else(s) =>
        Restore(entry);
        var inner := EmitStmt(s);
        var after := Snapshot();
        Merge(merged, after);
        return Else(inner);
      case Elif(c, thn, tail) =>
        Restore(entry);
        var inner := EmitStmt(thn);
        var after := Snapshot();
        Merge(merged, after);
        var met := Snapshot();
        var rest := EmitChain(tail, entry, met);
        return Elif(c, inner, rest);
    }
  }
}
