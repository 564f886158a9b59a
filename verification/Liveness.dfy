/** Why the linear scan may share registers: bodies run on the chosen registers behave as on names.
  * source/compiler/opt_linear_scan.c:9-51, opt_dce.c:10-134, codegen_fn.c:288-316. */
module Liveness {
  import opened Bodies
  import opened LinearScan
  import opened Sequences

  // ----- definite assignment: reads see only names assigned on every path to them -----

  /** The names surely assigned once s is over; leaving early promises everything. */
  function After<K>(s: Stmt<K>, known: set<K>, all: set<K>): set<K> {
    match s
    case Then(a, rest) => After(rest, After(a, known, all), all)
    case Assign(k, _) => known + {k}
    case If(_, thn, els) => After(thn, known, all) * After(els, known, all)
    case Return(_) => all
    case Break => all
    case Continue => all
    case _ => known
  }

  predicate Definite<K>(s: Stmt<K>, known: set<K>, all: set<K>) {
    match s
    case Skip => true
    case Then(a, rest) => Definite(a, known, all) && Definite(rest, After(a, known, all), all)
    case Assign(_, e) => Refs(e) <= known
    case Effect(e) => Refs(e) <= known
    case If(c, thn, els) => Refs(c) <= known && Definite(thn, known, all) && Definite(els, known, all)
    case While(c, body) => Refs(c) <= known && Definite(body, known, all)
    case For(_, k, inputs, body) => RefsAll(inputs) <= known && Definite(body, known + {k}, all)
    case Return(e) => Refs(e) <= known
    case Break => true
    case Continue => true
  }

  // ----- renaming names to registers -----

  function Rename<K, L>(e: Expr<K>, f: K -> L): Expr<L> {
    match e
    case Lit(v) => Lit(v)
    case Var(k) => Var(f(k))
    case Apply(op, args) => Apply(op, RenameAll(args, f))
    case Cond(c, a, b) => Cond(Rename(c, f), Rename(a, f), Rename(b, f))
  }

  function RenameAll<K, L>(es: seq<Expr<K>>, f: K -> L): (r: seq<Expr<L>>)
    ensures |r| == |es|
  {
    if es == [] then [] else RenameAll(es[..|es| - 1], f) + [Rename(es[|es| - 1], f)]
  }

  function RenameStmt<K, L>(s: Stmt<K>, f: K -> L): Stmt<L> {
    match s
    case Skip => Skip
    case Then(a, rest) => Then(RenameStmt(a, f), RenameStmt(rest, f))
    case Assign(k, e) => Assign(f(k), Rename(e, f))
    case Effect(e) => Effect(Rename(e, f))
    case If(c, thn, els) => If(Rename(c, f), RenameStmt(thn, f), RenameStmt(els, f))
    case While(c, body) => While(Rename(c, f), RenameStmt(body, f))
    case For(kind, k, inputs, body) => For(kind, f(k), RenameAll(inputs, f), RenameStmt(body, f))
    case Return(e) => Return(Rename(e, f))
    case Break => Break
    case Continue => Continue
  }

  lemma {:induction false} EvalRenamed<K, L>(e: Expr<K>, f: K -> L, env: map<K, Value>, regs: map<L, Value>, w: World,
                                             I: Interp)
    requires forall k :: k in Refs(e) ==> Get(regs, f(k)) == Get(env, k)
    ensures Eval(Rename(e, f), regs, w, I) == Eval(e, env, w, I)
    decreases e, 1
  {
    match e
    case Lit(_) =>
    case Var(k) => assert k in Refs(e);
    case Apply(op, args) => EvalAllRenamed(args, f, env, regs, w, I);
    case Cond(c, a, b) =>
      EvalRenamed(c, f, env, regs, w, I);
      var w1 := Eval(c, env, w, I).1;
      EvalRenamed(a, f, env, regs, w1, I);
      EvalRenamed(b, f, env, regs, w1, I);
  }

  lemma {:induction false} EvalAllRenamed<K, L>(es: seq<Expr<K>>, f: K -> L, env: map<K, Value>, regs: map<L, Value>,
                                                w: World, I: Interp)
    requires forall k :: k in RefsAll(es) ==> Get(regs, f(k)) == Get(env, k)
    ensures EvalAll(RenameAll(es, f), regs, w, I) == EvalAll(es, env, w, I)
    decreases es, 0
  {
    if es != [] {
      var n := |es| - 1;
      EvalAllRenamed(es[..n], f, env, regs, w, I);
      EvalRenamed(es[n], f, env, regs, EvalAll(es[..n], env, w, I).1, I);
      var rs := RenameAll(es, f);
      assert rs[..n] == RenameAll(es[..n], f) && rs[n] == Rename(es[n], f);
    }
  }

  // ----- positions -----

  /** What each position of a body touches, in program order. Each statement is one position; an If
    * is one for its condition followed by those of its branches. */
  function Uses<K>(s: Stmt<K>): seq<set<K>> {
    match s
    case Skip => []
    case Then(a, rest) => Uses(a) + Uses(rest)
    case If(c, thn, els) => [Refs(c)] + Uses(thn) + Uses(els)
    case _ => [StmtRefs(s)]
  }

  /** First and last position, counted from 1, that touches x; -1 if there is none. */
  function FirstUse<K(==)>(uses: seq<set<K>>, x: K): int {
    if uses == [] then -1 else
      var f := FirstUse(uses[..|uses| - 1], x);
      if f >= 0 then f else if x in uses[|uses| - 1] then |uses| else -1
  }

  function LastUse<K(==)>(uses: seq<set<K>>, x: K): int {
    if uses == [] then -1 else
    if x in uses[|uses| - 1] then |uses| else LastUse(uses[..|uses| - 1], x)
  }

  lemma {:induction false} RangeCovers<K>(uses: seq<set<K>>, x: K)
    ensures forall p :: 0 <= p < |uses| && x in uses[p] ==> 1 <= FirstUse(uses, x) <= p + 1 <= LastUse(uses, x)
    ensures FirstUse(uses, x) >= 0 ==> 1 <= FirstUse(uses, x) <= LastUse(uses, x) <= |uses|
    ensures FirstUse(uses, x) >= 0 ==> x in uses[FirstUse(uses, x) - 1] && x in uses[LastUse(uses, x) - 1]
    ensures FirstUse(uses, x) < 0 ==> FirstUse(uses, x) == LastUse(uses, x) == -1
  {
    if uses != [] {
      var front := uses[..|uses| - 1];
      RangeCovers(front, x);
      forall p | 0 <= p < |uses| && x in uses[p] ensures 1 <= FirstUse(uses, x) <= p + 1 <= LastUse(uses, x) {
        if p < |front| { assert x in front[p]; }
      }
    }
  }

  lemma {:induction false} UsesWithin<K>(s: Stmt<K>, x: K)
    requires x !in StmtRefs(s)
    ensures forall p :: 0 <= p < |Uses(s)| ==> x !in Uses(s)[p]
  {
    match s
    case Then(a, rest) =>
      UsesWithin(a, x);
      UsesWithin(rest, x);
    case If(_, thn, els) =>
      UsesWithin(thn, x);
      UsesWithin(els, x);
    case _ =>
  }

  /** The range of x is over before that of y begins. */
  predicate Before<K(==)>(uses: seq<set<K>>, x: K, y: K) {
    FirstUse(uses, x) < 0 || FirstUse(uses, y) < 0 || LastUse(uses, x) < FirstUse(uses, y)
  }

  lemma SplitApart<K>(uses: seq<set<K>>, n: nat, x: K, y: K)
    requires n <= |uses|
    requires (forall p :: n <= p < |uses| ==> x !in uses[p]) && forall p :: 0 <= p < n ==> y !in uses[p]
    ensures Before(uses, x, y)
  {
    RangeCovers(uses, x);
    RangeCovers(uses, y);
  }

  /** Names of consecutive statements, and of the two branches of an if, can share a register. */
  lemma RangesApart<K>(s: Stmt<K>, x: K, y: K)
    requires s.Then? || s.If?
    requires s.Then? ==> x !in StmtRefs(s.rest) && y !in StmtRefs(s.s)
    requires s.If? ==> x !in StmtRefs(s.els) && y !in Refs(s.c) && y !in StmtRefs(s.thn)
    ensures Before(Uses(s), x, y)
  {
    match s
    case Then(a, rest) =>
      UsesWithin(rest, x);
      UsesWithin(a, y);
      assert forall p :: |Uses(a)| <= p < |Uses(s)| ==> Uses(s)[p] == Uses(rest)[p - |Uses(a)|];
      SplitApart(Uses(s), |Uses(a)|, x, y);
    case If(_, thn, els) =>
      UsesWithin(els, x);
      UsesWithin(thn, y);
      assert forall p :: 1 + |Uses(thn)| <= p < |Uses(s)| ==> Uses(s)[p] == Uses(els)[p - 1 - |Uses(thn)|];
      SplitApart(Uses(s), 1 + |Uses(thn)|, x, y);
  }

  ghost predicate Recorded(uses: seq<set<string>>, names: seq<string>, first: seq<int>, last: seq<int>) {
    |first| == |last| == |names| &&
    forall i :: 0 <= i < |names| ==> first[i] == FirstUse(uses, names[i]) && last[i] == LastUse(uses, names[i])
  }

  /** Record that the position number idx touches the given names. */
  method Touch(refs: set<string>, names: seq<string>, idx: nat, first: array<int>, last: array<int>,
               ghost seen: seq<set<string>>)
    requires first != last && Recorded(seen, names, first[..], last[..]) && idx == |seen| + 1
    modifies first, last
    ensures Recorded(seen + [refs], names, first[..], last[..])
  {
    ghost var f, l := first[..], last[..];
    for i := 0 to |names|
      invariant forall k :: i <= k < |names| ==> first[k] == f[k] && last[k] == l[k]
      invariant forall k :: 0 <= k < i ==> first[k] == if f[k] < 0 && names[k] in refs then idx else f[k]
      invariant forall k :: 0 <= k < i ==> last[k] == if names[k] in refs then idx else l[k]
    {
      if names[i] in refs {
        if first[i] < 0 { first[i] := idx; }
        last[i] := idx;
      }
    }
    assert (seen + [refs])[..|seen|] == seen;
    forall i | 0 <= i < |names|
      ensures first[i] == FirstUse(seen + [refs], names[i]) && last[i] == LastUse(seen + [refs], names[i])
    {
      RangeCovers(seen, names[i]);
    }
  }

  lemma UsesOf(s: Stmt<string>, seen: seq<set<string>>)
    ensures match s
            case Skip => seen + Uses(s) == seen
            case Then(a, rest) => seen + Uses(s) == seen + Uses(a) + Uses(rest)
            case If(c, thn, els) => seen + Uses(s) == seen + [Refs(c)] + Uses(thn) + Uses(els)
            case _ => Uses(s) == [StmtRefs(s)]
  {
    hide Refs, StmtRefs;
    match s
    case Skip =>
    case Then(a, rest) => Regroup(seen, Uses(a), Uses(rest));
    case If(c, thn, els) =>
      Regroup(seen, [Refs(c)] + Uses(thn), Uses(els));
      Regroup(seen, [Refs(c)], Uses(thn));
    case _ =>
  }

  lemma Regroup<T>(a: seq<T>, b: seq<T>, c: seq<T>)
    ensures a + (b + c) == a + b + c
  {
  }

  /** liveness_walk. */
  method LivenessWalk(s: Stmt<string>, names: seq<string>, idx: nat, first: array<int>, last: array<int>,
                      ghost seen: seq<set<string>>)
    returns (idx': nat)
    requires first != last && Recorded(seen, names, first[..], last[..]) && idx == |seen|
    modifies first, last
    ensures idx' == idx + |Uses(s)| && Recorded(seen + Uses(s), names, first[..], last[..])
    decreases s
  {
    UsesOf(s, seen);
    hide Recorded, Refs, StmtRefs, Uses;
    match s
    case Skip =>
      return idx;
    case Then(a, rest) =>
      idx' := LivenessWalk(a, names, idx, first, last, seen);
      idx' := LivenessWalk(rest, names, idx', first, last, seen + Uses(a));
    case If(c, thn, els) =>
      Touch(Refs(c), names, idx + 1, first, last, seen);
      idx' := LivenessWalk(thn, names, idx + 1, first, last, seen + [Refs(c)]);
      idx' := LivenessWalk(els, names, idx', first, last, seen + [Refs(c)] + Uses(thn));
    case _ =>
      Touch(StmtRefs(s), names, idx + 1, first, last, seen);
      return idx + 1;
  }

  // ----- the simulation -----

  /** A function's locals with their ranges and registers; the parameters come first. */
  datatype Frame = Frame(names: seq<string>, ranges: Ranges, regs: seq<int>) {
    function Slot(x: string): int { IndexOf(names, x) }

    function Reg(x: string): int {
      var i := Slot(x);
      if 0 <= i < |regs| then regs[i] else 0
    }

    ghost predicate Valid(uses: seq<set<string>>) {
      |names| == |regs| == |ranges.first| && ranges.params <= |names| &&
      Recorded(uses, names, ranges.first, ranges.last) &&
      Distinct(names) &&
      (forall i :: 0 <= i < ranges.params ==> regs[i] == i) &&
      (exists next :: Sound(ranges, regs, next))
    }
  }

  /** The live ranges of x covers position pos, or x is a parameter last touched no earlier. */
  predicate Needed(fr: Frame, x: string, pos: int) {
    var i := fr.Slot(x);
    0 <= i < |fr.ranges.last| && fr.ranges.last[i] >= pos
  }

  predicate Begun(fr: Frame, x: string, pos: int) {
    var i := fr.Slot(x);
    0 <= i < |fr.ranges.first| && (i < fr.ranges.params || 0 <= fr.ranges.first[i] <= pos)
  }

  /** Registers hold the values of the assigned names that are still needed at pos. */
  ghost predicate Match(fr: Frame, env: map<string, Value>, regs: map<int, Value>, known: set<string>, pos: int) {
    forall x :: x in known ==> Begun(fr, x, pos) && (Needed(fr, x, pos) ==> Get(regs, fr.Reg(x)) == Get(env, x))
  }

  /** Two names live at one position have different registers. */
  lemma LiveApart(fr: Frame, uses: seq<set<string>>, x: string, y: string, pos: int)
    requires fr.Valid(uses) && x != y && Begun(fr, x, pos) && Needed(fr, x, pos) && Begun(fr, y, pos) &&
             Needed(fr, y, pos)
    ensures fr.Reg(x) != fr.Reg(y)
  {
    var i, j := fr.Slot(x), fr.Slot(y);
    RangeCovers(uses, x);
    RangeCovers(uses, y);
    var next :| Sound(fr.ranges, fr.regs, next);
    if fr.ranges.Used(i) && fr.ranges.Used(j) { assert fr.ranges.Overlap(i, j); }
  }

  /** Being touched at pos means being live there. */
  lemma TouchedIsLive(fr: Frame, uses: seq<set<string>>, x: string, pos: int)
    requires fr.Valid(uses) && x in fr.names && 1 <= pos <= |uses| && x in uses[pos - 1]
    ensures Begun(fr, x, pos) && Needed(fr, x, pos)
  {
    RangeCovers(uses, x);
  }

  lemma Reads(fr: Frame, uses: seq<set<string>>, env: map<string, Value>, regs: map<int, Value>, known: set<string>,
              pos: int, refs: set<string>)
    requires fr.Valid(uses) && Match(fr, env, regs, known, pos) && refs <= known
    requires 1 <= pos <= |uses| && refs <= uses[pos - 1]
    ensures forall x :: x in refs ==> Get(regs, fr.Reg(x)) == Get(env, x)
  {
    forall x | x in refs ensures Needed(fr, x, pos) {
      assert Begun(fr, x, pos);
      TouchedIsLive(fr, uses, x, pos);
    }
  }

  lemma Writes(fr: Frame, uses: seq<set<string>>, env: map<string, Value>, regs: map<int, Value>, known: set<string>,
               pos: int, k: string, v: Value)
    requires fr.Valid(uses) && Match(fr, env, regs, known, pos) && k in fr.names
    requires 1 <= pos <= |uses| && k in uses[pos - 1]
    ensures Match(fr, env[k := v], regs[fr.Reg(k) := v], known + {k}, pos)
  {
    TouchedIsLive(fr, uses, k, pos);
    forall x | x in known && x != k && Needed(fr, x, pos) ensures fr.Reg(x) != fr.Reg(k) {
      LiveApart(fr, uses, x, k, pos);
    }
  }

  lemma {:induction false} AfterGrows<K>(s: Stmt<K>, known: set<K>, all: set<K>)
    requires known <= all && StmtRefs(s) <= all
    ensures known <= After(s, known, all) <= all
  {
    match s
    case Then(a, rest) =>
      AfterGrows(a, known, all);
      AfterGrows(rest, After(a, known, all), all);
    case If(_, thn, els) =>
      AfterGrows(thn, known, all);
      AfterGrows(els, known, all);
    case _ =>
  }

  lemma Fewer(fr: Frame, env: map<string, Value>, regs: map<int, Value>, known: set<string>, fewer: set<string>,
              pos: int, later: int)
    requires Match(fr, env, regs, known, pos) && fewer <= known && pos <= later
    ensures Match(fr, env, regs, fewer, later)
  {
  }

  /** Same flow and world, and the match is kept: for `after` if the run got to the end, otherwise
    * for what was known before. */
  ghost predicate Agree(fr: Frame, a: Run<string>, b: Run<int>, before: set<string>, after: set<string>, pos: int) {
    a.flow == b.flow && a.world == b.world && Match(fr, a.env, b.env, if a.flow.Next? then after else before, pos)
  }

  /** Everything a run needs to know about the frame while it is at position pos. */
  ghost predicate Here(fr: Frame, uses: seq<set<string>>, refs: set<string>, known: set<string>, all: set<string>,
                       pos: int) {
    fr.Valid(uses) && 1 <= pos <= |uses| && refs <= uses[pos - 1] && refs <= all && known <= all &&
    forall x :: x in refs ==> x in fr.names
  }

  /** Whatever a statement does within one position, the registers keep matching the names. */
  lemma {:induction false} SimHere(fr: Frame, uses: seq<set<string>>, s: Stmt<string>, env: map<string, Value>,
                                   regs: map<int, Value>, known: set<string>, all: set<string>, pos: int, w: World,
                                   fuel: nat, I: Interp)
    requires Here(fr, uses, StmtRefs(s), known, all, pos) && Match(fr, env, regs, known, pos) && Definite(s, known, all)
    ensures Agree(fr, Exec(s, env, w, fuel, I), Exec(RenameStmt(s, x => fr.Reg(x)), regs, w, fuel, I),
                  known, After(s, known, all), pos)
    decreases fuel, s, 1
  {
    var f := x => fr.Reg(x);
    hide Match, fr.Reg, fr.Valid;
    match s
    case Skip =>
    case Then(a, rest) =>
      SimHere(fr, uses, a, env, regs, known, all, pos, w, fuel, I);
      var r, q := Exec(a, env, w, fuel, I), Exec(RenameStmt(a, f), regs, w, fuel, I);
      if r.flow.Next? {
        AfterGrows(a, known, all);
        SimHere(fr, uses, rest, r.env, q.env, After(a, known, all), all, pos, r.world, fuel, I);
        var r', q' := Exec(rest, r.env, r.world, fuel, I), Exec(RenameStmt(rest, f), q.env, q.world, fuel, I);
        if !r'.flow.Next? { Fewer(fr, r'.env, q'.env, After(a, known, all), known, pos, pos); }
      }
    case Assign(k, e) =>
      Same(fr, uses, e, f, env, regs, known, pos, w, I);
      Writes(fr, uses, env, regs, known, pos, k, Eval(e, env, w, I).0);
    case Effect(e) => Same(fr, uses, e, f, env, regs, known, pos, w, I);
    case If(c, thn, els) =>
      Same(fr, uses, c, f, env, regs, known, pos, w, I);
      var (v, w1) := Eval(c, env, w, I);
      var b := if I.truthy(v) then thn else els;
      SimHere(fr, uses, b, env, regs, known, all, pos, w1, fuel, I);
      var r, q := Exec(b, env, w1, fuel, I), Exec(RenameStmt(b, f), regs, w1, fuel, I);
      if r.flow.Next? { Fewer(fr, r.env, q.env, After(b, known, all), After(s, known, all), pos, pos); }
    case While(_, _) => SimWhile(fr, uses, s, env, regs, known, all, pos, w, fuel, I);
    case For(_, _, inputs, _) =>
      Reads(fr, uses, env, regs, known, pos, RefsAll(inputs));
      EvalAllRenamed(inputs, f, env, regs, w, I);
      var (vs, w1) := EvalAll(inputs, env, w, I);
      SimTurns(fr, uses, s, vs, 0, 0, env, regs, known, all, pos, w1, fuel, I);
    case Return(e) => Same(fr, uses, e, f, env, regs, known, pos, w, I);
    case Break =>
    case Continue =>
  }

  lemma Same(fr: Frame, uses: seq<set<string>>, e: Expr<string>, f: string -> int, env: map<string, Value>,
             regs: map<int, Value>, known: set<string>, pos: int, w: World, I: Interp)
    requires fr.Valid(uses) && Match(fr, env, regs, known, pos) && Refs(e) <= known
    requires 1 <= pos <= |uses| && Refs(e) <= uses[pos - 1] && forall x :: f(x) == fr.Reg(x)
    ensures Eval(Rename(e, f), regs, w, I) == Eval(e, env, w, I)
  {
    Reads(fr, uses, env, regs, known, pos, Refs(e));
    EvalRenamed(e, f, env, regs, w, I);
  }

  /** A loop body keeps what was known before it, however it ends. */
  lemma SimBody(fr: Frame, uses: seq<set<string>>, s: Stmt<string>, env: map<string, Value>, regs: map<int, Value>,
                known: set<string>, all: set<string>, pos: int, w: World, fuel: nat, I: Interp)
    returns (r: Run<string>, q: Run<int>)
    requires Here(fr, uses, StmtRefs(s), known, all, pos) && Match(fr, env, regs, known, pos) && Definite(s, known, all)
    ensures r == Exec(s, env, w, fuel, I) && q == Exec(RenameStmt(s, x => fr.Reg(x)), regs, w, fuel, I)
    ensures Agree(fr, r, q, known, known, pos)
    decreases fuel, s, 2
  {
    SimHere(fr, uses, s, env, regs, known, all, pos, w, fuel, I);
    AfterGrows(s, known, all);
    r, q := Exec(s, env, w, fuel, I), Exec(RenameStmt(s, x => fr.Reg(x)), regs, w, fuel, I);
  }

  lemma {:induction false} SimWhile(fr: Frame, uses: seq<set<string>>, s: Stmt<string>, env: map<string, Value>,
                                    regs: map<int, Value>, known: set<string>, all: set<string>, pos: int, w: World,
                                    fuel: nat, I: Interp)
    requires s.While? && Here(fr, uses, StmtRefs(s), known, all, pos) && Match(fr, env, regs, known, pos) &&
             Definite(s, known, all)
    ensures var s' := RenameStmt(s, x => fr.Reg(x));
            Agree(fr, Exec(s, env, w, fuel, I), Exec(s', regs, w, fuel, I), known, known, pos)
    decreases fuel, s, 0
  {
    hide Match, fr.Reg, fr.Valid;
    var f := x => fr.Reg(x);
    if fuel > 0 {
      Same(fr, uses, s.c, f, env, regs, known, pos, w, I);
      var (v, w1) := Eval(s.c, env, w, I);
      if I.truthy(v) {
        var r, q := SimBody(fr, uses, s.body, env, regs, known, all, pos, w1, fuel, I);
        if r.flow.Next? || r.flow.Continued? {
          SimWhile(fr, uses, s, r.env, q.env, known, all, pos, r.world, fuel - 1, I);
        }
      }
    }
  }

  lemma {:induction false} SimTurns(fr: Frame, uses: seq<set<string>>, s: Stmt<string>, vs: seq<Value>, n: nat,
                                    cur: Value, env: map<string, Value>, regs: map<int, Value>, known: set<string>,
                                    all: set<string>, pos: int, w: World, fuel: nat, I: Interp)
    requires s.For? && Here(fr, uses, StmtRefs(s), known, all, pos) && Match(fr, env, regs, known, pos) &&
             Definite(s, known, all)
    ensures var s' := RenameStmt(s, x => fr.Reg(x));
            Agree(fr, Turns(s, vs, n, cur, env, w, fuel, I), Turns(s', vs, n, cur, regs, w, fuel, I), known, known, pos)
    decreases fuel, s, 0
  {
    hide Match, fr.Reg, fr.Valid, Eval;
    var f := x => fr.Reg(x);
    if fuel > 0 {
      var (turn, w1) := I.turn(s.kind, vs, n, cur, w);
      if !turn.Stop? {
        var env1, regs1, known1 := env[s.k := turn.v], regs[fr.Reg(s.k) := turn.v], known + {s.k};
        Writes(fr, uses, env, regs, known, pos, s.k, turn.v);
        if turn.StopWith? {
          Fewer(fr, env1, regs1, known1, known, pos, pos);
        } else {
          var r, q := SimBody(fr, uses, s.body, env1, regs1, known1, all, pos, w1, fuel, I);
          Fewer(fr, r.env, q.env, known1, known, pos, pos);
          if r.flow.Next? || r.flow.Continued? {
            Reads(fr, uses, r.env, q.env, known1, pos, {s.k});
            SimTurns(fr, uses, s, vs, n + 1, Get(r.env, s.k), r.env, q.env, known, all, pos, r.world, fuel - 1, I);
          }
        }
      }
    }
  }

  // ----- whole bodies -----

  /** s occupies the positions from + 1 .. from + |Uses(s)| of the body. */
  ghost predicate Placed(fr: Frame, uses: seq<set<string>>, from: nat, s: Stmt<string>, all: set<string>) {
    fr.Valid(uses) && from + |Uses(s)| <= |uses| && (forall i :: 0 <= i < |Uses(s)| ==> uses[from + i] == Uses(s)[i]) &&
    StmtRefs(s) <= all && forall x :: x in StmtRefs(s) ==> x in fr.names
  }

  /** A part of s starts `off` positions further on. */
  lemma Part(fr: Frame, uses: seq<set<string>>, from: nat, s: Stmt<string>, all: set<string>, off: nat,
             part: Stmt<string>)
    requires Placed(fr, uses, from, s, all) && off + |Uses(part)| <= |Uses(s)| && StmtRefs(part) <= StmtRefs(s)
    requires Uses(s)[off..off + |Uses(part)|] == Uses(part)
    ensures Placed(fr, uses, from + off, part, all)
  {
    forall i | 0 <= i < |Uses(part)| ensures uses[from + off + i] == Uses(part)[i] {
      assert Uses(s)[off..off + |Uses(part)|][i] == Uses(s)[off + i];
    }
  }

  /** The position at which s starts. */
  lemma Start(fr: Frame, uses: seq<set<string>>, from: nat, s: Stmt<string>, known: set<string>, all: set<string>,
              refs: set<string>)
    requires Placed(fr, uses, from, s, all) && known <= all && Uses(s) != [] && refs == Uses(s)[0] &&
             refs <= StmtRefs(s)
    ensures Here(fr, uses, refs, known, all, from + 1)
  {
  }

  /** Registers and names agree on a whole body, the positions going by as it runs. */
  ghost predicate Across(fr: Frame, from: nat, s: Stmt<string>, a: Run<string>, b: Run<int>, after: set<string>) {
    a.flow == b.flow && a.world == b.world && (a.flow.Next? ==> Match(fr, a.env, b.env, after, from + |Uses(s)| + 1))
  }

  lemma {:induction false} SimAcross(fr: Frame, uses: seq<set<string>>, from: nat, s: Stmt<string>,
                                     env: map<string, Value>, regs: map<int, Value>, known: set<string>,
                                     all: set<string>, w: World, fuel: nat, I: Interp)
    requires Placed(fr, uses, from, s, all) && known <= all && Match(fr, env, regs, known, from + 1) &&
             Definite(s, known, all)
    ensures var s' := RenameStmt(s, x => fr.Reg(x));
            Across(fr, from, s, Exec(s, env, w, fuel, I), Exec(s', regs, w, fuel, I), After(s, known, all))
    decreases s, 1
  {
    hide Match, Placed, fr.Reg, fr.Valid;
    var f := x => fr.Reg(x);
    match s
    case Skip =>
    case Then(_, _) => SimThen(fr, uses, from, s, env, regs, known, all, w, fuel, I);
    case If(c, thn, els) => SimIf(fr, uses, from, s, env, regs, known, all, w, fuel, I);
    case _ =>
      Start(fr, uses, from, s, known, all, StmtRefs(s));
      SimHere(fr, uses, s, env, regs, known, all, from + 1, w, fuel, I);
      var r, q := Exec(s, env, w, fuel, I), Exec(RenameStmt(s, f), regs, w, fuel, I);
      if r.flow.Next? { Fewer(fr, r.env, q.env, After(s, known, all), After(s, known, all), from + 1, from + 2); }
  }

  lemma GrowsIn(fr: Frame, uses: seq<set<string>>, from: nat, s: Stmt<string>, known: set<string>, all: set<string>)
    requires Placed(fr, uses, from, s, all) && known <= all
    ensures known <= After(s, known, all) <= all
  {
    AfterGrows(s, known, all);
  }

  lemma {:induction false} SimThen(fr: Frame, uses: seq<set<string>>, from: nat, s: Stmt<string>,
                                   env: map<string, Value>, regs: map<int, Value>, known: set<string>,
                                   all: set<string>, w: World, fuel: nat, I: Interp)
    requires s.Then? && Placed(fr, uses, from, s, all) && known <= all && Match(fr, env, regs, known, from + 1) &&
             Definite(s, known, all)
    ensures var s' := RenameStmt(s, x => fr.Reg(x));
            Across(fr, from, s, Exec(s, env, w, fuel, I), Exec(s', regs, w, fuel, I), After(s, known, all))
    decreases s, 0
  {
    hide Match, Placed, fr.Reg, fr.Valid;
    var f := x => fr.Reg(x);
    var a, rest := s.s, s.rest;
    assert Uses(s) == Uses(a) + Uses(rest) && StmtRefs(a) <= StmtRefs(s);
    Part(fr, uses, from, s, all, 0, a);
    Part(fr, uses, from, s, all, |Uses(a)|, rest);
    SimAcross(fr, uses, from, a, env, regs, known, all, w, fuel, I);
    var r, q := Exec(a, env, w, fuel, I), Exec(RenameStmt(a, f), regs, w, fuel, I);
    if r.flow.Next? {
      GrowsIn(fr, uses, from, a, known, all);
      SimAcross(fr, uses, from + |Uses(a)|, rest, r.env, q.env, After(a, known, all), all, r.world, fuel, I);
    }
  }

  /** The condition and the branches of an If follow each other. */
  lemma IfParts(fr: Frame, uses: seq<set<string>>, from: nat, s: Stmt<string>, known: set<string>, all: set<string>)
    requires s.If? && Placed(fr, uses, from, s, all) && known <= all
    ensures |Uses(s)| == 1 + |Uses(s.thn)| + |Uses(s.els)| && Here(fr, uses, Refs(s.c), known, all, from + 1)
    ensures Placed(fr, uses, from + 1, s.thn, all) && Placed(fr, uses, from + 1 + |Uses(s.thn)|, s.els, all)
  {
    hide Placed, Here;
    assert Uses(s) == [Refs(s.c)] + Uses(s.thn) + Uses(s.els);
    Part(fr, uses, from, s, all, 1, s.thn);
    Part(fr, uses, from, s, all, 1 + |Uses(s.thn)|, s.els);
    Start(fr, uses, from, s, known, all, Refs(s.c));
  }

  lemma {:induction false} SimIf(fr: Frame, uses: seq<set<string>>, from: nat, s: Stmt<string>,
                                 env: map<string, Value>, regs: map<int, Value>, known: set<string>, all: set<string>,
                                 w: World, fuel: nat, I: Interp)
    requires s.If? && Placed(fr, uses, from, s, all) && known <= all && Match(fr, env, regs, known, from + 1) &&
             Definite(s, known, all)
    ensures var s' := RenameStmt(s, x => fr.Reg(x));
            Across(fr, from, s, Exec(s, env, w, fuel, I), Exec(s', regs, w, fuel, I), After(s, known, all))
    decreases s, 0
  {
    hide Match, Placed, Uses, fr.Reg, fr.Valid;
    var f := x => fr.Reg(x);
    IfParts(fr, uses, from, s, known, all);
    Same(fr, uses, s.c, f, env, regs, known, from + 1, w, I);
    var (v, w1) := Eval(s.c, env, w, I);
    var b := if I.truthy(v) then s.thn else s.els;
    var start := if I.truthy(v) then from + 1 else from + 1 + |Uses(s.thn)|;
    Fewer(fr, env, regs, known, known, from + 1, start + 1);
    SimAcross(fr, uses, start, b, env, regs, known, all, w1, fuel, I);
    var r, q := Exec(b, env, w1, fuel, I), Exec(RenameStmt(b, f), regs, w1, fuel, I);
    if r.flow.Next? {
      Fewer(fr, r.env, q.env, After(b, known, all), After(s, known, all), start + |Uses(b)| + 1, from + |Uses(s)| + 1);
    }
  }

  // ----- the theorem -----

  ghost function Arguments(names: seq<string>, args: seq<Value>): map<string, Value>
    requires |args| <= |names|
  {
    map x | x in names && IndexOf(names, x) < |args| :: args[IndexOf(names, x)]
  }

  /** A body whose locals are all listed and surely assigned before they are read. */
  ghost predicate WellFormed(names: seq<string>, params: nat, body: Stmt<string>) {
    params <= |names| && Distinct(names) &&
    (forall x :: x in StmtRefs(body) ==> x in names) &&
    Definite(body, set x | x in names[..params], set x | x in names)
  }

  /** Called with the arguments in registers 0 .. params - 1, the renamed body ends the same way,
    * returns the same value and leaves the same world, however long it is run. */
  lemma RegistersActLikeNames(fr: Frame, body: Stmt<string>, args: seq<Value>, regs: map<int, Value>, w: World,
                              fuel: nat, I: Interp)
    requires fr.Valid(Uses(body)) && WellFormed(fr.names, fr.ranges.params, body) && |args| == fr.ranges.params
    requires forall i :: 0 <= i < |args| ==> Get(regs, i) == args[i]
    ensures var r := Exec(body, Arguments(fr.names, args), w, fuel, I);
            var q := Exec(RenameStmt(body, x => fr.Reg(x)), regs, w, fuel, I);
            r.flow == q.flow && r.world == q.world
  {
    var names, uses := fr.names, Uses(body);
    var known, all := set x | x in names[..|args|], set x | x in names;
    var env := Arguments(names, args);
    EntryMatches(fr, uses, body, args, regs);
    assert Placed(fr, uses, 0, body, all) && known <= all;
    hide Match, Placed, Exec, Arguments, RenameStmt, Definite, Uses, fr.Valid, fr.Reg;
    SimAcross(fr, uses, 0, body, env, regs, known, all, w, fuel, I);
  }

  /** On entry the parameters are in their registers. */
  lemma EntryMatches(fr: Frame, uses: seq<set<string>>, body: Stmt<string>, args: seq<Value>, regs: map<int, Value>)
    requires fr.Valid(uses) && WellFormed(fr.names, fr.ranges.params, body) && |args| == fr.ranges.params
    requires forall i :: 0 <= i < |args| ==> Get(regs, i) == args[i]
    ensures Match(fr, Arguments(fr.names, args), regs, set x | x in fr.names[..|args|], 1)
  {
    var env := Arguments(fr.names, args);
    forall x | x in fr.names[..|args|] ensures Begun(fr, x, 1) && Get(regs, fr.Reg(x)) == Get(env, x) {
      var i :| 0 <= i < |args| && fr.names[..|args|][i] == x;
      assert fr.names[i] == x && IndexOf(fr.names, x) == i;
    }
  }

  /** Ranges taken from a walk are proper ranges. */
  lemma WalkedRanges(uses: seq<set<string>>, names: seq<string>, rs: Ranges)
    requires Recorded(uses, names, rs.first, rs.last) && rs.params <= |names|
    ensures rs.Valid()
  {
    forall i | 0 <= i < |names| ensures rs.first[i] >= 0 ==> rs.first[i] <= rs.last[i] { RangeCovers(uses, names[i]); }
  }

  /** The allocation done for a function: names lists its parameters, then its other locals. The frame
    * it leaves is one on which RegistersActLikeNames holds, with the fewest registers. */
  method AllocateLocals(loc: Locals, names: seq<string>, params: nat, body: Stmt<string>) returns (ghost fr: Frame)
    requires WellFormed(names, params, body) && loc.registers.Length == |names|
    requires forall i :: 0 <= i < params ==> loc.registers[i] == i
    modifies loc`nextRegister, loc`maxRegisters, loc.registers
    ensures fr.names == names && fr.ranges.params == params && fr.regs == loc.registers[..] && fr.Valid(Uses(body))
    ensures params < |names| ==> Tight(fr.ranges, loc.nextRegister) && loc.nextRegister == loc.maxRegisters
    ensures params < |names| ==> |fr.regs| == |fr.ranges.first| == |fr.ranges.last| && FirstFit(fr.ranges, fr.regs)
  {
    hide Uses, Definite, Tight, FirstFit;
    ghost var uses := Uses(body);
    if |names| == 0 {
      fr := Frame(names, Ranges(0, [], []), loc.registers[..]);
      assert Sound(fr.ranges, fr.regs, 0);
      return;
    }
    var first := new int[|names|](_ => -1);
    var last := new int[|names|](_ => -1);
    assert [] + uses == uses;
    var count := LivenessWalk(body, names, 0, first, last, []);
    var rs := Ranges(params, first[..], last[..]);
    WalkedRanges(uses, names, rs);
    AssignRegisters(loc, rs);
    fr := Frame(names, rs, loc.registers[..]);
    assert Sound(rs, fr.regs, loc.nextRegister);
  }
}
