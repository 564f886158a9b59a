/** Numeric expressions over named variables and their compile-time folding: opt_const_fold.c:17-101.
  * Doubles are exact reals; a division by zero has some fixed value, and is never folded. */
module ConstantFolding {

  datatype Op = Plus | Minus | Star | Slash | Percent

  datatype Expr = Num(v: real) | Id(x: string) | Neg(e: Expr) | Bin(op: Op, l: Expr, r: Expr)

  datatype Cmp = Eq | Ne | Lt | Gt | Le | Ge

  datatype Cond = Bool(b: bool) | Compare(cmp: Cmp, l: Expr, r: Expr) | And(p: Cond, q: Cond) | Or(p: Cond, q: Cond)

  type Env = map<string, real>

  datatype Folded<T> = Known(v: T) | Unknown

  function Get(env: Env, x: string): real { if x in env then env[x] else 0.0 }

  function Truncate(x: real): real { if x >= 0.0 then x.Floor as real else -((-x).Floor as real) }

  /** The remainder of C's fmod. */
  function Fmod(x: real, y: real): real
    requires y != 0.0
  {
    x - y * Truncate(x / y)
  }

  /** It is what whole multiples of y leave of x: smaller than y, and of x's sign. */
  lemma FmodIs(x: real, y: real) returns (q: int)
    requires y != 0.0
    ensures x == q as real * y + Fmod(x, y)
    ensures if y > 0.0 then -y < Fmod(x, y) < y else y < Fmod(x, y) < -y
    ensures (x >= 0.0 ==> Fmod(x, y) >= 0.0) && (x <= 0.0 ==> Fmod(x, y) <= 0.0)
  {
    var t := x / y;
    var whole := Truncate(t);
    q := if t >= 0.0 then t.Floor else -(-t).Floor;
    assert whole == q as real && if t >= 0.0 then 0.0 <= t - whole < 1.0 else -1.0 < t - whole <= 0.0;
    Quotient(x, y);
    Leftover(x, y, t, whole, Fmod(x, y));
  }

  lemma Quotient(x: real, y: real)
    requires y != 0.0
    ensures x == y * (x / y)
  {
  }

  lemma Leftover(x: real, y: real, t: real, q: real, r: real)
    requires y != 0.0 && x == y * t && r == x - y * q && -1.0 < t - q < 1.0
    requires (t >= 0.0 ==> t >= q) && (t <= 0.0 ==> t <= q)
    ensures x == q * y + r && if y > 0.0 then -y < r < y else y < r < -y
    ensures (x >= 0.0 ==> r >= 0.0) && (x <= 0.0 ==> r <= 0.0)
  {
    var d := t - q;
    assert r == y * d;
    Scaled(y, t, d, x, r);
  }

  lemma Scaled(y: real, t: real, d: real, x: real, r: real)
    requires y != 0.0 && x == y * t && r == y * d && -1.0 < d < 1.0
    requires (t >= 0.0 ==> d >= 0.0) && (t <= 0.0 ==> d <= 0.0)
    ensures if y > 0.0 then -y < r < y else y < r < -y
    ensures (x >= 0.0 ==> r >= 0.0) && (x <= 0.0 ==> r <= 0.0)
  {
    if y > 0.0 {
      Inside(y, t, d, x, r);
    } else {
      assert -x == (-y) * t && -r == (-y) * d;
      Inside(-y, t, d, -x, -r);
    }
  }

  lemma Inside(y: real, t: real, d: real, x: real, r: real)
    requires y > 0.0 && x == y * t && r == y * d && -1.0 < d < 1.0
    requires (t >= 0.0 ==> d >= 0.0) && (t <= 0.0 ==> d <= 0.0)
    ensures -y < r < y && (x >= 0.0 ==> r >= 0.0) && (x <= 0.0 ==> r <= 0.0)
  {
    SignOf(y, t, x);
    SignOf(y, d, r);
    SignOf(y, 1.0 - d, y - r);
    SignOf(y, 1.0 + d, y + r);
  }

  lemma SignOf(y: real, d: real, p: real)
    requires y > 0.0 && p == y * d
    ensures (d > 0.0 <==> p > 0.0) && (d < 0.0 <==> p < 0.0)
  {
  }

  function Calculate(op: Op, x: real, y: real): real {
    match op
    case Plus => x + y
    case Minus => x - y
    case Star => x * y
    case Slash => if y == 0.0 then 0.0 else x / y
    case Percent => if y == 0.0 then 0.0 else Fmod(x, y)
  }

  function Holds(cmp: Cmp, x: real, y: real): bool {
    match cmp
    case Eq => x == y
    case Ne => x != y
    case Lt => x < y
    case Gt => x > y
    case Le => x <= y
    case Ge => x >= y
  }

  /** Running an expression. */
  function Value(e: Expr, env: Env): real {
    match e
    case Num(v) => v
    case Id(x) => Get(env, x)
    case Neg(e) => -Value(e, env)
    case Bin(op, l, r) => Calculate(op, Value(l, env), Value(r, env))
  }

  function Truth(c: Cond, env: Env): bool {
    match c
    case Bool(b) => b
    case Compare(cmp, l, r) => Holds(cmp, Value(l, env), Value(r, env))
    case And(p, q) => Truth(p, env) && Truth(q, env)
    case Or(p, q) => Truth(p, env) || Truth(q, env)
  }

  /** The arithmetic of try_fold_number, which leaves divisions by zero to the run. */
  function FoldOp(op: Op, x: real, y: real): Folded<real> {
    match op
    case Plus => Known(x + y)
    case Minus => Known(x - y)
    case Star => Known(x * y)
    case Slash => if y == 0.0 then Unknown else Known(x / y)
    case Percent => if y == 0.0 then Unknown else Known(Fmod(x, y))
  }

  /** The comparisons of try_fold_bool. */
  function FoldCmp(cmp: Cmp, x: real, y: real): bool {
    match cmp
    case Eq => x == y
    case Ne => x != y
    case Lt => x < y
    case Gt => x > y
    case Le => x <= y
    case Ge => x >= y
  }

  /** try_fold_number, given the variables known to be constant. */
  function FoldNumber(e: Expr, known: Env): Folded<real> {
    match e
    case Num(v) => Known(v)
    case Id(x) => if x in known then Known(known[x]) else Unknown
    case Neg(e) => (match FoldNumber(e, known) case Known(v) => Known(-v) case Unknown => Unknown)
    case Bin(op, l, r) =>
      var a, b := FoldNumber(l, known), FoldNumber(r, known);
      if a.Unknown? || b.Unknown? then Unknown else FoldOp(op, a.v, b.v)
  }

  /** try_fold_bool: both sides of a connective must fold, and only number comparisons do. */
  function FoldBool(c: Cond, known: Env): Folded<bool> {
    match c
    case Bool(b) => Known(b)
    case Compare(cmp, l, r) =>
      var a, b := FoldNumber(l, known), FoldNumber(r, known);
      if a.Unknown? || b.Unknown? then Unknown else Known(FoldCmp(cmp, a.v, b.v))
    case And(p, q) =>
      var a, b := FoldBool(p, known), FoldBool(q, known);
      if a.Unknown? || b.Unknown? then Unknown else Known(a.v && b.v)
    case Or(p, q) =>
      var a, b := FoldBool(p, known), FoldBool(q, known);
      if a.Unknown? || b.Unknown? then Unknown else Known(a.v || b.v)
  }

  /** Every fact is true of the state. */
  ghost predicate FactsHold(known: Env, env: Env) {
    forall x :: x in known ==> x in env && env[x] == known[x]
  }

  /** What folds to a constant has that value in every state the facts are true of. */
  lemma {:induction false} FoldNumberSound(e: Expr, known: Env, env: Env)
    requires FactsHold(known, env)
    ensures FoldNumber(e, known).Known? ==> FoldNumber(e, known).v == Value(e, env)
  {
    match e
    case Num(_) =>
    case Id(_) =>
    case Neg(e) => FoldNumberSound(e, known, env);
    case Bin(_, l, r) =>
      FoldNumberSound(l, known, env);
      FoldNumberSound(r, known, env);
  }

  lemma {:induction false} FoldBoolSound(c: Cond, known: Env, env: Env)
    requires FactsHold(known, env)
    ensures FoldBool(c, known).Known? ==> FoldBool(c, known).v == Truth(c, env)
  {
    match c
    case Bool(_) =>
    case Compare(_, l, r) =>
      FoldNumberSound(l, known, env);
      FoldNumberSound(r, known, env);
    case And(p, q) =>
      FoldBoolSound(p, known, env);
      FoldBoolSound(q, known, env);
    case Or(p, q) =>
      FoldBoolSound(p, known, env);
      FoldBoolSound(q, known, env);
  }

  /** The names an expression reads. */
  function Reads(e: Expr): set<string> {
    match e
    case Num(_) => {}
    case Id(x) => {x}
    case Neg(e) => Reads(e)
    case Bin(_, l, r) => Reads(l) + Reads(r)
  }

  /** The values known for the names an expression reads settle it: none is missing, and no divisor is 0. */
  predicate Settled(e: Expr, known: Env) { Reads(e) <= known.Keys && NoZeroDivisor(e, known) }

  predicate NoZeroDivisor(e: Expr, env: Env) {
    match e
    case Neg(e) => NoZeroDivisor(e, env)
    case Bin(op, l, r) =>
      NoZeroDivisor(l, env) && NoZeroDivisor(r, env) && (op.Slash? || op.Percent? ==> Value(r, env) != 0.0)
    case _ => true
  }

  /** A condition is settled when all it compares is, on both sides of every connective. */
  predicate SettledCond(c: Cond, known: Env) {
    match c
    case Bool(_) => true
    case Compare(_, l, r) => Settled(l, known) && Settled(r, known)
    case And(p, q) => SettledCond(p, known) && SettledCond(q, known)
    case Or(p, q) => SettledCond(p, known) && SettledCond(q, known)
  }

  /** An expression folds exactly when it is settled, to its value on what is known. */
  lemma {:induction false} FoldNumberIff(e: Expr, known: Env)
    ensures FoldNumber(e, known) == if Settled(e, known) then Known(Value(e, known)) else Unknown
  {
    match e
    case Num(_) =>
    case Id(x) => assert x in Reads(e);
    case Neg(e) => FoldNumberIff(e, known);
    case Bin(_, l, r) =>
      FoldNumberIff(l, known);
      FoldNumberIff(r, known);
  }

  lemma {:induction false} FoldBoolIff(c: Cond, known: Env)
    ensures FoldBool(c, known) == if SettledCond(c, known) then Known(Truth(c, known)) else Unknown
  {
    match c
    case Bool(_) =>
    case Compare(_, l, r) =>
      FoldNumberIff(l, known);
      FoldNumberIff(r, known);
    case And(p, q) =>
      FoldBoolIff(p, known);
      FoldBoolIff(q, known);
    case Or(p, q) =>
      FoldBoolIff(p, known);
      FoldBoolIff(q, known);
  }

  lemma {:induction false} ValueReads(e: Expr, env: Env, env': Env)
    requires forall x :: x in Reads(e) ==> Get(env, x) == Get(env', x)
    ensures Value(e, env) == Value(e, env')
  {
    match e
    case Num(_) =>
    case Id(x) => assert x in Reads(e);
    case Neg(e) => ValueReads(e, env, env');
    case Bin(_, l, r) =>
      ValueReads(l, env, env');
      ValueReads(r, env, env');
  }
}
