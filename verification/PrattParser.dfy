/** The Pratt expression parser: source/core/parser.c:1514-1550, 2041-2062, 2092-2115, 2161-2250,
  * 2316-2370, 2466-2472. Tables, member access, await and '=' inside expressions are not modelled. */
module PrattParser {

  datatype BinOp =
    | OrOp | AndOp | EqEq | NotEq | Less | Greater | LessEq | GreaterEq | Plus | Minus | Star | Slash | Percent

  datatype Token =
    | Number(v: string) | Text(s: string) | Name(n: string) | KwNone | KwTrue | KwFalse
    | LParen | RParen | LBracket | RBracket | Comma | Op(op: BinOp) | KwIf | KwElse | Newline | Eof | Other

  /** Null stands for the absent node a failed parse returns. */
  datatype Expr =
    | Null
    | Atom(t: Token)
    | Neg(e: Expr)
    | Bin(op: BinOp, l: Expr, r: Expr)
    | Call(f: Expr, args: seq<Expr>)
    | Index(o: Expr, i: Expr)
    | Ternary(c: Expr, t1: Expr, f1: Expr)

  // ----- precedences -----

  const NONE := 0
  const OR := 2
  const AND := 3
  const EQUALITY := 4
  const COMPARISON := 5
  const TERM := 6
  const FACTOR := 7
  const UNARY := 8
  const CALL := 9

  function OpPrec(op: BinOp): (p: nat)
    ensures OR <= p <= FACTOR
  {
    match op
    case OrOp => OR
    case AndOp => AND
    case EqEq => EQUALITY
    case NotEq => EQUALITY
    case Less => COMPARISON
    case Greater => COMPARISON
    case LessEq => COMPARISON
    case GreaterEq => COMPARISON
    case Plus => TERM
    case Minus => TERM
    case Star => FACTOR
    case Slash => FACTOR
    case Percent => FACTOR
  }

  /** get_precedence, with the override for calls and indexing. */
  function TokenPrec(t: Token): (p: nat)
    ensures p <= CALL
  {
    match t
    case Op(op) => OpPrec(op)
    case KwIf => OR
    case LParen => CALL
    case LBracket => CALL
    case _ => NONE
  }

  predicate IsAtom(t: Token) { t.Number? || t.Text? || t.Name? || t.KwNone? || t.KwTrue? || t.KwFalse? }

  // ----- the parser as functions on a token list and a position -----

  /** The node, the position after it, and whether no error was reported. */
  datatype Result = Result(e: Expr, pos: nat, ok: bool)

  function Cur(ts: seq<Token>, pos: nat): Token { if pos < |ts| then ts[pos] else Eof }

  function SkipNewlines(ts: seq<Token>, pos: nat): (p: nat)
    ensures pos <= p && (pos <= |ts| ==> p <= |ts|) && !Cur(ts, p).Newline?
    decreases |ts| - pos
  {
    if Cur(ts, pos).Newline? then SkipNewlines(ts, pos + 1) else pos
  }

  /** The position of the next newline or the end. */
  function LineEnd(ts: seq<Token>, pos: nat): (p: nat)
    ensures pos <= p && (pos <= |ts| ==> p <= |ts|)
    decreases |ts| - pos
  {
    if pos < |ts| && !ts[pos].Newline? && !ts[pos].Eof? then LineEnd(ts, pos + 1) else pos
  }

  /** Consume a token of the expected kind or report an error. */
  function Expect(ts: seq<Token>, r: Result, t: Token): (q: Result)
    requires r.pos <= |ts| && !t.Eof?
    ensures r.pos <= q.pos <= |ts| && q.e == r.e
  {
    if Cur(ts, r.pos) == t then r.(pos := r.pos + 1) else r.(ok := false)
  }

  /** parse_precedence. */
  function ParsePrecedence(ts: seq<Token>, pos: nat, prec: nat): (r: Result)
    requires pos <= |ts|
    ensures pos <= r.pos <= |ts|
    decreases |ts| - pos, 2
  {
    var left := ParsePrefix(ts, pos);
    if left.e.Null? then left else ParseLoop(ts, left, prec)
  }

  /** The loop that extends `left` while operators bind tighter than prec. */
  function ParseLoop(ts: seq<Token>, left: Result, prec: nat): (r: Result)
    requires left.pos <= |ts|
    ensures left.pos <= r.pos <= |ts|
    decreases |ts| - left.pos, 1
  {
    if TokenPrec(Cur(ts, left.pos)) <= prec then left else ParseLoop(ts, ParseInfix(ts, left), prec)
  }

  function ParsePrefix(ts: seq<Token>, pos: nat): (r: Result)
    requires pos <= |ts|
    ensures pos <= r.pos <= |ts| && (!r.e.Null? ==> pos < r.pos)
    decreases |ts| - pos, 1
  {
    var t := Cur(ts, pos);
    if IsAtom(t) then Result(Atom(t), pos + 1, true)
    else if t.LParen? then
      var inner := ParseExpression(ts, SkipNewlines(ts, pos + 1));
      Expect(ts, inner.(pos := SkipNewlines(ts, inner.pos)), RParen)
    else if t == Op(Minus) then
      var operand := ParsePrecedence(ts, pos + 1, UNARY);
      if operand.e.Null? then operand.(ok := false) else operand.(e := Neg(operand.e))
    else if t.Eof? || t.Newline? then Result(Null, pos, true)
    else Result(Null, pos, false)
  }

  function ParseExpression(ts: seq<Token>, pos: nat): (r: Result)
    requires pos <= |ts|
    ensures pos <= r.pos <= |ts|
    decreases |ts| - pos, 3
  {
    var p := SkipNewlines(ts, pos);
    if Cur(ts, p).Eof? then Result(Null, p, true) else ParsePrecedence(ts, p, NONE)
  }

  /** parse_infix: every turn consumes at least the operator. */
  function ParseInfix(ts: seq<Token>, left: Result): (r: Result)
    requires left.pos <= |ts| && TokenPrec(Cur(ts, left.pos)) > NONE
    ensures left.pos < r.pos <= |ts|
    decreases |ts| - left.pos, 0
  {
    var next := left.pos + 1;
    match Cur(ts, left.pos)
    case LParen =>
      var p := SkipNewlines(ts, next);
      var args := if Cur(ts, p).RParen? then Args([], p, true) else ParseArguments(ts, p, []);
      Expect(ts, Result(Call(left.e, args.args), SkipNewlines(ts, args.pos), left.ok && args.ok), RParen)
    case LBracket =>
      var index := ParseExpression(ts, SkipNewlines(ts, next));
      Expect(ts, Result(Index(left.e, index.e), SkipNewlines(ts, index.pos), left.ok && index.ok), RBracket)
    case KwIf =>
      var cond := ParseExpression(ts, next);
      if cond.e.Null? then Result(left.e, cond.pos, false)
      else
        var mid := Expect(ts, cond, KwElse);
        var other := ParsePrecedence(ts, mid.pos, OR);
        var node := Ternary(cond.e, left.e, other.e);
        if Cur(ts, other.pos).KwElse? || Cur(ts, other.pos).KwIf? then Result(node, LineEnd(ts, other.pos), false)
        else Result(node, other.pos, left.ok && mid.ok && other.ok)
    case Op(op) =>
      var right := ParsePrecedence(ts, next, OpPrec(op));
      if right.e.Null? then Result(left.e, right.pos, left.ok && right.ok)
      else Result(Bin(op, left.e, right.e), right.pos, left.ok && right.ok)
  }

  datatype Args = Args(args: seq<Expr>, pos: nat, ok: bool)

  /** The argument loop of parse_call. */
  function ParseArguments(ts: seq<Token>, pos: nat, acc: seq<Expr>): (r: Args)
    requires pos <= |ts|
    ensures pos <= r.pos <= |ts|
    decreases |ts| - pos, 4
  {
    var arg := ParseExpression(ts, SkipNewlines(ts, pos));
    var p := SkipNewlines(ts, arg.pos);
    var all := acc + [arg.e];
    if !Cur(ts, p).Comma? then Args(all, p, arg.ok)
    else
      var q := SkipNewlines(ts, p + 1);
      if Cur(ts, q).RParen? then Args(all, q, false)
      else
        var rest := ParseArguments(ts, q, all);
        rest.(ok := arg.ok && rest.ok)
  }

  // ----- printing, with parentheses around operands that bind too loosely -----

  function Level(e: Expr): nat {
    match e
    case Neg(_) => 9
    case Bin(op, _, _) => OpPrec(op)
    case Ternary(_, _, _) => OR
    case _ => 10
  }

  /** e where an operand binding tighter than p is expected. */
  function Print(e: Expr, p: nat): (ts: seq<Token>)
    decreases e, 1
  {
    if Level(e) <= p then [LParen] + Bare(e) + [RParen] else Bare(e)
  }

  /** An operand of a ternary: another ternary there always takes parentheses. */
  function PrintOperand(e: Expr, p: nat): (ts: seq<Token>)
    decreases e, 2
  {
    if e.Ternary? then [LParen] + Bare(e) + [RParen] else Print(e, p)
  }

  function Bare(e: Expr): (ts: seq<Token>)
    decreases e, 0
  {
    match e
    case Null => []
    case Atom(t) => [t]
    case Neg(x) => [Op(Minus)] + Print(x, UNARY)
    case Bin(op, l, r) => Print(l, OpPrec(op) - 1) + [Op(op)] + Print(r, OpPrec(op))
    case Call(f, args) => Print(f, CALL) + [LParen] + PrintArguments(args, 0) + [RParen]
    case Index(o, i) => Print(o, CALL) + [LBracket] + Print(i, NONE) + [RBracket]
    case Ternary(c, t1, f1) => PrintOperand(t1, 1) + [KwIf] + PrintOperand(c, NONE) + [KwElse] + Print(f1, OR)
  }

  function PrintArguments(args: seq<Expr>, k: nat): (ts: seq<Token>)
    requires k <= |args|
    decreases args, |args| - k
  {
    if k == |args| then []
    else if k == |args| - 1 then Print(args[k], NONE)
    else Print(args[k], NONE) + [Comma] + PrintArguments(args, k + 1)
  }

  /** Trees the parser can produce without errors. */
  predicate Proper(e: Expr) {
    match e
    case Null => false
    case Atom(t) => IsAtom(t)
    case Neg(x) => Proper(x)
    case Bin(_, l, r) => Proper(l) && Proper(r)
    case Call(f, args) => Proper(f) && forall k :: 0 <= k < |args| ==> Proper(args[k])
    case Index(o, i) => Proper(o) && Proper(i)
    case Ternary(c, t1, f1) => Proper(c) && Proper(t1) && Proper(f1)
  }

  // ----- printing, then parsing -----

  /** xs stands in ts from pos on. */
  predicate Placed(ts: seq<Token>, pos: nat, xs: seq<Token>) {
    pos + |xs| <= |ts| && ts[pos..pos + |xs|] == xs
  }

  lemma Split(ts: seq<Token>, pos: nat, a: seq<Token>, b: seq<Token>)
    requires Placed(ts, pos, a + b)
    ensures Placed(ts, pos, a) && Placed(ts, pos + |a|, b)
    ensures b != [] ==> Cur(ts, pos + |a|) == b[0]
  {
    var s := ts[pos..pos + |a + b|];
    assert s[..|a|] == a && s[|a|..] == b;
    assert ts[pos..pos + |a|] == s[..|a|];
    assert ts[pos + |a|..pos + |a| + |b|] == s[|a|..];
  }

  lemma Around(ts: seq<Token>, pos: nat, a: seq<Token>, t: Token, b: seq<Token>)
    requires Placed(ts, pos, a + [t] + b)
    ensures Placed(ts, pos, a) && Placed(ts, pos + |a| + 1, b) && pos + |a| < |ts| && ts[pos + |a|] == t
    ensures Cur(ts, pos + |a|) == t
  {
    assert a + [t] + b == a + ([t] + b);
    Split(ts, pos, a, [t] + b);
    Split(ts, pos + |a|, [t], b);
  }

  lemma Bracketed(ts: seq<Token>, pos: nat, a: seq<Token>, open: Token, b: seq<Token>, close: Token)
    requires Placed(ts, pos, a + [open] + b + [close])
    ensures Placed(ts, pos, a) && pos + |a| < |ts| && ts[pos + |a|] == open
    ensures Placed(ts, pos + |a| + 1, b) && pos + |a| + 1 + |b| < |ts| && ts[pos + |a| + 1 + |b|] == close
  {
    assert a + [open] + b + [close] == a + [open] + (b + [close]);
    Around(ts, pos, a, open, b + [close]);
    Split(ts, pos + |a| + 1, b, [close]);
  }

  /** Token t after e does not become part of e's last operand. */
  predicate Stops(e: Expr, t: Token) {
    match e
    case Neg(_) => TokenPrec(t) <= UNARY
    case Bin(op, _, _) => TokenPrec(t) <= OpPrec(op)
    case Ternary(_, _, _) => TokenPrec(t) <= OR && !t.KwIf? && !t.KwElse?
    case _ => true
  }

  /** A printed tree starts with a token that can start an expression. */
  lemma {:induction false} Starts(e: Expr)
    requires Proper(e)
    ensures Bare(e) != [] && (IsAtom(Bare(e)[0]) || Bare(e)[0] == LParen || Bare(e)[0] == Op(Minus))
    decreases e
  {
    match e
    case Bin(op, l, r) => Starts(l);
    case Call(f, _) => Starts(f);
    case Index(o, _) => Starts(o);
    case Ternary(_, t1, _) =>
      Starts(t1);
      OperandForms(t1, 1);
      assert Bare(e)[0] == PrintOperand(t1, 1)[0];
    case _ =>
  }

  // One step of the parser each.

  lemma StepAtom(ts: seq<Token>, pos: nat, p: nat)
    requires pos < |ts| && IsAtom(ts[pos])
    ensures ParsePrecedence(ts, pos, p) == ParseLoop(ts, Result(Atom(ts[pos]), pos + 1, true), p)
  {
  }

  lemma StepNeg(ts: seq<Token>, pos: nat, p: nat, x: Expr, n: nat)
    requires pos < |ts| && ts[pos] == Op(Minus) && !x.Null? && ParsePrecedence(ts, pos + 1, UNARY) == Result(x, n, true)
    ensures n <= |ts| && ParsePrecedence(ts, pos, p) == ParseLoop(ts, Result(Neg(x), n, true), p)
  {
  }

  lemma StepWhole(ts: seq<Token>, pos: nat, e: Expr, n: nat)
    requires pos < |ts| && !ts[pos].Newline? && !ts[pos].Eof? && ParsePrecedence(ts, pos, NONE) == Result(e, n, true)
    ensures n <= |ts| && ParseExpression(ts, pos) == Result(e, n, true) && SkipNewlines(ts, pos) == pos
  {
  }

  lemma StepGroup(ts: seq<Token>, pos: nat, p: nat, e: Expr, n: nat)
    requires pos + 1 < |ts| && ts[pos] == LParen && !ts[pos + 1].Newline? && !ts[pos + 1].Eof? && !e.Null?
    requires ParsePrecedence(ts, pos + 1, NONE) == Result(e, n, true) && n < |ts| && ts[n] == RParen
    ensures ParsePrecedence(ts, pos, p) == ParseLoop(ts, Result(e, n + 1, true), p)
  {
    StepWhole(ts, pos + 1, e, n);
    hide ParseExpression;
    assert SkipNewlines(ts, n) == n;
  }

  /** The loop takes one turn. */
  lemma StepTurn(ts: seq<Token>, left: Result, p: nat, next: Result)
    requires left.pos <= |ts| && TokenPrec(Cur(ts, left.pos)) > p && ParseInfix(ts, left) == next
    ensures next.pos <= |ts| && ParseLoop(ts, left, p) == ParseLoop(ts, next, p)
  {
    hide ParseInfix, TokenPrec;
  }

  lemma StepBin(ts: seq<Token>, p: nat, op: BinOp, l: Expr, m: nat, r: Expr, n: nat)
    requires m < |ts| && ts[m] == Op(op) && OpPrec(op) > p && !r.Null?
    requires ParsePrecedence(ts, m + 1, OpPrec(op)) == Result(r, n, true)
    ensures n <= |ts| && ParseLoop(ts, Result(l, m, true), p) == ParseLoop(ts, Result(Bin(op, l, r), n, true), p)
  {
    hide ParsePrecedence, ParseLoop, OpPrec;
    StepTurn(ts, Result(l, m, true), p, Result(Bin(op, l, r), n, true));
  }

  lemma StepIndex(ts: seq<Token>, p: nat, o: Expr, m: nat, i: Expr, n: nat)
    requires m + 1 < |ts| && ts[m] == LBracket && p <= UNARY && !ts[m + 1].Newline? && !ts[m + 1].Eof?
    requires ParsePrecedence(ts, m + 1, NONE) == Result(i, n, true) && n < |ts| && ts[n] == RBracket
    ensures ParseLoop(ts, Result(o, m, true), p) == ParseLoop(ts, Result(Index(o, i), n + 1, true), p)
  {
    hide ParseExpression, ParsePrecedence, ParseLoop;
    StepWhole(ts, m + 1, i, n);
    assert SkipNewlines(ts, n) == n;
    StepTurn(ts, Result(o, m, true), p, Result(Index(o, i), n + 1, true));
  }

  lemma StepCall(ts: seq<Token>, p: nat, f: Expr, m: nat, args: seq<Expr>, n: nat)
    requires m + 1 < |ts| && ts[m] == LParen && p <= UNARY && !ts[m + 1].Newline? && n < |ts| && ts[n] == RParen
    requires if args == [] then n == m + 1
             else ts[m + 1] != RParen && ParseArguments(ts, m + 1, []) == Args(args, n, true)
    ensures ParseLoop(ts, Result(f, m, true), p) == ParseLoop(ts, Result(Call(f, args), n + 1, true), p)
  {
    hide ParseArguments, ParseLoop;
    assert SkipNewlines(ts, m + 1) == m + 1 && SkipNewlines(ts, n) == n;
    StepTurn(ts, Result(f, m, true), p, Result(Call(f, args), n + 1, true));
  }

  lemma StepTernary(ts: seq<Token>, p: nat, t: Expr, m: nat, c: Expr, k: nat, f: Expr, n: nat)
    requires m + 1 < |ts| && ts[m] == KwIf && p < OR && !ts[m + 1].Newline? && !ts[m + 1].Eof? && !c.Null?
    requires ParsePrecedence(ts, m + 1, NONE) == Result(c, k, true) && k < |ts| && ts[k] == KwElse
    requires ParsePrecedence(ts, k + 1, OR) == Result(f, n, true) && !Cur(ts, n).KwElse? && !Cur(ts, n).KwIf?
    ensures n <= |ts| && ParseLoop(ts, Result(t, m, true), p) == ParseLoop(ts, Result(Ternary(c, t, f), n, true), p)
  {
    hide ParseExpression, ParsePrecedence, ParseLoop, LineEnd, SkipNewlines;
    StepWhole(ts, m + 1, c, k);
    StepTurn(ts, Result(t, m, true), p, Result(Ternary(c, t, f), n, true));
  }

  lemma StepStop(ts: seq<Token>, left: Result, p: nat)
    requires left.pos <= |ts| && TokenPrec(Cur(ts, left.pos)) <= p
    ensures ParseLoop(ts, left, p) == left
  {
  }

  lemma Forms(e: Expr, p: nat)
    ensures Print(e, p) == [LParen] + Bare(e) + [RParen] || (Print(e, p) == Bare(e) && Level(e) > p)
  {
  }

  /** A bare callee or indexed object is closed. */
  lemma CalleeStops(e: Expr, t: Token)
    requires Level(e) > CALL
    ensures Stops(e, t)
  {
  }

  /** A bare left operand ends before an operator of its own level. */
  lemma LeftStops(e: Expr, op: BinOp)
    requires Level(e) > OpPrec(op) - 1
    ensures Stops(e, Op(op))
  {
  }

  /** A complete bare expression ends before anything that binds no tighter than its context. */
  lemma WholeStops(e: Expr, p: nat, t: Token)
    requires p <= UNARY && Level(e) > p && TokenPrec(t) <= p && (e.Ternary? ==> !t.KwElse?)
    ensures Stops(e, t)
  {
  }

  // Where the parts of a bare tree stand.

  lemma LayoutNeg(e: Expr, ts: seq<Token>, pos: nat)
    requires e.Neg? && Placed(ts, pos, Bare(e))
    ensures pos < |ts| && ts[pos] == Op(Minus) && Placed(ts, pos + 1, Print(e.e, UNARY)) &&
            |Bare(e)| == 1 + |Print(e.e, UNARY)|
  {
    Split(ts, pos, [Op(Minus)], Print(e.e, UNARY));
  }

  lemma LayoutBin(e: Expr, ts: seq<Token>, pos: nat) returns (m: nat)
    requires e.Bin? && Placed(ts, pos, Bare(e))
    ensures m == pos + |Print(e.l, OpPrec(e.op) - 1)| < |ts| && ts[m] == Op(e.op) &&
            Placed(ts, pos, Print(e.l, OpPrec(e.op) - 1))
    ensures Placed(ts, m + 1, Print(e.r, OpPrec(e.op))) && m + 1 + |Print(e.r, OpPrec(e.op))| == pos + |Bare(e)|
  {
    m := pos + |Print(e.l, OpPrec(e.op) - 1)|;
    hide Print, PrintOperand, PrintArguments, Placed;
    Around(ts, pos, Print(e.l, OpPrec(e.op) - 1), Op(e.op), Print(e.r, OpPrec(e.op)));
  }

  lemma LayoutIndex(e: Expr, ts: seq<Token>, pos: nat) returns (m: nat, n: nat)
    requires e.Index? && Placed(ts, pos, Bare(e))
    ensures m == pos + |Print(e.o, CALL)| < |ts| && ts[m] == LBracket && Placed(ts, pos, Print(e.o, CALL))
    ensures n == m + 1 + |Print(e.i, NONE)| < |ts| && ts[n] == RBracket && Placed(ts, m + 1, Print(e.i, NONE))
    ensures n + 1 == pos + |Bare(e)|
  {
    var xs, ys := Print(e.o, CALL), Print(e.i, NONE);
    m, n := pos + |xs|, pos + |xs| + 1 + |ys|;
    hide Print, Placed;
    Bracketed(ts, pos, xs, LBracket, ys, RBracket);
  }

  lemma LayoutCall(e: Expr, ts: seq<Token>, pos: nat) returns (m: nat, n: nat)
    requires e.Call? && Placed(ts, pos, Bare(e))
    ensures m == pos + |Print(e.f, CALL)| < |ts| && ts[m] == LParen && Placed(ts, pos, Print(e.f, CALL))
    ensures n == m + 1 + |PrintArguments(e.args, 0)| < |ts| && ts[n] == RParen &&
            Placed(ts, m + 1, PrintArguments(e.args, 0))
    ensures n + 1 == pos + |Bare(e)| && (e.args == [] ==> n == m + 1)
  {
    var xs, ys := Print(e.f, CALL), PrintArguments(e.args, 0);
    m, n := pos + |xs|, pos + |xs| + 1 + |ys|;
    hide Print, Placed;
    Bracketed(ts, pos, xs, LParen, ys, RParen);
  }

  lemma LayoutTernary(e: Expr, ts: seq<Token>, pos: nat) returns (m: nat, k: nat)
    requires e.Ternary? && Placed(ts, pos, Bare(e))
    ensures m == pos + |PrintOperand(e.t1, 1)| < |ts| && ts[m] == KwIf && Placed(ts, pos, PrintOperand(e.t1, 1))
    ensures k == m + 1 + |PrintOperand(e.c, NONE)| < |ts| && ts[k] == KwElse &&
            Placed(ts, m + 1, PrintOperand(e.c, NONE))
    ensures Placed(ts, k + 1, Print(e.f1, OR)) && k + 1 + |Print(e.f1, OR)| == pos + |Bare(e)|
  {
    var xs, cs, fs := PrintOperand(e.t1, 1), PrintOperand(e.c, NONE), Print(e.f1, OR);
    m, k := pos + |xs|, pos + |xs| + 1 + |cs|;
    assert Bare(e) == xs + [KwIf] + (cs + [KwElse] + fs);
    hide Print, PrintOperand, PrintArguments, Placed;
    Around(ts, pos, xs, KwIf, cs + [KwElse] + fs);
    Around(ts, m + 1, cs, KwElse, fs);
  }

  lemma LayoutGroup(e: Expr, ts: seq<Token>, pos: nat) returns (n: nat)
    requires Placed(ts, pos, [LParen] + Bare(e) + [RParen]) && Proper(e)
    ensures n == pos + 1 + |Bare(e)| < |ts| && ts[pos] == LParen && ts[n] == RParen && Placed(ts, pos + 1, Bare(e))
    ensures !ts[pos + 1].Newline? && !ts[pos + 1].Eof?
  {
    assert [LParen] + Bare(e) + [RParen] == [] + [LParen] + Bare(e) + [RParen];
    Bracketed(ts, pos, [], LParen, Bare(e), RParen);
    n := pos + 1 + |Bare(e)|;
    Starts(e);
    assert ts[pos + 1] == ts[pos + 1..n][0];
  }

  lemma LayoutFirst(e: Expr, ts: seq<Token>, pos: nat, xs: seq<Token>)
    requires Placed(ts, pos, xs) && Proper(e) && (xs == Bare(e) || xs == [LParen] + Bare(e) + [RParen])
    ensures pos + |xs| <= |ts|
    ensures pos < |ts| && !ts[pos].Newline? && !ts[pos].Eof? && !ts[pos].RParen?
  {
    Starts(e);
    assert ts[pos] == ts[pos..pos + |xs|][0];
  }

  /** An operand printed for context c is read back as `left`, whatever follows, provided that does not
    * extend it when it stands bare. */
  lemma {:induction false} ReadsOperand(e: Expr, p: nat, ts: seq<Token>, pos: nat, xs: seq<Token>)
    requires Proper(e) && p <= UNARY && Placed(ts, pos, xs)
    requires (xs == Bare(e) && Level(e) > p && Stops(e, Cur(ts, pos + |xs|))) || xs == [LParen] + Bare(e) + [RParen]
    ensures ParsePrecedence(ts, pos, p) == ParseLoop(ts, Result(e, pos + |xs|, true), p)
    decreases e, 3
  {
    hide ParsePrecedence, ParseLoop, Bare, Stops, Proper, Placed, Level;
    LevelPositive(e);
    if xs == Bare(e) && Level(e) > p && Stops(e, Cur(ts, pos + |xs|)) {
      ReadsBare(e, p, ts, pos);
    } else {
      var n := LayoutGroup(e, ts, pos);
      WholeStops(e, NONE, RParen);
      ReadsBare(e, NONE, ts, pos + 1);
      StepStop(ts, Result(e, n, true), NONE);
      ProperIsSome(e);
      StepGroup(ts, pos, p, e, n);
    }
  }

  lemma ProperParts(e: Expr)
    requires Proper(e)
    ensures e.Neg? ==> Proper(e.e) && !e.e.Null?
    ensures e.Bin? ==> Proper(e.l) && Proper(e.r) && !e.r.Null?
    ensures e.Index? ==> Proper(e.o) && Proper(e.i)
    ensures e.Call? ==> Proper(e.f) && forall k :: 0 <= k < |e.args| ==> Proper(e.args[k])
    ensures e.Ternary? ==> Proper(e.c) && Proper(e.t1) && Proper(e.f1) && !e.c.Null?
  {
  }

  /** How levels relate to the contexts operands are printed for. */
  lemma Levels(e: Expr)
    ensures e.Ternary? ==> Level(e) == OR
    ensures TokenPrec(KwIf) == OR && TokenPrec(LParen) == CALL && TokenPrec(LBracket) == CALL
    ensures TokenPrec(RParen) == TokenPrec(RBracket) == TokenPrec(KwElse) == TokenPrec(Comma) == NONE
  {
  }

  lemma LevelPositive(e: Expr)
    ensures Level(e) > NONE
  {
  }

  lemma ProperIsSome(e: Expr)
    requires Proper(e)
    ensures !e.Null?
  {
  }

  /** A complete expression, when what follows binds no tighter than the context. */
  lemma {:induction false} ReadsWhole(e: Expr, p: nat, ts: seq<Token>, pos: nat, xs: seq<Token>)
    requires Proper(e) && p <= UNARY && Placed(ts, pos, xs) && TokenPrec(Cur(ts, pos + |xs|)) <= p
    requires (xs == Bare(e) && Level(e) > p && (e.Ternary? ==> !Cur(ts, pos + |xs|).KwElse?)) ||
             xs == [LParen] + Bare(e) + [RParen]
    ensures ParsePrecedence(ts, pos, p) == Result(e, pos + |xs|, true)
    ensures pos < |ts| && !ts[pos].Newline? && !ts[pos].Eof? && !ts[pos].RParen?
    decreases e, 4
  {
    hide ParsePrecedence, ParseLoop, Bare, Level, Stops, TokenPrec, Proper, Placed;
    LayoutFirst(e, ts, pos, xs);
    var next := Cur(ts, pos + |xs|);
    if Level(e) > p && (e.Ternary? ==> !next.KwElse?) { WholeStops(e, p, next); }
    ReadsOperand(e, p, ts, pos, xs);
    StepStop(ts, Result(e, pos + |xs|, true), p);
  }

  lemma {:induction false} ReadsBare(e: Expr, p: nat, ts: seq<Token>, pos: nat)
    requires Proper(e) && p <= UNARY && Level(e) > p && Placed(ts, pos, Bare(e)) && Stops(e, Cur(ts, pos + |Bare(e)|))
    ensures ParsePrecedence(ts, pos, p) == ParseLoop(ts, Result(e, pos + |Bare(e)|, true), p)
    decreases e, 2
  {
    hide ParsePrecedence, ParseLoop, Print, PrintArguments, PrintOperand;
    match e
    case Atom(t) =>
      assert ts[pos] == Bare(e)[0];
      StepAtom(ts, pos, p);
    case Neg(x) =>
      LayoutNeg(e, ts, pos);
      Forms(x, UNARY);
      ProperIsSome(x);
      hide Bare, Placed;
      ReadsWhole(x, UNARY, ts, pos + 1, Print(x, UNARY));
      StepNeg(ts, pos, p, x, pos + 1 + |Print(x, UNARY)|);
    case Bin(_, _, _) => ReadsBin(e, p, ts, pos);
    case Call(_, _) => ReadsCall(e, p, ts, pos);
    case Index(_, _) => ReadsIndex(e, p, ts, pos);
    case Ternary(_, _, _) => ReadsTernary(e, p, ts, pos);
  }

  lemma {:induction false} ReadsBin(e: Expr, p: nat, ts: seq<Token>, pos: nat)
    requires e.Bin? && Proper(e) && p < OpPrec(e.op) && Placed(ts, pos, Bare(e)) &&
             TokenPrec(Cur(ts, pos + |Bare(e)|)) <= OpPrec(e.op)
    ensures ParsePrecedence(ts, pos, p) == ParseLoop(ts, Result(e, pos + |Bare(e)|, true), p)
    decreases e, 1
  {
    hide ParsePrecedence, ParseLoop, ParseArguments, Bare, Print, PrintArguments, PrintOperand, Placed, Stops;
    hide TokenPrec, OpPrec, Level, Proper;
    Levels(e.r);
    ProperParts(e);
    var q := OpPrec(e.op);
    var m := LayoutBin(e, ts, pos);
    Forms(e.l, q - 1);
    Forms(e.r, q);
    if Level(e.l) > q - 1 { LeftStops(e.l, e.op); }
    ReadsOperand(e.l, p, ts, pos, Print(e.l, q - 1));
    ReadsWhole(e.r, q, ts, m + 1, Print(e.r, q));
    StepBin(ts, p, e.op, e.l, m, e.r, pos + |Bare(e)|);
  }

  lemma {:induction false} ReadsIndex(e: Expr, p: nat, ts: seq<Token>, pos: nat)
    requires e.Index? && Proper(e) && p <= UNARY && Placed(ts, pos, Bare(e))
    ensures ParsePrecedence(ts, pos, p) == ParseLoop(ts, Result(e, pos + |Bare(e)|, true), p)
    decreases e, 1
  {
    hide ParsePrecedence, ParseLoop, ParseArguments, Bare, Print, PrintArguments, PrintOperand, Placed, Stops;
    hide TokenPrec, OpPrec, Level, Proper;
    Levels(e.i);
    ProperParts(e);
    var m, n := LayoutIndex(e, ts, pos);
    Forms(e.o, CALL);
    PrintsWhole(e.i);
    if Level(e.o) > CALL { CalleeStops(e.o, LBracket); }
    ReadsOperand(e.o, p, ts, pos, Print(e.o, CALL));
    ReadsWhole(e.i, NONE, ts, m + 1, Print(e.i, NONE));
    StepIndex(ts, p, e.o, m, e.i, n);
  }

  lemma {:induction false} ReadsCall(e: Expr, p: nat, ts: seq<Token>, pos: nat)
    requires e.Call? && Proper(e) && p <= UNARY && Placed(ts, pos, Bare(e))
    ensures ParsePrecedence(ts, pos, p) == ParseLoop(ts, Result(e, pos + |Bare(e)|, true), p)
    decreases e, 1
  {
    hide ParsePrecedence, ParseLoop, ParseArguments, Bare, Print, PrintArguments, PrintOperand, Placed, Stops;
    hide TokenPrec, OpPrec, Level, Proper;
    Levels(e.f);
    ProperParts(e);
    var m, n := LayoutCall(e, ts, pos);
    Forms(e.f, CALL);
    if Level(e.f) > CALL { CalleeStops(e.f, LParen); }
    ReadsOperand(e.f, p, ts, pos, Print(e.f, CALL));
    if e.args != [] {
      ReadsArguments(e.args, 0, ts, m + 1);
      assert e.args[..0] == [];
    }
    StepCall(ts, p, e.f, m, e.args, n);
  }

  lemma {:induction false} ReadsArguments(args: seq<Expr>, k: nat, ts: seq<Token>, pos: nat)
    requires k < |args| && (forall i :: 0 <= i < |args| ==> Proper(args[i]))
    requires Placed(ts, pos, PrintArguments(args, k)) && Cur(ts, pos + |PrintArguments(args, k)|).RParen?
    ensures ParseArguments(ts, pos, args[..k]) == Args(args, pos + |PrintArguments(args, k)|, true)
    ensures pos < |ts| && !ts[pos].Newline? && !ts[pos].Eof? && !ts[pos].RParen?
    decreases args, |args| - k
  {
    hide Print, PrintArguments, Placed, ParsePrecedence, ParseExpression, ParseArguments, Bare, Level, SkipNewlines;
    hide Proper, TokenPrec;
    PrintArgumentsStep(args, k);
    PrintsWhole(args[k]);
    Levels(args[k]);
    var xs := Print(args[k], NONE);
    var n := pos + |xs|;
    assert args[..k] + [args[k]] == args[..k + 1];
    if k == |args| - 1 {
      ReadsWhole(args[k], NONE, ts, pos, xs);
      StepWhole(ts, pos, args[k], n);
      assert args[..k + 1] == args;
      LastArgument(ts, pos, args[..k], args[k], n);
    } else {
      Around(ts, pos, xs, Comma, PrintArguments(args, k + 1));
      ReadsWhole(args[k], NONE, ts, pos, xs);
      StepWhole(ts, pos, args[k], n);
      ReadsArguments(args, k + 1, ts, n + 1);
      MoreArguments(ts, pos, args[..k], args[k], n);
    }
  }

  lemma PrintArgumentsStep(args: seq<Expr>, k: nat)
    requires k < |args|
    ensures PrintArguments(args, k) ==
            if k == |args| - 1 then Print(args[k], NONE)
            else Print(args[k], NONE) + [Comma] + PrintArguments(args, k + 1)
  {
  }

  lemma PrintsWhole(e: Expr)
    ensures Print(e, NONE) == Bare(e) && Level(e) > NONE
  {
  }

  lemma LastArgument(ts: seq<Token>, pos: nat, acc: seq<Expr>, e: Expr, n: nat)
    requires pos <= |ts| && SkipNewlines(ts, pos) == pos && ParseExpression(ts, pos) == Result(e, n, true) &&
             Cur(ts, n).RParen?
    ensures ParseArguments(ts, pos, acc) == Args(acc + [e], n, true)
  {
    hide ParseExpression;
    assert SkipNewlines(ts, n) == n;
  }

  lemma MoreArguments(ts: seq<Token>, pos: nat, acc: seq<Expr>, e: Expr, n: nat)
    requires pos <= |ts| && SkipNewlines(ts, pos) == pos && ParseExpression(ts, pos) == Result(e, n, true)
    requires n + 1 < |ts| && ts[n] == Comma && !ts[n + 1].Newline? && !ts[n + 1].RParen?
    ensures var rest := ParseArguments(ts, n + 1, acc + [e]); ParseArguments(ts, pos, acc) == rest
  {
    hide ParseExpression;
    assert SkipNewlines(ts, n) == n && SkipNewlines(ts, n + 1) == n + 1;
  }

  lemma OperandForms(e: Expr, p: nat)
    ensures PrintOperand(e, p) == [LParen] + Bare(e) + [RParen] ||
            (PrintOperand(e, p) == Bare(e) && Level(e) > p && !e.Ternary?)
  {
  }

  lemma {:induction false} ReadsTernary(e: Expr, p: nat, ts: seq<Token>, pos: nat)
    requires e.Ternary? && Proper(e) && p < OR && Placed(ts, pos, Bare(e)) && Stops(e, Cur(ts, pos + |Bare(e)|))
    ensures ParsePrecedence(ts, pos, p) == ParseLoop(ts, Result(e, pos + |Bare(e)|, true), p)
    decreases e, 1
  {
    hide ParsePrecedence, ParseLoop, ParseArguments, Bare, Print, PrintArguments, PrintOperand, Placed, Stops;
    hide TokenPrec, OpPrec, Level, Proper;
    Levels(e);
    ProperParts(e);
    var m, k := LayoutTernary(e, ts, pos);
    OperandForms(e.t1, 1);
    if !e.t1.Ternary? { OperandStops(e.t1); }
    TernaryStops(e, Cur(ts, pos + |Bare(e)|));
    ReadsOperand(e.t1, p, ts, pos, PrintOperand(e.t1, 1));
    ReadsBranches(e, p, ts, m, k, pos + |Bare(e)|);
  }

  lemma TernaryStops(e: Expr, t: Token)
    requires e.Ternary? && Stops(e, t)
    ensures TokenPrec(t) <= OR && !t.KwIf? && !t.KwElse?
  {
  }

  lemma OperandStops(e: Expr)
    requires !e.Ternary?
    ensures Stops(e, KwIf)
  {
  }

  /** The condition and the other branch, after the first operand. */
  lemma {:induction false} ReadsBranches(e: Expr, p: nat, ts: seq<Token>, m: nat, k: nat, n: nat)
    requires e.Ternary? && Proper(e) && p < OR && m < |ts| && ts[m] == KwIf
    requires k == m + 1 + |PrintOperand(e.c, NONE)| < |ts| && ts[k] == KwElse &&
             Placed(ts, m + 1, PrintOperand(e.c, NONE))
    requires n == k + 1 + |Print(e.f1, OR)| && Placed(ts, k + 1, Print(e.f1, OR))
    requires TokenPrec(Cur(ts, n)) <= OR && !Cur(ts, n).KwIf? && !Cur(ts, n).KwElse?
    ensures n <= |ts| && ParseLoop(ts, Result(e.t1, m, true), p) == ParseLoop(ts, Result(e, n, true), p)
    decreases e, 0
  {
    hide ParsePrecedence, ParseLoop, ParseArguments, Bare, Print, PrintArguments, PrintOperand, Placed, Stops;
    hide TokenPrec, OpPrec, Level, Proper;
    Levels(e.f1);
    ProperParts(e);
    OperandForms(e.c, NONE);
    Forms(e.f1, OR);
    ReadsWhole(e.c, NONE, ts, m + 1, PrintOperand(e.c, NONE));
    ReadsWhole(e.f1, OR, ts, k + 1, Print(e.f1, OR));
    StepTernary(ts, p, e.t1, m, e.c, k, e.f1, n);
  }

  /** Every proper tree, printed with those parentheses and followed by anything that is not an
    * operator (the end, a newline, a closing bracket, a comma), is parsed back without an error. */
  lemma RoundTrip(e: Expr, ts: seq<Token>, pos: nat)
    requires Proper(e) && Placed(ts, pos, Print(e, NONE))
    requires var t := Cur(ts, pos + |Print(e, NONE)|); TokenPrec(t) == NONE && !t.KwElse?
    ensures ParseExpression(ts, pos) == Result(e, pos + |Print(e, NONE)|, true)
  {
    hide ParsePrecedence;
    ReadsWhole(e, NONE, ts, pos, Print(e, NONE));
    StepWhole(ts, pos, e, pos + |Print(e, NONE)|);
  }

  /** Printing is unambiguous: different trees print differently. */
  lemma PrintInjective(a: Expr, b: Expr)
    requires Proper(a) && Proper(b) && Print(a, NONE) == Print(b, NONE)
    ensures a == b
  {
    hide ParseExpression, Print, Proper;
    var ts := Print(a, NONE);
    assert ts[0..|ts|] == ts;
    RoundTrip(a, ts, 0);
    RoundTrip(b, ts, 0);
  }

  // ----- the parser as an object with a token cursor -----

  class Parser {
    const tokens: seq<Token>
    var current: nat
    var ok: bool

    constructor (tokens: seq<Token>)
      ensures this.tokens == tokens && current == 0 && ok
    {
      this.tokens := tokens;
      current := 0;
      ok := true;
    }

    /** The cursor and the error flag after what r describes. */
    twostate predicate Did(r: Result, e: Expr)
      reads this
    {
      e == r.e && current == r.pos <= |tokens| && ok == (old(ok) && r.ok)
    }

    method Skip()
      requires current <= |tokens|
      modifies this`current
      ensures current == SkipNewlines(tokens, old(current)) <= |tokens|
    {
      while Cur(tokens, current).Newline?
        invariant current <= |tokens| && SkipNewlines(tokens, current) == SkipNewlines(tokens, old(current))
        decreases |tokens| - current
      {
        current := current + 1;
      }
    }

    method Consume(t: Token)
      requires current <= |tokens| && !t.Eof?
      modifies this
      ensures Cur(tokens, old(current)) == t ==> current == old(current) + 1 && ok == old(ok)
      ensures Cur(tokens, old(current)) != t ==> current == old(current) && !ok
      ensures current <= |tokens|
    {
      if Cur(tokens, current) == t { current := current + 1; } else { ok := false; }
    }

    method ParseExpr() returns (e: Expr)
      requires current <= |tokens|
      modifies this
      ensures Did(ParseExpression(tokens, old(current)), e)
      decreases |tokens| - current, 3
    {
      Skip();
      if Cur(tokens, current).Eof? { return Null; }
      e := ParsePrec(NONE);
    }

    /** parse_precedence: extend the operand while the next operator binds tighter. */
    method ParsePrec(prec: nat) returns (left: Expr)
      requires current <= |tokens|
      modifies this
      ensures Did(ParsePrecedence(tokens, old(current), prec), left)
      decreases |tokens| - current, 2
    {
      ghost var start := ok;
      left := ParsePref();
      ghost var first := ParsePrefix(tokens, old(current));
      if left.Null? { return; }
      ghost var good := first.ok;
      var prevPos := -1;
      while true
        invariant first.pos <= current <= |tokens| && prevPos < current && ok == (start && good)
        invariant ParseLoop(tokens, Result(left, current, good), prec) == ParseLoop(tokens, first, prec)
        decreases |tokens| - current
      {
        if current == prevPos { break; }
        prevPos := current;
        if TokenPrec(Cur(tokens, current)) <= prec { break; }
        ghost var turn := ParseInfix(tokens, Result(left, current, true));
        InfixOk(tokens, left, current, good);
        left := ParseInf(left);
        good := good && turn.ok;
      }
    }

    method ParsePref() returns (e: Expr)
      requires current <= |tokens|
      modifies this
      ensures Did(ParsePrefix(tokens, old(current)), e)
      decreases |tokens| - current, 1
    {
      var t := Cur(tokens, current);
      if IsAtom(t) {
        current := current + 1;
        return Atom(t);
      } else if t.LParen? {
        current := current + 1;
        Skip();
        e := ParseExpr();
        Skip();
        Consume(RParen);
      } else if t == Op(Minus) {
        current := current + 1;
        e := ParsePrec(UNARY);
        if e.Null? { ok := false; } else { e := Neg(e); }
      } else {
        if !t.Eof? && !t.Newline? { ok := false; }
        return Null;
      }
    }

    /** parse_infix, given the operand on the left. */
    method ParseInf(left: Expr) returns (e: Expr)
      requires current <= |tokens| && TokenPrec(Cur(tokens, current)) > NONE
      modifies this
      ensures Did(ParseInfix(tokens, Result(left, old(current), true)), e)
      decreases |tokens| - current, 0
    {
      hide ParsePrecedence, ParseExpression, ParseArguments, ParseLoop, ParsePrefix;
      match Cur(tokens, current) {
        case LParen => e := ParseCall(left);
        case LBracket => e := ParseIndex(left);
        case KwIf => e := ParseTernary(left);
        case Op(op) =>
          current := current + 1;
          var right := ParsePrec(OpPrec(op));
          e := if right.Null? then left else Bin(op, left, right);
      }
    }

    /** parse_index_access. */
    method ParseIndex(object_: Expr) returns (e: Expr)
      requires current < |tokens| && tokens[current].LBracket?
      modifies this
      ensures Did(ParseInfix(tokens, Result(object_, old(current), true)), e)
      decreases |tokens| - current, -1
    {
      hide ParsePrecedence, ParseExpression, ParseArguments, ParseLoop, ParsePrefix;
      current := current + 1;
      Skip();
      var index := ParseExpr();
      Skip();
      Consume(RBracket);
      e := Index(object_, index);
    }

    /** The ternary suffix of parse_infix. */
    method ParseTernary(left: Expr) returns (e: Expr)
      requires current < |tokens| && tokens[current].KwIf?
      modifies this
      ensures Did(ParseInfix(tokens, Result(left, old(current), true)), e)
      decreases |tokens| - current, -1
    {
      hide ParsePrecedence, ParseExpression, ParseArguments, ParseLoop, ParsePrefix;
      current := current + 1;
      var cond := ParseExpr();
      if cond.Null? {
        ok := false;
        return left;
      }
      Consume(KwElse);
      var other := ParsePrec(OR);
      e := Ternary(cond, left, other);
      if Cur(tokens, current).KwElse? || Cur(tokens, current).KwIf? {
        ok := false;
        SkipLine();
      }
    }

    method SkipLine()
      requires current <= |tokens|
      modifies this`current
      ensures current == LineEnd(tokens, old(current)) <= |tokens|
    {
      while current < |tokens| && !tokens[current].Newline? && !tokens[current].Eof?
        invariant current <= |tokens| && LineEnd(tokens, current) == LineEnd(tokens, old(current))
      {
        current := current + 1;
      }
    }

    /** parse_call. */
    method ParseCall(callee: Expr) returns (e: Expr)
      requires current < |tokens| && tokens[current].LParen?
      modifies this
      ensures Did(ParseInfix(tokens, Result(callee, old(current), true)), e)
      decreases |tokens| - current, -1
    {
      hide ParsePrecedence, ParseExpression, ParseArguments, ParseLoop, ParsePrefix;
      current := current + 1;
      Skip();
      var args := [];
      if !Cur(tokens, current).RParen? { args := ParseArgs(); }
      Skip();
      Consume(RParen);
      e := Call(callee, args);
    }

    /** One turn of the argument loop, up to the comma. */
    method ParseArg() returns (arg: Expr)
      requires current <= |tokens|
      modifies this
      ensures var r := ParseExpression(tokens, SkipNewlines(tokens, old(current)));
              arg == r.e && current == SkipNewlines(tokens, r.pos) <= |tokens| && ok == (old(ok) && r.ok)
      ensures old(current) <= current
      decreases |tokens| - current, 4
    {
      hide ParsePrecedence, ParseExpression, ParseLoop, ParsePrefix, ParseInfix;
      Skip();
      arg := ParseExpr();
      Skip();
    }

    method ParseArgs() returns (args: seq<Expr>)
      requires current <= |tokens|
      modifies this
      ensures var r := ParseArguments(tokens, old(current), []);
              args == r.args && current == r.pos <= |tokens| && ok == (old(ok) && r.ok)
      decreases |tokens| - current, 5
    {
      hide ParsePrecedence, ParseExpression, ParseLoop, ParsePrefix, ParseInfix;
      args := [];
      ghost var start, good, all := ok, true, ParseArguments(tokens, current, []);
      while true
        invariant old(current) <= current <= |tokens| && ok == (start && good)
        invariant var rest := ParseArguments(tokens, current, args); all == rest.(ok := good && rest.ok)
        decreases |tokens| - current
      {
        ghost var read := ParseExpression(tokens, SkipNewlines(tokens, current));
        var arg := ParseArg();
        args := args + [arg];
        good := good && read.ok;
        if !Cur(tokens, current).Comma? { break; }
        current := current + 1;
        Skip();
        if Cur(tokens, current).RParen? {
          ok, good := false, false;
          break;
        }
      }
    }
  }

  /** Earlier errors stay reported; nothing else depends on them. */
  lemma InfixOk(ts: seq<Token>, left: Expr, pos: nat, good: bool)
    requires pos <= |ts| && TokenPrec(Cur(ts, pos)) > NONE
    ensures var r := ParseInfix(ts, Result(left, pos, true));
            ParseInfix(ts, Result(left, pos, good)) == r.(ok := good && r.ok)
  {
    hide ParseExpression, ParsePrecedence, ParseArguments;
  }
}
