/** What the expression parser accepts without an error: token lists that an ambiguous grammar, without
  * precedences, derives. source/core/parser.c:1552-1640, 2041-2062, 2092-2115, 2161-2250. */
module Derivations {
  import opened PrattParser

  predicate AtLineEnd(ts: seq<Token>, pos: nat) { Cur(ts, pos).Eof? || Cur(ts, pos).Newline? }

  /** The tokens i .. j - 1 can be read as e: newlines may stand around it, parentheses too, and a binary
    * operator may dangle at the end of a line. */
  ghost predicate Derives(ts: seq<Token>, i: nat, j: nat, e: Expr)
    requires i <= j <= |ts|
    decreases j - i, 1, 0
  {
    i < j &&
    ((ts[i].Newline? && Derives(ts, i + 1, j, e)) || (ts[j - 1].Newline? && Derives(ts, i, j - 1, e)) ||
     (ts[j - 1].Op? && AtLineEnd(ts, j) && Derives(ts, i, j - 1, e)) ||
     (i < j - 1 && ts[i] == LParen && ts[j - 1] == RParen && Derives(ts, i + 1, j - 1, e)) ||
     Built(ts, i, j, e))
  }

  /** The tokens are e's parts with the tokens of its form between them. */
  ghost predicate Built(ts: seq<Token>, i: nat, j: nat, e: Expr)
    requires i < j <= |ts|
    decreases j - i, 0, 0
  {
    match e
    case Null => false
    case Atom(t) => IsAtom(t) && j == i + 1 && ts[i] == t
    case Neg(x) => ts[i] == Op(Minus) && Derives(ts, i + 1, j, x)
    case Bin(op, l, r) => exists m :: i <= m < j && ts[m] == Op(op) && Derives(ts, i, m, l) && Derives(ts, m + 1, j, r)
    case Call(f, args) =>
      ts[j - 1] == RParen &&
      exists m :: i <= m < j - 1 && ts[m] == LParen && Derives(ts, i, m, f) && DerivesAll(ts, m + 1, j - 1, args)
    case Index(o, x) =>
      ts[j - 1] == RBracket &&
      exists m :: i <= m < j - 1 && ts[m] == LBracket && Derives(ts, i, m, o) && Derives(ts, m + 1, j - 1, x)
    case Ternary(c, t, f) =>
      exists m, k :: i <= m < k < j && ts[m] == KwIf && ts[k] == KwElse && Derives(ts, i, m, t) &&
        Derives(ts, m + 1, k, c) && Otherwise(ts, k + 1, j, f)
  }

  /** What follows else: an expression, or nothing at the end of a line. */
  ghost predicate Otherwise(ts: seq<Token>, i: nat, j: nat, f: Expr)
    requires i <= j <= |ts|
    decreases j - i, 2, 0
  {
    if f.Null? then i == j && AtLineEnd(ts, j) else Derives(ts, i, j, f)
  }

  /** Expressions between commas; only newlines when there are none. */
  ghost predicate DerivesAll(ts: seq<Token>, i: nat, j: nat, es: seq<Expr>)
    requires i <= j <= |ts|
    decreases j - i, 2, |es|
  {
    if es == [] then forall k :: i <= k < j ==> ts[k].Newline?
    else if |es| == 1 then Derives(ts, i, j, es[0])
    else exists m :: i <= m < j && ts[m].Comma? && Derives(ts, i, m, es[0]) && DerivesAll(ts, m + 1, j, es[1..])
  }

  // ----- newlines -----

  lemma {:induction false} AfterNewlines(ts: seq<Token>, i: nat, j: nat, e: Expr)
    requires i <= |ts| && SkipNewlines(ts, i) <= j <= |ts| && Derives(ts, SkipNewlines(ts, i), j, e)
    ensures Derives(ts, i, j, e)
    decreases |ts| - i
  {
    hide Built;
    if Cur(ts, i).Newline? { AfterNewlines(ts, i + 1, j, e); }
  }

  lemma {:induction false} BeforeNewlines(ts: seq<Token>, i: nat, j: nat, e: Expr)
    requires i <= j <= |ts| && Derives(ts, i, j, e)
    ensures Derives(ts, i, SkipNewlines(ts, j), e)
    decreases |ts| - j
  {
    hide Built;
    if Cur(ts, j).Newline? { BeforeNewlines(ts, i, j + 1, e); }
  }

  lemma {:induction false} AllAfterNewlines(ts: seq<Token>, i: nat, j: nat, es: seq<Expr>)
    requires i <= |ts| && SkipNewlines(ts, i) <= j <= |ts| && es != [] && DerivesAll(ts, SkipNewlines(ts, i), j, es)
    ensures DerivesAll(ts, i, j, es)
  {
    hide Derives;
    var p := SkipNewlines(ts, i);
    if |es| == 1 {
      AfterNewlines(ts, i, j, es[0]);
    } else {
      var m :| p <= m < j && ts[m].Comma? && Derives(ts, p, m, es[0]) && DerivesAll(ts, m + 1, j, es[1..]);
      AfterNewlines(ts, i, m, es[0]);
    }
  }

  lemma {:induction false} SkippedNewlines(ts: seq<Token>, i: nat)
    requires i <= |ts|
    ensures forall k :: i <= k < SkipNewlines(ts, i) ==> ts[k].Newline?
    decreases |ts| - i
  {
    if Cur(ts, i).Newline? { SkippedNewlines(ts, i + 1); }
  }

  // ----- the parser, from the smallest part up -----

  lemma {:induction false} PrecedenceDerives(ts: seq<Token>, pos: nat, prec: nat)
    requires pos <= |ts|
    ensures var r := ParsePrecedence(ts, pos, prec);
            r.ok ==> if r.e.Null? then r.pos == pos && AtLineEnd(ts, pos) else Derives(ts, pos, r.pos, r.e)
    decreases |ts| - pos, 2
  {
    hide ParsePrefix, ParseLoop, Derives;
    PrefixDerives(ts, pos);
    var left := ParsePrefix(ts, pos);
    if !left.e.Null? { LoopDerives(ts, pos, left, prec); }
  }

  lemma {:induction false} LoopDerives(ts: seq<Token>, from: nat, left: Result, prec: nat)
    requires from < left.pos <= |ts| && !left.e.Null? && (left.ok ==> Derives(ts, from, left.pos, left.e))
    ensures var r := ParseLoop(ts, left, prec); !r.e.Null? && (r.ok ==> Derives(ts, from, r.pos, r.e))
    decreases |ts| - left.pos, 1
  {
    hide ParseInfix, Derives;
    if TokenPrec(Cur(ts, left.pos)) > prec {
      InfixDerives(ts, from, left);
      LoopDerives(ts, from, ParseInfix(ts, left), prec);
    }
  }

  lemma {:induction false} PrefixDerives(ts: seq<Token>, pos: nat)
    requires pos <= |ts|
    ensures var r := ParsePrefix(ts, pos);
            r.ok ==> if r.e.Null? then r.pos == pos && AtLineEnd(ts, pos) else Derives(ts, pos, r.pos, r.e)
    decreases |ts| - pos, 1
  {
    hide ParseExpression, ParsePrecedence, SkipNewlines;
    var t := Cur(ts, pos);
    if t.LParen? {
      var p := SkipNewlines(ts, pos + 1);
      ExpressionDerives(ts, p);
      var inner := ParseExpression(ts, p);
      if inner.ok && inner.e.Null? { StaysAtEof(ts, inner.pos); }
      if inner.ok && !inner.e.Null? {
        AfterNewlines(ts, pos + 1, inner.pos, inner.e);
        BeforeNewlines(ts, pos + 1, inner.pos, inner.e);
      }
    } else if t == Op(Minus) {
      PrecedenceDerives(ts, pos + 1, UNARY);
    }
  }

  lemma {:induction false} ExpressionDerives(ts: seq<Token>, pos: nat)
    requires pos <= |ts|
    ensures var r := ParseExpression(ts, pos);
            r.ok ==> if r.e.Null? then Cur(ts, r.pos).Eof? else Derives(ts, pos, r.pos, r.e)
    decreases |ts| - pos, 3
  {
    hide ParsePrecedence, Derives;
    var p := SkipNewlines(ts, pos);
    if !Cur(ts, p).Eof? {
      PrecedenceDerives(ts, p, NONE);
      var r := ParsePrecedence(ts, p, NONE);
      if r.ok && !r.e.Null? { AfterNewlines(ts, pos, r.pos, r.e); }
    }
  }

  lemma {:induction false} InfixDerives(ts: seq<Token>, from: nat, left: Result)
    requires from < left.pos <= |ts| && TokenPrec(Cur(ts, left.pos)) > NONE
    requires !left.e.Null? && (left.ok ==> Derives(ts, from, left.pos, left.e))
    ensures var r := ParseInfix(ts, left); !r.e.Null? && (r.ok ==> Derives(ts, from, r.pos, r.e))
    decreases |ts| - left.pos, 0, 1
  {
    hide ParseInfix, Derives;
    match Cur(ts, left.pos)
    case LParen => CallDerives(ts, from, left);
    case LBracket => IndexDerives(ts, from, left);
    case KwIf => TernaryDerives(ts, from, left);
    case Op(_) => BinDerives(ts, from, left);
  }

  lemma {:induction false} BinDerives(ts: seq<Token>, from: nat, left: Result)
    requires from < left.pos < |ts| && ts[left.pos].Op?
    requires !left.e.Null? && (left.ok ==> Derives(ts, from, left.pos, left.e))
    ensures var r := ParseInfix(ts, left); !r.e.Null? && (r.ok ==> Derives(ts, from, r.pos, r.e))
    decreases |ts| - left.pos, 0, 0
  {
    hide ParsePrecedence;
    var op := ts[left.pos].op;
    PrecedenceDerives(ts, left.pos + 1, OpPrec(op));
    var right := ParsePrecedence(ts, left.pos + 1, OpPrec(op));
    if left.ok && right.ok && !right.e.Null? { BinBuilt(ts, from, left.pos, right.pos, op, left.e, right.e); }
  }

  lemma BinBuilt(ts: seq<Token>, i: nat, m: nat, j: nat, op: BinOp, l: Expr, r: Expr)
    requires i <= m < j <= |ts| && ts[m] == Op(op) && Derives(ts, i, m, l) && Derives(ts, m + 1, j, r)
    ensures Derives(ts, i, j, Bin(op, l, r))
  {
    assert Built(ts, i, j, Bin(op, l, r));
  }

  lemma {:induction false} IndexDerives(ts: seq<Token>, from: nat, left: Result)
    requires from < left.pos < |ts| && ts[left.pos].LBracket?
    requires !left.e.Null? && (left.ok ==> Derives(ts, from, left.pos, left.e))
    ensures var r := ParseInfix(ts, left); !r.e.Null? && (r.ok ==> Derives(ts, from, r.pos, r.e))
    decreases |ts| - left.pos, 0, 0
  {
    hide ParseExpression, SkipNewlines, Derives;
    var p := SkipNewlines(ts, left.pos + 1);
    ExpressionDerives(ts, p);
    var index := ParseExpression(ts, p);
    var q := SkipNewlines(ts, index.pos);
    if left.ok && index.ok && Cur(ts, q) == RBracket {
      if index.e.Null? { StaysAtEof(ts, index.pos); assert false; }
      AfterNewlines(ts, left.pos + 1, index.pos, index.e);
      BeforeNewlines(ts, left.pos + 1, index.pos, index.e);
      IndexBuilt(ts, from, left.pos, q + 1, left.e, index.e);
    }
  }

  lemma StaysAtEof(ts: seq<Token>, pos: nat)
    requires Cur(ts, pos).Eof?
    ensures SkipNewlines(ts, pos) == pos
  {
  }

  lemma IndexBuilt(ts: seq<Token>, i: nat, m: nat, j: nat, o: Expr, x: Expr)
    requires i <= m < j - 1 < |ts| && ts[m] == LBracket && ts[j - 1] == RBracket
    requires Derives(ts, i, m, o) && Derives(ts, m + 1, j - 1, x)
    ensures Derives(ts, i, j, Index(o, x))
  {
    assert Built(ts, i, j, Index(o, x));
  }

  lemma {:induction false} TernaryDerives(ts: seq<Token>, from: nat, left: Result)
    requires from < left.pos < |ts| && ts[left.pos].KwIf?
    requires !left.e.Null? && (left.ok ==> Derives(ts, from, left.pos, left.e))
    ensures var r := ParseInfix(ts, left); !r.e.Null? && (r.ok ==> Derives(ts, from, r.pos, r.e))
    decreases |ts| - left.pos, 0, 0
  {
    hide ParseExpression, ParsePrecedence, LineEnd, Derives;
    ExpressionDerives(ts, left.pos + 1);
    var cond := ParseExpression(ts, left.pos + 1);
    if left.ok && cond.ok && !cond.e.Null? && Cur(ts, cond.pos) == KwElse {
      PrecedenceDerives(ts, cond.pos + 1, OR);
      var other := ParsePrecedence(ts, cond.pos + 1, OR);
      if other.ok { TernaryBuilt(ts, from, left.pos, cond.pos, other.pos, cond.e, left.e, other.e); }
    }
  }

  lemma TernaryBuilt(ts: seq<Token>, i: nat, m: nat, k: nat, j: nat, c: Expr, t: Expr, f: Expr)
    requires i <= m < k < j <= |ts| && ts[m] == KwIf && ts[k] == KwElse
    requires Derives(ts, i, m, t) && Derives(ts, m + 1, k, c) && Otherwise(ts, k + 1, j, f)
    ensures Derives(ts, i, j, Ternary(c, t, f))
  {
    assert Built(ts, i, j, Ternary(c, t, f));
  }

  lemma {:induction false} CallDerives(ts: seq<Token>, from: nat, left: Result)
    requires from < left.pos < |ts| && ts[left.pos].LParen?
    requires !left.e.Null? && (left.ok ==> Derives(ts, from, left.pos, left.e))
    ensures var r := ParseInfix(ts, left); !r.e.Null? && (r.ok ==> Derives(ts, from, r.pos, r.e))
    decreases |ts| - left.pos, 0, 0
  {
    hide ParseArguments, SkipNewlines, Derives, DerivesAll;
    var p := SkipNewlines(ts, left.pos + 1);
    if Cur(ts, p).RParen? {
      SkippedNewlines(ts, left.pos + 1);
      NoneDerived(ts, left.pos + 1, p);
      assert SkipNewlines(ts, p) == p by { StaysHere(ts, p); }
      if left.ok { CallBuilt(ts, from, left.pos, p + 1, left.e, []); }
    } else {
      ArgumentsDerive(ts, p, []);
      var args := ParseArguments(ts, p, []);
      assert SkipNewlines(ts, args.pos) == args.pos by { StaysHere(ts, args.pos); }
      if left.ok && args.ok && Cur(ts, args.pos) == RParen {
        AllAfterNewlines(ts, left.pos + 1, args.pos, args.args[0..]);
        assert args.args[0..] == args.args;
        CallBuilt(ts, from, left.pos, args.pos + 1, left.e, args.args);
      }
    }
  }

  lemma StaysHere(ts: seq<Token>, pos: nat)
    requires !Cur(ts, pos).Newline?
    ensures SkipNewlines(ts, pos) == pos
  {
  }

  lemma NoneDerived(ts: seq<Token>, i: nat, j: nat)
    requires i <= j <= |ts| && forall k :: i <= k < j ==> ts[k].Newline?
    ensures DerivesAll(ts, i, j, [])
  {
  }

  lemma CallBuilt(ts: seq<Token>, i: nat, m: nat, j: nat, f: Expr, args: seq<Expr>)
    requires i <= m < j - 1 < |ts| && ts[m] == LParen && ts[j - 1] == RParen
    requires Derives(ts, i, m, f) && DerivesAll(ts, m + 1, j - 1, args)
    ensures Derives(ts, i, j, Call(f, args))
  {
    assert Built(ts, i, j, Call(f, args));
  }

  /** The argument loop; it can run into the end of the input, where no parenthesis follows. */
  lemma {:induction false} ArgumentsDerive(ts: seq<Token>, pos: nat, acc: seq<Expr>)
    requires pos <= |ts|
    ensures var r := ParseArguments(ts, pos, acc);
            acc < r.args && !Cur(ts, r.pos).Newline? &&
            (r.ok && !Cur(ts, r.pos).Eof? ==> DerivesAll(ts, pos, r.pos, r.args[|acc|..]))
    decreases |ts| - pos, 4
  {
    hide ParseExpression, Derives, SkipNewlines, DerivesAll;
    var arg := ParseExpression(ts, SkipNewlines(ts, pos));
    var n, all := SkipNewlines(ts, arg.pos), acc + [arg.e];
    ArgumentDerives(ts, pos);
    if arg.ok && !arg.e.Null? { OneDerived(ts, pos, n, arg.e); }
    if !Cur(ts, n).Comma? {
      assert all[|acc|..] == [arg.e];
    } else {
      var q := SkipNewlines(ts, n + 1);
      if !Cur(ts, q).RParen? {
        ArgumentsDerive(ts, q, all);
        var rest := ParseArguments(ts, q, all);
        if arg.ok && rest.ok && !Cur(ts, rest.pos).Eof? {
          AllAfterNewlines(ts, n + 1, rest.pos, rest.args[|all|..]);
          MoreDerived(ts, pos, n, rest.pos, rest.args, |acc|);
        }
      }
    }
  }

  /** One argument with the newlines around it; at the end of the input there is none. */
  lemma {:induction false} ArgumentDerives(ts: seq<Token>, pos: nat)
    requires pos <= |ts|
    ensures var arg := ParseExpression(ts, SkipNewlines(ts, pos));
            var n := SkipNewlines(ts, arg.pos);
            arg.ok ==> if arg.e.Null? then Cur(ts, n).Eof? else Derives(ts, pos, n, arg.e)
    decreases |ts| - pos, 4, 0
  {
    hide ParseExpression, Derives, SkipNewlines;
    var p := SkipNewlines(ts, pos);
    ExpressionDerives(ts, p);
    var arg := ParseExpression(ts, p);
    if arg.ok && arg.e.Null? { StaysAtEof(ts, arg.pos); }
    if arg.ok && !arg.e.Null? {
      AfterNewlines(ts, pos, arg.pos, arg.e);
      BeforeNewlines(ts, pos, arg.pos, arg.e);
    }
  }

  lemma OneDerived(ts: seq<Token>, i: nat, j: nat, e: Expr)
    requires i <= j <= |ts| && Derives(ts, i, j, e)
    ensures DerivesAll(ts, i, j, [e])
  {
  }

  lemma MoreDerived(ts: seq<Token>, i: nat, m: nat, j: nat, args: seq<Expr>, k: nat)
    requires i <= m < j <= |ts| && ts[m].Comma? && k + 1 < |args|
    requires Derives(ts, i, m, args[k]) && DerivesAll(ts, m + 1, j, args[k + 1..])
    ensures DerivesAll(ts, i, j, args[k..])
  {
    hide Derives;
    assert args[k..][0] == args[k] && args[k..][1..] == args[k + 1..];
  }

  /** Tokens read without an error derive the tree that was made of them, unless there was nothing to read. */
  lemma AcceptedDerives(ts: seq<Token>, pos: nat)
    requires pos <= |ts| && ParseExpression(ts, pos).ok
    ensures var r := ParseExpression(ts, pos);
            if r.e.Null? then Cur(ts, SkipNewlines(ts, pos)).Eof? else Derives(ts, pos, r.pos, r.e)
  {
    ExpressionDerives(ts, pos);
    var p := SkipNewlines(ts, pos);
    if ParseExpression(ts, pos).e.Null? && !Cur(ts, p).Eof? {
      PrecedenceDerives(ts, p, NONE);
    }
  }

  /** The dangling operator is real: it is consumed, and nothing is reported. */
  lemma DanglingOperator(a: Token, op: BinOp)
    requires IsAtom(a)
    ensures ParseExpression([a, Op(op)], 0) == Result(Atom(a), 2, true)
  {
    hide ParseLoop, ParseInfix, OpPrec;
    var ts := [a, Op(op)];
    var left := Result(Atom(a), 1, true);
    assert ParsePrecedence(ts, 0, NONE) == ParseLoop(ts, left, NONE);
    assert ParseInfix(ts, left) == Result(Atom(a), 2, true) by { NothingRight(ts, left); }
    StepTurn(ts, left, NONE, Result(Atom(a), 2, true));
    StepStop(ts, Result(Atom(a), 2, true), NONE);
  }

  lemma NothingRight(ts: seq<Token>, left: Result)
    requires left.pos < |ts| && ts[left.pos].Op? && AtLineEnd(ts, left.pos + 1) && left.ok
    ensures ParseInfix(ts, left) == Result(left.e, left.pos + 1, true)
  {
    hide OpPrec;
    assert ParsePrecedence(ts, left.pos + 1, OpPrec(ts[left.pos].op)) == Result(Null, left.pos + 1, true);
  }
}
