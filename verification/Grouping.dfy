/** How unparenthesised operators group, written out as the language's table of operators has it
  * (source/core/parser.c:1514-1550) and without any precedence numbers. */
module Grouping {
  import opened PrattParser

  /** The binary operators, from the loosest group to the tightest. */
  const GROUPS: seq<set<BinOp>> := [{OrOp}, {AndOp}, {EqEq, NotEq}, {Less, Greater, LessEq, GreaterEq},
                                    {Plus, Minus}, {Star, Slash, Percent}]

  /** A list of tokens that is one expression. */
  predicate Reads(ts: seq<Token>, e: Expr) { ParseExpression(ts, 0) == Result(e, |ts|, true) }

  lemma GroupIs(op: BinOp, i: nat)
    requires i < 6 && op in GROUPS[i]
    ensures OpPrec(op) == i + 2
  {
  }

  /** A printed tree is read as that tree. */
  lemma ReadsPrinted(e: Expr)
    requires Proper(e)
    ensures Reads(Bare(e), e)
  {
    PrintsWhole(e);
    hide ParseExpression, Bare, Proper, Print;
    var ts := Bare(e);
    AtEnd(ts, |ts|);
    assert ts[0..|ts|] == ts;
    RoundTrip(e, ts, 0);
  }

  lemma AtEnd(ts: seq<Token>, pos: nat)
    requires pos >= |ts|
    ensures Cur(ts, pos) == Eof && TokenPrec(Cur(ts, pos)) == NONE
  {
  }

  /** A one-token operand. */
  lemma AtomPrints(t: Token, p: nat)
    requires IsAtom(t) && p < 10
    ensures Print(Atom(t), p) == Bare(Atom(t)) == [t] && Proper(Atom(t)) && Level(Atom(t)) == 10
  {
  }

  lemma BinPrints(op: BinOp, l: Expr, r: Expr, xs: seq<Token>, ys: seq<Token>)
    requires Proper(l) && Proper(r) && Print(l, OpPrec(op) - 1) == xs && Print(r, OpPrec(op)) == ys
    ensures Bare(Bin(op, l, r)) == xs + [Op(op)] + ys && Proper(Bin(op, l, r)) && Level(Bin(op, l, r)) == OpPrec(op)
  {
    hide Print;
  }

  lemma AtomsBin(op: BinOp, a: Token, b: Token)
    requires IsAtom(a) && IsAtom(b)
    ensures var e := Bin(op, Atom(a), Atom(b)); Bare(e) == [a, Op(op), b] && Proper(e) && Level(e) == OpPrec(op)
  {
    hide Bare, Proper, OpPrec, Print, Level;
    AtomPrints(a, OpPrec(op) - 1);
    AtomPrints(b, OpPrec(op));
    BinPrints(op, Atom(a), Atom(b), [a], [b]);
  }

  lemma Unbracketed(e: Expr, p: nat)
    requires Level(e) > p
    ensures Print(e, p) == Bare(e)
  {
  }

  /** Operators of a later group bind tighter; those of one group associate to the left. */
  lemma Pairs(a: Token, b: Token, c: Token, p: BinOp, q: BinOp, i: nat, j: nat)
    requires IsAtom(a) && IsAtom(b) && IsAtom(c) && i < 6 && j < 6 && p in GROUPS[i] && q in GROUPS[j]
    ensures Reads([a, Op(p), b, Op(q), c],
                  if j > i then Bin(p, Atom(a), Bin(q, Atom(b), Atom(c)))
                  else Bin(q, Bin(p, Atom(a), Atom(b)), Atom(c)))
  {
    GroupIs(p, i);
    GroupIs(q, j);
    hide ParseExpression, OpPrec, Bare, Print, Level, Proper;
    if j > i {
      AtomsBin(q, b, c);
      AtomPrints(a, OpPrec(p) - 1);
      Unbracketed(Bin(q, Atom(b), Atom(c)), OpPrec(p));
      BinPrints(p, Atom(a), Bin(q, Atom(b), Atom(c)), [a], [b, Op(q), c]);
      ReadsPrinted(Bin(p, Atom(a), Bin(q, Atom(b), Atom(c))));
      assert [a] + [Op(p)] + [b, Op(q), c] == [a, Op(p), b, Op(q), c];
    } else {
      AtomsBin(p, a, b);
      AtomPrints(c, OpPrec(q));
      Unbracketed(Bin(p, Atom(a), Atom(b)), OpPrec(q) - 1);
      BinPrints(q, Bin(p, Atom(a), Atom(b)), Atom(c), [a, Op(p), b], [c]);
      ReadsPrinted(Bin(q, Bin(p, Atom(a), Atom(b)), Atom(c)));
      assert [a, Op(p), b] + [Op(q)] + [c] == [a, Op(p), b, Op(q), c];
    }
  }

  /** Operands that every binary operator takes without parentheses. */
  predicate Tight(e: Expr) { Proper(e) && Level(e) > UNARY }

  lemma TightBin(q: BinOp, l: Expr, r: Expr)
    requires Tight(l) && Tight(r)
    ensures Reads(Bare(l) + [Op(q)] + Bare(r), Bin(q, l, r))
  {
    hide ParseExpression, Bare, Print, Level, Proper;
    Unbracketed(l, OpPrec(q) - 1);
    Unbracketed(r, OpPrec(q));
    BinPrints(q, l, r, Bare(l), Bare(r));
    ReadsPrinted(Bin(q, l, r));
  }

  lemma NegPrints(x: Expr)
    requires Tight(x)
    ensures Bare(Neg(x)) == [Op(Minus)] + Bare(x) && Tight(Neg(x))
  {
    Unbracketed(x, UNARY);
  }

  lemma CallPrints(a: Token, b: Token)
    requires IsAtom(a) && IsAtom(b)
    ensures var e := Call(Atom(a), [Atom(b)]); Bare(e) == [a, LParen, b, RParen] && Tight(e)
  {
    AtomPrints(a, PrattParser.CALL);
    AtomPrints(b, NONE);
    var args := [Atom(b)];
    PrintArgumentsStep(args, 0);
    assert PrintArguments(args, 0) == [b];
    hide Print, PrintArguments;
    assert Bare(Call(Atom(a), args)) == [a] + [LParen] + [b] + [RParen];
  }

  lemma IndexPrints(a: Token, b: Token)
    requires IsAtom(a) && IsAtom(b)
    ensures var e := Index(Atom(a), Atom(b)); Bare(e) == [a, LBracket, b, RBracket] && Tight(e)
  {
    AtomPrints(a, PrattParser.CALL);
    AtomPrints(b, NONE);
    hide Print;
    assert Bare(Index(Atom(a), Atom(b))) == [a] + [LBracket] + [b] + [RBracket];
  }

  /** Unary minus takes the operand next to it, before any binary operator. */
  lemma MinusFirst(a: Token, b: Token, q: BinOp)
    requires IsAtom(a) && IsAtom(b)
    ensures Reads([Op(Minus), a, Op(q), b], Bin(q, Neg(Atom(a)), Atom(b)))
    ensures Reads([a, Op(q), Op(Minus), b], Bin(q, Atom(a), Neg(Atom(b))))
  {
    AtomPrints(a, 0);
    AtomPrints(b, 0);
    hide ParseExpression, Bare, Print, Level, Proper;
    NegPrints(Atom(a));
    NegPrints(Atom(b));
    TightBin(q, Neg(Atom(a)), Atom(b));
    TightBin(q, Atom(a), Neg(Atom(b)));
    assert [Op(Minus)] + [a] + [Op(q)] + [b] == [Op(Minus), a, Op(q), b];
    assert [a] + [Op(q)] + ([Op(Minus)] + [b]) == [a, Op(q), Op(Minus), b];
  }

  /** A call belongs to the operand in front of it, before unary minus and any binary operator. */
  lemma CallFirst(a: Token, b: Token, c: Token, q: BinOp)
    requires IsAtom(a) && IsAtom(b) && IsAtom(c)
    ensures Reads([Op(Minus), a, LParen, b, RParen], Neg(Call(Atom(a), [Atom(b)])))
    ensures Reads([a, Op(q), b, LParen, c, RParen], Bin(q, Atom(a), Call(Atom(b), [Atom(c)])))
    ensures Reads([a, LParen, b, RParen, Op(q), c], Bin(q, Call(Atom(a), [Atom(b)]), Atom(c)))
  {
    AtomPrints(a, 0);
    AtomPrints(c, 0);
    hide ParseExpression, Bare, Print, Level, Proper;
    var l, r := Call(Atom(a), [Atom(b)]), Call(Atom(b), [Atom(c)]);
    CallPrints(a, b);
    CallPrints(b, c);
    NegPrints(l);
    ReadsPrinted(Neg(l));
    TightBin(q, Atom(a), r);
    TightBin(q, l, Atom(c));
    assert [Op(Minus)] + Bare(l) == [Op(Minus), a, LParen, b, RParen];
    assert [a] + [Op(q)] + Bare(r) == [a, Op(q), b, LParen, c, RParen];
    assert Bare(l) + [Op(q)] + [c] == [a, LParen, b, RParen, Op(q), c];
  }

  /** So does an index. */
  lemma IndexFirst(a: Token, b: Token, c: Token, q: BinOp)
    requires IsAtom(a) && IsAtom(b) && IsAtom(c)
    ensures Reads([Op(Minus), a, LBracket, b, RBracket], Neg(Index(Atom(a), Atom(b))))
    ensures Reads([a, Op(q), b, LBracket, c, RBracket], Bin(q, Atom(a), Index(Atom(b), Atom(c))))
    ensures Reads([a, LBracket, b, RBracket, Op(q), c], Bin(q, Index(Atom(a), Atom(b)), Atom(c)))
  {
    AtomPrints(a, 0);
    AtomPrints(c, 0);
    hide ParseExpression, Bare, Print, Level, Proper;
    var l, r := Index(Atom(a), Atom(b)), Index(Atom(b), Atom(c));
    IndexPrints(a, b);
    IndexPrints(b, c);
    NegPrints(l);
    ReadsPrinted(Neg(l));
    TightBin(q, Atom(a), r);
    TightBin(q, l, Atom(c));
    assert [Op(Minus)] + Bare(l) == [Op(Minus), a, LBracket, b, RBracket];
    assert [a] + [Op(q)] + Bare(r) == [a, Op(q), b, LBracket, c, RBracket];
    assert Bare(l) + [Op(q)] + [c] == [a, LBracket, b, RBracket, Op(q), c];
  }

  /** What a ternary takes without parentheses: anything but a ternary, and last nothing as loose as `or`. */
  lemma TernaryPrints(c: Expr, t: Expr, f: Expr)
    requires Proper(c) && Proper(t) && Proper(f) && !c.Ternary? && !t.Ternary? && Level(t) > 1 && Level(f) > OR
    ensures var e := Ternary(c, t, f);
            Bare(e) == Bare(t) + [KwIf] + Bare(c) + [KwElse] + Bare(f) && Proper(e) && Level(e) == OR
  {
    PrintsWhole(c);
    Unbracketed(t, 1);
    Unbracketed(f, OR);
    assert PrintOperand(t, 1) == Bare(t) && PrintOperand(c, NONE) == Bare(c);
    hide Print, PrintOperand;
    assert Bare(Ternary(c, t, f)) == PrintOperand(t, 1) + [KwIf] + PrintOperand(c, NONE) + [KwElse] + Print(f, OR);
  }

  /** A conditional takes whole operations in front and as its condition. */
  lemma TernaryLast(a: Token, b: Token, c: Token, d: Token, q: BinOp)
    requires IsAtom(a) && IsAtom(b) && IsAtom(c) && IsAtom(d)
    ensures Reads([a, Op(q), b, KwIf, c, KwElse, d], Ternary(Atom(c), Bin(q, Atom(a), Atom(b)), Atom(d)))
    ensures Reads([a, KwIf, b, Op(q), c, KwElse, d], Ternary(Bin(q, Atom(b), Atom(c)), Atom(a), Atom(d)))
  {
    AtomPrints(a, 0);
    AtomPrints(c, 0);
    AtomPrints(d, 0);
    AtomsBin(q, a, b);
    AtomsBin(q, b, c);
    hide ParseExpression, Bare, Print, Level, Proper;
    var front, cond := Bin(q, Atom(a), Atom(b)), Bin(q, Atom(b), Atom(c));
    TernaryPrints(Atom(c), front, Atom(d));
    TernaryPrints(cond, Atom(a), Atom(d));
    ReadsPrinted(Ternary(Atom(c), front, Atom(d)));
    ReadsPrinted(Ternary(cond, Atom(a), Atom(d)));
    assert [a, Op(q), b] + [KwIf] + [c] + [KwElse] + [d] == [a, Op(q), b, KwIf, c, KwElse, d];
    assert [a] + [KwIf] + [b, Op(q), c] + [KwElse] + [d] == [a, KwIf, b, Op(q), c, KwElse, d];
  }

  /** Its last branch takes a whole operation too, except that an `or` ends it and takes the conditional. */
  lemma TernaryElse(a: Token, b: Token, c: Token, d: Token, q: BinOp)
    requires IsAtom(a) && IsAtom(b) && IsAtom(c) && IsAtom(d)
    ensures Reads([a, KwIf, b, KwElse, c, Op(q), d],
                  if q == OrOp then Bin(q, Ternary(Atom(b), Atom(a), Atom(c)), Atom(d))
                  else Ternary(Atom(b), Atom(a), Bin(q, Atom(c), Atom(d))))
  {
    AtomPrints(a, 0);
    AtomPrints(b, 0);
    AtomPrints(c, 0);
    assert q == OrOp <==> OpPrec(q) == OR;
    hide ParseExpression, Bare, Print, Level, Proper, OpPrec;
    if q == OrOp {
      var l := Ternary(Atom(b), Atom(a), Atom(c));
      TernaryPrints(Atom(b), Atom(a), Atom(c));
      AtomPrints(d, OR);
      Unbracketed(l, 1);
      BinPrints(q, l, Atom(d), Bare(l), [d]);
      ReadsPrinted(Bin(q, l, Atom(d)));
      assert Bare(l) + [Op(q)] + [d] == [a, KwIf, b, KwElse, c, Op(q), d];
    } else {
      AtomsBin(q, c, d);
      TernaryPrints(Atom(b), Atom(a), Bin(q, Atom(c), Atom(d)));
      ReadsPrinted(Ternary(Atom(b), Atom(a), Bin(q, Atom(c), Atom(d))));
      assert [a] + [KwIf] + [b] + [KwElse] + [c, Op(q), d] == [a, KwIf, b, KwElse, c, Op(q), d];
    }
  }
}
