/** What the precedences mean for the text of a program, said without them. */
module Precedence {
  import opened Machine
  import opened Source
  import opened Tokens

  // From the loosest to the tightest.
  const LEVELS: seq<set<BinOp>> := [
    {LOR}, {LAND}, {OR}, {XOR}, {AND}, {EQ, NE}, {LT, LE, GT, GE}, {SHL, SHR, SAR}, {ADD, SUB}, {MUL, DIV, MOD}
  ]

  const ASSIGNING: set<BinOp> := {ADD, SUB, MUL, DIV, MOD, SHL, SHR, SAR, AND, OR, XOR}

  // Locals, constants and what stands in parentheses.
  predicate Operand(e: Expr) { e.Local? || e.Const? || e.Paren? }

  function Flat(a: Expr, p: BinOp, b: Expr, q: BinOp, c: Expr): seq<Token>
  { ExprTokens(a, 1) + [Operator(p)] + ExprTokens(b, 1) + [Operator(q)] + ExprTokens(c, 1) }

  function Parenthesised(ts: seq<Token>): seq<Token>
  { [LParen] + ts + [RParen] }

  function Infix(a: Expr, p: BinOp, b: Expr): seq<Token>
  { ExprTokens(a, 1) + [Operator(p)] + ExprTokens(b, 1) }

  lemma OneLevel(op: BinOp)
    ensures exists i :: 0 <= i < |LEVELS| && op in LEVELS[i]
    ensures forall i, j :: 0 <= i < |LEVELS| && 0 <= j < |LEVELS| && op in LEVELS[i] && op in LEVELS[j] ==> i == j
  {
    LevelPrec(op);
    assert op in LEVELS[Prec(op) - 6];
  }

  lemma LevelPrec(op: BinOp)
    ensures forall i :: 0 <= i < |LEVELS| ==> (op in LEVELS[i] <==> Prec(op) == i + 6)
    ensures 6 <= Prec(op) <= 15
  {}

  lemma OperandTokens(e: Expr, minPrec: nat)
    requires Operand(e)
    ensures ExprTokens(e, minPrec) == ExprTokens(e, 1)
  {}

  lemma BinaryTokens(op: BinOp, l: Expr, r: Expr, minPrec: nat)
    ensures var inner := ExprTokens(l, Prec(op)) + [Operator(op)] + ExprTokens(r, Prec(op) + 1);
      ExprTokens(Binary(op, l, r), minPrec) == if Prec(op) < minPrec then Parenthesised(inner) else inner
  {}

  lemma UnaryTokens(u: UnOp, e: Expr, minPrec: nat)
    ensures ExprTokens(Unary(u, e), minPrec) == [UnaryToken(u)] + ExprTokens(e, PRIMARY)
  {}

  lemma InfixTokens(a: Expr, p: BinOp, b: Expr, minPrec: nat)
    requires Operand(a) && Operand(b)
    ensures ExprTokens(Binary(p, a, b), minPrec) ==
      if Prec(p) < minPrec then Parenthesised(Infix(a, p, b)) else Infix(a, p, b)
  {
    OperandTokens(a, Prec(p));
    OperandTokens(b, Prec(p) + 1);
  }

  // Without parentheses the operands in the middle belong to the operator of the tighter level.
  lemma Tighter(i: nat, j: nat, p: BinOp, m: BinOp, a: Expr, b: Expr, c: Expr)
    requires i < j < |LEVELS| && p in LEVELS[i] && m in LEVELS[j] && Operand(a) && Operand(b) && Operand(c)
    ensures ExprTokens(Binary(p, a, Binary(m, b, c)), 1) == Flat(a, p, b, m, c)
    ensures ExprTokens(Binary(p, Binary(m, a, b), c), 1) == Flat(a, m, b, p, c)
    ensures ExprTokens(Binary(m, Binary(p, a, b), c), 1) ==
      Parenthesised(Infix(a, p, b)) + [Operator(m)] + ExprTokens(c, 1)
    ensures ExprTokens(Binary(m, a, Binary(p, b, c)), 1) ==
      ExprTokens(a, 1) + [Operator(m)] + Parenthesised(Infix(b, p, c))
  {
    LevelPrec(p);
    LevelPrec(m);
    RightTokens(a, p, b, m, c);
    LeftTokens(a, m, b, p, c);
    LeftTokens(a, p, b, m, c);
    RightTokens(a, m, b, p, c);
    hide *;
  }

  lemma Regroup(a: seq<Token>, p: Token, b: seq<Token>, q: Token, c: seq<Token>)
    ensures a + [p] + (b + [q] + c) == a + [p] + b + [q] + c
  {}

  lemma RightTokens(a: Expr, p: BinOp, b: Expr, q: BinOp, c: Expr)
    requires Operand(a) && Operand(b) && Operand(c)
    ensures ExprTokens(Binary(p, a, Binary(q, b, c)), 1) ==
      if Prec(q) <= Prec(p) then ExprTokens(a, 1) + [Operator(p)] + Parenthesised(Infix(b, q, c))
      else Flat(a, p, b, q, c)
  {
    BinaryTokens(p, a, Binary(q, b, c), 1);
    OperandTokens(a, Prec(p));
    InfixTokens(b, q, c, Prec(p) + 1);
    Regroup(ExprTokens(a, 1), Operator(p), ExprTokens(b, 1), Operator(q), ExprTokens(c, 1));
    LevelPrec(p);
    hide ExprTokens, Prec;
  }

  lemma LeftTokens(a: Expr, p: BinOp, b: Expr, q: BinOp, c: Expr)
    requires Operand(a) && Operand(b) && Operand(c)
    ensures ExprTokens(Binary(q, Binary(p, a, b), c), 1) ==
      if Prec(p) < Prec(q) then Parenthesised(Infix(a, p, b)) + [Operator(q)] + ExprTokens(c, 1)
      else Flat(a, p, b, q, c)
  {
    BinaryTokens(q, Binary(p, a, b), c, 1);
    OperandTokens(c, Prec(q) + 1);
    InfixTokens(a, p, b, Prec(q));
    LevelPrec(q);
    hide ExprTokens, Prec;
  }

  // Operators of one level group to the left.
  lemma GroupsLeft(i: nat, p: BinOp, q: BinOp, a: Expr, b: Expr, c: Expr)
    requires i < |LEVELS| && p in LEVELS[i] && q in LEVELS[i] && Operand(a) && Operand(b) && Operand(c)
    ensures ExprTokens(Binary(q, Binary(p, a, b), c), 1) == Flat(a, p, b, q, c)
    ensures ExprTokens(Binary(p, a, Binary(q, b, c)), 1) ==
      ExprTokens(a, 1) + [Operator(p)] + Parenthesised(Infix(b, q, c))
  {
    LevelPrec(p);
    LevelPrec(q);
    LeftTokens(a, p, b, q, c);
    RightTokens(a, p, b, q, c);
  }

  // An operator before its operand binds tighter than all of them.
  lemma UnaryTightest(u: UnOp, op: BinOp, a: Expr, b: Expr)
    requires Operand(a) && Operand(b)
    ensures var sign := match u case UMINUS => Operator(SUB) case UNOT => Twiddle case UNEG => Bang;
      && ExprTokens(Unary(u, a), 1) == [sign] + ExprTokens(a, 1)
      && ExprTokens(Binary(op, Unary(u, a), b), 1) == [sign] + Infix(a, op, b)
      && ExprTokens(Binary(op, a, Unary(u, b)), 1) == ExprTokens(a, 1) + [Operator(op), sign] + ExprTokens(b, 1)
      && ExprTokens(Unary(u, Binary(op, a, b)), 1) == [sign] + Parenthesised(Infix(a, op, b))
  {
    LevelPrec(op);
    UnaryTokens(u, a, 1);
    UnaryTokens(u, a, Prec(op));
    UnaryTokens(u, b, Prec(op) + 1);
    UnaryTokens(u, Binary(op, a, b), 1);
    BinaryTokens(op, Unary(u, a), b, 1);
    BinaryTokens(op, a, Unary(u, b), 1);
    OperandTokens(a, PRIMARY);
    OperandTokens(b, PRIMARY);
    OperandTokens(a, Prec(op));
    OperandTokens(b, Prec(op) + 1);
    InfixTokens(a, op, b, PRIMARY);
    hide ExprTokens, Prec;
  }

  // Nothing more than PRIMARY can be demanded: below the loosest level, no expression needs parentheses.
  lemma Loosest(e: Expr, minPrec: nat)
    requires minPrec <= 6
    ensures ExprTokens(e, minPrec) == ExprTokens(e, 1)
  {
    if e.Binary? { LevelPrec(e.bop); }
  }

  // Eleven operators can assign. Whatever is assigned needs no parentheses.
  lemma Assigned(x: nat, op: BinOp, e: Expr)
    ensures Legal(Update(x, op, e)) <==> op in ASSIGNING
    ensures SimpleTokens(Assign(x, e), 1) == [Identifier(x), Sto] + ExprTokens(e, 1)
    ensures SimpleTokens(Update(x, op, e), 1) == [Identifier(x), OperatorSto(op)] + ExprTokens(e, 1)
  {
    Loosest(e, StoPrec(op));
  }
}
