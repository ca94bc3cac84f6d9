/** The tokens of the fragment, precedences, and the token sequences of expressions and statements. */
module Tokens {
  import opened Wrappers
  import opened Machine
  import opened Source
  import opened Codegen

  datatype Token =
    | Identifier(index: nat) | Integer(value: int) | LParen | RParen | Semicolon | EndOfFile
    | Bang | Twiddle | Inc | Dec
    | Operator(bop: BinOp)      // also the minus sign before an operand
    | Sto | OperatorSto(bop: BinOp)
    | LBrace | RBrace | Colon | KIf | KElse | KWhile | KDo | KFor | KSwitch | KCase | KDefault | KBreak | KContinue

  function Prec(op: BinOp): nat
  {
    match op
    case LOR => 6 case LAND => 7 case OR => 8 case XOR => 9 case AND => 10
    case EQ => 11 case NE => 11
    case LT => 12 case GT => 12 case GE => 12 case LE => 12
    case SHL => 13 case SHR => 13 case SAR => 13
    case ADD => 14 case SUB => 14
    case MUL => 15 case DIV => 15 case MOD => 15
  }

  // Above the precedence of every operator.
  const PRIMARY := 16

  // The precedence of op=, or 0 where the language has no such operator.
  function StoPrec(op: BinOp): nat
  {
    match op
    case ADD => 2 case SUB => 2
    case MUL => 3 case DIV => 3 case MOD => 3
    case SHL => 4 case SHR => 4 case SAR => 4
    case AND => 5 case OR => 5 case XOR => 5
    case _ => 0
  }

  function TokenPrec(t: Token): nat
  {
    match t
    case Operator(op) => Prec(op)
    case Sto => 1
    case OperatorSto(op) => StoPrec(op)
    case _ => 0
  }

  function First(ts: seq<Token>): Token
  { if ts == [] then EndOfFile else ts[0] }

  function UnaryToken(op: UnOp): Token
  { match op case UMINUS => Operator(SUB) case UNOT => Twiddle case UNEG => Bang }

  // e written with its own parentheses and those it needs where operators of at least minPrec may appear.
  function ExprTokens(e: Expr, minPrec: nat): (ts: seq<Token>)
    ensures ts != []
  {
    match e
    case Local(i) => [Identifier(i)]
    case Const(v) => [Integer(v)]
    case Unary(op, x) => [UnaryToken(op)] + ExprTokens(x, PRIMARY)
    case Binary(op, l, r) =>
      var inner := ExprTokens(l, Prec(op)) + [Operator(op)] + ExprTokens(r, Prec(op) + 1);
      if Prec(op) < minPrec then [LParen] + inner + [RParen] else inner
    case Paren(x) => [LParen] + ExprTokens(x, 1) + [RParen]
  }

  // The tokens that end an expression of operators of at least minPrec.
  predicate Stops(ts: seq<Token>, minPrec: nat)
  { TokenPrec(First(ts)) < minPrec && !First(ts).Inc? && !First(ts).Dec? }

  datatype Tail = Tail(op: BinOp, right: Expr)

  predicate Open(e: Expr, minPrec: nat)
  { e.Binary? && Prec(e.bop) >= minPrec }

  // e is head op right op right ..., read from the left.
  function Head(e: Expr, minPrec: nat): Expr
  { if Open(e, minPrec) then Head(e.left, Prec(e.bop)) else e }

  function Tails(e: Expr, minPrec: nat): seq<Tail>
  { if Open(e, minPrec) then Tails(e.left, Prec(e.bop)) + [Tail(e.bop, e.right)] else [] }

  function Fold(e: Expr, tails: seq<Tail>): Expr
  {
    if tails == [] then e
    else
      var t := tails[|tails| - 1];
      Binary(t.op, Fold(e, tails[..|tails| - 1]), t.right)
  }

  function TailTokens(tails: seq<Tail>): seq<Token>
  {
    if tails == [] then []
    else [Operator(tails[0].op)] + ExprTokens(tails[0].right, Prec(tails[0].op) + 1) + TailTokens(tails[1..])
  }

  lemma {:induction false} TailTokensAppend(s: seq<Tail>, t: Tail)
    ensures TailTokens(s + [t]) == TailTokens(s) + [Operator(t.op)] + ExprTokens(t.right, Prec(t.op) + 1)
  {
    if s == [] {
      assert s + [t] == [t];
    } else {
      assert (s + [t])[1..] == s[1..] + [t];
      TailTokensAppend(s[1..], t);
    }
  }

  lemma {:induction false} SpineTokens(e: Expr, minPrec: nat)
    requires minPrec <= PRIMARY
    ensures ExprTokens(e, minPrec) == ExprTokens(Head(e, minPrec), PRIMARY) + TailTokens(Tails(e, minPrec))
    decreases e
  {
    if Open(e, minPrec) {
      var p := Prec(e.bop);
      SpineTokens(e.left, p);
      TailTokensAppend(Tails(e.left, p), Tail(e.bop, e.right));
      var h, ts, right := ExprTokens(Head(e.left, p), PRIMARY), TailTokens(Tails(e.left, p)),
        ExprTokens(e.right, p + 1);
      assert ExprTokens(e, minPrec) == h + ts + [Operator(e.bop)] + right;
      hide ExprTokens, TailTokens;
      assert h + ts + [Operator(e.bop)] + right == h + (ts + [Operator(e.bop)] + right);
    } else {
      assert TailTokens([]) == [];
    }
  }

  lemma {:induction false} SpineFolds(e: Expr, minPrec: nat)
    ensures Fold(Head(e, minPrec), Tails(e, minPrec)) == e
    decreases e
  {
    if Open(e, minPrec) {
      var p, ts := Prec(e.bop), Tails(e, minPrec);
      SpineFolds(e.left, p);
      assert ts[..|ts| - 1] == Tails(e.left, p);
    }
  }

  // Along the spine the precedence never rises, and stays at least minPrec.
  lemma {:induction false} SpineFalls(e: Expr, minPrec: nat, k: nat)
    requires k < |Tails(e, minPrec)|
    ensures var ts := Tails(e, minPrec);
      Prec(ts[k].op) >= minPrec && (k + 1 < |ts| ==> Prec(ts[k + 1].op) <= Prec(ts[k].op))
    decreases e
  {
    var left := Tails(e.left, Prec(e.bop));
    if k < |left| { SpineFalls(e.left, Prec(e.bop), k); }
  }

  function SimpleTokens(s: Simple, minPrec: nat): seq<Token>
  {
    match s
    case Eval(e) => ExprTokens(e, minPrec)
    case Assign(x, e) => [Identifier(x), Sto] + ExprTokens(e, 1)
    case Update(x, op, e) => [Identifier(x), OperatorSto(op)] + ExprTokens(e, StoPrec(op))
    case Step(op, x) =>
      match op
      case PREINC => [Inc, Identifier(x)]
      case PREDEC => [Dec, Identifier(x)]
      case POSTINC => [Identifier(x), Inc]
      case POSTDEC => [Identifier(x), Dec]
  }

  predicate Legal(s: Simple)
  { s.Update? ==> StoPrec(s.bop) > 0 }

  function StmtTokens(s: Stmt): (ts: seq<Token>)
    ensures ts != []
  {
    match s
    case Do(simple) => SimpleTokens(simple, 1) + [Semicolon]
    case Block(body) => [LBrace] + ListTokens(body) + [RBrace]
    case If(cond, thn, els) => [KIf, LParen] + ExprTokens(cond, 1) + [RParen] + StmtTokens(thn) + [KElse] +
      StmtTokens(els)
    case IfOnly(cond, thn) => [KIf, LParen] + ExprTokens(cond, 1) + [RParen] + StmtTokens(thn)
    case While(cond, loop) => [KWhile, LParen] + ExprTokens(cond, 1) + [RParen] + StmtTokens(loop)
    case DoWhile(loop, cond) => [KDo] + StmtTokens(loop) + [KWhile, LParen] + ExprTokens(cond, 1) + [RParen, Semicolon]
    case For(init, cond, iter, loop) =>
      [KFor, LParen] + SimpleTokens(init, 1) + [Semicolon] + ExprTokens(cond, 1) + [Semicolon] + SimpleTokens(iter, 1) +
        [RParen] + StmtTokens(loop)
    case Switch(selector, clauses) => [KSwitch, LParen] + ExprTokens(selector, 1) + [RParen, LBrace] +
      ClauseTokens(clauses) + [RBrace]
    case Break => [KBreak, Semicolon]
    case Continue => [KContinue, Semicolon]
  }

  function ListTokens(body: seq<Stmt>): seq<Token>
  { if body == [] then [] else StmtTokens(body[0]) + ListTokens(body[1..]) }

  function BodyTokens(body: Option<Stmt>): seq<Token>
  { if body.Some? then StmtTokens(body.value) else [] }

  function OneClauseTokens(c: Clause): seq<Token>
  { (if c.Case? then [KCase] + ExprTokens(c.test, 1) + [Colon] else [KDefault, Colon]) + BodyTokens(c.body) }

  function ClauseTokens(clauses: seq<Clause>): seq<Token>
  { if clauses == [] then [] else OneClauseTokens(clauses[0]) + ClauseTokens(clauses[1..]) }

  // An else after s would belong to the if at its end.
  predicate EndsOpen(s: Stmt)
  {
    match s
    case IfOnly(_, _) => true
    case If(_, _, els) => EndsOpen(els)
    case While(_, loop) => EndsOpen(loop)
    case For(_, _, _, loop) => EndsOpen(loop)
    case _ => false
  }

  // The number of instructions that are generated.
  function ExprSize(e: Expr): nat
  {
    match e
    case Local(_) => 0
    case Const(_) => 0
    case Unary(_, x) => ExprSize(x) + 1
    case Binary(_, l, r) => ExprSize(l) + ExprSize(r) + 1
    case Paren(x) => ExprSize(x)
  }

  function SimpleSize(s: Simple): nat
  {
    match s
    case Eval(e) => ExprSize(e)
    case Assign(_, e) => ExprSize(e) + 1
    case Update(_, _, e) => ExprSize(e) + 2
    case Step(_, _) => 2
  }

  function StmtSize(s: Stmt): nat
    decreases s, 1
  {
    match s
    case Do(simple) => SimpleSize(simple)
    case Block(body) => ListSize(body)
    case If(cond, thn, els) => ExprSize(cond) + StmtSize(thn) + StmtSize(els) + 2
    case IfOnly(cond, thn) => ExprSize(cond) + StmtSize(thn) + 1
    case While(cond, loop) => ExprSize(cond) + StmtSize(loop) + 2
    case DoWhile(loop, cond) => StmtSize(loop) + ExprSize(cond) + 1
    case For(init, cond, iter, loop) => SimpleSize(init) + ExprSize(cond) + SimpleSize(iter) + StmtSize(loop) + 2
    case Switch(selector, clauses) => ExprSize(selector) + ClauseSizes(clauses) + 1
    case Break => 1
    case Continue => 1
  }

  function ListSize(body: seq<Stmt>): nat
    decreases body, 0
  { if body == [] then 0 else ListSize(body[..|body| - 1]) + StmtSize(body[|body| - 1]) }

  function BodySize(c: Clause): nat
    decreases c, 2
  { if c.body.Some? then StmtSize(c.body.value) + 1 else if c.Default? then 1 else 0 }

  function ClauseSize(c: Clause): nat
    decreases c, 3
  { (if c.Case? then ExprSize(c.test) + 2 else 0) + BodySize(c) }

  function ClauseSizes(clauses: seq<Clause>): nat
    decreases clauses, 0
  { if clauses == [] then 0 else ClauseSizes(clauses[..|clauses| - 1]) + ClauseSize(clauses[|clauses| - 1]) }

  // No switch in s has two defaults.
  predicate SingleDefaults(s: Stmt)
  {
    match s
    case Block(body) => forall i :: 0 <= i < |body| ==> SingleDefaults(body[i])
    case If(_, thn, els) => SingleDefaults(thn) && SingleDefaults(els)
    case IfOnly(_, thn) => SingleDefaults(thn)
    case While(_, loop) => SingleDefaults(loop)
    case DoWhile(loop, _) => SingleDefaults(loop)
    case For(_, _, _, loop) => SingleDefaults(loop)
    case Switch(_, clauses) => OneDefault(clauses)
      && forall i :: 0 <= i < |clauses| && clauses[i].body.Some? ==> SingleDefaults(clauses[i].body.value)
    case _ => true
  }

  predicate OneDefault(clauses: seq<Clause>)
  { forall i, j :: 0 <= i < j < |clauses| ==> !(clauses[i].Default? && clauses[j].Default?) }

  // The statements the code generator compiles correctly, in a loop or not, and in a deferred block or not.
  predicate Supported(s: Stmt, inLoop: bool, deferred: bool, locals: nat)
  {
    match s
    case Do(simple) => Legal(simple) && SimpleUses(simple) <= locals
    case Block(body) => forall i :: 0 <= i < |body| ==> Supported(body[i], inLoop, deferred, locals)
    case If(cond, thn, els) => !Constant(cond) && Uses(cond) <= locals && Supported(thn, inLoop, deferred, locals)
      && Supported(els, inLoop, deferred, locals) && !EndsOpen(thn)
    case IfOnly(cond, thn) => !Constant(cond) && Uses(cond) <= locals && Supported(thn, inLoop, deferred, locals)
    case While(cond, loop) => !Constant(cond) && Uses(cond) <= locals && Supported(loop, true, deferred, locals)
    case DoWhile(loop, cond) => Uses(cond) <= locals && Supported(loop, true, deferred, locals)
    case For(init, cond, iter, loop) => !deferred && !Constant(cond) && Uses(cond) <= locals && Legal(init)
      && SimpleUses(init) <= locals
      && Legal(iter) && SimpleUses(iter) <= locals && Supported(loop, true, deferred, locals)
    case Switch(selector, clauses) =>
      !deferred && Uses(selector) <= locals && forall i :: 0 <= i < |clauses| ==>
        (clauses[i].Case? ==> Uses(clauses[i].test) <= locals)
          && (clauses[i].body.Some? ==> Supported(clauses[i].body.value, false, true, locals))
    case Break => inLoop
    case Continue => inLoop
  }
}
