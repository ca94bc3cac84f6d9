/** The one-pass compiler (ParseEngine.cpp). */
module Engine {
  import opened Wrappers
  import opened Machine
  import opened Source
  import opened Codegen
  import opened Tokens
  import opened Layout
  import opened Statements
  import opened Branches
  import opened Selection
  import opened SwitchRuns
  import opened Switching
  import opened Functions

  // The code generated for the simple statement s, or for the expression it consists of.
  ghost predicate Compiled(p0: State, p1: State, s: Simple)
  { if s.Eval? then ExprDone(p0, p1, s.e) else SimpleDone(p0, p1, s) }

  // What stands between the parentheses of e, its own or those it needs.
  function Within(e: Expr): Expr { if e.Paren? then e.inner else e }

  lemma WithinDone(p0: State, p1: State, e: Expr)
    requires ExprDone(p0, p1, Within(e))
    ensures ExprDone(p0, p1, e)
  {
    hide ExprDone;
    if e.Paren? { ParenDone(p0, p1, e.inner); }
  }

  // What the first token of a primary expression tells, and what follows it.
  ghost predicate PrimaryShape(s: Simple, ts: seq<Token>, after: seq<Token>)
    requires ts != []
  {
    var rest := ts[1..];
    match ts[0]
    case LParen => s.Eval? && (s.e.Binary? || s.e.Paren?) && rest == ExprTokens(Within(s.e), 1) + ([RParen] + after)
    case Inc => s.Step? && s.sop == PREINC && rest == ExprTokens(Local(s.x), PRIMARY) + after
    case Dec => s.Step? && s.sop == PREDEC && rest == ExprTokens(Local(s.x), PRIMARY) + after
    case Operator(op) => s.Eval? && s.e.Unary? && s.e.uop == UMINUS && rest == ExprTokens(s.e.e, PRIMARY) + after
    case Twiddle => s.Eval? && s.e.Unary? && s.e.uop == UNOT && rest == ExprTokens(s.e.e, PRIMARY) + after
    case Bang => s.Eval? && s.e.Unary? && s.e.uop == UNEG && rest == ExprTokens(s.e.e, PRIMARY) + after
    case Integer(v) => s == Eval(Const(v)) && rest == after
    case Identifier(x) =>
      || (s == Eval(Local(x)) && rest == after)
      || (s == Simple.Step(POSTINC, x) && rest == [Inc] + after)
      || (s == Simple.Step(POSTDEC, x) && rest == [Dec] + after)
    case _ => false
  }

  lemma ExprHasShape(e: Expr, ts: seq<Token>, after: seq<Token>)
    requires ts == ExprTokens(e, PRIMARY) + after
    ensures ts != [] && PrimaryShape(Eval(e), ts, after)
  {
    match e
    case Local(_) => assert ts[1..] == after;
    case Const(_) => assert ts[1..] == after;
    case Unary(op, x) => assert ts[1..] == ExprTokens(x, PRIMARY) + after;
    case Binary(op, l, r) => BinaryTokens(e);
    case Paren(x) => assert ts[1..] == ExprTokens(x, 1) + ([RParen] + after);
  }

  lemma BinaryTokens(e: Expr)
    requires e.Binary?
    ensures ExprTokens(e, PRIMARY) == [LParen] + ExprTokens(e, 1) + [RParen]
    ensures forall after :: (ExprTokens(e, PRIMARY) + after)[1..] == ExprTokens(e, 1) + ([RParen] + after)
  {}

  lemma PrimaryHasShape(s: Simple, ts: seq<Token>, after: seq<Token>)
    requires s.Eval? || s.Step?
    requires ts == SimpleTokens(s, PRIMARY) + after
    ensures ts != [] && PrimaryShape(s, ts, after)
  {
    if s.Eval? {
      ExprHasShape(s.e, ts, after);
    } else {
      assert ts[1..] == [SimpleTokens(s, PRIMARY)[1]] + after;
    }
  }

  // The primary expression that s starts with.
  ghost function Lead(s: Simple, minPrec: nat): Simple
  {
    match s
    case Eval(e) => Eval(Head(e, minPrec))
    case Assign(x, _) => Eval(Local(x))
    case Update(x, _, _) => Eval(Local(x))
    case Step(_, _) => s
  }

  // The tokens left when the first k operators of s have been read.
  ghost predicate Left(s: Simple, minPrec: nat, k: nat, ts: seq<Token>, after: seq<Token>)
  {
    match s
    case Eval(e) => k <= |Tails(e, minPrec)| && ts == TailTokens(Tails(e, minPrec)[k..]) + after
    case Assign(_, e) => ts == if k == 0 then [Sto] + ExprTokens(e, 1) + after else after
    case Update(_, op, e) => ts == if k == 0 then [OperatorSto(op)] + ExprTokens(e, StoPrec(op)) + after else after
    case Step(_, _) => ts == after
  }

  // The code generated so far.
  ghost predicate Built(p0: State, p1: State, s: Simple, minPrec: nat, k: nat)
  {
    match s
    case Eval(e) => k <= |Tails(e, minPrec)| && ExprDone(p0, p1, Fold(Head(e, minPrec), Tails(e, minPrec)[..k]))
    case Step(_, _) => SimpleDone(p0, p1, s)
    case _ =>
      if k == 0 then Balanced(p0) && p1 == p0.(stack := p0.stack + [LocalEntry(s.x)]) && ExprDone(p0, p1, Local(s.x))
      else SimpleDone(p0, p1, s)
  }

  // The size of the code so far.
  function BuiltSize(s: Simple, minPrec: nat, k: nat): nat
  {
    if s.Eval? then
      (if k <= |Tails(s.e, minPrec)| then ExprSize(Fold(Head(s.e, minPrec), Tails(s.e, minPrec)[..k])) else 0)
    else if k == 0 && !s.Step? then 0 else SimpleSize(s)
  }

  ghost predicate Started(s: Simple, minPrec: nat, ts: seq<Token>, after: seq<Token>, n: nat)
  {
    && n <= |ts| && ts == SimpleTokens(Lead(s, minPrec), PRIMARY) + ts[n..]
    && Left(s, minPrec, 0, ts[n..], after) && !First(ts[n..]).Inc? && !First(ts[n..]).Dec?
  }

  lemma StartEval(e: Expr, minPrec: nat, ts: seq<Token>, after: seq<Token>) returns (n: nat)
    requires 0 < minPrec <= PRIMARY
    requires ts == ExprTokens(e, minPrec) + after && Stops(after, minPrec)
    ensures Started(Eval(e), minPrec, ts, after, n)
  {
    SpineTokens(e, minPrec);
    var h, all := ExprTokens(Head(e, minPrec), PRIMARY), Tails(e, minPrec);
    n := |h|;
    assert ts == h + (TailTokens(all) + after);
    assert ts[n..] == TailTokens(all) + after;
    assert all[0..] == all;
  }

  lemma StartShape(s: Simple, minPrec: nat, ts: seq<Token>, after: seq<Token>) returns (n: nat)
    requires Legal(s) && 0 < minPrec <= PRIMARY
    requires ts == SimpleTokens(s, minPrec) + after && Stops(after, minPrec)
    ensures Started(s, minPrec, ts, after, n)
  {
    hide StoPrec, Prec, Tails, TailTokens, Head;
    match s
    case Eval(e) => n := StartEval(e, minPrec, ts, after);
    case Assign(x, e) => n := 1; AfterFirst(Identifier(x), Sto, ExprTokens(e, 1), after);
    case Update(x, op, e) => n := 1; AfterFirst(Identifier(x), OperatorSto(op), ExprTokens(e, StoPrec(op)), after);
    case Step(_, _) => n := 2; assert ts[2..] == after;
  }

  lemma AfterFirst(a: Token, b: Token, rest: seq<Token>, after: seq<Token>)
    ensures var ts := [a, b] + rest + after;
      ts == [a] + ts[1..] && ts[1..] == [b] + rest + after && |ts| >= 2 && ts[1] == b
  {
  }

  lemma {:induction false} SpineUses(e: Expr, minPrec: nat, k: nat)
    requires k < |Tails(e, minPrec)|
    ensures Uses(Tails(e, minPrec)[k].right) <= Uses(e)
    decreases e
  {
    if k < |Tails(e.left, Prec(e.bop))| { SpineUses(e.left, Prec(e.bop), k); }
  }

  lemma {:induction false} HeadUses(e: Expr, minPrec: nat)
    ensures Uses(Head(e, minPrec)) <= Uses(e)
    decreases e
  {
    if Open(e, minPrec) { HeadUses(e.left, Prec(e.bop)); }
  }

  lemma LeadUses(s: Simple, minPrec: nat)
    ensures SimpleUses(Lead(s, minPrec)) <= SimpleUses(s)
  {
    if s.Eval? { HeadUses(s.e, minPrec); }
  }

  lemma StartBuilt(p0: State, p1: State, s: Simple, minPrec: nat)
    requires Compiled(p0, p1, Lead(s, minPrec))
    ensures Built(p0, p1, s, minPrec, 0)
  {
    if s.Eval? { assert Tails(s.e, minPrec)[..0] == []; }
    else if !s.Step? { assert p1.stack == p0.stack + [LocalEntry(s.x)]; }
  }

  // What the next token tells when the first k operators of s have been read.
  ghost predicate NextShape(s: Simple, minPrec: nat, k: nat, ts: seq<Token>, after: seq<Token>)
  {
    if s.Eval? && k < |Tails(s.e, minPrec)| then
      var all := Tails(s.e, minPrec);
      && ts != [] && ts[0] == Operator(all[k].op) && Prec(all[k].op) >= minPrec
      && ts[1..] == ExprTokens(all[k].right, Prec(all[k].op) + 1) + (TailTokens(all[k + 1..]) + after)
      && Stops(TailTokens(all[k + 1..]) + after, Prec(all[k].op) + 1)
    else if !s.Eval? && !s.Step? && k == 0 then
      && ts != [] && ts[0] == (if s.Assign? then Sto else OperatorSto(s.bop)) && TokenPrec(ts[0]) >= minPrec
      && ts[1..] == ExprTokens(s.e, TokenPrec(ts[0])) + after
    else
      TokenPrec(First(ts)) < minPrec
  }

  lemma LeftEval(e: Expr, minPrec: nat, k: nat, ts: seq<Token>, after: seq<Token>)
    requires 0 < minPrec <= PRIMARY && k < |Tails(e, minPrec)|
    requires Left(Eval(e), minPrec, k, ts, after) && Stops(after, minPrec)
    ensures NextShape(Eval(e), minPrec, k, ts, after)
  {
    hide ExprTokens, Prec;
    var all := Tails(e, minPrec);
    var t, rest := all[k], all[k + 1..];
    assert all[k..][0] == t && all[k..][1..] == rest;
    assert ts == [Operator(t.op)] + (ExprTokens(t.right, Prec(t.op) + 1) + (TailTokens(rest) + after));
    SpineFalls(e, minPrec, k);
    TailStops(rest, after, minPrec, Prec(t.op) + 1);
  }

  lemma TailStops(rest: seq<Tail>, after: seq<Token>, minPrec: nat, p: nat)
    requires Stops(after, minPrec) && minPrec <= p && (rest != [] ==> Prec(rest[0].op) < p)
    ensures Stops(TailTokens(rest) + after, p)
  {
    if rest == [] { assert TailTokens(rest) + after == after; }
  }

  lemma LeftShape(s: Simple, minPrec: nat, k: nat, ts: seq<Token>, after: seq<Token>)
    requires Legal(s) && 0 < minPrec <= PRIMARY && (!s.Eval? ==> minPrec == 1)
    requires Left(s, minPrec, k, ts, after) && Stops(after, minPrec)
    ensures NextShape(s, minPrec, k, ts, after)
  {
    if s.Eval? {
      if k < |Tails(s.e, minPrec)| { LeftEval(s.e, minPrec, k, ts, after); }
      else { assert ts == after; }
    } else if !s.Step? && k == 0 {
      assert ts == [ts[0]] + (ExprTokens(s.e, TokenPrec(ts[0])) + after);
    }
  }

  lemma FoldMore(h: Expr, tails: seq<Tail>, k: nat)
    requires k < |tails|
    ensures Fold(h, tails[..k + 1]) == Binary(tails[k].op, Fold(h, tails[..k]), tails[k].right)
  {
    assert tails[..k + 1][..k] == tails[..k];
  }

  lemma BuiltAll(p0: State, p1: State, s: Simple, minPrec: nat, k: nat, ts: seq<Token>, after: seq<Token>)
    requires Legal(s) && 0 < minPrec <= PRIMARY && (!s.Eval? ==> minPrec == 1)
    requires Left(s, minPrec, k, ts, after) && Stops(after, minPrec) && TokenPrec(First(ts)) < minPrec
    ensures ts == after && (Built(p0, p1, s, minPrec, k) ==> Compiled(p0, p1, s))
      && BuiltSize(s, minPrec, k) == SimpleSize(s)
  {
    LeftShape(s, minPrec, k, ts, after);
    if s.Eval? {
      SpineFolds(s.e, minPrec);
      var all := Tails(s.e, minPrec);
      assert all[..|all|] == all && TailTokens(all[|all|..]) == [];
    }
  }

  lemma ListSizeMore(body: seq<Stmt>, k: nat)
    requires k < |body|
    ensures ListSize(body[..k + 1]) == ListSize(body[..k]) + StmtSize(body[k])
  { assert body[..k + 1][..k] == body[..k]; }

  lemma ClauseSizesMore(clauses: seq<Clause>, k: nat)
    requires k < |clauses|
    ensures ClauseSizes(clauses[..k + 1]) == ClauseSizes(clauses[..k]) + ClauseSize(clauses[k])
  { assert clauses[..k + 1][..k] == clauses[..k]; }

  // The tokens that begin no expression.
  predicate Keyword(t: Token)
  {
    match t
    case Identifier(_) => false
    case Integer(_) => false
    case LParen => false
    case Bang => false
    case Twiddle => false
    case Inc => false
    case Dec => false
    case Operator(_) => false
    case _ => true
  }

  lemma {:induction false} ExprFirst(e: Expr, minPrec: nat)
    ensures !Keyword(ExprTokens(e, minPrec)[0])
    decreases e
  {
    if e.Binary? { ExprFirst(e.left, Prec(e.bop)); }
  }

  lemma SimpleFirst(s: Simple, after: seq<Token>)
    ensures SimpleTokens(s, 1) != [] && !Keyword((SimpleTokens(s, 1) + [Semicolon] + after)[0])
  {
    if s.Eval? { ExprFirst(s.e, 1); }
  }

  // A list of addresses added to the one on top.
  function Noted(stack: seq<seq<int>>, list: seq<int>): seq<seq<int>>
  { if list == [] || stack == [] then stack else stack[..|stack| - 1] + [stack[|stack| - 1] + list] }

  // The code for s, unless there has been an error.
  ghost predicate Result(s: Stmt, p0: State, p1: State, nb: seq<int>, nc: seq<int>)
  { p1.nerrors == 0 ==> p0.nerrors == 0 && SingleDefaults(s) && StmtDone(s, p0, p1, nb, nc) }

  // A condition and the jump on it.
  ghost predicate TestReady(p0: State, test: seq<Instr>, r: int, p2: State, cond: Expr)
  {
    && Kept(p0, p2) && Room(p0, p2, Freed(ExprNeed(cond), 0))
    && p2.stack == p0.stack && Buf(p0) <= test && Buf(p2) == test + [Jump(JF, r, 0)]
    && Evaluates(cond, test[|Buf(p0)|..], r, p2.minReg, p2.constants) && (!Constant(cond) ==> r <= MAX_REGISTER)
  }

  lemma TestIsReady(p0: State, p1: State, cond: Expr)
    requires ExprDone(p0, p1, cond)
    ensures TestReady(p0, Buf(p1), p1.stack[|p0.stack|].reg, Tested(p1, JF, 0), cond)
  {
    if !Constant(cond) { ShortOperand(p0, p1, cond); }
    TestedState(p0, p1, cond, JF, 0);
    ExprEvaluates(p0, p1, cond);
  }

  lemma TestThenBody(p0: State, test: seq<Instr>, r: int, p2: State, p3: State, cond: Expr, loop: Stmt, nb: seq<int>,
      nc: seq<int>)
    requires TestReady(p0, test, r, p2, cond) && !Constant(cond) && StmtDone(loop, p2, p3, nb, nc)
    ensures LoopReady(p0, test, r, p2, p3, cond, loop, nb, nc)
  {
    hide Room, Then, Kept, Correct, Evaluates, Leaving, StmtNeed, ExprNeed, Freed;
    RoomThen(p0, p2, p3, Freed(ExprNeed(cond), 0), StmtNeed(loop));
  }

  // What the first token of a statement tells.
  lemma StmtFirst(s: Stmt, after: seq<Token>)
    ensures match First(StmtTokens(s) + after)
      case LBrace => s.Block?
      case KIf => s.If? || s.IfOnly?
      case KSwitch => s.Switch?
      case KWhile => s.While?
      case KDo => s.DoWhile?
      case KFor => s.For?
      case KBreak => s.Break?
      case KContinue => s.Continue?
      case t => !Keyword(t) && s.Do?
  {
    if s.Do? {
      SimpleFirst(s.simple, after);
      assert StmtTokens(s) + after == SimpleTokens(s.simple, 1) + [Semicolon] + after;
    }
  }

  // The next statement of a block, or its closing brace.
  lemma ListNext(body: seq<Stmt>, k: nat, rest: seq<Token>, ts: seq<Token>)
    requires k <= |body| && ts == ListTokens(body[k..]) + rest
    ensures if k < |body| then ts == StmtTokens(body[k]) + (ListTokens(body[k + 1..]) + rest) else ts == rest
    ensures k < |body| && rest != [] && rest[0] != KElse ==> First(ListTokens(body[k + 1..]) + rest) != KElse
  {
    if k < |body| {
      assert body[k..][0] == body[k] && body[k..][1..] == body[k + 1..];
      if k + 1 < |body| {
        StmtFirst(body[k + 1], ListTokens(body[k + 2..]) + rest);
        assert body[k + 1..][0] == body[k + 1] && body[k + 1..][1..] == body[k + 2..];
        assert ListTokens(body[k + 1..]) + rest == StmtTokens(body[k + 1]) + (ListTokens(body[k + 2..]) + rest);
      }
    }
  }

  lemma NotedTwice(stack: seq<seq<int>>, list: seq<int>, more: seq<int>)
    ensures Noted(Noted(stack, list), more) == Noted(stack, list + more)
  {
    assert list + [] == list && [] + more == more;
    if stack != [] && list != [] && more != [] {
      var n := |stack| - 1;
      assert Noted(stack, list)[..n] == stack[..n];
      assert stack[n] + list + more == stack[n] + (list + more);
    }
  }

  lemma BlockNext(body: seq<Stmt>, k: nat, p0: State, p1: State, p2: State, nb: seq<int>, nc: seq<int>, nb1: seq<int>,
      nc1: seq<int>)
    requires k < |body| && Result(Block(body[..k]), p0, p1, nb, nc) && Result(body[k], p1, p2, nb1, nc1)
    ensures Result(Block(body[..k + 1]), p0, p2, nb + nb1, nc + nc1)
  {
    assert body[..k] + [body[k]] == body[..k + 1];
    if p2.nerrors == 0 { AppendDone(p0, p1, p2, body[..k], body[k], nb, nc, nb1, nc1); }
  }

  lemma IfTokens(s: Stmt, after: seq<Token>, rest: seq<Token>)
    requires (s.If? || s.IfOnly?) && rest == if s.If? then [KElse] + (StmtTokens(s.els) + after) else after
    ensures StmtTokens(s) + after == [KIf, LParen] + (ExprTokens(s.cond, 1) + ([RParen] + (StmtTokens(s.thn) + rest)))
  {
  }

  ghost predicate JumpsAt(b: seq<Instr>, list: seq<int>)
  { forall i :: i in list ==> 0 <= i < |b| && b[i].Jump? }

  // p is p3 with its continues aimed and step added.
  ghost predicate LoopEnds(p3: State, p: State, m: int, step: seq<Instr>, nb: seq<int>, nc: seq<int>)
  {
    && p == WithBuf(p3, Resolve(Buf(p3), nc, |Buf(p3)|) + step) && 0 <= m < |Buf(p3)| && Buf(p3)[m].Jump?
    && JumpsAt(Buf(p3), nb) && JumpsAt(Buf(p3), nc)
  }

  lemma LoopSteps(p3: State, p: State, m: int, step: seq<Instr>, back: Instr, nb: seq<int>, nc: seq<int>)
    requires LoopEnds(p3, p, m, step, nb, nc)
    ensures m >= 0
    ensures var b := Buf(p) + [back];
      var c := Resolve(b, [m], |b|);
      && m < |Buf(p)| && Buf(p)[m].Jump? && JumpsAt(Buf(WithBuf(p, c)), nb) && |Buf(p)| == |Buf(p3)| + |step|
      && WithBuf(WithBuf(p, c), Resolve(Buf(WithBuf(p, c)), nb, |Buf(WithBuf(p, c))|)) ==
         WithBuf(p3, LoopBuf(Buf(p3), step + [back], m, nb, nc))
  {
    assert Buf(p) + [back] == Resolve(Buf(p3), nc, |Buf(p3)|) + (step + [back]);
  }

  lemma ReadyJumps(p0: State, test: seq<Instr>, r: int, p2: State, p3: State, cond: Expr, s: Stmt, nb: seq<int>,
      nc: seq<int>)
    requires LoopShape(p0, test, r, p2, p3, cond, s, nb, nc)
    ensures JumpsAt(Buf(p3), nb) && JumpsAt(Buf(p3), nc)
  {
  }

  lemma ReadyEnds(p0: State, test: seq<Instr>, r: int, p2: State, p3: State, cond: Expr, s: Stmt, nb: seq<int>,
      nc: seq<int>, step: seq<Instr>)
    requires LoopShape(p0, test, r, p2, p3, cond, s, nb, nc)
    ensures LoopEnds(p3, WithBuf(p3, Resolve(Buf(p3), nc, |Buf(p3)|) + step), |test|, step, nb, nc)
    ensures step == [] ==>
      WithBuf(p3, Resolve(Buf(p3), nc, |Buf(p3)|) + step) == WithBuf(p3, Resolve(Buf(p3), nc, |Buf(p3)|))
  {
    ReadyJump(p0, test, r, p2, p3, cond, s, nb, nc);
    assert step == [] ==> Resolve(Buf(p3), nc, |Buf(p3)|) + step == Resolve(Buf(p3), nc, |Buf(p3)|);
  }

  // p is the end of a loop that jumps back to start, with step before that jump.
  ghost predicate LoopFinished(p3: State, p: State, start: int, m: int, step: seq<Instr>, nb: seq<int>, nc: seq<int>)
  {
    m >= 0 && p == WithBuf(p3, LoopBuf(Buf(p3), step + [Jump(JMP, 0, Field17(start - |Buf(p3)| - |step|))], m, nb, nc))
  }

  lemma WhileIsDone(p0: State, test: seq<Instr>, r: int, p2: State, p3: State, p: State, cond: Expr, loop: Stmt,
      nb: seq<int>, nc: seq<int>)
    requires LoopReady(p0, test, r, p2, p3, cond, loop, nb, nc) && LoopFinished(p3, p, |Buf(p0)|, |test|, [], nb, nc)
    ensures StmtDone(While(cond, loop), p0, p, [], [])
  {
    hide LoopReady, StmtDone, LoopBuf, WithBuf, Buf, Field17, StmtNeed, GuardNeed;
    var tail := [Jump(JMP, 0, Field17(|Buf(p0)| - |Buf(p3)|))];
    assert [] + tail == tail;
    assert p == WithBuf(p3, LoopBuf(Buf(p3), tail, |test|, nb, nc));
    WhileDone(p0, test, r, p2, p3, cond, loop, nb, nc, LoopBuf(Buf(p3), tail, |test|, nb, nc));
  }

  lemma DoTokens(loop: Stmt, cond: Expr, after: seq<Token>, rest: seq<Token>)
    requires rest == [KWhile, LParen] + (ExprTokens(cond, 1) + ([RParen, Semicolon] + after))
    ensures StmtTokens(DoWhile(loop, cond)) + after == [KDo] + (StmtTokens(loop) + rest)
  {
  }

  lemma DoneStack(p0: State, p1: State, e: Expr)
    requires ExprDone(p0, p1, e)
    ensures |p1.stack| > 0
  {
  }

  lemma DoneJumps(p0: State, p1: State, s: Stmt, nb: seq<int>, nc: seq<int>)
    requires StmtDone(s, p0, p1, nb, nc)
    ensures JumpsAt(Buf(p1), nb) && JumpsAt(Buf(p1), nc)
    ensures Balanced(WithBuf(p1, Resolve(Buf(p1), nc, |Buf(p1)|)))
  {
    ResolveIn(Buf(p1), nc, |Buf(p1)|, p1.locals, p1.minReg);
  }

  lemma RepeatIsReady(p0: State, p1: State, p2: State, p3: State, p4: State, loop: Stmt, cond: Expr, nb: seq<int>,
      nc: seq<int>)
      returns (seg: seq<Instr>, r: int)
    requires StmtDone(loop, p0, p1, nb, nc) && p2 == WithBuf(p1, Resolve(Buf(p1), nc, |Buf(p1)|))
      && ExprDone(p2, p3, cond)
    requires p4 == Tested(p3, JT, Field17(|Buf(p0)| - |Buf(p3)|))
    ensures RepeatReady(p0, p1, p4, loop, cond, seg, r, nb, nc) && JumpsAt(Buf(p4), nb)
  {
    hide Correct, Evaluates, Balanced, Field17, Room, StmtNeed, ExprNeed, Freed, CodeComputes;
    TestedState(p2, p3, cond, JT, Field17(|Buf(p0)| - |Buf(p3)|));
    ExprEvaluates(p2, p3, cond);
    seg, r := NewCode(p2, p3), p3.stack[|p2.stack|].reg;
    RepeatJumps(p0, p1, p2, p3, p4, loop, cond, nb, nc);
  }

  lemma RepeatJumps(p0: State, p1: State, p2: State, p3: State, p4: State, loop: Stmt, cond: Expr, nb: seq<int>,
      nc: seq<int>)
    requires StmtDone(loop, p0, p1, nb, nc) && p2 == WithBuf(p1, Resolve(Buf(p1), nc, |Buf(p1)|))
      && ExprDone(p2, p3, cond)
    requires p4 == Tested(p3, JT, Field17(|Buf(p0)| - |Buf(p3)|))
    ensures JumpsAt(Buf(p4), nb)
  {
    hide Correct, Evaluates, Balanced, Field17, Room, StmtNeed, ExprNeed, Freed, CodeComputes;
    var seg := NewCode(p2, p3);
    assert Buf(p3) == Buf(p2) + seg;
    forall i | i in nb ensures 0 <= i < |Buf(p4)| && Buf(p4)[i].Jump? { assert Buf(p4)[i] == Buf(p2)[i]; }
  }

  // What follows the first part of a for loop.
  function ForRest(cond: Expr, iter: Simple, loop: Stmt, after: seq<Token>): seq<Token>
  {
    [Semicolon] + (ExprTokens(cond, 1) + ([Semicolon] +
      (SimpleTokens(iter, 1) + ([RParen] + (StmtTokens(loop) + after)))))
  }

  lemma ForTokens(init: Simple, cond: Expr, iter: Simple, loop: Stmt, after: seq<Token>)
    ensures var rest := ForRest(cond, iter, loop, after);
      && StmtTokens(For(init, cond, iter, loop)) + after == [KFor] + ([LParen] + (SimpleTokens(init, 1) + rest))
         && Stops(rest, 1)
  {
    hide ExprTokens, SimpleTokens;
  }

  lemma SimpleBalanced(p0: State, p1: State, s: Simple)
    requires SimpleDone(p0, p1, s)
    ensures Balanced(p1)
  {
  }

  // p6 is p2 with step, the code for iter, set aside in a deferred block.
  ghost predicate SetAside(p2: State, p6: State, iter: Simple, step: seq<Instr>)
  {
    && p6 == p2.(deferredCode := p2.deferredCode + step, blocks := p2.blocks + [|p2.deferredCode|], minReg := p6.minReg,
       constants := p6.constants)
    && !p2.deferred && p6.minReg <= p2.minReg && p2.constants <= p6.constants && Balanced(p6)
    && Room(p2, p6, Freed(SimpleNeed(iter), 0))
    && Carries(iter, step, p6.minReg, p6.constants) && NoEnds(step, 0) && CodeIn(step, p6.locals, p6.minReg)
  }

  lemma DeferredBalanced(p2: State, p4: State)
    requires Balanced(p2) && p4 == p2.(deferred := true, blocks := p2.blocks + [|p2.deferredCode|])
    ensures Balanced(p4)
  {
  }

  lemma IterSetAside(p2: State, p5: State, p6: State, iter: Simple) returns (step: seq<Instr>)
    requires !p2.deferred && SimpleDone(p2.(deferred := true, blocks := p2.blocks + [|p2.deferredCode|]), p5, iter)
    requires p5.stack != [] && p6 == Popped(p5).(deferred := false)
    ensures SetAside(p2, p6, iter, step)
  {
    var p4 := p2.(deferred := true, blocks := p2.blocks + [|p2.deferredCode|]);
    step := NewCode(p4, p5);
    SimpleCarries(p4, p5, iter);
    assert p5.stack == p4.stack + [p5.stack[|p4.stack|]];
    RegistersPush(p4.stack, p5.stack[|p4.stack|]);
    assert p5.deferredCode == p2.deferredCode + step;
    StackInPrefix(p5.stack, |p4.stack|, p5.locals, p5.minReg);
    CodeInPart(p5.deferredCode, step, |p2.deferredCode|, p5.locals, p5.minReg);
  }

  lemma AsideBalanced(p2: State, p6: State, iter: Simple, step: seq<Instr>)
    requires SetAside(p2, p6, iter, step)
    ensures Balanced(p6)
  {
  }

  // p7 without the deferred block that was begun after p2.
  function Resumed(p2: State, p7: State): State
  { p7.(deferredCode := p2.deferredCode, blocks := p2.blocks) }

  lemma AsideBlocks(p2: State, p6: State, p7: State, iter: Simple, step: seq<Instr>, loop: Stmt, nb: seq<int>,
      nc: seq<int>)
    requires SetAside(p2, p6, iter, step) && StmtDone(loop, p6, p7, nb, nc)
    ensures !p7.deferred && p7.blocks == p2.blocks + [|p2.deferredCode|] && p7.deferredCode == p2.deferredCode + step
  {
  }

  lemma AsideRoom(p1: State, p2: State, p6: State, p7: State, cond: Expr, iter: Simple, loop: Stmt)
    requires Room(p1, p2, Freed(ExprNeed(cond), 0)) && Room(p2, p6, Freed(SimpleNeed(iter), 0))
      && Room(p6, p7, StmtNeed(loop))
    ensures Room(p1, Resumed(p2, p7), RoundNeed(cond, iter, StmtNeed(loop)))
  {
    hide Then;
    var c, i := Freed(ExprNeed(cond), 0), Freed(SimpleNeed(iter), 0);
    RoomThen(p1, p2, p6, c, i);
    RoomThen(p1, p6, p7, Then(c, i), StmtNeed(loop));
  }

  lemma AsideReady(p1: State, test: seq<Instr>, r: int, p2: State, p6: State, p7: State, step: seq<Instr>, cond: Expr,
      iter: Simple, loop: Stmt, nb: seq<int>, nc: seq<int>)
    requires TestReady(p1, test, r, p2, cond) && !Constant(cond) && SetAside(p2, p6, iter, step)
      && StmtDone(loop, p6, p7, nb, nc)
    ensures RoundReady(p1, test, r, p2, Resumed(p2, p7), cond, iter, loop, nb, nc)
    ensures Carries(iter, step, p7.minReg, p7.constants) && NoEnds(step, 0) && CodeIn(step, p7.locals, p7.minReg)
  {
    hide Room, Then, Correct, Evaluates, Leaving, PerformsIn;
    AsideRoom(p1, p2, p6, p7, cond, iter, loop);
    CodeInMore(p2.deferredCode, p2.locals, p2.minReg, p7.minReg);
    CodeInMore(step, p6.locals, p6.minReg, p7.minReg);
    CarriesMore(iter, step, p6.minReg, p6.constants, p7.minReg, p7.constants);
  }

  lemma AsideEnds(p1: State, test: seq<Instr>, r: int, p2: State, p7: State, p: State, step: seq<Instr>, cond: Expr,
      loop: Stmt, nb: seq<int>, nc: seq<int>)
    requires LoopShape(p1, test, r, p2, Resumed(p2, p7), cond, loop, nb, nc)
    requires !p7.deferred && p7.blocks == p2.blocks + [|p2.deferredCode|] && p7.deferredCode == p2.deferredCode + step
    requires var b := Resolve(p7.code, nc, |p7.code|);
      p == p7.(code := b + step, deferredCode := p2.deferredCode, blocks := p2.blocks)
    ensures LoopEnds(Resumed(p2, p7), p, |test|, step, nb, nc)
  {
    ReadyEnds(p1, test, r, p2, Resumed(p2, p7), cond, loop, nb, nc, step);
  }

  lemma AsideDone(p1: State, test: seq<Instr>, r: int, p2: State, p6: State, p7: State, p: State, step: seq<Instr>,
      cond: Expr, iter: Simple, loop: Stmt, nb: seq<int>, nc: seq<int>)
    requires TestReady(p1, test, r, p2, cond) && !Constant(cond) && SetAside(p2, p6, iter, step)
      && StmtDone(loop, p6, p7, nb, nc)
    requires !p7.deferred && p7.blocks == p2.blocks + [|p2.deferredCode|] && p7.deferredCode == p2.deferredCode + step
    requires var b := Resolve(p7.code, nc, |p7.code|);
      p == p7.(code := b + step, deferredCode := p2.deferredCode, blocks := p2.blocks)
    ensures RoundReady(p1, test, r, p2, Resumed(p2, p7), cond, iter, loop, nb, nc)
    ensures Carries(iter, step, p7.minReg, p7.constants) && NoEnds(step, 0) && CodeIn(step, p7.locals, p7.minReg)
    ensures LoopEnds(Resumed(p2, p7), p, |test|, step, nb, nc)
  {
    hide TestReady, SetAside, StmtDone, LoopShape, Room, Carries, NoEnds, CodeIn, LoopEnds;
    AsideReady(p1, test, r, p2, p6, p7, step, cond, iter, loop, nb, nc);
    AsideEnds(p1, test, r, p2, p7, p, step, cond, loop, nb, nc);
  }

  lemma ForIsDone(p0: State, p1: State, test: seq<Instr>, r: int, p2: State, p3: State, p: State, init: Simple,
      cond: Expr, iter: Simple, loop: Stmt, step: seq<Instr>, nb: seq<int>, nc: seq<int>)
    requires SimpleDone(p0, p1, init) && !p0.deferred && RoundReady(p1, test, r, p2, p3, cond, iter, loop, nb, nc)
    requires Carries(iter, step, p3.minReg, p3.constants) && NoEnds(step, 0) && CodeIn(step, p3.locals, p3.minReg)
      && LoopFinished(p3, p, |Buf(p1)|, |test|, step, nb, nc)
    ensures StmtDone(For(init, cond, iter, loop), p0, p, [], [])
  {
    hide RoundReady, SimpleDone, Room, StmtDone, LoopBuf, WithBuf, Carries, Correct, StmtNeed, RoundNeed,
      SimpleNeed;
    InitKept(p0, p1, init);
    ForDone(p0, p1, test, r, p2, p3, init, cond, iter, loop, step, nb, nc,
      LoopBuf(Buf(p3), step + [Jump(JMP, 0, Field17(|Buf(p1)| - |Buf(p3)| - |step|))], |test|, nb, nc));
  }

  lemma InitKept(p0: State, p1: State, init: Simple)
    requires SimpleDone(p0, p1, init) && !p0.deferred
    ensures Kept(p0, p1) && Carries(init, NewCode(p0, p1), p1.minReg, p1.constants) && Room(p0, p1, SimpleNeed(init))
  {
    SimpleCarries(p0, p1, init);
  }

  // The selector of a switch is on the parse stack.
  ghost predicate Selecting(q: State, rs: int, selector: Expr)
  {
    Balanced(q) && !q.deferred && q.stack != [] && q.stack[|q.stack| - 1].reg == rs
      && OutOfReach(rs, selector, q.nextReg)
  }

  lemma CaseOperands(q: State, q1: State, test: Expr, rs: int, selector: Expr)
    requires Selecting(q, rs, selector) && ExprDone(q, q1, test)
    ensures var n := |q.stack|;
      && |q1.stack| == n + 1 && q1.stack == q.stack[..n - 1] + [q.stack[n - 1], q1.stack[n]]
      && q1.nextReg + (if q1.stack[n].RegisterEntry? then 1 else 0) == q.nextReg
  {
    assert q1.stack == q.stack + [q1.stack[|q.stack|]];
    RegistersPush(q.stack, q1.stack[|q.stack|]);
  }

  // q1 after the comparison and the jump on it.
  ghost predicate Branched(q: State, q1: State, q': State, r: int)
    requires q.stack != []
  {
    q' == q1.(code := q1.code + [Bin(EQ, q.nextReg, q.stack[|q.stack| - 1].reg, r)] + [Jump(JT, q.nextReg, 0)],
      stack := q.stack, nextReg := q.nextReg, minReg := if q.nextReg < q1.minReg then q.nextReg else q1.minReg)
  }

  lemma CaseTidy(q: State, q1: State, q': State, r: int)
    requires Balanced(q) && q.stack != [] && Tidy(q1) && q1.stack != [] && r == q1.stack[|q1.stack| - 1].reg
    requires q1.locals == q.locals && q1.minReg <= q.minReg && !q1.deferred && Branched(q, q1, q', r)
    ensures Tidy(q')
  {
    var p := q1.(minReg := q'.minReg);
    TidyTop(q, |q.stack| - 1);
    TidyTop(q1, |q1.stack| - 1);
    TidyMore(q1, q'.minReg);
    TidyAppend(p, Bin(EQ, q.nextReg, q.stack[|q.stack| - 1].reg, r));
    TidyAppend(WithBuf(p, Buf(p) + [Bin(EQ, q.nextReg, q.stack[|q.stack| - 1].reg, r)]), Jump(JT, q.nextReg, 0));
    StackInMore(q.stack, q.locals, q.minReg, q'.minReg);
  }

  lemma CaseSteady(q: State, q1: State, q': State, test: Expr, rs: int, selector: Expr) returns (x: Place)
    requires Selecting(q, rs, selector) && ExprDone(q, q1, test) && Branched(q, q1, q', q1.stack[|q.stack|].reg)
    ensures Steady(q, q') && q'.deferredCode == q.deferredCode && x.t == |q.code| && x.d == |q.deferredCode|
    ensures Room(q, q', TestNeed(test))
    ensures TestBuilt(test, x, |q'.code|, q'.code, rs, Uses(selector), q'.minReg, q'.constants)
  {
    var r, n := q1.stack[|q.stack|].reg, q.nextReg;
    var seg := NewCode(q, q1) + [Bin(EQ, n, rs, r)];
    x := Place(|q.code|, seg, n, |q.deferredCode|);
    CaseCompares(q, q1, test, rs, selector, q'.minReg);
    assert q'.code == q.code + seg + [Jump(JT, n, 0)];
    CaseTidy(q, q1, q', r);
    forall k | |q.code| <= k < |q'.code| ensures !q'.code[k].End? {
      if k < |q1.code| { assert q'.code[k] == NewCode(q, q1)[k - |q.code|]; }
    }
  }

  lemma DeferringBalanced(q: State, q1: State)
    requires Balanced(q) && q1 == q.(deferred := true)
    ensures Balanced(q1)
  {
  }

  lemma BodySteady(q: State, q1: State, q2: State, q': State, c: Clause, x: Place)
    requires Balanced(q) && !q.deferred && q1 == q.(deferred := true) && x.d == |q.deferredCode|
    requires if c.body.Some? then StmtDone(c.body.value, q1, q2, [], []) else q2 == q1
    requires q' == (if c.body.Some? || c.Default? then
      q2.(deferredCode := q2.deferredCode + [Jump(JMP, 0, 0)], deferred := false) else q2.(deferred := false))
    ensures Steady(q, q') && q'.code == q.code && Room(q, q', BodyNeed(c))
    ensures BodyBuilt(c, x, |q'.deferredCode|, q'.deferredCode, q'.minReg, q'.constants)
  {
    if c.body.Some? || c.Default? {
      TidyAppend(q2, Jump(JMP, 0, 0));
      var d1 := |q'.deferredCode|;
      assert q'.deferredCode[..d1 - 1] == q2.deferredCode;
    }
  }

  lemma UnderwaySelecting(p0: State, q: State, selector: Expr, rs: int, t0: nat, clauses: seq<Clause>, xs: seq<Place>)
    requires Underway(p0, q, selector, rs, t0, clauses, xs)
    ensures Selecting(q, rs, selector) && Balanced(q) && !q.deferred
  {
  }

  lemma SteadyBalanced(q: State, q': State)
    requires Steady(q, q')
    ensures Balanced(q')
  {
  }

  lemma RoomSame(q: State)
    ensures Room(q, q, NOTHING)
  {}

  lemma ClauseDone(p0: State, q: State, q1: State, q2: State, selector: Expr, rs: int, t0: nat, clauses: seq<Clause>,
      xs: seq<Place>, c: Clause, x: Place, entry: CaseEntry)
    requires Underway(p0, q, selector, rs, t0, clauses, xs) && x.t == |q.code| && x.d == |q.deferredCode|
    requires if c.Case? then
        && Steady(q, q1) && Room(q, q1, TestNeed(c.test)) && q1.deferredCode == q.deferredCode
        && entry.to == |q1.code| - 1
        && TestBuilt(c.test, x, |q1.code|, q1.code, rs, Uses(selector), q1.minReg, q1.constants)
      else q1 == q && entry.to == -1
    requires Steady(q1, q2) && Room(q1, q2, BodyNeed(c)) && q2.code == q1.code && entry.addr == |q1.deferredCode|
    requires BodyBuilt(c, x, |q2.deferredCode|, q2.deferredCode, q2.minReg, q2.constants)
    requires entry.from == if c.body.Some? || c.Default? then |q2.deferredCode| - 1 else -1
    ensures Underway(p0, q2, selector, rs, t0, clauses + [c], xs + [x])
    ensures |xs| == |clauses| && entry == EntryAt(clauses + [c], xs + [x], |clauses|, |q2.code|, |q2.deferredCode|)
  {
    hide Correct, ComparesTo, Assembled, Room, TestNeed, BodyNeed;
    if !c.Case? { RoomSame(q); }
    RoomThen(q, q1, q2, CaseNeed(c), BodyNeed(c));
    if c.Case? {
      SteadyTwice(q, q1, q2);
      ComparesMore(c.test, x.seg, x.dst, rs, Max(Uses(c.test), Uses(selector)), q1.minReg, q1.constants,
        Max(Uses(c.test), Uses(selector)), q2.minReg, q2.constants);
    }
    UnderwayMore(p0, q, q2, selector, rs, t0, clauses, xs, c, x);
    UnderwaySizes(p0, q, selector, rs, t0, clauses, xs);
  }

  lemma UnderwaySizes(p0: State, q: State, selector: Expr, rs: int, t0: nat, clauses: seq<Clause>, xs: seq<Place>)
    requires Underway(p0, q, selector, rs, t0, clauses, xs)
    ensures |xs| == |clauses|
  {
  }

  ghost predicate EntryJumps(b: seq<Instr>, en: CaseEntry, shift: int)
    requires EntryFits(b, en, shift)
  { (en.to >= 0 ==> b[en.to].Jump?) && (en.from >= 0 ==> b[en.from + shift].Jump?) }

  lemma PatchReady(b0: seq<Instr>, b: seq<Instr>, es: seq<CaseEntry>, done: seq<nat>, shift: int, after: int, i: nat)
    requires Patched(b0, b, es, done, shift, after) && Apart(es, shift) && i < |es| && i !in done
    requires EntryFits(b0, es[i], shift) && EntryJumps(b0, es[i], shift)
    ensures |b| == |b0| && EntryFits(b, es[i], shift) && EntryJumps(b, es[i], shift)
  {
    var en := es[i];
    forall k | Touches(en, shift, k) ensures Spared(es, done, shift, k) {}
    assert Keeps(b0, b, es, done, shift, en.to) && Keeps(b0, b, es, done, shift, en.from + shift);
    assert en.to >= 0 ==> Touches(en, shift, en.to);
    assert en.from >= 0 ==> Touches(en, shift, en.from + shift);
  }

  lemma SwitchTokens(selector: Expr, clauses: seq<Clause>, after: seq<Token>, rest: seq<Token>)
    requires rest == [RBrace] + after
    ensures StmtTokens(Switch(selector, clauses)) + after
      == [KSwitch] + ([LParen] + (ExprTokens(selector, 1) + ([RParen, LBrace] + (ClauseTokens(clauses) + rest))))
  {
  }

  lemma ClauseFirst(clauses: seq<Clause>, rest: seq<Token>)
    requires rest != [] && rest[0] == RBrace
    ensures var t := First(ClauseTokens(clauses) + rest);
      if clauses == [] then t == RBrace else t == if clauses[0].Case? then KCase else KDefault
  {
  }

  // The next clause, or the closing brace.
  lemma ClauseNext(clauses: seq<Clause>, k: nat, rest: seq<Token>, ts: seq<Token>)
    requires k <= |clauses| && ts == ClauseTokens(clauses[k..]) + rest && rest != [] && rest[0] == RBrace
    ensures k == |clauses| ==> ts == rest
    ensures k < |clauses| ==>
      var c, more := clauses[k], ClauseTokens(clauses[k + 1..]) + rest;
      && (First(more) == RBrace || First(more) == KCase || First(more) == KDefault)
      && ts == (if c.Case? then [KCase] + (ExprTokens(c.test, 1) + ([Colon] + (BodyTokens(c.body) + more)))
        else [KDefault] + ([Colon] + (BodyTokens(c.body) + more)))
  {
    hide ExprTokens, BodyTokens;
    if k < |clauses| {
      assert clauses[k..][0] == clauses[k] && clauses[k..][1..] == clauses[k + 1..];
      ClauseFirst(clauses[k + 1..], rest);
    }
  }

  lemma DoneDeferred(p0: State, p1: State, e: Expr)
    requires ExprDone(p0, p1, e)
    ensures p1.deferred == p0.deferred && p1.blocks == p0.blocks
      && (!p0.deferred ==> p1.deferredCode == p0.deferredCode)
  {
  }

  lemma StackOf(p0: State, p1: State, e: Expr)
    requires ExprShape(p0, p1, e)
    ensures |p1.stack| == |p0.stack| + 1
  {
    hide Room, Balanced, Grown, NoJumps;
  }

  lemma SwitchStart(p0: State, p1: State, q: State, selector: Expr) returns (rs: int, t0: nat)
    requires ExprDone(p0, p1, selector) && !p0.deferred && q == p1.(blocks := p1.blocks + [|p1.deferredCode|])
    ensures Underway(p0, q, selector, rs, t0, [], [])
  {
    hide Underway, ExprShape, CodeComputes;
    UnderwayStart(p0, p1, selector);
    StackOf(p0, p1, selector);
    rs, t0 := p1.stack[|p0.stack|].reg, |p1.code|;
  }

  // The jumps that have been noted down for the clauses: cases[m] are those of clause ids[m].
  ghost predicate Recorded(clauses: seq<Clause>, xs: seq<Place>, e: int, end: int, cases: seq<CaseEntry>, ids: seq<nat>,
      default_: Option<CaseEntry>)
  {
    var d := DefaultAt(clauses, 0);
    && |xs| == |clauses| && |ids| == |cases|
    && (forall m ::
       0 <= m < |ids| ==>
       ids[m] < |clauses| && clauses[ids[m]].Case? && cases[m] == EntryAt(clauses, xs, ids[m], e, end))
    && (forall m, n :: 0 <= m < n < |ids| ==> ids[m] < ids[n])
    && (forall i: nat :: i < |clauses| && clauses[i].Case? ==> i in ids)
    && (default_.Some? <==> d < |clauses|) && (default_.Some? ==> default_.value == EntryAt(clauses, xs, d, e, end))
    && (forall i: nat :: i < |clauses| && clauses[i].Default? ==> i == d)
  }

  lemma RecordedNone(e: int, end: int)
    ensures Recorded([], [], e, end, [], [], None)
  {
  }

  lemma {:induction false} DefaultAppend(clauses: seq<Clause>, c: Clause, i: nat)
    requires i <= |clauses|
    ensures var d := DefaultAt(clauses, i);
      && (d < |clauses| ==> clauses[d].Default?)
      && DefaultAt(clauses + [c], i) == if d < |clauses| || c.Default? then d else d + 1
    decreases |clauses| - i
  {
    if i < |clauses| && !clauses[i].Default? { DefaultAppend(clauses, c, i + 1); }
  }

  // A default after another is one too many.
  lemma SingleDefaultsAt(selector: Expr, clauses: seq<Clause>, k: nat)
    requires k < |clauses|
    ensures SingleDefaults(Switch(selector, clauses)) && clauses[k].body.Some? ==> SingleDefaults(clauses[k].body.value)
  {}

  lemma DefaultsSoFar(selector: Expr, clauses: seq<Clause>, k: nat, found: bool)
    requires k < |clauses| && (found <==> DefaultAt(clauses[..k], 0) < k)
    ensures found && clauses[k].Default? ==> !SingleDefaults(Switch(selector, clauses))
    ensures found || clauses[k].Default? <==> DefaultAt(clauses[..k + 1], 0) < k + 1
  {
    DefaultAppend(clauses[..k], clauses[k], 0);
    assert clauses[..k] + [clauses[k]] == clauses[..k + 1];
    var d := DefaultAt(clauses[..k], 0);
    if d < k { assert clauses[..k][d] == clauses[d]; }
  }

  lemma SingleDefaultsMore(selector: Expr, clauses: seq<Clause>, c: Clause)
    requires SingleDefaults(Switch(selector, clauses)) && (c.body.Some? ==> SingleDefaults(c.body.value))
    requires c.Default? ==> DefaultAt(clauses, 0) == |clauses|
    ensures SingleDefaults(Switch(selector, clauses + [c]))
  {
    forall i | 0 <= i < |clauses| && clauses[i].Default? ensures !c.Default? { DefaultBefore(clauses, 0, i); }
  }

  lemma {:induction false} DefaultBefore(clauses: seq<Clause>, i: nat, j: nat)
    requires i <= j < |clauses| && clauses[j].Default?
    ensures DefaultAt(clauses, i) <= j
    decreases j - i
  {
    if i < j { DefaultBefore(clauses, i + 1, j); }
  }

  lemma EntrySame(clauses: seq<Clause>, xs: seq<Place>, e: int, end: int, c: Clause, x: Place, e': int, end': int,
      i: nat)
    requires i < |clauses| == |xs| && x.t == e && x.d == end
    ensures EntryAt(clauses + [c], xs + [x], i, e', end') == EntryAt(clauses, xs, i, e, end)
  {
  }

  lemma RecordedMore(clauses: seq<Clause>, xs: seq<Place>, e: int, end: int, cases: seq<CaseEntry>, ids: seq<nat>,
      default_: Option<CaseEntry>, c: Clause, x: Place, e': int, end': int, entry: CaseEntry)
    requires Recorded(clauses, xs, e, end, cases, ids, default_) && x.t == e && x.d == end
      && (c.Default? ==> default_.None?)
    requires entry == EntryAt(clauses + [c], xs + [x], |clauses|, e', end')
    ensures Recorded(clauses + [c], xs + [x], e', end', if c.Case? then cases + [entry] else cases,
      if c.Case? then ids + [|clauses|] else ids, if c.Case? then default_ else Some(entry))
  {
    hide EntryAt, TestAtClause, BodyAtClause, DefaultAt;
    var all, ys, ids' := clauses + [c], xs + [x], if c.Case? then ids + [|clauses|] else ids;
    DefaultAppend(clauses, c, 0);
    forall i: nat | i < |clauses| ensures EntryAt(all, ys, i, e', end') == EntryAt(clauses, xs, i, e, end) {
      EntrySame(clauses, xs, e, end, c, x, e', end', i);
    }
    forall i: nat | i < |all| && all[i].Case? ensures i in ids' {
      if i < |clauses| { assert i in ids; } else { assert ids'[|ids|] == i; }
    }
  }

  lemma UnderwayBlocks(p0: State, q: State, selector: Expr, rs: int, t0: nat, clauses: seq<Clause>, xs: seq<Place>)
    requires Underway(p0, q, selector, rs, t0, clauses, xs)
    ensures !q.deferred && q.blocks == p0.blocks + [|p0.deferredCode|] && |p0.deferredCode| <= |q.deferredCode|
      && q.stack != []
    ensures q.deferredCode[..|p0.deferredCode|] == p0.deferredCode && |xs| == |clauses|
  {
    UnderwaySizes(p0, q, selector, rs, t0, clauses, xs);
    hide Assembled, Evaluates, Room, Balanced, NoEnds, OutOfReach, ClausesNeed, ExprNeed;
  }

  // Every jump of every clause can be aimed, in any order.
  ghost predicate Aimable(b0: seq<Instr>, es: seq<CaseEntry>, shift: int)
  { Apart(es, shift) && forall i :: 0 <= i < |es| ==> EntryFits(b0, es[i], shift) && EntryJumps(b0, es[i], shift) }

  lemma AimableAt(b0: seq<Instr>, es: seq<CaseEntry>, shift: int, i: nat)
    requires Aimable(b0, es, shift) && i < |es|
    ensures Apart(es, shift) && EntryFits(b0, es[i], shift) && EntryJumps(b0, es[i], shift)
  {
  }

  function Entries(clauses: seq<Clause>, xs: seq<Place>, e: int, end: int): (es: seq<CaseEntry>)
    requires |xs| == |clauses|
    ensures |es| == |clauses| && forall i: nat :: i < |es| ==> es[i] == EntryAt(clauses, xs, i, e, end)
  { seq(|clauses|, i requires 0 <= i < |clauses| => EntryAt(clauses, xs, i, e, end)) }

  lemma EntriesAimable(clauses: seq<Clause>, xs: seq<Place>, t0: nat, d0: nat, m: seq<Instr>, q: seq<Instr>, rs: int,
      uses: nat, minReg: int, constants: seq<int>, target: int)
    requires Assembled(clauses, xs, t0, d0, m, q, rs, uses, minReg, constants) && d0 <= |q|
    ensures Aimable(Joined(m, q, d0, target), Entries(clauses, xs, |m|, |q|), |m| + 1 - d0)
  {
    var es, b, shift := Entries(clauses, xs, |m|, |q|), Joined(m, q, d0, target), |m| + 1 - d0;
    EntriesApart(clauses, xs, t0, d0, m, q, rs, uses, minReg, constants, es);
    forall i | 0 <= i < |es| ensures EntryFits(b, es[i], shift) && EntryJumps(b, es[i], shift) {
      AssembledBounds(clauses, xs, t0, d0, m, q, rs, uses, minReg, constants, i);
      assert AssembledAt(clauses, xs, i, m, q, rs, uses, minReg, constants);
      if es[i].to >= 0 { JoinedAt(m, q, d0, target, es[i].to); }
      if es[i].from >= 0 { JoinedAt(m, q, d0, target, es[i].from + shift); }
    }
  }

  lemma EntriesReady(p0: State, q: State, selector: Expr, rs: int, t0: nat, clauses: seq<Clause>, xs: seq<Place>,
      cases: seq<CaseEntry>, ids: seq<nat>, default_: Option<CaseEntry>)
      returns (es: seq<CaseEntry>, b0: seq<Instr>, first: seq<nat>)
    requires Underway(p0, q, selector, rs, t0, clauses, xs)
      && Recorded(clauses, xs, |q.code|, |q.deferredCode|, cases, ids, default_)
    ensures var d0 := |p0.deferredCode|;
      && d0 <= |q.deferredCode| && |xs| == |clauses|
      && es == Entries(clauses, xs, |q.code|, |q.deferredCode|)
      && b0 == Joined(q.code, q.deferredCode, d0, DefaultTarget(clauses, xs, d0, q.code, q.deferredCode))
      && Aimable(b0, es, |q.code| + 1 - d0)
      && (default_.Some? ==> d0 <= default_.value.addr <= |q.deferredCode|)
    ensures first == if default_.Some? then [DefaultAt(clauses, 0)] else []
  {
    var d0 := |p0.deferredCode|;
    var target := DefaultTarget(clauses, xs, d0, q.code, q.deferredCode);
    es, b0 := Entries(clauses, xs, |q.code|, |q.deferredCode|), Joined(q.code, q.deferredCode, d0, target);
    first := if default_.Some? then [DefaultAt(clauses, 0)] else [];
    EntriesAimable(clauses, xs, t0, d0, q.code, q.deferredCode, rs, Uses(selector), q.minReg, q.constants, target);
    if default_.Some? {
      AssembledBounds(clauses, xs, t0, d0, q.code, q.deferredCode, rs, Uses(selector), q.minReg, q.constants,
        DefaultAt(clauses, 0));
    }
  }

  // The jump after the tests has been aimed, and what each of the other jumps still needs.
  lemma EndJumpAimed(p0: State, q: State, q2: State, selector: Expr, rs: int, t0: nat, clauses: seq<Clause>,
      xs: seq<Place>, cases: seq<CaseEntry>, ids: seq<nat>, default_: Option<CaseEntry>, es: seq<CaseEntry>,
      b0: seq<Instr>)
    requires Recorded(clauses, xs, |q.code|, |q.deferredCode|, cases, ids, default_)
      && |p0.deferredCode| <= |q.deferredCode|
    requires es == Entries(clauses, xs, |q.code|, |q.deferredCode|)
    requires b0 == Joined(q.code, q.deferredCode, |p0.deferredCode|,
      DefaultTarget(clauses, xs, |p0.deferredCode|, q.code, q.deferredCode))
    requires var c, shift := q.code + [Jump(JMP, 0, 0)] + q.deferredCode[|p0.deferredCode|..],
      |q.code| + 1 - |p0.deferredCode|;
      q2.code == Resolve(c, [|q.code|], if default_.Some? then default_.value.addr + shift else |c|)
    ensures q2.code == b0 && Patched(b0, q2.code, es, [], |q.code| + 1 - |p0.deferredCode|, |b0|)
    ensures |b0| == |q.code| + 1 + |q.deferredCode| - |p0.deferredCode|
    ensures var first := if default_.Some? then [DefaultAt(clauses, 0)] else [];
      && (default_.Some? ==> first[0] < |es| && es[first[0]] == CaseEntry(-1, default_.value.from, default_.value.addr))
      && |ids| == |cases|
      && forall k :: 0 <= k < |ids| ==> ids[k] < |es| && es[ids[k]] == cases[k] && ids[k] !in first + ids[..k]
  {
    if default_.Some? { DefaultAppend(clauses, Default(None), 0); }
    PatchedNone(b0, es, |q.code| + 1 - |p0.deferredCode|, |b0|);
  }

  lemma SwitchFinished(p0: State, q: State, selector: Expr, rs: int, t0: nat, clauses: seq<Clause>, xs: seq<Place>,
      cases: seq<CaseEntry>, ids: seq<nat>, default_: Option<CaseEntry>, es: seq<CaseEntry>, b0: seq<Instr>,
      first: seq<nat>, f: seq<Instr>)
    requires Recorded(clauses, xs, |q.code|, |q.deferredCode|, cases, ids, default_)
      && |p0.deferredCode| <= |q.deferredCode|
    requires es == Entries(clauses, xs, |q.code|, |q.deferredCode|)
    requires first == if default_.Some? then [DefaultAt(clauses, 0)] else []
    requires b0 == Joined(q.code, q.deferredCode, |p0.deferredCode|,
      DefaultTarget(clauses, xs, |p0.deferredCode|, q.code, q.deferredCode))
    requires Patched(b0, f, es, first + ids, |q.code| + 1 - |p0.deferredCode|,
      |q.code| + 1 + |q.deferredCode| - |p0.deferredCode|)
    ensures Finished(clauses, xs, q.code, q.deferredCode, |p0.deferredCode|,
      DefaultTarget(clauses, xs, |p0.deferredCode|, q.code, q.deferredCode), es, first + ids, f)
  {
    forall i: nat | i < |es| ensures i in first + ids {
      if clauses[i].Case? { assert i in ids; } else { assert i == first[0]; }
    }
  }

  lemma NotedOn(stack: seq<seq<int>>, list: seq<int>)
    ensures Noted(stack + [[]], list) == stack + [list]
  {
    assert [] + list == list;
  }

  lemma WhileTokens(cond: Expr, loop: Stmt, after: seq<Token>)
    ensures StmtTokens(While(cond, loop)) + after ==
      [KWhile] + ([LParen] + (ExprTokens(cond, 1) + ([RParen] + (StmtTokens(loop) + after))))
  {
  }

  lemma BlockTokens(body: seq<Stmt>, after: seq<Token>, rest: seq<Token>)
    requires rest == [RBrace] + after
    ensures StmtTokens(Block(body)) + after == [LBrace] + (ListTokens(body[0..]) + rest)
  {
    assert body[0..] == body;
  }

  lemma BlockSupported(body: seq<Stmt>, inLoop: bool, deferred: bool, locals: nat)
    requires Supported(Block(body), inLoop, deferred, locals)
    ensures forall i :: 0 <= i < |body| ==> Supported(body[i], inLoop, deferred, locals)
  {
  }

  lemma BlockParts(body: seq<Stmt>)
    ensures StmtSize(Block(body)) == ListSize(body) && ListSize([]) == 0
    ensures SingleDefaults(Block(body)) ==> forall i :: 0 <= i < |body| ==> SingleDefaults(body[i])
  {}

  lemma NotedNone(stack: seq<seq<int>>)
    ensures Noted(stack, []) == stack
  {}

  lemma NotedSame(stack: seq<seq<int>>, list: seq<int>)
    ensures |Noted(stack, list)| == |stack|
  {}

  lemma ResultDone(s: Stmt, p0: State, p1: State, nb: seq<int>, nc: seq<int>)
    ensures Result(s, p0, p1, nb, nc) <==> (p1.nerrors == 0 ==>
      p0.nerrors == 0 && SingleDefaults(s) && StmtDone(s, p0, p1, nb, nc))
  {}

  lemma EmptyResult(p0: State)
    requires p0.nerrors == 0 ==> Balanced(p0)
    ensures Result(Block([]), p0, p0, [], [])
  {
    if p0.nerrors == 0 { EmptyDone(p0); }
  }

  lemma SwitchParts(selector: Expr, clauses: seq<Clause>)
    ensures StmtSize(Switch(selector, clauses)) == ExprSize(selector) + ClauseSizes(clauses) + 1
  {}

  ghost predicate ClausesSupported(clauses: seq<Clause>, locals: nat)
  { forall i :: 0 <= i < |clauses| ==> ClauseSupported(clauses[i], locals) }

  lemma OneSupported(clauses: seq<Clause>, k: nat, locals: nat)
    requires ClausesSupported(clauses, locals) && k < |clauses|
    ensures (clauses[k].body.Some? ==> Supported(clauses[k].body.value, false, true, locals))
      && (clauses[k].Case? ==> Uses(clauses[k].test) <= locals)
  {
    assert ClauseSupported(clauses[k], locals);
  }

  lemma NoClauses(selector: Expr)
    ensures SingleDefaults(Switch(selector, [])) && ClauseSizes([]) == 0 && DefaultAt([], 0) >= 0
  {}

  lemma SwitchSupported(selector: Expr, clauses: seq<Clause>, deferred: bool, locals: nat)
    requires Supported(Switch(selector, clauses), false, deferred, locals)
    ensures !deferred && Uses(selector) <= locals && ClausesSupported(clauses, locals)
  {}

  lemma DoParts(loop: Stmt, cond: Expr)
    ensures StmtSize(DoWhile(loop, cond)) == StmtSize(loop) + ExprSize(cond) + 1
    ensures SingleDefaults(DoWhile(loop, cond)) <==> SingleDefaults(loop)
  {}

  lemma StmtParts(s: Stmt)
    ensures s.Do? ==> StmtSize(s) == SimpleSize(s.simple)
    ensures s.Break? || s.Continue? ==> StmtSize(s) == 1
    ensures s.While? || s.DoWhile? || s.For? ==> (SingleDefaults(s) <==> SingleDefaults(s.loop))
  {}

  lemma IfParts(s: Stmt)
    requires s.If? || s.IfOnly?
    ensures SingleDefaults(s) <==> SingleDefaults(s.thn) && (s.If? ==> SingleDefaults(s.els))
    ensures StmtSize(s) == ExprSize(s.cond) + StmtSize(s.thn) + 1 + if s.If? then StmtSize(s.els) + 1 else 0
  {}

  lemma IfSupported(s: Stmt, inLoop: bool, deferred: bool, locals: nat)
    requires (s.If? || s.IfOnly?) && Supported(s, inLoop, deferred, locals)
    ensures !Constant(s.cond) && Uses(s.cond) <= locals && Supported(s.thn, inLoop, deferred, locals)
    ensures if s.If? then Supported(s.els, inLoop, deferred, locals) && !EndsOpen(s.thn)
      && EndsOpen(s) == EndsOpen(s.els) else EndsOpen(s)
  {
  }

  lemma DoneRegisters(s: Stmt, p0: State, p1: State)
    requires StmtDone(s, p0, p1, [], [])
    ensures p1.minReg <= 256 && Room(p0, p1, StmtNeed(s))
  {
  }

  lemma DoneBalanced(s: Stmt, p0: State, p1: State, nb: seq<int>, nc: seq<int>)
    requires StmtDone(s, p0, p1, nb, nc)
    ensures Balanced(p1)
  {
  }

  lemma TestBalanced(p0: State, test: seq<Instr>, r: int, p2: State, cond: Expr)
    requires TestReady(p0, test, r, p2, cond)
    ensures Balanced(p2)
  {
  }

  // The jump after a condition is still there after the statement.
  lemma ReadyJump(p0: State, test: seq<Instr>, r: int, p2: State, p3: State, cond: Expr, s: Stmt, nb: seq<int>,
      nc: seq<int>)
    requires LoopShape(p0, test, r, p2, p3, cond, s, nb, nc)
    ensures |test| < |Buf(p3)| && Buf(p3)[|test|] == Jump(JF, r, 0)
  {
    assert Buf(p2)[|test|] == Buf(p3)[|test|];
  }

  lemma ElseJump(p3: State, q: State, m: nat)
    requires q == WithBuf(p3, Buf(p3) + [Jump(JMP, 0, 0)]) && m < |Buf(p3)| && Buf(p3)[m].Jump?
    ensures m < |Buf(q)| && Buf(q)[m].Jump? && Elsewhere(p3, WithBuf(q, Resolve(Buf(q), [m], |Buf(q)|)), m)
  {}

  lemma ElseBalanced(p0: State, test: seq<Instr>, r: int, p2: State, p3: State, p4: State, cond: Expr, thn: Stmt,
      nb: seq<int>, nc: seq<int>)
    requires LoopShape(p0, test, r, p2, p3, cond, thn, nb, nc) && Elsewhere(p3, p4, |test|)
    ensures Balanced(p4)
  {
    ReadyJump(p0, test, r, p2, p3, cond, thn, nb, nc);
    KeptTwice(p0, p2, p3);
    ElsewhereKept(p0, p3, p4, |test|);
  }

  lemma JumpInElse(p3: State, p4: State, p5: State, m: nat, els: Stmt, nb: seq<int>, nc: seq<int>)
    requires Elsewhere(p3, p4, m) && m < |Buf(p3)| && StmtDone(els, p4, p5, nb, nc)
    ensures |Buf(p3)| < |Buf(p5)| && Buf(p5)[|Buf(p3)|] == Jump(JMP, 0, 0)
  {
    hide Room, Balanced, Correct, Leaving, NoEnds, StmtNeed;
    var j := |Buf(p3)|;
    assert Buf(p4) == Resolve(Buf(p3) + [Jump(JMP, 0, 0)], [m], j + 1);
    assert Buf(p4)[j] == Buf(p5)[j];
  }

  lemma ResolveNone(p: State)
    ensures p == WithBuf(p, Resolve(Buf(p), [], |Buf(p)|))
  {
    assert Resolve(Buf(p), [], |Buf(p)|) == Buf(p);
  }

  lemma ResolveNext(p: State, list: seq<int>, k: nat)
    requires k < |list|
    ensures var b := Buf(p);
      WithBuf(WithBuf(p, Resolve(b, list[..k], |b|)), Resolve(Resolve(b, list[..k], |b|), [list[k]], |b|)) ==
        WithBuf(p, Resolve(b, list[..k + 1], |b|))
  {
    assert list[..k] + [list[k]] == list[..k + 1];
    ResolveMore(Buf(p), list[..k], list[k], |Buf(p)|);
  }

  class ParseEngine {
    const parser: Parser
    var tokens: seq<Token>
    var breakStack: seq<seq<int>>
    var continueStack: seq<seq<int>>

    constructor (parser: Parser)
      ensures this.parser == parser && tokens == [] && breakStack == [] && continueStack == []
    {
      this.parser := parser;
      tokens := [];
      breakStack, continueStack := [], [];
    }

    method GetToken() returns (t: Token)
      ensures t == First(tokens)
    {
      t := if tokens == [] then EndOfFile else tokens[0];
    }

    method RetireToken()
      requires tokens != []
      modifies this`tokens
      ensures tokens == old(tokens)[1..]
    {
      tokens := tokens[1..];
    }

    method ArithmeticPrimary(ghost s: Simple, ghost after: seq<Token>)
      requires (s.Eval? || s.Step?) && SimpleUses(s) <= parser.locals
      requires tokens == SimpleTokens(s, PRIMARY) + after && !First(after).Inc? && !First(after).Dec?
      requires parser.nerrors == 0 ==> Balanced(parser.Now())
      modifies this`tokens, parser
      ensures parser.Total() <= old(parser.Total()) + SimpleSize(s)
      ensures old(parser.Explained()) ==> parser.Explained()
      ensures tokens == after && parser.nerrors == old(parser.nerrors) && parser.deferred == old(parser.deferred)
      ensures parser.nerrors == 0 ==> Compiled(old(parser.Now()), parser.Now(), s)
      decreases |tokens|, 0
    {
      hide ExprDone, SimpleDone, Balanced, Parser.Explained, Parser.Total;
      ghost var p0 := parser.Now();
      PrimaryHasShape(s, tokens, after);
      var t := GetToken();
      RetireToken();
      match t
      case LParen =>
        Parenthesised(s.e, after);
      case Inc =>
        StepOperand(PREINC, s, after);
      case Dec =>
        StepOperand(PREDEC, s, after);
      case Operator(_) =>
        UnaryOperand(UMINUS, s, after);
      case Twiddle =>
        UnaryOperand(UNOT, s, after);
      case Bang =>
        UnaryOperand(UNEG, s, after);
      case Integer(v) =>
        parser.PushK(v);
      case Identifier(x) =>
        parser.EmitId(x);
        Postfix(x, s, after, p0);
      case _ =>
        assert false;
    }

    // What stands between parentheses, and the closing one.
    method Parenthesised(ghost e: Expr, ghost after: seq<Token>)
      requires Uses(e) <= parser.locals && tokens == ExprTokens(Within(e), 1) + ([RParen] + after)
      requires parser.nerrors == 0 ==> Balanced(parser.Now())
      modifies this`tokens, parser
      ensures parser.Total() <= old(parser.Total()) + ExprSize(e)
      ensures old(parser.Explained()) ==> parser.Explained()
      ensures tokens == after && parser.nerrors == old(parser.nerrors) && parser.deferred == old(parser.deferred)
      ensures parser.nerrors == 0 ==> ExprDone(old(parser.Now()), parser.Now(), e)
      decreases |tokens|, 4
    {
      hide ExprDone, Balanced, Parser.Explained, Parser.Total;
      ghost var p0 := parser.Now();
      Expression(1, Eval(Within(e)), [RParen] + after);
      RetireToken();
      if parser.nerrors == 0 { WithinDone(p0, parser.Now(), e); }
    }

    method StepOperand(op: StepOp, ghost s: Simple, ghost after: seq<Token>)
      requires s.Step? && s.sop == op && s.x < parser.locals && tokens == ExprTokens(Local(s.x), PRIMARY) + after
        && !First(after).Inc? && !First(after).Dec?
      requires parser.nerrors == 0 ==> Balanced(parser.Now())
      modifies this`tokens, parser
      ensures parser.Total() <= old(parser.Total()) + SimpleSize(s)
      ensures old(parser.Explained()) ==> parser.Explained()
      ensures tokens == after && parser.nerrors == old(parser.nerrors) && parser.deferred == old(parser.deferred)
      ensures parser.nerrors == 0 ==> Compiled(old(parser.Now()), parser.Now(), s)
      decreases |tokens|, 1
    {
      ghost var p0 := parser.Now();
      ArithmeticPrimary(Eval(Local(s.x)), after);
      parser.EmitStep(op, p0, s.x);
    }

    method UnaryOperand(op: UnOp, ghost s: Simple, ghost after: seq<Token>)
      requires s.Eval? && s.e.Unary? && s.e.uop == op && Uses(s.e) <= parser.locals
        && tokens == ExprTokens(s.e.e, PRIMARY) + after && !First(after).Inc? && !First(after).Dec?
      requires parser.nerrors == 0 ==> Balanced(parser.Now())
      modifies this`tokens, parser
      ensures parser.Total() <= old(parser.Total()) + SimpleSize(s)
      ensures old(parser.Explained()) ==> parser.Explained()
      ensures tokens == after && parser.nerrors == old(parser.nerrors) && parser.deferred == old(parser.deferred)
      ensures parser.nerrors == 0 ==> Compiled(old(parser.Now()), parser.Now(), s)
      decreases |tokens|, 1
    {
      ghost var p0 := parser.Now();
      ArithmeticPrimary(Eval(s.e.e), after);
      parser.EmitUnOp(op, p0, s.e.e);
    }

    method Postfix(x: nat, ghost s: Simple, ghost after: seq<Token>, ghost p0: State)
      requires x < parser.locals && !First(after).Inc? && !First(after).Dec?
      requires || (s == Eval(Local(x)) && tokens == after)
               || (s == Simple.Step(POSTINC, x) && tokens == [Inc] + after)
               || (s == Simple.Step(POSTDEC, x) && tokens == [Dec] + after)
      requires parser.nerrors == 0 ==>
        Balanced(p0) && parser.Now() == p0.(stack := p0.stack + [LocalEntry(x)]) && ExprDone(p0, parser.Now(), Local(x))
      modifies this`tokens, parser
      ensures parser.Total() <= old(parser.Total()) + SimpleSize(s)
      ensures old(parser.Explained()) ==> parser.Explained()
      ensures tokens == after && parser.nerrors == old(parser.nerrors) && parser.deferred == old(parser.deferred)
      ensures parser.nerrors == 0 ==> Compiled(p0, parser.Now(), s)
    {
      var u := GetToken();
      if u.Inc? {
        RetireToken();
        parser.EmitStep(POSTINC, p0, x);
      } else if u.Dec? {
        RetireToken();
        parser.EmitStep(POSTDEC, p0, x);
      }
    }

    method Expression(minPrec: nat, ghost s: Simple, ghost after: seq<Token>)
      requires Legal(s) && SimpleUses(s) <= parser.locals && 0 < minPrec <= PRIMARY && (!s.Eval? ==> minPrec == 1)
      requires tokens == SimpleTokens(s, minPrec) + after && Stops(after, minPrec)
      requires parser.nerrors == 0 ==> Balanced(parser.Now())
      modifies this`tokens, parser
      ensures parser.Total() <= old(parser.Total()) + SimpleSize(s)
      ensures old(parser.Explained()) ==> parser.Explained()
      ensures tokens == after && parser.nerrors == old(parser.nerrors) && parser.deferred == old(parser.deferred)
      ensures parser.nerrors == 0 ==> Compiled(old(parser.Now()), parser.Now(), s)
      decreases |tokens|, 2
    {
      hide ExprDone, SimpleDone, Balanced, SimpleTokens, Left, Built, NextShape, Parser.Explained, Parser.Total;
      ghost var p0 := parser.Now();
      ghost var k := 0;
      FirstOperand(minPrec, s, after);
      while true
        invariant Left(s, minPrec, k, tokens, after) && parser.nerrors == old(parser.nerrors)
          && parser.deferred == old(parser.deferred)
        invariant parser.nerrors == 0 ==> Built(p0, parser.Now(), s, minPrec, k)
        invariant (old(parser.Explained()) ==> parser.Explained())
          && parser.Total() <= old(parser.Total()) + BuiltSize(s, minPrec, k)
        invariant |tokens| < |old(tokens)|
        decreases |tokens|
      {
        LeftShape(s, minPrec, k, tokens, after);
        var t := GetToken();
        var prec := TokenPrec(t);
        if prec == 0 || prec < minPrec { break; }
        ApplyOperator(minPrec, s, k, p0, after);
        k := k + 1;
      }
      BuiltAll(p0, parser.Now(), s, minPrec, k, tokens, after);
    }

    method FirstOperand(minPrec: nat, ghost s: Simple, ghost after: seq<Token>)
      requires Legal(s) && SimpleUses(s) <= parser.locals && 0 < minPrec <= PRIMARY
      requires tokens == SimpleTokens(s, minPrec) + after && Stops(after, minPrec)
      requires parser.nerrors == 0 ==> Balanced(parser.Now())
      modifies this`tokens, parser
      ensures parser.Total() <= old(parser.Total()) + BuiltSize(s, minPrec, 0)
      ensures old(parser.Explained()) ==> parser.Explained()
      ensures Left(s, minPrec, 0, tokens, after) && parser.nerrors == old(parser.nerrors)
        && parser.deferred == old(parser.deferred) && |tokens| < |old(tokens)|
      ensures parser.nerrors == 0 ==> Built(old(parser.Now()), parser.Now(), s, minPrec, 0)
      decreases |tokens|, 1
    {
      hide ExprDone, SimpleDone, Balanced, Built, Compiled, Parser.Explained, Parser.Total;
      ghost var n := StartShape(s, minPrec, tokens, after);
      LeadUses(s, minPrec);
      ArithmeticPrimary(Lead(s, minPrec), tokens[n..]);
      if parser.nerrors == 0 { StartBuilt(old(parser.Now()), parser.Now(), s, minPrec); }
    }

    // One round of the loop of Expression: the operator, its right operand and the code for it.
    method ApplyOperator(minPrec: nat, ghost s: Simple, ghost k: nat, ghost p0: State, ghost after: seq<Token>)
      requires Legal(s) && SimpleUses(s) <= parser.locals && 0 < minPrec <= PRIMARY && (!s.Eval? ==> minPrec == 1)
      requires Left(s, minPrec, k, tokens, after) && NextShape(s, minPrec, k, tokens, after) && Stops(after, minPrec)
      requires TokenPrec(First(tokens)) >= minPrec
      requires parser.nerrors == 0 ==> Built(p0, parser.Now(), s, minPrec, k)
      modifies this`tokens, parser
      ensures parser.Total() + BuiltSize(s, minPrec, k) <= old(parser.Total()) + BuiltSize(s, minPrec, k + 1)
      ensures old(parser.Explained()) ==> parser.Explained()
      ensures Left(s, minPrec, k + 1, tokens, after) && parser.nerrors == old(parser.nerrors)
        && parser.deferred == old(parser.deferred) && |tokens| < |old(tokens)|
      ensures parser.nerrors == 0 ==> Built(p0, parser.Now(), s, minPrec, k + 1)
      decreases |tokens|, 0
    {
      var t := GetToken();
      RetireToken();
      if t.Operator? {
        ghost var h, all := Head(s.e, minPrec), Tails(s.e, minPrec);
        SpineUses(s.e, minPrec, k);
        OperatorTail(t.bop, all[k], Fold(h, all[..k]), p0, TailTokens(all[k + 1..]) + after);
        FoldMore(h, all, k);
      } else {
        AssignTail(t, s, p0, after);
      }
    }

    // Parses an operator and its right operand.
    method OperatorTail(op: BinOp, ghost t: Tail, ghost left: Expr, ghost p0: State, ghost after: seq<Token>)
      requires t.op == op && Uses(t.right) <= parser.locals && tokens == ExprTokens(t.right, Prec(op) + 1) + after
        && Stops(after, Prec(op) + 1)
      requires parser.nerrors == 0 ==> ExprDone(p0, parser.Now(), left)
      modifies this`tokens, parser
      ensures parser.Total() <= old(parser.Total()) + ExprSize(t.right) + 1
      ensures old(parser.Explained()) ==> parser.Explained()
      ensures tokens == after && parser.nerrors == old(parser.nerrors) && parser.deferred == old(parser.deferred)
      ensures parser.nerrors == 0 ==> ExprDone(p0, parser.Now(), Binary(op, left, t.right))
      decreases |tokens|, 3
    {
      ghost var p1 := parser.Now();
      Expression(Prec(op) + 1, Eval(t.right), after);
      parser.EmitBinOp(op, p0, p1, left, t.right);
    }

    // Parses = or op= and its right operand, for the local on top of the parse stack.
    method AssignTail(t: Token, ghost s: Simple, ghost p0: State, ghost after: seq<Token>)
      requires SimpleUses(s) <= parser.locals
      requires (s.Assign? && t == Sto) || (s.Update? && t == OperatorSto(s.bop) && StoPrec(s.bop) > 0)
      requires tokens == ExprTokens(s.e, TokenPrec(t)) + after && Stops(after, 1)
      requires parser.nerrors == 0 ==>
        Balanced(p0) && parser.Now() == p0.(stack := p0.stack + [LocalEntry(s.x)])
        && ExprDone(p0, parser.Now(), Local(s.x))
      modifies this`tokens, parser
      ensures parser.Total() <= old(parser.Total()) + SimpleSize(s)
      ensures old(parser.Explained()) ==> parser.Explained()
      ensures tokens == after && parser.nerrors == old(parser.nerrors) && parser.deferred == old(parser.deferred)
      ensures parser.nerrors == 0 ==> SimpleDone(p0, parser.Now(), s)
      decreases |tokens|, 3
    {
      ghost var p1 := parser.Now();
      if t.OperatorSto? { parser.EmitDup(s.x); }
      if parser.nerrors == 0 && t.OperatorSto? { OperandDone(p1, parser.Now(), Local(s.x)); }
      ghost var p2 := parser.Now();
      Expression(TokenPrec(t), Eval(s.e), after);
      if t.OperatorSto? {
        parser.EmitBinOp(t.bop, p1, p2, Local(s.x), s.e);
        parser.EmitAssign(p0, p1, s.x, Binary(t.bop, Local(s.x), s.e));
        if parser.nerrors == 0 { UpdateDone(p0, parser.Now(), s.x, t.bop, s.e); }
      } else {
        parser.EmitAssign(p0, p1, s.x, s.e);
      }
    }

    method Expect(t: Token)
      requires tokens != [] && tokens[0] == t
      modifies this`tokens
      ensures tokens == old(tokens)[1..]
    {
      RetireToken();
    }

    // An expression statement without its semicolon; its result stays on the parse stack.
    method SimpleExpression(ghost s: Simple, ghost after: seq<Token>)
      requires Legal(s) && SimpleUses(s) <= parser.locals && tokens == SimpleTokens(s, 1) + after && Stops(after, 1)
      requires parser.nerrors == 0 ==> Balanced(parser.Now())
      modifies this`tokens, parser
      ensures parser.Total() <= old(parser.Total()) + SimpleSize(s)
      ensures old(parser.Explained()) ==> parser.Explained()
      ensures tokens == after && parser.nerrors == old(parser.nerrors) && parser.deferred == old(parser.deferred)
      ensures parser.nerrors == 0 ==> SimpleDone(old(parser.Now()), parser.Now(), s)
    {
      Expression(1, s, after);
      if parser.nerrors == 0 && s.Eval? { EvalDone(old(parser.Now()), parser.Now(), s.e); }
    }

    // A condition in parentheses, of which the opening one has been read, and the jump on it.
    method Condition(ghost cond: Expr, ghost after: seq<Token>) returns (m: int, ghost test: seq<Instr>, ghost r: int)
      requires Uses(cond) <= parser.locals && tokens == ExprTokens(cond, 1) + after && Stops(after, 1)
      requires parser.nerrors == 0 ==> Balanced(parser.Now())
      modifies this`tokens, parser
      ensures parser.Total() <= old(parser.Total()) + ExprSize(cond) + 1
      ensures old(parser.Explained()) ==> parser.Explained()
      ensures tokens == after && parser.nerrors == old(parser.nerrors) && parser.deferred == old(parser.deferred)
      ensures parser.nerrors == 0 ==> m == |test| && TestReady(old(parser.Now()), test, r, parser.Now(), cond)
    {
      Expression(1, Eval(cond), after);
      ghost var p1 := parser.Now();
      m := parser.AddMatchedJump(JF);
      if parser.nerrors == 0 {
        test, r := Buf(p1), p1.stack[|old(parser.stack)|].reg;
        TestIsReady(old(parser.Now()), p1, cond);
      } else {
        test, r := [], 0;
      }
    }

    // Aims the listed jumps at the current end of the code.
    method MatchJumps(list: seq<int>)
      requires parser.nerrors == 0 ==> JumpsAt(Buf(parser.Now()), list)
      modifies parser
      ensures parser.Total() <= old(parser.Total())
      ensures old(parser.Explained()) ==> parser.Explained()
      ensures parser.deferred == old(parser.deferred)
      ensures parser.nerrors == 0 ==>
        && old(parser.nerrors) == 0
        && parser.Now() == WithBuf(old(parser.Now()), Resolve(Buf(old(parser.Now())), list, |Buf(old(parser.Now()))|))
    {
      ghost var p := parser.Now();
      var k := 0;
      if parser.nerrors == 0 { ResolveNone(p); }
      while k < |list|
        invariant k <= |list| && parser.deferred == old(parser.deferred) && parser.Total() <= old(parser.Total())
          && (old(parser.Explained()) ==> parser.Explained())
        invariant parser.nerrors == 0 ==>
          p.nerrors == 0 && parser.Now() == WithBuf(p, Resolve(Buf(p), list[..k], |Buf(p)|))
      {
        if parser.nerrors == 0 {
          ResolveNext(p, list, k);
          assert list[k] in list;
        }
        parser.MatchJump(list[k]);
        k := k + 1;
      }
      assert list[..k] == list;
    }

    // One statement, or none where a list of statements ends.
    method Statement(ghost s: Option<Stmt>, ghost inLoop: bool, ghost after: seq<Token>)
        returns (ok: bool, ghost nb: seq<int>, ghost nc: seq<int>)
      requires s.Some? ==> Supported(s.value, inLoop, parser.deferred, parser.locals)
      requires tokens == BodyTokens(s) + after && (s.Some? && EndsOpen(s.value) ==> First(after) != KElse)
      requires s.None? ==>
        First(after) == RBrace || First(after) == KCase || First(after) == KDefault || First(after) == EndOfFile
      requires parser.nerrors == 0 ==> Balanced(parser.Now())
      requires inLoop ==> breakStack != [] && continueStack != []
      requires s.Some? && !parser.lenient ==> SingleDefaults(s.value)
      modifies this`tokens, this`breakStack, this`continueStack, parser
      ensures parser.Total() <= old(parser.Total()) + (if s.Some? then StmtSize(s.value) else 0)
      ensures old(parser.Explained()) ==> parser.Explained()
      ensures ok == s.Some? && tokens == after && parser.deferred == old(parser.deferred)
      ensures breakStack == Noted(old(breakStack), nb) && continueStack == Noted(old(continueStack), nc)
      ensures !inLoop ==> nb == [] && nc == []
      ensures s.Some? ==> Result(s.value, old(parser.Now()), parser.Now(), nb, nc)
      ensures s.None? ==> parser.Now() == old(parser.Now()) && nb == [] && nc == []
      decreases |tokens|, 2
    {
      hide StmtDone, Balanced, SingleDefaults, StmtSize, SimpleSize, Result, Noted, Parser.Explained, Parser.Total;
      ok, nb, nc := true, [], [];
      NotedNone(breakStack);
      NotedNone(continueStack);
      if s.Some? {
        StmtParts(s.value);
        StmtFirst(s.value, after);
      }
      var t := GetToken();
      if t.EndOfFile? || t.RBrace? || t.KCase? || t.KDefault? {
        ok := false;
      } else if t.LBrace? {
        nb, nc := CompoundStatement(s.value.body, inLoop, after);
      } else if t.KIf? {
        nb, nc := SelectionStatement(s.value, inLoop, after);
      } else if t.KSwitch? {
        SwitchStatement(s.value.selector, s.value.clauses, after);
      } else if t.KWhile? || t.KDo? || t.KFor? {
        IterationStatement(s.value, inLoop, after);
      } else if t.KBreak? || t.KContinue? {
        nb, nc := JumpStatement(s.value, after);
      } else {
        ExpressionStatement(s.value.simple, after);
      }
    }

    method IterationStatement(ghost s: Stmt, ghost inLoop: bool, ghost after: seq<Token>)
      requires (s.While? || s.DoWhile? || s.For?) && Supported(s, inLoop, parser.deferred, parser.locals)
        && tokens == StmtTokens(s) + after
      requires EndsOpen(s) ==> First(after) != KElse
      requires parser.nerrors == 0 ==> Balanced(parser.Now())
      requires parser.lenient || SingleDefaults(s)
      modifies this`tokens, this`breakStack, this`continueStack, parser
      ensures parser.Total() <= old(parser.Total()) + StmtSize(s)
      ensures old(parser.Explained()) ==> parser.Explained()
      ensures tokens == after && parser.deferred == old(parser.deferred)
      ensures breakStack == old(breakStack) && continueStack == old(continueStack)
      ensures Result(s, old(parser.Now()), parser.Now(), [], [])
      decreases |tokens|, 1
    {
      hide StmtDone, Balanced, SingleDefaults, StmtSize, Result, Parser.Explained, Parser.Total;
      StmtParts(s);
      StmtFirst(s, after);
      var t := GetToken();
      if t.KWhile? {
        WhileStatement(s.cond, s.loop, after);
      } else if t.KDo? {
        DoStatement(s.loop, s.cond, after);
      } else {
        ForStatement(s.init, s.cond, s.iter, s.loop, after);
      }
    }

    method ExpressionStatement(ghost s: Simple, ghost after: seq<Token>)
      requires Legal(s) && SimpleUses(s) <= parser.locals && tokens == SimpleTokens(s, 1) + [Semicolon] + after
      requires parser.nerrors == 0 ==> Balanced(parser.Now())
      modifies this`tokens, parser
      ensures parser.Total() <= old(parser.Total()) + SimpleSize(s)
      ensures old(parser.Explained()) ==> parser.Explained()
      ensures tokens == after && parser.deferred == old(parser.deferred)
      ensures Result(Do(s), old(parser.Now()), parser.Now(), [], [])
      decreases |tokens|, 0
    {
      assert tokens == SimpleTokens(s, 1) + ([Semicolon] + after);
      SimpleExpression(s, [Semicolon] + after);
      if parser.nerrors == 0 { DoDone(old(parser.Now()), parser.Now(), s); }
      parser.Pop();
      Expect(Semicolon);
    }

    method JumpStatement(ghost s: Stmt, ghost after: seq<Token>) returns (ghost nb: seq<int>, ghost nc: seq<int>)
      requires (s.Break? || s.Continue?) && tokens == StmtTokens(s) + after && breakStack != [] && continueStack != []
      requires parser.nerrors == 0 ==> Balanced(parser.Now())
      modifies this`tokens, this`breakStack, this`continueStack, parser
      ensures parser.Total() <= old(parser.Total()) + 1
      ensures old(parser.Explained()) ==> parser.Explained()
      ensures tokens == after && parser.deferred == old(parser.deferred)
      ensures breakStack == Noted(old(breakStack), nb) && continueStack == Noted(old(continueStack), nc)
      ensures Result(s, old(parser.Now()), parser.Now(), nb, nc)
      decreases |tokens|, 0
    {
      var t := GetToken();
      RetireToken();
      Expect(Semicolon);
      var place := parser.AddMatchedJump(JMP);
      if parser.nerrors == 0 { LeaveDone(s, old(parser.Now())); }
      if t.KBreak? {
        breakStack := breakStack[..|breakStack| - 1] + [breakStack[|breakStack| - 1] + [place]];
        nb, nc := [place], [];
      } else {
        continueStack := continueStack[..|continueStack| - 1] + [continueStack[|continueStack| - 1] + [place]];
        nb, nc := [], [place];
      }
    }

    method CompoundStatement(ghost body: seq<Stmt>, ghost inLoop: bool, ghost after: seq<Token>)
        returns (ghost nb: seq<int>, ghost nc: seq<int>)
      requires Supported(Block(body), inLoop, parser.deferred, parser.locals)
        && tokens == StmtTokens(Block(body)) + after
      requires parser.nerrors == 0 ==> Balanced(parser.Now())
      requires inLoop ==> breakStack != [] && continueStack != []
      requires parser.lenient || SingleDefaults(Block(body))
      modifies this`tokens, this`breakStack, this`continueStack, parser
      ensures parser.Total() <= old(parser.Total()) + StmtSize(Block(body))
      ensures old(parser.Explained()) ==> parser.Explained()
      ensures tokens == after && parser.deferred == old(parser.deferred)
      ensures breakStack == Noted(old(breakStack), nb) && continueStack == Noted(old(continueStack), nc)
      ensures !inLoop ==> nb == [] && nc == []
      ensures Result(Block(body), old(parser.Now()), parser.Now(), nb, nc)
      decreases |tokens|, 0
    {
      hide StmtDone, Balanced, Supported, StmtTokens, ListTokens, EndsOpen, Result, Noted, ListSize, StmtSize,
        SingleDefaults;
      hide Parser.Explained, Parser.Total;
      ghost var p0, rest, k := parser.Now(), [RBrace] + after, 0;
      nb, nc := [], [];
      BlockTokens(body, after, rest);
      BlockSupported(body, inLoop, parser.deferred, parser.locals);
      BlockParts(body);
      NotedNone(breakStack);
      NotedNone(continueStack);
      EmptyResult(p0);
      RetireToken();
      var more := true;
      assert body[..0] == [];
      while more
        invariant k <= |body| && tokens == ListTokens(body[k..]) + rest && (!more ==> k == |body|)
        invariant parser.deferred == old(parser.deferred) && |tokens| < |old(tokens)|
          && (old(parser.Explained()) ==> parser.Explained())
        invariant parser.Total() <= old(parser.Total()) + ListSize(body[..k])
        invariant breakStack == Noted(old(breakStack), nb) && continueStack == Noted(old(continueStack), nc)
        invariant !inLoop ==> nb == [] && nc == []
        invariant Result(Block(body[..k]), p0, parser.Now(), nb, nc)
        decreases |body| - k, more
      {
        ListNext(body, k, rest, tokens);
        if k < |body| { ListSizeMore(body, k); }
        NotedSame(old(breakStack), nb);
        NotedSame(old(continueStack), nc);
        ghost var nb1, nc1;
        more, nb1, nc1 := NextStatement(body, k, inLoop, rest, p0, nb, nc, old(breakStack), old(continueStack));
        nb, nc, k := nb + nb1, nc + nc1, if more then k + 1 else k;
      }
      assert body[..k] == body;
      ListNext(body, k, rest, tokens);
      Expect(RBrace);
    }

    // One round of the loop over the statements of a block.
    method NextStatement(ghost body: seq<Stmt>, ghost k: nat, ghost inLoop: bool, ghost rest: seq<Token>,
        ghost p0: State, ghost nb: seq<int>, ghost nc: seq<int>, ghost breaks: seq<seq<int>>,
        ghost continues: seq<seq<int>>)
        returns (more: bool, ghost nb1: seq<int>, ghost nc1: seq<int>)
      requires k <= |body| && (k < |body| ==> Supported(body[k], inLoop, parser.deferred, parser.locals))
      requires tokens == ListTokens(body[k..]) + rest && rest != [] && rest[0] == RBrace
      requires Result(Block(body[..k]), p0, parser.Now(), nb, nc)
      requires inLoop ==> breakStack != [] && continueStack != []
      requires breakStack == Noted(breaks, nb) && continueStack == Noted(continues, nc)
      requires k < |body| && !parser.lenient ==> SingleDefaults(body[k])
      modifies this`tokens, this`breakStack, this`continueStack, parser
      ensures parser.Total() <= old(parser.Total()) + (if k < |body| then StmtSize(body[k]) else 0)
      ensures old(parser.Explained()) ==> parser.Explained()
      ensures more == (k < |body|) && tokens == (if more then ListTokens(body[k + 1..]) else []) + rest
        && parser.deferred == old(parser.deferred)
      ensures breakStack == Noted(breaks, nb + nb1) && continueStack == Noted(continues, nc + nc1)
      ensures !inLoop ==> nb1 == [] && nc1 == []
      ensures Result(Block(body[..if more then k + 1 else k]), p0, parser.Now(), nb + nb1, nc + nc1)
      decreases |tokens|, 3
    {
      hide StmtDone, Balanced, Supported, StmtTokens, ListTokens, EndsOpen, Parser.Explained, Parser.Total;
      ghost var p1 := parser.Now();
      ListNext(body, k, rest, tokens);
      if p1.nerrors == 0 { DoneBalanced(Block(body[..k]), p0, p1, nb, nc); }
      ghost var left := if k < |body| then ListTokens(body[k + 1..]) + rest else rest;
      more, nb1, nc1 := Statement(if k < |body| then Some(body[k]) else None, inLoop, left);
      NotedTwice(breaks, nb, nb1);
      NotedTwice(continues, nc, nc1);
      if k < |body| {
        BlockNext(body, k, p0, p1, parser.Now(), nb, nc, nb1, nc1);
      } else {
        assert nb + nb1 == nb && nc + nc1 == nc;
      }
    }

    // A condition in parentheses and the jump on it.
    method Test(ghost cond: Expr, ghost rest: seq<Token>) returns (m: int, ghost test: seq<Instr>, ghost r: int)
      requires Uses(cond) <= parser.locals && tokens == [LParen] + (ExprTokens(cond, 1) + ([RParen] + rest))
      requires parser.nerrors == 0 ==> Balanced(parser.Now())
      modifies this`tokens, parser
      ensures parser.Total() <= old(parser.Total()) + ExprSize(cond) + 1
      ensures old(parser.Explained()) ==> parser.Explained()
      ensures tokens == rest && parser.nerrors == old(parser.nerrors) && parser.deferred == old(parser.deferred)
      ensures parser.nerrors == 0 ==>
        m == |test| && TestReady(old(parser.Now()), test, r, parser.Now(), cond) && Balanced(parser.Now())
    {
      Expect(LParen);
      m, test, r := Condition(cond, [RParen] + rest);
      Expect(RParen);
    }

    // A condition in parentheses and the statement it guards.
    method GuardedStatement(ghost cond: Expr, ghost s: Stmt, ghost inLoop: bool, ghost rest: seq<Token>)
        returns (m: int, ghost test: seq<Instr>, ghost r: int, ghost p2: State, ghost nb: seq<int>, ghost nc: seq<int>)
      requires Supported(s, inLoop, parser.deferred, parser.locals) && !Constant(cond) && Uses(cond) <= parser.locals
      requires tokens == [LParen] + (ExprTokens(cond, 1) + ([RParen] + (StmtTokens(s) + rest)))
      requires EndsOpen(s) ==> First(rest) != KElse
      requires parser.nerrors == 0 ==> Balanced(parser.Now())
      requires inLoop ==> breakStack != [] && continueStack != []
      requires parser.lenient || SingleDefaults(s)
      modifies this`tokens, this`breakStack, this`continueStack, parser
      ensures parser.nerrors == 0 ==> SingleDefaults(s)
      ensures parser.Total() <= old(parser.Total()) + ExprSize(cond) + StmtSize(s) + 1
      ensures old(parser.Explained()) ==> parser.Explained()
      ensures tokens == rest && parser.deferred == old(parser.deferred)
      ensures breakStack == Noted(old(breakStack), nb) && continueStack == Noted(old(continueStack), nc)
      ensures !inLoop ==> nb == [] && nc == []
      ensures parser.nerrors == 0 ==>
        old(parser.nerrors) == 0 && m == |test| && LoopReady(old(parser.Now()), test, r, p2, parser.Now(), cond, s, nb,
        nc)
      decreases |tokens|, 0
    {
      hide Balanced, TestReady, LoopShape, Room, StmtDone, StmtTokens, Supported, Buf, Parser.Explained, Parser.Total;
      m, test, r := Test(cond, StmtTokens(s) + rest);
      p2 := parser.Now();
      var ok;
      ok, nb, nc := Statement(Some(s), inLoop, rest);
      if parser.nerrors == 0 { TestThenBody(old(parser.Now()), test, r, p2, parser.Now(), cond, s, nb, nc); }
    }

    method SelectionStatement(ghost s: Stmt, ghost inLoop: bool, ghost after: seq<Token>)
        returns (ghost nb: seq<int>, ghost nc: seq<int>)
      requires (s.If? || s.IfOnly?) && Supported(s, inLoop, parser.deferred, parser.locals)
        && tokens == StmtTokens(s) + after
      requires EndsOpen(s) ==> First(after) != KElse
      requires parser.nerrors == 0 ==> Balanced(parser.Now())
      requires inLoop ==> breakStack != [] && continueStack != []
      requires parser.lenient || SingleDefaults(s)
      modifies this`tokens, this`breakStack, this`continueStack, parser
      ensures parser.Total() <= old(parser.Total()) + StmtSize(s)
      ensures old(parser.Explained()) ==> parser.Explained()
      ensures tokens == after && parser.deferred == old(parser.deferred)
      ensures breakStack == Noted(old(breakStack), nb) && continueStack == Noted(old(continueStack), nc)
      ensures !inLoop ==> nb == [] && nc == []
      ensures Result(s, old(parser.Now()), parser.Now(), nb, nc)
      decreases |tokens|, 0
    {
      hide Balanced, LoopShape, Room, StmtDone, StmtTokens, Supported, EndsOpen, StmtSize, ExprSize, SingleDefaults,
        ExprTokens, Parser.Explained, Parser.Total;
      IfParts(s);
      ghost var p0 := parser.Now();
      ghost var rest := if s.If? then [KElse] + (StmtTokens(s.els) + after) else after;
      ghost var test, r, p2;
      var m;
      IfTokens(s, after, rest);
      IfSupported(s, inLoop, parser.deferred, parser.locals);
      RetireToken();
      m, test, r, p2, nb, nc := GuardedStatement(s.cond, s.thn, inLoop, rest);
      nb, nc := ElseOrEnd(m, s, inLoop, after, p0, test, r, p2, nb, nc, old(breakStack), old(continueStack));
    }

    // What follows the first branch of an if, whose condition jumps at m.
    method ElseOrEnd(m: int, ghost s: Stmt, ghost inLoop: bool, ghost after: seq<Token>, ghost p0: State,
        ghost test: seq<Instr>, ghost r: int, ghost p2: State, ghost nb1: seq<int>, ghost nc1: seq<int>,
        ghost breaks: seq<seq<int>>, ghost continues: seq<seq<int>>) returns (ghost nb: seq<int>, ghost nc: seq<int>)
      requires (s.If? || s.IfOnly?) && tokens == if s.If? then [KElse] + (StmtTokens(s.els) + after) else after
      requires s.If? ==>
        Supported(s.els, inLoop, parser.deferred, parser.locals) && (parser.lenient || SingleDefaults(s.els))
      requires EndsOpen(s) ==> First(after) != KElse
      requires EndsOpen(s) == if s.If? then EndsOpen(s.els) else true
      requires parser.nerrors == 0 ==>
        m == |test| && LoopReady(p0, test, r, p2, parser.Now(), s.cond, s.thn, nb1, nc1) && SingleDefaults(s.thn)
      requires inLoop ==> breakStack != [] && continueStack != []
      requires breakStack == Noted(breaks, nb1) && continueStack == Noted(continues, nc1)
        && (!inLoop ==> nb1 == [] && nc1 == [])
      modifies this`tokens, this`breakStack, this`continueStack, parser
      ensures parser.Total() <= old(parser.Total()) + if s.If? then StmtSize(s.els) + 1 else 0
      ensures old(parser.Explained()) ==> parser.Explained()
      ensures tokens == after && parser.deferred == old(parser.deferred)
      ensures breakStack == Noted(breaks, nb) && continueStack == Noted(continues, nc)
      ensures !inLoop ==> nb == [] && nc == []
      ensures parser.nerrors == 0 ==>
        old(parser.nerrors) == 0 && SingleDefaults(s) && StmtDone(s, p0, parser.Now(), nb, nc)
      decreases |tokens|, 2
    {
      hide Balanced, LoopShape, Room, StmtDone, StmtTokens, Supported, EndsOpen, StmtSize, SingleDefaults,
        Parser.Explained, Parser.Total;
      IfParts(s);
      nb, nc := nb1, nc1;
      var t := GetToken();
      if t.KElse? {
        nb, nc := ElseBranch(m, s.cond, s.thn, s.els, inLoop, after, p0, test, r, p2, nb1, nc1, breaks, continues);
      } else {
        EndIf(m, s.cond, s.thn, p0, test, r, p2, nb1, nc1);
      }
    }

    // The end of an if without an else; the jump at m leads there.
    method EndIf(m: int, ghost cond: Expr, ghost thn: Stmt,
        ghost p0: State, ghost test: seq<Instr>, ghost r: int, ghost p2: State, ghost nb: seq<int>, ghost nc: seq<int>)
      requires parser.nerrors == 0 ==> m == |test| && LoopReady(p0, test, r, p2, parser.Now(), cond, thn, nb, nc)
      modifies parser
      ensures parser.Total() <= old(parser.Total())
      ensures old(parser.Explained()) ==> parser.Explained()
      ensures parser.deferred == old(parser.deferred)
      ensures parser.nerrors == 0 ==> old(parser.nerrors) == 0 && StmtDone(IfOnly(cond, thn), p0, parser.Now(), nb, nc)
    {
      ghost var p3 := parser.Now();
      if p3.nerrors == 0 { ReadyJump(p0, test, r, p2, p3, cond, thn, nb, nc); }
      parser.MatchJump(m);
      if parser.nerrors == 0 { IfOnlyDone(p0, test, r, p2, p3, cond, thn, nb, nc); }
    }

    // The jump over the second statement, behind which the first jump, at m, now leads.
    method StartElse(m: int, ghost cond: Expr, ghost thn: Stmt, ghost p0: State, ghost test: seq<Instr>, ghost r: int,
        ghost p2: State, ghost nb: seq<int>, ghost nc: seq<int>) returns (j: int)
      requires parser.nerrors == 0 ==> m == |test| && LoopReady(p0, test, r, p2, parser.Now(), cond, thn, nb, nc)
      modifies parser
      ensures parser.Total() <= old(parser.Total()) + 1
      ensures old(parser.Explained()) ==> parser.Explained()
      ensures parser.deferred == old(parser.deferred)
      ensures parser.nerrors == 0 ==>
        old(parser.nerrors) == 0 && m >= 0 && j == |Buf(old(parser.Now()))|
        && Elsewhere(old(parser.Now()), parser.Now(), m) && Balanced(parser.Now())
    {
      hide LoopShape, Room, Balanced, GuardNeed, StmtNeed, Elsewhere, WithBuf, Resolve, Parser.Explained, Parser.Total;
      ghost var p3 := parser.Now();
      if parser.nerrors == 0 { ReadyJump(p0, test, r, p2, p3, cond, thn, nb, nc); }
      j := parser.AddMatchedJump(JMP);
      if parser.nerrors == 0 { ElseJump(p3, parser.Now(), m); }
      parser.MatchJump(m);
      if parser.nerrors == 0 { ElseBalanced(p0, test, r, p2, p3, parser.Now(), cond, thn, nb, nc); }
    }

    method ElseBranch(m: int, ghost cond: Expr, ghost thn: Stmt, ghost els: Stmt, ghost inLoop: bool,
        ghost after: seq<Token>, ghost p0: State, ghost test: seq<Instr>, ghost r: int, ghost p2: State,
        ghost nb1: seq<int>, ghost nc1: seq<int>, ghost breaks: seq<seq<int>>, ghost continues: seq<seq<int>>)
        returns (ghost nb: seq<int>, ghost nc: seq<int>)
      requires Supported(els, inLoop, parser.deferred, parser.locals) && tokens == [KElse] + (StmtTokens(els) + after)
      requires EndsOpen(els) ==> First(after) != KElse
      requires parser.nerrors == 0 ==> m == |test| && LoopReady(p0, test, r, p2, parser.Now(), cond, thn, nb1, nc1)
      requires inLoop ==> breakStack != [] && continueStack != []
      requires breakStack == Noted(breaks, nb1) && continueStack == Noted(continues, nc1)
        && (!inLoop ==> nb1 == [] && nc1 == [])
      requires parser.lenient || SingleDefaults(els)
      modifies this`tokens, this`breakStack, this`continueStack, parser
      ensures parser.nerrors == 0 ==> SingleDefaults(els)
      ensures parser.Total() <= old(parser.Total()) + StmtSize(els) + 1
      ensures old(parser.Explained()) ==> parser.Explained()
      ensures tokens == after && parser.deferred == old(parser.deferred)
      ensures breakStack == Noted(breaks, nb) && continueStack == Noted(continues, nc)
      ensures !inLoop ==> nb == [] && nc == []
      ensures parser.nerrors == 0 ==> old(parser.nerrors) == 0 && StmtDone(If(cond, thn, els), p0, parser.Now(), nb, nc)
      decreases |tokens|, 0
    {
      hide StmtDone, LoopShape, Room, Balanced, Supported, StmtTokens, Elsewhere, SingleDefaults, StmtSize, Noted,
        Result, Resolve, WithBuf, ListTokens, EndsOpen, Buf;
      hide Parser.Explained, Parser.Total;
      NotedSame(breaks, nb1);
      NotedSame(continues, nc1);
      ghost var p3 := parser.Now();
      RetireToken();
      assert tokens == StmtTokens(els) + after;
      var j := StartElse(m, cond, thn, p0, test, r, p2, nb1, nc1);
      ghost var p4 := parser.Now();
      var ok;
      ghost var nb2, nc2;
      ok, nb2, nc2 := Statement(Some(els), inLoop, after);
      NotedTwice(breaks, nb1, nb2);
      NotedTwice(continues, nc1, nc2);
      nb, nc := nb1 + nb2, nc1 + nc2;
      ghost var p5 := parser.Now();
      ResultDone(els, p4, p5, nb2, nc2);
      FinishElse(j, m, cond, thn, els, p0, test, r, p2, p3, p4, nb1, nc1, nb2, nc2);
    }

    // Aims the jump behind the first statement, at j, past the second one.
    method FinishElse(j: int, ghost m: int, ghost cond: Expr, ghost thn: Stmt, ghost els: Stmt, ghost p0: State,
        ghost test: seq<Instr>, ghost r: int, ghost p2: State, ghost p3: State, ghost p4: State, ghost nb1: seq<int>,
        ghost nc1: seq<int>, ghost nb2: seq<int>, ghost nc2: seq<int>)
      requires parser.nerrors == 0 ==>
        m == |test| && LoopReady(p0, test, r, p2, p3, cond, thn, nb1, nc1) && Elsewhere(p3, p4, m)
        && StmtDone(els, p4, parser.Now(), nb2, nc2) && j == |Buf(p3)|
      modifies parser
      ensures parser.Total() <= old(parser.Total())
      ensures old(parser.Explained()) ==> parser.Explained()
      ensures parser.deferred == old(parser.deferred)
      ensures parser.nerrors == 0 ==>
        old(parser.nerrors) == 0 && StmtDone(If(cond, thn, els), p0, parser.Now(), nb1 + nb2, nc1 + nc2)
    {
      hide StmtDone, LoopShape, Room, Balanced, Elsewhere, Parser.Explained, Parser.Total;
      ghost var p5 := parser.Now();
      if parser.nerrors == 0 {
        ReadyJump(p0, test, r, p2, p3, cond, thn, nb1, nc1);
        JumpInElse(p3, p4, p5, m, els, nb2, nc2);
      }
      parser.MatchJump(j);
      if parser.nerrors == 0 { IfDone(p0, test, r, p2, p3, p4, p5, cond, thn, els, nb1, nc1, nb2, nc2); }
    }

    // Aims the jump at m and the breaks once the jump back to start has been added.
    method FinishLoop(start: int, m: int, ghost p3: State, ghost step: seq<Instr>, ghost nb: seq<int>,
        ghost nc: seq<int>, ghost breaks: seq<seq<int>>, ghost continues: seq<seq<int>>)
      requires breakStack == breaks + [nb] && continueStack == continues + [nc]
      requires parser.nerrors == 0 ==> LoopEnds(p3, parser.Now(), m, step, nb, nc)
      modifies this`breakStack, this`continueStack, parser
      ensures parser.Total() <= old(parser.Total()) + 1
      ensures old(parser.Explained()) ==> parser.Explained()
      ensures parser.deferred == old(parser.deferred)
      ensures breakStack == breaks && continueStack == continues
      ensures parser.nerrors == 0 ==> old(parser.nerrors) == 0 && LoopFinished(p3, parser.Now(), start, m, step, nb, nc)
    {
      hide LoopEnds, Field17, LoopBuf, Buf, WithBuf, Resolve, JumpsAt, Parser.Explained, Parser.Total;
      ghost var p, back := parser.Now(), Jump(JMP, 0, Field17(start - |Buf(p3)| - |step|));
      if p.nerrors == 0 { LoopSteps(p3, p, m, step, back, nb, nc); }
      BackJump(start, m);
      EndLoop(nb, nc, breaks, continues);
    }

    // The jump back to start; the jump at m leads behind it.
    method BackJump(start: int, m: int)
      requires parser.nerrors == 0 ==> 0 <= m < |Buf(parser.Now())| && Buf(parser.Now())[m].Jump?
      modifies parser
      ensures parser.Total() <= old(parser.Total()) + 1
      ensures old(parser.Explained()) ==> parser.Explained()
      ensures parser.deferred == old(parser.deferred)
      ensures parser.nerrors == 0 ==>
        var p := old(parser.Now());
        var b := Buf(p) + [Jump(JMP, 0, Field17(start - |Buf(p)|))];
        old(parser.nerrors) == 0 && parser.Now() == WithBuf(p, Resolve(b, [m], |b|))
    {
      hide Field17, Resolve, Parser.Explained, Parser.Total;
      ghost var p := parser.Now();
      parser.JumpToLabel(JMP, start);
      if p.nerrors == 0 { assert Buf(parser.Now())[m] == Buf(p)[m]; }
      parser.MatchJump(m);
    }

    // Aims the breaks of a loop.
    method EndLoop(ghost nb: seq<int>, ghost nc: seq<int>, ghost breaks: seq<seq<int>>, ghost continues: seq<seq<int>>)
      requires breakStack == breaks + [nb] && continueStack == continues + [nc]
      requires parser.nerrors == 0 ==> JumpsAt(Buf(parser.Now()), nb)
      modifies this`breakStack, this`continueStack, parser
      ensures parser.Total() <= old(parser.Total())
      ensures old(parser.Explained()) ==> parser.Explained()
      ensures parser.deferred == old(parser.deferred)
      ensures breakStack == breaks && continueStack == continues
      ensures parser.nerrors == 0 ==>
        && old(parser.nerrors) == 0
        && parser.Now() == WithBuf(old(parser.Now()), Resolve(Buf(old(parser.Now())), nb, |Buf(old(parser.Now()))|))
    {
      MatchJumps(breakStack[|breakStack| - 1]);
      breakStack := breakStack[..|breakStack| - 1];
      continueStack := continueStack[..|continueStack| - 1];
    }

    method BeginLoop()
      modifies this`breakStack, this`continueStack
      ensures breakStack == old(breakStack) + [[]] && continueStack == old(continueStack) + [[]]
    {
      breakStack := breakStack + [[]];
      continueStack := continueStack + [[]];
    }

    method WhileStatement(ghost cond: Expr, ghost loop: Stmt, ghost after: seq<Token>)
      requires Supported(While(cond, loop), false, parser.deferred, parser.locals)
        && tokens == StmtTokens(While(cond, loop)) + after
      requires EndsOpen(loop) ==> First(after) != KElse
      requires parser.nerrors == 0 ==> Balanced(parser.Now())
      requires parser.lenient || SingleDefaults(loop)
      modifies this`tokens, this`breakStack, this`continueStack, parser
      ensures parser.Total() <= old(parser.Total()) + StmtSize(While(cond, loop))
      ensures old(parser.Explained()) ==> parser.Explained()
      ensures tokens == after && parser.deferred == old(parser.deferred)
      ensures breakStack == old(breakStack) && continueStack == old(continueStack)
      ensures Result(While(cond, loop), old(parser.Now()), parser.Now(), [], [])
      decreases |tokens|, 0
    {
      ghost var p0 := parser.Now();
      WhileTokens(cond, loop, after);
      RetireToken();
      hide Balanced, LoopShape, Room, StmtDone, StmtTokens, LoopEnds, LoopFinished, Supported, EndsOpen,
        Parser.Explained, Parser.Total;
      BeginLoop();
      var start := parser.Size();
      var m;
      ghost var test, r, p2, p3, nb, nc;
      m, test, r, p2, p3, nb, nc := GuardedLoop(cond, loop, after, old(breakStack), old(continueStack));
      FinishLoop(start, m, p3, [], nb, nc, old(breakStack), old(continueStack));
      if parser.nerrors == 0 {
        WhileIsDone(p0, test, r, p2, p3, parser.Now(), cond, loop, nb, nc);
      }
    }

    // The condition and the body of a loop; its continues lead to the end of the body.
    method GuardedLoop(ghost cond: Expr, ghost loop: Stmt, ghost rest: seq<Token>, ghost breaks: seq<seq<int>>,
        ghost continues: seq<seq<int>>)
        returns (m: int, ghost test: seq<Instr>, ghost r: int, ghost p2: State, ghost p3: State, ghost nb: seq<int>,
          ghost nc: seq<int>)
      requires Supported(loop, true, parser.deferred, parser.locals) && !Constant(cond) && Uses(cond) <= parser.locals
      requires tokens == [LParen] + (ExprTokens(cond, 1) + ([RParen] + (StmtTokens(loop) + rest)))
      requires EndsOpen(loop) ==> First(rest) != KElse
      requires parser.nerrors == 0 ==> Balanced(parser.Now())
      requires breakStack == breaks + [[]] && continueStack == continues + [[]]
      requires parser.lenient || SingleDefaults(loop)
      modifies this`tokens, this`breakStack, this`continueStack, parser
      ensures parser.nerrors == 0 ==> SingleDefaults(loop)
      ensures parser.Total() <= old(parser.Total()) + ExprSize(cond) + StmtSize(loop) + 1
      ensures old(parser.Explained()) ==> parser.Explained()
      ensures tokens == rest && parser.deferred == old(parser.deferred)
      ensures breakStack == breaks + [nb] && continueStack == continues + [nc]
      ensures parser.nerrors == 0 ==>
        && old(parser.nerrors) == 0 && m == |test|
        && LoopReady(old(parser.Now()), test, r, p2, p3, cond, loop, nb, nc)
           && LoopEnds(p3, parser.Now(), m, [], nb, nc)
      decreases |tokens|, 2
    {
      hide Balanced, LoopShape, Room, StmtDone, StmtTokens, LoopEnds, Supported, Parser.Explained, Parser.Total;
      ghost var p0 := parser.Now();
      m, test, r, p2, nb, nc := GuardedStatement(cond, loop, true, rest);
      NotedOn(breaks, nb);
      NotedOn(continues, nc);
      p3 := parser.Now();
      if p3.nerrors == 0 { ReadyJumps(p0, test, r, p2, p3, cond, loop, nb, nc); }
      MatchJumps(continueStack[|continueStack| - 1]);
      if parser.nerrors == 0 { ReadyEnds(p0, test, r, p2, p3, cond, loop, nb, nc, []); }
    }

    method DoStatement(ghost loop: Stmt, ghost cond: Expr, ghost after: seq<Token>)
      requires Supported(loop, true, parser.deferred, parser.locals) && Uses(cond) <= parser.locals
        && tokens == StmtTokens(DoWhile(loop, cond)) + after
      requires parser.nerrors == 0 ==> Balanced(parser.Now())
      requires parser.lenient || SingleDefaults(loop)
      modifies this`tokens, this`breakStack, this`continueStack, parser
      ensures parser.Total() <= old(parser.Total()) + StmtSize(DoWhile(loop, cond))
      ensures old(parser.Explained()) ==> parser.Explained()
      ensures tokens == after && parser.deferred == old(parser.deferred)
      ensures breakStack == old(breakStack) && continueStack == old(continueStack)
      ensures Result(DoWhile(loop, cond), old(parser.Now()), parser.Now(), [], [])
      decreases |tokens|, 0
    {
      hide Balanced, ExprDone, StmtDone, RepeatReady, StmtTokens, ExprTokens, Supported, SingleDefaults, StmtSize,
        ExprSize;
      hide Field17, WithBuf, Resolve, Tested, JumpsAt, Parser.Explained, Parser.Total;
      DoParts(loop, cond);
      ghost var p0, rest := parser.Now(), [KWhile, LParen] + (ExprTokens(cond, 1) + ([RParen, Semicolon] + after));
      DoTokens(loop, cond, after, rest);
      RetireToken();
      BeginLoop();
      var start := parser.Size();
      ghost var p1, nb, nc := RepeatedStatement(loop, rest, old(breakStack), old(continueStack));
      ghost var p2 := parser.Now();
      ghost var p3 := RepeatTest(start, cond, after);
      ghost var p4 := parser.Now();
      ghost var seg, r := [], 0;
      if p4.nerrors == 0 { seg, r := RepeatIsReady(p0, p1, p2, p3, p4, loop, cond, nb, nc); }
      EndLoop(nb, nc, old(breakStack), old(continueStack));
      if parser.nerrors == 0 { RepeatDone(p0, p1, p4, loop, cond, seg, r, nb, nc); }
    }

    // The body of a do-while loop; its continues lead to its end.
    method RepeatedStatement(ghost loop: Stmt, ghost rest: seq<Token>, ghost breaks: seq<seq<int>>,
        ghost continues: seq<seq<int>>)
        returns (ghost p1: State, ghost nb: seq<int>, ghost nc: seq<int>)
      requires Supported(loop, true, parser.deferred, parser.locals) && tokens == StmtTokens(loop) + rest
        && First(rest) != KElse
      requires parser.nerrors == 0 ==> Balanced(parser.Now())
      requires breakStack == breaks + [[]] && continueStack == continues + [[]]
      requires parser.lenient || SingleDefaults(loop)
      modifies this`tokens, this`breakStack, this`continueStack, parser
      ensures parser.nerrors == 0 ==> SingleDefaults(loop)
      ensures parser.Total() <= old(parser.Total()) + StmtSize(loop)
      ensures old(parser.Explained()) ==> parser.Explained()
      ensures tokens == rest && parser.deferred == old(parser.deferred)
      ensures breakStack == breaks + [nb] && continueStack == continues + [nc]
      ensures parser.nerrors == 0 ==>
        && old(parser.nerrors) == 0 && StmtDone(loop, old(parser.Now()), p1, nb, nc) && Balanced(parser.Now())
        && parser.Now() == WithBuf(p1, Resolve(Buf(p1), nc, |Buf(p1)|))
      decreases |tokens|, 3
    {
      hide Balanced, StmtDone, Supported, StmtTokens, Parser.Explained, Parser.Total;
      ghost var p0 := parser.Now();
      var ok;
      ok, nb, nc := Statement(Some(loop), true, rest);
      NotedOn(breaks, nb);
      NotedOn(continues, nc);
      p1 := parser.Now();
      if p1.nerrors == 0 { DoneJumps(p0, p1, loop, nb, nc); }
      MatchJumps(continueStack[|continueStack| - 1]);
    }

    // The condition of a do-while loop and its jump back to start.
    method RepeatTest(start: int, ghost cond: Expr, ghost after: seq<Token>) returns (ghost p3: State)
      requires Uses(cond) <= parser.locals && tokens ==
        [KWhile, LParen] + (ExprTokens(cond, 1) + ([RParen, Semicolon] + after))
      requires parser.nerrors == 0 ==> Balanced(parser.Now())
      modifies this`tokens, parser
      ensures parser.Total() <= old(parser.Total()) + ExprSize(cond) + 1
      ensures old(parser.Explained()) ==> parser.Explained()
      ensures tokens == after && parser.nerrors == old(parser.nerrors) && parser.deferred == old(parser.deferred)
      ensures parser.nerrors == 0 ==>
        && ExprDone(old(parser.Now()), p3, cond)
        && parser.Now() == Tested(p3, JT, Field17(start - |Buf(p3)|))
      decreases |tokens|, 3
    {
      hide Balanced, ExprDone, Field17, Parser.Explained, Parser.Total;
      RepeatCondition(cond, after);
      p3 := parser.Now();
      if p3.nerrors == 0 { DoneStack(old(parser.Now()), p3, cond); }
      parser.JumpToLabel(JT, start);
      Expect(RParen);
      Expect(Semicolon);
    }

    method RepeatCondition(ghost cond: Expr, ghost after: seq<Token>)
      requires Uses(cond) <= parser.locals && tokens ==
        [KWhile, LParen] + (ExprTokens(cond, 1) + ([RParen, Semicolon] + after))
      requires parser.nerrors == 0 ==> Balanced(parser.Now())
      modifies this`tokens, parser
      ensures parser.Total() <= old(parser.Total()) + ExprSize(cond)
      ensures old(parser.Explained()) ==> parser.Explained()
      ensures tokens == [RParen, Semicolon] + after && parser.nerrors == old(parser.nerrors)
        && parser.deferred == old(parser.deferred)
      ensures parser.nerrors == 0 ==> ExprDone(old(parser.Now()), parser.Now(), cond)
      decreases |tokens|, 3
    {
      hide Balanced, ExprDone, Parser.Explained, Parser.Total;
      Expect(KWhile);
      Expect(LParen);
      Expression(1, Eval(cond), [RParen, Semicolon] + after);
    }

    method ForStatement(ghost init: Simple, ghost cond: Expr, ghost iter: Simple, ghost loop: Stmt,
        ghost after: seq<Token>)
      requires Supported(For(init, cond, iter, loop), false, parser.deferred, parser.locals)
        && tokens == StmtTokens(For(init, cond, iter, loop)) + after
      requires EndsOpen(loop) ==> First(after) != KElse
      requires parser.nerrors == 0 ==> Balanced(parser.Now())
      requires parser.lenient || SingleDefaults(loop)
      modifies this`tokens, this`breakStack, this`continueStack, parser
      ensures parser.Total() <= old(parser.Total()) + StmtSize(For(init, cond, iter, loop))
      ensures old(parser.Explained()) ==> parser.Explained()
      ensures tokens == after && parser.deferred == old(parser.deferred)
      ensures breakStack == old(breakStack) && continueStack == old(continueStack)
      ensures Result(For(init, cond, iter, loop), old(parser.Now()), parser.Now(), [], [])
      decreases |tokens|, 0
    {
      ghost var p0, rest := parser.Now(), ForRest(cond, iter, loop, after);
      ForTokens(init, cond, iter, loop, after);
      hide Balanced, SimpleDone, LoopShape, Room, StmtDone, StmtTokens, Supported, ForRest, LoopFinished,
        Parser.Explained, Parser.Total;
      RetireToken();
      BeginLoop();
      Expect(LParen);
      SimpleExpression(init, rest);
      ghost var p1 := parser.Now();
      if p1.nerrors == 0 { SimpleBalanced(p0, p1, init); }
      ghost var test, r, p2, p3, step, nb, nc := ForLoopCondAndIt(cond, iter, loop, after, old(breakStack),
        old(continueStack));
      if parser.nerrors == 0 { ForIsDone(p0, p1, test, r, p2, p3, parser.Now(), init, cond, iter, loop, step, nb, nc); }
    }

    // The rest of a for loop from the first semicolon on.
    method ForLoopCondAndIt(ghost cond: Expr, ghost iter: Simple, ghost loop: Stmt, ghost after: seq<Token>,
        ghost breaks: seq<seq<int>>, ghost continues: seq<seq<int>>)
        returns (ghost test: seq<Instr>, ghost r: int, ghost p2: State, ghost p3: State, ghost step: seq<Instr>,
          ghost nb: seq<int>, ghost nc: seq<int>)
      requires !parser.deferred && !Constant(cond) && Uses(cond) <= parser.locals && Legal(iter)
        && SimpleUses(iter) <= parser.locals
      requires Supported(loop, true, false, parser.locals) && tokens == ForRest(cond, iter, loop, after)
      requires EndsOpen(loop) ==> First(after) != KElse
      requires parser.nerrors == 0 ==> Balanced(parser.Now())
      requires breakStack == breaks + [[]] && continueStack == continues + [[]]
      requires parser.lenient || SingleDefaults(loop)
      modifies this`tokens, this`breakStack, this`continueStack, parser
      ensures parser.nerrors == 0 ==> SingleDefaults(loop)
      ensures parser.Total() <= old(parser.Total()) + ExprSize(cond) + SimpleSize(iter) + StmtSize(loop) + 2
      ensures old(parser.Explained()) ==> parser.Explained()
      ensures tokens == after && !parser.deferred
      ensures breakStack == breaks && continueStack == continues
      ensures parser.nerrors == 0 ==>
        && old(parser.nerrors) == 0 && RoundReady(old(parser.Now()), test, r, p2, p3, cond, iter, loop, nb, nc)
        && Carries(iter, step, p3.minReg, p3.constants) && NoEnds(step, 0) && CodeIn(step, p3.locals, p3.minReg)
        && LoopFinished(p3, parser.Now(), |Buf(old(parser.Now()))|, |test|, step, nb, nc)
      decreases |tokens|, 0
    {
      hide Balanced, LoopShape, Room, StmtDone, TestReady, StmtTokens, Supported, LoopFinished, SetAside, LoopEnds,
        NoEnds, Carries, CodeIn, Parser.Explained, Parser.Total;
      ghost var p1, rest := parser.Now(), StmtTokens(loop) + after;
      Expect(Semicolon);
      var start := parser.Size();
      var m;
      m, test, r := Condition(cond, [Semicolon] + (SimpleTokens(iter, 1) + ([RParen] + rest)));
      p2 := parser.Now();
      if p2.nerrors == 0 { TestBalanced(p1, test, r, p2, cond); }
      step := Iterator(iter, [RParen] + rest);
      Expect(RParen);
      p3, nb, nc := ForBody(m, p1, test, r, p2, cond, iter, loop, step, after, breaks, continues);
      FinishLoop(start, m, p3, step, nb, nc, breaks, continues);
    }

    // The iterator of a for loop, whose code is set aside.
    method Iterator(ghost iter: Simple, ghost rest: seq<Token>) returns (ghost step: seq<Instr>)
      requires !parser.deferred && Legal(iter) && SimpleUses(iter) <= parser.locals
        && tokens == [Semicolon] + (SimpleTokens(iter, 1) + rest) && Stops(rest, 1)
      requires parser.nerrors == 0 ==> Balanced(parser.Now())
      modifies this`tokens, parser
      ensures parser.Total() <= old(parser.Total()) + SimpleSize(iter)
      ensures old(parser.Explained()) ==> parser.Explained()
      ensures tokens == rest && !parser.deferred && parser.nerrors == old(parser.nerrors)
      ensures parser.nerrors == 0 ==> SetAside(old(parser.Now()), parser.Now(), iter, step)
    {
      hide SimpleDone, SetAside, Parser.Explained, Parser.Total;
      ghost var p2 := parser.Now();
      var start := parser.StartDeferred();
      if p2.nerrors == 0 { DeferredBalanced(p2, parser.Now()); }
      Expect(Semicolon);
      SimpleExpression(iter, rest);
      ghost var p5 := parser.Now();
      parser.Pop();
      parser.EndDeferred();
      if p5.nerrors == 0 { step := IterSetAside(p2, p5, parser.Now(), iter); } else { step := []; }
    }

    // The body of a for loop; its continues lead to its end, where the iterator follows.
    method ForBody(m: int, ghost p1: State, ghost test: seq<Instr>, ghost r: int, ghost p2: State, ghost cond: Expr,
        ghost iter: Simple, ghost loop: Stmt, ghost step: seq<Instr>, ghost after: seq<Token>,
        ghost breaks: seq<seq<int>>, ghost continues: seq<seq<int>>)
        returns (ghost p3: State, ghost nb: seq<int>, ghost nc: seq<int>)
      requires !parser.deferred && !Constant(cond) && Supported(loop, true, false, parser.locals)
        && tokens == StmtTokens(loop) + after
      requires EndsOpen(loop) ==> First(after) != KElse
      requires parser.nerrors == 0 ==>
        m == |test| && TestReady(p1, test, r, p2, cond) && SetAside(p2, parser.Now(), iter, step)
      requires breakStack == breaks + [[]] && continueStack == continues + [[]]
      requires parser.lenient || SingleDefaults(loop)
      modifies this`tokens, this`breakStack, this`continueStack, parser
      ensures parser.nerrors == 0 ==> SingleDefaults(loop)
      ensures parser.Total() <= old(parser.Total()) + StmtSize(loop)
      ensures old(parser.Explained()) ==> parser.Explained()
      ensures tokens == after && !parser.deferred
      ensures breakStack == breaks + [nb] && continueStack == continues + [nc]
      ensures parser.nerrors == 0 ==>
        && old(parser.nerrors) == 0 && RoundReady(p1, test, r, p2, p3, cond, iter, loop, nb, nc)
        && Carries(iter, step, p3.minReg, p3.constants) && NoEnds(step, 0) && CodeIn(step, p3.locals, p3.minReg)
           && LoopEnds(p3, parser.Now(), m, step, nb, nc)
      decreases |tokens|, 3
    {
      hide TestReady, SetAside, StmtDone, RoundReady, LoopEnds, Carries, NoEnds, CodeIn, Balanced, Supported,
        StmtTokens, Resolve, EndsOpen, StmtSize, SingleDefaults, Noted, Parser.Explained, Parser.Total;
      ghost var p6 := parser.Now();
      if p6.nerrors == 0 { AsideBalanced(p2, p6, iter, step); }
      var ok;
      ok, nb, nc := Statement(Some(loop), true, after);
      NotedOn(breaks, nb);
      NotedOn(continues, nc);
      ghost var p7 := parser.Now();
      if p7.nerrors == 0 {
        DoneJumps(p6, p7, loop, nb, nc);
        AsideBlocks(p2, p6, p7, iter, step, loop, nb, nc);
      }
      MatchJumps(continueStack[|continueStack| - 1]);
      var at := parser.EmitDeferred();
      p3 := Resumed(p2, p7);
      if parser.nerrors == 0 {
        AsideDone(p1, test, r, p2, p6, p7, parser.Now(), step, cond, iter, loop, nb, nc);
      }
    }

    // The test of a case, and the jump to its statement.
    method CaseTest(ghost test: Expr, ghost rest: seq<Token>, ghost rs: int, ghost selector: Expr)
        returns (to: int, ghost x: Place)
      requires !parser.deferred && Uses(test) <= parser.locals && tokens == ExprTokens(test, 1) + ([Colon] + rest)
      requires parser.nerrors == 0 ==> Selecting(parser.Now(), rs, selector)
      modifies this`tokens, parser
      ensures parser.Total() <= old(parser.Total()) + ExprSize(test) + 2
      ensures old(parser.Explained()) ==> parser.Explained()
      ensures tokens == rest && parser.nerrors == old(parser.nerrors) && !parser.deferred
      ensures parser.nerrors == 0 ==>
        var q, q' := old(parser.Now()), parser.Now();
        && Steady(q, q') && Room(q, q', TestNeed(test)) && q'.deferredCode == q.deferredCode && x.t == |q.code|
           && x.d == |q.deferredCode| && to == |q'.code| - 1
        && TestBuilt(test, x, |q'.code|, q'.code, rs, Uses(selector), q'.minReg, q'.constants)
      decreases |tokens|, 3
    {
      hide ExprDone, Steady, Room, TestBuilt, Parser.Explained, Parser.Total;
      ghost var q := parser.Now();
      Expression(1, Eval(test), [Colon] + rest);
      ghost var q1 := parser.Now();
      ghost var base, left, right := [], LocalEntry(0), LocalEntry(0);
      if q.nerrors == 0 {
        CaseOperands(q, q1, test, rs, selector);
        base, left, right := q.stack[..|q.stack| - 1], q.stack[|q.stack| - 1], q1.stack[|q.stack|];
      }
      parser.EmitCaseTest(base, left, right);
      Expect(Colon);
      to := parser.AddMatchedJump(JT);
      if q.nerrors == 0 { x := CaseSteady(q, q1, parser.Now(), test, rs, selector); } else { x := Place(0, [], 0, 0); }
    }

    // The statement of a clause, which goes to the deferred block, and the jump past the switch.
    method ClauseBody(isDefault: bool, ghost c: Clause, ghost x: Place, ghost rest: seq<Token>)
        returns (addr: int, from: int)
      requires isDefault == c.Default? && !parser.deferred && tokens == BodyTokens(c.body) + rest
      requires c.body.Some? ==> Supported(c.body.value, false, true, parser.locals)
      requires First(rest) == RBrace || First(rest) == KCase || First(rest) == KDefault
      requires parser.nerrors == 0 ==> Balanced(parser.Now()) && x.d == |parser.deferredCode|
      requires c.body.Some? && !parser.lenient ==> SingleDefaults(c.body.value)
      modifies this`tokens, this`breakStack, this`continueStack, parser
      ensures parser.nerrors == 0 ==> (c.body.Some? ==> SingleDefaults(c.body.value))
      ensures parser.Total() <= old(parser.Total()) + BodySize(c)
      ensures old(parser.Explained()) ==> parser.Explained()
      ensures tokens == rest && !parser.deferred && breakStack == old(breakStack) && continueStack == old(continueStack)
      ensures parser.nerrors == 0 ==>
        var q, q' := old(parser.Now()), parser.Now();
        && old(parser.nerrors) == 0 && Steady(q, q') && Room(q, q', BodyNeed(c)) && q'.code == q.code
           && addr == |q.deferredCode|
        && BodyBuilt(c, x, |q'.deferredCode|, q'.deferredCode, q'.minReg, q'.constants)
        && from == if c.body.Some? || c.Default? then |q'.deferredCode| - 1 else -1
      decreases |tokens|, 3
    {
      hide StmtDone, Balanced, Steady, Room, BodyBuilt, Supported, StmtTokens, Parser.Explained, Parser.Total;
      ghost var q := parser.Now();
      addr := parser.ResumeDeferred();
      ghost var q1 := parser.Now();
      if q.nerrors == 0 { DeferringBalanced(q, q1); }
      var ok;
      ghost var nb, nc;
      ok, nb, nc := Statement(c.body, false, rest);
      ghost var q2 := parser.Now();
      from := -1;
      if ok || isDefault {
        from := parser.AddMatchedJump(JMP);
      }
      parser.EndDeferred();
      if parser.nerrors == 0 { BodySteady(q, q1, q2, parser.Now(), c, x); }
    }

    // A clause after its case or default.
    method OneClause(isDefault: bool, ghost c: Clause, ghost rest: seq<Token>, ghost p0: State, ghost selector: Expr,
        ghost rs: int, ghost t0: nat, ghost clauses: seq<Clause>, ghost xs: seq<Place>)
        returns (entry: CaseEntry, ghost x: Place)
      requires isDefault == c.Default? && !parser.deferred
      requires tokens == (if c.Case? then ExprTokens(c.test, 1) + ([Colon] + (BodyTokens(c.body) + rest))
        else [Colon] + (BodyTokens(c.body) + rest))
      requires (c.body.Some? ==> Supported(c.body.value, false, true, parser.locals))
        && (c.Case? ==> Uses(c.test) <= parser.locals)
      requires First(rest) == RBrace || First(rest) == KCase || First(rest) == KDefault
      requires parser.nerrors == 0 ==> Underway(p0, parser.Now(), selector, rs, t0, clauses, xs)
      requires c.body.Some? && !parser.lenient ==> SingleDefaults(c.body.value)
      modifies this`tokens, this`breakStack, this`continueStack, parser
      ensures parser.nerrors == 0 ==> (c.body.Some? ==> SingleDefaults(c.body.value))
      ensures parser.Total() <= old(parser.Total()) + ClauseSize(c)
      ensures old(parser.Explained()) ==> parser.Explained()
      ensures tokens == rest && !parser.deferred && breakStack == old(breakStack) && continueStack == old(continueStack)
      ensures parser.nerrors == 0 ==>
        && old(parser.nerrors) == 0 && x.t == |old(parser.code)| && x.d == |old(parser.deferredCode)|
        && Underway(p0, parser.Now(), selector, rs, t0, clauses + [c], xs + [x])
        && entry == EntryAt(clauses + [c], xs + [x], |clauses|, |parser.code|, |parser.deferredCode|)
      decreases |tokens|, 5
    {
      hide Underway, Steady, Room, TestBuilt, BodyBuilt, Supported, Balanced, Selecting, Parser.Explained, Parser.Total;
      ghost var q := parser.Now();
      if q.nerrors == 0 { UnderwaySelecting(p0, q, selector, rs, t0, clauses, xs); }
      var to := -1;
      if isDefault {
        Expect(Colon);
        x := Place(|parser.code|, [], 0, |parser.deferredCode|);
      } else {
        to, x := CaseTest(c.test, BodyTokens(c.body) + rest, rs, selector);
      }
      ghost var q1 := parser.Now();
      if q1.nerrors == 0 && !isDefault { SteadyBalanced(q, q1); }
      var addr, from := ClauseBody(isDefault, c, x, rest);
      entry := CaseEntry(to, from, addr);
      if parser.nerrors == 0 { ClauseDone(p0, q, q1, parser.Now(), selector, rs, t0, clauses, xs, c, x, entry); }
    }

    // Aims the jumps of one clause: the one to its statement, and the one past the switch.
    method AimClause(en: CaseEntry, shift: int, after: int, ghost q: State, ghost b0: seq<Instr>,
        ghost es: seq<CaseEntry>, ghost done: seq<nat>, ghost i: nat)
      requires parser.nerrors == 0 ==>
        && !q.deferred && parser.Now() == q.(code := parser.code) && i < |es| && es[i] == en && i !in done
        && Patched(b0, parser.code, es, done, shift, after) && Apart(es, shift) && EntryFits(b0, en, shift)
           && EntryJumps(b0, en, shift)
        && 0 <= after <= |b0|
      modifies parser
      ensures parser.Total() <= old(parser.Total())
      ensures old(parser.Explained()) ==> parser.Explained()
      ensures parser.deferred == old(parser.deferred)
      ensures parser.nerrors == 0 ==>
        && old(parser.nerrors) == 0 && parser.Now() == q.(code := parser.code)
        && Patched(b0, parser.code, es, done + [i], shift, after)
    {
      hide Patched, Apart, Resolve;
      ghost var b := parser.code;
      if parser.nerrors == 0 { PatchReady(b0, b, es, done, shift, after, i); }
      if en.to >= 0 {
        parser.MatchJumpTo(en.to, en.addr + shift);
      }
      if en.from >= 0 {
        parser.MatchJumpTo(en.from + shift, after);
      }
      if parser.nerrors == 0 {
        PatchedMore(b0, b, es, done, shift, after, i);
        assert parser.code == PatchEntry(b, en, shift, after);
      }
    }

    method SwitchStatement(ghost selector: Expr, ghost clauses: seq<Clause>, ghost after: seq<Token>)
      requires Supported(Switch(selector, clauses), false, parser.deferred, parser.locals)
        && tokens == StmtTokens(Switch(selector, clauses)) + after
      requires parser.nerrors == 0 ==> Balanced(parser.Now())
      requires parser.lenient || SingleDefaults(Switch(selector, clauses))
      modifies this`tokens, this`breakStack, this`continueStack, parser
      ensures parser.Total() <= old(parser.Total()) + StmtSize(Switch(selector, clauses))
      ensures old(parser.Explained()) ==> parser.Explained()
      ensures tokens == after && parser.deferred == old(parser.deferred)
      ensures breakStack == old(breakStack) && continueStack == old(continueStack)
      ensures Result(Switch(selector, clauses), old(parser.Now()), parser.Now(), [], [])
      decreases |tokens|, 0
    {
      ghost var p0, rest := parser.Now(), [RBrace] + after;
      assert p0.deferredCode == parser.deferredCode && p0.nerrors == parser.nerrors;
      hide *;
      SwitchTokens(selector, clauses, after, rest);
      SwitchParts(selector, clauses);
      SwitchSupported(selector, clauses, parser.deferred, parser.locals);
      RetireToken();
      var deferredStart;
      ghost var rs, t0;
      deferredStart, rs, t0 := Selector(selector, ClauseTokens(clauses) + rest);
      SwitchBody(deferredStart, p0, selector, rs, t0, clauses, after);
    }

    // The clauses and the closing brace.
    method SwitchBody(deferredStart: int, ghost p0: State, ghost selector: Expr, ghost rs: int, ghost t0: nat,
        ghost clauses: seq<Clause>, ghost after: seq<Token>)
      requires !parser.deferred && ClausesSupported(clauses, parser.locals)
        && tokens == ClauseTokens(clauses) + ([RBrace] + after)
      requires parser.nerrors == 0 ==>
        p0.nerrors == 0 && deferredStart == |p0.deferredCode|
        && Underway(p0, parser.Now(), selector, rs, t0, [], [])
      requires parser.lenient || SingleDefaults(Switch(selector, clauses))
      modifies this`tokens, this`breakStack, this`continueStack, parser
      ensures parser.Total() <= old(parser.Total()) + ClauseSizes(clauses) + 1
      ensures old(parser.Explained()) ==> parser.Explained()
      ensures tokens == after && !parser.deferred
      ensures breakStack == old(breakStack) && continueStack == old(continueStack)
      ensures Result(Switch(selector, clauses), p0, parser.Now(), [], [])
      decreases |tokens|, 8
    {
      hide Balanced, StmtDone, Underway, Recorded, ClauseTokens, SingleDefaults, ClauseSizes, ClausesSupported,
        Parser.Explained, Parser.Total;
      var cases, default_;
      ghost var xs, ids;
      cases, default_, xs, ids := Clauses(clauses, [RBrace] + after, p0, selector, rs, t0);
      Expect(RBrace);
      FinishSwitch(deferredStart, cases, default_, p0, selector, rs, t0, clauses, xs, ids);
    }

    // The selector in parentheses and the opening brace; the deferred block for the statements begins.
    method Selector(ghost selector: Expr, ghost rest: seq<Token>)
        returns (deferredStart: int, ghost rs: int, ghost t0: nat)
      requires !parser.deferred && Uses(selector) <= parser.locals
        && tokens == [LParen] + (ExprTokens(selector, 1) + ([RParen, LBrace] + rest))
      requires parser.nerrors == 0 ==> Balanced(parser.Now())
      modifies this`tokens, parser
      ensures parser.Total() <= old(parser.Total()) + ExprSize(selector)
      ensures old(parser.Explained()) ==> parser.Explained()
      ensures tokens == rest && !parser.deferred && parser.nerrors == old(parser.nerrors)
      ensures parser.nerrors == 0 ==>
        && deferredStart == |old(parser.deferredCode)|
        && Underway(old(parser.Now()), parser.Now(), selector, rs, t0, [], [])
    {
      hide Balanced, ExprDone, Underway, Parser.Explained, Parser.Total;
      ghost var p0 := parser.Now();
      SelectorValue(selector, rest);
      ghost var p1 := parser.Now();
      deferredStart := parser.StartDeferred();
      parser.EndDeferred();
      rs, t0 := 0, 0;
      if p1.nerrors == 0 {
        DoneDeferred(p0, p1, selector);
        rs, t0 := SwitchStart(p0, p1, parser.Now(), selector);
      }
    }

    method SelectorValue(ghost selector: Expr, ghost rest: seq<Token>)
      requires Uses(selector) <= parser.locals && tokens ==
        [LParen] + (ExprTokens(selector, 1) + ([RParen, LBrace] + rest))
      requires parser.nerrors == 0 ==> Balanced(parser.Now())
      modifies this`tokens, parser
      ensures parser.Total() <= old(parser.Total()) + ExprSize(selector)
      ensures old(parser.Explained()) ==> parser.Explained()
      ensures tokens == rest && parser.nerrors == old(parser.nerrors) && parser.deferred == old(parser.deferred)
      ensures parser.nerrors == 0 ==> ExprDone(old(parser.Now()), parser.Now(), selector)
      decreases |tokens|, 3
    {
      hide Balanced, ExprDone, Parser.Explained, Parser.Total;
      Expect(LParen);
      Expression(1, Eval(selector), [RParen, LBrace] + rest);
      Expect(RParen);
      Expect(LBrace);
    }

    // The clauses of a switch.
    method Clauses(ghost clauses: seq<Clause>, ghost rest: seq<Token>, ghost p0: State, ghost selector: Expr,
        ghost rs: int, ghost t0: nat)
        returns (cases: seq<CaseEntry>, default_: Option<CaseEntry>, ghost xs: seq<Place>, ghost ids: seq<nat>)
      requires !parser.deferred && tokens == ClauseTokens(clauses) + rest && rest != [] && rest[0] == RBrace
      requires ClausesSupported(clauses, parser.locals)
      requires parser.nerrors == 0 ==> Underway(p0, parser.Now(), selector, rs, t0, [], [])
      requires parser.lenient || SingleDefaults(Switch(selector, clauses))
      modifies this`tokens, this`breakStack, this`continueStack, parser
      ensures parser.nerrors == 0 ==> SingleDefaults(Switch(selector, clauses))
      ensures parser.Total() <= old(parser.Total()) + ClauseSizes(clauses)
      ensures old(parser.Explained()) ==> parser.Explained()
      ensures tokens == rest && !parser.deferred && breakStack == old(breakStack) && continueStack == old(continueStack)
      ensures parser.nerrors == 0 ==>
        && old(parser.nerrors) == 0 && Underway(p0, parser.Now(), selector, rs, t0, clauses, xs)
        && Recorded(clauses, xs, |parser.code|, |parser.deferredCode|, cases, ids, default_)
      decreases |tokens|, 7
    {
      hide *;
      ghost var k := 0;
      cases, default_, xs, ids := [], None, [], [];
      if parser.nerrors == 0 { RecordedNone(|parser.code|, |parser.deferredCode|); }
      assert clauses[0..] == clauses && clauses[..0] == [];
      NoClauses(selector);
      while true
        invariant k <= |clauses| && tokens == ClauseTokens(clauses[k..]) + rest && !parser.deferred
          && |tokens| <= |old(tokens)|
        invariant breakStack == old(breakStack) && continueStack == old(continueStack)
          && (old(parser.Explained()) ==> parser.Explained())
        invariant parser.Total() <= old(parser.Total()) + ClauseSizes(clauses[..k])
        invariant default_.Some? <==> DefaultAt(clauses[..k], 0) < k
        invariant parser.nerrors == 0 ==> SingleDefaults(Switch(selector, clauses[..k]))
        invariant parser.nerrors == 0 ==>
          && old(parser.nerrors) == 0 && Underway(p0, parser.Now(), selector, rs, t0, clauses[..k], xs)
          && Recorded(clauses[..k], xs, |parser.code|, |parser.deferredCode|, cases, ids, default_)
        decreases |clauses| - k
      {
        var more := AtClause(clauses, k, rest);
        if !more { break; }
        ClauseSizesMore(clauses, k);
        OneSupported(clauses, k, parser.locals);
        cases, default_, xs, ids := NextClause(clauses, k, rest, p0, selector, rs, t0, cases, default_, xs, ids);
        k := k + 1;
      }
      assert clauses[..k] == clauses;
    }

    method AtClause(ghost clauses: seq<Clause>, ghost k: nat, ghost rest: seq<Token>) returns (more: bool)
      requires k <= |clauses| && tokens == ClauseTokens(clauses[k..]) + rest && rest != [] && rest[0] == RBrace
      ensures more == (k < |clauses|) && (more || tokens == rest)
    {
      ClauseNext(clauses, k, rest, tokens);
      var t := GetToken();
      more := t.KCase? || t.KDefault?;
    }

    method NextClause(ghost clauses: seq<Clause>, ghost k: nat, ghost rest: seq<Token>, ghost p0: State,
        ghost selector: Expr, ghost rs: int, ghost t0: nat, cases: seq<CaseEntry>, default_: Option<CaseEntry>,
        ghost xs: seq<Place>, ghost ids: seq<nat>)
        returns (cases': seq<CaseEntry>, default': Option<CaseEntry>, ghost xs': seq<Place>, ghost ids': seq<nat>)
      requires k < |clauses| && !parser.deferred && tokens == ClauseTokens(clauses[k..]) + rest && rest != []
        && rest[0] == RBrace
      requires (clauses[k].body.Some? ==> Supported(clauses[k].body.value, false, true, parser.locals))
        && (clauses[k].Case? ==> Uses(clauses[k].test) <= parser.locals)
      requires parser.nerrors == 0 ==>
        && Underway(p0, parser.Now(), selector, rs, t0, clauses[..k], xs)
        && Recorded(clauses[..k], xs, |parser.code|, |parser.deferredCode|, cases, ids, default_)
      requires parser.lenient || SingleDefaults(Switch(selector, clauses))
      requires default_.Some? <==> DefaultAt(clauses[..k], 0) < k
      requires parser.nerrors == 0 ==> SingleDefaults(Switch(selector, clauses[..k]))
      modifies this`tokens, this`breakStack, this`continueStack, parser
      ensures parser.nerrors == 0 ==> SingleDefaults(Switch(selector, clauses[..k + 1]))
      ensures parser.Total() <= old(parser.Total()) + ClauseSize(clauses[k])
      ensures old(parser.Explained()) ==> parser.Explained()
      ensures tokens == ClauseTokens(clauses[k + 1..]) + rest && |tokens| < |old(tokens)| && !parser.deferred
        && breakStack == old(breakStack) && continueStack == old(continueStack)
      ensures parser.nerrors == 0 ==>
        && old(parser.nerrors) == 0 && Underway(p0, parser.Now(), selector, rs, t0, clauses[..k + 1], xs')
        && Recorded(clauses[..k + 1], xs', |parser.code|, |parser.deferredCode|, cases', ids', default')
      ensures default'.Some? <==> DefaultAt(clauses[..k + 1], 0) < k + 1
      decreases |tokens|, 6
    {
      hide Underway, Recorded, Supported, ClauseTokens, Parser.Explained, Parser.Total, SingleDefaults;
      ghost var e, end, c := |parser.code|, |parser.deferredCode|, clauses[k];
      ClauseNext(clauses, k, rest, tokens);
      var t := GetToken();
      RetireToken();
      DefaultsSoFar(selector, clauses, k, default_.Some?);
      SingleDefaultsAt(selector, clauses, k);
      if t.KDefault? && default_.Some? { parser.DuplicateDefault(); }
      var entry;
      ghost var x;
      entry, x := OneClause(t.KDefault?, c, ClauseTokens(clauses[k + 1..]) + rest, p0, selector, rs, t0, clauses[..k],
        xs);
      assert clauses[..k + 1] == clauses[..k] + [c];
      if t.KDefault? {
        cases', default', ids' := cases, Some(entry), ids;
      } else {
        cases', default', ids' := cases + [entry], default_, ids + [k];
      }
      xs' := xs + [x];
      if parser.nerrors == 0 {
        SingleDefaultsMore(selector, clauses[..k], c);
        RecordedMore(clauses[..k], xs, e, end, cases, ids, default_, c, x, |parser.code|, |parser.deferredCode|, entry);
      }
    }

    // Aims the jumps of all cases.
    method AimCases(cases: seq<CaseEntry>, shift: int, after: int, ghost q: State, ghost b0: seq<Instr>,
        ghost es: seq<CaseEntry>, ghost ids: seq<nat>, ghost first: seq<nat>)
      requires parser.nerrors == 0 ==>
        && |ids| == |cases| && !q.deferred && parser.Now() == q.(code := parser.code)
           && Patched(b0, parser.code, es, first, shift, after)
        && 0 <= after <= |b0| && Aimable(b0, es, shift)
           && (forall k :: 0 <= k < |ids| ==> ids[k] < |es| && es[ids[k]] == cases[k] && ids[k] !in first + ids[..k])
      modifies parser
      ensures parser.Total() <= old(parser.Total())
      ensures old(parser.Explained()) ==> parser.Explained()
      ensures parser.deferred == old(parser.deferred)
      ensures parser.nerrors == 0 ==>
        && old(parser.nerrors) == 0 && parser.Now() == q.(code := parser.code)
        && Patched(b0, parser.code, es, first + ids, shift, after)
    {
      hide Patched, Apart, EntryFits, EntryJumps, Parser.Explained, Parser.Total;
      var k := 0;
      assert |ids| == |cases| ==> first + ids[..0] == first;
      while k < |cases|
        invariant k <= |cases| && parser.deferred == old(parser.deferred) && parser.Total() <= old(parser.Total())
          && (old(parser.Explained()) ==> parser.Explained())
        invariant parser.nerrors == 0 ==>
          && old(parser.nerrors) == 0 && |ids| == |cases| && parser.Now() == q.(code := parser.code)
          && Patched(b0, parser.code, es, first + ids[..k], shift, after)
      {
        ghost var id, done := 0, [];
        if parser.nerrors == 0 {
          id, done := ids[k], first + ids[..k];
          assert done + [id] == first + ids[..k + 1];
          AimableAt(b0, es, shift, id);
        }
        AimClause(cases[k], shift, after, q, b0, es, done, id);
        k := k + 1;
      }
      assert parser.nerrors == 0 ==> ids[..k] == ids;
    }

    // Moves the statements behind the tests, aims all jumps and drops the selector.
    method FinishSwitch(deferredStart: int, cases: seq<CaseEntry>, default_: Option<CaseEntry>, ghost p0: State,
        ghost selector: Expr, ghost rs: int, ghost t0: nat, ghost clauses: seq<Clause>, ghost xs: seq<Place>,
        ghost ids: seq<nat>)
      requires !parser.deferred
      requires parser.nerrors == 0 ==>
        && deferredStart == |p0.deferredCode| && Underway(p0, parser.Now(), selector, rs, t0, clauses, xs)
        && Recorded(clauses, xs, |parser.code|, |parser.deferredCode|, cases, ids, default_)
      modifies parser
      ensures parser.Total() <= old(parser.Total()) + 1
      ensures old(parser.Explained()) ==> parser.Explained()
      ensures !parser.deferred
      ensures parser.nerrors == 0 ==>
        old(parser.nerrors) == 0 && StmtDone(Switch(selector, clauses), p0, parser.Now(), [], [])
    {
      hide Underway, Recorded, Patched, Aimable, StmtDone, Finished, Balanced, Joined, Entries, DefaultTarget,
        Parser.Explained, Parser.Total;
      ghost var q := parser.Now();
      var shift, after;
      ghost var es, b0, first;
      shift, after, es, b0, first := JoinClauses(deferredStart, cases, default_, p0, selector, rs, t0, clauses, xs,
        ids);
      AimAll(cases, default_, shift, after, parser.Now(), b0, es, ids, first);
      if parser.nerrors == 0 {
        SwitchFinished(p0, q, selector, rs, t0, clauses, xs, cases, ids, default_, es, b0, first, parser.code);
        SwitchDone(p0, q, selector, rs, t0, clauses, xs, es, first + ids, parser.code);
      }
      parser.Pop();
    }

    method JoinClauses(deferredStart: int, cases: seq<CaseEntry>, default_: Option<CaseEntry>, ghost p0: State,
        ghost selector: Expr, ghost rs: int, ghost t0: nat, ghost clauses: seq<Clause>, ghost xs: seq<Place>,
        ghost ids: seq<nat>)
        returns (shift: int, after: int, ghost es: seq<CaseEntry>, ghost b0: seq<Instr>, ghost first: seq<nat>)
      requires !parser.deferred
      requires parser.nerrors == 0 ==>
        && deferredStart == |p0.deferredCode| && Underway(p0, parser.Now(), selector, rs, t0, clauses, xs)
        && Recorded(clauses, xs, |parser.code|, |parser.deferredCode|, cases, ids, default_)
      modifies parser
      ensures parser.Total() <= old(parser.Total()) + 1
      ensures old(parser.Explained()) ==> parser.Explained()
      ensures !parser.deferred
      ensures parser.nerrors == 0 ==>
        var q, d0 := old(parser.Now()), |p0.deferredCode|;
        && old(parser.nerrors) == 0 && |xs| == |clauses| && d0 <= |q.deferredCode| && q.stack != []
        && shift == |q.code| + 1 - d0 && after == |q.code| + 1 + |q.deferredCode| - d0 == |b0|
        && es == Entries(clauses, xs, |q.code|, |q.deferredCode|)
           && b0 == Joined(q.code, q.deferredCode, d0, DefaultTarget(clauses, xs, d0, q.code, q.deferredCode))
        && parser.Now() == q.(deferredCode := p0.deferredCode, blocks := p0.blocks, code := parser.code)
        && Patched(b0, parser.code, es, [], shift, after) && Aimable(b0, es, shift)
        && |ids| == |cases| && (forall k ::
           0 <= k < |ids| ==> ids[k] < |es| && es[ids[k]] == cases[k] && ids[k] !in first + ids[..k])
        && first == (if default_.Some? then [DefaultAt(clauses, 0)] else [])
        && (default_.Some? ==>
           first[0] < |es| && es[first[0]] == CaseEntry(-1, default_.value.from, default_.value.addr))
    {
      hide Underway, Recorded, Patched, Aimable, Finished, Balanced, Joined, Entries, DefaultTarget, Parser.Explained,
        Parser.Total;
      ghost var q := parser.Now();
      es, b0, first := [], [], [];
      if q.nerrors == 0 {
        UnderwayBlocks(p0, q, selector, rs, t0, clauses, xs);
        es, b0, first := EntriesReady(p0, q, selector, rs, t0, clauses, xs, cases, ids, default_);
      }
      shift, after := JoinStatements(deferredStart, default_, p0);
      if parser.nerrors == 0 { EndJumpAimed(p0, q, parser.Now(), selector, rs, t0, clauses, xs, cases, ids, default_,
        es, b0); }
    }

    // The jump after the tests, and the statements behind it.
    method JoinStatements(deferredStart: int, default_: Option<CaseEntry>, ghost p0: State)
        returns (shift: int, after: int)
      requires !parser.deferred
      requires parser.nerrors == 0 ==>
        && deferredStart == |p0.deferredCode| <= |parser.deferredCode|
           && parser.deferredCodeBlocks == p0.blocks + [|p0.deferredCode|]
        && parser.deferredCode[..|p0.deferredCode|] == p0.deferredCode
        && (default_.Some? ==> |p0.deferredCode| <= default_.value.addr <= |parser.deferredCode|)
      modifies parser
      ensures parser.Total() <= old(parser.Total()) + 1
      ensures old(parser.Explained()) ==> parser.Explained()
      ensures !parser.deferred
      ensures parser.nerrors == 0 ==>
        && |p0.deferredCode| <= |old(parser.deferredCode)|
        && var q, d0 := old(parser.Now()), |p0.deferredCode|;
        var b := q.code + [Jump(JMP, 0, 0)] + q.deferredCode[d0..];
        && old(parser.nerrors) == 0 && shift == |q.code| + 1 - d0 && after == |q.code| + 1 + |q.deferredCode| - d0
        && parser.Now() == q.(deferredCode := p0.deferredCode, blocks := p0.blocks,
          code := Resolve(b, [|q.code|], if default_.Some? then default_.value.addr + shift else |b|))
    {
      var endJump := parser.AddMatchedJump(JMP);
      var statementStart := parser.EmitDeferred();
      shift, after := statementStart - deferredStart, parser.Size();
      parser.MatchJumpTo(endJump, if default_.Some? then default_.value.addr + shift else after);
    }

    method AimAll(cases: seq<CaseEntry>, default_: Option<CaseEntry>, shift: int, after: int, ghost q: State,
        ghost b0: seq<Instr>, ghost es: seq<CaseEntry>, ghost ids: seq<nat>, ghost first: seq<nat>)
      requires parser.nerrors == 0 ==>
        && |ids| == |cases| && !q.deferred && parser.Now() == q.(code := parser.code)
           && Patched(b0, parser.code, es, [], shift, after)
        && 0 <= after <= |b0| && Aimable(b0, es, shift)
           && (forall k :: 0 <= k < |ids| ==> ids[k] < |es| && es[ids[k]] == cases[k] && ids[k] !in first + ids[..k])
        && (if default_.Some? then |first| == 1 && first[0] < |es|
           && es[first[0]] == CaseEntry(-1, default_.value.from, default_.value.addr) else first == [])
      modifies parser
      ensures parser.Total() <= old(parser.Total())
      ensures old(parser.Explained()) ==> parser.Explained()
      ensures parser.deferred == old(parser.deferred)
      ensures parser.nerrors == 0 ==>
        && old(parser.nerrors) == 0 && parser.Now() == q.(code := parser.code)
        && Patched(b0, parser.code, es, first + ids, shift, after)
    {
      hide Patched, Apart, EntryFits, EntryJumps, Aimable, Parser.Explained, Parser.Total;
      ghost var id := if first == [] then 0 else first[0];
      if default_.Some? {
        if parser.nerrors == 0 { AimableAt(b0, es, shift, id); }
        AimClause(CaseEntry(-1, default_.value.from, default_.value.addr), shift, after, q, b0, es, [], id);
      }
      assert parser.nerrors == 0 ==> first == if default_.Some? then [] + [id] else [];
      AimCases(cases, shift, after, q, b0, es, ids, first);
    }

    // The braces, the statements and the end of a function whose parameters and variables have been declared.
    method FunctionBody(ghost body: seq<Stmt>, ghost after: seq<Token>) returns (tempRegisterCount: int)
      requires Supported(Block(body), false, false, parser.locals) && tokens == StmtTokens(Block(body)) + after
      requires !parser.deferred && parser.code == [] && Balanced(parser.Now())
      requires parser.lenient || SingleDefaults(Block(body))
      modifies this`tokens, this`breakStack, this`continueStack, parser
      ensures parser.nerrors == 0 ==> SingleDefaults(Block(body))
      ensures parser.Total() <= old(parser.Total()) + StmtSize(Block(body)) + 1
      ensures old(parser.Explained()) ==> parser.Explained()
      ensures tokens == after
      ensures !parser.lenient && old(parser.nerrors) == 0 && old(parser.Total()) + StmtSize(Block(body)) <= MAX_JUMP ==>
        parser.nerrors == 0
      ensures parser.nerrors == 0 ==> Room(old(parser.Now()), parser.Now(), StmtNeed(Block(body)))
      ensures parser.nerrors == 0 && Representable(parser.Now()) ==>
        && 0 <= tempRegisterCount == 256 - parser.minReg
        && FunctionOk(body, parser.code, parser.constants, parser.locals, parser.locals + tempRegisterCount)
    {
      hide Supported, StmtTokens, FunctionOk, StmtDone, Balanced, StmtNeed;
      ghost var p0 := parser.Now();
      ghost var nb, nc := CompoundStatement(body, false, after);
      ghost var p1 := parser.Now();
      tempRegisterCount := parser.FunctionEnd();
      if parser.nerrors == 0 {
        DoneRegisters(Block(body), p0, p1);
        if Representable(parser.Now()) { FunctionCorrect(body, p0, p1); }
      }
    }
  }

  // A register is left over, jumps reach over the code, and the ids of constants fit in 8 bits. The source demands that
  // there are fewer than 255 constants whenever one is looked up.
  predicate Representable(p: State)
  { p.locals < p.minReg && |p.code| <= 0x10001 && |p.constants| < 255 }

  // What can be compiled: no switch with two defaults, and not too many instructions, temporaries and constants. One
  // constant is there from the beginning.
  predicate Compilable(body: seq<Stmt>, locals: nat)
  {
    && SingleDefaults(Block(body)) && StmtSize(Block(body)) <= MAX_JUMP
    && locals + StmtNeed(Block(body)).depth <= MAX_REGISTER && 1 + StmtNeed(Block(body)).consts < 255
  }

  // A function with its parameters and variables declared. There is an error if a switch has two defaults,
  // and none if no switch has and the code is short enough for its jumps.
  method Compile(locals: nat, input: seq<Token>, ghost body: seq<Stmt>, ghost after: seq<Token>)
      returns (parser: Parser, tempRegisterCount: int)
    requires locals <= MAX_REGISTER && Supported(Block(body), false, false, locals)
      && input == StmtTokens(Block(body)) + after
    ensures parser.locals == locals
    ensures parser.nerrors == 0 ==> SingleDefaults(Block(body))
    ensures SingleDefaults(Block(body)) && StmtSize(Block(body)) <= MAX_JUMP ==> parser.nerrors == 0
    ensures |parser.code| <= StmtSize(Block(body)) + 1
    ensures parser.nerrors == 0 ==>
      256 - parser.minReg <= StmtNeed(Block(body)).depth && |parser.constants| <= 1 + StmtNeed(Block(body)).consts
    ensures parser.nerrors == 0 && Representable(parser.Now()) ==>
      tempRegisterCount >= 0 && FunctionOk(body, parser.code, parser.constants, locals, locals + tempRegisterCount)
    ensures Compilable(body, locals) ==>
      && parser.nerrors == 0 && 0 <= tempRegisterCount <= StmtNeed(Block(body)).depth
      && FunctionOk(body, parser.code, parser.constants, locals, locals + tempRegisterCount)
  {
    hide Supported, StmtTokens, FunctionOk, SingleDefaults, StmtSize, Balanced, StmtNeed;
    parser := new Parser(locals, !SingleDefaults(Block(body)));
    var engine := new ParseEngine(parser);
    engine.tokens := input;
    tempRegisterCount := engine.FunctionBody(body, after);
  }
}
