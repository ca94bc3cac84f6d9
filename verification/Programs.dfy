/** What some programs and instructions do, in numbers. */
module Programs {
  import opened Wrappers
  import opened Machine
  import opened Source
  import opened Codegen
  import opened Layout
  import opened Tokens
  import opened Functions
  import opened Engine

  ghost predicate Numeric(a: Arith)
  {
    && (forall x, y :: a.bin(ADD, x, y) == x + y) && (forall x, y :: a.bin(SUB, x, y) == x - y)
    && (forall x, y :: a.bin(MUL, x, y) == x * y)
    && (forall x, y :: a.bin(LT, x, y) == if x < y then 1 else 0)
    && (forall x, y :: a.bin(EQ, x, y) == if x == y then 1 else 0)
    && (forall x :: a.un(UMINUS, x) == -x)
    && (forall x :: a.inc(x) == x + 1) && (forall x :: a.dec(x) == x - 1)
  }

  lemma InTurn(s: Stmt, t: Stmt, u: Stmt, a: Arith, env: seq<int>, fuel: nat)
    ensures ExecAll([s], a, env, fuel) == Exec(s, a, env, fuel)
    ensures ExecAll([s, t], a, env, fuel) ==
      match Exec(s, a, env, fuel) case Normal(env') => Exec(t, a, env', fuel) case o => o
    ensures ExecAll([s, t, u], a, env, fuel) ==
      match Exec(s, a, env, fuel) case Normal(env') => ExecAll([t, u], a, env', fuel) case o => o
  {
    assert [s][1..] == [] && [s, t][1..] == [t] && [s, t, u][1..] == [t, u];
    forall v: Stmt, env: seq<int> ensures ExecAll([v], a, env, fuel) == Exec(v, a, env, fuel) {
      assert [v][1..] == [] && [v][0] == v;
      assert ExecAll([], a, env, fuel) == Normal(env);
    }
  }

  const BELOW := Binary(LT, Local(1), Local(0))
  const SAME := Binary(EQ, Local(1), Local(2))

  lemma Comparisons(a: Arith, n: int, i: int, k: int, rest: seq<int>)
    requires Numeric(a)
    ensures Value(BELOW, a, [n, i, k] + rest) == if i < n then 1 else 0
    ensures Value(SAME, a, [n, i, k] + rest) == if i == k then 1 else 0
  {
    var env := [n, i, k] + rest;
    assert Value(Local(0), a, env) == n && Value(Local(1), a, env) == i && Value(Local(2), a, env) == k;
  }

  // x = 7 - 2 * 3 - -1;
  const FORMULA :=
    Do(Assign(0, Binary(SUB, Binary(SUB, Const(7), Binary(MUL, Const(2), Const(3))), Unary(UMINUS, Const(1)))))

  lemma Formula(a: Arith, x: int, fuel: nat)
    requires Numeric(a)
    ensures StmtTokens(FORMULA) == [Identifier(0), Sto, Integer(7), Operator(SUB), Integer(2), Operator(MUL),
      Integer(3), Operator(SUB), Operator(SUB), Integer(1), Semicolon]
    ensures Exec(FORMULA, a, [x], fuel) == Normal([2])
  {
    hide Numeric;
    FormulaSpelled();
    FormulaValue(a, x);
    hide StmtTokens, Value;
    assert Set([x], 0, 2) == [2];
  }

  lemma FormulaSpelled()
    ensures StmtTokens(FORMULA) == [Identifier(0), Sto, Integer(7), Operator(SUB), Integer(2), Operator(MUL),
      Integer(3), Operator(SUB), Operator(SUB), Integer(1), Semicolon]
  {}

  lemma FormulaValue(a: Arith, x: int)
    requires Numeric(a)
    ensures Value(FORMULA.simple.e, a, [x]) == 2
  {
    assert Value(Binary(MUL, Const(2), Const(3)), a, [x]) == 6;
    assert Value(Binary(SUB, Const(7), Binary(MUL, Const(2), Const(3))), a, [x]) == 1;
    assert Value(Unary(UMINUS, Const(1)), a, [x]) == -1;
  }

  // x++; --y; z -= x;
  const STEPS := Block([Do(Simple.Step(POSTINC, 0)), Do(Simple.Step(PREDEC, 1)), Do(Update(2, SUB, Local(0)))])

  lemma StepsSpelled()
    ensures StmtTokens(STEPS) == [LBrace, Identifier(0), Inc, Semicolon, Dec, Identifier(1), Semicolon,
      Identifier(2), OperatorSto(SUB), Identifier(0), Semicolon, RBrace]
  {}

  lemma Steps(a: Arith, x: int, y: int, z: int, fuel: nat)
    requires Numeric(a)
    ensures StmtTokens(STEPS) == [LBrace, Identifier(0), Inc, Semicolon, Dec, Identifier(1), Semicolon,
      Identifier(2), OperatorSto(SUB), Identifier(0), Semicolon, RBrace]
    ensures Exec(STEPS, a, [x, y, z], fuel) == Normal([x + 1, y - 1, z - (x + 1)])
  {
    StepsSpelled();
    hide StmtTokens;
    var b := STEPS.body;
    InTurn(b[0], b[1], b[2], a, [x, y, z], fuel);
    InTurn(b[1], b[2], b[2], a, [x + 1, y, z], fuel);
    assert Perform(b[0].simple, a, [x, y, z]) == [x + 1, y, z];
    assert Perform(b[1].simple, a, [x + 1, y, z]) == [x + 1, y - 1, z];
    assert Perform(b[2].simple, a, [x + 1, y - 1, z]) == [x + 1, y - 1, z - (x + 1)];
    hide Perform, ExecAll;
    forall s: Simple, env: seq<int> ensures Exec(Do(s), a, env, fuel) == Normal(Perform(s, a, env)) {}
  }

  // i + (i + 1) + ... + (n - 1)
  function Sum(i: nat, n: nat): nat
    requires i <= n
    decreases n - i
  { if i == n then 0 else i + Sum(i + 1, n) }

  lemma {:induction false} SumFormula(i: nat, n: nat)
    requires i <= n
    ensures 2 * Sum(i, n) == n * (n - 1) - i * (i - 1)
    decreases n - i
  {
    if i < n { SumFormula(i + 1, n); }
  }

  // for (i = 0; i < n; i++) s += i;
  const SUM := For(Assign(1, Const(0)), BELOW, Simple.Step(POSTINC, 1), Do(Update(2, ADD, Local(1))))

  lemma {:induction false} SumRounds(a: Arith, n: nat, i: nat, s: int, fuel: nat)
    requires Numeric(a) && i <= n
    ensures ExecFor(BELOW, SUM.iter, SUM.loop, a, [n, i, s], fuel) ==
      if n - i < fuel then Normal([n, n, s + Sum(i, n)]) else Timeout
    decreases n - i
  {
    Comparisons(a, n, i, s, []);
    assert [n, i, s] + [] == [n, i, s];
    if fuel > 0 && i < n {
      assert Exec(SUM.loop, a, [n, i, s], fuel) == Normal([n, i, s + i]);
      assert Perform(SUM.iter, a, [n, i, s + i]) == [n, i + 1, s + i];
      hide Value, Perform;
      SumRounds(a, n, i + 1, s + i, fuel - 1);
    }
  }

  lemma SumSpelled()
    ensures StmtTokens(SUM) == [KFor, LParen, Identifier(1), Sto, Integer(0), Semicolon,
      Identifier(1), Operator(LT), Identifier(0), Semicolon, Identifier(1), Inc, RParen,
      Identifier(2), OperatorSto(ADD), Identifier(1), Semicolon]
  {}

  function Summed(n: int, s: int): seq<int>
  { [n, n, s + n * (n - 1) / 2] }

  lemma SumRuns(a: Arith, n: nat, i: int, s: int, fuel: nat)
    requires Numeric(a)
    ensures n < fuel ==> Exec(SUM, a, [n, i, s], fuel) == Normal(Summed(n, s))
    ensures n >= fuel ==> Exec(SUM, a, [n, i, s], fuel) == Timeout
  {
    assert Perform(SUM.init, a, [n, i, s]) == [n, 0, s];
    SumRounds(a, n, 0, s, fuel);
    SumFormula(0, n);
    hide Perform, Value, StmtTokens, ExecFor;
  }

  // The code that is generated for it computes the sum.
  lemma SumCompiled(code: seq<Instr>, constants: seq<int>, size: nat, a: Arith, frame: seq<int>)
    requires FunctionOk([SUM], code, constants, 3, size) && |frame| == size && frame[0] >= 0 && Numeric(a)
    ensures exists steps: nat ::
        EndedAt(Program(code, constants, a), frame, steps, Summed(frame[0], frame[2]), 3)
  {
    var n := frame[0];
    SumRuns(a, n, frame[1], frame[2], n + 1);
    assert frame[..3] == [n, frame[1], frame[2]];
    assert FunctionDoes([SUM], Program(code, constants, a), 3, frame, n + 1);
    assert ExecAll([SUM], a, frame[..3], n + 1) == Exec(SUM, a, frame[..3], n + 1);
  }

  lemma OneNeed(s: Stmt)
    ensures StmtNeed(Block([s])) == Then(NOTHING, StmtNeed(s))
  {
    ListOfOne([s]);
    BlockNeed([s]);
    hide *;
  }

  lemma BlockNeed(body: seq<Stmt>)
    ensures StmtNeed(Block(body)) == ListNeed(body)
  {}

  lemma ListOfOne(body: seq<Stmt>)
    requires |body| == 1
    ensures ListNeed(body) == Then(NOTHING, StmtNeed(body[0]))
  {
    hide StmtNeed, Then;
    assert body[..0] == [] && ListNeed([]) == NOTHING;
  }

  lemma OperatorNeeds(op: BinOp, x: nat, y: nat)
    ensures ExprNeed(Binary(op, Local(x), Local(y))) == Need(1, 1, 0)
  {}

  lemma AssignNeeds(x: nat, v: int)
    ensures SimpleNeed(Assign(x, Const(v))) == Need(0, 0, 1)
  {}

  lemma StepNeeds(x: nat)
    ensures SimpleNeed(Simple.Step(POSTINC, x)) == Need(1, 1, 0)
  {}

  lemma UpdateNeeds(x: nat, op: BinOp, y: nat)
    ensures SimpleNeed(Update(x, op, Local(y))) == Need(1, 0, 0)
  {
    OperatorNeeds(op, x, y);
    hide ExprNeed;
    assert SimpleNeed(Update(x, op, Local(y))) == Freed(ExprNeed(Binary(op, Local(x), Local(y))), 0);
  }

  lemma ForNeeds(init: Simple, cond: Expr, iter: Simple, loop: Simple)
    ensures StmtNeed(For(init, cond, iter, Do(loop))) ==
      Then(SimpleNeed(init), RoundNeed(cond, iter, Freed(SimpleNeed(loop), 0)))
  {}

  lemma SumNeeds()
    ensures StmtNeed(SUM) == Need(1, 0, 1)
  {
    OperatorNeeds(LT, 1, 0);
    AssignNeeds(1, 0);
    StepNeeds(1);
    UpdateNeeds(2, ADD, 1);
    ForNeeds(SUM.init, BELOW, SUM.iter, SUM.loop.simple);
    hide ExprNeed, SimpleNeed, StmtNeed;
  }

  lemma SumSmall()
    ensures StmtSize(Block([SUM])) <= 10
  {
    assert [SUM][..0] == [] && ListSize([]) == 0;
    assert StmtSize(SUM) <= 10;
    assert ListSize([SUM]) == ListSize([]) + StmtSize(SUM);
  }

  lemma SumCompiles()
    ensures Compilable([SUM], 3) && Tokens.Supported(Block([SUM]), false, false, 3)
  {
    SumNeeds();
    BlockNeeds(SUM, Need(1, 0, 1));
    SumSmall();
    SumSupported();
    hide StmtSize, StmtNeed, SingleDefaults, Tokens.Supported, ExprNeed, SimpleNeed;
  }

  lemma BlockNeeds(s: Stmt, n: Need)
    requires StmtNeed(s) == n && n.left <= n.depth
    ensures StmtNeed(Block([s])) == n
  {
    OneNeed(s);
    ThenNothing(n);
  }

  lemma ThenNothing(n: Need)
    requires n.left <= n.depth
    ensures Then(NOTHING, n) == n
  {}

  lemma SumSupported()
    ensures SingleDefaults(Block([SUM])) && Tokens.Supported(Block([SUM]), false, false, 3)
  {
    assert SingleDefaults(SUM);
    assert Tokens.Supported(SUM, false, false, 3);
  }

  // On every frame the code ends with the sum in s.
  ghost predicate Sums(code: seq<Instr>, constants: seq<int>, size: nat)
  {
    forall a: Arith, frame: seq<int> :: Numeric(a) && |frame| == size && size > 2 && frame[0] >= 0 ==>
      exists steps: nat :: EndedAt(Program(code, constants, a), frame, steps, Summed(frame[0], frame[2]), 3)
  }

  lemma FunctionSums(code: seq<Instr>, constants: seq<int>, size: nat)
    requires FunctionOk([SUM], code, constants, 3, size)
    ensures Sums(code, constants, size)
  {
    forall a: Arith, frame: seq<int> | Numeric(a) && |frame| == size && size > 2 && frame[0] >= 0
      ensures exists steps: nat :: EndedAt(Program(code, constants, a), frame, steps, Summed(frame[0], frame[2]), 3)
    {
      SumCompiled(code, constants, size, a, frame);
    }
  }

  lemma InBraces(s: Stmt)
    ensures StmtTokens(Block([s])) == [LBrace] + StmtTokens(s) + [RBrace]
  {
    assert [s][1..] == [] && ListTokens([]) == [];
    assert ListTokens([s]) == StmtTokens(s) + ListTokens([s][1..]);
  }

  const SUM_TOKENS := [LBrace, KFor, LParen, Identifier(1), Sto, Integer(0), Semicolon, Identifier(1), Operator(LT),
    Identifier(0), Semicolon, Identifier(1), Inc, RParen, Identifier(2), OperatorSto(ADD), Identifier(1), Semicolon,
    RBrace]

  lemma SumReady(body: seq<Stmt>)
    requires body == [SUM]
    ensures SUM_TOKENS == StmtTokens(Block(body)) + []
    ensures Compilable(body, 3) && Tokens.Supported(Block(body), false, false, 3)
    ensures StmtNeed(Block(body)).depth == 1
  {
    hide *;
    SumText();
    SumCompiles();
    SumNeeds();
    BlockNeeds(SUM, Need(1, 0, 1));
    NothingBehind(StmtTokens(Block(body)));
  }

  lemma NothingBehind(ts: seq<Token>)
    ensures ts + [] == ts
  {}

  lemma SumText()
    ensures SUM_TOKENS == StmtTokens(Block([SUM]))
  {
    SumSpelled();
    InBraces(SUM);
    hide StmtTokens, ListTokens, ExprTokens, SimpleTokens;
  }

  // From the tokens of the loop to the sum.
  method CompileSum(input: seq<Token>, ghost body: seq<Stmt>) returns (parser: Parser, tempRegisterCount: int)
    requires input == SUM_TOKENS && body == [SUM]
    ensures parser.nerrors == 0 && 0 <= tempRegisterCount <= 1
    ensures Sums(parser.code, parser.constants, 3 + tempRegisterCount)
  {
    SumReady(body);
    hide *;
    parser, tempRegisterCount := Compile(3, input, body, []);
    FunctionSums(parser.code, parser.constants, 3 + tempRegisterCount);
  }

  // while (i < n) { if (i == k) break; i++; }
  const SEARCH := While(BELOW, Block([IfOnly(SAME, Break), Do(Simple.Step(POSTINC, 1))]))

  lemma SearchSpelled()
    ensures StmtTokens(SEARCH) == [KWhile, LParen, Identifier(1), Operator(LT), Identifier(0), RParen, LBrace,
      KIf, LParen, Identifier(1), Operator(EQ), Identifier(2), RParen, KBreak, Semicolon,
      Identifier(1), Inc, Semicolon, RBrace]
  {
    var test, step := IfOnly(SAME, Break), Do(Simple.Step(POSTINC, 1));
    ComparisonsSpelled();
    TokensInTurn(test, step, step);
    hide ExprTokens, ListTokens;
    assert StmtTokens(step) == [Identifier(1), Inc, Semicolon];
    assert StmtTokens(test) == [KIf, LParen, Identifier(1), Operator(EQ), Identifier(2), RParen, KBreak, Semicolon];
    assert StmtTokens(SEARCH.loop) == [LBrace] + StmtTokens(test) + StmtTokens(step) + [RBrace];
  }

  lemma ComparisonsSpelled()
    ensures ExprTokens(BELOW, 1) == [Identifier(1), Operator(LT), Identifier(0)]
    ensures ExprTokens(SAME, 1) == [Identifier(1), Operator(EQ), Identifier(2)]
  {}

  lemma TokensInTurn(s: Stmt, t: Stmt, u: Stmt)
    ensures ListTokens([s, t]) == StmtTokens(s) + StmtTokens(t)
    ensures ListTokens([s, t, u]) == StmtTokens(s) + StmtTokens(t) + StmtTokens(u)
  {
    hide StmtTokens;
    assert [s, t][1..] == [t] && [t][1..] == [] && [s, t, u][1..] == [t, u] && [t, u][1..] == [u] && [u][1..] == [];
    assert ListTokens([t]) == StmtTokens(t) && ListTokens([u]) == StmtTokens(u);
    assert ListTokens([t, u]) == StmtTokens(t) + StmtTokens(u);
  }

  lemma SearchRound(a: Arith, n: int, i: int, k: int, fuel: nat)
    requires Numeric(a)
    ensures Exec(SEARCH.loop, a, [n, i, k], fuel) == if i == k then Broke([n, i, k]) else Normal([n, i + 1, k])
  {
    Comparisons(a, n, i, k, []);
    assert [n, i, k] + [] == [n, i, k];
    InTurn(IfOnly(SAME, Break), Do(Simple.Step(POSTINC, 1)), Break, a, [n, i, k], fuel);
    assert Perform(Simple.Step(POSTINC, 1), a, [n, i, k]) == [n, i + 1, k];
    assert Exec(IfOnly(SAME, Break), a, [n, i, k], fuel) == if i == k then Broke([n, i, k]) else Normal([n, i, k]);
    hide Value, Perform;
    assert Exec(Do(Simple.Step(POSTINC, 1)), a, [n, i, k], fuel) == Normal([n, i + 1, k]);
  }

  lemma {:induction false} SearchRuns(a: Arith, n: nat, i: nat, k: nat, fuel: nat)
    requires Numeric(a) && i <= n && n - i < fuel
    ensures Exec(SEARCH, a, [n, i, k], fuel) == Normal([n, if i <= k < n then k else n, k])
    decreases n - i
  {
    Comparisons(a, n, i, k, []);
    assert [n, i, k] + [] == [n, i, k];
    hide Value, Perform;
    if i < n {
      SearchRound(a, n, i, k, fuel);
      if i != k { SearchRuns(a, n, i + 1, k, fuel - 1); }
    }
  }

  // do { i++; if (i == k) continue; s++; } while (i < n);
  const SKIP := DoWhile(Block([Do(Simple.Step(POSTINC, 1)), IfOnly(SAME, Continue), Do(Simple.Step(PREINC, 3))]), BELOW)

  lemma SkipSpelled()
    ensures StmtTokens(SKIP) == [KDo, LBrace, Identifier(1), Inc, Semicolon,
      KIf, LParen, Identifier(1), Operator(EQ), Identifier(2), RParen, KContinue, Semicolon,
      Inc, Identifier(3), Semicolon, RBrace, KWhile, LParen, Identifier(1), Operator(LT), Identifier(0), RParen,
      Semicolon]
  {
    var count, test, add := Do(Simple.Step(POSTINC, 1)), IfOnly(SAME, Continue), Do(Simple.Step(PREINC, 3));
    ComparisonsSpelled();
    TokensInTurn(count, test, add);
    hide ExprTokens, ListTokens;
    assert StmtTokens(count) == [Identifier(1), Inc, Semicolon] && StmtTokens(add) == [Inc, Identifier(3), Semicolon];
    assert StmtTokens(test) ==
      [KIf, LParen, Identifier(1), Operator(EQ), Identifier(2), RParen, KContinue, Semicolon];
    assert StmtTokens(SKIP.loop) ==
      [LBrace] + (StmtTokens(count) + StmtTokens(test) + StmtTokens(add)) + [RBrace];
  }

  lemma SkipRound(a: Arith, n: int, i: int, k: int, s: int, fuel: nat)
    requires Numeric(a)
    ensures Exec(SKIP.loop, a, [n, i, k, s], fuel) ==
      if i + 1 == k then Continued([n, i + 1, k, s]) else Normal([n, i + 1, k, s + 1])
  {
    var count, test, add := Do(Simple.Step(POSTINC, 1)), IfOnly(SAME, Continue), Do(Simple.Step(PREINC, 3));
    var env := [n, i + 1, k, s];
    InTurn(count, test, add, a, [n, i, k, s], fuel);
    InTurn(test, add, add, a, env, fuel);
    Comparisons(a, n, i + 1, k, [s]);
    assert [n, i + 1, k] + [s] == env;
    assert Perform(Simple.Step(POSTINC, 1), a, [n, i, k, s]) == env;
    assert Perform(Simple.Step(PREINC, 3), a, env) == [n, i + 1, k, s + 1];
    hide Value, Perform;
    assert Exec(count, a, [n, i, k, s], fuel) == Normal(env);
    assert Exec(test, a, env, fuel) == if i + 1 == k then Continued(env) else Normal(env);
    assert Exec(add, a, env, fuel) == Normal([n, i + 1, k, s + 1]);
  }

  lemma {:induction false} SkipRuns(a: Arith, n: nat, i: nat, k: nat, s: int, fuel: nat)
    requires Numeric(a) && i < n && n - i <= fuel
    ensures Exec(SKIP, a, [n, i, k, s], fuel) == Normal([n, n, k, s + n - i - if i < k <= n then 1 else 0])
    decreases n - i
  {
    SkipRound(a, n, i, k, s, fuel);
    var s' := if i + 1 == k then s else s + 1;
    var env := [n, i + 1, k, s'];
    Comparisons(a, n, i + 1, k, [s']);
    assert [n, i + 1, k] + [s'] == env;
    hide Value, Perform;
    if i + 1 < n { SkipRuns(a, n, i + 1, k, s', fuel - 1); }
  }

  // switch (x) { case 1: case 2: y = 5; default: y = 7; case 3: y = 9; }
  const CHOICE := Switch(Local(0), [Case(Const(1), None), Case(Const(2), Some(Do(Assign(1, Const(5))))),
    Default(Some(Do(Assign(1, Const(7))))), Case(Const(3), Some(Do(Assign(1, Const(9)))))])

  const CASES := [KCase, Integer(1), Colon,
    KCase, Integer(2), Colon, Identifier(1), Sto, Integer(5), Semicolon,
    KDefault, Colon, Identifier(1), Sto, Integer(7), Semicolon,
    KCase, Integer(3), Colon, Identifier(1), Sto, Integer(9), Semicolon]

  lemma ChoiceSpelled()
    ensures StmtTokens(CHOICE) == [KSwitch, LParen, Identifier(0), RParen, LBrace] + CASES + [RBrace]
  {
    var c := CHOICE.clauses;
    ChoiceClauses(c);
    assert ExprTokens(Local(0), 1) == [Identifier(0)] && CHOICE == Switch(Local(0), c);
    hide *;
    WholeSwitch(Local(0), c);
    assert [KSwitch, LParen] + [Identifier(0)] + [RParen, LBrace] == [KSwitch, LParen, Identifier(0), RParen, LBrace];
  }

  lemma ChoiceClauses(c: seq<Clause>)
    requires c == CHOICE.clauses
    ensures ClauseTokens(c) == CASES
  {
    hide ClauseTokens, OneClauseTokens, ExprTokens, StmtTokens;
    ClausesSpelled(c);
    SharedSpelled(1);
    CaseSpelled(2, 5);
    DefaultSpelled(7);
    CaseSpelled(3, 9);
  }

  lemma SharedSpelled(v: int)
    ensures OneClauseTokens(Case(Const(v), None)) == [KCase, Integer(v), Colon]
  {}

  lemma CaseSpelled(v: int, w: int)
    ensures OneClauseTokens(Case(Const(v), Some(Do(Assign(1, Const(w)))))) ==
      [KCase, Integer(v), Colon, Identifier(1), Sto, Integer(w), Semicolon]
  {
    assert ExprTokens(Const(v), 1) == [Integer(v)];
    AssignSpelled(w);
  }

  lemma AssignSpelled(w: int)
    ensures StmtTokens(Do(Assign(1, Const(w)))) == [Identifier(1), Sto, Integer(w), Semicolon]
  {}

  lemma DefaultSpelled(w: int)
    ensures OneClauseTokens(Default(Some(Do(Assign(1, Const(w)))))) ==
      [KDefault, Colon, Identifier(1), Sto, Integer(w), Semicolon]
  {
    AssignSpelled(w);
  }

  lemma WholeSwitch(selector: Expr, c: seq<Clause>)
    ensures StmtTokens(Switch(selector, c)) ==
      [KSwitch, LParen] + ExprTokens(selector, 1) + [RParen, LBrace] + ClauseTokens(c) + [RBrace]
  {}

  lemma ClausesSpelled(c: seq<Clause>)
    requires |c| == 4
    ensures ClauseTokens(c) ==
      OneClauseTokens(c[0]) + OneClauseTokens(c[1]) + OneClauseTokens(c[2]) + OneClauseTokens(c[3])
  {
    hide OneClauseTokens;
    assert c[1..][1..] == c[2..] && c[2..][1..] == c[3..] && c[3..][1..] == [];
    assert ClauseTokens(c[3..]) == OneClauseTokens(c[3]);
    assert ClauseTokens(c[2..]) == OneClauseTokens(c[2]) + OneClauseTokens(c[3]);
    assert ClauseTokens(c[1..]) == OneClauseTokens(c[1]) + OneClauseTokens(c[2]) + OneClauseTokens(c[3]);
  }

  // if (i < n) s = i; else s = n;
  const LEAST := If(BELOW, Do(Assign(2, Local(1))), Do(Assign(2, Local(0))))

  lemma LeastRuns(a: Arith, n: int, i: int, s: int, fuel: nat)
    requires Numeric(a)
    ensures StmtTokens(LEAST) == [KIf, LParen, Identifier(1), Operator(LT), Identifier(0), RParen,
      Identifier(2), Sto, Identifier(1), Semicolon, KElse, Identifier(2), Sto, Identifier(0), Semicolon]
    ensures Exec(LEAST, a, [n, i, s], fuel) == Normal([n, i, if i < n then i else n])
  {
    LeastSpelled();
    hide StmtTokens;
    Comparisons(a, n, i, s, []);
    assert [n, i, s] + [] == [n, i, s];
    assert Perform(Assign(2, Local(1)), a, [n, i, s]) == [n, i, i];
    assert Perform(Assign(2, Local(0)), a, [n, i, s]) == [n, i, n];
    hide Value, Perform;
  }

  lemma LeastSpelled()
    ensures StmtTokens(LEAST) == [KIf, LParen, Identifier(1), Operator(LT), Identifier(0), RParen,
      Identifier(2), Sto, Identifier(1), Semicolon, KElse, Identifier(2), Sto, Identifier(0), Semicolon]
  {
    ComparisonsSpelled();
    assert StmtTokens(LEAST.thn) == [Identifier(2), Sto, Identifier(1), Semicolon];
    assert StmtTokens(LEAST.els) == [Identifier(2), Sto, Identifier(0), Semicolon];
    hide ExprTokens, SimpleTokens;
  }

  lemma ChoiceSelects(a: Arith, x: int, y: int)
    requires Numeric(a)
    ensures FirstMatch(CHOICE.clauses, a, [x, y], x, 0) ==
      if x == 1 then 0 else if x == 2 then 1 else if x == 3 then 3 else 4
    ensures DefaultAt(CHOICE.clauses, 0) == 2 && Landing(CHOICE.clauses, 0) == 1
  {
    var c := CHOICE.clauses;
    assert forall v :: Value(Const(v), a, [x, y]) == v;
    assert FirstMatch(c, a, [x, y], x, 4) == 4;
    assert FirstMatch(c, a, [x, y], x, 3) == if x == 3 then 3 else 4;
    assert FirstMatch(c, a, [x, y], x, 2) == if x == 3 then 3 else 4;
    assert DefaultAt(c, 1) == 2;
  }

  lemma ChoiceRuns(a: Arith, x: int, y: int, fuel: nat)
    requires Numeric(a)
    ensures Exec(CHOICE, a, [x, y], fuel) ==
      Normal([x, if x == 1 || x == 2 then 5 else if x == 3 then 9 else 7])
  {
    ChoiceSelects(a, x, y);
    forall v ensures Perform(Assign(1, Const(v)), a, [x, y]) == [x, v] {}
    assert Value(Local(0), a, [x, y]) == x;
    hide FirstMatch, DefaultAt, Value, Perform;
    forall v ensures Exec(Do(Assign(1, Const(v))), a, [x, y], fuel) == Normal([x, v]) {}
    var c := CHOICE.clauses;
    var k := Selected(c, a, [x, y], x);
    assert k == if x == 1 then 0 else if x == 2 then 1 else if x == 3 then 3 else 2;
    var l := if x == 1 || x == 2 then 1 else if x == 3 then 3 else 2;
    assert Landing(c, k) == l;
    hide Selected, Landing;
    assert ExecBody(c[l], a, [x, y], fuel) == Normal([x, if l == 1 then 5 else if l == 3 then 9 else 7]);
    hide ExecBody;
    assert ExecClause(c, k, a, [x, y], fuel) == ExecBody(c[l], a, [x, y], fuel);
  }

  // Operands below 256 are registers, the others are constants; no other register changes.
  lemma Computes(p: Program, pc: int, regs: seq<int>, op: BinOp, un: UnOp, ra: nat, rb: nat, k: nat)
    requires 0 <= pc < |p.code| && ra < |regs| <= 256 && rb < |regs| && k < |p.consts|
    ensures var (i, x, y) := (p.code[pc], regs[rb], p.consts[k]);
      && (i == Move(ra, rb) ==> Next(p, Config(pc, regs)) == Config(pc + 1, regs[ra := x]))
      && (i == Move(ra, 256 + k) ==> Next(p, Config(pc, regs)) == Config(pc + 1, regs[ra := y]))
      && (i == Bin(op, ra, rb, 256 + k) ==>
        Next(p, Config(pc, regs)) == Config(pc + 1, regs[ra := p.arith.bin(op, x, y)]))
      && (i == Bin(op, ra, 256 + k, rb) ==>
        Next(p, Config(pc, regs)) == Config(pc + 1, regs[ra := p.arith.bin(op, y, x)]))
      && (i == Un(un, ra, rb) ==> Next(p, Config(pc, regs)) == Config(pc + 1, regs[ra := p.arith.un(un, x)]))
  {}

  // The result is the new value before, and the old one behind the operand.
  lemma StepsBy(p: Program, pc: int, regs: seq<int>, ra: nat, rb: nat)
    requires 0 <= pc < |p.code| && ra < |regs| <= 256 && rb < |regs| && ra != rb
    ensures var (i, was, up, down) := (p.code[pc], regs[rb], p.arith.inc(regs[rb]), p.arith.dec(regs[rb]));
      && (i == Instr.Step(PREINC, ra, rb) ==> Next(p, Config(pc, regs)) == Config(pc + 1, regs[rb := up][ra := up]))
      && (i == Instr.Step(PREDEC, ra, rb) ==> Next(p, Config(pc, regs)) == Config(pc + 1, regs[rb := down][ra := down]))
      && (i == Instr.Step(POSTINC, ra, rb) ==> Next(p, Config(pc, regs)) == Config(pc + 1, regs[rb := up][ra := was]))
      && (i == Instr.Step(POSTDEC, ra, rb) ==>
        Next(p, Config(pc, regs)) == Config(pc + 1, regs[rb := down][ra := was]))
  {}

  // A jump is relative to its own place.
  lemma Jumps(p: Program, pc: int, regs: seq<int>, rn: nat, sn: int)
    requires 0 <= pc < |p.code| && rn < |regs| <= 256
    ensures var i := p.code[pc];
      && (i == Jump(JMP, rn, sn) ==> Next(p, Config(pc, regs)) == Config(pc + sn, regs))
      && (i == Jump(JT, rn, sn) ==>
        Next(p, Config(pc, regs)) == Config(if regs[rn] != 0 then pc + sn else pc + 1, regs))
      && (i == Jump(JF, rn, sn) ==>
        Next(p, Config(pc, regs)) == Config(if regs[rn] == 0 then pc + sn else pc + 1, regs))
      && (i == End ==> Next(p, Config(pc, regs)) == Config(pc, regs))
  {}
}
