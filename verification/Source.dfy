/** The source fragment and its meaning. */
module Source {
  import opened Wrappers
  import opened Machine

  datatype Expr =
    | Local(index: nat)
    | Const(value: int)
    | Unary(uop: UnOp, e: Expr)
    | Binary(bop: BinOp, left: Expr, right: Expr)
    | Paren(inner: Expr)

  // e without the parentheses around it.
  function Bare(e: Expr): (r: Expr)
    ensures !r.Paren?
  { if e.Paren? then Bare(e.inner) else e }

  predicate Constant(e: Expr) { Bare(e).Const? }

  // Expression statements.
  datatype Simple = Eval(e: Expr) | Assign(x: nat, e: Expr) | Update(x: nat, bop: BinOp, e: Expr) | Step(sop: StepOp,
    x: nat)

  datatype Stmt =
    | Do(simple: Simple)
    | Block(body: seq<Stmt>)
    | If(cond: Expr, thn: Stmt, els: Stmt)
    | IfOnly(cond: Expr, thn: Stmt)
    | While(cond: Expr, loop: Stmt)
    | DoWhile(loop: Stmt, cond: Expr)
    | For(init: Simple, cond: Expr, iter: Simple, loop: Stmt)
    | Switch(selector: Expr, clauses: seq<Clause>)
    | Break
    | Continue

  // A case without a statement shares the next statement, whichever clause it belongs to.
  datatype Clause = Case(test: Expr, body: Option<Stmt>) | Default(body: Option<Stmt>)

  // The first case from i on whose test equals v.
  function FirstMatch(clauses: seq<Clause>, a: Arith, env: seq<int>, v: int, i: nat): (k: nat)
    requires i <= |clauses|
    ensures i <= k <= |clauses|
    decreases |clauses| - i
  {
    if i == |clauses| then i
    else if clauses[i].Case? && a.bin(EQ, v, Value(clauses[i].test, a, env)) != 0 then i
    else FirstMatch(clauses, a, env, v, i + 1)
  }

  function DefaultAt(clauses: seq<Clause>, i: nat): (k: nat)
    requires i <= |clauses|
    ensures i <= k <= |clauses|
    decreases |clauses| - i
  { if i == |clauses| || clauses[i].Default? then i else DefaultAt(clauses, i + 1) }

  // The clause whose statement a match of clause i runs.
  function Landing(clauses: seq<Clause>, i: nat): (k: nat)
    requires i <= |clauses|
    ensures i <= k <= |clauses|
    decreases |clauses| - i
  { if i == |clauses| || clauses[i].body.Some? || clauses[i].Default? then i else Landing(clauses, i + 1) }

  function Selected(clauses: seq<Clause>, a: Arith, env: seq<int>, v: int): (k: nat)
    ensures k <= |clauses|
  {
    var k := FirstMatch(clauses, a, env, v, 0);
    if k < |clauses| then k else DefaultAt(clauses, 0)
  }

  function Value(e: Expr, a: Arith, env: seq<int>): int
  {
    match e
    case Local(i) => if i < |env| then env[i] else 0
    case Const(v) => v
    case Unary(op, e) => a.un(op, Value(e, a, env))
    case Binary(op, l, r) => a.bin(op, Value(l, a, env), Value(r, a, env))
    case Paren(e) => Value(e, a, env)
  }

  function Perform(s: Simple, a: Arith, env: seq<int>): (env': seq<int>)
    ensures |env'| == |env|
  {
    match s
    case Eval(_) => env
    case Assign(x, e) => Set(env, x, Value(e, a, env))
    case Update(x, op, e) => Set(env, x, a.bin(op, Value(Local(x), a, env), Value(e, a, env)))
    case Step(op, x) => Set(env, x, Stepped(a, op, Value(Local(x), a, env)))
  }

  datatype Outcome = Normal(env: seq<int>) | Broke(env: seq<int>) | Continued(env: seq<int>) | Timeout

  // What a statement does within the given number of loop iterations.
  function Exec(s: Stmt, a: Arith, env: seq<int>, fuel: nat): Outcome
    decreases fuel, s, 0
  {
    match s
    case Do(simple) => Normal(Perform(simple, a, env))
    case Block(body) => ExecAll(body, a, env, fuel)
    case If(cond, thn, els) => if Value(cond, a, env) != 0 then Exec(thn, a, env, fuel) else Exec(els, a, env, fuel)
    case IfOnly(cond, thn) => if Value(cond, a, env) != 0 then Exec(thn, a, env, fuel) else Normal(env)
    case While(cond, loop) =>
      if fuel == 0 then Timeout
      else if Value(cond, a, env) == 0 then Normal(env)
      else (match Exec(loop, a, env, fuel)
        case Broke(env') => Normal(env')
        case Timeout => Timeout
        case Normal(env') => Exec(s, a, env', fuel - 1)
        case Continued(env') => Exec(s, a, env', fuel - 1))
    case DoWhile(loop, cond) =>
      if fuel == 0 then Timeout
      else (match Exec(loop, a, env, fuel)
        case Broke(env') => Normal(env')
        case Timeout => Timeout
        case Normal(env') => if Value(cond, a, env') != 0 then Exec(s, a, env', fuel - 1) else Normal(env')
        case Continued(env') => if Value(cond, a, env') != 0 then Exec(s, a, env', fuel - 1) else Normal(env'))
    case For(init, cond, iter, loop) =>
      ExecFor(cond, iter, loop, a, Perform(init, a, env), fuel)
    case Switch(selector, clauses) => ExecClause(clauses, Selected(clauses, a, env, Value(selector, a, env)), a, env,
      fuel)
    case Break => Broke(env)
    case Continue => Continued(env)
  }

  function ExecClause(clauses: seq<Clause>, i: nat, a: Arith, env: seq<int>, fuel: nat): Outcome
    requires i <= |clauses|
    decreases fuel, clauses, 0
  {
    var k := Landing(clauses, i);
    if k < |clauses| then ExecBody(clauses[k], a, env, fuel) else Normal(env)
  }

  function ExecBody(c: Clause, a: Arith, env: seq<int>, fuel: nat): Outcome
    decreases fuel, c, 0
  { if c.body.Some? then Exec(c.body.value, a, env, fuel) else Normal(env) }

  function ExecFor(cond: Expr, iter: Simple, loop: Stmt, a: Arith, env: seq<int>, fuel: nat): Outcome
    decreases fuel, loop, 1
  {
    if fuel == 0 then Timeout
    else if Value(cond, a, env) == 0 then Normal(env)
    else match Exec(loop, a, env, fuel)
      case Broke(env') => Normal(env')
      case Timeout => Timeout
      case Normal(env') => ExecFor(cond, iter, loop, a, Perform(iter, a, env'), fuel - 1)
      case Continued(env') => ExecFor(cond, iter, loop, a, Perform(iter, a, env'), fuel - 1)
  }

  function ExecAll(body: seq<Stmt>, a: Arith, env: seq<int>, fuel: nat): Outcome
    decreases fuel, body, 0
  {
    if body == [] then Normal(env)
    else match Exec(body[0], a, env, fuel)
      case Normal(env') => ExecAll(body[1..], a, env', fuel)
      case o => o
  }
}
