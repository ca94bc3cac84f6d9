/** Meaning of code fragments: they step from source states to source states, whatever code they are part of. */
module Simulation {
  import opened Machine
  import opened Source

  const REGS := 256

  ghost predicate ReachedAt(p: Program, c: Config, n: nat, pc: int, env: seq<int>, locals: nat)
  {
    var d := Run(p, c, n);
    d.pc == pc && |d.regs| == REGS && locals <= REGS && d.regs[..locals] == env
  }

  // The machine gets from c to pc with the locals env.
  ghost predicate Reaches(p: Program, c: Config, pc: int, env: seq<int>, locals: nat)
  { exists n: nat :: ReachedAt(p, c, n, pc, env, locals) }

  // The machine is still running after the given number of steps.
  ghost predicate Lasts(p: Program, c: Config, steps: nat)
  { Running(p, Run(p, c, steps)) }

  ghost predicate OutcomeOk(p: Program, c: Config, locals: nat, o: Outcome, end: int, brk: int, cont: int, fuel: nat)
  {
    match o
    case Normal(env) => Reaches(p, c, end, env, locals)
    case Broke(env) => Reaches(p, c, brk, env, locals)
    case Continued(env) => Reaches(p, c, cont, env, locals)
    case Timeout => Lasts(p, c, fuel)
  }

  // The code from start on does what s does: it leaves at end, or at brk or cont after a break or a continue.
  ghost predicate StmtOk(s: Stmt, p: Program, locals: nat, start: int, end: int, brk: int, cont: int)
  {
    forall regs: seq<int>, fuel: nat {:trigger Does(s, p, locals, start, end, brk, cont, regs, fuel)} ::
      |regs| == REGS && locals <= REGS ==> Does(s, p, locals, start, end, brk, cont, regs, fuel)
  }

  ghost predicate Does(s: Stmt, p: Program, locals: nat, start: int, end: int, brk: int, cont: int, regs: seq<int>,
      fuel: nat)
  {
    && locals <= |regs|
    && OutcomeOk(p, Config(start, regs), locals, Exec(s, p.arith, regs[..locals], fuel), end, brk, cont, fuel)
  }

  ghost predicate SegOk(seg: seq<Instr>, r: int, e: Expr, locals: nat, consts: seq<int>, a: Arith)
  {
    && NoJumps(seg)
    && forall regs: seq<int> {:trigger SegComputes(seg, r, e, locals, consts, a, regs)} ::
       |regs| == REGS && locals <= REGS ==>
      SegComputes(seg, r, e, locals, consts, a, regs)
  }

  ghost predicate SegComputes(seg: seq<Instr>, r: int, e: Expr, locals: nat, consts: seq<int>, a: Arith, regs: seq<int>)
  {
    && locals <= |regs|
    && Get(consts, Straight(seg, consts, a, regs), r) == Value(e, a, regs[..locals])
    && Straight(seg, consts, a, regs)[..locals] == regs[..locals]
  }

  ghost predicate SimpleOk(seg: seq<Instr>, s: Simple, locals: nat, consts: seq<int>, a: Arith)
  {
    && NoJumps(seg)
    && forall regs: seq<int> {:trigger Performs(seg, s, locals, consts, a, regs)} ::
       |regs| == REGS && locals <= REGS ==>
      Performs(seg, s, locals, consts, a, regs)
  }

  ghost predicate Performs(seg: seq<Instr>, s: Simple, locals: nat, consts: seq<int>, a: Arith, regs: seq<int>)
  { locals <= |regs| && Straight(seg, consts, a, regs)[..locals] == Perform(s, a, regs[..locals]) }

  lemma {:induction false} NextStopped(p: Program, c: Config, n: nat)
    requires !Running(p, c)
    ensures Run(p, c, n) == c
    decreases n
  {
    if n > 0 { NextStopped(p, c, n - 1); }
  }

  lemma LastsLess(p: Program, c: Config, m: nat, n: nat)
    requires Lasts(p, c, n) && m <= n
    ensures Lasts(p, c, m)
  {
    RunAdd(p, c, m, n - m);
    if !Running(p, Run(p, c, m)) { NextStopped(p, Run(p, c, m), n - m); }
  }

  lemma OutcomeAfter(p: Program, c: Config, n: nat, locals: nat, o: Outcome, end: int, brk: int, cont: int, fuel: nat,
      fuel': nat)
    requires OutcomeOk(p, Run(p, c, n), locals, o, end, brk, cont, fuel) && fuel' <= fuel + n
    ensures OutcomeOk(p, c, locals, o, end, brk, cont, fuel')
  {
    var d := Run(p, c, n);
    match o
    case Timeout =>
      RunAdd(p, c, n, fuel);
      LastsLess(p, c, fuel', n + fuel);
    case Normal(env) => ReachesAfter(p, c, n, end, env, locals);
    case Broke(env) => ReachesAfter(p, c, n, brk, env, locals);
    case Continued(env) => ReachesAfter(p, c, n, cont, env, locals);
  }

  lemma ReachesAfter(p: Program, c: Config, n: nat, pc: int, env: seq<int>, locals: nat)
    requires Reaches(p, Run(p, c, n), pc, env, locals)
    ensures Reaches(p, c, pc, env, locals)
  {
    var m: nat :| ReachedAt(p, Run(p, c, n), m, pc, env, locals);
    RunAdd(p, c, n, m);
    assert ReachedAt(p, c, n + m, pc, env, locals);
  }

  // A condition followed by a jump on it.
  ghost predicate TestAt(p: Program, a: int, m: int, seg: seq<Instr>, op: JumpOp, r: int, target: int)
  {
    && CodeAt(p, a, seg) && m == a + |seg| && m < |p.code|
    && p.code[m] == Jump(op, r, target - m)
  }

  lemma RunJump(p: Program, c: Config)
    requires 0 <= c.pc < |p.code| && p.code[c.pc].Jump?
    ensures var i := p.code[c.pc];
      Run(p, c, 1) == Config(if Taken(i.jop, Get(p.consts, c.regs, i.rn)) then c.pc + i.sn else c.pc + 1, c.regs)
  {
    assert Run(p, c, 1) == Run(p, Next(p, c), 0);
  }

  lemma SegRuns(p: Program, locals: nat, cond: Expr, a: int, m: int, seg: seq<Instr>, r: int, regs: seq<int>)
      returns (regs': seq<int>)
    requires CodeAt(p, a, seg) && m == a + |seg| && SegOk(seg, r, cond, locals, p.consts, p.arith)
    requires |regs| == REGS && locals <= REGS
    ensures |regs'| == REGS && regs'[..locals] == regs[..locals]
      && Get(p.consts, regs', r) == Value(cond, p.arith, regs[..locals])
    ensures Run(p, Config(a, regs), |seg|) == Config(m, regs')
  {
    RunStraight(p, a, seg, regs);
    regs' := Straight(seg, p.consts, p.arith, regs);
    assert SegComputes(seg, r, cond, locals, p.consts, p.arith, regs);
  }

  lemma TestRuns(p: Program, locals: nat, cond: Expr, a: int, m: int, seg: seq<Instr>, op: JumpOp, r: int, target: int,
      regs: seq<int>)
      returns (n: nat, regs': seq<int>)
    requires TestAt(p, a, m, seg, op, r, target) && SegOk(seg, r, cond, locals, p.consts, p.arith)
    requires |regs| == REGS && locals <= REGS
    ensures n > 0 && |regs'| == REGS && regs'[..locals] == regs[..locals]
    ensures Run(p, Config(a, regs), n) ==
      Config(if Taken(op, Value(cond, p.arith, regs[..locals])) then target else m + 1, regs')
  {
    regs' := SegRuns(p, locals, cond, a, m, seg, r, regs);
    n := |seg| + 1;
    RunAdd(p, Config(a, regs), |seg|, 1);
    RunJump(p, Config(m, regs'));
  }

  // A test of a condition and a statement: what happens when the statement is entered.
  lemma EnterRuns(p: Program, locals: nat, s: Stmt, c: Config, n: nat, regs: seq<int>, start: int, end: int, brk: int,
      cont: int, fuel: nat)
    requires StmtOk(s, p, locals, start, end, brk, cont) && |regs| == REGS && locals <= REGS
    requires Run(p, c, n) == Config(start, regs)
    ensures OutcomeOk(p, c, locals, Exec(s, p.arith, regs[..locals], fuel), end, brk, cont, fuel + n)
  {
    var o := Exec(s, p.arith, regs[..locals], fuel);
    assert Does(s, p, locals, start, end, brk, cont, regs, fuel);
    OutcomeAfter(p, c, n, locals, o, end, brk, cont, fuel, fuel + n);
  }

  // From a point where the machine has env it jumps back.
  lemma BackRuns(p: Program, c: Config, pc: int, env: seq<int>, locals: nat) returns (n: nat, regs: seq<int>)
    requires Reaches(p, c, pc, env, locals) && 0 <= pc < |p.code| && p.code[pc].Jump? && p.code[pc].jop.JMP?
    ensures n > 0 && |regs| == REGS && locals <= REGS && regs[..locals] == env
    ensures Run(p, c, n) == Config(pc + p.code[pc].sn, regs)
  {
    var k: nat :| ReachedAt(p, c, k, pc, env, locals);
    RunAdd(p, c, k, 1);
    RunJump(p, Run(p, c, k));
    n, regs := k + 1, Run(p, c, k).regs;
  }

  // a: cond, m: JF to b, m + 1: loop, c: JMP to a, b
  ghost predicate WhileCode(p: Program, locals: nat, cond: Expr, loop: Stmt, seg: seq<Instr>, r: int, a: int, m: int,
      c: int, b: int)
  {
    && TestAt(p, a, m, seg, JF, r, b) && SegOk(seg, r, cond, locals, p.consts, p.arith)
    && StmtOk(loop, p, locals, m + 1, c, b, c)
    && 0 <= c < |p.code| && p.code[c].Jump? && p.code[c].jop.JMP? && p.code[c].sn == a - c && b == c + 1
  }

  lemma CodeRunning(p: Program, a: int, m: int, seg: seq<Instr>, op: JumpOp, r: int, target: int, regs: seq<int>)
    requires TestAt(p, a, m, seg, op, r, target) && NoJumps(seg)
    ensures Running(p, Config(a, regs))
  {
    if seg != [] { assert p.code[a..a + |seg|][0] == p.code[a]; }
  }

  lemma {:induction false} WhileRuns(p: Program, locals: nat, cond: Expr, loop: Stmt, seg: seq<Instr>, r: int, a: int,
      m: int, c: int, b: int, brk: int, cont: int, regs: seq<int>, fuel: nat)
    requires WhileCode(p, locals, cond, loop, seg, r, a, m, c, b)
    requires |regs| == REGS && locals <= REGS
    ensures OutcomeOk(p, Config(a, regs), locals, Exec(While(cond, loop), p.arith, regs[..locals], fuel), b, brk, cont,
      fuel)
    decreases fuel
  {
    var env, start := regs[..locals], Config(a, regs);
    if fuel == 0 {
      CodeRunning(p, a, m, seg, JF, r, b, regs);
    } else {
      var n, regs1 := TestRuns(p, locals, cond, a, m, seg, JF, r, b, regs);
      if Value(cond, p.arith, env) == 0 {
        assert ReachedAt(p, start, n, b, env, locals);
      } else {
        var o := Exec(loop, p.arith, env, fuel);
        EnterRuns(p, locals, loop, start, n, regs1, m + 1, c, b, c, fuel);
        if o.Normal? || o.Continued? {
          var k, regs2 := BackRuns(p, start, c, o.env, locals);
          WhileRuns(p, locals, cond, loop, seg, r, a, m, c, b, brk, cont, regs2, fuel - 1);
          OutcomeAfter(p, start, k, locals, Exec(While(cond, loop), p.arith, o.env, fuel - 1), b, brk, cont, fuel - 1,
            fuel);
        } else if o.Timeout? {
          LastsLess(p, start, fuel, fuel + n);
        }
      }
    }
  }

  lemma WhileOk(p: Program, locals: nat, cond: Expr, loop: Stmt, seg: seq<Instr>, r: int, a: int, m: int, c: int,
      b: int, brk: int, cont: int)
    requires WhileCode(p, locals, cond, loop, seg, r, a, m, c, b)
    ensures StmtOk(While(cond, loop), p, locals, a, b, brk, cont)
  {
    forall regs: seq<int>, fuel: nat | |regs| == REGS && locals <= REGS
      ensures Does(While(cond, loop), p, locals, a, b, brk, cont, regs, fuel)
    {
      WhileRuns(p, locals, cond, loop, seg, r, a, m, c, b, brk, cont, regs, fuel);
    }
  }

  // a: loop, c: cond, m: JT to a, b
  ghost predicate DoWhileCode(p: Program, locals: nat, cond: Expr, loop: Stmt, seg: seq<Instr>, r: int, a: int, c: int,
      m: int, b: int)
  {
    && StmtOk(loop, p, locals, a, c, b, c)
    && TestAt(p, c, m, seg, JT, r, a) && SegOk(seg, r, cond, locals, p.consts, p.arith)
    && b == m + 1 && 0 <= a < |p.code| && !p.code[a].End?
  }

  // The test at the end of a loop body that was left at c.
  lemma TestAfter(p: Program, locals: nat, start: Config, env: seq<int>, cond: Expr, c: int, m: int, seg: seq<Instr>,
      op: JumpOp, r: int, target: int)
      returns (n: nat, regs: seq<int>)
    requires Reaches(p, start, c, env, locals)
    requires TestAt(p, c, m, seg, op, r, target) && SegOk(seg, r, cond, locals, p.consts, p.arith)
    ensures n > 0 && |regs| == REGS && locals <= REGS && regs[..locals] == env
    ensures Run(p, start, n) == Config(if Taken(op, Value(cond, p.arith, env)) then target else m + 1, regs)
  {
    var k: nat :| ReachedAt(p, start, k, c, env, locals);
    var l, regs' := TestRuns(p, locals, cond, c, m, seg, op, r, target, Run(p, start, k).regs);
    RunAdd(p, start, k, l);
    n, regs := k + l, regs';
  }

  lemma {:induction false} DoWhileRuns(p: Program, locals: nat, cond: Expr, loop: Stmt, seg: seq<Instr>, r: int, a: int,
      c: int, m: int, b: int, brk: int, cont: int, regs: seq<int>, fuel: nat)
    requires DoWhileCode(p, locals, cond, loop, seg, r, a, c, m, b)
    requires |regs| == REGS && locals <= REGS
    ensures OutcomeOk(p, Config(a, regs), locals, Exec(DoWhile(loop, cond), p.arith, regs[..locals], fuel), b, brk,
      cont, fuel)
    decreases fuel
  {
    var env, start := regs[..locals], Config(a, regs);
    if fuel > 0 {
      var o := Exec(loop, p.arith, env, fuel);
      EnterRuns(p, locals, loop, start, 0, regs, a, c, b, c, fuel);
      if o.Normal? || o.Continued? {
        var k, regs2 := TestAfter(p, locals, start, o.env, cond, c, m, seg, JT, r, a);
        if Value(cond, p.arith, o.env) == 0 {
          assert ReachedAt(p, start, k, b, o.env, locals);
        } else {
          DoWhileRuns(p, locals, cond, loop, seg, r, a, c, m, b, brk, cont, regs2, fuel - 1);
          OutcomeAfter(p, start, k, locals, Exec(DoWhile(loop, cond), p.arith, o.env, fuel - 1), b, brk, cont, fuel - 1,
            fuel);
        }
      }
    }
  }

  lemma DoWhileOk(p: Program, locals: nat, cond: Expr, loop: Stmt, seg: seq<Instr>, r: int, a: int, c: int, m: int,
      b: int, brk: int, cont: int)
    requires DoWhileCode(p, locals, cond, loop, seg, r, a, c, m, b)
    ensures StmtOk(DoWhile(loop, cond), p, locals, a, b, brk, cont)
  {
    forall regs: seq<int>, fuel: nat | |regs| == REGS && locals <= REGS
      ensures Does(DoWhile(loop, cond), p, locals, a, b, brk, cont, regs, fuel)
    {
      DoWhileRuns(p, locals, cond, loop, seg, r, a, c, m, b, brk, cont, regs, fuel);
    }
  }

  // a: init, i: cond, m: JF to b, m + 1: loop, c: iterator, d: JMP to i, b
  ghost predicate ForCode(p: Program, locals: nat, cond: Expr, iter: Simple, loop: Stmt, seg: seq<Instr>, r: int,
      step: seq<Instr>, i: int, m: int, c: int, d: int, b: int)
  {
    && TestAt(p, i, m, seg, JF, r, b) && SegOk(seg, r, cond, locals, p.consts, p.arith)
    && StmtOk(loop, p, locals, m + 1, c, b, c)
    && CodeAt(p, c, step) && d == c + |step| && SimpleOk(step, iter, locals, p.consts, p.arith)
    && 0 <= d < |p.code| && p.code[d].Jump? && p.code[d].jop.JMP? && p.code[d].sn == i - d && b == d + 1
  }

  // The iterator, for a loop body that was left at c.
  lemma SimpleAfter(p: Program, locals: nat, start: Config, env: seq<int>, s: Simple, c: int, seg: seq<Instr>)
    requires Reaches(p, start, c, env, locals) && CodeAt(p, c, seg) && SimpleOk(seg, s, locals, p.consts, p.arith)
    ensures Reaches(p, start, c + |seg|, Perform(s, p.arith, env), locals)
  {
    var k: nat :| ReachedAt(p, start, k, c, env, locals);
    var regs := Run(p, start, k).regs;
    RunStraight(p, c, seg, regs);
    assert Performs(seg, s, locals, p.consts, p.arith, regs);
    RunAdd(p, start, k, |seg|);
    assert ReachedAt(p, start, k + |seg|, c + |seg|, Perform(s, p.arith, env), locals);
  }

  lemma {:induction false} ForRuns(p: Program, locals: nat, cond: Expr, iter: Simple, loop: Stmt, seg: seq<Instr>,
      r: int, step: seq<Instr>, i: int, m: int, c: int, d: int, b: int, brk: int, cont: int, regs: seq<int>, fuel: nat)
    requires ForCode(p, locals, cond, iter, loop, seg, r, step, i, m, c, d, b)
    requires |regs| == REGS && locals <= REGS
    ensures OutcomeOk(p, Config(i, regs), locals, ExecFor(cond, iter, loop, p.arith, regs[..locals], fuel), b, brk,
      cont, fuel)
    decreases fuel
  {
    hide StmtOk, SimpleOk, NoJumps;
    var env, start := regs[..locals], Config(i, regs);
    if fuel == 0 {
      CodeRunning(p, i, m, seg, JF, r, b, regs);
    } else {
      var n, regs1 := TestRuns(p, locals, cond, i, m, seg, JF, r, b, regs);
      if Value(cond, p.arith, env) == 0 {
        assert ReachedAt(p, start, n, b, env, locals);
      } else {
        var o := Exec(loop, p.arith, env, fuel);
        EnterRuns(p, locals, loop, start, n, regs1, m + 1, c, b, c, fuel);
        if o.Normal? || o.Continued? {
          SimpleAfter(p, locals, start, o.env, iter, c, step);
          var env' := Perform(iter, p.arith, o.env);
          var k, regs2 := BackRuns(p, start, d, env', locals);
          ForRuns(p, locals, cond, iter, loop, seg, r, step, i, m, c, d, b, brk, cont, regs2, fuel - 1);
          OutcomeAfter(p, start, k, locals, ExecFor(cond, iter, loop, p.arith, env', fuel - 1), b, brk, cont, fuel - 1,
            fuel);
        } else if o.Timeout? {
          LastsLess(p, start, fuel, fuel + n);
        }
      }
    }
  }

  lemma SimpleRuns(p: Program, locals: nat, s: Simple, a: int, b: int, seg: seq<Instr>, regs: seq<int>)
    requires CodeAt(p, a, seg) && b == a + |seg| && SimpleOk(seg, s, locals, p.consts, p.arith) && |regs| == REGS
      && locals <= REGS
    ensures Reaches(p, Config(a, regs), b, Perform(s, p.arith, regs[..locals]), locals)
  {
    assert ReachedAt(p, Config(a, regs), 0, a, regs[..locals], locals);
    SimpleAfter(p, locals, Config(a, regs), regs[..locals], s, a, seg);
  }

  lemma DoOk(p: Program, locals: nat, s: Simple, a: int, b: int, seg: seq<Instr>, brk: int, cont: int)
    requires CodeAt(p, a, seg) && b == a + |seg| && SimpleOk(seg, s, locals, p.consts, p.arith)
    ensures StmtOk(Do(s), p, locals, a, b, brk, cont)
  {
    forall regs: seq<int>, fuel: nat | |regs| == REGS && locals <= REGS
      ensures Does(Do(s), p, locals, a, b, brk, cont, regs, fuel)
    {
      SimpleRuns(p, locals, s, a, b, seg, regs);
    }
  }

  lemma ForOk(p: Program, locals: nat, init: Simple, cond: Expr, iter: Simple, loop: Stmt, first: seq<Instr>,
      seg: seq<Instr>, r: int, step: seq<Instr>, a: int, i: int, m: int, c: int, d: int, b: int, brk: int, cont: int)
    requires CodeAt(p, a, first) && i == a + |first| && SimpleOk(first, init, locals, p.consts, p.arith)
    requires ForCode(p, locals, cond, iter, loop, seg, r, step, i, m, c, d, b)
    ensures StmtOk(For(init, cond, iter, loop), p, locals, a, b, brk, cont)
  {
    var s := For(init, cond, iter, loop);
    forall regs: seq<int>, fuel: nat | |regs| == REGS && locals <= REGS
      ensures Does(s, p, locals, a, b, brk, cont, regs, fuel)
    {
      SimpleRuns(p, locals, init, a, i, first, regs);
      var env := Perform(init, p.arith, regs[..locals]);
      var k: nat :| ReachedAt(p, Config(a, regs), k, i, env, locals);
      var regs1 := Run(p, Config(a, regs), k).regs;
      ForRuns(p, locals, cond, iter, loop, seg, r, step, i, m, c, d, b, brk, cont, regs1, fuel);
      OutcomeAfter(p, Config(a, regs), k, locals, Exec(s, p.arith, regs[..locals], fuel), b, brk, cont, fuel, fuel);
    }
  }

  lemma {:induction false} ExecAppend(pre: seq<Stmt>, s: Stmt, a: Arith, env: seq<int>, fuel: nat)
    ensures var o := ExecAll(pre, a, env, fuel);
      ExecAll(pre + [s], a, env, fuel) == if o.Normal? then Exec(s, a, o.env, fuel) else o
    decreases |pre|
  {
    if pre == [] {
      assert (pre + [s])[0] == s && (pre + [s])[1..] == [];
    } else {
      assert (pre + [s])[0] == pre[0] && (pre + [s])[1..] == pre[1..] + [s];
      var o := Exec(pre[0], a, env, fuel);
      if o.Normal? { ExecAppend(pre[1..], s, a, o.env, fuel); }
    }
  }

  // A statement after a list of statements.
  lemma AppendOk(p: Program, locals: nat, pre: seq<Stmt>, s: Stmt, a: int, m: int, b: int, brk: int, cont: int)
    requires StmtOk(Block(pre), p, locals, a, m, brk, cont) && StmtOk(s, p, locals, m, b, brk, cont)
    ensures StmtOk(Block(pre + [s]), p, locals, a, b, brk, cont)
  {
    forall regs: seq<int>, fuel: nat | |regs| == REGS && locals <= REGS
      ensures Does(Block(pre + [s]), p, locals, a, b, brk, cont, regs, fuel)
    {
      var env, start := regs[..locals], Config(a, regs);
      ExecAppend(pre, s, p.arith, env, fuel);
      assert Does(Block(pre), p, locals, a, m, brk, cont, regs, fuel);
      var o := Exec(Block(pre), p.arith, env, fuel);
      if o.Normal? {
        var k: nat :| ReachedAt(p, start, k, m, o.env, locals);
        EnterRuns(p, locals, s, start, k, Run(p, start, k).regs, m, b, brk, cont, fuel);
        OutcomeAfter(p, start, 0, locals, Exec(s, p.arith, o.env, fuel), b, brk, cont, fuel + k, fuel);
      }
    }
  }

  lemma EmptyDoes(s: Stmt, p: Program, locals: nat, a: int, brk: int, cont: int, regs: seq<int>, fuel: nat)
    requires s == Block([]) && |regs| == REGS && locals <= REGS
    ensures Does(s, p, locals, a, a, brk, cont, regs, fuel)
  {
    assert ReachedAt(p, Config(a, regs), 0, a, regs[..locals], locals);
  }

  lemma EmptyOk(s: Stmt, p: Program, locals: nat, a: int, brk: int, cont: int)
    requires s == Block([])
    ensures StmtOk(s, p, locals, a, a, brk, cont)
  {
    forall regs: seq<int>, fuel: nat | |regs| == REGS && locals <= REGS
      ensures Does(s, p, locals, a, a, brk, cont, regs, fuel)
    {
      EmptyDoes(s, p, locals, a, brk, cont, regs, fuel);
    }
  }

  lemma ReachesMore(p: Program, start: Config, pc: int, env: seq<int>, locals: nat)
    requires Reaches(p, start, pc, env, locals) && 0 <= pc < |p.code| && p.code[pc].Jump? && p.code[pc].jop.JMP?
    ensures Reaches(p, start, pc + p.code[pc].sn, env, locals)
  {
    var n, regs := BackRuns(p, start, pc, env, locals);
    assert ReachedAt(p, start, n, pc + p.code[pc].sn, env, locals);
  }

  // A jump to brk or cont.
  lemma LeaveOk(s: Stmt, p: Program, locals: nat, a: int, b: int, brk: int, cont: int)
    requires s.Break? || s.Continue?
    requires 0 <= a < |p.code| && p.code[a].Jump? && p.code[a].jop.JMP? && a + p.code[a].sn == if s.Break? then brk
      else cont
    ensures StmtOk(s, p, locals, a, b, brk, cont)
  {
    forall regs: seq<int>, fuel: nat | |regs| == REGS && locals <= REGS
      ensures Does(s, p, locals, a, b, brk, cont, regs, fuel)
    {
      assert ReachedAt(p, Config(a, regs), 0, a, regs[..locals], locals);
      ReachesMore(p, Config(a, regs), a, regs[..locals], locals);
    }
  }

  // a: cond, m: JF to e, m + 1: thn, e
  lemma IfOnlyOk(p: Program, locals: nat, cond: Expr, thn: Stmt, seg: seq<Instr>, r: int, a: int, m: int, e: int,
      brk: int, cont: int)
    requires TestAt(p, a, m, seg, JF, r, e) && SegOk(seg, r, cond, locals, p.consts, p.arith)
    requires StmtOk(thn, p, locals, m + 1, e, brk, cont)
    ensures StmtOk(IfOnly(cond, thn), p, locals, a, e, brk, cont)
  {
    forall regs: seq<int>, fuel: nat | |regs| == REGS && locals <= REGS
      ensures Does(IfOnly(cond, thn), p, locals, a, e, brk, cont, regs, fuel)
    {
      var env, start := regs[..locals], Config(a, regs);
      var n, regs1 := TestRuns(p, locals, cond, a, m, seg, JF, r, e, regs);
      if Value(cond, p.arith, env) == 0 {
        assert ReachedAt(p, start, n, e, env, locals);
      } else {
        EnterRuns(p, locals, thn, start, n, regs1, m + 1, e, brk, cont, fuel);
        OutcomeAfter(p, start, 0, locals, Exec(thn, p.arith, env, fuel), e, brk, cont, fuel + n, fuel);
      }
    }
  }

  // a: cond, m: JF to e, m + 1: thn, j: JMP to b, e: els, b
  lemma IfOk(p: Program, locals: nat, cond: Expr, thn: Stmt, els: Stmt, seg: seq<Instr>, r: int, a: int, m: int, j: int,
      e: int, b: int, brk: int, cont: int)
    requires TestAt(p, a, m, seg, JF, r, e) && SegOk(seg, r, cond, locals, p.consts, p.arith)
    requires StmtOk(thn, p, locals, m + 1, j, brk, cont) && StmtOk(els, p, locals, e, b, brk, cont)
    requires 0 <= j < |p.code| && p.code[j].Jump? && p.code[j].jop.JMP? && j + p.code[j].sn == b
    ensures StmtOk(If(cond, thn, els), p, locals, a, b, brk, cont)
  {
    forall regs: seq<int>, fuel: nat | |regs| == REGS && locals <= REGS
      ensures Does(If(cond, thn, els), p, locals, a, b, brk, cont, regs, fuel)
    {
      var env, start := regs[..locals], Config(a, regs);
      var n, regs1 := TestRuns(p, locals, cond, a, m, seg, JF, r, e, regs);
      if Value(cond, p.arith, env) == 0 {
        EnterRuns(p, locals, els, start, n, regs1, e, b, brk, cont, fuel);
        OutcomeAfter(p, start, 0, locals, Exec(els, p.arith, env, fuel), b, brk, cont, fuel + n, fuel);
      } else {
        EnterRuns(p, locals, thn, start, n, regs1, m + 1, j, brk, cont, fuel);
        var o := Exec(thn, p.arith, env, fuel);
        if o.Normal? { ReachesMore(p, start, j, o.env, locals); }
        OutcomeAfter(p, start, 0, locals, o, b, brk, cont, fuel + n, fuel);
      }
    }
  }
}
