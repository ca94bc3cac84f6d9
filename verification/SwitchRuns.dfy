/** Runs of the code of a switch: a chain of tests, and bodies that stand elsewhere. */
module SwitchRuns {
  import opened Machine
  import opened Source
  import opened Simulation

  // Where a clause is: its test from t on, which leaves its result in dst, and its statement at d.
  datatype Place = Place(t: int, seg: seq<Instr>, dst: int, d: int)

  // seg compares the value of e to the one in rs, which it keeps.
  ghost predicate TestSegOk(seg: seq<Instr>, dst: int, rs: int, e: Expr, locals: nat, consts: seq<int>, a: Arith)
  {
    && NoJumps(seg)
    && forall regs: seq<int> {:trigger Compares(seg, dst, rs, e, locals, consts, a, regs)} ::
       |regs| == REGS && locals <= REGS ==>
      Compares(seg, dst, rs, e, locals, consts, a, regs)
  }

  ghost predicate Compares(seg: seq<Instr>, dst: int, rs: int, e: Expr, locals: nat, consts: seq<int>, a: Arith,
      regs: seq<int>)
  {
    var regs' := Straight(seg, consts, a, regs);
    && locals <= |regs| && regs'[..locals] == regs[..locals] && Get(consts, regs', rs) == Get(consts, regs, rs)
    && Get(consts, regs', dst) == a.bin(EQ, Get(consts, regs, rs), Value(e, a, regs[..locals]))
  }

  ghost predicate JumpAt(p: Program, at: int, target: int)
  { 0 <= at < |p.code| && p.code[at].Jump? && p.code[at].jop.JMP? && at + p.code[at].sn == target }

  // The code of the test of a clause, up to t1.
  ghost predicate TestCode(p: Program, locals: nat, c: Clause, rs: int, x: Place, t1: int)
  {
    if c.Case? then
      && CodeAt(p, x.t, x.seg) && TestSegOk(x.seg, x.dst, rs, c.test, locals, p.consts, p.arith)
      && t1 == x.t + |x.seg| + 1 <= |p.code| && p.code[t1 - 1] == Jump(JT, x.dst, x.d - (t1 - 1))
    else
      t1 == x.t
  }

  // The code of the statement of a clause, up to d1.
  ghost predicate BodyCode(p: Program, locals: nat, c: Clause, x: Place, d1: int, end: int, brk: int, cont: int)
  {
    if c.body.Some? then StmtOk(c.body.value, p, locals, x.d, d1 - 1, brk, cont) && JumpAt(p, d1 - 1, end)
    else if c.Default? then JumpAt(p, x.d, end)
    else d1 == x.d
  }

  function TestAtClause(xs: seq<Place>, i: nat, e: int): int
  { if i < |xs| then xs[i].t else e }

  function BodyAtClause(xs: seq<Place>, i: nat, end: int): int
  { if i < |xs| then xs[i].d else end }

  ghost predicate ClauseAt(p: Program, locals: nat, clauses: seq<Clause>, rs: int, xs: seq<Place>, i: nat, e: int,
      end: int, brk: int, cont: int)
    requires i < |clauses| == |xs|
  {
    && TestCode(p, locals, clauses[i], rs, xs[i], TestAtClause(xs, i + 1, e))
    && BodyCode(p, locals, clauses[i], xs[i], BodyAtClause(xs, i + 1, end), end, brk, cont)
  }

  // All clauses: at e the jump to the default, or to end without one.
  ghost predicate ClausesCode(p: Program, locals: nat, clauses: seq<Clause>, rs: int, xs: seq<Place>, e: int, end: int,
      brk: int, cont: int)
  {
    && |xs| == |clauses|
    && (forall i: nat {:trigger ClauseAt(p, locals, clauses, rs, xs, i, e, end, brk, cont)} ::
        i < |clauses| ==> ClauseAt(p, locals, clauses, rs, xs, i, e, end, brk, cont))
    && JumpAt(p, e, BodyAtClause(xs, DefaultAt(clauses, 0), end))
  }

  // What holds before a test: no clause before i matched.
  ghost predicate TestingAt(p: Program, locals: nat, start: Config, n: nat, pc: int, env: seq<int>, rs: int, v: int)
  { ReachedAt(p, start, n, pc, env, locals) && Get(p.consts, Run(p, start, n).regs, rs) == v }

  lemma TestRun(p: Program, locals: nat, start: Config, n: nat, env: seq<int>, e: Expr, rs: int, v: int, x: Place)
      returns (n': nat)
    requires TestingAt(p, locals, start, n, x.t, env, rs, v)
    requires CodeAt(p, x.t, x.seg) && TestSegOk(x.seg, x.dst, rs, e, locals, p.consts, p.arith)
    requires x.t + |x.seg| < |p.code| && p.code[x.t + |x.seg|] == Jump(JT, x.dst, x.d - (x.t + |x.seg|))
    ensures TestingAt(p, locals, start, n', if p.arith.bin(EQ, v, Value(e, p.arith, env)) != 0 then x.d
      else x.t + |x.seg| + 1, env, rs, v)
  {
    var regs := Run(p, start, n).regs;
    var m := x.t + |x.seg|;
    RunStraight(p, x.t, x.seg, regs);
    assert Compares(x.seg, x.dst, rs, e, locals, p.consts, p.arith, regs);
    var regs' := Straight(x.seg, p.consts, p.arith, regs);
    RunAdd(p, start, n, |x.seg|);
    RunAdd(p, start, n + |x.seg|, 1);
    RunJump(p, Config(m, regs'));
    n' := n + |x.seg| + 1;
  }

  lemma {:induction false} TestsRun(p: Program, locals: nat, clauses: seq<Clause>, rs: int, xs: seq<Place>, e: int,
      end: int, brk: int, cont: int, start: Config, n: nat, env: seq<int>, v: int, i: nat)
    requires ClausesCode(p, locals, clauses, rs, xs, e, end, brk, cont) && i <= |clauses|
    requires TestingAt(p, locals, start, n, TestAtClause(xs, i, e), env, rs, v)
    ensures var k := FirstMatch(clauses, p.arith, env, v, i);
      Reaches(p, start, if k < |clauses| then xs[k].d else e, env, locals)
    decreases |clauses| - i
  {
    if i == |clauses| {
      assert ReachedAt(p, start, n, e, env, locals);
    } else {
      assert ClauseAt(p, locals, clauses, rs, xs, i, e, end, brk, cont);
      if clauses[i].Default? {
        TestsRun(p, locals, clauses, rs, xs, e, end, brk, cont, start, n, env, v, i + 1);
      } else {
        var n' := TestRun(p, locals, start, n, env, clauses[i].test, rs, v, xs[i]);
        if p.arith.bin(EQ, v, Value(clauses[i].test, p.arith, env)) != 0 {
          assert ReachedAt(p, start, n', xs[i].d, env, locals);
        } else {
          TestsRun(p, locals, clauses, rs, xs, e, end, brk, cont, start, n', env, v, i + 1);
        }
      }
    }
  }

  lemma JumpReaches(p: Program, start: Config, at: int, target: int, env: seq<int>, locals: nat)
    requires JumpAt(p, at, target) && Reaches(p, start, at, env, locals)
    ensures Reaches(p, start, target, env, locals)
  {
    ReachesMore(p, start, at, env, locals);
  }

  // A statement entered at d, followed by a jump to end.
  lemma BodyRun(p: Program, locals: nat, s: Stmt, start: Config, env: seq<int>, d: int, d1: int, end: int, brk: int,
      cont: int, fuel: nat)
    requires Reaches(p, start, d, env, locals) && StmtOk(s, p, locals, d, d1 - 1, brk, cont) && JumpAt(p, d1 - 1, end)
    ensures OutcomeOk(p, start, locals, Exec(s, p.arith, env, fuel), end, brk, cont, fuel)
  {
    var n: nat :| ReachedAt(p, start, n, d, env, locals);
    var o := Exec(s, p.arith, env, fuel);
    EnterRuns(p, locals, s, start, n, Run(p, start, n).regs, d, d1 - 1, brk, cont, fuel);
    if o.Normal? { JumpReaches(p, start, d1 - 1, end, o.env, locals); }
    OutcomeAfter(p, start, 0, locals, o, end, brk, cont, fuel + n, fuel);
  }

  lemma {:induction false} ClauseRuns(p: Program, locals: nat, clauses: seq<Clause>, rs: int, xs: seq<Place>, e: int,
      end: int, brk: int, cont: int, start: Config, env: seq<int>, i: nat, fuel: nat)
    requires ClausesCode(p, locals, clauses, rs, xs, e, end, brk, cont) && i <= |clauses|
    requires Reaches(p, start, BodyAtClause(xs, i, end), env, locals)
    ensures OutcomeOk(p, start, locals, ExecClause(clauses, i, p.arith, env, fuel), end, brk, cont, fuel)
    decreases |clauses| - i
  {
    if i < |clauses| {
      assert ClauseAt(p, locals, clauses, rs, xs, i, e, end, brk, cont);
      var c := clauses[i];
      if c.body.Some? {
        BodyRun(p, locals, c.body.value, start, env, xs[i].d, BodyAtClause(xs, i + 1, end), end, brk, cont, fuel);
      } else if c.Default? {
        JumpReaches(p, start, xs[i].d, end, env, locals);
      } else {
        ClauseRuns(p, locals, clauses, rs, xs, e, end, brk, cont, start, env, i + 1, fuel);
      }
    }
  }

  lemma SwitchOk(p: Program, locals: nat, selector: Expr, clauses: seq<Clause>, seg: seq<Instr>, rs: int,
      xs: seq<Place>, a: int, e: int, end: int, brk: int, cont: int)
    requires CodeAt(p, a, seg) && SegOk(seg, rs, selector, locals, p.consts, p.arith)
    requires TestAtClause(xs, 0, e) == a + |seg| && ClausesCode(p, locals, clauses, rs, xs, e, end, brk, cont)
    ensures StmtOk(Switch(selector, clauses), p, locals, a, end, brk, cont)
  {
    var s := Switch(selector, clauses);
    forall regs: seq<int>, fuel: nat | |regs| == REGS && locals <= REGS
      ensures Does(s, p, locals, a, end, brk, cont, regs, fuel)
    {
      var env, start, v := regs[..locals], Config(a, regs), Value(selector, p.arith, regs[..locals]);
      var regs' := SegRuns(p, locals, selector, a, a + |seg|, seg, rs, regs);
      assert TestingAt(p, locals, start, |seg|, a + |seg|, env, rs, v);
      TestsRun(p, locals, clauses, rs, xs, e, end, brk, cont, start, |seg|, env, v, 0);
      var k := FirstMatch(clauses, p.arith, env, v, 0);
      if k == |clauses| { JumpReaches(p, start, e, BodyAtClause(xs, DefaultAt(clauses, 0), end), env, locals); }
      ClauseRuns(p, locals, clauses, rs, xs, e, end, brk, cont, start, env, Selected(clauses, p.arith, env, v), fuel);
    }
  }
}
