/** Whole functions: from layouts to the final code and its runs. */
module Functions {
  import opened Machine
  import opened Source
  import opened Simulation
  import opened Slots
  import opened Codegen
  import opened Layout
  import opened Tokens
  import opened Reconciliation

  ghost predicate EndedAt(p: Program, frame: seq<int>, n: nat, env: seq<int>, locals: nat)
  {
    var d := Run(p, Config(0, frame), n);
    0 <= d.pc < |p.code| && p.code[d.pc].End? && locals <= |d.regs| && d.regs[..locals] == env
  }

  // What the code of a function does on a frame: it ends with the locals of the source statement,
  // or it is still running when the source statement is.
  ghost predicate FunctionDoes(body: seq<Stmt>, p: Program, locals: nat, frame: seq<int>, fuel: nat)
    requires locals <= |frame|
  {
    match Exec(Block(body), p.arith, frame[..locals], fuel)
    case Normal(env) => exists n: nat :: EndedAt(p, frame, n, env, locals)
    case Timeout => Running(p, Run(p, Config(0, frame), fuel))
    case Broke(_) => false
    case Continued(_) => false
  }

  ghost predicate FunctionOk(body: seq<Stmt>, code: seq<Instr>, constants: seq<int>, locals: nat, size: nat)
  {
    && locals <= size && CodeIn(code, size, 256)
    && forall a: Arith, frame: seq<int>, fuel: nat {:trigger FunctionDoes(body, Program(code, constants, a), locals,
       frame, fuel)} ::
      |frame| == size ==> FunctionDoes(body, Program(code, constants, a), locals, frame, fuel)
  }

  lemma {:induction false} StmtUsesOk(s: Stmt, inLoop: bool, deferred: bool, locals: nat)
    requires Supported(s, inLoop, deferred, locals)
    ensures StmtUses(s) <= locals
    decreases s, 1
  {
    match s
    case Do(_) =>
    case Block(body) => AllUsesOk(body, inLoop, deferred, locals);
    case If(_, thn, els) => StmtUsesOk(thn, inLoop, deferred, locals); StmtUsesOk(els, inLoop, deferred, locals);
    case IfOnly(_, thn) => StmtUsesOk(thn, inLoop, deferred, locals);
    case While(_, loop) => StmtUsesOk(loop, true, deferred, locals);
    case DoWhile(loop, _) => StmtUsesOk(loop, true, deferred, locals);
    case For(_, _, _, loop) => StmtUsesOk(loop, true, deferred, locals);
    case Switch(_, clauses) => ClauseUsesOk(clauses, locals);
    case Break =>
    case Continue =>
  }

  lemma {:induction false} AllUsesOk(body: seq<Stmt>, inLoop: bool, deferred: bool, locals: nat)
    requires forall i :: 0 <= i < |body| ==> Supported(body[i], inLoop, deferred, locals)
    ensures AllUses(body) <= locals
    decreases body, 0
  {
    if body != [] {
      StmtUsesOk(body[0], inLoop, deferred, locals);
      AllUsesOk(body[1..], inLoop, deferred, locals);
    }
  }

  lemma {:induction false} ClauseUsesOk(clauses: seq<Clause>, locals: nat)
    requires forall i :: 0 <= i < |clauses| ==> ClauseSupported(clauses[i], locals)
    ensures ClauseUses(clauses) <= locals
    decreases clauses, 0
  {
    if clauses != [] {
      OneUsesOk(clauses[0], locals);
      ClauseUsesOk(clauses[1..], locals);
    }
  }

  predicate ClauseSupported(c: Clause, locals: nat)
  { (c.Case? ==> Uses(c.test) <= locals) && (c.body.Some? ==> Supported(c.body.value, false, true, locals)) }

  lemma {:induction false} OneUsesOk(c: Clause, locals: nat)
    requires ClauseSupported(c, locals)
    ensures OneClauseUses(c) <= locals
    decreases c, 0
  {
    if c.body.Some? { StmtUsesOk(c.body.value, false, true, locals); }
  }

  predicate Stays(o: Outcome)
  { o.Normal? || o.Timeout? }

  // Only a break or a continue leaves a loop, and neither leaves the loop around it.
  lemma {:induction false} StmtStays(s: Stmt, inLoop: bool, deferred: bool, locals: nat, a: Arith, env: seq<int>,
      fuel: nat)
    requires Supported(s, inLoop, deferred, locals) && !inLoop
    ensures Stays(Exec(s, a, env, fuel))
    decreases s, 1
  {
    match s
    case Do(_) =>
    case Block(body) => AllStay(body, deferred, locals, a, env, fuel);
    case If(_, thn, els) => StmtStays(thn, inLoop, deferred, locals, a, env, fuel);
      StmtStays(els, inLoop, deferred, locals, a, env, fuel);
    case IfOnly(_, thn) => StmtStays(thn, inLoop, deferred, locals, a, env, fuel);
    case While(_, _) => LoopStays(s, a, env, fuel);
    case DoWhile(_, _) => LoopStays(s, a, env, fuel);
    case For(init, cond, iter, loop) => ForStays(cond, iter, loop, a, Perform(init, a, env), fuel);
    case Switch(selector, clauses) =>
      var k := Landing(clauses, Selected(clauses, a, env, Value(selector, a, env)));
      if k < |clauses| { BodyStays(clauses[k], locals, a, env, fuel); }
    case Break =>
    case Continue =>
  }

  lemma {:induction false} AllStay(body: seq<Stmt>, deferred: bool, locals: nat, a: Arith, env: seq<int>, fuel: nat)
    requires forall i :: 0 <= i < |body| ==> Supported(body[i], false, deferred, locals)
    ensures Stays(ExecAll(body, a, env, fuel))
    decreases body, 0
  {
    if body != [] {
      StmtStays(body[0], false, deferred, locals, a, env, fuel);
      var o := Exec(body[0], a, env, fuel);
      if o.Normal? { AllStay(body[1..], deferred, locals, a, o.env, fuel); }
    }
  }

  lemma {:induction false} BodyStays(c: Clause, locals: nat, a: Arith, env: seq<int>, fuel: nat)
    requires ClauseSupported(c, locals)
    ensures Stays(ExecBody(c, a, env, fuel))
    decreases c, 0
  {
    if c.body.Some? { StmtStays(c.body.value, false, true, locals, a, env, fuel); }
  }

  lemma {:induction false} LoopStays(s: Stmt, a: Arith, env: seq<int>, fuel: nat)
    requires s.While? || s.DoWhile?
    ensures Stays(Exec(s, a, env, fuel))
    decreases fuel
  {
    if fuel > 0 {
      var o := Exec(s.loop, a, env, fuel);
      if o.Normal? || o.Continued? { LoopStays(s, a, o.env, fuel - 1); }
    }
  }

  lemma {:induction false} ForStays(cond: Expr, iter: Simple, loop: Stmt, a: Arith, env: seq<int>, fuel: nat)
    ensures Stays(ExecFor(cond, iter, loop, a, env, fuel))
    decreases fuel
  {
    if fuel > 0 {
      var o := Exec(loop, a, env, fuel);
      if o.Normal? || o.Continued? { ForStays(cond, iter, loop, a, Perform(iter, a, o.env), fuel - 1); }
    }
  }

  // The registers that a frame stands for.
  function Unslotted(frame: seq<int>, locals: nat, minReg: int): (regs: seq<int>)
    requires locals < minReg <= 256 && |frame| == locals + 256 - minReg
    ensures |regs| == REGS
  {
    seq(REGS, r requires 0 <= r < REGS =>
      if 0 <= RegFromTempReg(r, locals) < |frame| then frame[RegFromTempReg(r, locals)] else 0)
  }

  lemma UnslottedSame(frame: seq<int>, locals: nat, minReg: int)
    requires locals < minReg <= 256 && |frame| == locals + 256 - minReg
    ensures SameRegs(Unslotted(frame, locals, minReg), frame, locals, minReg)
    ensures locals <= 256 && Unslotted(frame, locals, minReg)[..locals] == frame[..locals]
  {
    var regs := Unslotted(frame, locals, minReg);
    forall r | 0 <= r < REGS && InUse(r, locals, minReg)
      ensures SlotSame(regs, frame, locals, r)
    {
      SlotsFit(locals, minReg, r);
    }
  }

  lemma LocalsSame(regs: seq<int>, frame: seq<int>, locals: nat, minReg: int)
    requires SameRegs(regs, frame, locals, minReg)
    ensures locals <= |frame| && frame[..locals] == regs[..locals]
  {
    forall i | 0 <= i < locals ensures frame[i] == regs[i] { assert SlotSame(regs, frame, locals, i); }
  }

  lemma CodeInFrame(code: seq<Instr>, locals: nat, minReg: int)
    requires locals < minReg <= 256 && CodeIn(code, locals, minReg)
    ensures CodeIn(ReconciledCode(code, locals), locals + 256 - minReg, 256)
  {
    var c, size := ReconciledCode(code, locals), locals + 256 - minReg;
    forall k | 0 <= k < |c| ensures InstrIn(c, k, size, 256) { assert InstrIn(code, k, locals, minReg); }
  }

  // The code of the body before its temporaries have been renumbered, in any registers.
  lemma BodyRuns(body: seq<Stmt>, p0: State, p1: State, a: Arith, regs: seq<int>, fuel: nat)
    requires StmtDone(Block(body), p0, p1, [], []) && !p0.deferred && p0.code == []
      && AllUses(body) <= p1.locals < p1.minReg
    requires |p1.code| <= 0x10000 && |regs| == REGS
    ensures var p := Program(p1.code + [End], p1.constants, a);
      Does(Block(body), p, p1.locals, 0, |p1.code|, 0, 0, regs, fuel)
  {
    var p, b := Program(p1.code + [End], p1.constants, a), p1.code;
    assert Settled(b, [], [], 0, 0) == b;
    forall i | 0 <= i < |b| ensures PlacedAt(p, 0, b, i) {}
    assert Simulates(Block(body), 0, b, p1.minReg, p1.constants, [], [], p, p1.locals, 0, 0, 0);
    assert StmtOk(Block(body), p, p1.locals, 0, |b|, 0, 0);
  }

  lemma FrameRuns(body: seq<Stmt>, p0: State, p1: State, a: Arith, frame: seq<int>, fuel: nat)
    requires StmtDone(Block(body), p0, p1, [], []) && !p0.deferred && p0.code == []
      && Supported(Block(body), false, false, p1.locals)
    requires |p1.code| <= 0x10000 && p1.locals < p1.minReg <= 256 && |frame| == p1.locals + 256 - p1.minReg
    ensures FunctionDoes(body, Program(ReconciledCode(p1.code + [End], p1.locals), p1.constants, a), p1.locals, frame,
      fuel)
  {
    var locals, minReg := p1.locals, p1.minReg;
    var p, q := Program(p1.code + [End], p1.constants, a),
      Program(ReconciledCode(p1.code + [End], locals), p1.constants, a);
    var regs := Unslotted(frame, locals, minReg);
    var o := Exec(Block(body), a, frame[..locals], fuel);
    UnslottedSame(frame, locals, minReg);
    StmtUsesOk(Block(body), false, false, locals);
    BodyRuns(body, p0, p1, a, regs, fuel);
    StmtStays(Block(body), false, false, locals, a, frame[..locals], fuel);
    CodeInOne(End, locals, minReg);
    CodeInConcat(p1.code, [End], locals, minReg);
    if o.Normal? {
      var n: nat :| ReachedAt(p, Config(0, regs), n, |p1.code|, o.env, locals);
      RunSame(p, Config(0, regs), frame, locals, minReg, n);
      LocalsSame(Run(p, Config(0, regs), n).regs, Run(q, Config(0, frame), n).regs, locals, minReg);
      assert EndedAt(q, frame, n, o.env, locals);
    } else {
      RunSame(p, Config(0, regs), frame, locals, minReg, fuel);
    }
  }

  // The whole function, wherever its temporaries leave a register free.
  lemma FunctionCorrect(body: seq<Stmt>, p0: State, p1: State)
    requires StmtDone(Block(body), p0, p1, [], []) && !p0.deferred && p0.code == []
      && Supported(Block(body), false, false, p1.locals)
    requires |p1.code| <= 0x10000 && p1.locals < p1.minReg <= 256
    ensures FunctionOk(body, ReconciledCode(p1.code + [End], p1.locals), p1.constants, p1.locals,
      p1.locals + 256 - p1.minReg)
  {
    var code, size := ReconciledCode(p1.code + [End], p1.locals), p1.locals + 256 - p1.minReg;
    CodeInOne(End, p1.locals, p1.minReg);
    CodeInConcat(p1.code, [End], p1.locals, p1.minReg);
    CodeInFrame(p1.code + [End], p1.locals, p1.minReg);
    forall a: Arith, frame: seq<int>, fuel: nat | |frame| == size
      ensures FunctionDoes(body, Program(code, p1.constants, a), p1.locals, frame, fuel)
    {
      FrameRuns(body, p0, p1, a, frame, fuel);
    }
  }

  // The machine halts exactly when the source statement does.
  lemma HaltsTogether(body: seq<Stmt>, code: seq<Instr>, constants: seq<int>, locals: nat, size: nat, a: Arith,
      frame: seq<int>)
    requires FunctionOk(body, code, constants, locals, size) && |frame| == size
    ensures var p := Program(code, constants, a);
      (exists n: nat :: !Lasts(p, Config(0, frame), n)) <==>
        (exists fuel: nat :: Exec(Block(body), a, frame[..locals], fuel).Normal?)
  {
    var p := Program(code, constants, a);
    if n: nat :| !Lasts(p, Config(0, frame), n) {
      assert FunctionDoes(body, p, locals, frame, n);
      assert Exec(Block(body), a, frame[..locals], n).Normal?;
    }
    if fuel: nat :| Exec(Block(body), a, frame[..locals], fuel).Normal? {
      assert FunctionDoes(body, p, locals, frame, fuel);
      var n: nat :| EndedAt(p, frame, n, Exec(Block(body), a, frame[..locals], fuel).env, locals);
      assert !Lasts(p, Config(0, frame), n);
    }
  }
}
