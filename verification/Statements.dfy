/** Layouts of simple statements and of the loops. */
module Statements {
  import opened Wrappers
  import opened Machine
  import opened Source
  import opened Simulation
  import opened Codegen
  import opened Layout

  // The finished jumps of a loop: at m and nb to its end, nc to its next round, which starts where its body ends.
  function LoopBuf(body: seq<Instr>, tail: seq<Instr>, m: nat, nb: seq<int>, nc: seq<int>): seq<Instr>
  {
    var all := Resolve(body, nc, |body|) + tail;
    Resolve(Resolve(all, [m], |all|), nb, |all|)
  }

  // f consists of test, its jump out of the loop, the settled body and tail.
  ghost predicate LoopFacts(f: seq<Instr>, test: seq<Instr>, jump: Instr, body: seq<Instr>, tail: seq<Instr>,
      nb: seq<int>, nc: seq<int>)
  {
    var m := |test|;
    && m < |body| && |f| == |body| + |tail| && test <= f && f[m] == Aimed(jump, |f| - m)
    && Covers(f, Settled(body, nb, nc, |f|, |body|), m + 1)
    && f[|body|..] == tail
  }

  lemma LoopBufFacts(test: seq<Instr>, jump: Instr, body: seq<Instr>, tail: seq<Instr>, nb: seq<int>, nc: seq<int>)
    requires jump.Jump? && test + [jump] <= body && Leaving(body, |test| + 1, nb, nc)
    ensures LoopFacts(LoopBuf(body, tail, |test|, nb, nc), test, jump, body, tail, nb, nc)
  {
    assert body[..|test| + 1][|test|] == jump;
    var f := LoopBuf(body, tail, |test|, nb, nc);
    forall i | |test| + 1 <= i < |body| ensures SameAt(f, Settled(body, nb, nc, |f|, |body|), i) {}
  }

  lemma LoopNoEnds(f: seq<Instr>, test: seq<Instr>, jump: Instr, body: seq<Instr>, tail: seq<Instr>, nb: seq<int>,
      nc: seq<int>, a: nat)
    requires LoopFacts(f, test, jump, body, tail, nb, nc) && !jump.End? && a <= |test| && test <= body
      && NoEnds(body, a) && NoEnds(tail, 0)
    ensures NoEnds(f, a)
  {
    forall i | a <= i < |f| ensures !f[i].End? {
      if i < |test| { assert f[i] == test[i] == body[i]; }
      if |test| < i < |body| { assert SameAt(f, Settled(body, nb, nc, |f|, |body|), i); }
      if i >= |body| { assert f[i] == f[|body|..][i - |body|]; }
    }
  }

  // What remains to show for a statement that leaves no jumps behind.
  ghost predicate InPlace(s: Stmt, a: nat, f: seq<Instr>, minReg: int, constants: seq<int>, p: Program, locals: nat,
      delta: int, brk: int, cont: int)
  {
    Fits(StmtUses(s), minReg, constants, |f| - a, p, locals) && Placed(p, delta, f, a) ==>
      StmtOk(s, p, locals, a + delta, |f| + delta, brk, cont)
  }

  lemma AloneCorrect(s: Stmt, a: nat, f: seq<Instr>, minReg: int, constants: seq<int>)
    requires forall p, locals: nat, delta, brk, cont {:trigger InPlace(s, a, f, minReg, constants, p, locals, delta,
      brk, cont)} ::
      InPlace(s, a, f, minReg, constants, p, locals, delta, brk, cont)
    ensures Correct(s, a, f, minReg, constants, [], [])
  {
    forall p, locals: nat, delta, brk, cont
      ensures Simulates(s, a, f, minReg, constants, [], [], p, locals, delta, brk, cont)
    {
      assert Settled(f, [], [], brk, cont) == f;
      assert InPlace(s, a, f, minReg, constants, p, locals, delta, brk + delta, cont + delta);
    }
  }

  lemma LoopIn(test: seq<Instr>, jump: Instr, body: seq<Instr>, tail: seq<Instr>, nb: seq<int>, nc: seq<int>,
      locals: nat, minReg: int)
    requires jump.Jump? && jump.rn <= MAX_REGISTER && test + [jump] <= body && Leaving(body, |test| + 1, nb, nc)
    requires CodeIn(body, locals, minReg) && CodeIn(tail, locals, minReg)
    ensures CodeIn(LoopBuf(body, tail, |test|, nb, nc), locals, minReg)
  {
    var all := Resolve(body, nc, |body|) + tail;
    assert body[..|test| + 1][|test|] == jump;
    ResolveIn(body, nc, |body|, locals, minReg);
    CodeInConcat(Resolve(body, nc, |body|), tail, locals, minReg);
    ResolveIn(all, [|test|], |all|, locals, minReg);
    ResolveIn(Resolve(all, [|test|], |all|), nb, |all|, locals, minReg);
  }

  lemma LoopKept(p0: State, p2: State, p3: State, test: seq<Instr>, jump: Instr, tail: seq<Instr>, nb: seq<int>,
      nc: seq<int>)
    requires Kept(p0, p2) && Kept(p2, p3) && Buf(p0) <= test && Buf(p2) == test + [jump] && jump.Jump?
      && NoEnds(tail, 0)
    requires jump.rn <= MAX_REGISTER && CodeIn(tail, p3.locals, p3.minReg)
    requires Leaving(Buf(p3), |Buf(p2)|, nb, nc)
    ensures var f := LoopBuf(Buf(p3), tail, |test|, nb, nc);
      Kept(p0, WithBuf(p3, f)) && LoopFacts(f, test, jump, Buf(p3), tail, nb, nc)
  {
    var f := LoopBuf(Buf(p3), tail, |test|, nb, nc);
    KeptTwice(p0, p2, p3);
    LoopBufFacts(test, jump, Buf(p3), tail, nb, nc);
    LoopNoEnds(f, test, jump, Buf(p3), tail, nb, nc, |Buf(p0)|);
    LoopIn(test, jump, Buf(p3), tail, nb, nc, p3.locals, p3.minReg);
    assert Buf(p0) <= f;
    KeptWith(p0, p3, f);
  }

  // The loop body, in place.
  lemma BodyOk(loop: Stmt, f: seq<Instr>, a: nat, test: seq<Instr>, jump: Instr, body: seq<Instr>, tail: seq<Instr>,
      nb: seq<int>, nc: seq<int>, minReg: int, constants: seq<int>, p: Program, locals: nat, delta: int)
    requires LoopFacts(f, test, jump, body, tail, nb, nc) && Placed(p, delta, f, a) && a <= |test|
    requires Correct(loop, |test| + 1, body, minReg, constants, nb, nc)
      && Fits(StmtUses(loop), minReg, constants, |f| - a, p, locals)
    ensures StmtOk(loop, p, locals, |test| + 1 + delta, |body| + delta, |f| + delta, |body| + delta)
  {
    PlacedPart(p, delta, f, a, Settled(body, nb, nc, |f|, |body|), |test| + 1);
    assert Simulates(loop, |test| + 1, body, minReg, constants, nb, nc, p, locals, delta, |f|, |body|);
  }

  lemma WhileInPlace(cond: Expr, loop: Stmt, f: seq<Instr>, a: nat, test: seq<Instr>, r: int, body: seq<Instr>,
      nb: seq<int>, nc: seq<int>, minReg: int, constants: seq<int>, p: Program, locals: nat, delta: int, brk: int,
      cont: int)
    requires a <= |test| && LoopFacts(f, test, Jump(JF, r, 0), body, [Jump(JMP, 0, Field17(a - |body|))], nb, nc)
      && 0 <= r <= 255
    requires Correct(loop, |test| + 1, body, minReg, constants, nb, nc)
      && SegOk(test[a..], r, cond, locals, p.consts, p.arith)
    requires Fits(StmtUses(While(cond, loop)), minReg, constants, |f| - a, p, locals) && Placed(p, delta, f, a)
    ensures StmtOk(While(cond, loop), p, locals, a + delta, |f| + delta, brk, cont)
  {
    hide StmtOk, Correct, SegOk, Covers, Settled;
    var m := |test|;
    BodyOk(loop, f, a, test, Jump(JF, r, 0), body, [Jump(JMP, 0, Field17(a - |body|))], nb, nc, minReg, constants, p,
      locals, delta);
    assert f[a..m] == test[a..];
    TestPlaced(p, delta, f, a, test[a..], JF, r, |f|);
    assert f[|body|] == f[|body|..][0] && PlacedAt(p, delta, f, |body|);
    WhileOk(p, locals, cond, loop, test[a..], r, a + delta, m + delta, |body| + delta, |f| + delta, brk, cont);
  }

  lemma WhileCorrect(cond: Expr, loop: Stmt, f: seq<Instr>, a: nat, test: seq<Instr>, r: int, body: seq<Instr>,
      nb: seq<int>, nc: seq<int>, minReg1: int, constants1: seq<int>, minReg: int, constants: seq<int>)
    requires a <= |test| && LoopFacts(f, test, Jump(JF, r, 0), body, [Jump(JMP, 0, Field17(a - |body|))], nb, nc)
      && !Constant(cond)
    requires Evaluates(cond, test[a..], r, minReg1, constants1) && minReg <= minReg1 <= REGS && constants1 <= constants
    requires Correct(loop, |test| + 1, body, minReg, constants, nb, nc)
    ensures Correct(While(cond, loop), a, f, minReg, constants, [], [])
  {
    var s := While(cond, loop);
    forall p, locals: nat, delta, brk, cont ensures InPlace(s, a, f, minReg, constants, p, locals, delta, brk, cont) {
      if Fits(StmtUses(s), minReg, constants, |f| - a, p, locals) && Placed(p, delta, f, a) {
        assert EvaluatesIn(cond, test[a..], r, minReg1, constants1, locals, p.consts, p.arith);
        WhileInPlace(cond, loop, f, a, test, r, body, nb, nc, minReg, constants, p, locals, delta, brk, cont);
      }
    }
    AloneCorrect(s, a, f, minReg, constants);
  }

  // A loop that tests before each round, up to the end of its body: p2 is the state before the body.
  ghost predicate LoopReady(p0: State, test: seq<Instr>, r: int, p2: State, p3: State, cond: Expr, loop: Stmt,
      nb: seq<int>, nc: seq<int>)
  { LoopShape(p0, test, r, p2, p3, cond, loop, nb, nc) && Room(p0, p3, GuardNeed(cond, StmtNeed(loop))) }

  // The same with an iterator, which is compiled before the body.
  ghost predicate RoundReady(p0: State, test: seq<Instr>, r: int, p2: State, p3: State, cond: Expr, iter: Simple,
      loop: Stmt, nb: seq<int>, nc: seq<int>)
  { LoopShape(p0, test, r, p2, p3, cond, loop, nb, nc) && Room(p0, p3, RoundNeed(cond, iter, StmtNeed(loop))) }

  ghost predicate LoopShape(p0: State, test: seq<Instr>, r: int, p2: State, p3: State, cond: Expr, loop: Stmt,
      nb: seq<int>, nc: seq<int>)
  {
    && Kept(p0, p2) && Kept(p2, p3) && !Constant(cond) && r <= MAX_REGISTER
    && Buf(p0) <= test && Buf(p2) == test + [Jump(JF, r, 0)]
       && Evaluates(cond, test[|Buf(p0)|..], r, p2.minReg, p2.constants)
    && Leaving(Buf(p3), |test| + 1, nb, nc) && Correct(loop, |test| + 1, Buf(p3), p3.minReg, p3.constants, nb, nc)
  }

  lemma ReadyWhile(p0: State, test: seq<Instr>, r: int, p2: State, p3: State, cond: Expr, loop: Stmt, nb: seq<int>,
      nc: seq<int>, f: seq<Instr>)
    requires LoopShape(p0, test, r, p2, p3, cond, loop, nb, nc)
    requires LoopFacts(f, test, Jump(JF, r, 0), Buf(p3), [Jump(JMP, 0, Field17(|Buf(p0)| - |Buf(p3)|))], nb, nc)
    ensures Correct(While(cond, loop), |Buf(p0)|, f, p3.minReg, p3.constants, [], [])
  {
    WhileCorrect(cond, loop, f, |Buf(p0)|, test, r, Buf(p3), nb, nc, p2.minReg, p2.constants, p3.minReg, p3.constants);
  }

  lemma GuardRoom(p0: State, p3: State, f: seq<Instr>, cond: Expr, s: Stmt)
    requires Room(p0, p3, GuardNeed(cond, StmtNeed(s)))
    ensures Room(p0, WithBuf(p3, f), StmtNeed(While(cond, s))) && Room(p0, WithBuf(p3, f), StmtNeed(IfOnly(cond, s)))
  {
    hide Room, GuardNeed;
    RoomWith(p0, p3, f, GuardNeed(cond, StmtNeed(s)));
  }

  lemma WhileDone(p0: State, test: seq<Instr>, r: int, p2: State, p3: State, cond: Expr, loop: Stmt, nb: seq<int>,
      nc: seq<int>, f: seq<Instr>)
    requires LoopReady(p0, test, r, p2, p3, cond, loop, nb, nc)
    requires f == LoopBuf(Buf(p3), [Jump(JMP, 0, Field17(|Buf(p0)| - |Buf(p3)|))], |test|, nb, nc)
    ensures StmtDone(While(cond, loop), p0, WithBuf(p3, f), [], [])
  {
    hide Room, GuardNeed, StmtNeed, Then, Evaluates, Correct, Kept;
    GuardRoom(p0, p3, f, cond, loop);
    CodeInOne(Jump(JMP, 0, Field17(|Buf(p0)| - |Buf(p3)|)), p3.locals, p3.minReg);
    LoopKept(p0, p2, p3, test, Jump(JF, r, 0), [Jump(JMP, 0, Field17(|Buf(p0)| - |Buf(p3)|))], nb, nc);
    ReadyWhile(p0, test, r, p2, p3, cond, loop, nb, nc, f);
  }

  ghost predicate PerformsIn(s: Simple, seg: seq<Instr>, minReg: int, constants: seq<int>, locals: nat,
      consts: seq<int>, a: Arith)
  { SimpleUses(s) <= locals < minReg <= REGS && constants <= consts ==> SimpleOk(seg, s, locals, consts, a) }

  ghost predicate Carries(s: Simple, seg: seq<Instr>, minReg: int, constants: seq<int>)
  {
    forall locals: nat, consts, a {:trigger PerformsIn(s, seg, minReg, constants, locals, consts, a)} ::
      PerformsIn(s, seg, minReg, constants, locals, consts, a)
  }

  lemma SimpleCarries(p0: State, p1: State, s: Simple)
    requires SimpleDone(p0, p1, s)
    ensures Carries(s, NewCode(p0, p1), p1.minReg, p1.constants) && NoEnds(Buf(p1), |Buf(p0)|)
  {
    forall locals: nat, consts, a ensures PerformsIn(s, NewCode(p0, p1), p1.minReg, p1.constants, locals, consts, a) {
      assert CodePerforms(p0, p1, s, locals, consts, a);
    }
    forall i | |Buf(p0)| <= i < |Buf(p1)| ensures !Buf(p1)[i].End? {
      assert Buf(p1)[i] == NewCode(p0, p1)[i - |Buf(p0)|];
    }
  }

  lemma SegPlaced(p: Program, delta: int, f: seq<Instr>, a: nat, i: nat, seg: seq<Instr>)
    requires Placed(p, delta, f, a) && a <= i && i + |seg| <= |f| && f[i..i + |seg|] == seg
    ensures CodeAt(p, i + delta, seg)
  {
    forall k | 0 <= k < |seg| ensures p.code[i + delta + k] == seg[k] {
      assert PlacedAt(p, delta, f, i + k) && f[i..i + |seg|][k] == f[i + k];
    }
    assert p.code[i + delta..i + delta + |seg|] == seg;
  }

  lemma DoCorrect(s: Simple, a: nat, f: seq<Instr>, minReg: int, constants: seq<int>)
    requires a <= |f| && Carries(s, f[a..], minReg, constants)
    ensures Correct(Do(s), a, f, minReg, constants, [], [])
  {
    forall p, locals: nat, delta, brk, cont
      ensures InPlace(Do(s), a, f, minReg, constants, p, locals, delta, brk, cont)
    {
      if Fits(SimpleUses(s), minReg, constants, |f| - a, p, locals) && Placed(p, delta, f, a) {
        assert PerformsIn(s, f[a..], minReg, constants, locals, p.consts, p.arith);
        SegPlaced(p, delta, f, a, a, f[a..]);
        DoOk(p, locals, s, a + delta, |f| + delta, f[a..], brk, cont);
      }
    }
    AloneCorrect(Do(s), a, f, minReg, constants);
  }

  // An expression statement, its result discarded.
  lemma DoDone(p0: State, p1: State, s: Simple)
    requires SimpleDone(p0, p1, s)
    ensures StmtDone(Do(s), p0, Popped(p1), [], [])
  {
    SimpleCarries(p0, p1, s);
    assert p1.stack == p0.stack + [p1.stack[|p0.stack|]];
    RegistersPush(p0.stack, p1.stack[|p0.stack|]);
    StackInPrefix(p1.stack, |p0.stack|, p1.locals, p1.minReg);
    DoCorrect(s, |Buf(p0)|, Buf(p1), p1.minReg, p1.constants);
  }

  // f holds first from a on, the condition from i on and its jump at m, the loop body, step from c on and the jump back
  // at d.
  ghost predicate ForFacts(f: seq<Instr>, a: nat, i: nat, m: nat, c: nat, d: nat, first: seq<Instr>, seg: seq<Instr>,
      r: int, step: seq<Instr>)
  {
    && a <= i <= m < c <= d && |f| == d + 1
    && f[a..i] == first && f[i..m] == seg && f[m] == Jump(JF, r, |f| - m)
    && f[c..d] == step && f[d] == Jump(JMP, 0, Field17(i - d))
  }

  lemma ForHasFacts(f: seq<Instr>, a: nat, i: nat, test: seq<Instr>, r: int, body: seq<Instr>, step: seq<Instr>,
      nb: seq<int>, nc: seq<int>)
    requires a <= i <= |test| && 0 <= r <= 255
    requires LoopFacts(f, test, Jump(JF, r, 0), body, step + [Jump(JMP, 0, Field17(i - |body| - |step|))], nb, nc)
    ensures ForFacts(f, a, i, |test|, |body|, |body| + |step|, test[a..i], test[i..], r, step)
  {
    var c := |body|;
    assert f[a..i] == test[a..i] && f[i..|test|] == test[i..];
    assert f[c..][..|step|] == step && f[c..][..|step|] == f[c..c + |step|];
    assert f[c + |step|] == f[c..][|step|];
  }

  lemma ForInPlace(init: Simple, cond: Expr, iter: Simple, loop: Stmt, f: seq<Instr>, a: nat, i: nat, m: nat, c: nat,
      d: nat, first: seq<Instr>, seg: seq<Instr>, r: int, step: seq<Instr>, p: Program, locals: nat, delta: int,
      brk: int, cont: int)
    requires ForFacts(f, a, i, m, c, d, first, seg, r, step) && |f| - a <= 0x10000 && Placed(p, delta, f, a)
    requires StmtOk(loop, p, locals, m + 1 + delta, c + delta, |f| + delta, c + delta)
    requires SegOk(seg, r, cond, locals, p.consts, p.arith)
    requires SimpleOk(first, init, locals, p.consts, p.arith) && SimpleOk(step, iter, locals, p.consts, p.arith)
    ensures StmtOk(For(init, cond, iter, loop), p, locals, a + delta, |f| + delta, brk, cont)
  {
    PlacedPart(p, delta, f, a, f, i) by { forall k | i <= k < |f| ensures SameAt(f, f, k) {} }
    TestPlaced(p, delta, f, i, seg, JF, r, |f|);
    SegPlaced(p, delta, f, a, a, first);
    SegPlaced(p, delta, f, a, c, step);
    assert PlacedAt(p, delta, f, d);
    ForOk(p, locals, init, cond, iter, loop, first, seg, r, step,
      a + delta, i + delta, m + delta, c + delta, d + delta, |f| + delta, brk, cont);
  }

  // The parts of a for loop, with what each of them needs.
  ghost predicate ForParts(init: Simple, cond: Expr, iter: Simple, first: seq<Instr>, seg: seq<Instr>, r: int,
      step: seq<Instr>, minReg: int, constants: seq<int>)
  {
    Carries(init, first, minReg, constants) && Evaluates(cond, seg, r, minReg, constants) && !Constant(cond)
      && Carries(iter, step, minReg, constants)
  }

  lemma PartsFit(init: Simple, cond: Expr, iter: Simple, first: seq<Instr>, seg: seq<Instr>, r: int, step: seq<Instr>,
      minReg: int, constants: seq<int>, size: int, p: Program, locals: nat)
    requires ForParts(init, cond, iter, first, seg, r, step, minReg, constants)
    requires Fits(Max(Max(SimpleUses(init), SimpleUses(iter)), Uses(cond)), minReg, constants, size, p, locals)
    ensures SegOk(seg, r, cond, locals, p.consts, p.arith) && 0 <= r <= 255
    ensures SimpleOk(first, init, locals, p.consts, p.arith) && SimpleOk(step, iter, locals, p.consts, p.arith)
  {
    assert EvaluatesIn(cond, seg, r, minReg, constants, locals, p.consts, p.arith);
    assert PerformsIn(init, first, minReg, constants, locals, p.consts, p.arith);
    assert PerformsIn(iter, step, minReg, constants, locals, p.consts, p.arith);
  }

  lemma ForCorrect(init: Simple, cond: Expr, iter: Simple, loop: Stmt, f: seq<Instr>, a: nat, i: nat, test: seq<Instr>,
      r: int, body: seq<Instr>, step: seq<Instr>, nb: seq<int>, nc: seq<int>, minReg: int, constants: seq<int>)
    requires a <= i <= |test| && ForParts(init, cond, iter, test[a..i], test[i..], r, step, minReg, constants)
    requires LoopFacts(f, test, Jump(JF, r, 0), body, step + [Jump(JMP, 0, Field17(i - |body| - |step|))], nb, nc)
    requires Correct(loop, |test| + 1, body, minReg, constants, nb, nc)
    ensures Correct(For(init, cond, iter, loop), a, f, minReg, constants, [], [])
  {
    hide StmtOk, Correct, LoopFacts, Placed, ForParts, Carries, Evaluates;
    var s := For(init, cond, iter, loop);
    forall p, locals: nat, delta, brk, cont ensures InPlace(s, a, f, minReg, constants, p, locals, delta, brk, cont) {
      if Fits(StmtUses(s), minReg, constants, |f| - a, p, locals) && Placed(p, delta, f, a) {
        PartsFit(init, cond, iter, test[a..i], test[i..], r, step, minReg, constants, |f| - a, p, locals);
        ForHasFacts(f, a, i, test, r, body, step, nb, nc);
        BodyOk(loop, f, a, test, Jump(JF, r, 0), body, step + [Jump(JMP, 0, Field17(i - |body| - |step|))], nb, nc,
          minReg, constants, p, locals, delta);
        ForInPlace(init, cond, iter, loop, f, a, i, |test|, |body|, |body| + |step|, test[a..i], test[i..], r, step, p,
          locals, delta, brk, cont);
      }
    }
    AloneCorrect(s, a, f, minReg, constants);
  }

  lemma CarriesMore(s: Simple, seg: seq<Instr>, minReg: int, constants: seq<int>, minReg': int, constants': seq<int>)
    requires Carries(s, seg, minReg, constants) && minReg' <= minReg <= REGS && constants <= constants'
    ensures Carries(s, seg, minReg', constants')
  {
    forall locals: nat, consts, a ensures PerformsIn(s, seg, minReg', constants', locals, consts, a) {
      assert PerformsIn(s, seg, minReg, constants, locals, consts, a);
    }
  }

  lemma EvaluatesMore(e: Expr, seg: seq<Instr>, r: int, minReg: int, constants: seq<int>, minReg': int,
      constants': seq<int>)
    requires Evaluates(e, seg, r, minReg, constants) && minReg' <= minReg <= REGS && constants <= constants'
    ensures Evaluates(e, seg, r, minReg', constants')
  {
    forall locals: nat, consts, a ensures EvaluatesIn(e, seg, r, minReg', constants', locals, consts, a) {
      assert EvaluatesIn(e, seg, r, minReg, constants, locals, consts, a);
    }
  }

  lemma ReadyFor(p0: State, p1: State, test: seq<Instr>, r: int, p2: State, p3: State, init: Simple, cond: Expr,
      iter: Simple, loop: Stmt, step: seq<Instr>, nb: seq<int>, nc: seq<int>, f: seq<Instr>)
    requires Kept(p0, p1) && Carries(init, NewCode(p0, p1), p1.minReg, p1.constants)
    requires LoopShape(p1, test, r, p2, p3, cond, loop, nb, nc)
    requires Carries(iter, step, p3.minReg, p3.constants)
    requires LoopFacts(f, test, Jump(JF, r, 0), Buf(p3), step + [Jump(JMP, 0, Field17(|Buf(p1)| - |Buf(p3)| - |step|))],
      nb, nc)
    ensures Correct(For(init, cond, iter, loop), |Buf(p0)|, f, p3.minReg, p3.constants, [], [])
  {
    var a, i := |Buf(p0)|, |Buf(p1)|;
    assert test[a..i] == NewCode(p0, p1);
    hide Correct, Carries, Evaluates;
    CarriesMore(init, test[a..i], p1.minReg, p1.constants, p3.minReg, p3.constants);
    EvaluatesMore(cond, test[i..], r, p2.minReg, p2.constants, p3.minReg, p3.constants);
    ForCorrect(init, cond, iter, loop, f, a, i, test, r, Buf(p3), step, nb, nc, p3.minReg, p3.constants);
  }

  lemma ForRoom(p0: State, p1: State, p3: State, init: Simple, cond: Expr, iter: Simple, loop: Stmt, f: seq<Instr>)
    requires Room(p0, p1, SimpleNeed(init)) && Room(p1, p3, RoundNeed(cond, iter, StmtNeed(loop)))
    ensures Room(p0, WithBuf(p3, f), StmtNeed(For(init, cond, iter, loop)))
  {
    hide Room, RoundNeed, SimpleNeed, Then;
    RoomThen(p0, p1, p3, SimpleNeed(init), RoundNeed(cond, iter, StmtNeed(loop)));
    RoomWith(p0, p3, f, StmtNeed(For(init, cond, iter, loop)));
  }

  lemma ForDone(p0: State, p1: State, test: seq<Instr>, r: int, p2: State, p3: State, init: Simple, cond: Expr,
      iter: Simple, loop: Stmt, step: seq<Instr>, nb: seq<int>, nc: seq<int>, f: seq<Instr>)
    requires Kept(p0, p1) && Carries(init, NewCode(p0, p1), p1.minReg, p1.constants) && Room(p0, p1, SimpleNeed(init))
    requires RoundReady(p1, test, r, p2, p3, cond, iter, loop, nb, nc)
    requires Carries(iter, step, p3.minReg, p3.constants) && NoEnds(step, 0) && CodeIn(step, p3.locals, p3.minReg)
    requires f == LoopBuf(Buf(p3), step + [Jump(JMP, 0, Field17(|Buf(p1)| - |Buf(p3)| - |step|))], |test|, nb, nc)
    ensures StmtDone(For(init, cond, iter, loop), p0, WithBuf(p3, f), [], [])
  {
    var back := Jump(JMP, 0, Field17(|Buf(p1)| - |Buf(p3)| - |step|));
    hide Room, StmtNeed, SimpleNeed, RoundNeed, Then, Evaluates, Correct, Carries, Kept;
    ForRoom(p0, p1, p3, init, cond, iter, loop, f);
    CodeInOne(back, p3.locals, p3.minReg);
    CodeInConcat(step, [back], p3.locals, p3.minReg);
    LoopKept(p1, p2, p3, test, Jump(JF, r, 0), step + [Jump(JMP, 0, Field17(|Buf(p1)| - |Buf(p3)| - |step|))], nb, nc);
    KeptTwice(p0, p1, WithBuf(p3, f));
    ReadyFor(p0, p1, test, r, p2, p3, init, cond, iter, loop, step, nb, nc, f);
  }
}
