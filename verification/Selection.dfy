/** Layouts of if statements. */
module Selection {
  import opened Machine
  import opened Source
  import opened Simulation
  import opened Codegen
  import opened Layout
  import opened Statements
  import opened Branches

  // f holds a condition from a on, its jump to e at m, and from there a statement that ends at j.
  ghost predicate TestFacts(f: seq<Instr>, a: nat, m: nat, e: int, seg: seq<Instr>, r: int, b1: seq<Instr>)
  {
    && a <= m < |b1| <= |f| && f[a..m] == seg && f[m] == Jump(JF, r, e - m) && Covers(f, b1, m + 1)
  }

  lemma BranchOk(s: Stmt, f: seq<Instr>, a: nat, b1: seq<Instr>, a1: nat, nb: seq<int>, nc: seq<int>, minReg: int,
      constants: seq<int>, p: Program, locals: nat, delta: int, brk: int, cont: int)
    requires Placed(p, delta, f, a) && a <= a1 && Covers(f, Settled(b1, nb, nc, brk, cont), a1)
    requires Correct(s, a1, b1, minReg, constants, nb, nc) && Fits(StmtUses(s), minReg, constants, |f| - a, p, locals)
    ensures StmtOk(s, p, locals, a1 + delta, |b1| + delta, brk + delta, cont + delta)
  {
    PlacedPart(p, delta, f, a, Settled(b1, nb, nc, brk, cont), a1);
    assert Simulates(s, a1, b1, minReg, constants, nb, nc, p, locals, delta, brk, cont);
  }

  lemma IfOnlyInPlace(cond: Expr, thn: Stmt, f: seq<Instr>, a: nat, m: nat, seg: seq<Instr>, r: int, b1: seq<Instr>,
      nb: seq<int>, nc: seq<int>, minReg: int, constants: seq<int>, p: Program, locals: nat, delta: int, brk: int,
      cont: int)
    requires TestFacts(f, a, m, |f|, seg, r, Settled(b1, nb, nc, brk, cont)) && |f| == |b1|
    requires Placed(p, delta, f, a) && SegOk(seg, r, cond, locals, p.consts, p.arith)
    requires Correct(thn, m + 1, b1, minReg, constants, nb, nc)
      && Fits(StmtUses(thn), minReg, constants, |f| - a, p, locals)
    ensures StmtOk(IfOnly(cond, thn), p, locals, a + delta, |f| + delta, brk + delta, cont + delta)
  {
    hide StmtOk, Correct, SegOk, Placed, Covers;
    BranchOk(thn, f, a, b1, m + 1, nb, nc, minReg, constants, p, locals, delta, brk, cont);
    TestPlaced(p, delta, f, a, seg, JF, r, |f|);
    IfOnlyOk(p, locals, cond, thn, seg, r, a + delta, m + delta, |f| + delta, brk + delta, cont + delta);
  }

  lemma IfInPlace(cond: Expr, thn: Stmt, els: Stmt, f: seq<Instr>, a: nat, m: nat, seg: seq<Instr>, r: int, j: nat,
      p: Program, locals: nat, delta: int, brk: int, cont: int)
    requires a <= m < j < |f| && f[a..m] == seg && f[m] == Jump(JF, r, j + 1 - m) && f[j] == Jump(JMP, 0, |f| - j)
    requires Placed(p, delta, f, a) && SegOk(seg, r, cond, locals, p.consts, p.arith)
    requires StmtOk(thn, p, locals, m + 1 + delta, j + delta, brk, cont)
      && StmtOk(els, p, locals, j + 1 + delta, |f| + delta, brk, cont)
    ensures StmtOk(If(cond, thn, els), p, locals, a + delta, |f| + delta, brk, cont)
  {
    TestPlaced(p, delta, f, a, seg, JF, r, j + 1);
    assert PlacedAt(p, delta, f, j);
    IfOk(p, locals, cond, thn, els, seg, r, a + delta, m + delta, j + delta, j + 1 + delta, |f| + delta, brk, cont);
  }

  lemma IfOnlyHasFacts(g: seq<Instr>, a: nat, test: seq<Instr>, r: int, b1: seq<Instr>, nb: seq<int>, nc: seq<int>,
      brk: int, cont: int)
    requires a <= |test| && 0 <= r <= 255 && test + [Jump(JF, r, 0)] <= b1 && Leaving(b1, |test| + 1, nb, nc)
    requires g == Resolve(b1, [|test|], |b1|)
    ensures var f := Settled(g, nb, nc, brk, cont);
      |f| == |b1| && TestFacts(f, a, |test|, |f|, test[a..], r, Settled(b1, nb, nc, brk, cont))
  {
    var f, h := Settled(g, nb, nc, brk, cont), Settled(b1, nb, nc, brk, cont);
    assert b1[|test|] == (test + [Jump(JF, r, 0)])[|test|];
    forall i | |test| + 1 <= i < |b1| ensures SameAt(f, h, i) {}
    forall i | a <= i < |test| ensures f[i] == test[i] {}
    assert f[a..|test|] == test[a..];
  }

  lemma IfOnlySimulates(cond: Expr, thn: Stmt, g: seq<Instr>, a: nat, test: seq<Instr>, r: int, b1: seq<Instr>,
      nb: seq<int>, nc: seq<int>, minReg: int, constants: seq<int>, p: Program, locals: nat, delta: int, brk: int,
      cont: int)
    requires a <= |test| && test + [Jump(JF, r, 0)] <= b1 && Leaving(b1, |test| + 1, nb, nc)
      && g == Resolve(b1, [|test|], |b1|)
    requires Evaluates(cond, test[a..], r, minReg, constants) && !Constant(cond)
    requires Correct(thn, |test| + 1, b1, minReg, constants, nb, nc)
    requires Fits(StmtUses(IfOnly(cond, thn)), minReg, constants, |g| - a, p, locals)
      && Placed(p, delta, Settled(g, nb, nc, brk, cont), a)
    ensures StmtOk(IfOnly(cond, thn), p, locals, a + delta, |g| + delta, brk + delta, cont + delta)
  {
    hide StmtOk, Correct, SegOk, Placed, Leaving;
    assert EvaluatesIn(cond, test[a..], r, minReg, constants, locals, p.consts, p.arith);
    IfOnlyHasFacts(g, a, test, r, b1, nb, nc, brk, cont);
    IfOnlyInPlace(cond, thn, Settled(g, nb, nc, brk, cont), a, |test|, test[a..], r, b1, nb, nc, minReg, constants, p,
      locals, delta, brk, cont);
  }

  lemma IfOnlyCorrect(cond: Expr, thn: Stmt, g: seq<Instr>, a: nat, test: seq<Instr>, r: int, b1: seq<Instr>,
      nb: seq<int>, nc: seq<int>, minReg: int, constants: seq<int>)
    requires a <= |test| && test + [Jump(JF, r, 0)] <= b1 && Leaving(b1, |test| + 1, nb, nc)
      && g == Resolve(b1, [|test|], |b1|)
    requires Evaluates(cond, test[a..], r, minReg, constants) && !Constant(cond)
    requires Correct(thn, |test| + 1, b1, minReg, constants, nb, nc)
    ensures Correct(IfOnly(cond, thn), a, g, minReg, constants, nb, nc)
  {
    var s := IfOnly(cond, thn);
    forall p, locals: nat, delta, brk, cont
      ensures Simulates(s, a, g, minReg, constants, nb, nc, p, locals, delta, brk, cont)
    {
      if Fits(StmtUses(s), minReg, constants, |g| - a, p, locals)
        && Placed(p, delta, Settled(g, nb, nc, brk, cont), a) {
        IfOnlySimulates(cond, thn, g, a, test, r, b1, nb, nc, minReg, constants, p, locals, delta, brk, cont);
      }
    }
  }

  // b2 holds b1, whose jump at |test| leads past the jump at its end, and another statement.
  ghost predicate ElseBuf(test: seq<Instr>, r: int, b1: seq<Instr>, b2: seq<Instr>)
  { test + [Jump(JF, r, 0)] <= b1 && Resolve(b1 + [Jump(JMP, 0, 0)], [|test|], |b1| + 1) <= b2 }

  lemma ElseBufAt(test: seq<Instr>, r: int, b1: seq<Instr>, b2: seq<Instr>, i: int)
    requires ElseBuf(test, r, b1, b2) && 0 <= i <= |b1|
    ensures |b1| < |b2| && |test| < |b1|
    ensures b2[i] == if i == |b1| then Jump(JMP, 0, 0) else if i == |test| then Jump(JF, r % 256, |b1| + 1 - |test|)
      else b1[i]
    ensures i < |test| ==> b1[i] == test[i]
  {
    var c := b1 + [Jump(JMP, 0, 0)];
    assert Resolve(c, [|test|], |b1| + 1)[i] == b2[i];
    assert b1[|test|] == (test + [Jump(JF, r, 0)])[|test|];
  }

  lemma ElseCovers(g: seq<Instr>, test: seq<Instr>, r: int, b1: seq<Instr>, b2: seq<Instr>)
    requires ElseBuf(test, r, b1, b2) && g == Resolve(b2, [|b1|], |b2|) && |test| < |b1| < |b2| && 0 <= r <= 255
    ensures Covers(g, b1, |test| + 1) && Covers(g, b2, |b1| + 1) && Covers(g, test, 0)
    ensures g[|test|] == Jump(JF, r, |b1| + 1 - |test|) && g[|b1|] == Jump(JMP, 0, |b2| - |b1|)
  {
    var m := |test|;
    ElseBufAt(test, r, b1, b2, m);
    ElseBufAt(test, r, b1, b2, |b1|);
    forall i | 0 <= i < m ensures SameAt(g, test, i) { ElseBufAt(test, r, b1, b2, i); }
    forall i | m + 1 <= i < |b1| ensures SameAt(g, b1, i) { ElseBufAt(test, r, b1, b2, i); }
    forall i | |b1| + 1 <= i < |b2| ensures SameAt(g, b2, i) {}
  }

  // What comes before and between the jumps stays.
  lemma SettledPrefix(g: seq<Instr>, a: nat, m: nat, seg: seq<Instr>, nb: seq<int>, nc: seq<int>, brk: int, cont: int)
    requires a <= |seg| <= m <= |g| && Covers(g, seg, 0) && (forall i :: i in nb || i in nc ==> i >= m)
    ensures Settled(g, nb, nc, brk, cont)[a..|seg|] == seg[a..]
  {
    var f := Settled(g, nb, nc, brk, cont);
    forall i | a <= i < |seg| ensures f[i] == seg[i] { assert SameAt(g, seg, i); }
  }

  lemma IfHasFacts(g: seq<Instr>, a: nat, test: seq<Instr>, r: int, b1: seq<Instr>, b2: seq<Instr>,
      nb1: seq<int>, nc1: seq<int>, nb2: seq<int>, nc2: seq<int>, brk: int, cont: int)
    requires a <= |test| && 0 <= r <= 255 && ElseBuf(test, r, b1, b2) && g == Resolve(b2, [|b1|], |b2|)
    requires |test| < |b1| < |b2| && Leaving(b1, |test| + 1, nb1, nc1) && Leaving(b2, |b1| + 1, nb2, nc2)
    ensures var f := Settled(g, nb1 + nb2, nc1 + nc2, brk, cont);
      && |f| == |b2| && TestFacts(f, a, |test|, |b1| + 1, test[a..], r, Settled(b1, nb1, nc1, brk, cont))
      && f[|b1|] == Jump(JMP, 0, |f| - |b1|) && Covers(f, Settled(b2, nb2, nc2, brk, cont), |b1| + 1)
  {
    ElseCovers(g, test, r, b1, b2);
    SettledFirst(b1, g, |test| + 1, nb1, nc1, nb2, nc2, brk, cont);
    SettledSecond(g, b2, |b1| + 1, nb1, nc1, nb2, nc2, brk, cont);
    SettledPrefix(g, a, |test|, test, nb1 + nb2, nc1 + nc2, brk, cont);
  }

  lemma TestTaken(f: seq<Instr>, a: nat, m: nat, e: int, seg: seq<Instr>, r: int, b1: seq<Instr>, nb: seq<int>,
      nc: seq<int>, brk: int, cont: int)
    requires TestFacts(f, a, m, e, seg, r, Settled(b1, nb, nc, brk, cont))
    ensures a <= m < |b1| <= |f| && f[a..m] == seg && f[m] == Jump(JF, r, e - m)
    ensures Covers(f, Settled(b1, nb, nc, brk, cont), m + 1)
  {}

  lemma IfBranches(cond: Expr, thn: Stmt, els: Stmt, f: seq<Instr>, a: nat, m: nat, seg: seq<Instr>, r: int,
      b1: seq<Instr>, b2: seq<Instr>, nb1: seq<int>, nc1: seq<int>, nb2: seq<int>, nc2: seq<int>, minReg: int,
      constants: seq<int>, p: Program, locals: nat, delta: int, brk: int, cont: int)
    requires TestFacts(f, a, m, |b1| + 1, seg, r, Settled(b1, nb1, nc1, brk, cont))
    requires |b1| < |f| == |b2| && f[|b1|] == Jump(JMP, 0, |f| - |b1|)
      && Covers(f, Settled(b2, nb2, nc2, brk, cont), |b1| + 1)
    requires Correct(thn, m + 1, b1, minReg, constants, nb1, nc1)
      && Correct(els, |b1| + 1, b2, minReg, constants, nb2, nc2)
    requires SegOk(seg, r, cond, locals, p.consts, p.arith) && Placed(p, delta, f, a)
    requires Fits(StmtUses(If(cond, thn, els)), minReg, constants, |f| - a, p, locals)
    ensures StmtOk(If(cond, thn, els), p, locals, a + delta, |f| + delta, brk + delta, cont + delta)
  {
    hide StmtOk, Correct, SegOk, Placed, Covers, TestFacts, Settled, Resolve;
    assert Fits(StmtUses(thn), minReg, constants, |f| - a, p, locals)
      && Fits(StmtUses(els), minReg, constants, |f| - a, p, locals);
    hide Fits, StmtUses;
    TestTaken(f, a, m, |b1| + 1, seg, r, b1, nb1, nc1, brk, cont);
    BranchOk(thn, f, a, b1, m + 1, nb1, nc1, minReg, constants, p, locals, delta, brk, cont);
    BranchOk(els, f, a, b2, |b1| + 1, nb2, nc2, minReg, constants, p, locals, delta, brk, cont);
    IfInPlace(cond, thn, els, f, a, m, seg, r, |b1|, p, locals, delta, brk + delta, cont + delta);
  }

  lemma IfSimulates(cond: Expr, thn: Stmt, els: Stmt, g: seq<Instr>, a: nat, test: seq<Instr>, r: int, b1: seq<Instr>,
      b2: seq<Instr>, nb1: seq<int>, nc1: seq<int>, nb2: seq<int>, nc2: seq<int>, minReg: int, constants: seq<int>,
      p: Program, locals: nat, delta: int, brk: int, cont: int)
    requires a <= |test| && ElseBuf(test, r, b1, b2) && g == Resolve(b2, [|b1|], |b2|)
    requires |test| < |b1| < |b2| && Leaving(b1, |test| + 1, nb1, nc1) && Leaving(b2, |b1| + 1, nb2, nc2)
    requires Evaluates(cond, test[a..], r, minReg, constants) && !Constant(cond)
    requires Correct(thn, |test| + 1, b1, minReg, constants, nb1, nc1)
      && Correct(els, |b1| + 1, b2, minReg, constants, nb2, nc2)
    requires Fits(StmtUses(If(cond, thn, els)), minReg, constants, |g| - a, p, locals)
    requires Placed(p, delta, Settled(g, nb1 + nb2, nc1 + nc2, brk, cont), a)
    ensures StmtOk(If(cond, thn, els), p, locals, a + delta, |g| + delta, brk + delta, cont + delta)
  {
    hide StmtOk, Correct, SegOk, Placed, Leaving, TestFacts, Covers, Resolve;
    assert EvaluatesIn(cond, test[a..], r, minReg, constants, locals, p.consts, p.arith);
    IfHasFacts(g, a, test, r, b1, b2, nb1, nc1, nb2, nc2, brk, cont);
    IfBranches(cond, thn, els, Settled(g, nb1 + nb2, nc1 + nc2, brk, cont), a, |test|, test[a..], r, b1, b2, nb1, nc1,
      nb2, nc2, minReg, constants,
      p, locals, delta, brk, cont);
  }

  lemma IfCorrect(cond: Expr, thn: Stmt, els: Stmt, g: seq<Instr>, a: nat, test: seq<Instr>, r: int, b1: seq<Instr>,
      b2: seq<Instr>, nb1: seq<int>, nc1: seq<int>, nb2: seq<int>, nc2: seq<int>, minReg: int, constants: seq<int>)
    requires a <= |test| && ElseBuf(test, r, b1, b2) && g == Resolve(b2, [|b1|], |b2|)
    requires |test| < |b1| < |b2| && Leaving(b1, |test| + 1, nb1, nc1) && Leaving(b2, |b1| + 1, nb2, nc2)
    requires Evaluates(cond, test[a..], r, minReg, constants) && !Constant(cond)
    requires Correct(thn, |test| + 1, b1, minReg, constants, nb1, nc1)
      && Correct(els, |b1| + 1, b2, minReg, constants, nb2, nc2)
    ensures Correct(If(cond, thn, els), a, g, minReg, constants, nb1 + nb2, nc1 + nc2)
  {
    var s, nb, nc := If(cond, thn, els), nb1 + nb2, nc1 + nc2;
    forall p, locals: nat, delta, brk, cont
      ensures Simulates(s, a, g, minReg, constants, nb, nc, p, locals, delta, brk, cont)
    {
      if Fits(StmtUses(s), minReg, constants, |g| - a, p, locals)
        && Placed(p, delta, Settled(g, nb, nc, brk, cont), a) {
        IfSimulates(cond, thn, els, g, a, test, r, b1, b2, nb1, nc1, nb2, nc2, minReg, constants, p, locals, delta, brk,
          cont);
      }
    }
  }

  lemma ReadyIfOnly(p0: State, test: seq<Instr>, r: int, p2: State, p3: State, cond: Expr, thn: Stmt, nb: seq<int>,
      nc: seq<int>)
    requires LoopShape(p0, test, r, p2, p3, cond, thn, nb, nc)
    ensures Correct(IfOnly(cond, thn), |Buf(p0)|, Resolve(Buf(p3), [|test|], |Buf(p3)|), p3.minReg, p3.constants, nb,
      nc)
  {
    EvaluatesMore(cond, test[|Buf(p0)|..], r, p2.minReg, p2.constants, p3.minReg, p3.constants);
    IfOnlyCorrect(cond, thn, Resolve(Buf(p3), [|test|], |Buf(p3)|), |Buf(p0)|, test, r, Buf(p3), nb, nc, p3.minReg,
      p3.constants);
  }

  lemma ResolvedLeaving(b: seq<Instr>, a: nat, nb: seq<int>, nc: seq<int>, at: int, target: int)
    requires Leaving(b, a, nb, nc) && at !in nb && at !in nc
    ensures Leaving(Resolve(b, [at], target), a, nb, nc)
  {
  }

  lemma LeavingBefore(b: seq<Instr>, a: nat, a1: nat, nb: seq<int>, nc: seq<int>)
    requires Leaving(b, a1, nb, nc) && a <= a1
    ensures Leaving(b, a, nb, nc)
  {
  }

  lemma IfOnlyDone(p0: State, test: seq<Instr>, r: int, p2: State, p3: State, cond: Expr, thn: Stmt, nb: seq<int>,
      nc: seq<int>)
    requires LoopReady(p0, test, r, p2, p3, cond, thn, nb, nc)
    ensures StmtDone(IfOnly(cond, thn), p0, WithBuf(p3, Resolve(Buf(p3), [|test|], |Buf(p3)|)), nb, nc)
  {
    hide Room, GuardNeed, StmtNeed, Correct, Evaluates;
    GuardRoom(p0, p3, Resolve(Buf(p3), [|test|], |Buf(p3)|), cond, thn);
    ReadyIfOnly(p0, test, r, p2, p3, cond, thn, nb, nc);
    KeptTwice(p0, p2, p3);
    ResolvedKept(p0, p3, [|test|], |Buf(p3)|);
    ResolvedLeaving(Buf(p3), |test| + 1, nb, nc, |test|, |Buf(p3)|);
    LeavingBefore(Resolve(Buf(p3), [|test|], |Buf(p3)|), |Buf(p0)|, |test| + 1, nb, nc);
  }

  // p4 is p3 after the jump over the else branch, with the jump to that branch aimed.
  ghost predicate Elsewhere(p3: State, p4: State, m: nat)
  { p4 == WithBuf(p3, Resolve(Buf(p3) + [Jump(JMP, 0, 0)], [m], |Buf(p3)| + 1)) }

  lemma ElsewhereKept(p0: State, p3: State, p4: State, m: nat)
    requires Kept(p0, p3) && |Buf(p0)| <= m && Short(Buf(p3), [m]) && Elsewhere(p3, p4, m)
    ensures Kept(p0, p4) && p4.minReg == p3.minReg && p4.constants == p3.constants
    ensures Buf(p4) == Resolve(Buf(p3) + [Jump(JMP, 0, 0)], [m], |Buf(p3)| + 1)
  {
    TidyAppend(p3, Jump(JMP, 0, 0));
    KeptWith(p0, p3, Buf(p3) + [Jump(JMP, 0, 0)]);
    ResolvedKept(p0, WithBuf(p3, Buf(p3) + [Jump(JMP, 0, 0)]), [m], |Buf(p3)| + 1);
  }

  lemma ReadyIf(p0: State, test: seq<Instr>, r: int, p2: State, p3: State, p5: State, cond: Expr, thn: Stmt, els: Stmt,
      nb1: seq<int>, nc1: seq<int>, nb2: seq<int>, nc2: seq<int>)
    requires LoopShape(p0, test, r, p2, p3, cond, thn, nb1, nc1) && p5.minReg <= p3.minReg
      && p3.constants <= p5.constants
    requires ElseBuf(test, r, Buf(p3), Buf(p5)) && |Buf(p3)| < |Buf(p5)|
    requires Leaving(Buf(p5), |Buf(p3)| + 1, nb2, nc2)
      && Correct(els, |Buf(p3)| + 1, Buf(p5), p5.minReg, p5.constants, nb2, nc2)
    ensures Correct(If(cond, thn, els), |Buf(p0)|, Resolve(Buf(p5), [|Buf(p3)|], |Buf(p5)|), p5.minReg, p5.constants,
      nb1 + nb2, nc1 + nc2)
  {
    hide Correct, Evaluates, ElseBuf, Resolve;
    var b1, b2 := Buf(p3), Buf(p5);
    EvaluatesMore(cond, test[|Buf(p0)|..], r, p2.minReg, p2.constants, p5.minReg, p5.constants);
    CorrectMore(thn, |test| + 1, b1, p3.minReg, p3.constants, p5.minReg, p5.constants, nb1, nc1);
    IfCorrect(cond, thn, els, Resolve(b2, [|b1|], |b2|), |Buf(p0)|, test, r, b1, b2, nb1, nc1, nb2, nc2, p5.minReg,
      p5.constants);
  }

  lemma IfLeaving(test: seq<Instr>, r: int, b1: seq<Instr>, b2: seq<Instr>, nb1: seq<int>, nc1: seq<int>, nb2: seq<int>,
      nc2: seq<int>, a: nat)
    requires a <= |test| < |b1| && ElseBuf(test, r, b1, b2) && Leaving(b1, |test| + 1, nb1, nc1)
      && Leaving(b2, |b1| + 1, nb2, nc2)
    ensures Leaving(Resolve(b2, [|b1|], |b2|), a, nb1 + nb2, nc1 + nc2)
  {
    forall i | i in nb1 || i in nc1
      ensures |test| + 1 <= i < |b1| && b2[i] == Jump(JMP, 0, 0)
    {
      ElseBufAt(test, r, b1, b2, i);
    }
    ElseBufAt(test, r, b1, b2, |b1|);
    LeavingBefore(b2, a, |b1| + 1, nb2, nc2);
    ResolvedLeaving(b2, a, nb1 + nb2, nc1 + nc2, |b1|, |b2|);
  }

  lemma IfKept(p0: State, test: seq<Instr>, r: int, p2: State, p3: State, p4: State, p5: State, cond: Expr, thn: Stmt,
      nb1: seq<int>, nc1: seq<int>)
    requires LoopShape(p0, test, r, p2, p3, cond, thn, nb1, nc1) && Elsewhere(p3, p4, |test|) && Kept(p4, p5)
    ensures Kept(p0, WithBuf(p5, Resolve(Buf(p5), [|Buf(p3)|], |Buf(p5)|)))
    ensures ElseBuf(test, r, Buf(p3), Buf(p5)) && |test| < |Buf(p3)| < |Buf(p5)| && |Buf(p4)| == |Buf(p3)| + 1
    ensures p5.minReg <= p3.minReg && p3.constants <= p5.constants
  {
    KeptTwice(p0, p2, p3);
    ElsewhereKept(p0, p3, p4, |test|);
    KeptTwice(p0, p4, p5);
    ResolvedKept(p0, p5, [|Buf(p3)|], |Buf(p5)|);
  }

  lemma IfRoom(p0: State, p3: State, p4: State, p5: State, m: nat, cond: Expr, thn: Stmt, els: Stmt, f: seq<Instr>)
    requires Room(p0, p3, GuardNeed(cond, StmtNeed(thn))) && Elsewhere(p3, p4, m) && Room(p4, p5, StmtNeed(els))
    ensures Room(p0, WithBuf(p5, f), StmtNeed(If(cond, thn, els)))
  {
    hide Room, Then, GuardNeed;
    var n := GuardNeed(cond, StmtNeed(thn));
    RoomWith(p0, p3, Resolve(Buf(p3) + [Jump(JMP, 0, 0)], [m], |Buf(p3)| + 1), n);
    RoomThen(p0, p4, p5, n, StmtNeed(els));
    RoomWith(p0, p5, f, StmtNeed(If(cond, thn, els)));
  }

  lemma IfDone(p0: State, test: seq<Instr>, r: int, p2: State, p3: State, p4: State, p5: State, cond: Expr, thn: Stmt,
      els: Stmt, nb1: seq<int>, nc1: seq<int>, nb2: seq<int>, nc2: seq<int>)
    requires LoopReady(p0, test, r, p2, p3, cond, thn, nb1, nc1) && Elsewhere(p3, p4, |test|)
    requires StmtDone(els, p4, p5, nb2, nc2)
    ensures StmtDone(If(cond, thn, els), p0, WithBuf(p5, Resolve(Buf(p5), [|Buf(p3)|], |Buf(p5)|)), nb1 + nb2,
      nc1 + nc2)
  {
    hide Correct, Evaluates, Resolve, Room, GuardNeed, StmtNeed;
    IfRoom(p0, p3, p4, p5, |test|, cond, thn, els, Resolve(Buf(p5), [|Buf(p3)|], |Buf(p5)|));
    IfKept(p0, test, r, p2, p3, p4, p5, cond, thn, nb1, nc1);
    ReadyIf(p0, test, r, p2, p3, p5, cond, thn, els, nb1, nc1, nb2, nc2);
    IfLeaving(test, r, Buf(p3), Buf(p5), nb1, nc1, nb2, nc2, |Buf(p0)|);
  }
}
