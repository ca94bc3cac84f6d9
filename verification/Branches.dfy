/** Jumps out of loops, and statements in sequence. */
module Branches {
  import opened Wrappers
  import opened Machine
  import opened Source
  import opened Simulation
  import opened Codegen
  import opened Layout
  import opened Statements

  lemma CorrectMore(s: Stmt, a: nat, b: seq<Instr>, minReg: int, constants: seq<int>, minReg': int,
      constants': seq<int>, nb: seq<int>, nc: seq<int>)
    requires Correct(s, a, b, minReg, constants, nb, nc) && minReg' <= minReg <= REGS && constants <= constants'
    ensures Correct(s, a, b, minReg', constants', nb, nc)
  {
    forall p, locals: nat, delta, brk, cont
      ensures Simulates(s, a, b, minReg', constants', nb, nc, p, locals, delta, brk, cont)
    {
      assert Simulates(s, a, b, minReg, constants, nb, nc, p, locals, delta, brk, cont);
    }
  }

  // A loop that tests after each round: its body from a to c, the condition and at m its jump.
  ghost predicate RepeatFacts(f: seq<Instr>, a: nat, c: nat, m: nat, body: seq<Instr>, seg: seq<Instr>, r: int,
      nb: seq<int>, nc: seq<int>)
  {
    && a <= c <= m && |f| == m + 1 && |body| == c && NoEnds(f, a)
    && Covers(f, Settled(body, nb, nc, |f|, c), a)
    && f[c..m] == seg && f[m] == Jump(JT, r, Field17(a - m))
  }

  lemma RepeatInPlace(loop: Stmt, cond: Expr, f: seq<Instr>, a: nat, c: nat, m: nat, body: seq<Instr>, seg: seq<Instr>,
      r: int, nb: seq<int>, nc: seq<int>, minReg: int, constants: seq<int>, p: Program, locals: nat, delta: int,
      brk: int, cont: int)
    requires RepeatFacts(f, a, c, m, body, seg, r, nb, nc) && Placed(p, delta, f, a) && |f| - a <= 0x10000
    requires SegOk(seg, r, cond, locals, p.consts, p.arith)
    requires Correct(loop, a, body, minReg, constants, nb, nc)
      && Fits(StmtUses(loop), minReg, constants, |f| - a, p, locals)
    ensures StmtOk(DoWhile(loop, cond), p, locals, a + delta, |f| + delta, brk, cont)
  {
    PlacedPart(p, delta, f, a, Settled(body, nb, nc, |f|, c), a);
    assert Simulates(loop, a, body, minReg, constants, nb, nc, p, locals, delta, |f|, c);
    PlacedPart(p, delta, f, a, f, c) by { forall k | c <= k < |f| ensures SameAt(f, f, k) {} }
    TestPlaced(p, delta, f, c, seg, JT, r, a);
    assert PlacedAt(p, delta, f, a);
    DoWhileOk(p, locals, cond, loop, seg, r, a + delta, c + delta, m + delta, |f| + delta, brk, cont);
  }

  lemma RepeatCorrect(loop: Stmt, cond: Expr, f: seq<Instr>, a: nat, c: nat, m: nat, body: seq<Instr>, seg: seq<Instr>,
      r: int, nb: seq<int>, nc: seq<int>, minReg: int, constants: seq<int>)
    requires RepeatFacts(f, a, c, m, body, seg, r, nb, nc) && Evaluates(cond, seg, r, minReg, constants)
    requires Correct(loop, a, body, minReg, constants, nb, nc)
    ensures Correct(DoWhile(loop, cond), a, f, minReg, constants, [], [])
  {
    var s := DoWhile(loop, cond);
    forall p, locals: nat, delta, brk, cont ensures InPlace(s, a, f, minReg, constants, p, locals, delta, brk, cont) {
      if Fits(StmtUses(s), minReg, constants, |f| - a, p, locals) && Placed(p, delta, f, a) {
        assert EvaluatesIn(cond, seg, r, minReg, constants, locals, p.consts, p.arith);
        RepeatInPlace(loop, cond, f, a, c, m, body, seg, r, nb, nc, minReg, constants, p, locals, delta, brk, cont);
      }
    }
    AloneCorrect(s, a, f, minReg, constants);
  }

  lemma RepeatHasFacts(a: nat, body: seq<Instr>, seg: seq<Instr>, r: int, nb: seq<int>, nc: seq<int>, b: seq<Instr>)
    requires a <= |body| && Leaving(body, a, nb, nc) && NoEnds(body, a) && NoEnds(seg, 0)
    requires b == Resolve(body, nc, |body|) + seg + [Jump(JT, r, Field17(a - |body| - |seg|))]
    ensures RepeatFacts(Resolve(b, nb, |b|), a, |body|, |body| + |seg|, body, seg, r, nb, nc)
    ensures Resolve(b, nb, |b|)[..a] == body[..a]
  {
    hide Field17;
    var f, c := Resolve(b, nb, |b|), |body|;
    forall i | a <= i < c ensures SameAt(f, Settled(body, nb, nc, |f|, c), i) {}
    forall i | 0 <= i < |seg| ensures f[c + i] == seg[i] {
      assert b[c + i] == seg[i] && c + i !in nb;
    }
    assert f[c..c + |seg|] == seg;
    assert c + |seg| !in nb;
    forall i | a <= i < |f| ensures !f[i].End? {
      if c <= i < c + |seg| { assert f[i] == seg[i - c]; }
    }
  }

  lemma ResolvedKept(p0: State, p1: State, list: seq<int>, target: int)
    requires Kept(p0, p1) && (forall i :: i in list ==> |Buf(p0)| <= i) && Short(Buf(p1), list)
    ensures Kept(p0, WithBuf(p1, Resolve(Buf(p1), list, target)))
  {
    ResolveIn(Buf(p1), list, target, p1.locals, p1.minReg);
    KeptWith(p0, p1, Resolve(Buf(p1), list, target));
  }

  // A do-while loop up to its jump back: p1 after its body and p2 after its continues have been aimed.
  ghost predicate RepeatReady(p0: State, p1: State, p4: State, loop: Stmt, cond: Expr, seg: seq<Instr>, r: int,
      nb: seq<int>, nc: seq<int>)
  {
    var b := Resolve(Buf(p1), nc, |Buf(p1)|);
    && StmtDone(loop, p0, p1, nb, nc) && Kept(WithBuf(p1, b), p4) && NoEnds(seg, 0)
    && Room(WithBuf(p1, b), p4, Freed(ExprNeed(cond), 0))
    && Buf(p4) == b + seg + [Jump(JT, r, Field17(|Buf(p0)| - |b| - |seg|))]
    && Evaluates(cond, seg, r, p4.minReg, p4.constants)
  }

  lemma RepeatRoom(p0: State, p1: State, p4: State, loop: Stmt, cond: Expr, f: seq<Instr>, g: seq<Instr>)
    requires Room(p0, p1, StmtNeed(loop)) && Room(WithBuf(p1, f), p4, Freed(ExprNeed(cond), 0))
    ensures Room(p0, WithBuf(p4, g), StmtNeed(DoWhile(loop, cond)))
  {
    hide Room, Then;
    RoomWith(p0, p1, f, StmtNeed(loop));
    RoomThen(p0, WithBuf(p1, f), p4, StmtNeed(loop), Freed(ExprNeed(cond), 0));
    RoomWith(p0, p4, g, StmtNeed(DoWhile(loop, cond)));
  }

  lemma RepeatDone(p0: State, p1: State, p4: State, loop: Stmt, cond: Expr, seg: seq<Instr>, r: int, nb: seq<int>,
      nc: seq<int>)
    requires RepeatReady(p0, p1, p4, loop, cond, seg, r, nb, nc)
    ensures StmtDone(DoWhile(loop, cond), p0, WithBuf(p4, Resolve(Buf(p4), nb, |Buf(p4)|)), [], [])
  {
    hide Correct, Evaluates, RepeatFacts, Resolve, Field17, Room, StmtNeed, ExprNeed, Freed;
    var a, body, b := |Buf(p0)|, Buf(p1), Buf(p4);
    RepeatRoom(p0, p1, p4, loop, cond, Resolve(body, nc, |body|), Resolve(b, nb, |b|));
    ResolvedKept(p0, p1, nc, |body|);
    KeptTwice(p0, WithBuf(p1, Resolve(body, nc, |body|)), p4);
    ResolvedKept(p0, p4, nb, |b|);
    RepeatHasFacts(a, body, seg, r, nb, nc, b);
    CorrectMore(loop, a, body, p1.minReg, p1.constants, p4.minReg, p4.constants, nb, nc);
    RepeatCorrect(loop, cond, Resolve(b, nb, |b|), a, |body|, |body| + |seg|, body, seg, r, nb, nc, p4.minReg,
      p4.constants);
  }

  lemma LeaveCorrect(s: Stmt, b: seq<Instr>, minReg: int, constants: seq<int>)
    requires s.Break? || s.Continue?
    ensures var list := [|b|];
      Correct(s, |b|, b + [Jump(JMP, 0, 0)], minReg, constants, if s.Break? then list else [], if s.Break? then []
        else list)
  {
    var a, list, g := |b|, [|b|], b + [Jump(JMP, 0, 0)];
    var nb, nc := if s.Break? then list else [], if s.Break? then [] else list;
    forall p, locals: nat, delta, brk, cont
      ensures Simulates(s, a, g, minReg, constants, nb, nc, p, locals, delta, brk, cont)
    {
      var f := Settled(g, nb, nc, brk, cont);
      if Placed(p, delta, f, a) {
        assert PlacedAt(p, delta, f, a) && f[a] == Jump(JMP, 0, (if s.Break? then brk else cont) - a);
        LeaveOk(s, p, locals, a + delta, a + 1 + delta, brk + delta, cont + delta);
      }
    }
  }

  // A break or a continue.
  lemma LeaveDone(s: Stmt, p0: State)
    requires (s.Break? || s.Continue?) && Balanced(p0)
    ensures var list := [|Buf(p0)|];
      StmtDone(s, p0, WithBuf(p0, Buf(p0) + [Jump(JMP, 0, 0)]), if s.Break? then list else [], if s.Break? then []
        else list)
  {
    TidyAppend(p0, Jump(JMP, 0, 0));
    LeaveCorrect(s, Buf(p0), p0.minReg, p0.constants);
  }

  // The jumps of two pieces of code, the second of which starts after the end of the first.
  lemma SettledFirst(b1: seq<Instr>, b2: seq<Instr>, a: nat, nb1: seq<int>, nc1: seq<int>, nb2: seq<int>, nc2: seq<int>,
      brk: int, cont: int)
    requires |b1| <= |b2| && Covers(b2, b1, a) && (forall i :: i in nb2 || i in nc2 ==> i >= |b1|)
    ensures Covers(Settled(b2, nb1 + nb2, nc1 + nc2, brk, cont), Settled(b1, nb1, nc1, brk, cont), a)
  {
    var f, g := Settled(b2, nb1 + nb2, nc1 + nc2, brk, cont), Settled(b1, nb1, nc1, brk, cont);
    forall i | a <= i < |b1| ensures SameAt(f, g, i) { assert SameAt(b2, b1, i); }
  }

  lemma SettledSecond(g: seq<Instr>, b2: seq<Instr>, a: nat, nb1: seq<int>, nc1: seq<int>, nb2: seq<int>, nc2: seq<int>,
      brk: int, cont: int)
    requires |b2| == |g| && Covers(g, b2, a) && (forall i :: i in nb1 || i in nc1 ==> i < a)
    ensures Covers(Settled(g, nb1 + nb2, nc1 + nc2, brk, cont), Settled(b2, nb2, nc2, brk, cont), a)
  {
    var f, h := Settled(g, nb1 + nb2, nc1 + nc2, brk, cont), Settled(b2, nb2, nc2, brk, cont);
    forall i | a <= i < |b2| ensures SameAt(f, h, i) { assert SameAt(g, b2, i); }
  }

  lemma PrefixCovers(b1: seq<Instr>, b2: seq<Instr>, a: nat)
    requires b1 <= b2
    ensures Covers(b2, b1, a) && Covers(b2, b2, a)
  {
    forall i | a <= i < |b1| ensures SameAt(b2, b1, i) {}
    forall i | a <= i < |b2| ensures SameAt(b2, b2, i) {}
  }

  lemma AppendCorrect(pre: seq<Stmt>, s: Stmt, a: nat, b1: seq<Instr>, b2: seq<Instr>, minReg: int, constants: seq<int>,
      nb1: seq<int>, nc1: seq<int>, nb2: seq<int>, nc2: seq<int>)
    requires a <= |b1| && b1 <= b2 && Leaving(b1, a, nb1, nc1) && Leaving(b2, |b1|, nb2, nc2)
    requires Correct(Block(pre), a, b1, minReg, constants, nb1, nc1)
      && Correct(s, |b1|, b2, minReg, constants, nb2, nc2)
    ensures Correct(Block(pre + [s]), a, b2, minReg, constants, nb1 + nb2, nc1 + nc2)
  {
    hide StmtOk, Covers, Settled;
    var nb, nc := nb1 + nb2, nc1 + nc2;
    UsesAppend(pre, s);
    PrefixCovers(b1, b2, a);
    PrefixCovers(b1, b2, |b1|);
    forall p, locals: nat, delta, brk, cont
      ensures Simulates(Block(pre + [s]), a, b2, minReg, constants, nb, nc, p, locals, delta, brk, cont)
    {
      var f := Settled(b2, nb, nc, brk, cont);
      SettledFirst(b1, b2, a, nb1, nc1, nb2, nc2, brk, cont);
      SettledSecond(b2, b2, |b1|, nb1, nc1, nb2, nc2, brk, cont);
      if Fits(AllUses(pre + [s]), minReg, constants, |b2| - a, p, locals) && Placed(p, delta, f, a) {
        PlacedPart(p, delta, f, a, Settled(b1, nb1, nc1, brk, cont), a);
        PlacedPart(p, delta, f, a, Settled(b2, nb2, nc2, brk, cont), |b1|);
        assert Simulates(Block(pre), a, b1, minReg, constants, nb1, nc1, p, locals, delta, brk, cont);
        assert Simulates(s, |b1|, b2, minReg, constants, nb2, nc2, p, locals, delta, brk, cont);
        AppendOk(p, locals, pre, s, a + delta, |b1| + delta, |b2| + delta, brk + delta, cont + delta);
      }
    }
  }

  lemma {:induction false} UsesAppend(pre: seq<Stmt>, s: Stmt)
    ensures AllUses(pre + [s]) == Max(AllUses(pre), StmtUses(s))
  {
    if pre == [] {
      assert pre + [s] == [s] && [s][1..] == [];
    } else {
      assert (pre + [s])[1..] == pre[1..] + [s];
      UsesAppend(pre[1..], s);
    }
  }

  lemma PendingMore(b1: seq<Instr>, b2: seq<Instr>, a: nat, list: seq<int>)
    requires Pending(b1, a, list) && b1 <= b2
    ensures Pending(b2, a, list)
  {
    forall i | i in list ensures b2[i] == Jump(JMP, 0, 0) { assert b1[i] == b2[i]; }
  }

  lemma LeavingTwice(b1: seq<Instr>, b2: seq<Instr>, a: nat, nb1: seq<int>, nc1: seq<int>, nb2: seq<int>, nc2: seq<int>)
    requires a <= |b1| && b1 <= b2 && Leaving(b1, a, nb1, nc1) && Leaving(b2, |b1|, nb2, nc2)
    ensures Leaving(b2, a, nb1 + nb2, nc1 + nc2)
  {
    PendingMore(b1, b2, a, nb1);
    PendingMore(b1, b2, a, nc1);
  }

  lemma AppendRoom(p0: State, p1: State, p2: State, pre: seq<Stmt>, s: Stmt)
    requires Room(p0, p1, StmtNeed(Block(pre))) && Room(p1, p2, StmtNeed(s))
    ensures Room(p0, p2, StmtNeed(Block(pre + [s])))
  {
    hide Room, Then;
    assert (pre + [s])[..|pre|] == pre;
    RoomThen(p0, p1, p2, StmtNeed(Block(pre)), StmtNeed(s));
  }

  lemma AppendDone(p0: State, p1: State, p2: State, pre: seq<Stmt>, s: Stmt, nb1: seq<int>, nc1: seq<int>,
      nb2: seq<int>, nc2: seq<int>)
    requires StmtDone(Block(pre), p0, p1, nb1, nc1) && StmtDone(s, p1, p2, nb2, nc2)
    ensures StmtDone(Block(pre + [s]), p0, p2, nb1 + nb2, nc1 + nc2)
  {
    hide Room, StmtNeed, Then;
    AppendRoom(p0, p1, p2, pre, s);
    KeptTwice(p0, p1, p2);
    LeavingTwice(Buf(p1), Buf(p2), |Buf(p0)|, nb1, nc1, nb2, nc2);
    CorrectMore(Block(pre), |Buf(p0)|, Buf(p1), p1.minReg, p1.constants, p2.minReg, p2.constants, nb1, nc1);
    AppendCorrect(pre, s, |Buf(p0)|, Buf(p1), Buf(p2), p2.minReg, p2.constants, nb1, nc1, nb2, nc2);
  }

  lemma EmptyDone(p0: State)
    requires Balanced(p0)
    ensures StmtDone(Block([]), p0, p0, [], [])
  {
    var a, b, s := |Buf(p0)|, Buf(p0), Block([]);
    forall p, locals: nat, delta, brk, cont
      ensures Simulates(s, a, b, p0.minReg, p0.constants, [], [], p, locals, delta, brk, cont)
    {
      EmptyOk(s, p, locals, a + delta, brk + delta, cont + delta);
    }
  }
}
