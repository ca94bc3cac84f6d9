/** Where the code of statements is placed, and what it then does. */
module Layout {
  import opened Wrappers
  import opened Machine
  import opened Source
  import opened Simulation
  import opened Codegen

  // One more than the highest local in use.
  function StmtUses(s: Stmt): nat
  {
    match s
    case Do(simple) => SimpleUses(simple)
    case Block(body) => AllUses(body)
    case If(cond, thn, els) => Max(Uses(cond), Max(StmtUses(thn), StmtUses(els)))
    case IfOnly(cond, thn) => Max(Uses(cond), StmtUses(thn))
    case While(cond, loop) => Max(Uses(cond), StmtUses(loop))
    case DoWhile(loop, cond) => Max(Uses(cond), StmtUses(loop))
    case For(init, cond, iter, loop) => Max(Max(SimpleUses(init), SimpleUses(iter)), Max(Uses(cond), StmtUses(loop)))
    case Switch(selector, clauses) => Max(Uses(selector), ClauseUses(clauses))
    case Break => 0
    case Continue => 0
  }

  function ClauseUses(clauses: seq<Clause>): nat
  {
    if clauses == [] then 0 else Max(OneClauseUses(clauses[0]), ClauseUses(clauses[1..]))
  }

  function OneClauseUses(c: Clause): nat
  { Max(if c.body.Some? then StmtUses(c.body.value) else 0, if c.Case? then Uses(c.test) else 0) }

  function AllUses(body: seq<Stmt>): nat
  { if body == [] then 0 else Max(StmtUses(body[0]), AllUses(body[1..])) }

  // What a statement needs. The first part of a for loop stays on the parse stack.
  function StmtNeed(s: Stmt): Need
    decreases s, 1
  {
    match s
    case Do(simple) => Freed(SimpleNeed(simple), 0)
    case Block(body) => ListNeed(body)
    case If(cond, thn, els) => Then(GuardNeed(cond, StmtNeed(thn)), StmtNeed(els))
    case IfOnly(cond, thn) => GuardNeed(cond, StmtNeed(thn))
    case While(cond, loop) => GuardNeed(cond, StmtNeed(loop))
    case DoWhile(loop, cond) => Then(StmtNeed(loop), Freed(ExprNeed(cond), 0))
    case For(init, cond, iter, loop) => Then(SimpleNeed(init), RoundNeed(cond, iter, StmtNeed(loop)))
    case Switch(selector, clauses) => Freed(Then(ExprNeed(selector), ClausesNeed(clauses)), 0)
    case Break => NOTHING
    case Continue => NOTHING
  }

  function GuardNeed(cond: Expr, n: Need): Need
  { Then(Freed(ExprNeed(cond), 0), n) }

  function RoundNeed(cond: Expr, iter: Simple, n: Need): Need
  { Then(Then(Freed(ExprNeed(cond), 0), Freed(SimpleNeed(iter), 0)), n) }

  function ListNeed(body: seq<Stmt>): Need
    decreases body, 0
  { if body == [] then NOTHING else Then(ListNeed(body[..|body| - 1]), StmtNeed(body[|body| - 1])) }

  // The comparison of a case.
  function TestNeed(test: Expr): Need
  { Freed(Freed(ExprNeed(test), 1), 0) }

  function CaseNeed(c: Clause): Need
  { if c.Case? then TestNeed(c.test) else NOTHING }

  function BodyNeed(c: Clause): Need
    decreases c, 2
  { if c.body.Some? then StmtNeed(c.body.value) else NOTHING }

  function ClausesNeed(clauses: seq<Clause>): Need
    decreases clauses, 0
  {
    if clauses == [] then NOTHING
    else
      var c := clauses[|clauses| - 1];
      Then(Then(ClausesNeed(clauses[..|clauses| - 1]), CaseNeed(c)), BodyNeed(c))
  }

  // b with its pending breaks and continues aimed.
  function Settled(b: seq<Instr>, nb: seq<int>, nc: seq<int>, brk: int, cont: int): seq<Instr>
  { Resolve(Resolve(b, nc, cont), nb, brk) }

  ghost predicate PlacedAt(p: Program, delta: int, f: seq<Instr>, i: int)
    requires 0 <= i < |f| && 0 <= i + delta < |p.code|
  { p.code[i + delta] == f[i] }

  // The program holds f from address a on, moved by delta.
  ghost predicate Placed(p: Program, delta: int, f: seq<Instr>, a: nat)
  {
    && 0 <= a + delta && |f| + delta <= |p.code|
    && forall i {:trigger PlacedAt(p, delta, f, i)} :: a <= i < |f| ==> PlacedAt(p, delta, f, i)
  }

  ghost predicate SameAt(f: seq<Instr>, b: seq<Instr>, i: int)
    requires 0 <= i < |f| && i < |b|
  { f[i] == b[i] }

  // f is b from address a up to the end of b.
  ghost predicate Covers(f: seq<Instr>, b: seq<Instr>, a: nat)
  { |b| <= |f| && forall i {:trigger SameAt(f, b, i)} :: a <= i < |b| ==> SameAt(f, b, i) }

  lemma PlacedPart(p: Program, delta: int, f: seq<Instr>, a: nat, b: seq<Instr>, a1: nat)
    requires Placed(p, delta, f, a) && a <= a1 && Covers(f, b, a1)
    ensures Placed(p, delta, b, a1)
  {
    forall i | a1 <= i < |b| ensures PlacedAt(p, delta, b, i) {
      assert PlacedAt(p, delta, f, i) && SameAt(f, b, i);
    }
  }

  // The room, the constants and the reach of jumps that a piece of code needs.
  ghost predicate Fits(uses: nat, minReg: int, constants: seq<int>, size: int, p: Program, locals: nat)
  { uses <= locals < minReg <= REGS && constants <= p.consts && size <= 0x10000 }

  ghost predicate Simulates(s: Stmt, a: nat, b: seq<Instr>, minReg: int, constants: seq<int>, nb: seq<int>,
      nc: seq<int>, p: Program, locals: nat, delta: int, brk: int, cont: int)
  {
    Fits(StmtUses(s), minReg, constants, |b| - a, p, locals) && Placed(p, delta, Settled(b, nb, nc, brk, cont), a)
    ==> StmtOk(s, p, locals, a + delta, |b| + delta, brk + delta, cont + delta)
  }

  // Wherever b ends up and whatever follows it, its code from a on does what s does.
  ghost predicate Correct(s: Stmt, a: nat, b: seq<Instr>, minReg: int, constants: seq<int>, nb: seq<int>, nc: seq<int>)
  {
    forall p, locals: nat, delta, brk, cont {:trigger Simulates(s, a, b, minReg, constants, nb, nc, p, locals, delta,
      brk, cont)} ::
      Simulates(s, a, b, minReg, constants, nb, nc, p, locals, delta, brk, cont)
  }

  // The jumps that wait for the end or the next round of the loop around them.
  ghost predicate Pending(b: seq<Instr>, a: nat, list: seq<int>)
  { forall i :: i in list ==> a <= i < |b| && b[i] == Jump(JMP, 0, 0) }

  ghost predicate Leaving(b: seq<Instr>, a: nat, nb: seq<int>, nc: seq<int>)
  { Pending(b, a, nb) && Pending(b, a, nc) && forall i :: i in nb ==> i !in nc }

  ghost predicate NoEnds(b: seq<Instr>, a: nat)
  { forall i :: a <= i < |b| ==> !b[i].End? }

  ghost predicate Kept(p0: State, p1: State)
  {
    && Grown(p0, p1) && Balanced(p0) && Balanced(p1) && NoEnds(Buf(p1), |Buf(p0)|)
    && p0.stack <= p1.stack && (p0.deferred ==> p1.stack == p0.stack)
  }

  // The code for s has been generated, with the jumps nb out of the loop around s and nc to its next round.
  ghost predicate StmtDone(s: Stmt, p0: State, p1: State, nb: seq<int>, nc: seq<int>)
  {
    && Kept(p0, p1) && Room(p0, p1, StmtNeed(s)) && Leaving(Buf(p1), |Buf(p0)|, nb, nc)
    && Correct(s, |Buf(p0)|, Buf(p1), p1.minReg, p1.constants, nb, nc)
  }

  ghost predicate EvaluatesIn(e: Expr, seg: seq<Instr>, r: int, minReg: int, constants: seq<int>, locals: nat,
      consts: seq<int>, a: Arith)
  {
    Uses(e) <= locals < minReg <= REGS && constants <= consts ==>
      SegOk(seg, r, e, locals, consts, a) && (!Constant(e) ==> 0 <= r <= MAX_REGISTER)
  }

  ghost predicate Evaluates(e: Expr, seg: seq<Instr>, r: int, minReg: int, constants: seq<int>)
  {
    forall locals: nat, consts, a {:trigger EvaluatesIn(e, seg, r, minReg, constants, locals, consts, a)} ::
      EvaluatesIn(e, seg, r, minReg, constants, locals, consts, a)
  }

  lemma ExprEvaluates(p0: State, p1: State, e: Expr)
    requires ExprDone(p0, p1, e)
    ensures Evaluates(e, NewCode(p0, p1), p1.stack[|p0.stack|].reg, p1.minReg, p1.constants)
  {
    var s, r := NewCode(p0, p1), p1.stack[|p0.stack|].reg;
    BareUses(e);
    hide Room, Tidy, Grown;
    forall locals: nat, consts, a ensures EvaluatesIn(e, s, r, p1.minReg, p1.constants, locals, consts, a) {
      if Uses(e) <= locals < p1.minReg <= REGS && p1.constants <= consts {
        assert CodeComputes(p0, p1, e, locals, consts, a);
        forall regs: seq<int> | |regs| == REGS ensures SegComputes(s, r, e, locals, consts, a, regs) {
          assert Computes(s, r, e, locals, consts, a, p0.nextReg, regs);
        }
      }
    }
  }

  // p1 after a conditional jump has taken the operand off the parse stack.
  function Tested(p1: State, op: JumpOp, offset: int): State
    requires p1.stack != []
  { Popped(WithBuf(p1, Buf(p1) + [Jump(op, p1.stack[|p1.stack| - 1].reg, offset)])) }

  lemma TestedState(p0: State, p1: State, e: Expr, op: JumpOp, offset: int)
    requires ExprDone(p0, p1, e)
    ensures var p2 := Tested(p1, op, offset);
      && Kept(p0, p2) && Room(p0, p2, Freed(ExprNeed(e), 0))
      && p2.stack == p0.stack && p2.minReg == p1.minReg && p2.constants == p1.constants
      && Buf(p2) == Buf(p1) + [Jump(op, p1.stack[|p0.stack|].reg, offset)]
  {
    hide Room, ExprNeed, Freed, Registers, CodeIn, StackIn, CodeComputes;
    assert p1.stack == p0.stack + [p1.stack[|p0.stack|]];
    RegistersPush(p0.stack, p1.stack[|p0.stack|]);
    TidyTop(p1, |p0.stack|);
    TidyAppend(p1, Jump(op, p1.stack[|p0.stack|].reg, offset));
    StackInPrefix(p1.stack, |p0.stack|, p1.locals, p1.minReg);
    forall i | |Buf(p0)| <= i < |Buf(p1)| ensures !Buf(p1)[i].End? {
      assert Buf(p1)[i] == NewCode(p0, p1)[i - |Buf(p0)|];
    }
    RoomFreed(p0, p1, Tested(p1, op, offset), ExprNeed(e));
  }

  lemma KeptTwice(p0: State, p1: State, p2: State)
    requires Kept(p0, p1) && Kept(p1, p2)
    ensures Kept(p0, p2)
  {
    forall i | |Buf(p0)| <= i < |Buf(p2)| ensures !Buf(p2)[i].End? {
      if i < |Buf(p1)| { assert Buf(p2)[i] == Buf(p1)[i]; }
    }
  }

  lemma KeptWith(p0: State, p1: State, b: seq<Instr>)
    requires Kept(p0, p1) && Buf(p0) <= b && NoEnds(b, |Buf(p0)|) && CodeIn(b, p1.locals, p1.minReg)
    ensures Kept(p0, WithBuf(p1, b))
  {
  }

  // The listed jumps keep their operands when they are aimed.
  ghost predicate Short(b: seq<Instr>, list: seq<int>)
  { forall i :: i in list && 0 <= i < |b| && b[i].Jump? ==> b[i].jop.JMP? || b[i].rn <= MAX_REGISTER }

  lemma ResolveIn(b: seq<Instr>, list: seq<int>, target: int, locals: nat, minReg: int)
    requires CodeIn(b, locals, minReg) && Short(b, list)
    ensures CodeIn(Resolve(b, list, target), locals, minReg)
  {
    var f := Resolve(b, list, target);
    forall k | 0 <= k < |f| ensures InstrIn(f, k, locals, minReg) { assert InstrIn(b, k, locals, minReg); }
  }

  // The operand of a condition fits in a jump.
  lemma ShortOperand(p0: State, p1: State, e: Expr)
    requires ExprShape(p0, p1, e) && !Constant(e)
    ensures p1.stack[|p0.stack|].reg <= MAX_REGISTER
  {
    TidyTop(p1, |p0.stack|);
  }

  // The code holds a test: its condition from a on, then the jump.
  lemma TestPlaced(p: Program, delta: int, f: seq<Instr>, a: nat, seg: seq<Instr>, op: JumpOp, r: int, target: int)
    requires Placed(p, delta, f, a) && a + |seg| < |f|
    requires f[a..a + |seg|] == seg && f[a + |seg|] == Jump(op, r, target - (a + |seg|))
    ensures TestAt(p, a + delta, a + |seg| + delta, seg, op, r, target + delta)
  {
    var m := a + |seg|;
    assert PlacedAt(p, delta, f, m);
    forall i | 0 <= i < |seg| ensures p.code[a + delta + i] == seg[i] {
      assert PlacedAt(p, delta, f, a + i) && f[a..m][i] == f[a + i];
    }
    assert p.code[a + delta..m + delta] == seg;
  }
}
