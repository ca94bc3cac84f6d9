/** The code generator: parse stack, temporaries, jumps and deferred code (Parser.cpp, Parser.h). */
module Codegen {
  import opened Machine
  import opened Source
  import opened Simulation
  import opened Slots

  // The longest jump, in either direction.
  const MAX_JUMP := 32767

  datatype Entry = LocalEntry(reg: int) | ConstantEntry(reg: int) | RegisterEntry(reg: int)

  // What the code generator holds while it compiles one function.
  datatype State = State(
    code: seq<Instr>, deferredCode: seq<Instr>, blocks: seq<nat>, deferred: bool,
    stack: seq<Entry>, nextReg: int, minReg: int, constants: seq<int>, nerrors: nat, locals: nat)

  function Buf(p: State): seq<Instr>
  { if p.deferred then p.deferredCode else p.code }

  function WithBuf(p: State, b: seq<Instr>): State
  { if p.deferred then p.(deferredCode := b) else p.(code := b) }

  function Registers(stack: seq<Entry>): nat
  { if stack == [] then 0 else Registers(stack[..|stack| - 1]) + (if stack[|stack| - 1].RegisterEntry? then 1 else 0) }

  function Popped(p: State): State
    requires p.stack != []
  {
    var n := |p.stack| - 1;
    p.(stack := p.stack[..n], nextReg := p.nextReg + (if p.stack[n].RegisterEntry? then 1 else 0))
  }

  // A declared local, a temporary that has been handed out or a constant.
  predicate Operand(r: int, locals: nat, minReg: int)
  { 0 <= r < locals || minReg <= r <= MAX_REGISTER || r > MAX_REGISTER }

  predicate OperandsIn(i: Instr, locals: nat, minReg: int)
  {
    match i
    case Move(ra, rb) => Operand(ra, locals, minReg) && Operand(rb, locals, minReg)
    case Bin(_, ra, rb, rc) => Operand(ra, locals, minReg) && Operand(rb, locals, minReg) && Operand(rc, locals, minReg)
    case Un(_, ra, rb) => Operand(ra, locals, minReg) && Operand(rb, locals, minReg)
    case Step(_, ra, rb) => Operand(ra, locals, minReg) && Operand(rb, locals, minReg)
    case Jump(op, rn, _) => op.JMP? || Operand(rn, locals, minReg)
    case End => true
  }

  ghost predicate InstrIn(b: seq<Instr>, k: int, locals: nat, minReg: int)
    requires 0 <= k < |b|
  { OperandsIn(b[k], locals, minReg) }

  ghost predicate CodeIn(b: seq<Instr>, locals: nat, minReg: int)
  { forall k {:trigger InstrIn(b, k, locals, minReg)} :: 0 <= k < |b| ==> InstrIn(b, k, locals, minReg) }

  ghost predicate EntryIn(s: seq<Entry>, k: int, locals: nat, minReg: int)
    requires 0 <= k < |s|
  {
    match s[k]
    case LocalEntry(r) => 0 <= r < locals
    case ConstantEntry(r) => r > MAX_REGISTER
    case RegisterEntry(r) => minReg <= r <= MAX_REGISTER
  }

  ghost predicate StackIn(s: seq<Entry>, locals: nat, minReg: int)
  { forall k {:trigger EntryIn(s, k, locals, minReg)} :: 0 <= k < |s| ==> EntryIn(s, k, locals, minReg) }

  // Nothing but declared locals, temporaries handed out and constants is in use.
  ghost predicate Tidy(p: State)
  {
    && p.locals <= MAX_REGISTER && StackIn(p.stack, p.locals, p.minReg)
    && CodeIn(p.code, p.locals, p.minReg) && CodeIn(p.deferredCode, p.locals, p.minReg)
  }

  // Temporaries are handed out from 255 down, one for each register entry on the parse stack.
  ghost predicate Balanced(p: State)
  { p.nextReg == 255 - Registers(p.stack) && p.minReg <= 256 && p.minReg <= p.nextReg + 1 && Tidy(p) }

  lemma CodeInMore(b: seq<Instr>, locals: nat, minReg: int, minReg': int)
    requires CodeIn(b, locals, minReg) && minReg' <= minReg
    ensures CodeIn(b, locals, minReg')
  {
    forall k | 0 <= k < |b| ensures InstrIn(b, k, locals, minReg') { assert InstrIn(b, k, locals, minReg); }
  }

  lemma CodeInConcat(b: seq<Instr>, c: seq<Instr>, locals: nat, minReg: int)
    requires CodeIn(b, locals, minReg) && CodeIn(c, locals, minReg)
    ensures CodeIn(b + c, locals, minReg)
  {
    forall k | 0 <= k < |b + c| ensures InstrIn(b + c, k, locals, minReg) {
      if k < |b| { assert InstrIn(b, k, locals, minReg); } else { assert InstrIn(c, k - |b|, locals, minReg); }
    }
  }

  lemma CodeInOne(i: Instr, locals: nat, minReg: int)
    requires OperandsIn(i, locals, minReg)
    ensures CodeIn([i], locals, minReg)
  {
    forall k | 0 <= k < 1 ensures InstrIn([i], k, locals, minReg) {}
  }

  lemma CodeInPart(b: seq<Instr>, c: seq<Instr>, from: int, locals: nat, minReg: int)
    requires CodeIn(b, locals, minReg) && 0 <= from && from + |c| <= |b| && b[from..from + |c|] == c
    ensures CodeIn(c, locals, minReg)
  {
    forall k | 0 <= k < |c| ensures InstrIn(c, k, locals, minReg) {
      assert InstrIn(b, from + k, locals, minReg) && b[from..from + |c|][k] == b[from + k];
    }
  }

  lemma StackInMore(s: seq<Entry>, locals: nat, minReg: int, minReg': int)
    requires StackIn(s, locals, minReg) && minReg' <= minReg
    ensures StackIn(s, locals, minReg')
  {
    forall k | 0 <= k < |s| ensures EntryIn(s, k, locals, minReg') { assert EntryIn(s, k, locals, minReg); }
  }

  lemma StackInPush(s: seq<Entry>, e: Entry, locals: nat, minReg: int)
    requires StackIn(s, locals, minReg) && EntryIn([e], 0, locals, minReg)
    ensures StackIn(s + [e], locals, minReg)
  {
    forall k | 0 <= k < |s| + 1 ensures EntryIn(s + [e], k, locals, minReg) {
      if k < |s| { assert EntryIn(s, k, locals, minReg); }
    }
  }

  lemma StackInPrefix(s: seq<Entry>, n: nat, locals: nat, minReg: int)
    requires StackIn(s, locals, minReg) && n <= |s|
    ensures StackIn(s[..n], locals, minReg)
  {
    forall k | 0 <= k < n ensures EntryIn(s[..n], k, locals, minReg) { assert EntryIn(s, k, locals, minReg); }
  }

  // One more instruction in the same buffer.
  lemma TidyAppend(p: State, i: Instr)
    requires Tidy(p) && OperandsIn(i, p.locals, p.minReg)
    ensures Tidy(WithBuf(p, Buf(p) + [i]))
  {
    CodeInOne(i, p.locals, p.minReg);
    CodeInConcat(Buf(p), [i], p.locals, p.minReg);
  }

  lemma TidyMore(p: State, minReg': int)
    requires Tidy(p) && minReg' <= p.minReg
    ensures Tidy(p.(minReg := minReg'))
  {
    CodeInMore(p.code, p.locals, p.minReg, minReg');
    CodeInMore(p.deferredCode, p.locals, p.minReg, minReg');
    StackInMore(p.stack, p.locals, p.minReg, minReg');
  }

  lemma TidyTop(p: State, k: nat)
    requires Tidy(p) && k < |p.stack|
    ensures Operand(p.stack[k].reg, p.locals, p.minReg)
      && (!p.stack[k].ConstantEntry? ==> p.stack[k].reg <= MAX_REGISTER)
  {
    assert EntryIn(p.stack, k, p.locals, p.minReg);
  }

  function Uses(e: Expr): nat
  {
    match e
    case Local(i) => i + 1
    case Const(_) => 0
    case Unary(_, e) => Uses(e)
    case Binary(_, l, r) => if Uses(l) > Uses(r) then Uses(l) else Uses(r)
    case Paren(e) => Uses(e)
  }

  // p1 has more code in the same buffer, and nothing else of the code has changed.
  ghost predicate Grown(p0: State, p1: State)
  {
    && Buf(p0) <= Buf(p1) && p1.deferred == p0.deferred && p1.blocks == p0.blocks
    && (if p0.deferred then p1.code == p0.code else p1.deferredCode == p0.deferredCode)
    && p0.constants <= p1.constants && p1.minReg <= p0.minReg && p1.nerrors == p0.nerrors && p1.locals == p0.locals
  }

  function NewCode(p0: State, p1: State): seq<Instr>
    requires |Buf(p0)| <= |Buf(p1)|
  { Buf(p1)[|Buf(p0)|..] }

  ghost predicate Computes(seg: seq<Instr>, r: int, e: Expr, locals: nat, consts: seq<int>, a: Arith, n: int,
      regs: seq<int>)
    requires |regs| == REGS && locals <= REGS
  {
    var regs' := Straight(seg, consts, a, regs);
    && Get(consts, regs', r) == Value(e, a, regs[..locals])
    && forall i :: 0 <= i < REGS && (i < locals || i > n) ==> regs'[i] == regs[i]
  }

  // With enough room between the locals and the temporaries, seg leaves the value of e in r.
  ghost predicate SegComputesAll(seg: seq<Instr>, r: int, e: Expr, n: int, minReg: int, constants: seq<int>,
      locals: nat, consts: seq<int>, a: Arith)
  {
    Uses(e) <= locals < minReg <= REGS && constants <= consts ==>
      forall regs: seq<int> {:trigger Computes(seg, r, e, locals, consts, a, n, regs)} ::
        |regs| == REGS ==> Computes(seg, r, e, locals, consts, a, n, regs)
  }

  ghost predicate CodeComputes(p0: State, p1: State, e: Expr, locals: nat, consts: seq<int>, a: Arith)
    requires |Buf(p0)| <= |Buf(p1)| && |p1.stack| > 0
  {
    SegComputesAll(NewCode(p0, p1), p1.stack[|p1.stack| - 1].reg, e, p0.nextReg, p1.minReg, p1.constants, locals,
      consts, a)
  }

  // What a piece of source needs: the temporaries in use at a time, those that stay in use, and new constants.
  datatype Need = Need(depth: nat, left: nat, consts: nat)

  const NOTHING := Need(0, 0, 0)

  function Then(m: Need, n: Need): Need
  {
    Need(if m.depth < m.left + n.depth then m.left + n.depth else m.depth, m.left + n.left, m.consts + n.consts)
  }

  // All temporaries of n are given back, and some others take their place.
  function Freed(n: Need, left: nat): Need
  { Need(if n.depth < left then left else n.depth, left, n.consts) }

  function ExprNeed(e: Expr): Need
  {
    match e
    case Local(_) => NOTHING
    case Const(_) => Need(0, 0, 1)
    case Unary(_, x) => Freed(ExprNeed(x), 1)
    case Binary(_, l, r) => Freed(Then(ExprNeed(l), ExprNeed(r)), 1)
    case Paren(x) => ExprNeed(x)
  }

  // No more than n is needed from p0 to p1.
  ghost predicate Room(p0: State, p1: State, n: Need)
  {
    && (p1.minReg >= p0.minReg || p1.minReg > p0.nextReg - n.depth)
    && p1.nextReg >= p0.nextReg - n.left && |p1.constants| <= |p0.constants| + n.consts
  }

  lemma RoomWith(p0: State, p1: State, b: seq<Instr>, n: Need)
    requires Room(p0, p1, n)
    ensures Room(p0, WithBuf(p1, b), n)
  {}

  lemma ThenTwice(a: Need, b: Need, c: Need)
    ensures Then(Then(a, b), c) == Then(a, Then(b, c))
  {}

  // With the same parse stack nothing stays in use.
  lemma RoomFreed(p0: State, q: State, p1: State, n: Need)
    requires Room(p0, q, n) && p1.minReg == q.minReg && p1.constants == q.constants
    requires Balanced(p0) && Balanced(p1) && p1.stack == p0.stack
    ensures Room(p0, p1, Freed(n, 0))
  {}

  lemma RoomNothing(p0: State, p1: State, q: State, n: Need)
    requires Room(p0, p1, n) && q.minReg == p1.minReg && q.nextReg == p1.nextReg && q.constants == p1.constants
    ensures Room(p0, q, Then(n, NOTHING))
  {}

  lemma RoomThen(p0: State, p1: State, p2: State, m: Need, n: Need)
    requires Room(p0, p1, m) && Room(p1, p2, n)
    ensures Room(p0, p2, Then(m, n))
  {}

  ghost predicate ExprShape(p0: State, p1: State, e: Expr)
  {
    && Room(p0, p1, ExprNeed(e))
    && Grown(p0, p1) && Balanced(p0) && Balanced(p1) && NoJumps(NewCode(p0, p1))
    && |p1.stack| == |p0.stack| + 1 && p1.stack[..|p0.stack|] == p0.stack
    && (match p1.stack[|p0.stack|]
        case LocalEntry(r) => r >= 0 && Bare(e) == Local(r) && p1 == p0.(stack := p1.stack)
        case ConstantEntry(r) => Constant(e) && r > MAX_REGISTER
        case RegisterEntry(r) => !Constant(e) && !Bare(e).Local? && r == p0.nextReg && p1.minReg <= r)
  }

  // The code for e has been generated, and its operand is on the parse stack.
  ghost predicate ExprDone(p0: State, p1: State, e: Expr)
  {
    && ExprShape(p0, p1, e)
    && forall locals: nat, consts, a {:trigger CodeComputes(p0, p1, e, locals, consts, a)} ::
       CodeComputes(p0, p1, e, locals, consts, a)
  }

  lemma RegistersPush(s: seq<Entry>, e: Entry)
    ensures Registers(s + [e]) == Registers(s) + (if e.RegisterEntry? then 1 else 0)
  {
    assert (s + [e])[..|s|] == s;
  }

  lemma UnaryComputes(s: seq<Instr>, r: int, op: UnOp, e: Expr, locals: nat, consts: seq<int>, a: Arith, n: int,
      regs: seq<int>)
    requires |regs| == REGS && locals <= n <= 255
    requires Computes(s, r, e, locals, consts, a, n, regs)
    ensures Computes(s + [Un(op, n, r)], n, Unary(op, e), locals, consts, a, n, regs)
  {
    StraightAppend(s, [Un(op, n, r)], consts, a, regs);
  }

  lemma UnarySeg(s: seq<Instr>, r: int, op: UnOp, e: Expr, n: int, minReg: int, constants: seq<int>, locals: nat,
      consts: seq<int>, a: Arith)
    requires SegComputesAll(s, r, e, n, minReg, constants, locals, consts, a) && n <= 255 && minReg <= REGS
    ensures SegComputesAll(s + [Un(op, n, r)], n, Unary(op, e), n,
      if n < minReg then n else minReg, constants, locals, consts, a)
  {
    var x := Unary(op, e);
    if Uses(e) <= locals < minReg <= REGS && locals < n && constants <= consts {
      forall regs: seq<int> | |regs| == REGS ensures Computes(s + [Un(op, n, r)], n, x, locals, consts, a, n, regs) {
        assert Computes(s, r, e, locals, consts, a, n, regs);
        UnaryComputes(s, r, op, e, locals, consts, a, n, regs);
      }
    }
  }

  lemma BinaryComputes(s1: seq<Instr>, r1: int, s2: seq<Instr>, r2: int, op: BinOp, l: Expr, r: Expr,
      locals: nat, consts: seq<int>, a: Arith, n: int, n1: int, regs: seq<int>)
    requires |regs| == REGS && locals <= n <= 255 && n1 <= n
    requires Computes(s1, r1, l, locals, consts, a, n, regs)
    requires Computes(s2, r2, r, locals, consts, a, n1, Straight(s1, consts, a, regs))
    requires 0 <= r1 < locals || r1 > MAX_REGISTER || n1 < r1 <= 255
    ensures Computes(s1 + s2 + [Bin(op, n, r1, r2)], n, Binary(op, l, r), locals, consts, a, n, regs)
  {
    var regs1 := Straight(s1, consts, a, regs);
    assert regs1[..locals] == regs[..locals];
    StraightAppend(s1, s2, consts, a, regs);
    StraightAppend(s1 + s2, [Bin(op, n, r1, r2)], consts, a, regs);
  }

  lemma {:induction false} BareUses(e: Expr)
    ensures Uses(Bare(e)) == Uses(e)
  {
    if e.Paren? { BareUses(e.inner); }
  }

  lemma BinarySeg(s1: seq<Instr>, r1: int, s2: seq<Instr>, r2: int, op: BinOp, l: Expr, r: Expr, n: int, n1: int,
      minReg1: int, minReg2: int, constants1: seq<int>, constants2: seq<int>, locals: nat, consts: seq<int>, a: Arith)
    requires SegComputesAll(s1, r1, l, n, minReg1, constants1, locals, consts, a)
    requires SegComputesAll(s2, r2, r, n1, minReg2, constants2, locals, consts, a)
    requires minReg2 <= minReg1 <= REGS && constants1 <= constants2 && n1 <= n <= 255
    requires r1 > MAX_REGISTER || n1 < r1 <= 255 || (Bare(l).Local? && r1 == Bare(l).index)
    ensures SegComputesAll(s1 + s2 + [Bin(op, n, r1, r2)], n, Binary(op, l, r), n,
      if n < minReg2 then n else minReg2, constants2, locals, consts, a)
  {
    var x := Binary(op, l, r);
    assert constants2 <= consts ==> constants1 <= consts;
    if Uses(x) <= locals < minReg2 <= REGS && locals < n && constants2 <= consts {
      assert Uses(l) <= locals && Uses(r) <= locals;
      BareUses(l);
      assert Bare(l).Local? ==> 0 <= Bare(l).index < locals;
      hide Uses, Value, Straight;
      forall regs: seq<int> | |regs| == REGS
        ensures Computes(s1 + s2 + [Bin(op, n, r1, r2)], n, x, locals, consts, a, n, regs)
      {
        assert Computes(s1, r1, l, locals, consts, a, n, regs);
        assert Computes(s2, r2, r, locals, consts, a, n1, Straight(s1, consts, a, regs));
        BinaryComputes(s1, r1, s2, r2, op, l, r, locals, consts, a, n, n1, regs);
      }
    }
  }

  // p2 after op has taken its operands off the parse stack and left its result there.
  function Applied(p0: State, p2: State, i: Instr): State
  {
    var d := p0.nextReg;
    WithBuf(p2, Buf(p2) + [i]).(stack := p0.stack + [RegisterEntry(d)], nextReg := d - 1,
      minReg := if d < p2.minReg then d else p2.minReg)
  }

  lemma AppliedTidy(p0: State, p2: State, i: Instr)
    requires Tidy(p0) && Tidy(p2) && p0.locals == p2.locals && p2.minReg <= p0.minReg && p0.nextReg <= MAX_REGISTER
    requires OperandsIn(i, p2.locals, if p0.nextReg < p2.minReg then p0.nextReg else p2.minReg)
    ensures Tidy(Applied(p0, p2, i))
  {
    var d := p0.nextReg;
    var r := if d < p2.minReg then d else p2.minReg;
    TidyMore(p2, r);
    TidyAppend(p2.(minReg := r), i);
    StackInMore(p0.stack, p0.locals, p0.minReg, r);
    StackInPush(p0.stack, RegisterEntry(d), p0.locals, r);
  }

  lemma AppliedRoom(p0: State, p2: State, i: Instr, e: Expr)
    requires (e.Unary? || e.Binary?) && |p2.constants| <= |p0.constants| + ExprNeed(e).consts
    requires p2.minReg >= p0.minReg || p2.minReg > p0.nextReg - ExprNeed(e).depth
    ensures Room(p0, Applied(p0, p2, i), ExprNeed(e))
  {
    assert ExprNeed(e).left == 1 <= ExprNeed(e).depth;
  }

  lemma AppliedShape(p0: State, p2: State, i: Instr, e: Expr)
    requires Grown(p0, p2) && Balanced(p0) && Tidy(p2) && p2.minReg <= 256 && NoJumps(NewCode(p0, p2)) && !i.Jump?
      && !i.End?
    requires OperandsIn(i, p2.locals, if p0.nextReg < p2.minReg then p0.nextReg else p2.minReg)
    requires (e.Unary? || e.Binary?) && |p2.constants| <= |p0.constants| + ExprNeed(e).consts
    requires p2.minReg >= p0.minReg || p2.minReg > p0.nextReg - ExprNeed(e).depth
    ensures ExprShape(p0, Applied(p0, p2, i), e)
    ensures |Buf(p0)| <= |Buf(p2)| <= |Buf(Applied(p0, p2, i))|
    ensures NewCode(p0, Applied(p0, p2, i)) == NewCode(p0, p2) + [i]
  {
    hide Tidy, Registers, ExprNeed, Room;
    AppliedRoom(p0, p2, i, e);
    RegistersPush(p0.stack, RegisterEntry(p0.nextReg));
    AppliedTidy(p0, p2, i);
    var p := Applied(p0, p2, i);
    assert Buf(p) == Buf(p2) + [i] && p.stack == p0.stack + [RegisterEntry(p0.nextReg)] && Balanced(p);
    assert NewCode(p0, p) == NewCode(p0, p2) + [i];
  }

  lemma GrownTwice(p0: State, p1: State, p2: State)
    requires Grown(p0, p1) && Grown(p1, p2)
    ensures Grown(p0, p2) && NewCode(p0, p2) == NewCode(p0, p1) + NewCode(p1, p2)
  {
  }

  lemma ShapeParts(p0: State, p1: State, e: Expr)
    requires ExprShape(p0, p1, e)
    ensures Grown(p0, p1) && Balanced(p0) && Balanced(p1) && NoJumps(NewCode(p0, p1)) && Room(p0, p1, ExprNeed(e))
    ensures |p1.stack| == |p0.stack| + 1 && Operand(p1.stack[|p0.stack|].reg, p1.locals, p1.minReg)
  {
    TidyTop(p1, |p0.stack|);
  }

  lemma BinaryParts(p0: State, p1: State, p2: State, op: BinOp, l: Expr, r: Expr)
    requires ExprShape(p0, p1, l) && ExprShape(p1, p2, r)
    ensures |p1.stack| == |p0.stack| + 1 && |p2.stack| == |p1.stack| + 1
    ensures Grown(p0, p2) && Balanced(p0) && Tidy(p2) && p2.minReg <= 256 && NoJumps(NewCode(p0, p2))
      && NewCode(p0, p2) == NewCode(p0, p1) + NewCode(p1, p2) && |Buf(p0)| <= |Buf(p1)| <= |Buf(p2)|
    ensures var i := Bin(op, p0.nextReg, p1.stack[|p0.stack|].reg, p2.stack[|p1.stack|].reg);
      OperandsIn(i, p2.locals, if p0.nextReg < p2.minReg then p0.nextReg else p2.minReg)
    ensures Room(p0, p2, Then(ExprNeed(l), ExprNeed(r)))
  {
    hide ExprShape, StackIn, CodeIn, Registers, Room, ExprNeed, Then;
    ShapeParts(p0, p1, l);
    ShapeParts(p1, p2, r);
    GrownTwice(p0, p1, p2);
    RoomThen(p0, p1, p2, ExprNeed(l), ExprNeed(r));
  }

  lemma BinaryShape(p0: State, p1: State, p2: State, op: BinOp, l: Expr, r: Expr)
    requires ExprShape(p0, p1, l) && ExprShape(p1, p2, r)
    ensures |p1.stack| == |p0.stack| + 1 && |p2.stack| == |p1.stack| + 1
    ensures var i := Bin(op, p0.nextReg, p1.stack[|p0.stack|].reg, p2.stack[|p1.stack|].reg);
      && ExprShape(p0, Applied(p0, p2, i), Binary(op, l, r))
      && |Buf(p0)| <= |Buf(p1)| <= |Buf(p2)| <= |Buf(Applied(p0, p2, i))|
      && NewCode(p0, Applied(p0, p2, i)) == NewCode(p0, p1) + NewCode(p1, p2) + [i]
  {
    hide ExprShape, Balanced, Tidy, Grown, NoJumps, OperandsIn, Then, Buf, Applied, NewCode;
    BinaryParts(p0, p1, p2, op, l, r);
    AppliedShape(p0, p2, Bin(op, p0.nextReg, p1.stack[|p0.stack|].reg, p2.stack[|p1.stack|].reg), Binary(op, l, r));
  }

  lemma BinaryDone(p0: State, p1: State, p2: State, op: BinOp, l: Expr, r: Expr)
    requires ExprDone(p0, p1, l) && ExprDone(p1, p2, r)
    ensures ExprDone(p0, Applied(p0, p2, Bin(op, p0.nextReg, p1.stack[|p0.stack|].reg, p2.stack[|p1.stack|].reg)),
      Binary(op, l, r))
  {
    var r1, r2, d := p1.stack[|p0.stack|].reg, p2.stack[|p1.stack|].reg, p0.nextReg;
    var p3, e := Applied(p0, p2, Bin(op, d, r1, r2)), Binary(op, l, r);
    BinaryShape(p0, p1, p2, op, l, r);
    OperandAbove(p0, p1, l);
    hide Room, Tidy, Registers, SegComputesAll;
    forall locals: nat, consts, a ensures CodeComputes(p0, p3, e, locals, consts, a) {
      assert CodeComputes(p0, p1, l, locals, consts, a) && CodeComputes(p1, p2, r, locals, consts, a);
      BinarySeg(NewCode(p0, p1), r1, NewCode(p1, p2), r2, op, l, r, d, p1.nextReg, p1.minReg, p2.minReg, p1.constants,
        p2.constants, locals, consts, a);
    }
  }

  // Parentheses need no code.
  lemma ParenDone(p0: State, p1: State, e: Expr)
    requires ExprDone(p0, p1, e)
    ensures ExprDone(p0, p1, Paren(e))
  {
    hide Balanced, NoJumps, Straight, Computes;
    forall locals: nat, consts, a ensures CodeComputes(p0, p1, Paren(e), locals, consts, a) {
      assert CodeComputes(p0, p1, e, locals, consts, a);
      ParenSeg(NewCode(p0, p1), p1.stack[|p1.stack| - 1].reg, e, p0.nextReg, p1.minReg, p1.constants, locals, consts,
        a);
    }
  }

  lemma ParenSeg(s: seq<Instr>, r: int, e: Expr, n: int, minReg: int, constants: seq<int>, locals: nat,
      consts: seq<int>, a: Arith)
    requires SegComputesAll(s, r, e, n, minReg, constants, locals, consts, a)
    ensures SegComputesAll(s, r, Paren(e), n, minReg, constants, locals, consts, a)
  {
    if Uses(e) <= locals < minReg <= REGS && constants <= consts {
      forall regs: seq<int> | |regs| == REGS ensures Computes(s, r, Paren(e), locals, consts, a, n, regs) {
        assert Computes(s, r, e, locals, consts, a, n, regs);
      }
    }
  }

  // The code for a right operand does not reach the left one.
  lemma OperandAbove(p0: State, p1: State, e: Expr)
    requires ExprShape(p0, p1, e)
    ensures var r := p1.stack[|p0.stack|].reg;
      && p1.nextReg <= p0.nextReg <= 255
      && (r > MAX_REGISTER || p1.nextReg < r <= 255 || (Bare(e).Local? && r == Bare(e).index))
  {
    assert p1.stack == p0.stack + [p1.stack[|p0.stack|]];
    RegistersPush(p0.stack, p1.stack[|p0.stack|]);
  }

  lemma UnaryDone(p0: State, p1: State, op: UnOp, e: Expr)
    requires ExprDone(p0, p1, e)
    ensures ExprDone(p0, Applied(p0, p1, Un(op, p0.nextReg, p1.stack[|p0.stack|].reg)), Unary(op, e))
  {
    var r, d := p1.stack[|p0.stack|].reg, p0.nextReg;
    var i := Un(op, d, r);
    var p2, x := Applied(p0, p1, i), Unary(op, e);
    TidyTop(p1, |p0.stack|);
    AppliedShape(p0, p1, i, x);
    forall locals: nat, consts, a ensures CodeComputes(p0, p2, x, locals, consts, a) {
      assert CodeComputes(p0, p1, e, locals, consts, a);
      UnarySeg(NewCode(p0, p1), r, op, e, d, p1.minReg, p1.constants, locals, consts, a);
    }
  }

  // An operand that needs no code.
  lemma OperandDone(p0: State, p1: State, e: Expr)
    requires Balanced(p0) && (e.Local? || e.Const?) && Uses(e) <= p0.locals
    requires p0.constants <= p1.constants && |p1.constants| <= |p0.constants| + 1
    requires p1 == p0.(constants := p1.constants, stack := p1.stack)
    requires if e.Local? then p1 == p0.(stack := p0.stack + [LocalEntry(e.index)])
      else exists k: nat ::
        k < |p1.constants| && p1.constants[k] == e.value && p1.stack == p0.stack + [ConstantEntry(k + MAX_REGISTER + 1)]
    ensures ExprDone(p0, p1, e)
  {
    RegistersPush(p0.stack, p1.stack[|p0.stack|]);
    StackInPush(p0.stack, p1.stack[|p0.stack|], p0.locals, p0.minReg);
    var r := p1.stack[|p1.stack| - 1].reg;
    forall locals: nat, consts, a ensures CodeComputes(p0, p1, e, locals, consts, a) {
      if Uses(e) <= locals < p1.minReg <= REGS && p1.constants <= consts {
        forall regs: seq<int> | |regs| == REGS ensures Computes([], r, e, locals, consts, a, p0.nextReg, regs) {
          if e.Const? { assert p1.constants[r - MAX_REGISTER - 1] == consts[r - MAX_REGISTER - 1]; }
        }
        assert NewCode(p0, p1) == [];
      }
    }
  }

  function SimpleUses(s: Simple): nat
  {
    match s
    case Eval(e) => Uses(e)
    case Assign(x, e) => if x + 1 > Uses(e) then x + 1 else Uses(e)
    case Update(x, _, e) => if x + 1 > Uses(e) then x + 1 else Uses(e)
    case Step(_, x) => x + 1
  }

  function SimpleNeed(s: Simple): Need
  {
    match s
    case Eval(e) => ExprNeed(e)
    case Assign(_, e) => Freed(ExprNeed(e), 0)
    case Update(x, op, e) => Freed(ExprNeed(Binary(op, Local(x), e)), 0)
    case Step(_, _) => Need(1, 1, 0)
  }

  ghost predicate CodePerforms(p0: State, p1: State, s: Simple, locals: nat, consts: seq<int>, a: Arith)
    requires |Buf(p0)| <= |Buf(p1)|
  {
    SimpleUses(s) <= locals < p1.minReg <= REGS && p1.constants <= consts ==>
      SimpleOk(NewCode(p0, p1), s, locals, consts, a)
  }

  // The code for s has been generated, and its result is on the parse stack.
  ghost predicate SimpleDone(p0: State, p1: State, s: Simple)
  {
    && Room(p0, p1, SimpleNeed(s))
    && Grown(p0, p1) && Balanced(p0) && Balanced(p1) && NoJumps(NewCode(p0, p1))
    && |p1.stack| == |p0.stack| + 1 && p1.stack[..|p0.stack|] == p0.stack
    && forall locals: nat, consts, a {:trigger CodePerforms(p0, p1, s, locals, consts, a)} ::
       CodePerforms(p0, p1, s, locals, consts, a)
  }

  lemma EvalDone(p0: State, p1: State, e: Expr)
    requires ExprDone(p0, p1, e)
    ensures SimpleDone(p0, p1, Eval(e))
  {
    var s, r := NewCode(p0, p1), p1.stack[|p1.stack| - 1].reg;
    forall locals: nat, consts, a ensures CodePerforms(p0, p1, Eval(e), locals, consts, a) {
      if Uses(e) <= locals < p1.minReg <= REGS && p1.constants <= consts {
        assert CodeComputes(p0, p1, e, locals, consts, a);
        forall regs: seq<int> | |regs| == REGS ensures Performs(s, Eval(e), locals, consts, a, regs) {
          assert Computes(s, r, e, locals, consts, a, p0.nextReg, regs);
        }
      }
    }
  }

  lemma MoveComputes(s: seq<Instr>, r: int, x: nat, e: Expr, locals: nat, consts: seq<int>, a: Arith, n: int,
      regs: seq<int>)
    requires |regs| == REGS && x < locals <= REGS
    requires Computes(s, r, e, locals, consts, a, n, regs)
    ensures Performs(s + [Move(x, r)], Assign(x, e), locals, consts, a, regs)
  {
    StraightAppend(s, [Move(x, r)], consts, a, regs);
  }

  lemma MoveSeg(s: seq<Instr>, r: int, x: nat, e: Expr, n: int, minReg: int, constants: seq<int>, locals: nat,
      consts: seq<int>, a: Arith)
    requires SegComputesAll(s, r, e, n, minReg, constants, locals, consts, a) && NoJumps(s)
    ensures SimpleUses(Assign(x, e)) <= locals < minReg <= REGS && constants <= consts ==>
      SimpleOk(s + [Move(x, r)], Assign(x, e), locals, consts, a)
  {
    if SimpleUses(Assign(x, e)) <= locals < minReg <= REGS && constants <= consts {
      forall regs: seq<int> | |regs| == REGS ensures Performs(s + [Move(x, r)], Assign(x, e), locals, consts, a, regs) {
        assert Computes(s, r, e, locals, consts, a, n, regs);
        MoveComputes(s, r, x, e, locals, consts, a, n, regs);
      }
    }
  }

  // p2 after e has been moved to the local x, which stays on the parse stack.
  function Moved(p1: State, p2: State, x: nat, r: int): State
  { WithBuf(p2, Buf(p2) + [Move(x, r)]).(stack := p1.stack, nextReg := p1.nextReg) }

  lemma MovedTidy(p0: State, p1: State, p2: State, x: nat, e: Expr)
    requires Balanced(p0) && p1 == p0.(stack := p0.stack + [LocalEntry(x)]) && ExprShape(p1, p2, e)
    ensures Tidy(Moved(p1, p2, x, p2.stack[|p1.stack|].reg))
  {
    TidyTop(p2, |p1.stack|);
    TidyTop(p1, |p0.stack|);
    assert p1.stack[|p0.stack|].reg == x;
    TidyAppend(p2, Move(x, p2.stack[|p1.stack|].reg));
    StackInMore(p1.stack, p1.locals, p1.minReg, p2.minReg);
  }

  lemma MovedShape(p0: State, p1: State, p2: State, x: nat, e: Expr)
    requires Balanced(p0) && p1 == p0.(stack := p0.stack + [LocalEntry(x)]) && ExprShape(p1, p2, e)
    ensures var r := p2.stack[|p1.stack|].reg;
      var p3 := Moved(p1, p2, x, r);
      && Grown(p0, p3) && Balanced(p3) && NewCode(p0, p3) == NewCode(p1, p2) + [Move(x, r)]
      && Room(p0, p3, SimpleNeed(Assign(x, e)))
  {
    RegistersPush(p0.stack, LocalEntry(x));
    MovedTidy(p0, p1, p2, x, e);
  }

  // x = e, for a local x that was on the parse stack before e was compiled.
  lemma MoveDone(p0: State, p1: State, p2: State, x: nat, e: Expr)
    requires Balanced(p0) && p1 == p0.(stack := p0.stack + [LocalEntry(x)]) && ExprDone(p1, p2, e)
    ensures SimpleDone(p0, Moved(p1, p2, x, p2.stack[|p1.stack|].reg), Assign(x, e))
  {
    var s, r := NewCode(p1, p2), p2.stack[|p2.stack| - 1].reg;
    var p3 := Moved(p1, p2, x, r);
    MovedShape(p0, p1, p2, x, e);
    assert NoJumps(s + [Move(x, r)]);
    hide SegComputesAll, SimpleOk, Room, Grown, Balanced, NoJumps;
    forall locals: nat, consts, a ensures CodePerforms(p0, p3, Assign(x, e), locals, consts, a) {
      assert CodeComputes(p1, p2, e, locals, consts, a);
      MoveSeg(s, r, x, e, p1.nextReg, p2.minReg, p2.constants, locals, consts, a);
    }
  }

  lemma UpdateDone(p0: State, p1: State, x: nat, op: BinOp, e: Expr)
    requires SimpleDone(p0, p1, Assign(x, Binary(op, Local(x), e)))
    ensures SimpleDone(p0, p1, Update(x, op, e))
  {
    var s := NewCode(p0, p1);
    forall locals: nat, consts, a ensures CodePerforms(p0, p1, Update(x, op, e), locals, consts, a) {
      if SimpleUses(Update(x, op, e)) <= locals < p1.minReg <= REGS && p1.constants <= consts {
        assert Uses(Local(x)) == x + 1;
        assert CodePerforms(p0, p1, Assign(x, Binary(op, Local(x), e)), locals, consts, a);
        forall regs: seq<int> | |regs| == REGS ensures Performs(s, Update(x, op, e), locals, consts, a, regs) {
          assert Performs(s, Assign(x, Binary(op, Local(x), e)), locals, consts, a, regs);
        }
      }
    }
  }

  lemma StepPerforms(op: StepOp, d: int, x: nat, locals: nat, consts: seq<int>, a: Arith, regs: seq<int>)
    requires |regs| == REGS && x < locals <= d <= 255
    ensures Performs([Instr.Step(op, d, x), Move(x, x)], Simple.Step(op, x), locals, consts, a, regs)
  {
    var i, m := Instr.Step(op, d, x), Move(x, x);
    assert [i, m][1..] == [m] && [m][1..] == [];
    var regs1 := Effect(i, consts, a, regs);
    assert regs1[..locals] == Set(regs[..locals], x, Stepped(a, op, regs[x]));
    assert Effect(m, consts, a, regs1) == regs1;
    assert Straight([i, m], consts, a, regs) == Straight([m], consts, a, regs1);
    assert Straight([m], consts, a, regs1) == Straight([], consts, a, regs1);
  }

  lemma StepTidy(p0: State, p1: State, x: nat, op: StepOp)
    requires Balanced(p0) && x < p0.locals
    requires var d := p0.nextReg;
      p1 == WithBuf(p0, Buf(p0) + [Instr.Step(op, d, x), Move(x, x)])
        .(stack := p0.stack + [RegisterEntry(d)], nextReg := d - 1, minReg := if d < p0.minReg then d else p0.minReg)
    ensures Tidy(p1)
  {
    var p := p0.(minReg := p1.minReg);
    TidyMore(p0, p1.minReg);
    TidyAppend(p, Instr.Step(op, p0.nextReg, x));
    TidyAppend(WithBuf(p, Buf(p) + [Instr.Step(op, p0.nextReg, x)]), Move(x, x));
    assert Buf(p) + [Instr.Step(op, p0.nextReg, x)] + [Move(x, x)] == Buf(p1);
    StackInPush(p0.stack, RegisterEntry(p0.nextReg), p0.locals, p1.minReg);
  }

  function Stepping(p0: State, x: nat, op: StepOp): State
  {
    var d := p0.nextReg;
    WithBuf(p0, Buf(p0) + [Instr.Step(op, d, x)])
      .(stack := p0.stack + [RegisterEntry(d), LocalEntry(x), LocalEntry(x)], nextReg := d - 1,
        minReg := if d < p0.minReg then d else p0.minReg)
  }

  // After the move of x to itself.
  lemma SteppedState(p0: State, x: nat, op: StepOp)
    ensures var p, d := Stepping(p0, x, op), p0.nextReg;
      && p.stack == p0.stack + [RegisterEntry(d), LocalEntry(x), LocalEntry(x)]
      && Popped(Popped(WithBuf(p, Buf(p) + [Move(x, x)]))) ==
         WithBuf(p0, Buf(p0) + [Instr.Step(op, d, x), Move(x, x)])
           .(stack := p0.stack + [RegisterEntry(d)], nextReg := d - 1, minReg := if d < p0.minReg then d else p0.minReg)
  {
    var d := p0.nextReg;
    var p := Stepping(p0, x, op);
    assert p.stack[..|p.stack| - 1] == p0.stack + [RegisterEntry(d), LocalEntry(x)];
    assert p.stack[..|p.stack| - 1][..|p.stack| - 2] == p0.stack + [RegisterEntry(d)];
    assert Buf(p) + [Move(x, x)] == Buf(p0) + [Instr.Step(op, d, x), Move(x, x)];
  }

  // ++x, --x, x++ or x--.
  lemma StepDone(p0: State, p1: State, x: nat, op: StepOp)
    requires Balanced(p0) && x < p0.locals
    requires var d := p0.nextReg;
      p1 == WithBuf(p0, Buf(p0) + [Instr.Step(op, d, x), Move(x, x)])
        .(stack := p0.stack + [RegisterEntry(d)], nextReg := d - 1, minReg := if d < p0.minReg then d else p0.minReg)
    ensures SimpleDone(p0, p1, Simple.Step(op, x))
  {
    RegistersPush(p0.stack, RegisterEntry(p0.nextReg));
    StepTidy(p0, p1, x, op);
    var d := p0.nextReg;
    var s := [Instr.Step(op, d, x), Move(x, x)];
    assert NewCode(p0, p1) == s;
    forall locals: nat, consts, a ensures CodePerforms(p0, p1, Simple.Step(op, x), locals, consts, a) {
      if x + 1 <= locals < p1.minReg <= REGS {
        forall regs: seq<int> | |regs| == REGS ensures Performs(s, Simple.Step(op, x), locals, consts, a, regs) {
          StepPerforms(op, d, x, locals, consts, a, regs);
        }
      }
    }
  }

  lemma OneOperand(p0: State, p1: State, e: Expr)
    requires ExprShape(p0, p1, e)
    ensures var x := p1.stack[|p0.stack|];
      p1.stack == p0.stack + [x] && p1.nextReg == p0.nextReg - (if x.RegisterEntry? then 1 else 0)
  {
    assert p1.stack == p0.stack + [p1.stack[|p0.stack|]];
    RegistersPush(p0.stack, p1.stack[|p0.stack|]);
  }

  lemma TwoOperands(p0: State, p1: State, p2: State, l: Expr, r: Expr)
    requires ExprDone(p0, p1, l) && ExprDone(p1, p2, r)
    ensures var x, y := p1.stack[|p0.stack|], p2.stack[|p1.stack|];
      && p2.stack == p0.stack + [x, y]
      && p2.nextReg + (if x.RegisterEntry? then 1 else 0) + (if y.RegisterEntry? then 1 else 0) == p0.nextReg
  {
    assert p1.stack == p0.stack + [p1.stack[|p0.stack|]] && p2.stack == p1.stack + [p2.stack[|p1.stack|]];
    RegistersPush(p0.stack, p1.stack[|p0.stack|]);
    RegistersPush(p1.stack, p2.stack[|p1.stack|]);
  }

  // A jump keeps eight bits of its operand when its target is filled in.
  function Aimed(i: Instr, offset: int): Instr
  { if i.Jump? then Jump(i.jop, i.rn % 256, offset) else i }

  ghost predicate SameChoice(op: JumpOp, r: int, s: int) {
    forall consts: seq<int>, regs: seq<int> {:trigger Get(consts, regs, r)} ::
      Taken(op, Get(consts, regs, r)) == Taken(op, Get(consts, regs, s))
  }

  // So a jump that is aimed still makes its choice if and only if it makes none or its operand is a register.
  lemma AimedExact(op: JumpOp, rn: int, offset: int)
    requires 0 <= rn < 512
    ensures SameChoice(op, Aimed(Jump(op, rn, offset), offset).rn, rn) <==> op.JMP? || rn <= MAX_REGISTER
  {
    if !op.JMP? && rn > MAX_REGISTER {
      var regs := seq(256, _ => 1);
      assert Get([], regs, rn) == 0 && Get([], regs, rn % 256) == 1;
    }
  }

  // b with the jumps at the listed addresses aimed at target.
  function Resolve(b: seq<Instr>, list: seq<int>, target: int): (r: seq<Instr>)
    ensures |r| == |b| && forall i :: 0 <= i < |b| ==> r[i] == if i in list then Aimed(b[i], target - i) else b[i]
  { seq(|b|, i requires 0 <= i < |b| => if i in list then Aimed(b[i], target - i) else b[i]) }

  // A jump out of a switch is noted down where it is in the deferred code, at place at, and moved with its statement.
  // It is aimed if and only if the code happened to be as long as the deferred code below its block. Otherwise it stays
  // as it was, whatever else is aimed in its stead.
  lemma JumpFromSwitch(p: State, at: nat, target: int)
    requires p.blocks != [] && p.blocks[|p.blocks| - 1] <= at < |p.deferredCode|
      && p.deferredCode[at] == Jump(JMP, 0, 0)
    requires target >= |p.code| + |p.deferredCode|
    ensures var d0 := p.blocks[|p.blocks| - 1];
      var code, i := p.code + p.deferredCode[d0..], |p.code| + at - d0;
      && i < |code| && code[i] == Jump(JMP, 0, 0)
      && (Resolve(code, [at], target)[i] == Jump(JMP, 0, target - i) <==> |p.code| == d0)
      && (Resolve(code, [at], target)[i] == Jump(JMP, 0, 0) <==> |p.code| != d0)
  {}

  // The machine does not get away from a jump that has not been aimed.
  lemma {:induction false} UnaimedHangs(p: Program, c: Config, n: nat)
    requires 0 <= c.pc < |p.code| && p.code[c.pc] == Jump(JMP, 0, 0)
    ensures Run(p, c, n) == c
    decreases n
  {
    if n > 0 { UnaimedHangs(p, c, n - 1); }
  }

  lemma ResolveMore(b: seq<Instr>, list: seq<int>, at: int, target: int)
    ensures Resolve(Resolve(b, list, target), [at], target) == Resolve(b, list + [at], target)
  {
    var x, y := Resolve(Resolve(b, list, target), [at], target), Resolve(b, list + [at], target);
    forall i | 0 <= i < |b| ensures x[i] == y[i] {
      if i in list { assert Aimed(Aimed(b[i], target - i), target - i) == Aimed(b[i], target - i); }
    }
  }

  // The 17-bit signed field of a jump.
  function Field17(n: int): int
  { (n + 0x10000) % 0x20000 - 0x10000 }

  // The code generator (Parser.cpp, Parser.h), as far as integer code needs it.

  class Parser {
    var code: seq<Instr>
    var deferredCode: seq<Instr>
    var deferredCodeBlocks: seq<nat>
    var deferred: bool
    var stack: seq<Entry>
    var nextReg: int
    var minReg: int
    var constants: seq<int>
    var nerrors: nat
    const locals: nat

    // Whether a switch may have two defaults, which is an error.
    ghost const lenient: bool

    function Now(): State
      reads this
    { State(code, deferredCode, deferredCodeBlocks, deferred, stack, nextReg, minReg, constants, nerrors, locals) }

    // Without two defaults there is no error unless the code is too long for its jumps.
    ghost predicate Explained()
      reads this`nerrors, this`code, this`deferredCode
    { nerrors > 0 ==> lenient || Total() > MAX_JUMP }

    // All instructions generated so far.
    function Total(): nat
      reads this`code, this`deferredCode
    { |code| + |deferredCode| }

    // For a function with the given number of parameters and variables.
    constructor (locals: nat, ghost lenient: bool)
      requires locals <= MAX_REGISTER
      ensures Explained() && this.lenient == lenient
      ensures Balanced(Now()) && Now() == State([], [], [], false, [], 255, 256, [0], 0, locals)
    {
      this.locals, this.lenient := locals, lenient;
      code, deferredCode, deferredCodeBlocks, deferred := [], [], [], false;
      stack, nextReg, minReg := [], 255, 256;
      constants := [0];
      nerrors := 0;
    }

    method AddCode(i: Instr)
      modifies this`code, this`deferredCode
      ensures Now() == WithBuf(old(Now()), Buf(old(Now())) + [i])
    {
      if deferred {
        deferredCode := deferredCode + [i];
      } else {
        code := code + [i];
      }
    }

    method Push(e: Entry)
      requires !e.RegisterEntry?
      modifies this`stack
      ensures stack == old(stack) + [e]
    {
      stack := stack + [e];
    }

    method PushRegister() returns (reg: int)
      modifies this`stack, this`nextReg, this`minReg
      ensures reg == old(nextReg) && nextReg == reg - 1 && stack == old(stack) + [RegisterEntry(reg)]
      ensures minReg == if reg < old(minReg) then reg else old(minReg)
    {
      reg := nextReg;
      nextReg := nextReg - 1;
      if reg < minReg { minReg := reg; }
      stack := stack + [RegisterEntry(reg)];
    }

    method Pop()
      modifies this`stack, this`nextReg
      ensures Now() == if old(stack) == [] then old(Now()) else Popped(old(Now()))
    {
      if stack == [] { return; }
      if stack[|stack| - 1].RegisterEntry? { nextReg := nextReg + 1; }
      stack := stack[..|stack| - 1];
    }

    method Swap()
      requires |stack| >= 2
      modifies this`stack
      ensures var n := |old(stack)|; stack == old(stack)[..n - 2] + [old(stack)[n - 1], old(stack)[n - 2]]
    {
      var n := |stack|;
      stack := stack[..n - 2] + [stack[n - 1], stack[n - 2]];
    }

    // The operand of the entry on top, which needs no code for a local, a constant or a temporary.
    method Bake() returns (reg: int)
      requires |stack| > 0
      ensures reg == stack[|stack| - 1].reg
    {
      reg := stack[|stack| - 1].reg;
    }

    method AddConstant(v: int) returns (id: nat)
      modifies this`constants
      ensures old(constants) <= constants && id < |constants| && constants[id] == v
      ensures |constants| <= |old(constants)| + 1 && (v in old(constants) ==> constants == old(constants))
    {
      id := 0;
      while id < |constants|
        invariant id <= |constants| && v !in constants[..id]
      {
        if constants[id] == v { return; }
        id := id + 1;
      }
      constants := constants + [v];
    }

    method PushK(v: int)
      requires nerrors == 0 ==> Balanced(Now())
      modifies this`constants, this`stack
      ensures nerrors == 0 ==> ExprDone(old(Now()), Now(), Const(v))
    {
      if nerrors > 0 { return; }
      var id := AddConstant(v);
      Push(ConstantEntry(id + MAX_REGISTER + 1));
      OperandDone(old(Now()), Now(), Const(v));
    }

    method EmitId(index: nat)
      requires index < locals
      requires nerrors == 0 ==> Balanced(Now())
      modifies this`stack
      ensures nerrors == 0 ==>
        ExprDone(old(Now()), Now(), Local(index)) && Now() == old(Now()).(stack := old(stack) + [LocalEntry(index)])
    {
      if nerrors > 0 { return; }
      Push(LocalEntry(index));
      OperandDone(old(Now()), Now(), Local(index));
    }

    // The instruction of a unary operator, which takes the operand x off the parse stack.
    method EmitUnary(op: UnOp, ghost p0: State, ghost x: Entry)
      requires stack == p0.stack + [x] && nextReg == p0.nextReg - (if x.RegisterEntry? then 1 else 0)
      modifies this
      ensures deferred == old(deferred)
      ensures Now() == Applied(p0, old(Now()), Un(op, p0.nextReg, x.reg))
    {
      var srcReg := Bake();
      Pop();
      assert stack == p0.stack;
      var dst := PushRegister();
      AddCode(Un(op, dst, srcReg));
    }

    method EmitUnOp(op: UnOp, ghost p0: State, ghost e: Expr)
      requires nerrors == 0 ==> ExprDone(p0, Now(), e)
      modifies this
      ensures Total() <= old(Total()) + 1
      ensures old(Explained()) ==> Explained()
      ensures deferred == old(deferred)
      ensures nerrors == old(nerrors) && (nerrors == 0 ==> ExprDone(p0, Now(), Unary(op, e)))
    {
      if nerrors > 0 { return; }
      ghost var p1 := Now();
      OneOperand(p0, p1, e);
      UnaryDone(p0, p1, op, e);
      EmitUnary(op, p0, p1.stack[|p0.stack|]);
    }

    // The two operands on top are popped, the right one having been swapped below the left one.
    method PopOperands(ghost base: seq<Entry>, ghost left: Entry, ghost right: Entry)
        returns (leftReg: int, rightReg: int)
      requires stack == base + [left, right]
      modifies this`stack, this`nextReg
      ensures stack == base && leftReg == left.reg && rightReg == right.reg
      ensures nextReg == old(nextReg) + (if left.RegisterEntry? then 1 else 0) + (if right.RegisterEntry? then 1 else 0)
    {
      rightReg := Bake();
      Swap();
      assert stack == base + [right, left];
      leftReg := Bake();
      Pop();
      assert stack == base + [right];
      Pop();
      assert stack == base;
    }

    // The instruction of a binary operator, which takes the operands x and y off the parse stack.
    method EmitBinary(op: BinOp, ghost p0: State, ghost x: Entry, ghost y: Entry)
      requires stack == p0.stack + [x, y]
      requires nextReg + (if x.RegisterEntry? then 1 else 0) + (if y.RegisterEntry? then 1 else 0) == p0.nextReg
      modifies this
      ensures deferred == old(deferred)
      ensures Now() == Applied(p0, old(Now()), Bin(op, p0.nextReg, x.reg, y.reg))
    {
      var leftReg, rightReg := PopOperands(p0.stack, x, y);
      var dst := PushRegister();
      AddCode(Bin(op, dst, leftReg, rightReg));
    }

    method EmitBinOp(op: BinOp, ghost p0: State, ghost p1: State, ghost l: Expr, ghost r: Expr)
      requires nerrors == 0 ==> ExprDone(p0, p1, l) && ExprDone(p1, Now(), r)
      modifies this
      ensures Total() <= old(Total()) + 1
      ensures old(Explained()) ==> Explained()
      ensures deferred == old(deferred)
      ensures nerrors == old(nerrors) && (nerrors == 0 ==> ExprDone(p0, Now(), Binary(op, l, r)))
    {
      if nerrors > 0 { return; }
      ghost var p2 := Now();
      TwoOperands(p0, p1, p2, l, r);
      BinaryDone(p0, p1, p2, op, l, r);
      EmitBinary(op, p0, p1.stack[|p0.stack|], p2.stack[|p1.stack|]);
    }

    method EmitMove()
      requires nerrors == 0 ==> |stack| >= 2 && !stack[|stack| - 2].ConstantEntry?
      modifies this
      ensures Total() <= old(Total()) + 1
      ensures old(Explained()) ==> Explained()
      ensures deferred == old(deferred)
      ensures nerrors > 0 ==> Now() == old(Now())
      ensures nerrors == 0 ==>
        var n := |old(stack)|;
        && n >= 2
        && Now() == Popped(WithBuf(old(Now()), Buf(old(Now())) + [Move(old(stack)[n - 2].reg, old(stack)[n - 1].reg)]))
    {
      if nerrors > 0 { return; }
      hide Buf, WithBuf;
      ghost var n := |stack| - 2;
      ghost var base, x, y := stack[..n], stack[n], stack[n + 1];
      assert stack == base + [x, y];
      var srcReg := Bake();
      Swap();
      assert stack == base + [y, x];
      AddCode(Move(stack[|stack| - 1].reg, srcReg));
      Swap();
      assert stack == base + [x, y];
      Pop();
    }

    method EmitDup(ghost x: nat)
      requires nerrors == 0 ==> |stack| > 0 && stack[|stack| - 1] == LocalEntry(x)
      modifies this`stack
      ensures stack == if nerrors > 0 then old(stack) else old(stack) + [LocalEntry(x)]
    {
      if nerrors > 0 { return; }
      Push(LocalEntry(stack[|stack| - 1].reg));
    }

    // A temporary for the result, below two copies of the local on top.
    method PrepareStep(ghost p0: State, ghost x: nat) returns (dst: int)
      requires nerrors == 0 && Now() == p0.(stack := p0.stack + [LocalEntry(x)])
      modifies this`stack, this`nextReg, this`minReg
      ensures dst == p0.nextReg
      ensures Now() == p0.(stack := p0.stack + [RegisterEntry(dst), LocalEntry(x), LocalEntry(x)],
        nextReg := dst - 1, minReg := if dst < p0.minReg then dst else p0.minReg)
    {
      dst := PushRegister();
      assert stack == p0.stack + [LocalEntry(x), RegisterEntry(dst)];
      Swap();
      EmitDup(x);
    }

    method EmitStep(op: StepOp, ghost p0: State, ghost x: nat)
      requires nerrors == 0 ==> Balanced(p0) && x < p0.locals && Now() == p0.(stack := p0.stack + [LocalEntry(x)])
      modifies this
      ensures Total() <= old(Total()) + 2
      ensures old(Explained()) ==> Explained()
      ensures deferred == old(deferred)
      ensures nerrors == old(nerrors) && (nerrors == 0 ==> SimpleDone(p0, Now(), Simple.Step(op, x)))
    {
      if nerrors > 0 { return; }
      hide SimpleDone, Balanced;
      ghost var p := Stepping(p0, x, op);
      BeginStep(op, p0, x);
      hide Stepping;
      EmitMove();
      Pop();
      SteppedState(p0, x, op);
      StepDone(p0, Now(), x, op);
    }

    // The instruction of a step, its result below two copies of the local on the parse stack.
    method BeginStep(op: StepOp, ghost p0: State, ghost x: nat)
      requires nerrors == 0 && Now() == p0.(stack := p0.stack + [LocalEntry(x)])
      modifies this
      ensures Now() == Stepping(p0, x, op)
    {
      var dst := PrepareStep(p0, x);
      var srcReg := Bake();
      AddCode(Instr.Step(op, dst, srcReg));
    }

    // Assignment to the local x below the value on top.
    method EmitAssign(ghost p0: State, ghost p1: State, ghost x: nat, ghost e: Expr)
      requires nerrors == 0 ==> Balanced(p0) && p1 == p0.(stack := p0.stack + [LocalEntry(x)]) && ExprDone(p1, Now(), e)
      modifies this
      ensures Total() <= old(Total()) + 1
      ensures old(Explained()) ==> Explained()
      ensures deferred == old(deferred)
      ensures nerrors == old(nerrors) && (nerrors == 0 ==> SimpleDone(p0, Now(), Assign(x, e)))
    {
      hide SimpleDone, Grown;
      ghost var p2 := Now();
      if nerrors == 0 {
        assert p2.stack == p1.stack + [p2.stack[|p1.stack|]];
        RegistersPush(p1.stack, p2.stack[|p1.stack|]);
      }
      EmitMove();
      if nerrors == 0 {
        MoveDone(p0, p1, p2, x, e);
      }
    }

    // Compares the value on top to the one below, which stays.
    method EmitCaseTest(ghost base: seq<Entry>, ghost x: Entry, ghost y: Entry)
      requires nerrors == 0 ==> stack == base + [x, y]
      modifies this
      ensures Total() <= old(Total()) + 1
      ensures old(Explained()) ==> Explained()
      ensures deferred == old(deferred)
      ensures nerrors > 0 ==> Now() == old(Now())
      ensures nerrors == old(nerrors)
      ensures nerrors == 0 ==>
        var p := old(Now());
        var d := p.nextReg + if y.RegisterEntry? then 1 else 0;
        Now() == WithBuf(p, Buf(p) + [Bin(EQ, d, x.reg, y.reg)])
          .(stack := base + [x, RegisterEntry(d)], nextReg := d - 1, minReg := if d < p.minReg then d else p.minReg)
    {
      if nerrors > 0 { return; }
      var rightReg := Bake();
      Swap();
      assert stack == base + [y, x];
      var leftReg := Bake();
      Swap();
      assert stack == base + [x, y];
      Pop();
      ghost var p1 := Now();
      assert p1 == old(Now()).(stack := base + [x], nextReg := old(nextReg) + if y.RegisterEntry? then 1 else 0);
      var dst := PushRegister();
      assert stack == base + [x, RegisterEntry(dst)];
      hide Popped;
      AddCode(Bin(EQ, dst, leftReg, rightReg));
    }

    function Size(): nat
      reads this
    { |Buf(Now())| }

    method AddMatchedJump(op: JumpOp) returns (addr: int)
      requires nerrors == 0 && !op.JMP? ==> |stack| > 0
      modifies this
      ensures Total() <= old(Total()) + 1
      ensures old(Explained()) ==> Explained()
      ensures deferred == old(deferred)
      ensures nerrors == old(nerrors)
      ensures nerrors == 0 ==>
        var p, n := old(Now()), |old(stack)|;
        && addr == |Buf(p)|
        && if op.JMP? then Now() == WithBuf(p, Buf(p) + [Jump(op, 0, 0)])
           else n > 0 && Now() == Popped(WithBuf(p, Buf(p) + [Jump(op, p.stack[n - 1].reg, 0)]))
    {
      if nerrors > 0 { return 0; }
      var reg := 0;
      if !op.JMP? {
        reg := Bake();
        Pop();
      }
      addr := if deferred then |deferredCode| else |code|;
      AddCode(Jump(op, reg, 0));
    }

    method DoMatchJump(matchAddr: int, jumpAddr: int)
      requires nerrors == 0 ==> 0 <= matchAddr < |Buf(Now())| && Buf(Now())[matchAddr].Jump?
      modifies this
      ensures |code| == |old(code)| && |deferredCode| == |old(deferredCode)|
      ensures nerrors == old(nerrors) + if old(nerrors) == 0 && (jumpAddr < -MAX_JUMP || jumpAddr > MAX_JUMP) then 1
        else 0
      ensures deferred == old(deferred)
      ensures nerrors == 0 ==>
        && old(nerrors) == 0 && -MAX_JUMP <= jumpAddr <= MAX_JUMP
        && Now() == WithBuf(old(Now()), Resolve(Buf(old(Now())), [matchAddr], matchAddr + jumpAddr))
    {
      if nerrors > 0 { return; }
      if jumpAddr < -MAX_JUMP || jumpAddr > MAX_JUMP {
        nerrors := nerrors + 1;
        return;
      }
      ghost var b := Buf(Now());
      var inst := if deferred then deferredCode[matchAddr] else code[matchAddr];
      var reg := inst.rn % 256;
      if deferred {
        deferredCode := deferredCode[matchAddr := Jump(inst.jop, reg, jumpAddr)];
      } else {
        code := code[matchAddr := Jump(inst.jop, reg, jumpAddr)];
      }
      assert Buf(Now()) == Resolve(b, [matchAddr], matchAddr + jumpAddr);
    }

    method MatchJump(matchAddr: int)
      requires nerrors == 0 ==> 0 <= matchAddr < |Buf(Now())| && Buf(Now())[matchAddr].Jump?
      modifies this
      ensures Total() <= old(Total())
      ensures old(Explained()) ==> Explained()
      ensures deferred == old(deferred)
      ensures nerrors == 0 ==>
        && old(nerrors) == 0
        && Now() == WithBuf(old(Now()), Resolve(Buf(old(Now())), [matchAddr], |Buf(old(Now()))|))
    {
      var here := if deferred then |deferredCode| else |code|;
      DoMatchJump(matchAddr, here - matchAddr);
    }

    method MatchJumpTo(matchAddr: int, dst: int)
      requires nerrors == 0 ==> 0 <= matchAddr < |Buf(Now())| && Buf(Now())[matchAddr].Jump?
      modifies this
      ensures Total() <= old(Total())
      ensures old(Explained()) && (old(nerrors) == 0 ==> 0 <= dst <= old(|Buf(Now())|)) ==> Explained()
      ensures deferred == old(deferred)
      ensures nerrors == 0 ==>
        && old(nerrors) == 0
        && Now() == WithBuf(old(Now()), Resolve(Buf(old(Now())), [matchAddr], dst))
    {
      DoMatchJump(matchAddr, dst - matchAddr);
    }

    method JumpToLabel(op: JumpOp, place: int)
      requires nerrors == 0 && !op.JMP? ==> |stack| > 0
      modifies this
      ensures Total() <= old(Total()) + 1
      ensures old(Explained()) ==> Explained()
      ensures deferred == old(deferred)
      ensures nerrors == old(nerrors)
      ensures nerrors == 0 ==>
        var p, n := old(Now()), |old(stack)|;
        if op.JMP? then Now() == WithBuf(p, Buf(p) + [Jump(op, 0, Field17(place - |Buf(p)|))])
        else n > 0 && Now() == Popped(WithBuf(p, Buf(p) + [Jump(op, p.stack[n - 1].reg, Field17(place - |Buf(p)|))]))
    {
      if nerrors > 0 { return; }
      var jumpAddr := place - (if deferred then |deferredCode| else |code|);
      var r := 0;
      if !op.JMP? {
        r := Bake();
        Pop();
      }
      AddCode(Jump(op, r, Field17(jumpAddr)));
    }

    // A syntax error.
    method DuplicateDefault()
      requires lenient
      modifies this`nerrors
      ensures Explained()
      ensures nerrors == old(nerrors) + 1
    {
      nerrors := nerrors + 1;
    }

    method StartDeferred() returns (start: nat)
      requires !deferred
      modifies this`deferred, this`deferredCodeBlocks
      ensures start == |deferredCode| && deferred && deferredCodeBlocks == old(deferredCodeBlocks) + [start]
    {
      deferred := true;
      deferredCodeBlocks := deferredCodeBlocks + [|deferredCode|];
      start := |deferredCode|;
    }

    method ResumeDeferred() returns (start: nat)
      requires !deferred
      modifies this`deferred
      ensures start == |deferredCode| && deferred
    {
      deferred := true;
      start := |deferredCode|;
    }

    method EndDeferred()
      requires deferred
      modifies this`deferred
      ensures !deferred
    {
      deferred := false;
    }

    // Moves the innermost deferred block to the end of the code.
    method EmitDeferred() returns (start: nat)
      requires nerrors == 0 ==>
        !deferred && |deferredCodeBlocks| > 0 && deferredCodeBlocks[|deferredCodeBlocks| - 1] <= |deferredCode|
      modifies this
      ensures Total() <= old(Total())
      ensures old(Explained()) ==> Explained()
      ensures deferred == old(deferred)
      ensures nerrors == old(nerrors) && (nerrors > 0 ==> Now() == old(Now()))
      ensures nerrors == 0 ==>
        var p, n := old(Now()), |old(deferredCodeBlocks)| - 1;
        && n >= 0
        && start == |p.code|
        && Now() == p.(code := p.code + p.deferredCode[p.blocks[n]..], deferredCode := p.deferredCode[..p.blocks[n]],
           blocks := p.blocks[..n])
    {
      if nerrors > 0 { return 0; }
      start := |code|;
      var last := |deferredCodeBlocks| - 1;
      var first := deferredCodeBlocks[last];
      var i := first;
      while i < |deferredCode|
        invariant first <= i <= |deferredCode| == |old(deferredCode)|
        invariant Now() == old(Now()).(code := old(code) + old(deferredCode)[first..i])
      {
        code := code + [deferredCode[i]];
        i := i + 1;
      }
      assert old(deferredCode)[first..i] == old(deferredCode)[first..];
      deferredCode := deferredCode[..first];
      deferredCodeBlocks := deferredCodeBlocks[..last];
    }

    // Moves the temporaries of the whole function behind its locals.
    method ReconcileRegisters(numLocals: nat)
      modifies this`code
      ensures code == ReconciledCode(old(code), numLocals)
    {
      var i := 0;
      while i < |code|
        invariant i <= |code| == |old(code)|
        invariant forall k :: 0 <= k < |code| ==> code[k] == if k < i then Reconciled(old(code)[k], numLocals)
          else old(code)[k]
      {
        code := code[i := Reconciled(code[i], numLocals)];
        i := i + 1;
      }
    }

    // Ends the function; the count of its temporaries is kept in a byte.
    method FunctionEnd() returns (tempRegisterCount: int)
      requires !deferred
      modifies this`code
      ensures Total() <= old(Total()) + 1
      ensures old(Explained()) ==> Explained()
      ensures nerrors > 0 ==> code == old(code)
      ensures nerrors == 0 ==>
        code == ReconciledCode(old(code) + [End], locals) && tempRegisterCount == (256 - minReg) % 256
    {
      if nerrors > 0 { return 0; }
      code := code + [End];
      tempRegisterCount := (256 - minReg) % 256;
      ReconcileRegisters(locals);
    }
  }
}
