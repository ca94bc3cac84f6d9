/** Renumbered code does what the code did before. */
module Reconciliation {
  import opened Machine
  import opened Simulation
  import opened Slots
  import opened Codegen

  // The frame holds the registers in use, each in its slot.
  ghost predicate SameRegs(regs: seq<int>, frame: seq<int>, locals: nat, minReg: int)
  {
    && locals < minReg <= 256 && |regs| == REGS && |frame| == locals + 256 - minReg
    && forall r :: 0 <= r < REGS && InUse(r, locals, minReg) ==> SlotSame(regs, frame, locals, r)
  }

  ghost predicate SlotSame(regs: seq<int>, frame: seq<int>, locals: nat, r: int)
    requires 0 <= r < |regs|
  { 0 <= RegFromTempReg(r, locals) < |frame| && frame[RegFromTempReg(r, locals)] == regs[r] }

  lemma GetSame(regs: seq<int>, frame: seq<int>, locals: nat, minReg: int, consts: seq<int>, r: int)
    requires SameRegs(regs, frame, locals, minReg) && Operand(r, locals, minReg)
    ensures Get(consts, frame, RegFromTempReg(r, locals)) == Get(consts, regs, r)
  {
    if r <= MAX_REGISTER { assert SlotSame(regs, frame, locals, r); }
  }

  lemma SetSame(regs: seq<int>, frame: seq<int>, locals: nat, minReg: int, r: int, v: int)
    requires SameRegs(regs, frame, locals, minReg) && Operand(r, locals, minReg)
    ensures SameRegs(Set(regs, r, v), Set(frame, RegFromTempReg(r, locals), v), locals, minReg)
  {
    var regs', frame' := Set(regs, r, v), Set(frame, RegFromTempReg(r, locals), v);
    forall x | 0 <= x < REGS && InUse(x, locals, minReg) ensures SlotSame(regs', frame', locals, x) {
      assert SlotSame(regs, frame, locals, x);
      if 0 <= r <= MAX_REGISTER { SlotsFit(locals, minReg, r); }
      SlotsFit(locals, minReg, x);
    }
    if r > MAX_REGISTER { FrameShort(locals, minReg, r); }
  }

  // A constant is not a slot.
  lemma FrameShort(locals: nat, minReg: int, r: int)
    requires locals < minReg <= 256 && r > MAX_REGISTER
    ensures RegFromTempReg(r, locals) == r >= locals + 256 - minReg
  {
  }

  lemma EffectSame(i: Instr, consts: seq<int>, a: Arith, regs: seq<int>, frame: seq<int>, locals: nat, minReg: int)
    requires SameRegs(regs, frame, locals, minReg) && OperandsIn(i, locals, minReg)
    ensures SameRegs(Effect(i, consts, a, regs), Effect(Reconciled(i, locals), consts, a, frame), locals, minReg)
  {
    match i
    case Move(ra, rb) =>
      GetSame(regs, frame, locals, minReg, consts, rb);
      SetSame(regs, frame, locals, minReg, ra, Get(consts, regs, rb));
    case Bin(op, ra, rb, rc) =>
      GetSame(regs, frame, locals, minReg, consts, rb);
      GetSame(regs, frame, locals, minReg, consts, rc);
      SetSame(regs, frame, locals, minReg, ra, a.bin(op, Get(consts, regs, rb), Get(consts, regs, rc)));
    case Un(op, ra, rb) =>
      GetSame(regs, frame, locals, minReg, consts, rb);
      SetSame(regs, frame, locals, minReg, ra, a.un(op, Get(consts, regs, rb)));
    case Step(op, ra, rb) => StepSame(op, ra, rb, consts, a, regs, frame, locals, minReg);
    case Jump(_, _, _) =>
    case End =>
  }

  lemma StepSame(op: StepOp, ra: int, rb: int, consts: seq<int>, a: Arith, regs: seq<int>, frame: seq<int>, locals: nat,
      minReg: int)
    requires SameRegs(regs, frame, locals, minReg) && Operand(ra, locals, minReg) && Operand(rb, locals, minReg)
    ensures SameRegs(Effect(Instr.Step(op, ra, rb), consts, a, regs),
      Effect(Reconciled(Instr.Step(op, ra, rb), locals), consts, a, frame), locals, minReg)
  {
    var first, second := if op.PREINC? || op.PREDEC? then rb else ra, if op.PREINC? || op.PREDEC? then ra else rb;
    GetSame(regs, frame, locals, minReg, consts, rb);
    var v := if op.PREINC? || op.PREDEC? then Stepped(a, op, Get(consts, regs, rb)) else Get(consts, regs, rb);
    SetSame(regs, frame, locals, minReg, first, v);
    var regs', frame' := Set(regs, first, v), Set(frame, RegFromTempReg(first, locals), v);
    GetSame(regs', frame', locals, minReg, consts, rb);
    SetSame(regs', frame', locals, minReg, second,
      if op.PREINC? || op.PREDEC? then Get(consts, regs', rb) else Stepped(a, op, Get(consts, regs', rb)));
  }

  function ReconciledProgram(p: Program, locals: nat): Program
  { p.(code := ReconciledCode(p.code, locals)) }

  lemma NextSame(p: Program, c: Config, frame: seq<int>, locals: nat, minReg: int)
    requires SameRegs(c.regs, frame, locals, minReg) && CodeIn(p.code, locals, minReg)
    ensures var d, d' := Next(p, c), Next(ReconciledProgram(p, locals), Config(c.pc, frame));
      d.pc == d'.pc && SameRegs(d.regs, d'.regs, locals, minReg)
    ensures Running(p, c) == Running(ReconciledProgram(p, locals), Config(c.pc, frame))
  {
    if Running(p, c) {
      var i := p.code[c.pc];
      assert InstrIn(p.code, c.pc, locals, minReg);
      if i.Jump? {
        if !i.jop.JMP? { GetSame(c.regs, frame, locals, minReg, p.consts, i.rn); }
      } else {
        EffectSame(i, p.consts, p.arith, c.regs, frame, locals, minReg);
      }
    }
  }

  // The reconciled program does the same, step by step.
  lemma {:induction false} RunSame(p: Program, c: Config, frame: seq<int>, locals: nat, minReg: int, n: nat)
    requires SameRegs(c.regs, frame, locals, minReg) && CodeIn(p.code, locals, minReg)
    ensures var d, d' := Run(p, c, n), Run(ReconciledProgram(p, locals), Config(c.pc, frame), n);
      d.pc == d'.pc && SameRegs(d.regs, d'.regs, locals, minReg)
    ensures Running(p, Run(p, c, n)) == Running(ReconciledProgram(p, locals),
      Run(ReconciledProgram(p, locals), Config(c.pc, frame), n))
    decreases n
  {
    NextSame(p, c, frame, locals, minReg);
    if n > 0 {
      var d' := Next(ReconciledProgram(p, locals), Config(c.pc, frame));
      RunSame(p, Next(p, c), d'.regs, locals, minReg, n - 1);
    }
  }
}
