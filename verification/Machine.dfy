/** The register machine: instructions and runs (ExecutionUnit.cpp). */
module Machine {

  datatype BinOp =
    LOR | LAND | OR | AND | XOR | EQ | NE | LT | LE | GT | GE | SHL | SHR | SAR | ADD | SUB | MUL | DIV | MOD
  datatype UnOp = UMINUS | UNOT | UNEG
  datatype StepOp = PREINC | PREDEC | POSTINC | POSTDEC
  datatype JumpOp = JMP | JT | JF

  // Operands up to MAX_REGISTER are registers, those above are constants.
  const MAX_REGISTER := 255

  datatype Instr =
    | Move(ra: int, rb: int)
    | Bin(bop: BinOp, ra: int, rb: int, rc: int)
    | Un(uop: UnOp, ra: int, rb: int)
    | Step(sop: StepOp, ra: int, rb: int)
    | Jump(jop: JumpOp, rn: int, sn: int)
    | End

  // The arithmetic of the values: every theorem holds for any choice of it.
  datatype Arith = Arith(bin: (BinOp, int, int) -> int, un: (UnOp, int) -> int, inc: int -> int, dec: int -> int)

  datatype Program = Program(code: seq<Instr>, consts: seq<int>, arith: Arith)

  function Get(consts: seq<int>, regs: seq<int>, r: int): int
  {
    if r > MAX_REGISTER then (if r - MAX_REGISTER - 1 < |consts| then consts[r - MAX_REGISTER - 1] else 0)
    else if 0 <= r < |regs| then regs[r] else 0
  }

  function Set(regs: seq<int>, r: int, v: int): (s: seq<int>)
    ensures |s| == |regs|
  { if 0 <= r < |regs| then regs[r := v] else regs }

  function Stepped(a: Arith, op: StepOp, v: int): int
  { if op.PREINC? || op.POSTINC? then a.inc(v) else a.dec(v) }

  // The effect on the registers of an instruction that does not jump.
  function Effect(i: Instr, consts: seq<int>, a: Arith, regs: seq<int>): (s: seq<int>)
    ensures |s| == |regs|
  {
    match i
    case Move(ra, rb) => Set(regs, ra, Get(consts, regs, rb))
    case Bin(op, ra, rb, rc) => Set(regs, ra, a.bin(op, Get(consts, regs, rb), Get(consts, regs, rc)))
    case Un(op, ra, rb) => Set(regs, ra, a.un(op, Get(consts, regs, rb)))
    case Step(op, ra, rb) =>
      if op.PREINC? || op.PREDEC? then
        var s := Set(regs, rb, Stepped(a, op, Get(consts, regs, rb)));
        Set(s, ra, Get(consts, s, rb))
      else
        var s := Set(regs, ra, Get(consts, regs, rb));
        Set(s, rb, Stepped(a, op, Get(consts, s, rb)))
    case Jump(_, _, _) => regs
    case End => regs
  }

  datatype Config = Config(pc: int, regs: seq<int>)

  predicate Running(p: Program, c: Config)
  { 0 <= c.pc < |p.code| && !p.code[c.pc].End? }

  function Taken(op: JumpOp, v: int): bool
  { op.JMP? || (op.JT? && v != 0) || (op.JF? && v == 0) }

  function Next(p: Program, c: Config): Config
  {
    if !Running(p, c) then c else
    var i := p.code[c.pc];
    if i.Jump? then
      if Taken(i.jop, Get(p.consts, c.regs, i.rn)) then c.(pc := c.pc + i.sn) else c.(pc := c.pc + 1)
    else
      Config(c.pc + 1, Effect(i, p.consts, p.arith, c.regs))
  }

  function Run(p: Program, c: Config, n: nat): Config
    decreases n
  { if n == 0 then c else Run(p, Next(p, c), n - 1) }

  lemma {:induction false} RunAdd(p: Program, c: Config, m: nat, n: nat)
    ensures Run(p, Run(p, c, m), n) == Run(p, c, m + n)
    decreases m
  {
    if m > 0 { RunAdd(p, Next(p, c), m - 1, n); }
  }

  function Straight(seg: seq<Instr>, consts: seq<int>, a: Arith, regs: seq<int>): (s: seq<int>)
    ensures |s| == |regs|
  { if seg == [] then regs else Straight(seg[1..], consts, a, Effect(seg[0], consts, a, regs)) }

  predicate NoJumps(seg: seq<Instr>)
  { forall i :: 0 <= i < |seg| ==> !seg[i].Jump? && !seg[i].End? }

  lemma {:induction false} StraightAppend(s: seq<Instr>, t: seq<Instr>, consts: seq<int>, a: Arith, regs: seq<int>)
    ensures Straight(s + t, consts, a, regs) == Straight(t, consts, a, Straight(s, consts, a, regs))
  {
    if s == [] {
      assert s + t == t;
    } else {
      assert (s + t)[1..] == s[1..] + t;
      StraightAppend(s[1..], t, consts, a, Effect(s[0], consts, a, regs));
    }
  }

  // The program holds seg from pc on.
  ghost predicate CodeAt(p: Program, pc: int, seg: seq<Instr>)
  { 0 <= pc && pc + |seg| <= |p.code| && p.code[pc..pc + |seg|] == seg }

  lemma NextStraight(p: Program, pc: int, seg: seq<Instr>, regs: seq<int>)
    requires CodeAt(p, pc, seg) && NoJumps(seg) && seg != []
    ensures Next(p, Config(pc, regs)) == Config(pc + 1, Effect(seg[0], p.consts, p.arith, regs))
    ensures CodeAt(p, pc + 1, seg[1..])
  {
    assert p.code[pc..pc + |seg|][0] == p.code[pc];
    assert p.code[pc..pc + |seg|][1..] == p.code[pc + 1..pc + |seg|];
  }

  lemma {:induction false} RunStraight(p: Program, pc: int, seg: seq<Instr>, regs: seq<int>)
    requires CodeAt(p, pc, seg) && NoJumps(seg)
    decreases |seg|
    ensures Run(p, Config(pc, regs), |seg|) == Config(pc + |seg|, Straight(seg, p.consts, p.arith, regs))
  {
    if seg != [] {
      hide Effect, Next;
      var regs' := Effect(seg[0], p.consts, p.arith, regs);
      NextStraight(p, pc, seg, regs);
      assert Run(p, Config(pc, regs), |seg|) == Run(p, Config(pc + 1, regs'), |seg| - 1);
      assert Straight(seg, p.consts, p.arith, regs) == Straight(seg[1..], p.consts, p.arith, regs');
      hide Run, Straight;
      RunStraight(p, pc + 1, seg[1..], regs');
    }
  }
}
