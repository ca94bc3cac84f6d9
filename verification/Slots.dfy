/** Renumbering of the temporaries at the end of a function (Parser.cpp). */
module Slots {
  import opened Machine

  // The slot of a register once the number of locals is known: temporaries follow the locals.
  function RegFromTempReg(reg: int, numLocals: nat): int
  { if numLocals < reg <= MAX_REGISTER then MAX_REGISTER - reg + numLocals else reg }

  function Reconciled(i: Instr, n: nat): Instr
  {
    match i
    case Move(ra, rb) => Move(RegFromTempReg(ra, n), RegFromTempReg(rb, n))
    case Bin(op, ra, rb, rc) => Bin(op, RegFromTempReg(ra, n), RegFromTempReg(rb, n), RegFromTempReg(rc, n))
    case Un(op, ra, rb) => Un(op, RegFromTempReg(ra, n), RegFromTempReg(rb, n))
    case Step(op, ra, rb) => Step(op, RegFromTempReg(ra, n), RegFromTempReg(rb, n))
    case Jump(op, rn, sn) => Jump(op, RegFromTempReg(rn, n), sn)
    case End => End
  }

  function ReconciledCode(code: seq<Instr>, n: nat): (r: seq<Instr>)
    ensures |r| == |code| && forall i :: 0 <= i < |code| ==> r[i] == Reconciled(code[i], n)
  { seq(|code|, i requires 0 <= i < |code| => Reconciled(code[i], n)) }

  predicate InUse(r: int, locals: nat, minReg: int)
  { 0 <= r < locals || minReg <= r <= MAX_REGISTER }

  // No two registers in use share a slot, and every slot is in the frame.
  ghost predicate SlotsApart(locals: nat, minReg: int)
  {
    && (forall x, y ::
       0 <= x < locals && minReg <= y <= MAX_REGISTER ==> RegFromTempReg(x, locals) != RegFromTempReg(y, locals))
    && (forall x, y :: minReg <= x < y <= MAX_REGISTER ==> RegFromTempReg(x, locals) != RegFromTempReg(y, locals))
    && (forall x :: InUse(x, locals, minReg) ==> 0 <= RegFromTempReg(x, locals) < locals + 256 - minReg)
  }

  // Exactly when the slots are apart: with a temporary in use, locals and temporaries together must leave one of the
  // 256 registers free, unless the only temporary is register 255.
  lemma SlotsApartIff(locals: nat, minReg: int)
    requires locals <= MAX_REGISTER && 0 <= minReg <= MAX_REGISTER
    ensures SlotsApart(locals, minReg) <==> locals < minReg || (locals == MAX_REGISTER && minReg == MAX_REGISTER)
  {
    if minReg <= locals {
      if locals < MAX_REGISTER {
        assert RegFromTempReg(locals, locals) == RegFromTempReg(MAX_REGISTER, locals);
      } else if minReg < MAX_REGISTER {
        assert RegFromTempReg(minReg, locals) == minReg;
      }
    }
  }

  lemma SlotsFit(locals: nat, minReg: int, r: int)
    requires locals < minReg <= 256 && InUse(r, locals, minReg)
    ensures 0 <= RegFromTempReg(r, locals) < locals + 256 - minReg
  {
  }
}
