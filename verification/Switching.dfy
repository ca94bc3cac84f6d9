/** Layouts of switch statements: the tests in the code, the bodies in a deferred block that is copied behind them. */
module Switching {
  import opened Wrappers
  import opened Machine
  import opened Source
  import opened Simulation
  import opened SwitchRuns
  import opened Codegen
  import opened Layout
  import opened Statements
  import opened Branches

  // Given room for uses locals, seg compares the value of e to the one in rs.
  ghost predicate ComparesIn(e: Expr, seg: seq<Instr>, dst: int, rs: int, uses: nat, minReg: int, constants: seq<int>,
      locals: nat, consts: seq<int>, a: Arith)
  {
    uses <= locals < minReg <= REGS && constants <= consts ==>
      TestSegOk(seg, dst, rs, e, locals, consts, a) && 0 <= dst <= MAX_REGISTER
  }

  ghost predicate ComparesTo(e: Expr, seg: seq<Instr>, dst: int, rs: int, uses: nat, minReg: int, constants: seq<int>)
  {
    forall locals: nat, consts, a {:trigger ComparesIn(e, seg, dst, rs, uses, minReg, constants, locals, consts, a)} ::
      ComparesIn(e, seg, dst, rs, uses, minReg, constants, locals, consts, a)
  }

  // The selector's operand is out of reach of the code for a test, whose temporaries start at n.
  predicate OutOfReach(rs: int, selector: Expr, n: int)
  { rs > MAX_REGISTER || n < rs <= MAX_REGISTER || (Bare(selector).Local? && rs == Bare(selector).index) }

  lemma CompareRegs(s: seq<Instr>, r: int, e: Expr, rs: int, n: int, locals: nat, consts: seq<int>, a: Arith,
      regs: seq<int>)
    requires |regs| == REGS && locals < n <= 255 && Computes(s, r, e, locals, consts, a, n, regs)
    requires rs > MAX_REGISTER || n < rs <= MAX_REGISTER || 0 <= rs < locals
    ensures Compares(s + [Bin(EQ, n, rs, r)], n, rs, e, locals, consts, a, regs)
  {
    StraightAppend(s, [Bin(EQ, n, rs, r)], consts, a, regs);
  }

  lemma CaseCompares(q: State, q1: State, e: Expr, rs: int, selector: Expr, minReg: int)
    requires ExprDone(q, q1, e) && OutOfReach(rs, selector, q.nextReg) && minReg <= q1.minReg
      && minReg <= q.nextReg <= 255
    ensures ComparesTo(e, NewCode(q, q1) + [Bin(EQ, q.nextReg, rs, q1.stack[|q.stack|].reg)], q.nextReg, rs,
      Max(Uses(e), Uses(selector)), minReg, q1.constants)
  {
    BareUses(selector);
    hide Compares, Computes;
    var s, r, n, uses := NewCode(q, q1), q1.stack[|q.stack|].reg, q.nextReg, Max(Uses(e), Uses(selector));
    var seg := s + [Bin(EQ, n, rs, r)];
    forall locals: nat, consts, a ensures ComparesIn(e, seg, n, rs, uses, minReg, q1.constants, locals, consts, a) {
      if uses <= locals < minReg <= REGS && q1.constants <= consts {
        assert CodeComputes(q, q1, e, locals, consts, a);
        forall regs: seq<int> | |regs| == REGS ensures Compares(seg, n, rs, e, locals, consts, a, regs) {
          assert Computes(s, r, e, locals, consts, a, n, regs);
          CompareRegs(s, r, e, rs, n, locals, consts, a, regs);
        }
      }
    }
  }

  lemma ComparesMore(e: Expr, seg: seq<Instr>, dst: int, rs: int, uses: nat, minReg: int, constants: seq<int>,
      uses': nat, minReg': int, constants': seq<int>)
    requires ComparesTo(e, seg, dst, rs, uses, minReg, constants) && uses <= uses' && minReg' <= minReg <= REGS
      && constants <= constants'
    ensures ComparesTo(e, seg, dst, rs, uses', minReg', constants')
  {
    forall locals: nat, consts, a ensures ComparesIn(e, seg, dst, rs, uses', minReg', constants', locals, consts, a) {
      assert ComparesIn(e, seg, dst, rs, uses, minReg, constants, locals, consts, a);
    }
  }

  ghost predicate TestBuilt(e: Expr, x: Place, t1: int, m: seq<Instr>, rs: int, uses: nat, minReg: int,
      constants: seq<int>)
  {
    && 0 <= x.t && t1 == x.t + |x.seg| + 1 <= |m| && m[x.t..t1 - 1] == x.seg && m[t1 - 1] == Jump(JT, x.dst, 0)
       && x.dst <= MAX_REGISTER
    && ComparesTo(e, x.seg, x.dst, rs, Max(Uses(e), uses), minReg, constants)
  }

  ghost predicate BodyBuilt(c: Clause, x: Place, d1: int, q: seq<Instr>, minReg: int, constants: seq<int>)
  {
    if c.body.Some? then
      0 <= x.d < d1 <= |q| && q[d1 - 1] == Jump(JMP, 0, 0)
        && Correct(c.body.value, x.d, q[..d1 - 1], minReg, constants, [], [])
    else if c.Default? then 0 <= x.d < d1 == x.d + 1 <= |q| && q[x.d] == Jump(JMP, 0, 0)
    else d1 == x.d
  }

  // What has been generated for clause i: its test in m, its statement in q.
  ghost predicate AssembledAt(clauses: seq<Clause>, xs: seq<Place>, i: nat, m: seq<Instr>, q: seq<Instr>, rs: int,
      uses: nat, minReg: int, constants: seq<int>)
    requires i < |clauses| == |xs|
  {
    var t1, d1 := TestAtClause(xs, i + 1, |m|), BodyAtClause(xs, i + 1, |q|);
    && (if clauses[i].Case? then TestBuilt(clauses[i].test, xs[i], t1, m, rs, uses, minReg, constants)
       else t1 == xs[i].t)
    && BodyBuilt(clauses[i], xs[i], d1, q, minReg, constants)
  }

  ghost predicate OrderedAt(xs: seq<Place>, i: nat, j: nat, t0: int, e: int, d0: int, end: int)
    requires i <= j < |xs|
  {
    && t0 <= xs[i].t <= xs[j].t <= e && d0 <= xs[i].d <= xs[j].d <= end
    && (i < j ==> TestAtClause(xs, i + 1, e) <= xs[j].t && BodyAtClause(xs, i + 1, end) <= xs[j].d)
  }

  ghost predicate Ordered(xs: seq<Place>, t0: int, e: int, d0: int, end: int)
  {
    forall i: nat, j: nat {:trigger OrderedAt(xs, i, j, t0, e, d0, end)} ::
      i <= j < |xs| ==> OrderedAt(xs, i, j, t0, e, d0, end)
  }

  ghost predicate Assembled(clauses: seq<Clause>, xs: seq<Place>, t0: int, d0: int, m: seq<Instr>, q: seq<Instr>,
      rs: int, uses: nat, minReg: int, constants: seq<int>)
  {
    && |xs| == |clauses| && Ordered(xs, t0, |m|, d0, |q|)
    && TestAtClause(xs, 0, |m|) == t0 && BodyAtClause(xs, 0, |q|) == d0
    && forall i: nat {:trigger AssembledAt(clauses, xs, i, m, q, rs, uses, minReg, constants)} ::
      i < |clauses| ==> AssembledAt(clauses, xs, i, m, q, rs, uses, minReg, constants)
  }

  lemma AssembledAtMore(clauses: seq<Clause>, xs: seq<Place>, i: nat, c: Clause, x: Place, m: seq<Instr>, q: seq<Instr>,
      m': seq<Instr>, q': seq<Instr>, rs: int, uses: nat, minReg: int, constants: seq<int>, minReg': int,
      constants': seq<int>)
    requires i < |clauses| == |xs| && AssembledAt(clauses, xs, i, m, q, rs, uses, minReg, constants)
    requires m <= m' && q <= q' && x.t == |m| && x.d == |q| && minReg' <= minReg <= REGS && constants <= constants'
    ensures AssembledAt(clauses + [c], xs + [x], i, m', q', rs, uses, minReg', constants')
  {
    var t1, d1, b := TestAtClause(xs, i + 1, |m|), BodyAtClause(xs, i + 1, |q|), clauses[i];
    assert t1 == TestAtClause(xs + [x], i + 1, |m'|) && d1 == BodyAtClause(xs + [x], i + 1, |q'|);
    if b.Case? {
      ComparesMore(b.test, xs[i].seg, xs[i].dst, rs, Max(Uses(b.test), uses), minReg, constants,
        Max(Uses(b.test), uses), minReg', constants');
      assert m'[xs[i].t..t1 - 1] == m[xs[i].t..t1 - 1];
    }
    if b.body.Some? {
      assert q'[..d1 - 1] == q[..d1 - 1];
      CorrectMore(b.body.value, xs[i].d, q[..d1 - 1], minReg, constants, minReg', constants', [], []);
    }
  }

  lemma OrderedMore(xs: seq<Place>, x: Place, t0: int, e: int, d0: int, end: int, e': int, end': int)
    requires Ordered(xs, t0, e, d0, end) && x.t == e <= e' && x.d == end <= end' && t0 <= e && d0 <= end
    ensures Ordered(xs + [x], t0, e', d0, end')
  {
    forall i: nat, j: nat | i <= j < |xs| + 1 ensures OrderedAt(xs + [x], i, j, t0, e', d0, end') {
      if j < |xs| { assert OrderedAt(xs, i, j, t0, e, d0, end); }
      if i < |xs| { assert OrderedAt(xs, i, |xs| - 1, t0, e, d0, end) && OrderedAt(xs, i, i, t0, e, d0, end); }
    }
  }

  // One more clause.
  lemma AssembledMore(clauses: seq<Clause>, xs: seq<Place>, t0: int, d0: int, m: seq<Instr>, q: seq<Instr>, rs: int,
      uses: nat, minReg: int, constants: seq<int>, c: Clause, x: Place, m': seq<Instr>, q': seq<Instr>, minReg': int,
      constants': seq<int>)
    requires Assembled(clauses, xs, t0, d0, m, q, rs, uses, minReg, constants)
    requires m <= m' && q <= q' && x.t == |m| && x.d == |q| && t0 <= |m| && d0 <= |q| && minReg' <= minReg <= REGS
      && constants <= constants'
    requires if c.Case? then TestBuilt(c.test, x, |m'|, m', rs, uses, minReg', constants') else m' == m
    requires BodyBuilt(c, x, |q'|, q', minReg', constants')
    ensures Assembled(clauses + [c], xs + [x], t0, d0, m', q', rs, uses, minReg', constants')
  {
    OrderedMore(xs, x, t0, |m|, d0, |q|, |m'|, |q'|);
    forall i: nat | i < |clauses| + 1
      ensures AssembledAt(clauses + [c], xs + [x], i, m', q', rs, uses, minReg', constants')
    {
      if i < |clauses| {
        assert AssembledAt(clauses, xs, i, m, q, rs, uses, minReg, constants);
        AssembledAtMore(clauses, xs, i, c, x, m, q, m', q', rs, uses, minReg, constants, minReg', constants');
      }
    }
  }

  // The jumps of one clause that wait for their targets: to leads to its statement at addr, from past the switch.
  datatype CaseEntry = CaseEntry(to: int, from: int, addr: int)

  function EntryAt(clauses: seq<Clause>, xs: seq<Place>, i: nat, e: int, end: int): CaseEntry
    requires i < |clauses| == |xs|
  {
    var c := clauses[i];
    CaseEntry(if c.Case? then TestAtClause(xs, i + 1, e) - 1 else -1,
      if c.body.Some? || c.Default? then BodyAtClause(xs, i + 1, end) - 1 else -1, xs[i].d)
  }

  predicate Touches(en: CaseEntry, shift: int, k: int)
  { (en.to >= 0 && k == en.to) || (en.from >= 0 && k == en.from + shift) }

  // The statements have been moved by shift when the jumps of a clause are aimed.
  function PatchEntry(b: seq<Instr>, en: CaseEntry, shift: int, after: int): (r: seq<Instr>)
    ensures |r| == |b|
  {
    var b1 := if en.to >= 0 then Resolve(b, [en.to], en.addr + shift) else b;
    if en.from >= 0 then Resolve(b1, [en.from + shift], after) else b1
  }

  ghost predicate EntryFits(b: seq<Instr>, en: CaseEntry, shift: int)
  {
    en.to < |b| && 0 <= en.addr + shift <= |b| && (en.from >= 0 ==>
      0 <= en.from + shift < |b| && en.from + shift != en.to)
  }

  ghost predicate Aims(b0: seq<Instr>, b: seq<Instr>, en: CaseEntry, shift: int, after: int)
  {
    && EntryFits(b0, en, shift) && |b| == |b0|
    && (en.to >= 0 ==> b[en.to] == Aimed(b0[en.to], en.addr + shift - en.to))
    && (en.from >= 0 ==> b[en.from + shift] == Aimed(b0[en.from + shift], after - (en.from + shift)))
  }

  ghost predicate Spared(es: seq<CaseEntry>, done: seq<nat>, shift: int, k: int)
  { forall i :: i in done && i < |es| ==> !Touches(es[i], shift, k) }

  ghost predicate Keeps(b0: seq<Instr>, b: seq<Instr>, es: seq<CaseEntry>, done: seq<nat>, shift: int, k: int)
  { 0 <= k < |b0| == |b| && Spared(es, done, shift, k) ==> b[k] == b0[k] }

  // b is b0 with the jumps of the clauses in done aimed.
  ghost predicate Patched(b0: seq<Instr>, b: seq<Instr>, es: seq<CaseEntry>, done: seq<nat>, shift: int, after: int)
  {
    && |b| == |b0|
    && (forall i :: i in done && i < |es| ==> Aims(b0, b, es[i], shift, after))
    && (forall k {:trigger Keeps(b0, b, es, done, shift, k)} :: Keeps(b0, b, es, done, shift, k))
  }

  ghost predicate Apart(es: seq<CaseEntry>, shift: int)
  {
    forall i, j, k :: 0 <= i < |es| && 0 <= j < |es| && Touches(es[i], shift, k) && Touches(es[j], shift, k) ==> i == j
  }

  lemma PatchedNone(b: seq<Instr>, es: seq<CaseEntry>, shift: int, after: int)
    ensures Patched(b, b, es, [], shift, after)
  {
  }

  lemma PatchedMore(b0: seq<Instr>, b: seq<Instr>, es: seq<CaseEntry>, done: seq<nat>, shift: int, after: int, i: nat)
    requires Patched(b0, b, es, done, shift, after) && i < |es| && i !in done && Apart(es, shift)
      && EntryFits(b0, es[i], shift)
    ensures Patched(b0, PatchEntry(b, es[i], shift, after), es, done + [i], shift, after)
  {
    var en, b' := es[i], PatchEntry(b, es[i], shift, after);
    forall k | 0 <= k < |b| ensures b'[k] == if en.to >= 0 && k == en.to then Aimed(b[k], en.addr + shift - k)
      else if en.from >= 0 && k == en.from + shift then Aimed(b[k], after - k) else b[k] {}
    forall k | Touches(en, shift, k) ensures Spared(es, done, shift, k) {}
    assert Keeps(b0, b, es, done, shift, en.to) && Keeps(b0, b, es, done, shift, en.from + shift);
    forall j | j in done + [i] && j < |es| ensures Aims(b0, b', es[j], shift, after) {
      if j != i {
        assert Aims(b0, b, es[j], shift, after);
        assert es[j].to >= 0 ==> Touches(es[j], shift, es[j].to);
        assert es[j].from >= 0 ==> Touches(es[j], shift, es[j].from + shift);
      }
    }
    forall k ensures Keeps(b0, b', es, done + [i], shift, k) {
      assert Keeps(b0, b, es, done, shift, k);
      if Spared(es, done + [i], shift, k) { assert i in done + [i]; }
    }
  }

  // All the clauses once the statements have been appended to the tests, with shift the distance they moved.
  function Joined(m: seq<Instr>, q: seq<Instr>, d0: nat, target: int): seq<Instr>
    requires d0 <= |q|
  { m + [Jump(JMP, 0, target - |m|)] + q[d0..] }

  ghost predicate Finished(clauses: seq<Clause>, xs: seq<Place>, m: seq<Instr>, q: seq<Instr>, d0: nat, target: int,
      es: seq<CaseEntry>, done: seq<nat>, f: seq<Instr>)
  {
    && d0 <= |q| && |es| == |xs| == |clauses| && (forall i: nat :: i < |es| ==> i in done)
    && (forall i: nat :: i < |es| ==> es[i] == EntryAt(clauses, xs, i, |m|, |q|))
    && Patched(Joined(m, q, d0, target), f, es, done, |m| + 1 - d0, |m| + 1 + |q| - d0)
  }

  // The addresses of different clauses.
  lemma TestsApart(clauses: seq<Clause>, xs: seq<Place>, t0: int, d0: int, e: int, end: int, i: nat, j: nat, k: int)
    requires Ordered(xs, t0, e, d0, end) && i < |xs| == |clauses| && j < |xs| && 0 <= t0 && 0 <= d0
    requires EntryAt(clauses, xs, j, e, end).to == k >= xs[j].t
    ensures k < e && (j != i ==> !(xs[i].t <= k < TestAtClause(xs, i + 1, e)))
  {
    assert OrderedAt(xs, j, j, t0, e, d0, end);
    assert i < j ==> OrderedAt(xs, i, j, t0, e, d0, end);
    assert j < i ==> OrderedAt(xs, j, i, t0, e, d0, end);
    if j + 1 < |xs| { assert OrderedAt(xs, j, j + 1, t0, e, d0, end); }
  }

  lemma BodiesApart(clauses: seq<Clause>, xs: seq<Place>, t0: int, d0: int, e: int, end: int, i: nat, j: nat, k: int)
    requires Ordered(xs, t0, e, d0, end) && i < |xs| == |clauses| && j < |xs| && 0 <= t0 && 0 <= d0
    requires EntryAt(clauses, xs, j, e, end).from == k >= xs[j].d
    ensures k < end && (j != i ==> !(xs[i].d <= k < BodyAtClause(xs, i + 1, end)))
  {
    assert OrderedAt(xs, j, j, t0, e, d0, end);
    assert i < j ==> OrderedAt(xs, i, j, t0, e, d0, end);
    assert j < i ==> OrderedAt(xs, j, i, t0, e, d0, end);
    if j + 1 < |xs| { assert OrderedAt(xs, j, j + 1, t0, e, d0, end); }
  }

  lemma AssembledBounds(clauses: seq<Clause>, xs: seq<Place>, t0: int, d0: int, m: seq<Instr>, q: seq<Instr>, rs: int,
      uses: nat, minReg: int, constants: seq<int>, i: nat)
    requires Assembled(clauses, xs, t0, d0, m, q, rs, uses, minReg, constants) && i < |xs| && 0 <= t0 && 0 <= d0
    ensures t0 <= xs[i].t <= TestAtClause(xs, i + 1, |m|) <= |m| && d0 <= xs[i].d <= BodyAtClause(xs, i + 1, |q|) <= |q|
    ensures var en := EntryAt(clauses, xs, i, |m|, |q|);
      && (clauses[i].Case? ==> xs[i].t <= en.to < |m|) && (en.from != -1 ==> xs[i].d <= en.from < |q|)
      && -1 <= en.to && -1 <= en.from
  {
    assert AssembledAt(clauses, xs, i, m, q, rs, uses, minReg, constants);
    assert OrderedAt(xs, i, i, t0, |m|, d0, |q|);
    if i + 1 < |xs| { assert OrderedAt(xs, i, i + 1, t0, |m|, d0, |q|); }
  }

  lemma EntriesApart(clauses: seq<Clause>, xs: seq<Place>, t0: nat, d0: nat, m: seq<Instr>, q: seq<Instr>, rs: int,
      uses: nat, minReg: int, constants: seq<int>, es: seq<CaseEntry>)
    requires Assembled(clauses, xs, t0, d0, m, q, rs, uses, minReg, constants) && |es| == |clauses| && d0 <= |q|
    requires forall i: nat :: i < |es| ==> es[i] == EntryAt(clauses, xs, i, |m|, |q|)
    ensures Apart(es, |m| + 1 - d0)
    ensures forall i: nat :: i < |es| ==> EntryFits(Joined(m, q, d0, 0), es[i], |m| + 1 - d0)
  {
    var shift := |m| + 1 - d0;
    forall i | 0 <= i < |es|
      ensures -1 <= es[i].to < |m| && d0 <= es[i].addr <= |q| && (es[i].from != -1 ==> d0 <= es[i].from < |q|)
    {
      AssembledBounds(clauses, xs, t0, d0, m, q, rs, uses, minReg, constants, i);
    }
    forall i, j, k | 0 <= i < |es| && 0 <= j < |es| && Touches(es[i], shift, k)
      && Touches(es[j], shift, k) ensures i == j {
      AssembledBounds(clauses, xs, t0, d0, m, q, rs, uses, minReg, constants, i);
      AssembledBounds(clauses, xs, t0, d0, m, q, rs, uses, minReg, constants, j);
      if es[j].to == k { TestsApart(clauses, xs, t0, d0, |m|, |q|, i, j, k); }
      else { BodiesApart(clauses, xs, t0, d0, |m|, |q|, i, j, k - shift); }
    }
  }

  lemma JoinedAt(m: seq<Instr>, q: seq<Instr>, d0: nat, target: int, k: int)
    requires d0 <= |q| && 0 <= k < |m| + 1 + |q| - d0
    ensures var b := Joined(m, q, d0, target);
      && |b| == |m| + 1 + |q| - d0
      && b[k] == if k < |m| then m[k] else if k == |m| then Jump(JMP, 0, target - k) else q[k - (|m| + 1 - d0)]
  {
  }

  // What has been generated and, once aimed, put together.
  ghost predicate Whole(clauses: seq<Clause>, xs: seq<Place>, t0: nat, d0: nat, m: seq<Instr>, q: seq<Instr>, rs: int,
      uses: nat, minReg: int, constants: seq<int>, target: int, es: seq<CaseEntry>, done: seq<nat>, f: seq<Instr>)
  {
    && t0 <= |m| && Assembled(clauses, xs, t0, d0, m, q, rs, uses, minReg, constants)
    && Finished(clauses, xs, m, q, d0, target, es, done, f)
  }

  // An instruction no clause has to aim stays as it was generated.
  lemma WholeKeeps(clauses: seq<Clause>, xs: seq<Place>, t0: nat, d0: nat, m: seq<Instr>, q: seq<Instr>, rs: int,
      uses: nat, minReg: int, constants: seq<int>, target: int, es: seq<CaseEntry>, done: seq<nat>, f: seq<Instr>,
      k: int)
    requires Whole(clauses, xs, t0, d0, m, q, rs, uses, minReg, constants, target, es, done, f)
    requires 0 <= k < |f| && forall j: nat :: j < |es| ==> !Touches(es[j], |m| + 1 - d0, k)
    ensures f[k] == Joined(m, q, d0, target)[k]
  {
    var shift, after := |m| + 1 - d0, |m| + 1 + |q| - d0;
    assert Keeps(Joined(m, q, d0, target), f, es, done, shift, k);
    forall j | j in done && j < |es| ensures !Touches(es[j], shift, k) {}
    assert Spared(es, done, shift, k);
  }

  lemma TestKept(clauses: seq<Clause>, xs: seq<Place>, t0: nat, d0: nat, m: seq<Instr>, q: seq<Instr>, rs: int,
      uses: nat, minReg: int, constants: seq<int>, target: int, es: seq<CaseEntry>, done: seq<nat>, f: seq<Instr>,
      i: nat, k: int)
    requires Whole(clauses, xs, t0, d0, m, q, rs, uses, minReg, constants, target, es, done, f)
    requires i < |clauses| && clauses[i].Case? && xs[i].t <= k < TestAtClause(xs, i + 1, |m|) - 1
    ensures 0 <= k < |f| && k < |m| && f[k] == m[k]
  {
    AssembledBounds(clauses, xs, t0, d0, m, q, rs, uses, minReg, constants, i);
    forall j: nat | j < |es| ensures !Touches(es[j], |m| + 1 - d0, k) {
      AssembledBounds(clauses, xs, t0, d0, m, q, rs, uses, minReg, constants, j);
      if es[j].to == k && j != i { TestsApart(clauses, xs, t0, d0, |m|, |q|, i, j, k); }
    }
    JoinedAt(m, q, d0, target, k);
    WholeKeeps(clauses, xs, t0, d0, m, q, rs, uses, minReg, constants, target, es, done, f, k);
  }

  lemma BodyKept(clauses: seq<Clause>, xs: seq<Place>, t0: nat, d0: nat, m: seq<Instr>, q: seq<Instr>, rs: int,
      uses: nat, minReg: int, constants: seq<int>, target: int, es: seq<CaseEntry>, done: seq<nat>, f: seq<Instr>,
      i: nat, k: int)
    requires Whole(clauses, xs, t0, d0, m, q, rs, uses, minReg, constants, target, es, done, f)
    requires i < |clauses| && clauses[i].body.Some? && xs[i].d <= k < BodyAtClause(xs, i + 1, |q|) - 1
    ensures var shift := |m| + 1 - d0; 0 <= k + shift < |f| && 0 <= k < |q| && f[k + shift] == q[k]
  {
    var shift := |m| + 1 - d0;
    AssembledBounds(clauses, xs, t0, d0, m, q, rs, uses, minReg, constants, i);
    forall j: nat | j < |es| ensures !Touches(es[j], shift, k + shift) {
      AssembledBounds(clauses, xs, t0, d0, m, q, rs, uses, minReg, constants, j);
      if es[j].from == k && j != i { BodiesApart(clauses, xs, t0, d0, |m|, |q|, i, j, k); }
    }
    JoinedAt(m, q, d0, target, k + shift);
    WholeKeeps(clauses, xs, t0, d0, m, q, rs, uses, minReg, constants, target, es, done, f, k + shift);
  }

  lemma JumpsAimed(clauses: seq<Clause>, xs: seq<Place>, t0: nat, d0: nat, m: seq<Instr>, q: seq<Instr>, rs: int,
      uses: nat, minReg: int, constants: seq<int>, target: int, es: seq<CaseEntry>, done: seq<nat>, f: seq<Instr>,
      i: nat)
    requires Whole(clauses, xs, t0, d0, m, q, rs, uses, minReg, constants, target, es, done, f) && i < |clauses|
    ensures var t1, d1, shift := TestAtClause(xs, i + 1, |m|), BodyAtClause(xs, i + 1, |q|), |m| + 1 - d0;
      && |f| == |q| + shift
      && (clauses[i].Case? ==> 0 < t1 <= |f| && f[t1 - 1] == Jump(JT, xs[i].dst % 256, xs[i].d + shift - (t1 - 1)))
      && (clauses[i].body.Some? || clauses[i].Default? ==>
          0 < d1 + shift <= |f| && f[d1 - 1 + shift] == Jump(JMP, 0, |f| - (d1 - 1 + shift)))
  {
    var t1, d1, shift := TestAtClause(xs, i + 1, |m|), BodyAtClause(xs, i + 1, |q|), |m| + 1 - d0;
    AssembledBounds(clauses, xs, t0, d0, m, q, rs, uses, minReg, constants, i);
    assert AssembledAt(clauses, xs, i, m, q, rs, uses, minReg, constants) && i in done;
    assert Aims(Joined(m, q, d0, target), f, es[i], shift, |q| + shift);
    if clauses[i].Case? { JoinedAt(m, q, d0, target, t1 - 1); }
    if es[i].from >= 0 { JoinedAt(m, q, d0, target, d1 - 1 + shift); }
  }

  lemma AloneOk(s: Stmt, a: nat, b: seq<Instr>, minReg: int, constants: seq<int>, p: Program, locals: nat, delta: int,
      brk: int, cont: int)
    requires Correct(s, a, b, minReg, constants, [], []) && Fits(StmtUses(s), minReg, constants, |b| - a, p, locals)
      && Placed(p, delta, b, a)
    ensures StmtOk(s, p, locals, a + delta, |b| + delta, brk, cont)
  {
    assert Settled(b, [], [], brk - delta, cont - delta) == b;
    assert Simulates(s, a, b, minReg, constants, [], [], p, locals, delta, brk - delta, cont - delta);
  }

  lemma {:induction false} ClauseFits(clauses: seq<Clause>, i: nat)
    requires i < |clauses|
    ensures clauses[i].Case? ==> Uses(clauses[i].test) <= ClauseUses(clauses)
    ensures clauses[i].body.Some? ==> StmtUses(clauses[i].body.value) <= ClauseUses(clauses)
  {
    if i > 0 { ClauseFits(clauses[1..], i - 1); }
  }

  lemma TestPlace(clauses: seq<Clause>, xs: seq<Place>, t0: nat, d0: nat, m: seq<Instr>, q: seq<Instr>, rs: int,
      uses: nat, minReg: int, constants: seq<int>, target: int, es: seq<CaseEntry>, done: seq<nat>, f: seq<Instr>,
      i: nat, a: nat, p: Program, locals: nat, delta: int)
    requires Whole(clauses, xs, t0, d0, m, q, rs, uses, minReg, constants, target, es, done, f) && i < |clauses|
      && clauses[i].Case?
    requires a <= t0 && Placed(p, delta, f, a) && Fits(Max(uses, ClauseUses(clauses)), minReg, constants, |f| - a, p,
      locals)
    ensures var x, t1, shift := xs[i], TestAtClause(xs, i + 1, |m|), |m| + 1 - d0;
      && CodeAt(p, x.t + delta, x.seg) && TestSegOk(x.seg, x.dst, rs, clauses[i].test, locals, p.consts, p.arith)
      && t1 == x.t + |x.seg| + 1 && 0 < t1 + delta <= |p.code|
         && p.code[t1 - 1 + delta] == Jump(JT, x.dst, x.d + shift - (t1 - 1))
  {
    var x, t1 := xs[i], TestAtClause(xs, i + 1, |m|);
    AssembledBounds(clauses, xs, t0, d0, m, q, rs, uses, minReg, constants, i);
    assert AssembledAt(clauses, xs, i, m, q, rs, uses, minReg, constants);
    ClauseFits(clauses, i);
    assert ComparesIn(clauses[i].test, x.seg, x.dst, rs, Max(Uses(clauses[i].test), uses), minReg, constants, locals,
      p.consts, p.arith);
    JumpsAimed(clauses, xs, t0, d0, m, q, rs, uses, minReg, constants, target, es, done, f, i);
    forall k | x.t <= k < t1 - 1 ensures k < |f| && f[k] == m[k] {
      TestKept(clauses, xs, t0, d0, m, q, rs, uses, minReg, constants, target, es, done, f, i, k);
    }
    assert f[x.t..t1 - 1] == x.seg;
    SegPlaced(p, delta, f, a, x.t, x.seg);
    assert PlacedAt(p, delta, f, t1 - 1);
  }

  lemma BodyPlace(clauses: seq<Clause>, xs: seq<Place>, t0: nat, d0: nat, m: seq<Instr>, q: seq<Instr>, rs: int,
      uses: nat, minReg: int, constants: seq<int>, target: int, es: seq<CaseEntry>, done: seq<nat>, f: seq<Instr>,
      i: nat, a: nat, p: Program, locals: nat, delta: int, brk: int, cont: int)
    requires Whole(clauses, xs, t0, d0, m, q, rs, uses, minReg, constants, target, es, done, f) && i < |clauses|
      && clauses[i].body.Some?
    requires a <= t0 && Placed(p, delta, f, a) && Fits(Max(uses, ClauseUses(clauses)), minReg, constants, |f| - a, p,
      locals)
    ensures var d1, move := BodyAtClause(xs, i + 1, |q|), |m| + 1 - d0 + delta;
      StmtOk(clauses[i].body.value, p, locals, xs[i].d + move, d1 - 1 + move, brk, cont)
  {
    hide StmtOk, Correct, Finished;
    var x, d1, shift := xs[i], BodyAtClause(xs, i + 1, |q|), |m| + 1 - d0;
    AssembledBounds(clauses, xs, t0, d0, m, q, rs, uses, minReg, constants, i);
    assert AssembledAt(clauses, xs, i, m, q, rs, uses, minReg, constants);
    ClauseFits(clauses, i);
    JumpsAimed(clauses, xs, t0, d0, m, q, rs, uses, minReg, constants, target, es, done, f, i);
    var b, move := q[..d1 - 1], shift + delta;
    forall k | x.d <= k < |b| ensures PlacedAt(p, move, b, k) {
      BodyKept(clauses, xs, t0, d0, m, q, rs, uses, minReg, constants, target, es, done, f, i, k);
      assert PlacedAt(p, delta, f, k + shift);
    }
    AloneOk(clauses[i].body.value, x.d, b, minReg, constants, p, locals, move, brk, cont);
  }

  // Where the clauses are in the program.
  function Placings(xs: seq<Place>, shift: int, delta: int): (ys: seq<Place>)
    ensures |ys| == |xs| && forall i ::
      0 <= i < |xs| ==> ys[i] == Place(xs[i].t + delta, xs[i].seg, xs[i].dst, xs[i].d + shift + delta)
  { seq(|xs|, i requires 0 <= i < |xs| => Place(xs[i].t + delta, xs[i].seg, xs[i].dst, xs[i].d + shift + delta)) }

  lemma TestInPlace(clauses: seq<Clause>, xs: seq<Place>, t0: nat, d0: nat, m: seq<Instr>, q: seq<Instr>, rs: int,
      uses: nat, minReg: int, constants: seq<int>, target: int, es: seq<CaseEntry>, done: seq<nat>, f: seq<Instr>,
      i: nat, a: nat, p: Program, locals: nat, delta: int)
    requires Whole(clauses, xs, t0, d0, m, q, rs, uses, minReg, constants, target, es, done, f) && i < |clauses|
    requires a <= t0 && Placed(p, delta, f, a) && Fits(Max(uses, ClauseUses(clauses)), minReg, constants, |f| - a, p,
      locals)
    ensures |xs| == |clauses|
    ensures TestCode(p, locals, clauses[i], rs, Placings(xs, |m| + 1 - d0, delta)[i],
      TestAtClause(xs, i + 1, |m|) + delta)
  {
    if clauses[i].Case? {
      TestPlace(clauses, xs, t0, d0, m, q, rs, uses, minReg, constants, target, es, done, f, i, a, p, locals, delta);
    } else {
      assert AssembledAt(clauses, xs, i, m, q, rs, uses, minReg, constants);
    }
  }

  lemma BodyInPlace(clauses: seq<Clause>, xs: seq<Place>, t0: nat, d0: nat, m: seq<Instr>, q: seq<Instr>, rs: int,
      uses: nat, minReg: int, constants: seq<int>, target: int, es: seq<CaseEntry>, done: seq<nat>, f: seq<Instr>,
      i: nat, a: nat, p: Program, locals: nat, delta: int, brk: int, cont: int)
    requires Whole(clauses, xs, t0, d0, m, q, rs, uses, minReg, constants, target, es, done, f) && i < |clauses|
    requires a <= t0 && Placed(p, delta, f, a) && Fits(Max(uses, ClauseUses(clauses)), minReg, constants, |f| - a, p,
      locals)
    ensures |xs| == |clauses|
    ensures var shift := |m| + 1 - d0;
      BodyCode(p, locals, clauses[i], Placings(xs, shift, delta)[i], BodyAtClause(xs, i + 1, |q|) + shift + delta,
        |f| + delta, brk, cont)
  {
    hide StmtOk, Correct, CodeIn, Finished, Placings;
    var d1, shift := BodyAtClause(xs, i + 1, |q|), |m| + 1 - d0;
    JumpsAimed(clauses, xs, t0, d0, m, q, rs, uses, minReg, constants, target, es, done, f, i);
    AssembledBounds(clauses, xs, t0, d0, m, q, rs, uses, minReg, constants, i);
    assert AssembledAt(clauses, xs, i, m, q, rs, uses, minReg, constants);
    if clauses[i].body.Some? {
      BodyPlace(clauses, xs, t0, d0, m, q, rs, uses, minReg, constants, target, es, done, f, i, a, p, locals, delta,
        brk, cont);
      assert PlacedAt(p, delta, f, d1 - 1 + shift);
    } else if clauses[i].Default? {
      assert PlacedAt(p, delta, f, d1 - 1 + shift);
    }
  }

  lemma ClausePlaced(clauses: seq<Clause>, xs: seq<Place>, t0: nat, d0: nat, m: seq<Instr>, q: seq<Instr>, rs: int,
      uses: nat, minReg: int, constants: seq<int>, target: int, es: seq<CaseEntry>, done: seq<nat>, f: seq<Instr>,
      i: nat, a: nat, p: Program, locals: nat, delta: int, brk: int, cont: int)
    requires Whole(clauses, xs, t0, d0, m, q, rs, uses, minReg, constants, target, es, done, f) && i < |clauses|
    requires a <= t0 && Placed(p, delta, f, a) && Fits(Max(uses, ClauseUses(clauses)), minReg, constants, |f| - a, p,
      locals)
    ensures |xs| == |clauses| && ClauseAt(p, locals, clauses, rs, Placings(xs, |m| + 1 - d0, delta), i, |m| + delta,
      |f| + delta, brk, cont)
  {
    hide TestCode, BodyCode, Whole, Placed;
    var ys := Placings(xs, |m| + 1 - d0, delta);
    TestInPlace(clauses, xs, t0, d0, m, q, rs, uses, minReg, constants, target, es, done, f, i, a, p, locals, delta);
    BodyInPlace(clauses, xs, t0, d0, m, q, rs, uses, minReg, constants, target, es, done, f, i, a, p, locals, delta,
      brk, cont);
    JumpsAimed(clauses, xs, t0, d0, m, q, rs, uses, minReg, constants, target, es, done, f, i);
    assert TestAtClause(ys, i + 1, |m| + delta) == TestAtClause(xs, i + 1, |m|) + delta;
    assert BodyAtClause(ys, i + 1, |f| + delta) == BodyAtClause(xs, i + 1, |q|) + |m| + 1 - d0 + delta;
  }

  // The jump after the tests leads to the default, or past the switch.
  function DefaultTarget(clauses: seq<Clause>, xs: seq<Place>, d0: int, m: seq<Instr>, q: seq<Instr>): int
    requires |xs| == |clauses|
  { BodyAtClause(xs, DefaultAt(clauses, 0), |q|) + |m| + 1 - d0 }

  lemma EndJumpKept(clauses: seq<Clause>, xs: seq<Place>, t0: nat, d0: nat, m: seq<Instr>, q: seq<Instr>, rs: int,
      uses: nat, minReg: int, constants: seq<int>, target: int, es: seq<CaseEntry>, done: seq<nat>, f: seq<Instr>)
    requires Whole(clauses, xs, t0, d0, m, q, rs, uses, minReg, constants, target, es, done, f)
    ensures |m| < |f| == |m| + 1 + |q| - d0 && f[|m|] == Jump(JMP, 0, target - |m|)
  {
    var shift := |m| + 1 - d0;
    JoinedAt(m, q, d0, target, |m|);
    forall j: nat | j < |es| ensures !Touches(es[j], shift, |m|) {
      AssembledBounds(clauses, xs, t0, d0, m, q, rs, uses, minReg, constants, j);
    }
    WholeKeeps(clauses, xs, t0, d0, m, q, rs, uses, minReg, constants, target, es, done, f, |m|);
  }

  lemma SwitchInPlace(selector: Expr, clauses: seq<Clause>, xs: seq<Place>, t0: nat, d0: nat, m: seq<Instr>,
      q: seq<Instr>, rs: int, minReg: int, constants: seq<int>, es: seq<CaseEntry>, done: seq<nat>, f: seq<Instr>,
      a: nat, p: Program, locals: nat, delta: int, brk: int, cont: int)
    requires |xs| == |clauses|
    requires Whole(clauses, xs, t0, d0, m, q, rs, Uses(selector), minReg, constants,
      DefaultTarget(clauses, xs, d0, m, q), es, done, f)
    requires a <= t0 && t0 <= |m| && Placed(p, delta, f, a) && f[a..t0] == m[a..t0]
    requires Fits(StmtUses(Switch(selector, clauses)), minReg, constants, |f| - a, p, locals)
    requires SegOk(m[a..t0], rs, selector, locals, p.consts, p.arith)
    ensures StmtOk(Switch(selector, clauses), p, locals, a + delta, |f| + delta, brk, cont)
  {
    hide ClauseAt, SegOk, StmtOk;
    var target := DefaultTarget(clauses, xs, d0, m, q);
    var ys, e, end := Placings(xs, |m| + 1 - d0, delta), |m| + delta, |f| + delta;
    EndJumpKept(clauses, xs, t0, d0, m, q, rs, Uses(selector), minReg, constants, target, es, done, f);
    forall i: nat | i < |clauses| ensures ClauseAt(p, locals, clauses, rs, ys, i, e, end, brk, cont) {
      ClausePlaced(clauses, xs, t0, d0, m, q, rs, Uses(selector), minReg, constants, target, es, done, f, i, a, p,
        locals, delta, brk, cont);
    }
    assert PlacedAt(p, delta, f, |m|);
    SegPlaced(p, delta, f, a, a, m[a..t0]);
    SwitchOk(p, locals, selector, clauses, m[a..t0], rs, ys, a + delta, e, end, brk, cont);
  }

  // What comes before the tests.
  lemma FrontKept(clauses: seq<Clause>, xs: seq<Place>, t0: nat, d0: nat, m: seq<Instr>, q: seq<Instr>, rs: int,
      uses: nat, minReg: int, constants: seq<int>, target: int, es: seq<CaseEntry>, done: seq<nat>, f: seq<Instr>)
    requires Whole(clauses, xs, t0, d0, m, q, rs, uses, minReg, constants, target, es, done, f)
    ensures t0 <= |m| < |f| && f[..t0] == m[..t0]
  {
    var shift := |m| + 1 - d0;
    JoinedAt(m, q, d0, target, 0);
    forall k | 0 <= k < t0 ensures f[k] == m[k] {
      JoinedAt(m, q, d0, target, k);
      forall j: nat | j < |es| ensures !Touches(es[j], shift, k) {
        AssembledBounds(clauses, xs, t0, d0, m, q, rs, uses, minReg, constants, j);
      }
      WholeKeeps(clauses, xs, t0, d0, m, q, rs, uses, minReg, constants, target, es, done, f, k);
    }
  }

  lemma WholeNoEnds(clauses: seq<Clause>, xs: seq<Place>, t0: nat, d0: nat, m: seq<Instr>, q: seq<Instr>, rs: int,
      uses: nat, minReg: int, constants: seq<int>, target: int, es: seq<CaseEntry>, done: seq<nat>, f: seq<Instr>,
      a: nat)
    requires Whole(clauses, xs, t0, d0, m, q, rs, uses, minReg, constants, target, es, done, f) && NoEnds(m, a)
      && NoEnds(q, d0)
    ensures NoEnds(f, a)
  {
    var b, shift := Joined(m, q, d0, target), |m| + 1 - d0;
    forall k | a <= k < |f| ensures !f[k].End? {
      JoinedAt(m, q, d0, target, k);
      if j: nat :| j < |es| && Touches(es[j], shift, k) {
        assert j in done && Aims(b, f, es[j], shift, |q| + shift);
        AssembledBounds(clauses, xs, t0, d0, m, q, rs, uses, minReg, constants, j);
      } else {
        WholeKeeps(clauses, xs, t0, d0, m, q, rs, uses, minReg, constants, target, es, done, f, k);
      }
    }
  }

  lemma WholeIn(clauses: seq<Clause>, xs: seq<Place>, t0: nat, d0: nat, m: seq<Instr>, q: seq<Instr>, rs: int,
      uses: nat, minReg: int, constants: seq<int>, target: int, es: seq<CaseEntry>, done: seq<nat>, f: seq<Instr>,
      locals: nat)
    requires Whole(clauses, xs, t0, d0, m, q, rs, uses, minReg, constants, target, es, done, f)
    requires CodeIn(m, locals, minReg) && CodeIn(q, locals, minReg)
    ensures CodeIn(f, locals, minReg)
  {
    var b, shift := Joined(m, q, d0, target), |m| + 1 - d0;
    forall k | 0 <= k < |f| ensures InstrIn(f, k, locals, minReg) {
      JoinedAt(m, q, d0, target, k);
      if k < |m| { assert InstrIn(m, k, locals, minReg); }
      if k > |m| { assert InstrIn(q, k - shift, locals, minReg); }
      if j: nat :| j < |es| && Touches(es[j], shift, k) {
        assert j in done && Aims(b, f, es[j], shift, |q| + shift);
        AssembledBounds(clauses, xs, t0, d0, m, q, rs, uses, minReg, constants, j);
        assert AssembledAt(clauses, xs, j, m, q, rs, uses, minReg, constants);
      } else {
        WholeKeeps(clauses, xs, t0, d0, m, q, rs, uses, minReg, constants, target, es, done, f, k);
      }
    }
  }

  lemma SwitchCorrect(selector: Expr, clauses: seq<Clause>, xs: seq<Place>, t0: nat, d0: nat, m: seq<Instr>,
      q: seq<Instr>, rs: int, minReg: int, constants: seq<int>, es: seq<CaseEntry>, done: seq<nat>, f: seq<Instr>,
      a: nat)
    requires |xs| == |clauses| && a <= t0 <= |m|
    requires Whole(clauses, xs, t0, d0, m, q, rs, Uses(selector), minReg, constants,
      DefaultTarget(clauses, xs, d0, m, q), es, done, f)
    requires Evaluates(selector, m[a..t0], rs, minReg, constants)
    ensures Correct(Switch(selector, clauses), a, f, minReg, constants, [], [])
  {
    var s := Switch(selector, clauses);
    FrontKept(clauses, xs, t0, d0, m, q, rs, Uses(selector), minReg, constants, DefaultTarget(clauses, xs, d0, m, q),
      es, done, f);
    assert f[a..t0] == f[..t0][a..] == m[..t0][a..] == m[a..t0];
    forall p, locals: nat, delta, brk, cont ensures InPlace(s, a, f, minReg, constants, p, locals, delta, brk, cont) {
      if Fits(StmtUses(s), minReg, constants, |f| - a, p, locals) && Placed(p, delta, f, a) {
        assert EvaluatesIn(selector, m[a..t0], rs, minReg, constants, locals, p.consts, p.arith);
        SwitchInPlace(selector, clauses, xs, t0, d0, m, q, rs, minReg, constants, es, done, f, a, p, locals, delta, brk,
          cont);
      }
    }
    AloneCorrect(s, a, f, minReg, constants);
  }

  // q' has more code in both buffers and nothing else but new constants and registers in use.
  ghost predicate Steady(q: State, q': State)
  {
    && q' == q.(code := q'.code, deferredCode := q'.deferredCode, minReg := q'.minReg, constants := q'.constants)
    && !q.deferred && q.code <= q'.code && q.deferredCode <= q'.deferredCode && q.constants <= q'.constants
    && q'.minReg <= q.minReg && Balanced(q) && Balanced(q')
    && NoEnds(q'.code, |q.code|) && NoEnds(q'.deferredCode, |q.deferredCode|)
  }

  // A switch statement that started in p0, after the selector up to t0 and the clauses so far.
  ghost predicate Underway(p0: State, q: State, selector: Expr, rs: int, t0: nat, clauses: seq<Clause>, xs: seq<Place>)
  {
    && !p0.deferred && !q.deferred && q.nerrors == p0.nerrors && q.locals == p0.locals
       && q.blocks == p0.blocks + [|p0.deferredCode|]
    && p0.code <= q.code && p0.deferredCode <= q.deferredCode && p0.constants <= q.constants && q.minReg <= p0.minReg
    && Balanced(p0) && Balanced(q) && NoEnds(q.code, |p0.code|) && NoEnds(q.deferredCode, |p0.deferredCode|)
    && |q.stack| == |p0.stack| + 1 && q.stack[..|p0.stack|] == p0.stack && q.stack[|p0.stack|].reg == rs
       && OutOfReach(rs, selector, q.nextReg)
    && Room(p0, q, Then(ExprNeed(selector), ClausesNeed(clauses)))
    && |p0.code| <= t0 <= |q.code| && Evaluates(selector, q.code[|p0.code|..t0], rs, q.minReg, q.constants)
    && Assembled(clauses, xs, t0, |p0.deferredCode|, q.code, q.deferredCode, rs, Uses(selector), q.minReg, q.constants)
  }

  lemma StartRoom(p0: State, p1: State, selector: Expr)
    requires Room(p0, p1, ExprNeed(selector))
    ensures Room(p0, p1.(blocks := p1.blocks + [|p1.deferredCode|]), Then(ExprNeed(selector), ClausesNeed([])))
  {
    assert ClausesNeed([]) == NOTHING;
    hide Room, Then, ExprNeed, ClausesNeed;
    RoomNothing(p0, p1, p1.(blocks := p1.blocks + [|p1.deferredCode|]), ExprNeed(selector));
  }

  lemma UnderwayStart(p0: State, p1: State, selector: Expr)
    requires ExprDone(p0, p1, selector) && !p0.deferred
    ensures Underway(p0, p1.(blocks := p1.blocks + [|p1.deferredCode|]), selector, p1.stack[|p0.stack|].reg, |p1.code|,
      [], [])
  {
    hide Room, ExprNeed, ClausesNeed, Then, Registers, CodeIn, StackIn, CodeComputes;
    StartRoom(p0, p1, selector);
    ExprEvaluates(p0, p1, selector);
    OperandAbove(p0, p1, selector);
    assert p1.code[|p0.code|..|p1.code|] == NewCode(p0, p1);
    forall k | |p0.code| <= k < |p1.code| ensures !p1.code[k].End? {
      assert p1.code[k] == NewCode(p0, p1)[k - |p0.code|];
    }
  }

  lemma SteadyTwice(q: State, q1: State, q2: State)
    requires Steady(q, q1) && Steady(q1, q2)
    ensures Steady(q, q2)
  {
    forall k | |q.code| <= k < |q2.code| ensures !q2.code[k].End? {
      if k < |q1.code| { assert q2.code[k] == q1.code[k]; }
    }
    forall k | |q.deferredCode| <= k < |q2.deferredCode| ensures !q2.deferredCode[k].End? {
      if k < |q1.deferredCode| { assert q2.deferredCode[k] == q1.deferredCode[k]; }
    }
  }

  lemma UnderwayRoom(p0: State, q: State, q': State, selector: Expr, clauses: seq<Clause>, c: Clause)
    requires Room(p0, q, Then(ExprNeed(selector), ClausesNeed(clauses)))
      && Room(q, q', Then(CaseNeed(c), BodyNeed(c)))
    ensures Room(p0, q', Then(ExprNeed(selector), ClausesNeed(clauses + [c])))
  {
    hide Room, Then;
    var e, m, t, b := ExprNeed(selector), ClausesNeed(clauses), CaseNeed(c), BodyNeed(c);
    assert (clauses + [c])[..|clauses|] == clauses;
    RoomThen(p0, q, q', Then(e, m), Then(t, b));
    ThenTwice(e, m, Then(t, b));
    ThenTwice(m, t, b);
  }

  lemma UnderwayMore(p0: State, q: State, q': State, selector: Expr, rs: int, t0: nat, clauses: seq<Clause>,
      xs: seq<Place>, c: Clause, x: Place)
    requires Underway(p0, q, selector, rs, t0, clauses, xs) && Steady(q, q') && x.t == |q.code|
      && x.d == |q.deferredCode| && Room(q, q', Then(CaseNeed(c), BodyNeed(c)))
    requires if c.Case? then TestBuilt(c.test, x, |q'.code|, q'.code, rs, Uses(selector), q'.minReg, q'.constants)
      else q'.code == q.code
    requires BodyBuilt(c, x, |q'.deferredCode|, q'.deferredCode, q'.minReg, q'.constants)
    ensures Underway(p0, q', selector, rs, t0, clauses + [c], xs + [x])
  {
    hide Room, ExprNeed, ClausesNeed, CaseNeed, BodyNeed, Then;
    UnderwayRoom(p0, q, q', selector, clauses, c);
    AssembledMore(clauses, xs, t0, |p0.deferredCode|, q.code, q.deferredCode, rs, Uses(selector), q.minReg, q.constants,
      c, x, q'.code, q'.deferredCode, q'.minReg, q'.constants);
    EvaluatesMore(selector, q.code[|p0.code|..t0], rs, q.minReg, q.constants, q'.minReg, q'.constants);
    assert q'.code[|p0.code|..t0] == q.code[|p0.code|..t0];
    forall k | |p0.code| <= k < |q'.code| ensures !q'.code[k].End? {
      if k < |q.code| { assert q'.code[k] == q.code[k]; }
    }
    forall k | |p0.deferredCode| <= k < |q'.deferredCode| ensures !q'.deferredCode[k].End? {
      if k < |q.deferredCode| { assert q'.deferredCode[k] == q.deferredCode[k]; }
    }
  }

  // The whole switch: its statements moved behind its tests, its jumps aimed and its selector off the parse stack.
  function Switched(p0: State, q: State, f: seq<Instr>): State
    requires q.stack != []
  { Popped(q.(code := f, deferredCode := p0.deferredCode, blocks := p0.blocks)) }

  lemma SwitchedKept(p0: State, q: State, selector: Expr, rs: int, t0: nat, clauses: seq<Clause>, xs: seq<Place>,
      f: seq<Instr>)
    requires Underway(p0, q, selector, rs, t0, clauses, xs) && p0.code <= f && NoEnds(f, |p0.code|)
      && CodeIn(f, q.locals, q.minReg)
    ensures Kept(p0, Switched(p0, q, f))
  {
    hide Room, Assembled, Evaluates, Registers, CodeIn, StackIn, ExprNeed, ClausesNeed;
    StackInPrefix(q.stack, |p0.stack|, q.locals, q.minReg);
    CodeInMore(p0.deferredCode, p0.locals, p0.minReg, q.minReg);
    assert q.stack == p0.stack + [q.stack[|p0.stack|]];
    RegistersPush(p0.stack, q.stack[|p0.stack|]);
  }

  lemma SwitchedRoom(p0: State, q: State, selector: Expr, rs: int, t0: nat, clauses: seq<Clause>, xs: seq<Place>,
      f: seq<Instr>)
    requires Underway(p0, q, selector, rs, t0, clauses, xs) && Kept(p0, Switched(p0, q, f))
    ensures Room(p0, Switched(p0, q, f), StmtNeed(Switch(selector, clauses)))
  {
    hide Room, Then, Assembled, Evaluates, Tidy, Freed;
    RoomFreed(p0, q, Switched(p0, q, f), Then(ExprNeed(selector), ClausesNeed(clauses)));
  }

  lemma SwitchDone(p0: State, q: State, selector: Expr, rs: int, t0: nat, clauses: seq<Clause>, xs: seq<Place>,
      es: seq<CaseEntry>, done: seq<nat>, f: seq<Instr>)
    requires Underway(p0, q, selector, rs, t0, clauses, xs) && |xs| == |clauses|
    requires Finished(clauses, xs, q.code, q.deferredCode, |p0.deferredCode|,
      DefaultTarget(clauses, xs, |p0.deferredCode|, q.code, q.deferredCode), es, done, f)
    ensures StmtDone(Switch(selector, clauses), p0, Switched(p0, q, f), [], [])
  {
    hide Room, StmtNeed, ExprNeed, ClausesNeed, Then;
    var d0, m, b := |p0.deferredCode|, q.code, q.deferredCode;
    var target := DefaultTarget(clauses, xs, d0, m, b);
    FrontKept(clauses, xs, t0, d0, m, b, rs, Uses(selector), q.minReg, q.constants, target, es, done, f);
    WholeNoEnds(clauses, xs, t0, d0, m, b, rs, Uses(selector), q.minReg, q.constants, target, es, done, f, |p0.code|);
    WholeIn(clauses, xs, t0, d0, m, b, rs, Uses(selector), q.minReg, q.constants, target, es, done, f, q.locals);
    assert p0.code <= f by { assert f[..|p0.code|] == f[..t0][..|p0.code|] == m[..|p0.code|]; }
    SwitchedKept(p0, q, selector, rs, t0, clauses, xs, f);
    SwitchedRoom(p0, q, selector, rs, t0, clauses, xs, f);
    SwitchCorrect(selector, clauses, xs, t0, d0, m, b, rs, q.minReg, q.constants, es, done, f, |p0.code|);
  }
}
