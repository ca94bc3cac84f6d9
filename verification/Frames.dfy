/** Calls and returns of the virtual machine (ExecutionUnit.cpp, the Stack of Containers.h), without events. */
module Frames {
  import opened Wrappers
  import opened Values

  datatype Function = Function(id: nat, formalParamCount: nat, localSize: nat)

  datatype CallRecord = CallRecord(pc: nat, frame: nat, func: Function, thisObj: nat, paramCount: nat, lineno: nat)

  // What a return has to bring back.
  datatype Context = Context(pc: nat, frame: nat, func: Function, thisObj: nat, actualParamCount: nat,
    formalParamCount: nat, localOffset: nat, lineno: nat, stack: seq<Value>)

  // The extra room for actual parameters that have no formal ones.
  function LocalOffset(f: Function, actual: nat): nat { Max(f.formalParamCount, actual) - f.formalParamCount }

  function FrameSize(f: Function, actual: nat): nat { f.localSize + LocalOffset(f, actual) }

  // A function has a slot for each of its parameters.
  predicate WellMade(f: Function) { f.formalParamCount <= f.localSize }

  ghost predicate Running(c: Context)
  {
    && WellMade(c.func) && c.formalParamCount == c.func.formalParamCount
       && c.localOffset == LocalOffset(c.func, c.actualParamCount)
    && c.frame + FrameSize(c.func, c.actualParamCount) <= |c.stack|
  }

  ghost function Above(waiting: seq<Context>, now: Context, i: nat): Context
  { if i + 1 < |waiting| then waiting[i + 1] else now }

  // A call in progress can return: its record says where to, and what the caller had on the stack is still below the
  // next frame.
  ghost predicate Recorded(waiting: seq<Context>, records: seq<CallRecord>, now: Context, i: nat)
    requires i < |waiting| == |records|
  {
    var c, above := waiting[i], Above(waiting, now, i);
    && records[i] == CallRecord(c.pc, c.frame, c.func, c.thisObj, c.actualParamCount, c.lineno)
    && Running(c) && |c.stack| == above.frame && above.frame <= |above.stack| && above.stack[..above.frame] == c.stack
  }

  ghost predicate Calls(waiting: seq<Context>, records: seq<CallRecord>, now: Context)
  {
    && Running(now) && |waiting| == |records|
    && forall i: nat {:trigger Recorded(waiting, records, now, i)} ::
       i < |waiting| ==> Recorded(waiting, records, now, i)
  }

  // The running function does what it likes above its frame.
  lemma Undisturbed(waiting: seq<Context>, records: seq<CallRecord>, now: Context, now': Context)
    requires Calls(waiting, records, now) && Running(now') && now'.frame == now.frame
      && now'.stack[..now.frame] == now.stack[..now.frame]
    ensures Calls(waiting, records, now')
  {
    forall i: nat | i < |waiting| ensures Recorded(waiting, records, now', i) {
      assert Recorded(waiting, records, now, i);
    }
  }

  lemma CallRecorded(waiting: seq<Context>, records: seq<CallRecord>, now: Context, c: Context, now': Context)
    requires Calls(waiting, records, now) && Running(c) && Running(now') && c.frame == now.frame && c.stack <= now.stack
    requires now'.frame == |c.stack| && now'.stack[..now'.frame] == c.stack
    ensures Calls(waiting + [c], records + [CallRecord(c.pc, c.frame, c.func, c.thisObj, c.actualParamCount, c.lineno)],
      now')
  {
    var w, r := waiting + [c], records + [CallRecord(c.pc, c.frame, c.func, c.thisObj, c.actualParamCount, c.lineno)];
    forall i: nat | i < |w| ensures Recorded(w, r, now', i) {
      if i < |waiting| { assert Recorded(waiting, records, now, i); }
    }
  }

  lemma CallReturns(waiting: seq<Context>, records: seq<CallRecord>, now: Context, v: Value)
    requires Calls(waiting, records, now) && waiting != []
    ensures var last := |waiting| - 1;
      var c := waiting[last];
      && Recorded(waiting, records, now, last)
      && Calls(waiting[..last], records[..last], c.(stack := c.stack + [v]))
  {
    var last := |waiting| - 1;
    assert Recorded(waiting, records, now, last);
    var c := waiting[last];
    var now' := c.(stack := c.stack + [v]);
    forall i: nat | i < last ensures Recorded(waiting[..last], records[..last], now', i) {
      assert Recorded(waiting, records, now, i);
    }
  }

  datatype Operand = Register(r: nat) | Constant(v: Value)

  // Instructions in the order in which they run. A call holds what runs until it returns with count values.
  datatype Instruction =
    | Pushing(x: Operand)
    | Popping(r: nat)
    | Moving(r: nat, x: Operand)
    | Calling(f: Function, thisObject: nat, nparams: nat, body: seq<Instruction>, count: nat)

  predicate OperandOk(x: Operand, f: Function) { x.Register? ==> x.r < f.localSize }

  function Effect(i: Instruction, f: Function, height: int): int
    decreases i, 0
  {
    match i
    case Pushing(x) => if OperandOk(x, f) then height + 1 else -1
    case Popping(r) => if r < f.localSize then height - 1 else -1
    case Moving(r, x) => if r < f.localSize && OperandOk(x, f) then height else -1
    case Calling(g, _, nparams, body, count) =>
      if WellMade(g) && nparams <= height && Height(body, g, 0) == count then height - nparams + 1 else -1
  }

  // How many values a run of f leaves on the stack above its frame, or -1 if it is not balanced.
  function Height(code: seq<Instruction>, f: Function, height: int): int
    decreases code, 0
  {
    if height < 0 || code == [] then height else Height(code[1..], f, Effect(code[0], f, height))
  }

  // A call as the language sees it: registers of its own, and the values it has pushed.
  datatype Activation = Activation(regs: seq<Value>, pushed: seq<Value>)

  // The registers of a function at its start. Missing parameters and all other locals are null.
  function Entered(f: Function, args: seq<Value>): (regs: seq<Value>)
    ensures |regs| == f.localSize
  {
    seq(f.localSize, r requires 0 <= r < f.localSize => if r < |args| && r < f.formalParamCount then args[r] else Null)
  }

  function Operated(a: Activation, x: Operand): Value
    requires x.Register? ==> x.r < |a.regs|
  { match x case Register(r) => a.regs[r] case Constant(v) => v }

  function Returned(a: Activation, count: nat): Value
    requires count <= |a.pushed|
  { if count > 0 then a.pushed[|a.pushed| - count] else Null }

  function Popped(a: Activation, r: nat): Activation
    requires a.pushed != [] && r < |a.regs|
  { Activation(a.regs[r := a.pushed[|a.pushed| - 1]], a.pushed[..|a.pushed| - 1]) }

  function Stepped(a: Activation, i: Instruction, f: Function): (b: Activation)
    requires |a.regs| == f.localSize && Effect(i, f, |a.pushed|) >= 0
    ensures |b.regs| == f.localSize && |b.pushed| == Effect(i, f, |a.pushed|)
    decreases i, 0
  {
    match i
    case Pushing(x) => a.(pushed := a.pushed + [Operated(a, x)])
    case Popping(r) => Popped(a, r)
    case Moving(r, x) => a.(regs := a.regs[r := Operated(a, x)])
    case Calling(g, _, nparams, body, count) =>
      var rest := |a.pushed| - nparams;
      var end := Performed(Activation(Entered(g, a.pushed[rest..]), []), body, g);
      a.(pushed := a.pushed[..rest] + [Returned(end, count)])
  }

  function Performed(a: Activation, code: seq<Instruction>, f: Function): (b: Activation)
    requires |a.regs| == f.localSize && Height(code, f, |a.pushed|) >= 0
    ensures |b.regs| == f.localSize && |b.pushed| == Height(code, f, |a.pushed|)
    decreases code, 0
  {
    if code == [] then a
    else
      NotFailed(code, f, |a.pushed|);
      Performed(Stepped(a, code[0], f), code[1..], f)
  }

  // A function that returns a constant.
  lemma ReturnsConstant(f: Function, args: seq<Value>, v: Value)
    ensures var body := [Pushing(Constant(v))];
      Height(body, f, 0) == 1 && Returned(Performed(Activation(Entered(f, args), []), body, f), 1) == v
  {
    OneInstruction(Activation(Entered(f, args), []), Pushing(Constant(v)), f);
  }

  // A function that returns one of its registers: the argument there, or null for a missing one and for other locals.
  lemma ReturnsRegister(f: Function, args: seq<Value>, r: nat)
    requires r < f.localSize
    ensures var body := [Pushing(Register(r))];
      && Height(body, f, 0) == 1
      && Returned(Performed(Activation(Entered(f, args), []), body, f), 1) ==
         if r < f.formalParamCount && r < |args| then args[r] else Null
  {
    OneInstruction(Activation(Entered(f, args), []), Pushing(Register(r)), f);
  }

  // The arguments are the last n values pushed, the one pushed first being the first parameter. The call puts the value
  // returned in their place.
  lemma CallPicks(a: Activation, n: nat, f: Function, thisObject: nat, r: nat, g: Function)
    requires |a.regs| == g.localSize && n <= |a.pushed| && WellMade(f) && r < n && r < f.formalParamCount
    ensures var code := [Calling(f, thisObject, n, [Pushing(Register(r))], 1)];
      && Height(code, g, |a.pushed|) == |a.pushed| - n + 1
      && Performed(a, code, g) == a.(pushed := a.pushed[..|a.pushed| - n] + [a.pushed[|a.pushed| - n + r]])
  {
    ReturnsRegister(f, a.pushed[|a.pushed| - n..], r);
    OneInstruction(a, Calling(f, thisObject, n, [Pushing(Register(r))], 1), g);
  }

  // Pushing adds a value, popping and moving set one register.
  lemma Pushes(a: Activation, s: nat, v: Value, f: Function)
    requires |a.regs| == f.localSize && s < f.localSize
    ensures Height([Pushing(Constant(v))], f, |a.pushed|) >= 0 && Height([Pushing(Register(s))], f, |a.pushed|) >= 0
    ensures Performed(a, [Pushing(Constant(v))], f) == a.(pushed := a.pushed + [v])
    ensures Performed(a, [Pushing(Register(s))], f) == a.(pushed := a.pushed + [a.regs[s]])
  {
    OneInstruction(a, Pushing(Constant(v)), f);
    OneInstruction(a, Pushing(Register(s)), f);
  }

  lemma Moves(a: Activation, r: nat, s: nat, v: Value, f: Function)
    requires |a.regs| == f.localSize && r < f.localSize && s < f.localSize
    ensures Height([Moving(r, Constant(v))], f, |a.pushed|) >= 0 && Height([Moving(r, Register(s))], f, |a.pushed|) >= 0
    ensures Performed(a, [Moving(r, Constant(v))], f) == a.(regs := a.regs[r := v])
    ensures Performed(a, [Moving(r, Register(s))], f) == a.(regs := a.regs[r := a.regs[s]])
  {
    OneInstruction(a, Moving(r, Constant(v)), f);
    OneInstruction(a, Moving(r, Register(s)), f);
  }

  lemma Pops(a: Activation, r: nat, f: Function)
    requires |a.regs| == f.localSize && r < f.localSize && a.pushed != []
    ensures Height([Popping(r)], f, |a.pushed|) >= 0
    ensures var n := |a.pushed| - 1;
      Performed(a, [Popping(r)], f) == Activation(a.regs[r := a.pushed[n]], a.pushed[..n])
  {
    OneInstruction(a, Popping(r), f);
  }

  lemma OneInstruction(a: Activation, i: Instruction, f: Function)
    requires |a.regs| == f.localSize && Effect(i, f, |a.pushed|) >= 0
    ensures Height([i], f, |a.pushed|) == Effect(i, f, |a.pushed|) && Performed(a, [i], f) == Stepped(a, i, f)
  {
    assert [i][1..] == [];
    assert Height([i][1..], f, Effect(i, f, |a.pushed|)) == Effect(i, f, |a.pushed|);
  }

  lemma PerformedMore(a: Activation, code: seq<Instruction>, f: Function)
    requires |a.regs| == f.localSize && code != [] && Height(code, f, |a.pushed|) >= 0
    ensures Effect(code[0], f, |a.pushed|) >= 0 && Height(code[1..], f, Effect(code[0], f, |a.pushed|)) >= 0
    ensures Performed(a, code, f) == Performed(Stepped(a, code[0], f), code[1..], f)
  {
    NotFailed(code, f, |a.pushed|);
  }

  // What is balanced in the end has been balanced all along.
  lemma NotFailed(code: seq<Instruction>, f: Function, height: nat)
    requires code != [] && Height(code, f, height) >= 0
    ensures Effect(code[0], f, height) >= 0
  {}

  // The slot of register r.
  function SlotOf(c: Context, r: nat): nat { c.frame + r + (if r >= c.formalParamCount then c.localOffset else 0) }

  // The running function's registers and what it has pushed.
  ghost function View(c: Context): (a: Activation)
    requires Running(c)
    ensures |a.regs| == c.func.localSize && |a.pushed| == |c.stack| - c.frame - FrameSize(c.func, c.actualParamCount)
  {
    Activation(seq(c.func.localSize, r requires 0 <= r < c.func.localSize => c.stack[SlotOf(c, r)]),
      c.stack[c.frame + FrameSize(c.func, c.actualParamCount)..])
  }

  lemma ViewPushed(c: Context, v: Value)
    requires Running(c)
    ensures Running(c.(stack := c.stack + [v]))
    ensures View(c.(stack := c.stack + [v])) == View(c).(pushed := View(c).pushed + [v])
  {}

  lemma ViewSet(c: Context, r: nat, v: Value)
    requires Running(c) && r < c.func.localSize
    ensures View(c.(stack := c.stack[SlotOf(c, r) := v])) == View(c).(regs := View(c).regs[r := v])
  {}

  // A register of the running function is written.
  lemma SetKept(waiting: seq<Context>, records: seq<CallRecord>, c: Context, r: nat, v: Value)
    requires Calls(waiting, records, c) && r < c.func.localSize
    ensures c.frame <= SlotOf(c, r) < |c.stack|
    ensures var d := c.(stack := c.stack[SlotOf(c, r) := v]);
      && Running(c) && Running(d) && Calls(waiting, records, d) && d.stack[..d.frame] == c.stack[..c.frame]
      && View(d) == View(c).(regs := View(c).regs[r := v])
  {
    ViewSet(c, r, v);
    Undisturbed(waiting, records, c, c.(stack := c.stack[SlotOf(c, r) := v]));
  }

  lemma ViewEntered(c: Context, f: Function, args: seq<Value>)
    requires Running(c) && c.func == f && |View(c).pushed| == 0
    requires forall r: nat :: r < f.localSize ==>
      c.stack[SlotOf(c, r)] == if r < |args| && r < f.formalParamCount then args[r] else Null
    ensures View(c) == Activation(Entered(f, args), [])
  {}

  lemma ViewSame(c: Context, d: Context)
    requires Running(c) && d == c.(pc := d.pc, thisObj := d.thisObj)
    ensures Running(d) && View(d) == View(c)
  {}

  // A value takes the place of n others.
  lemma ViewReplaced(c: Context, n: nat, v: Value)
    requires Running(c) && n <= |View(c).pushed|
    ensures Running(c.(stack := c.stack[..|c.stack| - n] + [v]))
    ensures View(c.(stack := c.stack[..|c.stack| - n] + [v])) ==
      View(c).(pushed := View(c).pushed[..|View(c).pushed| - n] + [v])
  {
    hide View, Running;
    ViewPopped(c, n);
    ViewPushed(c.(stack := c.stack[..|c.stack| - n]), v);
  }

  // n values are taken off the stack.
  lemma ViewPopped(c: Context, n: nat)
    requires Running(c) && n <= |View(c).pushed|
    ensures n <= |c.stack| && Running(c.(stack := c.stack[..|c.stack| - n]))
    ensures View(c.(stack := c.stack[..|c.stack| - n])) == View(c).(pushed := View(c).pushed[..|View(c).pushed| - n])
  {}

  // The last n values pushed are the top of the stack.
  lemma ViewTop(c: Context, n: nat)
    requires Running(c) && n <= |View(c).pushed|
    ensures n <= |c.stack| && View(c).pushed[|View(c).pushed| - n..] == c.stack[|c.stack| - n..]
    ensures n > 0 ==> View(c).pushed[|View(c).pushed| - n] == c.stack[|c.stack| - n]
  {}

  // The value on top goes.
  lemma PopKept(waiting: seq<Context>, records: seq<CallRecord>, c: Context, r: nat)
    requires Calls(waiting, records, c) && c.frame + FrameSize(c.func, c.actualParamCount) < |c.stack|
      && r < c.func.localSize
    ensures var d := c.(stack := c.stack[..|c.stack| - 1]);
      && Running(c) && Running(d) && Calls(waiting, records, d) && d.stack[..d.frame] == c.stack[..c.frame]
      && View(c).pushed != [] && View(c).pushed[|View(c).pushed| - 1] == c.stack[|c.stack| - 1]
      && View(d) == View(c).(pushed := View(c).pushed[..|View(c).pushed| - 1])
      && SlotOf(c, r) < |d.stack| && d.stack[SlotOf(c, r)] == c.stack[SlotOf(c, r)]
  {
    ViewPopped(c, 1);
    Undisturbed(waiting, records, c, c.(stack := c.stack[..|c.stack| - 1]));
  }

  class ExecutionUnit {
    var stack: seq<Value>
    var frame: nat
    var pc: nat
    var function_: Function
    var this_: nat
    var formalParamCount: nat
    var actualParamCount: nat
    var localOffset: nat
    var lineno: nat
    var callRecords: seq<CallRecord>
    const program: nat

    // The contexts that wait for the calls in progress, outermost first.
    ghost var waiting: seq<Context>

    ghost function Now(): Context
      reads this
    { Context(pc, frame, function_, this_, actualParamCount, formalParamCount, localOffset, lineno, stack) }

    ghost predicate Valid()
      reads this
    { Running(Now()) && Calls(waiting, callRecords, Now()) }

    // What is on the stack above the frame of the running function.
    ghost function Pushed(): int
      reads this
    { |stack| - frame - FrameSize(function_, actualParamCount) }

    // startExecution: the program itself is the outermost function.
    constructor (main: Function, program: nat)
      requires WellMade(main) && main.formalParamCount == 0
      ensures Valid() && waiting == [] && Pushed() == 0 && this.program == program
    {
      stack, frame := seq(main.localSize, _ => Null), 0;
      pc, function_, this_, lineno := 0, main, program, 0;
      formalParamCount, actualParamCount, localOffset := 0, 0, 0;
      callRecords, waiting, this.program := [], [], program;
    }

    method SetLocalFrame(formalParams: nat, actualParams: nat, localSize: nat) returns (oldFrame: nat)
      requires actualParams <= |stack| && formalParams <= localSize
      modifies this`stack, this`frame
      ensures oldFrame == old(frame) && frame == |old(stack)| - actualParams
      ensures old(stack) <= stack && |stack| == frame + localSize + Max(formalParams, actualParams) - formalParams
      ensures forall i :: |old(stack)| <= i < |stack| ==> stack[i] == Null
    {
      oldFrame := frame;
      frame := |stack| - actualParams;
      var temps := localSize - formalParams;
      var extraParams := if formalParams > actualParams then formalParams - actualParams else 0;
      stack := stack + seq(temps + extraParams, _ => Null);
    }

    method RestoreFrame(f: nat, localsToPop: nat)
      requires localsToPop <= |stack|
      modifies this`stack, this`frame
      ensures frame == f && stack == old(stack)[..|old(stack)| - localsToPop]
    {
      stack := stack[..|stack| - localsToPop];
      frame := f;
    }

    // The frame of a function with nparams parameters on top of the stack. Missing parameters and all other locals
    // start out null.
    method Enter(f: Function, nparams: nat) returns (prevFrame: nat)
      requires WellMade(f) && nparams <= |stack|
      modifies this`function_, this`formalParamCount, this`actualParamCount, this`localOffset, this`stack, this`frame
      ensures prevFrame == old(frame) && function_ == f && actualParamCount == nparams && Running(Now())
        && Pushed() == 0
      ensures frame == |old(stack)| - nparams && old(stack) <= stack
      ensures View(Now()) == Activation(Entered(f, old(stack)[|old(stack)| - nparams..]), [])
    {
      function_, formalParamCount, actualParamCount := f, f.formalParamCount, nparams;
      localOffset :=
        (if formalParamCount < actualParamCount then actualParamCount else formalParamCount) - formalParamCount;
      prevFrame := SetLocalFrame(formalParamCount, actualParamCount, f.localSize);
      ViewEntered(Now(), f, old(stack)[|old(stack)| - nparams..]);
    }

    method StartFunction(f: Function, thisObject: nat, nparams: nat)
      requires Valid() && WellMade(f) && nparams <= Pushed()
      modifies this
      ensures Valid() && Pushed() == 0 && pc == 0 && function_ == f && actualParamCount == nparams
      ensures this_ == if thisObject == 0 then program else thisObject
      ensures waiting == old(waiting) + [old(Now()).(stack := old(stack)[..|old(stack)| - nparams])]
      ensures View(Now()) == Activation(Entered(f, old(stack)[|old(stack)| - nparams..]), [])
    {
      ghost var before, c := Now(), Now().(stack := stack[..|stack| - nparams]);
      assert Running(before) && Running(c);
      hide Calls, Running, View, Entered, FrameSize, LocalOffset, WellMade;
      var prevFunction, prevThis, prevActualParamCount := function_, this_, actualParamCount;
      var prevFrame := Enter(f, nparams);
      ghost var entered := Now();
      this_ := thisObject;
      if this_ == 0 { this_ := program; }
      callRecords := callRecords + [CallRecord(pc, prevFrame, prevFunction, prevThis, prevActualParamCount, lineno)];
      pc := 0;
      ViewSame(entered, Now());
      CallRecorded(waiting, old(callRecords), before, c, Now());
      waiting := waiting + [c];
    }

    // The slot of register r.
    function Slot(r: nat): nat
      reads this`frame, this`formalParamCount, this`localOffset
    { frame + r + (if r >= formalParamCount then localOffset else 0) }

    ghost function Reg(r: nat): Value
      reads this`frame, this`formalParamCount, this`localOffset, this`stack
    { if Slot(r) < |stack| then stack[Slot(r)] else Null }

    method GetReg(r: nat) returns (v: Value)
      requires Valid() && r < function_.localSize
      ensures v == Reg(r) && frame <= Slot(r) < frame + FrameSize(function_, actualParamCount) <= |stack|
    {
      v := if r >= formalParamCount then stack[frame + r + localOffset] else stack[frame + r];
    }

    method SetInFrame(r: nat, v: Value)
      requires Valid() && r < function_.localSize
      modifies this`stack
      ensures Valid() && |stack| == |old(stack)| && waiting == old(waiting)
      ensures Reg(r) == v
      ensures stack[..frame] == old(stack)[..frame]
        && View(Now()) == old(View(Now()).(regs := View(Now()).regs[r := v]))
    {
      SetKept(waiting, callRecords, Now(), r, v);
      hide Calls, Running, View;
      if r >= formalParamCount {
        stack := stack[frame + r + localOffset := v];
      } else {
        stack := stack[frame + r := v];
      }
      assert Now() == old(Now().(stack := stack[SlotOf(Now(), r) := v]));
    }

    method Push(v: Value)
      requires Valid()
      modifies this`stack
      ensures Valid() && stack == old(stack) + [v]
      ensures View(Now()) == old(View(Now()).(pushed := View(Now()).pushed + [v]))
    {
      ViewPushed(Now(), v);
      stack := stack + [v];
      Undisturbed(waiting, callRecords, old(Now()), Now());
    }

    method Pop(r: nat)
      requires Valid() && Pushed() > 0 && r < function_.localSize
      modifies this`stack
      ensures Valid() && Pushed() == old(Pushed()) - 1 && Reg(r) == old(stack)[|old(stack)| - 1]
      ensures stack[..frame] == old(stack)[..frame]
      ensures View(Now()) == old(Popped(View(Now()), r))
    {
      PopKept(waiting, callRecords, Now(), r);
      hide Calls, Running, View, FrameSize, LocalOffset;
      var v := stack[|stack| - 1];
      SetInFrame(r, v);
      ghost var before := Now();
      PopKept(waiting, callRecords, before, r);
      stack := stack[..|stack| - 1];
      assert Now() == before.(stack := stack);
    }

    // The second half of a return: the frame goes, and the record says what to continue with.
    method Leave(r: CallRecord, v: Value)
      requires WellMade(r.func) && FrameSize(function_, actualParamCount) <= |stack|
        && localOffset == LocalOffset(function_, actualParamCount)
      modifies this
      ensures Now() == Context(r.pc, r.frame, r.func, r.thisObj, r.paramCount, r.func.formalParamCount,
        LocalOffset(r.func, r.paramCount), r.lineno,
        old(stack)[..|old(stack)| - old(FrameSize(function_, actualParamCount))] + [v])
      ensures waiting == old(waiting) && callRecords == old(callRecords)
    {
      var localsToPop := function_.localSize + localOffset;
      actualParamCount, this_ := r.paramCount, r.thisObj;
      RestoreFrame(r.frame, localsToPop);
      pc, function_, lineno := r.pc, r.func, r.lineno;
      formalParamCount := function_.formalParamCount;
      localOffset :=
        (if formalParamCount < actualParamCount then actualParamCount else formalParamCount) - formalParamCount;
      stack := stack + [v];
    }

    // RET with count values on the stack, or END with none, in a function that has left nothing else there.
    method Return(count: nat)
      requires Valid() && waiting != [] && Pushed() == count
      modifies this
      ensures Valid() && waiting == old(waiting)[..|old(waiting)| - 1]
      ensures var c := old(waiting)[|old(waiting)| - 1];
        Now() == c.(stack := c.stack + [if count > 0 then old(stack)[|old(stack)| - count] else Null])
    {
      ghost var last := |waiting| - 1;
      ghost var c := waiting[last];
      var returnedValue := if count > 0 then stack[|stack| - count] else Null;
      CallReturns(waiting, callRecords, Now(), returnedValue);
      hide Calls;
      stack := stack[..|stack| - count];
      var callRecord := callRecords[|callRecords| - 1];
      callRecords := callRecords[..|callRecords| - 1];
      assert stack[..frame] == c.stack;
      Leave(callRecord, returnedValue);
      waiting := waiting[..last];
    }

    method RegOrConst(x: Operand) returns (v: Value)
      requires Valid() && OperandOk(x, function_)
      ensures v == Operated(View(Now()), x)
      ensures v == match x case Constant(c) => c case Register(r) => Reg(r)
    {
      match x {
        case Register(r) => v := GetReg(r);
        case Constant(c) => v := c;
      }
    }

    // A call together with everything up to its return leaves the caller as it was, with one value in place of the
    // arguments: the one that the function computes in registers of its own.
    method Call(f: Function, thisObject: nat, nparams: nat, body: seq<Instruction>, count: nat)
      requires Valid() && WellMade(f) && nparams <= Pushed() && Height(body, f, 0) == count
      modifies this
      decreases body, 1
      ensures Valid() && waiting == old(waiting)
      ensures var v := Returned(Performed(Activation(Entered(f, old(stack)[|old(stack)| - nparams..]), []), body, f),
        count);
        && Now() == old(Now()).(stack := old(stack)[..|old(stack)| - nparams] + [v])
        && View(Now()) == old(View(Now()).(pushed := View(Now()).pushed[..Pushed() - nparams] + [v]))
      ensures old(stack)[|old(stack)| - nparams..] == old(View(Now()).pushed[Pushed() - nparams..])
    {
      ghost var before := Now();
      hide Calls, Running, View, Entered, Performed, FrameSize, LocalOffset, WellMade;
      ghost var c := before.(stack := stack[..|stack| - nparams]);
      ViewTop(before, nparams);
      StartFunction(f, thisObject, nparams);
      Run(body);
      ghost var v := if count > 0 then stack[|stack| - count] else Null;
      ViewTop(Now(), count);
      assert v == Returned(View(Now()), count);
      assert waiting == old(waiting) + [c];
      Return(count);
      assert (old(waiting) + [c])[..|old(waiting)|] == old(waiting);
      assert Now() == c.(stack := c.stack + [v]);
      ViewReplaced(before, nparams, v);
    }

    method PushOperand(x: Operand)
      requires Valid() && OperandOk(x, function_)
      modifies this`stack
      ensures Valid() && View(Now()) == old(View(Now()).(pushed := View(Now()).pushed + [Operated(View(Now()), x)]))
      ensures stack[..frame] == old(stack)[..frame]
      ensures x.Constant? ==> stack == old(stack) + [x.v]
      ensures x.Register? ==> stack == old(stack) + [old(Reg(x.r))]
    {
      hide Calls, View;
      var v := RegOrConst(x);
      Push(v);
    }

    method Move(r: nat, x: Operand)
      requires Valid() && r < function_.localSize && OperandOk(x, function_)
      modifies this`stack
      ensures Valid() && View(Now()) == old(View(Now()).(regs := View(Now()).regs[r := Operated(View(Now()), x)]))
      ensures stack[..frame] == old(stack)[..frame]
      ensures x.Constant? ==> Reg(r) == x.v
      ensures x.Register? ==> Reg(r) == old(Reg(x.r))
    {
      hide Calls, View;
      var v := RegOrConst(x);
      SetInFrame(r, v);
    }

    method Execute(i: Instruction)
      requires Valid() && Effect(i, function_, Pushed()) >= 0
      modifies this
      decreases i, 2
      ensures Valid() && waiting == old(waiting) && View(Now()) == old(Stepped(View(Now()), i, function_))
      ensures Now() == old(Now()).(stack := stack) && stack[..frame] == old(stack)[..frame]
    {
      assert Running(Now());
      hide Calls, Running, View, Entered, Performed, Height, FrameSize, LocalOffset, Operated, Popped, Returned;
      match i {
        case Pushing(x) => PushOperand(x);
        case Popping(r) => Pop(r);
        case Moving(r, x) => Move(r, x);
        case Calling(_, _, _, _, _) => ExecuteCall(i);
      }
    }

    method ExecuteCall(i: Instruction)
      requires Valid() && i.Calling? && Effect(i, function_, Pushed()) >= 0
      modifies this
      decreases i, 1
      ensures Valid() && waiting == old(waiting) && View(Now()) == old(Stepped(View(Now()), i, function_))
      ensures Now() == old(Now()).(stack := stack) && stack[..frame] == old(stack)[..frame]
    {
      hide Calls, Running, View, Entered, Performed, Height, FrameSize, LocalOffset, Operated, Popped, Returned;
      Call(i.f, i.thisObject, i.nparams, i.body, i.count);
    }

    // However calls nest, a balanced run does on the one stack what it does on registers of its own for every call.
    // It keeps its own context and touches nothing below its frame.
    method Run(code: seq<Instruction>)
      requires Valid() && Height(code, function_, Pushed()) >= 0
      modifies this
      decreases code, 0
      ensures Valid() && waiting == old(waiting) && View(Now()) == old(Performed(View(Now()), code, function_))
      ensures Now() == old(Now()).(pc := old(pc) + |code|, stack := stack) && stack[..frame] == old(stack)[..frame]
    {
      if code == [] { return; }
      hide Calls, Running, View, Effect, Height, Stepped, Performed, FrameSize, LocalOffset;
      PerformedMore(View(Now()), code, function_);
      StepOnce(code[0]);
      Run(code[1..]);
    }

    method StepOnce(i: Instruction)
      requires Valid() && Effect(i, function_, Pushed()) >= 0
      modifies this
      decreases i, 3
      ensures Valid() && waiting == old(waiting) && View(Now()) == old(Stepped(View(Now()), i, function_))
      ensures Now() == old(Now()).(pc := old(pc) + 1, stack := stack) && stack[..frame] == old(stack)[..frame]
    {
      hide Calls, Running, View, Effect, Height, Stepped, Performed, FrameSize, LocalOffset;
      Fetch();
      Execute(i);
    }

    method Fetch()
      requires Valid()
      modifies this`pc
      ensures Valid() && pc == old(pc) + 1 && View(Now()) == old(View(Now()))
    {
      pc := pc + 1;
      Undisturbed(waiting, callRecords, old(Now()), Now());
    }
  }
}
