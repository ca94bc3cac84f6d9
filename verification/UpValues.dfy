/** Captured variables: the list of open upvalues of an execution unit (ExecutionUnit.cpp, Closure.cpp). */
module UpValues {
  import opened Values

  // While an upvalue is open its value is the index of the variable on the stack.
  // Upvalues are shared by reference; a reference is an index into the upvalues made so far, or NONE.
  datatype UpValue = UpValue(closed: bool, value: Value, next: int)

  const NONE := -1

  ghost function At(chain: seq<nat>, i: nat): int
  { if i < |chain| then chain[i] else NONE }

  ghost function Without<T>(s: seq<T>, p: nat): (r: seq<T>)
    requires p < |s|
    ensures |r| == |s| - 1 && forall i: nat :: i < |r| ==> r[i] == s[if i < p then i else i + 1]
  { s[..p] + s[p + 1..] }

  lemma WithoutIn<T>(s: seq<T>, p: nat)
    requires p < |s|
    ensures forall x :: x in s && x != s[p] ==> x in Without(s, p)
    ensures forall x :: x in Without(s, p) ==> x in s
  {
    forall x | x in s && x != s[p] ensures x in Without(s, p) {
      var i :| 0 <= i < |s| && s[i] == x;
      assert Without(s, p)[if i < p then i else i - 1] == x;
    }
  }

  predicate Distinct(s: seq<nat>)
  { forall i: nat, j: nat :: i < j < |s| ==> s[i] != s[j] }

  // Element i of the list of open upvalues, which belongs to the variable at index at[i].
  ghost predicate OpenAt(us: seq<UpValue>, chain: seq<nat>, at: seq<nat>, size: nat, i: nat)
    requires i < |chain| == |at|
  {
    && chain[i] < |us| && at[i] < size
    && us[chain[i]] == UpValue(false, Integer(at[i]), At(chain, i + 1))
  }

  // The list that starts at head is chain: open upvalues of different variables.
  ghost predicate Linked(us: seq<UpValue>, head: int, chain: seq<nat>, at: seq<nat>, size: nat)
  {
    && head == At(chain, 0) && |at| == |chain| && Distinct(at)
    && (forall i: nat {:trigger OpenAt(us, chain, at, size, i)} :: i < |chain| ==> OpenAt(us, chain, at, size, i))
    && (forall u: nat :: u < |us| && u !in chain ==> us[u].closed)
  }

  // Variables as the language sees them. Each has an identity, which is its place in store.
  // The stack holds the variables in scope, and captured names the one of each upvalue.
  datatype World = World(store: seq<Value>, scope: seq<nat>, captured: seq<nat>)

  datatype Op =
    | Push(v: Value)
    | PopTo(n: nat)
    | Write(index: nat, v: Value)
    | Capture(index: nat)
    | Store(u: nat, v: Value)
    | Close(frame: nat)

  // Closing parts what is on the stack from frame on from what has been captured: the stack goes on with copies.
  function Copied(w: World, frame: nat): (r: World)
    requires Sound(w) && frame <= |w.scope|
    ensures Sound(r)
  {
    var n := |w.scope| - frame;
    w.(store := w.store + seq(n, i requires 0 <= i < n => w.store[w.scope[frame + i]]),
      scope := w.scope[..frame] + seq(n, i requires 0 <= i < n => |w.store| + i))
  }

  predicate Allowed(w: World, op: Op)
  {
    match op
    case Push(_) => true
    case PopTo(n) => n <= |w.scope| && forall i :: n <= i < |w.scope| ==> w.scope[i] !in w.captured
    case Write(index, _) => index < |w.scope|
    case Capture(index) => index < |w.scope|
    case Store(u, _) => u < |w.captured|
    case Close(_) => true
  }

  function Next(w: World, op: Op): (r: World)
    requires Sound(w) && Allowed(w, op)
    ensures Sound(r) && w.captured <= r.captured
  {
    match op
    case Push(v) => w.(store := w.store + [v], scope := w.scope + [|w.store|])
    case PopTo(n) => w.(scope := w.scope[..n])
    case Write(index, v) => w.(store := w.store[w.scope[index] := v])
    case Capture(index) => if w.scope[index] in w.captured then w else w.(captured := w.captured + [w.scope[index]])
    case Store(u, v) => w.(store := w.store[w.captured[u] := v])
    case Close(frame) => if frame < |w.scope| then Copied(w, frame) else w
  }

  predicate Sound(w: World)
  {
    && (forall i: nat :: i < |w.scope| ==> w.scope[i] < |w.store|) && Distinct(w.scope)
    && (forall u: nat :: u < |w.captured| ==> w.captured[u] < |w.store|) && Distinct(w.captured)
  }

  predicate AllAllowed(w: World, ops: seq<Op>)
    requires Sound(w)
    decreases |ops|
  { ops == [] || (Allowed(w, ops[0]) && AllAllowed(Next(w, ops[0]), ops[1..])) }

  function After(w: World, ops: seq<Op>): (r: World)
    requires Sound(w) && AllAllowed(w, ops)
    ensures Sound(r) && w.captured <= r.captured
    decreases |ops|
  { if ops == [] then w else After(Next(w, ops[0]), ops[1..]) }

  // The closures that share upvalue u and the stack at index i have the same variable.
  predicate Shares(w: World, u: nat, i: nat)
  { u < |w.captured| && i < |w.scope| && w.captured[u] == w.scope[i] }

  predicate Closes(op: Op, i: nat) { op.Close? && op.frame <= i }

  // Once the variable of u is not on the stack, it never is again.
  lemma {:induction false} StaysParted(w: World, ops: seq<Op>, u: nat)
    requires Sound(w) && AllAllowed(w, ops) && u < |w.captured| && w.captured[u] !in w.scope
    ensures After(w, ops).captured[u] !in After(w, ops).scope
    decreases |ops|
  {
    if ops != [] { StaysParted(Next(w, ops[0]), ops[1..], u); }
  }

  // A variable is shared until it is closed, and not any more from then on.
  lemma {:induction false} SharesUntilClosed(w: World, ops: seq<Op>, u: nat, i: nat)
    requires Sound(w) && AllAllowed(w, ops) && Shares(w, u, i)
    ensures Shares(After(w, ops), u, i) <==> forall op :: op in ops ==> !Closes(op, i)
    decreases |ops|
  {
    if ops != [] {
      var w' := Next(w, ops[0]);
      assert ops == [ops[0]] + ops[1..];
      if Closes(ops[0], i) {
        assert w'.captured[u] !in w'.scope;
        StaysParted(w', ops[1..], u);
      } else {
        SharesUntilClosed(w', ops[1..], u, i);
      }
    }
  }

  function Seen(w: World, u: nat): Value
    requires Sound(w) && u < |w.captured|
  { w.store[w.captured[u]] }

  function OnStack(w: World, i: nat): Value
    requires Sound(w) && i < |w.scope|
  { w.store[w.scope[i]] }

  // What a step does to the value that is read through an upvalue: only a store to it, or a write to the place on the
  // stack that it shares, changes that.
  lemma SeenNext(w: World, op: Op, u: nat)
    requires Sound(w) && Allowed(w, op) && u < |w.captured|
    ensures Seen(Next(w, op), u) ==
      match op
      case Store(x, v) => if x == u then v else Seen(w, u)
      case Write(i, v) => if Shares(w, u, i) then v else Seen(w, u)
      case _ => Seen(w, u)
  {}

  // And what it does to the stack.
  lemma OnStackNext(w: World, op: Op, i: nat)
    requires Sound(w) && Allowed(w, op)
    ensures var w' := Next(w, op);
      match op
      case Push(v) => |w'.scope| == |w.scope| + 1 && OnStack(w', |w.scope|) == v
        && (i < |w.scope| ==> OnStack(w', i) == OnStack(w, i))
      case PopTo(n) => |w'.scope| == n && (i < n ==> OnStack(w', i) == OnStack(w, i))
      case Store(u, v) => |w'.scope| == |w.scope|
        && (i < |w.scope| ==> OnStack(w', i) == if Shares(w, u, i) then v else OnStack(w, i))
      case Write(j, v) => |w'.scope| == |w.scope|
        && (i < |w.scope| ==> OnStack(w', i) == if i == j then v else OnStack(w, i))
      case _ => |w'.scope| == |w.scope| && (i < |w.scope| ==> OnStack(w', i) == OnStack(w, i))
  {}

  // A variable that is captured has one upvalue, which shares it from then on.
  lemma CaptureShares(w: World, i: nat)
    requires Sound(w) && i < |w.scope|
    ensures exists u: nat :: Shares(Next(w, Capture(i)), u, i)
    ensures forall u: nat, v: nat :: Shares(Next(w, Capture(i)), u, i) && Shares(Next(w, Capture(i)), v, i) ==> u == v
  {
    var w' := Next(w, Capture(i));
    if w.scope[i] in w.captured {
      var u: nat :| u < |w.captured| && w.captured[u] == w.scope[i];
      assert Shares(w', u, i);
    } else {
      assert Shares(w', |w.captured|, i);
    }
  }

  // A return to the function whose frame starts at caller, which takes everything from base on off the stack.
  function Returning(caller: nat, base: nat, v: Value): seq<Op> { [Close(caller), PopTo(base), Push(v)] }

  // After a return the variables of the functions below the caller are shared as before, and those of the caller itself
  // never again. Closing from base on would keep them.
  lemma ReturnShares(w: World, caller: nat, base: nat, v: Value, u: nat, i: nat)
    requires Sound(w) && caller <= base <= |w.scope| && i < base && Shares(w, u, i)
    ensures AllAllowed(w, Returning(caller, base, v))
      && (Shares(After(w, Returning(caller, base, v)), u, i) <==> i < caller)
    ensures AllAllowed(w, Returning(base, base, v)) && Shares(After(w, Returning(base, base, v)), u, i)
  {
    ReturnSteps(w, caller, base, v);
    ReturnSteps(w, base, base, v);
    hide Sound, AllAllowed, After, Next, Shares;
    SharesUntilClosed(w, Returning(caller, base, v), u, i);
    SharesUntilClosed(w, Returning(base, base, v), u, i);
    assert Returning(caller, base, v)[0] == Close(caller) && Closes(Close(caller), i) == (caller <= i);
    assert !Closes(Close(base), i) && !Closes(PopTo(base), i) && !Closes(Push(v), i);
  }

  lemma ReturnSteps(w: World, caller: nat, base: nat, v: Value)
    requires Sound(w) && caller <= base <= |w.scope|
    ensures AllAllowed(w, Returning(caller, base, v)) && Allowed(Next(w, Close(caller)), PopTo(base))
    ensures After(w, Returning(caller, base, v)) == Next(Next(Next(w, Close(caller)), PopTo(base)), Push(v))
  {
    var ops := Returning(caller, base, v);
    assert ops[1..] == [PopTo(base), Push(v)] && ops[1..][1..] == [Push(v)] && ops[1..][1..][1..] == [];
    ClosedAllows(w, caller, base);
    hide Next, Allowed, Sound;
    var w1 := Next(w, Close(caller));
    var w2 := Next(w1, PopTo(base));
    assert Allowed(w2, Push(v)) by { PushAllowed(w2, v); }
    var w3 := Next(w2, Push(v));
    assert AllAllowed(w3, []) && After(w3, []) == w3;
    assert AllAllowed(w2, [Push(v)]) && After(w2, [Push(v)]) == w3;
    assert AllAllowed(w1, [PopTo(base), Push(v)]) && After(w1, [PopTo(base), Push(v)]) == w3;
  }

  lemma ClosedAllows(w: World, caller: nat, base: nat)
    requires Sound(w) && caller <= base <= |w.scope|
    ensures Allowed(w, Close(caller)) && Allowed(Next(w, Close(caller)), PopTo(base))
  {}

  lemma PushAllowed(w: World, v: Value)
    ensures Allowed(w, Push(v))
  {}

  // What upvalue u holds: the value of its variable once that is closed, otherwise where on the stack it is.
  ghost predicate Holds(us: seq<UpValue>, w: World, u: nat)
    requires Sound(w) && u < |us| == |w.captured|
  {
    if us[u].closed then us[u].value == w.store[w.captured[u]] && w.captured[u] !in w.scope
    else us[u].value.Integer? && 0 <= us[u].value.n < |w.scope| && w.captured[u] == w.scope[us[u].value.n]
  }

  ghost predicate Agrees(us: seq<UpValue>, stack: seq<Value>, w: World)
  {
    && Sound(w) && |w.scope| == |stack| && |w.captured| == |us|
    && (forall i: nat :: i < |stack| ==> stack[i] == w.store[w.scope[i]])
    && (forall u: nat {:trigger Holds(us, w, u)} :: u < |us| ==> Holds(us, w, u))
  }

  lemma PushAgrees(us: seq<UpValue>, stack: seq<Value>, w: World, v: Value)
    requires Agrees(us, stack, w)
    ensures Agrees(us, stack + [v], Next(w, Push(v)))
  {
    var w' := Next(w, Push(v));
    forall u: nat | u < |us| ensures Holds(us, w', u) { assert Holds(us, w, u); }
  }

  lemma PopAgrees(us: seq<UpValue>, stack: seq<Value>, w: World, n: nat)
    requires Agrees(us, stack, w) && Allowed(w, PopTo(n))
    ensures Agrees(us, stack[..n], Next(w, PopTo(n)))
  {
    var w' := Next(w, PopTo(n));
    forall u: nat | u < |us| ensures Holds(us, w', u) { assert Holds(us, w, u); }
  }

  lemma WriteAgrees(us: seq<UpValue>, stack: seq<Value>, w: World, index: nat, v: Value)
    requires Agrees(us, stack, w) && index < |stack|
    ensures Agrees(us, stack[index := v], Next(w, Write(index, v)))
  {
    var w' := Next(w, Write(index, v));
    forall u: nat | u < |us| ensures Holds(us, w', u) { assert Holds(us, w, u); }
  }

  lemma StoreAgrees(us: seq<UpValue>, stack: seq<Value>, w: World, u: nat, v: Value)
    requires Agrees(us, stack, w) && u < |us| && us[u].closed
    ensures Agrees(us[u := us[u].(value := v)], stack, Next(w, Store(u, v)))
  {
    var us', w' := us[u := us[u].(value := v)], Next(w, Store(u, v));
    assert Holds(us, w, u);
    forall x: nat | x < |us| ensures Holds(us', w', x) { assert Holds(us, w, x); }
  }

  lemma CaptureAgrees(us: seq<UpValue>, stack: seq<Value>, w: World, index: nat, next: int)
    requires Agrees(us, stack, w) && index < |stack|
    requires forall u: nat :: u < |us| && !us[u].closed ==> us[u].value != Integer(index)
    ensures w.scope[index] !in w.captured
    ensures Agrees(us + [UpValue(false, Integer(index), next)], stack, Next(w, Capture(index)))
  {
    forall u: nat | u < |us| ensures w.captured[u] != w.scope[index] { assert Holds(us, w, u); }
    var us', w' := us + [UpValue(false, Integer(index), next)], Next(w, Capture(index));
    forall u: nat | u < |us'| ensures Holds(us', w', u) {
      if u < |us| { assert Holds(us, w, u); }
    }
  }

  // x without its link.
  function Bare(x: UpValue): UpValue { x.(next := NONE) }

  // x when the open upvalues from frame on have been closed.
  function Shed(x: UpValue, stack: seq<Value>, frame: nat): UpValue
  {
    if !x.closed && x.value.Integer? && frame <= x.value.n < |stack| then UpValue(true, stack[x.value.n], NONE)
      else Bare(x)
  }

  lemma CloseAgrees(us: seq<UpValue>, us': seq<UpValue>, stack: seq<Value>, w: World, frame: nat)
    requires Agrees(us, stack, w) && |us'| == |us|
    requires forall u: nat :: u < |us| ==> Bare(us'[u]) == Shed(us[u], stack, frame)
    ensures Agrees(us', stack, Next(w, Close(frame)))
  {
    if frame < |w.scope| {
      CopiedSound(w, stack, frame);
      forall u: nat | u < |us| ensures Holds(us', Copied(w, frame), u) {
        assert Holds(us, w, u);
        ClosedHolds(us, us', stack, w, frame, u);
      }
    } else {
      forall u: nat | u < |us| ensures Holds(us', w, u) {
        assert Holds(us, w, u);
        assert Bare(us'[u]) == Shed(us[u], stack, frame);
      }
    }
  }

  lemma CopiedSound(w: World, stack: seq<Value>, frame: nat)
    requires Sound(w) && |w.scope| == |stack| && frame < |stack| && forall i: nat ::
      i < |stack| ==> stack[i] == w.store[w.scope[i]]
    ensures Sound(Copied(w, frame)) && forall i: nat ::
      i < |stack| ==> stack[i] == Copied(w, frame).store[Copied(w, frame).scope[i]]
  {}

  lemma ClosedHolds(us: seq<UpValue>, us': seq<UpValue>, stack: seq<Value>, w: World, frame: nat, u: nat)
    requires Sound(w) && |w.scope| == |stack| && frame < |stack| && Sound(Copied(w, frame))
      && u < |us| == |us'| == |w.captured|
    requires forall i: nat :: i < |stack| ==> stack[i] == w.store[w.scope[i]]
    requires Holds(us, w, u) && Bare(us'[u]) == Shed(us[u], stack, frame)
    ensures Holds(us', Copied(w, frame), u)
  {
    var w', x := Copied(w, frame), w.captured[u];
    assert us'[u].closed ==> forall i :: frame <= i < |w'.scope| ==> w'.scope[i] >= |w.store|;
    assert us'[u].closed && !us[u].closed ==> w.scope[us[u].value.n] !in w'.scope[..frame];
  }

  lemma OpenDistinct(us: seq<UpValue>, head: int, chain: seq<nat>, at: seq<nat>, size: nat, i: nat, j: nat)
    requires Linked(us, head, chain, at, size) && i < |chain| && j < |chain| && (chain[i] == chain[j] || at[i] == at[j])
    ensures i == j
  {
    assert OpenAt(us, chain, at, size, i) && OpenAt(us, chain, at, size, j);
  }

  lemma OpenPlace(us: seq<UpValue>, head: int, chain: seq<nat>, at: seq<nat>, size: nat, u: nat) returns (i: nat)
    requires Linked(us, head, chain, at, size) && u < |us| && !us[u].closed
    ensures i < |chain| && chain[i] == u && OpenAt(us, chain, at, size, i)
  {
    i :| i < |chain| && chain[i] == u;
  }

  class ExecutionUnit {
    var stack: seq<Value>
    var upValues: seq<UpValue>
    var openUpValues: int

    // The open upvalues and the indices of their variables in list order, and the variables themselves.
    ghost var chain: seq<nat>
    ghost var at: seq<nat>
    ghost var world: World

    ghost predicate Valid()
      reads this
    { Linked(upValues, openUpValues, chain, at, |stack|) && Agrees(upValues, stack, world) }

    constructor ()
      ensures Valid() && stack == [] && upValues == [] && world == World([], [], [])
    {
      stack, upValues, openUpValues := [], [], NONE;
      chain, at, world := [], [], World([], [], []);
    }

    // The open upvalue of a variable on the stack: one for all closures that capture it.
    method NewUpValue(index: nat) returns (u: nat)
      requires Valid() && index < |stack|
      modifies this
      ensures Valid() && world == Next(old(world), Capture(index)) && stack == old(stack)
      ensures u < |world.captured| && world.captured[u] == world.scope[index]
      ensures exists i :: 0 <= i < |chain| == |at| && chain[i] == u && at[i] == index
      ensures index in old(at) ==> upValues == old(upValues) && chain == old(chain) && at == old(at)
      ensures index !in old(at) ==>
        && u == |old(upValues)| && upValues == old(upValues) + [UpValue(false, Integer(index), old(openUpValues))]
        && chain == [u] + old(chain) && at == [index] + old(at)
    {
      var next := openUpValues;
      ghost var k := 0;
      while next != NONE
        invariant k <= |chain| && next == At(chain, k) && index !in at[..k]
        decreases |chain| - k
      {
        assert OpenAt(upValues, chain, at, |stack|, k);
        if upValues[next].value == Integer(index) {
          assert Holds(upValues, world, next);
          return next;
        }
        next, k := upValues[next].next, k + 1;
      }
      assert at[..k] == at;
      forall x: nat | x < |upValues| && !upValues[x].closed ensures upValues[x].value != Integer(index) {
        var i := OpenPlace(upValues, openUpValues, chain, at, |stack|, x);
      }
      CaptureAgrees(upValues, stack, world, index, openUpValues);
      u := |upValues|;
      ghost var us, c, a := upValues, chain, at;
      upValues := upValues + [UpValue(false, Integer(index), openUpValues)];
      openUpValues := u;
      chain, at, world := [u] + chain, [index] + at, Next(world, Capture(index));
      forall i: nat | i < |chain| ensures OpenAt(upValues, chain, at, |stack|, i) {
        if i > 0 { assert OpenAt(us, c, a, |stack|, i - 1); }
      }
    }

    // The value of its variable, closed or not.
    method LoadUpValue(u: nat) returns (v: Value)
      requires Valid() && u < |upValues|
      ensures v == world.store[world.captured[u]]
    {
      assert Holds(upValues, world, u);
      if upValues[u].closed {
        v := upValues[u].value;
      } else {
        v := stack[upValues[u].value.n];
      }
    }

    method StoreUpValue(u: nat, v: Value)
      requires Valid() && u < |upValues|
      modifies this`stack, this`upValues, this`world
      ensures Valid() && world == Next(old(world), Store(u, v))
      ensures if old(upValues)[u].closed then stack == old(stack)
        && upValues == old(upValues)[u := UpValue(true, v, upValues[u].next)]
        else upValues == old(upValues) && exists i ::
          0 <= i < |chain| && chain[i] == u && at[i] < |old(stack)| && stack == old(stack)[at[i] := v]
    {
      ghost var us := upValues;
      assert Holds(upValues, world, u);
      if upValues[u].closed {
        StoreAgrees(upValues, stack, world, u, v);
        upValues := upValues[u := upValues[u].(value := v)];
        forall i: nat | i < |chain|
          ensures OpenAt(upValues, chain, at, |stack|, i)
        {
          assert OpenAt(us, chain, at, |stack|, i);
        }
      } else {
        ghost var i := OpenPlace(upValues, openUpValues, chain, at, |stack|, u);
        WriteAgrees(upValues, stack, world, at[i], v);
        stack := stack[upValues[u].value.n := v];
        Resized(upValues, openUpValues, chain, at, |stack|, |stack|);
      }
      world := Next(world, Store(u, v));
    }

    // A write to a variable on the stack, which closures may have captured.
    method Write(index: nat, v: Value)
      requires Valid() && index < |stack|
      modifies this`stack, this`world
      ensures Valid() && world == Next(old(world), Op.Write(index, v)) && stack == old(stack)[index := v]
    {
      WriteAgrees(upValues, stack, world, index, v);
      stack := stack[index := v];
      world := Next(world, Op.Write(index, v));
    }

    method Push(v: Value)
      requires Valid()
      modifies this`stack, this`world
      ensures Valid() && world == Next(old(world), Op.Push(v)) && stack == old(stack) + [v]
    {
      PushAgrees(upValues, stack, world, v);
      Resized(upValues, openUpValues, chain, at, |stack|, |stack| + 1);
      stack := stack + [v];
      world := Next(world, Op.Push(v));
    }

    // Drops everything from index n on, where no captured variable is left open.
    method PopTo(n: nat)
      requires Valid() && n <= |stack| && forall i :: 0 <= i < |at| ==> at[i] < n
      modifies this`stack, this`world
      ensures Valid() && Allowed(old(world), Op.PopTo(n)) && world == Next(old(world), Op.PopTo(n))
        && stack == old(stack)[..n]
    {
      forall i, u: nat | n <= i < |stack| && u < |upValues| ensures world.scope[i] != world.captured[u] {
        assert Holds(upValues, world, u);
        if !upValues[u].closed { var j := OpenPlace(upValues, openUpValues, chain, at, |stack|, u); }
      }
      PopAgrees(upValues, stack, world, n);
      Resized(upValues, openUpValues, chain, at, |stack|, n);
      stack := stack[..n];
      world := Next(world, Op.PopTo(n));
    }

    method CloseIfNeeded(u: nat, frame: nat) returns (closes: bool)
      requires u < |upValues| && !upValues[u].closed && upValues[u].value.Integer? && 0 <= upValues[u].value.n < |stack|
      modifies this`upValues
      ensures closes == (old(upValues)[u].value.n >= frame)
      ensures upValues == if closes then old(upValues)[u := Closed(old(upValues)[u], stack)] else old(upValues)
    {
      closes := upValues[u].value.n >= frame;
      if closes {
        upValues := upValues[u := upValues[u].(value := stack[upValues[u].value.n], closed := true)];
      }
    }

    method Unlink(prev: int, u: nat)
      requires u < |upValues| && (prev == NONE || 0 <= prev < |upValues|)
      modifies this`openUpValues, this`upValues
      ensures openUpValues == if prev == NONE then old(upValues)[u].next else old(openUpValues)
      ensures upValues == if prev == NONE then old(upValues)
        else old(upValues)[prev := old(upValues)[prev].(next := old(upValues)[u].next)]
    {
      if prev != NONE {
        upValues := upValues[prev := upValues[prev].(next := upValues[u].next)];
      } else {
        openUpValues := upValues[u].next;
      }
    }

    // One round of closeUpValues, for element p of the list.
    method CloseNext(prev: int, u: nat, frame: nat, ghost us0: seq<UpValue>, ghost at0: seq<nat>, ghost p: nat)
        returns (closes: bool)
      requires Linked(upValues, openUpValues, chain, at, |stack|) && p < |chain|
      requires u == chain[p] && prev == if p == 0 then NONE else chain[p - 1]
      requires Partly(us0, upValues, stack, frame, chain[p..]) && Weeded(at0, at, frame, p)
      modifies this`openUpValues, this`upValues, this`chain, this`at
      ensures Linked(upValues, openUpValues, chain, at, |stack|) && |upValues| == |old(upValues)| && u < |upValues|
      ensures |chain| == if closes then |old(chain)| - 1 else |old(chain)|
      ensures !closes ==> chain == old(chain)
      ensures p > 0 ==> p <= |chain| && chain[p - 1] == old(chain)[p - 1]
      ensures var q := if closes then p else p + 1;
        q <= |chain| && upValues[u].next == At(chain, q) && Partly(us0, upValues, stack, frame, chain[q..])
          && Weeded(at0, at, frame, q)
    {
      hide Linked, Partly, Weeded, Without, Closed, OpenAt, At;
      OpenElement(upValues, openUpValues, chain, at, |stack|, p);
      ghost var us, head := upValues, openUpValues;
      closes := CloseIfNeeded(u, frame);
      if closes {
        Unlink(prev, u);
        OneClosed(us0, us, upValues, head, openUpValues, chain, at, stack, frame, p);
        WeededOnce(at0, at, frame, p);
        chain, at := Without(chain, p), Without(at, p);
      } else {
        PartlyKept(us0, upValues, stack, frame, chain, at, p);
        WeededKept(at0, at, frame, p);
      }
    }

    // Closes the open upvalues of the variables from frame on, and no others.
    method CloseUpValues(frame: nat)
      requires Valid()
      modifies this`openUpValues, this`upValues, this`chain, this`at, this`world
      ensures Valid() && world == Next(old(world), Close(frame))
      ensures |upValues| == |old(upValues)| && forall u: nat ::
        u < |upValues| ==> Bare(upValues[u]) == Shed(old(upValues)[u], stack, frame)
      ensures forall k :: k in at <==> k in old(at) && k < frame
    {
      assert Sound(world);
      hide *;
      ghost var p := 0;
      var prev, upValue := NONE, openUpValues;
      LinkedStart(upValues, openUpValues, chain, at, |stack|);
      PartlyStart(upValues, stack, frame, openUpValues, chain, at);
      WeededStart(at, frame);
      while upValue != NONE
        invariant world == old(world) && Linked(upValues, openUpValues, chain, at, |stack|)
        invariant p <= |chain| && upValue == At(chain, p) && prev == if p == 0 then NONE else chain[p - 1]
        invariant Partly(old(upValues), upValues, stack, frame, chain[p..]) && Weeded(old(at), at, frame, p)
        decreases |chain| - p
      {
        AtIs(chain, p);
        var closes := CloseNext(prev, upValue, frame, old(upValues), old(at), p);
        if !closes { prev, p := upValue, p + 1; }
        upValue := upValues[upValue].next;
      }
      AtIs(chain, p);
      LinkedStart(upValues, openUpValues, chain, at, |stack|);
      WeededDone(old(at), at, frame, p);
      PartlyDone(old(upValues), upValues, stack, frame, chain, p);
      CloseAgrees(old(upValues), upValues, stack, world, frame);
      world := Next(world, Close(frame));
    }

    // What RET does to the captured variables: it closes from the caller's frame on.
    method Return(caller: nat, base: nat, v: Value)
      requires Valid() && caller <= base <= |stack|
      modifies this
      ensures Valid() && AllAllowed(old(world), Returning(caller, base, v))
        && world == After(old(world), Returning(caller, base, v))
      ensures stack == old(stack)[..base] + [v] && forall k :: k in at <==> k in old(at) && k < caller
    {
      ReturnSteps(world, caller, base, v);
      CloseUpValues(caller);
      assert forall i :: 0 <= i < |at| ==> at[i] in at;
      PopTo(base);
      Push(v);
    }

    // Any run of captures, stores, writes to the stack and closings does what it does to the variables themselves.
    method Run(ops: seq<Op>)
      requires Valid() && AllAllowed(world, ops)
      modifies this
      ensures Valid() && world == After(old(world), ops)
      ensures forall u: nat :: u < |world.captured| ==> Read(upValues, stack, u) == world.store[world.captured[u]]
    {
      if ops == [] {
        AllRead(upValues, stack, world);
        return;
      }
      match ops[0] {
        case Push(v) => Push(v);
        case PopTo(n) =>
          OpenBelow(upValues, openUpValues, chain, at, stack, world, n);
          PopTo(n);
        case Write(index, v) => Write(index, v);
        case Capture(index) => var u := NewUpValue(index);
        case Store(u, v) => StoreUpValue(u, v);
        case Close(frame) => CloseUpValues(frame);
      }
      Run(ops[1..]);
    }
  }

  // What a closure that shares upvalue u reads.
  function Read(us: seq<UpValue>, stack: seq<Value>, u: nat): Value
    requires u < |us|
  {
    if us[u].closed then us[u].value else if us[u].value.Integer? && 0 <= us[u].value.n < |stack| then
      stack[us[u].value.n] else Null
  }

  lemma AllRead(us: seq<UpValue>, stack: seq<Value>, w: World)
    requires Agrees(us, stack, w)
    ensures forall u: nat :: u < |us| ==> Read(us, stack, u) == w.store[w.captured[u]]
  {
    forall u: nat | u < |us| ensures Read(us, stack, u) == w.store[w.captured[u]] { assert Holds(us, w, u); }
  }

  lemma OpenBelow(us: seq<UpValue>, head: int, chain: seq<nat>, at: seq<nat>, stack: seq<Value>, w: World, n: nat)
    requires Linked(us, head, chain, at, |stack|) && Agrees(us, stack, w) && Allowed(w, PopTo(n))
    ensures forall i :: 0 <= i < |at| ==> at[i] < n
  {
    forall i: nat | i < |at| ensures at[i] < n {
      assert OpenAt(us, chain, at, |stack|, i);
      assert Holds(us, w, chain[i]);
    }
  }

  lemma AtIs(chain: seq<nat>, i: nat)
    ensures At(chain, i) == if i < |chain| then chain[i] else NONE
  {}

  lemma LinkedStart(us: seq<UpValue>, head: int, chain: seq<nat>, at: seq<nat>, size: nat)
    requires Linked(us, head, chain, at, size)
    ensures head == At(chain, 0) && |at| == |chain|
  {}

  // Of the indices in before those in at are left, and the first p of these are below frame.
  ghost predicate Weeded(before: seq<nat>, at: seq<nat>, frame: nat, p: nat)
  {
    && p <= |at| && (forall i :: 0 <= i < p ==> at[i] < frame)
    && (forall k :: k in at ==> k in before) && (forall k :: k in before && k < frame ==> k in at)
  }

  lemma WeededStart(at: seq<nat>, frame: nat)
    ensures Weeded(at, at, frame, 0)
  {}

  lemma WeededKept(before: seq<nat>, at: seq<nat>, frame: nat, p: nat)
    requires p < |at| && at[p] < frame && Weeded(before, at, frame, p)
    ensures Weeded(before, at, frame, p + 1)
  {}

  lemma WeededOnce(before: seq<nat>, at: seq<nat>, frame: nat, p: nat)
    requires p < |at| && at[p] >= frame && Weeded(before, at, frame, p)
    ensures Weeded(before, Without(at, p), frame, p)
  {
    WithoutIn(at, p);
  }

  lemma WeededDone(before: seq<nat>, at: seq<nat>, frame: nat, p: nat)
    requires p == |at| && Weeded(before, at, frame, p)
    ensures forall k :: k in at <==> k in before && k < frame
  {}

  // The upvalues in rest are as they were, and the others have been dealt with.
  ghost predicate Partly(us: seq<UpValue>, us': seq<UpValue>, stack: seq<Value>, frame: nat, rest: seq<nat>)
  {
    |us'| == |us| && forall u: nat :: u < |us| ==> Bare(us'[u]) == if u in rest then Bare(us[u])
      else Shed(us[u], stack, frame)
  }

  lemma PartlyStart(us: seq<UpValue>, stack: seq<Value>, frame: nat, head: int, chain: seq<nat>, at: seq<nat>)
    requires Linked(us, head, chain, at, |stack|)
    ensures Partly(us, us, stack, frame, chain[0..])
  {
    assert chain[0..] == chain;
  }

  lemma PartlyDone(us: seq<UpValue>, us': seq<UpValue>, stack: seq<Value>, frame: nat, chain: seq<nat>, p: nat)
    requires p == |chain| && Partly(us, us', stack, frame, chain[p..])
    ensures |us'| == |us| && forall u: nat :: u < |us'| ==> Bare(us'[u]) == Shed(us[u], stack, frame)
  {}

  lemma PartlyKept(us: seq<UpValue>, us': seq<UpValue>, stack: seq<Value>, frame: nat, chain: seq<nat>, at: seq<nat>,
      p: nat)
    requires p < |chain| == |at| && OpenAt(us', chain, at, |stack|, p) && at[p] < frame
      && Partly(us, us', stack, frame, chain[p..])
    ensures Partly(us, us', stack, frame, chain[p + 1..])
  {
    assert chain[p..] == [chain[p]] + chain[p + 1..];
  }

  lemma PartlyClosed(us: seq<UpValue>, us1: seq<UpValue>, us2: seq<UpValue>, stack: seq<Value>, frame: nat,
      chain: seq<nat>, at: seq<nat>, p: nat)
    requires p < |chain| == |at| && chain[p] !in chain[p + 1..] && OpenAt(us1, chain, at, |stack|, p) && at[p] >= frame
    requires Partly(us, us1, stack, frame, chain[p..]) && |us2| == |us1|
    requires forall u: nat :: u < |us1| ==> Bare(us2[u]) == if u == chain[p] then Bare(Closed(us1[u], stack))
      else Bare(us1[u])
    ensures Partly(us, us2, stack, frame, Without(chain, p)[p..])
  {
    assert chain[p..] == [chain[p]] + chain[p + 1..];
    assert Without(chain, p)[p..] == chain[p + 1..];
    assert Bare(us1[chain[p]]) == Bare(us[chain[p]]);
  }

  function Closed(u: UpValue, stack: seq<Value>): UpValue
    requires u.value.Integer? && 0 <= u.value.n < |stack|
  { u.(value := stack[u.value.n], closed := true) }

  lemma Resized(us: seq<UpValue>, head: int, chain: seq<nat>, at: seq<nat>, size: nat, size': nat)
    requires Linked(us, head, chain, at, size) && (size <= size' || forall i :: 0 <= i < |at| ==> at[i] < size')
    ensures Linked(us, head, chain, at, size')
  {
    forall i: nat | i < |chain| ensures OpenAt(us, chain, at, size', i) { assert OpenAt(us, chain, at, size, i); }
  }

  lemma OpenElement(us: seq<UpValue>, head: int, chain: seq<nat>, at: seq<nat>, size: nat, p: nat)
    requires Linked(us, head, chain, at, size) && p < |chain|
    ensures |at| == |chain| && OpenAt(us, chain, at, size, p) && (p > 0 ==> OpenAt(us, chain, at, size, p - 1))
    ensures At(chain, p) == chain[p] < |us| && at[p] < size
      && us[chain[p]] == UpValue(false, Integer(at[p]), At(chain, p + 1))
    ensures p > 0 ==> chain[p - 1] < |us|
  {}

  lemma OneClosed(us0: seq<UpValue>, us: seq<UpValue>, us': seq<UpValue>, head: int, head': int, chain: seq<nat>,
      at: seq<nat>, stack: seq<Value>, frame: nat, p: nat)
    requires p < |chain| && Linked(us, head, chain, at, |stack|) && Partly(us0, us, stack, frame, chain[p..])
    requires |at| == |chain| && OpenAt(us, chain, at, |stack|, p) && (p > 0 ==> OpenAt(us, chain, at, |stack|, p - 1))
      && at[p] >= frame
    requires var us1 := us[chain[p] := Closed(us[chain[p]], stack)];
      if p == 0 then us' == us1 && head' == us1[chain[p]].next
      else us' == us1[chain[p - 1] := us1[chain[p - 1]].(next := us1[chain[p]].next)] && head' == head
    ensures Linked(us', head', Without(chain, p), Without(at, p), |stack|)
    ensures Partly(us0, us', stack, frame, Without(chain, p)[p..])
    ensures us'[chain[p]].next == At(Without(chain, p), p)
  {
    hide Linked, Partly;
    Removed(us, head, chain, at, stack, p);
    PartlyClosed(us0, us, us', stack, frame, chain, at, p);
  }

  // The list after element p has been closed and left out.
  lemma Removed(us: seq<UpValue>, head: int, chain: seq<nat>, at: seq<nat>, stack: seq<Value>, p: nat)
    requires p < |chain| && Linked(us, head, chain, at, |stack|)
    ensures head == At(chain, 0) && chain[p] !in chain[p + 1..] && (p > 0 ==> chain[p - 1] != chain[p])
    ensures OpenAt(us, chain, at, |stack|, p) && (p > 0 ==> OpenAt(us, chain, at, |stack|, p - 1))
    ensures var us1 := us[chain[p] := Closed(us[chain[p]], stack)];
      var us2 := if p > 0 then us1[chain[p - 1] := us1[chain[p - 1]].(next := At(chain, p + 1))] else us1;
      Linked(us2, At(Without(chain, p), 0), Without(chain, p), Without(at, p), |stack|)
  {
    assert OpenAt(us, chain, at, |stack|, p);
    if p > 0 { assert OpenAt(us, chain, at, |stack|, p - 1); }
    forall j: nat | j < |chain| && chain[j] == chain[p]
      ensures j == p
    {
      OpenDistinct(us, head, chain, at, |stack|, j, p);
    }
    var us1 := us[chain[p] := Closed(us[chain[p]], stack)];
    var us2 := if p > 0 then us1[chain[p - 1] := us1[chain[p - 1]].(next := At(chain, p + 1))] else us1;
    var c, a := Without(chain, p), Without(at, p);
    WithoutIn(chain, p);
    forall i: nat | i < |c| ensures OpenAt(us2, c, a, |stack|, i) {
      var j := if i < p then i else i + 1;
      assert OpenAt(us, chain, at, |stack|, j);
      if p > 0 && chain[j] == chain[p - 1] { OpenDistinct(us, At(chain, 0), chain, at, |stack|, j, p - 1); }
    }
  }
}
