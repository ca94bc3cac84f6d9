/** The list of scheduled tasks, in the order of their fire times (TaskManager.cpp). */
module Tasks {

  class Task {
    var msSet: int
    var msTimeToFire: int
    var next: Task?
    var repeating: bool

    constructor ()
      ensures next == null && !repeating
    {
      msSet, msTimeToFire, next, repeating := 0, -1, null, false;
    }
  }

  // What a task does with the task manager while it executes, each action at its own time.
  datatype Action =
    | Run(task: Task, repeating: bool, delay: int, now: int)
    | Remove(task: Task)

  // Which tasks are scheduled after some actions.
  ghost function Scheduled(script: seq<Action>, tasks: set<Task>): set<Task> {
    if script == [] then tasks
    else Scheduled(script[1..], match script[0] case Run(t, _, _, _) => tasks + {t} case Remove(t) => tasks - {t})
  }

  // Nobody schedules a task that is waiting already.
  ghost predicate Proper(script: seq<Action>, tasks: set<Task>) {
    script != [] ==> match script[0]
      case Run(t, _, _, _) => t !in tasks && Proper(script[1..], tasks + {t})
      case Remove(t) => Proper(script[1..], tasks - {t})
  }

  ghost function Mentioned(script: seq<Action>): set<Task> { set a | a in script :: a.task }

  function Clamped(delay: int): int {
    if delay > 6000000 then 6000000 else if delay < 5 then 0 else delay
  }

  // A waiting task in the reference queue: what it was scheduled with, and when it fires.
  datatype Slot = Slot(task: Task, time: int, delay: int, repeating: bool)

  function NewSlot(t: Task, repeating: bool, delay: int, now: int): Slot
  { Slot(t, now + Clamped(delay), Clamped(delay), repeating) }

  ghost function SlotOf(t: Task): Slot
    reads t
  { Slot(t, t.msTimeToFire, t.msSet, t.repeating) }

  ghost function Slots(q: seq<Task>): (r: seq<Slot>)
    reads q
    ensures |r| == |q| && forall i :: 0 <= i < |q| ==> r[i] == SlotOf(q[i])
  { if q == [] then [] else [SlotOf(q[0])] + Slots(q[1..]) }

  ghost function Names(q: seq<Slot>): set<Task> { set s | s in q :: s.task }

  // First in, first out: behind all that fire no later.
  function Put(q: seq<Slot>, s: Slot): seq<Slot>
  { if q == [] || s.time < q[0].time then [s] + q else [q[0]] + Put(q[1..], s) }

  function Out(q: seq<Slot>, t: Task): seq<Slot>
  { if q == [] then [] else if q[0].task == t then q[1..] else [q[0]] + Out(q[1..], t) }

  function Acted(action: Action, q: seq<Slot>): seq<Slot> {
    match action
    case Run(t, repeating, delay, now) => Put(q, NewSlot(t, repeating, delay, now))
    case Remove(t) => Out(q, t)
  }

  // The queue after some actions.
  function Order(script: seq<Action>, q: seq<Slot>): seq<Slot>
  { if script == [] then q else Order(script[1..], Acted(script[0], q)) }

  // What a task was last scheduled with after some actions.
  function Latest(script: seq<Action>, s: Slot): Slot
  { if script == [] then s else Latest(script[1..], Rescheduled(script[0], s)) }

  function Rescheduled(action: Action, s: Slot): Slot {
    match action
    case Run(t, repeating, delay, now) => if t == s.task then NewSlot(t, repeating, delay, now) else s
    case Remove(_) => s
  }

  // What happens to the task manager. A firing task executes a script.
  datatype Step = Do(action: Action) | Fire(script: seq<Action>, now: int)

  function Refired(script: seq<Action>, now: int, q: seq<Slot>): seq<Slot>
    requires q != []
  {
    var rest, s := Order(script, q[1..]), Latest(script, q[0]);
    if s.repeating then Put(rest, NewSlot(q[0].task, true, s.delay, now)) else rest
  }

  ghost predicate Allowed(step: Step, q: seq<Slot>) {
    match step
    case Do(action) => action.Run? ==> action.task !in Names(q)
    case Fire(script, _) =>
      && q != [] && Proper(script, Names(q[1..]))
      && (Latest(script, q[0]).repeating ==> q[0].task !in Names(Order(script, q[1..])))
  }

  function Stepped(step: Step, q: seq<Slot>): seq<Slot>
    requires step.Fire? ==> q != []
  {
    match step
    case Do(action) => Acted(action, q)
    case Fire(script, now) => Refired(script, now, q)
  }

  ghost predicate AllAllowed(steps: seq<Step>, q: seq<Slot>)
  { steps != [] ==> Allowed(steps[0], q) && AllAllowed(steps[1..], Stepped(steps[0], q)) }

  ghost function After(steps: seq<Step>, q: seq<Slot>): seq<Slot>
    requires AllAllowed(steps, q)
  { if steps == [] then q else After(steps[1..], Stepped(steps[0], q)) }

  // The tasks that fire, in their order.
  ghost function Fired(steps: seq<Step>, q: seq<Slot>): seq<Task>
    requires AllAllowed(steps, q)
  {
    if steps == [] then []
    else (if steps[0].Fire? then [q[0].task] else []) + Fired(steps[1..], Stepped(steps[0], q))
  }

  function Actions(step: Step): seq<Action> { match step case Do(action) => [action] case Fire(script, _) => script }

  ghost function AllMentioned(steps: seq<Step>): set<Task>
  { set step, a | step in steps && a in Actions(step) :: a.task }

  lemma MentionedMore(steps: seq<Step>)
    requires steps != []
    ensures Mentioned(Actions(steps[0])) <= AllMentioned(steps) && AllMentioned(steps[1..]) <= AllMentioned(steps)
    ensures steps[0].Do? ==> steps[0].action.task in AllMentioned(steps)
  {
    assert steps[0] in steps;
    forall t | t in Mentioned(Actions(steps[0])) ensures t in AllMentioned(steps) {
      var a :| a in Actions(steps[0]) && a.task == t;
    }
    if steps[0].Do? { assert Actions(steps[0])[0] in Actions(steps[0]); }
  }

  // a stands before b.
  ghost predicate Ahead(q: seq<Slot>, a: Task, b: Task)
  { exists i: nat, j: nat :: i < j < |q| && q[i].task == a && q[j].task == b }

  ghost predicate Once(q: seq<Slot>)
  { forall i, j :: 0 <= i < j < |q| ==> q[i].task != q[j].task }

  lemma {:induction false} PutAt(q: seq<Slot>, s: Slot, k: nat)
    requires k <= |q| && (forall i :: 0 <= i < k ==> q[i].time <= s.time)
    requires forall i :: k <= i < |q| ==> s.time < q[i].time
    ensures Put(q, s) == q[..k] + [s] + q[k..]
  {
    if k > 0 { PutAt(q[1..], s, k - 1); }
  }

  lemma {:induction false} OutAt(q: seq<Slot>, t: Task, k: nat)
    requires k < |q| && q[k].task == t && forall i :: 0 <= i < k ==> q[i].task != t
    ensures Out(q, t) == q[..k] + q[k + 1..]
  {
    if k > 0 { OutAt(q[1..], t, k - 1); }
  }

  lemma {:induction false} OutNone(q: seq<Slot>, t: Task)
    requires t !in Names(q)
    ensures Out(q, t) == q
  {
    if q != [] {
      assert q[0] in q;
      OutNone(q[1..], t);
    }
  }

  ghost predicate InOrder(q: seq<Slot>) { forall i, j :: 0 <= i < j < |q| ==> q[i].time <= q[j].time }

  lemma {:induction false} PutSomewhere(q: seq<Slot>, s: Slot) returns (k: nat)
    requires InOrder(q)
    ensures k <= |q| && Put(q, s) == q[..k] + [s] + q[k..]
    ensures (forall i :: 0 <= i < k ==> q[i].time <= s.time) && forall i :: k <= i < |q| ==> s.time < q[i].time
  {
    if q == [] || s.time < q[0].time {
      k := 0;
    } else {
      k := PutSomewhere(q[1..], s);
      k := k + 1;
      forall i | k <= i < |q| ensures s.time < q[i].time { assert q[i] == q[1..][i - 1]; }
    }
  }

  lemma {:induction false} OutSomewhere(q: seq<Slot>, t: Task) returns (k: nat)
    requires t in Names(q)
    ensures k < |q| && q[k].task == t && Out(q, t) == q[..k] + q[k + 1..]
  {
    if q[0].task == t {
      k := 0;
    } else {
      k := OutSomewhere(q[1..], t);
      k := k + 1;
    }
  }

  lemma InsertOnce(q: seq<Slot>, s: Slot, k: nat, p: seq<Slot>)
    requires Once(q) && s.task !in Names(q) && k <= |q| && p == q[..k] + [s] + q[k..]
    ensures Once(p)
  {
    assert forall i :: 0 <= i < |q| ==> q[i] in q && q[i].task in Names(q);
    assert forall i :: 0 <= i < |p| ==> p[i] == if i < k then q[i] else if i == k then s else q[i - 1];
  }

  lemma InsertInOrder(q: seq<Slot>, s: Slot, k: nat, p: seq<Slot>)
    requires InOrder(q) && k <= |q| && p == q[..k] + [s] + q[k..]
    requires (forall i :: 0 <= i < k ==> q[i].time <= s.time) && forall i :: k <= i < |q| ==> s.time < q[i].time
    ensures InOrder(p)
  {
    assert forall i :: 0 <= i < |p| ==> p[i] == if i < k then q[i] else if i == k then s else q[i - 1];
  }

  lemma InsertNames(q: seq<Slot>, s: Slot, k: nat, p: seq<Slot>)
    requires k <= |q| && p == q[..k] + [s] + q[k..]
    ensures Names(p) == Names(q) + {s.task}
  {
    assert q == q[..k] + q[k..];
    assert s in p;
    forall x | x in q ensures x in p {}
  }

  lemma DeleteKeeps(q: seq<Slot>, k: nat, p: seq<Slot>)
    requires Once(q) && InOrder(q) && k < |q| && p == q[..k] + q[k + 1..]
    ensures Once(p) && InOrder(p)
  {
    assert forall i :: 0 <= i < |p| ==> p[i] == q[if i < k then i else i + 1];
  }

  lemma DeleteNames(q: seq<Slot>, k: nat, p: seq<Slot>)
    requires Once(q) && k < |q| && p == q[..k] + q[k + 1..]
    ensures Names(p) == Names(q) - {q[k].task}
  {
    forall x | x in q && x != q[k] ensures x in p && x.task != q[k].task {
      var i :| 0 <= i < |q| && q[i] == x;
      assert p[if i < k then i else i - 1] == x;
    }
    forall x | x in p ensures x in q && x.task != q[k].task {
      var i :| 0 <= i < |p| && p[i] == x;
      assert q[if i < k then i else i + 1] == x;
    }
  }

  lemma PutKeeps(q: seq<Slot>, s: Slot)
    requires Once(q) && InOrder(q) && s.task !in Names(q)
    ensures Once(Put(q, s)) && InOrder(Put(q, s)) && Names(Put(q, s)) == Names(q) + {s.task}
  {
    hide Once, InOrder, Names, Put;
    var k := PutSomewhere(q, s);
    InsertOnce(q, s, k, Put(q, s));
    InsertInOrder(q, s, k, Put(q, s));
    InsertNames(q, s, k, Put(q, s));
  }

  lemma OutKeeps(q: seq<Slot>, t: Task)
    requires Once(q) && InOrder(q)
    ensures Once(Out(q, t)) && InOrder(Out(q, t)) && Names(Out(q, t)) == Names(q) - {t}
  {
    hide Once, InOrder, Names, Out;
    if t in Names(q) {
      var k := OutSomewhere(q, t);
      DeleteKeeps(q, k, Out(q, t));
      DeleteNames(q, k, Out(q, t));
    } else {
      OutNone(q, t);
    }
  }

  lemma ActedKeeps(action: Action, q: seq<Slot>)
    requires Once(q) && InOrder(q) && (action.Run? ==> action.task !in Names(q))
    ensures Once(Acted(action, q)) && InOrder(Acted(action, q))
    ensures Names(Acted(action, q)) == if action.Run? then Names(q) + {action.task} else Names(q) - {action.task}
  {
    hide Once, InOrder, Names, Put, Out;
    match action
    case Run(t, repeating, delay, now) => PutKeeps(q, NewSlot(t, repeating, delay, now));
    case Remove(t) => OutKeeps(q, t);
  }

  lemma {:induction false} OrderKeeps(script: seq<Action>, q: seq<Slot>)
    requires Once(q) && InOrder(q) && Proper(script, Names(q))
    ensures Once(Order(script, q)) && InOrder(Order(script, q))
    ensures Names(Order(script, q)) == Scheduled(script, Names(q))
  {
    if script != [] {
      ActedKeeps(script[0], q);
      OrderKeeps(script[1..], Acted(script[0], q));
    }
  }

  // A step keeps every task on the queue once, and the queue in the order of the fire times.
  lemma SteppedKeeps(step: Step, q: seq<Slot>)
    requires Once(q) && InOrder(q) && Allowed(step, q)
    ensures Once(Stepped(step, q)) && InOrder(Stepped(step, q))
  {
    match step
    case Do(action) => ActedKeeps(action, q);
    case Fire(script, now) =>
      OrderKeeps(script, q[1..]);
      var rest, s := Order(script, q[1..]), Latest(script, q[0]);
      if s.repeating { ActedKeeps(Run(q[0].task, true, s.delay, now), rest); }
  }

  // A task is put behind exactly those that fire no later.
  lemma BehindIff(q: seq<Slot>, s: Slot, i: nat)
    requires Once(q) && InOrder(q) && i < |q| && s.task !in Names(q)
    ensures Ahead(Put(q, s), q[i].task, s.task) <==> q[i].time <= s.time
    ensures Ahead(Put(q, s), s.task, q[i].task) <==> s.time < q[i].time
  {
    hide InOrder, Names, Put;
    PutKeeps(q, s);
    var k := PutSomewhere(q, s);
    var p := Put(q, s);
    assert p[if i < k then i else i + 1] == q[i] && p[k] == s;
  }

  ghost predicate Keeps(action: Action, a: Task, b: Task) { action.Remove? ==> action.task != a && action.task != b }

  lemma AheadPut(q: seq<Slot>, s: Slot, a: Task, b: Task)
    requires InOrder(q) && Ahead(q, a, b)
    ensures Ahead(Put(q, s), a, b)
  {
    hide InOrder, Put;
    var i: nat, j: nat :| i < j < |q| && q[i].task == a && q[j].task == b;
    var k := PutSomewhere(q, s);
    var p := Put(q, s);
    assert p[if i < k then i else i + 1].task == a && p[if j < k then j else j + 1].task == b;
  }

  lemma AheadOut(q: seq<Slot>, t: Task, a: Task, b: Task)
    requires Ahead(q, a, b) && t != a && t != b
    ensures Ahead(Out(q, t), a, b)
  {
    hide Out;
    if t in Names(q) {
      var i: nat, j: nat :| i < j < |q| && q[i].task == a && q[j].task == b;
      var k := OutSomewhere(q, t);
      var p := Out(q, t);
      assert p[if i < k then i else i - 1].task == a && p[if j < k then j else j - 1].task == b;
    } else {
      OutNone(q, t);
    }
  }

  lemma AheadActed(action: Action, q: seq<Slot>, a: Task, b: Task)
    requires InOrder(q) && Ahead(q, a, b) && Keeps(action, a, b)
    ensures Ahead(Acted(action, q), a, b)
  {
    hide InOrder, Ahead, Put, Out;
    match action
    case Run(t, repeating, delay, now) => AheadPut(q, NewSlot(t, repeating, delay, now), a, b);
    case Remove(t) => AheadOut(q, t, a, b);
  }

  lemma {:induction false} AheadOrder(script: seq<Action>, q: seq<Slot>, a: Task, b: Task)
    requires Once(q) && InOrder(q) && Proper(script, Names(q)) && Ahead(q, a, b)
    requires forall action :: action in script ==> Keeps(action, a, b)
    ensures Ahead(Order(script, q), a, b)
  {
    if script != [] {
      AheadActed(script[0], q, a, b);
      ActedKeeps(script[0], q);
      AheadOrder(script[1..], Acted(script[0], q), a, b);
    }
  }

  // Unless a fires, it stays ahead.
  lemma AheadStepped(step: Step, q: seq<Slot>, a: Task, b: Task)
    requires Once(q) && InOrder(q) && Allowed(step, q) && Ahead(q, a, b) && (step.Fire? ==> q[0].task != a)
    requires forall action :: action in Actions(step) ==> Keeps(action, a, b)
    ensures Ahead(Stepped(step, q), a, b) && (step.Fire? ==> q[0].task != b)
  {
    match step
    case Do(action) => AheadActed(action, q, a, b);
    case Fire(script, now) =>
      var i: nat, j: nat :| i < j < |q| && q[i].task == a && q[j].task == b;
      assert q[1..][i - 1] == q[i] && q[1..][j - 1] == q[j];
      OrderKeeps(script, q[1..]);
      AheadOrder(script, q[1..], a, b);
      var rest, s := Order(script, q[1..]), Latest(script, q[0]);
      if s.repeating { AheadActed(Run(q[0].task, true, s.delay, now), rest, a, b); }
  }

  lemma BehindFirst(first: seq<Task>, more: seq<Task>, a: Task, b: Task)
    requires a != b && (first == [a] || (b !in first && forall j :: 0 <= j < |more| && more[j] == b ==> a in more[..j]))
    ensures forall j :: 0 <= j < |first + more| && (first + more)[j] == b ==> a in (first + more)[..j]
  {
    assert forall j :: 0 <= j < |first| ==> (first + more)[j] == first[j] && first[j] != b;
    forall j | |first| <= j < |first + more| && (first + more)[j] == b ensures a in (first + more)[..j] {
      var i := j - |first|;
      assert more[i] == b && (first + more)[..j] == first + more[..i];
    }
  }

  lemma AheadDiffer(q: seq<Slot>, a: Task, b: Task)
    requires Once(q) && Ahead(q, a, b)
    ensures a != b
  {}

  // Of two waiting tasks the one that stands ahead fires first, whatever else is scheduled, removed and fired.
  lemma {:induction false} AheadFires(steps: seq<Step>, q: seq<Slot>, a: Task, b: Task)
    requires Once(q) && InOrder(q) && AllAllowed(steps, q) && Ahead(q, a, b)
    requires forall step, action :: step in steps && action in Actions(step) ==> Keeps(action, a, b)
    ensures forall j :: 0 <= j < |Fired(steps, q)| && Fired(steps, q)[j] == b ==> a in Fired(steps, q)[..j]
  {
    if steps != [] {
      var q' := Stepped(steps[0], q);
      var first, more := if steps[0].Fire? then [q[0].task] else [], Fired(steps[1..], q');
      assert Fired(steps, q) == first + more;
      assert Allowed(steps[0], q) && AllAllowed(steps[1..], q');
      hide Once, InOrder, AllAllowed, Allowed, Ahead, Fired, Stepped, Keeps, Actions;
      AheadDiffer(q, a, b);
      if !(steps[0].Fire? && q[0].task == a) {
        SteppedKeeps(steps[0], q);
        AheadStepped(steps[0], q, a, b);
        AheadFires(steps[1..], q', a, b);
      }
      BehindFirst(first, more, a, b);
    }
  }

  // First in, first out: when s is scheduled while a is waiting and does not fire later, a fires first.
  lemma FirstInFirstOut(q: seq<Slot>, s: Slot, i: nat, steps: seq<Step>)
    requires Once(q) && InOrder(q) && s.task !in Names(q) && i < |q| && q[i].time <= s.time
    requires AllAllowed(steps, Put(q, s))
    requires forall step, action :: step in steps && action in Actions(step) ==> Keeps(action, q[i].task, s.task)
    ensures var fired := Fired(steps, Put(q, s));
      forall j :: 0 <= j < |fired| && fired[j] == s.task ==> q[i].task in fired[..j]
  {
    hide Once, InOrder, Names, Put, Ahead, AllAllowed, Fired, Keeps, Actions;
    PutKeeps(q, s);
    BehindIff(q, s, i);
    AheadFires(steps, Put(q, s), q[i].task, s.task);
  }

  // When a task fires: at once, after its delay, or after a hundred minutes at the latest.
  lemma FireTimes(t: Task, repeating: bool, delay: int, now: int)
    ensures var s := NewSlot(t, repeating, delay, now);
      && s.task == t && s.repeating == repeating && s.time == now + s.delay
      && (delay < 5 ==> s.time == now) && (5 <= delay <= 6000000 ==> s.time == now + delay)
      && (delay > 6000000 ==> s.time == now + 6000000)
  {}

  // The smaller delay never fires later, in whichever order two tasks are scheduled at the same time.
  lemma SmallerDelay(a: Task, b: Task, r: bool, r': bool, delay: int, delay': int, now: int)
    requires delay <= delay'
    ensures NewSlot(a, r, delay, now).time <= NewSlot(b, r', delay', now).time
  {}

  // A task that is scheduled now, with a delay that ends before a waiting one is due, fires before it.
  lemma SoonerFires(q: seq<Slot>, t: Task, repeating: bool, delay: int, now: int, i: nat, steps: seq<Step>)
    requires Once(q) && InOrder(q) && t !in Names(q) && i < |q|
    requires delay <= 6000000 && now + (if delay < 5 then 0 else delay) < q[i].time
    requires AllAllowed(steps, Put(q, NewSlot(t, repeating, delay, now)))
    requires forall step, action :: step in steps && action in Actions(step) ==> Keeps(action, t, q[i].task)
    ensures var fired := Fired(steps, Put(q, NewSlot(t, repeating, delay, now)));
      forall j :: 0 <= j < |fired| && fired[j] == q[i].task ==> t in fired[..j]
  {
    var s := NewSlot(t, repeating, delay, now);
    FireTimes(t, repeating, delay, now);
    hide Once, InOrder, Names, Put, Ahead, AllAllowed, Fired, Keeps, Actions, NewSlot;
    PutKeeps(q, s);
    BehindIff(q, s, i);
    AheadFires(steps, Put(q, s), t, q[i].task);
  }

  // A repeating task that does nothing else is due again after the delay it was scheduled with.
  lemma DueAgain(q: seq<Slot>, now: int) returns (k: nat)
    requires q != [] && q[0].repeating && InOrder(q) && (q[0].delay == 0 || 5 <= q[0].delay <= 6000000)
    ensures k < |q| && Stepped(Fire([], now), q) == q[1..][..k] + [q[0].(time := now + q[0].delay)] + q[1..][k..]
    ensures forall i :: 0 <= i < k ==> q[1..][i].time <= now + q[0].delay
    ensures forall i :: k <= i < |q| - 1 ==> q[1..][i].time > now + q[0].delay
  {
    FireTimes(q[0].task, true, q[0].delay, now);
    k := PutSomewhere(q[1..], NewSlot(q[0].task, true, q[0].delay, now));
  }

  ghost predicate Linked(head: Task?, q: seq<Task>)
    reads q`next
  {
    && head == (if q == [] then null else q[0])
    && (forall i {:trigger q[i].next} :: 0 <= i < |q| ==> q[i].next == if i + 1 < |q| then q[i + 1] else null)
    && Distinct(q)
  }

  ghost predicate Distinct(q: seq<Task>) { forall i, j :: 0 <= i < j < |q| ==> q[i] != q[j] }

  function IndexOf(q: seq<Task>, t: Task): (i: nat)
    requires t in q
    ensures i < |q| && q[i] == t
  { if q[0] == t then 0 else 1 + IndexOf(q[1..], t) }

  ghost predicate Sorted(q: seq<Task>)
    reads q`msTimeToFire
  { forall i, j :: 0 <= i < j < |q| ==> q[i].msTimeToFire <= q[j].msTimeToFire }

  // From head there is no way out of s.
  ghost predicate Caught(head: Task?, s: set<Task>)
    reads s
  { head != null && head in s && forall t :: t in s ==> t.next != null && t.next in s }

  // A list that runs into a ring does not end, so it is no list of tasks at all.
  lemma {:induction false} CaughtNotLinked(head: Task?, s: set<Task>, q: seq<Task>)
    requires Caught(head, s)
    ensures !Linked(head, q)
  {
    if Linked(head, q) {
      CaughtForever(head, s, q, |q| - 1);
    }
  }

  lemma {:induction false} CaughtForever(head: Task?, s: set<Task>, q: seq<Task>, i: nat)
    requires Caught(head, s) && Linked(head, q) && i < |q|
    ensures q[i] in s
  {
    if i > 0 { CaughtForever(head, s, q, i - 1); }
  }

  // Where a task with this fire time goes: behind all that fire no later, before all that fire later.
  ghost predicate Place(q: seq<Task>, k: nat, time: int)
    reads q`msTimeToFire
  {
    && k <= |q|
    && (forall i :: 0 <= i < k ==> q[i].msTimeToFire <= time)
    && (forall i :: k <= i < |q| ==> time < q[i].msTimeToFire)
  }

  ghost predicate Queued(before: seq<Task>, t: Task, after: seq<Task>)
    reads before`msTimeToFire, t`msTimeToFire
  { exists k: nat :: Place(before, k, t.msTimeToFire) && after == before[..k] + [t] + before[k..] }

  ghost function Elements(q: seq<Task>): set<Task> { set t | t in q }

  lemma More(q: seq<Task>, k: nat, t: Task)
    requires k <= |q|
    ensures Elements(q[..k] + [t] + q[k..]) == Elements(q) + {t}
  { assert q == q[..k] + q[k..]; }

  lemma Absent(q: seq<Task>, t: Task)
    requires t !in q
    ensures Elements(q) - {t} == Elements(q)
  {}

  lemma Fewer(q: seq<Task>, k: nat)
    requires k < |q| && Distinct(q)
    ensures Elements(q[..k] + q[k + 1..]) == Elements(q) - {q[k]}
  {
    var q' := q[..k] + q[k + 1..];
    forall t | t in q && t != q[k] ensures t in q' {
      var i :| 0 <= i < |q| && q[i] == t;
      assert if i < k then q'[i] == t else q'[i - 1] == t;
    }
    forall t | t in q' ensures t in q && t != q[k] {
      var i :| 0 <= i < |q'| && q'[i] == t;
      assert q[if i < k then i else i + 1] == t;
    }
  }

  // The reference queue after task t has been put in at place k or taken out from there.
  lemma SlotsPut(before: seq<Slot>, q: seq<Task>, t: Task, k: nat, q': seq<Task>)
    requires k <= |q| == |before| && forall i :: 0 <= i < |q| ==> before[i] == SlotOf(q[i])
    requires q' == q[..k] + [t] + q[k..] && Place(q, k, t.msTimeToFire)
    ensures Slots(q') == Put(before, SlotOf(t))
  {
    PutAt(before, SlotOf(t), k);
    assert Slots(q') == before[..k] + [SlotOf(t)] + before[k..];
  }

  lemma SlotsOut(before: seq<Slot>, q: seq<Task>, k: nat, q': seq<Task>)
    requires k < |q| == |before| && forall i :: 0 <= i < |q| ==> before[i] == SlotOf(q[i])
    requires Distinct(q) && q' == q[..k] + q[k + 1..]
    ensures Slots(q') == Out(before, q[k])
  {
    OutAt(before, q[k], k);
    assert Slots(q') == before[..k] + before[k + 1..];
  }

  lemma StaysSorted(q: seq<Task>, k: nat)
    requires Sorted(q) && k < |q|
    ensures Sorted(q[..k] + q[k + 1..])
  {}

  lemma NamesOf(q: seq<Task>)
    ensures Names(Slots(q)) == Elements(q)
  {
    forall t | t in q ensures t in Names(Slots(q)) {
      var i :| 0 <= i < |q| && q[i] == t;
      assert Slots(q)[i] in Slots(q);
    }
  }

  lemma NamesBehind(q: seq<Task>)
    requires Distinct(q) && q != []
    ensures Names(Slots(q)[1..]) == Elements(q) - {q[0]}
  {
    hide Names, Elements, Distinct;
    NamesOf(q[1..]);
    Fewer(q, 0);
    assert Slots(q)[1..] == Slots(q[1..]) && q[..0] + q[1..] == q[1..];
  }

  class TaskManager {
    var head: Task?
    var posted: nat           // how often an event has been posted
    ghost var queue: seq<Task>

    ghost predicate Valid()
      reads this, queue
    { Linked(head, queue) && Sorted(queue) }

    ghost function Tasks(): set<Task>
      reads this
    { Elements(queue) }

    // The tasks in the order in which they stand, with what they were scheduled with.
    ghost function Waiting(): seq<Slot>
      reads this, queue
    { Slots(queue) }

    lemma WaitingInOrder()
      requires Valid()
      ensures Once(Waiting()) && InOrder(Waiting()) && Names(Waiting()) == Tasks()
    {
      NamesOf(queue);
    }

    constructor ()
      ensures Valid() && queue == [] && posted == 0
    {
      head, posted, queue := null, 0, [];
    }

    method PrepareForNextEvent()
      modifies this`posted
      ensures posted == old(posted) + if head != null then 1 else 0
    {
      if head == null { return; }
      posted := posted + 1;
    }

    lemma Inserted(k: nat, t: Task, q: seq<Task>)
      requires k <= |queue| && Distinct(queue) && t !in queue && Sorted(queue) && Place(queue, k, t.msTimeToFire)
      requires forall j {:trigger queue[j].next} :: 0 <= j < |queue| ==> queue[j].next == if j + 1 == k then t
        else if j + 1 < |queue| then queue[j + 1] else null
      requires t.next == (if k < |queue| then queue[k] else null) && head == (if k == 0 then t else queue[0])
      requires q == queue[..k] + [t] + queue[k..]
      ensures Linked(head, q) && Sorted(q) && Queued(queue, t, q) && Elements(q) == Elements(queue) + {t}
    {
      hide Elements;
      More(queue, k, t);
      forall j | 0 <= j < |q| ensures q[j].next == if j + 1 < |q| then q[j + 1] else null {
        if j > k { assert q[j] == queue[j - 1]; }
      }
    }

    lemma Removed(k: nat, q: seq<Task>)
      requires k < |queue| && Distinct(queue) && Sorted(queue) && q == queue[..k] + queue[k + 1..]
      requires forall j {:trigger queue[j].next} :: 0 <= j < |queue| ==>
        queue[j].next == (var i := if j + 1 == k then j + 2 else j + 1; if i < |queue| then queue[i] else null)
      requires head == if q == [] then null else q[0]
      ensures Linked(head, q) && Sorted(q)
    {
      StaysSorted(queue, k);
      hide Sorted;
      forall j | 0 <= j < |q| ensures q[j].next == if j + 1 < |q| then q[j + 1] else null {
        if j >= k { assert q[j] == queue[j + 1]; }
      }
    }

    // The task at place n was put in once more, and is now before itself.
    lemma Ringed(n: nat, t: Task)
      requires n < |queue| && queue[n] == t && t.next in queue[..n + 1] && head in queue[..n + 1]
      requires forall j {:trigger queue[j].next} :: 0 <= j < n ==> queue[j].next == queue[j + 1] || queue[j].next == t
      ensures exists s: set<Task> :: Caught(head, s)
    {
      var s := set j | 0 <= j <= n :: queue[j];
      forall x | x in s ensures x.next != null && x.next in s {
        var j :| 0 <= j <= n && queue[j] == x;
        assert j < n ==> queue[j + 1] in queue[..n + 1];
      }
      assert Caught(head, s);
    }

    // The task that the new one goes behind, or null if it becomes the head. The search stops at newTask if it meets
    // it.
    method FindPlace(newTask: Task, ghost n: nat) returns (prev: Task?, ghost k: nat)
      requires head == if queue == [] then null else queue[0]
      requires n == |queue| ==> Sorted(queue)
      requires n <= |queue| && (n < |queue| ==> queue[n] == newTask && newTask.next == null)
      requires forall j {:trigger queue[j].next} :: 0 <= j < |queue| && j != n ==>
        queue[j].next == if j + 1 < |queue| then queue[j + 1] else null
      ensures k <= |queue| && k <= n + 1 && prev == if k == 0 then null else queue[k - 1]
      ensures n == |queue| ==> Place(queue, k, newTask.msTimeToFire)
      ensures k == 0 ==> head != newTask
    {
      prev, k := null, 0;
      var task := head;
      while task != null && newTask.msTimeToFire >= task.msTimeToFire
        invariant k <= |queue| && k <= n + 1 && prev == if k == 0 then null else queue[k - 1]
        invariant task == if k < |queue| && k <= n then queue[k] else null
        invariant forall j :: 0 <= j < k ==> queue[j].msTimeToFire <= newTask.msTimeToFire
        decreases |queue| - k
      {
        prev, task, k := task, task.next, k + 1;
      }
    }

    method Link(newTask: Task, prev: Task?)
      modifies this`head, this`posted, newTask`next, (if prev == null then {} else {prev})`next
      ensures if prev == null
        then head == newTask && newTask.next == old(head) && posted == old(posted) + 1
        else head == old(head) && prev.next == newTask && posted == old(posted)
      ensures prev != null && prev != newTask ==> newTask.next == old(prev.next)
    {
      if prev != null {
        newTask.next := prev.next;
        prev.next := newTask;
      } else {
        newTask.next := head;
        head := newTask;
        PrepareForNextEvent();
      }
    }

    ghost method Accept(before: seq<Slot>, t: Task, k: nat)
      requires k <= |queue| && Distinct(queue) && t !in queue && Sorted(queue) && Place(queue, k, t.msTimeToFire)
      requires forall j {:trigger queue[j].next} :: 0 <= j < |queue| ==> queue[j].next == if j + 1 == k then t
        else if j + 1 < |queue| then queue[j + 1] else null
      requires t.next == (if k < |queue| then queue[k] else null) && head == (if k == 0 then t else queue[0])
      requires |before| == |queue| && forall i :: 0 <= i < |queue| ==> before[i] == SlotOf(queue[i])
      modifies this`queue
      ensures Valid() && Queued(old(queue), t, queue) && Tasks() == old(Tasks()) + {t}
      ensures Waiting() == Put(before, SlotOf(t))
    {
      hide Linked, Sorted, Queued, Elements, Put, Slots, Distinct, Place;
      ghost var q := queue[..k] + [t] + queue[k..];
      Inserted(k, t, q);
      SlotsPut(before, queue, t, k, q);
      queue := q;
    }

    // Links the new task into the list.
    method Insert(newTask: Task, ghost n: nat) returns (ghost k: nat)
      requires n == |queue| ==> Sorted(queue)
      requires head == if queue == [] then null else queue[0]
      requires n <= |queue| && newTask.next == null && Distinct(queue)
        && if n < |queue| then queue[n] == newTask else newTask !in queue
      requires forall j {:trigger queue[j].next} :: 0 <= j < |queue| && j != n ==>
        queue[j].next == if j + 1 < |queue| then queue[j + 1] else null
      modifies this`head, this`posted, newTask`next, queue`next
      ensures k <= |queue| && (n == |queue| ==> Place(queue, k, newTask.msTimeToFire))
      ensures n == |queue| ==>
        && newTask.next == (if k < |queue| then queue[k] else null) && head == (if k == 0 then newTask else queue[0])
        && forall j {:trigger queue[j].next} :: 0 <= j < |queue| ==>
           queue[j].next == if j + 1 == k then newTask else if j + 1 < |queue| then queue[j + 1] else null
      ensures n < |queue| ==>
        && newTask.next in queue[..n + 1] && head in queue[..n + 1]
        && forall j {:trigger queue[j].next} :: 0 <= j < n ==>
           queue[j].next == queue[j + 1] || queue[j].next == newTask
      ensures posted == old(posted) + if head == newTask && old(head) != newTask then 1 else 0
    {
      hide Sorted, Place;
      var prev;
      prev, k := FindPlace(newTask, n);
      Link(newTask, prev);
    }

    // The list stays well formed exactly when the task was not in it already. Only a new head posts an event.
    method RunTask(newTask: Task, delay: int, now: int)
      requires Valid()
      modifies this, newTask`msSet, newTask`msTimeToFire, newTask`next, queue`next
      ensures newTask.msSet == Clamped(delay) && newTask.msTimeToFire == now + newTask.msSet
      ensures delay < 5 ==> newTask.msTimeToFire == now
      ensures 5 <= delay <= 6000000 ==> newTask.msTimeToFire == now + delay
      ensures delay > 6000000 ==> newTask.msTimeToFire == now + 6000000
      ensures newTask !in old(queue) ==> Valid() && Queued(old(queue), newTask, queue)
      ensures newTask !in old(queue) ==> Tasks() == old(Tasks()) + {newTask}
      ensures newTask !in old(queue) ==>
        Waiting() == Put(old(Waiting()), NewSlot(newTask, newTask.repeating, delay, now))
      ensures newTask in old(queue) ==> exists s: set<Task> :: Caught(head, s)
      ensures posted == old(posted) + if head == newTask && old(head) != newTask then 1 else 0
    {
      hide Caught, Queued, Sorted, Elements, Put, Slots;
      var msSet := if delay > 6000000 then 6000000 else if delay < 5 then 0 else delay;
      newTask.msSet, newTask.next, newTask.msTimeToFire := msSet, null, now + msSet;
      ghost var n: nat := if newTask in queue then IndexOf(queue, newTask) else |queue|;
      assert Distinct(queue);
      ghost var k := Insert(newTask, n);
      hide Linked, Distinct;
      if n == |queue| {
        Accept(old(Slots(queue)), newTask, k);
      } else {
        Ringed(n, newTask);
      }
    }

    method RemoveTask(task: Task)
      requires Valid()
      modifies this, queue`next
      ensures Valid() && posted == old(posted)
      ensures if task in old(queue)
        then exists k: nat ::
          k < |old(queue)| && old(queue)[k] == task && queue == old(queue)[..k] + old(queue)[k + 1..]
        else queue == old(queue)
      ensures Tasks() == old(Tasks()) - {task} && Waiting() == Out(old(Waiting()), task)
    {
      hide Sorted, Elements, Out, Slots;
      var prev, t;
      ghost var k;
      prev, t, k := FindTask(task);
      if t == null {
        Absent(queue, task);
        NamesOf(queue);
        OutNone(Slots(queue), task);
        return;
      }
      if prev == null {
        head := head.next;
      } else {
        prev.next := t.next;
      }
      Fewer(queue, k);
      Removed(k, queue[..k] + queue[k + 1..]);
      SlotsOut(old(Slots(queue)), queue, k, queue[..k] + queue[k + 1..]);
      queue := queue[..k] + queue[k + 1..];
    }

    // The task and the one before it, or null if it is not waiting.
    method FindTask(task: Task) returns (prev: Task?, t: Task?, ghost k: nat)
      requires Linked(head, queue)
      ensures t == if k < |queue| then task else null
      ensures k <= |queue| && (k < |queue| ==> queue[k] == task) && (k == |queue| ==> task !in queue)
      ensures forall j :: 0 <= j < k ==> queue[j] != task
      ensures t != null ==> prev == if k == 0 then null else queue[k - 1]
    {
      prev, t, k := null, head, 0;
      while t != null && t != task
        invariant k <= |queue| && prev == if k == 0 then null else queue[k - 1]
        invariant t == if k < |queue| then queue[k] else null
        invariant forall j :: 0 <= j < k ==> queue[j] != task
        decreases |queue| - k
      {
        prev, t, k := t, t.next, k + 1;
      }
    }

    // The first half of fireEvent: the task to execute is off the list before it runs.
    method Take() returns (task: Task)
      requires Valid() && head != null
      modifies this, queue`next
      ensures Valid() && [task] + queue == old(queue) && posted == old(posted)
      ensures Tasks() == old(Tasks()) - {task} && [SlotOf(task)] + Waiting() == old(Waiting())
    {
      task := head;
      head := task.next;
      task.next := null;
      Fewer(queue, 0);
      queue := queue[1..];
    }

    method Act(action: Action, ghost running: Task)
      requires Valid() && (action.Run? ==> action.task !in queue)
      modifies this, queue, action.task
      ensures Valid() && Tasks() == if action.Run? then old(Tasks()) + {action.task} else old(Tasks()) - {action.task}
      ensures Waiting() == Acted(action, old(Waiting())) && SlotOf(running) == Rescheduled(action, old(SlotOf(running)))
    {
      hide Linked, Sorted, Elements, Put, Out, Slots, Queued, Caught;
      match action {
        case Run(t, repeating, delay, now) =>
          t.repeating := repeating;
          RunTask(t, delay, now);
        case Remove(t) =>
          RemoveTask(t);
      }
    }

    // What a task does while it executes. It may schedule itself, too.
    method Execute(script: seq<Action>, ghost running: Task)
      requires Valid() && Proper(script, Tasks())
      modifies this, queue, Mentioned(script)
      ensures Valid() && Tasks() == Scheduled(script, old(Tasks()))
      ensures Tasks() <= old(Tasks()) + Mentioned(script)
      ensures Waiting() == Order(script, old(Waiting())) && SlotOf(running) == Latest(script, old(SlotOf(running)))
      ensures script == [] ==> posted == old(posted) && queue == old(queue)
    {
      if script == [] { return; }
      assert Order(script, Waiting()) == Order(script[1..], Acted(script[0], Waiting()));
      assert Latest(script, SlotOf(running)) == Latest(script[1..], Rescheduled(script[0], SlotOf(running)));
      hide Linked, Sorted, Slots, Order, Latest, Put, Out, Acted, Rescheduled;
      Act(script[0], running);
      assert Mentioned(script) == Mentioned(script[1..]) + {script[0].task};
      assert forall t :: t in queue ==> t in Tasks();
      assert forall t :: t in queue ==> t in old(queue) || t in Mentioned(script);
      assert forall t :: t in Mentioned(script[1..]) ==> t in Mentioned(script);
      Execute(script[1..], running);
    }

    // The second half of fireEvent.
    method Settle(task: Task, now: int)
      requires Valid()
      modifies this, task, queue`next
      ensures task.repeating == old(task.repeating)
      ensures task.repeating && task in old(queue) ==> exists s: set<Task> :: Caught(head, s)
      ensures task.repeating && task !in old(queue) ==>
        Valid() && Tasks() == old(Tasks()) + {task}
        && Waiting() == Put(old(Waiting()), NewSlot(task, true, old(task.msSet), now))
      ensures !task.repeating ==> Valid() && Tasks() == old(Tasks()) && Waiting() == old(Waiting())
      ensures task !in old(queue) ==>
        posted == old(posted) + if head != null && (task.repeating ==> head == task) then 1 else 0
    {
      hide Caught, Queued, Sorted, Elements, Put, Slots;
      if task.repeating {
        RunTask(task, task.msSet, now);
      } else {
        PrepareForNextEvent();
      }
    }

    // The task with the least fire time executes, off the list.
    method Begin(script: seq<Action>) returns (task: Task)
      requires Valid() && head != null && Proper(script, Tasks() - {head})
      modifies this, queue, Mentioned(script)
      ensures task == old(head) && old(queue) != [] && old(Waiting()) != [] && old(Waiting())[0].task == task
        && forall t :: t in old(queue) ==> old(head.msTimeToFire) <= old(t.msTimeToFire)
      ensures Valid() && Tasks() == Scheduled(script, old(Tasks()) - {task}) == Names(Waiting())
      ensures Waiting() == Order(script, old(Waiting())[1..]) && SlotOf(task) == Latest(script, old(Waiting())[0])
      ensures Tasks() <= old(Tasks()) + Mentioned(script) && task in old(Tasks()) && task in old(queue)
      ensures forall t :: t in queue <==> t in Tasks()
      ensures forall t :: t in queue ==> t in old(queue) || t in Mentioned(script)
      ensures script == [] ==> posted == old(posted) && task !in queue
    {
      assert forall t :: t in queue ==> head.msTimeToFire <= t.msTimeToFire;
      assert head in queue && head !in queue[1..];
      hide Linked, Sorted, Queued, Caught, Scheduled, Proper, Order, Latest, Put, Slots;
      task := Take();
      assert queue == old(queue)[1..];
      Execute(script, task);
      NamesOf(queue);
    }

    // The list stays well formed exactly if the task is not repeating and scheduled again meanwhile.
    method FireEvent(script: seq<Action>, now: int)
      requires Valid() && head != null && Proper(script, Tasks() - {head})
      modifies this, queue, Mentioned(script)
      ensures var task, others := old(head), Scheduled(script, old(Tasks()) - {old(head)});
        && (forall t :: t in old(queue) ==> old(head.msTimeToFire) <= old(t.msTimeToFire))
        && (task.repeating && task in others ==> exists s: set<Task> :: Caught(head, s))
        && (!(task.repeating && task in others) ==>
             Valid() && Tasks() == if task.repeating then others + {task} else others)
      ensures var q := old(Waiting());
        && q != [] && old(head).repeating == Latest(script, q[0]).repeating
        && Names(Order(script, q[1..])) == Scheduled(script, old(Tasks()) - {old(head)})
        && (!(old(head).repeating && old(head) in Names(Order(script, q[1..]))) ==>
             Waiting() == Refired(script, now, q) && Tasks() <= old(Tasks()) + Mentioned(script))
      ensures script == [] ==>
        posted == old(posted) + if head != null && (old(head).repeating ==> head == old(head)) then 1 else 0
    {
      hide Linked, Sorted, Queued, Caught, Scheduled, Proper, Order, Latest, Put, Slots, Names, Elements, Mentioned;
      var task := Begin(script);
      Settle(task, now);
    }

    method DoStep(step: Step) returns (fired: seq<Task>)
      requires Valid() && Allowed(step, Waiting())
      modifies this, queue, Mentioned(Actions(step))
      ensures Valid() && Waiting() == Stepped(step, old(Waiting()))
      ensures step.Fire? ==> old(Waiting()) != []
      ensures fired == if step.Fire? then [old(Waiting())[0].task] else []
      ensures forall t :: t in queue ==> t in old(queue) || t in Mentioned(Actions(step))
    {
      NamesOf(queue);
      if queue != [] { NamesBehind(queue); }
      assert head == null <==> queue == [];
      assert Names(Waiting()) == Tasks() && forall t :: t in queue <==> t in Tasks();
      hide Linked, Sorted, Names, Slots, Proper, Scheduled, Order, Latest, Put, Out, Elements;
      match step {
        case Do(action) =>
          assert Mentioned([action]) == {action.task};
          assert action.Run? ==> action.task !in Tasks();
          Act(action, action.task);
          fired := [];
        case Fire(script, now) =>
          fired := [head];
          FireEvent(script, now);
      }
      InTasks();
    }

    lemma InTasks()
      ensures forall t :: t in queue <==> t in Tasks()
    {}

    // Any interleaving of scheduling, removing and firing does to the list what it does to the reference queue.
    method Run(steps: seq<Step>) returns (fired: seq<Task>)
      requires Valid() && AllAllowed(steps, Waiting())
      modifies this, queue, AllMentioned(steps)
      ensures Valid() && Waiting() == After(steps, old(Waiting())) && fired == Fired(steps, old(Waiting()))
    {
      if steps == [] { return []; }
      MentionedMore(steps);
      hide Linked, Sorted, AllMentioned, Mentioned, Allowed, Stepped, Actions, Slots;
      fired := DoStep(steps[0]);
      var more := Run(steps[1..]);
      fired := fired + more;
    }
  }
}
