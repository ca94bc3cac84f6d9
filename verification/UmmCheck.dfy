/** The integrity check of umm_malloc.c: two walks that mark blocks and unmark them again. */
module UmmCheck {
  import opened UmmHeap

  // The cells of h, with the prev words of the blocks in f carrying the free-list flag.
  ghost predicate Flagged(h: seq<Cell>, h': seq<Cell>, f: seq<nat>)
  {
    && |h'| == |h|
    && forall i: nat :: i < |h| ==>
      h'[i] == h[i].(prev := if i in f then WithMask(h[i].prev) else h[i].prev)
  }

  // The walk of the free list meets f[i] after f[i - 1], which f[i] names as its predecessor.
  ghost predicate FreeStep(h: seq<Cell>, f: seq<nat>, i: nat)
  {
    && i < |f| && 0 < f[i] < |h| && At(f, i - 1) < |h|
    && h[At(f, i - 1)].nfree == f[i] && h[f[i]].pfree == At(f, i - 1)
  }

  ghost predicate FreeWalk(h: seq<Cell>, f: seq<nat>)
  { |h| > 0 && Distinct(f) && forall i :: 0 <= i < |f| ==> FreeStep(h, f, i) }

  ghost predicate FreeEnd(h: seq<Cell>, f: seq<nat>)
  { At(f, |f| - 1) < |h| && h[At(f, |f| - 1)].nfree == 0 }

  lemma ChainIsWalk(h: seq<Cell>, f: seq<nat>)
    requires Chain(h, f)
    ensures FreeWalk(h, f) && FreeEnd(h, f)
  {
    forall i | 0 <= i < |f| ensures FreeStep(h, f, i) {
      assert FreeLink(h, f, i);
      if i > 0 { assert FreeLink(h, f, i - 1); }
    }
    if |f| > 0 { assert FreeLink(h, f, |f| - 1); }
  }

  lemma WalkIsChain(h: seq<Cell>, f: seq<nat>)
    requires FreeWalk(h, f) && FreeEnd(h, f)
    ensures Chain(h, f)
  {
    forall i | 0 <= i < |f| ensures 0 < f[i] < |h| && FreeLink(h, f, i) {
      assert FreeStep(h, f, i);
      if i + 1 < |f| { assert FreeStep(h, f, i + 1); }
    }
    if |f| > 0 { assert FreeStep(h, f, 0); }
  }

  // A block that names the last one met as its predecessor has not been met before.
  lemma FreeWalkNew(h: seq<Cell>, f: seq<nat>, cur: nat)
    requires FreeWalk(h, f) && FreeStep(h, f + [cur], |f|)
    ensures cur !in f && FreeWalk(h, f + [cur])
  {
    if |f| > 0 { assert FreeStep(h, f, |f| - 1); }
    forall i | 0 <= i < |f| ensures f[i] != cur {
      assert FreeStep(h, f, i);
    }
    FreeWalkExtend(h, f, f + [cur]);
  }

  lemma FreeWalkExtend(h: seq<Cell>, f: seq<nat>, g: seq<nat>)
    requires FreeWalk(h, f) && |g| == |f| + 1 && g[..|f|] == f && g[|f|] !in f && FreeStep(h, g, |f|)
    ensures FreeWalk(h, g)
  {
    forall i | 0 <= i < |f| ensures FreeStep(h, g, i) {
      assert FreeStep(h, f, i) && g[i] == g[..|f|][i] && At(g, i - 1) == At(f, i - 1);
    }
  }

  ghost function Below(n: nat): (s: set<nat>)
    ensures forall i: nat :: i in s <==> i < n
  { if n == 0 then {} else Below(n - 1) + {n - 1} }

  lemma {:induction false} FreeWalkPrefix(h: seq<Cell>, f: seq<nat>, g: seq<nat>)
    requires FreeWalk(h, f) && FreeWalk(h, g) && FreeEnd(h, g)
    ensures f <= g
  {
    if f != [] {
      var e := f[..|f| - 1];
      forall i | 0 <= i < |e| ensures FreeStep(h, e, i) { assert FreeStep(h, f, i); }
      FreeWalkPrefix(h, e, g);
      assert FreeStep(h, f, |e|) && At(f, |e| - 1) == At(g, |e| - 1);
      if |g| > |e| { assert FreeStep(h, g, |e|); }
    }
  }

  // A walk of a closed chain goes on until it comes back to block 0.
  lemma FreeWalkGoesOn(h: seq<Cell>, f: seq<nat>, cur: nat)
    requires FreeWalk(h, f) && At(f, |f| - 1) < |h| && h[At(f, |f| - 1)].nfree == cur && cur != 0
    ensures (exists g :: Chain(h, g)) ==> FreeStep(h, f + [cur], |f|)
  {
    if g :| Chain(h, g) {
      ChainIsWalk(h, g);
      FreeWalkPrefix(h, f, g);
      assert At(f, |f| - 1) == At(g, |f| - 1);
      assert |g| > |f| && FreeStep(h, g, |f|);
    }
  }

  method CheckFreeLinks(heap: array<Cell>) returns (ok: bool, ghost f: seq<nat>)
    requires 0 < heap.Length <= 0xFFFF
    modifies heap
    ensures ok <==> exists g :: Chain(old(heap[..]), g)
    ensures ok ==> Chain(old(heap[..]), f) && Flagged(old(heap[..]), heap[..], f)
  {
    ghost var h := heap[..];
    var prev: nat := 0;
    f := [];
    while true
      invariant FreeWalk(h, f) && prev == At(f, |f| - 1) < heap.Length && Flagged(h, heap[..], f)
      decreases Below(heap.Length) - (set b | b in f)
    {
      var cur: nat := heap[prev].nfree;
      if cur != 0 { FreeWalkGoesOn(h, f, cur); }
      if cur >= heap.Length { return false, f; }
      if cur == 0 { break; }
      if heap[cur].pfree != prev { return false, f; }
      FreeWalkNew(h, f, cur);
      heap[cur] := heap[cur].(prev := WithMask(heap[cur].prev));
      assert cur in Below(heap.Length) - (set b | b in f);
      f := f + [cur];
      prev := cur;
    }
    WalkIsChain(h, f);
    return true, f;
  }

  // The walk of all blocks meets s[i] after s[i - 1], with its two flags in step.
  ghost predicate BlockStep(h: seq<Cell>, f: seq<nat>, s: seq<nat>, i: nat)
  {
    && i < |s| && 0 < s[i] < |h| && At(s, i - 1) < |h|
    && BlockNo(h[At(s, i - 1)].next) == s[i] && BlockNo(h[s[i]].prev) == At(s, i - 1)
    && (Masked(h[s[i]].next) <==> s[i] in f || Masked(h[s[i]].prev))
  }

  ghost predicate BlockWalk(h: seq<Cell>, f: seq<nat>, s: seq<nat>)
  { |h| > 0 && Distinct(s) && forall i :: 0 <= i < |s| ==> BlockStep(h, f, s, i) }

  ghost predicate BlockChain(h: seq<Cell>, f: seq<nat>, s: seq<nat>)
  { BlockWalk(h, f, s) && At(s, |s| - 1) < |h| && BlockNo(h[At(s, |s| - 1)].next) == 0 }

  lemma BlockWalkNew(h: seq<Cell>, f: seq<nat>, s: seq<nat>, cur: nat)
    requires BlockWalk(h, f, s) && 0 < cur < |h| && BlockNo(h[cur].prev) == At(s, |s| - 1)
    ensures cur !in s
  {
    if |s| > 0 { assert BlockStep(h, f, s, |s| - 1); }
    forall i | 0 <= i < |s| ensures s[i] != cur {
      assert BlockStep(h, f, s, i);
    }
  }

  lemma BlockWalkExtend(h: seq<Cell>, f: seq<nat>, s: seq<nat>, t: seq<nat>)
    requires BlockWalk(h, f, s) && |t| == |s| + 1 && t[..|s|] == s && t[|s|] !in s && BlockStep(h, f, t, |s|)
    ensures BlockWalk(h, f, t)
  {
    forall i | 0 <= i < |s| ensures BlockStep(h, f, t, i) {
      assert BlockStep(h, f, s, i) && t[i] == t[..|s|][i] && At(t, i - 1) == At(s, i - 1);
    }
  }

  // The flags set by the first walk, with those of the blocks in s cleared again.
  ghost predicate Cleared(h: seq<Cell>, h': seq<Cell>, f: seq<nat>, s: seq<nat>)
  {
    && |h'| == |h|
    && forall i: nat :: i < |h| ==>
      h'[i] == h[i].(prev := if i in s then BlockNo(h[i].prev) else if i in f then WithMask(h[i].prev) else h[i].prev)
  }

  lemma {:induction false} BlockWalkPrefix(h: seq<Cell>, f: seq<nat>, s: seq<nat>, g: seq<nat>)
    requires BlockWalk(h, f, s) && BlockChain(h, f, g)
    ensures s <= g
  {
    if s != [] {
      var e := s[..|s| - 1];
      forall i | 0 <= i < |e| ensures BlockStep(h, f, e, i) { assert BlockStep(h, f, s, i); }
      BlockWalkPrefix(h, f, e, g);
      assert BlockStep(h, f, s, |e|) && At(s, |e| - 1) == At(g, |e| - 1);
      if |g| > |e| { assert BlockStep(h, f, g, |e|); }
    }
  }

  lemma BlockWalkGoesOn(h: seq<Cell>, f: seq<nat>, s: seq<nat>, cur: nat)
    requires BlockWalk(h, f, s) && At(s, |s| - 1) < |h| && BlockNo(h[At(s, |s| - 1)].next) == cur && cur != 0
    ensures (exists g :: BlockChain(h, f, g)) ==> cur !in s && BlockStep(h, f, s + [cur], |s|)
  {
    if g :| BlockChain(h, f, g) {
      BlockWalkPrefix(h, f, s, g);
      assert At(s, |s| - 1) == At(g, |s| - 1);
      assert |g| > |s| && BlockStep(h, f, g, |s|) && g[|s|] == cur;
    }
  }

  method CheckBlockLinks(heap: array<Cell>, ghost h: seq<Cell>, ghost f: seq<nat>) returns (ok: bool, ghost s: seq<nat>)
    requires 0 < heap.Length <= 0xFFFF && Flagged(h, heap[..], f)
    modifies heap
    ensures ok <==> exists g :: BlockChain(h, f, g)
    ensures ok ==> BlockChain(h, f, s) && Cleared(h, heap[..], f, s)
  {
    var prev: nat := 0;
    s := [];
    while true
      invariant BlockWalk(h, f, s) && prev == At(s, |s| - 1) < heap.Length && Cleared(h, heap[..], f, s)
      decreases Below(heap.Length) - (set b | b in s)
    {
      var cur: nat := BlockNo(heap[prev].next);
      if cur != 0 { BlockWalkGoesOn(h, f, s, cur); }
      if cur >= heap.Length { return false, s; }
      if cur == 0 { break; }
      if Masked(heap[cur].next) != Masked(heap[cur].prev) { return false, s; }
      heap[cur] := heap[cur].(prev := BlockNo(heap[cur].prev));
      if heap[cur].prev != prev { return false, s; }
      BlockWalkNew(h, f, s, cur);
      assert BlockStep(h, f, s + [cur], |s|);
      BlockWalkExtend(h, f, s, s + [cur]);
      assert cur in Below(heap.Length) - (set b | b in s);
      s := s + [cur];
      prev := cur;
    }
    assert BlockChain(h, f, s);
    return true, s;
  }

  lemma ChainUnique(h: seq<Cell>, f: seq<nat>, g: seq<nat>)
    requires Chain(h, f) && Chain(h, g)
    ensures f == g
  {
    ChainIsWalk(h, f);
    ChainIsWalk(h, g);
    FreeWalkPrefix(h, f, g);
    FreeWalkPrefix(h, g, f);
  }

  // What the check accepts: both chains close, and the flag of each block agrees with the free list.
  ghost predicate Consistent(h: seq<Cell>)
  { exists f, s :: Chain(h, f) && BlockChain(h, f, s) }

  // The blocks met from block 0 on: both links of each lead to its neighbours.
  ghost predicate Joined(h: seq<Cell>, s: seq<nat>)
  {
    && |h| > 0 && Distinct(s) && (forall i :: 0 <= i < |s| ==> 0 < s[i] < |h|)
    && h[0].next % 0x8000 == At(s, 0)
    && (forall i {:trigger h[s[i]]} :: 0 <= i < |s| ==>
       h[s[i]].next % 0x8000 == At(s, i + 1) && h[s[i]].prev % 0x8000 == At(s, i - 1))
  }

  // The free list closes, the blocks are joined up to the last one, and a block met is flagged exactly if it is on the
  // free list, or its prev word carries the flag, too.
  lemma ConsistentIff(h: seq<Cell>)
    ensures Consistent(h) <==> exists f, s ::
      Chain(h, f) && Joined(h, s)
      && forall b :: b in s ==> (h[b].next >= 0x8000 <==> b in f || h[b].prev >= 0x8000)
  {
    if Consistent(h) {
      var f, s :| Chain(h, f) && BlockChain(h, f, s);
      ChainJoined(h, f, s);
    }
    if f, s :| Chain(h, f) && Joined(h, s) && forall b :: b in s ==>
      (h[b].next >= 0x8000 <==> b in f || h[b].prev >= 0x8000) {
      JoinedChain(h, f, s);
    }
  }

  lemma ChainJoined(h: seq<Cell>, f: seq<nat>, s: seq<nat>)
    requires BlockChain(h, f, s)
    ensures Joined(h, s) && forall b :: b in s ==> (h[b].next >= 0x8000 <==> b in f || h[b].prev >= 0x8000)
  {
    if s != [] { assert BlockStep(h, f, s, 0) && BlockStep(h, f, s, |s| - 1); }
    BlockNoMod(h[0].next);
    forall i | 0 <= i < |s|
      ensures 0 < s[i] < |h| && h[s[i]].next % 0x8000 == At(s, i + 1) && h[s[i]].prev % 0x8000 == At(s, i - 1)
      ensures h[s[i]].next >= 0x8000 <==> s[i] in f || h[s[i]].prev >= 0x8000
    {
      StepJoined(h, f, s, i);
    }
  }

  lemma BlockNoMod(w: word)
    ensures BlockNo(w) == w % 0x8000
  {}

  lemma StepJoined(h: seq<Cell>, f: seq<nat>, s: seq<nat>, i: nat)
    requires BlockChain(h, f, s) && i < |s|
    ensures 0 < s[i] < |h| && h[s[i]].next % 0x8000 == At(s, i + 1) && h[s[i]].prev % 0x8000 == At(s, i - 1)
    ensures h[s[i]].next >= 0x8000 <==> s[i] in f || h[s[i]].prev >= 0x8000
  {
    assert BlockStep(h, f, s, i);
    if i + 1 < |s| { assert BlockStep(h, f, s, i + 1); }
    BlockNoMod(h[s[i]].next);
    BlockNoMod(h[s[i]].prev);
  }

  lemma JoinedChain(h: seq<Cell>, f: seq<nat>, s: seq<nat>)
    requires Joined(h, s) && forall b :: b in s ==> (h[b].next >= 0x8000 <==> b in f || h[b].prev >= 0x8000)
    ensures BlockChain(h, f, s)
  {
    BlockNoMod(h[0].next);
    forall i | 0 <= i < |s| ensures BlockStep(h, f, s, i) && BlockNo(h[s[i]].next) == At(s, i + 1) {
      JoinedStep(h, f, s, i);
    }
  }

  lemma JoinedStep(h: seq<Cell>, f: seq<nat>, s: seq<nat>, i: nat)
    requires Joined(h, s) && forall b :: b in s ==> (h[b].next >= 0x8000 <==> b in f || h[b].prev >= 0x8000)
    requires i < |s|
    ensures BlockStep(h, f, s, i) && BlockNo(h[s[i]].next) == At(s, i + 1)
  {
    assert s[i] in s && h[s[i]] == h[s[i]];
    if i > 0 { assert h[s[i - 1]] == h[s[i - 1]]; }
    hide Joined;
    BlockNoMod(h[At(s, i - 1)].next);
    BlockNoMod(h[s[i]].next);
    BlockNoMod(h[s[i]].prev);
  }

  lemma {:induction false} JoinedUnique(h: seq<Cell>, s: seq<nat>, t: seq<nat>, i: nat)
    requires Joined(h, s) && Joined(h, t) && i < |s|
    ensures i < |t| && s[i] == t[i]
  {
    assert h[s[i]] == h[s[i]];
    if i > 0 {
      JoinedUnique(h, s, t, i - 1);
      assert h[s[i - 1]] == h[s[i - 1]];
    }
  }

  // What makes the check fail, each for itself, whatever the rest of the heap is like: a block that is flagged although
  // it is not on the free list or the other way round, a free list or a chain of blocks that does not close.
  lemma Rejected(h: seq<Cell>, f: seq<nat>, s: seq<nat>, b: nat)
    requires Chain(h, f) && Joined(h, s) && b in s && h[b].prev < 0x8000
    requires (h[b].next >= 0x8000 && b !in f) || (h[b].next < 0x8000 && b in f)
    ensures !Consistent(h)
  {
    ConsistentIff(h);
    if g, t :| Chain(h, g) && Joined(h, t) && forall x :: x in t ==>
      (h[x].next >= 0x8000 <==> x in g || h[x].prev >= 0x8000) {
      ChainUnique(h, f, g);
      var i :| 0 <= i < |s| && s[i] == b;
      JoinedUnique(h, s, t, i);
    }
  }

  lemma NotClosed(h: seq<Cell>)
    requires (forall f :: !Chain(h, f)) || (forall s :: !Joined(h, s))
    ensures !Consistent(h)
  {
    ConsistentIff(h);
  }

  // Where no prev word carries the flag, the flags of an accepted heap are those of the free list.
  lemma AcceptedMarks(h: seq<Cell>) returns (f: seq<nat>, s: seq<nat>)
    requires Consistent(h) && forall b :: 0 <= b < |h| ==> h[b].prev < 0x8000
    ensures Chain(h, f) && Joined(h, s) && forall b :: b in s ==> (h[b].next >= 0x8000 <==> b in f)
  {
    ConsistentIff(h);
    f, s :| Chain(h, f) && Joined(h, s) && forall b :: b in s ==>
      (h[b].next >= 0x8000 <==> b in f || h[b].prev >= 0x8000);
  }

  // The check does not find out that what is on the free list is no block: here it is a cell inside block 1.
  lemma StrayAccepted()
    ensures var h := [Cell(1, 0, 2, 0), Cell(3, 0, 0, 0), Cell(0, 0, 0, 0), Cell(0, 1, 0, 0)];
      Consistent(h) && Chain(h, [2]) && Joined(h, [1, 3])
  {
    var h, f, s := [Cell(1, 0, 2, 0), Cell(3, 0, 0, 0), Cell(0, 0, 0, 0), Cell(0, 1, 0, 0)], [2], [1, 3];
    StrayChain(h, f);
    StrayJoined(h, s);
    assert forall b :: b in s ==> (h[b].next >= 0x8000 <==> b in f || h[b].prev >= 0x8000);
    hide Consistent, Chain, Joined;
    ConsistentIff(h);
  }

  lemma StrayChain(h: seq<Cell>, f: seq<nat>)
    requires f == [2] && |h| == 4 && h[0].nfree == 2 && h[2].nfree == 0 == h[2].pfree
    ensures Chain(h, f)
  {
    assert FreeLink(h, f, 0);
  }

  lemma StrayJoined(h: seq<Cell>, s: seq<nat>)
    requires s == [1, 3] && |h| == 4 && h[0].next == 1 && h[1].next == 3 && h[3].next == 0
    requires h[1].prev == 0 && h[3].prev == 1
    ensures Joined(h, s)
  {}

  lemma BlockChainUnique(h: seq<Cell>, f: seq<nat>, s: seq<nat>, t: seq<nat>)
    requires BlockChain(h, f, s) && BlockChain(h, f, t)
    ensures s == t
  {
    BlockWalkPrefix(h, f, s, t);
    BlockWalkPrefix(h, f, t, s);
  }

  // The blocks of a well-formed heap up to block b, in order.
  lemma {:induction false} BlocksUpTo(v: View, b: nat) returns (s: seq<nat>)
    requires WellFormed(v) && b in v.starts
    ensures BlockWalk(v.cells, v.free, s) && At(s, |s| - 1) == b
    ensures forall x :: x in s ==> x in v.starts && x <= b
    ensures forall x :: x in v.starts && 0 < x <= b ==> x in s
    decreases b
  {
    if b == 0 { return []; }
    assert BlockLink(v.cells, v.starts, b);
    var p: nat := v.cells[b].prev;
    s := BlocksUpTo(v, p);
    assert BlockLink(v.cells, v.starts, p);
    var t := s + [b];
    assert BlockStep(v.cells, v.free, t, |s|);
    BlockWalkExtend(v.cells, v.free, s, t);
    s := t;
  }

  lemma WellFormedConsistent(v: View) returns (s: seq<nat>)
    requires WellFormed(v)
    ensures Chain(v.cells, v.free) && BlockChain(v.cells, v.free, s)
    ensures forall x :: x in v.starts && 0 < x ==> x in s
    ensures forall x :: x in s ==> x in v.starts
  {
    s := BlocksUpTo(v, |v.cells| - 1);
  }

  // On a well-formed heap the check succeeds and leaves every word as it was.
  lemma WellFormedRestored(v: View, h': seq<Cell>, f: seq<nat>, s: seq<nat>)
    requires WellFormed(v) && Chain(v.cells, f) && BlockChain(v.cells, f, s) && Cleared(v.cells, h', f, s)
    ensures h' == v.cells
  {
    ChainUnique(v.cells, f, v.free);
    var t := WellFormedConsistent(v);
    BlockChainUnique(v.cells, f, s, t);
    forall i: nat | i < |h'| ensures h'[i] == v.cells[i] {
      if i in s {
        var k :| 0 <= k < |s| && s[k] == i;
        assert BlockStep(v.cells, f, s, k) && BlockLink(v.cells, v.starts, i);
      }
    }
  }

  method IntegrityCheck(heap: array<Cell>, ghost v: View) returns (ok: bool)
    requires 0 < heap.Length <= 0xFFFF && v.cells == heap[..]
    modifies heap
    ensures ok <==> old(Consistent(heap[..]))
    ensures ok ==>
      exists f, s :: Chain(old(heap[..]), f) && Joined(old(heap[..]), s) && Cleared(old(heap[..]), heap[..], f, s)
    ensures WellFormed(v) ==> ok && heap[..] == old(heap[..])
  {
    ghost var h := heap[..];
    ghost var f, s;
    if WellFormed(v) { var t := WellFormedConsistent(v); }
    ok, f := CheckFreeLinks(heap);
    if !ok { return; }
    if g, t :| Chain(h, g) && BlockChain(h, g, t) { ChainUnique(h, f, g); }
    ok, s := CheckBlockLinks(heap, h, f);
    if WellFormed(v) { WellFormedRestored(v, heap[..], f, s); }
    if ok { ChainJoined(h, f, s); }
  }
}
