/** What the contracts of the heap operations mean for their callers, and runs of many operations. */
module UmmTheorems {
  import opened UmmHeap

  lemma UmmBlocksExact(size: nat)
    requires size > 0
    ensures (8 * UmmBlocks(size) - 4 >= size && forall n: nat :: n > 0 && 8 * n - 4 >= size ==> n >= UmmBlocks(size))
      <==> size <= 524276
  {
    if size > 524276 {
      assert 8 * UmmBlocks(size) - 4 <= 8 * 0xFFFF - 4;
    } else if size > 4 {
      assert (2 + (size - 5) / 8) % 0x10000 == 2 + (size - 5) / 8;
    }
  }

  // What umm_make_new_block writes when no blocks are asked for: block c becomes its own successor.
  function NothingCut(h: seq<Cell>, c: nat): seq<Cell>
    requires c < |h| <= 0x7FFF && BlockNo(h[c].next) < |h|
  {
    var h1 := h[c := Cell(BlockNo(h[c].next) + 0x8000, c, h[c].nfree, h[c].pfree)];
    var h2 := h1[BlockNo(h[c].next) := h1[BlockNo(h[c].next)].(prev := c)];
    h2[c := h2[c].(next := c)]
  }

  lemma ZeroBlocksIff(size: nat)
    ensures UmmBlocks(size) == 0 <==> size > 4 && (size - 5) / 8 % 0x10000 == 0xFFFE
  {
    if size > 4 {
      var n := (size - 5) / 8;
      assert n == n / 0x10000 * 0x10000 + n % 0x10000;
    }
  }

  // Blocks up to c are found again in any heap that has the same links up to there.
  lemma {:induction false} StillStarts(v: View, w: View, c: nat, b: nat)
    requires WellFormed(v) && WellFormed(w) && |v.cells| == |w.cells| && b in v.starts && b <= c < |v.cells|
    requires forall i :: 0 <= i < c ==> Nx(w.cells, i) == Nx(v.cells, i)
    ensures b in w.starts
    decreases b
  {
    if b > 0 {
      assert BlockLink(v.cells, v.starts, b);
      StillStarts(v, w, c, v.cells[b].prev);
      assert BlockLink(w.cells, w.starts, v.cells[b].prev);
    }
  }

  // A request that comes to no blocks breaks the heap where there is a free block c to cut: whatever the free links are
  // afterwards, there are no blocks and no free list with which it is well formed.
  lemma ZeroBlocksBreak(size: nat, v: View, c: nat, w: View)
    requires UmmBlocks(size) == 0 && WellFormed(v) && c in v.free && c < |v.cells| - 1
    requires BlockNo(v.cells[c].next) < |v.cells| == |w.cells| <= 0x7FFF
    requires forall i :: 0 <= i < |w.cells| ==>
      w.cells[i].next == NothingCut(v.cells, c)[i].next && w.cells[i].prev == NothingCut(v.cells, c)[i].prev
    ensures !WellFormed(w)
  {
    assert c in v.starts && !BlockLink(w.cells, w.starts, c);
    if WellFormed(w) { StillStarts(v, w, c, c); }
  }

  // Without a free block the search ends at block 0 with size 0, which is what was asked for: block 0 is given out.
  lemma ZeroBlocksFull(size: nat, v: View)
    requires UmmBlocks(size) == 0 && WellFormed(v) && v.free == []
    ensures v.cells[0].nfree == 0 && BlockNo(v.cells[0].next) != 0 && 0 == UmmBlocks(size) && 0 !in Live(v)
  {}

  lemma BestFitUnique(v: View, k: nat, i: nat, j: nat)
    requires BestFit(v, k, i) && BestFit(v, k, j)
    ensures i == j
  {
  }

  lemma LiveDisjoint(v: View, b: nat, c: nat)
    requires WellFormed(v) && b in Live(v) && c in Live(v) && b != c
    ensures b < Nx(v.cells, b) < |v.cells| && c < Nx(v.cells, c) < |v.cells|
    ensures Nx(v.cells, b) <= c || Nx(v.cells, c) <= b
  {
    assert BlockLink(v.cells, v.starts, b) && BlockLink(v.cells, v.starts, c);
  }

  // The block that holds cell i.
  lemma {:induction false} BlockOf(v: View, i: nat) returns (b: nat)
    requires WellFormed(v) && i < |v.cells| - 1
    ensures b in v.starts && b <= i < Nx(v.cells, b)
    decreases i
  {
    if i in v.starts {
      assert BlockLink(v.cells, v.starts, i);
      return i;
    }
    b := BlockOf(v, i - 1);
    assert BlockLink(v.cells, v.starts, b);
  }

  // No live block holds any of the k cells from i on.
  ghost predicate Vacant(v: View, i: nat, k: nat)
  {
    && 1 <= i && i + k <= |v.cells| - 1
    && forall b :: b in Live(v) ==> b < |v.cells| && (Nx(v.cells, b) <= i || i + k <= b)
  }

  lemma FitsIffVacant(v: View, k: nat)
    requires WellFormed(v) && k > 0
    ensures (exists i: nat :: Fits(v, k, i)) <==> exists i: nat :: Vacant(v, i, k)
  {
    if i: nat :| Fits(v, k, i) {
      var c := v.free[i];
      assert BlockLink(v.cells, v.starts, c);
      forall b | b in Live(v) ensures b < |v.cells| && (Nx(v.cells, b) <= c || c + k <= b) {
        assert BlockLink(v.cells, v.starts, b);
      }
      assert Vacant(v, c, k);
    }
    if i: nat :| Vacant(v, i, k) {
      var j := VacantFits(v, i, k);
      assert Fits(v, k, j);
    }
  }

  lemma VacantFits(v: View, i: nat, k: nat) returns (j: nat)
    requires WellFormed(v) && k > 0 && Vacant(v, i, k)
    ensures Fits(v, k, j)
  {
    var b := BlockOf(v, i);
    assert BlockLink(v.cells, v.starts, b);
    var n := Nx(v.cells, b);
    assert b in v.free;
    j :| j < |v.free| && v.free[j] == b;
    if n < |v.cells| - 1 {
      assert BlockLink(v.cells, v.starts, n);
      assert n in Live(v);
    }
  }

  ghost predicate SameLive(v: View, w: View)
  {
    && |v.cells| == |w.cells| && Live(v) == Live(w)
    && forall b :: b in Live(v) ==> b < |v.cells| && Nx(v.cells, b) == Nx(w.cells, b)
  }

  lemma NextAgrees(v: View, w: View, b: nat)
    requires WellFormed(v) && WellFormed(w) && SameLive(v, w)
    requires b in v.starts && b in w.starts && b < |v.cells| - 1
    ensures Nx(v.cells, b) <= Nx(w.cells, b)
  {
    assert BlockLink(v.cells, v.starts, b) && BlockLink(w.cells, w.starts, b);
    var x, y := Nx(v.cells, b), Nx(w.cells, b);
    if b != 0 && b !in Live(v) && y < |v.cells| - 1 {
      assert y in Live(w);
    }
  }

  lemma {:induction false} StartsAgree(v: View, w: View, b: nat)
    requires WellFormed(v) && WellFormed(w) && SameLive(v, w) && b in v.starts
    ensures b in w.starts
    decreases b
  {
    if b != 0 {
      assert BlockLink(v.cells, v.starts, b);
      var p: nat := v.cells[b].prev;
      StartsAgree(v, w, p);
      NextAgrees(v, w, p);
      NextAgrees(w, v, p);
      assert BlockLink(w.cells, w.starts, p);
    }
  }

  lemma LayoutDetermined(v: View, w: View)
    requires WellFormed(v) && WellFormed(w) && SameLive(v, w)
    ensures v.starts == w.starts
    ensures forall b :: b in v.free <==> b in w.free
    ensures forall b :: b in v.starts && b < |v.cells| - 1 ==> Nx(v.cells, b) == Nx(w.cells, b)
  {
    forall b | b in v.starts ensures b in w.starts { StartsAgree(v, w, b); }
    forall b | b in w.starts ensures b in v.starts { StartsAgree(w, v, b); }
    forall b | b in v.starts && b < |v.cells| - 1 ensures Nx(v.cells, b) == Nx(w.cells, b) {
      NextAgrees(v, w, b);
      NextAgrees(w, v, b);
    }
    forall b ensures b in v.free <==> b in w.free {
      assert b in v.free <==> b in v.starts && 0 < b < |v.cells| - 1 && b !in Live(v);
      assert b in w.free <==> b in w.starts && 0 < b < |v.cells| - 1 && b !in Live(w);
    }
  }

  lemma TwoDiffer(f: seq<nat>, x: nat)
    requires Distinct(f) && |f| > 1
    ensures f[0] != x || f[1] != x
  {
    assert f[0] != f[1];
  }

  lemma EmptyHeap(v: View)
    requires WellFormed(v) && Live(v) == {}
    ensures v.starts == {0, 1, |v.cells| - 1} && v.free == [1] && Nx(v.cells, 1) == |v.cells| - 1
  {
    var n := |v.cells|;
    assert BlockLink(v.cells, v.starts, 1);
    var x := Nx(v.cells, 1);
    assert 1 in v.free by { assert 1 !in Live(v); }
    assert x < n - 1 ==> x in Live(v);
    forall b | b in v.starts ensures b in {0, 1, n - 1} { assert BlockLink(v.cells, v.starts, 1); }
    if |v.free| > 1 { TwoDiffer(v.free, 1); }
    forall i | 0 <= i < |v.free| ensures v.free[i] == 1 {
      assert v.free[i] in v.free;
    }
  }

  lemma MallocFreeRestores(v: View, m: View, v': View, k: nat, r: nat)
    requires WellFormed(v) && WellFormed(m) && WellFormed(v') && r != 0 && r < |m.cells|
    requires Malloced(v, m, k, r) && Freed(m, v', r)
    ensures v'.starts == v.starts && (forall b :: b in v'.free <==> b in v.free)
    ensures forall b ::
      b in Live(v) ==>
      b < |v.cells| && |v'.cells| == |v.cells| && Nx(v.cells, b) <= |v.cells| && Same(v.cells, v'.cells, b)
  {
    MallocedFacts(v, m, k, r);
    KeptTwice(v, m, v', 0, r);
    LayoutDetermined(v, v');
  }

  datatype Request = Malloc(size: nat) | Free(index: nat) | Realloc(index: nat, size: nat)

  predicate Allowed(r: Request)
  { r.Free? || r.size == 0 || UmmBlocks(r.size) != 0 }

  // Takes the pointer at position i out of the client's table.
  function Drop(table: seq<nat>, i: nat): seq<nat>
    requires i < |table|
  { table[..i] + table[i + 1..] }

  ghost predicate Holds(table: seq<nat>, live: set<nat>)
  { Distinct(table) && 0 !in live && forall b :: b in table <==> b in live }

  lemma DropHolds(table: seq<nat>, live: set<nat>, i: nat)
    requires Holds(table, live) && i < |table|
    ensures Holds(Drop(table, i), live - {table[i]})
  {
    var d := Drop(table, i);
    assert forall k :: 0 <= k < |d| ==> d[k] == table[if k < i then k else k + 1];
    forall b | b in live && b != table[i] ensures b in d {
      var k :| 0 <= k < |table| && table[k] == b;
      assert d[if k < i then k else k - 1] == b;
    }
  }

  lemma AddHolds(table: seq<nat>, live: set<nat>, r: nat)
    requires Holds(table, live) && r !in live && r != 0
    ensures Holds(table + [r], live + {r})
  {
  }

  method Serve(umm: Umm, table: seq<nat>, r: Request) returns (table': seq<nat>)
    requires umm.Valid() && Holds(table, Live(umm.State())) && Allowed(r)
    modifies umm, umm.heap
    ensures umm.Valid() && Holds(table', Live(umm.State()))
  {
    table' := table;
    match r {
      case Malloc(size) =>
        ghost var v := umm.State();
        var p := umm.Malloc(size);
        if p != 0 {
          MallocedFacts(v, umm.State(), UmmBlocks(size), p);
          AddHolds(table, Live(v), p);
          table' := table + [p];
        }
      case Free(index) =>
        if index < |table| {
          DropHolds(table, Live(umm.State()), index);
          umm.Free(table[index]);
          table' := Drop(table, index);
        }
      case Realloc(index, size) =>
        if index < |table| {
          table' := ServeRealloc(umm, table, index, size);
        }
    }
  }

  method ServeRealloc(umm: Umm, table: seq<nat>, index: nat, size: nat) returns (table': seq<nat>)
    requires umm.Valid() && Holds(table, Live(umm.State())) && index < |table|
    requires size == 0 || UmmBlocks(size) != 0
    modifies umm, umm.heap
    ensures umm.Valid() && Holds(table', Live(umm.State()))
  {
    ghost var live := Live(umm.State());
    DropHolds(table, live, index);
    var p := umm.Realloc(table[index], size);
    table' := Drop(table, index);
    if p != 0 {
      AddHolds(table', live - {table[index]}, p);
      table' := table' + [p];
    }
  }

  method Run(n: nat, requests: seq<Request>) returns (umm: Umm, table: seq<nat>)
    requires 3 <= n <= 0x7FFF && forall r :: r in requests ==> Allowed(r)
    ensures umm.Valid() && umm.heap.Length == n && Holds(table, Live(umm.State()))
    ensures table == [] ==> umm.starts == {0, 1, n - 1} && umm.free == [1]
  {
    umm := new Umm(n);
    table := [];
    for i := 0 to |requests|
      invariant fresh(umm) && fresh(umm.heap)
      invariant umm.Valid() && umm.heap.Length == n && Holds(table, Live(umm.State()))
    {
      table := Serve(umm, table, requests[i]);
    }
    if table == [] {
      assert Live(umm.State()) == {};
      EmptyHeap(umm.State());
    }
  }
}
