/** The heap of umm_malloc.c: its cells, what makes them well formed, and the operations that rewire them in place. */
module UmmHeap {

  type word = w: int | 0 <= w < 0x10000

  datatype Cell = Cell(next: word, prev: word, nfree: word, pfree: word)

  predicate Masked(w: word) { w >= 0x8000 }

  function BlockNo(w: word): (b: word)
  { if w >= 0x8000 then w - 0x8000 else w }

  function WithMask(w: word): word
  { if w >= 0x8000 then w else w + 0x8000 }

  function Nx(h: seq<Cell>, b: nat): nat
    requires b < |h|
  { BlockNo(h[b].next) }

  ghost predicate BlockLink(h: seq<Cell>, s: set<nat>, b: nat)
    requires b < |h|
  {
    && (b < |h| - 1 ==> b < Nx(h, b) < |h| && Nx(h, b) in s && h[Nx(h, b)].prev == b)
    && (forall x :: x in s && b < x ==> Nx(h, b) <= x)
    && (b != 0 ==> h[b].prev < b && h[b].prev in s && Nx(h, h[b].prev) == b)
  }

  ghost predicate Tiled(h: seq<Cell>, s: set<nat>)
  {
    && 3 <= |h| <= 0x7FFF
    && {0, 1, |h| - 1} <= s
    && h[0].next == 1
    && h[|h| - 1].next == 0
    && (forall b :: b in s ==> b < |h|)
    && (forall b {:trigger BlockLink(h, s, b)} :: b in s ==> BlockLink(h, s, b))
  }

  function At(f: seq<nat>, i: int): nat
  { if 0 <= i < |f| then f[i] else 0 }

  ghost predicate FreeLink(h: seq<Cell>, f: seq<nat>, i: nat)
    requires i < |f| && f[i] < |h|
  {
    h[f[i]].nfree == At(f, i + 1) && h[f[i]].pfree == At(f, i - 1)
  }

  ghost predicate Distinct(f: seq<nat>)
  { forall i, j :: 0 <= i < j < |f| ==> f[i] != f[j] }

  ghost predicate Chain(h: seq<Cell>, f: seq<nat>)
  {
    && |h| > 0
    && Distinct(f)
    && (forall i :: 0 <= i < |f| ==> 0 < f[i] < |h|)
    && h[0].nfree == At(f, 0)
    && (forall i :: 0 <= i < |f| ==> FreeLink(h, f, i))
  }

  ghost predicate Marks(h: seq<Cell>, s: set<nat>, f: seq<nat>)
    requires forall b :: b in s ==> b < |h|
  {
    && (forall b :: b in f ==> b in s)
    && (forall b :: b in s ==> (Masked(h[b].next) <==> b in f))
  }

  ghost predicate Linked(h: seq<Cell>, s: set<nat>, f: seq<nat>)
  { Tiled(h, s) && Marks(h, s, f) && Chain(h, f) }

  ghost predicate Coalesced(h: seq<Cell>, s: set<nat>)
  {
    forall b :: b in s && b < |h| - 1 && Masked(h[b].next) ==> Nx(h, b) < |h| && !Masked(h[Nx(h, b)].next)
  }

  ghost function Remove(f: seq<nat>, j: nat): seq<nat>
    requires j < |f|
  { f[..j] + f[j + 1..] }

  lemma SameTiles(h: seq<Cell>, h': seq<Cell>, s: set<nat>)
    requires Tiled(h, s) && |h'| == |h|
    requires h'[0].next == h[0].next && h'[|h| - 1].next == 0
    requires forall b :: b in s ==> Nx(h', b) == Nx(h, b) && h'[b].prev == h[b].prev
    ensures Tiled(h', s)
  {
    forall b | b in s ensures BlockLink(h', s, b) { assert BlockLink(h, s, b); }
  }

  // Every cell but c keeps its block links; of the free links only the ones that pointed at c change.
  ghost predicate Disconnected(h: seq<Cell>, h': seq<Cell>, f: seq<nat>, j: nat)
    requires j < |f|
  {
    && f[j] < |h| == |h'|
    && (forall i :: 0 <= i < |h| ==> h'[i].prev == h[i].prev)
    && (forall i :: 0 <= i < |h| ==> h'[i].next == if i == f[j] then BlockNo(h[i].next) else h[i].next)
    && (forall i :: 0 <= i < |h| && i != f[j] ==>
      h'[i].nfree == if i == At(f, j - 1) then At(f, j + 1) else h[i].nfree)
    && (forall i :: 0 < i < |h| && i != f[j] ==>
      h'[i].pfree == if i == At(f, j + 1) then At(f, j - 1) else h[i].pfree)
  }

  lemma ChainRemove(h: seq<Cell>, h': seq<Cell>, f: seq<nat>, j: nat)
    requires Chain(h, f) && j < |f| && |h'| == |h|
    requires forall i :: 0 <= i < |h| && i != f[j] ==>
      && h'[i].nfree == (if i == At(f, j - 1) then At(f, j + 1) else h[i].nfree)
    requires forall i :: 0 <= i < |h| && i != f[j] && i != 0 ==>
      && h'[i].pfree == (if i == At(f, j + 1) then At(f, j - 1) else h[i].pfree)
    ensures Chain(h', Remove(f, j))
  {
    var g := Remove(f, j);
    assert FreeLink(h, f, j);
    forall i | 0 <= i < |g| ensures FreeLink(h', g, i) {
      var k := if i < j then i else i + 1;
      assert FreeLink(h, f, k);
      assert f[k] != f[j];
      if 0 < j { assert f[k] == f[j-1] ==> k == j - 1; }
      if j + 1 < |f| { assert f[k] == f[j+1] ==> k == j + 1; }
    }
  }

  lemma MarksRemove(h: seq<Cell>, h': seq<Cell>, s: set<nat>, f: seq<nat>, j: nat)
    requires forall b :: b in s ==> b < |h|
    requires Marks(h, s, f) && Distinct(f) && j < |f| && |h'| == |h| && f[j] in s
    requires forall b :: b in s && b != f[j] ==> h'[b].next == h[b].next
    requires !Masked(h'[f[j]].next)
    ensures Marks(h', s, Remove(f, j))
  {
    RemoveElements(f, j);
  }

  lemma FreeElement(h: seq<Cell>, s: set<nat>, f: seq<nat>, j: nat)
    requires Linked(h, s, f) && j < |f|
    ensures f[j] in s && 0 < f[j] < |h| && h[f[j]].nfree == At(f, j + 1) < |h| && h[f[j]].pfree == At(f, j - 1) < |h|
    ensures At(f, j + 1) != f[j] && At(f, j - 1) != f[j] && (At(f, j + 1) == At(f, j - 1) ==> At(f, j + 1) == 0)
    ensures f[j] < |h| - 1 && f[j] < Nx(h, f[j]) < |h| <= 0x7FFF
  {
    assert FreeLink(h, f, j) && BlockLink(h, s, f[j]);
  }

  // The three writes that take c out of the free list.
  function Unlinked(h: seq<Cell>, c: nat): seq<Cell>
    requires c < |h| && h[c].nfree < |h| && h[c].pfree < |h|
  {
    var h1 := h[h[c].pfree := h[h[c].pfree].(nfree := h[c].nfree)];
    if h1[c].nfree < |h| then
      var h2 := h1[h1[c].nfree := h1[h1[c].nfree].(pfree := h1[c].pfree)];
      h2[c := h2[c].(next := BlockNo(h2[c].next))]
    else h1
  }

  lemma UnlinkedDisconnected(h: seq<Cell>, s: set<nat>, f: seq<nat>, j: nat)
    requires Linked(h, s, f) && j < |f|
    ensures f[j] < |h| && h[f[j]].nfree < |h| && h[f[j]].pfree < |h| && Disconnected(h, Unlinked(h, f[j]), f, j)
  {
    FreeElement(h, s, f, j);
  }

  lemma DisconnectKeeps(h: seq<Cell>, h': seq<Cell>, s: set<nat>, f: seq<nat>, j: nat)
    requires Linked(h, s, f) && j < |f| && Disconnected(h, h', f, j)
    ensures Linked(h', s, Remove(f, j))
  {
    assert FreeLink(h, f, j);
    SameTiles(h, h', s);
    MarksRemove(h, h', s, f, j);
    ChainRemove(h, h', f, j);
  }

  // The block after c, which is not the last one, has been joined to c.
  ghost predicate Merged(h: seq<Cell>, h': seq<Cell>, c: nat)
    requires c < |h| && Nx(h, c) < |h|
  {
    && |h'| == |h|
    && Nx(h', c) == Nx(h, Nx(h, c))
    && (Masked(h'[c].next) <==> Masked(h[c].next))
    && (forall i :: 0 <= i < |h| && i != c ==> h'[i].next == h[i].next)
    && (forall i :: 0 <= i < |h| ==> h'[i].prev == if i == Nx(h', c) then c else h[i].prev)
    && (forall i :: 0 <= i < |h| ==> h'[i].nfree == h[i].nfree && h'[i].pfree == h[i].pfree)
  }

  lemma MergeLink(h: seq<Cell>, h': seq<Cell>, s: set<nat>, c: nat, b: nat)
    requires Tiled(h, s) && c in s && 0 < c && c < Nx(h, c) < |h| - 1
    requires Merged(h, h', c) && b in s && b != Nx(h, c)
    ensures BlockLink(h', s - {Nx(h, c)}, b)
  {
    assert BlockLink(h, s, b) && BlockLink(h, s, c);
    assert BlockLink(h, s, Nx(h, c));
  }

  lemma MergeTiles(h: seq<Cell>, h': seq<Cell>, s: set<nat>, c: nat)
    requires Tiled(h, s) && c in s && 0 < c && c < Nx(h, c) < |h| - 1
    requires Merged(h, h', c)
    ensures Tiled(h', s - {Nx(h, c)})
  {
    forall b | b in s - {Nx(h, c)} ensures BlockLink(h', s - {Nx(h, c)}, b) { MergeLink(h, h', s, c, b); }
  }

  lemma MergeKeeps(h: seq<Cell>, h': seq<Cell>, s: set<nat>, f: seq<nat>, c: nat)
    requires Linked(h, s, f) && c in s && 0 < c && c < Nx(h, c) < |h| - 1 && Nx(h, c) in s
    requires Nx(h, c) !in f
    requires Merged(h, h', c)
    ensures Linked(h', s - {Nx(h, c)}, f)
  {
    var n := Nx(h, c);
    MergeTiles(h, h', s, c);
    forall i | 0 <= i < |f| ensures FreeLink(h', f, i) { assert FreeLink(h, f, i); }
  }

  // Block c has been cut k cells after its start.
  ghost predicate Cut(h: seq<Cell>, h': seq<Cell>, c: nat, k: nat)
    requires c < |h| && c + k < Nx(h, c) < |h|
  {
    && |h'| == |h|
    && Nx(h', c) == c + k
    && Nx(h', c + k) == Nx(h, c)
    && (forall i :: 0 <= i < |h| && i != c && i != c + k ==> h'[i].next == h[i].next)
    && (forall i :: 0 <= i < |h| ==>
      h'[i].prev == if i == c + k then c else if i == Nx(h, c) then c + k else h[i].prev)
    && (forall i :: 0 <= i < |h| ==> h'[i].nfree == h[i].nfree && h'[i].pfree == h[i].pfree)
  }

  lemma CutLink(h: seq<Cell>, h': seq<Cell>, s: set<nat>, c: nat, k: nat, b: nat)
    requires Tiled(h, s) && c in s && 0 < c && 0 < k && c + k < Nx(h, c) < |h|
    requires Cut(h, h', c, k) && c + k !in s && b in s && c < |h| - 1
    ensures BlockLink(h', s + {c + k}, b)
  {
    assert BlockLink(h, s, b) && BlockLink(h, s, c);
  }

  lemma CutTiles(h: seq<Cell>, h': seq<Cell>, s: set<nat>, c: nat, k: nat)
    requires Tiled(h, s) && c in s && 0 < c && 0 < k && c + k < Nx(h, c) < |h|
    requires Cut(h, h', c, k)
    ensures Tiled(h', s + {c + k})
  {
    hide Cut, BlockLink;
    CutNew(h, h', s, c, k);
    forall b | b in s ensures BlockLink(h', s + {c + k}, b) { CutLink(h, h', s, c, k, b); }
  }

  lemma CutNew(h: seq<Cell>, h': seq<Cell>, s: set<nat>, c: nat, k: nat)
    requires Tiled(h, s) && c in s && 0 < c && 0 < k && c + k < Nx(h, c) < |h|
    requires Cut(h, h', c, k)
    ensures |h'| == |h| && c < |h| - 1 && c + k !in s && h'[0].next == 1 && h'[|h| - 1].next == 0
      && BlockLink(h', s + {c + k}, c + k)
  {
    assert BlockLink(h, s, c);
  }

  lemma CutKeeps(h: seq<Cell>, h': seq<Cell>, s: set<nat>, f: seq<nat>, c: nat, k: nat)
    requires Linked(h, s, f) && c in s && 0 < c && 0 < k && c + k < Nx(h, c) < |h|
    requires Cut(h, h', c, k) && c !in f && !Masked(h'[c].next) && !Masked(h'[c + k].next)
    ensures Linked(h', s + {c + k}, f)
  {
    assert BlockLink(h, s, c);
    assert c + k !in s;
    CutTiles(h, h', s, c, k);
    forall i | 0 <= i < |f| ensures FreeLink(h', f, i) { assert FreeLink(h, f, i); }
  }

  // The block at the head of the free list is new; its predecessors are kept.
  ghost predicate Pushed(h: seq<Cell>, h': seq<Cell>, f: seq<nat>, c: nat)
  {
    && c < |h| == |h'|
    && (forall i :: 0 <= i < |h| ==> h'[i].prev == h[i].prev)
    && (forall i :: 0 <= i < |h| ==> h'[i].next == if i == c then WithMask(h[i].next) else h[i].next)
    && h'[c].nfree == At(f, 0) && h'[c].pfree == 0 && h'[0].nfree == c
    && (forall i :: 0 < i < |h| && i != c ==> h'[i].nfree == h[i].nfree)
    && (forall i :: 0 < i < |h| && i != c ==> h'[i].pfree == if i == At(f, 0) then c else h[i].pfree)
  }

  lemma PushKeeps(h: seq<Cell>, h': seq<Cell>, s: set<nat>, f: seq<nat>, c: nat)
    requires Linked(h, s, f) && c in s && 0 < c < |h| - 1 && c !in f && Pushed(h, h', f, c)
    ensures Linked(h', s, [c] + f)
  {
    SameTiles(h, h', s);
    var g := [c] + f;
    assert forall b :: b in g <==> b == c || b in f;
    forall i | 0 <= i < |g| ensures FreeLink(h', g, i) {
      if i > 0 { assert FreeLink(h, f, i - 1); }
    }
  }

  // The free-list node at position j has moved to d.
  ghost predicate Moved(h: seq<Cell>, h': seq<Cell>, f: seq<nat>, j: nat, d: nat)
    requires j < |f|
  {
    && d < |h| == |h'|
    && (forall i :: 0 <= i < |h| ==> h'[i].prev == h[i].prev && h'[i].next == h[i].next)
    && h'[d].nfree == At(f, j + 1) && h'[d].pfree == At(f, j - 1)
    && (forall i :: 0 <= i < |h| && i != d ==> h'[i].nfree == if i == At(f, j - 1) then d else h[i].nfree)
    && (forall i :: 0 < i < |h| && i != d ==> h'[i].pfree == if i == At(f, j + 1) then d else h[i].pfree)
  }

  lemma ChainMove(h: seq<Cell>, h': seq<Cell>, f: seq<nat>, j: nat, d: nat)
    requires Chain(h, f) && j < |f| && 0 < d && d !in f && Moved(h, h', f, j, d)
    ensures Chain(h', f[j := d])
  {
    var g := f[j := d];
    forall i | 0 <= i < |g| ensures FreeLink(h', g, i) {
      assert FreeLink(h, f, i);
      if 0 < j { assert f[i] == f[j-1] ==> i == j - 1; }
      if j + 1 < |f| { assert f[i] == f[j+1] ==> i == j + 1; }
    }
  }

  // f without its only occurrence of x.
  ghost function Without(f: seq<nat>, x: nat): seq<nat>
  {
    if x in f then
      var j :| 0 <= j < |f| && f[j] == x;
      Remove(f, j)
    else f
  }

  lemma RemoveElements(f: seq<nat>, j: nat)
    requires Distinct(f) && j < |f|
    ensures forall y :: y in Remove(f, j) <==> y in f && y != f[j]
  {
    var g := Remove(f, j);
    forall y | y in f && y != f[j] ensures y in g {
      var i :| 0 <= i < |f| && f[i] == y;
      assert g[if i < j then i else i - 1] == y;
    }
    forall y | y in g ensures y in f && y != f[j] {
      var i :| 0 <= i < |g| && g[i] == y;
      assert f[if i < j then i else i + 1] == y;
    }
  }

  lemma WithoutElements(f: seq<nat>, x: nat)
    requires Distinct(f)
    ensures forall y :: y in Without(f, x) <==> y in f && y != x
  {
    if x in f {
      var j :| 0 <= j < |f| && f[j] == x && Without(f, x) == Remove(f, j);
      RemoveElements(f, j);
    }
  }

  // A heap together with its block starts and its free list.
  datatype View = View(cells: seq<Cell>, starts: set<nat>, free: seq<nat>)

  ghost predicate WellFormed(v: View)
  { Linked(v.cells, v.starts, v.free) && Coalesced(v.cells, v.starts) }

  ghost function Live(v: View): set<nat>
  { set b | b in v.starts && 0 < b < |v.cells| - 1 && b !in v.free }

  ghost function Size(v: View, b: nat): int
    requires b < |v.cells|
  { Nx(v.cells, b) - b }

  // Block b keeps its place, its size and every word of its payload.
  ghost predicate Same(h: seq<Cell>, h': seq<Cell>, b: nat)
    requires |h| == |h'| && b < |h| && Nx(h, b) <= |h|
  {
    && h'[b].next == h[b].next
    && h'[b].nfree == h[b].nfree && h'[b].pfree == h[b].pfree
    && forall i :: b < i < Nx(h, b) ==> h'[i] == h[i]
  }

  // Every live block other than c is kept.
  ghost predicate OthersKept(v: View, v': View, c: nat)
  {
    && |v.cells| == |v'.cells|
    && forall b {:trigger b in Live(v)} {:trigger b in Live(v')} :: b in Live(v) && b != c ==>
      b in Live(v') && Nx(v.cells, b) <= |v.cells| && Same(v.cells, v'.cells, b)
  }

  // Only headers and free links change, and none of a live block other than c.
  ghost predicate Framed(h: seq<Cell>, h': seq<Cell>, s: set<nat>, f: seq<nat>, c: nat)
  {
    && |h'| == |h|
    && (forall i :: 0 <= i < |h| && i !in s ==> h'[i] == h[i])
    && (forall b :: b in s && 0 < b < |h| && b !in f && b != c ==>
      h'[b].next == h[b].next && h'[b].nfree == h[b].nfree && h'[b].pfree == h[b].pfree)
  }

  lemma DisconnectFrames(h: seq<Cell>, h': seq<Cell>, s: set<nat>, f: seq<nat>, j: nat)
    requires Linked(h, s, f) && j < |f| && Disconnected(h, h', f, j)
    ensures Framed(h, h', s, f, 0)
  {
    hide BlockLink, FreeLink;
    assert At(f, j - 1) in s && At(f, j + 1) in s;
  }

  lemma FramedKeeps(v: View, v': View, c: nat)
    requires Tiled(v.cells, v.starts) && Framed(v.cells, v'.cells, v.starts, v.free, c)
    requires Live(v) - {c} <= Live(v')
    ensures OthersKept(v, v', c)
  {
    forall b | b in Live(v) && b != c ensures Nx(v.cells, b) <= |v.cells| && Same(v.cells, v'.cells, b) {
      assert BlockLink(v.cells, v.starts, b);
    }
  }

  // What umm_free does to a live block.
  ghost predicate Freed(v: View, v': View, c: nat)
    requires c < |v.cells|
  {
    var n, p := Nx(v.cells, c), v.cells[c].prev;
    && v'.starts == v.starts - (if n in v.free then {n} else {}) - (if p in v.free then {c} else {})
    && v'.free == (if p in v.free then [] else [c]) + Without(v.free, n)
    && Live(v') == Live(v) - {c}
    && OthersKept(v, v', c)
  }

  // The number of blocks that hold size bytes, kept in 16 bits.
  function UmmBlocks(size: nat): word
  { if size <= 4 then 1 else (2 + (size - 5) / 8) % 0x10000 }

  ghost predicate Fits(v: View, k: nat, i: nat)
  { i < |v.free| && v.free[i] < |v.cells| && k <= Size(v, v.free[i]) }

  // Position j of the free list holds the smallest block of at least k cells, the first one on ties.
  ghost predicate BestFit(v: View, k: nat, j: nat)
  {
    && Fits(v, k, j)
    && forall i: nat :: Fits(v, k, i) ==>
      && Size(v, v.free[j]) <= Size(v, v.free[i])
      && (i < j ==> Size(v, v.free[j]) < Size(v, v.free[i]))
  }

  // The first k cells of the free block at position j have become a live block.
  ghost predicate Taken(v: View, v': View, j: nat, k: nat)
  {
    && Fits(v, k, j) && |v'.cells| == |v.cells|
    && var c := v.free[j];
    && v'.starts == (if Size(v, c) == k then v.starts else v.starts + {c + k})
    && v'.free == (if Size(v, c) == k then Remove(v.free, j) else v.free[j := c + k])
    && Live(v') == Live(v) + {c}
    && Size(v', c) == k
    && OthersKept(v, v', 0)
  }

  // What umm_malloc does for a request of k cells.
  ghost predicate Malloced(v: View, v': View, k: nat, r: nat)
  {
    if exists i: nat :: Fits(v, k, i) then
      exists j: nat :: BestFit(v, k, j) && r == v.free[j] && Taken(v, v', j, k)
    else
      r == 0 && v' == v
  }

  lemma TakenExact(v: View, v': View, j: nat, k: nat)
    requires WellFormed(v) && Fits(v, k, j) && Size(v, v.free[j]) == k
    requires Disconnected(v.cells, v'.cells, v.free, j)
    requires v'.starts == v.starts && v'.free == Remove(v.free, j)
    requires Framed(v.cells, v'.cells, v.starts, v.free, 0)
    requires Linked(v'.cells, v'.starts, v'.free)
    ensures Taken(v, v', j, k) && WellFormed(v')
  {
    assert v'.free == Without(v.free, v.free[j]);
    WithoutElements(v.free, v.free[j]);
    assert BlockLink(v.cells, v.starts, v.free[j]);
    DisconnectCoalesced(v.cells, v'.cells, v.starts, v.free, j);
    FramedKeeps(v, v', 0);
  }

  // The first i blocks of the free list have been searched; best is where the search stands.
  ghost predicate Searched(v: View, k: nat, i: nat, best: nat, bestSize: int)
  {
    if bestSize == 0x7FFF then forall l: nat :: l < i ==> !Fits(v, k, l)
    else
      && best < i && Fits(v, k, best) && bestSize == Size(v, v.free[best])
      && forall l: nat :: l < i && Fits(v, k, l) ==>
        bestSize <= Size(v, v.free[l]) && (l < best ==> bestSize < Size(v, v.free[l]))
  }

  lemma ReplaceElements(f: seq<nat>, j: nat, d: nat)
    requires Distinct(f) && j < |f| && d !in f
    ensures forall b :: b in f[j := d] <==> (b in f && b != f[j]) || b == d
  {
    var g := f[j := d];
    assert g[j] == d;
    forall b | b in f && b != f[j] ensures b in g {
      var i :| 0 <= i < |f| && f[i] == b;
      assert g[i] == b;
    }
    forall b | b in g ensures (b in f && b != f[j]) || b == d {
      var i :| 0 <= i < |g| && g[i] == b;
    }
  }

  lemma SearchStart(v: View, k: nat)
    requires WellFormed(v)
    ensures v.cells != [] && v.cells[0].nfree == At(v.free, 0) && Searched(v, k, 0, 0, 0x7FFF)
  {}

  lemma SearchElement(v: View, i: nat)
    requires WellFormed(v) && i <= |v.free| && At(v.free, i) != 0
    ensures i < |v.free| && v.free[i] < |v.cells| && v.cells[v.free[i]].nfree == At(v.free, i + 1)
      && 0 < Size(v, v.free[i]) < 0x7FFF
  {
    FreeElement(v.cells, v.starts, v.free, i);
  }

  // The search is over: it has found the best fit, or there is none and the last block was too small, too.
  lemma SearchEnd(v: View, k: nat, i: nat, best: nat, bestSize: int)
    requires WellFormed(v) && k > 0 && Searched(v, k, i, best, bestSize) && i <= |v.free| && At(v.free, i) == 0
    ensures bestSize == 0x7FFF ==>
      (forall l: nat :: !Fits(v, k, l)) && (i > 0 ==> v.free[i - 1] < |v.cells| && Size(v, v.free[i - 1]) < k)
    ensures bestSize != 0x7FFF ==>
      BestFit(v, k, best) && Fits(v, k, best) && best < |v.free| && 0 < v.free[best] < |v.cells|
        && bestSize == Size(v, v.free[best])
  {
    if i < |v.free| { FreeElement(v.cells, v.starts, v.free, i); }
    forall l: nat | l < |v.free| ensures 0 < v.free[l] < |v.cells| { FreeElement(v.cells, v.starts, v.free, l); }
    if bestSize == 0x7FFF && i > 0 { assert !Fits(v, k, i - 1); }
  }

  lemma SearchStep(v: View, k: nat, i: nat, best: nat, bestSize: int, size: int)
    requires Searched(v, k, i, best, bestSize) && i < |v.free| && v.free[i] < |v.cells|
    requires size == Size(v, v.free[i]) < 0x7FFF
    ensures if size >= k && size < bestSize then Searched(v, k, i + 1, i, size)
            else bestSize <= 0x7FFF ==> Searched(v, k, i + 1, best, bestSize)
  {
  }

  lemma SplitLinked(v: View, m: seq<Cell>, v': View, j: nat, k: nat)
    requires WellFormed(v) && Fits(v, k, j) && 0 < k < Size(v, v.free[j])
    requires IsSplit(v, m, v', j, k)
    ensures Linked(v'.cells, v'.starts, v'.free)
  {
    var c := v.free[j];
    var h, h', s, f := v.cells, v'.cells, v.starts, v.free;
    assert c + k !in s by { assert BlockLink(h, s, c); }
    CutTiles(h, m, s, c, k);
    SameTiles(m, h', v'.starts);
    assert Chain(m, f) by {
      forall i | 0 <= i < |f| ensures FreeLink(m, f, i) { assert FreeLink(h, f, i); }
    }
    ChainMove(m, h', f, j, c + k);
    ReplaceElements(f, j, c + k);
  }

  lemma SplitCoalesced(v: View, m: seq<Cell>, v': View, j: nat, k: nat)
    requires WellFormed(v) && Fits(v, k, j) && 0 < k < Size(v, v.free[j])
    requires IsSplit(v, m, v', j, k)
    ensures Coalesced(v'.cells, v'.starts)
  {
    var c := v.free[j];
    assert BlockLink(v.cells, v.starts, c);
    forall b | b in v'.starts && b < |m| - 1 && Masked(v'.cells[b].next)
      ensures Nx(v'.cells, b) < |m| && !Masked(v'.cells[Nx(v'.cells, b)].next) {
      if b != c + k { assert BlockLink(v.cells, v.starts, b); }
    }
  }

  ghost predicate IsSplit(v: View, m: seq<Cell>, v': View, j: nat, k: nat)
    requires j < |v.free| && v.free[j] < |v.cells|
  {
    var c := v.free[j];
    && c + k < Nx(v.cells, c) < |v.cells| && Cut(v.cells, m, c, k)
    && !Masked(m[c].next) && Masked(m[c + k].next)
    && Moved(m, v'.cells, v.free, j, c + k)
    && v'.starts == v.starts + {c + k} && v'.free == v.free[j := c + k]
  }

  lemma TakenSplit(v: View, m: seq<Cell>, v': View, j: nat, k: nat)
    requires WellFormed(v) && Fits(v, k, j) && 0 < k < Size(v, v.free[j])
    requires IsSplit(v, m, v', j, k)
    ensures Taken(v, v', j, k) && WellFormed(v')
  {
    SplitLinked(v, m, v', j, k);
    SplitCoalesced(v, m, v', j, k);
    var c := v.free[j];
    assert BlockLink(v.cells, v.starts, c);
    ReplaceElements(v.free, j, c + k);
    assert Live(v') == Live(v) + {c};
    SplitKeeps(v, m, v', j, k);
  }

  lemma SplitKeeps(v: View, m: seq<Cell>, v': View, j: nat, k: nat)
    requires WellFormed(v) && Fits(v, k, j) && 0 < k < Size(v, v.free[j])
    requires IsSplit(v, m, v', j, k)
    ensures forall b :: b in Live(v) ==> Nx(v.cells, b) <= |v.cells| && Same(v.cells, v'.cells, b)
  {
    var c, h := v.free[j], v.cells;
    forall b | b in Live(v) ensures Nx(h, b) <= |h| && Same(h, v'.cells, b) {
      assert BlockLink(h, v.starts, b) && BlockLink(h, v.starts, c);
      assert c + k !in v.starts;
    }
  }

  // The first e cells of block c, header aside, are now those of block r.
  ghost predicate PrefixKept(h: seq<Cell>, h': seq<Cell>, c: nat, r: nat, e: int)
  {
    && 0 < e && c + e <= |h| && r + e <= |h'|
    && h'[r].nfree == h[c].nfree && h'[r].pfree == h[c].pfree
    && h'[r + 1..r + e] == h[c + 1..c + e]
  }

  // Live block c has become live block r of the given size, with its first e cells kept.
  ghost predicate Resized(v: View, v': View, c: nat, r: nat, e: int, size: int)
  {
    && WellFormed(v') && c in Live(v)
    && (r == c || r !in Live(v))
    && Live(v') == Live(v) - {c} + {r} && r < |v'.cells|
    && Size(v', r) == size
    && PrefixKept(v.cells, v'.cells, c, r, e)
    && OthersKept(v, v', c)
  }

  lemma PrefixTwice(g: seq<Cell>, h: seq<Cell>, i: seq<Cell>, c: nat, d: nat, r: nat, e: int, e': int, x: int)
    requires PrefixKept(g, h, c, d, e) && PrefixKept(h, i, d, r, e') && 0 < x <= e && x <= e'
    ensures PrefixKept(g, i, c, r, x)
  {
    SliceShorter(g, c, e, x);
    SliceShorter(h, d, e, x);
    SliceShorter(h, d, e', x);
    SliceShorter(i, r, e', x);
  }

  lemma SliceShorter(h: seq<Cell>, c: nat, e: int, x: int)
    requires 0 < x <= e && c + e <= |h|
    ensures h[c + 1..c + x] == h[c + 1..c + e][..x - 1]
  {}

  lemma KeptTwice(v: View, m: View, v': View, c: nat, d: nat)
    requires OthersKept(v, m, c) && OthersKept(m, v', d) && (d == c || d !in Live(v))
    ensures OthersKept(v, v', c)
  {
  }

  lemma ResizedTwice(v: View, m: View, v': View, c: nat, d: nat, r: nat, e: int, e': int, z: int, z': int)
    requires Resized(v, m, c, d, e, z) && Resized(m, v', d, r, e', z')
    requires r == d || r !in Live(v) || r == c
    ensures Resized(v, v', c, r, if e' <= e then e' else e, z')
  {
    PrefixTwice(v.cells, m.cells, v'.cells, c, d, r, e, e', if e' <= e then e' else e);
    KeptTwice(v, m, v', c, d);
  }

  // Writing to the payload of a live block.
  ghost predicate Written(v: View, v': View, c: nat)
    requires c < |v.cells| && Nx(v.cells, c) <= |v.cells|
  {
    && |v'.cells| == |v.cells| && v'.starts == v.starts && v'.free == v.free
    && v'.cells[c].next == v.cells[c].next && v'.cells[c].prev == v.cells[c].prev
    && forall i :: 0 <= i < |v.cells| && !(c <= i < Nx(v.cells, c)) ==> v'.cells[i] == v.cells[i]
  }

  lemma WriteKeeps(v: View, v': View, c: nat)
    requires WellFormed(v) && c in Live(v)
    ensures Nx(v.cells, c) <= |v.cells|
    ensures Written(v, v', c) ==> WellFormed(v') && Live(v') == Live(v) && OthersKept(v, v', c)
  {
    var h, h', s, f := v.cells, v'.cells, v.starts, v.free;
    assert BlockLink(h, s, c);
    if Written(v, v', c) {
      assert forall b :: b in s ==> h'[b].next == h[b].next && h'[b].prev == h[b].prev;
      SameTiles(h, h', s);
      assert forall b :: b in s && b != c ==> h'[b] == h[b];
      assert Chain(h', f) by {
        forall i | 0 <= i < |f| ensures FreeLink(h', f, i) { assert FreeLink(h, f, i); }
      }
      assert Coalesced(h', s) by {
        forall b | b in s && b < |h| - 1 && Masked(h'[b].next) ensures Nx(h', b) < |h| && !Masked(h'[Nx(h', b)].next) {
          assert BlockLink(h, s, b);
        }
      }
      forall b | b in Live(v) && b != c ensures Nx(h, b) <= |h| && Same(h, h', b) {
        assert BlockLink(h, s, b);
      }
    }
  }

  lemma GrownUp(v: View, v': View, c: nat)
    requires WellFormed(v) && c in Live(v) && WellFormed(v') && Absorbed(v, v', c)
    ensures 0 < Size(v, c) && Nx(v.cells, c) < |v.cells|
    ensures Resized(v, v', c, c, Size(v, c), Size(v', c))
  {
    assert BlockLink(v.cells, v.starts, c) && BlockLink(v'.cells, v'.starts, c);
    WithoutElements(v.free, Nx(v.cells, c));
    FramedKeeps(v, v', c);
    var e := Size(v, c);
    assert v'.cells[c + 1..c + e] == v.cells[c + 1..c + e];
  }

  // c, whose block was live, has been joined to the free block before it.
  ghost predicate JoinedDown(v: View, v': View, c: nat, p: nat)
  {
    && WellFormed(v') && c in Live(v) && p !in Live(v) && p < |v'.cells|
    && Live(v') == Live(v) - {c} + {p} && OthersKept(v, v', c)
    && 0 < Size(v, c) && PrefixKept(v.cells, v'.cells, c, c, Size(v, c))
    && Nx(v'.cells, p) == Nx(v.cells, c)
  }

  lemma JoinedWellFormed(v: View, m: View, v': View, j: nat, c: nat)
    requires WellFormed(v) && c in Live(v) && j < |v.free| && v.free[j] == v.cells[c].prev
    requires Nx(v.cells, c) !in v.free && Nx(v.cells, v.free[j]) == c
    requires Disconnected(v.cells, m.cells, v.free, j) && Framed(v.cells, m.cells, v.starts, v.free, 0)
    requires m.starts == v.starts && m.free == Remove(v.free, j) && Linked(m.cells, m.starts, m.free)
    requires Nx(m.cells, v.free[j]) == c && Merged(m.cells, v'.cells, v.free[j])
      && Framed(m.cells, v'.cells, m.starts, m.free, v.free[j])
    requires v'.starts == m.starts - {c} && v'.free == m.free && Linked(v'.cells, v'.starts, v'.free)
    ensures WellFormed(v') && Nx(v'.cells, v.free[j]) == Nx(v.cells, c) && 0 < Size(v, c) && Nx(v.cells, c) < |v.cells|
  {
    assert BlockLink(v.cells, v.starts, c) && BlockLink(v.cells, v.starts, v.free[j]);
    DisconnectCoalesced(v.cells, m.cells, v.starts, v.free, j);
    MergeCoalesced(m.cells, v'.cells, m.starts, m.free, v.free[j]);
  }

  lemma JoinedFrame(v: View, m: View, v': View, j: nat, c: nat)
    requires WellFormed(v) && c in Live(v) && j < |v.free| && v.free[j] == v.cells[c].prev
    requires Nx(v.cells, c) !in v.free && Nx(v.cells, v.free[j]) == c
    requires Disconnected(v.cells, m.cells, v.free, j) && Framed(v.cells, m.cells, v.starts, v.free, 0)
    requires m.starts == v.starts && m.free == Remove(v.free, j) && Linked(m.cells, m.starts, m.free)
    requires Nx(m.cells, v.free[j]) == c && Merged(m.cells, v'.cells, v.free[j])
      && Framed(m.cells, v'.cells, m.starts, m.free, v.free[j])
    requires v'.starts == m.starts - {c} && v'.free == m.free && Linked(v'.cells, v'.starts, v'.free)
    ensures Live(v') == Live(v) - {c} + {v.free[j]} && OthersKept(v, v', c)
    ensures 0 < Size(v, c) && PrefixKept(v.cells, v'.cells, c, c, Size(v, c))
  {
    hide BlockLink, FreeLink, Same;
    assert m.free == Without(v.free, v.free[j]);
    WithoutElements(v.free, v.free[j]);
    assert Framed(v.cells, v'.cells, v.starts, v.free, c);
    FramedPayload(v, v', c);
    hide Framed, Disconnected, Merged;
    FramedKeeps(v, v', c);
  }

  // The payload of c is untouched, too.
  lemma FramedPayload(v: View, v': View, c: nat)
    requires WellFormed(v) && c in Live(v) && Framed(v.cells, v'.cells, v.starts, v.free, c)
      && v'.cells[c].nfree == v.cells[c].nfree
    requires v'.cells[c].pfree == v.cells[c].pfree
    ensures 0 < Size(v, c) && PrefixKept(v.cells, v'.cells, c, c, Size(v, c))
  {
    var e := Size(v, c);
    assert BlockLink(v.cells, v.starts, c);
    assert v'.cells[c + 1..c + e] == v.cells[c + 1..c + e];
  }

  lemma PayloadMoved(v: View, m: View, v': View, c: nat, p: nat, e: nat)
    requires JoinedDown(v, m, c, p)
    requires 0 < e <= Size(v, c) && PrefixKept(m.cells, v'.cells, c, p, e)
    requires p + e <= Nx(m.cells, p) <= |m.cells| && Written(m, v', p)
    requires WellFormed(v') && Live(v') == Live(m) && OthersKept(m, v', p)
    ensures Resized(v, v', c, p, e, Size(m, p))
  {
    PrefixTwice(v.cells, m.cells, v'.cells, c, c, p, Size(v, c), e, e);
    KeptTwice(v, m, v', c, p);
  }

  lemma CutCoalesced(v: View, m: View, c: nat, k: nat)
    requires WellFormed(v) && c in Live(v) && 0 < k && c + k < Nx(v.cells, c) < |v.cells|
    requires Cut(v.cells, m.cells, c, k) && !Masked(m.cells[c].next) && !Masked(m.cells[c + k].next)
    requires forall i :: 0 <= i < |v.cells| && i != c && i != c + k && i != Nx(v.cells, c) ==> m.cells[i] == v.cells[i]
    requires m.starts == v.starts + {c + k}
    ensures Coalesced(m.cells, m.starts)
  {
    var h, s := v.cells, v.starts;
    forall b | b in m.starts && b < |h| - 1 && Masked(m.cells[b].next)
      ensures Nx(m.cells, b) < |h| && !Masked(m.cells[Nx(m.cells, b)].next) { assert BlockLink(h, s, b); }
  }

  lemma CutLive(v: View, m: View, c: nat, k: nat)
    requires WellFormed(v) && c in Live(v) && 0 < k && c + k < Nx(v.cells, c) < |v.cells|
    requires Cut(v.cells, m.cells, c, k) && !Masked(m.cells[c].next) && !Masked(m.cells[c + k].next)
    requires forall i :: 0 <= i < |v.cells| && i != c && i != c + k && i != Nx(v.cells, c) ==> m.cells[i] == v.cells[i]
    requires m.starts == v.starts + {c + k} && m.free == v.free
    ensures WellFormed(m) && c + k in Live(m) && c + k !in Live(v)
    ensures Live(m) == Live(v) + {c + k} && OthersKept(v, m, c) && PrefixKept(v.cells, m.cells, c, c, k)
  {
    var h, s := v.cells, v.starts;
    assert BlockLink(h, s, c);
    assert c + k !in s;
    CutKeeps(h, m.cells, s, v.free, c, k);
    CutCoalesced(v, m, c, k);
    hide Cut, Coalesced, Chain, FreeLink;
    forall b | b in Live(v) && b != c ensures Nx(h, b) <= |h| && Same(h, m.cells, b) {
      assert BlockLink(h, s, b);
      assert BlockLink(h, s, Nx(h, c));
    }
    assert m.cells[c + 1..c + k] == h[c + 1..c + k];
  }

  lemma ShrinkDone(v: View, m: View, v': View, c: nat, k: nat)
    requires WellFormed(v) && WellFormed(m) && WellFormed(v') && c in Live(v) && c + k !in Live(v) && 0 < k
    requires Live(m) == Live(v) + {c + k} && OthersKept(v, m, c) && PrefixKept(v.cells, m.cells, c, c, k)
    requires Nx(m.cells, c) == c + k && c + k < |m.cells| && Freed(m, v', c + k)
    ensures Resized(v, v', c, c, k, k)
  {
    KeptTwice(v, m, v', c, c + k);
    assert Same(m.cells, v'.cells, c);
    SamePrefix(m.cells, v'.cells, c, k);
    PrefixTwice(v.cells, m.cells, v'.cells, c, c, c, k, k, k);
  }

  lemma RelocateDone(v: View, m: View, w: View, v': View, c: nat, x: nat, e: nat, k: nat)
    requires WellFormed(v) && WellFormed(m) && WellFormed(v') && c in Live(v)
    requires Live(m) == Live(v) + {x} && x !in Live(v) && OthersKept(v, m, 0) && x < |m.cells| && Size(m, x) == k
    requires Nx(m.cells, x) <= |m.cells| && Written(m, w, x)
    requires Live(w) == Live(m) && OthersKept(m, w, x)
    requires 0 < e <= Size(v, c) && e < k && PrefixKept(m.cells, w.cells, c, x, e) && Freed(w, v', c)
    ensures Resized(v, v', c, x, e, k)
  {
    RelocatePrefix(v, m, w, v', c, x, e, k);
    KeptTwice(v, m, w, 0, x);
    KeptTwice(v, w, v', c, c);
  }

  lemma SamePrefix(h: seq<Cell>, h': seq<Cell>, b: nat, e: nat)
    requires |h| == |h'| && b < |h| && Nx(h, b) <= |h| && Same(h, h', b) && 0 < e <= Nx(h, b) - b
    ensures PrefixKept(h, h', b, b, e)
  {
    assert h'[b + 1..b + e] == h[b + 1..b + e];
  }

  lemma MallocedFacts(v: View, m: View, k: nat, x: nat)
    requires WellFormed(v) && Malloced(v, m, k, x) && x != 0
    ensures |m.cells| == |v.cells| && x < |m.cells| && x !in Live(v) && Live(m) == Live(v) + {x}
    ensures Size(m, x) == k && OthersKept(v, m, 0)
    ensures (exists i: nat :: Fits(v, k, i)) && exists j: nat :: BestFit(v, k, j) && x == v.free[j]
  {
  }

  lemma RelocatePrefix(v: View, m: View, w: View, v': View, c: nat, x: nat, e: nat, k: nat)
    requires c in Live(v) && Live(m) == Live(v) + {x} && x != c && 0 < c
    requires OthersKept(v, m, 0) && x in Live(w) && c < |v.cells| && x < |m.cells| && Size(m, x) == k
    requires |w.cells| == |m.cells| && w.cells[x].next == m.cells[x].next
    requires 0 < e <= Size(v, c) && e < k && PrefixKept(m.cells, w.cells, c, x, e) && OthersKept(w, v', c)
    ensures PrefixKept(v.cells, v'.cells, c, x, e)
  {
    assert Same(v.cells, m.cells, c) && Nx(v.cells, c) <= |v.cells|;
    SamePrefix(v.cells, m.cells, c, e);
    PrefixTwice(v.cells, m.cells, w.cells, c, c, x, e, e, e);
    assert Same(w.cells, v'.cells, x) && Nx(w.cells, x) <= |w.cells|;
    SamePrefix(w.cells, v'.cells, x, e);
    PrefixTwice(v.cells, w.cells, v'.cells, c, x, x, e, e, e);
  }

  // The cells c has once the free blocks after it, and then before it, are joined to it.
  ghost function RoomUp(v: View, c: nat): int
    requires c < |v.cells| && Nx(v.cells, c) < |v.cells|
  {
    var n := Nx(v.cells, c);
    if n in v.free then Nx(v.cells, n) - c else n - c
  }

  ghost function RoomDown(v: View, c: nat): int
    requires c < |v.cells| && Nx(v.cells, c) < |v.cells|
  { if v.cells[c].prev in v.free then RoomUp(v, c) + c - v.cells[c].prev else RoomUp(v, c) }

  // What umm_realloc does to live block c for a request of k cells.
  ghost predicate Reallocated(v: View, v': View, c: nat, k: nat, r: nat)
    requires c < |v.cells| && c < Nx(v.cells, c) < |v.cells|
  {
    var kept := if k <= Size(v, c) then k else Size(v, c);
    if k == Size(v, c) then
      r == c && v' == v
    else if v.cells[c].prev in v.free && k <= RoomDown(v, c) then
      r == v.cells[c].prev && Resized(v, v', c, r, kept, k)
    else if k <= RoomUp(v, c) then
      r == c && Resized(v, v', c, r, kept, k)
    else if exists i: nat :: Fits(v, k, i) then
      (exists j: nat :: BestFit(v, k, j) && r == v.free[j]) && Resized(v, v', c, r, kept, k)
    else
      r == 0 && WellFormed(v') && Live(v') == Live(v) - {c} && OthersKept(v, v', c)
  }

  // The free list of m is that of v without position p, whose block is too small.
  lemma FitsWithout(v: View, m: View, k: nat, p: nat, i: nat)
    requires p < |v.free| && m.free == Remove(v.free, p) && |m.cells| == |v.cells| && i < |m.free|
    requires var j := if i < p then i else i + 1;
      v.free[j] < |v.cells| && Nx(m.cells, v.free[j]) == Nx(v.cells, v.free[j])
    ensures Fits(m, k, i) <==> Fits(v, k, if i < p then i else i + 1)
  {
  }

  lemma BestFitWithout(v: View, m: View, k: nat, p: nat, i: nat)
    requires p < |v.free| && m.free == Remove(v.free, p) && |m.cells| == |v.cells|
    requires forall b :: b in v.free ==> b < |v.cells| && (b != v.free[p] ==> Nx(m.cells, b) == Nx(v.cells, b))
    requires Distinct(v.free) && !Fits(v, k, p) && BestFit(m, k, i)
    ensures BestFit(v, k, if i < p then i else i + 1)
  {
    var j := if i < p then i else i + 1;
    FitsWithout(v, m, k, p, i);
    forall l: nat | Fits(v, k, l)
      ensures Size(v, v.free[j]) <= Size(v, v.free[l]) && (l < j ==> Size(v, v.free[j]) < Size(v, v.free[l]))
    {
      FitsWithout(v, m, k, p, if l < p then l else l - 1);
    }
  }

  lemma AbsorbedSizes(v: View, m: View, c: nat)
    requires WellFormed(v) && c in Live(v) && Absorbed(v, m, c)
    ensures forall b :: b in v.free ==> b < |v.cells| && (b != Nx(v.cells, c) ==> Nx(m.cells, b) == Nx(v.cells, b))
    ensures Nx(v.cells, c) in v.free ==> Size(v, Nx(v.cells, c)) < RoomUp(v, c)
  {
    assert BlockLink(v.cells, v.starts, c);
  }

  lemma FitsBoth(v: View, m: View, k: nat, p: nat)
    requires p < |v.free| && m.free == Remove(v.free, p) && |m.cells| == |v.cells|
    requires forall b :: b in v.free ==> b < |v.cells| && (b != v.free[p] ==> Nx(m.cells, b) == Nx(v.cells, b))
    requires Distinct(v.free) && !Fits(v, k, p)
    ensures (exists i: nat :: Fits(v, k, i)) <==> (exists i: nat :: Fits(m, k, i))
  {
    if i: nat :| Fits(v, k, i) {
      FitsWithout(v, m, k, p, if i < p then i else i - 1);
    }
    if i: nat :| Fits(m, k, i) {
      FitsWithout(v, m, k, p, i);
    }
  }

  lemma FitsSame(v: View, m: View, k: nat)
    requires m.free == v.free && |m.cells| == |v.cells|
    requires forall b :: b in v.free ==> b < |v.cells| && Nx(m.cells, b) == Nx(v.cells, b)
    ensures (exists i: nat :: Fits(v, k, i)) <==> (exists i: nat :: Fits(m, k, i))
    ensures forall i: nat :: BestFit(m, k, i) ==> BestFit(v, k, i)
  {
    assert forall i: nat :: Fits(v, k, i) <==> Fits(m, k, i);
  }

  lemma FitsRemoved(v: View, m: View, k: nat, p: nat)
    requires p < |v.free| && m.free == Remove(v.free, p) && |m.cells| == |v.cells|
    requires forall b :: b in v.free ==> b < |v.cells| && (b != v.free[p] ==> Nx(m.cells, b) == Nx(v.cells, b))
    requires Distinct(v.free) && !Fits(v, k, p)
    ensures (exists i: nat :: Fits(v, k, i)) <==> (exists i: nat :: Fits(m, k, i))
    ensures forall i: nat :: BestFit(m, k, i) ==> exists j: nat :: BestFit(v, k, j) && v.free[j] == m.free[i]
  {
    FitsBoth(v, m, k, p);
    hide *;
    forall i: nat | BestFit(m, k, i) ensures exists j: nat :: BestFit(v, k, j) && v.free[j] == m.free[i] {
      BestFitWithout(v, m, k, p, i);
    }
  }

  // Taking out a block that is too small changes neither whether a request fits nor where.
  lemma FitsElsewhere(v: View, m: View, x: nat, k: nat)
    requires Distinct(v.free) && m.free == Without(v.free, x) && |m.cells| == |v.cells|
    requires forall b :: b in v.free ==> b < |v.cells| && (b != x ==> Nx(m.cells, b) == Nx(v.cells, b))
    requires x in v.free ==> Size(v, x) < k
    ensures (exists i: nat :: Fits(v, k, i)) <==> (exists i: nat :: Fits(m, k, i))
    ensures forall i: nat :: BestFit(m, k, i) ==> exists j: nat :: BestFit(v, k, j) && v.free[j] == m.free[i]
  {
    if x in v.free {
      var p: nat :| p < |v.free| && v.free[p] == x && m.free == Remove(v.free, p);
      hide *;
      FitsRemoved(v, m, k, p);
    } else {
      FitsSame(v, m, k);
    }
  }

  lemma AbsorbedFits(v: View, m: View, c: nat, k: nat)
    requires WellFormed(v) && c in Live(v) && Absorbed(v, m, c) && RoomUp(v, c) < k
    ensures (exists i: nat :: Fits(v, k, i)) <==> (exists i: nat :: Fits(m, k, i))
    ensures forall i: nat :: BestFit(m, k, i) ==> exists j: nat :: BestFit(v, k, j) && v.free[j] == m.free[i]
  {
    AbsorbedSizes(v, m, c);
    FitsElsewhere(v, m, Nx(v.cells, c), k);
  }

  // Block c has been joined to its free neighbours, downwards only if that makes room for k cells, and is now block d.
  ghost predicate Assimilated(v: View, w: View, c: nat, k: nat, d: nat)
    requires c < |v.cells| && Nx(v.cells, c) < |v.cells|
  {
    && d < |w.cells| && Size(v, c) <= Size(w, d)
    && if v.cells[c].prev in v.free && k <= RoomDown(v, c) then
      d == v.cells[c].prev && d !in Live(v) && Resized(v, w, c, d, Size(v, c), RoomDown(v, c))
    else
      d == c && Resized(v, w, c, c, Size(v, c), RoomUp(v, c)) && Absorbed(v, w, c)
  }

  lemma ReallocatedHere(v: View, w: View, v': View, c: nat, k: nat, d: nat)
    requires c < |v.cells| && c < Nx(v.cells, c) < |v.cells| && k != Size(v, c) && 0 < k
    requires Assimilated(v, w, c, k, d)
    requires if Size(w, d) == k then v' == w else k < Size(w, d) && Resized(w, v', d, d, k, k)
    ensures Reallocated(v, v', c, k, d)
  {
    if Size(w, d) != k {
      ResizedTwice(v, w, v', c, d, d, Size(v, c), k, Size(w, d), k);
    }
  }

  lemma ReallocatedElsewhere(v: View, w: View, v': View, c: nat, k: nat, r: nat)
    requires WellFormed(v) && c in Live(v)
    requires c < Nx(v.cells, c) < |v.cells| && k != Size(v, c) && Assimilated(v, w, c, k, c)
    requires Size(w, c) < k
    requires Relocated(w, v', c, r, Size(v, c), k)
    ensures Reallocated(v, v', c, k, r)
  {
    AbsorbedFits(v, w, c, k);
    if r != 0 {
      assert r != c;
      ResizedTwice(v, w, v', c, c, r, Size(v, c), Size(v, c), Size(w, c), k);
    } else {
      KeptTwice(v, w, v', c, c);
    }
  }

  // Live block c has been freed, after its first e cells went to a new block of k cells, if there was one.
  ghost predicate Relocated(v: View, v': View, c: nat, r: nat, e: int, k: nat)
  {
    if exists i: nat :: Fits(v, k, i) then
      r != 0 && r != c && (exists j: nat :: BestFit(v, k, j) && r == v.free[j]) && Resized(v, v', c, r, e, k)
    else
      r == 0 && WellFormed(v') && Live(v') == Live(v) - {c} && OthersKept(v, v', c)
  }

  lemma InitialWellFormed(v: View, n: nat)
    requires 3 <= n <= 0x7FFF && |v.cells| == n && v.starts == {0, 1, n - 1} && v.free == [1]
    requires v.cells[0].next == 1 && v.cells[0].nfree == 1
    requires v.cells[1] == Cell(n - 1 + 0x8000, 0, 0, 0)
    requires v.cells[n - 1].next == 0 && v.cells[n - 1].prev == 1
    ensures WellFormed(v)
  {
    assert BlockLink(v.cells, v.starts, 0);
    assert BlockLink(v.cells, v.starts, 1);
    assert BlockLink(v.cells, v.starts, n - 1);
    assert FreeLink(v.cells, v.free, 0);
  }

  lemma PushCoalesced(h: seq<Cell>, h': seq<Cell>, s: set<nat>, f: seq<nat>, c: nat)
    requires Linked(h, s, f) && Coalesced(h, s) && Pushed(h, h', f, c)
    requires c in s && 0 < c < |h| - 1 && h[c].prev !in f && Nx(h, c) !in f
    ensures Coalesced(h', s)
  {
    assert BlockLink(h, s, c);
    forall b | b in s && b < |h| - 1 && Masked(h'[b].next) ensures Nx(h', b) < |h'| && !Masked(h'[Nx(h', b)].next) {
      assert BlockLink(h, s, b);
    }
  }

  lemma DisconnectCoalesced(h: seq<Cell>, h': seq<Cell>, s: set<nat>, f: seq<nat>, j: nat)
    requires Linked(h, s, f) && Coalesced(h, s) && j < |f| && Disconnected(h, h', f, j)
    ensures Coalesced(h', s)
    ensures Nx(h, f[j]) < |h| && !Masked(h'[Nx(h, f[j])].next)
  {
    assert BlockLink(h, s, f[j]);
    forall b | b in s && b < |h| - 1 && Masked(h'[b].next) ensures Nx(h', b) < |h'| && !Masked(h'[Nx(h', b)].next) {
      assert BlockLink(h, s, b);
    }
  }

  // Live block c has been joined to the block after it, if that was free.
  ghost predicate Absorbed(v: View, v': View, c: nat)
    requires c < |v.cells|
  {
    var n := Nx(v.cells, c);
    && |v.cells| == |v'.cells| && c < n <= Nx(v'.cells, c) < |v.cells|
    && v'.free == Without(v.free, n)
    && v'.starts == (if n in v.free then v.starts - {n} else v.starts)
    && Nx(v'.cells, c) == (if n in v.free then Nx(v.cells, n) else n)
    && Framed(v.cells, v'.cells, v.starts, v.free, c)
    && v'.cells[c].nfree == v.cells[c].nfree && v'.cells[c].pfree == v.cells[c].pfree
    && v'.cells[c].prev == v.cells[c].prev
    && forall i :: 0 <= i < |v.cells| && i != c && i != n ==> v'.cells[i].next == v.cells[i].next
  }

  lemma AbsorbLinked(v: View, m: seq<Cell>, v': View, j: nat, c: nat)
    requires WellFormed(v) && c in Live(v) && j < |v.free| && Nx(v.cells, c) == v.free[j]
    requires Disconnected(v.cells, m, v.free, j) && Linked(m, v.starts, v'.free) && v.free[j] !in v'.free
    requires Nx(m, c) < |m| && Merged(m, v'.cells, c)
    requires v'.starts == v.starts - {v.free[j]} && v'.free == Remove(v.free, j)
    ensures WellFormed(v') && Nx(v'.cells, c) < |v.cells| && Nx(v'.cells, c) !in v'.free
  {
    assert BlockLink(v.cells, v.starts, c) && BlockLink(v.cells, v.starts, v.free[j]);
    MergeKeeps(m, v'.cells, v.starts, v'.free, c);
    DisconnectCoalesced(v.cells, m, v.starts, v.free, j);
    MergeCoalesced(m, v'.cells, v.starts, v'.free, c);
  }

  lemma AbsorbEffect(v: View, m: seq<Cell>, v': View, j: nat, c: nat)
    requires WellFormed(v) && c in Live(v) && j < |v.free| && Nx(v.cells, c) == v.free[j]
    requires Disconnected(v.cells, m, v.free, j) && Linked(m, v.starts, v'.free) && v.free[j] !in v'.free
    requires Nx(m, c) < |m| && Merged(m, v'.cells, c)
    requires v'.starts == v.starts - {v.free[j]} && v'.free == Remove(v.free, j)
    requires Framed(v.cells, m, v.starts, v.free, 0)
    requires forall i :: 0 <= i < |m| && i != c && i != Nx(v'.cells, c) ==> v'.cells[i] == m[i]
    ensures Absorbed(v, v', c)
  {
    assert BlockLink(v.cells, v.starts, c) && BlockLink(v.cells, v.starts, v.free[j]);
    assert FreeLink(v.cells, v.free, j);
  }

  lemma FreeStart(v: View, c: nat)
    requires WellFormed(v) && c in Live(v)
    ensures Tiled(v.cells, v.starts) && Distinct(v.free) && c in v.starts && 0 < c < |v.cells| - 1 && c !in v.free
      && !Masked(v.cells[c].next)
  {}

  // What freeing needs to know of block c after what follows it has been absorbed.
  lemma AbsorbedBlock(v: View, m: View, c: nat)
    requires WellFormed(v) && c in Live(v) && WellFormed(m) && Absorbed(v, m, c)
    ensures !Masked(m.cells[c].next)
    ensures c in m.starts && 0 < c < Nx(m.cells, c) < |m.cells| && c < |m.cells| - 1 && c !in m.free
      && Nx(m.cells, c) !in m.free
    ensures m.cells[c].prev < c && m.cells[c].prev in m.starts && m.cells[c].prev == v.cells[c].prev
      && Nx(m.cells, m.cells[c].prev) == c
    ensures Masked(m.cells[m.cells[c].prev].next) <==> m.cells[c].prev in m.free
    ensures m.cells[c].prev in m.free <==> v.cells[c].prev in v.free
    ensures m.cells[c].prev in m.free ==> m.cells[c].prev > 0
  {
    assert BlockLink(m.cells, m.starts, c) && BlockLink(v.cells, v.starts, c);
    WithoutElements(v.free, Nx(v.cells, c));
  }

  lemma FreeDone(v: View, m: View, v': View, c: nat, d: nat)
    requires Tiled(v.cells, v.starts) && Distinct(v.free) && c in Live(v) && Absorbed(v, m, c)
    requires var p := v.cells[c].prev;
      if p in v.free then v'.free == m.free && v'.starts == m.starts - {c} && d == p
      else v'.free == [c] + m.free && v'.starts == m.starts && d == c
    requires Framed(m.cells, v'.cells, m.starts, m.free, d)
    ensures Freed(v, v', c)
  {
    var n := Nx(v.cells, c);
    assert BlockLink(v.cells, v.starts, c);
    WithoutElements(v.free, n);
    assert Live(v') == Live(v) - {c};
    assert Framed(v.cells, v'.cells, v.starts, v.free, c);
    FramedKeeps(v, v', c);
  }

  lemma MergeCoalesced(h: seq<Cell>, h': seq<Cell>, s: set<nat>, f: seq<nat>, c: nat)
    requires Linked(h, s, f) && Coalesced(h, s) && c in s && 0 < c < Nx(h, c) < |h| - 1
    requires Merged(h, h', c) && Nx(h, Nx(h, c)) !in f && Nx(h, c) !in f
    ensures Coalesced(h', s - {Nx(h, c)})
  {
    assert BlockLink(h, s, c) && BlockLink(h, s, Nx(h, c));
    forall b | b in s - {Nx(h, c)} && b < |h| - 1 && Masked(h'[b].next)
      ensures Nx(h', b) < |h'| && !Masked(h'[Nx(h', b)].next)
    {
      assert BlockLink(h, s, b);
    }
  }

  class Umm {
    const heap: array<Cell>
    ghost var starts: set<nat>
    ghost var free: seq<nat>

    ghost predicate IsLinked()
      reads this, heap
    { Linked(heap[..], starts, free) }

    ghost function State(): View
      reads this, heap
    { View(heap[..], starts, free) }

    ghost predicate Valid()
      reads this, heap
    { WellFormed(State()) }

    constructor (n: nat)
      requires 3 <= n <= 0x7FFF
      ensures Valid() && fresh(heap) && heap.Length == n
      ensures starts == {0, 1, n - 1} && free == [1] && Live(State()) == {}
    {
      heap := new Cell[n](_ => Cell(0, 0, 0, 0));
      new;
      heap[0] := heap[0].(next := 1);
      heap[0] := heap[0].(nfree := 1);
      heap[1] := heap[1].(next := n - 1 + 0x8000);
      heap[1] := heap[1].(nfree := 0);
      heap[1] := heap[1].(prev := 0);
      heap[1] := heap[1].(pfree := 0);
      heap[n - 1] := heap[n - 1].(next := 0);
      heap[n - 1] := heap[n - 1].(prev := 1);
      starts := {0, 1, n - 1};
      free := [1];
      InitialWellFormed(State(), n);
    }

    method DisconnectFromFreeList(c: nat, ghost j: nat)
      requires Linked(heap[..], starts, free) && j < |free| && free[j] == c
      modifies heap, this`free
      ensures free == Remove(old(free), j)
      ensures Disconnected(old(heap[..]), heap[..], old(free), j)
      ensures Framed(old(heap[..]), heap[..], starts, old(free), 0)
      ensures Linked(heap[..], starts, free)
    {
      ghost var h := heap[..];
      FreeElement(h, starts, free, j);
      hide Linked, Framed, Disconnected, At;
      heap[heap[c].pfree] := heap[heap[c].pfree].(nfree := heap[c].nfree);
      heap[heap[c].nfree] := heap[heap[c].nfree].(pfree := heap[c].pfree);
      heap[c] := heap[c].(next := BlockNo(heap[c].next));
      assert heap[..] == Unlinked(h, c);
      UnlinkedDisconnected(h, starts, free, j);
      DisconnectKeeps(h, heap[..], starts, free, j);
      DisconnectFrames(h, heap[..], starts, free, j);
      free := Remove(free, j);
    }

    method MakeNewBlock(c: nat, blocks: nat, curMask: word, newMask: word)
      requires c < heap.Length && 0 < blocks && c + blocks < Nx(heap[..], c) < heap.Length <= 0x7FFF
      requires curMask in {0, 0x8000} && newMask in {0, 0x8000}
      modifies heap
      ensures Cut(old(heap[..]), heap[..], c, blocks)
      ensures Masked(heap[c].next) <==> curMask != 0
      ensures Masked(heap[c + blocks].next) <==> newMask != 0
    {
      heap[c + blocks] := heap[c + blocks].(next := BlockNo(heap[c].next) + newMask);
      heap[c + blocks] := heap[c + blocks].(prev := c);
      heap[BlockNo(heap[c].next)] := heap[BlockNo(heap[c].next)].(prev := c + blocks);
      heap[c] := heap[c].(next := c + blocks + curMask);
    }

    method MergeUp(c: nat, ghost h1: seq<Cell>)
      requires h1 == heap[..] && Tiled(h1, starts) && c in starts && 0 < c < Nx(h1, c) < |h1| - 1
      requires !Masked(h1[c].next)
      requires Nx(h1, c) in starts && !Masked(h1[Nx(h1, c)].next)
      modifies heap
      ensures Merged(h1, heap[..], c)
      ensures forall i :: 0 <= i < |h1| && i != c && i != Nx(heap[..], c) ==> heap[i] == h1[i]
      ensures h1[c].nfree == heap[c].nfree && h1[c].pfree == heap[c].pfree
    {
      assert BlockLink(h1, starts, Nx(h1, c));
      heap[BlockNo(heap[heap[c].next].next)] := heap[BlockNo(heap[heap[c].next].next)].(prev := c);
      heap[c] := heap[c].(next := BlockNo(heap[heap[c].next].next));
    }

    method AssimilateUp(c: nat)
      requires Valid() && c in Live(State())
      modifies heap, this
      ensures Absorbed(old(State()), State(), c) && Valid() && Nx(heap[..], c) !in free
    {
      ghost var v := State();
      assert BlockLink(v.cells, starts, c);
      if Masked(heap[heap[c].next].next) {
        ghost var j :| 0 <= j < |free| && free[j] == heap[c].next;
        DisconnectFromFreeList(heap[c].next, j);
        ghost var m := heap[..];
        assert BlockLink(m, starts, v.free[j]);
        assert v.free[j] !in free;
        MergeUp(c, m);
        starts := starts - {v.free[j]};
        AbsorbLinked(v, m, State(), j, c);
        AbsorbEffect(v, m, State(), j, c);
      }
    }

    method AssimilateDown(c: nat, freeMask: word) returns (p: nat)
      requires IsLinked() && c in starts && 0 < c < heap.Length - 1 && c !in free
      requires heap[c].prev > 0 && freeMask == if heap[c].prev in free then 0x8000 else 0
      modifies heap, this`starts
      ensures IsLinked() && starts == old(starts) - {c}
      ensures p == old(heap[c].prev) && 0 < p < c && Nx(heap[..], p) == Nx(old(heap[..]), c)
      ensures Framed(old(heap[..]), heap[..], old(starts), free, p)
      ensures Nx(old(heap[..]), p) == c && Merged(old(heap[..]), heap[..], p)
    {
      ghost var h0 := heap[..];
      assert BlockLink(h0, starts, c);
      assert BlockLink(h0, starts, h0[c].prev);
      assert !Masked(heap[c].next);
      heap[heap[c].prev] := heap[heap[c].prev].(next := heap[c].next + freeMask);
      heap[BlockNo(heap[c].next)] := heap[BlockNo(heap[c].next)].(prev := heap[c].prev);
      p := heap[c].prev;
      MergeKeeps(h0, heap[..], starts, free, p);
      starts := starts - {c};
    }

    method AddToFreeList(c: nat)
      requires IsLinked() && c in starts && 0 < c < heap.Length - 1 && c !in free
      modifies heap, this`free
      ensures IsLinked() && free == [c] + old(free)
      ensures Pushed(old(heap[..]), heap[..], old(free), c)
      ensures Framed(old(heap[..]), heap[..], starts, old(free), c)
    {
      ghost var h0 := heap[..];
      heap[heap[0].nfree] := heap[heap[0].nfree].(pfree := c);
      heap[c] := heap[c].(nfree := heap[0].nfree);
      heap[c] := heap[c].(pfree := 0);
      heap[0] := heap[0].(nfree := c);
      heap[c] := heap[c].(next := WithMask(heap[c].next));
      PushKeeps(h0, heap[..], starts, free, c);
      free := [c] + free;
    }

    method Free(ptr: nat)
      requires Valid() && (ptr == 0 || ptr in Live(State()))
      modifies heap, this
      ensures Valid()
      ensures if ptr == 0 then State() == old(State()) else Freed(old(State()), State(), ptr)
    {
      if ptr == 0 { return; }
      hide BlockLink, FreeLink, Tiled, Chain, Marks, Distinct, Coalesced, Freed;
      var c := ptr;
      ghost var v := State();
      FreeStart(v, c);
      AssimilateUp(c);
      ghost var m := State();
      AbsorbedBlock(v, m, c);
      if Masked(heap[heap[c].prev].next) {
        c := AssimilateDown(c, 0x8000);
        MergeCoalesced(m.cells, heap[..], m.starts, free, c);
      } else {
        AddToFreeList(c);
        PushCoalesced(m.cells, heap[..], starts, m.free, c);
      }
      FreeDone(v, m, State(), ptr, c);
    }

    method MoveFreeNode(c: nat, d: nat, ghost j: nat)
      requires Chain(heap[..], free) && j < |free| && c == free[j] && 0 < d < heap.Length <= 0x7FFF && d !in free
      modifies heap
      ensures Moved(old(heap[..]), heap[..], free, j, d)
    {
      assert FreeLink(heap[..], free, j);
      heap[heap[c].pfree] := heap[heap[c].pfree].(nfree := d);
      heap[d] := heap[d].(pfree := heap[c].pfree);
      heap[heap[c].nfree] := heap[heap[c].nfree].(pfree := d);
      heap[d] := heap[d].(nfree := heap[c].nfree);
    }

    method Split(c: nat, blocks: nat, ghost j: nat)
      requires Valid() && Fits(State(), blocks, j) && c == free[j] && 0 < blocks < Size(State(), c)
      modifies heap, this
      ensures Valid() && Taken(old(State()), State(), j, blocks)
    {
      ghost var v := State();
      assert BlockLink(v.cells, starts, c);
      MakeNewBlock(c, blocks, 0, 0x8000);
      ghost var m := heap[..];
      assert Chain(m, free) by {
        forall i | 0 <= i < |free| ensures FreeLink(m, free, i) { assert FreeLink(v.cells, free, i); }
      }
      MoveFreeNode(c, c + blocks, j);
      starts := starts + {c + blocks};
      free := free[j := c + blocks];
      TakenSplit(v, m, State(), j, blocks);
    }

    // The search of the free list: cf is 0 when no block is large enough.
    method FindBestFit(blocks: word) returns (cf: nat, blockSize: nat, ghost best: nat)
      requires Valid() && blocks > 0
      ensures cf < heap.Length && (cf == 0 ==> blockSize < blocks)
      ensures cf == 0 <==> forall i: nat :: !Fits(State(), blocks, i)
      ensures cf != 0 ==> BestFit(State(), blocks, best) && cf == free[best] && blockSize == Size(State(), cf)
    {
      hide WellFormed, Searched, Fits, BestFit;
      SearchStart(State(), blocks);
      blockSize := 0;
      cf := heap[0].nfree;
      var bestBlock := heap[0].nfree;
      var bestSize := 0x7FFF;
      ghost var i := 0;
      best := 0;
      while cf != 0
        invariant i <= |free| && cf == At(free, i)
        invariant blockSize == if i == 0 then 0 else if free[i - 1] < heap.Length then Size(State(), free[i - 1]) else 0
        invariant bestSize <= 0x7FFF && Searched(State(), blocks, i, best, bestSize)
          && (bestSize != 0x7FFF ==> best < |free| && bestBlock == free[best])
        decreases |free| - i
      {
        SearchElement(State(), i);
        blockSize := BlockNo(heap[cf].next) - cf;
        SearchStep(State(), blocks, i, best, bestSize, blockSize);
        if blockSize >= blocks && blockSize < bestSize {
          bestBlock := cf;
          bestSize := blockSize;
          best := i;
        }
        cf := heap[cf].nfree;
        i := i + 1;
      }
      SearchEnd(State(), blocks, i, best, bestSize);
      if bestSize != 0x7FFF {
        cf := bestBlock;
        blockSize := bestSize;
      }
    }

    method Malloc(size: nat) returns (ptr: nat)
      requires Valid() && (size == 0 || UmmBlocks(size) != 0)
      modifies heap, this
      ensures Valid()
      ensures if size == 0 then ptr == 0 && State() == old(State())
              else Malloced(old(State()), State(), UmmBlocks(size), ptr)
    {
      if size == 0 { return 0; }
      var blocks := UmmBlocks(size);
      var cf, blockSize, best := FindBestFit(blocks);
      if BlockNo(heap[cf].next) != 0 && blockSize >= blocks {
        if blockSize == blocks {
          ghost var v := State();
          DisconnectFromFreeList(cf, best);
          TakenExact(v, State(), best, blocks);
        } else {
          Split(cf, blocks, best);
        }
        ptr := cf;
      } else {
        ptr := 0;
      }
    }

    // memmove or memcpy of a payload of the given number of cells.
    method CopyPayload(dst: nat, src: nat, cells: nat)
      requires 0 < cells && dst + cells <= heap.Length && src + cells <= heap.Length
      modifies heap
      ensures PrefixKept(old(heap[..]), heap[..], src, dst, cells)
      ensures forall i :: 0 <= i < heap.Length && !(dst <= i < dst + cells) ==> heap[i] == old(heap[i])
      ensures heap[dst].next == old(heap[dst].next) && heap[dst].prev == old(heap[dst].prev)
    {
      var n, p := heap[src].nfree, heap[src].pfree;
      forall t | 1 <= t < cells {
        heap[dst + t] := heap[src + t];
      }
      heap[dst] := heap[dst].(nfree := n, pfree := p);
    }

    // The same into a live block that is large enough.
    method FillBlock(dst: nat, src: nat, cells: nat)
      requires Valid() && dst in Live(State()) && 0 < cells <= Size(State(), dst) && src + cells <= heap.Length
      modifies heap
      ensures Valid() && Live(State()) == old(Live(State())) && OthersKept(old(State()), State(), dst)
      ensures PrefixKept(old(heap[..]), heap[..], src, dst, cells)
      ensures Nx(old(heap[..]), dst) <= heap.Length && Written(old(State()), State(), dst)
    {
      ghost var v := State();
      assert BlockLink(v.cells, starts, dst);
      CopyPayload(dst, src, cells);
      WriteKeeps(v, State(), dst);
    }

    method JoinDown(c: nat) returns (p: nat)
      requires Valid() && c in Live(State()) && heap[c].prev in free && Nx(heap[..], c) !in free
      modifies heap, this
      ensures p == old(heap[c].prev) < c && JoinedDown(old(State()), State(), c, p)
    {
      ghost var v := State();
      ghost var j :| 0 <= j < |free| && free[j] == heap[c].prev;
      assert BlockLink(v.cells, starts, c) && BlockLink(v.cells, starts, heap[c].prev);
      DisconnectFromFreeList(heap[c].prev, j);
      ghost var m := State();
      assert v.free[j] !in m.free;
      p := AssimilateDown(c, 0);
      JoinedWellFormed(v, m, State(), j, c);
      JoinedFrame(v, m, State(), j, c);
    }

    method MoveDown(c: nat, size: nat) returns (p: nat)
      requires Valid() && c in Live(State()) && 0 < size <= Size(State(), c) && Nx(heap[..], c) < heap.Length
      requires heap[c].prev in free && Nx(heap[..], c) !in free
      modifies heap, this
      ensures p == old(heap[c].prev)
      ensures Resized(old(State()), State(), c, p, size, Nx(old(heap[..]), c) - p)
    {
      ghost var v := State();
      p := JoinDown(c);
      ghost var m := State();
      FillBlock(p, c, size);
      PayloadMoved(v, m, State(), c, p, size);
    }

    method Shrink(c: nat, blocks: nat)
      requires Valid() && c in Live(State()) && 0 < blocks < Size(State(), c)
      modifies heap, this
      ensures Resized(old(State()), State(), c, c, blocks, blocks)
    {
      ghost var v := State();
      assert BlockLink(v.cells, starts, c);
      MakeNewBlock(c, blocks, 0, 0);
      starts := starts + {c + blocks};
      ghost var m := State();
      CutLive(v, m, c, blocks);
      Free(c + blocks);
      ShrinkDone(v, m, State(), c, blocks);
    }

    method Relocate(c: nat, size: nat, cells: nat) returns (ptr: nat)
      requires Valid() && c in Live(State()) && 0 < size && 0 < cells <= Size(State(), c) < UmmBlocks(size)
      modifies heap, this
      ensures Relocated(old(State()), State(), c, ptr, cells, UmmBlocks(size))
    {
      ghost var v := State();
      assert BlockLink(v.cells, starts, c);
      ptr := Malloc(size);
      ghost var m := State();
      if ptr != 0 {
        MallocedFacts(v, m, UmmBlocks(size), ptr);
        FillBlock(ptr, c, cells);
      }
      ghost var w := State();
      Free(c);
      if ptr != 0 {
        RelocateDone(v, m, w, State(), c, ptr, cells, UmmBlocks(size));
      }
    }

    method Realloc(ptr: nat, size: nat) returns (r: nat)
      requires Valid() && (ptr == 0 || ptr in Live(State())) && (size == 0 || UmmBlocks(size) != 0)
      modifies heap, this
      ensures Valid()
      ensures ptr == 0 ==> if size == 0 then r == 0 && State() == old(State())
                           else Malloced(old(State()), State(), UmmBlocks(size), r)
      ensures ptr != 0 && size == 0 ==> r == 0 && Freed(old(State()), State(), ptr)
      ensures ptr != 0 ==> ptr < Nx(old(heap[..]), ptr) < heap.Length
      ensures ptr != 0 && size != 0 ==> Reallocated(old(State()), State(), ptr, UmmBlocks(size), r)
    {
      if ptr == 0 {
        r := Malloc(size);
        return;
      }
      assert BlockLink(heap[..], starts, ptr);
      if size == 0 {
        Free(ptr);
        return 0;
      }
      if heap[ptr].next - ptr == UmmBlocks(size) { return ptr; }
      r := Resize(ptr, size);
    }

    // Joins the live block c to its free neighbours, downwards only if that makes room for the request.
    method Assimilate(ptr: nat, blocks: nat) returns (c: nat)
      requires Valid() && ptr in Live(State()) && ptr < Nx(heap[..], ptr) < heap.Length
      modifies heap, this
      ensures Assimilated(old(State()), State(), ptr, blocks, c)
    {
      hide BlockLink, FreeLink, Tiled, Chain, Marks, Coalesced, OthersKept, PrefixKept, Framed;
      ghost var v := State();
      FreeStart(v, ptr);
      c := ptr;
      var curSize := heap[c].next - c;
      AssimilateUp(c);
      ghost var m := State();
      GrownUp(v, m, c);
      AbsorbedBlock(v, m, c);
      WithoutElements(v.free, Nx(v.cells, c));
      if Masked(heap[heap[c].prev].next) && blocks <= heap[c].next - heap[c].prev {
        c := MoveDown(c, curSize);
        ResizedTwice(v, m, State(), ptr, ptr, c, curSize, curSize, RoomUp(v, ptr), RoomDown(v, ptr));
      }
    }

    method Resize(ptr: nat, size: nat) returns (r: nat)
      requires Valid() && ptr in Live(State()) && 0 < size && UmmBlocks(size) != 0
      requires ptr < Nx(heap[..], ptr) < heap.Length && Size(State(), ptr) != UmmBlocks(size)
      modifies heap, this
      ensures Reallocated(old(State()), State(), ptr, UmmBlocks(size), r)
    {
      hide Reallocated;
      ghost var v := State();
      var blocks := UmmBlocks(size);
      var curSize := heap[ptr].next - ptr;
      r := Assimilate(ptr, blocks);
      ghost var w := State();
      var blockSize := heap[r].next - r;
      if blockSize < blocks {
        r := Elsewhere(ptr, size, curSize, v);
      } else if blocks < blockSize {
        Smaller(r, blocks, ptr, v);
      } else {
        ReallocatedHere(v, w, w, ptr, blocks, r);
      }
    }

    // The block is still too small after all that could be joined to it.
    method Elsewhere(ptr: nat, size: nat, curSize: nat, ghost v: View) returns (r: nat)
      requires Valid() && ptr < |v.cells| && ptr < Nx(v.cells, ptr) < |v.cells| && UmmBlocks(size) != Size(v, ptr)
      requires WellFormed(v) && ptr in Live(v) && 0 < size && UmmBlocks(size) != 0 && curSize == Size(v, ptr)
      requires Assimilated(v, State(), ptr, UmmBlocks(size), ptr) && Size(State(), ptr) < UmmBlocks(size)
      modifies heap, this
      ensures Reallocated(v, State(), ptr, UmmBlocks(size), r)
    {
      hide Reallocated;
      ghost var w := State();
      r := Relocate(ptr, size, curSize);
      ReallocatedElsewhere(v, w, State(), ptr, UmmBlocks(size), r);
    }

    // The block is too large.
    method Smaller(r: nat, blocks: nat, ghost ptr: nat, ghost v: View)
      requires Valid() && ptr < |v.cells| && ptr < Nx(v.cells, ptr) < |v.cells| && blocks != Size(v, ptr)
      requires WellFormed(v) && ptr in Live(v) && 0 < blocks
      requires Assimilated(v, State(), ptr, blocks, r) && blocks < Size(State(), r)
      modifies heap, this
      ensures Reallocated(v, State(), ptr, blocks, r)
    {
      hide Reallocated;
      ghost var w := State();
      Shrink(r, blocks);
      ReallocatedHere(v, w, State(), ptr, blocks, r);
    }
  }
}
