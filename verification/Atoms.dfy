/** The table of interned strings (Atom.cpp): every string follows its negated length, and a zero ends the table. */
module Atoms {

  // A C string without its terminator, as signed bytes.
  type Text = seq<int>

  const MAX_ATOM_SIZE: nat := 127
  const NO_ATOM: nat := 65535

  ghost predicate Bytes(s: Text) { forall i :: 0 <= i < |s| ==> -128 <= s[i] < 128 && s[i] != 0 }

  // Characters of 7 bits. Bytes above 127 are negative in the table, like lengths.
  ghost predicate Chars(s: Text) { forall i :: 0 <= i < |s| ==> 0 < s[i] < 128 }

  ghost predicate Plain(es: seq<Text>) { forall k :: 0 <= k < |es| ==> Chars(es[k]) }

  predicate Internable(s: Text) { 0 < |s| <= MAX_ATOM_SIZE }

  ghost predicate Entries(es: seq<Text>) {
    && (forall k :: 0 <= k < |es| ==> Internable(es[k]) && Bytes(es[k]))
    && (forall j, k :: 0 <= j < k < |es| ==> es[j] != es[k])
  }

  function Laid(es: seq<Text>): seq<int> {
    if es == [] then [] else Laid(es[..|es| - 1]) + [0 - |es[|es| - 1]|] + es[|es| - 1]
  }

  // Where the entry k starts, with its length.
  function Offset(es: seq<Text>, k: nat): nat
    requires k <= |es|
  { |Laid(es[..k])| }

  lemma {:induction false} Entry(es: seq<Text>, k: nat)
    requires k < |es|
    ensures Laid(es[..k + 1]) == Laid(es[..k]) + [0 - |es[k]|] + es[k] && Laid(es[..k + 1]) <= Laid(es)
    ensures Offset(es, k + 1) == Offset(es, k) + 1 + |es[k]| <= |Laid(es)|
    ensures Laid(es)[Offset(es, k)] == 0 - |es[k]| && Laid(es)[Offset(es, k) + 1..Offset(es, k + 1)] == es[k]
    decreases |es|
  {
    assert es[..k + 1][..k] == es[..k];
    if k + 1 == |es| {
      assert es[..k + 1] == es;
    } else {
      var init := es[..|es| - 1];
      assert init[..k + 1] == es[..k + 1] && init[..k] == es[..k];
      Entry(init, k);
    }
  }

  // Every entry takes one more byte than it has characters.
  lemma OffsetIs(es: seq<Text>, k: nat)
    requires k < |es|
    ensures Offset(es, 0) == 0 && Offset(es, k + 1) == Offset(es, k) + 1 + |es[k]| <= |Laid(es)|
    ensures Laid(es)[Offset(es, k)] == -|es[k]|
  { Entry(es, k); }

  lemma {:induction false} LengthsMarkEntries(es: seq<Text>, q: nat) returns (k: nat)
    requires Entries(es) && Plain(es) && q < |Laid(es)| && Laid(es)[q] < 0
    ensures k < |es| && q == Offset(es, k)
    decreases |es|
  {
    var init := es[..|es| - 1];
    k := |es| - 1;
    if q < |Laid(init)| {
      k := LengthsMarkEntries(init, q);
      assert init[..k] == es[..k];
    }
  }

  function Strstr(t: seq<int>, p: nat, s: Text): (r: int)
    requires p <= |t|
    ensures r == -1 || p <= r <= |t| - |s|
    decreases |t| - p
  {
    if p + |s| > |t| then -1
    else if t[p..p + |s|] == s then p
    else if p == |t| || t[p] == 0 then -1
    else Strstr(t, p + 1, s)
  }

  // The test for a match that is a whole entry.
  predicate Whole(t: seq<int>, p: nat, s: Text)
    requires 0 < p && p + |s| < |t|
  { t[p - 1] < 0 && t[p + |s|] <= 0 }

  // No substring passes for an entry.
  lemma {:induction false} WholeIsEntry(es: seq<Text>, p: nat, s: Text) returns (k: nat)
    requires Entries(es) && Plain(es) && Chars(s) && s != [] && 0 < p && p + |s| <= |Laid(es)|
    requires (Laid(es) + [0])[p..p + |s|] == s && Whole(Laid(es) + [0], p, s)
    ensures k < |es| && es[k] == s && p == Offset(es, k) + 1
  {
    var t := Laid(es) + [0];
    k := LengthsMarkEntries(es, p - 1);
    Entry(es, k);
    var e := es[k];
    Ends(es, k);
    assert t[p..p + |e|] == e;
  }

  lemma {:induction false} Ends(es: seq<Text>, k: nat)
    requires Entries(es) && k < |es|
    ensures Offset(es, k + 1) <= |Laid(es)| && (Laid(es) + [0])[Offset(es, k + 1)] <= 0
  {
    if k + 1 < |es| { Entry(es, k + 1); } else { assert es[..k + 1] == es; }
  }

  lemma {:induction false} NoZeroInside(es: seq<Text>, q: nat)
    requires Entries(es) && q < |Laid(es)|
    ensures Laid(es)[q] != 0
    decreases |es|
  {
    var init := es[..|es| - 1];
    if q < |Laid(init)| { NoZeroInside(init, q); }
  }

  // strstr does not go past a match.
  lemma {:induction false} StrstrFinds(t: seq<int>, p: nat, s: Text, i: nat)
    requires p <= i && i + |s| <= |t| && t[i..i + |s|] == s
    requires forall q :: p <= q < i ==> t[q] != 0
    ensures p <= Strstr(t, p, s) <= i
    decreases i - p
  {
    if p < i { StrstrFinds(t, p + 1, s, i); }
  }

  lemma {:induction false} StrstrMatches(t: seq<int>, p: nat, s: Text)
    requires p <= |t|
    ensures var r := Strstr(t, p, s); r >= 0 ==> r + |s| <= |t| && t[r..r + |s|] == s
    decreases |t| - p
  {
    if p + |s| <= |t| && t[p..p + |s|] != s && p < |t| { StrstrMatches(t, p + 1, s); }
  }

  // The search for s takes place p of the table.
  ghost predicate Passes(es: seq<Text>, s: Text, p: int)
  {
    && 0 <= p && p + 1 + |s| <= |Laid(es)|
    && (Laid(es) + [0])[p + 1..p + 1 + |s|] == s && Whole(Laid(es) + [0], p + 1, s)
  }

  ghost predicate First(es: seq<Text>, s: Text, p: int)
  { Passes(es, s, p) && forall q {:trigger Passes(es, s, q)} :: q < p ==> !Passes(es, s, q) }

  ghost predicate NoneBefore(es: seq<Text>, s: Text, p: int)
  { forall q {:trigger Passes(es, s, q)} :: q < p ==> !Passes(es, s, q) }

  // Place p holds the length of some entry.
  ghost predicate IsLength(es: seq<Text>, p: int) { exists k: nat :: k < |es| && p == Offset(es, k) }

  ghost predicate IsAt(es: seq<Text>, s: Text, p: int) { exists k: nat :: k < |es| && es[k] == s && p == Offset(es, k) }

  lemma FirstHere(es: seq<Text>, s: Text, p: int)
    requires NoneBefore(es, s, p) && Passes(es, s, p)
    ensures First(es, s, p)
    ensures Entries(es) && Plain(es) && Chars(s) && s != [] ==> IsAt(es, s, p)
  {
    if Entries(es) && Plain(es) && Chars(s) && s != [] { PlainPasses(es, s, p); }
  }

  lemma NotHere(es: seq<Text>, s: Text, p: int)
    requires NoneBefore(es, s, p) && !Passes(es, s, p)
    ensures NoneBefore(es, s, p + 1)
  {}

  // At the end of the table, or behind the last match.
  lemma AtEnd(es: seq<Text>, s: Text, p: int)
    requires Entries(es) && -1 <= p <= |Laid(es)| && (p == -1 || p == |Laid(es)| || (Laid(es) + [0])[p] == 0)
    requires NoneBefore(es, s, if p == -1 then |Laid(es)| + 1 else p)
    ensures s !in es && forall q {:trigger Passes(es, s, q)} :: !Passes(es, s, q)
  {
    hide Laid;
    if 0 <= p < |Laid(es)| { NoZeroInside(es, p); }
    NotYet(es, s);
    PassesInside(es, s);
  }

  // Every entry passes.
  lemma {:induction false} EntryPasses(es: seq<Text>, s: Text, p: int)
    requires Entries(es) && IsAt(es, s, p)
    ensures Passes(es, s, p)
  {
    hide Laid;
    var k: nat :| k < |es| && es[k] == s && p == Offset(es, k);
    Entry(es, k);
    Ends(es, k);
  }

  // What passes is an entry for s exactly if the byte before it is a length, the one of s.
  lemma {:induction false} PassesIff(es: seq<Text>, s: Text, p: int)
    requires Entries(es) && Passes(es, s, p)
    ensures IsAt(es, s, p) <==> IsLength(es, p) && Laid(es)[p] == 0 - |s|
  {
    hide Laid;
    if IsAt(es, s, p) {
      var k: nat :| k < |es| && es[k] == s && p == Offset(es, k);
      Entry(es, k);
    } else if IsLength(es, p) {
      var k: nat :| k < |es| && p == Offset(es, k);
      Entry(es, k);
      assert (Laid(es) + [0])[p + 1..Offset(es, k + 1)] == es[k];
    }
  }

  // With characters of 7 bits nothing else passes.
  lemma {:induction false} PlainPasses(es: seq<Text>, s: Text, p: int)
    requires Entries(es) && Plain(es) && Chars(s) && s != [] && Passes(es, s, p)
    ensures IsAt(es, s, p)
  {
    hide Laid;
    var k := WholeIsEntry(es, p + 1, s);
  }

  // With others the end of an entry passes, and the beginning of one, and what reaches over several entries.
  lemma HighBytesMistaken()
    ensures Entries([[97, -2, 98]]) && Passes([[97, -2, 98]], [98], 2) && !IsAt([[97, -2, 98]], [98], 2)
    ensures Entries([[97, -2]]) && Passes([[97, -2]], [97], 0) && !IsAt([[97, -2]], [97], 0)
    ensures Entries([[97], [98]]) && Passes([[97], [98]], [97, -1, 98], 0) && !IsAt([[97], [98]], [97, -1, 98], 0)
  {
    OneLaid([97, -2, 98]);
    OneLaid([97, -2]);
    OneLaid([97]);
    var es: seq<Text> := [[97], [98]];
    assert es[..1] == [[97]] && Laid(es) == [-1, 97] + [-1] + [98];
    hide Laid;
    assert Offset([[97, -2, 98]], 0) == 0 && Offset([[97, -2]], 0) == 0 && Offset(es, 0) == 0;
    assert Offset(es, 1) == 2;
  }

  lemma OneLaid(e: Text)
    ensures Laid([e]) == [0 - |e|] + e && Laid([e][..0]) == []
  {
    var none: seq<Text> := [];
    assert [e][..0] == none && Laid(none) == [] && Laid([e]) == [] + [0 - |e|] + e;
  }

  // strstr goes past nothing.
  lemma {:induction false} StrstrFirst(es: seq<Text>, s: Text, p: nat)
    requires Entries(es) && Bytes(s) && s != [] && 0 < p <= |Laid(es)| && NoneBefore(es, s, p - 1)
    ensures var t := Laid(es) + [0];
      var r := Strstr(t, p, s);
      && (r == -1 ==> NoneBefore(es, s, |t|))
      && (r != -1 ==>
        NoneBefore(es, s, r - 1) && p <= r && r + |s| < |t| && (Passes(es, s, r - 1) <==> Whole(t, r, s)))
  {
    hide Laid, Strstr, Whole;
    var t := Laid(es) + [0];
    var r := Strstr(t, p, s);
    forall q | p - 1 <= q && Passes(es, s, q) ensures r >= 0 && r <= q + 1 {
      forall i | p <= i < q + 1 ensures t[i] != 0 { NoZeroInside(es, i); }
      StrstrFinds(t, p, s, q + 1);
    }
    StrstrMatches(t, p, s);
    if r != -1 { assert t[r..r + |s|][|s| - 1] == s[|s| - 1]; }
  }

  lemma PassesInside(es: seq<Text>, s: Text)
    ensures NoneBefore(es, s, |Laid(es)|) ==> forall p {:trigger Passes(es, s, p)} :: !Passes(es, s, p)
    ensures NoneBefore(es, s, 0)
  {}

  lemma {:induction false} More(es: seq<Text>, s: Text)
    requires Entries(es) && Internable(s) && Bytes(s) && s !in es
    ensures Entries(es + [s]) && Laid(es + [s]) == Laid(es) + [0 - |s|] + s && IsAt(es + [s], s, |Laid(es)|)
    ensures es == [] ==> Laid(es) == []
  {
    assert (es + [s])[..|es|] == es && (es + [s])[..|es| + 1] == es + [s];
    Entry(es + [s], |es|);
  }

  lemma {:induction false} NotYet(es: seq<Text>, s: Text)
    requires Entries(es) && NoneBefore(es, s, |Laid(es)|)
    ensures s !in es
  {
    hide Laid, Entries;
    forall k: nat | k < |es| ensures es[k] != s {
      if es[k] == s {
        EntryPasses(es, s, Offset(es, k));
        Entry(es, k);
      }
    }
  }

  // A string with high bytes may get one place when it is interned and another one when it is looked up.
  lemma PlaceChanges()
    ensures Entries([[98]]) && NoneBefore([[98]], [98, -3, 98], 2)
    ensures Entries([[98], [98, -3, 98]]) && IsAt([[98], [98, -3, 98]], [98, -3, 98], 2)
      && First([[98], [98, -3, 98]], [98, -3, 98], 0)
  {
    OneLaid([98]);
    var es: seq<Text> := [[98], [98, -3, 98]];
    assert es[..1] == [[98]] && Laid(es) == [-1, 98] + [-3] + [98, -3, 98];
    hide Laid;
    assert Offset(es, 1) == 2;
  }

  lemma {:induction false} Increasing(es: seq<Text>, j: nat, k: nat)
    requires j < k <= |es|
    ensures Offset(es, j) < Offset(es, k)
  {
    Entry(es, k - 1);
    if j < k - 1 { Increasing(es, j, k - 1); }
  }

  // Strings and atoms determine each other.
  lemma {:induction false} OneToOne(es: seq<Text>, s: Text, p: int, s': Text, p': int)
    requires Entries(es) && IsAt(es, s, p) && IsAt(es, s', p')
    ensures p == p' <==> s == s'
  {
    hide Laid, Offset;
    var k: nat :| k < |es| && es[k] == s && p == Offset(es, k);
    var k': nat :| k' < |es| && es[k'] == s' && p' == Offset(es, k');
    if k < k' { Increasing(es, k, k'); }
    if k' < k { Increasing(es, k', k); }
  }

  lemma {:induction false} StaysAt(es: seq<Text>, es': seq<Text>, s: Text, p: int)
    requires es <= es' && IsAt(es, s, p)
    ensures IsAt(es', s, p) && es != [] && 0 <= p < |Laid(es)| <= |Laid(es')|
  {
    hide Laid;
    var k: nat :| k < |es| && es[k] == s && p == Offset(es, k);
    assert es'[..k] == es[..k] && es'[..|es|] == es;
    Entry(es, k);
    if |es| < |es'| { Entry(es', |es|); } else { assert es == es'; }
  }

  class AtomTable {
    var table: seq<int>
    ghost var entries: seq<Text>

    ghost predicate Valid()
      reads this
    { Entries(entries) && table == if entries == [] then [] else Laid(entries) + [0] }

    constructor ()
      ensures Valid() && entries == []
    { table, entries := [], []; }

    // The next match, and whether it passes.
    method NextMatch(s: Text, from: nat) returns (p: int, found: bool)
      requires Valid() && s != [] && Bytes(s) && 0 < from < |table| && NoneBefore(entries, s, from - 1)
      ensures p == -1 || from <= p < |table| - |s|
      ensures found ==> p != -1 && First(entries, s, p - 1)
      ensures found && Plain(entries) && Chars(s) ==> IsAt(entries, s, p - 1)
      ensures !found ==> NoneBefore(entries, s, if p == -1 then |table| else p)
    {
      hide NoneBefore, Passes, IsAt, Entries, Laid, Strstr, First, Plain, Chars, Bytes;
      StrstrFirst(entries, s, from);
      p, found := Strstr(table, from, s), false;
      if p != -1 && table[p - 1] < 0 {
        if table[p + |s|] <= 0 {
          FirstHere(entries, s, p - 1);
          return p, true;
        }
      }
      if p != -1 { NotHere(entries, s, p - 1); }
    }

    // The first place that passes.
    method FindAtom(s: Text) returns (r: int)
      requires Valid() && s != [] && Bytes(s)
      ensures if r == -1 then forall p {:trigger Passes(entries, s, p)} :: !Passes(entries, s, p)
        else First(entries, s, r)
      ensures r >= -1 && (r == -1 ==> s !in entries)
      ensures Plain(entries) && Chars(s) && r != -1 ==> IsAt(entries, s, r)
    {
      PassesInside(entries, s);
      assert |table| == 0 ==> |Laid(entries)| == 0;
      hide NoneBefore, Passes, IsAt, Entries, Laid, First, Plain, Chars, Bytes, Whole;
      if |table| == 0 {
        NotYet(entries, s);
        return -1;
      }
      var p: int := 0;
      if |table| > 1 {
        while p != -1 && table[p] != 0
          invariant -1 <= p < |table|
          invariant NoneBefore(entries, s, if p == -1 then |table| else p)
          decreases if p == -1 then 0 else |table| - p
        {
          var found;
          p, found := NextMatch(s, p + 1);
          if found { return p - 1; }
        }
      }
      AtEnd(entries, s, p);
      return -1;
    }

    // An atom is the place of the entry, in 16 bits.
    method AtomizeString(s: Text) returns (atom: nat)
      requires Valid() && Bytes(s)
      modifies this
      ensures Valid() && old(entries) <= entries && |old(table)| <= |table|
      ensures |s| == 0 || |s| > 127 ==> atom == 65535 && entries == old(entries)
      ensures 1 <= |s| <= 127 ==>
        || (entries == old(entries) && exists p: int :: First(entries, s, p) && atom == p % 65536)
        || (entries == old(entries) + [s] && (forall p: int :: !First(old(entries), s, p))
          && IsAt(entries, s, |Laid(old(entries))|) && atom == |Laid(old(entries))| % 65536)
      ensures 1 <= |s| <= 127 && Chars(s) && Plain(old(entries)) ==>
        Plain(entries) && exists p: int :: IsAt(entries, s, p) && atom == p % 65536
    {
      hide Laid, Strstr, IsAt, Passes;
      if |s| > MAX_ATOM_SIZE || |s| == 0 { return NO_ATOM; }
      var index := FindAtom(s);
      if index >= 0 { return index % 65536; }
      if |table| == 0 { table := table + [0]; }
      atom := (|table| - 1) % 65536;
      table := table[|table| - 1 := 0 - |s|];
      table := table + s + [0];
      More(entries, s);
      entries := entries + [s];
    }

    method StringFromAtom(atom: nat) returns (s: Text)
      requires Valid() && (atom == 65535 || exists k: nat :: k < |entries| && atom == Offset(entries, k))
      ensures if atom == 65535 then s == [] else exists k: nat ::
        k < |entries| && atom == Offset(entries, k) && s == entries[k]
    {
      hide Laid;
      if atom == NO_ATOM { return []; }
      ghost var k: nat :| k < |entries| && atom == Offset(entries, k);
      Entry(entries, k);
      s := table[atom + 1..atom + 1 - table[atom]];
    }

    lemma Fits()
      requires Valid() && |table| <= 65535
      ensures Entries(entries) && |Laid(entries)| < 65535
    {}

    // One more string, behind some that have been interned.
    method AtomizeNext(s: Text, ghost strings: seq<Text>, ghost atoms: seq<nat>) returns (atom: nat)
      requires Valid() && Bytes(s)
      modifies this
      ensures Valid() && old(entries) <= entries && |old(table)| <= |table|
      ensures Plain(old(entries)) && Chars(s) ==> Plain(entries)
      ensures Plain(old(entries)) && Chars(s) && |table| <= 65535 && AllGood(old(entries), strings, atoms) ==>
        AllGood(entries, strings + [s], atoms + [atom])
    {
      ghost var es := entries;
      atom := AtomizeString(s);
      assert |Laid(entries)| == if |table| == 0 then 0 else |table| - 1;
      hide Entries, IsAt, Laid, First, AllGood;
      if Plain(es) && Chars(s) && |table| <= 65535 && AllGood(es, strings, atoms) {
        AllGoodMore(es, entries, strings, atoms, s, atom);
      }
    }

    // Interning any strings: with characters of 7 bits each atom is good for its own string and for no other, and keeps
    // so as the table grows.
    method AtomizeAll(strings: seq<Text>) returns (atoms: seq<nat>)
      requires Valid() && forall i :: 0 <= i < |strings| ==> Bytes(strings[i])
      modifies this
      ensures Valid() && old(entries) <= entries && |atoms| == |strings|
      ensures Plain(old(entries)) && Plain(strings) && |table| <= 65535 ==>
        AllGood(entries, strings, atoms) && Distinguish(strings, atoms)
    {
      hide *;
      atoms := [];
      ghost var plain := Plain(entries) && Plain(strings);
      AllGoodNone(entries, strings);
      for i := 0 to |strings|
        invariant Valid() && old(entries) <= entries && |atoms| == i && (plain ==> Plain(entries))
        invariant plain && |table| <= 65535 ==> AllGood(entries, strings[..i], atoms)
      {
        PlainAt(strings, i);
        var atom := AtomizeNext(strings[i], strings[..i], atoms);
        assert strings[..i] + [strings[i]] == strings[..i + 1];
        atoms := atoms + [atom];
      }
      assert strings[..|strings|] == strings;
      if plain && |table| <= 65535 {
        Fits();
        Separate(entries, strings, atoms);
      }
    }
  }

  // Each atom is the place of the entry for its string, or none where the string is too long or empty.
  ghost predicate AllGood(es: seq<Text>, strings: seq<Text>, atoms: seq<nat>) {
    && |atoms| == |strings|
    && forall i :: 0 <= i < |strings| ==>
       if Internable(strings[i]) then IsAt(es, strings[i], atoms[i]) else atoms[i] == NO_ATOM
  }

  // Two strings have the same atom exactly if they are equal.
  ghost predicate Distinguish(strings: seq<Text>, atoms: seq<nat>)
    requires |strings| == |atoms|
  {
    forall i, j :: 0 <= i < |strings| && 0 <= j < |strings| && Internable(strings[i]) ==>
      (atoms[i] == atoms[j] <==> strings[i] == strings[j])
  }

  lemma PlainAt(strings: seq<Text>, i: nat)
    requires i < |strings|
    ensures Plain(strings) ==> Chars(strings[i])
  {}

  lemma AllGoodNone(es: seq<Text>, strings: seq<Text>)
    ensures AllGood(es, strings[..0], [])
  {}

  lemma {:induction false} AllGoodMore(es: seq<Text>, es': seq<Text>, strings: seq<Text>, atoms: seq<nat>, s: Text,
      atom: nat)
    requires es <= es' && |Laid(es')| < 65535 && AllGood(es, strings, atoms)
    requires if Internable(s) then exists p: int :: IsAt(es', s, p) && atom == p % 65536 else atom == NO_ATOM
    ensures AllGood(es', strings + [s], atoms + [atom])
  {
    hide IsAt, Laid;
    if Internable(s) {
      var p: int :| IsAt(es', s, p) && atom == p % 65536;
      StaysAt(es', es', s, p);
    }
    forall i | 0 <= i < |strings| && Internable(strings[i])
      ensures IsAt(es', strings[i], atoms[i])
    {
      StaysAt(es, es', strings[i], atoms[i]);
    }
  }

  lemma {:induction false} Separate(es: seq<Text>, strings: seq<Text>, atoms: seq<nat>)
    requires Entries(es) && |Laid(es)| < 65535 && AllGood(es, strings, atoms)
    ensures Distinguish(strings, atoms)
  {
    hide Entries, IsAt, Laid;
    forall i, j | 0 <= i < |strings| && 0 <= j < |strings| && Internable(strings[i])
      ensures atoms[i] == atoms[j] <==> strings[i] == strings[j]
    {
      if Internable(strings[j]) {
        OneToOne(es, strings[i], atoms[i], strings[j], atoms[j]);
      } else {
        StaysAt(es, es, strings[i], atoms[i]);
      }
    }
  }
}
