/** The language of a pattern, character by character and operator by operator. */
module RegexLanguage {
  import opened Regex

  lemma AtomAccepts(op: string, w: string, atEnd: bool, ignoreCase: bool)
    requires Atom(op)
    ensures Regular(op) && (Accepts(op, w, atEnd, ignoreCase) <==> |w| == 1 && MatchOp(op, w[0], ignoreCase) > 0)
  {
    assert op[..OpLen(op)] == op && op[OpLen(op)..] == "";
    assert Regular("") && Regular(op);
    hide MatchOp, OpLen, Regular;
    if |w| == 1 && MatchOp(op, w[0], ignoreCase) > 0 {
      assert w[1..] == "" && w[..1] == w;
      assert Accepts("", w[1..], atEnd, ignoreCase);
      AcceptsNext(op, w, 1, atEnd, ignoreCase);
    }
    if Accepts(op, w, atEnd, ignoreCase) {
      var k: nat :| k <= |w| && Repeats("", k) && AllMatch(op, w[..k], ignoreCase)
        && Accepts("", w[k..], atEnd, ignoreCase);
      assert k == 1 && w[1..] == "" && w[..1][0] == w[0];
    }
  }

  // White space, anything else, and digits.
  lemma Classes(w: string, atEnd: bool, ignoreCase: bool)
    ensures Regular("\\s") && Regular("\\S") && Regular("\\d")
    ensures Accepts("\\s", w, atEnd, ignoreCase) <==>
      |w| == 1 && w[0] in [' ', '\t', '\n', '\r', 11 as char, 12 as char]
    ensures Accepts("\\S", w, atEnd, ignoreCase) <==>
      |w| == 1 && w[0] !in [' ', '\t', '\n', '\r', 11 as char, 12 as char]
    ensures Accepts("\\d", w, atEnd, ignoreCase) <==> |w| == 1 && '0' <= w[0] <= '9'
  {
    AtomAccepts("\\s", w, atEnd, ignoreCase);
    AtomAccepts("\\S", w, atEnd, ignoreCase);
    AtomAccepts("\\d", w, atEnd, ignoreCase);
    hide Accepts, Regular;
  }

  lemma Dot(w: string, atEnd: bool, ignoreCase: bool)
    ensures Regular(".") && (Accepts(".", w, atEnd, ignoreCase) <==> |w| == 1)
  {
    AtomAccepts(".", w, atEnd, ignoreCase);
    hide Accepts, Regular;
  }

  // A backslash makes control characters of six letters and takes every other character for itself.
  lemma Escaped(d: char, w: string, atEnd: bool, ignoreCase: bool)
    requires d !in "Ssdx"
    ensures Regular(['\\', d])
    ensures Accepts(['\\', d], w, atEnd, ignoreCase) <==>
      w == [if d == 'b' then 8 as char else if d == 't' then 9 as char else if d == 'n' then 10 as char
        else if d == 'v' then 11 as char else if d == 'f' then 12 as char else if d == 'r' then 13 as char else d]
  {
    AtomAccepts(['\\', d], w, atEnd, ignoreCase);
    hide Accepts, Regular;
  }

  const LOWER := "0123456789abcdef"
  const UPPER := "0123456789ABCDEF"

  // The character whose number has these two hexadecimal digits, in either case.
  lemma HexByte(h: nat, l: nat, high: char, low: char, w: string, atEnd: bool, ignoreCase: bool)
    requires h < 16 && l < 16 && (high == LOWER[h] || high == UPPER[h]) && (low == LOWER[l] || low == UPPER[l])
    ensures Regular(['\\', 'x', high, low])
    ensures Accepts(['\\', 'x', high, low], w, atEnd, ignoreCase) <==> w == [(16 * h + l) as char]
  {
    AtomAccepts(['\\', 'x', high, low], w, atEnd, ignoreCase);
    HexDigit(h, high);
    HexDigit(l, low);
    hide Accepts, Regular, Hex;
  }

  lemma HexDigit(v: nat, c: char)
    requires v < 16 && (c == LOWER[v] || c == UPPER[v])
    ensures Hex(c) == v
  {}

  // A character without meaning of its own stands for itself.
  lemma Itself(c: char, w: string, atEnd: bool)
    requires c !in "^$().[|*+?\\"
    ensures Regular([c]) && (Accepts([c], w, atEnd, false) <==> w == [c])
  {
    AtomAccepts([c], w, atEnd, false);
    hide Accepts, Regular;
  }

  // Without regard to case, a letter stands for both of its cases, and anything else still for itself.
  lemma EitherCase(c: char, w: string, atEnd: bool)
    requires c !in "^$().[|*+?\\"
    ensures Regular([c])
    ensures 'a' <= c <= 'z' ==> (Accepts([c], w, atEnd, true) <==> w == [c] || w == [(c as int - 32) as char])
    ensures 'A' <= c <= 'Z' ==> (Accepts([c], w, atEnd, true) <==> w == [c] || w == [(c as int + 32) as char])
    ensures !('a' <= c <= 'z') && !('A' <= c <= 'Z') ==> (Accepts([c], w, atEnd, true) <==> w == [c])
  {
    AtomAccepts([c], w, atEnd, true);
    hide Accepts, Regular;
  }

  lemma Nothing(w: string, atEnd: bool, ignoreCase: bool)
    ensures Regular("") && (Accepts("", w, atEnd, ignoreCase) <==> w == "")
    ensures Regular("$") && (Accepts("$", w, atEnd, ignoreCase) <==> w == "" && atEnd)
  {}

  predicate Quantifier(q: string)
  { q == "" || q == "?" || q == "*" || q == "+" || q == "*?" || q == "+?" }

  // The parts of an operation with a quantifier and the rest of the pattern.
  lemma Parts(op: string, q: string, re: string)
    requires Atom(op) && Regular(re) && Quantifier(q)
    ensures var all := op + q + re;
      && Regular(all) && all != "" && all != "$" && OpLen(all) == |op| && all[..|op|] == op && all[|op|..] == q + re
      && QuantifierLen(q + re) == |q| && (q + re)[|q|..] == re && AtomFirst(all)
  {
    var all := op + q + re;
    assert all[..|op|] == op && all[|op|..] == q + re && (q + re)[|q|..] == re;
    assert all[0] == op[0] && (|op| > 1 ==> all[1] == op[1]);
    QuantifierPart(q, re);
    hide QuantifierLen, IsQuantifier;
  }

  lemma QuantifierPart(q: string, re: string)
    requires Regular(re) && Quantifier(q)
    ensures QuantifierLen(q + re) == |q|
  {
    assert re == "" || !IsQuantifier(re[0]);
    hide Regular;
    if q == "" { assert q + re == re; } else { assert (q + re)[0] == q[0]; }
    if |q| == 2 { assert (q + re)[1] == '?'; }
    if |q| == 1 && re != "" { assert (q + re)[1] == re[0]; }
  }

  predicate Often(q: string, k: nat)
  { if q == "" then k == 1 else if q == "?" then k <= 1 else if q == "+" || q == "+?" then k >= 1 else true }

  // The first k characters belong to the operation, the others to the rest.
  ghost predicate Divided(op: string, re: string, w: string, k: nat, atEnd: bool, ignoreCase: bool)
    requires Atom(op) && Regular(re)
  { k <= |w| && AllMatch(op, w[..k], ignoreCase) && Accepts(re, w[k..], atEnd, ignoreCase) }

  lemma Divides(op: string, q: string, re: string, w: string, atEnd: bool, ignoreCase: bool)
    requires Atom(op) && Regular(re) && Quantifier(q)
    ensures Regular(op + q + re)
    ensures Accepts(op + q + re, w, atEnd, ignoreCase) <==>
      exists k: nat :: Often(q, k) && Divided(op, re, w, k, atEnd, ignoreCase)
  {
    Parts(op, q, re);
    forall k: nat ensures Repeats(q + re, k) <==> Often(q, k) { RepeatsOften(q, re, k); }
    hide Repeats, Often, Regular, OpLen, QuantifierLen, AllMatch, Atom, AtomFirst;
    var all := op + q + re;
    if k: nat :| Often(q, k) && Divided(op, re, w, k, atEnd, ignoreCase) {
      AcceptsNext(all, w, k, atEnd, ignoreCase);
    }
    if Accepts(all, w, atEnd, ignoreCase) {
      var k: nat :| k <= |w| && Repeats(q + re, k) && AllMatch(op, w[..k], ignoreCase)
        && Accepts(re, w[k..], atEnd, ignoreCase);
      assert Divided(op, re, w, k, atEnd, ignoreCase);
    }
  }

  lemma RepeatsOften(q: string, re: string, k: nat)
    requires Regular(re) && Quantifier(q)
    ensures Repeats(q + re, k) <==> Often(q, k)
  {
    assert re == "" || !IsQuantifier(re[0]);
    if q == "" { assert q + re == re; } else { assert (q + re)[0] == q[0]; }
  }

  lemma DividedAt(op: string, re: string, w: string, k: nat, atEnd: bool, ignoreCase: bool)
    requires Atom(op) && Regular(re)
    ensures Divided(op, re, w, 0, atEnd, ignoreCase) <==> Accepts(re, w, atEnd, ignoreCase)
    ensures Divided(op, re, w, k + 1, atEnd, ignoreCase) <==>
      w != "" && MatchOp(op, w[0], ignoreCase) > 0 && Divided(op, re, w[1..], k, atEnd, ignoreCase)
  {
    assert w[0..] == w && AllMatch(op, w[..0], ignoreCase);
    if k < |w| {
      AllNext(op, w, k, ignoreCase);
      assert w[1..][k..] == w[k + 1..];
    }
    hide MatchOp, Atom, Accepts, Regular, AllMatch;
  }

  lemma AllNext(op: string, w: string, k: nat, ignoreCase: bool)
    requires Atom(op) && k < |w|
    ensures AllMatch(op, w[..k + 1], ignoreCase) <==>
      MatchOp(op, w[0], ignoreCase) > 0 && AllMatch(op, w[1..][..k], ignoreCase)
  {
    hide MatchOp;
    var v := w[1..][..k];
    assert w[..k + 1] == [w[0]] + v;
    if AllMatch(op, w[..k + 1], ignoreCase) {
      forall i | 0 <= i < |v| ensures MatchOp(op, v[i], ignoreCase) > 0 { assert v[i] == w[..k + 1][i + 1]; }
      assert w[..k + 1][0] == w[0];
    }
  }

  lemma DividesOnce(op: string, q: string, re: string, w: string, atEnd: bool, ignoreCase: bool)
    requires Atom(op) && Regular(re) && q == "" && Quantifier(q)
    ensures Regular(op + re) && (Accepts(op + re, w, atEnd, ignoreCase) <==> Divided(op, re, w, 1, atEnd, ignoreCase))
  {
    hide *;
    assert op + q == op;
    Divides(op, q, re, w, atEnd, ignoreCase);
    forall k: nat ensures Often(q, k) <==> k == 1 { OftenOnce(q, k); }
  }

  lemma OftenOnce(q: string, k: nat)
    requires q == ""
    ensures Often(q, k) <==> k == 1
  {}

  // The first character of w belongs to the operation, and the others to re.
  ghost predicate Before(op: string, re: string, w: string, atEnd: bool, ignoreCase: bool)
    requires Regular(op) && Regular(re)
  { w != "" && Accepts(op, w[..1], atEnd, ignoreCase) && Accepts(re, w[1..], atEnd, ignoreCase) }

  // One operation after the other, an optional operation, and one that is repeated; lazy ones have the same language.
  lemma Sequence(op: string, re: string, w: string, atEnd: bool, ignoreCase: bool)
    requires Atom(op) && Regular(re)
    ensures Regular(op) && Regular(op + re)
    ensures Accepts(op + re, w, atEnd, ignoreCase) <==> Before(op, re, w, atEnd, ignoreCase)
  {
    FirstOf(op, w, atEnd, ignoreCase);
    DividesOnce(op, op[..0], re, w, atEnd, ignoreCase);
    hide MatchOp, Atom, Accepts, Regular, Divided;
    DividedAt(op, re, w, 0, atEnd, ignoreCase);
    if w != "" { DividedAt(op, re, w[1..], 0, atEnd, ignoreCase); }
  }

  lemma FirstOf(op: string, w: string, atEnd: bool, ignoreCase: bool)
    requires Atom(op)
    ensures Regular(op)
    ensures w != "" ==> (Accepts(op, w[..1], atEnd, ignoreCase) <==> MatchOp(op, w[0], ignoreCase) > 0)
  {
    AtomAccepts(op, if w == "" then w else w[..1], atEnd, ignoreCase);
  }

  lemma AtMostOnce(op: string, re: string, w: string, atEnd: bool, ignoreCase: bool)
    requires Atom(op) && Regular(re)
    ensures Regular(op) && Regular(op + "?" + re)
    ensures Accepts(op + "?" + re, w, atEnd, ignoreCase) <==>
      Accepts(re, w, atEnd, ignoreCase) || Before(op, re, w, atEnd, ignoreCase)
  {
    FirstOf(op, w, atEnd, ignoreCase);
    Divides(op, "?", re, w, atEnd, ignoreCase);
    DividedAt(op, re, w, 0, atEnd, ignoreCase);
    if w != "" { DividedAt(op, re, w[1..], 0, atEnd, ignoreCase); }
    hide MatchOp, Atom, Accepts, Regular, Divided;
  }

  ghost predicate DividedFrom(op: string, re: string, w: string, m: nat, atEnd: bool, ignoreCase: bool)
    requires Atom(op) && Regular(re)
  { exists k: nat :: m <= k && Divided(op, re, w, k, atEnd, ignoreCase) }

  lemma Onwards(op: string, re: string, w: string, atEnd: bool, ignoreCase: bool)
    requires Atom(op) && Regular(re)
    ensures DividedFrom(op, re, w, 1, atEnd, ignoreCase) <==>
      w != "" && MatchOp(op, w[0], ignoreCase) > 0 && DividedFrom(op, re, w[1..], 0, atEnd, ignoreCase)
    ensures DividedFrom(op, re, w, 0, atEnd, ignoreCase) <==>
      Accepts(re, w, atEnd, ignoreCase) || DividedFrom(op, re, w, 1, atEnd, ignoreCase)
  {
    hide MatchOp, Atom, Accepts, Regular, Divided;
    DividedAt(op, re, w, 0, atEnd, ignoreCase);
    if k: nat :| Divided(op, re, w, k, atEnd, ignoreCase) && 1 <= k {
      DividedAt(op, re, w, k - 1, atEnd, ignoreCase);
    }
    if w != "" && DividedFrom(op, re, w[1..], 0, atEnd, ignoreCase) {
      var k: nat :| Divided(op, re, w[1..], k, atEnd, ignoreCase);
      DividedAt(op, re, w, k, atEnd, ignoreCase);
    }
  }

  lemma DividesFrom(op: string, q: string, re: string, w: string, atEnd: bool, ignoreCase: bool)
    requires Atom(op) && Regular(re) && q in ["*", "+", "*?", "+?"]
    ensures Regular(op + q + re)
    ensures Accepts(op + q + re, w, atEnd, ignoreCase) <==>
      DividedFrom(op, re, w, if q[0] == '+' then 1 else 0, atEnd, ignoreCase)
  {
    Divides(op, q, re, w, atEnd, ignoreCase);
    hide MatchOp, Atom, Accepts, Regular, Divided;
    if k: nat :| Often(q, k) && Divided(op, re, w, k, atEnd, ignoreCase) {}
    if q[0] != '+' {
      assert forall k: nat :: Often(q, k);
    } else {
      assert forall k: nat :: Often(q, k) <==> 1 <= k;
    }
  }

  lemma AnyNumber(op: string, re: string, w: string, atEnd: bool, ignoreCase: bool)
    requires Atom(op) && Regular(re)
    ensures Regular(op) && Regular(op + "*" + re) && Regular(op + "*?" + re)
    ensures Accepts(op + "*" + re, w, atEnd, ignoreCase) <==>
      Accepts(re, w, atEnd, ignoreCase) || Before(op, op + "*" + re, w, atEnd, ignoreCase)
    ensures Accepts(op + "*?" + re, w, atEnd, ignoreCase) <==> Accepts(op + "*" + re, w, atEnd, ignoreCase)
  {
    FirstOf(op, w, atEnd, ignoreCase);
    DividesFrom(op, "*", re, w, atEnd, ignoreCase);
    DividesFrom(op, "*?", re, w, atEnd, ignoreCase);
    if w != "" { DividesFrom(op, "*", re, w[1..], atEnd, ignoreCase); }
    Onwards(op, re, w, atEnd, ignoreCase);
    hide MatchOp, Atom, Accepts, Regular, DividedFrom;
  }

  lemma AtLeastOnce(op: string, re: string, w: string, atEnd: bool, ignoreCase: bool)
    requires Atom(op) && Regular(re)
    ensures Regular(op) && Regular(op + "*" + re) && Regular(op + "+" + re) && Regular(op + "+?" + re)
    ensures Accepts(op + "+" + re, w, atEnd, ignoreCase) <==> Before(op, op + "*" + re, w, atEnd, ignoreCase)
    ensures Accepts(op + "+?" + re, w, atEnd, ignoreCase) <==> Accepts(op + "+" + re, w, atEnd, ignoreCase)
  {
    FirstOf(op, w, atEnd, ignoreCase);
    DividesFrom(op, "+", re, w, atEnd, ignoreCase);
    DividesFrom(op, "+?", re, w, atEnd, ignoreCase);
    DividesFrom(op, "*", re, if w == "" then w else w[1..], atEnd, ignoreCase);
    Onwards(op, re, w, atEnd, ignoreCase);
    hide MatchOp, Atom, Accepts, Regular, DividedFrom;
  }

  // Which escapes a pattern may hold.
  lemma EscapesAt(c: char, r: string)
    ensures c != '\\' ==> (EscapesOk([c] + r) <==> EscapesOk(r))
    ensures !EscapesOk("\\")
    ensures c != 'x' ==> (EscapesOk(['\\', c] + r) <==>
      (c in "^$().[]*+?|\\" || c in "Ssdbfnrtv") && EscapesOk(r))
  {
    assert ([c] + r)[1..] == r && (['\\', c] + r)[2..] == r;
  }

  lemma HexEscapesAt(h: char, l: char, r: string)
    ensures EscapesOk(['\\', 'x', h, l] + r) <==>
      (h in LOWER || h in UPPER) && (l in LOWER || l in UPPER) && EscapesOk(r)
  {
    HexChar(h);
    HexChar(l);
    HexEscape(h, l, r);
    hide IsHex, EscapesOk;
  }

  lemma HexEscapeCut(r: string)
    requires |r| < 2
    ensures !EscapesOk(['\\', 'x'] + r)
  {}

  lemma HexEscape(h: char, l: char, r: string)
    ensures EscapesOk(['\\', 'x', h, l] + r) <==> IsHex(h) && IsHex(l) && EscapesOk(r)
  {
    hide IsHex;
    var re := ['\\', 'x', h, l] + r;
    assert re[0] == '\\' && re[1] == 'x' && re[2] == h && re[3] == l && re[4..] == r;
  }

  lemma HexChar(c: char)
    ensures IsHex(c) <==> c in LOWER || c in UPPER
  {
    assert '0' <= c <= '9' ==> c == LOWER[c as int - '0' as int];
    assert 'a' <= c <= 'f' ==> c == LOWER[c as int - 'a' as int + 10];
    assert 'A' <= c <= 'F' ==> c == UPPER[c as int - 'A' as int + 10];
  }

  // Every pattern put together like this is in the fragment, and so is one behind a circumflex.
  lemma SimpleParts(op: string, q: string, re: string)
    requires Atom(op) && Regular(re) && Simple(re, false) && Quantifier(q)
    ensures Simple("", true) && Simple("$", true) && Simple(op + q + re, false) && Simple("^" + re, true)
  {
    Parts(op, q, re);
    assert ("^" + re)[1..] == re;
    assert Simple("", true) && Simple("$", true);
    var all := op + q + re;
    assert all[0] !in "^$()[|*+?";
    assert all[OpLen(all)..][QuantifierLen(all[OpLen(all)..])..] == re;
    hide OpLen, QuantifierLen, Regular, Atom;
  }

  predicate Digits(w: string) { forall i :: 0 <= i < |w| ==> '0' <= w[i] <= '9' }

  lemma DigitStep(d: string, w: string)
    requires d == "\\d" && w != ""
    ensures Regular(d) && (Accepts(d, w[..1], true, false) <==> '0' <= w[0] <= '9')
    ensures Digits(w) <==> '0' <= w[0] <= '9' && Digits(w[1..])
  {
    Classes(w[..1], true, false);
    DigitsStep(w);
    hide *;
  }

  lemma DigitsStep(w: string)
    requires w != ""
    ensures Digits(w) <==> '0' <= w[0] <= '9' && Digits(w[1..])
  {
    var v := w[1..];
    assert forall i :: 0 <= i < |v| ==> v[i] == w[i + 1];
    if '0' <= w[0] <= '9' && Digits(v) {
      forall i | 0 <= i < |w| ensures '0' <= w[i] <= '9' {
        assert i > 0 ==> w[i] == v[i - 1];
      }
    }
    if Digits(w) {
      forall i | 0 <= i < |v| ensures '0' <= v[i] <= '9' {
        assert v[i] == w[i + 1];
      }
    }
  }

  lemma {:induction false} DigitsAccepted(d: string, e: string, w: string)
    requires d == "\\d" && Atom(d) && e == "$" && Regular(e)
    ensures Regular(d + "*" + e)
    ensures Accepts(d + "*" + e, w, true, false) <==> Digits(w)
    decreases |w|
  {
    Nothing(w, true, false);
    hide *;
    AnyNumber(d, e, w, true, false);
    if w != "" {
      DigitStep(d, w);
      DigitsAccepted(d, e, w[1..]);
    } else {
      NoDigits(w);
    }
    assert Before(d, d + "*" + e, w, true, false) <==>
      w != "" && Accepts(d, w[..1], true, false) && Accepts(d + "*" + e, w[1..], true, false) by {
      BeforeParts(d, d + "*" + e, w);
    }
  }

  lemma NoDigits(w: string)
    requires w == ""
    ensures Digits(w)
  {}

  lemma BeforeParts(op: string, re: string, w: string)
    requires Regular(op) && Regular(re)
    ensures Before(op, re, w, true, false) <==>
      w != "" && Accepts(op, w[..1], true, false) && Accepts(re, w[1..], true, false)
  {}

  lemma DigitsFirst(d: string, e: string, w: string)
    requires d == "\\d" && Atom(d) && e == "$" && Regular(e)
    ensures Regular(d + "+" + e)
    ensures Accepts(d + "+" + e, w, true, false) <==> w != "" && Digits(w)
  {
    hide *;
    AtLeastOnce(d, e, w, true, false);
    BeforeParts(d, d + "*" + e, w);
    if w != "" {
      DigitStep(d, w);
      DigitsAccepted(d, e, w[1..]);
    }
  }

  lemma SignStep(m: string, w: string)
    requires m == "-" && w != ""
    ensures Regular(m) && (Accepts(m, w[..1], true, false) <==> w[0] == '-')
  {
    Itself('-', w[..1], true);
    hide Accepts, Regular;
  }

  // ^-?\d+$ in parts: the integers in decimal digits.
  lemma Integers(m: string, d: string, e: string, w: string)
    requires m == "-" && d == "\\d" && e == "$"
    ensures var p := "^" + (m + "?" + (d + "+" + e));
      && Simple(p, true) && EscapesOk(p) && Supported(p)
      && (SupportedAccepts(p, w, true, false) <==>
        (w != "" && Digits(w)) || (|w| > 1 && w[0] == '-' && Digits(w[1..])))
  {
    assert Atom(m) && Atom(d) && Regular(e) && Simple(e, false) && EscapesOk(e);
    IntegersSupported(m, d, e);
    hide *;
    var n := d + "+" + e;
    DigitsFirst(d, e, w);
    AtMostOnce(m, n, w, true, false);
    BeforeParts(m, n, w);
    if w != "" {
      SignStep(m, w);
      DigitsFirst(d, e, w[1..]);
    }
    Circumflex(m + "?" + n, w);
  }

  lemma Circumflex(re: string, w: string)
    requires Regular(re)
    ensures Supported("^" + re)
    ensures SupportedAccepts("^" + re, w, true, false) <==> Accepts(re, w, true, false)
  {
    hide Accepts, Regular;
    assert ("^" + re)[1..] == re;
  }

  lemma IntegersSupported(m: string, d: string, e: string)
    requires m == "-" && d == "\\d" && e == "$" && Atom(m) && Atom(d) && Regular(e) && Simple(e, false) && EscapesOk(e)
    ensures var p := "^" + (m + "?" + (d + "+" + e)); Simple(p, true) && EscapesOk(p)
  {
    Quantifiers();
    hide Accepts, Regular, Atom, Simple, EscapesOk, Quantifier;
    var n := d + "+" + e;
    SimpleParts(d, "+", e);
    Parts(d, "+", e);
    SimpleParts(m, "?", n);
    Parts(m, "?", n);
    SimpleParts(m, "?", m + "?" + n);
    EscapesAt('+', e);
    EscapesAt('d', "+" + e);
    EscapesAt('?', n);
    EscapesAt('-', "?" + n);
    EscapesAt('^', m + "?" + n);
    assert ['\\', 'd'] + ("+" + e) == n && ['?'] + n == "?" + n && ['-'] + ("?" + n) == m + "?" + n;
  }

  lemma Quantifiers()
    ensures Quantifier("+") && Quantifier("?")
  {}
}
