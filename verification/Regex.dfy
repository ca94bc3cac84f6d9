/** The regular expression matcher, for patterns without brackets, sets and alternatives (slre.cpp). */
module Regex {

  const NO_MATCH := -1
  const UNEXPECTED_QUANTIFIER := -2
  const INVALID_METACHARACTER := -6

  function OpLen(re: string): (n: nat)
    requires re != ""
    ensures n > 0
  { if re[0] == '\\' && |re| > 1 && re[1] == 'x' then 4 else if re[0] == '\\' then 2 else 1 }

  predicate IsQuantifier(c: char) { c == '*' || c == '+' || c == '?' }

  predicate IsDigit(c: char) { '0' <= c <= '9' }

  predicate IsSpace(c: char) { c == ' ' || c == '\n' || c == '\r' || c == 12 as char || c == '\t' || c == 11 as char }

  predicate IsHex(c: char) { IsDigit(c) || 'a' <= c <= 'f' || 'A' <= c <= 'F' }

  predicate IsMetacharacter(c: char) { c in "^$().[]*+?|\\Ssdbfnrtv" }

  function ToLower(c: char): char
  { if 'A' <= c <= 'Z' then (c as int + 32) as char else c }

  function Hex(c: char): int
  { if IsDigit(c) then c as int - '0' as int else ToLower(c) as int - 'W' as int }

  // Whether one operation matches one character.
  function MatchOp(op: string, c: char, ignoreCase: bool): (n: int)
    requires op != "" && OpLen(op) <= |op|
    ensures n == 1 || n == NO_MATCH
  {
    var matches :=
      if op[0] == '\\' then
        (match op[1]
        case 'S' => !IsSpace(c)
        case 's' => IsSpace(c)
        case 'd' => IsDigit(c)
        case 'b' => c == 8 as char
        case 'f' => c == 12 as char
        case 'n' => c == '\n'
        case 'r' => c == '\r'
        case 't' => c == '\t'
        case 'v' => c == 11 as char
        case 'x' => Hex(op[2]) * 16 + Hex(op[3]) == c as int
        case d => d == c)
      else if op[0] == '$' then false
      else if op[0] == '.' then true
      else if ignoreCase then ToLower(op[0]) == ToLower(c)
      else op[0] == c;
    if matches then 1 else NO_MATCH
  }

  // One operation that matches single characters.
  predicate AtomFirst(re: string)
  { re != "" && re[0] !in "^$()[|*+?" && OpLen(re) <= |re| }

  predicate Atom(op: string) { AtomFirst(op) && OpLen(op) == |op| }

  // The length of the quantifier at the start of r, if there is one.
  function QuantifierLen(r: string): (n: nat)
    ensures n <= |r|
  {
    if r == "" || !IsQuantifier(r[0]) then 0
    else if r[0] != '?' && |r| > 1 && r[1] == '?' then 2
    else 1
  }

  // Atoms with or without quantifiers, and perhaps a dollar sign at the end.
  predicate Regular(re: string)
    decreases |re|
  {
    || re == "" || re == "$"
    || (AtomFirst(re) && (var rest := re[OpLen(re)..]; Regular(rest[QuantifierLen(rest)..])))
  }

  predicate Supported(re: string) { Regular(re) || (re != "" && re[0] == '^' && Regular(re[1..])) }

  ghost predicate AllMatch(op: string, w: string, ignoreCase: bool)
    requires Atom(op)
  { forall i :: 0 <= i < |w| ==> MatchOp(op, w[i], ignoreCase) > 0 }

  // The language of a pattern: w, which reaches the end of the subject when atEnd is set, belongs to it.
  ghost predicate Accepts(re: string, w: string, atEnd: bool, ignoreCase: bool)
    requires Regular(re)
    decreases |re|
  {
    if re == "" then w == ""
    else if re == "$" then w == "" && atEnd
    else
      var op, rest := re[..OpLen(re)], re[OpLen(re)..];
      var q := QuantifierLen(rest);
      AtomIsAtom(re);
      exists k: nat ::
        k <= |w| && Repeats(rest, k) && AllMatch(op, w[..k], ignoreCase)
        && Accepts(rest[q..], w[k..], atEnd, ignoreCase)
  }

  // How often the quantifier at the start of r lets its operation match.
  predicate Repeats(r: string, k: nat)
  {
    if r == "" || !IsQuantifier(r[0]) then k == 1
    else if r[0] == '?' then k <= 1
    else r[0] == '+' ==> k >= 1
  }

  lemma AtomIsAtom(re: string)
    requires AtomFirst(re)
    ensures Atom(re[..OpLen(re)])
  {
  }

  ghost predicate SupportedAccepts(re: string, w: string, atEnd: bool, ignoreCase: bool)
    requires Supported(re)
  { if re != "" && re[0] == '^' then Accepts(re[1..], w, atEnd, ignoreCase) else Accepts(re, w, atEnd, ignoreCase) }

  predicate Optional(r: string) { r != "" && r[0] == '?' }

  predicate Starts(op: string, t: string, ignoreCase: bool)
    requires Atom(op)
  { t != "" && MatchOp(op, t[0], ignoreCase) > 0 }

  // The operation may match the first k characters of t. An optional one is taken wherever it can be.
  ghost predicate Counts(op: string, rest: string, t: string, k: nat, ignoreCase: bool)
    requires Atom(op)
  {
    && k <= |t| && Repeats(rest, k) && AllMatch(op, t[..k], ignoreCase)
    && (Optional(rest) && k == 0 ==> !Starts(op, t, ignoreCase))
  }

  // What the matcher finds: the first n characters of t, where an optional operation is never left out if it can be
  // taken.
  ghost predicate Takes(re: string, t: string, n: nat, ignoreCase: bool)
    requires Regular(re)
    decreases |re|
  {
    if re == "" then n == 0
    else if re == "$" then n == 0 && t == ""
    else
      var op, rest := re[..OpLen(re)], re[OpLen(re)..];
      var q := QuantifierLen(rest);
      AtomIsAtom(re);
      n <= |t| && exists k: nat ::
        k <= n && Counts(op, rest, t, k, ignoreCase) && Takes(rest[q..], t[k..], n - k, ignoreCase)
  }

  ghost predicate SupportedTakes(re: string, t: string, n: nat, ignoreCase: bool)
    requires Supported(re)
  { if re != "" && re[0] == '^' then Takes(re[1..], t, n, ignoreCase) else Takes(re, t, n, ignoreCase) }

  lemma {:induction false} TakesFits(re: string, t: string, n: nat, ignoreCase: bool)
    requires Regular(re) && Takes(re, t, n, ignoreCase)
    ensures n <= |t|
  {}

  lemma TakesOne(re: string, t: string, n: nat, ignoreCase: bool) returns (k: nat)
    requires Regular(re) && Takes(re, t, n, ignoreCase) && re != "" && re != "$"
    ensures AtomFirst(re) && Atom(re[..OpLen(re)])
    ensures var rest := re[OpLen(re)..];
      var more := rest[QuantifierLen(rest)..];
      && k <= n <= |t| && Counts(re[..OpLen(re)], rest, t, k, ignoreCase)
      && |more| < |re| && Regular(more) && Takes(more, t[k..], n - k, ignoreCase)
  {
    AtomIsAtom(re);
    var op, rest := re[..OpLen(re)], re[OpLen(re)..];
    k :| k <= n && Counts(op, rest, t, k, ignoreCase) && Takes(rest[QuantifierLen(rest)..], t[k..], n - k, ignoreCase);
  }

  // What the matcher takes is in the language.
  lemma {:induction false} TakesAccepts(re: string, t: string, n: nat, ignoreCase: bool)
    requires Regular(re) && Takes(re, t, n, ignoreCase)
    ensures n <= |t| && Accepts(re, t[..n], n == |t|, ignoreCase)
    decreases |re|
  {
    hide Accepts, Takes, MatchOp, AllMatch, QuantifierLen, OpLen, Regular;
    if re != "" && re != "$" {
      var k := TakesOne(re, t, n, ignoreCase);
      var more := re[OpLen(re)..][QuantifierLen(re[OpLen(re)..])..];
      TakesAccepts(more, t[k..], n - k, ignoreCase);
      AcceptsLonger(re, t, n, k, ignoreCase);
    } else {
      TakesNothing(re, t, n, ignoreCase);
    }
  }

  lemma TakesNothing(re: string, t: string, n: nat, ignoreCase: bool)
    requires (re == "" || re == "$") && Takes(re, t, n, ignoreCase)
    ensures n == 0 && Accepts(re, t[..0], 0 == |t|, ignoreCase)
  { assert t[..0] == ""; }

  lemma AcceptsLonger(re: string, t: string, n: nat, k: nat, ignoreCase: bool)
    requires Regular(re) && AtomFirst(re) && Atom(re[..OpLen(re)]) && k <= n <= |t|
    requires var rest := re[OpLen(re)..];
      var more := rest[QuantifierLen(rest)..];
      Repeats(rest, k) && AllMatch(re[..OpLen(re)], t[..k], ignoreCase) && Regular(more)
        && Accepts(more, t[k..][..n - k], n == |t|, ignoreCase)
    ensures Accepts(re, t[..n], n == |t|, ignoreCase)
  {
    hide MatchOp, AllMatch, QuantifierLen, OpLen, Regular, Accepts;
    assert t[..n][..k] == t[..k] && t[..n][k..] == t[k..][..n - k];
    AcceptsNext(re, t[..n], k, n == |t|, ignoreCase);
  }

  lemma AcceptsNext(re: string, w: string, k: nat, atEnd: bool, ignoreCase: bool)
    requires Regular(re) && AtomFirst(re) && k <= |w|
    requires var step := OpLen(re);
      var rest := re[step..];
      Atom(re[..step]) && Repeats(rest, k) && AllMatch(re[..step], w[..k], ignoreCase)
        && Accepts(rest[QuantifierLen(rest)..], w[k..], atEnd, ignoreCase)
    ensures Accepts(re, w, atEnd, ignoreCase)
  {
  }

  // Patterns without an optional operation.
  predicate NoOption(re: string)
    decreases |re|
  {
    || re == "" || re == "$"
    || (AtomFirst(re) && (var rest := re[OpLen(re)..]; !Optional(rest) && NoOption(rest[QuantifierLen(rest)..])))
  }

  predicate Steady(re: string) { NoOption(re) || (re != "" && re[0] == '^' && NoOption(re[1..])) }

  // For them it takes all of the language.
  lemma {:induction false} AcceptsTakes(re: string, t: string, n: nat, ignoreCase: bool)
    requires Regular(re) && NoOption(re) && n <= |t| && Accepts(re, t[..n], n == |t|, ignoreCase)
    ensures Takes(re, t, n, ignoreCase)
    decreases |re|
  {
    hide Accepts, Takes, MatchOp, AllMatch, NoOption, Regular, QuantifierLen, OpLen;
    if re != "" && re != "$" {
      var k := AcceptsOne(re, t, n, ignoreCase);
      var more := re[OpLen(re)..][QuantifierLen(re[OpLen(re)..])..];
      AcceptsTakes(more, t[k..], n - k, ignoreCase);
      TakesLonger(re, t, n, k, ignoreCase);
    } else {
      AcceptsNothing(re, t, n, ignoreCase);
    }
  }

  lemma AcceptsOne(re: string, t: string, n: nat, ignoreCase: bool) returns (k: nat)
    requires Regular(re) && NoOption(re) && n <= |t| && Accepts(re, t[..n], n == |t|, ignoreCase) && re != ""
      && re != "$"
    ensures AtomFirst(re) && Atom(re[..OpLen(re)])
    ensures var rest := re[OpLen(re)..];
      var more := rest[QuantifierLen(rest)..];
      && k <= n && !Optional(rest) && Repeats(rest, k) && AllMatch(re[..OpLen(re)], t[..k], ignoreCase)
      && |more| < |re| && Regular(more) && NoOption(more)
         && Accepts(more, t[k..][..n - k], n - k == |t[k..]|, ignoreCase)
  {
    AtomIsAtom(re);
    var op, rest, w := re[..OpLen(re)], re[OpLen(re)..], t[..n];
    var more := rest[QuantifierLen(rest)..];
    k :| k <= |w| && Repeats(rest, k) && AllMatch(op, w[..k], ignoreCase)
      && Accepts(more, w[k..], n == |t|, ignoreCase);
    hide Accepts, MatchOp, AllMatch;
    assert w[..k] == t[..k] && w[k..] == t[k..][..n - k];
  }

  lemma AcceptsNothing(re: string, t: string, n: nat, ignoreCase: bool)
    requires (re == "" || re == "$") && n <= |t| && Accepts(re, t[..n], n == |t|, ignoreCase)
    ensures Takes(re, t, n, ignoreCase)
  { assert |t[..n]| == n; }

  lemma TakesLonger(re: string, t: string, n: nat, k: nat, ignoreCase: bool)
    requires Regular(re) && AtomFirst(re) && Atom(re[..OpLen(re)]) && k <= n <= |t|
    requires var rest := re[OpLen(re)..];
      var more := rest[QuantifierLen(rest)..];
      !Optional(rest) && Repeats(rest, k) && AllMatch(re[..OpLen(re)], t[..k], ignoreCase) && Regular(more)
        && Takes(more, t[k..], n - k, ignoreCase)
    ensures Takes(re, t, n, ignoreCase)
  {
    hide MatchOp, AllMatch;
    assert Counts(re[..OpLen(re)], re[OpLen(re)..], t, k, ignoreCase);
  }

  // The subject "ab" is in the language of a?ab, but the matcher takes the a for the first operation and then finds
  // no other, nor does it find a match further on.
  lemma OptionNotLeftOut()
    ensures Regular("a?ab") && Accepts("a?ab", "ab", true, false) && MatchAt("a?ab", "ab", 0, 2, false)
    ensures forall i: nat, n :: !FoundAt("a?ab", "ab", i, n, false)
  {
    hide MatchOp, Regular, Takes, Accepts, FoundAt, MatchAt, SupportedTakes, AtomFirst;
    Letters();
    RegularSupported("a?ab");
    LettersAccepted();
    LettersMatchAt();
    forall i: nat, n ensures !FoundAt("a?ab", "ab", i, n, false) { LettersFound(i, n); }
  }

  lemma LettersMatchAt()
    requires Regular("a?ab") && Supported("a?ab") && Accepts("a?ab", "ab", true, false)
    ensures MatchAt("a?ab", "ab", 0, 2, false)
  {
    hide Regular, Accepts;
    assert "ab"[0..2] == "ab";
  }

  lemma LettersFound(i: nat, n: int)
    requires Supported("a?ab") && Regular("a?ab")
    ensures !FoundAt("a?ab", "ab", i, n, false)
  {
    hide MatchOp, Regular, Takes;
    assert "ab"[0..] == "ab" && "ab"[1..] == "b" && "ab"[2..] == "";
    if i <= n <= 2 {
      if i == 0 { LettersTaken(n); } else { LettersMissed("ab"[i..], n - i); }
    }
  }

  lemma LettersMissed(t: string, n: nat)
    requires Regular("a?ab") && (t == "b" || t == "")
    ensures !Takes("a?ab", t, n, false)
  {
    Letters();
    LettersMatch();
    hide MatchOp, Regular, Takes;
    if Takes("a?ab", t, n, false) {
      var k := TakesOne("a?ab", t, n, false);
      assert t == "b" ==> t[..1] == "b";
      assert k == 0 && t[0..] == t;
      var m := TakesOne("ab", t, n, false);
    }
  }

  lemma Letters()
    ensures Regular("") && Regular("b") && Regular("ab") && Regular("a?ab")
    ensures "ab"[1..] == "b" && "b"[1..] == "" && "a?ab"[1..] == "?ab" && "?ab"[1..] == "ab" && "a?ab"[..1] == "a"
      && "ab"[..1] == "a" && "b"[..1] == "b"
    ensures "ab"[0..] == "ab" && "b"[0..] == "b" && ""[0..] == ""
  {
    assert Regular("");
    hide Regular;
    LetterParts();
    RegularLetter('b', "");
    RegularLetter('a', "b");
    RegularOption('a', "ab");
  }

  lemma LetterParts()
    ensures "ab"[1..] == "b" && "b"[1..] == "" && "a?ab"[1..] == "?ab" && "?ab"[1..] == "ab" && "a?ab"[..1] == "a"
      && "ab"[..1] == "a" && "b"[..1] == "b"
    ensures "ab"[0..] == "ab" && "b"[0..] == "b" && ""[0..] == ""
    ensures ['b'] + "" == "b" && ['a'] + "b" == "ab" && ['a'] + "?" + "ab" == "a?ab" && "ab"[0] == 'a'
  {
    assert "ab"[1..] == "b" && "b"[1..] == "" && "a?ab"[1..] == "?ab" && "?ab"[1..] == "ab";
    assert "b"[0..] == "b" && ""[0..] == "";
  }

  lemma RegularLetter(c: char, re: string)
    requires 'a' <= c <= 'z' && Regular(re) && (re == "" || 'a' <= re[0] <= 'z')
    ensures Regular([c] + re)
  {
    var r := [c] + re;
    assert OpLen(r) == 1 && r[1..] == re && re[0..] == re;
  }

  lemma RegularOption(c: char, re: string)
    requires 'a' <= c <= 'z' && Regular(re) && (re == "" || 'a' <= re[0] <= 'z')
    ensures Regular([c] + "?" + re)
  {
    var r := [c] + "?" + re;
    assert OpLen(r) == 1 && r[1..] == "?" + re && ("?" + re)[1..] == re;
  }

  lemma LettersMatch()
    ensures MatchOp("a", 'a', false) > 0 && MatchOp("b", 'b', false) > 0 && MatchOp("a", 'b', false) <= 0
    ensures Atom("a") && !AllMatch("a", "b", false)
  {
    assert "b"[0] == 'b';
  }

  lemma LettersAccepted()
    requires Regular("") && Regular("b") && Regular("ab") && Regular("a?ab")
    ensures Accepts("a?ab", "ab", true, false)
  {
    Letters();
    LettersMatch();
    hide MatchOp, Regular, Accepts;
    assert Accepts("", "", true, false) by { NothingAccepted(); }
    assert AllMatch("b", "b"[..1], false) && AllMatch("a", "ab"[..1], false) && AllMatch("a", "ab"[..0], false);
    AcceptsNext("b", "b", 1, true, false);
    AcceptsNext("ab", "ab", 1, true, false);
    AcceptsNext("a?ab", "ab", 0, true, false);
  }

  lemma NothingAccepted()
    ensures Accepts("", "", true, false)
  {}

  lemma LettersTaken(n: nat)
    requires Regular("a?ab")
    ensures !Takes("a?ab", "ab", n, false)
  {
    Letters();
    LettersMatch();
    hide MatchOp, Regular, Takes;
    if Takes("a?ab", "ab", n, false) {
      var k := TakesOne("a?ab", "ab", n, false);
      assert k == 1;
      var m := TakesOne("ab", "b", n - 1, false);
    }
  }

  // No match starts at the start of t.
  ghost predicate Unmatched(re: string, t: string, ignoreCase: bool)
    requires Supported(re)
  { forall n: nat {:trigger SupportedTakes(re, t, n, ignoreCase)} :: !SupportedTakes(re, t, n, ignoreCase) }

  // What is left of the pattern from i on and of the subject from j on decides about the whole.
  ghost predicate Left(re: string, s: string, i: nat, j: nat, ignoreCase: bool)
    requires Supported(re)
  {
    && i <= |re| && j <= |s| && Supported(re[i..])
    && (forall n: nat {:trigger SupportedTakes(re[i..], s[j..], n, ignoreCase)} ::
      SupportedTakes(re[i..], s[j..], n, ignoreCase) ==> SupportedTakes(re, s, j + n, ignoreCase))
    && (Unmatched(re[i..], s[j..], ignoreCase) ==> Unmatched(re, s, ignoreCase))
  }

  lemma LeftNone(re: string, s: string, ignoreCase: bool)
    requires Supported(re)
    ensures Left(re, s, 0, 0, ignoreCase)
  {
    hide SupportedTakes;
    assert re[0..] == re && s[0..] == s;
  }

  lemma LeftTwice(re: string, s: string, i: nat, j: nat, di: nat, dj: nat, ignoreCase: bool)
    requires Supported(re) && Left(re, s, i, j, ignoreCase) && Left(re[i..], s[j..], di, dj, ignoreCase)
    ensures Left(re, s, i + di, j + dj, ignoreCase)
  {
    hide SupportedTakes, Supported, Unmatched;
    assert re[i..][di..] == re[i + di..] && s[j..][dj..] == s[j + dj..];
    forall n: nat {:trigger SupportedTakes(re[i + di..], s[j + dj..], n, ignoreCase)} | SupportedTakes(re[i + di..],
      s[j + dj..], n, ignoreCase)
      ensures SupportedTakes(re, s, j + dj + n, ignoreCase) {
      assert SupportedTakes(re[i..], s[j..], dj + n, ignoreCase);
    }
  }

  // The pattern after its first operation.
  function After(r: string): string
    requires AtomFirst(r)
  { r[OpLen(r)..][QuantifierLen(r[OpLen(r)..])..] }

  function AfterLen(r: string): (n: nat)
    requires AtomFirst(r)
    ensures n <= |r| && r[n..] == After(r)
  { OpLen(r) + QuantifierLen(r[OpLen(r)..]) }

  ghost predicate Count(r: string, t: string, k: nat, ignoreCase: bool)
    requires AtomFirst(r)
  { Atom(r[..OpLen(r)]) && Counts(r[..OpLen(r)], r[OpLen(r)..], t, k, ignoreCase) }

  lemma RegularAfter(r: string)
    requires Supported(r) && AtomFirst(r)
    ensures r[0] != '^' && Regular(r) && r != "$" && Regular(After(r)) && (After(r) == "" || After(r)[0] != '^')
      && Atom(r[..OpLen(r)])
  {
    AtomIsAtom(r);
    NoCaret(After(r));
  }

  lemma NoCaret(re: string)
    requires Regular(re)
    ensures re == "" || re[0] != '^'
  {
  }

  lemma TakesCount(r: string, t: string, n: nat, ignoreCase: bool) returns (k: nat)
    requires Supported(r) && AtomFirst(r) && Regular(After(r)) && SupportedTakes(r, t, n, ignoreCase)
    ensures k <= n <= |t| && Count(r, t, k, ignoreCase) && SupportedTakes(After(r), t[k..], n - k, ignoreCase)
  {
    RegularAfter(r);
    k :| k <= n && Counts(r[..OpLen(r)], r[OpLen(r)..], t, k, ignoreCase) && Takes(After(r), t[k..], n - k, ignoreCase);
  }

  lemma CountTakes(r: string, t: string, n: nat, k: nat, ignoreCase: bool)
    requires Supported(r) && AtomFirst(r) && Regular(After(r)) && Count(r, t, k, ignoreCase)
      && SupportedTakes(After(r), t[k..], n, ignoreCase)
    ensures SupportedTakes(r, t, k + n, ignoreCase)
  {
    RegularAfter(r);
    TakesFits(After(r), t[k..], n, ignoreCase);
    assert Counts(r[..OpLen(r)], r[OpLen(r)..], t, k, ignoreCase) && Takes(After(r), t[k..], k + n - k, ignoreCase);
  }

  // Where the operation can match just k characters, it does.
  lemma OneCount(r: string, t: string, k: nat, ignoreCase: bool)
    requires Supported(r) && AtomFirst(r) && Regular(After(r)) && k <= |t|
    requires forall m: nat {:trigger Count(r, t, m, ignoreCase)} :: Count(r, t, m, ignoreCase) <==> m == k
    ensures Left(r, t, AfterLen(r), k, ignoreCase)
  {
    hide SupportedTakes, Count, OpLen, QuantifierLen, After, Regular, AtomFirst;
    forall n: nat | SupportedTakes(After(r), t[k..], n, ignoreCase) ensures SupportedTakes(r, t, k + n, ignoreCase) {
      CountTakes(r, t, n, k, ignoreCase);
    }
    if Unmatched(After(r), t[k..], ignoreCase) {
      forall n: nat ensures !SupportedTakes(r, t, n, ignoreCase) {
        if SupportedTakes(r, t, n, ignoreCase) { var m := TakesCount(r, t, n, ignoreCase); }
      }
    }
  }

  lemma NoCount(r: string, t: string, ignoreCase: bool)
    requires Supported(r) && AtomFirst(r) && Regular(After(r)) && forall m: nat :: !Count(r, t, m, ignoreCase)
    ensures Unmatched(r, t, ignoreCase)
  {
    hide SupportedTakes, Count, OpLen, QuantifierLen, After, Regular, AtomFirst;
    forall n: nat ensures !SupportedTakes(r, t, n, ignoreCase) {
      if SupportedTakes(r, t, n, ignoreCase) { var m := TakesCount(r, t, n, ignoreCase); }
    }
  }

  lemma SameOp(r: string, c: char, ignoreCase: bool)
    requires r != "" && OpLen(r) <= |r|
    ensures OpLen(r[..OpLen(r)]) == OpLen(r) && MatchOp(r[..OpLen(r)], c, ignoreCase) == MatchOp(r, c, ignoreCase)
  {}

  lemma PlainCount(r: string, t: string, ignoreCase: bool)
    requires AtomFirst(r) && Atom(r[..OpLen(r)]) && (OpLen(r) == |r| || !IsQuantifier(r[OpLen(r)]))
    ensures forall m: nat {:trigger Count(r, t, m, ignoreCase)} :: Count(r, t, m, ignoreCase) <==>
      m == 1 && Starts(r[..OpLen(r)], t, ignoreCase)
  {
    hide MatchOp, OpLen;
    if t != "" { assert t[..1] == [t[0]]; }
    assert forall m: nat :: Repeats(r[OpLen(r)..], m) <==> m == 1;
  }

  // An operation without a quantifier.
  lemma PlainStep(r: string, t: string, ignoreCase: bool)
    requires Supported(r) && AtomFirst(r) && (OpLen(r) == |r| || !IsQuantifier(r[OpLen(r)]))
    ensures AfterLen(r) == OpLen(r)
    ensures if t != "" && MatchOp(r, t[0], ignoreCase) > 0 then Left(r, t, AfterLen(r), 1, ignoreCase)
      else Unmatched(r, t, ignoreCase)
  {
    RegularAfter(r);
    if t != "" { SameOp(r, t[0], ignoreCase); }
    hide MatchOp, Regular, Left, Unmatched, OpLen;
    var op := r[..OpLen(r)];
    PlainCount(r, t, ignoreCase);
    if Starts(op, t, ignoreCase) { OneCount(r, t, 1, ignoreCase); } else { NoCount(r, t, ignoreCase); }
  }

  lemma OptionStep(r: string, t: string, ignoreCase: bool)
    requires Supported(r) && AtomFirst(r) && OpLen(r) < |r| && r[OpLen(r)] == '?' && Atom(r[..OpLen(r)])
    ensures AfterLen(r) == OpLen(r) + 1
    ensures Left(r, t, AfterLen(r), if Starts(r[..OpLen(r)], t, ignoreCase) then 1 else 0, ignoreCase)
  {
    RegularAfter(r);
    hide MatchOp, Regular, Left, Unmatched, OpLen;
    var op := r[..OpLen(r)];
    var k: nat := if Starts(op, t, ignoreCase) then 1 else 0;
    forall m: nat ensures Count(r, t, m, ignoreCase) <==> m == k {
      if t != "" { assert t[..1] == [t[0]]; }
    }
    OneCount(r, t, k, ignoreCase);
  }

  lemma CaretStep(r: string, t: string, ignoreCase: bool)
    requires Supported(r) && r != "" && r[0] == '^'
    ensures Regular(r[1..]) && Left(r, t, 1, 0, ignoreCase)
  {
    hide Takes;
    NoCaret(r[1..]);
    assert t[0..] == t;
    forall n: nat ensures SupportedTakes(r[1..], t, n, ignoreCase) == SupportedTakes(r, t, n, ignoreCase) {}
  }

  lemma DollarStep(t: string, ignoreCase: bool)
    ensures if t == "" then Left("$", t, 1, 0, ignoreCase) else Unmatched("$", t, ignoreCase)
  {
    assert "$"[1..] == "";
    if t == "" {
      assert SupportedTakes("", t[0..], 0, ignoreCase);
    }
  }

  // However often op is repeated, the rest of the pattern does not match behind it.
  ghost predicate Hopeless(op: string, plus: bool, rest: string, s: string, ignoreCase: bool)
    requires Atom(op) && Regular(rest)
  {
    forall k: nat {:trigger s[..k]} ::
      k <= |s| && (plus ==> k >= 1) && AllMatch(op, s[..k], ignoreCase) ==> Unmatched(rest, s[k..], ignoreCase)
  }

  // A repeated operation and the rest of the pattern match the first n characters of s.
  ghost predicate Repeated(op: string, plus: bool, rest: string, s: string, n: int, ignoreCase: bool)
    requires Atom(op) && Regular(rest)
  {
    exists k: nat {:trigger SplitAt(op, rest, s, k, n, ignoreCase)} ::
      (plus ==> k >= 1) && SplitAt(op, rest, s, k, n, ignoreCase)
  }

  ghost predicate SplitAt(op: string, rest: string, s: string, k: nat, n: int, ignoreCase: bool)
    requires Atom(op) && Regular(rest)
  { k <= n <= |s| && AllMatch(op, s[..k], ignoreCase) && SupportedTakes(rest, s[k..], n - k, ignoreCase) }

  lemma RepeatStep(r: string, t: string, n: int, ignoreCase: bool)
    requires Supported(r) && AtomFirst(r) && OpLen(r) < |r| && (r[OpLen(r)] == '*' || r[OpLen(r)] == '+')
    requires Atom(r[..OpLen(r)]) && Regular(After(r))
    requires if n >= 0 then Repeated(r[..OpLen(r)], r[OpLen(r)] == '+', After(r), t, n, ignoreCase)
      else Hopeless(r[..OpLen(r)], r[OpLen(r)] == '+', After(r), t, ignoreCase)
    ensures if n >= 0 then SupportedTakes(r, t, n, ignoreCase) else Unmatched(r, t, ignoreCase)
  {
    hide MatchOp, AllMatch, Regular, After, SupportedTakes, OpLen;
    var op, plus := r[..OpLen(r)], r[OpLen(r)] == '+';
    if n >= 0 {
      var k: nat :| (plus ==> k >= 1) && SplitAt(op, After(r), t, k, n, ignoreCase);
      CountTakes(r, t, n - k, k, ignoreCase);
    } else {
      forall m: nat ensures !SupportedTakes(r, t, m, ignoreCase) {
        if SupportedTakes(r, t, m, ignoreCase) { RepeatTakes(r, t, m, ignoreCase); }
      }
    }
  }

  lemma RepeatTakes(r: string, t: string, n: nat, ignoreCase: bool)
    requires Supported(r) && AtomFirst(r) && OpLen(r) < |r| && (r[OpLen(r)] == '*' || r[OpLen(r)] == '+')
    requires Atom(r[..OpLen(r)]) && Regular(After(r)) && SupportedTakes(r, t, n, ignoreCase)
    ensures !Hopeless(r[..OpLen(r)], r[OpLen(r)] == '+', After(r), t, ignoreCase)
  {
    hide MatchOp, AllMatch, Regular, After, SupportedTakes, OpLen;
    var k := TakesCount(r, t, n, ignoreCase);
    assert t[..k] == t[..k];
    assert SupportedTakes(After(r), t[k..], n - k, ignoreCase);
  }

  lemma AtomRegular(op: string)
    requires Atom(op)
    ensures Regular(op) && After(op) == "" && op[..OpLen(op)] == op && op[OpLen(op)..] == ""
  {
    assert op[OpLen(op)..] == "";
  }

  // A pattern that is a single operation.
  lemma AtomAlone(op: string, t: string, ignoreCase: bool)
    requires Atom(op)
    ensures Supported(op)
    ensures forall n: nat :: SupportedTakes(op, t, n, ignoreCase) <==> n == 1 && Starts(op, t, ignoreCase)
  {
    AtomRegular(op);
    hide *;
    assert Supported(op) by { RegularSupported(op); }
    forall n: nat ensures SupportedTakes(op, t, n, ignoreCase) <==> n == 1 && Starts(op, t, ignoreCase) {
      AtomTakes(op, t, n, ignoreCase);
    }
  }

  lemma RegularSupported(re: string)
    requires Regular(re)
    ensures Supported(re)
  {}

  lemma AtomIs(op: string)
    requires Atom(op)
    ensures AtomFirst(op) && OpLen(op) == |op|
  {}

  lemma AtomTakes(op: string, t: string, n: nat, ignoreCase: bool)
    requires Atom(op) && Supported(op)
    ensures SupportedTakes(op, t, n, ignoreCase) <==> n == 1 && Starts(op, t, ignoreCase)
  {
    hide MatchOp, Regular, Starts, Count, SupportedTakes, Takes, After, Supported, AtomFirst, QuantifierLen;
    AtomIs(op);
    AtomRegular(op);
    PlainCount(op, t, ignoreCase);
    if SupportedTakes(op, t, n, ignoreCase) {
      var k := TakesCount(op, t, n, ignoreCase);
      EmptyTakes(t[k..], n - k, ignoreCase);
    }
    if n == 1 && Starts(op, t, ignoreCase) {
      StartsFits(op, t, ignoreCase);
      EmptyTakes(t[1..], 0, ignoreCase);
      CountTakes(op, t, 0, 1, ignoreCase);
    }
  }

  lemma StartsFits(op: string, t: string, ignoreCase: bool)
    requires Atom(op) && Starts(op, t, ignoreCase)
    ensures t != ""
  {}

  lemma EmptyTakes(t: string, n: nat, ignoreCase: bool)
    ensures Regular("") && (SupportedTakes("", t, n, ignoreCase) <==> n == 0)
  {}

  // The operation at i, with the quantifier behind it.
  lemma NextOp(re: string, i: nat)
    requires Supported(re) && i < |re| && (i > 0 ==> Regular(re[i..]))
    ensures !IsQuantifier(re[i]) && Supported(re[i..])
    ensures re[i] == '^' ==> i == 0
    ensures re[i] == '$' ==> re[i..] == "$"
    ensures re[i] == '^' || re[i] == '$' ==> OpLen(re[i..]) == 1 && (i + 1 < |re| ==> !IsQuantifier(re[i + 1]))
    ensures re[i] != '^' && re[i] != '$' ==> AtomFirst(re[i..])
  {
    assert i == 0 ==> re[i..] == re;
    if i > 0 { NoCaret(re[i..]); }
    if re[i] == '^' && |re| > 1 { assert re[1..][0] == re[1]; }
  }

  lemma LeftFails(re: string, s: string, i: nat, j: nat, ignoreCase: bool)
    requires Supported(re) && Left(re, s, i, j, ignoreCase) && Unmatched(re[i..], s[j..], ignoreCase)
    ensures Unmatched(re, s, ignoreCase)
  {}

  lemma LeftFound(re: string, s: string, i: nat, j: nat, n: nat, ignoreCase: bool)
    requires Supported(re) && Left(re, s, i, j, ignoreCase) && SupportedTakes(re[i..], s[j..], n, ignoreCase)
    ensures j + n <= |s| && SupportedTakes(re, s, j + n, ignoreCase)
  {
    hide Takes;
    if re[i..] != "" && re[i] == '^' { TakesFits(re[i..][1..], s[j..], n, ignoreCase); }
      else { TakesFits(re[i..], s[j..], n, ignoreCase); }
  }

  // The operation at i and what follows it.
  lemma Slices(re: string, i: nat)
    requires i < |re| && AtomFirst(re[i..]) && Supported(re[i..])
    ensures var r, step := re[i..], OpLen(re[i..]);
      && i + step <= |re| && r[..step] == re[i..i + step] && Atom(re[i..i + step])
      && (i + step < |re| ==> r[step] == re[i + step])
      && i + step + QuantifierLen(re[i + step..]) == i + AfterLen(r) <= |re| && re[i + AfterLen(r)..] == After(r)
         && Regular(After(r))
  {
    var r, step := re[i..], OpLen(re[i..]);
    RegularAfter(r);
    hide Regular;
    assert r[..step] == re[i..i + step] && r[step..] == re[i + step..];
    assert re[i + AfterLen(r)..] == r[AfterLen(r)..];
  }

  // Matches re at the start of s.
  method Bar(re: string, s: string, ignoreCase: bool) returns (n: int)
    requires Supported(re)
    ensures if n >= 0 then n <= |s| && SupportedTakes(re, s, n, ignoreCase) else Unmatched(re, s, ignoreCase)
    ensures n >= NO_MATCH
    decreases |re|, 1
  {
    hide Takes, SupportedTakes, MatchOp, Regular, Repeated, Unmatched, Left, Hopeless, After, AfterLen;
    var i: nat, j: nat := 0, 0;
    LeftNone(re, s, ignoreCase);
    while i < |re| && j <= |s|
      invariant i <= |re| && j <= |s| && Left(re, s, i, j, ignoreCase) && (i > 0 ==> Regular(re[i..]))
        && (i == 0 ==> j == 0)
      decreases |re| - i
    {
      NextOp(re, i);
      if IsQuantifier(re[i]) { return UNEXPECTED_QUANTIFIER; }
      var step := OpLen(re[i..]);
      ghost var r, t := re[i..], s[j..];
      if AtomFirst(r) { Slices(re, i); }
      if i + step < |re| && IsQuantifier(re[i + step]) {
        if re[i + step] == '?' {
          OptionStep(r, t, ignoreCase);
          AtomAlone(re[i..i + step], t, ignoreCase);
          var result := Bar(re[i..i + step], s[j..], ignoreCase);
          TakenOrNot(re[i..i + step], t, result, ignoreCase);
          LeftTwice(re, s, i, j, step + 1, if result > 0 then result else 0, ignoreCase);
          i, j := i + step + 1, j + if result > 0 then result else 0;
        } else {
          var ni := i + step + QuantifierLen(re[i + step..]);
          ghost var count;
          n, count := Repeat(re[i..i + step], re[i + step] == '+', ni > i + step + 1, re[ni..], s[j..], ignoreCase);
          RepeatStep(r, t, n, ignoreCase);
          if n >= 0 {
            LeftFound(re, s, i, j, n, ignoreCase);
            n := j + n;
          } else {
            LeftFails(re, s, i, j, ignoreCase);
          }
          return;
        }
      } else if re[i] == '^' {
        if j != 0 { return NO_MATCH; }
        CaretStep(r, t, ignoreCase);
        LeftTwice(re, s, i, j, 1, 0, ignoreCase);
        assert r[1..] == re[i + 1..];
        i := i + 1;
      } else if re[i] == '$' {
        DollarStep(t, ignoreCase);
        if j != |s| {
          LeftFails(re, s, i, j, ignoreCase);
          return NO_MATCH;
        }
        LeftTwice(re, s, i, j, 1, 0, ignoreCase);
        assert re[i + 1..] == "";
        EmptyRegular();
        i := i + 1;
      } else {
        PlainStep(r, t, ignoreCase);
        if j >= |s| {
          LeftFails(re, s, i, j, ignoreCase);
          return NO_MATCH;
        }
        n := MatchOp(re[i..], s[j], ignoreCase);
        if n <= 0 {
          LeftFails(re, s, i, j, ignoreCase);
          return;
        }
        LeftTwice(re, s, i, j, step, 1, ignoreCase);
        i, j := i + step, j + n;
      }
    }
    AllDone(re, s, i, j, ignoreCase);
    return j;
  }

  lemma EmptyRegular()
    ensures Regular("")
  {}

  lemma TakenOrNot(op: string, t: string, result: int, ignoreCase: bool)
    requires Atom(op) && Supported(op) && if result >= 0 then SupportedTakes(op, t, result, ignoreCase)
      else Unmatched(op, t, ignoreCase)
    ensures if Starts(op, t, ignoreCase) then result == 1 else result < 0
  {
    AtomAlone(op, t, ignoreCase);
    hide SupportedTakes;
    if result < 0 { assert !SupportedTakes(op, t, 1, ignoreCase); }
  }

  lemma AllDone(re: string, s: string, i: nat, j: nat, ignoreCase: bool)
    requires Supported(re) && Left(re, s, i, j, ignoreCase) && i == |re|
    ensures SupportedTakes(re, s, j, ignoreCase)
  {
    assert SupportedTakes(re[i..], s[j..], 0, ignoreCase);
  }

  lemma NothingMatched(op: string, s: string, ignoreCase: bool)
    requires Atom(op)
    ensures AllMatch(op, s[..0], ignoreCase)
  {}

  lemma NoRest(op: string, s: string, k: nat, ignoreCase: bool)
    requires Atom(op) && k <= |s| && AllMatch(op, s[..k], ignoreCase)
    ensures SplitAt(op, "", s, k, k, ignoreCase)
  {
  }

  // The rest of the pattern does not match behind lo to hi operations.
  ghost predicate Tried(rest: string, s: string, lo: nat, hi: nat, ignoreCase: bool)
    requires Regular(rest)
  { forall k: nat {:trigger s[k..]} :: lo <= k <= hi && k <= |s| ==> Unmatched(rest, s[k..], ignoreCase) }

  lemma TriedNone(rest: string, s: string, lo: nat, ignoreCase: bool)
    requires Regular(rest) && lo > 0
    ensures Tried(rest, s, lo, lo - 1, ignoreCase)
  {}

  lemma TriedMore(rest: string, s: string, lo: nat, m: nat, n: nat, ignoreCase: bool)
    requires Regular(rest) && m <= n <= m + 1 && n <= |s| && Tried(rest, s, lo, m, ignoreCase)
    requires Unmatched(rest, s[n..], ignoreCase)
    ensures Tried(rest, s, lo, n, ignoreCase)
  {
    hide Unmatched;
  }

  // The operation does not match more than m times.
  ghost predicate AtMost(op: string, s: string, m: nat, ignoreCase: bool)
    requires Atom(op)
  { forall k: nat {:trigger s[..k]} :: m < k <= |s| ==> !AllMatch(op, s[..k], ignoreCase) }

  lemma NoFurther(op: string, s: string, m: nat, ignoreCase: bool)
    requires Atom(op) && m <= |s| && !Starts(op, s[m..], ignoreCase)
    ensures AtMost(op, s, m, ignoreCase)
  {
    hide MatchOp;
    forall k: nat | m < k <= |s| ensures !AllMatch(op, s[..k], ignoreCase) { assert s[..k][m] == s[m]; }
  }

  lemma AllTried(op: string, plus: bool, rest: string, s: string, m: nat, ignoreCase: bool)
    requires Atom(op) && Regular(rest) && Tried(rest, s, 1, m, ignoreCase) && AtMost(op, s, m, ignoreCase)
    requires !plus ==> Unmatched(rest, s, ignoreCase)
    ensures Hopeless(op, plus, rest, s, ignoreCase)
  {
    hide AllMatch, Unmatched;
    forall k: nat | k <= |s| && (plus ==> k >= 1)
      && AllMatch(op, s[..k], ignoreCase) ensures Unmatched(rest, s[k..], ignoreCase) {
      if k == 0 { assert s[0..] == s; }
    }
  }

  // One more match of the operation, behind j matches of it.
  method MatchOne(op: string, s: string, j: nat, ignoreCase: bool) returns (n: int)
    requires Atom(op) && j <= |s| && AllMatch(op, s[..j], ignoreCase)
    ensures if n >= 0 then n == 1 && j < |s| && AllMatch(op, s[..j + 1], ignoreCase) else AtMost(op, s, j, ignoreCase)
    decreases |op|, 2
  {
    AtomAlone(op, s[j..], ignoreCase);
    hide MatchOp, Regular, AtMost, SupportedTakes;
    n := Bar(op, s[j..], ignoreCase);
    if n >= 0 {
      assert s[..j + 1] == s[..j] + [s[j]] && s[j..][0] == s[j];
    } else {
      assert !SupportedTakes(op, s[j..], 1, ignoreCase);
      NoFurther(op, s, j, ignoreCase);
    }
  }

  // The rest of the pattern, behind j matches of the operation.
  method MatchRest(op: string, rest: string, s: string, j: nat, ignoreCase: bool) returns (n: int)
    requires Atom(op) && Regular(rest) && j <= |s| && AllMatch(op, s[..j], ignoreCase)
    ensures if n >= 0 then SplitAt(op, rest, s, j, j + n, ignoreCase) else Unmatched(rest, s[j..], ignoreCase)
    decreases |rest|, 2
  {
    hide MatchOp, AllMatch, Unmatched, Regular, SupportedTakes;
    n := Bar(rest, s[j..], ignoreCase);
  }

  // The rest does not match behind any larger number of repetitions, or, if not greedy, behind a smaller one, where
  // none counts as larger than all.
  ghost predicate Chosen(op: string, nonGreedy: bool, rest: string, s: string, count: nat, ignoreCase: bool)
    requires Atom(op) && Regular(rest)
  {
    forall k: nat {:trigger s[..k]} ::
      1 <= k <= |s| && (if nonGreedy && count > 0 then k < count else count < k) && AllMatch(op, s[..k], ignoreCase) ==>
        Unmatched(rest, s[k..], ignoreCase)
  }

  // The rest does not match behind the largest number of repetitions.
  ghost predicate LastFails(op: string, rest: string, s: string, ignoreCase: bool)
    requires Atom(op) && Regular(rest)
  {
    forall m: nat {:trigger s[..m]} ::
      m <= |s| && AllMatch(op, s[..m], ignoreCase) && AtMost(op, s, m, ignoreCase) ==>
        Unmatched(rest, s[m..], ignoreCase)
  }

  // Which number of repetitions is taken. Not greedy: the least one from one on behind which the rest matches, and none
  // only if there is no such number. Greedy: the largest behind which the rest matches. But a star falls back to none
  // where the rest does not match behind the largest number of all and takes something in front of the first.
  ghost predicate Picks(op: string, plus: bool, nonGreedy: bool, rest: string, s: string, count: nat, n: int,
      ignoreCase: bool)
    requires Atom(op) && Regular(rest)
  {
    && (plus ==> count > 0) && SplitAt(op, rest, s, count, n, ignoreCase)
    && (Chosen(op, nonGreedy, rest, s, count, ignoreCase)
        || (!nonGreedy && count == 0 && n > 0 && LastFails(op, rest, s, ignoreCase)))
    && (nonGreedy || plus || count == 0 || AtMost(op, s, count, ignoreCase) || Unmatched(rest, s, ignoreCase)
        || SupportedTakes(rest, s, 0, ignoreCase))
  }

  // Greedy is not longest: in front of "aa" the star of a*a takes nothing, and the whole only the first a.
  lemma StarFallsBack(count: nat, n: int)
    ensures Atom("a") && Regular("a")
    ensures Picks("a", false, false, "a", "aa", count, n, false) <==> count == 0 && n == 1
  {
    LettersMatch();
    AtomRegular("a");
    hide MatchOp, Regular, Supported, SupportedTakes, Atom;
    AllLetters();
    assert AllMatch("a", "aa"[..1], false) && AllMatch("a", "aa"[..2], false);
    LettersAt(0);
    LettersAt(1);
    LettersAt(2);
    assert "aa"[0..] == "aa";
    hide AllMatch, Starts;
    assert SplitAt("a", "a", "aa", count, n, false) ==> count <= 1 && n == count + 1;
    assert !Chosen("a", false, "a", "aa", 0, false);
    assert !AtMost("a", "aa", 1, false);
    LastHere("a", "a", "aa", 2, false);
  }

  lemma AllLetters()
    requires Atom("a") && MatchOp("a", 'a', false) > 0
    ensures forall k: nat :: k <= 2 ==> AllMatch("a", "aa"[..k], false)
    ensures AtMost("a", "aa", 2, false)
  {}

  lemma LettersAt(k: nat)
    requires Atom("a") && Regular("a") && k <= 2
    ensures forall n: nat :: SupportedTakes("a", "aa"[k..], n, false) <==> n == 1 && k < 2
    ensures Unmatched("a", "aa"[k..], false) <==> k == 2
  {
    LettersMatch();
    AtomAlone("a", "aa"[k..], false);
    hide MatchOp, Regular, Atom, SupportedTakes;
    if k < 2 {
      assert "aa"[k..][0] == 'a' && Starts("a", "aa"[k..], false);
      assert SupportedTakes("a", "aa"[k..], 1, false);
    }
  }

  lemma LastHere(op: string, rest: string, s: string, j: nat, ignoreCase: bool)
    requires Atom(op) && Regular(rest) && j <= |s| && AllMatch(op, s[..j], ignoreCase) && AtMost(op, s, j, ignoreCase)
    requires Unmatched(rest, s[j..], ignoreCase)
    ensures LastFails(op, rest, s, ignoreCase)
  {
    hide AllMatch, Unmatched;
    forall m: nat | m <= |s| && AllMatch(op, s[..m], ignoreCase) && AtMost(op, s, m, ignoreCase)
      ensures Unmatched(rest, s[m..], ignoreCase)
    {
      assert m == j;
    }
  }

  lemma ChosenLast(op: string, nonGreedy: bool, rest: string, s: string, count: nat, m: nat, ignoreCase: bool)
    requires Atom(op) && Regular(rest) && (nonGreedy ==> count == 0)
    requires Tried(rest, s, count + 1, m, ignoreCase) && AtMost(op, s, m, ignoreCase)
    ensures Chosen(op, nonGreedy, rest, s, count, ignoreCase)
  {
    hide AllMatch, Unmatched;
    forall k: nat | count < k <= |s| && AllMatch(op, s[..k], ignoreCase)
      ensures Unmatched(rest, s[k..], ignoreCase)
    {
      assert k <= m;
    }
  }

  lemma ChosenLeast(op: string, rest: string, s: string, count: nat, ignoreCase: bool)
    requires Atom(op) && Regular(rest) && count > 0 && Tried(rest, s, 1, count - 1, ignoreCase)
    ensures Chosen(op, true, rest, s, count, ignoreCase)
  {
    hide AllMatch, Unmatched;
    forall k: nat | 1 <= k <= |s| && k < count ensures Unmatched(rest, s[k..], ignoreCase) {}
  }

  // What is found first moves on.
  lemma ChosenFirst(op: string, rest: string, s: string, j1: nat, j2: nat, ignoreCase: bool)
    requires Atom(op) && Regular(rest) && Tried(rest, s, 1, j1, ignoreCase)
    requires j2 == j1 + 1 || (j2 == j1 && AtMost(op, s, j1, ignoreCase))
    ensures Chosen(op, true, rest, s, j2, ignoreCase)
  {
    hide AtMost, Chosen, Unmatched;
    if j2 > 0 { ChosenLeast(op, rest, s, j2, ignoreCase); } else { ChosenLast(op, true, rest, s, 0, 0, ignoreCase); }
  }

  // A star or a plus, with the rest of the pattern after it.
  method Repeat(op: string, plus: bool, nonGreedy: bool, rest: string, s: string, ignoreCase: bool)
      returns (nj: int, ghost count: nat)
    requires Atom(op) && Regular(rest)
    ensures nj >= NO_MATCH
    ensures if nj >= 0 then Repeated(op, plus, rest, s, nj, ignoreCase) else Hopeless(op, plus, rest, s, ignoreCase)
    ensures nj >= 0 ==> Picks(op, plus, nonGreedy, rest, s, count, nj, ignoreCase)
    decreases |op| + |rest|, 3
  {
    hide Regular, Unmatched, AllMatch, Hopeless, Tried, AtMost, SplitAt, AtomFirst, Chosen;
    TriedNone(rest, s, 1, ignoreCase);
    NothingMatched(op, s, ignoreCase);
    var j2: nat, n1, n2 := 0, 0, -1;
    nj, count := 0, 0;
    while true
      invariant j2 <= |s| && nj >= 0 && AllMatch(op, s[..j2], ignoreCase)
      invariant nj > 0 ==> (plus ==> count > 0) && SplitAt(op, rest, s, count, nj, ignoreCase)
      invariant nj == 0 ==> count == 0
      invariant n2 >= 0 && nj == 0 ==> SplitAt(op, rest, s, 0, 0, ignoreCase)
      invariant Tried(rest, s, count + 1, j2, ignoreCase)
      invariant (nonGreedy ==> nj == 0) && (rest == "" ==> nj == j2)
      invariant n1 >= 0
      decreases |s| - j2
    {
      ghost var j1 := j2;
      n1 := MatchOne(op, s, j2, ignoreCase);
      if n1 > 0 {
        j2 := j2 + n1;
      }
      if plus && n1 < 0 { break; }
      if rest == "" {
        nj := j2;
        NoRest(op, s, j2, ignoreCase);
      } else {
        n2 := MatchRest(op, rest, s, j2, ignoreCase);
        if n2 >= 0 {
          nj := j2 + n2;
        } else {
          TriedMore(rest, s, count + 1, j1, j2, ignoreCase);
        }
      }
      if rest == "" || n2 >= 0 {
        if nonGreedy { ChosenFirst(op, rest, s, j1, j2, ignoreCase); }
        count := j2;
        TriedNone(rest, s, j2 + 1, ignoreCase);
      }
      if nj > 0 && nonGreedy { break; }
      if n1 <= 0 { break; }
    }
    nj, count := Conclude(op, plus, nonGreedy, rest, s, j2, nj, count, n1, n2, ignoreCase);
  }

  // A star without any match of its operation, and failure.
  method Conclude(op: string, plus: bool, nonGreedy: bool, rest: string, s: string, ghost j2: nat, found: nat,
      ghost taken: nat, n1: int, n2: int, ignoreCase: bool) returns (nj: int, ghost count: nat)
    requires Atom(op) && Regular(rest) && j2 <= |s| && AllMatch(op, s[..j2], ignoreCase)
    requires found > 0 ==> (plus ==> taken > 0) && SplitAt(op, rest, s, taken, found, ignoreCase)
    requires found > 0 && nonGreedy ==> Chosen(op, true, rest, s, taken, ignoreCase) && (n1 >= 0 || n2 >= 0)
    requires found == 0 || !nonGreedy ==>
      n1 < 0 && AtMost(op, s, j2, ignoreCase) && Tried(rest, s, (if found > 0 then taken else 0) + 1, j2, ignoreCase)
    requires n2 >= 0 && found == 0 ==> SplitAt(op, rest, s, 0, 0, ignoreCase)
    requires !nonGreedy && !plus && found > 0 ==>
      if rest == "" || n2 >= 0 then taken == j2 else Unmatched(rest, s[j2..], ignoreCase)
    ensures if nj >= 0 then Repeated(op, plus, rest, s, nj, ignoreCase) else Hopeless(op, plus, rest, s, ignoreCase)
    ensures nj >= 0 ==> Picks(op, plus, nonGreedy, rest, s, count, nj, ignoreCase)
    ensures nj >= NO_MATCH
    decreases |op| + |rest|, 2
  {
    NothingMatched(op, s, ignoreCase);
    hide Regular, Unmatched, AllMatch, Hopeless, Tried, AtMost, SplitAt, AtomFirst, Chosen, LastFails;
    nj, count := found, if found > 0 then taken else 0;
    if found == 0 || !nonGreedy { ChosenLast(op, nonGreedy, rest, s, count, j2, ignoreCase); }
    var n2 := n2;
    if n1 < 0 && n2 < 0 && !plus {
      n2 := MatchRest(op, rest, s, 0, ignoreCase);
      FromStart(op, rest, s, n2, ignoreCase);
      if n2 > 0 {
        nj, count := n2, 0;
        if found > 0 { LastHere(op, rest, s, j2, ignoreCase); }
      }
    }
    if plus && nj == 0 {
      AllTried(op, plus, rest, s, j2, ignoreCase);
      return NO_MATCH, 0;
    }
    if nj == 0 && rest != "" && n2 < 0 {
      AllTried(op, plus, rest, s, j2, ignoreCase);
      return NO_MATCH, 0;
    }
    if rest == "" { NoRest(op, s, 0, ignoreCase); }
    assert nj == 0 ==> SplitAt(op, rest, s, 0, 0, ignoreCase);
  }

  lemma FromStart(op: string, rest: string, s: string, n: int, ignoreCase: bool)
    requires Atom(op) && Regular(rest)
    requires if n >= 0 then SplitAt(op, rest, s, 0, 0 + n, ignoreCase) else Unmatched(rest, s[0..], ignoreCase)
    ensures if n >= 0 then SupportedTakes(rest, s, n, ignoreCase) else Unmatched(rest, s, ignoreCase)
    ensures rest == "" ==> n <= 0
  {
    hide Unmatched;
    assert s[0..] == s;
  }

  // The pattern itself is the only branch of the outermost bracket.
  method Doh(re: string, s: string, ignoreCase: bool) returns (n: int)
    requires Supported(re)
    ensures if n >= 0 then n <= |s| && SupportedTakes(re, s, n, ignoreCase) else Unmatched(re, s, ignoreCase)
    ensures n >= NO_MATCH
  {
    n := Bar(re, s, ignoreCase);
  }

  // A match of the language that starts at i and ends at n.
  ghost predicate MatchAt(re: string, s: string, i: nat, n: int, ignoreCase: bool)
    requires Supported(re)
  { i <= n <= |s| && SupportedAccepts(re, s[i..n], n == |s|, ignoreCase) && (Anchored(re) ==> i == 0) }

  predicate Anchored(re: string) { re != "" && re[0] == '^' }

  // A match that the matcher may find.
  ghost predicate FoundAt(re: string, s: string, i: nat, n: int, ignoreCase: bool)
    requires Supported(re)
  { i <= n <= |s| && SupportedTakes(re, s[i..], n - i, ignoreCase) && (Anchored(re) ==> i == 0) }

  // No match starts before m.
  ghost predicate NoneBefore(re: string, s: string, m: nat, ignoreCase: bool)
    requires Supported(re)
  { forall i: nat, n {:trigger FoundAt(re, s, i, n, ignoreCase)} :: i < m ==> !FoundAt(re, s, i, n, ignoreCase) }

  ghost predicate Leftmost(re: string, s: string, i: nat, n: int, ignoreCase: bool)
    requires Supported(re)
  { FoundAt(re, s, i, n, ignoreCase) && NoneBefore(re, s, i, ignoreCase) }

  // Every match found is one of the language, and without optional operations every match of the language can be found.
  lemma FoundMatches(re: string, s: string, i: nat, n: int, ignoreCase: bool)
    requires Supported(re)
    ensures FoundAt(re, s, i, n, ignoreCase) ==> MatchAt(re, s, i, n, ignoreCase)
    ensures Steady(re) ==> (FoundAt(re, s, i, n, ignoreCase) <==> MatchAt(re, s, i, n, ignoreCase))
  {
    hide Takes, Accepts, NoOption, Regular, Supported, SupportedTakes, SupportedAccepts, Steady;
    if i <= n <= |s| {
      PartOf(re, s, i, n, ignoreCase);
      var p := if Anchored(re) then re[1..] else re;
      assert s[i..][..n - i] == s[i..n];
      if Takes(p, s[i..], n - i, ignoreCase) { TakesAccepts(p, s[i..], n - i, ignoreCase); }
      if NoOption(p) && Accepts(p, s[i..n], n == |s|, ignoreCase) { AcceptsTakes(p, s[i..], n - i, ignoreCase); }
    }
  }

  lemma PartOf(re: string, s: string, i: nat, n: nat, ignoreCase: bool)
    requires Supported(re) && i <= n <= |s|
    ensures var p := if Anchored(re) then re[1..] else re;
      && Regular(p) && (Steady(re) ==> NoOption(p))
      && SupportedTakes(re, s[i..], n - i, ignoreCase) == Takes(p, s[i..], n - i, ignoreCase)
      && SupportedAccepts(re, s[i..n], n == |s|, ignoreCase) == Accepts(p, s[i..n], n == |s|, ignoreCase)
  {
    hide Takes, Accepts;
  }

  lemma NoneAt(re: string, s: string, m: nat, ignoreCase: bool)
    requires Supported(re) && m <= |s| && NoneBefore(re, s, m, ignoreCase) && Unmatched(re, s[m..], ignoreCase)
    ensures NoneBefore(re, s, m + 1, ignoreCase)
  {
    hide SupportedTakes;
  }

  // The leftmost match that can be found, or none exactly if there is none.
  method Baz(re: string, s: string, ignoreCase: bool) returns (result: int)
    requires Supported(re)
    ensures if result >= 0 then exists i: nat :: Leftmost(re, s, i, result, ignoreCase)
      else result == NO_MATCH && forall i: nat, n :: !FoundAt(re, s, i, n, ignoreCase)
  {
    hide SupportedTakes, Unmatched;
    result := NO_MATCH;
    var isAnchored := re != "" && re[0] == '^';
    for i := 0 to |s| + 1
      invariant result == NO_MATCH && (isAnchored ==> i == 0)
      invariant NoneBefore(re, s, i, ignoreCase)
    {
      result := Doh(re, s[i..], ignoreCase);
      if result >= 0 {
        result := result + i;
        assert Leftmost(re, s, i, result, ignoreCase);
        return;
      }
      NoneAt(re, s, i, ignoreCase);
      if isAnchored { return; }
    }
  }

  // What the first pass over the pattern demands of the escape at its start, if there is one.
  predicate EscapeOk(re: string)
    requires re != ""
  {
    re[0] == '\\' ==>
      && |re| > 1
      && (if re[1] == 'x' then |re| > 3 && IsHex(re[2]) && IsHex(re[3]) else IsMetacharacter(re[1]))
  }

  predicate EscapesOk(re: string)
    decreases |re|
  { re == "" || (EscapeOk(re) && EscapesOk(re[OpLen(re)..])) }

  // Neither brackets nor sets nor alternatives outside of escapes, anchors at the ends only, and each quantifier behind
  // an operation.
  predicate Simple(re: string, first: bool)
    decreases |re|
  {
    if re == "" then true
    else if re[0] == '^' then first && Simple(re[1..], false)
    else if re[0] == '$' then |re| == 1
    else if re[0] in "()[|*+?" then false
    else OpLen(re) <= |re| ==> (var rest := re[OpLen(re)..]; Simple(rest[QuantifierLen(rest)..], false))
  }

  lemma QuantifierEscapes(r: string)
    requires EscapesOk(r)
    ensures EscapesOk(r[QuantifierLen(r)..])
  {
    var q := QuantifierLen(r);
    if q == 2 { assert r[1..][1..] == r[2..]; }
  }

  lemma {:induction false} SimpleRegular(re: string, first: bool)
    requires Simple(re, first) && EscapesOk(re)
    ensures if re != "" && re[0] == '^' then first && Regular(re[1..]) else Regular(re)
    decreases |re|
  {
    if re != "" && re[0] == '^' {
      SimpleRegular(re[1..], false);
    } else if re != "" && re[0] != '$' {
      var rest := re[OpLen(re)..];
      QuantifierEscapes(rest);
      SimpleRegular(rest[QuantifierLen(rest)..], false);
    }
  }

  method Foo(re: string, s: string, ignoreCase: bool) returns (result: int)
    requires Simple(re, true)
    ensures !EscapesOk(re) ==> result == -6
    ensures EscapesOk(re) ==> Supported(re)
    ensures result >= 0 ==> EscapesOk(re) && exists i: nat :: Leftmost(re, s, i, result, ignoreCase)
    ensures result < 0 && EscapesOk(re) ==> result == -1 && forall i: nat, n :: !FoundAt(re, s, i, n, ignoreCase)
  {
    hide Regular, Leftmost, FoundAt, Simple;
    var i := 0;
    while i < |re|
      invariant 0 <= i <= |re| && (EscapesOk(re) <==> EscapesOk(re[i..]))
      decreases |re| - i
    {
      var r := re[i..];
      if re[i] == '\\' {
        if i >= |re| - 1 { return INVALID_METACHARACTER; }
        if re[i + 1] == 'x' {
          if i >= |re| - 3 { return INVALID_METACHARACTER; }
          if !IsHex(re[i + 2]) || !IsHex(re[i + 3]) { return INVALID_METACHARACTER; }
        } else if !IsMetacharacter(re[i + 1]) {
          return INVALID_METACHARACTER;
        }
      }
      assert r[OpLen(r)..] == re[i + OpLen(r)..];
      i := i + OpLen(r);
    }
    assert re[i..] == "";
    SimpleRegular(re, true);
    result := Baz(re, s, ignoreCase);
  }
}
