/** Base64 (Base64.cpp), against the groups of section 4 of RFC 4648. Characters are their codes. */
module Base64 {

  type Byte = b: nat | b < 256
  type Sextet = k: nat | k < 64

  const PAD: nat := 61

  // All shifts are by an even number of bits.
  predicate Even(n: nat, most: nat) { n <= most && n % 2 == 0 }

  function ShiftedRight(v: nat, n: nat): nat
    requires Even(n, 6)
  { if n == 0 then v else if n == 2 then v / 4 else if n == 4 then v / 16 else v / 64 }

  // The last n bits.
  function Low(v: nat, n: nat): nat
    requires Even(n, 6)
  { if n == 0 then 0 else if n == 2 then v % 4 else if n == 4 then v % 16 else v % 64 }

  function Digit(k: Sextet): (c: nat)
    ensures c < 128 && c != PAD && !IsSpace(c)
  { if k < 26 then 65 + k else if k < 52 then 71 + k else if k < 62 then k - 4 else if k == 62 then 43 else 47 }

  predicate IsSpace(c: nat) { 9 <= c <= 13 || c == 32 }

  // The decoding table, where 255 means that the character is none of the alphabet.
  function Value(c: nat): (k: nat)
    ensures k < 64 || k == 255
  {
    if c == 43 then 62 else if c == 47 then 63 else if 48 <= c <= 57 then c + 4 else if c == PAD then 0
    else if 65 <= c <= 90 then c - 65 else if 97 <= c <= 122 then c - 71 else 255
  }

  lemma ValueOfDigit(k: Sextet)
    ensures Value(Digit(k)) == k
  {}

  // Table 1 of RFC 4648: capital letters, small letters, digits, plus and slash.
  predicate Stands(c: nat, k: Sextet)
  {
    c ==
      if k < 26 then 'A' as int + k else if k < 52 then 'a' as int + (k - 26)
      else if k < 62 then '0' as int + (k - 52) else if k == 62 then '+' as int else '/' as int
  }

  lemma Alphabet(k: Sextet)
    ensures Stands(Digit(k), k) && Value(Digit(k)) == k
  {}

  // A character that is none of them, no padding and no white space ends the input.
  lemma Readable(c: nat)
    ensures Value(c) == 255 <==> c != 61 && forall k: Sextet :: !Stands(c, k)
    ensures IsSpace(c) <==> c == 32 || c == 9 || c == 10 || c == 11 || c == 12 || c == 13
    ensures IsSpace(c) || c == 61 || Value(c) == 255 || Stands(c, Value(c))
  {
    if c != 61 && Value(c) != 255 { assert Stands(c, Value(c)); }
  }

  // Three bytes as four sextets.
  function Group(a: Byte, b: Byte, c: Byte): seq<Sextet>
  { [a / 4, a % 4 * 16 + b / 16, b % 16 * 4 + c / 64, c % 64] }

  // They are the same 24 bits.
  lemma SameBits(a: Byte, b: Byte, c: Byte)
    ensures var k: seq<int> := Group(a, b, c);
      k[0] * 0x4_0000 + k[1] * 0x1000 + k[2] * 0x40 + k[3] == a * 0x1_0000 + b * 0x100 + c
  {}

  function Digits(ks: seq<Sextet>): (cs: seq<nat>)
    ensures |cs| == |ks|
  { seq(|ks|, i requires 0 <= i < |ks| => Digit(ks[i])) }

  function Encoded(s: seq<Byte>): seq<nat> {
    if |s| == 0 then []
    else if |s| == 1 then Digits(Group(s[0], 0, 0)[..2]) + [PAD, PAD]
    else if |s| == 2 then Digits(Group(s[0], s[1], 0)[..3]) + [PAD]
    else Digits(Group(s[0], s[1], s[2])) + Encoded(s[3..])
  }

  // What is out after some bytes: the sextets that are complete.
  function Flushed(s: seq<Byte>): seq<Sextet> {
    if |s| < 3 then Group(Nth(s, 0), Nth(s, 1), 0)[..|s|] else Group(s[0], s[1], s[2]) + Flushed(s[3..])
  }

  function Nth(s: seq<Byte>, i: nat): Byte { if i < |s| then s[i] else 0 }

  // The bits that wait for the next byte, and how many there are.
  function Waiting(s: seq<Byte>): nat {
    if |s| % 3 == 0 then 0 else if |s| % 3 == 1 then s[|s| - 1] % 4 else s[|s| - 1] % 16
  }

  function Rem(n: nat): (r: nat)
    ensures Even(r, 4)
  { 2 * (n % 3) }

  function SextetAt(v: nat, rem: nat): Sextet
    requires Even(rem, 6)
  { ShiftedRight(v, rem) % 64 }

  // The sextets that the accumulator still has to give.
  function Drain(v: nat, rem: nat): seq<Sextet>
    requires Even(rem, 12)
  { if rem < 6 then [] else [SextetAt(v, rem - 6)] + Drain(v, rem - 6) }

  function Appended(v: nat, b: Byte): nat { (v * 256 + b) % 0x1_0000_0000 }

  // Only the low bits of the accumulator matter, so it may wrap around.
  lemma Shifted0(v: nat, b: Byte) returns (q: nat)
    ensures Appended(v, b) == q * 256 + b
  {
    q := v % 0x100_0000;
    var p := v / 0x100_0000;
    assert v * 256 + b == 0x1_0000_0000 * p + (q * 256 + b);
  }

  lemma Shifted2(v: nat, b: Byte) returns (q: nat)
    ensures Appended(v, b) == q * 1024 + v % 4 * 256 + b
  {
    q := v / 4 % 0x40_0000;
    var p := v / 4 / 0x40_0000;
    assert v * 256 + b == 0x1_0000_0000 * p + (q * 1024 + v % 4 * 256 + b);
  }

  lemma Shifted4(v: nat, b: Byte) returns (q: nat)
    ensures Appended(v, b) == q * 4096 + v % 16 * 256 + b
  {
    q := v / 16 % 0x10_0000;
    var p := v / 16 / 0x10_0000;
    assert v * 256 + b == 0x1_0000_0000 * p + (q * 4096 + v % 16 * 256 + b);
  }

  lemma Over4(v: nat, q: nat, r: nat)
    requires v == 4 * q + r && r < 4
    ensures v / 4 == q && v % 4 == r
  {}

  lemma Over16(v: nat, q: nat, r: nat)
    requires v == 16 * q + r && r < 16
    ensures v / 16 == q && v % 16 == r
  {}

  lemma Over64(v: nat, q: nat, r: nat)
    requires v == 64 * q + r && r < 64
    ensures v / 64 == q && v % 64 == r
  {}

  lemma Over256(v: nat, q: nat, r: nat)
    requires v == 256 * q + r && r < 256
    ensures v / 256 == q && v % 256 == r
  {}

  lemma DrainOne(v: nat, rem: nat)
    requires 6 <= rem < 12 && Even(rem, 12)
    ensures Drain(v, rem) == [SextetAt(v, rem - 6)]
  {}

  lemma DrainTwelve(v: nat)
    ensures Drain(v, 12) == [v / 64 % 64, v % 64]
  {
    assert Drain(v, 6) == [v % 64];
  }

  // What a byte adds to the first bytes of its group.
  lemma First(u: nat, a: Byte)
    ensures var v := Appended(u, a); Drain(v, 8) == Group(a, 0, 0)[..1] && v % 4 == a % 4
  {
    var q := Shifted0(u, a);
    hide Appended;
    var v := q * 256 + a;
    DrainOne(v, 8);
    Over4(v, 64 * q + a / 4, a % 4);
    Over64(64 * q + a / 4, q, a / 4);
  }

  lemma Second(u: nat, a: Byte, b: Byte)
    requires u % 4 == a % 4
    ensures var v := Appended(u, b); Drain(v, 10) == Group(a, b, 0)[1..2] && v % 16 == b % 16
    ensures |Group(a, b, 0)| == 4 && |Group(a, 0, 0)| == 4 && Group(a, b, 0)[0] == Group(a, 0, 0)[0]
  {
    var q := Shifted2(u, b);
    hide Appended;
    var v := q * 1024 + a % 4 * 256 + b;
    DrainOne(v, 10);
    Over16(v, 64 * q + (a % 4 * 16 + b / 16), b % 16);
    Over64(64 * q + (a % 4 * 16 + b / 16), q, a % 4 * 16 + b / 16);
  }

  lemma Third(u: nat, a: Byte, b: Byte, c: Byte)
    requires u % 16 == b % 16
    ensures Drain(Appended(u, c), 12) == Group(a, b, c)[2..]
    ensures |Group(a, b, c)| == 4 && |Group(a, b, 0)| == 4 && Group(a, b, c)[..2] == Group(a, b, 0)[..2]
  {
    var q := Shifted4(u, c);
    hide Appended;
    var v := q * 4096 + b % 16 * 256 + c;
    DrainTwelve(v);
    Over64(v, 64 * q + (b % 16 * 4 + c / 64), c % 64);
    Over64(64 * q + (b % 16 * 4 + c / 64), q, b % 16 * 4 + c / 64);
  }

  ghost predicate Takes(s: seq<Byte>, b: Byte, v: nat) {
    var v' := Appended(v, b);
    Flushed(s + [b]) == Flushed(s) + Drain(v', Rem(|s|) + 8) && Low(v', Rem(|s| + 1)) == Waiting(s + [b])
  }

  lemma Taken(s: seq<Byte>, b: Byte, v: nat)
    requires Takes(s, b, v)
    ensures var v' := Appended(v, b);
      Flushed(s + [b]) == Flushed(s) + Drain(v', Rem(|s|) + 8) && Low(v', Rem(|s| + 1)) == Waiting(s + [b])
  {}

  lemma Drained(v: nat, rem: nat)
    requires Even(rem, 12)
    ensures Drain(v, rem) == if rem < 6 then [] else [SextetAt(v, rem - 6)] + Drain(v, rem - 6)
  {}

  lemma TakesFirst(a: Byte, v: nat)
    ensures Takes([], a, v)
  {
    hide Drain, ShiftedRight, Group, Appended;
    First(v, a);
    assert [] + [a] == [a];
    assert Flushed([]) == [];
  }

  lemma TakesSecond(a: Byte, b: Byte, v: nat)
    requires v % 4 == a % 4
    ensures Takes([a], b, v)
  {
    hide Drain, ShiftedRight, Group, Appended;
    Second(v, a, b);
    assert [a] + [b] == [a, b];
    assert Flushed([a]) == [Group(a, 0, 0)[0]];
    assert Flushed([a, b]) == Group(a, b, 0)[..2];
  }

  lemma TakesThird(a: Byte, b: Byte, c: Byte, v: nat)
    requires v % 16 == b % 16
    ensures Takes([a, b], c, v)
  {
    hide Drain, ShiftedRight, Group, Appended;
    Third(v, a, b, c);
    assert [a, b] + [c] == [a, b, c];
    assert Flushed([a, b, c]) == Group(a, b, c) + [];
  }

  lemma EveryThree(s: seq<Byte>)
    requires |s| >= 3
    ensures Rem(|s|) == Rem(|s[3..]|) && Waiting(s) == Waiting(s[3..])
  {}

  lemma TakesAgain(s: seq<Byte>, b: Byte, v: nat)
    requires |s| >= 3 && Takes(s[3..], b, v)
    ensures Takes(s, b, v)
  {
    hide Drain, Low, Group, Appended, Rem, Waiting;
    EveryThree(s);
    EveryThree(s + [b]);
    assert (s + [b])[3..] == s[3..] + [b];
  }

  lemma {:induction false} ByteIn(s: seq<Byte>, b: Byte, v: nat)
    requires Low(v, Rem(|s|)) == Waiting(s)
    ensures Takes(s, b, v)
  {
    hide Takes;
    if |s| >= 3 {
      hide Low, Rem, Waiting;
      EveryThree(s);
      ByteIn(s[3..], b, v);
      TakesAgain(s, b, v);
    } else if |s| == 0 {
      assert s == [];
      TakesFirst(b, v);
    } else if |s| == 1 {
      assert s == [s[0]];
      TakesSecond(s[0], b, v);
    } else {
      assert s == [s[0], s[1]];
      TakesThird(s[0], s[1], b, v);
    }
  }

  lemma Periodic(n: nat)
    requires n >= 3
    ensures (n - 3) % 3 == n % 3 && (n - 2) % 3 == (n + 1) % 3
  {}

  lemma {:induction false} Lengths(s: seq<Byte>)
    ensures |Flushed(s)| == 4 * |s| / 3 && |Encoded(s)| == (|s| + 2) / 3 * 4
  {
    if |s| >= 3 { Lengths(s[3..]); }
  }

  // What is left to write when all bytes are in.
  function Rest(s: seq<Byte>): seq<nat> {
    if |s| % 3 == 0 then [] else if |s| % 3 == 1 then [Digit(Waiting(s) * 16), PAD, PAD]
      else [Digit(Waiting(s) * 4), PAD]
  }

  lemma {:induction false} Completed(s: seq<Byte>)
    ensures Encoded(s) == Digits(Flushed(s)) + Rest(s)
  {
    if |s| >= 3 {
      Completed(s[3..]);
      Periodic(|s|);
    } else if s != [] {
      assert |s| == 1 ==> s == [s[0]];
      assert |s| == 2 ==> s == [s[0], s[1]];
    }
  }

  // The last waiting bits, at the upper end of their sextet.
  function Aligned(v: nat, rem: nat): Sextet
    requires rem == 2 || rem == 4
  { (if rem == 2 then v * 16 else v * 4) % 0x1_0000_0000 % 64 }

  lemma LastBits(v: nat, rem: nat)
    requires rem == 2 || rem == 4
    ensures Aligned(v, rem) == if rem == 2 then v % 4 * 16 else v % 16 * 4
  {
    if rem == 2 { Bits(v * 16, v / 4, v % 4 * 16); } else { Bits(v * 4, v / 16, v % 16 * 4); }
  }

  lemma Bits(x: nat, q: nat, low: nat)
    requires x == 64 * q + low && low < 64
    ensures x % 0x1_0000_0000 % 64 == low
  {
    assert x % 0x1_0000_0000 == x - 64 * (0x400_0000 * (x / 0x1_0000_0000));
  }

  lemma DigitsOfSum(a: seq<Sextet>, b: seq<Sextet>)
    ensures Digits(a + b) == Digits(a) + Digits(b)
  {}

  lemma DigitsOfOne()
    ensures Digits([]) == [] && forall k: Sextet :: Digits([k]) == [Digit(k)]
  {}

  lemma NeverLonger(s: seq<Byte>, i: nat)
    requires i <= |s|
    ensures |Flushed(s[..i])| <= |Encoded(s)|
  {
    Lengths(s);
    Lengths(s[..i]);
  }

  lemma NextRem(n: nat)
    ensures Kept(Rem(n) + 8) == Rem(n + 1) && Rem(n) <= 4
  {}

  lemma Absorbed(input: seq<Byte>, ii: nat, v: nat)
    requires ii < |input| && Keeps(v, input[..ii])
    ensures var v' := Appended(v, input[ii]);
      var drain := Drain(v', Rem(ii) + 8);
      && Digits(Flushed(input[..ii])) + Digits(drain) == Digits(Flushed(input[..ii + 1]))
      && |Digits(Flushed(input[..ii]))| + |drain| <= |Encoded(input)|
      && Keeps(v', input[..ii + 1]) && Kept(Rem(ii) + 8) == Rem(ii + 1)
  {
    hide Drain, Flushed, Encoded, ShiftedRight, Low, Waiting, Digit, Appended, Takes, Digits, Rem;
    ByteIn(input[..ii], input[ii], v);
    Taken(input[..ii], input[ii], v);
    assert input[..ii] + [input[ii]] == input[..ii + 1];
    DigitsOfSum(Flushed(input[..ii]), Drain(Appended(v, input[ii]), Rem(ii) + 8));
    NeverLonger(input, ii + 1);
    NextRem(ii);
  }

  ghost predicate Keeps(v: nat, s: seq<Byte>) { Low(v, Rem(|s|)) == Waiting(s) }

  function Kept(bits: nat): nat { bits % 6 }

  lemma KeptIs(bits: nat)
    ensures Kept(bits) == if bits < 6 then bits else Kept(bits - 6)
  {}

  // Writes all sextets that are complete, or fails for want of room.
  method Flush(v: nat, bits: nat, out: array<nat>, at: nat) returns (ok: bool, io: nat, rem: nat)
    requires at <= out.Length && Even(bits, 12)
    modifies out
    ensures ok == (at + |Drain(v, bits)| <= out.Length)
    ensures ok ==> rem == Kept(bits) && io <= out.Length && out[..io] == old(out[..at]) + Digits(Drain(v, bits))
  {
    hide SextetAt, Digit, Digits, Drain, Kept;
    DigitsOfOne();
    rem := bits;
    io := at;
    Drained(v, rem);
    while rem >= 6
      invariant Even(rem, 12) && Kept(rem) == Kept(bits) && io <= out.Length
        && io + |Drain(v, rem)| == at + |Drain(v, bits)|
      invariant out[..io] + Digits(Drain(v, rem)) == old(out[..at]) + Digits(Drain(v, bits))
    {
      Drained(v, rem);
      KeptIs(rem);
      DigitsOfSum([SextetAt(v, rem - 6)], Drain(v, rem - 6));
      rem := rem - 6;
      if io >= out.Length { return false, io, rem; }
      out[io] := Digit(SextetAt(v, rem));
      io := io + 1;
    }
    Drained(v, rem);
    KeptIs(rem);
    ok := true;
  }

  // The last bits, the padding and the terminator.
  method Finish(v: nat, rem: nat, out: array<nat>, at: nat, ghost input: seq<Byte>) returns (r: int)
    requires at <= out.Length && rem == Rem(|input|) && Keeps(v, input) && out[..at] == Digits(Flushed(input))
    modifies out
    ensures if out.Length <= |Encoded(input)| then r == -1
      else r == |Encoded(input)| && out[..r] == Encoded(input) && out[r] == 0
  {
    Lengths(input);
    Completed(input);
    assert rem != 0 ==> rem == 2 || rem == 4;
    hide Drain, Flushed, Encoded, ShiftedRight, Low, Waiting, Digit, Digits, Aligned;
    var io := at;
    if rem != 0 {
      LastBits(v, rem);
      if io >= out.Length { return -1; }
      out[io] := Digit(Aligned(v, rem));
      io := io + 1;
    }
    r := Terminate(out, io, Encoded(input));
  }

  method Terminate(out: array<nat>, at: nat, ghost whole: seq<nat>) returns (r: int)
    requires at <= out.Length && at <= |whole| < at + 4 && |whole| % 4 == 0
    requires out[..at] == whole[..at] && forall i :: at <= i < |whole| ==> whole[i] == PAD
    modifies out
    ensures if out.Length <= |whole| then r == -1 else r == |whole| && out[..r] == whole && out[r] == 0
  {
    var io := at;
    while io % 4 != 0
      invariant at <= io <= out.Length && io <= |whole| && out[..io] == whole[..io]
      decreases |whole| - io
    {
      if io >= out.Length { return -1; }
      out[io] := PAD;
      io := io + 1;
    }
    assert io == |whole|;
    if io >= out.Length { return -1; }
    out[io] := 0;
    return io;
  }

  lemma NothingYet()
    ensures Keeps(0, []) && Rem(0) == 0 && Flushed([]) == [] && Digits([]) == []
  {}

  method Encode(input: seq<Byte>, out: array<nat>) returns (r: int)
    modifies out
    ensures if out.Length <= |Encoded(input)| then r == -1
      else r == |Encoded(input)| && out[..r] == Encoded(input) && out[r] == 0
  {
    NothingYet();
    hide Drain, Flushed, Encoded, ShiftedRight, Low, Waiting, Digit, Appended, Takes, Digits, Rem, Keeps, Kept;
    var io: nat, v: nat, rem: nat, ok := 0, 0, 0, true;
    for ii := 0 to |input|
      invariant rem == Rem(ii) && Keeps(v, input[..ii])
      invariant io <= out.Length && out[..io] == Digits(Flushed(input[..ii]))
    {
      Absorbed(input, ii, v);
      v := Appended(v, input[ii]);
      rem := rem + 8;
      ok, io, rem := Flush(v, rem, out, io);
      if !ok { return -1; }
    }
    assert input[..|input|] == input;
    r := Finish(v, rem, out, io, input);
  }

  // The sextets up to the first character that is no white space and not in the alphabet.
  function Values(cs: seq<nat>): seq<Sextet> {
    if cs == [] then []
    else if IsSpace(cs[0]) then Values(cs[1..])
    else if cs[0] == PAD || Value(cs[0]) == 255 then []
    else [Value(cs[0])] + Values(cs[1..])
  }

  function Upper(k: Sextet, l: Sextet): Byte { k * 4 + l / 16 }
  function Middle(k: Sextet, l: Sextet): Byte { k % 16 * 16 + l / 4 }
  function Lower(k: Sextet, l: Sextet): Byte { k % 4 * 64 + l }

  // The bytes that are complete in some sextets.
  function Bytes(ks: seq<Sextet>): seq<Byte> {
    if |ks| < 2 then []
    else if |ks| == 2 then [Upper(ks[0], ks[1])]
    else if |ks| == 3 then [Upper(ks[0], ks[1]), Middle(ks[1], ks[2])]
    else [Upper(ks[0], ks[1]), Middle(ks[1], ks[2]), Lower(ks[2], ks[3])] + Bytes(ks[4..])
  }

  function Decoded(cs: seq<nat>): seq<Byte> { Bytes(Values(cs)) }

  // White space between the characters is skipped.
  lemma {:induction false} SpaceSkipped(a: seq<nat>, c: nat, b: seq<nat>)
    requires c in [32, 9, 10, 11, 12, 13]
    ensures Decoded(a + [c] + b) == Decoded(a + b)
  {
    ValuesSkip(a, c, b);
    hide Values, Bytes;
  }

  lemma {:induction false} ValuesSkip(a: seq<nat>, c: nat, b: seq<nat>)
    requires IsSpace(c)
    ensures Values(a + [c] + b) == Values(a + b)
  {
    if a == [] {
      assert a + [c] + b == [c] + b && a + b == b && ([c] + b)[1..] == b;
    } else {
      assert (a + [c] + b)[1..] == a[1..] + [c] + b && (a + b)[1..] == a[1..] + b;
      ValuesSkip(a[1..], c, b);
    }
  }

  // Padding, or any other character outside the alphabet, ends the input.
  lemma OtherStops(a: seq<nat>, c: nat, b: seq<nat>)
    requires c !in [32, 9, 10, 11, 12, 13] && forall k: Sextet :: !Stands(c, k)
    ensures Decoded(a + [c] + b) == Decoded(a)
  {
    Readable(c);
    ValuesStop(a, c, b);
    hide Values, Bytes;
  }

  lemma {:induction false} ValuesStop(a: seq<nat>, c: nat, b: seq<nat>)
    requires !IsSpace(c) && (c == PAD || Value(c) == 255)
    ensures Values(a + [c] + b) == Values(a)
  {
    if a == [] {
      assert (a + [c] + b)[0] == c;
    } else {
      assert (a + [c] + b)[1..] == a[1..] + [c] + b;
      ValuesStop(a[1..], c, b);
    }
  }

  lemma {:induction false} ValuesOfDigits(ks: seq<Sextet>, rest: seq<nat>)
    ensures Values(Digits(ks) + rest) == ks + Values(rest)
  {
    var cs := Digits(ks) + rest;
    if ks == [] {
      assert cs == rest;
    } else {
      ValueOfDigit(ks[0]);
      assert cs[1..] == Digits(ks[1..]) + rest;
      ValuesOfDigits(ks[1..], rest);
      assert cs[0] == Digit(ks[0]);
    }
  }

  lemma GroupBack(a: Byte, b: Byte, c: Byte)
    ensures var k := Group(a, b, c);
      |k| == 4 && Upper(k[0], k[1]) == a && Middle(k[1], k[2]) == b && Lower(k[2], k[3]) == c
  {
    assert a == 4 * (a / 4) + a % 4 && b == 16 * (b / 16) + b % 16 && c == 64 * (c / 64) + c % 64;
  }

  // Decoding takes back what encoding does.
  lemma {:induction false} RoundTrip(s: seq<Byte>)
    ensures Decoded(Encoded(s)) == s
  {
    hide Group, Upper, Middle, Lower, Digit, Digits;
    if |s| == 0 {
    } else if |s| == 1 {
      GroupBack(s[0], 0, 0);
      ValuesOfDigits(Group(s[0], 0, 0)[..2], [PAD, PAD]);
    } else if |s| == 2 {
      GroupBack(s[0], s[1], 0);
      ValuesOfDigits(Group(s[0], s[1], 0)[..3], [PAD]);
    } else {
      GroupBack(s[0], s[1], s[2]);
      var g := Group(s[0], s[1], s[2]);
      ValuesOfDigits(g, Encoded(s[3..]));
      assert (g + Values(Encoded(s[3..])))[4..] == Values(Encoded(s[3..]));
      RoundTrip(s[3..]);
    }
  }

  // The bits of an incomplete byte, and how many there are.
  function Partial(ks: seq<Sextet>): nat {
    var j := |ks| % 4;
    if j == 0 then 0
    else if j == 1 then ks[|ks| - 1] % 64
    else if j == 2 then ks[|ks| - 1] % 16
    else ks[|ks| - 1] % 4
  }

  function Count(n: nat): (c: nat)
    ensures Even(c, 6)
  { (8 - 2 * (n % 4)) % 8 }

  function Joined(v: nat, k: Sextet): nat { (v * 64 + k) % 0x1_0000_0000 }

  function Emitted(v: nat, bits: nat): seq<Byte>
    requires Even(bits, 14)
  { if bits < 8 then [] else [ShiftedRight(v, bits - 8) % 256] }

  ghost predicate Joins(ks: seq<Sextet>, k: Sextet, v: nat) {
    var v', bits := Joined(v, k), Count(|ks|) + 6;
    && Bytes(ks + [k]) == Bytes(ks) + Emitted(v', bits)
    && Low(v', Count(|ks| + 1)) == Partial(ks + [k]) && Count(|ks| + 1) == if bits < 8 then bits else bits - 8
  }

  lemma Joined6(v: nat, k: Sextet) returns (q: nat)
    ensures Joined(v, k) == q * 4096 + v % 64 * 64 + k
  {
    q := v / 64 % 0x10_0000;
    var p := v / 64 / 0x10_0000;
    assert v * 64 + k == 0x1_0000_0000 * p + (q * 4096 + v % 64 * 64 + k);
  }

  lemma Joined4(v: nat, k: Sextet) returns (q: nat)
    ensures Joined(v, k) == q * 1024 + v % 16 * 64 + k
  {
    q := v / 16 % 0x40_0000;
    var p := v / 16 / 0x40_0000;
    assert v * 64 + k == 0x1_0000_0000 * p + (q * 1024 + v % 16 * 64 + k);
  }

  lemma Joined2(v: nat, k: Sextet) returns (q: nat)
    ensures Joined(v, k) == q * 256 + v % 4 * 64 + k
  {
    q := v / 4 % 0x100_0000;
    var p := v / 4 / 0x100_0000;
    assert v * 64 + k == 0x1_0000_0000 * p + (q * 256 + v % 4 * 64 + k);
  }

  lemma UpperOut(u: nat, k: Sextet, l: Sextet)
    requires u % 64 == k
    ensures var v := Joined(u, l); Emitted(v, 12) == [Upper(k, l)] && v % 16 == l % 16
  {
    var q := Joined6(u, l);
    hide Joined;
    var v := q * 4096 + k * 64 + l;
    Over16(v, 256 * q + (k * 4 + l / 16), l % 16);
    Over256(256 * q + (k * 4 + l / 16), q, k * 4 + l / 16);
  }

  lemma MiddleOut(u: nat, k: Sextet, l: Sextet)
    requires u % 16 == k % 16
    ensures var v := Joined(u, l); Emitted(v, 10) == [Middle(k, l)] && v % 4 == l % 4
  {
    var q := Joined4(u, l);
    hide Joined;
    var v := q * 1024 + k % 16 * 64 + l;
    Over4(v, 256 * q + (k % 16 * 16 + l / 4), l % 4);
    Over256(256 * q + (k % 16 * 16 + l / 4), q, k % 16 * 16 + l / 4);
  }

  lemma LowerOut(u: nat, k: Sextet, l: Sextet)
    requires u % 4 == k % 4
    ensures Emitted(Joined(u, l), 8) == [Lower(k, l)]
  {
    var q := Joined2(u, l);
    hide Joined;
    Over256(q * 256 + k % 4 * 64 + l, q, k % 4 * 64 + l);
  }

  lemma Joins0(k: Sextet, v: nat)
    ensures Joins([], k, v)
  {
    var q := Joined6(v, k);
    assert Joined(v, k) == 64 * (64 * q + v % 64) + k;
    assert [] + [k] == [k];
  }

  lemma Joins1(k: Sextet, l: Sextet, v: nat)
    requires v % 64 == k
    ensures Joins([k], l, v)
  {
    hide Upper, Joined, Emitted, ShiftedRight;
    UpperOut(v, k, l);
    assert [k] + [l] == [k, l];
  }

  lemma Joins2(j: Sextet, k: Sextet, l: Sextet, v: nat)
    requires v % 16 == k % 16
    ensures Joins([j, k], l, v)
  {
    hide Upper, Middle, Joined, Emitted, ShiftedRight;
    MiddleOut(v, k, l);
    assert [j, k] + [l] == [j, k, l];
  }

  lemma Joins3(i: Sextet, j: Sextet, k: Sextet, l: Sextet, v: nat)
    requires v % 4 == k % 4
    ensures Joins([i, j, k], l, v)
  {
    hide Upper, Middle, Lower, Joined, Emitted, ShiftedRight;
    LowerOut(v, k, l);
    assert [i, j, k] + [l] == [i, j, k, l];
    assert Bytes([i, j, k, l]) == [Upper(i, j), Middle(j, k), Lower(k, l)] + [];
  }

  lemma EveryFour(ks: seq<Sextet>)
    requires |ks| >= 4
    ensures Count(|ks|) == Count(|ks[4..]|) && Partial(ks) == Partial(ks[4..])
  {}

  lemma {:induction false} SextetIn(ks: seq<Sextet>, k: Sextet, v: nat)
    requires Low(v, Count(|ks|)) == Partial(ks)
    ensures Joins(ks, k, v)
  {
    hide Joins;
    if |ks| >= 4 {
      hide Low, Partial;
      EveryFour(ks);
      SextetIn(ks[4..], k, v);
      JoinsAgain(ks, k, v);
    } else if |ks| == 0 {
      assert ks == [];
      Joins0(k, v);
    } else if |ks| == 1 {
      assert ks == [ks[0]];
      Joins1(ks[0], k, v);
    } else if |ks| == 2 {
      assert ks == [ks[0], ks[1]];
      Joins2(ks[0], ks[1], k, v);
    } else {
      assert ks == [ks[0], ks[1], ks[2]];
      Joins3(ks[0], ks[1], ks[2], k, v);
    }
  }

  lemma JoinsAgain(ks: seq<Sextet>, k: Sextet, v: nat)
    requires |ks| >= 4 && Joins(ks[4..], k, v)
    ensures Joins(ks, k, v)
  {
    EveryFour(ks);
    EveryFour(ks + [k]);
    hide Upper, Middle, Lower, Joined, Emitted, Low, Partial, Count;
    assert (ks + [k])[4..] == ks[4..] + [k];
    assert Bytes(ks + [k]) == Bytes(ks) + Emitted(Joined(v, k), Count(|ks|) + 6);
  }

  lemma {:induction false} BytesLength(ks: seq<Sextet>)
    ensures |Bytes(ks)| == 3 * |ks| / 4
  {
    if |ks| >= 4 { BytesLength(ks[4..]); }
  }

  lemma NeverMore(ks: seq<Sextet>, more: seq<Sextet>)
    ensures |Bytes(ks)| <= |Bytes(ks + more)|
  {
    BytesLength(ks);
    BytesLength(ks + more);
  }

  // What one character brings.
  lemma NextValue(cs: seq<nat>, i: nat)
    requires i < |cs|
    ensures var more := Values(cs[i + 1..]);
      Values(cs[i..]) == if IsSpace(cs[i]) then more else if cs[i] == PAD || Value(cs[i]) == 255 then []
        else [Value(cs[i])] + more
  { assert cs[i..][1..] == cs[i + 1..]; }

  ghost predicate Holds(v: nat, ks: seq<Sextet>) { Low(v, Count(|ks|)) == Partial(ks) }

  function ByteAt(v: nat, rem: nat): Byte
    requires Even(rem, 6)
  { ShiftedRight(v, rem) % 256 }

  lemma Digested(ks: seq<Sextet>, k: Sextet, more: seq<Sextet>, v: nat)
    requires Holds(v, ks)
    ensures var v', bits := Joined(v, k), Count(|ks|) + 6;
      && Bytes(ks + [k]) == Bytes(ks) + Emitted(v', bits) && |Bytes(ks + [k])| <= |Bytes(ks + ([k] + more))|
      && Holds(v', ks + [k]) && Count(|ks| + 1) == if bits < 8 then bits else bits - 8
  {
    hide Bytes, Emitted, ShiftedRight, Low, Partial, Joined, Count;
    SextetIn(ks, k, v);
    NeverMore(ks + [k], more);
    assert ks + [k] + more == ks + ([k] + more);
  }

  lemma EmittedIs(v: nat, bits: nat)
    requires Even(bits, 14)
    ensures Emitted(v, bits) == if bits < 8 then [] else [ByteAt(v, bits - 8)]
  {}

  lemma NothingRead()
    ensures Holds(0, []) && Count(0) == 0 && Bytes([]) == [] && Values([]) == []
  {}

  // The decoding table is for characters that are unsigned bytes.
  method Decode(input: seq<nat>, out: array<nat>) returns (r: int)
    requires forall i :: 0 <= i < |input| ==> input[i] < 256
    modifies out
    ensures if out.Length < |Decoded(input)| then r == -1 else r == |Decoded(input)| && out[..r] == Decoded(input)
  {
    NothingRead();
    hide Bytes, Emitted, ShiftedRight, Low, Partial, Joined, Count, Value, Values, Holds, ByteAt;
    var io: nat, v: nat, rem: nat := 0, 0, 0;
    ghost var ks: seq<Sextet> := [];
    assert input[0..] == input;
    var ii := 0;
    while ii < |input|
      invariant ii <= |input| && Values(input) == ks + Values(input[ii..])
      invariant rem == Count(|ks|) && Holds(v, ks)
      invariant io <= out.Length && out[..io] == Bytes(ks)
    {
      NextValue(input, ii);
      if IsSpace(input[ii]) { ii := ii + 1; continue; }
      if input[ii] == PAD { break; }
      var ch := Value(input[ii]);
      if ch == 255 { break; }
      Digested(ks, ch, Values(input[ii + 1..]), v);
      v := Joined(v, ch);
      rem := rem + 6;
      EmittedIs(v, rem);
      if rem >= 8 {
        rem := rem - 8;
        if io >= out.Length { return -1; }
        out[io] := ByteAt(v, rem);
        io := io + 1;
      }
      ks := ks + [ch];
      ii := ii + 1;
    }
    // Fewer than eight bits are left, which are no byte.
    assert input[|input|..] == [];
    assert Values(input) == ks;
    return io;
  }
}
