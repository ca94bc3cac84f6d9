/** Fixed-point numbers of 64 bits, 30 of them after the binary point (Float.h). */
module Float64 {

  const TWO_30 := 0x4000_0000
  const TWO_31 := 0x8000_0000
  const TWO_32 := 0x1_0000_0000
  const TWO_34 := 0x4_0000_0000
  const TWO_62 := 0x4000_0000_0000_0000
  const TWO_63 := 0x8000_0000_0000_0000
  const TWO_64 := 0x1_0000_0000_0000_0000
  const TWO_90 := 0x4_0000_0000 * 0x100_0000_0000_0000

  // The wrap-around of unsigned and of signed 64-bit arithmetic.
  function U64(n: int): int { n % TWO_64 }

  function I64(n: int): int { (n + TWO_63) % TWO_64 - TWO_63 }

  function Abs(n: int): nat { if n < 0 then -n else n }

  // Division that truncates toward zero.
  function Quotient(n: int, d: int): int
    requires d != 0
  { if (n < 0) == (d < 0) then Abs(n) / Abs(d) else -(Abs(n) / Abs(d)) }

  // What is cut off has the sign of n and is less than d.
  lemma Truncates(n: int, d: int)
    requires d != 0
    ensures var rest := n - Quotient(n, d) * d;
      0 - Abs(d) < rest < Abs(d) && (n >= 0 ==> rest >= 0) && (n <= 0 ==> rest <= 0)
  {
    var a, b := Abs(n), Abs(d);
    var q := a / b;
    assert a == q * b + a % b;
    SignedTimes(q, n, d);
  }

  lemma SignedTimes(q: int, n: int, d: int)
    ensures (if (n < 0) == (d < 0) then q else -q) * d == if n < 0 then -(q * Abs(d)) else q * Abs(d)
  {}

  // Wrapping around changes a number by a multiple of 2^64, into the range of 64 bits.
  lemma WrapsAround(n: int)
    ensures 0 <= U64(n) < 0x1_0000_0000_0000_0000 && (n - U64(n)) % 0x1_0000_0000_0000_0000 == 0
    ensures -0x8000_0000_0000_0000 <= I64(n) < 0x8000_0000_0000_0000 && (n - I64(n)) % 0x1_0000_0000_0000_0000 == 0
  {}

  lemma MulBound(x: nat, y: nat, m: nat, n: nat)
    requires x <= m && y <= n
    ensures 0 <= x * y <= m * n
  {
    assert x * y <= m * y <= m * n by { MulMore(y, x, m); MulMore(m, y, n); }
  }

  lemma MulMore(k: nat, x: nat, y: nat)
    requires x <= y
    ensures k * x <= k * y
  {
    assert k * y == k * x + k * (y - x);
  }

  lemma NoWrap(n: int)
    requires 0 <= n < TWO_64
    ensures U64(n) == n
  {
  }

  // Schoolbook multiplication by halves of 32 bits.
  method Mult64to128(op1: int, op2: int) returns (hi: int, lo: int)
    requires 0 <= op1 < TWO_64 && 0 <= op2 < TWO_64
    ensures hi * TWO_64 + lo == op1 * op2 && 0 <= hi < TWO_64 && 0 <= lo < TWO_64
  {
    hide U64;
    var u1, v1 := op1 % TWO_32, op2 % TWO_32;
    var t := U64(u1 * v1);
    var w3, k := t % TWO_32, t / TWO_32;
    var a, b := op1 / TWO_32, op2 / TWO_32;
    t := U64(U64(a * v1) + k);
    k := t % TWO_32;
    var w1 := t / TWO_32;
    t := U64(U64(u1 * b) + k);
    k := t / TWO_32;
    hi := U64(U64(U64(a * b) + w1) + k);
    lo := U64(U64(t * TWO_32) + w3);
    HalvesFit(a, u1, b, v1);
    HalvesMultiply(a, u1, b, v1, op1, op2);
    Columns(u1 * v1, a * v1, u1 * b, a * b);
  }

  // No product and no sum on the way overflows. Only the low word is meant to be cut off.
  lemma SumsFit(uv: nat, av: nat, ub: nat, ab: nat)
    requires var m := (TWO_32 - 1) * (TWO_32 - 1); uv <= m && av <= m && ub <= m && ab <= m
    requires ab * TWO_64 + (av + ub) * TWO_32 + uv < TWO_64 * TWO_64
    ensures var t2 := av + uv / TWO_32;
      var t3 := ub + t2 % TWO_32;
      && U64(uv) == uv && U64(av) == av && U64(ub) == ub && U64(ab) == ab && U64(t2) == t2 && U64(t3) == t3
      && U64(ab + t2 / TWO_32) == ab + t2 / TWO_32 && U64(ab + t2 / TWO_32 + t3 / TWO_32) ==
         ab + t2 / TWO_32 + t3 / TWO_32 < TWO_64
  {
    hide U64;
    NoWrap(uv);
    NoWrap(av);
    NoWrap(ub);
    NoWrap(ab);
    var t2 := av + uv / TWO_32;
    NoWrap(t2);
    var t3 := ub + t2 % TWO_32;
    NoWrap(t3);
    var hi := ab + t2 / TWO_32 + t3 / TWO_32;
    var lo := (t3 % TWO_32) * TWO_32 + uv % TWO_32;
    assert hi * TWO_64 + lo == ab * TWO_64 + (av + ub) * TWO_32 + uv;
    assert hi < TWO_64;
    NoWrap(ab + t2 / TWO_32);
    NoWrap(hi);
  }

  // The columns of the partial products carry what they must.
  lemma Columns(uv: nat, av: nat, ub: nat, ab: nat)
    requires var m := (TWO_32 - 1) * (TWO_32 - 1); uv <= m && av <= m && ub <= m && ab <= m
    requires ab * TWO_64 + (av + ub) * TWO_32 + uv < TWO_64 * TWO_64
    ensures var t1 := U64(uv);
      var t2 := U64(U64(av) + t1 / TWO_32);
      var t3 := U64(U64(ub) + t2 % TWO_32);
      var hi, lo := U64(U64(U64(ab) + t2 / TWO_32) + t3 / TWO_32), U64(U64(t3 * TWO_32) + t1 % TWO_32);
      hi * TWO_64 + lo == ab * TWO_64 + (av + ub) * TWO_32 + uv && 0 <= hi < TWO_64 && 0 <= lo < TWO_64
  {
    hide U64;
    SumsFit(uv, av, ub, ab);
    var t2 := av + uv / TWO_32;
    var t3 := ub + t2 % TWO_32;
    var hi, lo := ab + t2 / TWO_32 + t3 / TWO_32, (t3 % TWO_32) * TWO_32 + uv % TWO_32;
    LowWord(t3, uv % TWO_32);
    assert hi * TWO_64 + lo == ab * TWO_64 + (av + ub) * TWO_32 + uv;
  }

  lemma LowWord(t: nat, w: nat)
    requires w < TWO_32
    ensures U64(U64(t * TWO_32) + w) == (t % TWO_32) * TWO_32 + w
  {
    hide U64;
    var n, k := (t % TWO_32) * TWO_32, t / TWO_32;
    assert t * TWO_32 == k * TWO_64 + n;
    WrapMultiple(n, k);
    NoWrap(n);
    NoWrap(n + w);
  }

  // What the halves of the operands contribute to the product; no sum of them overflows.
  lemma HalvesFit(a: nat, u: nat, b: nat, v: nat)
    requires a < TWO_32 && u < TWO_32 && b < TWO_32 && v < TWO_32
    ensures var m := TWO_32 - 1; u * v <= m * m && a * v <= m * m && u * b <= m * m && a * b <= m * m
    ensures u * v >= 0 && a * v >= 0 && u * b >= 0 && a * b >= 0
  {
    var m := TWO_32 - 1;
    MulBound(u, v, m, m);
    MulBound(a, v, m, m);
    MulBound(u, b, m, m);
    MulBound(a, b, m, m);
  }

  lemma HalvesMultiply(a: nat, u: nat, b: nat, v: nat, x: nat, y: nat)
    requires x == a * TWO_32 + u && y == b * TWO_32 + v
    ensures x * y == a * b * TWO_64 + (a * v + u * b) * TWO_32 + u * v
  {
    calc {
      x * y;
      (a * TWO_32 + u) * y;
      (a * TWO_32) * y + u * y;
      (a * TWO_32) * (b * TWO_32) + (a * TWO_32) * v + u * (b * TWO_32) + u * v;
      a * b * TWO_64 + (a * v) * TWO_32 + (u * b) * TWO_32 + u * v;
    }
  }

  // The range in which the product of two values is computed without 128 bits.
  predicate Small(x: int) { -(TWO_31 - 1) < x < TWO_31 - 1 }

  predicate Int64(x: int) { -TWO_63 <= x < TWO_63 }

  // The product, rounded toward zero, or 0 where it is out of range.
  function Product(x: int, y: int): int
  {
    var p := Abs(x) * Abs(y);
    if p >= TWO_90 then 0 else if (x < 0) != (y < 0) then -(p / TWO_30) else p / TWO_30
  }

  // The exact product of the fixed-point numbers is x * y / 2^30.
  lemma ProductRounds(x: int, y: int)
    ensures var p, rest := x * y, x * y - 0x4000_0000 * Product(x, y);
      if Abs(p) >= 0x4_0000_0000 * 0x100_0000_0000_0000 then Product(x, y) == 0
      else -0x4000_0000 < rest < 0x4000_0000 && (p >= 0 ==> rest >= 0) && (p <= 0 ==> rest <= 0)
  {
    SignedProduct(x, y);
    var q := Abs(x) * Abs(y);
    assert Abs(x * y) == q;
    assert q == 0 ==> Product(x, y) == 0;
    assert q == TWO_30 * (q / TWO_30) + q % TWO_30;
  }

  // operator*: wrong exactly where the fast path meets factors of different signs.
  method Multiply(x: int, y: int) returns (r: int)
    requires Int64(x) && Int64(y)
    ensures r == Product(x, y) <==> !(Small(x) && Small(y) && x * y < 0)
    ensures Small(x) && Small(y) && x * y < 0 ==> r == TWO_34 - 1 - (-(x * y) - 1) / TWO_30
    ensures Int64(r)
  {
    hide U64, I64, Product;
    if Small(x) && Small(y) {
      r := I64(U64(U64(x) * U64(y)) / TWO_30);
      FastProduct(x, y);
    } else {
      var a, b := if x < 0 then U64(-U64(x)) else U64(x), if y < 0 then U64(-U64(y)) else U64(y);
      Magnitude(x);
      Magnitude(y);
      var hi, lo := Mult64to128(a, b);
      ProductBits(x, y, hi, lo);
      if hi >= 0x400_0000 {
        return 0;
      }
      var m := U64(lo / TWO_30 + U64(hi * TWO_34));
      r := I64(if (x < 0) != (y < 0) then U64(-m) else m);
    }
  }

  lemma Magnitude(x: int)
    requires Int64(x)
    ensures (if x < 0 then U64(-U64(x)) else U64(x)) == Abs(x)
  {
    if x < 0 { assert U64(x) == x + TWO_64; }
  }

  // The middle bits of the 128-bit product.
  lemma ProductBits(x: int, y: int, hi: int, lo: int)
    requires hi * TWO_64 + lo == Abs(x) * Abs(y) && 0 <= hi && 0 <= lo < TWO_64
    ensures hi >= 0x400_0000 ==> Product(x, y) == 0
    ensures hi < 0x400_0000 ==>
      var m := U64(lo / TWO_30 + U64(hi * TWO_34));
      I64(if (x < 0) != (y < 0) then U64(-m) else m) == Product(x, y) && Int64(Product(x, y))
  {
    hide U64, I64;
    var p := Abs(x) * Abs(y);
    if hi < 0x400_0000 {
      var m := lo / TWO_30 + hi * TWO_34;
      NoWrap(hi * TWO_34);
      NoWrap(m);
      assert m == p / TWO_30;
      Signed(m);
    }
  }

  lemma Signed(m: int)
    requires 0 <= m < TWO_63
    ensures I64(U64(-m)) == -m && I64(m) == m
  {
  }

  lemma WrappedProduct(x: int, y: int)
    ensures U64(U64(x) * U64(y)) == U64(x * y)
  {
    var p, q := x / TWO_64, y / TWO_64;
    assert x == p * TWO_64 + U64(x) && y == q * TWO_64 + U64(y);
    calc {
      x * y;
      (p * TWO_64 + U64(x)) * y;
      p * TWO_64 * y + U64(x) * (q * TWO_64 + U64(y));
      (p * y + U64(x) * q) * TWO_64 + U64(x) * U64(y);
    }
    WrapMultiple(U64(x) * U64(y), p * y + U64(x) * q);
  }

  lemma WrapMultiple(n: int, k: int)
    ensures U64(k * TWO_64 + n) == U64(n)
  {
    var d := (k * TWO_64 + n) / TWO_64 - (n / TWO_64 + k);
    assert d * TWO_64 == U64(n) - U64(k * TWO_64 + n);
  }

  lemma FastProduct(x: int, y: int)
    requires Small(x) && Small(y)
    ensures var r := I64(U64(U64(x) * U64(y)) / TWO_30);
      Int64(r) && if x * y < 0 then r == TWO_34 - 1 - (-(x * y) - 1) / TWO_30 && r > 0 >= Product(x, y)
        else r == Product(x, y)
  {
    hide U64, I64;
    var m := TWO_31 - 2;
    WrappedProduct(x, y);
    MulBound(Abs(x), Abs(y), m, m);
    SignedProduct(x, y);
    var n := x * y;
    if n < 0 {
      WrapMultiple(TWO_64 + n, -1);
      NoWrap(TWO_64 + n);
      assert (TWO_64 + n) / TWO_30 == TWO_34 - 1 - (-n - 1) / TWO_30;
      Signed((TWO_64 + n) / TWO_30);
    } else {
      NoWrap(n);
      Signed(n / TWO_30);
    }
  }

  lemma SignedProduct(x: int, y: int)
    ensures x * y == if (x < 0) == (y < 0) then Abs(x) * Abs(y) else -(Abs(x) * Abs(y))
  {
  }

  // operator/: a division by zero is 0 where the dividend is small, and undefined otherwise.
  method Divide(x: int, y: int) returns (r: int)
    requires Int64(x) && Int64(y) && (Small(x) || y != 0)
    ensures Small(x) && y == 0 ==> r == 0
    ensures Small(x) && y != 0 ==> r == Quotient(x * TWO_30, y)
    ensures !Small(x) && Abs(Quotient(TWO_62, y)) * Abs(x) < TWO_90 ==>
      Abs(4 * r * y - x * TWO_32) * TWO_30 <= Abs(x) * Abs(y) + (if (x < 0) == (y < 0) then 2 else 3) * Abs(y) * TWO_30
    ensures !Small(x) && Abs(Quotient(TWO_62, y)) * Abs(x) >= TWO_90 ==> r == 0
  {
    if Small(x) {
      if y == 0 {
        return 0;
      }
      r := Quotient(x * TWO_30, y);
    } else {
      var inv := Quotient(TWO_62, y);
      QuotientFits(TWO_62, y);
      var p := Multiply(inv, x);
      r := (p / 2 + 1) / 2;
      if Abs(inv) * Abs(x) < TWO_90 { ReciprocalError(x, y, p, r); }
    }
  }

  lemma QuotientFits(n: int, d: int)
    requires d != 0 && n >= 0
    ensures -n <= Quotient(n, d) <= n
  {
    var q := n / Abs(d);
    assert q * Abs(d) <= n;
    MulMore(q, 1, Abs(d));
  }

  // How far the rounded product with the reciprocal is from the quotient.
  lemma ReciprocalError(x: int, y: int, p: int, r: int)
    requires y != 0 && p == Product(Quotient(TWO_62, y), x) && Abs(Quotient(TWO_62, y)) * Abs(x) < TWO_90
      && r == (p / 2 + 1) / 2
    ensures Abs(4 * r * y - x * TWO_32) * TWO_30 <= Abs(x) * Abs(y) +
      (if (x < 0) == (y < 0) then 2 else 3) * Abs(y) * TWO_30
  {
    var a, b := Abs(x), Abs(y);
    var inv: nat := TWO_62 / b;
    MulBound(inv, a, inv, a);
    var m: nat := (inv * a) / TWO_30;
    var s := if (x < 0) == (y < 0) then 1 else -1;
    ReciprocalBounds(a, b, inv, m);
    ReciprocalProduct(x, y, inv, m);
    SignedError(a, b, s, m, 4 * r - p);
    SignsOff(x, y, s, 4 * r);
  }

  lemma ReciprocalProduct(x: int, y: int, inv: nat, m: nat)
    requires y != 0 && inv == TWO_62 / Abs(y) && m == (inv * Abs(x)) / TWO_30 && inv * Abs(x) < TWO_90
    ensures Product(Quotient(TWO_62, y), x) == if (x < 0) == (y < 0) then m else 0 - m
  {
    assert inv == 0 ==> inv * Abs(x) == 0;
  }

  lemma SignsOff(x: int, y: int, s: int, n: int)
    requires s == if (x < 0) == (y < 0) then 1 else -1
    ensures Abs(n * y - x * TWO_32) == Abs(n * Abs(y) - s * Abs(x) * TWO_32)
  {
    if y < 0 { assert n * y == -(n * Abs(y)); }
  }

  lemma SignedError(a: nat, b: nat, s: int, m: nat, rho: int)
    requires (s == 1 || s == -1) && -1 <= rho <= 2 && 0 <= a * TWO_62 - m * b * TWO_30 <= a * b + b * TWO_30
    ensures Abs((s * m + rho) * b - s * a * TWO_32) * TWO_30 <= a * b + (if s == 1 then 2 else 3) * b * TWO_30
  {
    var mb := m * b;
    assert (s * m + rho) * b == s * mb + rho * b;
    assert rho == -1 || rho == 0 || rho == 1 || rho == 2;
    LinearError(a, b, a * b, s, mb, rho);
  }

  lemma LinearError(a: nat, b: nat, ab: int, s: int, mb: int, rho: int)
    requires (s == 1 || s == -1) && (rho == -1 || rho == 0 || rho == 1 || rho == 2)
    requires 0 <= a * TWO_62 - mb * TWO_30 <= ab + b * TWO_30 && ab >= 0
    ensures Abs(s * mb + rho * b - s * a * TWO_32) * TWO_30 <= ab + (if s == 1 then 2 else 3) * b * TWO_30
  {
  }

  lemma ReciprocalBounds(a: nat, b: nat, inv: nat, m: nat)
    requires b > 0 && inv == TWO_62 / b && m == inv * a / TWO_30
    ensures 0 <= a * TWO_62 - m * b * TWO_30 <= a * b + b * TWO_30
  {
    var e, d := TWO_62 - inv * b, inv * a - m * TWO_30;
    assert 0 <= e < b && 0 <= d < TWO_30;
    calc {
      a * TWO_62 - m * b * TWO_30;
      a * (inv * b + e) - b * (inv * a - d);
      { assert a * (inv * b) == b * (inv * a); }
      a * e + b * d;
    }
    MulMore(a, e, b);
    MulMore(b, d, TWO_30);
    MulBound(a, e, a, e);
    MulBound(b, d, b, d);
  }
}
