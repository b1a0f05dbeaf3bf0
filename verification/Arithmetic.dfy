/** Products, quotients and truncation, one fact at a time. */
module Arithmetic {
  // ---------------------------------------------------------------- integer products

  lemma Distribute(a: int, b: int, c: int)
    ensures (a + b) * c == a * c + b * c
  {
  }

  lemma Reassociate(a: int, b: int, c: int)
    ensures a * (b * c) == (a * b) * c
  {
  }

  lemma NegateBoth(a: int, b: int)
    ensures (-a) * (-b) == a * b
  {
  }

  lemma ProductNotNegative(a: int, b: int)
    requires a >= 0 && b >= 0
    ensures a * b >= 0
  {
  }

  /** Between two multiples of c there is room for c. */
  lemma MulGap(a: int, b: int, c: int)
    requires a < b && c >= 0
    ensures a * c + c <= b * c
  {
    var k := b - a - 1;
    ProductNotNegative(k, c);
    Distribute(a + 1, k, c);
    Distribute(a, 1, c);
    assert a + 1 + k == b && 1 * c == c;
  }

  // ---------------------------------------------------------------- quotients and remainders

  function Abs(n: int): nat {
    if n < 0 then -n else n
  }

  lemma SameQuotient(p: int, m: int, q: int, r: int, c: int)
    requires c > 0 && p * c + m == q * c + r && 0 <= m < c && 0 <= r < c
    ensures p == q && m == r
  {
    if p < q { MulGap(p, q, c); }
    if q < p { MulGap(q, p, c); }
  }

  lemma DivMod(x: int, c: int)
    requires c != 0
    ensures x == (x / c) * c + x % c && 0 <= x % c < Abs(c)
  {
  }

  /** Quotient and remainder are the only ones. */
  lemma Quotient(x: int, c: int, q: int, r: int)
    requires c != 0 && x == q * c + r && 0 <= r < Abs(c)
    ensures x / c == q && x % c == r
  {
    DivMod(x, c);
    UniqueQuotient(x / c, x % c, q, r, c);
  }

  lemma UniqueQuotient(p: int, m: int, q: int, r: int, c: int)
    requires c != 0 && p * c + m == q * c + r && 0 <= m < Abs(c) && 0 <= r < Abs(c)
    ensures p == q && m == r
  {
    NegateBoth(p, c);
    NegateBoth(q, c);
    if c > 0 { SameQuotient(p, m, q, r, c); } else { SameQuotient(-p, m, -q, r, -c); }
  }

  lemma SmallRemainder(x: int, c: int)
    requires 0 <= x < c
    ensures x / c == 0 && x % c == x
  {
    Quotient(x, c, 0, x);
  }

  lemma QuotientShift(k: int, m: int, c: int)
    requires c > 0
    ensures (k + m * c) / c == k / c + m && (k + m * c) % c == k % c
  {
    DivMod(k, c);
    Distribute(k / c, m, c);
    Quotient(k + m * c, c, k / c + m, k % c);
  }

  /** The multiples of c, zero's being zero alone. */
  predicate Divides(c: int, n: int) {
    if c == 0 then n == 0 else n % c == 0
  }

  lemma DividesExactly(c: int, n: int) returns (k: int)
    requires Divides(c, n)
    ensures n == k * c
  {
    if c == 0 {
      k := 0;
    } else {
      k := n / c;
      DivMod(n, c);
    }
  }

  lemma MultipleIsDivided(k: int, c: int)
    ensures Divides(c, k * c)
  {
    if c != 0 { Quotient(k * c, c, k, 0); }
  }

  lemma DividesSum(k: int, c: int, n: int)
    ensures Divides(c, k * c + n) <==> Divides(c, n)
  {
    if Divides(c, n) {
      var m := DividesExactly(c, n);
      Distribute(k, m, c);
      MultipleIsDivided(k + m, c);
    }
    if Divides(c, k * c + n) {
      var m := DividesExactly(c, k * c + n);
      Distribute(m, -k, c);
      Distribute(k, -k, c);
      MultipleIsDivided(m - k, c);
    }
  }

  /** Two multiples of c less than one c apart in one direction are in order. */
  lemma MultiplesInOrder(a: int, b: int, c: int)
    requires c != 0 && Divides(c, a) && Divides(c, b) && a > b - Abs(c)
    ensures a >= b
  {
    var k := DividesExactly(c, a);
    var m := DividesExactly(c, b);
    NegateBoth(k, c);
    NegateBoth(m, c);
    if c > 0 {
      if k < m { MulGap(k, m, c); } else if m < k { MulGap(m, k, c); }
    } else {
      if -k < -m { MulGap(-k, -m, -c); } else if -m < -k { MulGap(-m, -k, -c); }
    }
  }

  // ---------------------------------------------------------------- truncation

  /** Go's conversion of a float to an int: towards zero. */
  function Trunc(x: real): int {
    if x >= 0.0 then x.Floor else -(-x).Floor
  }

  lemma TruncOfInt(n: int)
    ensures Trunc(n as real) == n
  {
  }

  lemma TruncBounds(x: real)
    ensures x >= 0.0 ==> 0.0 <= Trunc(x) as real <= x < Trunc(x) as real + 1.0
    ensures x <= 0.0 ==> Trunc(x) as real - 1.0 < x <= Trunc(x) as real <= 0.0
  {
  }

  lemma TruncIsOdd(x: real)
    ensures Trunc(-x) == -Trunc(x)
  {
  }

  // ---------------------------------------------------------------- real products and quotients

  lemma RealProductPositive(a: real, s: real)
    requires a >= 0.0 && s > 0.0
    ensures a * s >= 0.0 && (a > 0.0 ==> a * s > 0.0)
  {
  }

  lemma RealSum(a: real, b: real, d: real, s: real)
    requires b == a + d
    ensures b * s == a * s + d * s
  {
  }

  lemma RealMonotone(a: real, b: real, s: real)
    requires a <= b && s > 0.0
    ensures a * s <= b * s && (a < b ==> a * s < b * s)
  {
    var d := b - a;
    RealProductPositive(d, s);
    RealSum(a, b, d, s);
  }

  lemma ProductAsReal(a: int, b: int)
    ensures (a * b) as real == a as real * b as real
  {
  }

  lemma QuotientTimes(v: real, s: real)
    requires s != 0.0
    ensures (v / s) * s == v
  {
  }

  lemma QuotientOf(x: real, v: real, s: real)
    requires s != 0.0 && x * s == v
    ensures v / s == x
  {
  }

  lemma QuotientNegates(v: real, s: real)
    requires s != 0.0
    ensures (-v) / s == -(v / s) && v / (-s) == -(v / s)
  {
  }

  lemma FactorNotNegative(x: real, s: real)
    requires s > 0.0 && x * s >= 0.0
    ensures x >= 0.0
  {
    if x < 0.0 { RealMonotone(x, 0.0, s); }
  }

  lemma RealSuccessor(q: real, u: real, s: real)
    requires u == q + 1.0
    ensures u * s == q * s + s
  {
    RealSum(q, u, 1.0, s);
  }

  /** A number and its truncation, both scaled by s. */
  lemma Scaled(q: real, x: real, s: real, v: real, w: real)
    requires s > 0.0 && 0.0 <= q <= x < q + 1.0 && x * s == v && q * s == w
    ensures 0.0 <= w <= v < w + s
  {
    ScaledFrom(q, x, q + 1.0, s);
  }

  lemma ScaledFrom(q: real, x: real, u: real, s: real)
    requires s > 0.0 && 0.0 <= q <= x < u == q + 1.0
    ensures 0.0 <= q * s <= x * s < q * s + s
  {
    RealProductPositive(q, s);
    RealMonotone(q, x, s);
    RealMonotone(x, u, s);
    RealSuccessor(q, u, s);
  }
}
