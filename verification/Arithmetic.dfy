/** Small facts of non-linear arithmetic. */
module Arithmetic {

  lemma MulAtMost(a: int, b: int, c: int)
    requires a <= b && 0 <= c
    ensures a * c <= b * c
  {
  }

  lemma MulBelow(a: int, b: int, c: int)
    requires a < b && 0 < c
    ensures a * c < b * c
  {
  }

  lemma MulPlus(a: int, b: int, c: int)
    ensures (a + b) * c == a * c + b * c
  {
  }

  lemma MulMinus(a: int, b: int, c: int)
    ensures (a - b) * c == a * c - b * c
  {
  }

  lemma MulSwap(a: int, b: int, c: int)
    ensures a * (b * c) == b * (a * c) && a * (b * c) == (a * b) * c && a * b == b * a
  {
  }

  /** A product with a positive factor orders like its other factor. */
  lemma MulCancel(a: int, b: int, c: int)
    requires c > 0 && a * c < b * c
    ensures a < b
  {
    if a >= b { MulAtMost(b, a, c); }
  }

  /** Integer division of naturals. */
  function Quot(a: nat, b: nat): nat
    requires b > 0
  {
    a / b
  }

  lemma DivMod(a: int, b: int)
    requires b > 0
    ensures a == (a / b) * b + a % b && 0 <= a % b < b
  {
  }

  lemma QuotientBelow(q: int, r: int, q': int, r': int, b: int)
    requires b > 0 && q * b + r == q' * b + r' && 0 <= r < b && 0 <= r' < b
    ensures q' <= q
  {
    if q' >= q + 1 {
      MulAtMost(q + 1, q', b);
      MulPlus(q, 1, b);
    }
  }

  /** Quotient and remainder are determined by what they satisfy. */
  lemma DivUnique(a: int, b: int, q: int, r: int)
    requires b > 0 && a == q * b + r && 0 <= r < b
    ensures q == a / b && r == a % b
  {
    DivMod(a, b);
    QuotientBelow(q, r, a / b, a % b, b);
    QuotientBelow(a / b, a % b, q, r, b);
  }

  lemma SmallMod(a: nat, m: nat)
    requires a < m
    ensures a % m == a && a / m == 0
  {
    DivUnique(a, m, 0, a);
  }

  lemma ModAdd(y: nat, t: nat, m: nat)
    requires m > 0
    ensures t * m >= 0 && (y + t * m) % m == y % m
  {
    MulAtMost(0, t, m);
    DivMod(y, m);
    MulPlus(y / m, t, m);
    DivUnique(y + t * m, m, y / m + t, y % m);
  }

  lemma Multiple(t: nat, m: nat)
    requires m > 0
    ensures t * m >= 0 && (t * m) / m == t && (t * m) % m == 0
  {
    MulAtMost(0, t, m);
    DivUnique(t * m, m, t, 0);
  }

  /** Division is monotone and bounded by its exact value. */
  lemma DivBelow(a: nat, b: nat, m: nat)
    requires b > 0 && a < m * b
    ensures a / b < m
  {
    DivMod(a, b);
    if a / b >= m { MulAtMost(m, a / b, b); }
  }

  lemma DivAtLeast(a: nat, b: nat, m: nat)
    requires b > 0 && a >= m * b
    ensures a / b >= m
  {
    DivMod(a, b);
    if a / b + 1 <= m {
      MulAtMost(a / b + 1, m, b);
      MulPlus(a / b, 1, b);
    }
  }

  lemma NegatedMultiple(x: int, y: int)
    requires y > 0
    ensures x % y == 0 <==> (-x) % y == 0
  {
    NegatedOneWay(x, y);
    NegatedOneWay(-x, y);
  }

  lemma NegatedOneWay(x: int, y: int)
    requires y > 0
    ensures x % y == 0 ==> (-x) % y == 0
  {
    DivMod(x, y);
    if x % y == 0 {
      MulMinus(0, x / y, y);
      DivUnique(-x, y, -(x / y), 0);
    }
  }

  /** Dividing twice is dividing by the product. */
  lemma DivDiv(a: nat, b: nat, c: nat)
    requires b > 0 && c > 0
    ensures b * c > 0 && (a / b) / c == a / (b * c)
  {
    MulBelow(0, b, c);
    DivMod(a, b);
    DivMod(a / b, c);
    var q, r := (a / b) / c, ((a / b) % c) * b + a % b;
    MulPlus(q * c, (a / b) % c, b);
    MulSwap(q, b, c);
    MulAtMost((a / b) % c, c - 1, b);
    MulMinus(c, 1, b);
    MulSwap(1, b, c);
    MulAtMost(0, (a / b) % c, b);
    DivUnique(a, b * c, q, r);
  }

  lemma RealDouble(a: real, b: real)
    ensures a * (2.0 * b) == 2.0 * (a * b)
  {
  }

  lemma RealInverse(x: real, y: real, z: real, p: real)
    requires x * p == y && z * p == 1.0
    ensures x == y * z
  {
    assert x * (z * p) == (x * p) * z;
  }

  lemma RealMulBelow(a: real, b: real, s: real)
    requires a < b && s > 0.0
    ensures a * s < b * s
  {
  }

  lemma RealSwap(a: real, b: real)
    ensures a * b == b * a
  {
  }

  lemma RealAssoc(a: real, x: real, y: real)
    ensures a * (x * y) == (a * x) * y && a * (x * y) == (a * y) * x
  {
  }

  lemma CastMul(a: nat, b: nat)
    ensures (a * b) as real == a as real * b as real
  {
  }

  lemma RealSame(a: real, b: real, x: real, y: real)
    requires a == x && b == y
    ensures a * b == x * y
  {
  }
}
