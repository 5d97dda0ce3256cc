/** Facts about products, quotients and remainders that the solver does not find by itself. */
module Arithmetic {

  lemma AtLeastOnce(k: int, d: int)
    requires k >= 1 && d >= 0
    ensures k * d >= d
  {
    assert k * d == (k - 1) * d + d;
    assert (k - 1) * d >= 0;
  }

  lemma NonNegative(x: int, y: int)
    requires x >= 0 && y >= 0
    ensures x * y >= 0
  {
  }

  lemma Difference(x: int, y: int, d: int)
    ensures (x - y) * d == x * d - y * d
  {
  }

  lemma DivMod(a: int, d: int)
    requires d > 0
    ensures a == a / d * d + a % d && 0 <= a % d < d
  {
  }

  lemma DivUnique(a: int, d: int, q: int, r: int)
    requires d > 0 && a == q * d + r && 0 <= r < d
    ensures a / d == q && a % d == r
  {
    var q', r' := a / d, a % d;
    DivMod(a, d);
    Difference(q, q', d);
    Difference(q', q, d);
    if q > q' {
      AtLeastOnce(q - q', d);
    } else if q < q' {
      AtLeastOnce(q' - q, d);
    }
  }

  lemma Regroup(q: int, u: int, s: int, f: int, r: int)
    ensures (q * u + s) * f + r == q * (f * u) + (s * f + r)
  {
  }

  /** Dividing twice is dividing once by the product. */
  lemma NestedDivision(a: int, f: int, u: int)
    requires a >= 0 && f > 0 && u > 0
    ensures f * u > 0 && a / f / u == a / (f * u) && a / f >= 0
  {
    var q, r := a / f, a % f;
    var p, s := q / u, q % u;
    DivMod(a, f);
    DivMod(q, u);
    Regroup(p, u, s, f, r);
    AtLeastOnce(u, f);
    AtLeastOnce(u - s, f);
    Difference(u, s, f);
    NonNegative(s, f);
    DivUnique(a, f * u, p, s * f + r);
  }

  /** Two numbers leave the same remainder exactly when their difference leaves none. */
  lemma SameRemainder(a: int, b: int, m: int)
    requires m > 0
    ensures (a - b) % m == 0 <==> a % m == b % m
  {
    DivMod(a, m);
    DivMod(b, m);
    var q := a / m - b / m;
    Difference(a / m, b / m, m);
    if a % m >= b % m {
      DivUnique(a - b, m, q, a % m - b % m);
    } else {
      Difference(q, 1, m);
      DivUnique(a - b, m, q - 1, a % m - b % m + m);
    }
  }

  /** Adding wrapped values and wrapping again is wrapping the sum. */
  lemma WrappedSum(a: int, b: int, m: int)
    requires m > 0
    ensures (a % m + b % m) % m == (a + b) % m
  {
    DivMod(a, m);
    DivMod(b, m);
    var r := a % m + b % m;
    DivMod(r, m);
    Difference(a / m + b / m, -(r / m), m);
    Difference(a / m, -(b / m), m);
    DivUnique(a + b, m, a / m + b / m + r / m, r % m);
  }
}
