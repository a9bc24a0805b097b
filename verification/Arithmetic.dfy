/** Facts about multiplication and division that the verifier does not find by itself. */
module Arithmetic {

  /** Integer division, under a name that can be hidden. */
  function Div(a: nat, n: nat): nat
    requires n > 0
  {
    a / n
  }

  lemma MulMonotone(a: int, b: int, n: nat)
    requires a <= b
    ensures a * n <= b * n
  {
  }

  lemma MulAtLeast(a: int, n: nat)
    requires a >= 1
    ensures a * n >= n
  {
  }

  /** A quotient and a remainder in range are the quotient and the remainder. */
  lemma DivModIs(x: int, q: int, r: int, n: nat)
    requires 0 <= r < n && x == q * n + r
    ensures x / n == q && x % n == r
  {
    var p, s := x / n, x % n;
    assert x == p * n + s;
    assert (q - p) * n == s - r;
    if q > p {
      MulAtLeast(q - p, n);
    } else if q < p {
      MulAtLeast(p - q, n);
    }
  }

  lemma DivMonotone(a: nat, b: nat, n: nat)
    requires a <= b && n > 0
    ensures a / n <= b / n
  {
    var x, y := a / n, b / n;
    assert x * n <= a && b < (y + 1) * n;
    if y < x {
      MulMonotone(y + 1, x, n);
    }
  }

  lemma DivShrinks(a: nat, n: nat)
    requires n > 0
    ensures 0 <= a / n <= a
  {
    var x := a / n;
    assert a == x * n + a % n;
    if x > 0 {
      MulMonotone(1, n, x);
    }
  }

  /** Dividing in two steps is dividing by the product. */
  lemma DivTwice(a: nat, m: nat, n: nat)
    requires m > 0 && n > 0
    ensures m * n > 0 && a / m / n == a / (m * n)
  {
    MulAtLeast(m, n);
    TwoQuotients(a, m, n, a / m, a % m, a / m / n, a / m % n);
  }

  lemma TwoQuotients(a: nat, m: nat, n: nat, y: nat, r: nat, x: nat, s: nat)
    requires a == y * m + r && r < m && y == x * n + s && s < n && m * n > 0
    ensures a / (m * n) == x
  {
    Regroup(x, n, s, m);
    Smaller(s, n, r, m);
    DivModIs(a, x, s * m + r, m * n);
  }

  lemma Regroup(x: nat, n: nat, s: nat, m: nat)
    ensures (x * n + s) * m == x * (m * n) + s * m
  {
  }

  lemma Smaller(s: nat, n: nat, r: nat, m: nat)
    requires s < n && r < m
    ensures 0 <= s * m + r < m * n
  {
    MulMonotone(s + 1, n, m);
    MulMonotone(0, s, m);
  }

  /** Whole rounds do not change the remainder. */
  lemma RoundsVanish(a: nat, k: nat, n: nat)
    requires n > 0
    ensures (a + k * n) % n == a % n
  {
    var q, r := a / n, a % n;
    assert a + k * n == (q + k) * n + r;
    DivModIs(a + k * n, q + k, r, n);
  }
}
