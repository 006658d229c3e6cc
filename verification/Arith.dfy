/** Division facts that the solver needs spelled out. */
module Arith {

  lemma MulStep(n: nat, a: int, b: int)
    requires a < b
    ensures n * a + n <= n * b
  {
    assert n * b == n * a + n * (b - a);
    assert n * (b - a) == n + n * (b - a - 1);
  }

  lemma DivisionUnique(n: nat, a: int, x: int, b: int, y: int)
    requires 0 <= x < n && 0 <= y < n
    requires n * a + x == n * b + y
    ensures a == b && x == y
  {
    if a < b { MulStep(n, a, b); }
    if b < a { MulStep(n, b, a); }
  }

  lemma DivisionOf(n: nat, x: int, q: int, r: int)
    requires 0 <= r < n && x == n * q + r
    ensures x / n == q && x % n == r
  {
    assert x == n * (x / n) + x % n;
    DivisionUnique(n, x / n, x % n, q, r);
  }

  lemma DivideTwice(x: nat, n: nat, m: nat)
    requires 0 < n && 0 < m
    ensures 0 < n * m && (x / n) / m == x / (n * m)
  {
    MulStep(n, 0, m);
    var q, r := x / n, x % n;
    assert x == n * q + r && q == m * (q / m) + q % m;
    assert n * q == (n * m) * (q / m) + n * (q % m);
    MulStep(n, q % m, m);
    DivisionOf(n * m, x, q / m, n * (q % m) + r);
  }

  /** A divisor of the modulus sees through the remainder. */
  lemma RemainderOfRemainder(n: nat, k: nat, x: int)
    requires 0 < n && 0 < k
    ensures 0 < n * k && (x % (n * k)) % n == x % n
  {
    MulStep(n, 0, k);
    var q, w := x / (n * k), x % (n * k);
    assert x == (n * k) * q + w && (n * k) * q == n * (k * q);
    assert w == n * (w / n) + w % n;
    assert n * (k * q) + n * (w / n) == n * (k * q + w / n);
    DivisionOf(n, x, k * q + w / n, w % n);
  }
}
