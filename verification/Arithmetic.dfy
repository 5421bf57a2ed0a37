/** The little nonlinear arithmetic that bounds and counters need. */
module Arithmetic {
  lemma Scale(m: int, n: int, d: nat)
    requires m <= n
    ensures m * d <= n * d
  {
  }

  lemma Spread(n: int, d: int)
    ensures (n + 1) * d == n * d + d && (n - 1) * d == n * d - d && (n - 2) * d == n * d - 2 * d
  {
  }

  lemma Quotient(n: int, d: nat, limit: nat)
    requires d > 0
    ensures n * d <= limit <==> n <= limit / d
  {
    if n <= limit / d {
      Scale(n, limit / d, d);
    } else {
      Scale(limit / d + 1, n, d);
    }
  }

  /** A remainder and a quotient that fit are the remainder and the quotient. */
  lemma Residue(n: nat, q: int, r: nat, m: nat)
    requires r < m && n == q * m + r
    ensures n / m == q && n % m == r
  {
    Spread(q, m);
    Quotient(q, m, n);
    Quotient(q + 1, m, n);
  }

  /** Counting on modulo `m`. */
  lemma NextModulo(n: nat, m: nat)
    requires m > 0
    ensures (n + 1) % m == if n % m == m - 1 then 0 else n % m + 1
  {
    var q, r := n / m, n % m;
    Spread(q, m);
    if r == m - 1 {
      Residue(n + 1, q + 1, 0, m);
    } else {
      Residue(n + 1, q, r + 1, m);
    }
  }
}
