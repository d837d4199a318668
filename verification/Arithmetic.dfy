/** Products kept out of the solver's sight: `n` periods of `m` each. */
module Arithmetic {

  function Times(n: int, m: nat): int {
    n * m
  }

  lemma TimesFacts(n: int, m: nat)
    ensures Times(n + 1, m) == Times(n, m) + m
    ensures Times(0, m) == 0
    ensures n >= 0 ==> Times(n, m) >= 0
  {
    assert (n + 1) * m == n * m + m;
  }

  /** Quotient and remainder are the only way to write a number as so many periods and a part of one. */
  lemma Quotient(x: nat, m: nat, q: nat, r: nat)
    requires r < m && x == q * m + r
    ensures x / m == q && x % m == r
  {
    var d := x / m - q;
    assert d * m == x / m * m - q * m;
    OnlyZeroBetween(d, m);
  }

  lemma OnlyZeroBetween(d: int, m: int)
    requires m > 0
    ensures -m < d * m < m ==> d == 0
  {
    assert d >= 1 ==> d * m >= m;
    assert d <= -1 ==> d * m <= -1 * m;
  }

  /** Counting on by one. */
  lemma NextQuotient(n: nat, m: nat)
    requires m > 0
    ensures (n + 1) / m == n / m + (if n % m + 1 == m then 1 else 0)
    ensures (n + 1) % m == if n % m + 1 == m then 0 else n % m + 1
  {
    NextParts(n, m, n / m, n % m);
  }

  lemma NextParts(n: nat, m: nat, q: nat, r: nat)
    requires r < m && n == q * m + r
    ensures (n + 1) / m == q + (if r + 1 == m then 1 else 0)
    ensures (n + 1) % m == if r + 1 == m then 0 else r + 1
  {
    if r + 1 == m {
      assert (q + 1) * m == q * m + m;
      Quotient(n + 1, m, q + 1, 0);
    } else {
      Quotient(n + 1, m, q, r + 1);
    }
  }
}
