/** A few facts about products and quotients, kept apart from the theories that need them. */
module Arithmetic {
  function Min(a: int, b: int): int { if a < b then a else b }

  /** How much a budget of m per period allows in the given time, the first m being free. */
  function Allowance(m: int, period: int, elapsed: int): int
    requires period > 0
  {
    (1 + elapsed / period) * m
  }

  lemma Scale(a: int, b: int, m: int)
    requires a <= b && m >= 0
    ensures a * m <= b * m
  {
  }

  lemma NextMultiple(d: int, m: int)
    ensures (d + 1) * m == d * m + m
  {
  }

  /** k times m, as a sum. */
  function Multiple(k: nat, m: int): (r: int)
    ensures m >= 0 ==> r >= 0
  {
    if k == 0 then 0 else Multiple(k - 1, m) + m
  }

  lemma {:induction false} MultipleIsProduct(k: nat, m: int)
    ensures Multiple(k, m) == k * m
  {
    if k == 0 {
    } else {
      MultipleIsProduct(k - 1, m);
      NextMultiple(k - 1, m);
    }
  }

  lemma PositiveFactor(x: int, m: int)
    requires m > 0 && x * m > 0
    ensures x > 0
  {
  }

  lemma QuotientBound(d: int, period: int, elapsed: int)
    requires period > 0 && d * period <= elapsed
    ensures d <= elapsed / period
  {
    var q, r := elapsed / period, elapsed % period;
    assert elapsed == q * period + r;
    assert (q + 1 - d) * period == q * period + period - d * period;
    PositiveFactor(q + 1 - d, period);
  }

  /** d events at least a period apart, each worth at most m, on top of a first m. */
  lemma PacedSum(d: int, period: int, elapsed: int, m: int)
    requires period > 0 && m >= 0 && d * period <= elapsed
    ensures m + d * m <= Allowance(m, period, elapsed)
  {
    QuotientBound(d, period, elapsed);
    Scale(1 + d, 1 + elapsed / period, m);
  }

  lemma AllowanceGrows(m: int, period: int, early: int, late: int)
    requires period > 0 && m >= 0 && early <= late
    ensures Allowance(m, period, early) <= Allowance(m, period, late)
  {
    assert early / period * period <= early;
    QuotientBound(early / period, period, late);
    Scale(1 + early / period, 1 + late / period, m);
  }

  lemma AllowanceWithin(m: int, period: int, elapsed: int)
    requires period > 0 && 0 <= elapsed < period
    ensures Allowance(m, period, elapsed) == m
  {
    assert elapsed / period == 0;
  }

  /** Division with remainder is unique. */
  lemma DivModUnique(x: int, n: int, q: int, r: int)
    requires n > 0 && 0 <= r < n && x == q * n + r
    ensures x / n == q && x % n == r
  {
    var d := x / n - q;
    assert x == x / n * n + x % n;
    assert (1 - d) * n == n - r + x % n;
    assert (1 + d) * n == n + r - x % n;
    PositiveFactor(1 - d, n);
    PositiveFactor(1 + d, n);
  }

  /** Consecutive members of a residue class are n apart. */
  lemma NextInClass(n: int, j: int, k: int)
    requires n > 0 && k % n == j % n
    ensures (j + n) % n == j % n
    ensures j < k ==> j + n <= k
  {
    assert j == j / n * n + j % n && k == k / n * n + k % n;
    DivModUnique(j + n, n, j / n + 1, j % n);
    if j < k {
      assert (k / n - j / n) * n == k - j;
      PositiveFactor(k / n - j / n, n);
      Scale(1, k / n - j / n, n);
    }
  }

  /** The least member of a class is the remainder itself. */
  lemma LeastInClass(n: int, k: int)
    requires n > 0 && k >= 0
    ensures k % n <= k
  {
    assert k == k / n * n + k % n;
    if k < n {
      DivModUnique(k, n, 0, k);
    }
  }

  /** After x / n + 1 steps of n from the bottom of its class, x has been passed. */
  lemma PassedBy(x: int, n: int, steps: int)
    requires n > 0 && steps >= x / n + 1
    ensures x % n + n * steps >= x + n
  {
    assert x == x / n * n + x % n;
    Scale(x / n + 1, steps, n);
    NextMultiple(x / n, n);
  }
}
