/** Positions in a circular buffer: counters that only grow, taken modulo the
    buffer size. */
module Modular {

  function Min(a: int, b: int): int { if a < b then a else b }

  lemma Grows(n: int, k: int)
    requires n > 0
    ensures k >= 1 ==> n * k >= n
    ensures k <= -1 ==> n * k <= -n
  {}

  lemma ModUnique(n: nat, q: nat, r: nat)
    requires r < n
    ensures (n * q + r) % n == r
  {
    var x := n * q + r;
    var k := q - x / n;
    assert n * k == n * q - n * (x / n) == x % n - r;
    Grows(n, k);
  }

  /** Moving b <= n places on wraps at most once. */
  lemma ModAdd(a: nat, b: nat, n: nat)
    requires n > 0 && b <= n
    ensures (a + b) % n == if a % n + b < n then a % n + b else a % n + b - n
  {
    var q, r := a / n, a % n;
    assert a == n * q + r;
    if r + b < n {
      ModUnique(n, q, r + b);
    } else {
      assert a + b == n * (q + 1) + (r + b - n);
      ModUnique(n, q + 1, r + b - n);
    }
  }

  /** No ABA: two counters less than a buffer apart differ exactly when their
      positions do. */
  lemma SamePosition(a: nat, b: nat, n: nat)
    requires n > 0 && a <= b < a + n
    ensures a % n == b % n <==> a == b
  {
    ModAdd(a, b - a, n);
  }
}
