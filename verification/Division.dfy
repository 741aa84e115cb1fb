/** Division with remainder by a variable divisor. */
module Division {

  lemma MulSign(x: int, n: int)
    requires n > 0
    ensures x >= 1 ==> x * n >= n
    ensures x <= -1 ==> x * n <= -n
  {
    if x >= 1 {
      assert x * n == (x - 1) * n + n;
    } else if x <= -1 {
      assert x * n == (x + 1) * n - n;
    }
  }

  lemma Unique(q: int, r: int, q': int, r': int, n: int)
    requires 0 <= r < n && 0 <= r' < n && q * n + r == q' * n + r'
    ensures q == q' && r == r'
  {
    assert (q - q') * n == r' - r;
    MulSign(q - q', n);
  }

  /** The quotient and the remainder are the only pair with a == q * n + r and 0 <= r < n. */
  lemma ModUnique(a: int, q: int, r: int, n: int)
    requires 0 <= r < n && a == q * n + r
    ensures a % n == r && a / n == q
  {
    assert a == (a / n) * n + a % n;
    Unique(q, r, a / n, a % n, n);
  }

  lemma Split(a: int, n: int) returns (q: int, r: int)
    requires n > 0
    ensures q == a / n && r == a % n && a == q * n + r && 0 <= r < n
  {
    q, r := a / n, a % n;
  }

  lemma ModSucc(a: nat, n: nat)
    requires n > 0
    ensures (a + 1) % n == if a % n + 1 == n then 0 else a % n + 1
    ensures (a % n + 1) % n == (a + 1) % n
  {
    var q, r := Split(a, n);
    if r + 1 == n {
      assert (q + 1) * n == q * n + n;
      ModUnique(a + 1, q + 1, 0, n);
      ModUnique(r + 1, 1, 0, n);
    } else {
      ModUnique(a + 1, q, r + 1, n);
      ModUnique(r + 1, 0, r + 1, n);
    }
  }

  /** Adding an offset below n to a residue wraps at most once. */
  lemma ModAdd(a: nat, k: nat, n: nat)
    requires n > 0 && k <= n
    ensures (a + k) % n == if a % n + k < n then a % n + k else a % n + k - n
    ensures (a % n + k) % n == (a + k) % n
  {
    var q, r := Split(a, n);
    if r + k < n {
      ModUnique(a + k, q, r + k, n);
      ModUnique(r + k, 0, r + k, n);
    } else {
      assert (q + 1) * n == q * n + n;
      ModUnique(a + k, q + 1, r + k - n, n);
      ModUnique(r + k, 1, r + k - n, n);
    }
  }

  lemma DivMonotone(a: int, b: int, n: int)
    requires a <= b && n > 0
    ensures a / n <= b / n
  {
    var q, r := Split(a, n);
    var q', r' := Split(b, n);
    assert (q - q') * n == q * n - q' * n;
    MulSign(q - q', n);
  }

  lemma MulMonotone(a: int, b: int, n: int)
    requires a <= b && n >= 0
    ensures a * n <= b * n
  {
    assert b * n - a * n == (b - a) * n;
  }

  lemma DivBound(a: int, n: int, t: int)
    requires n > 0 && a / n < t
    ensures a < t * n
  {
    var q, r := Split(a, n);
    MulMonotone(q + 1, t, n);
    assert (q + 1) * n == q * n + n;
  }
}
