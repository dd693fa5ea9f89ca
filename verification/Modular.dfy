/** Remainders by a variable modulus. */
module Modular {

  lemma {:induction false} MultipleIsFar(q: int, x: int)
    requires q > 0 && x != 0
    ensures q * x >= q || q * x <= -q
  {
    if x > 0 { assert q * x >= q * 1; } else { assert q * x <= q * -1; }
  }

  lemma {:induction false} RemainderUnique(x: int, n: int, q: int, r: int)
    requires n > 0 && x == q * n + r && 0 <= r < n
    ensures x % n == r && x / n == q
  {
    var q', r' := x / n, x % n;
    assert x == q' * n + r';
    assert n * (q - q') == r' - r;
    if q != q' { MultipleIsFar(n, q - q'); }
  }

  lemma {:induction false} AddMultiple(x: int, k: int, n: int)
    requires n > 0
    ensures (x + k * n) % n == x % n
  {
    assert x + k * n == (x / n + k) * n + x % n;
    RemainderUnique(x + k * n, n, x / n + k, x % n);
  }

  /** Reducing first by a multiple of `n` does not change the remainder by `n`. */
  lemma {:induction false} ReduceTwice(x: int, m: int, n: int)
    requires n > 0 && m > 0 && m % n == 0
    ensures (x % m) % n == x % n
  {
    var q, r := x / m, m / n;
    assert m == r * n;
    assert x % m == x - q * m;
    assert q * m == (q * r) * n;
    AddMultiple(x % m, q * r, n);
  }

  /** A difference of counters kept modulo `m` is exact while it is smaller than `m`. */
  lemma {:induction false} WrappedDifference(a: int, b: int, m: int)
    requires m > 0 && 0 <= a - b < m
    ensures (a % m - b % m) % m == a - b
  {
    var k := b / m - a / m;
    assert a % m - b % m == (a - b) + k * m;
    AddMultiple(a - b, k, m);
    RemainderUnique(a - b, m, 0, a - b);
  }

  lemma {:induction false} WrappedSuccessor(a: int, m: int)
    requires m > 0
    ensures (a % m + 1) % m == (a + 1) % m
  {
    AddMultiple(a % m + 1, a / m, m);
    assert a % m + 1 + (a / m) * m == a + 1;
  }

  /** Within a window of `n` consecutive numbers all remainders differ. */
  lemma {:induction false} WindowDistinct(j: int, k: int, n: int)
    requires n > 0 && j < k < j + n
    ensures j % n != k % n
  {
    var d := k / n - j / n;
    assert k - j == n * d + (k % n - j % n);
    if d != 0 { MultipleIsFar(n, d); }
  }
}
