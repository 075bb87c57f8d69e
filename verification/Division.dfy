/** Integer division with a variable divisor: every nonlinear step of the proofs in one place. */
module Division {

  lemma MulAtLeast(k: int, n: int)
    requires n > 0 && k >= 1
    ensures k * n >= n
  {
  }

  lemma QuotientUnique(n: int, q: int, m: int, q': int, m': int)
    requires n > 0 && 0 <= m < n && 0 <= m' < n && q * n + m == q' * n + m'
    ensures q == q' && m == m'
  {
    assert (q' - q) * n == q' * n - q * n && (q - q') * n == q * n - q' * n;
    if q < q' {
      MulAtLeast(q' - q, n);
    } else if q' < q {
      MulAtLeast(q - q', n);
    }
  }

  /** Quotient and remainder are unique. */
  lemma ModUnique(a: int, n: int, q: int, m: int)
    requires n > 0 && 0 <= m < n && a == q * n + m
    ensures a % n == m && a / n == q
  {
    assert a == (a / n) * n + a % n;
    QuotientUnique(n, q, m, a / n, a % n);
  }

  lemma ModAdd(x: int, y: int, n: int)
    requires n > 0
    ensures (x % n + y % n) % n == (x + y) % n
  {
    var s := x % n + y % n;
    assert x == (x / n) * n + x % n && y == (y / n) * n + y % n && s == (s / n) * n + s % n;
    assert (x / n + y / n + s / n) * n == (x / n) * n + (y / n) * n + (s / n) * n;
    ModUnique(x + y, n, x / n + y / n + s / n, s % n);
  }

  lemma ModSmall(x: int, n: int)
    requires 0 <= x < n
    ensures x % n == x
  {
    ModUnique(x, n, 0, x);
  }

  lemma ModOnce(x: int, n: int)
    requires n <= x < 2 * n
    ensures x % n == x - n
  {
    ModUnique(x, n, 1, x - n);
  }

  lemma ModMod(x: int, n: int)
    requires n > 0
    ensures (x % n) % n == x % n
  {
    ModSmall(x % n, n);
  }

  lemma MulMod(a: int, b: int, n: int)
    requires n > 0
    ensures ((a % n) * b) % n == (a * b) % n
  {
    var q := a / n;
    assert a == q * n + a % n;
    assert a * b == (q * b) * n + (a % n) * b;
    ShiftMod((a % n) * b, q * b, n);
  }

  lemma ShiftMod(x: int, k: int, n: int)
    requires n > 0
    ensures (k * n + x) % n == x % n
  {
    assert x == (x / n) * n + x % n;
    assert (k + x / n) * n == k * n + (x / n) * n;
    ModUnique(k * n + x, n, k + x / n, x % n);
  }

  /** The quotient and remainder of a natural number. */
  lemma DivFacts(x: nat, n: nat)
    requires n > 0
    ensures x == (x / n) * n + x % n && 0 <= x / n <= x && 0 <= x % n <= x && x % n < n
  {
    var q := x / n;
    assert x == q * n + x % n && (-q) * n == -(q * n);
    if q < 0 {
      MulAtLeast(-q, n);
    }
    MulMonotone(q, n);
  }

  lemma MulMonotone(q: nat, n: nat)
    requires n > 0
    ensures q <= q * n
  {
    if q > 0 {
      assert q * n == q + q * (n - 1);
      assert q * (n - 1) >= 0;
    }
  }

  /** Division of a sum in two parts, the remainder of the first carried into the second. */
  lemma DivSplit(x: nat, y: nat, n: nat)
    requires n > 0
    ensures x / n + (x % n + y) / n == (x + y) / n && (x % n + y) % n == (x + y) % n
  {
    var q, q', r' := x / n, (x % n + y) / n, (x % n + y) % n;
    assert x == q * n + x % n && x % n + y == q' * n + r';
    assert (q + q') * n == q * n + q' * n;
    ModUnique(x + y, n, q + q', r');
  }

  /** Subtracting a divisor or more lowers the quotient. */
  lemma DivLess(x: nat, m: nat, n: nat)
    requires 0 < n <= m <= x
    ensures (x - m) / n < x / n
  {
    DivSplit(x - m, m, n);
    var y := (x - m) % n + m;
    DivStep(y, n);
  }

  /** Taking one divisor off lowers the quotient by one. */
  lemma DivStep(y: nat, n: nat)
    requires 0 < n <= y
    ensures y / n == (y - n) / n + 1 >= 1 && y % n == (y - n) % n
  {
    var q, r := (y - n) / n, (y - n) % n;
    DivFacts(y - n, n);
    assert (q + 1) * n == q * n + n;
    ModUnique(y, n, q + 1, r);
  }
}
