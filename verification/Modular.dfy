/** Division with remainder by a variable divisor, proved once so that the solver meets no products elsewhere. */
module Modular {

  lemma DivIs(a: nat, q: nat, r: nat, n: nat)
    requires r < n && a == n * q + r
    ensures a / n == q && a % n == r
  {
    var p, s := a / n, a % n;
    assert a == n * p + s;
    if p < q {
      ProductGap(n, p, q);
    } else if q < p {
      ProductGap(n, q, p);
    }
  }

  lemma ProductGap(n: nat, p: nat, q: nat)
    requires p < q
    ensures n * p + n <= n * q
  {
    assert n * q == n * p + n * (q - p);
    assert n * (q - p) == n + n * (q - p - 1);
  }

  lemma ProductMonotone(n: nat, p: nat, q: nat)
    requires p <= q
    ensures n * p <= n * q
  {
    if p < q {
      ProductGap(n, p, q);
    }
  }

  lemma ProductOrder(n: nat, p: nat, q: nat)
    ensures n * p < n * q ==> p < q
  {
    if q <= p {
      ProductMonotone(n, q, p);
    }
  }

  lemma DivMod(a: nat, n: nat)
    requires n > 0
    ensures a == n * (a / n) + a % n && a % n < n
  {
  }

  /** Removing one whole divisor. */
  lemma ModDrop(a: nat, n: nat)
    requires n > 0 && a >= n
    ensures a / n == (a - n) / n + 1 && a % n == (a - n) % n
  {
    DivMod(a - n, n);
    var q, r := (a - n) / n, (a - n) % n;
    assert n * (q + 1) == n * q + n;
    DivIs(a, q + 1, r, n);
  }

  lemma ModSmall(a: nat, n: nat)
    requires a < n
    ensures a / n == 0 && a % n == a
  {
    assert n * 0 == 0;
    DivIs(a, 0, a, n);
  }

  /** Counting up by one. */
  lemma {:induction false} ModNext(a: nat, n: nat)
    requires n > 0
    ensures (a + 1) % n == (if a % n == n - 1 then 0 else a % n + 1)
    ensures (a + 1) / n == a / n + (if a % n == n - 1 then 1 else 0)
    decreases a
  {
    if a + 1 < n {
      ModSmall(a, n);
      ModSmall(a + 1, n);
    } else if a < n {
      ModSmall(a, n);
      ModDrop(a + 1, n);
      ModSmall(0, n);
    } else {
      ModDrop(a, n);
      ModDrop(a + 1, n);
      ModNext(a - n, n);
    }
  }

  /** A sum's remainder only depends on the remainder of its first part. */
  lemma {:induction false} ModAdd(a: nat, b: nat, n: nat)
    requires n > 0
    ensures (a + b) % n == (a % n + b) % n
    decreases a
  {
    if a < n {
      ModSmall(a, n);
    } else {
      ModDrop(a, n);
      ModDrop(a + b, n);
      ModAdd(a - n, b, n);
    }
  }

  lemma {:induction false} DivMonotone(a: nat, b: nat, n: nat)
    requires n > 0 && a <= b
    ensures a / n <= b / n
    decreases b
  {
    if b < n {
      ModSmall(a, n);
      ModSmall(b, n);
    } else if a < n {
      ModSmall(a, n);
    } else {
      ModDrop(a, n);
      ModDrop(b, n);
      DivMonotone(a - n, b - n, n);
    }
  }

  /** Taking a remainder by a multiple first changes nothing. */
  lemma {:induction false} ModOfMultiple(a: nat, span: nat, n: nat)
    requires n > 0 && span >= n && span % n == 0
    ensures a % span % n == a % n
    decreases a
  {
    if a < span {
      ModSmall(a, span);
    } else {
      ModDrop(a, span);
      ModOfMultiple(a - span, span, n);
      ModAdd(span, a - span, n);
      ModSmall(0, n);
    }
  }

  /** Adding a multiple of the divisor. */
  lemma ModPlusMultiple(a: nat, b: nat, n: nat)
    requires n > 0 && b % n == 0
    ensures (a + b) % n == a % n
  {
    DivMod(a, n);
    DivMod(b, n);
    assert n * (a / n + b / n) == n * (a / n) + n * (b / n);
    DivIs(a + b, a / n + b / n, a % n, n);
  }

  /** And only a multiple leaves the remainder as it is. */
  lemma ModSameIsMultiple(a: nat, b: nat, n: nat)
    requires n > 0 && (a + b) % n == a % n
    ensures b % n == 0
  {
    var p, q := a / n, (a + b) / n;
    DivMod(a, n);
    DivMod(a + b, n);
    DivMonotone(a, a + b, n);
    assert n * (q - p) == n * q - n * p;
    DivIs(b, q - p, 0, n);
  }
}
