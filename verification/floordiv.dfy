/**
 * Facts about floor division by a positive count, the `//` both simulations
 * use to average over a generation. For a positive divisor Dafny's `/` on
 * `int` is floor division, as Python's `//` is.
 */
module FloorDiv {

  /** Multiplying by a natural number preserves order. */
  lemma {:induction false} MulMonotone(a: int, b: int, n: nat)
    requires a <= b
    ensures a * n <= b * n
  {
    if n > 0 {
      MulMonotone(a, b, n - 1);
      assert a * n == a * (n - 1) + a;
      assert b * n == b * (n - 1) + b;
    }
  }

  /** The floor quotient brackets the total: `(x / n) * n <= x < (x / n) * n + n`. */
  lemma QuotientBrackets(x: int, n: int)
    requires n > 0
    ensures (x / n) * n <= x < (x / n) * n + n
  {
  }

  /** A total bounded by `lo` and `hi` per item has a floor mean within [lo, hi]. */
  lemma QuotientWithin(s: int, n: int, lo: int, hi: int)
    requires n > 0
    requires lo * n <= s <= hi * n
    ensures lo <= s / n <= hi
  {
    var q := s / n;
    assert q * n <= s < q * n + n;
    if q > hi {
      MulMonotone(hi + 1, q, n);
      assert false;
    }
    if q < lo {
      MulMonotone(q + 1, lo, n);
      assert false;
    }
  }

  /** The floor quotient is the one `q` with `q * n <= x < (q + 1) * n`. */
  lemma QuotientUnique(x: int, n: int, q: int)
    requires n > 0
    requires q * n <= x < q * n + n
    ensures x / n == q
  {
    var q' := x / n;
    assert q' * n <= x < q' * n + n;
    if q' > q {
      MulMonotone(q + 1, q', n);
      assert false;
    }
    if q' < q {
      MulMonotone(q' + 1, q, n);
      assert false;
    }
  }
}
