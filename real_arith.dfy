/** Facts about products of reals, stated over a named product `Mul` so that
    a fact proved for one call site is matched by congruence at another;
    proofs elsewhere link `Mul(x, y)` to the product they need with one
    assert. */
module RealArith {

  function Mul(x: real, y: real): real
  {
    x * y
  }

  lemma MulNonneg(a: real, b: real)
    requires 0.0 <= a && 0.0 <= b
    ensures 0.0 <= Mul(a, b)
  {
  }

  lemma MulPos(a: real, b: real)
    requires 0.0 < a && 0.0 < b
    ensures 0.0 < Mul(a, b)
  {
  }

  /** Multiplication distributes over sums and differences. */
  lemma MulDistrib(a: real, b: real, c: real)
    ensures Mul(a, c) + Mul(b, c) == Mul(a + b, c)
    ensures Mul(a, c) - Mul(b, c) == Mul(a - b, c)
  {
  }

  /** A proper fraction n/d of positive reals lies strictly inside (0, 1). */
  lemma DivInterior(n: real, d: real)
    requires 0.0 < n < d
    ensures 0.0 < n / d < 1.0
  {
    var q := n / d;
    assert Mul(q, d) == n;
    if q <= 0.0 {
      MulNonneg(-q, d);
    }
    if q >= 1.0 {
      MulNonneg(q - 1.0, d);
    }
  }

  /** Any positive quantity is half of its double. */
  lemma HalfOfDouble(h: real)
    requires 0.0 < h
    ensures h / (2.0 * h) == 0.5
  {
    var q := h / (2.0 * h);
    assert Mul(q, 2.0 * h) == h;
    assert Mul(q - 0.5, 2.0 * h) == Mul(q, 2.0 * h) - h;
    if q < 0.5 {
      MulPos(0.5 - q, 2.0 * h);
    }
    if q > 0.5 {
      MulPos(q - 0.5, 2.0 * h);
    }
  }

  /** `v` lies strictly between a and b, or equals them when they coincide. */
  predicate StrictlyBetween(v: real, a: real, b: real)
  {
    if a < b then a < v < b else if b < a then b < v < a else v == a
  }

  /** A fraction n/d with 0 <= n <= d and d > 0 lies in [0, 1]. */
  lemma DivUnit(n: real, d: real)
    requires 0.0 <= n <= d && 0.0 < d
    ensures 0.0 <= n / d <= 1.0
  {
    var q := n / d;
    assert Mul(q, d) == n;
    if q < 0.0 {
      MulPos(-q, d);
    }
    if q > 1.0 {
      MulPos(q - 1.0, d);
    }
  }

  /** One more row of `size` items: the step of a count by multiplication. */
  lemma CountStep(n: int, size: int)
    ensures n * size == (n - 1) * size + size
  {
  }

  /** Item k of row j, in `count` rows of m items laid end to end, lies
      before the end. */
  lemma RowIndex(j: nat, k: nat, m: nat, count: nat)
    requires j < count && k < m
    ensures j * m + k < count * m
    decreases count - j
  {
    CountStep(count, m);
    if j + 1 < count {
      RowIndex(j, k, m, count - 1);
    }
  }

  /** Cancelling a positive factor. */
  lemma DivOfMul(a: real, h: real)
    requires 0.0 < h
    ensures Mul(a, h) / h == a
  {
    var q := Mul(a, h) / h;
    assert Mul(q, h) == Mul(a, h);
    assert Mul(q - a, h) == Mul(q, h) - Mul(a, h);
    if q < a {
      MulPos(a - q, h);
    }
    if q > a {
      MulPos(q - a, h);
    }
  }

  /** (d - a) / d is 1 - a / d. */
  lemma DivComplement(a: real, d: real)
    requires 0.0 < d
    ensures (d - a) / d == 1.0 - a / d
  {
    var q, r := (d - a) / d, a / d;
    assert Mul(q, d) == d - a;
    assert Mul(r, d) == a;
    assert Mul(q + r - 1.0, d) == Mul(q, d) + Mul(r, d) - d;
    if q + r < 1.0 {
      MulPos(1.0 - q - r, d);
    }
    if q + r > 1.0 {
      MulPos(q + r - 1.0, d);
    }
  }

  /** The point at weight w on the way from a to b. */
  function Lerp(a: real, b: real, w: real): real
  {
    a + (b - a) * w
  }

  /** A weight strictly inside (0, 1) lands strictly between a and b (on
      them when they coincide). */
  lemma LerpInterior(a: real, b: real, w: real)
    requires 0.0 < w < 1.0
    ensures a < b ==> a < Lerp(a, b, w) < b
    ensures b < a ==> b < Lerp(a, b, w) < a
    ensures a == b ==> Lerp(a, b, w) == a
  {
    if a < b {
      MulPos(b - a, w);
      MulPos(b - a, 1.0 - w);
      assert Mul(b - a, 1.0 - w) == (b - a) - Mul(b - a, w);
    } else if b < a {
      MulPos(a - b, w);
      MulPos(a - b, 1.0 - w);
      assert Mul(a - b, 1.0 - w) == (a - b) - Mul(a - b, w);
      assert Lerp(a, b, w) == a - Mul(a - b, w);
    }
  }

  /** A weight in [0, 1] lands between a and b, ends included. */
  lemma LerpBetween(a: real, b: real, w: real)
    requires 0.0 <= w <= 1.0
    ensures a <= b ==> a <= Lerp(a, b, w) <= b
    ensures b <= a ==> b <= Lerp(a, b, w) <= a
  {
    if a <= b {
      MulNonneg(b - a, w);
      MulNonneg(b - a, 1.0 - w);
      assert Mul(b - a, 1.0 - w) == (b - a) - Mul(b - a, w);
    } else {
      MulNonneg(a - b, w);
      MulNonneg(a - b, 1.0 - w);
      assert Mul(a - b, 1.0 - w) == (a - b) - Mul(a - b, w);
      assert Lerp(a, b, w) == a - Mul(a - b, w);
    }
  }
}
