/** Numeric helpers: Python's rounding of floats to ints, ceilings, minima and the
    few facts about products of reals that the geometry proofs need. */
module Arith {

  function MinR(a: real, b: real): real { if a <= b then a else b }
  function MaxR(a: real, b: real): real { if a >= b then a else b }
  function MinI(a: int, b: int): int { if a <= b then a else b }
  function MaxI(a: int, b: int): int { if a >= b then a else b }
  function AbsR(a: real): real { if a < 0.0 then -a else a }

  /** Python's `int(x)` on a float: truncation toward zero. */
  function Trunc(x: real): (n: int)
    ensures x >= 0.0 ==> 0 <= n && n as real <= x < n as real + 1.0
    ensures x < 0.0 ==> n <= 0 && n as real - 1.0 < x <= n as real
  {
    if x >= 0.0 then x.Floor else -((-x).Floor)
  }

  /** `int()` is monotone up to a non-negative bound. */
  lemma TruncMonotone(a: real, b: real)
    requires a <= b && b >= 0.0
    ensures Trunc(a) <= Trunc(b)
  {
  }

  /** The least integer that is not below `x`. */
  function Ceil(x: real): (n: int)
    ensures n as real - 1.0 < x <= n as real
  {
    -((-x).Floor)
  }

  lemma MulLeft(a: real, b: real, s: real)
    requires a <= b && s > 0.0
    ensures a * s <= b * s
  {
  }

  lemma MulStrict(a: real, b: real, s: real)
    requires a < b && s > 0.0
    ensures a * s < b * s
  {
  }

  lemma DivMul(a: real, s: real)
    requires s != 0.0
    ensures (a / s) * s == a
  {
  }

  /** For a positive divisor, a quotient is below `c` exactly when the
      dividend is below `c` times the divisor. */
  lemma QuotientBelow(a: real, c: real, s: real)
    requires s > 0.0
    ensures a / s < c <==> a < c * s
  {
    var q := a / s;
    DivMul(a, s);
    if q < c {
      MulStrict(q, c, s);
    } else {
      MulLeft(c, q, s);
    }
  }

  /** Products with the same positive factor compare as the other factors. */
  lemma MulLessCancel(a: int, b: int, s: int)
    requires s > 0 && a * s < b * s
    ensures a < b
  {
    assert b * s - a * s == (b - a) * s;
  }

  /** `n` is the ceiling of `x / s` when `x` lies in (`(n - 1) * s`, `n * s`]. */
  lemma CeilDiv(x: int, s: int, n: int)
    requires s > 0 && (n - 1) * s < x <= n * s
    ensures n == (x + s - 1) / s
  {
    var q, m := (x + s - 1) / s, (x + s - 1) % s;
    assert q * s + m == x + s - 1 && 0 <= m < s;
    assert (n - 1) * s == n * s - s;
    assert (n + 1) * s == n * s + s;
    assert (q + 1) * s == q * s + s;
    MulLessCancel(q, n + 1, s);
    MulLessCancel(n, q + 1, s);
  }

  lemma MulAtLeast(k: int, n: int)
    requires k >= 1 && n >= 0
    ensures k * n >= n
  {
  }

  /** Euclidean division recovers the row and column from a row-major index. */
  lemma DivModRowMajor(r: int, c: int, n: int)
    requires 0 <= r && 0 <= c < n
    ensures (r * n + c) / n == r && (r * n + c) % n == c
  {
    var i := r * n + c;
    var q := i / n;
    var m := i % n;
    assert 0 <= m < n;
    assert q * n + m == i;
    if q > r {
      MulAtLeast(q - r, n);
    } else if q < r {
      MulAtLeast(r - q, n);
    }
  }

  /** One row further down in a row-major layout: the row grows by one and
      the column stays. */
  lemma RowMajorNext(i: nat, n: nat)
    requires n > 0
    ensures (i + n) / n == i / n + 1 && (i + n) % n == i % n
  {
    var r, c := i / n, i % n;
    assert i == r * n + c;
    assert (r + 1) * n + c == i + n;
    DivModRowMajor(r + 1, c, n);
  }

  lemma MulAtLeastLeft(a: int, b: int, n: int)
    requires 0 <= a <= b && n >= 0
    ensures a * n <= b * n
  {
  }

  lemma ZeroProduct(z: real, s: real)
    requires s > 0.0 && z * s == 0.0
    ensures z == 0.0
  {
    if z > 0.0 {
      MulStrict(0.0, z, s);
    } else if z < 0.0 {
      MulStrict(z, 0.0, s);
    }
  }

  /** One step less is one fewer in the quotient. */
  lemma DivShift(a: real, s: real)
    requires s > 0.0
    ensures (a - s) / s == a / s - 1.0
  {
    var x := (a - s) / s;
    var y := a / s;
    assert x * s == a - s;
    assert y * s == a;
    assert (y - 1.0) * s == a - s;
    assert (x - (y - 1.0)) * s == 0.0;
    ZeroProduct(x - (y - 1.0), s);
  }

  /** Cell coordinates of index `i` of a row-major grid lie inside the grid. */
  lemma CellOfIndex(i: nat, rows: nat, cols: nat)
    requires i < rows * cols
    ensures cols > 0 && 0 <= i / cols < rows && 0 <= i % cols < cols && i == (i / cols) * cols + i % cols
  {
    if cols > 0 && i / cols >= rows {
      MulAtLeastLeft(rows, i / cols, cols);
    }
  }

  /** A non-zero factor cancels. */
  lemma MulCancel(a: real, b: real, d: real)
    requires d != 0.0 && a * d == b * d
    ensures a == b
  {
    assert (a - b) * d == 0.0;
    if d > 0.0 {
      ZeroProduct(a - b, d);
    } else {
      assert (a - b) * -d == 0.0;
      ZeroProduct(a - b, -d);
    }
  }
}
