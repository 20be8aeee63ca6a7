/** Integer division and multiplication facts, proved once in isolation so
    that the index arithmetic elsewhere can cite them, and the one real
    distributive step the energy proofs need. */
module Arith {

  /** c * t splits over t = a + b. */
  lemma ScaleSum(c: real, a: real, b: real, t: real)
    requires t == a + b
    ensures c * t == c * a + c * b
  {
  }

  lemma Distribute(x: int, y: int, z: int)
    ensures (x + y) * z == x * z + y * z
  {
  }

  lemma MulMonotone(x: int, y: int, z: int)
    requires x <= y && z >= 0
    ensures x * z <= y * z
  {
    Distribute(y - x, x, z);
  }

  lemma MulAtLeast(a: int, d: int)
    requires a >= 1 && d > 0
    ensures a * d >= d
  {
    MulMonotone(1, a, d);
  }

  lemma PositiveFactor(q: int, d: int)
    requires d > 0 && q * d > 0
    ensures q >= 1
  {
    if q <= 0 {
      MulMonotone(q, 0, d);
    }
  }

  lemma DivNonNegative(n: int, d: int)
    requires n >= 0 && d >= 1
    ensures n / d >= 0
  {
  }

  /** Euclidean division is unique: any quotient/remainder pair is THE pair. */
  lemma DivModUnique(x: int, d: int, q: int, r: int)
    requires d > 0 && 0 <= r < d && x == q * d + r
    ensures x / d == q && x % d == r
  {
    var q', r' := x / d, x % d;
    assert x == q' * d + r';
    Distribute(q, -q', d);
    assert (q - q') * d == r' - r;
    if q > q' {
      MulAtLeast(q - q', d);
    } else if q < q' {
      MulAtLeast(q' - q, d);
      Distribute(q', -q, d);
    }
  }

  lemma DivDiv(x: int, a: int, b: int)
    requires a > 0 && b > 0
    ensures x / a / b == x / (a * b)
  {
    var q1, r1 := x / a, x % a;
    var q2, r2 := q1 / b, q1 % b;
    assert x == q1 * a + r1;
    assert q1 == q2 * b + r2;
    Distribute(q2 * b, r2, a);
    assert q2 * b * a == q2 * (a * b);
    assert x == q2 * (a * b) + (r2 * a + r1);
    MulMonotone(r2, b - 1, a);
    Distribute(b, -1, a);
    assert r2 * a + r1 < a * b;
    DivModUnique(x, a * b, q2, r2 * a + r1);
  }

  lemma MultipleOf(m: int, d: int)
    requires d > 0
    ensures (m * d) % d == 0 && (m * d) / d == m
  {
    DivModUnique(m * d, d, m, 0);
  }

  /** Removing one block from a whole number of blocks leaves a whole number. */
  lemma MultipleShrink(x: int, d: int)
    requires d > 0 && x > 0 && x % d == 0
    ensures x >= d && (x - d) % d == 0
  {
    var q := x / d;
    assert x == q * d;
    PositiveFactor(q, d);
    MulAtLeast(q, d);
    Distribute(q, -1, d);
    DivModUnique(x - d, d, q - 1, 0);
  }

  /** Adding one block to a whole number of blocks keeps it whole. */
  lemma MultipleGrow(x: int, d: int)
    requires d > 0 && x % d == 0
    ensures (x + d) % d == 0
  {
    var q := x / d;
    assert x + d == (q + 1) * d;
    DivModUnique(x + d, d, q + 1, 0);
  }

  /** A block start before the end of a whole number of blocks leaves room for the block. */
  lemma BlockFits(i: int, n: int, d: int)
    requires d > 0 && i >= 0 && i % d == 0 && n % d == 0 && i < n
    ensures i + d <= n
  {
    var qi, qn := i / d, n / d;
    assert i == qi * d && n == qn * d;
    Distribute(qn, -qi, d);
    PositiveFactor(qn - qi, d);
    MulAtLeast(qn - qi, d);
  }
}
