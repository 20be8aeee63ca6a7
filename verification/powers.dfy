/** Powers of two and the integer base-2 logarithm. */
module Powers {
  import opened Arith

  /** 2^k. */
  function Pow2(k: nat): (r: nat)
    ensures r >= 1
  {
    if k == 0 then 1 else 2 * Pow2(k - 1)
  }

  /** floor(log2(n)) for n >= 1: the largest r with 2^r <= n. */
  function Log2Floor(n: nat): (r: nat)
    requires n >= 1
    ensures Pow2(r) <= n < Pow2(r + 1)
  {
    if n == 1 then 0 else 1 + Log2Floor(n / 2)
  }

  /** n is an exact power of two. */
  predicate IsPow2(n: nat) {
    n >= 1 && Pow2(Log2Floor(n)) == n
  }

  lemma {:induction false} Pow2Add(a: nat, c: nat)
    ensures Pow2(a + c) == Pow2(a) * Pow2(c)
  {
    if a > 0 {
      Pow2Add(a - 1, c);
      assert Pow2(a + c) == 2 * Pow2(a - 1 + c);
      assert Pow2(a) * Pow2(c) == 2 * (Pow2(a - 1) * Pow2(c));
    }
  }

  /** 2^k is strictly increasing, so it determines its exponent. */
  lemma {:induction false} Pow2Less(a: nat, b: nat)
    ensures a < b <==> Pow2(a) < Pow2(b)
  {
    if a < b {
      Pow2Add(a, b - a);
      assert Pow2(b - a) >= 2 by {
        assert Pow2(b - a) == 2 * Pow2(b - a - 1);
      }
      MulMonotone(2, Pow2(b - a), Pow2(a));
    } else if b < a {
      Pow2Less(b, a);
    }
  }

  /** floor(log2(2^b)) is exactly b, so every power of two passes IsPow2. */
  lemma {:induction false} Log2OfPow2(b: nat)
    ensures Log2Floor(Pow2(b)) == b
    ensures IsPow2(Pow2(b))
  {
    if b > 0 {
      Log2OfPow2(b - 1);
      assert Pow2(b) / 2 == Pow2(b - 1);
    }
  }

  /** A smaller power of two divides a larger one. */
  lemma Pow2Divides(a: nat, b: nat)
    requires a <= b
    ensures Pow2(b) % Pow2(a) == 0
    ensures Pow2(b) / Pow2(a) == Pow2(b - a)
  {
    Pow2Add(b - a, a);
    MultipleOf(Pow2(b - a), Pow2(a));
  }
}
