/** Bit reversal of transform indices: the 64-entry table of 6-bit
    reversals and the 24-bit reversal composed from four table lookups. */
module BitReversal {
  import opened Arith
  import opened Powers

  /** The process-wide reversal table: entry k is k with its six low bits
      reversed. Declared as the four sixteen-entry rows it is laid out in,
      each written as two halves of eight. */
  const Rev6: seq<nat> := Rev6Row0 + Rev6Row1 + Rev6Row2 + Rev6Row3

  const Rev6Row0: seq<nat> := Rev6Row0a + Rev6Row0b
  const Rev6Row1: seq<nat> := Rev6Row1a + Rev6Row1b
  const Rev6Row2: seq<nat> := Rev6Row2a + Rev6Row2b
  const Rev6Row3: seq<nat> := Rev6Row3a + Rev6Row3b

  const Rev6Row0a: seq<nat> := [0x00, 0x20, 0x10, 0x30, 0x08, 0x28, 0x18, 0x38]
  const Rev6Row0b: seq<nat> := [0x04, 0x24, 0x14, 0x34, 0x0C, 0x2C, 0x1C, 0x3C]
  const Rev6Row1a: seq<nat> := [0x02, 0x22, 0x12, 0x32, 0x0A, 0x2A, 0x1A, 0x3A]
  const Rev6Row1b: seq<nat> := [0x06, 0x26, 0x16, 0x36, 0x0E, 0x2E, 0x1E, 0x3E]
  const Rev6Row2a: seq<nat> := [0x01, 0x21, 0x11, 0x31, 0x09, 0x29, 0x19, 0x39]
  const Rev6Row2b: seq<nat> := [0x05, 0x25, 0x15, 0x35, 0x0D, 0x2D, 0x1D, 0x3D]
  const Rev6Row3a: seq<nat> := [0x03, 0x23, 0x13, 0x33, 0x0B, 0x2B, 0x1B, 0x3B]
  const Rev6Row3b: seq<nat> := [0x07, 0x27, 0x17, 0x37, 0x0F, 0x2F, 0x1F, 0x3F]

  /** The reference reversal: the low `width` bits of v, in reverse order
      (bit i of v lands on bit width-1-i; bits of v at or above `width` are ignored). */
  function ReverseBits(v: int, width: nat): (r: nat)
    ensures r < Pow2(width)
    decreases width
  {
    if width == 0 then 0
    else ReverseBits(v / 2, width - 1) + (if v % 2 == 1 then Pow2(width - 1) else 0)
  }

  /** Reversing a+c bits: the low a bits, reversed, go to the top a places and
      the next c bits, reversed, fill the bottom c places. */
  lemma {:induction false} ReverseBitsSplit(v: int, a: nat, c: nat)
    ensures ReverseBits(v, a + c) == ReverseBits(v, a) * Pow2(c) + ReverseBits(v / Pow2(a), c)
    decreases a
  {
    if a > 0 {
      var h := v / 2;
      var top := if v % 2 == 1 then Pow2(a - 1) else 0;
      var p := Pow2(c);
      var x := ReverseBits(h, a - 1);
      var y := ReverseBits(h / Pow2(a - 1), c);
      ReverseBitsSplit(h, a - 1, c);
      assert ReverseBits(h, a - 1 + c) == x * p + y;
      DivDiv(v, 2, Pow2(a - 1));
      assert 2 * Pow2(a - 1) == Pow2(a);
      assert y == ReverseBits(v / Pow2(a), c);
      Pow2Add(a - 1, c);
      assert ReverseBits(v, a) == x + top;
      Distribute(x, top, p);
      assert ReverseBits(v, a) * p == x * p + top * p;
      var t := top * p;
      if v % 2 == 1 {
        assert t == Pow2(a - 1 + c);
      } else {
        assert t == 0;
      }
      assert a + c - 1 == a - 1 + c;
      assert ReverseBits(v, a + c) == ReverseBits(h, a - 1 + c) + t;
    } else {
      assert v / Pow2(a) == v;
      assert ReverseBits(v, a) * Pow2(c) == 0;
    }
  }

  /** Bits at or above the width do not take part in the reversal. */
  lemma {:induction false} ReverseBitsIgnoresHigh(v: int, k: int, w: nat)
    ensures ReverseBits(v + k * Pow2(w), w) == ReverseBits(v, w)
    decreases w
  {
    if w > 0 {
      var p := Pow2(w - 1);
      var x := v + k * Pow2(w);
      var y := v / 2 + k * p;
      HalfOfHigh(v, k, p, Pow2(w));
      ReverseBitsIgnoresHigh(v / 2, k, w - 1);
      assert ReverseBits(x, w) == ReverseBits(y, w - 1) + (if v % 2 == 1 then p else 0);
    }
  }

  /** Halving v + k q with q = 2 p: the multiple of q halves to k p and the
      lowest bit is that of v. */
  lemma HalfOfHigh(v: int, k: int, p: int, q: int)
    requires q == 2 * p
    ensures (v + k * q) / 2 == v / 2 + k * p && (v + k * q) % 2 == v % 2
  {
    assert k * q == 2 * (k * p);
    DivModUnique(v + k * q, 2, v / 2 + k * p, v % 2);
  }

  /** One unfolding of the reversal: the lowest bit of v becomes the top bit. */
  lemma ReverseBitsStep(v: int, w: nat)
    requires w > 0
    ensures ReverseBits(v, w) == ReverseBits(v / 2, w - 1) + (v % 2) * Pow2(w - 1)
  {
    if v % 2 == 1 {
      assert (v % 2) * Pow2(w - 1) == Pow2(w - 1);
    } else {
      assert (v % 2) * Pow2(w - 1) == 0;
    }
  }

  /** Reversing w bits of r + b*2^(w-1), where r lies below 2^(w-1) and b is
      a single bit: the top bit b comes out at the bottom and the low w-1 bits
      are reversed one place higher. */
  lemma ReverseBitsTopBit(r: int, b: int, w: nat)
    requires w > 0 && 0 <= r < Pow2(w - 1) && 0 <= b <= 1
    ensures ReverseBits(r + b * Pow2(w - 1), w) == ReverseBits(r, w - 1) * 2 + b
  {
    var p := Pow2(w - 1);
    var m := r + b * p;
    ReverseBitsSplit(m, w - 1, 1);
    assert w - 1 + 1 == w;
    assert Pow2(1) == 2;
    DivModUnique(m, p, b, r);
    assert ReverseBits(b, 1) == b;
    ReverseBitsIgnoresHigh(r, b, w - 1);
    assert ReverseBits(m, w - 1) == ReverseBits(r, w - 1);
    assert ReverseBits(m, w) == ReverseBits(m, w - 1) * 2 + ReverseBits(m / p, 1);
  }

  /** Reversing twice gives back every index below 2^w. */
  lemma {:induction false} ReverseBitsInvolutive(n: int, w: nat)
    requires 0 <= n < Pow2(w)
    ensures ReverseBits(ReverseBits(n, w), w) == n
    decreases w
  {
    if w > 0 {
      var r := ReverseBits(n / 2, w - 1);
      var b := n % 2;
      ReverseBitsStep(n, w);
      assert ReverseBits(n, w) == r + b * Pow2(w - 1);
      ReverseBitsTopBit(r, b, w);
      assert ReverseBits(ReverseBits(n, w), w) == ReverseBits(r, w - 1) * 2 + b;
      assert n / 2 < Pow2(w - 1);
      ReverseBitsInvolutive(n / 2, w - 1);
      assert ReverseBits(r, w - 1) == n / 2;
    } else {
      assert n == 0;
    }
  }

  /** On [0, 2^w) the reversal is a permutation: distinct indices have
      distinct reversals, and every index is the reversal of its own reversal. */
  lemma ReverseBitsBijective(w: nat)
    ensures forall i, j :: 0 <= i < Pow2(w) && 0 <= j < Pow2(w) && i != j ==>
              ReverseBits(i, w) != ReverseBits(j, w)
    ensures forall k :: 0 <= k < Pow2(w) ==> ReverseBits(ReverseBits(k, w), w) == k
  {
    forall i, j | 0 <= i < Pow2(w) && 0 <= j < Pow2(w) && i != j
      ensures ReverseBits(i, w) != ReverseBits(j, w)
    {
      ReverseBitsInvolutive(i, w);
      ReverseBitsInvolutive(j, w);
    }
    forall k | 0 <= k < Pow2(w)
      ensures ReverseBits(ReverseBits(k, w), w) == k
    {
      ReverseBitsInvolutive(k, w);
    }
  }

  /** Six-bit reversal written out bit by bit. */
  function Rev6Formula(k: int): int
    requires k >= 0
  {
    32 * (k % 2) + 16 * (k / 2 % 2) + 8 * (k / 4 % 2) + 4 * (k / 8 % 2) + 2 * (k / 16 % 2) + k / 32 % 2
  }

  lemma Rev6FormulaIsReverse(k: nat)
    ensures ReverseBits(k, 6) == Rev6Formula(k)
  {
    var k1 := k / 2; var k2 := k1 / 2; var k3 := k2 / 2; var k4 := k3 / 2; var k5 := k4 / 2;
    DivDiv(k, 2, 2);
    DivDiv(k, 4, 2);
    DivDiv(k, 8, 2);
    DivDiv(k, 16, 2);
    assert k2 == k / 4 && k3 == k / 8 && k4 == k / 16 && k5 == k / 32;
    assert Pow2(0) == 1 && Pow2(1) == 2 && Pow2(2) == 4;
    assert Pow2(3) == 8 && Pow2(4) == 16 && Pow2(5) == 32;
    ReverseBitsStep(k5, 1);
    ReverseBitsStep(k4, 2);
    ReverseBitsStep(k3, 3);
    ReverseBitsStep(k2, 4);
    ReverseBitsStep(k1, 5);
    ReverseBitsStep(k, 6);
    var r1 := ReverseBits(k5, 1);
    assert r1 == k5 % 2;
    var r2 := ReverseBits(k4, 2);
    assert r2 == r1 + 2 * (k4 % 2);
    var r3 := ReverseBits(k3, 3);
    assert r3 == r2 + 4 * (k3 % 2);
    var r4 := ReverseBits(k2, 4);
    assert r4 == r3 + 8 * (k2 % 2);
    var r5 := ReverseBits(k1, 5);
    assert r5 == r4 + 16 * (k1 % 2);
    assert ReverseBits(k, 6) == r5 + 32 * (k % 2);
  }

  /* The eight RowEntries lemmas below check the table against
     Rev6Formula one eighth at a time, entry by entry. They are written out
     separately on purpose: each constant is a distinct eight-element
     display, and asking the solver to evaluate indices into the whole
     64-entry table in one lemma costs far more than these eight small
     case splits put together. */

  lemma Rev6Row0aEntries(c: int)
    requires 0 <= c < 8
    ensures Rev6Row0a[c] == Rev6Formula(0 + c)
  {
    if c == 0 {}
    else if c == 1 {}
    else if c == 2 {}
    else if c == 3 {}
    else if c == 4 {}
    else if c == 5 {}
    else if c == 6 {}
    else if c == 7 {}
  }

  lemma Rev6Row0bEntries(c: int)
    requires 0 <= c < 8
    ensures Rev6Row0b[c] == Rev6Formula(8 + c)
  {
    if c == 0 {}
    else if c == 1 {}
    else if c == 2 {}
    else if c == 3 {}
    else if c == 4 {}
    else if c == 5 {}
    else if c == 6 {}
    else if c == 7 {}
  }

  lemma Rev6Row1aEntries(c: int)
    requires 0 <= c < 8
    ensures Rev6Row1a[c] == Rev6Formula(16 + c)
  {
    if c == 0 {}
    else if c == 1 {}
    else if c == 2 {}
    else if c == 3 {}
    else if c == 4 {}
    else if c == 5 {}
    else if c == 6 {}
    else if c == 7 {}
  }

  lemma Rev6Row1bEntries(c: int)
    requires 0 <= c < 8
    ensures Rev6Row1b[c] == Rev6Formula(24 + c)
  {
    if c == 0 {}
    else if c == 1 {}
    else if c == 2 {}
    else if c == 3 {}
    else if c == 4 {}
    else if c == 5 {}
    else if c == 6 {}
    else if c == 7 {}
  }

  lemma Rev6Row2aEntries(c: int)
    requires 0 <= c < 8
    ensures Rev6Row2a[c] == Rev6Formula(32 + c)
  {
    if c == 0 {}
    else if c == 1 {}
    else if c == 2 {}
    else if c == 3 {}
    else if c == 4 {}
    else if c == 5 {}
    else if c == 6 {}
    else if c == 7 {}
  }

  lemma Rev6Row2bEntries(c: int)
    requires 0 <= c < 8
    ensures Rev6Row2b[c] == Rev6Formula(40 + c)
  {
    if c == 0 {}
    else if c == 1 {}
    else if c == 2 {}
    else if c == 3 {}
    else if c == 4 {}
    else if c == 5 {}
    else if c == 6 {}
    else if c == 7 {}
  }

  lemma Rev6Row3aEntries(c: int)
    requires 0 <= c < 8
    ensures Rev6Row3a[c] == Rev6Formula(48 + c)
  {
    if c == 0 {}
    else if c == 1 {}
    else if c == 2 {}
    else if c == 3 {}
    else if c == 4 {}
    else if c == 5 {}
    else if c == 6 {}
    else if c == 7 {}
  }

  lemma Rev6Row3bEntries(c: int)
    requires 0 <= c < 8
    ensures Rev6Row3b[c] == Rev6Formula(56 + c)
  {
    if c == 0 {}
    else if c == 1 {}
    else if c == 2 {}
    else if c == 3 {}
    else if c == 4 {}
    else if c == 5 {}
    else if c == 6 {}
    else if c == 7 {}
  }

  /** The table agrees with the bit-by-bit formula at every index. */
  lemma Rev6MatchesFormula(k: int)
    requires 0 <= k < 64
    ensures |Rev6| == 64 && Rev6[k] == Rev6Formula(k)
  {
    if k < 16 {
      assert Rev6[k] == Rev6Row0[k];
      if k < 8 { Rev6Row0aEntries(k); } else { Rev6Row0bEntries(k - 8); }
    } else if k < 32 {
      assert Rev6[k] == Rev6Row1[k - 16];
      if k < 24 { Rev6Row1aEntries(k - 16); } else { Rev6Row1bEntries(k - 24); }
    } else if k < 48 {
      assert Rev6[k] == Rev6Row2[k - 32];
      if k < 40 { Rev6Row2aEntries(k - 32); } else { Rev6Row2bEntries(k - 40); }
    } else {
      assert Rev6[k] == Rev6Row3[k - 48];
      if k < 56 { Rev6Row3aEntries(k - 48); } else { Rev6Row3bEntries(k - 56); }
    }
  }

  /** Every entry of the table is the six-bit reversal of its index. */
  lemma Rev6Table()
    ensures |Rev6| == 64
    ensures forall k :: 0 <= k < 64 ==> Rev6[k] == ReverseBits(k, 6)
  {
    forall k | 0 <= k < 64
      ensures Rev6[k] == ReverseBits(k, 6)
    {
      Rev6FormulaIsReverse(k);
      Rev6MatchesFormula(k);
    }
  }

  /** One table lookup reverses the low six bits of v. */
  lemma ChunkReverse(v: nat)
    ensures 0 <= v % 64 < |Rev6|
    ensures Rev6[v % 64] == ReverseBits(v, 6)
  {
    Rev6Table();
    assert Pow2(6) == 64;
    assert v == v % 64 + (v / 64) * Pow2(6);
    ReverseBitsIgnoresHigh(v % 64, v / 64, 6);
  }

  /** The four shift-and-insert steps build the 24-bit reversal of n. */
  lemma Reverse24Chunks(n: nat)
    ensures 0 <= n % 64 < |Rev6| && 0 <= n / 64 % 64 < |Rev6|
    ensures 0 <= n / 64 / 64 % 64 < |Rev6| && 0 <= n / 64 / 64 / 64 % 64 < |Rev6|
    ensures ((Rev6[n % 64] * 64 + Rev6[n / 64 % 64]) * 64 + Rev6[n / 64 / 64 % 64]) * 64
            + Rev6[n / 64 / 64 / 64 % 64] == ReverseBits(n, 24)
  {
    var n1 := n / 64;
    var n2 := n1 / 64;
    var n3 := n2 / 64;
    assert Pow2(6) == 64;
    assert Pow2(12) == 4096;
    assert Pow2(18) == 262144;
    ReverseBitsSplit(n, 6, 18);
    ReverseBitsSplit(n1, 6, 12);
    ReverseBitsSplit(n2, 6, 6);
    ChunkReverse(n);
    ChunkReverse(n1);
    ChunkReverse(n2);
    ChunkReverse(n3);
  }

  /** Dropping the total - bits low places of a total-bit reversal leaves the
      reversal of the low `bits` bits. */
  lemma ShiftDown(n: nat, bits: nat, total: nat)
    requires bits <= total
    ensures ReverseBits(n, total) / Pow2(total - bits) == ReverseBits(n, bits)
  {
    var c := total - bits;
    DivNonNegative(n, Pow2(bits));
    var x, q, r := ReverseBits(n, bits + c), ReverseBits(n, bits), ReverseBits(n / Pow2(bits), c);
    ReverseBitsSplit(n, bits, c);
    DivModUnique(x, Pow2(c), q, r);
    assert bits + c == total;
  }

  /** _lifft_rev_bits24: four table lookups, each shifting the partial result
      left by six places and inserting the reversed next six bits of n (the
      shift leaves the low six places zero, so the bitwise or is a sum), then a
      right shift by 24 - bits. The result is the `bits`-bit reversal of n. */
  function RevBits24(n: nat, bits: nat): (r: nat)
    requires bits <= 24
    ensures r == ReverseBits(n, bits)
    ensures r < Pow2(bits)
  {
    Reverse24Chunks(n);
    var rev1 := 0 * 64 + Rev6[n % 64];
    var n1 := n / 64;
    var rev2 := rev1 * 64 + Rev6[n1 % 64];
    var n2 := n1 / 64;
    var rev3 := rev2 * 64 + Rev6[n2 % 64];
    var n3 := n2 / 64;
    var rev4 := rev3 * 64 + Rev6[n3 % 64];
    assert rev4 == ReverseBits(n, 24);
    ShiftDown(n, bits, 24);
    assert rev4 / Pow2(24 - bits) == ReverseBits(n, bits);
    DivNonNegative(rev4, Pow2(24 - bits));
    rev4 / Pow2(24 - bits)
  }

  /** Applying the reversal twice returns every index below 2^bits. */
  lemma RevBits24Involutive(n: nat, bits: nat)
    requires bits <= 24 && n < Pow2(bits)
    ensures RevBits24(RevBits24(n, bits), bits) == n
  {
    ReverseBitsInvolutive(n, bits);
  }

  /** On [0, 2^bits) the reversal is one-to-one, and onto: every k in range
      is the image of the in-range index RevBits24(k, bits). */
  lemma RevBits24Bijective(bits: nat)
    requires bits <= 24
    ensures forall i, j :: 0 <= i < Pow2(bits) && 0 <= j < Pow2(bits) && i != j ==>
              RevBits24(i, bits) != RevBits24(j, bits)
    ensures forall k :: 0 <= k < Pow2(bits) ==>
              RevBits24(k, bits) < Pow2(bits) && RevBits24(RevBits24(k, bits), bits) == k
  {
    forall i, j | 0 <= i < Pow2(bits) && 0 <= j < Pow2(bits) && i != j
      ensures RevBits24(i, bits) != RevBits24(j, bits)
    {
      RevBits24Involutive(i, bits);
      RevBits24Involutive(j, bits);
    }
    forall k | 0 <= k < Pow2(bits)
      ensures RevBits24(RevBits24(k, bits), bits) == k
    {
      RevBits24Involutive(k, bits);
    }
  }
}
