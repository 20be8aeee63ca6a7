/** The discrete Fourier transform as an independent reference, and the
    small sizes at which the butterfly pass is shown to compute it: with the
    twiddles the source uses (cispi(-1/stride)), two samples need the root
    -1 and four the root -i, both exact, so no trigonometry is involved. */
module Fourier {
  import opened Powers
  import opened ComplexArith
  import opened Signals
  import opened BitReversal
  import opened SetupStage
  import opened Butterfly
  import opened Transform

  /** The first m terms of entry k of the DFT with root w:
      the sum over j < m of w^(k j) xs[j]. */
  function DftSum(xs: seq<Complex>, w: Complex, k: nat, m: nat): Complex
    requires m <= |xs|
  {
    if m == 0 then Zero
    else Add(DftSum(xs, w, k, m - 1), Mul(Pow(w, k * (m - 1)), xs[m - 1]))
  }

  /** Reference definition of the DFT with root w: entry k is the sum over
      all j of w^(k j) xs[j]. */
  function Dft(xs: seq<Complex>, w: Complex): (ys: seq<Complex>)
    ensures |ys| == |xs|
  {
    seq(|xs|, k requires 0 <= k < |xs| => DftSum(xs, w, k, |xs|))
  }

  /** One more term of a partial sum. */
  lemma DftSumNext(xs: seq<Complex>, w: Complex, k: nat, m: nat, e: nat)
    requires 0 < m <= |xs| && e == k * (m - 1)
    ensures DftSum(xs, w, k, m) == Add(DftSum(xs, w, k, m - 1), Mul(Pow(w, e), xs[m - 1]))
  {
  }

  /** A real factor distributes over a sum. */
  lemma AddScale(a: Complex, b: Complex, s: real)
    ensures Add(Scale(a, s), Scale(b, s)) == Scale(Add(a, b), s)
  {
    assert a.re * s + b.re * s == (a.re + b.re) * s;
    assert a.im * s + b.im * s == (a.im + b.im) * s;
  }

  /** Scaling every input by s scales every partial sum by s. */
  lemma {:induction false} DftSumScale(xs: seq<Complex>, w: Complex, k: nat, m: nat, s: real)
    requires m <= |xs|
    ensures DftSum(ScaleAll(xs, s), w, k, m) == Scale(DftSum(xs, w, k, m), s)
  {
    if m > 0 {
      var e := k * (m - 1);
      var p := Pow(w, e);
      DftSumScale(xs, w, k, m - 1, s);
      DftSumNext(xs, w, k, m, e);
      DftSumNext(ScaleAll(xs, s), w, k, m, e);
      assert ScaleAll(xs, s)[m - 1] == Scale(xs[m - 1], s);
      MulScale(p, xs[m - 1], s);
      AddScale(DftSum(xs, w, k, m - 1), Mul(p, xs[m - 1]), s);
    }
  }

  /** The DFT is linear: normalising the input normalises the output. */
  lemma DftScale(xs: seq<Complex>, w: Complex, s: real)
    ensures Dft(ScaleAll(xs, s), w) == ScaleAll(Dft(xs, w), s)
  {
    forall k | 0 <= k < |xs|
      ensures Dft(ScaleAll(xs, s), w)[k] == ScaleAll(Dft(xs, w), s)[k]
    {
      DftSumScale(xs, w, k, |xs|, s);
    }
  }

  /** A partial sum of two terms, written out. */
  lemma DftSumTwo(xs: seq<Complex>, w: Complex, k: nat)
    requires |xs| == 2
    ensures DftSum(xs, w, k, 2) == Add(Add(Zero, Mul(Pow(w, 0), xs[0])), Mul(Pow(w, k), xs[1]))
  {
    DftSumNext(xs, w, k, 1, 0);
    DftSumNext(xs, w, k, 2, k);
  }

  /** The two-point DFT (root -1): sum and difference. */
  lemma DftOfTwo(xs: seq<Complex>)
    requires |xs| == 2
    ensures Dft(xs, Complex(-1.0, 0.0)) == [Add(xs[0], xs[1]), Sub(xs[0], xs[1])]
  {
    var w := Complex(-1.0, 0.0);
    assert Pow(w, 0) == One;
    assert Pow(w, 1) == Mul(One, w) == w;
    DftSumTwo(xs, w, 0);
    DftSumTwo(xs, w, 1);
    assert Dft(xs, w)[0] == DftSum(xs, w, 0, 2);
    assert Dft(xs, w)[1] == DftSum(xs, w, 1, 2);
  }

  /** The first powers of any z, by the running product alone. */
  lemma PowSmall(z: Complex)
    ensures Pow(z, 1) == z && Pow(z, 2) == Mul(z, z) && Pow(z, 3) == Mul(Mul(z, z), z)
  {
    assert Pow(z, 1) == Mul(One, z);
    MulOne(z);
    assert Pow(z, 2) == Mul(Pow(z, 1), z);
    assert Pow(z, 3) == Mul(Pow(z, 2), z);
  }

  /** A quarter turn squared is a half turn. */
  lemma QuarterSquared(q: Complex)
    requires q == Complex(0.0, 1.0) || q == Complex(0.0, -1.0)
    ensures Mul(q, q) == Complex(-1.0, 0.0)
  {
    if q == Complex(0.0, 1.0) { } else { }
  }

  /** A half turn times a quarter turn is the opposite quarter turn. */
  lemma HalfTimesQuarter(q: Complex, h: Complex)
    requires q.re == 0.0 && h == Complex(-1.0, 0.0)
    ensures Mul(h, q) == Complex(0.0, -q.im)
  {
  }

  /** A quarter turn to the fourth power is the identity: the opposite
      quarter turn times the quarter turn is 1. */
  lemma OppositeTimesQuarter(q: Complex)
    requires q == Complex(0.0, 1.0) || q == Complex(0.0, -1.0)
    ensures Mul(Complex(0.0, -q.im), q) == One
  {
    if q == Complex(0.0, 1.0) { } else { }
  }

  /** Powers add: z^(a + b) = z^a z^b. */
  lemma {:induction false} PowAdd(z: Complex, a: nat, b: nat)
    ensures Pow(z, a + b) == Mul(Pow(z, a), Pow(z, b))
    decreases b
  {
    if b == 0 {
      MulOne(Pow(z, a));
    } else {
      PowAdd(z, a, b - 1);
      MulAssociative(Pow(z, a), Pow(z, b - 1), z);
    }
  }

  /** The powers of a quarter turn q = i or q = -i up to q^3: 1, q, -1, -q. */
  lemma QuarterPowers(q: Complex)
    requires q == Complex(0.0, 1.0) || q == Complex(0.0, -1.0)
    ensures Pow(q, 0) == One && Pow(q, 1) == q
    ensures Pow(q, 2) == Complex(-1.0, 0.0) && Pow(q, 3) == Complex(0.0, -q.im)
  {
    PowSmall(q);
    QuarterSquared(q);
    HalfTimesQuarter(q, Mul(q, q));
  }

  /** A quarter turn to the fourth power is 1. */
  lemma QuarterFourth(q: Complex)
    requires q == Complex(0.0, 1.0) || q == Complex(0.0, -1.0)
    ensures Pow(q, 4) == One
  {
    QuarterPowers(q);
    assert Pow(q, 4) == Mul(Pow(q, 3), q);
    OppositeTimesQuarter(q);
  }

  /** q^6 = q^2 q^4 = -1. */
  lemma QuarterSixth(q: Complex)
    requires Pow(q, 2) == Complex(-1.0, 0.0) && Pow(q, 4) == One
    ensures Pow(q, 6) == Complex(-1.0, 0.0)
  {
    PowAdd(q, 2, 4);
    MulOne(Complex(-1.0, 0.0));
  }

  /** q^8 = q^4 q^4 = 1. */
  lemma QuarterEighth(q: Complex)
    requires Pow(q, 4) == One
    ensures Pow(q, 8) == One
  {
    PowAdd(q, 4, 4);
    MulOne(One);
  }

  /** q^9 = q^8 q = q. */
  lemma QuarterNinth(q: Complex)
    requires Pow(q, 1) == q && Pow(q, 8) == One
    ensures Pow(q, 9) == q
  {
    PowAdd(q, 8, 1);
    MulOne(q);
  }

  /** The higher powers the four-point DFT meets, q^4 = 1, q^6 = -1 and
      q^9 = q: the powers of a quarter turn repeat every four steps. */
  lemma QuarterPowersHigh(q: Complex)
    requires q == Complex(0.0, 1.0) || q == Complex(0.0, -1.0)
    ensures Pow(q, 4) == One && Pow(q, 6) == Complex(-1.0, 0.0) && Pow(q, 9) == q
  {
    QuarterPowers(q);
    QuarterFourth(q);
    QuarterSixth(q);
    QuarterEighth(q);
    QuarterNinth(q);
  }

  /** Multiplying by -1 negates. */
  lemma MulHalfTurn(x: Complex)
    ensures Mul(Complex(-1.0, 0.0), x) == Complex(-x.re, -x.im)
  {
  }

  /** Multiplying by the opposite quarter turn negates the product with q. */
  lemma MulOppositeQuarter(q: Complex, x: Complex)
    requires q.re == 0.0
    ensures Mul(Complex(0.0, -q.im), x) == Complex(-Mul(q, x).re, -Mul(q, x).im)
  {
  }

  /** One entry of the four-point DFT, its four terms written out, the
      exponents k, 2k and 3k named. */
  lemma DftSumFour(xs: seq<Complex>, w: Complex, k: nat, ea: nat, eb: nat, ec: nat)
    requires |xs| == 4 && ea == k && eb == k * 2 && ec == k * 3
    ensures DftSum(xs, w, k, 4)
         == Add(Add(Add(Add(Zero, Mul(Pow(w, 0), xs[0])), Mul(Pow(w, ea), xs[1])),
                    Mul(Pow(w, eb), xs[2])),
                Mul(Pow(w, ec), xs[3]))
  {
    DftSumNext(xs, w, k, 1, 0);
    DftSumNext(xs, w, k, 2, ea);
    DftSumNext(xs, w, k, 3, eb);
    DftSumNext(xs, w, k, 4, ec);
  }

  /** Entry k of the four-point DFT, with the three powers it uses named. */
  lemma DftFourTerms(xs: seq<Complex>, w: Complex, k: nat, ea: nat, eb: nat, ec: nat,
                     a: Complex, b: Complex, c: Complex)
    requires |xs| == 4 && k < 4 && ea == k && eb == k * 2 && ec == k * 3
    requires Pow(w, 0) == One && a == Pow(w, ea) && b == Pow(w, eb) && c == Pow(w, ec)
    ensures Dft(xs, w)[k] == Add(Add(Add(xs[0], Mul(a, xs[1])), Mul(b, xs[2])), Mul(c, xs[3]))
  {
    DftSumFour(xs, w, k, ea, eb, ec);
    MulOne(xs[0]);
  }

  /** The four entries of the four-point DFT with the powers of the
      quarter turn q substituted. */
  lemma DftFourPowers(xs: seq<Complex>, q: Complex)
    requires |xs| == 4
    requires q == Complex(0.0, 1.0) || q == Complex(0.0, -1.0)
    ensures Dft(xs, q)[0] == Add(Add(Add(xs[0], Mul(One, xs[1])), Mul(One, xs[2])), Mul(One, xs[3]))
    ensures Dft(xs, q)[1] == Add(Add(Add(xs[0], Mul(q, xs[1])), Mul(Complex(-1.0, 0.0), xs[2])),
                                 Mul(Complex(0.0, -q.im), xs[3]))
    ensures Dft(xs, q)[2] == Add(Add(Add(xs[0], Mul(Complex(-1.0, 0.0), xs[1])), Mul(One, xs[2])),
                                 Mul(Complex(-1.0, 0.0), xs[3]))
    ensures Dft(xs, q)[3] == Add(Add(Add(xs[0], Mul(Complex(0.0, -q.im), xs[1])), Mul(Complex(-1.0, 0.0), xs[2])),
                                 Mul(q, xs[3]))
  {
    QuarterPowers(q);
    QuarterPowersHigh(q);
    DftFourTerms(xs, q, 0, 0, 0, 0, One, One, One);
    DftFourTerms(xs, q, 1, 1, 2, 3, q, Complex(-1.0, 0.0), Complex(0.0, -q.im));
    DftFourTerms(xs, q, 2, 2, 4, 6, Complex(-1.0, 0.0), One, Complex(-1.0, 0.0));
    DftFourTerms(xs, q, 3, 3, 6, 9, Complex(0.0, -q.im), Complex(-1.0, 0.0), q);
  }

  /** The arithmetic that turns those entries into their familiar form. */
  lemma DftFourSimplify(x0: Complex, x1: Complex, x2: Complex, x3: Complex, q: Complex)
    requires q.re == 0.0
    ensures Add(Add(Add(x0, Mul(One, x1)), Mul(One, x2)), Mul(One, x3))
         == Add(Add(x0, x1), Add(x2, x3))
    ensures Add(Add(Add(x0, Mul(q, x1)), Mul(Complex(-1.0, 0.0), x2)), Mul(Complex(0.0, -q.im), x3))
         == Sub(Add(x0, Mul(q, x1)), Add(x2, Mul(q, x3)))
    ensures Add(Add(Add(x0, Mul(Complex(-1.0, 0.0), x1)), Mul(One, x2)), Mul(Complex(-1.0, 0.0), x3))
         == Sub(Add(x0, x2), Add(x1, x3))
    ensures Add(Add(Add(x0, Mul(Complex(0.0, -q.im), x1)), Mul(Complex(-1.0, 0.0), x2)), Mul(q, x3))
         == Sub(Add(x0, Mul(q, x3)), Add(x2, Mul(q, x1)))
  {
    MulOne(x1);
    MulOne(x2);
    MulOne(x3);
    MulHalfTurn(x1);
    MulHalfTurn(x2);
    MulHalfTurn(x3);
    MulOppositeQuarter(q, x1);
    MulOppositeQuarter(q, x3);
  }

  /** The four-point DFT with a quarter-turn root q: the familiar
      x0 + x1 + x2 + x3, x0 + q x1 - x2 - q x3, x0 - x1 + x2 - x3,
      x0 - q x1 - x2 + q x3. */
  lemma DftOfFour(xs: seq<Complex>, q: Complex)
    requires |xs| == 4
    requires q == Complex(0.0, 1.0) || q == Complex(0.0, -1.0)
    ensures Dft(xs, q)
         == [Add(Add(xs[0], xs[1]), Add(xs[2], xs[3])),
             Sub(Add(xs[0], Mul(q, xs[1])), Add(xs[2], Mul(q, xs[3]))),
             Sub(Add(xs[0], xs[2]), Add(xs[1], xs[3])),
             Sub(Add(xs[0], Mul(q, xs[3])), Add(xs[2], Mul(q, xs[1])))]
  {
    DftFourPowers(xs, q);
    DftFourSimplify(xs[0], xs[1], xs[2], xs[3], q);
    SeqOfFour(Dft(xs, q), Add(Add(xs[0], xs[1]), Add(xs[2], xs[3])),
              Sub(Add(xs[0], Mul(q, xs[1])), Add(xs[2], Mul(q, xs[3]))),
              Sub(Add(xs[0], xs[2]), Add(xs[1], xs[3])),
              Sub(Add(xs[0], Mul(q, xs[3])), Add(xs[2], Mul(q, xs[1]))));
  }

  /** A sequence of four elements is the display of its elements. */
  lemma SeqOfFour<T>(s: seq<T>, a: T, b: T, c: T, d: T)
    requires |s| == 4 && s[0] == a && s[1] == b && s[2] == c && s[3] == d
    ensures s == [a, b, c, d]
  {
  }

  /** Four samples are bit-reversed as 0, 2, 1, 3. */
  lemma BitReversedOfFour(xs: seq<Complex>, norm: real)
    requires |xs| == 4
    ensures IsPow2(|xs|)
    ensures BitReversed(xs, norm)
         == [Scale(xs[0], norm), Scale(xs[2], norm), Scale(xs[1], norm), Scale(xs[3], norm)]
  {
    Log2OfPow2(2);
    assert ReverseBits(0, 2) == 0 && ReverseBits(1, 2) == 2;
    assert ReverseBits(2, 2) == 1 && ReverseBits(3, 2) == 3;
    var ys := BitReversed(xs, norm);
    SeqOfFour(ys, Scale(xs[0], norm), Scale(xs[2], norm), Scale(xs[1], norm), Scale(xs[3], norm));
  }

  /** The butterfly pass on four samples, read straight off the stages:
      stride 1 pairs (y0, y1) and (y2, y3) with twiddle 1, stride 2 pairs
      the results with twiddles 1 and w = tw(2). */
  lemma AllStagesOfFourTerms(ys: seq<Complex>, tw: Twiddles)
    requires |ys| == 4
    ensures IsPow2(|ys|)
    ensures
      var w1, w2 := tw(1), tw(2);
      var z0 := Add(ys[0], Mul(Pow(w1, 0), ys[1]));
      var z1 := Sub(ys[0], Mul(Pow(w1, 0), ys[1]));
      var z2 := Add(ys[2], Mul(Pow(w1, 0), ys[3]));
      var z3 := Sub(ys[2], Mul(Pow(w1, 0), ys[3]));
      AllStages(ys, tw)
        == [Add(z0, Mul(Pow(w2, 0), z2)), Add(z1, Mul(Pow(w2, 1), z3)),
            Sub(z0, Mul(Pow(w2, 0), z2)), Sub(z1, Mul(Pow(w2, 1), z3))]
  {
    Log2OfPow2(2);
    var w1, w2 := tw(1), tw(2);
    StagesLast(ys, tw, 2);
    StagesLast(ys, tw, 1);
    var zs := Stage(ys, 1, w1);
    assert Stages(ys, tw, 1) == zs;
    StageIndex(ys, 1, w1, 0, 0);
    StageIndex(ys, 1, w1, 2, 0);
    var out := Stage(zs, 2, w2);
    StageIndex(zs, 2, w2, 0, 0);
    StageIndex(zs, 2, w2, 0, 1);
    SeqOfFour(out, Add(zs[0], Mul(Pow(w2, 0), zs[2])), Add(zs[1], Mul(Pow(w2, 1), zs[3])),
              Sub(zs[0], Mul(Pow(w2, 0), zs[2])), Sub(zs[1], Mul(Pow(w2, 1), zs[3])));
  }

  /** The arithmetic that drops the unit twiddles of the four-sample pass. */
  lemma ButterflyFourSimplify(y0: Complex, y1: Complex, y2: Complex, y3: Complex, w: Complex)
    ensures Add(Add(y0, Mul(One, y1)), Mul(One, Add(y2, Mul(One, y3)))) == Add(Add(y0, y1), Add(y2, y3))
    ensures Sub(Add(y0, Mul(One, y1)), Mul(One, Add(y2, Mul(One, y3)))) == Sub(Add(y0, y1), Add(y2, y3))
    ensures Add(Sub(y0, Mul(One, y1)), Mul(w, Sub(y2, Mul(One, y3)))) == Add(Sub(y0, y1), Mul(w, Sub(y2, y3)))
    ensures Sub(Sub(y0, Mul(One, y1)), Mul(w, Sub(y2, Mul(One, y3)))) == Sub(Sub(y0, y1), Mul(w, Sub(y2, y3)))
  {
    MulOne(y1);
    MulOne(y3);
    MulOne(Add(y2, y3));
  }

  /** The butterfly pass on four samples, for any twiddles: the first stage
      forms y0 +/- y1 and y2 +/- y3, the second combines them with twiddles 1
      and w = tw(2). */
  lemma AllStagesOfFour(ys: seq<Complex>, tw: Twiddles)
    requires |ys| == 4
    ensures IsPow2(|ys|)
    ensures AllStages(ys, tw)
         == [Add(Add(ys[0], ys[1]), Add(ys[2], ys[3])),
             Add(Sub(ys[0], ys[1]), Mul(tw(2), Sub(ys[2], ys[3]))),
             Sub(Add(ys[0], ys[1]), Add(ys[2], ys[3])),
             Sub(Sub(ys[0], ys[1]), Mul(tw(2), Sub(ys[2], ys[3])))]
  {
    AllStagesOfFourTerms(ys, tw);
    assert Pow(tw(1), 0) == One && Pow(tw(2), 0) == One;
    PowSmall(tw(2));
    ButterflyFourSimplify(ys[0], ys[1], ys[2], ys[3], tw(2));
  }

  /** After the bit reversal, the pass's butterflies are the four-point DFT
      sums, for any root w. */
  lemma ButterflyIsDftFour(p0: Complex, p1: Complex, p2: Complex, p3: Complex, w: Complex)
    ensures Add(Sub(p0, p2), Mul(w, Sub(p1, p3))) == Sub(Add(p0, Mul(w, p1)), Add(p2, Mul(w, p3)))
    ensures Sub(Sub(p0, p2), Mul(w, Sub(p1, p3))) == Sub(Add(p0, Mul(w, p3)), Add(p2, Mul(w, p1)))
    ensures Add(Add(p0, p2), Add(p1, p3)) == Add(Add(p0, p1), Add(p2, p3))
  {
    MulDistributes(w, p1, p3);
  }

  /** With a quarter turn as the stride-2 twiddle, the pass over four
      samples computes their DFT with that root, of the normalised samples. */
  lemma PassIsDftFour(xs: seq<Complex>, norm: real, tw: Twiddles)
    requires |xs| == 4
    requires tw(2) == Complex(0.0, 1.0) || tw(2) == Complex(0.0, -1.0)
    ensures IsPow2(|xs|)
    ensures ForwardOf(xs, norm, tw) == Dft(ScaleAll(xs, norm), tw(2))
  {
    var ps := ScaleAll(xs, norm);
    var q := tw(2);
    BitReversedOfFour(xs, norm);
    AllStagesOfFour(BitReversed(xs, norm), tw);
    DftOfFour(ps, q);
    ButterflyIsDftFour(ps[0], ps[1], ps[2], ps[3], q);
  }

  /** The forward transform of four samples is the DFT, with root
      -i = cispi(-1/2), of the normalised samples. */
  lemma ForwardIsDftFour(xs: seq<Complex>, norm: real, tw: Twiddles)
    requires |xs| == 4 && tw(2) == Complex(0.0, -1.0)
    ensures IsPow2(|xs|)
    ensures ForwardOf(xs, norm, tw) == Dft(ScaleAll(xs, norm), Complex(0.0, -1.0))
  {
    PassIsDftFour(xs, norm, tw);
  }

  /** The inverse transform of four samples is the DFT with the conjugate
      root i of the normalised samples. */
  lemma InverseIsDftFour(xs: seq<Complex>, norm: real, tw: Twiddles)
    requires |xs| == 4 && tw(2) == Complex(0.0, -1.0)
    ensures IsPow2(|xs|)
    ensures InverseOf(xs, norm, tw) == Dft(ScaleAll(xs, norm), Complex(0.0, 1.0))
  {
    assert ConjTwiddles(tw)(2) == Complex(0.0, 1.0);
    PassIsDftFour(xs, norm, ConjTwiddles(tw));
  }

  /** The forward transform of two samples is the DFT, with root
      -1 = cispi(-1), of the normalised samples, whatever the twiddles:
      its one butterfly uses the twiddle 1. */
  lemma ForwardIsDftTwo(xs: seq<Complex>, norm: real, tw: Twiddles)
    requires |xs| == 2
    ensures IsPow2(|xs|)
    ensures ForwardOf(xs, norm, tw) == Dft(ScaleAll(xs, norm), Complex(-1.0, 0.0))
  {
    ForwardOfTwo(xs, norm, tw);
    DftOfTwo(ScaleAll(xs, norm));
  }

  /** The inverse transform of two samples is the same DFT: -1 is its own
      conjugate. */
  lemma InverseIsDftTwo(xs: seq<Complex>, norm: real, tw: Twiddles)
    requires |xs| == 2
    ensures IsPow2(|xs|)
    ensures InverseOf(xs, norm, tw) == Dft(ScaleAll(xs, norm), Complex(-1.0, 0.0))
  {
    ForwardIsDftTwo(xs, norm, ConjTwiddles(tw));
  }

  /** The two-point DFT applied twice multiplies by 2. */
  lemma DftTwoTwice(ps: seq<Complex>)
    requires |ps| == 2
    ensures Dft(Dft(ps, Complex(-1.0, 0.0)), Complex(-1.0, 0.0)) == ScaleAll(ps, 2.0)
  {
    var m := Complex(-1.0, 0.0);
    DftOfTwo(ps);
    DftOfTwo(Dft(ps, m));
    assert ScaleAll(ps, 2.0)[0] == Scale(ps[0], 2.0);
    assert ScaleAll(ps, 2.0)[1] == Scale(ps[1], 2.0);
  }

  /** The four-point DFT with root -i followed by the one with root i
      multiplies by 4. */
  lemma DftFourTwice(ps: seq<Complex>)
    requires |ps| == 4
    ensures Dft(Dft(ps, Complex(0.0, -1.0)), Complex(0.0, 1.0)) == ScaleAll(ps, 4.0)
  {
    DftOfFour(ps, Complex(0.0, -1.0));
    DftOfFour(Dft(ps, Complex(0.0, -1.0)), Complex(0.0, 1.0));
    DftFourBack(ps[0], ps[1], ps[2], ps[3]);
    SeqOfFour(ScaleAll(ps, 4.0), Scale(ps[0], 4.0), Scale(ps[1], 4.0), Scale(ps[2], 4.0), Scale(ps[3], 4.0));
  }

  /** The arithmetic of DftFourTwice: the sums with root i undo those with
      root -i up to the factor 4. */
  lemma DftFourBack(p0: Complex, p1: Complex, p2: Complex, p3: Complex)
    ensures
      var m, i := Complex(0.0, -1.0), Complex(0.0, 1.0);
      var y0 := Add(Add(p0, p1), Add(p2, p3));
      var y1 := Sub(Add(p0, Mul(m, p1)), Add(p2, Mul(m, p3)));
      var y2 := Sub(Add(p0, p2), Add(p1, p3));
      var y3 := Sub(Add(p0, Mul(m, p3)), Add(p2, Mul(m, p1)));
      && Add(Add(y0, y1), Add(y2, y3)) == Scale(p0, 4.0)
      && Sub(Add(y0, Mul(i, y1)), Add(y2, Mul(i, y3))) == Scale(p1, 4.0)
      && Sub(Add(y0, y2), Add(y1, y3)) == Scale(p2, 4.0)
      && Sub(Add(y0, Mul(i, y3)), Add(y2, Mul(i, y1))) == Scale(p3, 4.0)
  {
  }

  /** The four-point DFT with root i followed by the one with root -i
      multiplies by 4: the order of DftFourTwice reversed. */
  lemma DftTwiceBack(ps: seq<Complex>)
    requires |ps| == 4
    ensures Dft(Dft(ps, Complex(0.0, 1.0)), Complex(0.0, -1.0)) == ScaleAll(ps, 4.0)
  {
    DftOfFour(ps, Complex(0.0, 1.0));
    DftOfFour(Dft(ps, Complex(0.0, 1.0)), Complex(0.0, -1.0));
    DftFourForth(ps[0], ps[1], ps[2], ps[3]);
    SeqOfFour(ScaleAll(ps, 4.0), Scale(ps[0], 4.0), Scale(ps[1], 4.0), Scale(ps[2], 4.0), Scale(ps[3], 4.0));
  }

  /** The arithmetic of DftTwiceBack: the sums with root -i undo those with
      root i up to the factor 4. */
  lemma DftFourForth(p0: Complex, p1: Complex, p2: Complex, p3: Complex)
    ensures
      var i, m := Complex(0.0, 1.0), Complex(0.0, -1.0);
      var y0 := Add(Add(p0, p1), Add(p2, p3));
      var y1 := Sub(Add(p0, Mul(i, p1)), Add(p2, Mul(i, p3)));
      var y2 := Sub(Add(p0, p2), Add(p1, p3));
      var y3 := Sub(Add(p0, Mul(i, p3)), Add(p2, Mul(i, p1)));
      && Add(Add(y0, y1), Add(y2, y3)) == Scale(p0, 4.0)
      && Sub(Add(y0, Mul(m, y1)), Add(y2, Mul(m, y3))) == Scale(p1, 4.0)
      && Sub(Add(y0, y2), Add(y1, y3)) == Scale(p2, 4.0)
      && Sub(Add(y0, Mul(m, y3)), Add(y2, Mul(m, y1))) == Scale(p3, 4.0)
  {
  }

  /** Scaling by a, b and c in turn, with a b c = 1, changes nothing. */
  lemma ScaleAllThrice(xs: seq<Complex>, a: real, b: real, c: real)
    requires a * b * c == 1.0
    ensures ScaleAll(ScaleAll(ScaleAll(xs, a), b), c) == xs
  {
    forall k | 0 <= k < |xs|
      ensures ScaleAll(ScaleAll(ScaleAll(xs, a), b), c)[k] == xs[k]
    {
      var x := xs[k];
      assert x.re * a * b * c == x.re * (a * b * c);
      assert x.im * a * b * c == x.im * (a * b * c);
    }
  }

  /** Round trip for two samples: with norm^2 2 = 1, the normalisation the
      source chooses, the inverse transform undoes the forward one. */
  lemma RoundTripTwo(xs: seq<Complex>, norm: real, tw: Twiddles)
    requires |xs| == 2 && norm * norm * 2.0 == 1.0
    ensures IsPow2(|xs|)
    ensures InverseOf(ForwardOf(xs, norm, tw), norm, tw) == xs
  {
    var m := Complex(-1.0, 0.0);
    var f := ForwardOf(xs, norm, tw);
    ForwardIsDftTwo(xs, norm, tw);
    InverseIsDftTwo(f, norm, tw);
    DftScale(f, m, norm);
    DftTwoTwice(ScaleAll(xs, norm));
    ScaleAllThrice(xs, norm, 2.0, norm);
  }

  /** Round trip for four samples: with the source's twiddle -i for stride 2
      and norm^2 4 = 1, the inverse transform undoes the forward one. */
  lemma RoundTripFour(xs: seq<Complex>, norm: real, tw: Twiddles)
    requires |xs| == 4 && tw(2) == Complex(0.0, -1.0) && norm * norm * 4.0 == 1.0
    ensures IsPow2(|xs|)
    ensures InverseOf(ForwardOf(xs, norm, tw), norm, tw) == xs
  {
    var f := ForwardOf(xs, norm, tw);
    ForwardIsDftFour(xs, norm, tw);
    InverseIsDftFour(f, norm, tw);
    DftScale(f, Complex(0.0, 1.0), norm);
    DftFourTwice(ScaleAll(xs, norm));
    ScaleAllThrice(xs, norm, 4.0, norm);
  }

  /** The other half of the round trip for two samples: with norm^2 2 = 1
      the forward transform undoes the inverse one. */
  lemma RoundTripTwoBack(xs: seq<Complex>, norm: real, tw: Twiddles)
    requires |xs| == 2 && norm * norm * 2.0 == 1.0
    ensures IsPow2(|xs|)
    ensures ForwardOf(InverseOf(xs, norm, tw), norm, tw) == xs
  {
    var m := Complex(-1.0, 0.0);
    var g := InverseOf(xs, norm, tw);
    InverseIsDftTwo(xs, norm, tw);
    ForwardIsDftTwo(g, norm, tw);
    DftScale(g, m, norm);
    DftTwoTwice(ScaleAll(xs, norm));
    ScaleAllThrice(xs, norm, 2.0, norm);
  }

  /** The other half of the round trip for four samples: with tw(2) = -i
      and norm^2 4 = 1 the forward transform undoes the inverse one. */
  lemma RoundTripFourBack(xs: seq<Complex>, norm: real, tw: Twiddles)
    requires |xs| == 4 && tw(2) == Complex(0.0, -1.0) && norm * norm * 4.0 == 1.0
    ensures IsPow2(|xs|)
    ensures ForwardOf(InverseOf(xs, norm, tw), norm, tw) == xs
  {
    var g := InverseOf(xs, norm, tw);
    InverseIsDftFour(xs, norm, tw);
    ForwardIsDftFour(g, norm, tw);
    DftScale(g, Complex(0.0, -1.0), norm);
    DftTwiceBack(ScaleAll(xs, norm));
    ScaleAllThrice(xs, norm, 4.0, norm);
  }
}
