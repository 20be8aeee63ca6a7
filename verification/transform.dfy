/** The two entry points, lifft_forward_complex and lifft_inverse_complex:
    setup (normalise and bit-reverse) followed by the butterfly pass, the
    inverse running that pass on the swapped buffers. */
module Transform {
  import opened Powers
  import opened ComplexArith
  import opened Signals
  import opened Container
  import opened BitReversal
  import opened SetupStage
  import opened Butterfly
  import opened StageLaws

  /** Reference definition of the forward transform: the butterfly pass over
      the normalised, bit-reversed samples. */
  function ForwardOf(xs: seq<Complex>, norm: real, tw: Twiddles): (ys: seq<Complex>)
    requires IsPow2(|xs|)
    ensures |ys| == |xs|
  {
    AllStages(BitReversed(xs, norm), tw)
  }

  /** Reference definition of the inverse transform: the same pass with every
      twiddle factor conjugated, i.e. rotating the other way round the circle. */
  function InverseOf(xs: seq<Complex>, norm: real, tw: Twiddles): (ys: seq<Complex>)
    requires IsPow2(|xs|)
    ensures |ys| == |xs|
  {
    AllStages(BitReversed(xs, norm), ConjTwiddles(tw))
  }

  /** Swapping the real and imaginary parts before and after the pass is the
      pass with conjugated twiddles. */
  lemma SwappedPass(ys: seq<Complex>, tw: Twiddles)
    requires IsPow2(|ys|)
    ensures SwapAll(AllStages(SwapAll(ys), tw)) == AllStages(ys, ConjTwiddles(tw))
  {
    AllStagesSwap(ys, tw);
    SwapAllInvolutive(AllStages(ys, ConjTwiddles(tw)));
  }

  /** lifft_forward_complex: a fresh container with the same size and element
      type, holding the forward transform of the input. */
  method Forward(x: ComplexArr, norm: real, tw: Twiddles) returns (result: ComplexArr)
    requires x.Valid() && IsPow2(x.n) && Log2Floor(x.n) <= 24
    ensures result.Valid() && result.n == x.n && result.elementType == x.elementType
    ensures result.Samples() == ForwardOf(x.Samples(), norm, tw)
  {
    var r := Setup(x, norm);
    var re, im := Process(r.re, r.im, r.n, tw);
    result := ComplexArr(re, im, r.n, r.elementType);
  }

  /** lifft_inverse_complex: the butterfly pass runs with the imaginary buffer
      in the role of the real one and vice versa, which is the pass on the
      swapped samples, read back swapped; that is the pass with conjugated
      twiddles. */
  method Inverse(x: ComplexArr, norm: real, tw: Twiddles) returns (result: ComplexArr)
    requires x.Valid() && IsPow2(x.n) && Log2Floor(x.n) <= 24
    ensures result.Valid() && result.n == x.n && result.elementType == x.elementType
    ensures result.Samples() == SwapAll(AllStages(SwapAll(BitReversed(x.Samples(), norm)), tw))
    ensures result.Samples() == InverseOf(x.Samples(), norm, tw)
  {
    var r := Setup(x, norm);
    var im, re := Process(r.im, r.re, r.n, tw);
    result := ComplexArr(re, im, r.n, r.elementType);
    ZipSwapped(r.re, r.im);
    ZipSwapped(re, im);
    SwappedPass(r.Samples(), tw);
  }

  /** Conjugating the twiddles keeps them on the unit circle. */
  lemma ConjTwiddlesUnit(tw: Twiddles)
    requires UnitTwiddles(tw)
    ensures UnitTwiddles(ConjTwiddles(tw))
  {
    forall s: nat
      ensures Norm2(ConjTwiddles(tw)(s)) == 1.0
    {
      assert Norm2(tw(s)) == 1.0;
      assert Norm2(Conj(tw(s))) == Norm2(tw(s));
    }
  }

  /** The energy bookkeeping of a normalised transform: if a first step
      scales the energy of xs by norm^2 (giving ys) and a second multiplies
      that by n (giving zs), then norm^2 n = 1 brings zs back to the energy
      of xs. */
  lemma UnitaryChain(xs: seq<Complex>, ys: seq<Complex>, zs: seq<Complex>, norm: real)
    requires Energy(ys) == norm * norm * Energy(xs)
    requires Energy(zs) == Times(|xs|, Energy(ys))
    requires norm * norm * (|xs| as real) == 1.0
    ensures Energy(zs) == Energy(xs)
  {
    calc {
      Energy(zs);
      (|xs| as real) * Energy(ys);
      (|xs| as real) * (norm * norm * Energy(xs));
      (norm * norm * (|xs| as real)) * Energy(xs);
      { UnitFactor(norm * norm * (|xs| as real), Energy(xs)); }
      Energy(xs);
    }
  }

  /** A factor equal to one can be dropped. */
  lemma UnitFactor(k: real, e: real)
    requires k == 1.0
    ensures k * e == e
  {
  }

  /** The forward transform multiplies the energy by n norm^2: setup scales it
      by norm^2 and the log2(n) stages, each doubling it, by n. */
  lemma ForwardEnergy(xs: seq<Complex>, norm: real, tw: Twiddles)
    requires IsPow2(|xs|) && UnitTwiddles(tw)
    ensures Energy(BitReversed(xs, norm)) == norm * norm * Energy(xs)
    ensures Energy(ForwardOf(xs, norm, tw)) == Times(|xs|, Energy(BitReversed(xs, norm)))
  {
    BitReversedEnergy(xs, norm);
    AllStagesEnergy(BitReversed(xs, norm), tw);
  }

  /** Parseval: with norm = 1/sqrt(n), as the source chooses it, the forward
      transform preserves energy. */
  lemma ForwardParseval(xs: seq<Complex>, norm: real, tw: Twiddles)
    requires IsPow2(|xs|) && UnitTwiddles(tw) && norm * norm * (|xs| as real) == 1.0
    ensures Energy(ForwardOf(xs, norm, tw)) == Energy(xs)
  {
    ForwardEnergy(xs, norm, tw);
    UnitaryChain(xs, BitReversed(xs, norm), ForwardOf(xs, norm, tw), norm);
  }

  /** The inverse transform multiplies the energy by n norm^2 as well. */
  lemma InverseEnergy(xs: seq<Complex>, norm: real, tw: Twiddles)
    requires IsPow2(|xs|) && UnitTwiddles(tw)
    ensures Energy(BitReversed(xs, norm)) == norm * norm * Energy(xs)
    ensures Energy(InverseOf(xs, norm, tw)) == Times(|xs|, Energy(BitReversed(xs, norm)))
  {
    ConjTwiddlesUnit(tw);
    BitReversedEnergy(xs, norm);
    AllStagesEnergy(BitReversed(xs, norm), ConjTwiddles(tw));
  }

  /** Parseval for the inverse transform. */
  lemma InverseParseval(xs: seq<Complex>, norm: real, tw: Twiddles)
    requires IsPow2(|xs|) && UnitTwiddles(tw) && norm * norm * (|xs| as real) == 1.0
    ensures Energy(InverseOf(xs, norm, tw)) == Energy(xs)
  {
    InverseEnergy(xs, norm, tw);
    UnitaryChain(xs, BitReversed(xs, norm), InverseOf(xs, norm, tw), norm);
  }

  /** Normalising and bit-reversing commute with linear combinations. */
  lemma BitReversedLinear(a: Complex, xs: seq<Complex>, b: Complex, ys: seq<Complex>, norm: real)
    requires |xs| == |ys| && IsPow2(|xs|)
    ensures BitReversed(LinearCombination(a, xs, b, ys), norm)
         == LinearCombination(a, BitReversed(xs, norm), b, BitReversed(ys, norm))
  {
    var zs := LinearCombination(a, xs, b, ys);
    var lhs := BitReversed(zs, norm);
    var rhs := LinearCombination(a, BitReversed(xs, norm), b, BitReversed(ys, norm));
    forall k | 0 <= k < |xs|
      ensures lhs[k] == rhs[k]
    {
      var j := ReverseBits(k, Log2Floor(|xs|));
      assert lhs[k] == Scale(zs[j], norm);
      assert BitReversed(xs, norm)[k] == Scale(xs[j], norm);
      assert BitReversed(ys, norm)[k] == Scale(ys[j], norm);
      ScaleLinear(a, b, xs[j], ys[j], norm);
    }
  }

  /** The forward transform is linear. */
  lemma ForwardLinear(a: Complex, xs: seq<Complex>, b: Complex, ys: seq<Complex>, norm: real, tw: Twiddles)
    requires |xs| == |ys| && IsPow2(|xs|)
    ensures ForwardOf(LinearCombination(a, xs, b, ys), norm, tw)
         == LinearCombination(a, ForwardOf(xs, norm, tw), b, ForwardOf(ys, norm, tw))
  {
    BitReversedLinear(a, xs, b, ys, norm);
    AllStagesLinear(a, BitReversed(xs, norm), b, BitReversed(ys, norm), tw);
  }

  /** The inverse transform is linear. */
  lemma InverseLinear(a: Complex, xs: seq<Complex>, b: Complex, ys: seq<Complex>, norm: real, tw: Twiddles)
    requires |xs| == |ys| && IsPow2(|xs|)
    ensures InverseOf(LinearCombination(a, xs, b, ys), norm, tw)
         == LinearCombination(a, InverseOf(xs, norm, tw), b, InverseOf(ys, norm, tw))
  {
    BitReversedLinear(a, xs, b, ys, norm);
    AllStagesLinear(a, BitReversed(xs, norm), b, BitReversed(ys, norm), ConjTwiddles(tw));
  }

  /** A single sample: the butterfly pass does nothing, so both transforms
      only normalise it. */
  lemma TransformOfOne(xs: seq<Complex>, norm: real, tw: Twiddles)
    requires |xs| == 1
    ensures IsPow2(|xs|)
    ensures ForwardOf(xs, norm, tw) == [Scale(xs[0], norm)]
    ensures InverseOf(xs, norm, tw) == [Scale(xs[0], norm)]
  {
    AllStagesOfOne(BitReversed(xs, norm), tw);
    AllStagesOfOne(BitReversed(xs, norm), ConjTwiddles(tw));
    Log2OfPow2(0);
    assert ReverseBits(0, 0) == 0;
  }

  /** With a single sample the butterfly pass leaves both coordinate
      buffers exactly as they were: whatever Process returns for n = 1 is its
      input. */
  lemma ProcessOfOne(re: seq<real>, im: seq<real>, re': seq<real>, im': seq<real>, tw: Twiddles)
    requires |re| == |im| == |re'| == |im'| == 1
    requires Zip(re', im') == AllStages(Zip(re, im), tw)
    ensures re' == re && im' == im
  {
    AllStagesOfOne(Zip(re, im), tw);
    assert Zip(re', im')[0] == Zip(re, im)[0];
  }

  /** Two samples: one butterfly with twiddle 1, giving the normalised sum
      and difference. */
  lemma ForwardOfTwo(xs: seq<Complex>, norm: real, tw: Twiddles)
    requires |xs| == 2
    ensures IsPow2(|xs|)
    ensures ForwardOf(xs, norm, tw)
         == [Add(Scale(xs[0], norm), Scale(xs[1], norm)), Sub(Scale(xs[0], norm), Scale(xs[1], norm))]
  {
    Log2OfPow2(1);
    var ys := BitReversed(xs, norm);
    assert ReverseBits(1, 1) == 1;
    assert ReverseBits(0, 1) == 0;
    assert ys == [Scale(xs[0], norm), Scale(xs[1], norm)];
    StagesLast(ys, tw, 1);
    StageIndex(ys, 1, tw(1), 0, 0);
    MulOne(ys[1]);
  }
}
