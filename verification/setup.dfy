/** The setup stage: a fresh container holding every input sample, scaled by
    the normalisation factor, in its bit-reversed slot. */
module SetupStage {
  import opened Powers
  import opened ComplexArith
  import opened Signals
  import opened Container
  import opened BitReversal

  /** The bit-reversal permutation read slot by slot: slot k holds sample
      rev(k), where rev reverses the low log2(n) bits. */
  function Reversed(xs: seq<Complex>): (ys: seq<Complex>)
    requires IsPow2(|xs|)
    ensures |ys| == |xs|
  {
    seq(|xs|, k requires 0 <= k < |xs| => xs[ReverseBits(k, Log2Floor(|xs|))])
  }

  /** Reference definition of the setup output: the permuted samples, each
      multiplied by norm. */
  function BitReversed(xs: seq<Complex>, norm: real): (ys: seq<Complex>)
    requires IsPow2(|xs|)
    ensures |ys| == |xs|
  {
    ScaleAll(Reversed(xs), norm)
  }

  /** The permutation after the first i scatter steps: slot k is filled once
      its source index rev(k) has been visited, and still zero otherwise. */
  function Scattered(xs: seq<Complex>, i: nat): (ys: seq<Complex>)
    requires IsPow2(|xs|)
    ensures |ys| == |xs|
  {
    seq(|xs|, k requires 0 <= k < |xs| =>
      var j := ReverseBits(k, Log2Floor(|xs|));
      if j < i then xs[j] else Zero)
  }

  /** Slot k is the target of source index i exactly when k = rev(i). */
  lemma ReversedSlot(n: nat, i: nat, k: nat)
    requires IsPow2(n) && i < n && k < n
    ensures ReverseBits(k, Log2Floor(n)) == i <==> k == ReverseBits(i, Log2Floor(n))
  {
    var bits := Log2Floor(n);
    ReverseBitsInvolutive(i, bits);
    ReverseBitsInvolutive(k, bits);
  }

  /** Visiting source index i writes its sample into slot rev(i), which was
      still empty, and leaves every other slot alone. */
  lemma ScatterStep(xs: seq<Complex>, i: nat)
    requires IsPow2(|xs|) && i < |xs|
    ensures ReverseBits(i, Log2Floor(|xs|)) < |xs|
    ensures Scattered(xs, i + 1) == Scattered(xs, i)[ReverseBits(i, Log2Floor(|xs|)) := xs[i]]
    ensures Scattered(xs, i)[ReverseBits(i, Log2Floor(|xs|))] == Zero
  {
    var bits := Log2Floor(|xs|);
    var target := ReverseBits(i, bits);
    var after := Scattered(xs, i + 1);
    var updated := Scattered(xs, i)[target := xs[i]];
    forall k | 0 <= k < |xs|
      ensures after[k] == updated[k]
    {
      ReversedSlot(|xs|, i, k);
    }
    ReverseBitsInvolutive(i, bits);
  }

  /** One scatter step adds the squared magnitude of the sample it writes. */
  lemma ScatterStepEnergy(xs: seq<Complex>, i: nat)
    requires IsPow2(|xs|) && i < |xs|
    ensures Energy(Scattered(xs, i + 1)) == Energy(Scattered(xs, i)) + Norm2(xs[i])
  {
    var before := Scattered(xs, i);
    var target := ReverseBits(i, Log2Floor(|xs|));
    ScatterStep(xs, i);
    EnergyUpdate(before, target, xs[i]);
    EnergyOfEqual(Scattered(xs, i + 1), before[target := xs[i]]);
  }

  /** The partially filled buffer carries exactly the energy of the samples
      visited so far. */
  lemma {:induction false} ScatterEnergy(xs: seq<Complex>, i: nat)
    requires IsPow2(|xs|) && i <= |xs|
    ensures Energy(Scattered(xs, i)) == Energy(xs[..i])
  {
    if i == 0 {
      EnergyOfSilence(Scattered(xs, 0));
      EnergyOfSilence(xs[..0]);
    } else {
      var j := i - 1;
      ScatterEnergy(xs, j);
      ScatterStepEnergy(xs, j);
      EnergyPrefix(xs, j);
      assert j + 1 == i;
    }
  }

  /** Once every index has been visited the buffer is the permuted copy. */
  lemma ScatterComplete(xs: seq<Complex>)
    requires IsPow2(|xs|)
    ensures Scattered(xs, |xs|) == Reversed(xs)
  {
  }

  /** The permutation neither adds nor loses energy. */
  lemma ReversedEnergy(xs: seq<Complex>)
    requires IsPow2(|xs|)
    ensures Energy(Reversed(xs)) == Energy(xs)
  {
    var n := |xs|;
    ScatterEnergy(xs, n);
    ScatterComplete(xs);
    EnergyOfEqual(Scattered(xs, n), Reversed(xs));
    EnergyWhole(xs);
  }

  /** The setup output has norm^2 times the energy of its input. */
  lemma BitReversedEnergy(xs: seq<Complex>, norm: real)
    requires IsPow2(|xs|)
    ensures Energy(BitReversed(xs, norm)) == norm * norm * Energy(xs)
  {
    ReversedEnergy(xs);
    EnergyScaleAllOf(Reversed(xs), xs, norm);
  }

  /** Read the other way round: source sample i lands, scaled, in slot rev(i),
      so every slot is written by exactly one source index. */
  lemma BitReversedPlacement(xs: seq<Complex>, norm: real)
    requires IsPow2(|xs|)
    ensures forall i :: 0 <= i < |xs| ==>
              ReverseBits(i, Log2Floor(|xs|)) < |xs|
              && BitReversed(xs, norm)[ReverseBits(i, Log2Floor(|xs|))] == Scale(xs[i], norm)
  {
    forall i | 0 <= i < |xs|
      ensures ReverseBits(i, Log2Floor(|xs|)) < |xs|
      ensures BitReversed(xs, norm)[ReverseBits(i, Log2Floor(|xs|))] == Scale(xs[i], norm)
    {
      ReverseBitsInvolutive(i, Log2Floor(|xs|));
    }
  }

  /** One iteration of the setup loop: writing x[i] * norm into slot rev(i)
      of the real and the imaginary buffer advances the scaled scatter of
      the input samples from i visited indices to i + 1. */
  lemma BufferStep(re: seq<real>, im: seq<real>, xre: seq<real>, xim: seq<real>, norm: real, i: nat)
    requires |re| == |im| == |xre| == |xim| && IsPow2(|xre|) && i < |xre|
    requires Zip(re, im) == ScaleAll(Scattered(Zip(xre, xim), i), norm)
    ensures ReverseBits(i, Log2Floor(|xre|)) < |xre|
    ensures Zip(re[ReverseBits(i, Log2Floor(|xre|)) := xre[i] * norm],
                im[ReverseBits(i, Log2Floor(|xre|)) := xim[i] * norm])
         == ScaleAll(Scattered(Zip(xre, xim), i + 1), norm)
  {
    var xs := Zip(xre, xim);
    var target := ReverseBits(i, Log2Floor(|xs|));
    var before := Scattered(xs, i);
    var v := Scale(xs[i], norm);
    ScatterStep(xs, i);
    ZipUpdate(re, im, target, xre[i] * norm, xim[i] * norm);
    ZipScaleAt(xre, xim, i, norm);
    ScaleAllUpdate(before, target, xs[i], norm);
    calc {
      Zip(re[target := xre[i] * norm], im[target := xim[i] * norm]);
      Zip(re, im)[target := v];
      ScaleAll(before, norm)[target := v];
      ScaleAll(before[target := xs[i]], norm);
      { assert Scattered(xs, i + 1) == before[target := xs[i]]; }
      ScaleAll(Scattered(xs, i + 1), norm);
    }
  }

  /** The loop of _lifft_setup, on the coordinate buffers: for each i in
      turn, slot rev(i) of the fresh zero buffers receives x[i] * norm. */
  method ScatterLoop(xre: seq<real>, xim: seq<real>, re0: seq<real>, im0: seq<real>, norm: real)
    returns (re: seq<real>, im: seq<real>)
    requires |xre| == |xim| == |re0| == |im0| && IsPow2(|xre|) && Log2Floor(|xre|) <= 24
    requires forall k :: 0 <= k < |re0| ==> re0[k] == 0.0 && im0[k] == 0.0
    ensures |re| == |im| == |xre|
    ensures Zip(re, im) == BitReversed(Zip(xre, xim), norm)
  {
    var n := |xre|;
    var bits := Log2Floor(n);
    var xs := Zip(xre, xim);
    re, im := re0, im0;
    forall k | 0 <= k < n
      ensures Zip(re, im)[k] == ScaleAll(Scattered(xs, 0), norm)[k]
    {
      assert Scattered(xs, 0)[k] == Zero;
    }
    assert Zip(re, im) == ScaleAll(Scattered(xs, 0), norm);
    for i := 0 to n
      invariant |re| == |im| == n
      invariant Zip(re, im) == ScaleAll(Scattered(xs, i), norm)
    {
      var iRev := RevBits24(i, bits);
      BufferStep(re, im, xre, xim, norm, i);
      re := re[iRev := xre[i] * norm];
      im := im[iRev := xim[i] * norm];
    }
    ScatterComplete(xs);
  }

  /** _lifft_setup. The source computes norm as 1/sqrt(n); here it is a
      parameter. Each input index i is scattered to slot rev(i), where rev is
      the reversal of the low log2(n) bits that RevBits24 computes. */
  method Setup(x: ComplexArr, norm: real) returns (result: ComplexArr)
    requires x.Valid() && IsPow2(x.n) && Log2Floor(x.n) <= 24
    ensures result.Valid() && result.n == x.n && result.elementType == x.elementType
    ensures result.Samples() == BitReversed(x.Samples(), norm)
  {
    var blank := NewComplexArr(x.n, x.elementType);
    var re, im := ScatterLoop(x.re, x.im, blank.re, blank.im, norm);
    result := ComplexArr(re, im, blank.n, x.elementType);
  }
}
