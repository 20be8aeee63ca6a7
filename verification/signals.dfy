/** Sequences of samples: pairing the two coordinate buffers, the total
    energy of a sequence, and the pointwise maps (linear combination,
    coordinate exchange) whose interaction with the transform is proved
    elsewhere. */
module Signals {
  import opened Arith
  import opened ComplexArith

  /** The samples held by a real buffer and an imaginary buffer of equal length. */
  function Zip(re: seq<real>, im: seq<real>): (xs: seq<Complex>)
    requires |re| == |im|
    ensures |xs| == |re|
    ensures forall k :: 0 <= k < |xs| ==> xs[k].re == re[k] && xs[k].im == im[k]
  {
    seq(|re|, k requires 0 <= k < |re| => Complex(re[k], im[k]))
  }

  /** Writing one slot of each buffer writes one sample. */
  lemma ZipUpdate(re: seq<real>, im: seq<real>, k: nat, a: real, b: real)
    requires |re| == |im| && k < |re|
    ensures Zip(re[k := a], im[k := b]) == Zip(re, im)[k := Complex(a, b)]
  {
  }

  /** Scaling a zipped sample scales its two coordinates. */
  lemma ZipScaleAt(re: seq<real>, im: seq<real>, k: nat, s: real)
    requires |re| == |im| && k < |re|
    ensures Scale(Zip(re, im)[k], s) == Complex(re[k] * s, im[k] * s)
  {
    assert Zip(re, im)[k] == Complex(re[k], im[k]);
  }

  /** n copies of the energy e, i.e. n * e. Energy statements that scale by a
      sample count are written with it, so that equal counts give equal
      values without further arithmetic. */
  function Times(n: nat, e: real): real {
    (n as real) * e
  }

  /** Total energy: the sum of the squared magnitudes. */
  function Energy(xs: seq<Complex>): real {
    if |xs| == 0 then 0.0 else Energy(xs[..|xs| - 1]) + Norm2(xs[|xs| - 1])
  }

  lemma {:induction false} EnergyAppend(a: seq<Complex>, b: seq<Complex>)
    ensures Energy(a + b) == Energy(a) + Energy(b)
  {
    if |b| == 0 {
      assert a + b == a;
    } else {
      var b' := b[..|b| - 1];
      assert (a + b)[..|a + b| - 1] == a + b';
      EnergyAppend(a, b');
    }
  }

  /** Equal sequences carry equal energy (stated on its own so that callers
      reasoning about energy do not also carry the sequence equality). */
  lemma EnergyOfEqual(xs: seq<Complex>, ys: seq<Complex>)
    requires xs == ys
    ensures Energy(xs) == Energy(ys)
  {
  }

  /** Extending a prefix by one sample adds that sample's squared magnitude. */
  lemma EnergyPrefix(xs: seq<Complex>, i: nat)
    requires i < |xs|
    ensures Energy(xs[..i + 1]) == Energy(xs[..i]) + Norm2(xs[i])
  {
    assert xs[..i + 1][..i] == xs[..i];
  }

  /** The prefix of full length carries all of the energy. */
  lemma EnergyWhole(xs: seq<Complex>)
    ensures Energy(xs[..|xs|]) == Energy(xs)
  {
    assert xs[..|xs|] == xs;
  }

  lemma {:induction false} EnergyOfSilence(xs: seq<Complex>)
    requires forall k :: 0 <= k < |xs| ==> xs[k] == Zero
    ensures Energy(xs) == 0.0
  {
    if |xs| > 0 {
      EnergyOfSilence(xs[..|xs| - 1]);
    }
  }

  /** Overwriting one sample changes the energy by exactly the difference of
      the two squared magnitudes. */
  lemma EnergyUpdate(xs: seq<Complex>, k: nat, v: Complex)
    requires k < |xs|
    ensures Energy(xs[k := v]) == Energy(xs) - Norm2(xs[k]) + Norm2(v)
  {
    assert xs == xs[..k] + [xs[k]] + xs[k + 1..];
    assert xs[k := v] == xs[..k] + [v] + xs[k + 1..];
    EnergyAppend(xs[..k] + [xs[k]], xs[k + 1..]);
    EnergyAppend(xs[..k], [xs[k]]);
    EnergyAppend(xs[..k] + [v], xs[k + 1..]);
    EnergyAppend(xs[..k], [v]);
    assert Energy([v]) == Norm2(v) by {
      assert [v][..0] == [];
    }
    assert Energy([xs[k]]) == Norm2(xs[k]) by {
      assert [xs[k]][..0] == [];
    }
  }

  /** Sums of pointwise-related energies: if each output pair carries twice
      the energy of the matching input pair, so do the whole sequences. */
  lemma {:induction false} PairedEnergy(u: seq<Complex>, v: seq<Complex>, x: seq<Complex>, y: seq<Complex>)
    requires |u| == |v| == |x| == |y|
    requires forall j :: 0 <= j < |u| ==> Norm2(u[j]) + Norm2(v[j]) == 2.0 * (Norm2(x[j]) + Norm2(y[j]))
    ensures Energy(u) + Energy(v) == 2.0 * (Energy(x) + Energy(y))
  {
    if |u| > 0 {
      var m := |u| - 1;
      PairedEnergy(u[..m], v[..m], x[..m], y[..m]);
    }
  }

  /** a*xs + b*ys, sample by sample, for complex scalars a and b. */
  function LinearCombination(a: Complex, xs: seq<Complex>, b: Complex, ys: seq<Complex>): (zs: seq<Complex>)
    requires |xs| == |ys|
    ensures |zs| == |xs|
  {
    seq(|xs|, k requires 0 <= k < |xs| => Add(Mul(a, xs[k]), Mul(b, ys[k])))
  }

  /** Every sample multiplied by the real factor s. */
  function ScaleAll(xs: seq<Complex>, s: real): (ys: seq<Complex>)
    ensures |ys| == |xs|
  {
    seq(|xs|, k requires 0 <= k < |xs| => Scale(xs[k], s))
  }

  /** Scaling commutes with overwriting one sample. */
  lemma ScaleAllUpdate(xs: seq<Complex>, k: nat, v: Complex, s: real)
    requires k < |xs|
    ensures ScaleAll(xs[k := v], s) == ScaleAll(xs, s)[k := Scale(v, s)]
  {
  }

  /** Scaling every sample by s scales the energy by s^2. */
  lemma {:induction false} EnergyScaleAll(xs: seq<Complex>, s: real)
    ensures Energy(ScaleAll(xs, s)) == s * s * Energy(xs)
  {
    if |xs| > 0 {
      var m := |xs| - 1;
      var ys := ScaleAll(xs, s);
      EnergyScaleAll(xs[..m], s);
      EnergyOfEqual(ys[..m], ScaleAll(xs[..m], s));
      assert ys[m] == Scale(xs[m], s);
      Norm2Scale(xs[m], s);
      ScaleSum(s * s, Energy(xs[..m]), Norm2(xs[m]), Energy(xs));
    } else {
      assert Energy(ScaleAll(xs, s)) == 0.0 && Energy(xs) == 0.0;
    }
  }

  /** Scaling a sequence that carries the energy of xs gives s^2 times that energy. */
  lemma EnergyScaleAllOf(ys: seq<Complex>, xs: seq<Complex>, s: real)
    requires Energy(ys) == Energy(xs)
    ensures Energy(ScaleAll(ys, s)) == s * s * Energy(xs)
  {
    EnergyScaleAll(ys, s);
  }

  /** Every sample with its coordinates exchanged. */
  function SwapAll(xs: seq<Complex>): (ys: seq<Complex>)
    ensures |ys| == |xs|
  {
    seq(|xs|, k requires 0 <= k < |xs| => Swap(xs[k]))
  }

  /** A linear combination cut at m is the combination of the two cut pieces. */
  lemma LinearCombinationSplit(a: Complex, xs: seq<Complex>, b: Complex, ys: seq<Complex>, m: nat)
    requires |xs| == |ys| && m <= |xs|
    ensures LinearCombination(a, xs, b, ys)[..m] == LinearCombination(a, xs[..m], b, ys[..m])
    ensures LinearCombination(a, xs, b, ys)[m..] == LinearCombination(a, xs[m..], b, ys[m..])
  {
  }

  lemma LinearCombinationConcat(a: Complex, x1: seq<Complex>, x2: seq<Complex>,
                                b: Complex, y1: seq<Complex>, y2: seq<Complex>)
    requires |x1| == |y1| && |x2| == |y2|
    ensures LinearCombination(a, x1 + x2, b, y1 + y2)
         == LinearCombination(a, x1, b, y1) + LinearCombination(a, x2, b, y2)
  {
  }

  lemma SwapAllSplit(xs: seq<Complex>, m: nat)
    requires m <= |xs|
    ensures SwapAll(xs)[..m] == SwapAll(xs[..m]) && SwapAll(xs)[m..] == SwapAll(xs[m..])
  {
  }

  lemma SwapAllConcat(x1: seq<Complex>, x2: seq<Complex>)
    ensures SwapAll(x1 + x2) == SwapAll(x1) + SwapAll(x2)
  {
  }

  /** Handing over the buffers in exchanged roles exchanges every sample's coordinates. */
  lemma ZipSwapped(re: seq<real>, im: seq<real>)
    requires |re| == |im|
    ensures Zip(im, re) == SwapAll(Zip(re, im))
  {
  }

  lemma SwapAllInvolutive(xs: seq<Complex>)
    ensures SwapAll(SwapAll(xs)) == xs
  {
  }
}
