/** What the butterfly pass does to a signal as a whole: with unit twiddles
    every stage doubles the energy, every stage is linear, and running the
    pass on coordinate-swapped samples is the swap of the pass run with
    conjugated twiddles. */
module StageLaws {
  import opened Powers
  import opened ComplexArith
  import opened Signals
  import opened Butterfly

  // ---------------------------------------------------------------- energy

  /** One block with a unit twiddle doubles the energy of its 2 * s samples. */
  lemma BlockEnergy(blk: seq<Complex>, s: nat, wm: Complex)
    requires |blk| == 2 * s && Norm2(wm) == 1.0
    ensures Energy(Block(blk, s, wm)) == 2.0 * Energy(blk)
  {
    var lo, hi := BlockLow(blk, s, wm), BlockHigh(blk, s, wm);
    var x, y := blk[..s], blk[s..];
    forall j | 0 <= j < s
      ensures Norm2(lo[j]) + Norm2(hi[j]) == 2.0 * (Norm2(x[j]) + Norm2(y[j]))
    {
      PowUnit(wm, j);
      ButterflyEnergy(blk[j], blk[j + s], Pow(wm, j));
    }
    PairedEnergy(lo, hi, x, y);
    EnergyAppend(lo, hi);
    assert blk == x + y;
    EnergyAppend(x, y);
  }

  /** One stage with a unit twiddle doubles the energy of the whole sequence. */
  lemma {:induction false} StageEnergy(xs: seq<Complex>, s: nat, wm: Complex)
    requires s >= 1 && |xs| % (2 * s) == 0 && Norm2(wm) == 1.0
    ensures Energy(Stage(xs, s, wm)) == 2.0 * Energy(xs)
    decreases |xs|
  {
    if |xs| > 0 {
      StageUnfold(xs, s, wm);
      var head, rest := xs[..2 * s], xs[2 * s..];
      StageEnergy(rest, s, wm);
      BlockEnergy(head, s, wm);
      EnergyAppend(Block(head, s, wm), Stage(rest, s, wm));
      assert xs == head + rest;
      EnergyAppend(head, rest);
    }
  }

  /** 2^t as a real gain factor. */
  function Gain(t: nat): real {
    if t == 0 then 1.0 else 2.0 * Gain(t - 1)
  }

  lemma {:induction false} GainIsPow2(t: nat)
    ensures Gain(t) == Pow2(t) as real
  {
    if t > 0 {
      GainIsPow2(t - 1);
    }
  }

  /** The energy e after t doublings. */
  function Amplify(e: real, t: nat): real {
    Gain(t) * e
  }

  /** One more doubling: stage count u + 1 = t. */
  lemma AmplifyStep(e: real, u: nat, t: nat)
    requires t >= 1 && u == t - 1
    ensures Amplify(e, t) == 2.0 * Amplify(e, u)
  {
    assert Gain(t) == 2.0 * Gain(u);
  }

  /** Stage u doubles the energy left by the u stages before it. */
  lemma StagesEnergyStep(xs: seq<Complex>, tw: Twiddles, u: nat, t: nat)
    requires IsPow2(|xs|) && 1 <= t <= Log2Floor(|xs|) && u == t - 1 && UnitTwiddles(tw)
    ensures Energy(Stages(xs, tw, t)) == 2.0 * Energy(Stages(xs, tw, u))
  {
    StagesUnfold(xs, tw, u, t);
    StageEnergy(Stages(xs, tw, u), Pow2(u), tw(Pow2(u)));
  }

  /** After t stages with unit twiddles the energy is 2^t times the input's. */
  lemma {:induction false} StagesEnergy(xs: seq<Complex>, tw: Twiddles, t: nat)
    requires IsPow2(|xs|) && t <= Log2Floor(|xs|) && UnitTwiddles(tw)
    ensures Energy(Stages(xs, tw, t)) == Amplify(Energy(xs), t)
  {
    if t > 0 {
      var u := t - 1;
      StagesEnergy(xs, tw, u);
      StagesEnergyStep(xs, tw, u, t);
      AmplifyStep(Energy(xs), u, t);
    }
  }

  /** log2(n) doublings multiply by n. */
  lemma AmplifyAll(xs: seq<Complex>, L: nat)
    requires Pow2(L) == |xs|
    ensures Amplify(Energy(xs), L) == Times(|xs|, Energy(xs))
  {
    GainIsPow2(L);
  }

  lemma AllStagesEnergyIs(xs: seq<Complex>, tw: Twiddles, L: nat)
    requires IsPow2(|xs|) && L == Log2Floor(|xs|)
    ensures Energy(AllStages(xs, tw)) == Energy(Stages(xs, tw, L))
  {
  }

  /** The whole pass with unit twiddles multiplies the energy by n. */
  lemma AllStagesEnergy(xs: seq<Complex>, tw: Twiddles)
    requires IsPow2(|xs|) && UnitTwiddles(tw)
    ensures Energy(AllStages(xs, tw)) == Times(|xs|, Energy(xs))
  {
    var L := Log2Floor(|xs|);
    AmplifyAll(xs, L);
    AllStagesEnergyIs(xs, tw, L);
    StagesEnergy(xs, tw, L);
  }

  // ------------------------------------------------------------- linearity

  /** Pair j of a block of a linear combination is the linear combination of
      pair j of the two blocks. */
  lemma BlockLinearAt(a: Complex, xs: seq<Complex>, b: Complex, ys: seq<Complex>, s: nat, wm: Complex, j: nat)
    requires |xs| == |ys| == 2 * s && j < s
    ensures Block(LinearCombination(a, xs, b, ys), s, wm)[j]
         == Add(Mul(a, Block(xs, s, wm)[j]), Mul(b, Block(ys, s, wm)[j]))
    ensures Block(LinearCombination(a, xs, b, ys), s, wm)[j + s]
         == Add(Mul(a, Block(xs, s, wm)[j + s]), Mul(b, Block(ys, s, wm)[j + s]))
  {
    var zs := LinearCombination(a, xs, b, ys);
    assert zs[j] == Add(Mul(a, xs[j]), Mul(b, ys[j]));
    assert zs[j + s] == Add(Mul(a, xs[j + s]), Mul(b, ys[j + s]));
    BlockIndex(zs, s, wm, j);
    BlockIndex(xs, s, wm, j);
    BlockIndex(ys, s, wm, j);
    LinearButterfly(a, b, xs[j], xs[j + s], ys[j], ys[j + s], Pow(wm, j));
  }

  /** A block of a linear combination is the linear combination of the blocks. */
  lemma BlockLinear(a: Complex, xs: seq<Complex>, b: Complex, ys: seq<Complex>, s: nat, wm: Complex)
    requires |xs| == |ys| == 2 * s
    ensures Block(LinearCombination(a, xs, b, ys), s, wm)
         == LinearCombination(a, Block(xs, s, wm), b, Block(ys, s, wm))
  {
    var lhs := Block(LinearCombination(a, xs, b, ys), s, wm);
    var rhs := LinearCombination(a, Block(xs, s, wm), b, Block(ys, s, wm));
    forall k | 0 <= k < 2 * s
      ensures lhs[k] == rhs[k]
    {
      if k < s {
        BlockLinearAt(a, xs, b, ys, s, wm, k);
      } else {
        BlockLinearAt(a, xs, b, ys, s, wm, k - s);
      }
    }
  }

  /** A stage of a linear combination is the linear combination of the stages. */
  lemma {:induction false} StageLinear(a: Complex, xs: seq<Complex>, b: Complex, ys: seq<Complex>, s: nat, wm: Complex)
    requires |xs| == |ys| && s >= 1 && |xs| % (2 * s) == 0
    ensures Stage(LinearCombination(a, xs, b, ys), s, wm)
         == LinearCombination(a, Stage(xs, s, wm), b, Stage(ys, s, wm))
    decreases |xs|
  {
    if |xs| > 0 {
      var zs := LinearCombination(a, xs, b, ys);
      StageUnfold(xs, s, wm);
      StageUnfold(ys, s, wm);
      StageUnfold(zs, s, wm);
      var m := 2 * s;
      LinearCombinationSplit(a, xs, b, ys, m);
      StageLinear(a, xs[m..], b, ys[m..], s, wm);
      BlockLinear(a, xs[..m], b, ys[..m], s, wm);
      LinearCombinationConcat(a, Block(xs[..m], s, wm), Stage(xs[m..], s, wm),
                              b, Block(ys[..m], s, wm), Stage(ys[m..], s, wm));
    }
  }

  /** The first t stages are linear in the input. */
  lemma {:induction false} StagesLinear(a: Complex, xs: seq<Complex>, b: Complex, ys: seq<Complex>, tw: Twiddles, t: nat)
    requires |xs| == |ys| && IsPow2(|xs|) && t <= Log2Floor(|xs|)
    ensures Stages(LinearCombination(a, xs, b, ys), tw, t)
         == LinearCombination(a, Stages(xs, tw, t), b, Stages(ys, tw, t))
  {
    if t > 0 {
      var u := t - 1;
      StagesLinear(a, xs, b, ys, tw, u);
      StagesLinearStep(a, xs, b, ys, tw, u, t);
    }
  }

  /** Stage u keeps linearity: if the first u stages are linear, so are the first t = u + 1. */
  lemma StagesLinearStep(a: Complex, xs: seq<Complex>, b: Complex, ys: seq<Complex>, tw: Twiddles, u: nat, t: nat)
    requires |xs| == |ys| && IsPow2(|xs|) && 1 <= t <= Log2Floor(|xs|) && u == t - 1
    requires Stages(LinearCombination(a, xs, b, ys), tw, u)
          == LinearCombination(a, Stages(xs, tw, u), b, Stages(ys, tw, u))
    ensures Stages(LinearCombination(a, xs, b, ys), tw, t)
         == LinearCombination(a, Stages(xs, tw, t), b, Stages(ys, tw, t))
  {
    StagesUnfold(xs, tw, u, t);
    StagesUnfold(ys, tw, u, t);
    StagesUnfold(LinearCombination(a, xs, b, ys), tw, u, t);
    StageLinear(a, Stages(xs, tw, u), b, Stages(ys, tw, u), Pow2(u), tw(Pow2(u)));
  }

  /** The whole pass is linear in the input for a fixed twiddle source. */
  lemma AllStagesLinear(a: Complex, xs: seq<Complex>, b: Complex, ys: seq<Complex>, tw: Twiddles)
    requires |xs| == |ys| && IsPow2(|xs|)
    ensures AllStages(LinearCombination(a, xs, b, ys), tw)
         == LinearCombination(a, AllStages(xs, tw), b, AllStages(ys, tw))
  {
    StagesLinear(a, xs, b, ys, tw, Log2Floor(|xs|));
  }

  // ------------------------------------------------------------ swapped roles

  /** Pair j of a block over swapped samples is the swap of pair j of the
      block with the conjugate twiddle. */
  lemma BlockSwapAt(blk: seq<Complex>, s: nat, wm: Complex, j: nat)
    requires |blk| == 2 * s && j < s
    ensures Block(SwapAll(blk), s, wm)[j] == Swap(Block(blk, s, Conj(wm))[j])
    ensures Block(SwapAll(blk), s, wm)[j + s] == Swap(Block(blk, s, Conj(wm))[j + s])
  {
    var sw := SwapAll(blk);
    assert sw[j] == Swap(blk[j]) && sw[j + s] == Swap(blk[j + s]);
    BlockIndex(sw, s, wm, j);
    BlockIndex(blk, s, Conj(wm), j);
    PowConj(wm, j);
    SwapButterfly(blk[j], blk[j + s], Pow(wm, j));
  }

  /** A block over swapped samples is the swap of the block with the conjugate twiddle. */
  lemma BlockSwap(blk: seq<Complex>, s: nat, wm: Complex)
    requires |blk| == 2 * s
    ensures Block(SwapAll(blk), s, wm) == SwapAll(Block(blk, s, Conj(wm)))
  {
    var lhs := Block(SwapAll(blk), s, wm);
    var rhs := SwapAll(Block(blk, s, Conj(wm)));
    forall k | 0 <= k < 2 * s
      ensures lhs[k] == rhs[k]
    {
      if k < s {
        BlockSwapAt(blk, s, wm, k);
      } else {
        BlockSwapAt(blk, s, wm, k - s);
      }
    }
  }

  /** A stage over swapped samples is the swap of the stage with the conjugate twiddle. */
  lemma {:induction false} StageSwap(xs: seq<Complex>, s: nat, wm: Complex)
    requires s >= 1 && |xs| % (2 * s) == 0
    ensures Stage(SwapAll(xs), s, wm) == SwapAll(Stage(xs, s, Conj(wm)))
    decreases |xs|
  {
    if |xs| > 0 {
      var m := 2 * s;
      StageUnfold(xs, s, Conj(wm));
      StageUnfold(SwapAll(xs), s, wm);
      SwapAllSplit(xs, m);
      StageSwap(xs[m..], s, wm);
      BlockSwap(xs[..m], s, wm);
      SwapAllConcat(Block(xs[..m], s, Conj(wm)), Stage(xs[m..], s, Conj(wm)));
    }
  }

  /** The first t stages over swapped samples are the swap of the first t
      stages run with conjugated twiddles. */
  lemma {:induction false} StagesSwap(xs: seq<Complex>, tw: Twiddles, t: nat)
    requires IsPow2(|xs|) && t <= Log2Floor(|xs|)
    ensures Stages(SwapAll(xs), tw, t) == SwapAll(Stages(xs, ConjTwiddles(tw), t))
  {
    if t > 0 {
      var u := t - 1;
      StagesSwap(xs, tw, u);
      StagesSwapStep(xs, tw, u, t);
    }
  }

  /** Stage u keeps the swap relation: if it holds after u stages, it holds after t = u + 1. */
  lemma StagesSwapStep(xs: seq<Complex>, tw: Twiddles, u: nat, t: nat)
    requires IsPow2(|xs|) && 1 <= t <= Log2Floor(|xs|) && u == t - 1
    requires Stages(SwapAll(xs), tw, u) == SwapAll(Stages(xs, ConjTwiddles(tw), u))
    ensures Stages(SwapAll(xs), tw, t) == SwapAll(Stages(xs, ConjTwiddles(tw), t))
  {
    StagesUnfold(xs, ConjTwiddles(tw), u, t);
    StagesUnfold(SwapAll(xs), tw, u, t);
    StageSwap(Stages(xs, ConjTwiddles(tw), u), Pow2(u), tw(Pow2(u)));
  }

  /** The whole pass run on the buffers in exchanged roles is the swap of the
      pass run with conjugated twiddles: this is why the source's inverse,
      which hands the butterfly (im, re), is a transform with the opposite
      twiddle sign. */
  lemma AllStagesSwap(xs: seq<Complex>, tw: Twiddles)
    requires IsPow2(|xs|)
    ensures AllStages(SwapAll(xs), tw) == SwapAll(AllStages(xs, ConjTwiddles(tw)))
  {
    StagesSwap(xs, tw, Log2Floor(|xs|));
  }

  // --------------------------------------------------------------- n = 1

  /** For a single sample the pass runs no stage and changes nothing. */
  lemma AllStagesOfOne(xs: seq<Complex>, tw: Twiddles)
    requires |xs| == 1
    ensures IsPow2(|xs|) && AllStages(xs, tw) == xs
  {
  }
}
