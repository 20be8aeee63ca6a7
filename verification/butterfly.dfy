/** The butterfly pass of the transform: log2(n) stages, stage t combining
    pairs stride = 2^t apart inside blocks of 2 * stride samples. The stage
    is defined once by blocks (the reference) and computed by the three
    nested loops of the source (the implementation). */
module Butterfly {
  import opened Arith
  import opened Powers
  import opened ComplexArith
  import opened Signals

  /** The twiddle source: for each stride, the factor wm by which a stage of
      that stride advances its running twiddle. The source uses
      cispi(-1/stride); here it is a parameter. */
  type Twiddles = nat -> Complex

  /** Every stage's twiddle factor lies on the unit circle. */
  ghost predicate UnitTwiddles(tw: Twiddles) {
    forall s: nat :: Norm2(tw(s)) == 1.0
  }

  /** The same twiddle source with every factor conjugated. */
  function ConjTwiddles(tw: Twiddles): (ctw: Twiddles)
    ensures forall s: nat :: ctw(s) == Conj(tw(s))
  {
    (s: nat) => Conj(tw(s))
  }

  /** Sums of a block: p + wm^j q for the j-th pair (p, q) = (blk[j], blk[j + s]). */
  function BlockLow(blk: seq<Complex>, s: nat, wm: Complex): (out: seq<Complex>)
    requires |blk| == 2 * s
    ensures |out| == s
  {
    seq(s, j requires 0 <= j < s => Add(blk[j], Mul(Pow(wm, j), blk[j + s])))
  }

  /** Differences of a block: p - wm^j q for the j-th pair. */
  function BlockHigh(blk: seq<Complex>, s: nat, wm: Complex): (out: seq<Complex>)
    requires |blk| == 2 * s
    ensures |out| == s
  {
    seq(s, j requires 0 <= j < s => Sub(blk[j], Mul(Pow(wm, j), blk[j + s])))
  }

  /** One butterfly block of 2 * s samples: sums in the first half, differences in the second. */
  function Block(blk: seq<Complex>, s: nat, wm: Complex): (out: seq<Complex>)
    requires |blk| == 2 * s
    ensures |out| == 2 * s
  {
    BlockLow(blk, s, wm) + BlockHigh(blk, s, wm)
  }

  /** One stage of stride s: the sequence cut into consecutive blocks of
      2 * s samples, each block combined on its own. */
  function Stage(xs: seq<Complex>, s: nat, wm: Complex): (ys: seq<Complex>)
    requires s >= 1 && |xs| % (2 * s) == 0
    ensures |ys| == |xs|
    decreases |xs|
  {
    if |xs| == 0 then []
    else
      MultipleShrink(|xs|, 2 * s);
      Block(xs[..2 * s], s, wm) + Stage(xs[2 * s..], s, wm)
  }

  /** For n a power of two and t below log2(n), blocks of 2 * 2^t samples tile n. */
  lemma StrideDivides(n: nat, t: nat)
    requires IsPow2(n) && t < Log2Floor(n)
    ensures n % (2 * Pow2(t)) == 0
  {
    Pow2Divides(t + 1, Log2Floor(n));
  }

  /** The first t stages: stage k has stride 2^k and twiddle tw(2^k). */
  function Stages(xs: seq<Complex>, tw: Twiddles, t: nat): (ys: seq<Complex>)
    requires IsPow2(|xs|) && t <= Log2Floor(|xs|)
    ensures |ys| == |xs|
  {
    if t == 0 then xs
    else
      StrideDivides(|xs|, t - 1);
      Stage(Stages(xs, tw, t - 1), Pow2(t - 1), tw(Pow2(t - 1)))
  }

  /** The whole butterfly pass: all log2(n) stages. */
  function AllStages(xs: seq<Complex>, tw: Twiddles): (ys: seq<Complex>)
    requires IsPow2(|xs|)
    ensures |ys| == |xs|
  {
    Stages(xs, tw, Log2Floor(|xs|))
  }

  /** A non-empty stage is its first block followed by the stage of the rest. */
  lemma StageUnfold(xs: seq<Complex>, s: nat, wm: Complex)
    requires s >= 1 && |xs| % (2 * s) == 0 && |xs| > 0
    ensures 2 * s <= |xs| && (|xs| - 2 * s) % (2 * s) == 0
    ensures Stage(xs, s, wm) == Block(xs[..2 * s], s, wm) + Stage(xs[2 * s..], s, wm)
  {
    MultipleShrink(|xs|, 2 * s);
  }

  /** Pair j of a block: the sum lands at j, the difference at j + s. */
  lemma BlockIndex(blk: seq<Complex>, s: nat, wm: Complex, j: nat)
    requires |blk| == 2 * s && j < s
    ensures Block(blk, s, wm)[j] == Add(blk[j], Mul(Pow(wm, j), blk[j + s]))
    ensures Block(blk, s, wm)[j + s] == Sub(blk[j], Mul(Pow(wm, j), blk[j + s]))
  {
    assert Block(blk, s, wm)[j] == BlockLow(blk, s, wm)[j];
    assert Block(blk, s, wm)[j + s] == BlockHigh(blk, s, wm)[j];
  }

  /** The stage output read at one position: for i the start of a block and
      j < s, positions i + j and i + j + s receive the sum and the difference
      of the j-th pair of that block. */
  lemma StageIndex(xs: seq<Complex>, s: nat, wm: Complex, i: nat, j: nat)
    requires s >= 1 && |xs| % (2 * s) == 0
    requires i % (2 * s) == 0 && i + 2 * s <= |xs| && j < s
    ensures Stage(xs, s, wm)[i + j] == Add(xs[i + j], Mul(Pow(wm, j), xs[i + j + s]))
    ensures Stage(xs, s, wm)[i + j + s] == Sub(xs[i + j], Mul(Pow(wm, j), xs[i + j + s]))
  {
    BlockStartOf(i, 2 * s);
    StageAtBlock(xs, s, wm, i, j);
  }

  /** StageIndex with the block start counted block by block. */
  lemma StageAtBlock(xs: seq<Complex>, s: nat, wm: Complex, i: nat, j: nat)
    requires s >= 1 && |xs| % (2 * s) == 0
    requires BlockStart(i, 2 * s) && i + 2 * s <= |xs| && j < s
    ensures Stage(xs, s, wm)[i + j] == Add(xs[i + j], Mul(Pow(wm, j), xs[i + j + s]))
    ensures Stage(xs, s, wm)[i + j + s] == Sub(xs[i + j], Mul(Pow(wm, j), xs[i + j + s]))
  {
    DropAt(xs, i, i + j, j);
    DropAt(xs, i, i + j + s, j + s);
    StagePairAt(xs, s, wm, i, j, xs[i + j], xs[i + j + s]);
  }

  /** StageAtBlock with the pair (p, q) read from the suffix that starts at
      the block. The proofs of this group keep the reads xs[k] and the
      suffixes xs[i..] in separate lemmas, where the solver handles them
      without wandering. */
  lemma StagePairAt(xs: seq<Complex>, s: nat, wm: Complex, i: nat, j: nat, p: Complex, q: Complex)
    requires s >= 1 && |xs| % (2 * s) == 0
    requires BlockStart(i, 2 * s) && i + 2 * s <= |xs| && j < s
    requires p == xs[i..][j] && q == xs[i..][j + s]
    ensures Stage(xs, s, wm)[i + j] == Add(p, Mul(Pow(wm, j), q))
    ensures Stage(xs, s, wm)[i + j + s] == Sub(p, Mul(Pow(wm, j), q))
  {
    StageSuffix(xs, s, wm, i);
    DropAt(Stage(xs, s, wm), i, i + j, j);
    DropAt(Stage(xs, s, wm), i, i + j + s, j + s);
    StageFirstPair(xs[i..], s, wm, j, p, q);
  }

  /** The pair j of the first block, with p and q naming its two inputs. */
  lemma StageFirstPair(xs: seq<Complex>, s: nat, wm: Complex, j: nat, p: Complex, q: Complex)
    requires s >= 1 && |xs| % (2 * s) == 0 && 2 * s <= |xs| && j < s
    requires p == xs[j] && q == xs[j + s]
    ensures Stage(xs, s, wm)[j] == Add(p, Mul(Pow(wm, j), q))
    ensures Stage(xs, s, wm)[j + s] == Sub(p, Mul(Pow(wm, j), q))
  {
    var b := 2 * s;
    StageUnfold(xs, s, wm);
    var head := Block(xs[..b], s, wm);
    var tail := Stage(xs[b..], s, wm);
    BlockIndex(xs[..b], s, wm, j);
    assert xs[..b][j] == p && xs[..b][j + s] == q;
    ConcatHead(head, tail, j, j);
    ConcatHead(head, tail, j + s, j + s);
  }

  /** The stage of a sequence, cut at the start of a block, is the stage of
      the cut sequence: the blocks in front of the cut do not reach past it. */
  lemma {:induction false} StageSuffix(xs: seq<Complex>, s: nat, wm: Complex, i: nat)
    requires s >= 1 && |xs| % (2 * s) == 0
    requires BlockStart(i, 2 * s) && i <= |xs|
    ensures |xs[i..]| % (2 * s) == 0
    ensures Stage(xs, s, wm)[i..] == Stage(xs[i..], s, wm)
    decreases i
  {
    if i == 0 {
      DropNone(xs, i);
      DropNone(Stage(xs, s, wm), i);
    } else {
      assert 2 * s <= i && BlockStart(i - 2 * s, 2 * s);
      StageUnfold(xs, s, wm);
      StageSuffix(xs[2 * s..], s, wm, i - 2 * s);
      DropDrop(xs, 2 * s, i - 2 * s, i);
      AppendDrop(Block(xs[..2 * s], s, wm), Stage(xs[2 * s..], s, wm), i, i - 2 * s);
    }
  }

  /** i is a whole number of blocks of b samples, counted block by block. */
  predicate BlockStart(i: nat, b: nat)
    decreases i
  {
    i == 0 || (0 < b <= i && BlockStart(i - b, b))
  }

  /** A multiple of b is reached from 0 in steps of b. */
  lemma {:induction false} BlockStartOf(i: nat, b: nat)
    requires b > 0 && i % b == 0
    ensures BlockStart(i, b)
    decreases i
  {
    if i > 0 {
      MultipleShrink(i, b);
      BlockStartOf(i - b, b);
    }
  }

  /** Cutting a concatenation past its head cuts the tail. */
  lemma AppendDrop<T>(head: seq<T>, tail: seq<T>, i: nat, r: nat)
    requires |head| <= i <= |head| + |tail| && r == i - |head|
    ensures (head + tail)[i..] == tail[r..]
  {
  }


  /** Dropping nothing leaves the sequence. */
  lemma DropNone<T>(xs: seq<T>, i: nat)
    requires i == 0
    ensures xs[i..] == xs
  {
  }

  /** Dropping b and then c elements drops d = b + c. */
  lemma DropDrop<T>(xs: seq<T>, b: nat, c: nat, d: nat)
    requires d == b + c <= |xs|
    ensures xs[b..][c..] == xs[d..]
  {
  }

  /** Reading a suffix: position r of xs[b..] is position k = b + r of xs. */
  lemma DropAt<T>(xs: seq<T>, b: nat, k: nat, r: nat)
    requires b <= k < |xs| && r == k - b
    ensures xs[b..][r] == xs[k]
  {
  }

  /** Reading a concatenation below the length of its head; m names k. */
  lemma ConcatHead<T>(head: seq<T>, tail: seq<T>, k: nat, m: nat)
    requires m == k < |head|
    ensures (head + tail)[k] == head[m]
  {
  }

  /** Every access of the inner loop is in bounds: with i the start of a
      block and j < stride, 0 <= idx0 < idx1 = idx0 + stride < n. */
  lemma AccessInBounds(n: nat, stride: nat, i: nat, j: nat)
    requires stride >= 1 && n % (2 * stride) == 0
    requires i % (2 * stride) == 0 && i < n && j < stride
    ensures 0 <= i + j < i + j + stride < n
  {
    BlockFits(i, n, 2 * stride);
  }

  /** The outer loop's strides: 2^t is below n exactly for t < log2(n), so
      the loop runs log2(n) stages and its last stride is n / 2. */
  lemma StrideSchedule(n: nat, t: nat)
    requires IsPow2(n)
    ensures Pow2(t) < n <==> t < Log2Floor(n)
    ensures n >= 2 ==> Log2Floor(n) >= 1 && Pow2(Log2Floor(n) - 1) == n / 2
  {
    Pow2Less(t, Log2Floor(n));
    if n >= 2 {
      Pow2Less(0, Log2Floor(n));
    }
  }

  /** The buffer partway through a stage of stride s: the blocks before i are
      finished, the first j pairs of the block at i are finished, and every
      other position still holds the stage input. */
  function Mixed(src: seq<Complex>, out: seq<Complex>, s: nat, i: nat, j: nat): (ys: seq<Complex>)
    requires |src| == |out|
    ensures |ys| == |src|
  {
    seq(|src|, k requires 0 <= k < |src| =>
      if k < i + j || (i + s <= k < i + s + j) then out[k] else src[k])
  }

  /** One butterfly of the inner loop: overwriting positions i + j and
      i + j + s with their stage outputs finishes pair j of the block. */
  lemma MixedStep(re: seq<real>, im: seq<real>, src: seq<Complex>, out: seq<Complex>,
                  s: nat, i: nat, j: nat, r0: real, m0: real, r1: real, m1: real)
    requires |re| == |im| == |src| == |out| && j < s && i + j + s < |src|
    requires Zip(re, im) == Mixed(src, out, s, i, j)
    requires out[i + j] == Complex(r0, m0) && out[i + j + s] == Complex(r1, m1)
    ensures Zip(re[i + j := r0][i + j + s := r1], im[i + j := m0][i + j + s := m1])
         == Mixed(src, out, s, i, j + 1)
  {
    var got := Zip(re[i + j := r0][i + j + s := r1], im[i + j := m0][i + j + s := m1]);
    var want := Mixed(src, out, s, i, j + 1);
    forall k | 0 <= k < |src|
      ensures got[k] == want[k]
    {
      if k != i + j && k != i + j + s {
        assert got[k] == Zip(re, im)[k];
      }
    }
  }

  /** Positions i + j and i + j + s are untouched before pair j is combined. */
  lemma MixedUntouched(re: seq<real>, im: seq<real>, src: seq<Complex>, out: seq<Complex>,
                       s: nat, i: nat, j: nat)
    requires |re| == |im| == |src| == |out| && j < s && i + j + s < |src|
    requires Zip(re, im) == Mixed(src, out, s, i, j)
    ensures Complex(re[i + j], im[i + j]) == src[i + j]
    ensures Complex(re[i + j + s], im[i + j + s]) == src[i + j + s]
  {
    assert Zip(re, im)[i + j] == src[i + j];
    assert Zip(re, im)[i + j + s] == src[i + j + s];
  }

  /** Finishing all s pairs of the block at i finishes the block. */
  lemma MixedBlockDone(src: seq<Complex>, out: seq<Complex>, s: nat, i: nat)
    requires |src| == |out|
    ensures Mixed(src, out, s, i, s) == Mixed(src, out, s, i + 2 * s, 0)
  {
  }

  /** Before the first block nothing is finished; after the last, everything is. */
  lemma MixedEnds(src: seq<Complex>, out: seq<Complex>, s: nat)
    requires |src| == |out|
    ensures Mixed(src, out, s, 0, 0) == src
    ensures Mixed(src, out, s, |src|, 0) == out
  {
  }

  /** The block of 2 * s outputs starting at i: pair j of the block sends
      its sum to i + j and its difference to i + j + s. */
  ghost predicate BlockOutputs(src: seq<Complex>, out: seq<Complex>, s: nat, wm: Complex, i: nat) {
    |out| == |src| && i + 2 * s <= |src| &&
    forall j :: 0 <= j < s ==>
      out[i + j] == Add(src[i + j], Mul(Pow(wm, j), src[i + j + s])) &&
      out[i + j + s] == Sub(src[i + j], Mul(Pow(wm, j), src[i + j + s]))
  }

  /** Every block of a stage's output holds that block's butterflies. */
  lemma StageBlockOutputs(src: seq<Complex>, s: nat, wm: Complex, i: nat)
    requires s >= 1 && |src| % (2 * s) == 0
    requires i % (2 * s) == 0 && i < |src|
    ensures BlockOutputs(src, Stage(src, s, wm), s, wm, i)
  {
    BlockFits(i, |src|, 2 * s);
    forall j | 0 <= j < s
      ensures Stage(src, s, wm)[i + j] == Add(src[i + j], Mul(Pow(wm, j), src[i + j + s]))
      ensures Stage(src, s, wm)[i + j + s] == Sub(src[i + j], Mul(Pow(wm, j), src[i + j + s]))
    {
      StageIndex(src, s, wm, i, j);
    }
  }

  /** The two values the source stores for pair j of the block at i, read
      from the partly finished buffer, are that pair's stage outputs. */
  lemma PairValues(re: seq<real>, im: seq<real>, src: seq<Complex>, out: seq<Complex>, s: nat, wm: Complex,
                   i: nat, j: nat, idx0: nat, idx1: nat, w: Complex, p: Complex, q: Complex)
    requires |re| == |im| == |src| && j < s
    requires BlockOutputs(src, out, s, wm, i)
    requires Zip(re, im) == Mixed(src, out, s, i, j)
    requires idx0 == i + j && idx1 == idx0 + s
    requires w == Pow(wm, j)
    requires p == Complex(re[idx0], im[idx0])
    requires q == Mul(w, Complex(re[idx1], im[idx1]))
    ensures out[i + j] == Complex(p.re + q.re, p.im + q.im)
    ensures out[i + j + s] == Complex(p.re - q.re, p.im - q.im)
  {
    MixedUntouched(re, im, src, out, s, i, j);
    assert p == src[i + j];
    assert q == Mul(Pow(wm, j), src[i + j + s]);
  }

  /** One iteration of the inner loop, as the source writes it: with
      p = x[i + j] and q = w * x[i + j + s] read from the buffer and p + q,
      p - q the stage outputs of pair j, storing them finishes that pair. */
  lemma PairStep(re: seq<real>, im: seq<real>, src: seq<Complex>, out: seq<Complex>,
                 s: nat, i: nat, j: nat, p: Complex, q: Complex)
    requires |re| == |im| == |src| == |out| && j < s && i + j + s < |src|
    requires Zip(re, im) == Mixed(src, out, s, i, j)
    requires out[i + j] == Complex(p.re + q.re, p.im + q.im)
    requires out[i + j + s] == Complex(p.re - q.re, p.im - q.im)
    ensures Zip(re[i + j := p.re + q.re][i + j + s := p.re - q.re],
                im[i + j := p.im + q.im][i + j + s := p.im - q.im])
         == Mixed(src, out, s, i, j + 1)
  {
    MixedStep(re, im, src, out, s, i, j, p.re + q.re, p.im + q.im, p.re - q.re, p.im - q.im);
  }

  /** The innermost loop of _lifft_process for the block starting at i: the
      running twiddle w starts at 1 and is multiplied by wm after each pair;
      pair j reads p = x[i + j] and q = w * x[i + j + stride] and writes
      p + q and p - q back to the same two positions. */
  method BlockPass(re: seq<real>, im: seq<real>, i: nat, stride: nat, wm: Complex,
                   ghost src: seq<Complex>, ghost out: seq<Complex>)
    returns (re': seq<real>, im': seq<real>)
    requires |re| == |im| == |src| && stride >= 1 && |src| % (2 * stride) == 0
    requires i % (2 * stride) == 0 && i < |src|
    requires BlockOutputs(src, out, stride, wm, i)
    requires Zip(re, im) == Mixed(src, out, stride, i, 0)
    ensures |re'| == |im'| == |src|
    ensures Zip(re', im') == Mixed(src, out, stride, i + 2 * stride, 0)
  {
    re', im' := re, im;
    var w := One;
    for j := 0 to stride
      invariant |re'| == |im'| == |src|
      invariant w == Pow(wm, j)
      invariant Zip(re', im') == Mixed(src, out, stride, i, j)
    {
      AccessInBounds(|src|, stride, i, j);
      var idx0 := i + j;
      var idx1 := idx0 + stride;
      var p := Complex(re'[idx0], im'[idx0]);
      var q := Mul(w, Complex(re'[idx1], im'[idx1]));
      PairValues(re', im', src, out, stride, wm, i, j, idx0, idx1, w, p, q);
      PairStep(re', im', src, out, stride, i, j, p, q);
      re' := re'[idx0 := p.re + q.re][idx1 := p.re - q.re];
      im' := im'[idx0 := p.im + q.im][idx1 := p.im - q.im];
      w := Mul(w, wm);
    }
    MixedBlockDone(src, out, stride, i);
  }

  /** The middle loop of _lifft_process: one stage, block by block, with the
      block start i advancing by 2 * stride. */
  method StagePass(re: seq<real>, im: seq<real>, n: nat, stride: nat, wm: Complex)
    returns (re': seq<real>, im': seq<real>)
    requires |re| == |im| == n && stride >= 1 && n % (2 * stride) == 0
    ensures |re'| == |im'| == n
    ensures Zip(re', im') == Stage(Zip(re, im), stride, wm)
  {
    ghost var src := Zip(re, im);
    ghost var out := Stage(src, stride, wm);
    MixedEnds(src, out, stride);
    re', im' := re, im;
    var i := 0;
    while i < n
      invariant i <= n && i % (2 * stride) == 0
      invariant |re'| == |im'| == n
      invariant Zip(re', im') == Mixed(src, out, stride, i, 0)
      decreases n - i
    {
      StageBlockOutputs(src, stride, wm, i);
      re', im' := BlockPass(re', im', i, stride, wm, src, out);
      MultipleGrow(i, 2 * stride);
      i := i + 2 * stride;
    }
  }

  /** The first t stages are stage u = t - 1 applied after the first u.
      Naming u as its own parameter lets callers that hold u (an induction
      step, the outer loop's counter) match Stages(xs, tw, u) and Pow2(u)
      syntactically, instead of the terms in t - 1 that StagesLast states. */
  lemma StagesUnfold(xs: seq<Complex>, tw: Twiddles, u: nat, t: nat)
    requires IsPow2(|xs|) && 1 <= t <= Log2Floor(|xs|) && u == t - 1
    ensures |xs| % (2 * Pow2(u)) == 0
    ensures Stages(xs, tw, t) == Stage(Stages(xs, tw, u), Pow2(u), tw(Pow2(u)))
  {
    StagesLast(xs, tw, t);
  }

  /** The first t stages are stage t - 1 applied after the first t - 1. */
  lemma StagesLast(xs: seq<Complex>, tw: Twiddles, t: nat)
    requires IsPow2(|xs|) && 1 <= t <= Log2Floor(|xs|)
    ensures |xs| % (2 * Pow2(t - 1)) == 0
    ensures Stages(xs, tw, t) == Stage(Stages(xs, tw, t - 1), Pow2(t - 1), tw(Pow2(t - 1)))
  {
    StrideDivides(|xs|, t - 1);
  }

  /** One pass of the outer loop, in terms of the stage count: run with stride
      2^t and twiddle tw(2^t), the middle loop turns the first t stages into
      the first t + 1. */
  method NextStage(re: seq<real>, im: seq<real>, n: nat, stride: nat, wm: Complex,
                   ghost xs: seq<Complex>, ghost tw: Twiddles, ghost t: nat)
    returns (re': seq<real>, im': seq<real>)
    requires |re| == |im| == |xs| == n && IsPow2(n) && t < Log2Floor(n)
    requires stride == Pow2(t) && wm == tw(stride)
    requires Zip(re, im) == Stages(xs, tw, t)
    ensures |re'| == |im'| == n
    ensures Zip(re', im') == Stages(xs, tw, t + 1)
  {
    StagesUnfold(xs, tw, t, t + 1);
    re', im' := StagePass(re, im, n, stride, wm);
  }

  /** _lifft_process: the stride starts at 1 and doubles while it is below n;
      each value runs one stage with twiddle factor tw(stride), so the pass
      runs stages 0 .. log2(n) - 1 with strides 2^t (see StrideSchedule). */
  method Process(re: seq<real>, im: seq<real>, n: nat, tw: Twiddles)
    returns (re': seq<real>, im': seq<real>)
    requires |re| == |im| == n && IsPow2(n)
    ensures |re'| == |im'| == n
    ensures Zip(re', im') == AllStages(Zip(re, im), tw)
  {
    ghost var xs := Zip(re, im);
    ghost var t := 0;
    re', im' := re, im;
    var stride := 1;
    while stride < n
      invariant |xs| == n && t <= Log2Floor(n) && stride == Pow2(t)
      invariant |re'| == |im'| == n
      invariant Zip(re', im') == Stages(xs, tw, t)
      decreases n - stride
    {
      StrideSchedule(n, t);
      var wm := tw(stride);
      re', im' := NextStage(re', im', n, stride, wm, xs, tw, t);
      stride := stride * 2;
      t := t + 1;
    }
    StrideSchedule(n, t);
  }
}
