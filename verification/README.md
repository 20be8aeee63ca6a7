# lifft: a Dafny model of the radix-2 FFT

This project models the core of `js/lifft.js`: a small, iterative, in-place, radix-2 decimation-in-time Cooley–Tukey FFT over complex sequences whose length is a power of two. The model is written in Dafny and covers these parts of the source:

- **Container.** `lifft_complex_arr` allocates one backing buffer and lays a real view and an imaginary view of `n` elements over it.
- **Bit reversal.** The 64-entry table `_LIFFT_REV6` reverses six bits at a time, and `_lifft_rev_bits24` uses it to reverse a 24-bit index and then shift it down to `bits` bits.
- **Setup.** `_lifft_setup` scatters `x[i] * norm` into slot `rev(i)` of a fresh container.
- **Complex arithmetic.** `lifft_cadd`, `lifft_csub` and `lifft_cmul` are modelled exactly over `real`.
- **Butterfly pass.** `_lifft_process` has three nested loops: strides 1, 2, …, n/2; blocks of `2 * stride`; pairs `idx0`, `idx1 = idx0 + stride` combined into `p + w q` and `p - w q`.
- **Entry points.** `lifft_forward_complex` and `lifft_inverse_complex`. The inverse hands the butterfly pass the buffers in the order `(im, re)`.

Buffers are values (`seq<real>`), so "the input container is left unchanged" holds by construction. Each loop of the source is a method whose loop invariants tie it to a reference definition:

- `Reversed` and `BitReversed` for the setup;
- `Block`, `Stage` and `Stages` for the butterfly pass.

The laws of the transform are lemmas about those definitions:

- one stage doubles the energy, and with `norm^2 n = 1` the transform preserves energy (Parseval);
- the transform is linear;
- the inverse is the pass with conjugated twiddles;
- a single sample only gets normalised;
- for two and four samples, with the source's twiddles for those strides (-1 and -i), the forward transform is the discrete Fourier transform (DFT) of the normalised samples, the inverse is the DFT with the conjugate root, and the inverse undoes the forward transform.

The DFT is given by an independent reference definition, `Fourier.Dft`: entry k is the sum over j of w^(k j) x[j].

Modules, one per file, in dependency order:

| file | module | contents |
|---|---|---|
| arith.dfy | Arith | integer division and multiple helpers |
| powers.dfy | Powers | `Pow2`, `Log2Floor`, `IsPow2` |
| complex.dfy | ComplexArith | `lifft_complex`, add, sub, mul, and the algebra the butterfly needs |
| signals.dfy | Signals | sequences of samples: zip of two buffers, energy, linear combination, re/im swap |
| container.dfy | Container | `lifft_complex_arr`, byte layout of the two views |
| bitrev.dfy | BitReversal | `_LIFFT_REV6`, `_lifft_rev_bits24` |
| setup.dfy | SetupStage | `_lifft_setup` |
| butterfly.dfy | Butterfly | `_lifft_process` and the stage definitions |
| stagelaws.dfy | StageLaws | energy, linearity and swap laws of the stages |
| transform.dfy | Transform | `lifft_forward_complex`, `lifft_inverse_complex` and their laws |
| fourier.dfy | Fourier | the reference DFT, and the transforms of two and four samples compared with it |

## Model

| member | source | states |
|---|---|---|
| Container.NewComplexArr | js/lifft.js:2-5 | a fresh container has real and imaginary buffers of exactly n elements, all zero (so zero energy), and carries the requested n and element type |
| Container.LayoutOf | js/lifft.js:3-4 | the backing buffer holds 2 * size * n bytes; the real view starts at byte 0, the imaginary view starts where the real view ends (byte size * n), and it ends at the end of the buffer |
| Container.LayoutDisjoint | js/lifft.js:3-4 | no byte belongs to both views, and every byte of either view lies inside the backing buffer |
| BitReversal.Rev6Table | js/lifft.js:7-12 | the table has 64 entries and entry k is k with its six low bits reversed |
| BitReversal.ChunkReverse | js/lifft.js:17 | one lookup at `n & 0x3F` yields the reversal of the low six bits of n, whatever the higher bits are |
| BitReversal.Reverse24Chunks | js/lifft.js:16-20 | the four shift-by-six-and-insert steps, each consuming the next six bits of n, build the 24-bit reversal of n |
| BitReversal.ShiftDown | js/lifft.js:21 | shifting a 24-bit reversal right by 24 - bits leaves the reversal of the low `bits` bits |
| BitReversal.RevBits24 | js/lifft.js:15-22 | for bits <= 24 the routine returns exactly the bits-bit reversal of n, which is below 2^bits |
| BitReversal.RevBits24Involutive | js/lifft.js:15-22 | reversing twice gives back every n below 2^bits |
| BitReversal.RevBits24Bijective | js/lifft.js:15-22 | on [0, 2^bits) distinct indices have distinct reversals, and every index in range is the reversal of an index in range: a permutation |
| BitReversal.ReverseBitsInvolutive | js/lifft.js:15-22 | for the reference reversal, which `RevBits24` equals, reversing w bits twice gives back every index below 2^w |
| BitReversal.ReverseBitsBijective | js/lifft.js:15-22 | for the reference reversal, reversal of w bits permutes [0, 2^w): it is one-to-one there and is its own inverse |
| Powers.Log2OfPow2 | js/lifft.js:27 | for n = 2^b, floor(log2(n)) is exactly b |
| SetupStage.ReversedSlot | js/lifft.js:29-31 | slot k receives source index i exactly when k = rev(i), in both directions |
| SetupStage.BufferStep | js/lifft.js:29-31 | one loop iteration, writing `x.re[i] * norm` and `x.im[i] * norm` into slot rev(i) of the two buffers, takes them from the normalised scatter of the first i samples to that of the first i + 1 |
| SetupStage.ScatterStep | js/lifft.js:29-31 | the slot an iteration writes still held its initial zero, so no slot is written twice |
| SetupStage.ScatterLoop | js/lifft.js:28-32 | started on zeroed buffers, the loop leaves in slot k of the two buffers the input sample at index rev(k) times norm, for every k |
| SetupStage.Setup | js/lifft.js:25-34 | the setup returns a valid container with the input's n and element type whose samples are the input samples, permuted by bit reversal and multiplied by norm |
| SetupStage.BitReversedPlacement | js/lifft.js:29-31 | read from the source side, sample i ends up scaled in slot rev(i), which is in range |
| SetupStage.ReversedEnergy | js/lifft.js:28-32 | the bit-reversal permutation neither adds nor loses energy |
| SetupStage.BitReversedEnergy | js/lifft.js:25-34 | the setup output has norm^2 times the energy of the input |
| ComplexArith.MulCommutative | js/lifft.js:38 | x * y = y * x |
| ComplexArith.MulDistributes | js/lifft.js:36-38 | multiplication distributes over complex addition and subtraction; with commutativity this makes cmul additive in each argument |
| ComplexArith.MulScale | js/lifft.js:38 | a real factor can be pulled out of either argument of a product, which completes bilinearity |
| ComplexArith.Norm2Mul | js/lifft.js:38 | the squared magnitude of x y is the product of the squared magnitudes of x and y, so a unit twiddle preserves magnitude |
| ComplexArith.Parallelogram | js/lifft.js:36-37 | the squared magnitudes of p + q and p - q add up to twice those of p and q |
| ComplexArith.ButterflyEnergy | js/lifft.js:48-52 | with a unit twiddle w the two outputs of one butterfly have twice the energy of its two inputs p and x[idx1] |
| ComplexArith.PowUnit | js/lifft.js:46-53 | the running twiddle (1, then multiplied by wm after each pair) stays on the unit circle when wm does |
| ComplexArith.SwapButterfly | js/lifft.js:48-52 | a butterfly on re/im-exchanged values is the re/im exchange of the butterfly with the conjugate twiddle |
| ComplexArith.LinearButterfly | js/lifft.js:48-52 | a butterfly applied to a linear combination of two pairs is that combination of the two butterflies |
| Butterfly.StrideSchedule | js/lifft.js:43 | for n = 2^b the outer loop's stride 2^t is below n exactly when t < b, so it runs b stages; for n >= 2 the last stride is n / 2 |
| Butterfly.StrideDivides | js/lifft.js:43-45 | every stride's blocks of 2 * stride samples tile the n samples exactly |
| Butterfly.AccessInBounds | js/lifft.js:45-48 | every access satisfies 0 <= idx0 < idx1 = idx0 + stride < n |
| Butterfly.StageIndex | js/lifft.js:45-52 | in the stage of stride s, position i + j of block i receives x[i+j] + wm^j x[i+j+s], and position i + j + s receives the difference |
| Butterfly.MixedStep | js/lifft.js:51-52 | one inner step changes positions idx0 and idx1 only, and finishes exactly one more pair |
| Butterfly.PairValues | js/lifft.js:49-50 | p and q read at idx0 and idx1 of the partly processed buffer are still the stage inputs, so p + q and p - q are that pair's stage outputs |
| Butterfly.BlockPass | js/lifft.js:46-54 | the innermost loop finishes the block at i and leaves every other position as it was |
| Butterfly.StagePass | js/lifft.js:45-55 | the middle loop turns the buffers into exactly one stage of stride `stride` and twiddle wm |
| Butterfly.NextStage | js/lifft.js:43-56 | one pass of the outer loop turns the first t stages into the first t + 1 |
| Butterfly.Process | js/lifft.js:42-57 | the whole pass leaves in the buffers the result of all log2(n) stages, stage t having stride 2^t and twiddle tw(2^t) |
| StageLaws.BlockEnergy | js/lifft.js:46-54 | with a unit twiddle one block's butterflies double its energy |
| StageLaws.StageEnergy | js/lifft.js:45-55 | each stage doubles the total energy |
| StageLaws.StagesEnergy | js/lifft.js:43-56 | after t stages with unit twiddles the energy is 2^t times the input's |
| StageLaws.AllStagesEnergy | js/lifft.js:42-57 | the whole pass multiplies the energy by n |
| StageLaws.StageLinear | js/lifft.js:45-55 | one stage is complex-linear in its input |
| StageLaws.AllStagesLinear | js/lifft.js:42-57 | the whole pass is complex-linear in its input for fixed twiddles |
| StageLaws.StageSwap | js/lifft.js:45-55 | a stage on re/im-swapped input is the re/im swap of the stage with conjugated twiddle |
| StageLaws.AllStagesSwap | js/lifft.js:42-57 | the whole pass on swapped input is the swap of the pass with every twiddle conjugated |
| StageLaws.AllStagesOfOne | js/lifft.js:43 | with one sample the pass runs no stage and returns its input |
| Transform.Forward | js/lifft.js:59-63 | the forward transform returns a container with the input's n and element type, holding the butterfly pass of the normalised, bit-reversed input |
| Transform.Inverse | js/lifft.js:65-69 | the inverse returns a container with the input's n and element type, holding the swap of the pass over the swapped setup output; this equals the pass with conjugated twiddles |
| Transform.SwappedPass | js/lifft.js:67 | running the pass with the real and imaginary buffers exchanged is the pass with conjugated twiddles |
| Transform.ForwardEnergy | js/lifft.js:59-63 | the forward transform multiplies the energy by n norm^2: norm^2 from the setup, n from the stages |
| Transform.ForwardParseval | js/lifft.js:27 | with norm^2 n = 1, the source's norm = 1/sqrt(n), the forward transform preserves energy |
| Transform.InverseEnergy | js/lifft.js:65-69 | the inverse transform multiplies the energy by n norm^2 |
| Transform.InverseParseval | js/lifft.js:27 | with norm^2 n = 1 the inverse transform preserves energy |
| Transform.BitReversedLinear | js/lifft.js:28-32 | normalising and bit-reversing commute with linear combinations |
| Transform.ForwardLinear | js/lifft.js:59-63 | the forward transform is complex-linear in its input |
| Transform.InverseLinear | js/lifft.js:65-69 | the inverse transform is complex-linear in its input |
| Transform.TransformOfOne | js/lifft.js:59-69 | for one sample both transforms only multiply it by norm |
| Transform.ProcessOfOne | js/lifft.js:43 | for n = 1 the pass changes neither the real nor the imaginary buffer |
| Transform.ForwardOfTwo | js/lifft.js:59-63 | for two samples the forward transform gives norm (x0 + x1) and norm (x0 - x1) |
| Fourier.BitReversedOfFour | js/lifft.js:28-31 | for four samples the setup puts x0, x2, x1, x3, each times norm, in slots 0 to 3 |
| Fourier.AllStagesOfFour | js/lifft.js:42-57 | for four samples and any twiddles the pass gives (y0 + y1) + (y2 + y3), (y0 - y1) + w (y2 - y3), (y0 + y1) - (y2 + y3) and (y0 - y1) - w (y2 - y3), w being the stride-2 twiddle; the stride-1 stage only uses the twiddle 1 |
| Fourier.ForwardIsDftTwo | js/lifft.js:59-63 | for two samples the forward transform is the DFT with root -1 = cispi(-1) of the normalised samples, whatever the twiddles |
| Fourier.InverseIsDftTwo | js/lifft.js:65-69 | for two samples the inverse transform is that same DFT, -1 being its own conjugate |
| Fourier.ForwardIsDftFour | js/lifft.js:59-63 | for four samples, with the stride-2 twiddle cispi(-1/2) = -i, the forward transform is the DFT with root -i of the normalised samples |
| Fourier.InverseIsDftFour | js/lifft.js:65-69 | for four samples, with the same twiddle, the inverse transform is the DFT with the conjugate root i of the normalised samples |
| Fourier.RoundTripTwo | js/lifft.js:59-69 | with norm^2 2 = 1, the source's norm = 1/sqrt(2), the inverse transform of the forward transform of two samples is the input |
| Fourier.RoundTripFour | js/lifft.js:59-69 | with the stride-2 twiddle -i and norm^2 4 = 1, the source's norm = 1/sqrt(4), the inverse transform of the forward transform of four samples is the input |
| Fourier.RoundTripTwoBack | js/lifft.js:59-69 | the other half of the two-sample round trip: with norm^2 2 = 1 the forward transform of the inverse transform is the input |
| Fourier.RoundTripFourBack | js/lifft.js:59-69 | the other half of the four-sample round trip: with the stride-2 twiddle -i and norm^2 4 = 1 the forward transform of the inverse transform is the input |

## Left out

- `lifft_cispi` (js/lifft.js:40) and `lifft_cabs` (js/lifft.js:39) are trigonometric and floating point. The twiddle factor `wm` of each stride is a parameter `tw(stride)`. "wm has magnitude 1" is the assumption `UnitTwiddles(tw)`. It is taken only by the energy lemmas.
- The `Math.sqrt` normalisation and the `Math.log2` call (js/lifft.js:27) are not computed. `norm` is a parameter. Parseval assumes `norm * norm * n == 1`. `bits` is `Log2Floor(n)`, and `Powers.Log2OfPow2` states that it equals b for n = 2^b.
- The Float32/Float64 precision and IEEE rounding are not modelled. Samples are exact reals. The element type is kept only as a tag, together with its byte size for the layout.
- The backing `ArrayBuffer` is not modelled as shared memory. The two buffers are separate sequences, and their byte layout is stated separately by `Container.LayoutOf`.
- Power-of-two lengths are not validated. The source does not check that n is a power of two. The setup and the pass require it, and lengths that are not powers of two are not modelled.
- SetupStage.Setup: requires log2(n) <= 24. This matches the 24-bit range stated at js/lifft.js:14. For larger n the source's `24 - bits` shift count would be negative, and JavaScript's masking of shift counts is not modelled.
- The `_LIFFT_REV6` and `i_rev` implicit globals (js/lifft.js:7, 29) are modelled as a constant table and a local variable.
- The bitwise operators of `_lifft_rev_bits24` are modelled as integer arithmetic. `<<= 6` is multiplication by 64, `>>=` is division by a power of two (the operands are non-negative), and `|=` is addition, because the shift leaves the low six bits zero.
- In-place mutation is not modelled. Every routine returns new buffers, so the input container is never changed.
- Transform.Forward: that it computes the DFT is proved for two and four samples only (`Fourier.ForwardIsDftTwo`, `Fourier.ForwardIsDftFour`). From eight samples on, the twiddles are irrational (cispi(-1/4) = (1 - i)/sqrt(2)), so the model keeps them as the parameter `tw`. The general statement for every n = 2^b would need the Cooley–Tukey induction over strides, with the law tw(2s)^2 = tw(s) and tw(s)^s = -1 assumed of `tw`. That induction is not part of this model.
- Transform.Inverse: that it and the forward transform undo each other, in both orders, is proved for two and four samples only (`Fourier.RoundTripTwo`, `Fourier.RoundTripFour`, `Fourier.RoundTripTwoBack`, `Fourier.RoundTripFourBack`), for the same reason.
- Butterfly.Process: the sequence of strides is not returned. `Butterfly.StrideSchedule` and `Butterfly.NextStage` state which strides the outer loop takes.
- The files under js/lighting-2d are WebGL rendering code (shaders, buffers, render loops) and are not part of this model.
