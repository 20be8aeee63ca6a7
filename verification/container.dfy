/** The complex array container: a real buffer and an imaginary buffer of n
    elements each, views onto one zero-filled backing buffer of the chosen
    element type. */
module Container {
  import opened ComplexArith
  import opened Signals

  /** The typed-array constructor selecting the storage precision
      (single-width is the default). Values are modelled as exact reals
      whatever the precision. */
  datatype ElementType = Float32 | Float64 {
    function BytesPerElement(): nat {
      match this
      case Float32 => 4
      case Float64 => 8
    }
  }

  /** A contiguous byte range [start, start + size) of the backing buffer. */
  datatype Region = Region(start: nat, size: nat) {
    function End(): nat {
      start + size
    }

    predicate Contains(b: int) {
      start <= b < End()
    }
  }

  /** Where the two views of an n-sample container sit in its backing buffer. */
  datatype Layout = Layout(bufferSize: nat, re: Region, im: Region)

  /** The byte layout chosen by the container constructor: one buffer of
      2 * size * n bytes, the real view at offset 0 and the imaginary view at
      offset size * n, each n elements long. */
  function LayoutOf(n: nat, t: ElementType): (l: Layout)
    ensures l.re.size == l.im.size == t.BytesPerElement() * n
    ensures l.re.start == 0 && l.re.End() == l.im.start && l.im.End() == l.bufferSize
  {
    var size := t.BytesPerElement();
    Layout(2 * size * n, Region(0 * n, size * n), Region(size * n, size * n))
  }

  /** The two views never share a byte and both lie inside the backing buffer. */
  lemma LayoutDisjoint(n: nat, t: ElementType)
    ensures forall b :: LayoutOf(n, t).re.Contains(b) ==> !LayoutOf(n, t).im.Contains(b)
    ensures forall b :: LayoutOf(n, t).re.Contains(b) || LayoutOf(n, t).im.Contains(b) ==>
              0 <= b < LayoutOf(n, t).bufferSize
  {
  }

  /** A container: the real and imaginary buffers, the sample count and the
      element type they were allocated with. */
  datatype ComplexArr = ComplexArr(re: seq<real>, im: seq<real>, n: nat, elementType: ElementType) {
    predicate Valid() {
      |re| == n && |im| == n
    }

    /** The samples the two buffers hold. */
    function Samples(): (xs: seq<Complex>)
      requires Valid()
      ensures |xs| == n
    {
      Zip(re, im)
    }
  }

  /** lifft_complex_arr(n, type): a fresh, zero-filled container; the
      element type defaults to single width, as in the source. */
  function NewComplexArr(n: nat, t: ElementType := Float32): (c: ComplexArr)
    ensures c.Valid() && c.n == n && c.elementType == t
    ensures forall k :: 0 <= k < n ==> c.re[k] == 0.0 && c.im[k] == 0.0
    ensures Energy(c.Samples()) == 0.0
  {
    var c := ComplexArr(seq(n, _ => 0.0), seq(n, _ => 0.0), n, t);
    EnergyOfSilence(c.Samples());
    c
  }
}
