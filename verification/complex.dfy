/** Complex numbers over exact reals and the three arithmetic primitives of
    the transform (add, subtract, multiply), with the algebraic facts the
    butterfly relies on. */
module ComplexArith {

  /** A sample: real and imaginary coordinates, compared by value. */
  datatype Complex = Complex(re: real, im: real)

  /** The multiplicative unit 1 + 0i, the starting running twiddle. */
  const One: Complex := Complex(1.0, 0.0)

  /** The additive unit 0 + 0i, the value of a slot not yet written. */
  const Zero: Complex := Complex(0.0, 0.0)

  function Add(x: Complex, y: Complex): Complex {
    Complex(x.re + y.re, x.im + y.im)
  }

  function Sub(x: Complex, y: Complex): Complex {
    Complex(x.re - y.re, x.im - y.im)
  }

  /** The cross-term product (a + bi)(c + di) = (ac - bd) + (ad + bc)i. */
  function Mul(x: Complex, y: Complex): Complex {
    Complex(x.re * y.re - x.im * y.im, x.re * y.im + x.im * y.re)
  }

  /** Both coordinates multiplied by the real factor s. */
  function Scale(x: Complex, s: real): Complex {
    Complex(x.re * s, x.im * s)
  }

  function Conj(x: Complex): Complex {
    Complex(x.re, -x.im)
  }

  /** The sample with its coordinates exchanged: what a routine sees when it
      is handed the imaginary buffer in the real buffer's place. */
  function Swap(x: Complex): Complex {
    Complex(x.im, x.re)
  }

  /** Squared magnitude |x|^2. */
  function Norm2(x: Complex): real {
    x.re * x.re + x.im * x.im
  }

  /** z^j computed as the running product 1 * z * z * ... (j factors),
      in the order the butterfly advances its twiddle. */
  function Pow(z: Complex, j: nat): Complex {
    if j == 0 then One else Mul(Pow(z, j - 1), z)
  }

  lemma MulCommutative(x: Complex, y: Complex)
    ensures Mul(x, y) == Mul(y, x)
  {
  }

  lemma MulAssociative(x: Complex, y: Complex, z: Complex)
    ensures Mul(Mul(x, y), z) == Mul(x, Mul(y, z))
  {
  }

  lemma MulOne(x: Complex)
    ensures Mul(One, x) == x && Mul(x, One) == x
  {
  }

  /** Multiplication distributes over addition and subtraction. */
  lemma MulDistributes(w: Complex, x: Complex, y: Complex)
    ensures Mul(w, Add(x, y)) == Add(Mul(w, x), Mul(w, y))
    ensures Mul(w, Sub(x, y)) == Sub(Mul(w, x), Mul(w, y))
  {
    assert w.re * (x.re + y.re) == w.re * x.re + w.re * y.re;
    assert w.im * (x.im + y.im) == w.im * x.im + w.im * y.im;
    assert w.re * (x.im + y.im) == w.re * x.im + w.re * y.im;
    assert w.im * (x.re + y.re) == w.im * x.re + w.im * y.re;
    assert w.re * (x.re - y.re) == w.re * x.re - w.re * y.re;
    assert w.im * (x.im - y.im) == w.im * x.im - w.im * y.im;
    assert w.re * (x.im - y.im) == w.re * x.im - w.re * y.im;
    assert w.im * (x.re - y.re) == w.im * x.re - w.im * y.re;
  }

  /** |xy|^2 = |x|^2 |y|^2: a unit factor preserves magnitude. */
  lemma Norm2Mul(x: Complex, y: Complex)
    ensures Norm2(Mul(x, y)) == Norm2(x) * Norm2(y)
  {
    var a, b, c, d := x.re, x.im, y.re, y.im;
    calc {
      Norm2(Mul(x, y));
      (a * c - b * d) * (a * c - b * d) + (a * d + b * c) * (a * d + b * c);
      a * a * c * c + b * b * d * d + a * a * d * d + b * b * c * c;
      (a * a + b * b) * (c * c + d * d);
    }
  }

  /** Parallelogram law: |p + q|^2 + |p - q|^2 = 2(|p|^2 + |q|^2). */
  lemma Parallelogram(p: Complex, q: Complex)
    ensures Norm2(Add(p, q)) + Norm2(Sub(p, q)) == 2.0 * (Norm2(p) + Norm2(q))
  {
  }

  /** One butterfly with a unit twiddle doubles the energy of the pair it combines. */
  lemma ButterflyEnergy(p: Complex, x1: Complex, w: Complex)
    requires Norm2(w) == 1.0
    ensures Norm2(Add(p, Mul(w, x1))) + Norm2(Sub(p, Mul(w, x1))) == 2.0 * (Norm2(p) + Norm2(x1))
  {
    Parallelogram(p, Mul(w, x1));
    Norm2Mul(w, x1);
  }

  lemma {:induction false} PowUnit(z: Complex, j: nat)
    requires Norm2(z) == 1.0
    ensures Norm2(Pow(z, j)) == 1.0
  {
    if j > 0 {
      PowUnit(z, j - 1);
      Norm2Mul(Pow(z, j - 1), z);
    }
  }

  lemma ConjMul(x: Complex, y: Complex)
    ensures Conj(Mul(x, y)) == Mul(Conj(x), Conj(y))
  {
  }

  lemma {:induction false} PowConj(z: Complex, j: nat)
    ensures Pow(Conj(z), j) == Conj(Pow(z, j))
  {
    if j > 0 {
      PowConj(z, j - 1);
      ConjMul(Pow(z, j - 1), z);
    }
  }

  /** Exchanging coordinates turns multiplication by w into multiplication by conj(w). */
  lemma SwapMul(w: Complex, x: Complex)
    ensures Mul(w, Swap(x)) == Swap(Mul(Conj(w), x))
  {
  }

  /** The butterfly's p +/- w*q on coordinate-exchanged inputs is the
      coordinate exchange of the butterfly with the conjugate twiddle. */
  lemma SwapButterfly(p: Complex, x1: Complex, w: Complex)
    ensures Add(Swap(p), Mul(w, Swap(x1))) == Swap(Add(p, Mul(Conj(w), x1)))
    ensures Sub(Swap(p), Mul(w, Swap(x1))) == Swap(Sub(p, Mul(Conj(w), x1)))
  {
    SwapMul(w, x1);
  }

  /** The butterfly's p +/- w*q is complex-linear in the pair (p, q). */
  lemma LinearButterfly(a: Complex, b: Complex, x0: Complex, x1: Complex,
                        y0: Complex, y1: Complex, w: Complex)
    ensures Add(Add(Mul(a, x0), Mul(b, y0)), Mul(w, Add(Mul(a, x1), Mul(b, y1))))
         == Add(Mul(a, Add(x0, Mul(w, x1))), Mul(b, Add(y0, Mul(w, y1))))
    ensures Sub(Add(Mul(a, x0), Mul(b, y0)), Mul(w, Add(Mul(a, x1), Mul(b, y1))))
         == Add(Mul(a, Sub(x0, Mul(w, x1))), Mul(b, Sub(y0, Mul(w, y1))))
  {
    MulDistributes(w, Mul(a, x1), Mul(b, y1));
    MulAssociative(w, a, x1);
    MulAssociative(a, w, x1);
    MulCommutative(w, a);
    MulAssociative(w, b, y1);
    MulAssociative(b, w, y1);
    MulCommutative(w, b);
    MulDistributes(a, x0, Mul(w, x1));
    MulDistributes(b, y0, Mul(w, y1));
  }

  lemma Norm2Scale(x: Complex, s: real)
    ensures Norm2(Scale(x, s)) == s * s * Norm2(x)
  {
  }

  /** Scaling by a real commutes with complex-linear combinations. */
  lemma ScaleLinear(a: Complex, b: Complex, x: Complex, y: Complex, s: real)
    ensures Scale(Add(Mul(a, x), Mul(b, y)), s) == Add(Mul(a, Scale(x, s)), Mul(b, Scale(y, s)))
  {
    MulScale(a, x, s);
    MulScale(b, y, s);
  }

  /** A real factor comes out of either argument of a product. */
  lemma MulScale(a: Complex, x: Complex, s: real)
    ensures Mul(a, Scale(x, s)) == Scale(Mul(a, x), s)
    ensures Mul(Scale(x, s), a) == Scale(Mul(x, a), s)
  {
    assert a.re * (x.re * s) - a.im * (x.im * s) == (a.re * x.re - a.im * x.im) * s;
    assert a.re * (x.im * s) + a.im * (x.re * s) == (a.re * x.im + a.im * x.re) * s;
    assert (x.re * s) * a.re - (x.im * s) * a.im == (x.re * a.re - x.im * a.im) * s;
    assert (x.re * s) * a.im + (x.im * s) * a.re == (x.re * a.im + x.im * a.re) * s;
  }
}
