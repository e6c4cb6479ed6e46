/** The complex numbers the program computes with, exactly: an instance of the ring. */
module ComplexNumbers {
  import opened BitReversal
  import opened Rings
  import opened Transform
  import opened Fft

  datatype Complex = Complex(re: real, im: real)

  const COMPLEX := Ring(
    Complex(0.0, 0.0), Complex(1.0, 0.0),
    (x: Complex, y: Complex) => Complex(x.re + y.re, x.im + y.im),
    (x: Complex) => Complex(-x.re, -x.im),
    (x: Complex, y: Complex) => Complex(x.re * y.re - x.im * y.im, x.re * y.im + x.im * y.re))

  lemma ComplexIsRing()
    ensures IsRing(COMPLEX)
  {
    forall x: Complex, y: Complex, z: Complex
      ensures COMPLEX.Laws(x, y, z)
    {
      ComplexLaws(x, y, z);
    }
  }

  lemma ComplexLaws(x: Complex, y: Complex, z: Complex)
    ensures COMPLEX.Laws(x, y, z)
  {
    MulAssociative(x, y, z);
    MulDistributes(x, y, z);
    assert COMPLEX.mul(x, y) == COMPLEX.mul(y, x);
    assert COMPLEX.mul(x, COMPLEX.one) == x;
    assert COMPLEX.add(COMPLEX.add(x, y), z) == COMPLEX.add(x, COMPLEX.add(y, z));
  }

  lemma MulAssociative(x: Complex, y: Complex, z: Complex)
    ensures COMPLEX.mul(COMPLEX.mul(x, y), z) == COMPLEX.mul(x, COMPLEX.mul(y, z))
  {
    var a, b, c, d, e, f := x.re, x.im, y.re, y.im, z.re, z.im;
    calc {
      (a * c - b * d) * e - (a * d + b * c) * f;
      a * c * e - b * d * e - a * d * f - b * c * f;
      a * (c * e - d * f) - b * (c * f + d * e);
    }
    calc {
      (a * c - b * d) * f + (a * d + b * c) * e;
      a * c * f - b * d * f + a * d * e + b * c * e;
      a * (c * f + d * e) + b * (c * e - d * f);
    }
  }

  lemma MulDistributes(x: Complex, y: Complex, z: Complex)
    ensures COMPLEX.mul(x, COMPLEX.add(y, z)) == COMPLEX.add(COMPLEX.mul(x, y), COMPLEX.mul(x, z))
  {
    assert x.re * (y.re + z.re) == x.re * y.re + x.re * z.re && x.im * (y.im + z.im) == x.im * y.im + x.im * z.im;
    assert x.re * (y.im + z.im) == x.re * y.im + x.re * z.im && x.im * (y.re + z.re) == x.im * y.re + x.im * z.re;
  }

  /** exp(-2*pi*i/len) for the sizes where it is rational; the larger roots are a parameter of FftInplace. */
  function SmallRoot(len: nat): Complex {
    if len == 4 then Complex(0.0, -1.0) else if len == 2 then Complex(-1.0, 0.0) else Complex(1.0, 0.0)
  }

  lemma SmallRootsAreRoots()
    ensures RootsOfUnity(COMPLEX, SmallRoot, 2)
  {
    assert Pow2(1) == 2 * Pow2(0) == 2;
  }
}
