/** Complex baseband samples as pairs of reals: the numpy `complex` values
    that the receiver manipulates, with the few operations it uses. */
module ComplexNumbers {

  datatype Complex = Complex(re: real, im: real)

  const Zero := Complex(0.0, 0.0)
  const One := Complex(1.0, 0.0)

  function Add(a: Complex, b: Complex): (s: Complex)
  {
    Complex(a.re + b.re, a.im + b.im)
  }

  /** Complex product (a.re + j a.im)(b.re + j b.im). */
  function Mul(a: Complex, b: Complex): (p: Complex)
  {
    Complex(a.re * b.re - a.im * b.im, a.re * b.im + a.im * b.re)
  }

  function Conj(a: Complex): (z: Complex)
  {
    Complex(a.re, -a.im)
  }

  /** A real gain applied to a complex sample, as in `data[k]*triangle(...)`. */
  function Scale(g: real, a: Complex): (s: Complex)
  {
    Complex(g * a.re, g * a.im)
  }

  /** Squared Euclidean distance between two points of the complex plane. */
  function DistSq(a: Complex, b: Complex): (d: real)
    ensures d >= 0.0
  {
    (a.re - b.re) * (a.re - b.re) + (a.im - b.im) * (a.im - b.im)
  }

  lemma MulOne(a: Complex)
    ensures Mul(a, One) == a && Mul(One, a) == a
  {
  }

  /** The product is associative; the de-rotation of a rotated sample relies on it. */
  lemma MulAssoc(a: Complex, b: Complex, c: Complex)
    ensures Mul(Mul(a, b), c) == Mul(a, Mul(b, c))
  {
  }

  /** conj(z)*z is real: its imaginary part vanishes. */
  lemma ConjMulSelfReal(z: Complex)
    ensures Mul(Conj(z), z).im == 0.0
  {
  }
}
