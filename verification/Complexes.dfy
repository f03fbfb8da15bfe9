// Complex numbers over exact reals.
module Complexes {

  datatype Complex = Complex(re: real, im: real)

  const ZERO := Complex(0.0, 0.0)
  const ONE := Complex(1.0, 0.0)
  const I := Complex(0.0, 1.0)

  function Add(x: Complex, y: Complex): Complex { Complex(x.re + y.re, x.im + y.im) }

  function Mul(x: Complex, y: Complex): Complex { Complex(x.re * y.re - x.im * y.im, x.re * y.im + x.im * y.re) }

  function Conj(x: Complex): Complex { Complex(x.re, -x.im) }

  // They are the complex numbers: i squares to -1, every number is re + im * i, and the
  // product is bilinear and commutes.
  lemma ComplexLaws(x: Complex, y: Complex, z: Complex)
    ensures Add(Mul(I, I), ONE) == ZERO && Mul(ONE, x) == x == Add(x, ZERO)
    ensures x == Add(Complex(x.re, 0.0), Mul(Complex(x.im, 0.0), I))
    ensures Mul(x, Add(y, z)) == Add(Mul(x, y), Mul(x, z)) && Mul(x, y) == Mul(y, x)
  {
  }

  // Conjugation keeps real numbers, negates i, and is a homomorphism.
  lemma ConjugateLaws(x: Complex, y: Complex, r: real)
    ensures Conj(Complex(r, 0.0)) == Complex(r, 0.0) && Add(Conj(I), I) == ZERO
    ensures Conj(Mul(x, y)) == Mul(Conj(x), Conj(y)) && Conj(Add(x, y)) == Add(Conj(x), Conj(y))
  {
  }
}
