/** Complex numbers as pairs of reals: the values `double complex` stands for when
    rounding is set aside. The ring laws are proved here once; the other modules hide
    the definitions of the operations and use the laws. */
module ComplexNumbers {

  datatype Complex = Complex(re: real, im: real)

  const ZERO := Complex(0.0, 0.0)
  const ONE := Complex(1.0, 0.0)
  const MINUS_ONE := Complex(-1.0, 0.0)

  function FromReal(r: real): Complex { Complex(r, 0.0) }

  function Add(a: Complex, b: Complex): Complex { Complex(a.re + b.re, a.im + b.im) }

  function Sub(a: Complex, b: Complex): Complex { Complex(a.re - b.re, a.im - b.im) }

  function Mul(a: Complex, b: Complex): Complex
  {
    Complex(a.re * b.re - a.im * b.im, a.re * b.im + a.im * b.re)
  }

  function Scale(r: real, a: Complex): Complex { Complex(r * a.re, r * a.im) }

  function Conj(a: Complex): Complex { Complex(a.re, -a.im) }

  /** The squared magnitude: comparing `cabs` values is comparing these. */
  function NormSq(a: Complex): real { Square(a.re) + Square(a.im) }

  function Square(r: real): real { Product(r, r) }

  function Product(a: real, b: real): real { a * b }

  function Pow(z: Complex, n: nat): Complex
  {
    if n == 0 then ONE else Mul(z, Pow(z, n - 1))
  }

  // ----- ring laws -----

  lemma MulCommutes(a: Complex, b: Complex)
    ensures Mul(a, b) == Mul(b, a)
  {}

  lemma MulAssociates(a: Complex, b: Complex, c: Complex)
    ensures Mul(a, Mul(b, c)) == Mul(Mul(a, b), c)
  {}

  lemma MulDistributes(a: Complex, b: Complex, c: Complex)
    ensures Mul(a, Add(b, c)) == Add(Mul(a, b), Mul(a, c))
  {}

  lemma MulUnits(a: Complex)
    ensures Mul(ONE, a) == a == Mul(a, ONE)
    ensures Mul(ZERO, a) == ZERO == Mul(a, ZERO)
    ensures Add(ZERO, a) == a == Add(a, ZERO)
    ensures Mul(MINUS_ONE, MINUS_ONE) == ONE
  {}

  lemma MulInterchange(a: Complex, b: Complex, c: Complex, d: Complex)
    ensures Mul(Mul(a, b), Mul(c, d)) == Mul(Mul(a, c), Mul(b, d))
  {
    hide Mul;
    MulAssociates(Mul(a, b), c, d);
    MulAssociates(a, b, c);
    MulCommutes(b, c);
    MulAssociates(a, c, b);
    MulAssociates(Mul(a, c), b, d);
  }

  lemma ConjLaws(a: Complex, b: Complex)
    ensures Conj(Mul(a, b)) == Mul(Conj(a), Conj(b))
    ensures Conj(Add(a, b)) == Add(Conj(a), Conj(b))
    ensures Conj(Conj(a)) == a
    ensures Mul(a, Conj(a)) == FromReal(NormSq(a))
  {}

  lemma NormSqConj(a: Complex)
    ensures NormSq(Conj(a)) == NormSq(a)
  {}

  lemma NormSqMul(a: Complex, b: Complex)
    ensures NormSq(Mul(a, b)) == NormSq(a) * NormSq(b)
  {}

  lemma NormSqScale(r: real, a: Complex)
    ensures NormSq(Scale(r, a)) == r * r * NormSq(a)
  {}

  lemma NormSqZero(a: Complex)
    ensures NormSq(ZERO) == 0.0
    ensures a != ZERO ==> NormSq(a) > 0.0
  {
    hide Square, NormSq;
    NormSqParts(a);
    NormSqParts(ZERO);
    SquareSign(a.re);
    SquareSign(a.im);
    SquareSign(0.0);
  }

  lemma NormSqParts(a: Complex)
    ensures NormSq(a) == Square(a.re) + Square(a.im)
  {}

  lemma SquareSign(r: real)
    ensures r != 0.0 ==> Square(r) > 0.0
    ensures r == 0.0 ==> Square(r) == 0.0
  {
    if r > 0.0 {
      ProductPositive(r, r);
    } else if r < 0.0 {
      ProductPositive(-r, -r);
      assert Product(-r, -r) == Product(r, r);
    }
  }

  lemma ProductPositive(a: real, b: real)
    requires a > 0.0 && b > 0.0
    ensures Product(a, b) > 0.0
  {}

  /** The parallelogram law, the step behind Parseval's identity. */
  lemma Parallelogram(a: Complex, b: Complex)
    ensures NormSq(Add(a, b)) + NormSq(Sub(a, b)) == 2.0 * NormSq(a) + 2.0 * NormSq(b)
  {}

  // ----- powers -----

  lemma {:induction false} PowAdd(z: Complex, a: nat, b: nat)
    ensures Pow(z, a + b) == Mul(Pow(z, a), Pow(z, b))
  {
    hide Mul;
    if a == 0 {
      MulUnits(Pow(z, b));
    } else {
      PowAdd(z, a - 1, b);
      MulAssociates(z, Pow(z, a - 1), Pow(z, b));
    }
  }

  lemma {:induction false} PowOfProduct(a: Complex, b: Complex, n: nat)
    ensures Pow(Mul(a, b), n) == Mul(Pow(a, n), Pow(b, n))
  {
    if n == 0 {
      MulUnits(ONE);
    } else {
      hide Mul;
      PowOfProduct(a, b, n - 1);
      MulInterchange(a, b, Pow(a, n - 1), Pow(b, n - 1));
    }
  }

  lemma {:induction false} PowOfPow(z: Complex, a: nat, b: nat)
    ensures Pow(Pow(z, a), b) == Pow(z, a * b)
  {
    hide Mul;
    if b == 0 {
    } else {
      PowOfPow(z, a, b - 1);
      PowAdd(z, a, a * (b - 1));
      assert a + a * (b - 1) == a * b;
    }
  }

  lemma {:induction false} PowOfOne(n: nat)
    ensures Pow(ONE, n) == ONE
  {
    hide Mul;
    MulUnits(ONE);
    if n == 0 {
    } else {
      PowOfOne(n - 1);
    }
  }

  lemma PowSmall(z: Complex)
    ensures Pow(z, 1) == z
    ensures Pow(z, 2) == Mul(z, z)
  {
    hide Mul;
    MulUnits(z);
    assert Pow(z, 1) == Mul(z, Pow(z, 0));
  }

  lemma {:induction false} ConjPow(z: Complex, n: nat)
    ensures Conj(Pow(z, n)) == Pow(Conj(z), n)
  {
    hide Mul;
    if n == 0 {
    } else {
      ConjPow(z, n - 1);
      ConjLaws(z, Pow(z, n - 1));
    }
  }

  /** A number of which some positive power has magnitude 1 lies on the unit circle. */
  lemma UnitFromPower(z: Complex, n: nat)
    requires n > 0 && NormSq(Pow(z, n)) == 1.0
    ensures NormSq(z) == 1.0
  {
    hide NormSq;
    if NormSq(z) < 1.0 { PowShrinks(z, n); }
    if NormSq(z) > 1.0 { PowGrows(z, n); }
  }

  lemma {:induction false} PowShrinks(z: Complex, n: nat)
    requires n > 0 && NormSq(z) < 1.0
    ensures NormSq(Pow(z, n)) < 1.0
  {
    hide Mul, NormSq;
    PowSmall(z);
    if n == 1 {
    } else {
      PowShrinks(z, n - 1);
      NormSqMul(z, Pow(z, n - 1));
      NormSqZero(z);
      NormSqZero(Pow(z, n - 1));
      ProductBelowOne(NormSq(z), NormSq(Pow(z, n - 1)));
    }
  }

  lemma ProductBelowOne(a: real, b: real)
    requires 0.0 <= a < 1.0 && 0.0 <= b < 1.0
    ensures a * b < 1.0
  {
    assert a * b <= a * 1.0;
  }

  lemma {:induction false} PowGrows(z: Complex, n: nat)
    requires n > 0 && NormSq(z) > 1.0
    ensures NormSq(Pow(z, n)) > 1.0
  {
    hide Mul, NormSq;
    PowSmall(z);
    if n == 1 {
    } else {
      PowGrows(z, n - 1);
      NormSqMul(z, Pow(z, n - 1));
      ProductAboveOne(NormSq(z), NormSq(Pow(z, n - 1)));
    }
  }

  lemma ProductAboveOne(a: real, b: real)
    requires a > 1.0 && b > 1.0
    ensures a * b > 1.0
  {
    assert a * b >= a * 1.0;
  }

  lemma {:induction false} PowOnUnitCircle(z: Complex, n: nat)
    requires NormSq(z) == 1.0
    ensures NormSq(Pow(z, n)) == 1.0
  {
    if n == 0 {
    } else {
      PowOnUnitCircle(z, n - 1);
      hide Mul, NormSq;
      NormSqMul(z, Pow(z, n - 1));
    }
  }
}
