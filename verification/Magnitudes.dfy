/** Bounds on magnitudes without square roots: the triangle inequality and what follows from
    it, for complex numbers whose squared magnitude is at most the square of a bound. */
module Magnitudes {
  import opened ComplexNumbers

  /** The magnitude of z is at most r. */
  predicate Within(z: Complex, r: real)
  {
    r >= 0.0 && NormSq(z) <= Square(r)
  }

  /** The magnitude of z is greater than r. */
  predicate Exceeds(z: Complex, r: real)
  {
    r >= 0.0 && NormSq(z) > Square(r)
  }

  function Abs(r: real): real { if r < 0.0 then -r else r }

  // ----- squares -----

  lemma ProductOrder(a: real, b: real, c: real, d: real)
    requires 0.0 <= a <= b && 0.0 <= c <= d
    ensures 0.0 <= Product(a, c) <= Product(b, d)
  {
    assert 0.0 <= a * c <= b * c <= b * d;
  }

  lemma ProductStrict(a: real, b: real)
    requires 0.0 <= a < b
    ensures Product(a, a) < Product(b, b)
  {
    hide Product;
    ProductOrder(a, b, a, a);
    ProductGrows(b, a, b);
  }

  lemma ProductGrows(c: real, a: real, b: real)
    requires c > 0.0 && a < b
    ensures Product(c, a) < Product(c, b) && Product(a, c) < Product(b, c)
  {}

  lemma SquareOrder(a: real, b: real)
    requires 0.0 <= a <= b
    ensures Square(a) <= Square(b)
  {
    hide Product;
    ProductOrder(a, b, a, b);
  }

  lemma SquareOfNegated(a: real)
    ensures Square(-a) == Square(a)
  {}

  /** Squares order what they are squares of. */
  lemma SquareBounds(a: real, b: real)
    requires b >= 0.0 && Square(a) <= Square(b)
    ensures -b <= a <= b
  {
    hide Product;
    if a > b { ProductStrict(b, a); }
    if -a > b {
      ProductStrict(b, -a);
      SquareOfNegated(a);
    }
  }

  lemma SquareOfProduct(a: real, b: real)
    ensures Square(Product(a, b)) == Product(Square(a), Square(b))
  {}

  lemma SquareOfSum(a: real, b: real)
    ensures Square(a + b) == Square(a) + Square(b) + 2.0 * Product(a, b)
  {}

  // ----- the triangle inequality -----

  function Dot(a: Complex, b: Complex): real
  {
    a.re * b.re + a.im * b.im
  }

  lemma NormSqOfSum(a: Complex, b: Complex)
    ensures NormSq(Add(a, b)) == NormSq(a) + NormSq(b) + 2.0 * Dot(a, b)
  {}

  lemma Lagrange(a: Complex, b: Complex)
    ensures Product(NormSq(a), NormSq(b)) == Square(Dot(a, b)) + Square(a.re * b.im - a.im * b.re)
  {}

  lemma CauchySchwarz(a: Complex, b: Complex, r: real, s: real)
    requires Within(a, r) && Within(b, s)
    ensures Dot(a, b) <= Product(r, s)
  {
    hide Square, Product, NormSq, Dot;
    Lagrange(a, b);
    NormSqNonNegative(a);
    NormSqNonNegative(b);
    SquareSign(a.re * b.im - a.im * b.re);
    ProductOrder(NormSq(a), Square(r), NormSq(b), Square(s));
    SquareOfProduct(r, s);
    ProductOrder(0.0, r, 0.0, s);
    SquareBounds(Dot(a, b), Product(r, s));
  }

  lemma ProductMeans(a: real, b: real)
    ensures Product(a, b) == a * b
  {}

  lemma NormSqNonNegative(a: Complex)
    ensures NormSq(a) >= 0.0
  {
    hide NormSq;
    NormSqZero(a);
  }

  lemma Triangle(a: Complex, b: Complex, r: real, s: real)
    requires Within(a, r) && Within(b, s)
    ensures Within(Add(a, b), r + s)
  {
    hide Square, Product, NormSq, Dot;
    CauchySchwarz(a, b, r, s);
    NormSqOfSum(a, b);
    SquareOfSum(r, s);
  }

  /** What exceeds a sum of bounds still exceeds one after losing the other. */
  lemma ReverseTriangle(a: Complex, b: Complex, r: real, s: real)
    requires r >= 0.0 && Exceeds(Add(a, b), r + s) && Within(b, s)
    ensures Exceeds(a, r)
  {
    hide NormSq, Square;
    if NormSq(a) <= Square(r) { Triangle(a, b, r, s); }
  }

  // ----- what keeps a bound -----

  lemma WithinNegated(a: Complex, b: Complex, r: real)
    requires Within(Sub(a, b), r)
    ensures Within(Sub(b, a), r)
  {
    SquareOfNegated(a.re - b.re);
    SquareOfNegated(a.im - b.im);
    assert Sub(b, a) == Complex(-(a.re - b.re), -(a.im - b.im));
    hide Square;
  }

  lemma WithinWider(z: Complex, r: real, s: real)
    requires Within(z, r) && r <= s
    ensures Within(z, s)
  {
    hide NormSq, Square;
    SquareOrder(r, s);
  }

  lemma WithinScaled(z: Complex, r: real, c: real)
    requires Within(z, r) && c >= 0.0
    ensures Within(Scale(c, z), Product(c, r))
  {
    hide NormSq, Square, Scale, Product;
    NormSqScale(c, z);
    SquareOfProduct(c, r);
    NormSqNonNegative(z);
    ProductOrder(0.0, c, 0.0, c);
    SquareIsProduct(c);
    ProductOrder(Square(c), Square(c), NormSq(z), Square(r));
    ProductMeans(c, c);
    ProductMeans(Square(c), NormSq(z));
    ProductOrder(0.0, c, 0.0, r);
  }

  lemma SquareIsProduct(c: real)
    ensures Square(c) == Product(c, c)
  {}

  lemma WithinProduct(a: Complex, b: Complex, r: real, s: real)
    requires Within(a, r) && Within(b, s)
    ensures Within(Mul(a, b), Product(r, s))
  {
    hide NormSq, Square, Mul, Product;
    NormSqMul(a, b);
    NormSqNonNegative(a);
    NormSqNonNegative(b);
    ProductOrder(NormSq(a), Square(r), NormSq(b), Square(s));
    ProductMeans(NormSq(a), NormSq(b));
    SquareOfProduct(r, s);
    ProductOrder(0.0, r, 0.0, s);
  }

  lemma WithinParts(z: Complex, r: real)
    requires Within(z, r)
    ensures -r <= z.re <= r && -r <= z.im <= r
  {
    hide Square;
    SquareSign(z.re);
    SquareSign(z.im);
    SquareBounds(z.re, r);
    SquareBounds(z.im, r);
  }

  lemma WithinOfReal(a: real)
    ensures Within(FromReal(a), Abs(a))
  {
    hide Square;
    SquareSign(0.0);
    SquareOfNegated(a);
  }

  lemma ExceedsScaled(z: Complex, r: real, c: real)
    requires Exceeds(z, r) && c > 0.0
    ensures Exceeds(Scale(c, z), Product(c, r))
  {
    hide NormSq, Square, Scale, Product;
    NormSqScale(c, z);
    SquareOfProduct(c, r);
    SquareIsProduct(c);
    ProductMeans(c, c);
    ProductPositive(c, c);
    ProductMeans(Square(c), Square(r));
    ProductGrows(Square(c), Square(r), NormSq(z));
    ProductMeans(Square(c), NormSq(z));
    ProductOrder(0.0, c, 0.0, r);
  }
}
