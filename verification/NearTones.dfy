/** The measurement of a window that is close to a tone but not one: what printing, parsing
    and scaling leave of it. No sample is off by more than eps. */
module NearTones {
  import opened ComplexNumbers
  import opened Magnitudes
  import opened FourierTransform
  import opened Spectrum
  import opened PhasorExtraction

  /** No sample of y is more than eps away from the sample of x. */
  predicate IsNear(x: seq<real>, y: seq<real>, eps: real)
  {
    && |x| == |y| && eps >= 0.0
    && forall i :: 0 <= i < |x| ==> -eps <= y[i] - x[i] <= eps
  }

  lemma UnitIsWithinOne(z: Complex)
    requires NormSq(z) == 1.0
    ensures Within(z, 1.0)
  {
    hide NormSq, Square;
    UnitSquares(1.0);
  }

  lemma {:induction false} SumMoves(x: seq<real>, y: seq<real>, w: Complex, eps: real, j: nat, n: nat)
    requires IsNear(x, y, eps) && NormSq(w) == 1.0 && n <= |x|
    ensures Within(Sub(DftSum(y, w, j, n), DftSum(x, w, j, n)), Product(n as real, eps))
  {
    hide Mul, NormSq, Square, Pow, Product, Within;
    if n == 0 {
      OneMore(n, eps);
      WithinOfZero(Sub(ZERO, ZERO), 0.0);
    } else {
      var e, p := y[n - 1] - x[n - 1], Pow(w, (n - 1) * j);
      SumMoves(x, y, w, eps, j, n - 1);
      WithinOfReal(e);
      WithinWider(FromReal(e), Abs(e), eps);
      PowOnUnitCircle(w, (n - 1) * j);
      UnitIsWithinOne(p);
      WithinProduct(FromReal(e), p, eps, 1.0);
      ProductMeans(eps, 1.0);
      Triangle(Sub(DftSum(y, w, j, n - 1), DftSum(x, w, j, n - 1)), Mul(FromReal(e), p),
               Product((n - 1) as real, eps), eps);
      DifferenceOfTerms(x[n - 1], y[n - 1], p);
      OneMore(n, eps);
    }
  }

  lemma DifferenceOfTerms(a: real, b: real, p: Complex)
    ensures Mul(FromReal(b - a), p) == Sub(Mul(FromReal(b), p), Mul(FromReal(a), p))
  {}

  lemma OneMore(n: nat, eps: real)
    ensures n == 0 ==> Product(n as real, eps) == 0.0
    ensures n > 0 ==> Product((n - 1) as real, eps) + eps == Product(n as real, eps)
  {}

  /** No bin moves by more than N times what the samples move by. */
  lemma BinMoves(x: seq<real>, y: seq<real>, w: Complex, eps: real, j: nat)
    requires IsPowerOfTwo(|x|) && RootOf(w, |x|) && IsNear(x, y, eps)
    ensures Within(Sub(Bin(y, w, j), Bin(x, w, j)), Product(|x| as real, eps))
  {
    hide NormSq, Square, Mul, Within, Product, DftSum, RootOf, IsPowerOfTwo;
    RootOnUnitCircle(w, |x|);
    SumMoves(x, y, w, eps, j, |x|);
  }

  // ----- the strongest bin -----

  /** Bin j of a window near a tone: near N times what the tone has there. */
  lemma NearBin(x: seq<real>, y: seq<real>, w: Complex, eps: real, k: nat, a: real, c: Complex, j: nat)
    requires IsPowerOfTwo(|x|) && RootOf(w, |x|) && IsTone(x, w, k, a, c) && IsNear(x, y, eps)
    requires 0 < k < |x| / 2 && j < |x| / 2
    ensures j == k ==> Within(Sub(Bin(y, w, j), Scale(|x| as real, c)), Product(|x| as real, eps))
    ensures j != k ==> Within(Bin(y, w, j), Product(|x| as real, Abs(a) + eps))
  {
    hide NormSq, Square, Bin, Scale, FromReal, IsTone, RootOf, IsPowerOfTwo, Within, Product;
    var n := |x| as real;
    BinMoves(x, y, w, eps, j);
    ToneSpectrum(x, w, k, a, c, j);
    if j != k {
      var t := if j == 0 then FromReal(a) else ZERO;
      WithinOfReal(a);
      WithinOfZero(ZERO, Abs(a));
      WithinScaled(t, Abs(a), n);
      Triangle(Scale(n, t), Sub(Bin(y, w, j), Scale(n, t)), Product(n, Abs(a)), Product(n, eps));
      AddBack(Bin(y, w, j), Scale(n, t));
      SumOfProducts(n, Abs(a), eps);
    }
  }

  lemma WithinOfZero(z: Complex, r: real)
    requires z == ZERO && r >= 0.0
    ensures Within(z, r)
  {
    hide NormSq, Square;
    NormSqZero(z);
    SquareSign(r);
  }

  lemma AddBack(a: Complex, b: Complex)
    ensures Add(b, Sub(a, b)) == a
    ensures Add(a, Sub(b, a)) == b
  {}

  lemma SumOfProducts(n: real, a: real, b: real)
    ensures Product(n, a) + Product(n, b) == Product(n, a + b)
  {}

  lemma NearPeakScaled(n: real, b: Complex, c: Complex, r: real)
    requires n > 0.0 && Within(Sub(b, Scale(n, c)), Product(n, r))
    ensures Within(Sub(Scale(2.0 / n, b), Scale(2.0, c)), 2.0 * r)
  {
    hide Within, Scale, Product;
    WithinScaled(Sub(b, Scale(n, c)), Product(n, r), 2.0 / n);
    RescaleTwice(n, c);
    ScaleOfDifference(2.0 / n, b, Scale(n, c));
    Undone(n, r);
  }

  lemma Undone(n: real, r: real)
    requires n > 0.0
    ensures Product(2.0 / n, Product(n, r)) == 2.0 * r
  {
    assert 2.0 / n * (n * r) == 2.0 * r;
  }

  lemma ScaleOfDifference(r: real, a: Complex, b: Complex)
    ensures Scale(r, Sub(a, b)) == Sub(Scale(r, a), Scale(r, b))
  {}

  /** A tone that exceeds its offset by more than twice the error keeps its bin. */
  lemma ToneKeepsBin(x: seq<real>, y: seq<real>, w: Complex, eps: real, k: nat, a: real, c: Complex)
    requires IsPowerOfTwo(|x|) && RootOf(w, |x|) && IsTone(x, w, k, a, c) && IsNear(x, y, eps)
    requires 0 < k < |x| / 2 && Exceeds(c, Abs(a) + 2.0 * eps)
    ensures PeakBin(y, w, |x| / 2) == k
  {
    hide NormSq, Square, Bin, Scale, IsTone, RootOf, IsPowerOfTwo, PeakBin, Product;
    var n, K, r := |x| as real, |x| / 2, Abs(a) + eps;
    ExceedsScaled(c, Abs(a) + 2.0 * eps, n);
    SumOfProducts(n, r, eps);
    NearBin(x, y, w, eps, k, a, c, k);
    WithinNegated(Bin(y, w, k), Scale(n, c), Product(n, eps));
    AddBack(Bin(y, w, k), Scale(n, c));
    ProductOrder(0.0, n, 0.0, r);
    ReverseTriangle(Bin(y, w, k), Sub(Scale(n, c), Bin(y, w, k)), Product(n, r), Product(n, eps));
    forall j | 0 <= j < K && j != k ensures NormSq(Bin(y, w, j)) < NormSq(Bin(y, w, k)) {
      NearBin(x, y, w, eps, k, a, c, j);
    }
    StrongestOfTwo(y, w, K, k, 0);
  }

  /** The bin of the tone, when selected, is off by at most 2*eps after scaling. */
  lemma NearSelected(x: seq<real>, y: seq<real>, w: Complex, eps: real, k: nat, a: real, c: Complex)
    requires IsPowerOfTwo(|x|) && RootOf(w, |x|) && IsTone(x, w, k, a, c) && IsNear(x, y, eps)
    requires 0 < k < |x| / 2 && PeakBin(y, w, |x| / 2) == k
    ensures Within(Sub(PhasorOf(y, w), Scale(2.0, c)), 2.0 * eps)
  {
    hide Within, Bin, Scale, IsTone, RootOf, IsPowerOfTwo, PeakBin, Product;
    NearBin(x, y, w, eps, k, a, c, k);
    NearPeakScaled(|x| as real, Bin(y, w, k), c, eps);
  }

  /** Another bin can win without offset only when there is next to nothing to measure. */
  lemma NearNothing(x: seq<real>, y: seq<real>, w: Complex, eps: real, k: nat, a: real, c: Complex)
    requires IsPowerOfTwo(|x|) && RootOf(w, |x|) && IsTone(x, w, k, a, c) && IsNear(x, y, eps)
    requires a == 0.0 && 0 < k < |x| / 2 && PeakBin(y, w, |x| / 2) != k && Within(c, 2.0 * eps)
    ensures Within(Sub(PhasorOf(y, w), Scale(2.0, c)), 6.0 * eps)
  {
    hide Within, Bin, Scale, IsTone, RootOf, IsPowerOfTwo, PeakBin, Product;
    var n, p := |x| as real, PeakBin(y, w, |x| / 2);
    PeakInRange(y, w, |x| / 2);
    NearBin(x, y, w, eps, k, a, c, p);
    assert Abs(a) + eps == eps;
    WithinScaled(Bin(y, w, p), Product(n, eps), 2.0 / n);
    Undone(n, eps);
    WithinScaled(c, 2.0 * eps, 2.0);
    ProductMeans(2.0, 2.0 * eps);
    Difference(PhasorOf(y, w), Scale(2.0, c), 2.0 * eps, 4.0 * eps);
  }

  /** A window near a tone is measured near the tone: within 2*eps of its amplitude when the
      tone exceeds its offset by more than 2*eps; and within 6*eps whatever the tone, be it
      absent, when there is no offset. */
  lemma NearToneIsMeasured(x: seq<real>, y: seq<real>, w: Complex, eps: real, k: nat, a: real, c: Complex)
    requires IsPowerOfTwo(|x|) && RootOf(w, |x|) && IsTone(x, w, k, a, c) && IsNear(x, y, eps)
    requires 0 < k < |x| / 2
    ensures Exceeds(c, Abs(a) + 2.0 * eps) ==> Within(Sub(PhasorOf(y, w), Scale(2.0, c)), 2.0 * eps)
    ensures a == 0.0 ==> Within(Sub(PhasorOf(y, w), Scale(2.0, c)), 6.0 * eps)
  {
    hide NormSq, Square, PhasorOf, Scale, IsTone, RootOf, IsPowerOfTwo, PeakBin;
    if Exceeds(c, Abs(a) + 2.0 * eps) { ToneKeepsBin(x, y, w, eps, k, a, c); }
    if PeakBin(y, w, |x| / 2) == k {
      NearSelected(x, y, w, eps, k, a, c);
      WithinWider(Sub(PhasorOf(y, w), Scale(2.0, c)), 2.0 * eps, 6.0 * eps);
    } else if a == 0.0 {
      NearNothing(x, y, w, eps, k, a, c);
    }
  }

  lemma Difference(a: Complex, b: Complex, r: real, s: real)
    requires Within(a, r) && Within(b, s)
    ensures Within(Sub(a, b), r + s)
  {
    hide NormSq, Square;
    assert Sub(ZERO, b) == Scale(-1.0, b);
    NegatedWithin(b, s);
    Triangle(a, Sub(ZERO, b), r, s);
    assert Add(a, Sub(ZERO, b)) == Sub(a, b);
  }

  lemma NegatedWithin(b: Complex, s: real)
    requires Within(b, s)
    ensures Within(Sub(ZERO, b), s)
  {
    assert Sub(b, ZERO) == b;
    WithinNegated(b, ZERO, s);
  }
}
