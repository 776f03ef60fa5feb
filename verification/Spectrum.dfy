/** Laws of the spectrum the transform leaves in its output array: what a real window, a
    single tone, a shifted window and the energy of a window look like in its bins. */
module Spectrum {
  import opened ComplexNumbers
  import opened FourierTransform

  // ----- roots of unity -----

  lemma RootOnUnitCircle(w: Complex, n: nat)
    requires IsPowerOfTwo(n) && RootOf(w, n)
    ensures Pow(w, n) == ONE && NormSq(w) == 1.0 && Mul(w, Conj(w)) == ONE
  {
    hide NormSq;
    if n == 1 {
      PowOfOne(1);
      UnitNorms();
    } else {
      PowAdd(w, n / 2, n / 2);
      MulUnits(w);
      UnitNorms();
      UnitFromPower(w, n / 2);
    }
    ConjLaws(w, w);
  }

  lemma UnitNorms()
    ensures NormSq(ONE) == 1.0 && NormSq(MINUS_ONE) == 1.0
  {
    hide Square;
    UnitSquares(1.0);
    SquareSign(0.0);
  }

  lemma UnitSquares(one: real)
    requires one == 1.0
    ensures Square(one) == 1.0 == Square(-one)
  {
    hide Product;
    ProductWithOne(one);
    ProductWithOne(-one);
  }

  lemma ProductWithOne(r: real)
    ensures Product(1.0, r) == r && Product(-1.0, r) == -r
  {}

  /** On the circle of order n, conjugating a power counts backwards. */
  lemma ConjIsBackwards(w: Complex, n: nat, k: nat)
    requires IsPowerOfTwo(n) && RootOf(w, n) && k <= n
    ensures Pow(Conj(w), k) == Conj(Pow(w, k)) == Pow(w, n - k)
  {
    hide Mul, NormSq, Conj;
    RootOnUnitCircle(w, n);
    ConjPow(w, k);
    PowOnUnitCircle(w, k);
    ConjLaws(Pow(w, k), w);
    PowAdd(w, k, n - k);
    var p, q, c := Pow(w, k), Pow(w, n - k), Conj(Pow(w, k));
    MulUnits(q);
    MulUnits(c);
    MulCommutes(p, c);
    MulAssociates(c, p, q);
  }

  /** 1 + z + ... + z^(n-1). */
  function Geometric(z: Complex, n: nat): Complex
  {
    if n == 0 then ZERO else Add(Geometric(z, n - 1), Pow(z, n - 1))
  }

  lemma {:induction false} GeometricSplits(z: Complex, a: nat, b: nat)
    ensures Geometric(z, a + b) == Add(Geometric(z, a), Mul(Pow(z, a), Geometric(z, b)))
  {
    hide Mul;
    if b == 0 {
      MulUnits(Pow(z, a));
      MulUnits(Geometric(z, a));
    } else {
      GeometricSplits(z, a, b - 1);
      PowAdd(z, a, b - 1);
      MulDistributes(Pow(z, a), Geometric(z, b - 1), Pow(z, b - 1));
    }
  }

  lemma {:induction false} GeometricOfOne(n: nat)
    ensures Geometric(ONE, n) == FromReal(n as real)
  {
    hide Mul;
    if n == 0 {
    } else {
      GeometricOfOne(n - 1);
      PowOfOne(n - 1);
    }
  }

  lemma {:induction false} PowOfMinusOne(n: nat)
    ensures Pow(MINUS_ONE, n) == if n % 2 == 0 then ONE else MINUS_ONE
  {
    hide Mul;
    if n == 0 {
    } else {
      PowOfMinusOne(n - 1);
      MulUnits(MINUS_ONE);
    }
  }

  /** Orthogonality: the powers of a nontrivial power of the root sum to zero. */
  lemma {:induction false} RootsSumToZero(w: Complex, n: nat, d: nat)
    requires IsPowerOfTwo(n) && RootOf(w, n) && 0 < d < n
    ensures Geometric(Pow(w, d), n) == ZERO
    decreases n
  {
    hide Mul;
    var h, z := n / 2, Pow(w, d);
    GeometricSplits(z, h, h);
    if d % 2 == 0 {
      RootHalves(w, n);
      PowSmall(w);
      PowOfPow(w, 2, d / 2);
      RootsSumToZero(Mul(w, w), h, d / 2);
      MulUnits(Pow(z, h));
    } else {
      PowOfPow(w, d, h);
      PowOfPow(w, h, d);
      assert d * h == h * d;
      PowOfMinusOne(d);
      AddNegated(Geometric(z, h));
    }
  }

  lemma AddNegated(a: Complex)
    ensures Add(a, Mul(MINUS_ONE, a)) == ZERO
  {}

  // ----- a real window -----

  lemma {:induction false} EvalOfConj(x: seq<real>, z: Complex)
    ensures Eval(x, Conj(z)) == Conj(Eval(x, z))
  {
    hide Mul;
    if x == [] {
    } else {
      EvalOfConj(x[1..], z);
      ConjLaws(z, Eval(x[1..], z));
      ConjLaws(FromReal(x[0]), Mul(z, Eval(x[1..], z)));
    }
  }

  /** The upper half of the spectrum of a real window mirrors the lower half. */
  lemma ConjugateSymmetry(x: seq<real>, w: Complex, k: nat)
    requires IsPowerOfTwo(|x|) && RootOf(w, |x|) && k <= |x|
    ensures Bin(x, w, |x| - k) == Conj(Bin(x, w, k))
  {
    BinIsEval(x, w, k);
    BinIsEval(x, w, |x| - k);
    ConjIsBackwards(w, |x|, k);
    EvalOfConj(x, Pow(w, k));
  }

  // ----- a shifted window -----

  /** The window read m samples later on a periodic signal. */
  function Rotate(x: seq<real>, m: nat): (r: seq<real>)
    requires m <= |x|
    ensures |r| == |x|
  {
    x[m..] + x[..m]
  }

  /** The shift theorem: rotating a window turns bin k by w^(k*m). */
  lemma ShiftTheorem(x: seq<real>, w: Complex, k: nat, m: nat)
    requires IsPowerOfTwo(|x|) && RootOf(w, |x|) && m <= |x|
    ensures Bin(x, w, k) == Mul(Pow(w, k * m), Bin(Rotate(x, m), w, k))
  {
    hide Mul, Bin, Eval, Pow, Add, RootOf, IsPowerOfTwo;
    var n, z, a, b := |x|, Pow(w, k), x[..m], x[m..];
    BinIsEval(x, w, k);
    BinIsEval(Rotate(x, m), w, k);
    assert x == a + b;
    EvalOfConcat(a, b, z);
    EvalOfConcat(b, a, z);
    PowOfPow(w, k, m);
    PowOfRootPower(w, n, k);
    PowAdd(z, m, n - m);
    ShiftStep(Pow(z, m), Pow(z, n - m), Eval(a, z), Eval(b, z));
  }

  lemma PowOfRootPower(w: Complex, n: nat, k: nat)
    requires IsPowerOfTwo(n) && RootOf(w, n)
    ensures Pow(Pow(w, k), n) == ONE
  {
    hide Mul, NormSq, RootOf, IsPowerOfTwo;
    RootOnUnitCircle(w, n);
    PowOfPow(w, k, n);
    PowOfPow(w, n, k);
    assert k * n == n * k;
    PowOfOne(k);
  }

  lemma ShiftStep(p: Complex, q: Complex, a: Complex, b: Complex)
    requires Mul(p, q) == ONE
    ensures Add(a, Mul(p, b)) == Mul(p, Add(b, Mul(q, a)))
  {
    hide Mul;
    MulDistributes(p, b, Mul(q, a));
    MulAssociates(p, q, a);
    MulUnits(a);
  }

  // ----- the energy of a window -----

  function SampleEnergy(x: seq<real>): real
  {
    if x == [] then 0.0 else Square(x[0]) + SampleEnergy(x[1..])
  }

  /** The squared magnitudes of the bins from `lo` up to `hi`, summed. */
  function BinEnergy(x: seq<real>, w: Complex, lo: nat, hi: nat): real
    requires lo <= hi
    decreases hi
  {
    if hi == lo then 0.0 else BinEnergy(x, w, lo, hi - 1) + NormSq(Bin(x, w, hi - 1))
  }

  lemma {:induction false} SampleEnergySplits(x: seq<real>)
    ensures SampleEnergy(x) == SampleEnergy(Evens(x)) + SampleEnergy(Odds(x))
  {
    if x == [] {
    } else {
      SampleEnergySplits(x[1..]);
      assert Evens(x)[1..] == Odds(x[1..]);
    }
  }

  lemma {:induction false} BinEnergySplits(x: seq<real>, w: Complex, lo: nat, mid: nat, hi: nat)
    requires lo <= mid <= hi
    ensures BinEnergy(x, w, lo, hi) == BinEnergy(x, w, lo, mid) + BinEnergy(x, w, mid, hi)
    decreases hi
  {
    if mid == hi {
    } else {
      BinEnergySplits(x, w, lo, mid, hi - 1);
    }
  }

  /** One butterfly doubles the energy of its two inputs. */
  lemma ButterflyEnergy(x: seq<real>, w: Complex, k: nat, h: nat)
    requires Pow(w, h) == MINUS_ONE && NormSq(w) == 1.0
    ensures NormSq(Bin(x, w, k)) + NormSq(Bin(x, w, h + k))
         == 2.0 * (NormSq(Bin(Evens(x), Mul(w, w), k)) + NormSq(Bin(Odds(x), Mul(w, w), k)))
  {
    hide Mul, Bin, NormSq;
    Butterfly(x, w, k, h);
    assert k + h == h + k;
    PowOnUnitCircle(w, k);
    var e, o := Bin(Evens(x), Mul(w, w), k), Bin(Odds(x), Mul(w, w), k);
    NormSqMul(Pow(w, k), o);
    Parallelogram(e, Mul(Pow(w, k), o));
  }

  lemma {:induction false} HalvesEnergy(x: seq<real>, w: Complex, h: nat, k: nat)
    requires Pow(w, h) == MINUS_ONE && NormSq(w) == 1.0
    ensures BinEnergy(x, w, 0, k) + BinEnergy(x, w, h, h + k)
         == 2.0 * (BinEnergy(Evens(x), Mul(w, w), 0, k) + BinEnergy(Odds(x), Mul(w, w), 0, k))
  {
    hide Mul, Bin, NormSq;
    if k == 0 {
    } else {
      HalvesEnergy(x, w, h, k - 1);
      ButterflyEnergy(x, w, k - 1, h);
    }
  }

  /** Parseval: the bins hold N times the energy of the samples. */
  lemma {:induction false} Parseval(x: seq<real>, w: Complex)
    requires IsPowerOfTwo(|x|) && RootOf(w, |x|)
    ensures BinEnergy(x, w, 0, |x|) == |x| as real * SampleEnergy(x)
    decreases |x|
  {
    hide Mul, Bin, NormSq, SampleEnergy, BinEnergy;
    if |x| == 1 {
      SingleSampleEnergy(x, w);
    } else {
      var n, h, q := |x|, |x| / 2, Mul(w, w);
      assert n == h + h;
      EvensAndOddsLength(x);
      RootHalves(w, n);
      RootOnUnitCircle(w, n);
      Parseval(Evens(x), q);
      Parseval(Odds(x), q);
      SampleEnergySplits(x);
      BinEnergySplits(x, w, 0, h, n);
      HalvesEnergy(x, w, h, h);
      var ea, eb := BinEnergy(Evens(x), q, 0, h), BinEnergy(Odds(x), q, 0, h);
      assert BinEnergy(x, w, 0, n) == 2.0 * (ea + eb);
      DoubledEnergy(h as real, SampleEnergy(Evens(x)), SampleEnergy(Odds(x)), ea, eb, n as real, SampleEnergy(x));
    }
  }

  lemma SingleSampleEnergy(x: seq<real>, w: Complex)
    requires |x| == 1
    ensures BinEnergy(x, w, 0, 1) == SampleEnergy(x)
  {
    hide Mul, Square;
    BinIsEval(x, w, 0);
    assert Eval(x[1..], Pow(w, 0)) == ZERO;
    MulUnits(Pow(w, 0));
    assert Bin(x, w, 0) == FromReal(x[0]);
    assert BinEnergy(x, w, 0, 0) == 0.0 == SampleEnergy(x[1..]);
    assert Square(0.0) == 0.0 by { SquareSign(0.0); }
  }

  lemma DoubledEnergy(h: real, a: real, b: real, ea: real, eb: real, n: real, s: real)
    requires ea == h * a && eb == h * b && n == h + h && s == a + b
    ensures 2.0 * (ea + eb) == n * s
  {
    assert n * s == (h + h) * (a + b) == 2.0 * (h * a) + 2.0 * (h * b);
  }

  lemma {:induction false} EvensAndOddsLength(x: seq<real>)
    ensures |Evens(x)| == (|x| + 1) / 2 && |Odds(x)| == |x| / 2
  {
    if x == [] {
    } else {
      EvensAndOddsLength(x[1..]);
    }
  }

  // ----- a window holding one tone -----

  /** A window of one tone of amplitude 2c at bin k, on a constant offset a. */
  ghost predicate IsTone(x: seq<real>, w: Complex, k: nat, a: real, c: Complex)
  {
    forall n :: 0 <= n < |x| ==> FromReal(x[n]) == ToneSample(w, k, a, c, n)
  }

  function ToneSample(w: Complex, k: nat, a: real, c: Complex, n: nat): Complex
  {
    Add(FromReal(a), Add(Mul(c, Pow(Conj(w), k * n)), Mul(Conj(c), Pow(w, k * n))))
  }

  lemma {:induction false} ToneSum(x: seq<real>, w: Complex, k: nat, a: real, c: Complex, j: nat, n: nat)
    requires n <= |x| && IsTone(x, w, k, a, c)
    ensures DftSum(x, w, j, n)
         == Add(Mul(FromReal(a), Geometric(Pow(w, j), n)),
                Add(Mul(c, Geometric(Mul(Pow(Conj(w), k), Pow(w, j)), n)),
                    Mul(Conj(c), Geometric(Pow(w, k + j), n))))
  {
    hide Mul, Add, Conj, FromReal;
    var z, p, q := Pow(w, j), Mul(Pow(Conj(w), k), Pow(w, j)), Pow(w, k + j);
    if n == 0 {
      MulUnits(FromReal(a));
      MulUnits(c);
      MulUnits(Conj(c));
      MulUnits(ZERO);
    } else {
      var i := n - 1;
      ToneSum(x, w, k, a, c, j, i);
      assert FromReal(x[i]) == ToneSample(w, k, a, c, i);
      var u, v, t := Pow(Conj(w), k * i), Pow(w, k * i), Pow(w, i * j);
      assert i * j == j * i;
      PowOfPow(w, j, i);
      PowOfPow(Conj(w), k, i);
      PowOfProduct(Pow(Conj(w), k), Pow(w, j), i);
      assert Mul(u, t) == Pow(p, i);
      PowOfPow(w, k + j, i);
      assert (k + j) * i == k * i + i * j;
      PowAdd(w, k * i, i * j);
      assert Mul(v, t) == Pow(q, i);
      ToneStep(FromReal(a), c, Conj(c), u, v, t);
      RegroupSum(FromReal(a), c, Conj(c), Geometric(z, i), Geometric(p, i), Geometric(q, i),
                 t, Mul(u, t), Mul(v, t));
    }
  }

  lemma ToneStep(a: Complex, c: Complex, d: Complex, u: Complex, v: Complex, t: Complex)
    ensures Mul(Add(a, Add(Mul(c, u), Mul(d, v))), t) == Add(Mul(a, t), Add(Mul(c, Mul(u, t)), Mul(d, Mul(v, t))))
  {
    hide Mul, Add;
    var s := Add(Mul(c, u), Mul(d, v));
    MulCommutes(Add(a, s), t);
    MulDistributes(t, a, s);
    MulDistributes(t, Mul(c, u), Mul(d, v));
    MulCommutes(t, a);
    MulCommutes(t, Mul(c, u));
    MulCommutes(t, Mul(d, v));
    MulAssociates(c, u, t);
    MulAssociates(d, v, t);
  }

  lemma RegroupSum(a: Complex, c: Complex, d: Complex, x: Complex, y: Complex, z: Complex,
                   x': Complex, y': Complex, z': Complex)
    ensures Add(Add(Mul(a, x), Add(Mul(c, y), Mul(d, z))), Add(Mul(a, x'), Add(Mul(c, y'), Mul(d, z'))))
         == Add(Mul(a, Add(x, x')), Add(Mul(c, Add(y, y')), Mul(d, Add(z, z'))))
  {
    hide Mul;
    MulDistributes(a, x, x');
    MulDistributes(c, y, y');
    MulDistributes(d, z, z');
  }

  /** The lower half of the spectrum of a tone: the offset in bin 0, the tone in bin k,
      and exactly nothing in any other bin. */
  lemma ToneSpectrum(x: seq<real>, w: Complex, k: nat, a: real, c: Complex, j: nat)
    requires IsPowerOfTwo(|x|) && RootOf(w, |x|) && IsTone(x, w, k, a, c)
    requires 0 < k < |x| / 2 && j < |x| / 2
    ensures Bin(x, w, j) == Scale(|x| as real, if j == k then c else if j == 0 then FromReal(a) else ZERO)
  {
    hide Mul, Add, Conj, FromReal, Scale, Geometric;
    var n := |x|;
    ToneSum(x, w, k, a, c, j, n);
    RootOnUnitCircle(w, n);
    ConjIsBackwards(w, n, k);
    RootsSumToZero(w, n, k + j);
    GeometricOfOne(n);
    if j > 0 { RootsSumToZero(w, n, j); }
    PowAdd(w, n - k, j);
    if j == k {
    } else if j < k {
      RootsSumToZero(w, n, n - k + j);
    } else {
      PowAdd(w, n, j - k);
      MulUnits(Pow(w, j - k));
      RootsSumToZero(w, n, j - k);
    }
    OneOfThree(FromReal(a), c, Conj(c), n as real);
  }

  lemma OneOfThree(a: Complex, c: Complex, d: Complex, n: real)
    ensures Add(Mul(a, ZERO), Add(Mul(c, ZERO), Mul(d, ZERO))) == ZERO == Scale(n, ZERO)
    ensures Add(Mul(a, ZERO), Add(Mul(c, FromReal(n)), Mul(d, ZERO))) == Scale(n, c)
    ensures Add(Mul(a, FromReal(n)), Add(Mul(c, ZERO), Mul(d, ZERO))) == Scale(n, a)
  {}
}
