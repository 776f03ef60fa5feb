/** Phasor extraction, Algoritmos/phasor.c: the strongest bin in the lower half of the
    spectrum of a window, scaled to an amplitude. A phasor is kept in rectangular form and
    magnitudes are compared by their squares, which orders them as `cabs` does. */
module PhasorExtraction {
  import opened ComplexNumbers
  import opened FourierTransform
  import opened Spectrum

  /** Bin i is at least as strong as every bin below K and stronger than every earlier one. */
  ghost predicate IsPeak(x: seq<real>, w: Complex, K: nat, i: nat)
  {
    && i < K
    && (forall j :: 0 <= j < K ==> NormSq(Bin(x, w, j)) <= NormSq(Bin(x, w, i)))
    && (forall j :: 0 <= j < i ==> NormSq(Bin(x, w, j)) < NormSq(Bin(x, w, i)))
  }

  function PeakBin(x: seq<real>, w: Complex, K: nat): (i: nat)
    requires K > 0
    ensures IsPeak(x, w, K, i)
  {
    if K == 1 then 0
    else
      var p := PeakBin(x, w, K - 1);
      if NormSq(Bin(x, w, K - 1)) > NormSq(Bin(x, w, p)) then K - 1 else p
  }

  function PhasorOf(x: seq<real>, w: Complex): Complex
    requires |x| >= 2
  {
    Scale(2.0 / |x| as real, Bin(x, w, PeakBin(x, w, |x| / 2)))
  }

  method ComputePhasor(buffer: array<real>, offset: nat, N: nat, w: Complex) returns (phasor: Complex)
    requires IsPowerOfTwo(N) && N >= 2 && RootOf(w, N) && offset + N <= buffer.Length
    ensures phasor == PhasorOf(buffer[offset..offset + N], w)
  {
    hide NormSq, Bin, Scale, IsPeak;
    ghost var x := buffer[offset..offset + N];
    var output := new Complex[N];
    Fft(buffer, offset, output, N, w);
    assert buffer[offset..offset + N] == x;
    var maxIndex, maxMagnitude := 0, 0.0;
    for i := 0 to N / 2
      invariant 0 <= maxIndex < N
      invariant forall k :: 0 <= k < N ==> output[k] == Bin(x, w, k)
      invariant i == 0 ==> maxIndex == 0 && maxMagnitude == 0.0
      invariant i > 0 ==> maxIndex == PeakBin(x, w, i) && maxMagnitude == NormSq(output[maxIndex])
    {
      var magnitude := NormSq(output[i]);
      NormSqZero(output[i]);
      if magnitude > maxMagnitude {
        maxMagnitude := magnitude;
        maxIndex := i;
      }
    }
    phasor := Scale(2.0 / N as real, output[maxIndex]);
  }

  // ----- what the selected bin is -----

  lemma PeakIsUnique(x: seq<real>, w: Complex, K: nat, i: nat)
    requires IsPeak(x, w, K, i)
    ensures i == PeakBin(x, w, K)
  {
    hide Bin, NormSq;
    var p := PeakBin(x, w, K);
    assert NormSq(Bin(x, w, p)) <= NormSq(Bin(x, w, i));
    assert NormSq(Bin(x, w, i)) <= NormSq(Bin(x, w, p));
  }

  /** Searching half of the bins is searching all of them but the one at N/2. */
  lemma PeakDominatesSpectrum(x: seq<real>, w: Complex, j: nat)
    requires |x| >= 2 && IsPowerOfTwo(|x|) && RootOf(w, |x|)
    requires j < |x| && j != |x| / 2
    ensures var p := PeakBin(x, w, |x| / 2);
            && NormSq(Bin(x, w, j)) <= NormSq(Bin(x, w, p))
            && (j < p ==> NormSq(Bin(x, w, j)) < NormSq(Bin(x, w, p)))
  {
    hide Bin, NormSq, Conj;
    if j > |x| / 2 {
      ConjugateSymmetry(x, w, j);
      NormSqConj(Bin(x, w, j));
    }
  }

  /** A phasor never carries more energy than its window: at most the fraction that a pure
      tone would, and twice that when the constant component won the search. */
  lemma PhasorEnergyBound(x: seq<real>, w: Complex)
    requires |x| >= 2 && IsPowerOfTwo(|x|) && RootOf(w, |x|)
    ensures |x| as real * NormSq(PhasorOf(x, w))
         <= (if PeakBin(x, w, |x| / 2) == 0 then 4.0 else 2.0) * SampleEnergy(x)
  {
    hide Bin, NormSq, SampleEnergy, IsPeak, Scale, BinEnergy;
    var n, p := |x|, PeakBin(x, w, |x| / 2);
    assert p < |x| / 2 by { PeakInRange(x, w, |x| / 2); }
    var e := NormSq(Bin(x, w, p));
    Parseval(x, w);
    BinWithinEnergy(x, w, p);
    NormSqScale(2.0 / n as real, Bin(x, w, p));
    if p > 0 {
      ScaledBound(n as real, e, SampleEnergy(x), 2.0);
    } else {
      ScaledBound(n as real, e, SampleEnergy(x), 1.0);
    }
  }

  lemma PeakInRange(x: seq<real>, w: Complex, K: nat)
    requires K > 0
    ensures PeakBin(x, w, K) < K
  {}

  /** A bin shares the energy of the spectrum with all others, its mirror image included. */
  lemma BinWithinEnergy(x: seq<real>, w: Complex, p: nat)
    requires IsPowerOfTwo(|x|) && RootOf(w, |x|) && p < |x| / 2
    ensures (if p > 0 then 2.0 else 1.0) * NormSq(Bin(x, w, p)) <= BinEnergy(x, w, 0, |x|)
  {
    hide Bin, NormSq, Conj, RootOf, IsPowerOfTwo;
    var n := |x|;
    BinEnergyNonNegative(x, w, 0, p);
    BinEnergySplits(x, w, 0, p, n);
    BinEnergySplits(x, w, p, p + 1, n);
    assert BinEnergy(x, w, p, p) == 0.0;
    if p == 0 {
      BinEnergyNonNegative(x, w, p + 1, n);
    } else {
      var q := n - p;
      ConjugateSymmetry(x, w, p);
      NormSqConj(Bin(x, w, p));
      BinEnergySplits(x, w, p + 1, q, n);
      BinEnergySplits(x, w, q, q + 1, n);
      assert BinEnergy(x, w, q, q) == 0.0;
      BinEnergyNonNegative(x, w, p + 1, q);
      BinEnergyNonNegative(x, w, q + 1, n);
    }
  }

  lemma {:induction false} BinEnergyNonNegative(x: seq<real>, w: Complex, lo: nat, hi: nat)
    requires lo <= hi
    ensures BinEnergy(x, w, lo, hi) >= 0.0
    decreases hi
  {
    hide Bin, NormSq;
    if lo == hi {
    } else {
      BinEnergyNonNegative(x, w, lo, hi - 1);
      NormSqZero(Bin(x, w, hi - 1));
    }
  }

  lemma ScaledBound(n: real, e: real, s: real, c: real)
    requires n > 0.0 && c > 0.0 && c * e <= n * s
    ensures n * ((2.0 / n) * (2.0 / n) * e) <= (4.0 / c) * s
  {
    assert n * ((2.0 / n) * (2.0 / n) * e) == 4.0 * e / n;
    assert e <= n * s / c;
  }

  // ----- a pure tone is recovered -----

  /** A tone of amplitude 2c at bin k on an offset a: the tone is returned, whole and
      exactly, if and only if half its amplitude is greater than the offset; otherwise the
      offset is what the caller gets, doubled. */
  lemma TonePhasor(x: seq<real>, w: Complex, k: nat, a: real, c: Complex)
    requires IsPowerOfTwo(|x|) && RootOf(w, |x|) && IsTone(x, w, k, a, c)
    requires 0 < k < |x| / 2
    ensures NormSq(FromReal(a)) < NormSq(c) ==>
              PeakBin(x, w, |x| / 2) == k && PhasorOf(x, w) == Scale(2.0, c)
    ensures NormSq(FromReal(a)) >= NormSq(c) ==>
              PeakBin(x, w, |x| / 2) == 0 && PhasorOf(x, w) == Scale(2.0, FromReal(a))
  {
    hide Bin, NormSq, FromReal, Scale, IsPeak, PeakBin, IsTone, RootOf, IsPowerOfTwo;
    var n, K := |x| as real, |x| / 2;
    var offset := FromReal(a);
    forall j | 0 <= j < K
      ensures j == k ==> Bin(x, w, j) == Scale(n, c)
      ensures j == 0 ==> Bin(x, w, j) == Scale(n, offset)
      ensures j == k || j == 0 || Bin(x, w, j) == Scale(n, ZERO)
    {
      ToneSpectrum(x, w, k, a, c, j);
    }
    NormSqZero(c);
    NormSqZero(offset);
    ScaledOrder(n, offset, c);
    ScaledOrder(n, c, offset);
    ScaledOrder(n, ZERO, c);
    ScaledOrder(n, ZERO, offset);
    if NormSq(offset) < NormSq(c) {
      StrongestOfTwo(x, w, K, k, 0);
      RescaleTwice(n, c);
    } else {
      StrongestOfTwo(x, w, K, 0, k);
      RescaleTwice(n, offset);
    }
  }

  /** A tone whose offset is below half its amplitude, or absent, is measured exactly. */
  lemma ToneIsMeasured(x: seq<real>, w: Complex, k: nat, a: real, c: Complex)
    requires IsPowerOfTwo(|x|) && RootOf(w, |x|) && IsTone(x, w, k, a, c)
    requires 0 < k < |x| / 2
    requires NormSq(FromReal(a)) < NormSq(c) || a == 0.0
    ensures PhasorOf(x, w) == Scale(2.0, c)
  {
    TonePhasor(x, w, k, a, c);
    hide NormSq, PhasorOf, IsTone;
    if a == 0.0 {
      assert FromReal(a) == ZERO;
      NormSqZero(c);
    }
  }

  /** The samples of 4 + 6 * cos(n * pi / 2). */
  function OffsetTone(n: nat): real
  {
    if n % 4 == 0 then 10.0 else if n % 4 == 2 then -2.0 else 4.0
  }

  /** The other case does occur, in windows of every length from four samples up: a tone of
      amplitude 6 on an offset of 4, four samples to the period, gives the doubled offset. */
  lemma OffsetHidesTone(x: seq<real>, w: Complex, c: Complex)
    requires c == Complex(3.0, 0.0)
    requires |x| >= 4 && IsPowerOfTwo(|x|) && Pow(w, |x| / 4) == Complex(0.0, -1.0)
    requires forall n :: 0 <= n < |x| ==> x[n] == OffsetTone(n)
    ensures RootOf(w, |x|) && IsTone(x, w, |x| / 4, 4.0, c)
    ensures PhasorOf(x, w) == Complex(8.0, 0.0)
  {
    hide PhasorOf, PeakBin, ToneSample, Mul, NormSq, Pow;
    var k := |x| / 4;
    assert IsPowerOfTwo(|x| / 2) && |x| / 2 == k + k;
    PowAdd(w, k, k);
    QuarterTurn(Complex(0.0, -1.0));
    forall n | 0 <= n < |x| ensures FromReal(x[n]) == ToneSample(w, k, 4.0, c, n) {
      QuarterSample(w, k, n, c);
    }
    OffsetWins(x, w, k, 4.0, c);
  }

  lemma OffsetWins(x: seq<real>, w: Complex, k: nat, a: real, c: Complex)
    requires IsPowerOfTwo(|x|) && RootOf(w, |x|) && IsTone(x, w, k, a, c) && 0 < k < |x| / 2
    requires a == 4.0 && c == Complex(3.0, 0.0)
    ensures PhasorOf(x, w) == Complex(8.0, 0.0)
  {
    hide PhasorOf, PeakBin, RootOf, IsTone, Pow;
    TonePhasor(x, w, k, a, c);
  }

  /** The powers of -i. */
  function QuarterPower(n: nat): Complex
  {
    if n % 4 == 0 then ONE
    else if n % 4 == 1 then Complex(0.0, -1.0)
    else if n % 4 == 2 then MINUS_ONE
    else Complex(0.0, 1.0)
  }

  lemma {:induction false} QuarterTurns(n: nat)
    ensures Pow(Complex(0.0, -1.0), n) == QuarterPower(n)
  {
    hide Mul;
    if n == 0 {
    } else {
      QuarterTurns(n - 1);
      QuarterTurn(Pow(Complex(0.0, -1.0), n - 1));
    }
  }

  lemma QuarterTurn(p: Complex)
    ensures Mul(Complex(0.0, 1.0), p) == Complex(-p.im, p.re)
    ensures Mul(Complex(0.0, -1.0), p) == Complex(p.im, -p.re)
  {}

  lemma QuarterSample(w: Complex, k: nat, n: nat, c: Complex)
    requires Pow(w, k) == Complex(0.0, -1.0) && c == Complex(3.0, 0.0)
    ensures ToneSample(w, k, 4.0, c, n) == FromReal(OffsetTone(n))
  {
    hide Pow, Mul, Conj, Add, FromReal, QuarterPower;
    PowOfPow(w, k, n);
    ConjPow(w, k * n);
    QuarterTurns(n);
    RealTone(4.0, c, Pow(w, k * n));
    OffsetToneValue(n);
  }

  lemma OffsetToneValue(n: nat)
    ensures 4.0 + 2.0 * (3.0 * QuarterPower(n).re) == OffsetTone(n)
  {}

  lemma RealTone(a: real, c: Complex, p: Complex)
    requires c.im == 0.0
    ensures Add(FromReal(a), Add(Mul(c, Conj(p)), Mul(Conj(c), p))) == FromReal(a + 2.0 * (c.re * p.re))
  {
    RealTimes(c, p);
    RealTimes(c, Conj(p));
    hide Mul;
    assert Conj(c) == c;
  }

  lemma RealTimes(c: Complex, p: Complex)
    requires c.im == 0.0
    ensures Mul(c, p) == Complex(c.re * p.re, c.re * p.im)
  {
    assert c.im * p.re == 0.0 == c.im * p.im;
  }

  lemma StrongestOfTwo(x: seq<real>, w: Complex, K: nat, i: nat, other: nat)
    requires i < K && other < K && (i == 0 || other == 0)
    requires forall j :: 0 <= j < K && j != i ==> NormSq(Bin(x, w, j)) <= NormSq(Bin(x, w, i))
    requires i > 0 ==> NormSq(Bin(x, w, 0)) < NormSq(Bin(x, w, i))
    requires i > 0 ==> forall j :: 0 < j < K && j != i ==> NormSq(Bin(x, w, j)) < NormSq(Bin(x, w, i))
    ensures PeakBin(x, w, K) == i
  {
    hide Bin, NormSq;
    assert IsPeak(x, w, K, i);
    PeakIsUnique(x, w, K, i);
  }

  lemma ScaledOrder(n: real, a: Complex, b: Complex)
    requires n > 0.0
    ensures NormSq(a) < NormSq(b) ==> NormSq(Scale(n, a)) < NormSq(Scale(n, b))
    ensures NormSq(a) <= NormSq(b) ==> NormSq(Scale(n, a)) <= NormSq(Scale(n, b))
  {
    hide NormSq, Scale, Product;
    NormSqScale(n, a);
    NormSqScale(n, b);
    ProductPositive(n, n);
    ProductIs(n, n);
    SameOrder(Product(n, n), NormSq(a), NormSq(b));
  }

  lemma ProductIs(a: real, b: real)
    ensures Product(a, b) == a * b
  {}

  lemma SameOrder(s: real, a: real, b: real)
    requires s > 0.0
    ensures a < b ==> s * a < s * b
    ensures a <= b ==> s * a <= s * b
  {}

  lemma RescaleTwice(n: real, c: Complex)
    requires n > 0.0
    ensures Scale(2.0 / n, Scale(n, c)) == Scale(2.0, c)
  {
    assert 2.0 / n * n == 2.0;
    assert 2.0 / n * (n * c.re) == 2.0 * c.re;
    assert 2.0 / n * (n * c.im) == 2.0 * c.im;
  }

  /** Every offset, tone and position gives a window of real samples. */
  lemma ToneIsReal(w: Complex, k: nat, a: real, c: Complex, n: nat)
    ensures ToneSample(w, k, a, c, n) == FromReal(ToneSample(w, k, a, c, n).re)
  {
    ConjPow(w, k * n);
    ConjLaws(Conj(c), Pow(w, k * n));
    ConjLaws(c, c);
    hide Mul;
    var m := Mul(Conj(c), Pow(w, k * n));
    assert ToneSample(w, k, a, c, n) == Add(FromReal(a), Add(Conj(m), m));
  }

  // ----- a shifted window -----

  /** Reading the window m samples later selects the same bin and turns the phasor. */
  lemma PhasorOfRotated(x: seq<real>, w: Complex, m: nat)
    requires |x| >= 2 && IsPowerOfTwo(|x|) && RootOf(w, |x|) && m <= |x|
    ensures var k := PeakBin(x, w, |x| / 2);
            && PeakBin(Rotate(x, m), w, |x| / 2) == k
            && PhasorOf(x, w) == Mul(Pow(w, k * m), PhasorOf(Rotate(x, m), w))
  {
    hide Bin, NormSq, Mul, Scale, Pow, Rotate, RootOf, IsPowerOfTwo;
    var y, K := Rotate(x, m), |x| / 2;
    var k := PeakBin(x, w, K);
    forall j | 0 <= j < K ensures NormSq(Bin(x, w, j)) == NormSq(Bin(y, w, j)) {
      MagnitudeOfRotated(x, w, j, m);
    }
    assert IsPeak(y, w, K, k);
    PeakIsUnique(y, w, K, k);
    ShiftTheorem(x, w, k, m);
    ScaleOfMul(2.0 / |x| as real, Pow(w, k * m), Bin(y, w, k));
  }

  lemma MagnitudeOfRotated(x: seq<real>, w: Complex, j: nat, m: nat)
    requires IsPowerOfTwo(|x|) && RootOf(w, |x|) && m <= |x|
    ensures NormSq(Bin(x, w, j)) == NormSq(Bin(Rotate(x, m), w, j))
  {
    hide Bin, NormSq, Mul, Pow, Rotate, RootOf, IsPowerOfTwo;
    ShiftTheorem(x, w, j, m);
    RootOnUnitCircle(w, |x|);
    PowOnUnitCircle(w, j * m);
    NormSqMul(Pow(w, j * m), Bin(Rotate(x, m), w, j));
  }

  lemma ScaleOfMul(r: real, a: Complex, b: Complex)
    ensures Scale(r, Mul(a, b)) == Mul(a, Scale(r, b))
  {}
}
