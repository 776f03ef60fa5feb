/** The radix-2 Fourier transform, Algoritmos/fft.c, proved against the defining sum.

    `cexp(-2*PI*I*k/N)` is written as a power of a root `w`. All that is ever used of
    `w` is that it is a principal root of unity: w^(N/2) == -1. A sub-call of size N and
    stride s works inside a top-level transform of size N*s, so its twiddle factor is
    the power k*s of the top-level root. */
module FourierTransform {
  import opened ComplexNumbers

  predicate IsPowerOfTwo(n: nat)
  {
    n == 1 || (n > 1 && n % 2 == 0 && IsPowerOfTwo(n / 2))
  }

  /** `w` is a root of unity of order exactly `n`, for `n` a power of two. */
  ghost predicate RootOf(w: Complex, n: nat)
  {
    if n == 1 then w == ONE else Pow(w, n / 2) == MINUS_ONE
  }

  // ----- what the transform computes -----

  /** The first n terms of the sum that defines bin k of the transform of `x`. */
  function DftSum(x: seq<real>, w: Complex, k: nat, n: nat): Complex
    requires n <= |x|
  {
    if n == 0 then ZERO
    else Add(DftSum(x, w, k, n - 1), Mul(FromReal(x[n - 1]), Pow(w, (n - 1) * k)))
  }

  /** Bin k of the discrete Fourier transform of `x`. */
  function Bin(x: seq<real>, w: Complex, k: nat): Complex
  {
    DftSum(x, w, k, |x|)
  }

  /** The samples read by a call: n of them, from `start`, `stride` apart. */
  function Strided(x: seq<real>, start: nat, stride: nat, n: nat): (r: seq<real>)
    requires n > 0 ==> start + (n - 1) * stride < |x|
    ensures |r| == n
    decreases n
  {
    if n == 0 then [] else
      StrideStays(start, stride, n);
      [x[start]] + Strided(x, start + stride, stride, n - 1)
  }

  lemma StrideStays(start: nat, stride: nat, n: nat)
    requires n > 0
    ensures start <= start + (n - 1) * stride
    ensures n > 1 ==> start + stride + (n - 2) * stride == start + (n - 1) * stride
  {}

  // ----- the same sum by Horner's rule -----

  /** The polynomial with coefficients `x` at `z`; a bin is its value at a power of w. */
  function Eval(x: seq<real>, z: Complex): Complex
  {
    if x == [] then ZERO else Add(FromReal(x[0]), Mul(z, Eval(x[1..], z)))
  }

  function Evens(x: seq<real>): seq<real>
  {
    if x == [] then [] else [x[0]] + Odds(x[1..])
  }

  function Odds(x: seq<real>): seq<real>
  {
    if x == [] then [] else Evens(x[1..])
  }

  lemma {:induction false} EvalOfConcat(a: seq<real>, b: seq<real>, z: Complex)
    ensures Eval(a + b, z) == Add(Eval(a, z), Mul(Pow(z, |a|), Eval(b, z)))
  {
    if a == [] {
      assert a + b == b;
      MulUnits(Eval(b, z));
    } else {
      assert (a + b)[1..] == a[1..] + b;
      EvalOfConcat(a[1..], b, z);
      HornerStep(FromReal(a[0]), z, Eval(a[1..], z), Pow(z, |a| - 1), Eval(b, z));
    }
  }

  lemma HornerStep(c: Complex, z: Complex, e: Complex, p: Complex, f: Complex)
    ensures Add(c, Mul(z, Add(e, Mul(p, f)))) == Add(Add(c, Mul(z, e)), Mul(Mul(z, p), f))
  {
    hide Mul;
    MulDistributes(z, e, Mul(p, f));
    MulAssociates(z, p, f);
  }

  lemma {:induction false} DftSumIsEval(x: seq<real>, w: Complex, k: nat, n: nat)
    requires n <= |x|
    ensures DftSum(x, w, k, n) == Eval(x[..n], Pow(w, k))
  {
    hide Mul;
    if n == 0 {
    } else {
      var z := Pow(w, k);
      var last := [x[n - 1]];
      DftSumIsEval(x, w, k, n - 1);
      assert x[..n] == x[..n - 1] + last;
      EvalOfConcat(x[..n - 1], last, z);
      assert Eval(last, z) == Add(FromReal(x[n - 1]), Mul(z, Eval(last[1..], z)));
      MulUnits(z);
      MulUnits(FromReal(x[n - 1]));
      assert Eval(last, z) == FromReal(x[n - 1]);
      PowOfPow(w, k, n - 1);
      assert k * (n - 1) == (n - 1) * k;
      MulCommutes(FromReal(x[n - 1]), Pow(z, n - 1));
    }
  }

  lemma BinIsEval(x: seq<real>, w: Complex, k: nat)
    ensures Bin(x, w, k) == Eval(x, Pow(w, k))
  {
    DftSumIsEval(x, w, k, |x|);
    assert x[..|x|] == x;
  }

  /** Decimation in time: even and odd samples give the two half-size polynomials. */
  lemma {:induction false} EvalSplits(x: seq<real>, z: Complex)
    ensures Eval(x, z) == Add(Eval(Evens(x), Mul(z, z)), Mul(z, Eval(Odds(x), Mul(z, z))))
  {
    if x == [] {
      MulUnits(z);
    } else {
      var t := x[1..];
      var q := Mul(z, z);
      EvalSplits(t, z);
      assert Evens(x)[1..] == Odds(t);
      assert Eval(Evens(x), q) == Add(FromReal(x[0]), Mul(q, Eval(Odds(t), q)));
      SplitStep(FromReal(x[0]), z, Eval(Evens(t), q), Eval(Odds(t), q));
    }
  }

  lemma SplitStep(c: Complex, z: Complex, e: Complex, o: Complex)
    ensures Add(c, Mul(z, Add(e, Mul(z, o)))) == Add(Add(c, Mul(Mul(z, z), o)), Mul(z, e))
  {
    hide Mul;
    MulDistributes(z, e, Mul(z, o));
    MulAssociates(z, z, o);
  }

  // ----- roots -----

  lemma RootHalves(w: Complex, n: nat)
    requires n > 1 && IsPowerOfTwo(n) && RootOf(w, n)
    ensures RootOf(Mul(w, w), n / 2)
  {
    hide Mul;
    PowSmall(w);
    if n == 2 {
      MulUnits(w);
    } else {
      PowOfPow(w, 2, n / 4);
      assert 2 * (n / 4) == n / 2;
    }
  }

  /** The two outputs of one butterfly, from the bins of the two halves. */
  lemma Butterfly(x: seq<real>, w: Complex, k: nat, h: nat)
    requires Pow(w, h) == MINUS_ONE
    ensures var e, o := Bin(Evens(x), Mul(w, w), k), Bin(Odds(x), Mul(w, w), k);
            && Bin(x, w, k) == Add(e, Mul(Pow(w, k), o))
            && Bin(x, w, k + h) == Sub(e, Mul(Pow(w, k), o))
  {
    hide Mul, Add, Sub, Bin, Eval, Pow, Evens, Odds;
    var z := Pow(w, k);
    var q := Mul(w, w);
    BinIsEval(x, w, k);
    BinIsEval(x, w, k + h);
    BinIsEval(Evens(x), q, k);
    BinIsEval(Odds(x), q, k);
    PowOfProduct(w, w, k);
    EvalSplits(x, z);
    PowAdd(w, k, h);
    var y := Mul(z, MINUS_ONE);
    MulInterchange(z, MINUS_ONE, z, MINUS_ONE);
    MulUnits(z);
    MulUnits(Mul(z, z));
    EvalSplits(x, y);
    NegatedTwiddle(Eval(Evens(x), Mul(z, z)), z, Eval(Odds(x), Mul(z, z)));
  }

  lemma NegatedTwiddle(e: Complex, z: Complex, o: Complex)
    ensures Add(e, Mul(Mul(z, MINUS_ONE), o)) == Sub(e, Mul(z, o))
  {}

  // ----- what a strided call reads -----

  lemma HalfStride(stride: nat, n: nat)
    requires n > 1 && n % 2 == 0
    ensures (n / 2 - 1) * (2 * stride) + stride == (n - 1) * stride
  {
    var h := n / 2;
    assert n == 2 * h;
    assert (h - 1) * (2 * stride) == (2 * h - 2) * stride;
  }

  /** The two recursive calls read exactly the even and the odd samples of their caller. */
  lemma {:induction false} StridedSplits(x: seq<real>, start: nat, stride: nat, n: nat)
    requires n > 1 && n % 2 == 0 && start + (n - 1) * stride < |x|
    ensures (n / 2 - 1) * (2 * stride) + stride == (n - 1) * stride
    ensures Evens(Strided(x, start, stride, n)) == Strided(x, start, 2 * stride, n / 2)
    ensures Odds(Strided(x, start, stride, n)) == Strided(x, start + stride, 2 * stride, n / 2)
    decreases n
  {
    HalfStride(stride, n);
    StrideStays(start, stride, n);
    var whole := Strided(x, start, stride, n);
    var rest := Strided(x, start + stride, stride, n - 1);
    assert whole[1..] == rest;
    StrideStays(start + stride, stride, n - 1);
    var rest2 := Strided(x, start + stride + stride, stride, n - 2);
    assert rest[1..] == rest2;
    assert Evens(whole) == [x[start]] + Evens(rest2);
    assert Odds(whole) == [x[start + stride]] + Odds(rest2);
    if n > 2 {
      StridedSplits(x, start + stride + stride, stride, n - 2);
      StrideStays(start, 2 * stride, n / 2);
      StrideStays(start + stride, 2 * stride, n / 2);
      assert start + stride + stride == start + 2 * stride;
    }
  }

  lemma {:induction false} StridedWhole(x: seq<real>, start: nat, n: nat)
    requires start + n <= |x|
    ensures Strided(x, start, 1, n) == x[start..start + n]
    decreases n
  {
    if n == 0 {
    } else {
      StridedWhole(x, start + 1, n - 1);
      assert x[start..start + n] == [x[start]] + x[start + 1..start + n];
    }
  }

  lemma AddAssociates(a: Complex, b: Complex, c: Complex)
    ensures Add(Add(a, b), c) == Add(a, Add(b, c))
  {}

  lemma SingleBin(x: seq<real>, start: nat, stride: nat, w: Complex)
    requires start < |x|
    ensures Bin(Strided(x, start, stride, 1), w, 0) == FromReal(x[start])
  {
    var one := Strided(x, start, stride, 1);
    assert one == [x[start]];
    assert Eval(one[1..], Pow(w, 0)) == ZERO;
    BinIsEval(one, w, 0);
  }

  // ----- the algorithms -----

  /** The direct transform adds every bin to what the output array already holds; started on
      zeros it leaves what `Fft` leaves. */
  method FftSlow(x: array<real>, X: array<Complex>, N: nat, w: Complex)
    requires N <= x.Length && N <= X.Length
    modifies X
    ensures forall k :: 0 <= k < N ==> X[k] == Add(old(X[k]), Bin(x[..N], w, k))
    ensures forall k :: 0 <= k < N && old(X[k]) == ZERO ==> X[k] == Bin(x[..N], w, k)
    ensures forall k :: N <= k < X.Length ==> X[k] == old(X[k])
  {
    hide Mul;
    for k := 0 to N
      invariant forall j :: 0 <= j < k ==> X[j] == Add(old(X[j]), Bin(x[..N], w, j))
      invariant forall j :: k <= j < X.Length ==> X[j] == old(X[j])
    {
      for n := 0 to N
        invariant forall j :: 0 <= j < k ==> X[j] == Add(old(X[j]), Bin(x[..N], w, j))
        invariant X[k] == Add(old(X[k]), DftSum(x[..N], w, k, n))
        invariant forall j :: k < j < X.Length ==> X[j] == old(X[j])
      {
        AddAssociates(old(X[k]), DftSum(x[..N], w, k, n), Mul(FromReal(x[n]), Pow(w, n * k)));
        X[k] := Add(X[k], Mul(FromReal(x[n]), Pow(w, n * k)));
      }
    }
  }

  /** The butterfly loop: bins of the two halves in, bins of the whole out. */
  method Combine(X: array<Complex>, Xo: nat, h: nat, s: nat, root: Complex, ghost whole: seq<real>)
    requires Xo + 2 * h <= X.Length
    requires Pow(Pow(root, s), h) == MINUS_ONE
    requires var q := Mul(Pow(root, s), Pow(root, s));
             && (forall j :: 0 <= j < h ==> X[Xo + j] == Bin(Evens(whole), q, j))
             && (forall j :: 0 <= j < h ==> X[Xo + h + j] == Bin(Odds(whole), q, j))
    modifies X
    ensures forall j :: 0 <= j < 2 * h ==> X[Xo + j] == Bin(whole, Pow(root, s), j)
    ensures forall i :: 0 <= i < X.Length && !(Xo <= i < Xo + 2 * h) ==> X[i] == old(X[i])
  {
    hide Bin, Pow, Add, Sub, Mul, Evens, Odds;
    ghost var w := Pow(root, s);
    for k := 0 to h
      invariant forall j :: 0 <= j < k ==> X[Xo + j] == Bin(whole, w, j)
      invariant forall j :: h <= j < h + k ==> X[Xo + j] == Bin(whole, w, j)
      invariant forall j :: k <= j < h ==> X[Xo + j] == Bin(Evens(whole), Mul(w, w), j)
      invariant forall j :: k <= j < h ==> X[Xo + h + j] == Bin(Odds(whole), Mul(w, w), j)
      invariant forall i :: 0 <= i < X.Length && !(Xo <= i < Xo + 2 * h) ==> X[i] == old(X[i])
    {
      PowOfPow(root, s, k);
      Butterfly(whole, w, k, h);
      var t := X[Xo + k];
      X[Xo + k] := Add(t, Mul(Pow(root, k * s), X[Xo + h + k]));
      X[Xo + h + k] := Sub(t, Mul(Pow(root, k * s), X[Xo + h + k]));
    }
  }

  /** Cooley-Tukey in place. The call reads `x` from `xo` in steps of `s` and leaves its N
      bins in X[Xo..Xo+N), touching nothing else. `root` is the top-level root, so the
      root of this call is its power s. */
  method FftRadix2(x: array<real>, xo: nat, X: array<Complex>, Xo: nat, N: nat, s: nat, root: Complex)
    requires IsPowerOfTwo(N) && s > 0
    requires xo + (N - 1) * s < x.Length && Xo + N <= X.Length
    requires RootOf(Pow(root, s), N)
    modifies X
    ensures forall k :: 0 <= k < N ==> X[Xo + k] == Bin(Strided(x[..], xo, s, N), Pow(root, s), k)
    ensures forall i :: 0 <= i < X.Length && !(Xo <= i < Xo + N) ==> X[i] == old(X[i])
    decreases N
  {
    hide Bin, Pow, Add, Sub, Mul, Evens, Odds, Strided;
    if N == 1 {
      SingleBin(x[..], xo, s, Pow(root, s));
      X[Xo] := FromReal(x[xo]);
      return;
    }
    var h := N / 2;
    ghost var w := Pow(root, s);
    ghost var xs := x[..];
    ghost var whole := Strided(xs, xo, s, N);
    StridedSplits(xs, xo, s, N);
    PowAdd(root, s, s);
    RootHalves(w, N);
    FftRadix2(x, xo, X, Xo, h, 2 * s, root);
    assert x[..] == xs;
    assert forall j :: 0 <= j < h ==> X[Xo + j] == Bin(Evens(whole), Mul(w, w), j);
    FftRadix2(x, xo + s, X, Xo + h, h, 2 * s, root);
    assert x[..] == xs;
    forall j | 0 <= j < h ensures X[Xo + h + j] == Bin(Odds(whole), Mul(w, w), j) {
      assert X[(Xo + h) + j] == Bin(Odds(whole), Mul(w, w), j);
    }
    Combine(X, Xo, h, s, root, whole);
  }

  /** The transform of a whole window: every bin of the defining sum, N of them. */
  method Fft(x: array<real>, xo: nat, X: array<Complex>, N: nat, w: Complex)
    requires IsPowerOfTwo(N) && RootOf(w, N)
    requires xo + N <= x.Length && N <= X.Length
    modifies X
    ensures forall k :: 0 <= k < N ==> X[k] == Bin(x[xo..xo + N], w, k)
    ensures forall i :: N <= i < X.Length ==> X[i] == old(X[i])
  {
    hide Bin, Strided, Pow, Mul, IsPowerOfTwo;
    PowSmall(w);
    StridedWhole(x[..], xo, N);
    assert x[..][xo..xo + N] == x[xo..xo + N];
    FftRadix2(x, xo, X, 0, N, 1, w);
    forall k | 0 <= k < N ensures X[k] == Bin(x[xo..xo + N], w, k) {
      assert X[0 + k] == Bin(Strided(x[..], xo, 1, N), Pow(w, 1), k);
    }
  }
}
