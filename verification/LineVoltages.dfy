/** Which way the series compensation relay points when a line voltage decides, from the phase
    voltages on the two sides of the bank. Of `cexp`, `carg` and `cabs` a handful of facts is
    assumed, all of which hold of the functions they stand for. */
module LineVoltages {
  import opened ComplexNumbers
  import opened Magnitudes
  import opened SeriesCompensation

  /** What `cexp(I*t)` and the polar form of a number are to each other; pi is the half period
      of `cexp`, of which the code uses twenty decimals. */
  ghost predicate IsTrigonometric(m: Library, pi: real)
  {
    && 3.1415926535 < pi < 3.1415926536
    && m.cexpI(0.0) == ONE && m.cexpI(pi) == MINUS_ONE
    && (forall s, t :: TurnsBack(m, s, t))
    && (forall t :: SineIsBounded(m, pi, t))
    && (forall z :: IsPolarOf(m, pi, z))
  }

  /** Turning back is multiplying by the conjugate. */
  predicate TurnsBack(m: Library, s: real, t: real)
  {
    m.cexpI(s - t) == Mul(m.cexpI(s), Conj(m.cexpI(t)))
  }

  /** In the first half turn the sine is neither negative nor above the angle. */
  predicate SineIsBounded(m: Library, pi: real, t: real)
  {
    0.0 <= t <= pi ==> 0.0 <= m.cexpI(t).im <= t
  }

  /** `cabs` and `carg` take a number apart and `cexp` puts it together. */
  predicate IsPolarOf(m: Library, pi: real, z: Complex)
  {
    Scale(m.cabs(z), m.cexpI(m.carg(z))) == z && m.cabs(z) >= 0.0 && -pi <= m.carg(z) <= pi
  }

  /** What the relay compares for a line is the difference of the two phase voltages. */
  lemma LinePhasorsAreDifferences(m: Library, v: Voltages)
    requires forall z :: Scale(m.cabs(z), m.cexpI(m.carg(z))) == z
    ensures var a := Scale(v.A.magnitude, m.cexpI(v.A.phase));
            var b := Scale(v.B.magnitude, m.cexpI(v.B.phase));
            var c := Scale(v.C.magnitude, m.cexpI(v.C.phase));
            var ab, bc, ca := VoltageFor(m, v, LineAB), VoltageFor(m, v, LineBC), VoltageFor(m, v, LineCA);
            && Scale(ab.magnitude, m.cexpI(ab.phase)) == Sub(a, b)
            && Scale(bc.magnitude, m.cexpI(bc.phase)) == Sub(b, c)
            && Scale(ca.magnitude, m.cexpI(ca.phase)) == Sub(c, a)
  {
    hide Scale, Sub;
  }

  // ----- the sine near zero and near half a turn -----

  lemma Opposites(m: Library, pi: real, t: real)
    requires IsTrigonometric(m, pi)
    ensures m.cexpI(-t) == Conj(m.cexpI(t))
    ensures m.cexpI(t + pi) == Mul(MINUS_ONE, m.cexpI(t))
    ensures m.cexpI(t + 2.0 * pi) == m.cexpI(t)
  {
    hide Mul;
    assert TurnsBack(m, 0.0, t) && 0.0 - t == -t;
    MulUnits(Conj(m.cexpI(t)));
    HalfTurnOn(m, pi, t);
    HalfTurnOn(m, pi, t + pi);
    MulAssociates(MINUS_ONE, MINUS_ONE, m.cexpI(t));
    MulUnits(m.cexpI(t));
    assert t + pi + pi == t + 2.0 * pi;
  }

  lemma HalfTurnOn(m: Library, pi: real, t: real)
    requires IsTrigonometric(m, pi)
    ensures m.cexpI(t + pi) == Mul(MINUS_ONE, m.cexpI(t))
  {
    HalfTurnBack(m, pi);
    assert TurnsBack(m, t, -pi) && t - (-pi) == t + pi;
    hide IsTrigonometric;
    ByMinusOne(m.cexpI(t), m.cexpI(-pi));
  }

  lemma HalfTurnBack(m: Library, pi: real)
    requires IsTrigonometric(m, pi)
    ensures m.cexpI(-pi) == MINUS_ONE
  {
    assert TurnsBack(m, 0.0, pi) && 0.0 - pi == -pi;
    hide IsTrigonometric;
  }

  lemma ByMinusOne(a: Complex, b: Complex)
    requires b == MINUS_ONE
    ensures Mul(a, Conj(b)) == Mul(b, a)
  {}

  /** Up to the eighth decimal of half a turn: a sine above 0.00001 is that of an angle above
      0.000009 and one below -0.00001 that of an angle below -0.000009. */
  lemma SmallSine(m: Library, pi: real, u: real)
    requires IsTrigonometric(m, pi) && -pi - 0.00000001 <= u <= pi + 0.00000001
    ensures u <= 0.000009 ==> m.cexpI(u).im <= 0.00001
    ensures u >= -0.000009 ==> m.cexpI(u).im >= -0.00001
  {
    hide Mul;
    Opposites(m, pi, u);
    Opposites(m, pi, -u);
    TimesMinusOne(m.cexpI(u));
    if u > pi {
      Opposites(m, pi, u - pi);
      TimesMinusOne(m.cexpI(u - pi));
      assert u - pi + pi == u;
      assert SineIsBounded(m, pi, u - pi);
    } else if u < -pi {
      Opposites(m, pi, -u - pi);
      TimesMinusOne(m.cexpI(-u - pi));
      assert -u - pi + pi == -u;
      assert SineIsBounded(m, pi, -u - pi);
    } else if u >= 0.0 {
      assert SineIsBounded(m, pi, u);
    } else {
      assert SineIsBounded(m, pi, -u);
    }
  }

  lemma TimesMinusOne(z: Complex)
    ensures Mul(MINUS_ONE, z) == Complex(-z.re, -z.im)
  {}

  // ----- which of two voltages is ahead -----

  /** Turning d2 the short way to d1 is turning forward, by more than 0.00001 radians. */
  predicate IsAheadOf(m: Library, d1: Complex, d2: Complex)
  {
    d1.im * d2.re - d1.re * d2.im > 0.00001 * (m.cabs(d1) * m.cabs(d2))
  }

  lemma CrossIsSine(m: Library, pi: real, d1: Complex, d2: Complex)
    requires IsTrigonometric(m, pi)
    ensures d1.im * d2.re - d1.re * d2.im
            == m.cabs(d1) * m.cabs(d2) * m.cexpI(m.carg(d1) - m.carg(d2)).im
  {
    var e1, e2 := m.cexpI(m.carg(d1)), m.cexpI(m.carg(d2));
    assert TurnsBack(m, m.carg(d1), m.carg(d2)) && IsPolarOf(m, pi, d1) && IsPolarOf(m, pi, d2);
    hide Mul, Scale;
    CrossOfScaled(m.cabs(d1), m.cabs(d2), e1, e2, d1, d2);
  }

  lemma CrossOfScaled(r1: real, r2: real, e1: Complex, e2: Complex, d1: Complex, d2: Complex)
    requires d1 == Scale(r1, e1) && d2 == Scale(r2, e2)
    ensures d1.im * d2.re - d1.re * d2.im == r1 * r2 * Mul(e1, Conj(e2)).im
  {
    var a, b, c, d := e1.re, e1.im, e2.re, e2.im;
    assert (r1 * b) * (r2 * c) == r1 * r2 * (b * c);
    assert (r1 * a) * (r2 * d) == r1 * r2 * (a * d);
    assert Mul(e1, Conj(e2)).im == b * c - a * d;
    Distributed(r1 * r2, b * c, a * d);
  }

  lemma Distributed(r: real, a: real, b: real)
    ensures r * (a - b) == r * a - r * b
  {}

  lemma LargeSine(m: Library, pi: real, d1: Complex, d2: Complex)
    requires IsTrigonometric(m, pi) && IsAheadOf(m, d1, d2)
    ensures m.cexpI(m.carg(d1) - m.carg(d2)).im > 0.00001
    ensures m.cexpI(m.carg(d2) - m.carg(d1)).im < -0.00001
  {
    CrossIsSine(m, pi, d1, d2);
    assert IsPolarOf(m, pi, d1) && IsPolarOf(m, pi, d2);
    var r, y := m.cabs(d1) * m.cabs(d2), m.cexpI(m.carg(d1) - m.carg(d2)).im;
    NonNegativeProduct(m.cabs(d1), m.cabs(d2));
    if y <= 0.00001 { ScaledAtMost(r, y, 0.00001); }
    Opposites(m, pi, m.carg(d1) - m.carg(d2));
    assert -(m.carg(d1) - m.carg(d2)) == m.carg(d2) - m.carg(d1);
  }

  lemma NonNegativeProduct(a: real, b: real)
    requires a >= 0.0 && b >= 0.0
    ensures a * b >= 0.0
  {}

  lemma ScaledAtMost(r: real, a: real, b: real)
    requires r >= 0.0 && a <= b
    ensures r * a <= r * b
  {}

  /** The wound difference is the angle of the turn, but for the decimals of pi left out. */
  lemma WoundDifference(m: Library, pi: real, delta: real, w: real, t: int)
    requires IsTrigonometric(m, pi) && -2.0 * pi <= delta <= 2.0 * pi && -180.0 < w <= 180.0
    requires w == delta * 180.0 / 3.14159265358979323846 + 360.0 * t as real
    ensures var u := delta + 2.0 * pi * t as real;
            && -pi - 0.00000001 <= u <= pi + 0.00000001
            && m.cexpI(u) == m.cexpI(delta)
            && (w < 0.0005 ==> u <= 0.000009) && (w > -0.0005 ==> u >= -0.000009)
  {
    assert -1 <= t <= 1;
    Opposites(m, pi, delta);
    Opposites(m, pi, delta - 2.0 * pi);
    assert delta - 2.0 * pi + 2.0 * pi == delta;
    if t == 0 {} else if t == 1 {} else {}
  }

  lemma WindingExists(phase1: real, phase2: real) returns (t: int)
    ensures -180.0 < Winding(phase1, phase2, t) <= 180.0
  {
    var p1, p2 := Phasor(0.0, phase1), Phasor(0.0, phase2);
    AngleOfWindings(p1, p2);
    t := TurnsNeeded(Difference(p1, p2));
  }

  lemma LeadsBySine(m: Library, pi: real, phase1: real, phase2: real)
    requires IsTrigonometric(m, pi) && -pi <= phase1 <= pi && -pi <= phase2 <= pi
    requires m.cexpI(phase1 - phase2).im > 0.00001
    ensures Leads(phase1, phase2)
  {
    var t := WindingExists(phase1, phase2);
    assert -2.0 * pi <= phase1 - phase2 <= 2.0 * pi;
    WoundDifference(m, pi, phase1 - phase2, Winding(phase1, phase2, t), t);
    hide IsTrigonometric, Winding;
    SmallSine(m, pi, phase1 - phase2 + 2.0 * pi * t as real);
    assert 0.0005 <= Winding(phase1, phase2, t) <= 180.0;
  }

  lemma LagsBySine(m: Library, pi: real, phase1: real, phase2: real)
    requires IsTrigonometric(m, pi) && -pi <= phase1 <= pi && -pi <= phase2 <= pi
    requires m.cexpI(phase1 - phase2).im < -0.00001
    ensures Lags(phase1, phase2)
  {
    var t := WindingExists(phase1, phase2);
    assert -2.0 * pi <= phase1 - phase2 <= 2.0 * pi;
    WoundDifference(m, pi, phase1 - phase2, Winding(phase1, phase2, t), t);
    hide IsTrigonometric, Winding;
    SmallSine(m, pi, phase1 - phase2 + 2.0 * pi * t as real);
    assert -180.0 < Winding(phase1, phase2, t) <= -0.0005;
  }

  /** The relay's angle points the way the voltages do. */
  lemma AheadLeads(m: Library, pi: real, d1: Complex, d2: Complex)
    requires IsTrigonometric(m, pi) && IsAheadOf(m, d1, d2)
    ensures Leads(m.carg(d1), m.carg(d2)) && Lags(m.carg(d2), m.carg(d1))
  {
    hide Leads, Lags, Winding, Mul;
    assert IsPolarOf(m, pi, d1) && IsPolarOf(m, pi, d2);
    LargeSine(m, pi, d1, d2);
    LeadsBySine(m, pi, m.carg(d1), m.carg(d2));
    LagsBySine(m, pi, m.carg(d2), m.carg(d1));
  }

  // ----- from voltages to messages -----

  lemma SamePhaseAgrees(phase: real)
    ensures Agrees(phase, phase)
  {
    assert Winding(phase, phase, 0) == 0.0;
  }

  /** The difference of two voltages of given magnitudes and phases. */
  function Across(m: Library, p: Phasor, q: Phasor): Complex
  {
    Sub(Scale(p.magnitude, m.cexpI(p.phase)), Scale(q.magnitude, m.cexpI(q.phase)))
  }

  /** A line fault is placed by the line voltages, magnitudes and all: when the voltage across
      two phases turns forward through the bank, and the third phase is in step, it is
      reported behind the bank; when it turns backward, ahead. */
  lemma LineMessages(m: Library, pi: real, v1: Voltages, v2: Voltages)
    requires IsTrigonometric(m, pi)
    ensures var rs := Reports(AnglesOf(m, v1, v2));
            var ab1, bc1, ca1 := Across(m, v1.A, v1.B), Across(m, v1.B, v1.C), Across(m, v1.C, v1.A);
            var ab2, bc2, ca2 := Across(m, v2.A, v2.B), Across(m, v2.B, v2.C), Across(m, v2.C, v2.A);
            && (v1.C.phase == v2.C.phase && IsAheadOf(m, ab1, ab2) ==> Report(LineAB, Behind) in rs)
            && (v1.C.phase == v2.C.phase && IsAheadOf(m, ab2, ab1) ==> Report(LineAB, Ahead) in rs)
            && (v1.A.phase == v2.A.phase && IsAheadOf(m, bc1, bc2) ==> Report(LineBC, Behind) in rs)
            && (v1.A.phase == v2.A.phase && IsAheadOf(m, bc2, bc1) ==> Report(LineBC, Ahead) in rs)
            && (v1.B.phase == v2.B.phase && IsAheadOf(m, ca1, ca2) ==> Report(LineCA, Behind) in rs)
            && (v1.B.phase == v2.B.phase && IsAheadOf(m, ca2, ca1) ==> Report(LineCA, Ahead) in rs)
  {
    hide IsTrigonometric, Leads, Lags, Agrees, IsAheadOf, Reports, AnglesOf, Ascends;
    MessagesOfVoltages(m, v1, v2);
    SamePhaseAgrees(v1.A.phase);
    SamePhaseAgrees(v1.B.phase);
    SamePhaseAgrees(v1.C.phase);
    forall d1, d2 | IsAheadOf(m, d1, d2)
      ensures Leads(m.carg(d1), m.carg(d2)) && Lags(m.carg(d2), m.carg(d1))
    {
      AheadLeads(m, pi, d1, d2);
    }
  }

  // ----- an example -----

  /** What `cabs` returns is the magnitude. */
  lemma MagnitudeOf(m: Library, pi: real, z: Complex)
    requires IsTrigonometric(m, pi)
    ensures m.cabs(z) * m.cabs(z) == NormSq(z)
  {
    var r, e := m.cabs(z), m.cexpI(m.carg(z));
    assert TurnsBack(m, m.carg(z), m.carg(z)) && m.carg(z) - m.carg(z) == 0.0;
    assert IsPolarOf(m, pi, z);
    ConjLaws(e, e);
    NormSqScale(r, e);
    hide Mul, NormSq, Scale, IsTrigonometric;
    assert NormSq(e) == 1.0;
  }

  /** Twice the voltage in phase A behind the bank: A and B are a third of a turn apart on both
      sides and every phase is in step, yet the line voltage between them turns back by some
      eleven degrees, and the fault is reported ahead. */
  lemma UnequalMagnitudes(m: Library, pi: real, beta: real, s: real, c: Phasor, v1: Voltages, v2: Voltages)
    requires IsTrigonometric(m, pi) && m.cexpI(beta) == Complex(-0.5, -s) && s > 0.0
    requires v1 == Voltages(Phasor(2.0, 0.0), Phasor(1.0, beta), c)
    requires v2 == Voltages(Phasor(1.0, 0.0), Phasor(1.0, beta), c)
    ensures Report(LineAB, Ahead) in Reports(AnglesOf(m, v1, v2))
    ensures Report(LineAB, Behind) !in Reports(AnglesOf(m, v1, v2))
  {
    var d1, d2 := Across(m, v1.A, v1.B), Across(m, v2.A, v2.B);
    LineOfExample(m, pi, beta, s, d1, 2.0);
    LineOfExample(m, pi, beta, s, d2, 1.0);
    ThirdOfTurn(m, pi, beta, s);
    ProductsUpTo(m.cabs(d2), m.cabs(d1), 3.0, 3.0);
    assert IsAheadOf(m, d2, d1);
    hide IsTrigonometric, Reports, AnglesOf, IsAheadOf;
    LineMessages(m, pi, v1, v2);
    if Report(LineAB, Behind) in Reports(AnglesOf(m, v1, v2)) {
      ReportsAreConsistent(AnglesOf(m, v1, v2), LineAB, Behind, LineAB, Ahead);
    }
  }

  lemma ThirdOfTurn(m: Library, pi: real, beta: real, s: real)
    requires IsTrigonometric(m, pi) && m.cexpI(beta) == Complex(-0.5, -s) && s > 0.0
    ensures 0.8 < s < 0.9
  {
    assert TurnsBack(m, beta, beta) && beta - beta == 0.0;
    assert 0.25 + s * s == 1.0;
  }

  lemma LineOfExample(m: Library, pi: real, beta: real, s: real, d: Complex, r: real)
    requires IsTrigonometric(m, pi) && m.cexpI(beta) == Complex(-0.5, -s) && s > 0.0
    requires d == Sub(Scale(r, m.cexpI(0.0)), Scale(1.0, m.cexpI(beta))) && 0.0 <= r <= 2.0
    ensures d == Complex(r + 0.5, s) && 0.0 <= m.cabs(d) <= 3.0
  {
    ThirdOfTurn(m, pi, beta, s);
    MagnitudeOf(m, pi, d);
    assert IsPolarOf(m, pi, d);
    hide IsTrigonometric;
    assert Scale(r, ONE) == Complex(r, 0.0);
    SquaresUpTo(r + 0.5, s);
  }

  lemma SquaresUpTo(a: real, b: real)
    requires 0.0 <= a <= 2.5 && 0.0 <= b <= 0.9
    ensures Square(a) + Square(b) <= 9.0
  {
    ProductsUpTo(a, a, 2.5, 2.5);
    ProductsUpTo(b, b, 0.9, 0.9);
  }

  lemma ProductsUpTo(a: real, b: real, x: real, y: real)
    requires 0.0 <= a <= x && 0.0 <= b <= y
    ensures a * b <= x * y
  {
    hide Product;
    ProductOrder(a, x, b, y);
    ProductMeans(a, b);
    ProductMeans(x, y);
  }
}
