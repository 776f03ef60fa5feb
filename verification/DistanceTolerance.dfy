/** The decision of a distance relay on phasors that are slightly off. */
module DistanceTolerance {
  import opened ComplexNumbers
  import opened Magnitudes
  import opened QuadrilateralZone
  import opened DistanceRelay
  import opened DistanceProperties

  /** Every voltage of `off` is within eV, and every current within eI, of that of `ph`. */
  ghost predicate IsOffBy(ph: Phasors, off: Phasors, eV: real, eI: real)
  {
    && eV >= 0.0 && eI >= 0.0
    && forall p :: Within(Sub(off.V(p), ph.V(p)), eV) && Within(Sub(off.I(p), ph.I(p)), eI)
  }

  // ----- the signals of a loop -----

  /** The compensation multiplies an error of the currents by at most 1 + 3*K0. */
  function CurrentError(eI: real): real { ZL0 / ZL1 * eI }

  lemma SubOfSub(a: Complex, b: Complex, c: Complex, d: Complex)
    ensures Sub(Sub(a, b), Sub(c, d)) == Sub(Sub(a, c), Sub(b, d))
    ensures Sub(Add(a, b), Add(c, d)) == Add(Sub(a, c), Sub(b, d))
  {}

  lemma VoltageIsOffBy(ph: Phasors, off: Phasors, loop: Loop, eV: real, eI: real)
    requires IsOffBy(ph, off, eV, eI)
    ensures Within(Sub(LoopVoltage(off, loop), LoopVoltage(ph, loop)), 2.0 * eV)
  {
    hide Within, Sub;
    match loop {
      case ToGround(p) =>
        WithinWider(Sub(off.V(p), ph.V(p)), eV, 2.0 * eV);
      case Between(p, q) =>
        DifferenceIsOffBy(ph.V(p), ph.V(q), off.V(p), off.V(q), eV);
    }
  }

  lemma DifferenceIsOffBy(a: Complex, b: Complex, a': Complex, b': Complex, e: real)
    requires Within(Sub(a', a), e) && Within(Sub(b', b), e)
    ensures Within(Sub(Sub(a', b'), Sub(a, b)), 2.0 * e)
  {
    hide Within, Sub;
    WithinNegated(b', b, e);
    SubIsAdd(Sub(a', a), b', b);
    SubOfSub(a', b', a, b);
    Triangle(Sub(a', a), Sub(b, b'), e, e);
  }

  lemma SubIsAdd(a: Complex, b: Complex, c: Complex)
    ensures Sub(a, Sub(b, c)) == Add(a, Sub(c, b))
  {}

  lemma CurrentIsOffBy(ph: Phasors, off: Phasors, loop: Loop, eV: real, eI: real)
    requires IsOffBy(ph, off, eV, eI)
    ensures Within(Sub(LoopCurrent(off, loop), LoopCurrent(ph, loop)), CurrentError(eI))
  {
    hide Within, Sub, Add, Scale;
    match loop {
      case ToGround(p) =>
        ResidualIsOffBy(ph, off, eV, eI);
        ScaledError(off.IN(), ph.IN(), 3.0 * eI);
        SubOfSub(off.I(p), Scale(K0, off.IN()), ph.I(p), Scale(K0, ph.IN()));
        Triangle(Sub(off.I(p), ph.I(p)), Sub(Scale(K0, off.IN()), Scale(K0, ph.IN())), eI, K0 * (3.0 * eI));
        assert eI + K0 * (3.0 * eI) == CurrentError(eI);
      case Between(p, q) =>
        DifferenceIsOffBy(ph.I(p), ph.I(q), off.I(p), off.I(q), eI);
        WithinWider(Sub(LoopCurrent(off, loop), LoopCurrent(ph, loop)), 2.0 * eI, CurrentError(eI));
    }
  }

  lemma ResidualIsOffBy(ph: Phasors, off: Phasors, eV: real, eI: real)
    requires IsOffBy(ph, off, eV, eI)
    ensures Within(Sub(off.IN(), ph.IN()), 3.0 * eI)
  {
    hide Within, Sub, Add;
    assert off.IA == off.I(A) && off.IB == off.I(B) && off.IC == off.I(C);
    assert ph.IA == ph.I(A) && ph.IB == ph.I(B) && ph.IC == ph.I(C);
    SubOfSub(off.IA, off.IB, ph.IA, ph.IB);
    Triangle(Sub(off.IA, ph.IA), Sub(off.IB, ph.IB), eI, eI);
    SubOfSub(Add(off.IA, off.IB), off.IC, Add(ph.IA, ph.IB), ph.IC);
    Triangle(Sub(Add(off.IA, off.IB), Add(ph.IA, ph.IB)), Sub(off.IC, ph.IC), 2.0 * eI, eI);
  }

  lemma ScaledError(a: Complex, b: Complex, e: real)
    requires Within(Sub(a, b), e)
    ensures Within(Sub(Scale(K0, a), Scale(K0, b)), K0 * e)
  {
    assert K0 > 0.0;
    hide Within, K0;
    WithinScaled(Sub(a, b), e, K0);
    ScaleOfSub(K0, a, b);
    ProductMeans(K0, e);
  }

  // ----- a loop that stays quiet -----

  lemma ApartStaysApart(ph: Phasors, off: Phasors, zone: Zone, loop: Loop, eV: real, eI: real)
    requires IsOffBy(ph, off, eV, eI)
    requires IsApart(ph, zone, loop, 2.0 * eV + MAX_OHMS * CurrentError(eI))
    ensures IsApart(off, zone, loop, 0.0)
    ensures !PicksUp(off, zone, loop)
  {
    hide Within, Exceeds, InHull, Shape, Mul, Sub, Add, LoopVoltage, LoopCurrent, PicksUp, CurrentError, IsOffBy;
    var fI := CurrentError(eI);
    var v, i, v', i' := LoopVoltage(ph, loop), LoopCurrent(ph, loop), LoopVoltage(off, loop), LoopCurrent(off, loop);
    VoltageIsOffBy(ph, off, loop, eV, eI);
    CurrentIsOffBy(ph, off, loop, eV, eI);
    forall m | InHull(m, Shape(zone, loop)) ensures Exceeds(Sub(v', Mul(Ohms(m), i')), 0.0) {
      HullIsBounded(m, zone, loop);
      BalanceIsOffBy(v, i, v', i', Ohms(m), 2.0 * eV, fI);
    }
    PickupOfSignals(off, zone, loop);
  }

  lemma BalanceIsOffBy(v: Complex, i: Complex, v': Complex, i': Complex, m: Complex, fV: real, fI: real)
    requires Within(Sub(v', v), fV) && Within(Sub(i', i), fI) && Within(m, MAX_OHMS)
    requires Exceeds(Sub(v, Mul(m, i)), fV + MAX_OHMS * fI)
    ensures Exceeds(Sub(v', Mul(m, i')), 0.0)
  {
    hide Within, Exceeds, Mul, Sub, Add;
    DropIsBounded(m, Sub(i', i), fI);
    WithinNegated(v', v, fV);
    Triangle(Sub(v, v'), Mul(m, Sub(i', i)), fV, MAX_OHMS * fI);
    MulOfSub(m, i', i);
    Rebalance(v, v', Mul(m, i), Mul(m, i'));
    ReverseTriangle(Sub(v', Mul(m, i')), Add(Sub(v, v'), Mul(m, Sub(i', i))), 0.0, fV + MAX_OHMS * fI);
  }

  lemma Rebalance(v: Complex, v': Complex, a: Complex, a': Complex)
    ensures Add(Sub(v', a'), Add(Sub(v, v'), Sub(a', a))) == Sub(v, a)
  {}

  // ----- a loop that measures a distance -----

  lemma ExceedsProduct(a: Complex, b: Complex, r: real, s: real)
    requires Exceeds(a, r) && Exceeds(b, s)
    ensures Exceeds(Mul(a, b), Product(r, s))
  {
    hide NormSq, Square, Mul, Product;
    NormSqMul(a, b);
    ProductMeans(NormSq(a), NormSq(b));
    SquareSign(r);
    SquareSign(s);
    ProductGrows(NormSq(b), Square(r), NormSq(a));
    ProductOrder(Square(r), Square(r), Square(s), NormSq(b));
    SquareOfProduct(r, s);
    ProductOrder(0.0, r, 0.0, s);
  }

  /** A quotient whose numerator and denominator are off. */
  lemma QuotientIsOffBy(v: Complex, i: Complex, v': Complex, i': Complex, m: Complex,
                        fV: real, fI: real, g: real, iMin: real, rho: real)
    requires v == Mul(m, i) && Exceeds(i, iMin) && iMin > fI && Within(m, g)
    requires Within(Sub(v', v), fV) && Within(Sub(i', i), fI)
    requires rho >= 0.0 && fV + Product(g, fI) <= Product(rho, iMin - fI)
    ensures Divide(v', i').Some? && Within(Sub(Divide(v', i').value, m), rho)
  {
    hide NormSq, Square, Mul, Product, Divide, Sub, Add;
    WithinNegated(i', i, fI);
    SumBack(i', i);
    ReverseTriangle(i', Sub(i, i'), iMin - fI, fI);
    assert i' != ZERO by { LargerThanZero(i', iMin - fI); }
    DivideSucceeds(v', i');
    QuotientTimesDivisor(v', i');
    var q := Divide(v', i').value;
    WithinProduct(m, Sub(i, i'), g, fI);
    Triangle(Sub(v', v), Mul(m, Sub(i, i')), fV, Product(g, fI));
    MulOfSub(m, i, i');
    MulOfDifference(q, m, i');
    SumOfSteps(v', Mul(m, i), Mul(m, i'));
    if Exceeds(Sub(q, m), rho) {
      ExceedsProduct(Sub(q, m), i', rho, iMin - fI);
      SquareOrder(fV + Product(g, fI), Product(rho, iMin - fI));
    }
  }

  lemma SumBack(a: Complex, b: Complex)
    ensures Add(a, Sub(b, a)) == b
  {}

  lemma LargerThanZero(z: Complex, r: real)
    requires Exceeds(z, r)
    ensures z != ZERO
  {
    hide NormSq, Square;
    NormSqZero(z);
    SquareSign(r);
  }

  lemma MulOfDifference(a: Complex, b: Complex, c: Complex)
    ensures Mul(Sub(a, b), c) == Sub(Mul(a, c), Mul(b, c))
  {}

  lemma SumOfSteps(a: Complex, b: Complex, c: Complex)
    ensures Add(Sub(a, b), Sub(b, c)) == Sub(a, c)
  {}

  // ----- a loop that measures a distance -----

  lemma BoltedDrop(ph: Phasors, loop: Loop, d: real, z: Complex, z0: Complex)
    requires IsLine(z, z0)
    requires IsBoltedFault(ph, loop, d, z, z0) && LoopCurrent(ph, loop) != ZERO
    ensures LoopVoltage(ph, loop) == Mul(Scale(d, z), LoopCurrent(ph, loop))
  {
    hide LoopVoltage, LoopCurrent, IsBoltedFault, Scale, Mul, Divide;
    DistanceIsExact(ph, loop, d, z, z0);
    LoopImpedance(ph, loop);
    QuotientTimesDivisor(LoopVoltage(ph, loop), LoopCurrent(ph, loop));
  }

  /** How far off the measured impedance of a fault at reactance X can be, in ohms. */
  function ImpedanceError(X: real, eV: real, eI: real, iMin: real): real
    requires iMin > CurrentError(eI)
  {
    (2.0 * eV + Product(1.2 * Abs(X), CurrentError(eI))) / (iMin - CurrentError(eI))
  }

  /** Impedances along a line at least twice as inductive as resistive, ahead or behind. */
  predicate IsAlongLine(m: Complex)
  {
    0.0 <= m.re <= m.im / 2.0 || (m.im / 2.0 <= m.re <= 0.0 && m.im < 0.0)
  }

  lemma ImpedanceOfLine(m: Complex)
    requires IsAlongLine(m)
    ensures Within(m, 1.2 * Abs(m.im))
  {
    var x := Abs(m.im);
    LineMagnitude(x);
    hide Square;
    SquareWithin(m.re, x / 2.0);
    SquareWithin(m.im, x);
  }

  lemma LineMagnitude(x: real)
    ensures Square(x / 2.0) + Square(x) <= Square(1.2 * x)
  {
    var s := x * x;
    assert Square(x) == s && Square(x / 2.0) == 0.25 * s && Square(1.2 * x) == 1.44 * s;
    SquareSign(x);
  }

  lemma MeasuredOffBy(ph: Phasors, off: Phasors, loop: Loop, m: Complex, eV: real, eI: real, iMin: real)
    requires IsOffBy(ph, off, eV, eI) && iMin > CurrentError(eI) && IsAlongLine(m)
    requires LoopVoltage(ph, loop) == Mul(m, LoopCurrent(ph, loop)) && Exceeds(LoopCurrent(ph, loop), iMin)
    ensures ApparentImpedance(off, loop).Some?
    ensures Within(Sub(ApparentImpedance(off, loop).value, m), ImpedanceError(m.im, eV, eI, iMin))
  {
    hide LoopVoltage, LoopCurrent, Within, Exceeds, Mul, Sub, Divide, ApparentImpedance, Product, Abs, IsAlongLine;
    hide CurrentError;
    ImpedanceOfLine(m);
    VoltageIsOffBy(ph, off, loop, eV, eI);
    CurrentIsOffBy(ph, off, loop, eV, eI);
    LoopImpedance(off, loop);
    var fI, g := CurrentError(eI), 1.2 * Abs(m.im);
    ErrorTimesCurrent(2.0 * eV + Product(g, fI), iMin - fI);
    NonNegativeError(m.im, eV, eI, iMin);
    QuotientIsOffBy(LoopVoltage(ph, loop), LoopCurrent(ph, loop), LoopVoltage(off, loop), LoopCurrent(off, loop),
                    m, 2.0 * eV, fI, g, iMin, ImpedanceError(m.im, eV, eI, iMin));
  }

  lemma ErrorTimesCurrent(a: real, b: real)
    requires b > 0.0
    ensures Product(a / b, b) == a
  {}

  lemma NonNegativeError(X: real, eV: real, eI: real, iMin: real)
    requires eV >= 0.0 && eI >= 0.0 && iMin > CurrentError(eI)
    ensures ImpedanceError(X, eV, eI, iMin) >= 0.0
  {
    hide Product;
    ProductOrder(0.0, 1.2 * Abs(X), 0.0, CurrentError(eI));
    ProductMeans(0.0, 0.0);
  }

  // ----- the decision -----

  /** A fault of type f at distance d with a margin: the loops it involves are bolted there and
      carry more than iMin, and those it does not involve are apart from the zone by more than
      errors of eV and eI amount to. */
  ghost predicate IsClearFaultAt(ph: Phasors, zone: Zone, f: Fault, d: real, z: Complex, z0: Complex,
                                 eV: real, eI: real, iMin: real)
  {
    && IsFaultType(f) && iMin > CurrentError(eI)
    && forall loop :: IsLoop(loop) ==>
         if Involves(f, loop) then IsBoltedFault(ph, loop, d, z, z0) && Exceeds(LoopCurrent(ph, loop), iMin)
         else IsApart(ph, zone, loop, 2.0 * eV + MAX_OHMS * CurrentError(eI))
  }

  lemma InsideNearLine(zone: Zone, loop: Loop, R: real, X: real, R': real, X': real, rho: real)
    requires 0.0 <= R <= X / 2.0 || (X / 2.0 <= R <= 0.0 && X < 0.0)
    requires -rho <= R' - R <= rho && -rho <= X' - X <= rho
    ensures 3.0 * rho <= X <= Reach(zone) - 3.0 * rho ==> IsInside(Impedance(R', X'), Shape(zone, loop))
    ensures X < -3.0 * rho || X > Reach(zone) + 3.0 * rho ==> !IsInside(Impedance(R', X'), Shape(zone, loop))
  {}

  lemma PickupIsOffBy(ph: Phasors, off: Phasors, zone: Zone, loop: Loop, m: Complex,
                      eV: real, eI: real, iMin: real)
    requires IsOffBy(ph, off, eV, eI) && iMin > CurrentError(eI) && IsAlongLine(m)
    requires LoopVoltage(ph, loop) == Mul(m, LoopCurrent(ph, loop)) && Exceeds(LoopCurrent(ph, loop), iMin)
    ensures var rho := ImpedanceError(m.im, eV, eI, iMin);
            && (3.0 * rho <= m.im <= Reach(zone) - 3.0 * rho ==> PicksUp(off, zone, loop))
            && (m.im < -3.0 * rho || m.im > Reach(zone) + 3.0 * rho ==> !PicksUp(off, zone, loop))
  {
    hide LoopVoltage, LoopCurrent, Within, Exceeds, ApparentImpedance, ImpedanceError, IsInside, Shape, Mul;
    hide PicksUp, Reach, CurrentError;
    MeasuredOffBy(ph, off, loop, m, eV, eI, iMin);
    var q, rho := ApparentImpedance(off, loop).value, ImpedanceError(m.im, eV, eI, iMin);
    WithinParts(Sub(q, m), rho);
    InsideNearLine(zone, loop, m.re, m.im, q.re, q.im, rho);
    PickupOfMeasured(off, zone, loop, q);
  }

  lemma FaultImpedance(d: real, z: Complex)
    requires z.im > 0.0 && 0.0 <= z.re <= z.im / 2.0
    ensures IsAlongLine(Scale(d, z)) && Scale(d, z).im == d * z.im
  {
    AlongLine(d, z.re, z.im);
  }

  /** The decision survives the errors: outside a band of three times the impedance error at
      either end of its reach, a zone decides on the phasors that are off as it should, for a
      fault of any of the ten types. */
  lemma FaultIsStillNamed(ph: Phasors, off: Phasors, zone: Zone, f: Fault, d: real, z: Complex, z0: Complex,
                          eV: real, eI: real, iMin: real)
    requires IsLine(z, z0) && z.im > 0.0 && 0.0 <= z.re <= z.im / 2.0
    requires IsOffBy(ph, off, eV, eI) && IsClearFaultAt(ph, zone, f, d, z, z0, eV, eI, iMin)
    ensures var rho := ImpedanceError(d * z.im, eV, eI, iMin);
            && (3.0 * rho <= d * z.im <= Reach(zone) - 3.0 * rho ==> Decision(off, zone) == Some(f))
            && (d * z.im < -3.0 * rho || d * z.im > Reach(zone) + 3.0 * rho ==> Decision(off, zone) == None)
  {
    hide PicksUp, IsFaultType, IsBoltedFault, LoopCurrent, Involves, Scale, Reach, IsApart, Decision, Within;
    hide Exceeds, ImpedanceError, CurrentError, IsAlongLine, LoopVoltage;
    FaultImpedance(d, z);
    var m := Scale(d, z);
    NonNegativeError(m.im, eV, eI, iMin);
    var rho := ImpedanceError(m.im, eV, eI, iMin);
    var seen := 3.0 * rho <= m.im <= Reach(zone) - 3.0 * rho;
    if seen || m.im < -3.0 * rho || m.im > Reach(zone) + 3.0 * rho {
      forall loop | IsLoop(loop) ensures PicksUp(off, zone, loop) <==> Involves(f, loop) && seen {
        if Involves(f, loop) {
          LargerThanZero(LoopCurrent(ph, loop), iMin);
          BoltedDrop(ph, loop, d, z, z0);
          PickupIsOffBy(ph, off, zone, loop, m, eV, eI, iMin);
        } else {
          ApartStaysApart(ph, off, zone, loop, eV, eI);
        }
      }
      DecisionOfPickups(off, zone, f, seen);
    }
  }

  /** Signals without a fault: every loop is apart from the zone by more than the errors. */
  ghost predicate IsHealthy(ph: Phasors, zone: Zone, eV: real, eI: real)
  {
    forall loop :: IsLoop(loop) ==> IsApart(ph, zone, loop, 2.0 * eV + MAX_OHMS * CurrentError(eI))
  }

  lemma HealthyIsSilent(ph: Phasors, off: Phasors, zone: Zone, eV: real, eI: real)
    requires IsOffBy(ph, off, eV, eI) && IsHealthy(ph, zone, eV, eI)
    ensures Decision(off, zone) == None
  {
    hide PicksUp, IsApart, Decision, IsOffBy;
    forall loop | IsLoop(loop) ensures !PicksUp(off, zone, loop) {
      ApartStaysApart(ph, off, zone, loop, eV, eI);
    }
    NoPickupNoDecision(off, zone);
  }
}
