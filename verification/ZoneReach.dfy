/** What the numbers of the relay mean: the impedance formulas of the six loops, the four
    quadrilaterals corner by corner, how far the zones reach in resistance, and what a fault
    through a resistance is reported as. */
module ZoneReach {
  import opened ComplexNumbers
  import opened Magnitudes
  import opened QuadrilateralZone
  import opened DistanceRelay
  import opened DistanceProperties

  // ----- the six impedances -----

  /** z is the one number that times i is v. */
  ghost predicate IsQuotient(z: Complex, v: Complex, i: Complex)
  {
    i != ZERO && Mul(z, i) == v
  }

  lemma QuotientIsImpedance(ph: Phasors, loop: Loop, z: Complex)
    ensures ApparentImpedance(ph, loop) == Some(z) <==> IsQuotient(z, LoopVoltage(ph, loop), LoopCurrent(ph, loop))
  {
    hide LoopVoltage, LoopCurrent, Mul, Divide, ApparentImpedance;
    var v, i := LoopVoltage(ph, loop), LoopCurrent(ph, loop);
    LoopImpedance(ph, loop);
    if i == ZERO {
      NoCurrentNoImpedance(v, i);
    } else {
      DivideSucceeds(v, i);
      QuotientTimesDivisor(v, i);
      if Mul(z, i) == v { DivideIsQuotient(v, i, z); }
    }
  }

  /** The formulas of the loops, with k the factor for which 3 times 0.318744239164 times k is
      1.06955250923 - 0.318744239164. */
  lemma ImpedanceFormulas(ph: Phasors, k: real, z: Complex)
    requires 3.0 * 0.318744239164 * k == 1.06955250923 - 0.318744239164
    ensures var residual := Scale(k, Add(Add(ph.IA, ph.IB), ph.IC));
            && (ApparentImpedance(ph, ToGround(A)) == Some(z) <==> IsQuotient(z, ph.VA, Add(ph.IA, residual)))
            && (ApparentImpedance(ph, ToGround(B)) == Some(z) <==> IsQuotient(z, ph.VB, Add(ph.IB, residual)))
            && (ApparentImpedance(ph, ToGround(C)) == Some(z) <==> IsQuotient(z, ph.VC, Add(ph.IC, residual)))
    ensures ApparentImpedance(ph, Between(A, B)) == Some(z)
            <==> IsQuotient(z, Sub(ph.VA, ph.VB), Sub(ph.IA, ph.IB))
    ensures ApparentImpedance(ph, Between(B, C)) == Some(z)
            <==> IsQuotient(z, Sub(ph.VB, ph.VC), Sub(ph.IB, ph.IC))
    ensures ApparentImpedance(ph, Between(C, A)) == Some(z)
            <==> IsQuotient(z, Sub(ph.VC, ph.VA), Sub(ph.IC, ph.IA))
  {
    assert k == K0;
    hide K0, ApparentImpedance, IsQuotient, Scale;
    forall loop
      ensures ApparentImpedance(ph, loop) == Some(z)
              <==> IsQuotient(z, LoopVoltage(ph, loop), LoopCurrent(ph, loop))
    {
      QuotientIsImpedance(ph, loop, z);
    }
  }

  // ----- the four quadrilaterals -----

  lemma ShapeCorners(loop: Loop)
    ensures Shape(Zone1, loop) == if loop.ToGround?
      then Quadrilateral(Impedance(0.0, 0.0), Impedance(-29.28321, 50.72),
                         Impedance(69.85812, 50.72), Impedance(65.8066, -26.58759))
      else Quadrilateral(Impedance(0.0, 0.0), Impedance(-29.28321, 50.72),
                         Impedance(47.45812, 50.72), Impedance(43.87107, -17.72506))
    ensures Shape(Zone2, loop) == if loop.ToGround?
      then Quadrilateral(Impedance(0.0, 0.0), Impedance(-43.92481, 76.08),
                         Impedance(71.18719, 76.08), Impedance(65.8066, -26.58759))
      else Quadrilateral(Impedance(0.0, 0.0), Impedance(-43.92481, 76.08),
                         Impedance(48.78719, 76.08), Impedance(43.87107, -17.72506))
  {}

  lemma PickupIsHull(ph: Phasors, zone: Zone, loop: Loop, z: Complex)
    requires ApparentImpedance(ph, loop) == Some(z)
    ensures PicksUp(ph, zone, loop) <==> InHull(Impedance(z.re, z.im), Shape(zone, loop))
  {
    hide ApparentImpedance, PicksUp, IsInside, InHull, Shape, StrictlyConvex, DoubledArea;
    PickupOfMeasured(ph, zone, loop, z);
    ZonesAreConvex(zone, loop);
    InsideIsHull(Impedance(z.re, z.im), Shape(zone, loop));
  }

  /** An earth loop is picked up exactly on the convex combinations of these corners. */
  lemma EarthPickup(ph: Phasors, p: Phase, z: Complex)
    requires ApparentImpedance(ph, ToGround(p)) == Some(z)
    ensures PicksUp(ph, Zone1, ToGround(p)) <==>
            InHull(Impedance(z.re, z.im), Quadrilateral(Impedance(0.0, 0.0), Impedance(-29.28321, 50.72),
                                                        Impedance(69.85812, 50.72), Impedance(65.8066, -26.58759)))
    ensures PicksUp(ph, Zone2, ToGround(p)) <==>
            InHull(Impedance(z.re, z.im), Quadrilateral(Impedance(0.0, 0.0), Impedance(-43.92481, 76.08),
                                                        Impedance(71.18719, 76.08), Impedance(65.8066, -26.58759)))
  {
    ShapeCorners(ToGround(p));
    hide ApparentImpedance, PicksUp, InHull, Shape;
    PickupIsHull(ph, Zone1, ToGround(p), z);
    PickupIsHull(ph, Zone2, ToGround(p), z);
  }

  /** A loop between two phases is picked up exactly on the convex combinations of these. */
  lemma PhasePickup(ph: Phasors, p: Phase, q: Phase, z: Complex)
    requires ApparentImpedance(ph, Between(p, q)) == Some(z)
    ensures PicksUp(ph, Zone1, Between(p, q)) <==>
            InHull(Impedance(z.re, z.im), Quadrilateral(Impedance(0.0, 0.0), Impedance(-29.28321, 50.72),
                                                        Impedance(47.45812, 50.72), Impedance(43.87107, -17.72506)))
    ensures PicksUp(ph, Zone2, Between(p, q)) <==>
            InHull(Impedance(z.re, z.im), Quadrilateral(Impedance(0.0, 0.0), Impedance(-43.92481, 76.08),
                                                        Impedance(48.78719, 76.08), Impedance(43.87107, -17.72506)))
  {
    ShapeCorners(Between(p, q));
    hide ApparentImpedance, PicksUp, InHull, Shape;
    PickupIsHull(ph, Zone1, Between(p, q), z);
    PickupIsHull(ph, Zone2, Between(p, q), z);
  }

  // ----- the resistive reach -----

  /** Where the edge from (r3, x3) down to (r4, -x4) crosses the R axis. */
  function Crossing(r3: real, x3: real, r4: real, x4: real): real
    requires x3 > 0.0 && x4 > 0.0
  {
    (r3 * x4 + r4 * x3) / (x3 + x4)
  }

  /** How far a zone reaches along the R axis: about 67.20 and 67.20 ohms for earth loops, 44.80
      and 44.80 for loops between phases. */
  function ResistiveReach(zone: Zone, earth: bool): real
  {
    match (zone, earth)
    case (Zone1, true) => Crossing(69.85812, 50.72, 65.8066, 26.58759)
    case (Zone1, false) => Crossing(47.45812, 50.72, 43.87107, 17.72506)
    case (Zone2, true) => Crossing(71.18719, 76.08, 65.8066, 26.58759)
    case (Zone2, false) => Crossing(48.78719, 76.08, 43.87107, 17.72506)
  }

  lemma ReachOnAxis(zone: Zone, loop: Loop, R: real)
    ensures RightOfEdges(Impedance(R, 0.0), Shape(zone, loop)) <==> 0.0 <= R <= ResistiveReach(zone, loop.ToGround?)
  {}

  /** A purely resistive impedance is picked up exactly up to that reach, and not behind. */
  lemma ResistancePickup(ph: Phasors, zone: Zone, loop: Loop, R: real)
    requires ApparentImpedance(ph, loop) == Some(Complex(R, 0.0))
    ensures PicksUp(ph, zone, loop) <==> 0.0 <= R <= ResistiveReach(zone, loop.ToGround?)
  {
    hide ApparentImpedance, PicksUp, IsInside, Shape, ResistiveReach, RightOfEdges;
    PickupOfMeasured(ph, zone, loop, Complex(R, 0.0));
    InsideShape(Impedance(R, 0.0), zone, loop);
    ReachOnAxis(zone, loop, R);
  }

  lemma ResistiveReaches()
    ensures 67.19 < ResistiveReach(Zone1, true) < 67.21 && 44.79 < ResistiveReach(Zone1, false) < 44.81
    ensures 67.19 < ResistiveReach(Zone2, true) < 67.21 && 44.79 < ResistiveReach(Zone2, false) < 44.81
  {}

  // ----- a fault through a resistance -----

  /** Every loop that f involves carries current and measures m, and the signals of every
      other loop are those of no impedance in the zone. */
  ghost predicate IsFaultThrough(ph: Phasors, zone: Zone, f: Fault, m: Complex)
  {
    && IsFaultType(f)
    && forall loop :: IsLoop(loop) ==>
         if Involves(f, loop) then IsQuotient(m, LoopVoltage(ph, loop), LoopCurrent(ph, loop))
         else LoopCurrent(ph, loop) == ZERO || IsApart(ph, zone, loop, 0.0)
  }

  /** A loop whose inclusion in the shape decides for the fault: the single earth loop, or a
      loop between two phases. */
  function DecidingLoop(f: Fault): Loop
  {
    if f.phases == {A} then ToGround(A)
    else if f.phases == {B} then ToGround(B)
    else if f.phases == {C} then ToGround(C)
    else if A in f.phases && B in f.phases then Between(A, B)
    else if B in f.phases then Between(B, C)
    else Between(C, A)
  }

  /** Earth loops alone name a fault only when there is one of them. */
  lemma EarthLoopsAlone(i: Pickup)
    requires !i.AB && !i.BC && !i.CA
    requires !(i.AT && !i.BT && !i.CT) && !(i.BT && !i.AT && !i.CT) && !(i.CT && !i.AT && !i.BT)
    ensures Classify(i) == None
  {}

  lemma LoopsOfFault(f: Fault)
    requires IsFaultType(f)
    ensures var a, b, c := A in f.phases, B in f.phases, C in f.phases;
            && (Involves(f, ToGround(A)) <==> a && (f.grounded || (b && c)))
            && (Involves(f, ToGround(B)) <==> b && (f.grounded || (c && a)))
            && (Involves(f, ToGround(C)) <==> c && (f.grounded || (a && b)))
            && (DecidingLoop(f).ToGround? <==> !(a && b) && !(b && c) && !(c && a))
            && IsLoop(DecidingLoop(f)) && (a || b || c)
  {
    PhasesAre(f.phases, A in f.phases, B in f.phases, C in f.phases);
  }

  /** Earth loops and phase-phase loops of f judged apart: the loop with the smaller shape
      decides. */
  lemma DecisionOfShapes(ph: Phasors, zone: Zone, f: Fault, earth: bool, phase: bool)
    requires IsFaultType(f) && (phase ==> earth)
    requires forall loop :: IsLoop(loop) ==>
               (PicksUp(ph, zone, loop) <==> Involves(f, loop) && if loop.ToGround? then earth else phase)
    ensures Decision(ph, zone) == if (if DecidingLoop(f).ToGround? then earth else phase) then Some(f) else None
  {
    hide PicksUp, IsFaultType, Decision, DecidingLoop, Classify;
    LoopsOfFault(f);
    if earth == phase {
      hide Involves;
      DecisionOfPickups(ph, zone, f, earth);
    } else if DecidingLoop(f).ToGround? {
      assert forall p, q :: p != q ==> !Involves(f, Between(p, q));
      hide Involves;
      DecisionOfPickups(ph, zone, f, earth);
    } else {
      hide Involves;
      assert PickupOf(ph, zone) == Pickup(Involves(f, ToGround(A)), Involves(f, ToGround(B)), Involves(f, ToGround(C)),
                                          false, false, false);
      EarthLoopsAlone(PickupOf(ph, zone));
      DecisionIsClassified(ph, zone);
    }
  }

  lemma DecisionIsClassified(ph: Phasors, zone: Zone)
    ensures Decision(ph, zone) == Classify(PickupOf(ph, zone))
  {}

  /** A fault through a resistance, or anywhere else, is named exactly when the impedance its
      loops measure lies in the shape that decides for its type, the one for phase-phase loops
      as soon as two phases are involved; otherwise nothing is. */
  lemma FaultThroughIsNamed(ph: Phasors, zone: Zone, f: Fault, m: Complex)
    requires IsFaultThrough(ph, zone, f, m)
    ensures Decision(ph, zone) == if InHull(Impedance(m.re, m.im), Shape(zone, DecidingLoop(f))) then Some(f) else None
  {
    hide PicksUp, IsFaultType, Involves, Decision, DecidingLoop, Classify, InHull, Shape, IsQuotient, IsApart;
    hide LoopCurrent, LoopVoltage, ApparentImpedance;
    var z := Impedance(m.re, m.im);
    LoopsOfFault(f);
    var earth, phase := InHull(z, Shape(zone, ToGround(A))), InHull(z, Shape(zone, Between(A, B)));
    forall loop | IsLoop(loop)
      ensures Shape(zone, loop) == Shape(zone, if loop.ToGround? then ToGround(A) else Between(A, B))
    {
      SameShape(zone, loop);
    }
    forall loop | IsLoop(loop)
      ensures PicksUp(ph, zone, loop) <==> Involves(f, loop) && if loop.ToGround? then earth else phase
    {
      if Involves(f, loop) {
        QuotientIsImpedance(ph, loop, m);
        PickupIsHull(ph, zone, loop, m);
      } else {
        PickupOfSignals(ph, zone, loop);
      }
    }
    if phase { HullsNested(z, zone); }
    DecisionOfShapes(ph, zone, f, earth, phase);
  }

  lemma SameShape(zone: Zone, loop: Loop)
    ensures Shape(zone, loop) == Shape(zone, if loop.ToGround? then ToGround(A) else Between(A, B))
  {}

  lemma HullsNested(z: Impedance, zone: Zone)
    requires InHull(z, Shape(zone, Between(A, B)))
    ensures InHull(z, Shape(zone, ToGround(A)))
  {
    hide InHull, IsInside, Shape, StrictlyConvex, DoubledArea;
    ZonesAreConvex(zone, ToGround(A));
    ZonesAreConvex(zone, Between(A, B));
    InsideIsHull(z, Shape(zone, ToGround(A)));
    InsideIsHull(z, Shape(zone, Between(A, B)));
    PhaseShapeWithinGroundShape(z, zone, A, B);
  }

  /** Next to the relay, where only the resistance of the fault is left to measure, a single
      phase to earth is named up to 67.2 ohms and any other fault up to 44.8. */
  lemma CloseFaultIsNamed(ph: Phasors, zone: Zone, f: Fault, R: real)
    requires IsFaultThrough(ph, zone, f, Complex(R, 0.0))
    ensures var earth := f.phases == {A} || f.phases == {B} || f.phases == {C};
            Decision(ph, zone) == if 0.0 <= R <= ResistiveReach(zone, earth) then Some(f) else None
  {
    hide IsFaultThrough, Decision, InHull, Shape, ResistiveReach, IsInside, StrictlyConvex, DoubledArea, RightOfEdges;
    var loop, z := DecidingLoop(f), Impedance(R, 0.0);
    FaultThroughIsNamed(ph, zone, f, Complex(R, 0.0));
    ZonesAreConvex(zone, loop);
    InsideIsHull(z, Shape(zone, loop));
    InsideShape(z, zone, loop);
    ReachOnAxis(zone, loop, R);
  }

  // ----- what is reported -----

  /** The reports of one turn on a bolted fault: up to 50.72 ohms of reactance it is reported
      by both zones, zone 1 first; beyond that and up to 76.08 by zone 2 alone; and behind the
      relay or farther off by none. */
  lemma ReportsOfFault(ph: Phasors, f: Fault, d: real, z: Complex, z0: Complex)
    requires IsLine(z, z0) && z.im > 0.0 && 0.0 <= z.re <= z.im / 2.0
    requires IsFaultAt(ph, Zone1, f, d, z, z0) && IsFaultAt(ph, Zone2, f, d, z, z0)
    ensures CycleReports(ph, false) ==
            if 0.0 <= d * z.im <= 50.72 then [LocalFault(f, Zone1), LocalFault(f, Zone2)]
            else if 50.72 < d * z.im <= 76.08 then [LocalFault(f, Zone2)]
            else []
  {
    hide IsFaultAt, Decision, IsLine;
    FaultIsNamed(ph, Zone1, f, d, z, z0);
    FaultIsNamed(ph, Zone2, f, d, z, z0);
  }
}
