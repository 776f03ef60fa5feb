/** What the measuring and classifying code of the distance relays achieves. */
module DistanceProperties {
  import opened ComplexNumbers
  import opened Magnitudes
  import opened QuadrilateralZone
  import opened DistanceRelay

  // ----- division -----

  lemma DivideIsQuotient(a: Complex, b: Complex, z: Complex)
    requires b != ZERO && Mul(z, b) == a
    ensures Divide(a, b) == Some(z)
  {
    hide Mul, Conj, NormSq, Scale;
    NormSqZero(b);
    ConjLaws(b, b);
    MulAssociates(z, b, Conj(b));
    ScaledBack(z, NormSq(b));
  }

  lemma ScaledBack(z: Complex, n: real)
    requires n > 0.0
    ensures Scale(1.0 / n, Mul(z, FromReal(n))) == z
  {
    assert 1.0 / n * (z.re * n) == z.re;
    assert 1.0 / n * (z.im * n) == z.im;
  }

  lemma QuotientTimesDivisor(a: Complex, b: Complex)
    requires b != ZERO
    ensures Mul(Divide(a, b).value, b) == a
  {
    hide Mul, Conj, NormSq, Scale;
    NormSqZero(b);
    var r := 1.0 / NormSq(b);
    ConjLaws(b, b);
    ScaleInside(r, Mul(a, Conj(b)), b);
    MulAssociates(a, Conj(b), b);
    MulCommutes(b, Conj(b));
    ScaledBack(a, NormSq(b));
  }

  lemma ScaleInside(r: real, a: Complex, b: Complex)
    ensures Mul(Scale(r, a), b) == Scale(r, Mul(a, b))
  {}

  lemma ProductIsZero(u: Complex, b: Complex)
    requires u != ZERO
    ensures Mul(u, b) == ZERO <==> b == ZERO
  {
    hide Mul, NormSq, Conj;
    MulUnits(u);
    if Mul(u, b) == ZERO {
      MulCommutes(u, b);
      NormSqMul(u, b);
      NormSqZero(u);
      NormSqZero(b);
      if b != ZERO { PositiveProduct(NormSq(u), NormSq(b)); }
    }
  }

  lemma PositiveProduct(a: real, b: real)
    requires a > 0.0 && b > 0.0
    ensures a * b > 0.0
  {}

  /** A common factor of voltage and current cancels. */
  lemma CommonFactorCancels(u: Complex, a: Complex, b: Complex)
    requires u != ZERO
    ensures Divide(Mul(u, a), Mul(u, b)) == Divide(a, b)
  {
    hide Mul;
    ProductIsZero(u, b);
    if b != ZERO {
      var z := Divide(a, b).value;
      QuotientTimesDivisor(a, b);
      MulAssociates(z, u, b);
      MulCommutes(z, u);
      MulAssociates(u, z, b);
      DivideIsQuotient(Mul(u, a), Mul(u, b), z);
    }
  }

  // ----- a common rotation or scaling of all phasors -----

  function Turned(u: Complex, ph: Phasors): Phasors
  {
    Phasors(Mul(u, ph.VA), Mul(u, ph.VB), Mul(u, ph.VC), Mul(u, ph.IA), Mul(u, ph.IB), Mul(u, ph.IC))
  }

  lemma ImpedanceOfTurned(u: Complex, ph: Phasors, loop: Loop)
    requires u != ZERO
    ensures ApparentImpedance(Turned(u, ph), loop) == ApparentImpedance(ph, loop)
  {
    hide Mul, Divide;
    match loop {
      case ToGround(p) =>
        MulOfGroundCurrent(u, ph, p);
        CommonFactorCancels(u, ph.V(p), Add(ph.I(p), Scale(K0, ph.IN())));
      case Between(p, q) =>
        MulOfSub(u, ph.V(p), ph.V(q));
        MulOfSub(u, ph.I(p), ph.I(q));
        CommonFactorCancels(u, Sub(ph.V(p), ph.V(q)), Sub(ph.I(p), ph.I(q)));
    }
  }

  /** A decision is drawn from the loop impedances and nothing else. */
  lemma DecisionOfImpedances(ph: Phasors, other: Phasors, zone: Zone)
    requires forall loop :: ApparentImpedance(ph, loop) == ApparentImpedance(other, loop)
    ensures Decision(ph, zone) == Decision(other, zone)
  {
    hide ApparentImpedance, Classify, IsInside;
  }

  /** No decision depends on the common phase reference or the common scale of the phasors. */
  lemma DecisionOfTurned(u: Complex, ph: Phasors, zone: Zone)
    requires u != ZERO
    ensures Decision(Turned(u, ph), zone) == Decision(ph, zone)
  {
    hide ApparentImpedance, Turned, Decision;
    forall loop: Loop ensures ApparentImpedance(Turned(u, ph), loop) == ApparentImpedance(ph, loop) {
      ImpedanceOfTurned(u, ph, loop);
    }
    DecisionOfImpedances(Turned(u, ph), ph, zone);
  }

  lemma MulOfSub(u: Complex, a: Complex, b: Complex)
    ensures Mul(u, Sub(a, b)) == Sub(Mul(u, a), Mul(u, b))
  {}

  lemma MulOfScale(u: Complex, r: real, a: Complex)
    ensures Mul(u, Scale(r, a)) == Scale(r, Mul(u, a))
  {}

  lemma MulOfGroundCurrent(u: Complex, ph: Phasors, p: Phase)
    ensures Mul(u, Add(ph.I(p), Scale(K0, ph.IN()))) == Add(Turned(u, ph).I(p), Scale(K0, Turned(u, ph).IN()))
  {
    hide Mul, Scale;
    MulDistributes(u, ph.I(p), Scale(K0, ph.IN()));
    MulOfScale(u, K0, ph.IN());
    MulDistributes(u, Add(ph.IA, ph.IB), ph.IC);
    MulDistributes(u, ph.IA, ph.IB);
  }

  // ----- the meaning of a classification -----

  predicate Involves(f: Fault, loop: Loop)
  {
    match loop
    case ToGround(p) => p in f.phases && (f.grounded || f.phases == {A, B, C})
    case Between(p, q) => p in f.phases && q in f.phases
  }

  /** The ten fault types: at least one phase, a lone phase only to earth, and the
      three-phase fault without mention of earth. */
  predicate IsFaultType(f: Fault)
  {
    && f.phases != {}
    && (f.phases == {A} || f.phases == {B} || f.phases == {C} ==> f.grounded)
    && (f.phases == {A, B, C} ==> !f.grounded)
  }

  function LoopsOf(f: Fault): Pickup
  {
    Pickup(Involves(f, ToGround(A)), Involves(f, ToGround(B)), Involves(f, ToGround(C)),
           Involves(f, Between(A, B)), Involves(f, Between(B, C)), Involves(f, Between(C, A)))
  }

  /** A fault is named exactly when the loops picked up are the loops that fault involves. */
  lemma ClassifyNamesLoops(i: Pickup, f: Fault)
    ensures Classify(i) == Some(f) <==> IsFaultType(f) && i == LoopsOf(f)
  {
    PhasesAre(f.phases, A in f.phases, B in f.phases, C in f.phases);
    PhasesAre({A}, true, false, false);
    PhasesAre({A, B, C}, true, true, true);
    assert {A, B} != {B, C} && A !in {B, C} && B !in {C, A} && C !in {A, B};
  }

  function PhaseSet(a: bool, b: bool, c: bool): set<Phase>
  {
    match (a, b, c)
    case (false, false, false) => {}
    case (true, false, false) => {A}
    case (false, true, false) => {B}
    case (false, false, true) => {C}
    case (true, true, false) => {A, B}
    case (false, true, true) => {B, C}
    case (true, false, true) => {C, A}
    case (true, true, true) => {A, B, C}
  }

  lemma PhasesAre(s: set<Phase>, a: bool, b: bool, c: bool)
    requires a == (A in s) && b == (B in s) && c == (C in s)
    ensures s == PhaseSet(a, b, c)
  {
    forall p: Phase ensures p in s <==> p in PhaseSet(a, b, c) {
      match p case A => case B => case C =>
    }
  }

  /** A loop between a phase and itself is no loop. */
  predicate IsLoop(loop: Loop)
  {
    loop.Between? ==> loop.p != loop.q
  }

  /** Exchanging the ends of a phase-phase loop negates both differences. */
  lemma LoopEndsExchange(ph: Phasors, zone: Zone, p: Phase, q: Phase)
    ensures PicksUp(ph, zone, Between(p, q)) == PicksUp(ph, zone, Between(q, p))
  {
    hide Divide, IsInside, Mul;
    var a, b := Sub(ph.V(q), ph.V(p)), Sub(ph.I(q), ph.I(p));
    NegatedDifference(ph.V(p), ph.V(q));
    NegatedDifference(ph.I(p), ph.I(q));
    CommonFactorCancels(MINUS_ONE, a, b);
  }

  lemma NegatedDifference(a: Complex, b: Complex)
    ensures Sub(a, b) == Mul(MINUS_ONE, Sub(b, a))
  {}

  /** A zone decides for a fault exactly when the loops it picks up are those of the fault. */
  lemma DecisionMeaning(ph: Phasors, zone: Zone, f: Fault)
    ensures Decision(ph, zone) == Some(f) <==>
            IsFaultType(f) && forall loop :: IsLoop(loop) ==> LoopAgrees(ph, zone, f, loop)
  {
    hide Classify, PicksUp, IsFaultType;
    ClassifyNamesLoops(PickupOf(ph, zone), f);
    forall p: Phase, q: Phase
      ensures PicksUp(ph, zone, Between(p, q)) == PicksUp(ph, zone, Between(q, p))
    {
      LoopEndsExchange(ph, zone, p, q);
    }
    if PickupOf(ph, zone) == LoopsOf(f) {
      forall loop | IsLoop(loop) ensures LoopAgrees(ph, zone, f, loop) {
        match loop {
          case ToGround(A) => case ToGround(B) => case ToGround(C) =>
          case Between(A, B) => case Between(B, C) => case Between(C, A) =>
          case Between(B, A) => assert PicksUp(ph, zone, Between(A, B)) == PicksUp(ph, zone, loop);
          case Between(C, B) => assert PicksUp(ph, zone, Between(B, C)) == PicksUp(ph, zone, loop);
          case Between(A, C) => assert PicksUp(ph, zone, Between(C, A)) == PicksUp(ph, zone, loop);
          case _ =>
        }
      }
    }
    if forall loop :: IsLoop(loop) ==> LoopAgrees(ph, zone, f, loop) {
      assert LoopAgrees(ph, zone, f, ToGround(A)) && LoopAgrees(ph, zone, f, ToGround(B))
             && LoopAgrees(ph, zone, f, ToGround(C)) && LoopAgrees(ph, zone, f, Between(A, B))
             && LoopAgrees(ph, zone, f, Between(B, C)) && LoopAgrees(ph, zone, f, Between(C, A));
    }
  }

  // ----- relabelling the phases -----

  datatype Relabelling = Relabelling(a: Phase, b: Phase, c: Phase)
  {
    predicate Valid() { a != b && b != c && c != a }

    function At(p: Phase): Phase
    {
      match p case A => a case B => b case C => c
    }

    function Signals(ph: Phasors): Phasors
    {
      Phasors(ph.V(a), ph.V(b), ph.V(c), ph.I(a), ph.I(b), ph.I(c))
    }

    function OnLoop(loop: Loop): Loop
    {
      match loop
      case ToGround(p) => ToGround(At(p))
      case Between(p, q) => Between(At(p), At(q))
    }

    function OnFault(f: Fault): Fault
    {
      Fault(set p | p in f.phases :: At(p), f.grounded)
    }
  }

  lemma PickupOfRelabelled(s: Relabelling, ph: Phasors, zone: Zone, loop: Loop)
    requires s.Valid()
    ensures PicksUp(s.Signals(ph), zone, loop) == PicksUp(ph, zone, s.OnLoop(loop))
  {
    hide Divide, IsInside, Scale;
    assert s.Signals(ph).IN() == ph.IN();
  }

  lemma PhasesOfRelabelled(s: Relabelling, f: Fault)
    requires s.Valid()
    ensures forall p :: p in f.phases <==> s.At(p) in s.OnFault(f).phases
  {
    forall p: Phase ensures p in f.phases <==> s.At(p) in s.OnFault(f).phases {
      if p in f.phases { assert s.At(p) in s.OnFault(f).phases; }
    }
  }

  lemma FaultTypeByMembers(f: Fault)
    ensures var a, b, c := A in f.phases, B in f.phases, C in f.phases;
            && (f.phases == {A, B, C} <==> a && b && c)
            && (IsFaultType(f) <==>
                && (a || b || c)
                && (a && b && c ==> !f.grounded)
                && ((a && !b && !c) || (b && !a && !c) || (c && !a && !b) ==> f.grounded))
  {
    PhasesAre(f.phases, A in f.phases, B in f.phases, C in f.phases);
  }

  lemma FaultTypeOfRelabelled(s: Relabelling, f: Fault)
    requires s.Valid()
    ensures IsFaultType(f) == IsFaultType(s.OnFault(f))
    ensures f.phases == {A, B, C} <==> s.OnFault(f).phases == {A, B, C}
  {
    hide IsFaultType;
    PhasesOfRelabelled(s, f);
    FaultTypeByMembers(f);
    FaultTypeByMembers(s.OnFault(f));
    var g := s.OnFault(f);
    assert (A in f.phases) == (s.a in g.phases) by { assert s.At(A) == s.a; }
    assert (B in f.phases) == (s.b in g.phases) by { assert s.At(B) == s.b; }
    assert (C in f.phases) == (s.c in g.phases) by { assert s.At(C) == s.c; }
    hide Relabelling.OnFault;
  }

  lemma FaultOfRelabelled(s: Relabelling, ph: Phasors, zone: Zone, f: Fault)
    requires s.Valid()
    ensures Decision(s.Signals(ph), zone) == Some(f) <==> Decision(ph, zone) == Some(s.OnFault(f))
  {
    hide Decision, PicksUp, IsFaultType;
    DecisionMeaning(s.Signals(ph), zone, f);
    DecisionMeaning(ph, zone, s.OnFault(f));
    FaultTypeOfRelabelled(s, f);
    forall loop ensures LoopAgrees(s.Signals(ph), zone, f, loop) == LoopAgrees(ph, zone, s.OnFault(f), s.OnLoop(loop)) {
      PickupOfRelabelled(s, ph, zone, loop);
      InvolvesOfRelabelled(s, f, loop);
    }
    if Decision(s.Signals(ph), zone) == Some(f) {
      forall loop | IsLoop(loop) ensures LoopAgrees(ph, zone, s.OnFault(f), loop) {
        LoopComesFrom(s, loop);
        assert LoopAgrees(s.Signals(ph), zone, f, Inverse(s).OnLoop(loop));
      }
    }
    if Decision(ph, zone) == Some(s.OnFault(f)) {
      forall loop | IsLoop(loop) ensures LoopAgrees(s.Signals(ph), zone, f, loop) {
        assert IsLoop(s.OnLoop(loop));
        assert LoopAgrees(ph, zone, s.OnFault(f), s.OnLoop(loop));
      }
    }
  }

  lemma SilenceOfRelabelled(s: Relabelling, ph: Phasors, zone: Zone)
    requires s.Valid()
    ensures Decision(s.Signals(ph), zone).None? <==> Decision(ph, zone).None?
  {
    hide Decision, Relabelling.OnFault;
    var signals := s.Signals(ph);
    if Decision(signals, zone).Some? {
      FaultOfRelabelled(s, ph, zone, Decision(signals, zone).value);
    }
    if Decision(ph, zone).Some? {
      assert Inverse(s).Signals(signals) == ph;
      FaultOfRelabelled(Inverse(s), signals, zone, Decision(ph, zone).value);
    }
  }

  /** Renaming the phases of the signals renames the phases of the decision and does nothing
      else, for all six permutations and in both zones: the fault is the renamed one or none,
      and a turn of the relay's loop trips in the same cases. */
  lemma DecisionOfRelabelled(s: Relabelling, ph: Phasors, zone: Zone, f: Fault, remote: bool)
    requires s.Valid()
    ensures Decision(s.Signals(ph), zone) == Some(f) <==> Decision(ph, zone) == Some(s.OnFault(f))
    ensures Decision(s.Signals(ph), zone).None? <==> Decision(ph, zone).None?
    ensures CycleReports(s.Signals(ph), remote) != [] <==> CycleReports(ph, remote) != []
  {
    hide Decision, Relabelling.OnFault;
    FaultOfRelabelled(s, ph, zone, f);
    SilenceOfRelabelled(s, ph, Zone1);
    SilenceOfRelabelled(s, ph, Zone2);
  }

  predicate LoopAgrees(ph: Phasors, zone: Zone, f: Fault, loop: Loop)
  {
    PicksUp(ph, zone, loop) == Involves(f, loop)
  }

  lemma InvolvesOfRelabelled(s: Relabelling, f: Fault, loop: Loop)
    requires s.Valid()
    ensures Involves(f, loop) == Involves(s.OnFault(f), s.OnLoop(loop))
  {
    hide IsFaultType, Involves, Relabelling.OnFault, Relabelling.OnLoop, Relabelling.At;
    PhasesOfRelabelled(s, f);
    FaultTypeOfRelabelled(s, f);
    GroundedOfRelabelled(s, f);
    SameInvolvement(s, f, s.OnFault(f), loop);
  }

  lemma GroundedOfRelabelled(s: Relabelling, f: Fault)
    ensures s.OnFault(f).grounded == f.grounded
  {}

  lemma SameInvolvement(s: Relabelling, f: Fault, g: Fault, loop: Loop)
    requires g.grounded == f.grounded && (f.phases == {A, B, C} <==> g.phases == {A, B, C})
    requires forall p :: p in f.phases <==> s.At(p) in g.phases
    ensures Involves(f, loop) == Involves(g, s.OnLoop(loop))
  {
    hide Relabelling.At;
  }

  lemma LoopComesFrom(s: Relabelling, loop: Loop)
    requires s.Valid() && IsLoop(loop)
    ensures var l := Inverse(s).OnLoop(loop); IsLoop(l) && s.OnLoop(l) == loop
  {}

  function Inverse(s: Relabelling): Relabelling
    requires s.Valid()
  {
    Relabelling(if s.a == A then A else if s.b == A then B else C,
                if s.a == B then A else if s.b == B then B else C,
                if s.a == C then A else if s.b == C then B else C)
  }

  // ----- distance -----

  /** A line whose impedances of positive and zero sequence, z and z0, are to each other as
      the 0.318744239164 and 1.06955250923 ohm per km of the protected line. */
  ghost predicate IsLine(z: Complex, z0: Complex)
  {
    Scale(0.318744239164, z0) == Scale(1.06955250923, z)
  }

  lemma LineRatio(z: Complex, z0: Complex)
    ensures IsLine(z, z0) <==> z0 == Scale(ZL0 / ZL1, z)
  {
    assert ZL0 / ZL1 * ZL1 == ZL0;
    RatioOf(z.re, z0.re, ZL0, ZL1);
    RatioOf(z.im, z0.im, ZL0, ZL1);
  }

  lemma RatioOf(a: real, b: real, p: real, q: real)
    requires q > 0.0
    ensures q * b == p * a <==> b == p / q * a
  {
    assert p / q * a == p * a / q;
    assert q * b / q == b;
  }

  /** The voltages at the relay when loop `loop` is shorted at distance d on a line of
      impedances z and z0 per unit length, whatever the load and source currents are. */
  predicate IsBoltedFault(ph: Phasors, loop: Loop, d: real, z: Complex, z0: Complex)
  {
    match loop
    case ToGround(p) =>
      var residual := Add(Add(ph.IA, ph.IB), ph.IC);
      ph.V(p) == Scale(d, Add(Mul(z, ph.I(p)), Mul(Sub(z0, z), Scale(1.0 / 3.0, residual))))
    case Between(p, q) =>
      Sub(ph.V(p), ph.V(q)) == Scale(d, Mul(z, Sub(ph.I(p), ph.I(q))))
  }

  function LoopCurrent(ph: Phasors, loop: Loop): Complex
  {
    match loop
    case ToGround(p) => Add(ph.I(p), Scale(K0, ph.IN()))
    case Between(p, q) => Sub(ph.I(p), ph.I(q))
  }

  /** The compensated measurement is exact: it is d times the line impedance, when the line
      is the protected one or has its ratio of impedances. */
  lemma DistanceIsExact(ph: Phasors, loop: Loop, d: real, z: Complex, z0: Complex)
    requires IsLine(z, z0)
    requires IsBoltedFault(ph, loop, d, z, z0) && LoopCurrent(ph, loop) != ZERO
    ensures ApparentImpedance(ph, loop) == Some(Scale(d, z))
  {
    hide Divide;
    match loop {
      case ToGround(p) =>
        Compensation(z, z0, ph.I(p), ph.IN());
        ScaleInside(d, z, LoopCurrent(ph, loop));
        DivideIsQuotient(ph.V(p), LoopCurrent(ph, loop), Scale(d, z));
      case Between(p, q) =>
        ScaleInside(d, z, LoopCurrent(ph, loop));
        DivideIsQuotient(Sub(ph.V(p), ph.V(q)), LoopCurrent(ph, loop), Scale(d, z));
    }
  }

  lemma Compensation(z: Complex, z0: Complex, i: Complex, n: Complex)
    requires IsLine(z, z0)
    ensures Add(Mul(z, i), Mul(Sub(z0, z), Scale(1.0 / 3.0, n))) == Mul(z, Add(i, Scale(K0, n)))
  {
    LineRatio(z, z0);
    hide IsLine;
    var r := ZL0 / ZL1;
    assert K0 == (r - 1.0) / 3.0;
    hide K0;
    ResidualTerm(z, r, n);
    MulDistributes(z, i, Scale(K0, n));
  }

  lemma ResidualTerm(z: Complex, r: real, n: Complex)
    ensures Mul(Sub(Scale(r, z), z), Scale(1.0 / 3.0, n)) == Mul(z, Scale((r - 1.0) / 3.0, n))
  {}

  /** Where a zone ends along a line: its top edge. */
  function Reach(zone: Zone): real
  {
    match zone case Zone1 => 50.72 case Zone2 => 76.08
  }

  /** On a line at least twice as inductive as resistive, a bolted fault is picked up
      exactly from the relay up to the reach of the zone, and never behind the relay. */
  lemma ReachIsExact(ph: Phasors, zone: Zone, loop: Loop, d: real, z: Complex, z0: Complex)
    requires IsLine(z, z0)
    requires IsBoltedFault(ph, loop, d, z, z0) && LoopCurrent(ph, loop) != ZERO
    requires z.im > 0.0 && 0.0 <= z.re <= z.im / 2.0
    ensures PicksUp(ph, zone, loop) <==> 0.0 <= d * z.im <= Reach(zone)
  {
    hide IsInside, LoopCurrent, IsBoltedFault, ApparentImpedance, PicksUp, Shape;
    DistanceIsExact(ph, loop, d, z, z0);
    PickupOfMeasured(ph, zone, loop, Scale(d, z));
    AlongLine(d, z.re, z.im);
    var m := Scale(d, z);
    assert m.re == d * z.re && m.im == d * z.im;
    assert 0.0 <= m.re <= m.im / 2.0 || (m.im / 2.0 <= m.re <= 0.0 && m.im < 0.0);
    InsideAlongLine(zone, loop, m.re, m.im);
    assert PicksUp(ph, zone, loop) == IsInside(Impedance(m.re, m.im), Shape(zone, loop));
    assert PicksUp(ph, zone, loop) <==> 0.0 <= m.im <= Reach(zone);
  }

  lemma PickupOfMeasured(ph: Phasors, zone: Zone, loop: Loop, m: Complex)
    requires ApparentImpedance(ph, loop) == Some(m)
    ensures PicksUp(ph, zone, loop) == IsInside(Impedance(m.re, m.im), Shape(zone, loop))
  {
    hide ApparentImpedance, IsInside, Shape;
  }

  lemma AlongLine(d: real, r: real, x: real)
    requires x > 0.0 && 0.0 <= r <= x / 2.0
    ensures 0.0 <= d * r <= d * x / 2.0 || (d * x / 2.0 <= d * r <= 0.0 && d * x < 0.0)
  {
    if d >= 0.0 {
      Monotone(d, 0.0, r);
      Monotone(d, r, x / 2.0);
    } else {
      Monotone(-d, 0.0, r);
      Monotone(-d, r, x / 2.0);
      assert d * x < 0.0;
    }
  }

  lemma Monotone(d: real, a: real, b: real)
    requires d >= 0.0 && a <= b
    ensures d * a <= d * b
  {}

  lemma InsideAlongLine(zone: Zone, loop: Loop, R: real, X: real)
    requires 0.0 <= R <= X / 2.0 || (X / 2.0 <= R <= 0.0 && X < 0.0)
    ensures IsInside(Impedance(R, X), Shape(zone, loop)) <==> 0.0 <= X <= Reach(zone)
  {}

  function LoopVoltage(ph: Phasors, loop: Loop): Complex
  {
    match loop
    case ToGround(p) => ph.V(p)
    case Between(p, q) => Sub(ph.V(p), ph.V(q))
  }

  lemma LoopImpedance(ph: Phasors, loop: Loop)
    ensures ApparentImpedance(ph, loop) == Divide(LoopVoltage(ph, loop), LoopCurrent(ph, loop))
  {}

  function Ohms(m: Impedance): Complex { Complex(m.R, m.X) }

  /** The signals of a loop are apart from a zone: whatever impedance of the zone's shape the
      loop current is multiplied by, the loop voltage differs by more than e. */
  ghost predicate IsApart(ph: Phasors, zone: Zone, loop: Loop, e: real)
  {
    forall m :: InHull(m, Shape(zone, loop)) ==>
      Exceeds(Sub(LoopVoltage(ph, loop), Mul(Ohms(m), LoopCurrent(ph, loop))), e)
  }

  lemma ExceedsNothing(z: Complex)
    ensures Exceeds(z, 0.0) <==> z != ZERO
  {
    hide NormSq, Square;
    NormSqZero(z);
    SquareSign(0.0);
  }

  lemma DifferenceIsZero(a: Complex, b: Complex)
    ensures Sub(a, b) == ZERO <==> a == b
  {}

  /** The pickup in terms of the signals alone. */
  lemma PickupOfSignals(ph: Phasors, zone: Zone, loop: Loop)
    ensures PicksUp(ph, zone, loop) <==> LoopCurrent(ph, loop) != ZERO && !IsApart(ph, zone, loop, 0.0)
  {
    hide ApparentImpedance, LoopVoltage, LoopCurrent, IsInside, InHull, Shape, Mul, Exceeds, Sub, DoubledArea;
    hide StrictlyConvex, Divide;
    var v, i, q := LoopVoltage(ph, loop), LoopCurrent(ph, loop), Shape(zone, loop);
    LoopImpedance(ph, loop);
    ZonesAreConvex(zone, loop);
    if i != ZERO {
      DivideSucceeds(v, i);
      QuotientTimesDivisor(v, i);
      var z := Divide(v, i).value;
      var own := Impedance(z.re, z.im);
      PickupOfMeasured(ph, zone, loop, z);
      InsideIsHull(own, q);
      ExceedsNothing(Sub(v, Mul(Ohms(own), i)));
      DifferenceIsZero(v, Mul(Ohms(own), i));
      forall m | InHull(m, q) && !InHull(own, q) ensures Exceeds(Sub(v, Mul(Ohms(m), i)), 0.0) {
        if v == Mul(Ohms(m), i) { DivideIsQuotient(v, i, Ohms(m)); }
        ExceedsNothing(Sub(v, Mul(Ohms(m), i)));
        DifferenceIsZero(v, Mul(Ohms(m), i));
      }
    } else {
      NoCurrentNoImpedance(v, i);
    }
  }

  lemma DivideSucceeds(a: Complex, b: Complex)
    requires b != ZERO
    ensures Divide(a, b).Some?
  {}

  lemma NoCurrentNoImpedance(a: Complex, b: Complex)
    requires b == ZERO
    ensures Divide(a, b).None?
  {}

  /** A fault of type f at distance d: the loops it involves are bolted there and carry
      current, and the signals of every other loop are those of no impedance in the zone. */
  ghost predicate IsFaultAt(ph: Phasors, zone: Zone, f: Fault, d: real, z: Complex, z0: Complex)
  {
    && IsFaultType(f)
    && forall loop :: IsLoop(loop) ==>
         if Involves(f, loop) then IsBoltedFault(ph, loop, d, z, z0) && LoopCurrent(ph, loop) != ZERO
         else LoopCurrent(ph, loop) == ZERO || IsApart(ph, zone, loop, 0.0)
  }

  /** The decision is right: a fault of any of the ten types is named by a zone exactly when
      it lies within the reach of the zone, and otherwise nothing is. */
  lemma FaultIsNamed(ph: Phasors, zone: Zone, f: Fault, d: real, z: Complex, z0: Complex)
    requires IsLine(z, z0) && z.im > 0.0 && 0.0 <= z.re <= z.im / 2.0
    requires IsFaultAt(ph, zone, f, d, z, z0)
    ensures Decision(ph, zone) == if 0.0 <= d * z.im <= Reach(zone) then Some(f) else None
  {
    hide PicksUp, IsFaultType, IsBoltedFault, LoopCurrent, Involves, Scale, Reach, IsApart, Decision;
    forall loop | IsLoop(loop)
      ensures PicksUp(ph, zone, loop) <==> Involves(f, loop) && 0.0 <= d * z.im <= Reach(zone)
    {
      if Involves(f, loop) {
        ReachIsExact(ph, zone, loop, d, z, z0);
      } else {
        PickupOfSignals(ph, zone, loop);
      }
    }
    DecisionOfPickups(ph, zone, f, 0.0 <= d * z.im <= Reach(zone));
  }

  /** Pickups of just the loops of a fault name it, and no pickups name nothing. */
  lemma DecisionOfPickups(ph: Phasors, zone: Zone, f: Fault, seen: bool)
    requires IsFaultType(f)
    requires forall loop :: IsLoop(loop) ==> (PicksUp(ph, zone, loop) <==> Involves(f, loop) && seen)
    ensures Decision(ph, zone) == if seen then Some(f) else None
  {
    hide PicksUp, IsFaultType, Involves, Decision;
    if seen {
      DecisionMeaning(ph, zone, f);
    } else {
      NoPickupNoDecision(ph, zone);
    }
  }

  // ----- loops that a fault does not involve -----

  /** No impedance of either zone exceeds this magnitude. */
  const MAX_OHMS: real := 104.2

  lemma HullWithinBox(m: Impedance, zone: Zone, loop: Loop)
    requires InHull(m, Shape(zone, loop))
    ensures -71.19 <= m.R <= 71.19 && -76.08 <= m.X <= 76.08
  {
    InsideOfHull(m, zone, loop);
    hide InHull;
    BoxOfEdges(m, zone, loop);
  }

  lemma InsideOfHull(m: Impedance, zone: Zone, loop: Loop)
    requires InHull(m, Shape(zone, loop))
    ensures RightOfEdges(m, Shape(zone, loop))
  {
    hide IsInside, InHull, StrictlyConvex, DoubledArea, RightOfEdges, Shape;
    ZonesAreConvex(zone, loop);
    InsideIsHull(m, Shape(zone, loop));
    InsideShape(m, zone, loop);
  }

  lemma BoxOfEdges(m: Impedance, zone: Zone, loop: Loop)
    requires RightOfEdges(m, Shape(zone, loop))
    ensures -71.19 <= m.R <= 71.19 && -76.08 <= m.X <= 76.08
  {}

  lemma SquareWithin(a: real, b: real)
    requires -b <= a <= b
    ensures Square(a) <= Square(b)
  {
    hide Square;
    if a >= 0.0 {
      SquareOrder(a, b);
    } else {
      SquareOfNegated(a);
      SquareOrder(-a, b);
    }
  }

  lemma HullIsBounded(m: Impedance, zone: Zone, loop: Loop)
    requires InHull(m, Shape(zone, loop))
    ensures NormSq(Ohms(m)) <= 10857.0 && Within(Ohms(m), MAX_OHMS)
  {
    HullWithinBox(m, zone, loop);
    hide InHull, Square;
    SquareWithin(m.R, 71.19);
    SquareWithin(m.X, 76.08);
    BoxDiagonal(71.19, 76.08, MAX_OHMS);
  }

  lemma BoxDiagonal(r: real, x: real, z: real)
    requires r == 71.19 && x == 76.08 && z == 104.2
    ensures Square(r) + Square(x) <= 10857.0 <= Square(z)
  {}

  /** A loop whose voltage is large for its current is apart from both zones. */
  lemma FarLoopIsApart(ph: Phasors, zone: Zone, loop: Loop, i: real, e: real)
    requires e >= 0.0 && Within(LoopCurrent(ph, loop), i) && Exceeds(LoopVoltage(ph, loop), e + MAX_OHMS * i)
    ensures IsApart(ph, zone, loop, e)
  {
    hide Within, Exceeds, InHull, Shape, Mul, LoopVoltage, LoopCurrent, Product, Sub, Add;
    forall m | InHull(m, Shape(zone, loop))
      ensures Exceeds(Sub(LoopVoltage(ph, loop), Mul(Ohms(m), LoopCurrent(ph, loop))), e)
    {
      var v, drop := LoopVoltage(ph, loop), Mul(Ohms(m), LoopCurrent(ph, loop));
      HullIsBounded(m, zone, loop);
      DropIsBounded(Ohms(m), LoopCurrent(ph, loop), i);
      SumOfDifference(v, drop);
      ReverseTriangle(Sub(v, drop), drop, e, MAX_OHMS * i);
    }
  }

  lemma DropIsBounded(m: Complex, current: Complex, i: real)
    requires Within(m, MAX_OHMS) && Within(current, i)
    ensures Within(Mul(m, current), MAX_OHMS * i)
  {
    hide NormSq, Square, Mul;
    WithinProduct(m, current, MAX_OHMS, i);
  }

  lemma SumOfDifference(a: Complex, b: Complex)
    ensures Add(Sub(a, b), b) == a
  {}

  /** A loop without current, or with a voltage beyond both zones for its current. */
  predicate IsFar(ph: Phasors, loop: Loop)
  {
    LoopCurrent(ph, loop) == ZERO || NormSq(LoopVoltage(ph, loop)) > 10857.0 * NormSq(LoopCurrent(ph, loop))
  }

  lemma FarLoopIsQuiet(ph: Phasors, zone: Zone, loop: Loop)
    requires IsFar(ph, loop)
    ensures LoopCurrent(ph, loop) == ZERO || IsApart(ph, zone, loop, 0.0)
    ensures !PicksUp(ph, zone, loop)
  {
    hide Within, Exceeds, InHull, Shape, Mul, LoopVoltage, LoopCurrent, NormSq, Sub, PicksUp;
    var v, i := LoopVoltage(ph, loop), LoopCurrent(ph, loop);
    forall m | i != ZERO && InHull(m, Shape(zone, loop)) ensures Exceeds(Sub(v, Mul(Ohms(m), i)), 0.0) {
      HullIsBounded(m, zone, loop);
      NormSqMul(Ohms(m), i);
      NormSqZero(i);
      Monotone(NormSq(i), NormSq(Ohms(m)), 10857.0);
      DifferenceIsZero(v, Mul(Ohms(m), i));
      ExceedsNothing(Sub(v, Mul(Ohms(m), i)));
    }
    PickupOfSignals(ph, zone, loop);
  }

  /** A fault whose uninvolved loops are all far off is one in the eyes of both zones. */
  lemma FaultAmongFarLoops(ph: Phasors, zone: Zone, f: Fault, d: real, z: Complex, z0: Complex)
    requires IsFaultType(f)
    requires forall loop :: IsLoop(loop) ==>
               if Involves(f, loop) then IsBoltedFault(ph, loop, d, z, z0) && LoopCurrent(ph, loop) != ZERO
               else IsFar(ph, loop)
    ensures IsFaultAt(ph, zone, f, d, z, z0)
  {
    hide IsFaultType, IsApart, IsFar, IsBoltedFault, Involves, LoopCurrent;
    forall loop | IsLoop(loop) && !Involves(f, loop)
      ensures LoopCurrent(ph, loop) == ZERO || IsApart(ph, zone, loop, 0.0)
    {
      FarLoopIsQuiet(ph, zone, loop);
    }
  }

  lemma NoPickupNoDecision(ph: Phasors, zone: Zone)
    requires forall loop :: IsLoop(loop) ==> !PicksUp(ph, zone, loop)
    ensures Decision(ph, zone) == None
  {
    hide PicksUp;
    assert IsLoop(ToGround(A)) && IsLoop(ToGround(B)) && IsLoop(ToGround(C));
    assert IsLoop(Between(A, B)) && IsLoop(Between(B, C)) && IsLoop(Between(C, A));
  }

  /** Voltages that are the drop of their own currents along the line, with no residual
      current and three different currents, are those of a three-phase fault. */
  lemma BalancedFault(ph: Phasors, zone: Zone, d: real, z: Complex, z0: Complex)
    requires ph.IN() == ZERO && forall p :: ph.V(p) == Scale(d, Mul(z, ph.I(p))) && ph.I(p) != ZERO
    requires ph.IA != ph.IB && ph.IB != ph.IC && ph.IC != ph.IA
    ensures IsFaultAt(ph, zone, Fault({A, B, C}, false), d, z, z0)
  {
    hide Mul, IsApart, K0;
    forall loop | IsLoop(loop)
      ensures IsBoltedFault(ph, loop, d, z, z0) && LoopCurrent(ph, loop) != ZERO
      ensures Involves(Fault({A, B, C}, false), loop)
    {
      match loop {
        case ToGround(p) =>
          NoResidual(z, z0, ph.I(p));
        case Between(p, q) =>
          assert ph.I(p) != ph.I(q);
          MulOfSub(z, ph.I(p), ph.I(q));
          ScaleOfSub(d, Mul(z, ph.I(p)), Mul(z, ph.I(q)));
      }
    }
  }

  lemma NoResidual(z: Complex, z0: Complex, i: Complex)
    ensures Add(Mul(z, i), Mul(Sub(z0, z), Scale(1.0 / 3.0, ZERO))) == Mul(z, i)
    ensures Add(i, Scale(K0, ZERO)) == i
  {
    hide Mul, Scale, K0;
    ScaleOfZero(1.0 / 3.0);
    ScaleOfZero(K0);
    MulUnits(Sub(z0, z));
  }

  lemma ScaleOfZero(r: real)
    ensures Scale(r, ZERO) == ZERO
  {}

  lemma ScaleOfSub(r: real, a: Complex, b: Complex)
    ensures Scale(r, Sub(a, b)) == Sub(Scale(r, a), Scale(r, b))
  {}

  // ----- the zones -----

  lemma ZonesAreConvex(zone: Zone, loop: Loop)
    ensures StrictlyConvex(Shape(zone, loop))
    ensures DoubledArea(Shape(zone, loop)) < 0.0
  {}

  /** All four products of a clockwise shape have the sign of its interior. */
  predicate RightOfEdges(z: Impedance, q: Quadrilateral)
  {
    && VectorProduct(q.p1, q.p2, z) <= 0.0
    && VectorProduct(q.p2, q.p3, z) <= 0.0
    && VectorProduct(q.p3, q.p4, z) <= 0.0
    && VectorProduct(q.p4, q.p1, z) <= 0.0
  }

  lemma InsideShape(z: Impedance, zone: Zone, loop: Loop)
    ensures IsInside(z, Shape(zone, loop)) <==> RightOfEdges(z, Shape(zone, loop))
  {
    ZonesAreConvex(zone, loop);
    hide VectorProduct, DoubledArea;
    var q := Shape(zone, loop);
    if IsInside(z, q) { OneDisjunctIsUnreachable(z, q); }
  }

  /** In each zone the shape for phase-phase loops lies within the shape for earth loops. */
  lemma PhaseShapeWithinGroundShape(z: Impedance, zone: Zone, p: Phase, q: Phase)
    requires IsInside(z, Shape(zone, Between(p, q)))
    ensures IsInside(z, Shape(zone, ToGround(p)))
  {
    hide IsInside;
    InsideShape(z, zone, Between(p, q));
    InsideShape(z, zone, ToGround(p));
    if zone == Zone1 { Phase1InGround1(z); } else { Phase2InGround2(z); }
  }

  lemma Phase1InGround1(z: Impedance)
    requires RightOfEdges(z, PHASE1)
    ensures RightOfEdges(z, GROUND1)
  {}

  lemma Phase2InGround2(z: Impedance)
    requires RightOfEdges(z, PHASE2)
    ensures RightOfEdges(z, GROUND2)
  {}

  /** Zone 1 lies in zone 2 only up to rounding: of the four edges of zone 2, three hold
      exactly on all of zone 1, and the first is missed by at most 0.0003. */
  lemma Zone1AlmostWithinZone2(z: Impedance, loop: Loop)
    requires IsInside(z, Shape(Zone1, loop))
    ensures var q := Shape(Zone2, loop);
            && VectorProduct(q.p1, q.p2, z) <= 0.0003
            && VectorProduct(q.p2, q.p3, z) <= 0.0
            && VectorProduct(q.p3, q.p4, z) <= 0.0
            && VectorProduct(q.p4, q.p1, z) <= 0.0
            && (IsInside(z, q) <==> VectorProduct(q.p1, q.p2, z) <= 0.0)
  {
    hide IsInside;
    InsideShape(z, Zone1, loop);
    InsideShape(z, Zone2, loop);
    if loop.ToGround? { Ground1InGround2(z); } else { Phase1InPhase2(z); }
  }

  lemma Ground1InGround2(z: Impedance)
    requires RightOfEdges(z, GROUND1)
    ensures VectorProduct(GROUND2.p1, GROUND2.p2, z) <= 0.0003
    ensures VectorProduct(GROUND2.p2, GROUND2.p3, z) <= 0.0
    ensures VectorProduct(GROUND2.p3, GROUND2.p4, z) <= 0.0
    ensures VectorProduct(GROUND2.p4, GROUND2.p1, z) <= 0.0
  {}

  lemma Phase1InPhase2(z: Impedance)
    requires RightOfEdges(z, PHASE1)
    ensures VectorProduct(PHASE2.p1, PHASE2.p2, z) <= 0.0003
    ensures VectorProduct(PHASE2.p2, PHASE2.p3, z) <= 0.0
    ensures VectorProduct(PHASE2.p3, PHASE2.p4, z) <= 0.0
    ensures VectorProduct(PHASE2.p4, PHASE2.p1, z) <= 0.0
  {}

  lemma Zone1CornerOutsideZone2(loop: Loop)
    ensures var corner := Shape(Zone1, loop).p2;
            IsInside(corner, Shape(Zone1, loop)) && !IsInside(corner, Shape(Zone2, loop))
  {}

  // ----- a failed read -----

  /** Null phasors have no loop impedance at all, so they decide nothing in either zone. */
  lemma NullPhasorsDecideNothing(zone: Zone, loop: Loop)
    ensures ApparentImpedance(NULL_PHASORS, loop) == None
    ensures Decision(NULL_PHASORS, zone) == None
  {
    hide ApparentImpedance, IsInside, Shape;
    forall l: Loop ensures ApparentImpedance(NULL_PHASORS, l) == None {
      NullImpedance(l);
    }
  }

  lemma NullImpedance(loop: Loop)
    ensures ApparentImpedance(NULL_PHASORS, loop) == None
  {
    NullLoopCurrent(loop);
    hide LoopCurrent, NormSq, Mul;
    assert ApparentImpedance(NULL_PHASORS, loop) == Divide(ZERO, ZERO);
  }

  lemma NullLoopCurrent(loop: Loop)
    ensures LoopCurrent(NULL_PHASORS, loop) == ZERO
  {}
}
