/** The directional relay of the series compensated line, Algoritmos/Compser.c: the angle
    between the voltages on the two sides of the capacitor bank, and the reports drawn from
    six such angles. The library functions `cexp`, `carg` and `cabs` enter as parameters of
    which nothing is assumed. */
module SeriesCompensation {
  import opened ComplexNumbers
  import opened Magnitudes

  const PI: real := 3.14159265358979323846

  datatype Phasor = Phasor(magnitude: real, phase: real)

  // ----- the angle -----

  /** The difference of two phases, from radians to degrees. */
  function Difference(p1: Phasor, p2: Phasor): real
  {
    p1.phase * (180.0 / PI) - p2.phase * (180.0 / PI)
  }

  /** The number of whole turns that bring `d` into the interval (-180, 180]. */
  function TurnsNeeded(d: real): int { ((180.0 - d) / 360.0).Floor }

  function Normalised(d: real): real { d + 360.0 * TurnsNeeded(d) as real }

  /** `round`: halves go away from zero. */
  function Round(x: real): int
  {
    if x >= 0.0 then (x + 0.5).Floor else -((-x + 0.5).Floor)
  }

  function RoundMilli(x: real): real { Round(x * 1000.0) as real / 1000.0 }

  function PhaseAngle(p1: Phasor, p2: Phasor): real { RoundMilli(Normalised(Difference(p1, p2))) }

  function Max(a: real, b: real): real { if a > b then a else b }

  function Min(a: real, b: real): real { if a < b then a else b }

  /** The first phase over the second in degrees, after t whole turns. */
  function Winding(phase1: real, phase2: real, t: int): real
  {
    (phase1 - phase2) * 180.0 / 3.14159265358979323846 + 360.0 * t as real
  }

  /** `angle` is x in whole thousandths, rounded to the nearest, and of two away from zero. */
  predicate IsRounded(angle: real, x: real)
  {
    && (angle * 1000.0).Floor as real == angle * 1000.0
    && Abs(x) - 0.0005 < Abs(angle) <= Abs(x) + 0.0005
    && (x > 0.0 ==> angle >= 0.0) && (x < 0.0 ==> angle <= 0.0)
  }

  method PhaseAngleDiv(p1: Phasor, p2: Phasor) returns (angle: real)
    ensures angle == PhaseAngle(p1, p2)
    ensures exists t :: -180.0 < Winding(p1.phase, p2.phase, t) <= 180.0
    ensures forall t :: -180.0 < Winding(p1.phase, p2.phase, t) <= 180.0 ==>
              IsRounded(angle, Winding(p1.phase, p2.phase, t))
  {
    AngleOfWindings(p1, p2);
    angle := p1.phase * (180.0 / PI) - p2.phase * (180.0 / PI);
    ghost var d := Difference(p1, p2);
    ghost var turns := 0;
    while angle <= -180.0
      invariant angle == d + 360.0 * turns as real
      invariant turns > 0 ==> angle <= 180.0
      decreases -angle
    {
      angle := angle + 360.0;
      turns := turns + 1;
    }
    while angle > 180.0
      invariant angle == d + 360.0 * turns as real
      invariant angle > -180.0
      decreases angle
    {
      angle := angle - 360.0;
      turns := turns - 1;
    }
    TurnsAreUnique(d, turns);
    assert angle == Normalised(d);
    if angle < 0.0 {
      angle := Max(angle, -180.0);
    } else {
      angle := Min(angle, 180.0);
    }
    assert angle == Normalised(d);
    angle := Round(angle * 1000.0) as real / 1000.0;
    assert angle == RoundMilli(Normalised(d));
  }

  /** The angle is the one number of whole thousandths next to the one representative of the
      difference in (-180, 180]. */
  lemma AngleOfWindings(p1: Phasor, p2: Phasor)
    ensures -180.0 < Winding(p1.phase, p2.phase, TurnsNeeded(Difference(p1, p2))) <= 180.0
    ensures forall t :: -180.0 < Winding(p1.phase, p2.phase, t) <= 180.0 ==>
              IsRounded(PhaseAngle(p1, p2), Winding(p1.phase, p2.phase, t))
  {
    hide Round, IsRounded;
    var d := Difference(p1, p2);
    NormalisedInRange(d);
    forall t ensures Winding(p1.phase, p2.phase, t) == d + 360.0 * t as real {}
    forall t | -180.0 < Winding(p1.phase, p2.phase, t) <= 180.0
      ensures IsRounded(PhaseAngle(p1, p2), Winding(p1.phase, p2.phase, t))
    {
      TurnsAreUnique(d, t);
      RoundMilliIsRounded(Normalised(d));
    }
  }

  lemma RoundMilliIsRounded(x: real)
    ensures IsRounded(RoundMilli(x), x)
  {}

  /** Nothing else is left to say about a rounded number. */
  lemma RoundedIsUnique(a: real, b: real, x: real)
    requires IsRounded(a, x) && IsRounded(b, x)
    ensures a == b
  {
    var m, n := (a * 1000.0).Floor, (b * 1000.0).Floor;
    assert -1.0 < (m - n) as real < 1.0 || (a > 0.0) != (b > 0.0);
  }

  lemma TurnsAreUnique(d: real, turns: int)
    requires -180.0 < d + 360.0 * turns as real <= 180.0
    ensures turns == TurnsNeeded(d)
  {
    var q := (180.0 - d) / 360.0;
    assert turns as real <= q < turns as real + 1.0;
  }

  lemma NormalisedInRange(d: real)
    ensures -180.0 < Normalised(d) <= 180.0
  {
    var q := (180.0 - d) / 360.0;
    assert q.Floor as real <= q < q.Floor as real + 1.0;
  }

  lemma RoundingError(x: real)
    ensures -0.5 <= Round(x) as real - x <= 0.5
    ensures Round(x) == 0 <==> -0.5 < x < 0.5
    ensures Round(-x) == -Round(x)
  {}

  /** The angle is in the closed interval of 180 degrees either way, it is the difference of
      the phases up to whole turns and half a thousandth, and it is zero exactly when that
      representative is smaller than half a thousandth. */
  lemma PhaseAngleMeaning(p1: Phasor, p2: Phasor)
    ensures var x, r := Normalised(Difference(p1, p2)), PhaseAngle(p1, p2);
            && -180.0 <= r <= 180.0
            && x == Difference(p1, p2) + 360.0 * TurnsNeeded(Difference(p1, p2)) as real
            && -0.0005 <= r - x <= 0.0005
            && (r == 0.0 <==> -0.0005 < x < 0.0005)
  {
    hide Round;
    var x := Normalised(Difference(p1, p2));
    NormalisedInRange(Difference(p1, p2));
    RoundingError(x * 1000.0);
    assert Round(x * 1000.0) as real < 180001.0 && Round(x * 1000.0) as real > -180001.0;
  }

  /** The two phases are exactly opposite: the one case in which the sign says nothing. */
  predicate Opposite(p1: Phasor, p2: Phasor) { Normalised(Difference(p1, p2)) == 180.0 }

  /** Exchanging the phasors negates the angle unless they are exactly opposite; then both
      orders give +180. */
  lemma ExchangeNegatesAngle(p1: Phasor, p2: Phasor)
    ensures PhaseAngle(p2, p1) == -PhaseAngle(p1, p2) <==> !Opposite(p1, p2)
    ensures Opposite(p1, p2) ==> PhaseAngle(p1, p2) == 180.0 == PhaseAngle(p2, p1) && Opposite(p2, p1)
  {
    hide Round;
    var d := Difference(p1, p2);
    assert Difference(p2, p1) == -d;
    hide Difference;
    NormalisedInRange(d);
    if Normalised(d) == 180.0 {
      TurnsAreUnique(-d, 1 - TurnsNeeded(d));
      assert Normalised(-d) == 180.0;
      RoundOf180();
    } else {
      TurnsAreUnique(-d, -TurnsNeeded(d));
      assert Normalised(-d) == -Normalised(d);
      RoundingError(Normalised(d) * 1000.0);
      assert -(Normalised(d) * 1000.0) == -Normalised(d) * 1000.0;
    }
  }

  lemma RoundOf180()
    ensures RoundMilli(180.0) == 180.0
  {
    assert Round(180000.0) == 180000;
  }

  // ----- what the sign of an angle says -----

  /** The first phase is ahead of the second by half a thousandth of a degree to half a turn. */
  ghost predicate Leads(phase1: real, phase2: real)
  {
    exists t :: 0.0005 <= Winding(phase1, phase2, t) <= 180.0
  }

  /** The first phase is behind the second by half a thousandth of a degree or more, but by
      less than half a turn. */
  ghost predicate Lags(phase1: real, phase2: real)
  {
    exists t :: -180.0 < Winding(phase1, phase2, t) <= -0.0005
  }

  ghost predicate Agrees(phase1: real, phase2: real)
  {
    exists t :: -0.0005 < Winding(phase1, phase2, t) < 0.0005
  }

  lemma SignOfAngle(p1: Phasor, p2: Phasor)
    ensures PhaseAngle(p1, p2) > 0.0 <==> Leads(p1.phase, p2.phase)
    ensures PhaseAngle(p1, p2) < 0.0 <==> Lags(p1.phase, p2.phase)
    ensures PhaseAngle(p1, p2) == 0.0 <==> Agrees(p1.phase, p2.phase)
  {
    AngleOfWindings(p1, p2);
    hide PhaseAngle, Winding;
    var a, x := PhaseAngle(p1, p2), Winding(p1.phase, p2.phase, TurnsNeeded(Difference(p1, p2)));
    assert IsRounded(a, x);
    SignOfRounded(a, x);
    forall t | -180.0 < Winding(p1.phase, p2.phase, t) <= 180.0
      ensures IsRounded(a, Winding(p1.phase, p2.phase, t))
    {}
    forall t | -180.0 < Winding(p1.phase, p2.phase, t) <= 180.0
      ensures a > 0.0 <==> Winding(p1.phase, p2.phase, t) >= 0.0005
      ensures a < 0.0 <==> Winding(p1.phase, p2.phase, t) <= -0.0005
    {
      SignOfRounded(a, Winding(p1.phase, p2.phase, t));
    }
  }

  lemma SignOfRounded(a: real, x: real)
    requires IsRounded(a, x)
    ensures a > 0.0 <==> x >= 0.0005
    ensures a < 0.0 <==> x <= -0.0005
  {}

  // ----- the reports -----

  /** The angles of the three phase voltages and of the three line voltages. */
  datatype Angles = Angles(A: real, B: real, C: real, AB: real, BC: real, CA: real)

  datatype Kind = AT | BT | CT | LineAB | LineBC | LineCA | ThreePhase

  /** "Atrás" and "a frente" of the capacitor bank. */
  datatype Side = Behind | Ahead

  datatype Report = Report(kind: Kind, side: Side)

  /** The two independent tests of one kind, "behind" before "ahead". */
  function Tests(k: Kind, behind: bool, ahead: bool): seq<Report>
  {
    (if behind then [Report(k, Behind)] else []) + (if ahead then [Report(k, Ahead)] else [])
  }

  function InOrder(a: seq<Report>, b: seq<Report>, c: seq<Report>, d: seq<Report>,
                   e: seq<Report>, f: seq<Report>, g: seq<Report>): seq<Report>
  {
    a + b + c + d + e + f + g
  }

  /** The fourteen tests of one turn of the loop, in order. */
  function Reports(x: Angles): seq<Report>
  {
    InOrder(
      Tests(AT, x.A > 0.0 && x.BC == 0.0, x.A < 0.0 && x.BC == 0.0),
      Tests(BT, x.B > 0.0 && x.CA == 0.0, x.B < 0.0 && x.CA == 0.0),
      Tests(CT, x.C > 0.0 && x.AB == 0.0, x.C < 0.0 && x.AB == 0.0),
      Tests(LineAB, x.AB > 0.0 && x.C == 0.0, x.AB < 0.0 && x.C == 0.0),
      Tests(LineBC, x.BC > 0.0 && x.A == 0.0, x.BC < 0.0 && x.A == 0.0),
      Tests(LineCA, x.CA > 0.0 && x.B == 0.0, x.CA < 0.0 && x.B == 0.0),
      Tests(ThreePhase,
            x.A > 0.0 && x.B > 0.0 && x.C > 0.0 && x.AB > 0.0 && x.BC > 0.0 && x.CA > 0.0,
            x.A < 0.0 && x.B < 0.0 && x.C < 0.0 && x.AB < 0.0 && x.BC < 0.0 && x.CA < 0.0))
  }

  /** The angle that gives the direction of a single-phase or line report. */
  function Directing(x: Angles, k: Kind): real
    requires !k.ThreePhase?
  {
    match k
    case AT => x.A case BT => x.B case CT => x.C
    case LineAB => x.AB case LineBC => x.BC case LineCA => x.CA
  }

  /** The kind whose directing angle must be zero for a report of kind k. */
  function Complement(k: Kind): Kind
  {
    match k
    case AT => LineBC case BT => LineCA case CT => LineAB
    case LineAB => CT case LineBC => AT case LineCA => BT
    case ThreePhase => ThreePhase
  }

  ghost predicate Points(angle: real, side: Side)
  {
    if side == Behind then angle > 0.0 else angle < 0.0
  }

  /** When a report of a given kind and side is due. */
  ghost predicate IsDue(x: Angles, k: Kind, side: Side)
  {
    if k == ThreePhase then forall j: Kind :: j != ThreePhase ==> Points(Directing(x, j), side)
    else Points(Directing(x, k), side) && Directing(x, Complement(k)) == 0.0
  }

  lemma TestsMembers(k: Kind, behind: bool, ahead: bool, r: Report)
    ensures r in Tests(k, behind, ahead) <==> r.kind == k && (if r.side == Behind then behind else ahead)
  {}

  lemma MemberOfSeven(r: Report, a: seq<Report>, b: seq<Report>, c: seq<Report>, d: seq<Report>,
                      e: seq<Report>, f: seq<Report>, g: seq<Report>)
    ensures r in InOrder(a, b, c, d, e, f, g) <==>
            r in a || r in b || r in c || r in d || r in e || r in f || r in g
  {}

  lemma TestsInOrder(r: Report, a1: bool, a2: bool, b1: bool, b2: bool, c1: bool, c2: bool, d1: bool, d2: bool,
                     e1: bool, e2: bool, f1: bool, f2: bool, g1: bool, g2: bool)
    ensures r in InOrder(Tests(AT, a1, a2), Tests(BT, b1, b2), Tests(CT, c1, c2), Tests(LineAB, d1, d2),
                         Tests(LineBC, e1, e2), Tests(LineCA, f1, f2), Tests(ThreePhase, g1, g2))
            <==> match r.kind
                 case AT => if r.side == Behind then a1 else a2
                 case BT => if r.side == Behind then b1 else b2
                 case CT => if r.side == Behind then c1 else c2
                 case LineAB => if r.side == Behind then d1 else d2
                 case LineBC => if r.side == Behind then e1 else e2
                 case LineCA => if r.side == Behind then f1 else f2
                 case ThreePhase => if r.side == Behind then g1 else g2
  {
    hide Tests, InOrder;
    TestsMembers(AT, a1, a2, r);
    TestsMembers(BT, b1, b2, r);
    TestsMembers(CT, c1, c2, r);
    TestsMembers(LineAB, d1, d2, r);
    TestsMembers(LineBC, e1, e2, r);
    TestsMembers(LineCA, f1, f2, r);
    TestsMembers(ThreePhase, g1, g2, r);
    MemberOfSeven(r, Tests(AT, a1, a2), Tests(BT, b1, b2), Tests(CT, c1, c2), Tests(LineAB, d1, d2),
                  Tests(LineBC, e1, e2), Tests(LineCA, f1, f2), Tests(ThreePhase, g1, g2));
  }

  /** A report is made exactly when it is due. */
  lemma ReportsAreTheDueOnes(x: Angles, k: Kind, side: Side)
    ensures Report(k, side) in Reports(x) <==> IsDue(x, k, side)
  {
    hide Tests, InOrder, IsDue;
    DueInFull(x, k, side);
    TestsInOrder(Report(k, side),
      x.A > 0.0 && x.BC == 0.0, x.A < 0.0 && x.BC == 0.0,
      x.B > 0.0 && x.CA == 0.0, x.B < 0.0 && x.CA == 0.0,
      x.C > 0.0 && x.AB == 0.0, x.C < 0.0 && x.AB == 0.0,
      x.AB > 0.0 && x.C == 0.0, x.AB < 0.0 && x.C == 0.0,
      x.BC > 0.0 && x.A == 0.0, x.BC < 0.0 && x.A == 0.0,
      x.CA > 0.0 && x.B == 0.0, x.CA < 0.0 && x.B == 0.0,
      x.A > 0.0 && x.B > 0.0 && x.C > 0.0 && x.AB > 0.0 && x.BC > 0.0 && x.CA > 0.0,
      x.A < 0.0 && x.B < 0.0 && x.C < 0.0 && x.AB < 0.0 && x.BC < 0.0 && x.CA < 0.0);
  }

  /** The test the code makes for a kind and side. */
  predicate TestFor(x: Angles, k: Kind, side: Side)
  {
    match k
    case AT => (if side == Behind then x.A > 0.0 else x.A < 0.0) && x.BC == 0.0
    case BT => (if side == Behind then x.B > 0.0 else x.B < 0.0) && x.CA == 0.0
    case CT => (if side == Behind then x.C > 0.0 else x.C < 0.0) && x.AB == 0.0
    case LineAB => (if side == Behind then x.AB > 0.0 else x.AB < 0.0) && x.C == 0.0
    case LineBC => (if side == Behind then x.BC > 0.0 else x.BC < 0.0) && x.A == 0.0
    case LineCA => (if side == Behind then x.CA > 0.0 else x.CA < 0.0) && x.B == 0.0
    case ThreePhase =>
      if side == Behind
      then x.A > 0.0 && x.B > 0.0 && x.C > 0.0 && x.AB > 0.0 && x.BC > 0.0 && x.CA > 0.0
      else x.A < 0.0 && x.B < 0.0 && x.C < 0.0 && x.AB < 0.0 && x.BC < 0.0 && x.CA < 0.0
  }

  lemma DueInFull(x: Angles, k: Kind, side: Side)
    ensures IsDue(x, k, side) <==> TestFor(x, k, side)
  {
    if k == ThreePhase && IsDue(x, k, side) {
      assert Points(Directing(x, AT), side) && Points(Directing(x, BT), side) && Points(Directing(x, CT), side)
             && Points(Directing(x, LineAB), side) && Points(Directing(x, LineBC), side)
             && Points(Directing(x, LineCA), side);
    }
  }

  /** No kind is reported on both sides, and a three-phase report stands alone. */
  lemma ReportsAreConsistent(x: Angles, k: Kind, side: Side, k': Kind, side': Side)
    requires Report(k, side) in Reports(x) && Report(k', side') in Reports(x)
    ensures k == k' ==> side == side'
    ensures k == ThreePhase ==> k' == ThreePhase
  {
    hide Reports;
    ReportsAreTheDueOnes(x, k, side);
    ReportsAreTheDueOnes(x, k', side');
    DueInFull(x, k, side);
    DueInFull(x, k', side');
  }

  // ----- from phasors to reports -----

  /** `cexp(I*phase)`, `carg` and `cabs`. */
  datatype Library = Library(cexpI: real -> Complex, carg: Complex -> real, cabs: Complex -> real)

  /** The phase voltages on one side of the bank. */
  datatype Voltages = Voltages(A: Phasor, B: Phasor, C: Phasor)

  function ToComplex(m: Library, p: Phasor): Complex { Scale(p.magnitude, m.cexpI(p.phase)) }

  function LinePhasor(m: Library, p: Phasor, q: Phasor): Phasor
  {
    var d := Sub(ToComplex(m, p), ToComplex(m, q));
    Phasor(m.cabs(d), m.carg(d))
  }

  /** The voltage whose angle directs reports of kind k. */
  function VoltageFor(m: Library, v: Voltages, k: Kind): Phasor
    requires !k.ThreePhase?
  {
    match k
    case AT => v.A case BT => v.B case CT => v.C
    case LineAB => LinePhasor(m, v.A, v.B)
    case LineBC => LinePhasor(m, v.B, v.C)
    case LineCA => LinePhasor(m, v.C, v.A)
  }

  function AnglesOf(m: Library, v1: Voltages, v2: Voltages): Angles
  {
    Angles(PhaseAngle(VoltageFor(m, v1, AT), VoltageFor(m, v2, AT)),
           PhaseAngle(VoltageFor(m, v1, BT), VoltageFor(m, v2, BT)),
           PhaseAngle(VoltageFor(m, v1, CT), VoltageFor(m, v2, CT)),
           PhaseAngle(VoltageFor(m, v1, LineAB), VoltageFor(m, v2, LineAB)),
           PhaseAngle(VoltageFor(m, v1, LineBC), VoltageFor(m, v2, LineBC)),
           PhaseAngle(VoltageFor(m, v1, LineCA), VoltageFor(m, v2, LineCA)))
  }

  // ----- the messages in terms of the voltages -----

  /** The phase of the line voltage between p and q. */
  function LinePhase(m: Library, p: Phasor, q: Phasor): real
  {
    m.carg(Sub(Scale(p.magnitude, m.cexpI(p.phase)), Scale(q.magnitude, m.cexpI(q.phase))))
  }

  /** The six phases on one side of the bank: A, B, C, AB, BC, CA. */
  function Phases(m: Library, v: Voltages): seq<real>
  {
    [v.A.phase, v.B.phase, v.C.phase, LinePhase(m, v.A, v.B), LinePhase(m, v.B, v.C), LinePhase(m, v.C, v.A)]
  }

  /** The place of a message among the fourteen. */
  function Place(r: Report): nat
  {
    var kind := match r.kind
      case AT => 0 case BT => 1 case CT => 2 case LineAB => 3 case LineBC => 4 case LineCA => 5 case ThreePhase => 6;
    2 * kind + if r.side == Behind then 0 else 1
  }

  /** The places go up, from `lo` on and below `hi`. */
  ghost predicate Ascends(rs: seq<Report>, lo: nat, hi: nat)
  {
    && (forall i :: 0 <= i < |rs| ==> lo <= Place(rs[i]) < hi)
    && (forall i, j :: 0 <= i < j < |rs| ==> Place(rs[i]) < Place(rs[j]))
  }

  lemma AscendsTogether(a: seq<Report>, b: seq<Report>, lo: nat, mid: nat, hi: nat)
    requires lo <= mid <= hi && Ascends(a, lo, mid) && Ascends(b, mid, hi)
    ensures Ascends(a + b, lo, hi)
  {
    hide Place;
  }

  lemma TestsAscend(k: Kind, behind: bool, ahead: bool)
    ensures var place := Place(Report(k, Behind)); Ascends(Tests(k, behind, ahead), place, place + 2)
  {}

  lemma InOrderAscends(a: seq<Report>, b: seq<Report>, c: seq<Report>, d: seq<Report>,
                       e: seq<Report>, f: seq<Report>, g: seq<Report>)
    requires Ascends(a, 0, 2) && Ascends(b, 2, 4) && Ascends(c, 4, 6) && Ascends(d, 6, 8)
    requires Ascends(e, 8, 10) && Ascends(f, 10, 12) && Ascends(g, 12, 14)
    ensures Ascends(InOrder(a, b, c, d, e, f, g), 0, 14)
  {
    hide Ascends;
    AscendsTogether(a, b, 0, 2, 4);
    AscendsTogether(a + b, c, 0, 4, 6);
    AscendsTogether(a + b + c, d, 0, 6, 8);
    AscendsTogether(a + b + c + d, e, 0, 8, 10);
    AscendsTogether(a + b + c + d + e, f, 0, 10, 12);
    AscendsTogether(a + b + c + d + e + f, g, 0, 12, 14);
  }

  lemma ReportsAscend(x: Angles)
    ensures Ascends(Reports(x), 0, 14)
  {
    hide Ascends, InOrder, IsDue, Tests;
    ReportsByKind(x);
    forall k
      ensures Ascends(DueTests(x, k), Place(Report(k, Behind)), Place(Report(k, Behind)) + 2)
    {
      TestsAscend(k, IsDue(x, k, Behind), IsDue(x, k, Ahead));
    }
    hide Reports;
    InOrderAscends(DueTests(x, AT), DueTests(x, BT), DueTests(x, CT), DueTests(x, LineAB),
                   DueTests(x, LineBC), DueTests(x, LineCA), DueTests(x, ThreePhase));
  }

  /** The fourteen messages, from the phases behind the bank and those ahead of it; each once
      and in order. */
  ghost predicate AreMessagesOf(rs: seq<Report>, x: seq<real>, y: seq<real>)
    requires |x| == |y| == 6
  {
    && Ascends(rs, 0, 14)
    && (Report(AT, Behind) in rs <==> Leads(x[0], y[0]) && Agrees(x[4], y[4]))
    && (Report(AT, Ahead) in rs <==> Lags(x[0], y[0]) && Agrees(x[4], y[4]))
    && (Report(BT, Behind) in rs <==> Leads(x[1], y[1]) && Agrees(x[5], y[5]))
    && (Report(BT, Ahead) in rs <==> Lags(x[1], y[1]) && Agrees(x[5], y[5]))
    && (Report(CT, Behind) in rs <==> Leads(x[2], y[2]) && Agrees(x[3], y[3]))
    && (Report(CT, Ahead) in rs <==> Lags(x[2], y[2]) && Agrees(x[3], y[3]))
    && (Report(LineAB, Behind) in rs <==> Leads(x[3], y[3]) && Agrees(x[2], y[2]))
    && (Report(LineAB, Ahead) in rs <==> Lags(x[3], y[3]) && Agrees(x[2], y[2]))
    && (Report(LineBC, Behind) in rs <==> Leads(x[4], y[4]) && Agrees(x[0], y[0]))
    && (Report(LineBC, Ahead) in rs <==> Lags(x[4], y[4]) && Agrees(x[0], y[0]))
    && (Report(LineCA, Behind) in rs <==> Leads(x[5], y[5]) && Agrees(x[1], y[1]))
    && (Report(LineCA, Ahead) in rs <==> Lags(x[5], y[5]) && Agrees(x[1], y[1]))
    && (Report(ThreePhase, Behind) in rs <==> forall i :: 0 <= i < 6 ==> Leads(x[i], y[i]))
    && (Report(ThreePhase, Ahead) in rs <==> forall i :: 0 <= i < 6 ==> Lags(x[i], y[i]))
  }

  lemma MessagesOfVoltages(m: Library, v1: Voltages, v2: Voltages)
    ensures AreMessagesOf(Reports(AnglesOf(m, v1, v2)), Phases(m, v1), Phases(m, v2))
  {
    hide Reports, PhaseAngle, Leads, Lags, Agrees, Ascends;
    var a := AnglesOf(m, v1, v2);
    ReportsAscend(a);
    forall k, side ensures Report(k, side) in Reports(a) <==> TestFor(a, k, side) {
      ReportsAreTheDueOnes(a, k, side);
      DueInFull(a, k, side);
    }
    forall p1, p2
      ensures PhaseAngle(p1, p2) > 0.0 <==> Leads(p1.phase, p2.phase)
      ensures PhaseAngle(p1, p2) < 0.0 <==> Lags(p1.phase, p2.phase)
      ensures PhaseAngle(p1, p2) == 0.0 <==> Agrees(p1.phase, p2.phase)
    {
      SignOfAngle(p1, p2);
    }
  }

  class CompensationRelay {
    var trip: bool
    var reports: seq<Report>

    constructor ()
      ensures !trip && reports == []
    {
      trip := false;
      reports := [];
    }

    /** One turn of the loop: six angles, fourteen tests, a latch. */
    method Cycle(m: Library, v1: Voltages, v2: Voltages)
      modifies this
      ensures reports == old(reports) + Reports(AnglesOf(m, v1, v2))
      ensures trip == (old(trip) || Reports(AnglesOf(m, v1, v2)) != [])
      ensures old(reports) <= reports && trip == (old(trip) || |reports| > |old(reports)|)
      ensures AreMessagesOf(reports[|old(reports)|..], Phases(m, v1), Phases(m, v2))
    {
      hide Reports, PhaseAngle, AreMessagesOf, Phases;
      MessagesOfVoltages(m, v1, v2);
      var a := PhaseAngleDiv(v1.A, v2.A);
      var b := PhaseAngleDiv(v1.B, v2.B);
      var c := PhaseAngleDiv(v1.C, v2.C);
      var ab := PhaseAngleDiv(LinePhasor(m, v1.A, v1.B), LinePhasor(m, v2.A, v2.B));
      var bc := PhaseAngleDiv(LinePhasor(m, v1.B, v1.C), LinePhasor(m, v2.B, v2.C));
      var ca := PhaseAngleDiv(LinePhasor(m, v1.C, v1.A), LinePhasor(m, v2.C, v2.A));
      var due := Reports(Angles(a, b, c, ab, bc, ca));
      reports := reports + due;
      if due != [] {
        trip := true;
      }
    }
  }

  // ----- exchanging the sides of the bank -----

  predicate OppositeAt(m: Library, v1: Voltages, v2: Voltages, k: Kind)
    requires !k.ThreePhase?
  {
    Opposite(VoltageFor(m, v1, k), VoltageFor(m, v2, k))
  }

  function OtherSide(side: Side): Side { if side == Behind then Ahead else Behind }

  /** What is reported of kind k is reported of the other side when the sides of the bank
      are exchanged, and nothing else is. */
  ghost predicate SidesExchange(m: Library, v1: Voltages, v2: Voltages, k: Kind)
  {
    forall side :: Report(k, side) in Reports(AnglesOf(m, v1, v2))
                   <==> Report(k, OtherSide(side)) in Reports(AnglesOf(m, v2, v1))
  }

  /** The inputs on which an angle of exactly 180 degrees stands behind a report. */
  ghost predicate HalfTurnMatters(m: Library, v1: Voltages, v2: Voltages, k: Kind)
  {
    var x := AnglesOf(m, v1, v2);
    if k == ThreePhase then
      && (exists j: Kind :: j != ThreePhase && OppositeAt(m, v1, v2, j))
      && ((forall j: Kind :: j != ThreePhase ==> OppositeAt(m, v1, v2, j) || Directing(x, j) > 0.0)
          || (forall j: Kind :: j != ThreePhase ==> OppositeAt(m, v1, v2, j) || Directing(x, j) < 0.0))
    else
      OppositeAt(m, v1, v2, k) && Directing(x, Complement(k)) == 0.0
  }

  lemma ExchangedAngle(m: Library, v1: Voltages, v2: Voltages, k: Kind)
    requires !k.ThreePhase?
    ensures var x, y := Directing(AnglesOf(m, v1, v2), k), Directing(AnglesOf(m, v2, v1), k);
            if OppositeAt(m, v1, v2, k) then x == 180.0 == y else y == -x
  {
    hide PhaseAngle, Opposite, LinePhasor;
    ExchangeNegatesAngle(VoltageFor(m, v1, k), VoltageFor(m, v2, k));
  }

  /** Exchanging the voltages on the two sides of the bank exchanges "behind" and "ahead" in
      the reports of a kind if and only if no angle of exactly 180 degrees is behind them. */
  lemma SideExchange(m: Library, v1: Voltages, v2: Voltages, k: Kind)
    ensures SidesExchange(m, v1, v2, k) <==> !HalfTurnMatters(m, v1, v2, k)
  {
    hide Reports, AnglesOf, OppositeAt;
    var x, y := AnglesOf(m, v1, v2), AnglesOf(m, v2, v1);
    forall side: Side
      ensures Report(k, side) in Reports(x) <==> IsDue(x, k, side)
      ensures Report(k, side) in Reports(y) <==> IsDue(y, k, side)
    {
      ReportsAreTheDueOnes(x, k, side);
      ReportsAreTheDueOnes(y, k, side);
    }
    forall j: Kind | j != ThreePhase
      ensures if OppositeAt(m, v1, v2, j) then Directing(x, j) == 180.0 == Directing(y, j)
              else Directing(y, j) == -Directing(x, j)
    {
      ExchangedAngle(m, v1, v2, j);
    }
    assert SidesExchange(m, v1, v2, k) <==>
           (IsDue(x, k, Behind) <==> IsDue(y, k, Ahead)) && (IsDue(x, k, Ahead) <==> IsDue(y, k, Behind)) by {
      assert OtherSide(Behind) == Ahead && OtherSide(Ahead) == Behind;
      if SidesExchange(m, v1, v2, k) {
        assert Report(k, Behind) in Reports(x) <==> Report(k, OtherSide(Behind)) in Reports(y);
        assert Report(k, Ahead) in Reports(x) <==> Report(k, OtherSide(Ahead)) in Reports(y);
      }
    }
    hide SidesExchange;
    if k == ThreePhase {
      ThreePhaseExchange(m, v1, v2, x, y);
    }
  }

  lemma ThreePhaseExchange(m: Library, v1: Voltages, v2: Voltages, x: Angles, y: Angles)
    requires x == AnglesOf(m, v1, v2)
    requires forall j: Kind :: j != ThreePhase ==>
               if OppositeAt(m, v1, v2, j) then Directing(x, j) == 180.0 == Directing(y, j)
               else Directing(y, j) == -Directing(x, j)
    ensures (IsDue(x, ThreePhase, Behind) <==> IsDue(y, ThreePhase, Ahead))
            && (IsDue(x, ThreePhase, Ahead) <==> IsDue(y, ThreePhase, Behind))
            <==> !HalfTurnMatters(m, v1, v2, ThreePhase)
  {
    hide AnglesOf, OppositeAt;
    if j: Kind :| j != ThreePhase && OppositeAt(m, v1, v2, j) {
      assert Directing(x, j) == 180.0 == Directing(y, j);
      assert !IsDue(x, ThreePhase, Ahead) && !IsDue(y, ThreePhase, Ahead) by {
        assert !Points(Directing(x, j), Ahead) && !Points(Directing(y, j), Ahead);
      }
    }
  }

  // ----- the whole list of messages -----

  function Swapped(reports: seq<Report>): (r: seq<Report>)
    ensures |r| == |reports|
  {
    seq(|reports|, i requires 0 <= i < |reports| => Report(reports[i].kind, OtherSide(reports[i].side)))
  }

  lemma MemberOfSwapped(reports: seq<Report>, k: Kind, side: Side)
    ensures Report(k, side) in Swapped(reports) <==> Report(k, OtherSide(side)) in reports
  {
    if i :| 0 <= i < |reports| && reports[i] == Report(k, OtherSide(side)) {
      assert Swapped(reports)[i] == Report(k, side);
    }
  }

  lemma SwappedOfConcat(a: seq<Report>, b: seq<Report>)
    ensures Swapped(a + b) == Swapped(a) + Swapped(b)
  {}

  lemma SwappedInOrder(a: seq<Report>, b: seq<Report>, c: seq<Report>, d: seq<Report>,
                       e: seq<Report>, f: seq<Report>, g: seq<Report>)
    ensures Swapped(InOrder(a, b, c, d, e, f, g))
         == InOrder(Swapped(a), Swapped(b), Swapped(c), Swapped(d), Swapped(e), Swapped(f), Swapped(g))
  {
    hide Swapped;
    SwappedOfConcat(a, b);
    SwappedOfConcat(a + b, c);
    SwappedOfConcat(a + b + c, d);
    SwappedOfConcat(a + b + c + d, e);
    SwappedOfConcat(a + b + c + d + e, f);
    SwappedOfConcat(a + b + c + d + e + f, g);
  }

  /** The tests of one kind, from when its reports are due. */
  ghost function DueTests(x: Angles, k: Kind): seq<Report>
  {
    Tests(k, IsDue(x, k, Behind), IsDue(x, k, Ahead))
  }

  lemma ReportsByKind(x: Angles)
    ensures Reports(x) == InOrder(DueTests(x, AT), DueTests(x, BT), DueTests(x, CT), DueTests(x, LineAB),
                                  DueTests(x, LineBC), DueTests(x, LineCA), DueTests(x, ThreePhase))
  {
    hide Tests, InOrder, IsDue;
    forall k, side ensures IsDue(x, k, side) <==> TestFor(x, k, side) {
      DueInFull(x, k, side);
    }
  }

  lemma DueOnOneSide(x: Angles, k: Kind)
    ensures !(IsDue(x, k, Behind) && IsDue(x, k, Ahead))
  {
    DueInFull(x, k, Behind);
    DueInFull(x, k, Ahead);
  }

  lemma SwappedTests(x: Angles, y: Angles, k: Kind)
    requires IsDue(x, k, Behind) <==> IsDue(y, k, Ahead)
    requires IsDue(x, k, Ahead) <==> IsDue(y, k, Behind)
    ensures DueTests(y, k) == Swapped(DueTests(x, k))
  {
    hide IsDue;
    DueOnOneSide(x, k);
  }

  /** Exchanging the voltages on the two sides of the bank exchanges "behind" and "ahead" in
      the whole list of messages, its order kept, if and only if no angle of exactly 180
      degrees stands behind a report; and then the relay trips both ways round or neither. */
  lemma MessagesExchange(m: Library, v1: Voltages, v2: Voltages)
    ensures var there, back := Reports(AnglesOf(m, v1, v2)), Reports(AnglesOf(m, v2, v1));
            && (back == Swapped(there) <==> forall k :: !HalfTurnMatters(m, v1, v2, k))
            && (back == Swapped(there) ==> (back != [] <==> there != []))
  {
    hide AnglesOf, HalfTurnMatters, Tests, InOrder, IsDue, Reports;
    var x, y := AnglesOf(m, v1, v2), AnglesOf(m, v2, v1);
    if forall k :: !HalfTurnMatters(m, v1, v2, k) {
      forall k ensures DueTests(y, k) == Swapped(DueTests(x, k)) {
        SideExchange(m, v1, v2, k);
        DueExchange(m, v1, v2, k);
        SwappedTests(x, y, k);
      }
      ReportsByKind(x);
      ReportsByKind(y);
      SwappedInOrder(DueTests(x, AT), DueTests(x, BT), DueTests(x, CT), DueTests(x, LineAB),
                     DueTests(x, LineBC), DueTests(x, LineCA), DueTests(x, ThreePhase));
    }
    if Reports(y) == Swapped(Reports(x)) {
      forall k ensures !HalfTurnMatters(m, v1, v2, k) {
        forall side ensures Report(k, side) in Reports(x) <==> Report(k, OtherSide(side)) in Reports(y) {
          MemberOfSwapped(Reports(x), k, OtherSide(side));
          assert OtherSide(OtherSide(side)) == side;
        }
        SideExchange(m, v1, v2, k);
      }
    }
  }

  lemma DueExchange(m: Library, v1: Voltages, v2: Voltages, k: Kind)
    requires SidesExchange(m, v1, v2, k)
    ensures var x, y := AnglesOf(m, v1, v2), AnglesOf(m, v2, v1);
            && (IsDue(x, k, Behind) <==> IsDue(y, k, Ahead))
            && (IsDue(x, k, Ahead) <==> IsDue(y, k, Behind))
  {
    hide Reports, AnglesOf, IsDue;
    var x, y := AnglesOf(m, v1, v2), AnglesOf(m, v2, v1);
    forall side: Side
      ensures Report(k, side) in Reports(x) <==> IsDue(x, k, side)
      ensures Report(k, side) in Reports(y) <==> IsDue(y, k, side)
    {
      ReportsAreTheDueOnes(x, k, side);
      ReportsAreTheDueOnes(y, k, side);
    }
    assert Report(k, Behind) in Reports(x) <==> Report(k, OtherSide(Behind)) in Reports(y);
    assert Report(k, Ahead) in Reports(x) <==> Report(k, OtherSide(Ahead)) in Reports(y);
  }

  /** An input on which the exchange fails: phase A is exactly opposite on the two sides and
      everything else agrees, so a fault "behind" is reported both ways round. */
  lemma HalfTurnExample(m: Library, v1: Voltages, v2: Voltages)
    requires v2 == Voltages(Phasor(1.0, 0.0), Phasor(1.0, 0.0), Phasor(1.0, 0.0))
    requires v1 == v2.(A := Phasor(1.0, PI))
    ensures Report(AT, Behind) in Reports(AnglesOf(m, v1, v2))
    ensures Report(AT, Behind) in Reports(AnglesOf(m, v2, v1))
  {
    assert Difference(v1.A, v2.A) == 180.0;
    assert Normalised(180.0) == 180.0 by { TurnsAreUnique(180.0, 0); }
    assert Normalised(0.0) == 0.0 by { TurnsAreUnique(0.0, 0); }
    assert RoundMilli(0.0) == 0.0;
    ExchangeNegatesAngle(v1.A, v2.A);
    ReportsAreTheDueOnes(AnglesOf(m, v1, v2), AT, Behind);
    ReportsAreTheDueOnes(AnglesOf(m, v2, v1), AT, Behind);
    hide Reports;
    assert Difference(LinePhasor(m, v1.B, v1.C), LinePhasor(m, v2.B, v2.C)) == 0.0;
    assert Difference(LinePhasor(m, v2.B, v2.C), LinePhasor(m, v1.B, v1.C)) == 0.0;
  }
}
