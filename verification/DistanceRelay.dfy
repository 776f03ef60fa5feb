/** The measuring and deciding part of the distance relays, Algoritmos/Distancia21_A.c and
    Distancia21_B.c: six loop impedances from six phasors, a two-zone pickup of each loop,
    and the fault type named by the pickups of a zone. */
module DistanceRelay {
  import opened ComplexNumbers
  import opened QuadrilateralZone

  datatype Option<+T> = None | Some(value: T)

  // ----- constants of the line and of the zones -----

  const ZL0: real := 1.06955250923
  const ZL1: real := 0.318744239164
  const K0: real := (ZL0 - ZL1) / (3.0 * ZL1)

  const GROUND1 := Quadrilateral(Impedance(0.0, 0.0), Impedance(-29.28321, 50.72),
                                 Impedance(69.85812, 50.72), Impedance(65.8066, -26.58759))
  const PHASE1 := Quadrilateral(Impedance(0.0, 0.0), Impedance(-29.28321, 50.72),
                                Impedance(47.45812, 50.72), Impedance(43.87107, -17.72506))
  const GROUND2 := Quadrilateral(Impedance(0.0, 0.0), Impedance(-43.92481, 76.08),
                                 Impedance(71.18719, 76.08), Impedance(65.8066, -26.58759))
  const PHASE2 := Quadrilateral(Impedance(0.0, 0.0), Impedance(-43.92481, 76.08),
                                Impedance(48.78719, 76.08), Impedance(43.87107, -17.72506))

  // ----- measured quantities -----

  datatype Phase = A | B | C

  datatype Phasors = Phasors(VA: Complex, VB: Complex, VC: Complex, IA: Complex, IB: Complex, IC: Complex)
  {
    function V(p: Phase): Complex
    {
      match p case A => VA case B => VB case C => VC
    }

    function I(p: Phase): Complex
    {
      match p case A => IA case B => IB case C => IC
    }

    function IN(): Complex { Add(Add(IA, IB), IC) }
  }

  /** What `get_phasors` hands out when the samples could not be read. */
  const NULL_PHASORS := Phasors(ZERO, ZERO, ZERO, ZERO, ZERO, ZERO)

  /** Complex division. A zero divisor gives no impedance: the C quotient is then not
      finite, and no such quotient passes the zone test. */
  function Divide(a: Complex, b: Complex): Option<Complex>
  {
    if b == ZERO then None
    else
      NormSqZero(b);
      Some(Scale(1.0 / NormSq(b), Mul(a, Conj(b))))
  }

  datatype Loop = ToGround(p: Phase) | Between(p: Phase, q: Phase)

  function ApparentImpedance(ph: Phasors, loop: Loop): Option<Complex>
  {
    match loop
    case ToGround(p) => Divide(ph.V(p), Add(ph.I(p), Scale(K0, ph.IN())))
    case Between(p, q) => Divide(Sub(ph.V(p), ph.V(q)), Sub(ph.I(p), ph.I(q)))
  }

  // ----- pickup and classification -----

  datatype Zone = Zone1 | Zone2

  function Shape(zone: Zone, loop: Loop): Quadrilateral
  {
    match zone
    case Zone1 => if loop.ToGround? then GROUND1 else PHASE1
    case Zone2 => if loop.ToGround? then GROUND2 else PHASE2
  }

  predicate PicksUp(ph: Phasors, zone: Zone, loop: Loop)
  {
    match ApparentImpedance(ph, loop)
    case None => false
    case Some(z) => IsInside(Impedance(z.re, z.im), Shape(zone, loop))
  }

  datatype Pickup = Pickup(AT: bool, BT: bool, CT: bool, AB: bool, BC: bool, CA: bool)

  function PickupOf(ph: Phasors, zone: Zone): Pickup
  {
    Pickup(PicksUp(ph, zone, ToGround(A)), PicksUp(ph, zone, ToGround(B)), PicksUp(ph, zone, ToGround(C)),
           PicksUp(ph, zone, Between(A, B)), PicksUp(ph, zone, Between(B, C)), PicksUp(ph, zone, Between(C, A)))
  }

  /** A fault type: the phases involved, and whether earth is named in the message. */
  datatype Fault = Fault(phases: set<Phase>, grounded: bool)

  /** The chain of ten tests, in the order of the source. */
  function Classify(i: Pickup): Option<Fault>
  {
    if i.AT && !i.BT && !i.CT && !i.AB && !i.BC && !i.CA then Some(Fault({A}, true))
    else if !i.AT && i.BT && !i.CT && !i.AB && !i.BC && !i.CA then Some(Fault({B}, true))
    else if !i.AT && !i.BT && i.CT && !i.AB && !i.BC && !i.CA then Some(Fault({C}, true))
    else if !i.AT && !i.BT && !i.CT && i.AB && !i.BC && !i.CA then Some(Fault({A, B}, false))
    else if !i.AT && !i.BT && !i.CT && !i.AB && i.BC && !i.CA then Some(Fault({B, C}, false))
    else if !i.AT && !i.BT && !i.CT && !i.AB && !i.BC && i.CA then Some(Fault({C, A}, false))
    else if i.AT && i.BT && !i.CT && i.AB && !i.BC && !i.CA then Some(Fault({A, B}, true))
    else if !i.AT && i.BT && i.CT && !i.AB && i.BC && !i.CA then Some(Fault({B, C}, true))
    else if i.AT && !i.BT && i.CT && !i.AB && !i.BC && i.CA then Some(Fault({C, A}, true))
    else if i.AT && i.BT && i.CT && i.AB && i.BC && i.CA then Some(Fault({A, B, C}, false))
    else None
  }

  function Decision(ph: Phasors, zone: Zone): Option<Fault>
  {
    Classify(PickupOf(ph, zone))
  }

  // ----- the loop of relay A and the loop of relay B -----

  datatype Report = LocalFault(fault: Fault, zone: Zone) | RemoteTrip

  const ZONE2_DELAY: real := 200.0
  const CYCLE_TIME: real := 1000.0 / 60.0

  /** The messages of one turn of a relay's loop; `remote` is relay B's reading of tripA. */
  function CycleReports(ph: Phasors, remote: bool): seq<Report>
  {
    (if remote then [RemoteTrip] else [])
    + (if Decision(ph, Zone1).Some? then [LocalFault(Decision(ph, Zone1).value, Zone1)] else [])
    + (if Decision(ph, Zone2).Some? then [LocalFault(Decision(ph, Zone2).value, Zone2)] else [])
  }

  function CycleDuration(ph: Phasors): real
  {
    (if Decision(ph, Zone2).Some? then ZONE2_DELAY else 0.0) + CYCLE_TIME
  }

  /** The place of a report among those of one turn. */
  function Stage(report: Report): nat
  {
    match report
    case RemoteTrip => 0
    case LocalFault(_, Zone1) => 1
    case LocalFault(_, Zone2) => 2
  }

  /** The reports one turn makes: of a fault when and only when the zone decides for it, of the
      remote trip when it was received; each once, the remote trip first, zone 2 last. */
  ghost predicate AreReportsOf(reports: seq<Report>, ph: Phasors, remote: bool)
  {
    && (forall f, zone :: LocalFault(f, zone) in reports <==> Decision(ph, zone) == Some(f))
    && (RemoteTrip in reports <==> remote)
    && (forall i, j :: 0 <= i < j < |reports| ==> Stage(reports[i]) < Stage(reports[j]))
  }

  lemma ReportsOfCycle(ph: Phasors, remote: bool)
    ensures AreReportsOf(CycleReports(ph, remote), ph, remote)
  {
    hide Decision;
    forall f, zone
      ensures LocalFault(f, zone) in CycleReports(ph, remote) <==> Decision(ph, zone) == Some(f)
    {
      match zone case Zone1 => case Zone2 =>
    }
  }

  class Relay {
    var trip: bool
    var reports: seq<Report>
    var slept: real

    constructor ()
      ensures !trip && reports == [] && slept == 0.0
    {
      trip := false;
      reports := [];
      slept := 0.0;
    }

    /** `trip_`: reports, and latches. */
    method Trip(report: Report)
      modifies this
      ensures trip && reports == old(reports) + [report] && slept == old(slept)
    {
      reports := reports + [report];
      trip := true;
    }

    method WaitMs(milliseconds: real)
      modifies this`slept
      ensures slept == old(slept) + milliseconds
    {
      slept := slept + milliseconds;
    }

    /** One turn of the endless loop, on the phasors just read. Relay A has no remote input. */
    method Cycle(ph: Phasors, remote: bool)
      modifies this
      ensures reports == old(reports) + CycleReports(ph, remote)
      ensures trip == (old(trip) || CycleReports(ph, remote) != [])
      ensures slept == old(slept) + CycleDuration(ph)
      ensures old(reports) <= reports && AreReportsOf(reports[|old(reports)|..], ph, remote)
      ensures trip <==> old(trip) || remote || Decision(ph, Zone1).Some? || Decision(ph, Zone2).Some?
      ensures slept == old(slept) + (if Decision(ph, Zone2).Some? then 200.0 else 0.0) + 1000.0 / 60.0
    {
      hide Decision;
      ReportsOfCycle(ph, remote);
      if remote {
        Trip(RemoteTrip);
      }
      var fault1 := Decision(ph, Zone1);
      if fault1.Some? {
        Trip(LocalFault(fault1.value, Zone1));
      }
      var fault2 := Decision(ph, Zone2);
      if fault2.Some? {
        WaitMs(ZONE2_DELAY);
        Trip(LocalFault(fault2.value, Zone2));
      }
      WaitMs(CYCLE_TIME);
    }
  }
}
