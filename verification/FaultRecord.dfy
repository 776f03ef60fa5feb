/** Tables of signals, and one that takes a relay from rest to a trip. */
module FaultRecord {
  import opened ComplexNumbers
  import opened Magnitudes
  import opened FourierTransform
  import opened Spectrum
  import opened PhasorExtraction
  import opened DistanceRelay
  import opened DistanceProperties
  import opened DistanceTolerance
  import opened WindowedReader
  import opened SampleFile
  import opened Acquisition
  import opened FileToTrip

  // ----- tables that hold given signals -----

  predicate AreSignals(ts: seq<Tones>)
  {
    forall i :: 0 <= i < |ts| ==> ts[i].Valid(BUFFER_SIZE)
  }

  /** The samples of signals that change from window to window. */
  function RecordOf(w: Complex, ts: seq<Tones>): (rows: seq<seq<real>>)
    requires AreSignals(ts)
    ensures IsTable(rows) && |rows| == BUFFER_SIZE * |ts|
  {
    hide ToneSample;
    seq(BUFFER_SIZE * |ts|, n requires 0 <= n < BUFFER_SIZE * |ts| =>
      var t := ts[n / BUFFER_SIZE];
      seq(NUM_CHANNELS, ch requires 0 <= ch < NUM_CHANNELS =>
        ToneSample(w, t.k, t.offsets[ch], t.half[ch], n % BUFFER_SIZE).re))
  }

  /** Such a table holds its signals, if their offsets are absent. */
  lemma RecordHolds(w: Complex, ts: seq<Tones>, i: nat)
    requires AreSignals(ts) && i < |ts| && forall ch :: 0 <= ch < NUM_CHANNELS ==> ts[i].offsets[ch] == 0.0
    ensures HoldsTones(RecordOf(w, ts), BUFFER_SIZE * i, w, ts[i])
  {
    hide ToneSample, Exceeds;
    var rows, t, first := RecordOf(w, ts), ts[i], BUFFER_SIZE * i;
    forall ch, n | 0 <= ch < NUM_CHANNELS && 0 <= n < BUFFER_SIZE
      ensures FromReal(Column(rows, first, ch)[n]) == ToneSample(w, t.k, t.offsets[ch], t.half[ch], n)
    {
      assert (first + n) / BUFFER_SIZE == i && (first + n) % BUFFER_SIZE == n;
      ToneIsReal(w, t.k, t.offsets[ch], t.half[ch], n);
    }
  }

  // ----- loops far from both zones -----

  lemma ExceedsByPart(z: Complex, r: real)
    requires r >= 0.0 && (z.re < -r || z.re > r || z.im < -r || z.im > r)
    ensures Exceeds(z, r)
  {
    hide Square, NormSq;
    if NormSq(z) <= Square(r) { WithinParts(z, r); }
  }

  lemma WithinByParts(z: Complex, r: real)
    requires -r <= z.re <= r && z.im == 0.0
    ensures Within(z, r)
  {
    hide Square;
    SquareWithin(z.re, r);
    SquareSign(0.0);
  }

  /** The errors of one window come to less than an ohm at the distances of the zones. */
  lemma ErrorsAreSmall(X: real, iMin: real)
    requires X == 10.0 && iMin == 1.0
    ensures CurrentError(PhasorCurrentError()) < iMin && Band(X, iMin) < 1.0
    ensures 2.0 * PhasorVoltageError() + MAX_OHMS * CurrentError(PhasorCurrentError()) < 1.0
  {}

  /** At most 4 A, and more than 500 V. */
  predicate IsLight(ph: Phasors, loop: Loop)
  {
    var v, i := LoopVoltage(ph, loop), LoopCurrent(ph, loop);
    && i.im == 0.0 && -4.0 <= i.re <= 4.0
    && (v.re < -500.0 || v.re > 500.0 || v.im < -500.0 || v.im > 500.0)
  }

  lemma LightLoopIsApart(ph: Phasors, zone: Zone, loop: Loop)
    requires IsLight(ph, loop)
    ensures IsApart(ph, zone, loop, 2.0 * PhasorVoltageError() + MAX_OHMS * CurrentError(PhasorCurrentError()))
  {
    hide LoopCurrent, LoopVoltage, IsApart, Within, Exceeds;
    ErrorsAreSmall(10.0, 1.0);
    var e := 2.0 * PhasorVoltageError() + MAX_OHMS * CurrentError(PhasorCurrentError());
    WithinByParts(LoopCurrent(ph, loop), 4.0);
    ExceedsByPart(LoopVoltage(ph, loop), e + MAX_OHMS * 4.0);
    FarLoopIsApart(ph, zone, loop, 4.0, e);
  }

  function Doubled(c: Complex): Complex { Complex(2.0 * c.re, 2.0 * c.im) }

  lemma SignalsAreDoubled(t: Tones)
    requires |t.half| == NUM_CHANNELS
    ensures t.Signals() == Phasors(Doubled(t.half[0]), Doubled(t.half[1]), Doubled(t.half[2]),
                                   Doubled(t.half[3]), Doubled(t.half[4]), Doubled(t.half[5]))
  {
    hide Doubled;
    forall c: Complex ensures Scale(2.0, c) == Doubled(c) { AmplitudeIsDouble(c); }
  }

  lemma AmplitudeIsDouble(c: Complex)
    ensures Scale(2.0, c) == Doubled(c)
  {}

  /** Signals of which at most phase A carries current, up to 2 A. */
  lemma QuietPhasesAreLight(ph: Phasors, i: real, loop: Loop)
    requires IsLoop(loop) && 0.0 <= i <= 2.0
    requires ph.IA == Complex(i, 0.0) && ph.IB == ZERO && ph.IC == ZERO
    requires ph.VC == Complex(-2000.0, 0.0) && -1000.0 <= ph.VA.im <= 1000.0
    requires (ph.VB == Complex(2000.0, 0.0) && ph.VA.re == 0.0)
             || (ph.VB == Complex(0.0, 2000.0) && ph.VA.re == 2000.0)
    ensures loop != ToGround(A) || ph.VA.re == 2000.0 ==> IsLight(ph, loop)
  {
    ResidualOfOne(ph, i);
    hide Scale, K0;
    match loop {
      case ToGround(A) => case ToGround(B) => case ToGround(C) =>
      case Between(A, B) => case Between(B, C) => case Between(C, A) =>
      case Between(B, A) => case Between(C, B) => case Between(A, C) =>
      case _ =>
    }
  }

  lemma ResidualOfOne(ph: Phasors, i: real)
    requires ph.IA == Complex(i, 0.0) && ph.IB == ZERO && ph.IC == ZERO
    ensures Scale(K0, ph.IN()) == Complex(K0 * i, 0.0)
    ensures 0.0 <= i <= 2.0 ==> 0.0 <= K0 * i <= 2.0
  {
    assert ph.IN() == Complex(i, 0.0);
  }

  /** Load voltages without current. */
  predicate IsLoad(ph: Phasors)
  {
    && ph.VA == Complex(2000.0, 0.0) && ph.VB == Complex(0.0, 2000.0) && ph.VC == Complex(-2000.0, 0.0)
    && ph.IA == ph.IB == ph.IC == ZERO
  }

  lemma LoadIsHealthy(ph: Phasors, zone: Zone)
    requires IsLoad(ph)
    ensures IsHealthy(ph, zone, PhasorVoltageError(), PhasorCurrentError())
  {
    hide IsApart, PhasorVoltageError, PhasorCurrentError, CurrentError, IsLight;
    forall loop | IsLoop(loop)
      ensures IsApart(ph, zone, loop, 2.0 * PhasorVoltageError() + MAX_OHMS * CurrentError(PhasorCurrentError()))
    {
      QuietPhasesAreLight(ph, 0.0, loop);
      LightLoopIsApart(ph, zone, loop);
    }
  }

  /** Phase A to earth, 10 km down a line of 1 ohm per km; the other phases carry no current. */
  predicate IsEarthFault(ph: Phasors)
  {
    && ph.VA == Complex(0.0, 10.0 * (2.0 + K0 * 2.0))
    && ph.VB == Complex(2000.0, 0.0) && ph.VC == Complex(-2000.0, 0.0)
    && ph.IA == Complex(2.0, 0.0) && ph.IB == ph.IC == ZERO
  }

  lemma EarthFaultIsBolted(ph: Phasors, i: real, d: real, z: Complex, z0: Complex)
    requires z == Complex(0.0, 1.0) && IsLine(z, z0)
    requires ph.IA == Complex(i, 0.0) && ph.IB == ZERO && ph.IC == ZERO
    requires ph.VA == Complex(0.0, d * (i + K0 * i))
    ensures IsBoltedFault(ph, ToGround(A), d, z, z0)
    ensures LoopCurrent(ph, ToGround(A)) == Complex(i + K0 * i, 0.0)
  {
    hide Mul, Scale, K0;
    ResidualOfOne(ph, i);
    Compensation(z, z0, ph.IA, ph.IN());
    var c := Add(ph.IA, Scale(K0, ph.IN()));
    QuarterTurn(c);
    ScaleOf(d, Complex(0.0, c.re));
  }

  lemma ScaleOf(d: real, c: Complex)
    ensures Scale(d, c) == Complex(d * c.re, d * c.im)
  {}

  lemma AmplifiedCurrent(c: Complex, i: real)
    requires c.re == i + K0 * i && i == 2.0
    ensures Exceeds(c, 1.0)
  {
    hide Exceeds;
    ExceedsByPart(c, 1.0);
  }

  lemma SmallFaultVoltage(ph: Phasors)
    requires IsEarthFault(ph)
    ensures ph.VA.re == 0.0 <= ph.VA.im <= 1000.0
  {}

  lemma EarthFaultIsClear(t: Tones, iMin: real, d: real, zone: Zone, z: Complex, z0: Complex)
    requires t.Valid(BUFFER_SIZE) && IsEarthFault(t.Signals()) && d == 10.0 && iMin == 1.0
    requires z == Complex(0.0, 1.0) && IsLine(z, z0)
    ensures IsClearFaultAt(t.Signals(), zone, Fault({A}, true), d, z, z0,
                           PhasorVoltageError(), PhasorCurrentError(), iMin)
  {
    hide IsApart, PhasorVoltageError, PhasorCurrentError, Exceeds, IsLight, IsBoltedFault, LoopCurrent, Scale, K0;
    hide Tones.Signals;
    ErrorsAreSmall(d, iMin);
    hide CurrentError;
    var ph := t.Signals();
    SmallFaultVoltage(ph);
    EarthFaultIsBolted(ph, 2.0, d, z, z0);
    AmplifiedCurrent(LoopCurrent(ph, ToGround(A)), 2.0);
    forall loop | IsLoop(loop) && loop != ToGround(A)
      ensures IsApart(ph, zone, loop, 2.0 * PhasorVoltageError() + MAX_OHMS * CurrentError(PhasorCurrentError()))
    {
      QuietPhasesAreLight(ph, 2.0, loop);
      LightLoopIsApart(ph, zone, loop);
    }
  }

  // ----- the example -----

  /** Such records exist: a table of one window of load and one of an earth fault. Written,
      read and measured, it takes a relay from its start to a trip, in its second turn and not
      in its first; zone 1 names the fault. */
  lemma FaultExample(w: Complex) returns (rows: seq<seq<real>>)
    requires RootOf(w, BUFFER_SIZE)
    ensures IsTable(rows) && |rows| == 2 * BUFFER_SIZE
    ensures Decision(PhasorsAt(rows, 1, w), Zone1) == Some(Fault({A}, true))
    ensures !LatchAfter(rows, w, [false]) && LatchAfter(rows, w, [false, false])
  {
    hide IsLoad, IsEarthFault, RootOf, LatchAfter, PhasorsAt, Decision, Tones.Signals;
    var load := TonesOf(Complex(1000.0, 0.0), Complex(0.0, 1000.0), ZERO);
    var fault := TonesOf(Complex(0.0, 10.0 * (1.0 + K0)), Complex(1000.0, 0.0), ONE);
    HalvesOfLoad(load);
    HalvesOfFault(fault);
    rows := RecordTrips(w, load, fault, 10.0, 1.0, Complex(0.0, 1.0));
  }

  /** One cycle to the window and no offsets. */
  lemma TonesOf(va: Complex, vb: Complex, ia: Complex) returns (t: Tones)
    ensures t.Valid(BUFFER_SIZE) && forall ch :: 0 <= ch < NUM_CHANNELS ==> t.offsets[ch] == 0.0
    ensures t.half[0] == va && t.half[1] == vb && t.half[2] == Complex(-1000.0, 0.0)
    ensures t.half[3] == ia && t.half[4] == t.half[5] == ZERO
  {
    t := Tones(1, seq(NUM_CHANNELS, _ => 0.0), [va, vb, Complex(-1000.0, 0.0), ia, ZERO, ZERO]);
  }

  lemma HalvesOfLoad(t: Tones)
    requires |t.half| == NUM_CHANNELS && t.half[3] == t.half[4] == t.half[5] == ZERO
    requires t.half[0] == Complex(1000.0, 0.0) && t.half[1] == Complex(0.0, 1000.0)
    requires t.half[2] == Complex(-1000.0, 0.0)
    ensures IsLoad(t.Signals())
  {
    hide Tones.Signals;
    SignalsAreDoubled(t);
  }

  lemma HalvesOfFault(t: Tones)
    requires |t.half| == NUM_CHANNELS && t.half[3] == ONE && t.half[4] == t.half[5] == ZERO
    requires t.half[0] == Complex(0.0, 10.0 * (1.0 + K0))
    requires t.half[1] == Complex(1000.0, 0.0) && t.half[2] == Complex(-1000.0, 0.0)
    ensures IsEarthFault(t.Signals())
  {
    hide Tones.Signals;
    SignalsAreDoubled(t);
  }

  lemma RecordTrips(w: Complex, load: Tones, fault: Tones, d: real, iMin: real, z: Complex)
    returns (rows: seq<seq<real>>)
    requires RootOf(w, BUFFER_SIZE) && d == 10.0 && iMin == 1.0 && z == Complex(0.0, 1.0)
    requires load.Valid(BUFFER_SIZE) && forall ch :: 0 <= ch < NUM_CHANNELS ==> load.offsets[ch] == 0.0
    requires fault.Valid(BUFFER_SIZE) && forall ch :: 0 <= ch < NUM_CHANNELS ==> fault.offsets[ch] == 0.0
    requires IsLoad(load.Signals()) && IsEarthFault(fault.Signals())
    ensures IsTable(rows) && |rows| == 2 * BUFFER_SIZE
    ensures Decision(PhasorsAt(rows, 1, w), Zone1) == Some(Fault({A}, true))
    ensures !LatchAfter(rows, w, [false]) && LatchAfter(rows, w, [false, false])
  {
    hide RootOf, HoldsTones, LatchAfter, PhasorsAt, Decision, RecordOf, Tones.Signals, IsHealthy, IsClearFaultAt, Scale;
    hide IsLoad, IsEarthFault, Band;
    var f, z0 := Fault({A}, true), Scale(ZL0 / ZL1, z);
    LineRatio(z, z0);
    var ts := [load, fault];
    rows := RecordOf(w, ts);
    RecordHolds(w, ts, 0);
    RecordHolds(w, ts, 1);
    LoadIsHealthy(load.Signals(), Zone1);
    LoadIsHealthy(load.Signals(), Zone2);
    EarthFaultIsClear(fault, iMin, d, Zone1, z, z0);
    EarthFaultIsClear(fault, iMin, d, Zone2, z, z0);
    ErrorsAreSmall(d, iMin);
    assert IsHealthyRecord(rows, w, [load]);
    assert [false, false][..1] == [false];
    TripsWithTheFault(rows, w, [load], [false, false], fault, f, d, z, z0, iMin);
    FileToDecision(rows, 1, w, fault, f, d, z, z0, iMin, Zone1);
  }
}
