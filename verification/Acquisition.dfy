/** From samples to decisions: `get_phasors` of Algoritmos/phasor.c between the reader and the
    relays, and the properties of the whole measuring chain. */
module Acquisition {
  import opened ComplexNumbers
  import opened Magnitudes
  import opened FourierTransform
  import opened Spectrum
  import opened PhasorExtraction
  import opened NearTones
  import opened DistanceRelay
  import opened DistanceProperties
  import opened DistanceTolerance
  import opened WindowedReader
  import opened ReaderProperties

  /** The phasors of six windows, in the channel order of the data file. */
  function PhasorsOf(windows: seq<seq<real>>, w: Complex): Phasors
    requires |windows| == NUM_CHANNELS && forall ch :: 0 <= ch < NUM_CHANNELS ==> |windows[ch]| >= 2
  {
    Phasors(PhasorOf(windows[0], w), PhasorOf(windows[1], w), PhasorOf(windows[2], w),
            PhasorOf(windows[3], w), PhasorOf(windows[4], w), PhasorOf(windows[5], w))
  }

  /** What `get_phasors` hands out in reader state `st`, and the state it leaves. */
  function Measure(lines: Lines, st: ReaderState, w: Complex): (r: (ReaderState, Phasors))
    requires IsBuffer(st.buffer)
    ensures IsBuffer(r.0.buffer)
  {
    var step := ReadStep(lines, st);
    (step.0, if step.1 then PhasorsOf(step.0.buffer, w) else NULL_PHASORS)
  }

  function AsPhasors(p: seq<Complex>): Phasors
    requires |p| == NUM_CHANNELS
  {
    Phasors(p[0], p[1], p[2], p[3], p[4], p[5])
  }

  class PhasorSource {
    const reader: DataReader
    const phasors: array<Complex>

    ghost predicate Valid()
    {
      reader.Valid() && phasors.Length == NUM_CHANNELS
    }

    constructor (file: Lines)
      ensures Valid() && fresh(reader) && fresh(reader.buffer) && fresh(phasors)
      ensures reader.file == file && reader.State() == Start()
    {
      reader := new DataReader(file);
      phasors := new Complex[NUM_CHANNELS](_ => ZERO);
    }

    method GetPhasors(w: Complex)
      requires Valid() && RootOf(w, BUFFER_SIZE)
      modifies reader, reader.buffer, phasors
      ensures Valid()
      ensures (reader.State(), AsPhasors(phasors[..])) == Measure(reader.file, old(reader.State()), w)
      ensures reader.State() == ReadStep(reader.file, old(reader.State())).0
      ensures forall ch :: 0 <= ch < 6 ==>
                phasors[ch] == if ReadStep(reader.file, old(reader.State())).1
                               then PhasorOf(reader.State().buffer[ch], w) else ZERO
    {
      hide PhasorOf, ReadStep, RootOf;
      var ok := reader.DataRead();
      if !ok {
        for i := 0 to NUM_CHANNELS
          modifies phasors
          invariant forall j :: 0 <= j < i ==> phasors[j] == ZERO
        {
          phasors[i] := ZERO;
        }
        return;
      }
      assert IsPowerOfTwo(BUFFER_SIZE);
      ghost var st := reader.State();
      for ch := 0 to NUM_CHANNELS
        modifies phasors
        invariant reader.State() == st
        invariant forall j :: 0 <= j < ch ==> phasors[j] == PhasorOf(st.buffer[j], w)
      {
        var p := ComputePhasor(reader.buffer, Index(ch, 0), BUFFER_SIZE, w);
        assert reader.buffer[Index(ch, 0)..Index(ch, 0) + BUFFER_SIZE] == st.buffer[ch];
        phasors[ch] := p;
      }
    }
  }

  // ----- from samples to distance -----

  /** Six signals of one frequency, in bin k, each on its own offset; `half` holds half the
      amplitude of each channel. */
  datatype Tones = Tones(k: nat, offsets: seq<real>, half: seq<Complex>)
  {
    predicate Valid(n: nat)
    {
      && 0 < k < n / 2
      && |offsets| == |half| == NUM_CHANNELS
    }

    /** The phasors of the signals, as amplitudes. */
    function Signals(): Phasors
      requires |half| == NUM_CHANNELS
    {
      Phasors(Scale(2.0, half[0]), Scale(2.0, half[1]), Scale(2.0, half[2]),
              Scale(2.0, half[3]), Scale(2.0, half[4]), Scale(2.0, half[5]))
    }
  }

  /** Six windows of such signals. Offsets are below half the amplitude, or absent. */
  ghost predicate AreTones(windows: seq<seq<real>>, n: nat, w: Complex, t: Tones)
  {
    && t.Valid(n) && |windows| == NUM_CHANNELS
    && forall ch :: 0 <= ch < NUM_CHANNELS ==>
         && |windows[ch]| == n
         && IsTone(windows[ch], w, t.k, t.offsets[ch], t.half[ch])
         && (NormSq(FromReal(t.offsets[ch])) < NormSq(t.half[ch]) || t.offsets[ch] == 0.0)
  }

  lemma TonesAreMeasured(windows: seq<seq<real>>, n: nat, w: Complex, t: Tones)
    requires IsPowerOfTwo(n) && RootOf(w, n) && AreTones(windows, n, w, t)
    ensures PhasorsOf(windows, w) == t.Signals()
  {
    hide PhasorOf, IsTone, NormSq, RootOf, IsPowerOfTwo;
    forall ch | 0 <= ch < NUM_CHANNELS ensures PhasorOf(windows[ch], w) == Scale(2.0, t.half[ch]) {
      ToneIsMeasured(windows[ch], w, t.k, t.offsets[ch], t.half[ch]);
    }
  }

  /** From samples to pickup: when the signals are those of a bolted fault at distance d, the
      chain measures d times the line impedance, whatever the load, the source and the
      offsets, and a zone picks the loop up exactly up to its reach. */
  lemma SamplesToPickup(windows: seq<seq<real>>, n: nat, w: Complex, t: Tones, loop: Loop, d: real, z: Complex,
                        z0: Complex, zone: Zone)
    requires IsPowerOfTwo(n) && RootOf(w, n) && AreTones(windows, n, w, t)
    requires IsLine(z, z0) && z.im > 0.0 && 0.0 <= z.re <= z.im / 2.0
    requires IsBoltedFault(t.Signals(), loop, d, z, z0) && LoopCurrent(t.Signals(), loop) != ZERO
    ensures ApparentImpedance(PhasorsOf(windows, w), loop) == Some(Scale(d, z))
    ensures PicksUp(PhasorsOf(windows, w), zone, loop) <==> 0.0 <= d * z.im <= Reach(zone)
  {
    hide PhasorsOf, IsTone, NormSq, IsBoltedFault, LoopCurrent, ApparentImpedance, PicksUp, Scale, Reach;
    hide RootOf, IsPowerOfTwo, Tones.Signals;
    TonesAreMeasured(windows, n, w, t);
    DistanceIsExact(t.Signals(), loop, d, z, z0);
    ReachIsExact(t.Signals(), zone, loop, d, z, z0);
  }

  /** From samples to decision: windows that hold the signals of a fault of any type are
      named by a zone exactly when the fault lies within its reach. */
  lemma SamplesToDecision(windows: seq<seq<real>>, n: nat, w: Complex, t: Tones, f: Fault, d: real, z: Complex,
                          z0: Complex, zone: Zone)
    requires IsPowerOfTwo(n) && RootOf(w, n) && AreTones(windows, n, w, t)
    requires IsLine(z, z0) && z.im > 0.0 && 0.0 <= z.re <= z.im / 2.0
    requires IsFaultAt(t.Signals(), zone, f, d, z, z0)
    ensures Decision(PhasorsOf(windows, w), zone) == if 0.0 <= d * z.im <= Reach(zone) then Some(f) else None
  {
    hide PhasorsOf, IsTone, NormSq, IsFaultAt, Decision, Scale, Reach, RootOf, IsPowerOfTwo, Tones.Signals;
    TonesAreMeasured(windows, n, w, t);
    FaultIsNamed(t.Signals(), zone, f, d, z, z0);
  }

  // ----- from samples that are slightly off -----

  function ErrorOf(ch: nat, eV: real, eI: real): real { if ch < 3 then eV else eI }

  /** Six windows no sample of which is off by more than eV, for a voltage, or eI, for a
      current. Offsets are absent, or below half the amplitude by more than twice that. */
  ghost predicate AreNearTones(windows: seq<seq<real>>, tones: seq<seq<real>>, n: nat, w: Complex, t: Tones,
                               eV: real, eI: real)
  {
    && t.Valid(n) && |windows| == |tones| == NUM_CHANNELS
    && forall ch :: 0 <= ch < NUM_CHANNELS ==>
         && |tones[ch]| == n
         && IsTone(tones[ch], w, t.k, t.offsets[ch], t.half[ch])
         && IsNear(tones[ch], windows[ch], ErrorOf(ch, eV, eI))
         && (t.offsets[ch] == 0.0
             || Exceeds(t.half[ch], Abs(t.offsets[ch]) + 2.0 * ErrorOf(ch, eV, eI)))
  }

  lemma NearToneIsOffBy(x: seq<real>, y: seq<real>, n: nat, w: Complex, k: nat, a: real, c: Complex, e: real)
    requires IsPowerOfTwo(n) && RootOf(w, n) && 0 < k < n / 2
    requires |x| == n && IsTone(x, w, k, a, c) && IsNear(x, y, e)
    requires a == 0.0 || Exceeds(c, Abs(a) + 2.0 * e)
    ensures Within(Sub(PhasorOf(y, w), Scale(2.0, c)), 6.0 * e)
  {
    hide Within, Exceeds, PhasorOf, IsTone, RootOf, IsPowerOfTwo;
    NearToneIsMeasured(x, y, w, e, k, a, c);
    if a != 0.0 { WithinWider(Sub(PhasorOf(y, w), Scale(2.0, c)), 2.0 * e, 6.0 * e); }
  }

  /** The phasors of such windows are off by at most six times the error of the samples. */
  lemma NearTonesAreOffBy(windows: seq<seq<real>>, tones: seq<seq<real>>, n: nat, w: Complex, t: Tones,
                          eV: real, eI: real)
    requires IsPowerOfTwo(n) && RootOf(w, n) && AreNearTones(windows, tones, n, w, t, eV, eI)
    ensures IsOffBy(t.Signals(), PhasorsOf(windows, w), 6.0 * eV, 6.0 * eI)
  {
    hide PhasorOf, IsTone, RootOf, IsPowerOfTwo, Within, Exceeds, Scale, Sub;
    forall ch | 0 <= ch < NUM_CHANNELS
      ensures Within(Sub(PhasorOf(windows[ch], w), Scale(2.0, t.half[ch])), 6.0 * ErrorOf(ch, eV, eI))
    {
      NearToneIsOffBy(tones[ch], windows[ch], n, w, t.k, t.offsets[ch], t.half[ch], ErrorOf(ch, eV, eI));
    }
    var ph, off := t.Signals(), PhasorsOf(windows, w);
    forall p ensures Within(Sub(off.V(p), ph.V(p)), 6.0 * eV) && Within(Sub(off.I(p), ph.I(p)), 6.0 * eI) {
      match p case A => case B => case C =>
    }
  }

  // ----- shifted windows -----

  /** All six windows read m samples later on a periodic record. */
  function RotatedWindows(windows: seq<seq<real>>, m: nat): seq<seq<real>>
    requires forall ch :: 0 <= ch < |windows| ==> m <= |windows[ch]|
  {
    seq(|windows|, ch requires 0 <= ch < |windows| => Rotate(windows[ch], m))
  }

  /** Where in the record the windows start does not matter to any impedance or decision, as
      long as the shift turns all channels that carry a signal by the same angle u; so in
      particular when they all peak in the same bin. */
  lemma DecisionIsShiftInvariant(windows: seq<seq<real>>, n: nat, w: Complex, m: nat, u: Complex, zone: Zone)
    requires n >= 2 && IsPowerOfTwo(n) && RootOf(w, n) && m <= n
    requires |windows| == NUM_CHANNELS && forall ch :: 0 <= ch < NUM_CHANNELS ==> |windows[ch]| == n
    requires u != ZERO
    requires forall ch :: 0 <= ch < NUM_CHANNELS ==>
               PhasorOf(windows[ch], w) == ZERO || Pow(w, PeakBin(windows[ch], w, n / 2) * m) == u
    ensures forall loop :: ApparentImpedance(PhasorsOf(RotatedWindows(windows, m), w), loop)
                           == ApparentImpedance(PhasorsOf(windows, w), loop)
    ensures Decision(PhasorsOf(RotatedWindows(windows, m), w), zone) == Decision(PhasorsOf(windows, w), zone)
  {
    hide Decision, ApparentImpedance, PhasorOf, PeakBin, RootOf, Pow, Mul, IsPowerOfTwo, Rotate;
    var later := RotatedWindows(windows, m);
    forall ch | 0 <= ch < NUM_CHANNELS
      ensures PhasorOf(windows[ch], w) == Mul(u, PhasorOf(later[ch], w))
    {
      RotatedChannel(windows[ch], w, m, u);
    }
    assert PhasorsOf(windows, w) == Turned(u, PhasorsOf(later, w));
    forall loop
      ensures ApparentImpedance(PhasorsOf(later, w), loop) == ApparentImpedance(PhasorsOf(windows, w), loop)
    {
      ImpedanceOfTurned(u, PhasorsOf(later, w), loop);
    }
    DecisionOfImpedances(PhasorsOf(later, w), PhasorsOf(windows, w), zone);
  }

  lemma RotatedChannel(x: seq<real>, w: Complex, m: nat, u: Complex)
    requires |x| >= 2 && IsPowerOfTwo(|x|) && RootOf(w, |x|) && m <= |x|
    requires PhasorOf(x, w) == ZERO || Pow(w, PeakBin(x, w, |x| / 2) * m) == u
    ensures PhasorOf(x, w) == Mul(u, PhasorOf(Rotate(x, m), w))
  {
    hide PhasorOf, PeakBin, Pow, Mul, Rotate, RootOf, IsPowerOfTwo;
    PhasorOfRotated(x, w, m);
    if PhasorOf(x, w) == ZERO {
      RotationIsNotZero(w, |x|, PeakBin(x, w, |x| / 2) * m);
      ProductIsZero(Pow(w, PeakBin(x, w, |x| / 2) * m), PhasorOf(Rotate(x, m), w));
      MulUnits(u);
    }
  }

  lemma RotationIsNotZero(w: Complex, n: nat, e: nat)
    requires IsPowerOfTwo(n) && RootOf(w, n)
    ensures Pow(w, e) != ZERO
  {
    hide NormSq;
    RootOnUnitCircle(w, n);
    PowOnUnitCircle(w, e);
    NormSqZero(ZERO);
  }

  /** Channels that all peak in the same bin are all turned by the same angle. */
  lemma SameBinIsShiftInvariant(windows: seq<seq<real>>, n: nat, w: Complex, m: nat, k: nat, zone: Zone)
    requires n >= 2 && IsPowerOfTwo(n) && RootOf(w, n) && m <= n
    requires |windows| == NUM_CHANNELS && forall ch :: 0 <= ch < NUM_CHANNELS ==> |windows[ch]| == n
    requires forall ch :: 0 <= ch < NUM_CHANNELS ==>
               PhasorOf(windows[ch], w) == ZERO || PeakBin(windows[ch], w, n / 2) == k
    ensures forall loop :: ApparentImpedance(PhasorsOf(RotatedWindows(windows, m), w), loop)
                           == ApparentImpedance(PhasorsOf(windows, w), loop)
    ensures Decision(PhasorsOf(RotatedWindows(windows, m), w), zone) == Decision(PhasorsOf(windows, w), zone)
  {
    hide Decision, ApparentImpedance, PhasorOf, PeakBin, RootOf, Pow, IsPowerOfTwo, Rotate;
    RotationIsNotZero(w, n, k * m);
    DecisionIsShiftInvariant(windows, n, w, m, Pow(w, k * m), zone);
  }

  // ----- whole runs of a relay -----

  /** The latch of a relay after one turn of its loop per element of `remote`, and the reader
      state then. `remote` lists relay B's readings of tripA; for relay A they are all false. */
  function AfterTurns(lines: Lines, st: ReaderState, trip: bool, w: Complex, remote: seq<bool>)
    : (r: (ReaderState, bool))
    requires IsBuffer(st.buffer)
    ensures IsBuffer(r.0.buffer)
  {
    if remote == [] then (st, trip)
    else
      var last := |remote| - 1;
      var before := AfterTurns(lines, st, trip, w, remote[..last]);
      var turn := Measure(lines, before.0, w);
      (turn.0, before.1 || CycleReports(turn.1, remote[last]) != [])
  }

  /** The endless loop of a relay, cut off after one turn per element of `remote`. */
  method RunTurns(source: PhasorSource, relay: Relay, w: Complex, remote: seq<bool>)
    requires source.Valid() && RootOf(w, BUFFER_SIZE)
    modifies source.reader, source.reader.buffer, source.phasors, relay
    ensures source.Valid()
    ensures (source.reader.State(), relay.trip)
         == AfterTurns(source.reader.file, old(source.reader.State()), old(relay.trip), w, remote)
  {
    hide Measure, CycleReports, CycleDuration, RootOf;
    ghost var st, trip := source.reader.State(), relay.trip;
    assert remote[..0] == [];
    for i := 0 to |remote|
      invariant source.Valid()
      invariant (source.reader.State(), relay.trip) == AfterTurns(source.reader.file, st, trip, w, remote[..i])
    {
      assert remote[..i + 1][..i] == remote[..i];
      source.GetPhasors(w);
      relay.Cycle(AsPhasors(source.phasors[..]), remote[i]);
    }
    assert remote[..|remote|] == remote;
  }

  lemma LastOf(remote: seq<bool>)
    requires remote != []
    ensures true in remote <==> true in remote[..|remote| - 1] || remote[|remote| - 1]
  {
    assert remote == remote[..|remote| - 1] + [remote[|remote| - 1]];
  }

  lemma FailedTurn(lines: Lines, st: ReaderState, w: Complex, remote: bool)
    requires IsBuffer(st.buffer) && !ReadStep(lines, st).1
    ensures Measure(lines, st, w) == (ReadStep(lines, st).0, NULL_PHASORS)
    ensures CycleReports(NULL_PHASORS, remote) == if remote then [RemoteTrip] else []
  {
    hide ReadStep, PhasorsOf, Decision;
    NullPhasorsDecideNothing(Zone1, ToGround(A));
    NullPhasorsDecideNothing(Zone2, ToGround(A));
  }

  /** Once a read has failed, every later one fails the same way, and no number of further
      turns trips a relay; only a trip received from the other relay still can. */
  lemma {:induction false} FailedReadNeverTrips(lines: Lines, st: ReaderState, trip: bool, w: Complex,
                                                remote: seq<bool>)
    requires IsBuffer(st.buffer) && !ReadStep(lines, st).1
    ensures AfterTurns(lines, st, trip, w, remote).1 == (trip || true in remote)
    ensures remote != [] ==> AfterTurns(lines, st, trip, w, remote).0 == ReadStep(lines, st).0
  {
    hide ReadStep, CycleReports, Measure, NULL_PHASORS;
    if remote == [] {
    } else {
      var last := |remote| - 1;
      LastOf(remote);
      FailedReadNeverTrips(lines, st, trip, w, remote[..last]);
      FailureIsFixedPoint(lines, st);
      FailedTurn(lines, AfterTurns(lines, st, trip, w, remote[..last]).0, w, remote[last]);
    }
  }

  /** At the end of the file the same window is measured for ever: the latch ends up set if
      that window calls for it, or if the other relay tripped, and not otherwise. */
  lemma {:induction false} EndOfFileRepeatsDecision(lines: seq<string>, st: ReaderState, trip: bool, w: Complex,
                                                    remote: seq<bool>)
    requires IsBuffer(st.buffer) && st.currentLine == |lines| && remote != []
    ensures var r := AfterTurns(Readable(lines), st, trip, w, remote);
            && r.0.buffer == st.buffer && r.0.currentLine == st.currentLine
            && (r.1 <==> trip || true in remote || CycleReports(PhasorsOf(st.buffer, w), false) != [])
  {
    hide ReadStep, PhasorsOf, Decision;
    var last := |remote| - 1;
    LastOf(remote);
    if last > 0 { EndOfFileRepeatsDecision(lines, st, trip, w, remote[..last]); }
    EndOfFileFreezes(lines, AfterTurns(Readable(lines), st, trip, w, remote[..last]).0);
  }
}
