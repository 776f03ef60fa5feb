/** From the table of signals to the trip: the formatting script writes the file, the relay
    reads it window by window, and every printed digit short of the sample is accounted for. */
module FileToTrip {
  import opened ComplexNumbers
  import opened Magnitudes
  import opened FourierTransform
  import opened Spectrum
  import opened NearTones
  import opened DistanceRelay
  import opened DistanceProperties
  import opened DistanceTolerance
  import opened WindowedReader
  import opened ReaderProperties
  import opened SampleFile
  import opened Acquisition

  /** Half a millionth of a secondary unit, as a primary voltage and as a primary current. */
  const VOLTAGE_ERROR: real := 0.0000005 * Ratio(0)
  const CURRENT_ERROR: real := 0.0000005 * Ratio(3)

  /** Rows `first` to `first + 31` of the table hold the samples of signals t. */
  ghost predicate HoldsTones(rows: seq<seq<real>>, first: nat, w: Complex, t: Tones)
  {
    && IsTable(rows) && first + BUFFER_SIZE <= |rows| && t.Valid(BUFFER_SIZE)
    && (forall ch :: 0 <= ch < NUM_CHANNELS ==>
          && IsTone(Column(rows, first, ch), w, t.k, t.offsets[ch], t.half[ch])
          && (t.offsets[ch] == 0.0
              || Exceeds(t.half[ch], Abs(t.offsets[ch]) + 2.0 * ErrorOf(ch, VOLTAGE_ERROR, CURRENT_ERROR))))
  }

  /** One window of one channel of the table. */
  function Column(rows: seq<seq<real>>, first: nat, ch: nat): (x: seq<real>)
    requires IsTable(rows) && first + BUFFER_SIZE <= |rows| && ch < NUM_CHANNELS
    ensures |x| == BUFFER_SIZE
  {
    seq(BUFFER_SIZE, i requires 0 <= i < BUFFER_SIZE => assert |rows[first + i]| == NUM_CHANNELS; rows[first + i][ch])
  }

  // ----- what the reader holds -----

  /** Every call on the file of a table succeeds. */
  lemma TableCallSucceeds(rows: seq<seq<real>>, n: nat)
    requires IsTable(rows)
    ensures CallSucceeds(FileOf(rows), n)
  {
    hide WellFormed, Consumed, ReadStep, FileOf;
    var lines := FileOf(rows);
    forall j | 0 <= j < |lines| ensures WellFormed(lines[j]) {
      SampleRoundTrip(rows, j, 0);
    }
    CallOutcome(lines, n);
  }

  lemma WholeWindows(lines: seq<string>, q: nat, i: nat)
    requires BUFFER_SIZE * (q + 1) <= |lines| && i < BUFFER_SIZE
    ensures Consumed(lines, q + 1) == BUFFER_SIZE * (q + 1)
    ensures LastLine(BUFFER_SIZE * (q + 1), i) == BUFFER_SIZE * q + i
  {
    LastLineIs(BUFFER_SIZE * (q + 1), i, q);
  }

  /** Call q delivers rows 32q to 32q+31 of the table, off by the printing error. */
  lemma WindowOfTable(rows: seq<seq<real>>, q: nat, ch: nat)
    requires IsTable(rows) && BUFFER_SIZE * (q + 1) <= |rows| && ch < NUM_CHANNELS
    ensures IsNear(Column(rows, BUFFER_SIZE * q, ch), AfterCalls(FileOf(rows), q + 1).buffer[ch],
                   ErrorOf(ch, VOLTAGE_ERROR, CURRENT_ERROR))
  {
    hide Consumed, ReadStep, FileOf, LastLine, AfterCalls;
    var x, y := Column(rows, BUFFER_SIZE * q, ch), AfterCalls(FileOf(rows), q + 1).buffer[ch];
    assert Ratio(ch) == if ch < 3 then Ratio(0) else Ratio(3);
    forall i | 0 <= i < BUFFER_SIZE
      ensures -(0.0000005 * Ratio(ch)) <= y[i] - x[i] <= 0.0000005 * Ratio(ch)
    {
      WholeWindows(FileOf(rows), q, i);
      TableRoundTrip(rows, q + 1, ch, i);
    }
  }

  lemma BufferHoldsNearTones(rows: seq<seq<real>>, q: nat, w: Complex, t: Tones)
    requires HoldsTones(rows, BUFFER_SIZE * q, w, t)
    ensures var tones := seq(NUM_CHANNELS, ch requires 0 <= ch < NUM_CHANNELS => Column(rows, BUFFER_SIZE * q, ch));
            AreNearTones(AfterCalls(FileOf(rows), q + 1).buffer, tones, BUFFER_SIZE, w, t, VOLTAGE_ERROR, CURRENT_ERROR)
  {
    hide Column, AfterCalls, FileOf, IsTone, IsNear, Exceeds;
    forall ch | 0 <= ch < NUM_CHANNELS
      ensures IsNear(Column(rows, BUFFER_SIZE * q, ch), AfterCalls(FileOf(rows), q + 1).buffer[ch],
                     ErrorOf(ch, VOLTAGE_ERROR, CURRENT_ERROR))
    {
      WindowOfTable(rows, q, ch);
    }
  }

  // ----- what the relay makes of it -----

  /** The phasors of turn q, counting from 0. */
  function PhasorsAt(rows: seq<seq<real>>, q: nat, w: Complex): Phasors
  {
    PhasorsOf(AfterCalls(FileOf(rows), q + 1).buffer, w)
  }

  lemma PhasorsAtAreOffBy(rows: seq<seq<real>>, q: nat, w: Complex, t: Tones)
    requires RootOf(w, BUFFER_SIZE) && HoldsTones(rows, BUFFER_SIZE * q, w, t)
    ensures IsOffBy(t.Signals(), PhasorsAt(rows, q, w), PhasorVoltageError(), PhasorCurrentError())
  {
    hide Column, AfterCalls, FileOf, RootOf, HoldsTones, AreNearTones, PhasorsOf, IsOffBy, Tones.Signals;
    assert IsPowerOfTwo(BUFFER_SIZE);
    assert IsTable(rows) && BUFFER_SIZE * q + BUFFER_SIZE <= |rows| by { TableOfTones(rows, BUFFER_SIZE * q, w, t); }
    BufferHoldsNearTones(rows, q, w, t);
    var tones := seq(NUM_CHANNELS, ch requires 0 <= ch < NUM_CHANNELS => Column(rows, BUFFER_SIZE * q, ch));
    NearTonesAreOffBy(AfterCalls(FileOf(rows), q + 1).buffer, tones, BUFFER_SIZE, w, t, VOLTAGE_ERROR, CURRENT_ERROR);
  }

  lemma TableOfTones(rows: seq<seq<real>>, first: nat, w: Complex, t: Tones)
    requires HoldsTones(rows, first, w, t)
    ensures IsTable(rows) && first + BUFFER_SIZE <= |rows| && t.Valid(BUFFER_SIZE)
  {}

  function PhasorVoltageError(): real { 6.0 * VOLTAGE_ERROR }

  function PhasorCurrentError(): real { 6.0 * CURRENT_ERROR }

  /** The signals of a fault clear enough for both zones. */
  ghost predicate IsClearFault(t: Tones, f: Fault, d: real, z: Complex, z0: Complex, iMin: real)
    requires t.Valid(BUFFER_SIZE)
  {
    && IsLine(z, z0) && z.im > 0.0 && 0.0 <= z.re <= z.im / 2.0
    && IsClearFaultAt(t.Signals(), Zone1, f, d, z, z0, PhasorVoltageError(), PhasorCurrentError(), iMin)
    && IsClearFaultAt(t.Signals(), Zone2, f, d, z, z0, PhasorVoltageError(), PhasorCurrentError(), iMin)
  }

  /** How far, in ohms, from the ends of a zone a fault must lie for its name to be certain. */
  function Band(X: real, iMin: real): real
    requires iMin > CurrentError(PhasorCurrentError())
  {
    3.0 * ImpedanceError(X, PhasorVoltageError(), PhasorCurrentError(), iMin)
  }

  /** From file to decision: what turn q of a relay decides on rows 32q to 32q+31 of a table
      of signals at any frequency of the spectrum. */
  lemma FileToDecision(rows: seq<seq<real>>, q: nat, w: Complex, t: Tones, f: Fault, d: real, z: Complex, z0: Complex,
                       iMin: real, zone: Zone)
    requires RootOf(w, BUFFER_SIZE) && HoldsTones(rows, BUFFER_SIZE * q, w, t)
    requires IsClearFault(t, f, d, z, z0, iMin)
    ensures Band(d * z.im, iMin) <= d * z.im <= Reach(zone) - Band(d * z.im, iMin) ==>
              Decision(PhasorsAt(rows, q, w), zone) == Some(f)
    ensures d * z.im < -Band(d * z.im, iMin) || d * z.im > Reach(zone) + Band(d * z.im, iMin) ==>
              Decision(PhasorsAt(rows, q, w), zone) == None
  {
    hide RootOf, HoldsTones, PhasorsAt, IsOffBy, Tones.Signals, Decision, Scale, Reach, CurrentError, ImpedanceError;
    hide PhasorVoltageError, PhasorCurrentError;
    TableOfTones(rows, BUFFER_SIZE * q, w, t);
    PhasorsAtAreOffBy(rows, q, w, t);
    FaultIsStillNamed(t.Signals(), PhasorsAt(rows, q, w), zone, f, d, z, z0,
                      PhasorVoltageError(), PhasorCurrentError(), iMin);
  }

  /** The reader state of a relay after its turns is that of the reader after as many calls. */
  lemma {:induction false} TurnsAreCalls(lines: seq<string>, trip: bool, w: Complex, remote: seq<bool>)
    ensures AfterTurns(Readable(lines), Start(), trip, w, remote).0 == AfterCalls(lines, |remote|)
  {
    hide ReadStep, PhasorsOf, CycleReports;
    if remote == [] {
    } else {
      TurnsAreCalls(lines, trip, w, remote[..|remote| - 1]);
    }
  }

  /** The latch after a run of turns on the file of a table, from the start of the program. */
  function LatchAfter(rows: seq<seq<real>>, w: Complex, remote: seq<bool>): bool
  {
    AfterTurns(Readable(FileOf(rows)), Start(), false, w, remote).1
  }

  lemma LastTurn(rows: seq<seq<real>>, w: Complex, remote: seq<bool>)
    requires IsTable(rows) && remote != []
    ensures var q := |remote| - 1;
            LatchAfter(rows, w, remote)
              == (LatchAfter(rows, w, remote[..q]) || CycleReports(PhasorsAt(rows, q, w), remote[q]) != [])
  {
    hide ReadStep, PhasorsOf, CycleReports, FileOf;
    var q := |remote| - 1;
    TurnsAreCalls(FileOf(rows), false, w, remote[..q]);
    TableCallSucceeds(rows, q);
  }

  lemma ReportsOfTurn(ph: Phasors, remote: bool)
    ensures CycleReports(ph, remote) != [] <==> remote || Decision(ph, Zone1).Some? || Decision(ph, Zone2).Some?
  {
    hide Decision;
  }

  /** From file to latch, from the start of the program: the turn that reads the signals of a
      fault sets the latch when the fault lies within zone 2 but for the band, and leaves it to
      earlier turns and to the other relay when the fault lies outside but for the band. */
  lemma FileToLatch(rows: seq<seq<real>>, w: Complex, remote: seq<bool>, t: Tones, f: Fault, d: real, z: Complex,
                    z0: Complex, iMin: real)
    requires remote != [] && RootOf(w, BUFFER_SIZE) && HoldsTones(rows, BUFFER_SIZE * (|remote| - 1), w, t)
    requires IsClearFault(t, f, d, z, z0, iMin)
    ensures Band(d * z.im, iMin) <= d * z.im <= Reach(Zone2) - Band(d * z.im, iMin) ==> LatchAfter(rows, w, remote)
    ensures d * z.im < -Band(d * z.im, iMin) || d * z.im > Reach(Zone2) + Band(d * z.im, iMin) ==>
              LatchAfter(rows, w, remote) == (LatchAfter(rows, w, remote[..|remote| - 1]) || remote[|remote| - 1])
  {
    hide RootOf, HoldsTones, PhasorsAt, Decision, CycleReports, LatchAfter, IsClearFault, Band;
    var q := |remote| - 1;
    TableOfTones(rows, BUFFER_SIZE * q, w, t);
    LastTurn(rows, w, remote);
    FileToDecision(rows, q, w, t, f, d, z, z0, iMin, Zone1);
    FileToDecision(rows, q, w, t, f, d, z, z0, iMin, Zone2);
    ReportsOfTurn(PhasorsAt(rows, q, w), remote[q]);
  }

  // ----- a record with a fault in it -----

  /** Window i of the table holds the signals ts[i], none of which is a fault to either zone. */
  ghost predicate IsHealthyRecord(rows: seq<seq<real>>, w: Complex, ts: seq<Tones>)
  {
    forall i :: 0 <= i < |ts| ==>
      && HoldsTones(rows, BUFFER_SIZE * i, w, ts[i])
      && IsHealthy(ts[i].Signals(), Zone1, PhasorVoltageError(), PhasorCurrentError())
      && IsHealthy(ts[i].Signals(), Zone2, PhasorVoltageError(), PhasorCurrentError())
  }

  /** A relay does not trip on windows without a fault, except on a trip it receives. */
  lemma {:induction false} HealthyRecordNeverTrips(rows: seq<seq<real>>, w: Complex, ts: seq<Tones>, remote: seq<bool>)
    requires RootOf(w, BUFFER_SIZE) && |remote| == |ts| && IsHealthyRecord(rows, w, ts)
    ensures LatchAfter(rows, w, remote) == (true in remote)
  {
    hide RootOf, HoldsTones, PhasorsAt, Decision, CycleReports, IsHealthy, IsOffBy, Tones.Signals, FileOf, Measure;
    if remote == [] {
    } else {
      var q := |remote| - 1;
      HealthyRecordNeverTrips(rows, w, ts[..q], remote[..q]);
      TableOfTones(rows, BUFFER_SIZE * q, w, ts[q]);
      hide LatchAfter;
      LastTurn(rows, w, remote);
      PhasorsAtAreOffBy(rows, q, w, ts[q]);
      HealthyIsSilent(ts[q].Signals(), PhasorsAt(rows, q, w), Zone1, PhasorVoltageError(), PhasorCurrentError());
      HealthyIsSilent(ts[q].Signals(), PhasorsAt(rows, q, w), Zone2, PhasorVoltageError(), PhasorCurrentError());
      ReportsOfTurn(PhasorsAt(rows, q, w), remote[q]);
      LastOf(remote);
    }
  }

  /** The relay trips with the fault: not in the windows before it, and in the window that
      holds it, when that is a fault of any of the ten types within zone 2 but for the band. */
  lemma TripsWithTheFault(rows: seq<seq<real>>, w: Complex, ts: seq<Tones>, remote: seq<bool>, t: Tones, f: Fault,
                          d: real, z: Complex, z0: Complex, iMin: real)
    requires RootOf(w, BUFFER_SIZE) && IsHealthyRecord(rows, w, ts)
    requires |remote| == |ts| + 1 && true !in remote
    requires HoldsTones(rows, BUFFER_SIZE * |ts|, w, t) && IsClearFault(t, f, d, z, z0, iMin)
    requires Band(d * z.im, iMin) <= d * z.im <= Reach(Zone2) - Band(d * z.im, iMin)
    ensures !LatchAfter(rows, w, remote[..|ts|]) && LatchAfter(rows, w, remote)
  {
    hide RootOf, HoldsTones, LatchAfter, IsClearFault, Band, IsHealthyRecord;
    assert true !in remote[..|ts|];
    HealthyRecordNeverTrips(rows, w, ts, remote[..|ts|]);
    FileToLatch(rows, w, remote, t, f, d, z, z0, iMin);
  }
}
