/** When a relay trips, counted from the measurement that calls for it: at once for zone 1,
    after the wait of 200 ms for zone 2, and at the other end of the line once the trip has
    been transferred. */
module TripTiming {
  import opened ComplexNumbers
  import opened FourierTransform
  import opened DistanceRelay
  import opened DistanceProperties
  import opened WindowedReader
  import opened Acquisition
  import opened FileToTrip
  import opened Teleprotection
  import opened TransferTiming
  import opened TimeDivergence

  /** The wait between the measurement and the end of the tests of a turn. */
  function TurnWait(ph: Phasors): real { if Decision(ph, Zone2).Some? then ZONE2_DELAY else 0.0 }

  /** A relay in the turn it began at `start`, with latch `trip`, on the phasors ph; `alone`
      says that it receives no trips. */
  ghost predicate InTurn(r: RelayState, wake: real, start: real, trip: bool, ph: Phasors, alone: bool)
  {
    var zone1 := Decision(ph, Zone1).Some?;
    match r.place
    case Polling(p) => p == ph && wake == start && (trip ==> r.trip) && (alone ==> r.trip == trip)
    case TestingZone1(p) => p == ph && wake == start && (trip ==> r.trip) && (alone ==> r.trip == trip)
    case TestingZone2(p) =>
      p == ph && wake == start && (trip || zone1 ==> r.trip) && (alone ==> r.trip == (trip || zone1))
    case WaitingZone2(f) =>
      && Decision(ph, Zone2) == Some(f) && wake == start + ZONE2_DELAY
      && (trip || zone1 ==> r.trip) && (alone ==> r.trip == (trip || zone1))
    case _ => false
  }

  /** That turn has made its decisions. */
  ghost predicate TurnIsOver(r: RelayState, now: real, start: real, trip: bool, ph: Phasors)
  {
    && (trip || Decides(ph) ==> r.trip)
    && now >= start + TurnWait(ph)
  }

  lemma StepInTurn(r: RelayState, now: real, start: real, trip: bool, ph: Phasors, alone: bool, remote: bool)
    requires InTurn(r, now, start, trip, ph, alone) && (alone ==> !remote)
    ensures var next := Advance(r, remote);
            || InTurn(next, now + SleepAt(next.place), start, trip, ph, alone)
            || TurnIsOver(next, now, start, trip, ph)
  {
    hide Decision;
  }

  lemma PlacesOfTurn(r: RelayState, wake: real, start: real, trip: bool, ph: Phasors, alone: bool)
    ensures InTurn(r, wake, start, trip, ph, alone) ==> !r.place.Measuring? && wake <= start + ZONE2_DELAY
  {}

  lemma OverStaysOver(n: Network, t: Timed, te: TimedEvent, start: real, trip: bool, ph: Phasors)
    requires TimedNext(n, t, te).Some?
    ensures var u := TimedNext(n, t, te).value;
            && (TurnIsOver(t.s.a, t.now, start, trip, ph) ==> TurnIsOver(u.s.a, u.now, start, trip, ph))
            && (TurnIsOver(t.s.b, t.now, start, trip, ph) ==> TurnIsOver(u.s.b, u.now, start, trip, ph))
            && (t.s.bound ==> u.s.bound)
  {
    hide Next, Decision, Decides, MayElapse, MayHappen;
    if te.Do? { StepHoldsLatches(t.s, te.e); }
  }

  // ----- relay A -----

  ghost predicate TurnOfA(t: Timed, start: real, trip: bool, ph: Phasors)
  {
    InTurn(t.s.a, t.wakeA, start, trip, ph, true) || TurnIsOver(t.s.a, t.now, start, trip, ph)
  }

  lemma StepOfA(n: Network, t: Timed, te: TimedEvent, start: real, trip: bool, ph: Phasors)
    requires TimedNext(n, t, te).Some? && TurnOfA(t, start, trip, ph)
    ensures TurnOfA(TimedNext(n, t, te).value, start, trip, ph)
  {
    hide Decision, Decides, MayElapse, InTurn, TurnIsOver, TurnWait, Advance;
    PlacesOfTurn(t.s.a, t.wakeA, start, trip, ph, true);
    if InTurn(t.s.a, t.wakeA, start, trip, ph, true) {
      if te.Do? && te.e.StepA? { StepInTurn(t.s.a, t.now, start, trip, ph, true, false); }
    } else {
      OverStaysOver(n, t, te, start, trip, ph);
    }
  }

  lemma {:induction false} TurnOfAGoesOn(n: Network, tes: seq<TimedEvent>, more: seq<TimedEvent>, ph: Phasors)
    requires n.Valid() && Reaches(n, tes) && Reaches(n, tes + more)
    requires After(n, tes).s.a.place == Polling(ph)
    ensures TurnOfA(After(n, tes + more), After(n, tes).now, After(n, tes).s.a.trip, ph)
  {
    hide TimedNext, Invariant, TurnOfA;
    if more == [] {
      assert tes + more == tes;
      BeginsTurnOfA(n, tes, ph);
    } else {
      var last := |more| - 1;
      assert (tes + more)[..|tes + more| - 1] == tes + more[..last];
      TurnOfAGoesOn(n, tes, more[..last], ph);
      StepOfA(n, After(n, tes + more[..last]), more[last], After(n, tes).now, After(n, tes).s.a.trip, ph);
    }
  }

  lemma BeginsTurnOfA(n: Network, tes: seq<TimedEvent>, ph: Phasors)
    requires n.Valid() && Reaches(n, tes) && After(n, tes).s.a.place == Polling(ph)
    ensures TurnOfA(After(n, tes), After(n, tes).now, After(n, tes).s.a.trip, ph)
  {
    hide Decision;
    InvariantHolds(n, tes);
  }

  /** Relay A trips in time and not before it: on phasors that call for a trip it has tripped
      in every continuation that goes on for more than 200 ms, for more than no time at all if
      zone 1 decides; and if it had not tripped and only zone 2 decides, it has tripped in no
      continuation shorter than 200 ms. */
  lemma MeasuredFaultTrips(n: Network, tes: seq<TimedEvent>, more: seq<TimedEvent>, ph: Phasors)
    requires n.Valid() && TimedRun(n, tes).Some? && TimedRun(n, tes + more).Some?
    requires TimedRun(n, tes).value.s.a.place == Polling(ph)
    ensures var t, u := TimedRun(n, tes).value, TimedRun(n, tes + more).value;
            && (Decides(ph) && u.now > t.now + 200.0 ==> u.s.a.trip)
            && (Decision(ph, Zone1).Some? && u.now > t.now ==> u.s.a.trip)
            && (!t.s.a.trip && Decision(ph, Zone1).None? && Decision(ph, Zone2).Some? && u.s.a.trip ==>
                  u.now >= t.now + 200.0)
  {
    hide TimedRun, Decision;
    TurnOfAGoesOn(n, tes, more, ph);
    InvariantHolds(n, tes + more);
  }

  // ----- relay B -----

  ghost predicate TurnOfB(t: Timed, start: real, trip: bool, ph: Phasors)
  {
    && t.s.bound
    && (InTurn(t.s.b, t.wakeB, start, trip, ph, false) || TurnIsOver(t.s.b, t.now, start, trip, ph))
  }

  lemma StepOfB(n: Network, t: Timed, te: TimedEvent, start: real, trip: bool, ph: Phasors)
    requires TimedNext(n, t, te).Some? && TurnOfB(t, start, trip, ph)
    ensures TurnOfB(TimedNext(n, t, te).value, start, trip, ph)
  {
    hide Decision, Decides, MayElapse, InTurn, TurnIsOver, TurnWait, Advance;
    PlacesOfTurn(t.s.b, t.wakeB, start, trip, ph, false);
    if InTurn(t.s.b, t.wakeB, start, trip, ph, false) {
      if te.Do? && te.e.StepB? { StepInTurn(t.s.b, t.now, start, trip, ph, false, t.s.tripA); }
    } else {
      OverStaysOver(n, t, te, start, trip, ph);
    }
  }

  lemma BeginsTurnOfB(n: Network, tes: seq<TimedEvent>, ph: Phasors)
    requires n.Valid() && Reaches(n, tes) && After(n, tes).s.b.place == Polling(ph) && After(n, tes).s.bound
    ensures TurnOfB(After(n, tes), After(n, tes).now, After(n, tes).s.b.trip, ph)
  {
    hide Decision;
    InvariantHolds(n, tes);
  }

  lemma {:induction false} TurnOfBGoesOn(n: Network, tes: seq<TimedEvent>, more: seq<TimedEvent>, ph: Phasors)
    requires n.Valid() && Reaches(n, tes) && Reaches(n, tes + more)
    requires After(n, tes).s.b.place == Polling(ph) && After(n, tes).s.bound
    ensures TurnOfB(After(n, tes + more), After(n, tes).now, After(n, tes).s.b.trip, ph)
  {
    hide TimedNext, Invariant, TurnOfB;
    if more == [] {
      assert tes + more == tes;
      BeginsTurnOfB(n, tes, ph);
    } else {
      var last := |more| - 1;
      assert (tes + more)[..|tes + more| - 1] == tes + more[..last];
      TurnOfBGoesOn(n, tes, more[..last], ph);
      StepOfB(n, After(n, tes + more[..last]), more[last], After(n, tes).now, After(n, tes).s.b.trip, ph);
    }
  }

  /** Relay B trips as soon on its own measurement, whatever it receives meanwhile. */
  lemma MeasuredFaultTripsB(n: Network, tes: seq<TimedEvent>, more: seq<TimedEvent>, ph: Phasors)
    requires n.Valid() && TimedRun(n, tes).Some? && TimedRun(n, tes + more).Some?
    requires TimedRun(n, tes).value.s.b.place == Polling(ph) && TimedRun(n, tes).value.s.bound
    ensures var t, u := TimedRun(n, tes).value, TimedRun(n, tes + more).value;
            && (Decides(ph) && u.now > t.now + 200.0 ==> u.s.b.trip)
            && (Decision(ph, Zone1).Some? && u.now > t.now ==> u.s.b.trip)
  {
    hide TimedRun, Decision;
    TurnOfBGoesOn(n, tes, more, ph);
    InvariantHolds(n, tes + more);
  }

  // ----- from relay A to relay B -----

  ghost predicate ArmedBy(t: Timed, start: real, trip: bool, ph: Phasors)
  {
    && t.s.bound
    && (InTurn(t.s.a, t.wakeA, start, trip, ph, true)
        || (TurnIsOver(t.s.a, t.now, start, trip, ph)
            && t.armedAt.Some? && t.armedAt.value <= start + ZONE2_DELAY))
  }

  lemma StepToArmed(n: Network, t: Timed, te: TimedEvent, start: real, trip: bool, ph: Phasors)
    requires n.Valid() && Invariant(n, t) && TimedNext(n, t, te).Some?
    requires Decides(ph) && ArmedBy(t, start, trip, ph)
    ensures ArmedBy(TimedNext(n, t, te).value, start, trip, ph)
  {
    hide Decision, OnItsWay, BeingActedOn, MayElapse, InTurn, TurnWait, Advance;
    PlacesOfTurn(t.s.a, t.wakeA, start, trip, ph, true);
    if InTurn(t.s.a, t.wakeA, start, trip, ph, true) {
      if te.Do? && te.e.StepA? { StepInTurn(t.s.a, t.now, start, trip, ph, true, false); }
    } else {
      OverStaysOver(n, t, te, start, trip, ph);
    }
  }

  lemma {:induction false} ArmedInTime(n: Network, tes: seq<TimedEvent>, more: seq<TimedEvent>, ph: Phasors)
    requires n.Valid() && Reaches(n, tes) && Reaches(n, tes + more)
    requires After(n, tes).s.a.place == Polling(ph) && Decides(ph) && After(n, tes).s.bound
    ensures ArmedBy(After(n, tes + more), After(n, tes).now, After(n, tes).s.a.trip, ph)
  {
    hide TimedNext, Invariant, ArmedBy, Decides;
    if more == [] {
      assert tes + more == tes;
      BeginsArmed(n, tes, ph);
    } else {
      var last := |more| - 1;
      assert (tes + more)[..|tes + more| - 1] == tes + more[..last];
      ArmedInTime(n, tes, more[..last], ph);
      InvariantHolds(n, tes + more[..last]);
      StepToArmed(n, After(n, tes + more[..last]), more[last], After(n, tes).now, After(n, tes).s.a.trip, ph);
    }
  }

  lemma BeginsArmed(n: Network, tes: seq<TimedEvent>, ph: Phasors)
    requires n.Valid() && Reaches(n, tes) && After(n, tes).s.a.place == Polling(ph) && After(n, tes).s.bound
    ensures ArmedBy(After(n, tes), After(n, tes).now, After(n, tes).s.a.trip, ph)
  {
    hide Decision;
    InvariantHolds(n, tes);
  }

  /** From the measurement at one end to the trip at the other: whatever relay B itself sees,
      it has tripped in every continuation that goes on for longer than the wait of zone 2,
      the time of the transfer and a wait of its own. */
  lemma MeasuredFaultTripsBoth(n: Network, tes: seq<TimedEvent>, more: seq<TimedEvent>, ph: Phasors)
    requires n.Valid() && TimedRun(n, tes).Some? && TimedRun(n, tes + more).Some?
    requires TimedRun(n, tes).value.s.a.place == Polling(ph) && Decides(ph) && TimedRun(n, tes).value.s.bound
    requires TimedRun(n, tes + more).value.now
             > TimedRun(n, tes).value.now + 200.0 + n.window as real + n.delay + 200.0
    ensures TimedRun(n, tes + more).value.s.a.trip && TimedRun(n, tes + more).value.s.b.trip
  {
    hide TimedRun, Decision, Decides;
    ArmedInTime(n, tes, more, ph);
    InvariantHolds(n, tes + more);
    TransferIsBounded(n, tes + more);
  }

  /** The whole chain, from the table of signals to the trip at the far end: when relay A takes
      up the window of the file that holds a fault within zone 2 but for the band, both relays
      have tripped in every continuation that goes on for longer than that time. */
  lemma FileToRemoteTrip(n: Network, tes: seq<TimedEvent>, more: seq<TimedEvent>, rows: seq<seq<real>>, q: nat,
                         w: Complex, t: Tones, f: Fault, d: real, z: Complex, z0: Complex, iMin: real)
    requires n.Valid() && TimedRun(n, tes).Some? && TimedRun(n, tes + more).Some?
    requires RootOf(w, BUFFER_SIZE) && HoldsTones(rows, BUFFER_SIZE * q, w, t) && IsClearFault(t, f, d, z, z0, iMin)
    requires Band(d * z.im, iMin) <= d * z.im <= Reach(Zone2) - Band(d * z.im, iMin)
    requires TimedRun(n, tes).value.s.a.place == Polling(PhasorsAt(rows, q, w)) && TimedRun(n, tes).value.s.bound
    requires TimedRun(n, tes + more).value.now
             > TimedRun(n, tes).value.now + 200.0 + n.window as real + n.delay + 200.0
    ensures TimedRun(n, tes + more).value.s.a.trip && TimedRun(n, tes + more).value.s.b.trip
  {
    hide TimedRun, Decision, PhasorsAt, HoldsTones, RootOf, IsClearFault, Band;
    TableOfTones(rows, BUFFER_SIZE * q, w, t);
    FileToDecision(rows, q, w, t, f, d, z, z0, iMin, Zone2);
    MeasuredFaultTripsBoth(n, tes, more, PhasorsAt(rows, q, w));
  }
}
