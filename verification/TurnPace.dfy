/** How fast the threads of the transfer trip go round: the publisher once a millisecond, a
    relay once in 1000/60 ms, and 200 ms later when zone 2 decides. Nothing of this depends on
    how the steps interleave. */
module TurnPace {
  import opened DistanceRelay
  import opened Teleprotection
  import opened TransferTiming
  import opened TimeDivergence

  // ----- the publisher -----

  lemma StepOfPublisher(n: Network, t: Timed, te: TimedEvent)
    requires TimedNext(n, t, te).Some? && t.wakeP == |t.s.sent| as real
    ensures var u := TimedNext(n, t, te).value; u.wakeP == |u.s.sent| as real
  {
    hide Decision, Advance, MayElapse;
  }

  /** One message in each millisecond: message i, counting from 0, goes out at time i. */
  lemma {:induction false} PublisherKeepsPace(n: Network, tes: seq<TimedEvent>)
    requires n.Valid() && TimedRun(n, tes).Some?
    ensures var t := TimedRun(n, tes).value;
            && t.wakeP == |t.s.sent| as real
            && |t.s.sent| as real - 1.0 <= t.now <= |t.s.sent| as real
  {
    if tes == [] {
    } else {
      hide TimedNext;
      PublisherKeepsPace(n, tes[..|tes| - 1]);
      StepOfPublisher(n, TimedRun(n, tes[..|tes| - 1]).value, tes[|tes| - 1]);
      InvariantHolds(n, tes);
    }
  }

  // ----- the relays -----

  /** Where a relay's clock stands in the turn that began at `start` on phasors ph, up to the
      measurement that begins the next. */
  ghost predicate OnTheWay(r: RelayState, wake: real, start: real, ph: Phasors)
  {
    match r.place
    case Polling(p) => p == ph && wake == start
    case TestingZone1(p) => p == ph && wake == start
    case TestingZone2(p) => p == ph && wake == start
    case WaitingZone2(f) => Decision(ph, Zone2) == Some(f) && wake == start + 200.0
    case _ => wake == NextTurn(start, ph)
  }

  function NextTurn(start: real, ph: Phasors): real
  {
    start + (if Decision(ph, Zone2).Some? then 200.0 else 0.0) + 1000.0 / 60.0
  }

  lemma StepOnTheWay(r: RelayState, now: real, start: real, ph: Phasors, remote: bool)
    requires OnTheWay(r, now, start, ph) && !r.place.Measuring?
    ensures var next := Advance(r, remote); OnTheWay(next, now + SleepAt(next.place), start, ph)
  {
    hide Decision;
  }

  predicate MeasuresA(te: TimedEvent) { te.Do? && te.e.MeasureA? }

  predicate MeasuresB(te: TimedEvent) { te.Do? && te.e.MeasureB? }

  lemma StepOfA(n: Network, t: Timed, te: TimedEvent, start: real, ph: Phasors)
    requires TimedNext(n, t, te).Some? && !MeasuresA(te) && OnTheWay(t.s.a, t.wakeA, start, ph)
    ensures var u := TimedNext(n, t, te).value; OnTheWay(u.s.a, u.wakeA, start, ph)
  {
    hide Decision, MayElapse, OnTheWay, Advance;
    if te.Do? && te.e.StepA? { StepOnTheWay(t.s.a, t.now, start, ph, false); }
  }

  lemma StepOfB(n: Network, t: Timed, te: TimedEvent, start: real, ph: Phasors)
    requires TimedNext(n, t, te).Some? && !MeasuresB(te) && t.s.bound && OnTheWay(t.s.b, t.wakeB, start, ph)
    ensures var u := TimedNext(n, t, te).value; u.s.bound && OnTheWay(u.s.b, u.wakeB, start, ph)
  {
    hide Decision, MayElapse, OnTheWay, Advance;
    if te.Do? && te.e.StepB? { StepOnTheWay(t.s.b, t.now, start, ph, t.s.tripA); }
  }

  lemma {:induction false} AOnTheWay(n: Network, tes: seq<TimedEvent>, more: seq<TimedEvent>, ph: Phasors)
    requires n.Valid() && Reaches(n, tes) && Reaches(n, tes + more)
    requires After(n, tes).s.a.place == Polling(ph) && forall i :: 0 <= i < |more| ==> !MeasuresA(more[i])
    ensures var u := After(n, tes + more); OnTheWay(u.s.a, u.wakeA, After(n, tes).now, ph)
  {
    hide TimedNext, Decision;
    if more == [] {
      assert tes + more == tes;
      InvariantHolds(n, tes);
    } else {
      var last := |more| - 1;
      assert (tes + more)[..|tes + more| - 1] == tes + more[..last];
      AOnTheWay(n, tes, more[..last], ph);
      hide OnTheWay;
      StepOfA(n, After(n, tes + more[..last]), more[last], After(n, tes).now, ph);
    }
  }

  lemma {:induction false} BOnTheWay(n: Network, tes: seq<TimedEvent>, more: seq<TimedEvent>, ph: Phasors)
    requires n.Valid() && Reaches(n, tes) && Reaches(n, tes + more)
    requires After(n, tes).s.b.place == Polling(ph) && After(n, tes).s.bound
    requires forall i :: 0 <= i < |more| ==> !MeasuresB(more[i])
    ensures var u := After(n, tes + more); u.s.bound && OnTheWay(u.s.b, u.wakeB, After(n, tes).now, ph)
  {
    hide TimedNext, Decision;
    if more == [] {
      assert tes + more == tes;
      InvariantHolds(n, tes);
    } else {
      var last := |more| - 1;
      assert (tes + more)[..|tes + more| - 1] == tes + more[..last];
      BOnTheWay(n, tes, more[..last], ph);
      hide OnTheWay;
      StepOfB(n, After(n, tes + more[..last]), more[last], After(n, tes).now, ph);
    }
  }

  lemma BoundWhenAway(n: Network, tes: seq<TimedEvent>)
    requires n.Valid() && Reaches(n, tes)
    ensures After(n, tes).s.bound || After(n, tes).s.b.place == Measuring
  {
    hide TimedRun, Run;
    TimedRunIsRun(n, tes);
    if !After(n, tes).s.bound { UnboundIsIdle(Untimed(tes)); }
  }

  /** From one measurement of a relay to its next it takes 1000/60 ms, and 200 ms more when
      zone 2 decided: no less, and no more. */
  lemma NextMeasurement(n: Network, tes: seq<TimedEvent>, more: seq<TimedEvent>, ph: Phasors, next: Phasors,
                        timely: bool)
    requires n.Valid() && TimedRun(n, tes).Some? && TimedRun(n, tes + more).Some?
    ensures var t, u := TimedRun(n, tes).value, TimedRun(n, tes + more).value;
            var wait := if Decision(ph, Zone2).Some? then 200.0 else 0.0;
            var againA := TimedNext(n, u, Do(MeasureA(next), timely)).Some?;
            var againB := TimedNext(n, u, Do(MeasureB(next), timely)).Some?;
            && (t.s.a.place == Polling(ph) && againA && (forall i :: 0 <= i < |more| ==> !MeasuresA(more[i])) ==>
                  u.now == t.now + wait + 1000.0 / 60.0)
            && (t.s.b.place == Polling(ph) && againB && (forall i :: 0 <= i < |more| ==> !MeasuresB(more[i])) ==>
                  u.now == t.now + wait + 1000.0 / 60.0)
  {
    hide TimedRun, Decision;
    var t := After(n, tes);
    if t.s.a.place == Polling(ph) && forall i :: 0 <= i < |more| ==> !MeasuresA(more[i]) {
      AOnTheWay(n, tes, more, ph);
    }
    if t.s.b.place == Polling(ph) && forall i :: 0 <= i < |more| ==> !MeasuresB(more[i]) {
      BoundWhenAway(n, tes);
      BOnTheWay(n, tes, more, ph);
    }
  }

  // ----- before relay B listens -----

  lemma StepBeforeBinding(s: System, e: Event)
    requires Next(s, e).Some? && (!s.bound ==> s.b == IDLE && !s.tripA)
    ensures var t := Next(s, e).value; !t.bound ==> t.b == IDLE && !t.tripA
  {
    hide Decision, Advance;
  }

  /** Before relay B has bound its listener it neither measures nor trips nor hears of a trip. */
  lemma {:induction false} UnboundIsIdle(es: seq<Event>)
    requires Run(es).Some? && !Run(es).value.bound
    ensures Run(es).value.b == RelayState(false, Measuring) && !Run(es).value.tripA
  {
    if es == [] {
    } else {
      hide Next;
      var before := es[..|es| - 1];
      assert !Run(before).value.bound by { StepHoldsLatches(Run(before).value, es[|es| - 1]); }
      UnboundIsIdle(before);
      StepBeforeBinding(Run(before).value, es[|es| - 1]);
    }
  }
}
