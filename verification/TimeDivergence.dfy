/** Time passes in the timed system: every reachable state has continuations that reach any
    later time. The schedule that shows it delivers promised messages at once, lets whoever is
    awake run, and sleeps until the next wake-up; the publisher's pause of 1 ms then bounds
    the passing of time from below. */
module TimeDivergence {
  import opened DistanceRelay
  import opened Teleprotection
  import opened TransferTiming

  ghost predicate Reaches(n: Network, tes: seq<TimedEvent>)
  {
    TimedRun(n, tes).Some?
  }

  /** The state after a run. */
  ghost function After(n: Network, tes: seq<TimedEvent>): Timed
    requires Reaches(n, tes)
  {
    TimedRun(n, tes).value
  }

  lemma OneMore(n: Network, tes: seq<TimedEvent>, te: TimedEvent)
    requires Reaches(n, tes) && TimedNext(n, After(n, tes), te).Some?
    ensures Reaches(n, tes + [te]) && After(n, tes + [te]) == TimedNext(n, After(n, tes), te).value
  {
    hide TimedNext;
    assert (tes + [te])[..|tes|] == tes;
  }

  // ----- how much there is to do before the next message is due to be sampled -----

  function Pending(due: seq<Option<real>>): nat
  {
    if due == [] then 0 else (if due[0].Some? then 1 else 0) + Pending(due[1..])
  }

  lemma {:induction false} DeliveryLowersPending(due: seq<Option<real>>, i: nat)
    requires i < |due| && due[i].Some?
    ensures Pending(due[i := None]) < Pending(due)
  {
    if i > 0 {
      DeliveryLowersPending(due[1..], i - 1);
      assert due[i := None][1..] == due[1..][i - 1 := None];
    } else {
      assert due[i := None][1..] == due[1..];
    }
  }

  /** The steps a relay has left before it sleeps past `until`. */
  function StepsLeft(r: RelayState, wake: real, until: real): nat
  {
    if wake >= until then 0
    else
      match r.place
      case WaitingZone2(_) => 1
      case TestingZone2(_) => 2
      case TestingZone1(_) => 3
      case Polling(_) => 4
      case Measuring => 5
      case WaitingCycle => 6
  }

  function Work(t: Timed): nat
  {
    StepsLeft(t.s.a, t.wakeA, t.wakeP) + (if t.s.bound then StepsLeft(t.s.b, t.wakeB, t.wakeP) else 0)
  }

  predicate BothAsleep(t: Timed)
  {
    t.now < t.wakeA && (t.s.bound ==> t.now < t.wakeB)
  }

  /** The publisher sleeps, and will wake when it was going to. */
  predicate StillPausing(t: Timed, u: Timed)
  {
    t.s.publisher == Pausing == u.s.publisher && u.wakeP == t.wakeP && u.s.bound == t.s.bound
  }

  // ----- one move of the schedule -----

  lemma DeliverOne(n: Network, tes: seq<TimedEvent>, i: nat) returns (te: TimedEvent)
    requires n.Valid() && Reaches(n, tes)
    requires i < |After(n, tes).due| && After(n, tes).due[i].Some?
    ensures Reaches(n, tes + [te]) && After(n, tes + [te]).now == After(n, tes).now
    ensures After(n, tes).s.publisher.Pausing? ==> StillPausing(After(n, tes), After(n, tes + [te]))
    ensures Work(After(n, tes + [te])) == Work(After(n, tes))
    ensures Pending(After(n, tes + [te]).due) < Pending(After(n, tes).due)
  {
    InvariantHolds(n, tes);
    te := Do(Deliver(i), true);
    DeliveryLowersPending(After(n, tes).due, i);
    OneMore(n, tes, te);
  }

  lemma RunA(n: Network, tes: seq<TimedEvent>) returns (te: TimedEvent)
    requires n.Valid() && Reaches(n, tes) && After(n, tes).s.publisher.Pausing?
    requires After(n, tes).now == After(n, tes).wakeA < After(n, tes).wakeP
    ensures Reaches(n, tes + [te]) && After(n, tes + [te]).now == After(n, tes).now
    ensures StillPausing(After(n, tes), After(n, tes + [te]))
    ensures Work(After(n, tes + [te])) < Work(After(n, tes))
    ensures After(n, tes + [te]).due == After(n, tes).due
  {
    hide Decision;
    InvariantHolds(n, tes);
    te := Do(if After(n, tes).s.a.place.Measuring? then MeasureA(NULL_PHASORS) else StepA, true);
    OneMore(n, tes, te);
  }

  lemma RunB(n: Network, tes: seq<TimedEvent>) returns (te: TimedEvent)
    requires n.Valid() && Reaches(n, tes) && After(n, tes).s.publisher.Pausing? && After(n, tes).s.bound
    requires After(n, tes).now == After(n, tes).wakeB < After(n, tes).wakeP
    ensures Reaches(n, tes + [te]) && After(n, tes + [te]).now == After(n, tes).now
    ensures StillPausing(After(n, tes), After(n, tes + [te]))
    ensures Work(After(n, tes + [te])) < Work(After(n, tes))
    ensures After(n, tes + [te]).due == After(n, tes).due
  {
    hide Decision;
    InvariantHolds(n, tes);
    te := Do(if After(n, tes).s.b.place.Measuring? then MeasureB(NULL_PHASORS) else StepB, true);
    OneMore(n, tes, te);
  }

  /** With nothing promised and both relays asleep, time goes on to the next wake-up. */
  lemma Sleep(n: Network, tes: seq<TimedEvent>) returns (te: TimedEvent)
    requires n.Valid() && Reaches(n, tes) && After(n, tes).s.publisher.Pausing?
    requires BothAsleep(After(n, tes)) && After(n, tes).now < After(n, tes).wakeP
    requires forall i :: 0 <= i < |After(n, tes).due| ==> After(n, tes).due[i].None?
    ensures Reaches(n, tes + [te]) && StillPausing(After(n, tes), After(n, tes + [te]))
    ensures Work(After(n, tes + [te])) == Work(After(n, tes))
    ensures After(n, tes + [te]).due == After(n, tes).due
    ensures var u := After(n, tes + [te]); u.now == u.wakeP || !BothAsleep(u)
  {
    InvariantHolds(n, tes);
    var t := After(n, tes);
    var first := if t.wakeA < t.wakeP then t.wakeA else t.wakeP;
    var next := if t.s.bound && t.wakeB < first then t.wakeB else first;
    te := Elapse(next - t.now);
    assert t.now + (next - t.now) == next;
    OneMore(n, tes, te);
  }

  // ----- to the publisher's next wake-up -----

  lemma ReachWakeUp(n: Network, tes: seq<TimedEvent>) returns (more: seq<TimedEvent>)
    requires n.Valid() && Reaches(n, tes) && After(n, tes).s.publisher.Pausing?
    ensures Reaches(n, tes + more) && StillPausing(After(n, tes), After(n, tes + more))
    ensures After(n, tes + more).now == After(n, tes + more).wakeP
    decreases Work(After(n, tes)), Pending(After(n, tes).due), BothAsleep(After(n, tes))
  {
    hide TimedRun, TimedNext, Work, Pending;
    InvariantHolds(n, tes);
    var t := After(n, tes);
    if t.now == t.wakeP {
      more := [];
      assert tes + more == tes;
    } else {
      var te;
      if i :| 0 <= i < |t.due| && t.due[i].Some? {
        te := DeliverOne(n, tes, i);
      } else if t.now == t.wakeA {
        te := RunA(n, tes);
      } else if t.s.bound && t.now == t.wakeB {
        te := RunB(n, tes);
      } else {
        te := Sleep(n, tes);
      }
      if After(n, tes + [te]).now == After(n, tes + [te]).wakeP {
        more := [te];
      } else {
        var rest := ReachWakeUp(n, tes + [te]);
        more := [te] + rest;
        assert tes + more == (tes + [te]) + rest;
      }
    }
  }

  // ----- turn after turn of the publisher -----

  lemma PublisherStep(n: Network, tes: seq<TimedEvent>) returns (te: TimedEvent)
    requires n.Valid() && Reaches(n, tes) && After(n, tes).now == After(n, tes).wakeP
    ensures Reaches(n, tes + [te])
    ensures var t, u := After(n, tes), After(n, tes + [te]);
            match t.s.publisher
            case Pausing => u.s.publisher.Sampling? && u.now == u.wakeP == t.wakeP
            case Sampling => u.s.publisher.Publishing? && u.now == u.wakeP == t.wakeP
            case Publishing(_) => u.s.publisher.Pausing? && u.wakeP == t.wakeP + PUBLISH_PAUSE
  {
    InvariantHolds(n, tes);
    te := Do(StepPublisher, true);
    OneMore(n, tes, te);
  }

  /** The publisher gets to its pause, wherever it stands. */
  lemma ReachPause(n: Network, tes: seq<TimedEvent>) returns (more: seq<TimedEvent>)
    requires n.Valid() && Reaches(n, tes)
    ensures Reaches(n, tes + more) && After(n, tes + more).s.publisher.Pausing?
    ensures After(n, tes + more).wakeP >= After(n, tes).wakeP
    decreases match After(n, tes).s.publisher case Pausing => 0 case Publishing(_) => 1 case Sampling => 2
  {
    hide TimedRun, TimedNext;
    more := [];
    assert tes + more == tes;
    if !After(n, tes).s.publisher.Pausing? {
      InvariantHolds(n, tes);
      var te := PublisherStep(n, tes);
      var rest := ReachPause(n, tes + [te]);
      more := [te] + rest;
      assert tes + more == (tes + [te]) + rest;
    }
  }

  /** One whole turn: to the wake-up, and through sampling and publishing to the next pause. */
  lemma PublisherRound(n: Network, tes: seq<TimedEvent>) returns (more: seq<TimedEvent>)
    requires n.Valid() && Reaches(n, tes) && After(n, tes).s.publisher.Pausing?
    ensures Reaches(n, tes + more) && After(n, tes + more).s.publisher.Pausing?
    ensures After(n, tes + more).wakeP == After(n, tes).wakeP + PUBLISH_PAUSE
  {
    hide TimedRun, TimedNext;
    var wait := ReachWakeUp(n, tes);
    var te1 := PublisherStep(n, tes + wait);
    var te2 := PublisherStep(n, tes + wait + [te1]);
    var te3 := PublisherStep(n, tes + wait + [te1] + [te2]);
    more := wait + [te1] + [te2] + [te3];
    assert tes + more == tes + wait + [te1] + [te2] + [te3];
  }

  lemma {:induction false} Rounds(n: Network, tes: seq<TimedEvent>, k: nat) returns (more: seq<TimedEvent>)
    requires n.Valid() && Reaches(n, tes) && After(n, tes).s.publisher.Pausing?
    ensures Reaches(n, tes + more) && After(n, tes + more).s.publisher.Pausing?
    ensures After(n, tes + more).wakeP == After(n, tes).wakeP + k as real * PUBLISH_PAUSE
    decreases k
  {
    hide TimedRun, TimedNext;
    if k == 0 {
      more := [];
      assert tes + more == tes;
    } else {
      var first := PublisherRound(n, tes);
      var rest := Rounds(n, tes + first, k - 1);
      more := first + rest;
      assert tes + more == (tes + first) + rest;
    }
  }

  /** Time diverges: whatever has happened, the run can be continued beyond any time. */
  lemma TimeDiverges(n: Network, tes: seq<TimedEvent>, time: real) returns (more: seq<TimedEvent>)
    requires n.Valid() && TimedRun(n, tes).Some?
    ensures TimedRun(n, tes + more).Some? && TimedRun(n, tes + more).value.now >= time
  {
    hide TimedRun, TimedNext;
    var start := ReachPause(n, tes);
    var wake := After(n, tes + start).wakeP;
    var k: nat := if time + 1.0 <= wake then 0 else (time + 1.0 - wake).Floor + 1;
    var rest := Rounds(n, tes + start, k);
    more := start + rest;
    assert tes + more == (tes + start) + rest;
    InvariantHolds(n, tes + more);
  }

  // ----- the transfer does happen -----

  lemma {:induction false} ArmingIsRemembered(n: Network, tes: seq<TimedEvent>, more: seq<TimedEvent>)
    requires Reaches(n, tes) && Reaches(n, tes + more) && After(n, tes).armedAt.Some?
    ensures After(n, tes + more).armedAt == After(n, tes).armedAt
  {
    hide Next, MayElapse, MayHappen;
    if more == [] {
      assert tes + more == tes;
    } else {
      var last := |more| - 1;
      assert (tes + more)[..|tes + more| - 1] == tes + more[..last];
      ArmingIsRemembered(n, tes, more[..last]);
    }
  }

  /** Once relay A has tripped and relay B listens, the run can be continued to a state in
      which relay B has tripped. */
  lemma TransferHappens(n: Network, tes: seq<TimedEvent>) returns (more: seq<TimedEvent>)
    requires n.Valid() && TimedRun(n, tes).Some?
    requires TimedRun(n, tes).value.s.a.trip && TimedRun(n, tes).value.s.bound
    ensures TimedRun(n, tes + more).Some? && TimedRun(n, tes + more).value.s.b.trip
  {
    hide TimedRun, TimedNext, Invariant;
    assert After(n, tes).armedAt.Some? by { ArmedWhenTripped(n, tes); }
    var bound := After(n, tes).armedAt.value + n.window as real + n.delay + 200.0;
    more := TimeDiverges(n, tes, bound + 1.0);
    ArmingIsRemembered(n, tes, more);
    ArmedWhenTripped(n, tes + more);
    TransferIsBounded(n, tes + more);
  }

  lemma ArmedWhenTripped(n: Network, tes: seq<TimedEvent>)
    requires n.Valid() && Reaches(n, tes)
    ensures After(n, tes).armedAt.Some? <==> After(n, tes).s.a.trip && After(n, tes).s.bound
  {
    InvariantHolds(n, tes);
  }

  /** And it cannot be missed: in every continuation that lasts long enough relay B trips. */
  lemma TransferIsCertain(n: Network, tes: seq<TimedEvent>, more: seq<TimedEvent>)
    requires n.Valid() && TimedRun(n, tes).Some? && TimedRun(n, tes + more).Some?
    requires TimedRun(n, tes).value.s.a.trip && TimedRun(n, tes).value.s.bound
    requires TimedRun(n, tes + more).value.now
             > TimedRun(n, tes).value.now + n.window as real + n.delay + 200.0
    ensures TimedRun(n, tes + more).value.s.b.trip
  {
    hide TimedRun, TimedNext;
    InvariantHolds(n, tes);
    ArmingIsRemembered(n, tes, more);
    ArmedWhenTripped(n, tes + more);
    TransferIsBounded(n, tes + more);
  }
}
