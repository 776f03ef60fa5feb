/** Time in the transfer trip. Computation takes no time, sleeps are exact: 1 ms in the
    publisher, 200 ms and 1000/60 ms in the relays. Of every `window` consecutive messages
    published while relay B listens, the network delivers at least one within `delay` ms;
    what else it delivers, and when, is open. */
module TransferTiming {
  import opened DistanceRelay
  import opened Teleprotection

  datatype Network = Network(window: nat, delay: real)
  {
    predicate Valid() { window > 0 && delay >= 0.0 }
  }

  const PUBLISH_PAUSE: real := 1.0

  /** The system with its clocks. A thread sleeps until its wake-up time and no longer.
      `due[i]` is the time by which the network has undertaken to deliver message i.
      `missed` counts the consecutive latest messages it undertook nothing for. The other
      fields record history: when both relay A had tripped and relay B was listening, when
      relay B's copy of the trip was set, and how many messages that say "trip" were missed
      since the former. */
  datatype Timed = Timed(s: System, now: real, wakeA: real, wakeB: real, wakeP: real,
                         due: seq<Option<real>>, missed: nat,
                         armedAt: Option<real>, receivedAt: Option<real>, missedTrips: nat)

  const TIME_ZERO := Timed(POWER_UP, 0.0, 0.0, 0.0, 0.0, [], 0, None, None, 0)

  datatype TimedEvent = Do(e: Event, timely: bool) | Elapse(d: real)

  function SleepAt(p: Place): real
  {
    if p.WaitingZone2? then ZONE2_DELAY else if p.WaitingCycle? then CYCLE_TIME else 0.0
  }

  /** The sleeps along a turn of a relay's loop add up to what `Relay.Cycle` sleeps. */
  lemma TurnTakesCycleDuration(r: RelayState, ph: Phasors, remote: bool)
    ensures var tested := Advance(Advance(Advance(Measured(r, ph), remote), remote), remote);
            CycleDuration(ph) == SleepAt(tested.place)
              + (if tested.place.WaitingZone2? then SleepAt(Advance(tested, remote).place) else 0.0)
  {
    hide Decision;
  }

  ghost predicate MayElapse(t: Timed, until: real)
  {
    && until <= t.wakeA && until <= t.wakeP && (t.s.bound ==> until <= t.wakeB)
    && forall i :: 0 <= i < |t.due| && t.due[i].Some? ==> until <= t.due[i].value
  }

  /** Records when the system became armed and when the trip was received. */
  function Recorded(t: Timed): Timed
  {
    var armed := t.s.a.trip && t.s.bound;
    t.(armedAt := if t.armedAt.None? && armed then Some(t.now) else t.armedAt,
       receivedAt := if t.receivedAt.None? && t.s.tripA then Some(t.now) else t.receivedAt)
  }

  /** The clocks after event e has taken the system to s. */
  function Clocked(n: Network, t: Timed, e: Event, timely: bool, s: System): Timed
  {
    match e
    case MeasureA(_) => t.(s := s)
    case StepA => t.(s := s, wakeA := t.now + SleepAt(s.a.place))
    case MeasureB(_) => t.(s := s)
    case StepB => t.(s := s, wakeB := t.now + SleepAt(s.b.place))
    case BindListener => t.(s := s, wakeB := t.now)
    case Deliver(i) => t.(s := s, due := if i < |t.due| then t.due[i := None] else t.due)
    case StepPublisher =>
      match t.s.publisher
      case Publishing(v) =>
        var promised := timely && s.bound;
        t.(s := s, wakeP := t.now + PUBLISH_PAUSE,
           due := t.due + [if promised then Some(t.now + n.delay) else None],
           missed := if promised || !s.bound then 0 else t.missed + 1,
           missedTrips := if v && t.armedAt.Some? && !promised then t.missedTrips + 1 else t.missedTrips)
      case _ => t.(s := s)
  }

  /** A thread runs only when it is awake, and the network never misses a whole window. */
  predicate MayHappen(n: Network, t: Timed, e: Event, timely: bool)
  {
    match e
    case MeasureA(_) => t.now == t.wakeA
    case StepA => t.now == t.wakeA
    case MeasureB(_) => t.now == t.wakeB
    case StepB => t.now == t.wakeB
    case StepPublisher =>
      t.now == t.wakeP && (t.s.publisher.Publishing? && t.s.bound && !timely ==> t.missed + 1 < n.window)
    case _ => true
  }

  ghost function TimedNext(n: Network, t: Timed, te: TimedEvent): Option<Timed>
  {
    match te
    case Elapse(d) =>
      if d >= 0.0 && MayElapse(t, t.now + d) then Some(t.(now := t.now + d)) else None
    case Do(e, timely) =>
      if MayHappen(n, t, e, timely) && Next(t.s, e).Some?
      then Some(Recorded(Clocked(n, t, e, timely, Next(t.s, e).value)))
      else None
  }

  ghost function TimedRun(n: Network, tes: seq<TimedEvent>): Option<Timed>
  {
    if tes == [] then Some(TIME_ZERO)
    else
      var before := TimedRun(n, tes[..|tes| - 1]);
      if before.None? then None else TimedNext(n, before.value, tes[|tes| - 1])
  }

  // ----- timed runs are runs -----

  function Untimed(tes: seq<TimedEvent>): seq<Event>
  {
    if tes == [] then []
    else
      var last := tes[|tes| - 1];
      Untimed(tes[..|tes| - 1]) + (if last.Do? then [last.e] else [])
  }

  /** Forgetting the clock leaves a run of the untimed system, so every safety property of
      those runs holds here too. */
  lemma {:induction false} TimedRunIsRun(n: Network, tes: seq<TimedEvent>)
    requires TimedRun(n, tes).Some?
    ensures Run(Untimed(tes)) == Some(TimedRun(n, tes).value.s)
  {
    hide Next, MayHappen, MayElapse;
    if tes == [] {
    } else {
      var before := tes[..|tes| - 1];
      TimedRunIsRun(n, before);
      var last := tes[|tes| - 1];
      if last.Do? {
        var es := Untimed(before);
        assert (es + [last.e])[..|es|] == es;
      } else {
        assert Untimed(tes) == Untimed(before);
      }
    }
  }

  // ----- the invariant -----

  ghost predicate ClocksAgree(t: Timed)
  {
    && t.now <= t.wakeA <= t.now + SleepAt(t.s.a.place)
    && t.now <= t.wakeP && t.wakeP <= t.now + PUBLISH_PAUSE
    && (!t.s.publisher.Pausing? ==> t.wakeP == t.now)
    && (t.s.bound ==> t.now <= t.wakeB <= t.now + SleepAt(t.s.b.place))
    && |t.due| == |t.s.sent|
    && forall i :: 0 <= i < |t.due| && t.due[i].Some? ==> t.s.bound && t.now <= t.due[i].value
  }

  ghost predicate HistoryAgrees(t: Timed)
  {
    && (t.armedAt.Some? <==> t.s.a.trip && t.s.bound)
    && (t.receivedAt.Some? <==> t.s.tripA)
    && (t.armedAt.Some? ==> t.armedAt.value <= t.now)
    && (t.receivedAt.Some? ==> t.armedAt.Some? && t.receivedAt.value <= t.now)
    && (t.armedAt.None? ==> t.missedTrips == 0)
  }

  /** The network has undertaken to deliver a message that says "trip" by `limit`. */
  ghost predicate TripPromised(t: Timed, limit: real)
  {
    exists i :: 0 <= i < |t.due| && |t.due| == |t.s.sent| && t.s.sent[i] && t.due[i].Some? && t.due[i].value <= limit
  }

  /** On the way to relay B. */
  ghost predicate OnItsWay(n: Network, t: Timed)
  {
    t.armedAt.Some? ==>
      var armed := t.armedAt.value;
      var limit := armed + n.window as real + n.delay;
      if t.receivedAt.Some? then t.receivedAt.value <= limit
      else if TripPromised(t, limit) then true
      else
        && t.missedTrips <= t.missed < n.window
        && t.wakeP <= armed + 1.0 + t.missedTrips as real
        && (t.s.publisher == Publishing(false) ==> t.missedTrips == 0 && t.wakeP <= armed)
  }

  /** Inside relay B: how long from the receipt each place of its loop can last. */
  ghost predicate BeingActedOn(t: Timed)
  {
    t.receivedAt.Some? && !t.s.b.trip ==>
      var received := t.receivedAt.value;
      match t.s.b.place
      case WaitingZone2(_) => t.wakeB <= received + ZONE2_DELAY
      case WaitingCycle => t.wakeB <= received + CYCLE_TIME
      case Measuring => t.wakeB <= received + CYCLE_TIME
      case Polling(_) => t.wakeB <= received + CYCLE_TIME
      case _ => t.wakeB <= received
  }

  ghost predicate Invariant(n: Network, t: Timed)
  {
    && ClocksAgree(t) && HistoryAgrees(t) && TripsAreGenuine(t.s)
    && (t.s.tripA ==> t.s.bound) && t.missed < n.window
    && OnItsWay(n, t) && BeingActedOn(t)
  }

  lemma ElapseKeepsInvariant(n: Network, t: Timed, d: real)
    requires n.Valid() && Invariant(n, t) && TimedNext(n, t, Elapse(d)).Some?
    ensures Invariant(n, TimedNext(n, t, Elapse(d)).value)
  {
    hide Next;
    var u := TimedNext(n, t, Elapse(d)).value;
    if t.armedAt.Some? {
      PromiseStands(t, u, t.armedAt.value + n.window as real + n.delay);
    }
  }

  lemma DeliverKeepsInvariant(n: Network, t: Timed, i: nat, timely: bool)
    requires n.Valid() && Invariant(n, t) && TimedNext(n, t, Do(Deliver(i), timely)).Some?
    ensures Invariant(n, TimedNext(n, t, Do(Deliver(i), timely)).value)
  {
    var u := TimedNext(n, t, Do(Deliver(i), timely)).value;
    StepKeepsTripsGenuine(t.s, Deliver(i));
    if t.armedAt.Some? && t.receivedAt.None? {
      var limit := t.armedAt.value + n.window as real + n.delay;
      if TripPromised(t, limit) {
        var j :| 0 <= j < |t.due| && t.s.sent[j] && t.due[j].Some? && t.due[j].value <= limit;
        assert t.now <= limit;
        if j != i { assert u.s.sent[j] && u.due[j].Some? && u.due[j].value <= limit; }
      } else {
        assert t.now <= limit;
        DeliveryPromisesNothing(t, u, i, limit);
      }
    }
  }

  lemma DeliveryPromisesNothing(t: Timed, u: Timed, i: nat, limit: real)
    requires i < |t.due| == |t.s.sent| && u.due == t.due[i := None] && u.s.sent == t.s.sent
    ensures TripPromised(u, limit) ==> TripPromised(t, limit)
  {
    if TripPromised(u, limit) {
      var j :| 0 <= j < |u.due| && u.s.sent[j] && u.due[j].Some? && u.due[j].value <= limit;
      assert t.s.sent[j] && t.due[j].Some? && t.due[j].value <= limit;
    }
  }

  lemma PublishKeepsInvariant(n: Network, t: Timed, timely: bool)
    requires n.Valid() && Invariant(n, t) && TimedNext(n, t, Do(StepPublisher, timely)).Some?
    ensures Invariant(n, TimedNext(n, t, Do(StepPublisher, timely)).value)
  {
    StepKeepsTripsGenuine(t.s, StepPublisher);
    if t.s.publisher.Publishing? {
      hide Invariant, Next;
      SendKeepsInvariant(n, t, timely);
    } else {
      var u := TimedNext(n, t, Do(StepPublisher, timely)).value;
      if t.armedAt.Some? && t.receivedAt.None? {
        PromiseStands(t, u, t.armedAt.value + n.window as real + n.delay);
      }
    }
  }

  /** A promise is kept until the message is delivered. */
  lemma PromiseStands(t: Timed, u: Timed, limit: real)
    requires t.due <= u.due && t.s.sent <= u.s.sent && |u.due| == |u.s.sent|
    ensures TripPromised(t, limit) ==> TripPromised(u, limit)
  {
    if TripPromised(t, limit) {
      var j :| 0 <= j < |t.due| && t.s.sent[j] && t.due[j].Some? && t.due[j].value <= limit;
      assert u.s.sent[j] && u.due[j].Some? && u.due[j].value <= limit;
    }
  }

  lemma SendKeepsInvariant(n: Network, t: Timed, timely: bool)
    requires n.Valid() && Invariant(n, t) && TimedNext(n, t, Do(StepPublisher, timely)).Some?
    requires t.s.publisher.Publishing? && TripsAreGenuine(Next(t.s, StepPublisher).value)
    ensures Invariant(n, TimedNext(n, t, Do(StepPublisher, timely)).value)
  {
    var u := TimedNext(n, t, Do(StepPublisher, timely)).value;
    if t.armedAt.Some? && t.receivedAt.None? {
      var limit := t.armedAt.value + n.window as real + n.delay;
      PromiseStands(t, u, limit);
      if !TripPromised(t, limit) && t.s.publisher == Publishing(true) && timely {
        var j := |t.due|;
        assert u.s.sent[j] && u.due[j].Some? && u.due[j].value <= limit;
      }
    }
  }

  lemma RelayKeepsInvariant(n: Network, t: Timed, e: Event, timely: bool)
    requires n.Valid() && Invariant(n, t) && TimedNext(n, t, Do(e, timely)).Some?
    requires e.MeasureA? || e.StepA? || e.MeasureB? || e.StepB? || e.BindListener?
    ensures Invariant(n, TimedNext(n, t, Do(e, timely)).value)
  {
    hide Decision;
    var u := TimedNext(n, t, Do(e, timely)).value;
    StepKeepsTripsGenuine(t.s, e);
    if t.armedAt.Some? && t.receivedAt.None? {
      PromiseStands(t, u, t.armedAt.value + n.window as real + n.delay);
    }
  }

  lemma {:induction false} InvariantHolds(n: Network, tes: seq<TimedEvent>)
    requires n.Valid() && TimedRun(n, tes).Some?
    ensures Invariant(n, TimedRun(n, tes).value)
  {
    if tes == [] {
      assert TimedRun(n, []) == Some(TIME_ZERO);
    } else {
      hide Invariant, TimedNext;
      var before, te := tes[..|tes| - 1], tes[|tes| - 1];
      InvariantHolds(n, before);
      var t := TimedRun(n, before).value;
      match te {
        case Elapse(d) => ElapseKeepsInvariant(n, t, d);
        case Do(e, timely) =>
          match e {
            case Deliver(i) => DeliverKeepsInvariant(n, t, i, timely);
            case StepPublisher => PublishKeepsInvariant(n, t, timely);
            case _ => RelayKeepsInvariant(n, t, e, timely);
          }
      }
    }
  }

  /** Relay B acts on a received trip within 200 ms, wherever its loop stands, the wait of
      zone 2 during which it does not look included. */
  lemma ReceivedTripIsActedOn(n: Network, tes: seq<TimedEvent>)
    requires n.Valid() && TimedRun(n, tes).Some?
    ensures var t := TimedRun(n, tes).value;
            t.s.tripA && !t.s.b.trip ==> t.receivedAt.Some? && t.now <= t.receivedAt.value + 200.0
  {
    InvariantHolds(n, tes);
  }

  /** The whole transfer: from the time relay A has tripped and relay B listens, relay B
      trips within window + delay + 200 ms. */
  lemma TransferIsBounded(n: Network, tes: seq<TimedEvent>)
    requires n.Valid() && TimedRun(n, tes).Some?
    ensures var t := TimedRun(n, tes).value;
            t.s.a.trip && t.s.bound && !t.s.b.trip ==>
              t.armedAt.Some? && t.now <= t.armedAt.value + n.window as real + n.delay + 200.0
  {
    InvariantHolds(n, tes);
    var t := TimedRun(n, tes).value;
    if t.s.a.trip && t.s.bound && !t.s.tripA {
      var limit := t.armedAt.value + n.window as real + n.delay;
      if TripPromised(t, limit) {
        var j :| 0 <= j < |t.due| && t.s.sent[j] && t.due[j].Some? && t.due[j].value <= limit;
      }
    }
  }

  // ----- no deadlock -----

  /** Time passes, a thread runs, perhaps in no time, or a message is delivered just in time. */
  ghost predicate IsProgress(t: Timed, te: TimedEvent)
  {
    match te
    case Elapse(d) => d > 0.0
    case Do(e, _) =>
      match e
      case BindListener => false
      case Deliver(i) => i < |t.due| && t.due[i] == Some(t.now)
      case _ => true
  }

  lemma {:induction false} Horizon(due: seq<Option<real>>, now: real, cap: real) returns (h: real)
    requires now < cap && forall i :: 0 <= i < |due| && due[i].Some? ==> now < due[i].value
    ensures now < h <= cap && forall i :: 0 <= i < |due| && due[i].Some? ==> h <= due[i].value
  {
    if due == [] {
      h := cap;
    } else {
      var rest := due[1..];
      assert forall i :: 0 <= i < |rest| ==> rest[i] == due[i + 1];
      h := Horizon(rest, now, if due[0].Some? && due[0].value < cap then due[0].value else cap);
    }
  }

  /** Freedom from deadlock: what sleeps, promises and the network demand can always be met,
      so some event can follow. That time passes in the end is proved in `TimeDivergence`. */
  lemma NeverStuck(n: Network, tes: seq<TimedEvent>) returns (te: TimedEvent)
    requires n.Valid() && TimedRun(n, tes).Some?
    ensures var t := TimedRun(n, tes).value;
            IsProgress(t, te) && TimedNext(n, t, te).Some?
  {
    hide Decision, OnItsWay, BeingActedOn, HistoryAgrees, TripsAreGenuine, TimedRun, Advance;
    InvariantHolds(n, tes);
    var t := TimedRun(n, tes).value;
    if t.now == t.wakeA {
      te := Do(if t.s.a.place.Measuring? then MeasureA(NULL_PHASORS) else StepA, true);
    } else if t.now == t.wakeP {
      te := Do(StepPublisher, true);
    } else if t.s.bound && t.now == t.wakeB {
      te := Do(if t.s.b.place.Measuring? then MeasureB(NULL_PHASORS) else StepB, true);
    } else if i :| 0 <= i < |t.due| && t.due[i] == Some(t.now) {
      te := Do(Deliver(i), true);
    } else {
      var cap := if t.wakeA < t.wakeP then t.wakeA else t.wakeP;
      var h := Horizon(t.due, t.now, if t.s.bound && t.wakeB < cap then t.wakeB else cap);
      te := Elapse(h - t.now);
      assert t.now + (h - t.now) == h;
    }
  }
}
