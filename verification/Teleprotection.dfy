/** The direct transfer trip between the relays as a state machine: the loops of relays A and
    B, the publisher thread of Algoritmos/goose_pub.c, the listener of Algoritmos/goose_sub.c,
    and a network that may lose, duplicate and reorder what is published. Steps of the
    threads interleave in any order. */
module Teleprotection {
  import opened DistanceRelay

  // ----- one relay -----

  /** Where a relay's loop stands. Only relay B's polling step reads anything. */
  datatype Place =
    | Measuring
    | Polling(ph: Phasors)
    | TestingZone1(ph: Phasors)
    | TestingZone2(ph: Phasors)
    | WaitingZone2(fault: Fault)
    | WaitingCycle

  datatype RelayState = RelayState(trip: bool, place: Place)

  function Measured(r: RelayState, ph: Phasors): RelayState
  {
    r.(place := Polling(ph))
  }

  /** The next step of the loop after the phasors have been read. */
  function Advance(r: RelayState, remote: bool): RelayState
  {
    match r.place
    case Measuring => r
    case Polling(ph) => RelayState(r.trip || remote, TestingZone1(ph))
    case TestingZone1(ph) => RelayState(r.trip || Decision(ph, Zone1).Some?, TestingZone2(ph))
    case TestingZone2(ph) =>
      if Decision(ph, Zone2).Some? then r.(place := WaitingZone2(Decision(ph, Zone2).value))
      else r.(place := WaitingCycle)
    case WaitingZone2(_) => RelayState(true, WaitingCycle)
    case WaitingCycle => r.(place := Measuring)
  }

  predicate Decides(ph: Phasors)
  {
    Decision(ph, Zone1).Some? || Decision(ph, Zone2).Some?
  }

  function Turn(r: RelayState, ph: Phasors, remote: bool): RelayState
  {
    var tested := Advance(Advance(Advance(Measured(r, ph), remote), remote), remote);
    Advance(if tested.place.WaitingZone2? then Advance(tested, remote) else tested, remote)
  }

  /** Uninterrupted, the steps amount to one call of `Relay.Cycle`. */
  lemma TurnIsCycle(r: RelayState, ph: Phasors, remote: bool)
    ensures Turn(r, ph, remote) == RelayState(r.trip || CycleReports(ph, remote) != [], Measuring)
    ensures CycleReports(ph, remote) != [] <==> remote || Decides(ph)
  {
    hide Decision;
  }

  // ----- publisher and listener -----

  datatype PublisherPlace = Sampling | Publishing(value: bool) | Pausing

  /** One message more on the network, the value last sampled. */
  function Published(network: seq<bool>, value: bool): seq<bool> { network + [value] }

  class Publisher {
    var tripValue: bool
    var network: seq<bool>

    constructor (trip: bool)
      ensures tripValue == trip && network == []
    {
      tripValue := trip;
      network := [];
    }

    /** One turn of the publisher's loop. */
    method PublishOnce(reading: bool)
      modifies this
      ensures tripValue == reading && network == Published(old(network), reading)
    {
      tripValue := reading;
      network := Published(network, tripValue);
    }

    /** The publisher's loop, one turn for every reading of the flag. */
    method PublishLoop(readings: seq<bool>)
      modifies this
      ensures network == old(network) + readings
      ensures tripValue == if readings == [] then old(tripValue) else readings[|readings| - 1]
    {
      for i := 0 to |readings|
        invariant network == old(network) + readings[..i]
        invariant tripValue == if i == 0 then old(tripValue) else readings[i - 1]
      {
        PublishOnce(readings[i]);
        assert readings[..i + 1] == readings[..i] + [readings[i]];
      }
    }
  }

  /** What a received value does to the flag the listener's pointer designates, if any. */
  function Listen(bound: bool, flag: bool, value: bool): bool
  {
    flag || (bound && value)
  }

  class Listener {
    var bound: bool
    var flag: bool

    constructor ()
      ensures !bound && !flag
    {
      bound, flag := false, false;
    }

    method SetTripPtr()
      modifies this`bound
      ensures bound
    {
      bound := true;
    }

    method GooseListener(value: bool)
      modifies this`flag
      ensures flag == Listen(bound, old(flag), value)
    {
      if value && bound {
        flag := true;
      }
    }

    /** The receiver calls the listener for every message that arrives. */
    method GooseListenLoop(received: seq<bool>)
      modifies this`flag
      ensures flag == (old(flag) || (bound && true in received))
    {
      for i := 0 to |received|
        invariant flag == (old(flag) || (bound && true in received[..i]))
      {
        GooseListener(received[i]);
        assert received[..i + 1] == received[..i] + [received[i]];
      }
    }
  }

  /** Both loops, joined by a network that delivers the messages of its choice, as often and
      in what order it likes: the flag ends up set exactly if one of them was published while
      the trip was set. */
  method Transfer(readings: seq<bool>, deliveries: seq<nat>) returns (tripA: bool)
    requires forall i :: 0 <= i < |deliveries| ==> deliveries[i] < |readings|
    ensures tripA <==> exists i :: 0 <= i < |deliveries| && readings[deliveries[i]]
  {
    var publisher := new Publisher(false);
    publisher.PublishLoop(readings);
    var listener := new Listener();
    listener.SetTripPtr();
    var network := publisher.network;
    var received := seq(|deliveries|, i requires 0 <= i < |deliveries| => network[deliveries[i]]);
    listener.GooseListenLoop(received);
    tripA := listener.flag;
    if i :| 0 <= i < |deliveries| && readings[deliveries[i]] {
      assert received[i] in received;
    }
  }

  // ----- the whole system -----

  /** `sent` holds every message ever published. A message may be delivered at any later
      time, any number of times, or never. `tripA` is relay B's copy of A's trip. */
  datatype System = System(a: RelayState, publisher: PublisherPlace, sent: seq<bool>,
                           bound: bool, tripA: bool, b: RelayState)

  const IDLE := RelayState(false, Measuring)
  const POWER_UP := System(IDLE, Sampling, [], false, false, IDLE)

  datatype Event =
    | MeasureA(ph: Phasors)
    | StepA
    | StepPublisher
    | BindListener
    | Deliver(i: nat)
    | MeasureB(ph: Phasors)
    | StepB

  /** The effect of an event, or None where it cannot happen. Relay B binds the listener's
      pointer before it starts the listener thread and its own loop. */
  function Next(s: System, e: Event): Option<System>
  {
    match e
    case MeasureA(ph) =>
      if s.a.place.Measuring? then Some(s.(a := Measured(s.a, ph))) else None
    case StepA =>
      if s.a.place.Measuring? then None else Some(s.(a := Advance(s.a, false)))
    case StepPublisher =>
      (match s.publisher
       case Sampling => Some(s.(publisher := Publishing(s.a.trip)))
       case Publishing(v) => Some(s.(publisher := Pausing, sent := Published(s.sent, v)))
       case Pausing => Some(s.(publisher := Sampling)))
    case BindListener =>
      if s.bound then None else Some(s.(bound := true))
    case Deliver(i) =>
      if s.bound && i < |s.sent| then Some(s.(tripA := Listen(s.bound, s.tripA, s.sent[i]))) else None
    case MeasureB(ph) =>
      if s.bound && s.b.place.Measuring? then Some(s.(b := Measured(s.b, ph))) else None
    case StepB =>
      if !s.bound || s.b.place.Measuring? then None else Some(s.(b := Advance(s.b, s.tripA)))
  }

  /** The state a sequence of events leads to, None if one of them could not happen. */
  function Run(es: seq<Event>): Option<System>
  {
    if es == [] then Some(POWER_UP)
    else
      var before := Run(es[..|es| - 1]);
      if before.None? then None else Next(before.value, es[|es| - 1])
  }

  /** The steps of the publisher, uninterrupted, publish what one turn of its loop, one call of
      `Publisher.PublishOnce` on relay A's latch, publishes. */
  lemma PublisherTurn(s: System)
    requires s.publisher == Sampling
    ensures var sampled := Next(s, StepPublisher).value;
            var published := Next(sampled, StepPublisher).value;
            Next(published, StepPublisher) == Some(s.(sent := Published(s.sent, s.a.trip)))
  {}

  // ----- safety -----

  ghost predicate TripsAreGenuine(s: System)
  {
    && (s.tripA ==> s.a.trip)
    && (forall i :: 0 <= i < |s.sent| && s.sent[i] ==> s.a.trip)
    && (s.publisher == Publishing(true) ==> s.a.trip)
  }

  lemma StepKeepsTripsGenuine(s: System, e: Event)
    requires TripsAreGenuine(s) && Next(s, e).Some?
    ensures TripsAreGenuine(Next(s, e).value)
  {
    hide Decision;
  }

  /** In every run, whatever the interleaving and the network do: relay B's copy of the trip,
      every message in flight that says "trip", and the value about to be published imply
      that relay A has tripped. */
  lemma {:induction false} NoSpuriousTransfer(es: seq<Event>)
    requires Run(es).Some?
    ensures TripsAreGenuine(Run(es).value)
  {
    if es == [] {
    } else {
      hide Next;
      NoSpuriousTransfer(es[..|es| - 1]);
      StepKeepsTripsGenuine(Run(es[..|es| - 1]).value, es[|es| - 1]);
    }
  }

  predicate LatchesHold(s: System, t: System)
  {
    && (s.a.trip ==> t.a.trip) && (s.b.trip ==> t.b.trip) && (s.tripA ==> t.tripA)
    && s.sent <= t.sent && (s.bound ==> t.bound)
  }

  lemma StepHoldsLatches(s: System, e: Event)
    requires Next(s, e).Some?
    ensures LatchesHold(s, Next(s, e).value)
  {
    hide Decision;
  }

  /** No latch ever falls, over any continuation of any run. */
  lemma {:induction false} LatchesNeverFall(es: seq<Event>, k: nat)
    requires Run(es).Some? && k <= |es|
    ensures Run(es[..k]).Some? && LatchesHold(Run(es[..k]).value, Run(es).value)
  {
    if k == |es| {
      assert es[..k] == es;
    } else {
      hide Next;
      var before := es[..|es| - 1];
      LatchesNeverFall(before, k);
      assert before[..k] == es[..k];
      StepHoldsLatches(Run(before).value, es[|es| - 1]);
    }
  }

  /** Relay A measured phasors that call for a trip at some point of the run. */
  ghost predicate DecidedAtA(es: seq<Event>)
  {
    exists i :: 0 <= i < |es| && es[i].MeasureA? && Decides(es[i].ph)
  }

  ghost predicate DecidedAtB(es: seq<Event>)
  {
    exists i :: 0 <= i < |es| && es[i].MeasureB? && Decides(es[i].ph)
  }

  /** Relay A had tripped at some strictly earlier point of the run. */
  ghost predicate TrippedEarlierAtA(es: seq<Event>)
  {
    exists k :: 0 <= k < |es| && Run(es[..k]).Some? && Run(es[..k]).value.a.trip
  }

  predicate HoldsPhasors(p: Place) { p.Polling? || p.TestingZone1? || p.TestingZone2? }

  ghost predicate RelayJustified(r: RelayState, decided: bool)
  {
    && (r.trip ==> decided)
    && (HoldsPhasors(r.place) && Decides(r.place.ph) ==> decided)
    && (r.place.WaitingZone2? ==> decided)
  }

  lemma AdvanceKeepsJustified(r: RelayState, remote: bool, decided: bool)
    requires RelayJustified(r, decided)
    ensures RelayJustified(Advance(r, remote), decided || remote)
  {
    hide Decision;
  }

  lemma DecisionsGrow(es: seq<Event>)
    requires es != []
    ensures var before, last := es[..|es| - 1], es[|es| - 1];
            && (DecidedAtA(es) <==> DecidedAtA(before) || (last.MeasureA? && Decides(last.ph)))
            && (DecidedAtB(es) <==> DecidedAtB(before) || (last.MeasureB? && Decides(last.ph)))
            && (TrippedEarlierAtA(before) ==> TrippedEarlierAtA(es))
  {
    hide Decides, Run;
    var before := es[..|es| - 1];
    if k :| 0 <= k < |before| && Run(before[..k]).Some? && Run(before[..k]).value.a.trip {
      assert before[..k] == es[..k];
    }
    if i :| 0 <= i < |before| && before[i].MeasureA? && Decides(before[i].ph) {
      assert es[i].MeasureA? && Decides(es[i].ph);
    }
    if i :| 0 <= i < |before| && before[i].MeasureB? && Decides(before[i].ph) {
      assert es[i].MeasureB? && Decides(es[i].ph);
    }
    if i :| 0 <= i < |es| && es[i].MeasureA? && Decides(es[i].ph) {
      assert i < |before| ==> before[i] == es[i];
    }
    if i :| 0 <= i < |es| && es[i].MeasureB? && Decides(es[i].ph) {
      assert i < |before| ==> before[i] == es[i];
    }
  }

  /** No trip without a fault seen: relay A trips only after it measured phasors that call
      for a trip, relay B only after it did so itself or relay A had tripped before. */
  lemma {:induction false} TripsHaveCauses(es: seq<Event>)
    requires Run(es).Some?
    ensures RelayJustified(Run(es).value.a, DecidedAtA(es))
    ensures RelayJustified(Run(es).value.b, DecidedAtB(es) || TrippedEarlierAtA(es))
  {
    if es == [] {
    } else {
      hide Decides, Decision;
      var before, e := es[..|es| - 1], es[|es| - 1];
      TripsHaveCauses(before);
      NoSpuriousTransfer(before);
      DecisionsGrow(es);
      var s := Run(before).value;
      if e.StepA? { AdvanceKeepsJustified(s.a, false, DecidedAtA(before)); }
      if e.StepB? {
        AdvanceKeepsJustified(s.b, s.tripA, DecidedAtB(before) || TrippedEarlierAtA(before));
        if s.tripA { assert TrippedEarlierAtA(es); }
      }
    }
  }
}
