/**
 One partition read by the shared consumer loop: deliveries, asynchronous commits and restarts. Handlers, the
 commit path and the moment of a restart are arbitrary, so the statements hold over every run.
 */
module Consumer {

  datatype Payload = NotUtf8 | Empty | NotJson | Json

  /** One call of the handler's message: its offset and whether the handler returned success. */
  datatype Delivery = Delivery(offset: nat, ok: bool)

  /**
   `position` is the next offset to read, `committed` the broker's offset and `inFlight` the commits on their way to
   it.
   */
  datatype State = State(position: nat, committed: nat, inFlight: seq<nat>, deliveries: seq<Delivery>)

  datatype Event =
    | Deliver(handlerOk: bool, commitAccepted: bool)
    | ReceiveError
    | CommitLands
    | CommitLost
    | Restart

  const START := State(0, 0, [], [])

  function Step(log: seq<Payload>, s: State, e: Event): State {
    match e
    case Deliver(handlerOk, commitAccepted) =>
      if s.position >= |log| then s
      else if !log[s.position].Json? then
        s.(position := s.position + 1, deliveries := s.deliveries + [Delivery(s.position, false)])
      else
        State(s.position + 1, s.committed,
              if handlerOk && commitAccepted then s.inFlight + [s.position + 1] else s.inFlight,
              s.deliveries + [Delivery(s.position, handlerOk)])
    case ReceiveError => s
    case CommitLands => if s.inFlight == [] then s else s.(committed := s.inFlight[0], inFlight := s.inFlight[1..])
    case CommitLost => if s.inFlight == [] then s else s.(inFlight := s.inFlight[1..])
    case Restart => s.(position := s.committed, inFlight := [])
  }

  function RunAll(log: seq<Payload>, s: State, events: seq<Event>): State {
    if events == [] then s else Step(log, RunAll(log, s, events[..|events| - 1]), events[|events| - 1])
  }

  /** What the broker and a restart do to the loop. */
  lemma BrokerSteps(log: seq<Payload>, s: State)
    ensures Step(log, s, ReceiveError) == s
    ensures Step(log, s, Restart) == State(s.committed, s.committed, [], s.deliveries)
    ensures var t := Step(log, s, CommitLands);
      && t.position == s.position && t.deliveries == s.deliveries
      && (if s.inFlight == [] then t == s else t.committed == s.inFlight[0] && t.inFlight == s.inFlight[1..])
    ensures var t := Step(log, s, CommitLost);
      && t.position == s.position && t.deliveries == s.deliveries && t.committed == s.committed
      && (if s.inFlight == [] then t == s else t.inFlight == s.inFlight[1..])
  {
  }

  // --- The committed offset ---

  ghost predicate Handled(s: State, offset: nat) {
    exists i :: 0 <= i < |s.deliveries| && s.deliveries[i] == Delivery(offset, true)
  }

  /** An offset that may be committed: the start, or one past a message that was handled. */
  ghost predicate Earned(s: State, offset: nat) {
    offset == 0 || Handled(s, offset - 1)
  }

  ghost predicate Inv(log: seq<Payload>, s: State) {
    && s.committed <= s.position <= |log|
    && Earned(s, s.committed)
    && (forall i :: 0 <= i < |s.inFlight| ==> s.committed < s.inFlight[i] <= s.position && Earned(s, s.inFlight[i]))
    && (forall i, j :: 0 <= i < j < |s.inFlight| ==> s.inFlight[i] < s.inFlight[j])
    && (forall i :: 0 <= i < |s.deliveries| ==> s.deliveries[i].offset < |log|)
    && (forall i :: 0 <= i < |s.deliveries| && s.deliveries[i].ok ==> log[s.deliveries[i].offset].Json?)
  }

  lemma HandledStays(s: State, t: State, offset: nat)
    requires s.deliveries <= t.deliveries && Earned(s, offset)
    ensures Earned(t, offset)
  {
    if offset > 0 {
      var i :| 0 <= i < |s.deliveries| && s.deliveries[i] == Delivery(offset - 1, true);
      assert t.deliveries[i] == Delivery(offset - 1, true);
    }
  }

  lemma StepKeepsInv(log: seq<Payload>, s: State, e: Event)
    requires Inv(log, s)
    ensures Inv(log, Step(log, s, e))
    ensures s.committed <= Step(log, s, e).committed
    ensures s.deliveries <= Step(log, s, e).deliveries
  {
    hide Earned;
    var t := Step(log, s, e);
    HandledStays(s, t, s.committed);
    forall i | 0 <= i < |s.inFlight|
      ensures Earned(t, s.inFlight[i])
    {
      HandledStays(s, t, s.inFlight[i]);
    }
    if e.Deliver? && s.position < |log| {
      JustHandled(s, t, e.handlerOk);
    }
  }

  lemma JustHandled(s: State, t: State, ok: bool)
    requires |t.deliveries| == |s.deliveries| + 1 && t.deliveries[|s.deliveries|].offset == s.position
    ensures t.deliveries[|s.deliveries|].ok ==> Earned(t, s.position + 1)
  {
  }

  /** In every run the committed offset never moves back, and is zero or one past a message whose handler succeeded. */
  lemma {:induction false} RunKeepsInv(log: seq<Payload>, s: State, events: seq<Event>)
    requires Inv(log, s)
    ensures var t := RunAll(log, s, events);
      Inv(log, t) && s.committed <= t.committed && s.deliveries <= t.deliveries
  {
    hide Inv, Step;
    if events == [] {
    } else {
      RunKeepsInv(log, s, events[..|events| - 1]);
      StepKeepsInv(log, RunAll(log, s, events[..|events| - 1]), events[|events| - 1]);
    }
  }

  lemma StartIsFine(log: seq<Payload>)
    ensures Inv(log, START)
  {
  }

  /** A message below the committed offset that was never handled comes before one that was. */
  lemma PassedPrecedesHandled(log: seq<Payload>, events: seq<Event>, offset: nat)
    requires var t := RunAll(log, START, events); offset < t.committed && !Handled(t, offset)
    ensures var t := RunAll(log, START, events); offset < t.committed - 1 && Handled(t, t.committed - 1)
  {
    StartIsFine(log);
    RunKeepsInv(log, START, events);
  }

  // --- What a restart reads again ---

  predicate RestartFree(events: seq<Event>) {
    forall i :: 0 <= i < |events| ==> !events[i].Restart?
  }

  function Deliveries(events: seq<Event>): nat {
    if events == [] then 0 else
      Deliveries(events[..|events| - 1]) + if events[|events| - 1].Deliver? then 1 else 0
  }

  function Least(a: nat, b: nat): nat {
    if a <= b then a else b
  }

  /** Without a restart, deliveries run through the log one offset after the other. */
  lemma {:induction false} ReadsInOrder(log: seq<Payload>, s: State, events: seq<Event>)
    requires s.position <= |log| && RestartFree(events)
    ensures var t := RunAll(log, s, events);
      && t.position == Least(s.position + Deliveries(events), |log|)
      && |t.deliveries| == |s.deliveries| + t.position - s.position
      && s.deliveries <= t.deliveries
      && forall i :: |s.deliveries| <= i < |t.deliveries| ==> t.deliveries[i].offset == s.position + i - |s.deliveries|
  {
    if events == [] {
    } else {
      ReadsInOrder(log, s, events[..|events| - 1]);
    }
  }

  lemma RunAfterRestart(log: seq<Payload>, s: State, events: seq<Event>)
    ensures RunAll(log, s, [Restart] + events) == RunAll(log, Step(log, s, Restart), events)
    decreases |events|
  {
    if events == [] {
      assert ([Restart] + events)[..0] == [];
      assert RunAll(log, s, ([Restart] + events)[..0]) == s;
    } else {
      RunAfterRestart(log, s, events[..|events| - 1]);
      var all := [Restart] + events;
      assert all[..|all| - 1] == [Restart] + events[..|events| - 1];
    }
  }

  /** After a restart every message from the committed offset on is delivered again, in order and without a gap. */
  lemma RestartRedelivers(log: seq<Payload>, s: State, events: seq<Event>)
    requires Inv(log, s) && RestartFree(events)
    ensures var t := RunAll(log, s, [Restart] + events);
      && t.position == Least(s.committed + Deliveries(events), |log|)
      && |t.deliveries| == |s.deliveries| + t.position - s.committed
      && forall i :: |s.deliveries| <= i < |t.deliveries| ==> t.deliveries[i].offset == s.committed + i - |s.deliveries|
  {
    RunAfterRestart(log, s, events);
    ReadsInOrder(log, Step(log, s, Restart), events);
  }

  /** Whether `offset` is delivered in the course of `events`. */
  ghost predicate DeliveredBy(log: seq<Payload>, s: State, events: seq<Event>, offset: nat) {
    var t := RunAll(log, s, events);
    exists i :: |s.deliveries| <= i < |t.deliveries| && t.deliveries[i].offset == offset
  }

  lemma {:induction false} NeverBelowCommitted(log: seq<Payload>, s: State, events: seq<Event>)
    requires Inv(log, s)
    ensures var t := RunAll(log, s, events);
      && (forall i :: |s.deliveries| <= i < |t.deliveries| ==> s.committed <= t.deliveries[i].offset)
      && t.committed >= s.committed && Inv(log, t)
  {
    hide Earned, Handled;
    if events == [] {
    } else {
      var front := events[..|events| - 1];
      NeverBelowCommitted(log, s, front);
      RunKeepsInv(log, s, front);
      StepKeepsInv(log, RunAll(log, s, front), events[|events| - 1]);
    }
  }

  function DeliverAll(n: nat): (events: seq<Event>)
    ensures RestartFree(events)
  {
    if n == 0 then [] else DeliverAll(n - 1) + [Deliver(true, true)]
  }

  lemma {:induction false} DeliverAllCounts(n: nat)
    ensures Deliveries(DeliverAll(n)) == n
  {
    if n == 0 {
    } else {
      DeliverAllCounts(n - 1);
      var events := DeliverAll(n - 1) + [Deliver(true, true)];
      assert events[..|events| - 1] == DeliverAll(n - 1);
    }
  }

  /**
   A message can still be delivered, now or after some restart, exactly when the committed offset has not passed it.
   So a message whose handler failed is redelivered only as long as no later message's commit has landed.
   */
  lemma RedeliverableExactly(log: seq<Payload>, s: State, offset: nat)
    requires Inv(log, s) && offset < |log|
    ensures (exists events :: DeliveredBy(log, s, events, offset)) <==> s.committed <= offset
  {
    if s.committed <= offset {
      var n := offset - s.committed + 1;
      var events := DeliverAll(n);
      DeliverAllCounts(n);
      RestartRedelivers(log, s, events);
      var t := RunAll(log, s, [Restart] + events);
      var i := |s.deliveries| + offset - s.committed;
      assert t.deliveries[i].offset == offset;
      assert DeliveredBy(log, s, [Restart] + events, offset);
    } else {
      forall events
        ensures !DeliveredBy(log, s, events, offset)
      {
        NeverBelowCommitted(log, s, events);
      }
    }
  }

  /** A failed message followed by a handled one whose commit lands is gone, although nothing ever handled it. */
  lemma FailedMessageIsLost(events: seq<Event>)
    ensures var log := [Json, Json];
      var s := RunAll(log, START, [] + [Deliver(false, true)] + [Deliver(true, true)] + [CommitLands]);
      && s.deliveries == [Delivery(0, false), Delivery(1, true)] && s.committed == 2
      && !Handled(RunAll(log, s, events), 0)
  {
    hide RunAll, Inv, Earned;
    var log := [Json, Json];
    NothingRun(log, START);
    var e1 := [] + [Deliver(false, true)];
    var e2 := e1 + [Deliver(true, true)];
    RunPush(log, START, [], Deliver(false, true));
    RunPush(log, START, e1, Deliver(true, true));
    RunPush(log, START, e2, CommitLands);
    var s := RunAll(log, START, e2 + [CommitLands]);
    StartIsFine(log);
    RunKeepsInv(log, START, e2 + [CommitLands]);
    NeverBelowCommitted(log, s, events);
    RunKeepsInv(log, s, events);
  }

  lemma NothingRun(log: seq<Payload>, s: State)
    ensures RunAll(log, s, []) == s
  {
  }

  lemma RunPush(log: seq<Payload>, s: State, events: seq<Event>, e: Event)
    ensures RunAll(log, s, events + [e]) == Step(log, RunAll(log, s, events), e)
  {
    assert (events + [e])[..|events|] == events;
  }

  /** The loop itself, fed with what the broker and the handler do. */
  class KafkaConsumer {
    const log: seq<Payload>
    var position: nat
    var committed: nat
    var inFlight: seq<nat>
    var deliveries: seq<Delivery>

    constructor (log: seq<Payload>)
      ensures this.log == log && Now() == START
    {
      this.log := log;
      position, committed, inFlight, deliveries := 0, 0, [], [];
    }

    function Now(): State
      reads this
    {
      State(position, committed, inFlight, deliveries)
    }

    method CommitMessage(offset: nat)
      modifies this`inFlight
      ensures inFlight == old(inFlight) + [offset + 1]
    {
      inFlight := inFlight + [offset + 1];
    }

    /** One received message: skipped when it cannot be read, committed only after its handler succeeded. */
    method Receive(handlerOk: bool, commitAccepted: bool)
      modifies this
      ensures Now() == Step(log, old(Now()), Deliver(handlerOk, commitAccepted))
      ensures committed == old(committed)
      ensures if old(position) >= |log|
              then position == old(position) && inFlight == old(inFlight) && deliveries == old(deliveries)
              else
                var handled := log[old(position)].Json? && handlerOk;
                && position == old(position) + 1
                && deliveries == old(deliveries) + [Delivery(old(position), handled)]
                && inFlight == old(inFlight) + if handled && commitAccepted then [old(position) + 1] else []
    {
      if position >= |log| {
        return;
      }
      var offset := position;
      position := position + 1;
      if !log[offset].Json? {
        deliveries := deliveries + [Delivery(offset, false)];
        return;
      }
      deliveries := deliveries + [Delivery(offset, handlerOk)];
      if handlerOk && commitAccepted {
        CommitMessage(offset);
      }
    }

    method Run(events: seq<Event>)
      modifies this
      ensures Now() == RunAll(log, old(Now()), events)
    {
      ghost var start := Now();
      for i := 0 to |events|
        invariant Now() == RunAll(log, start, events[..i])
      {
        RunPush(log, start, events[..i], events[i]);
        assert events[..i + 1] == events[..i] + [events[i]];
        match events[i]
        case Deliver(handlerOk, commitAccepted) =>
          Receive(handlerOk, commitAccepted);
        case ReceiveError =>
        case CommitLands =>
          if inFlight != [] {
            committed, inFlight := inFlight[0], inFlight[1..];
          }
        case CommitLost =>
          if inFlight != [] {
            inFlight := inFlight[1..];
          }
        case Restart =>
          position, inFlight := committed, [];
      }
      assert events[..|events|] == events;
    }
  }
}
