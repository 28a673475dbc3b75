/** Auto-enrolment, a check for an existing row and then an overwriting save; and runs in which requests overlap. */
module JourneyEnrolment {
  import opened Outcome
  import opened Journeys
  import opened JourneyExecutor
  import opened JourneyRuns

  /** One journey of a trigger, check and save with nothing in between. */
  function EnrolOnce(s: State, key: Key, at: Time): State {
    if key in s.rows then s else s.(rows := s.rows[key := Fresh(at)])
  }

  /** The journeys of a trigger, in the order the query gave them. */
  function EnrolAll(s: State, journeys: seq<Id>, customer: Id, at: Time): State {
    if journeys == [] then s else
      EnrolOnce(EnrolAll(s, journeys[..|journeys| - 1], customer, at), Key(journeys[|journeys| - 1], customer), at)
  }

  /** A trigger enrols the customer in every listed journey, changes no existing row and adds no other. */
  lemma {:induction false} EnrolAllIs(s: State, journeys: seq<Id>, customer: Id, at: Time)
    ensures var t := EnrolAll(s, journeys, customer, at);
      && t.triggered == s.triggered
      && (forall key :: key in t.rows <==> key in s.rows || (key.customer == customer && key.journey in journeys))
      && (forall key :: key in t.rows ==> t.rows[key] == if key in s.rows then s.rows[key] else Fresh(at))
  {
    if journeys == [] {
    } else {
      var front := journeys[..|journeys| - 1];
      EnrolAllIs(s, front, customer, at);
      assert journeys == front + [journeys[|journeys| - 1]];
    }
  }

  /** A repeated trigger changes nothing, whatever happened to the rows after the first. */
  lemma RepeatedTriggerIsNoOp(s: State, journeys: seq<Id>, customer: Id, at: Time)
    requires forall id :: id in journeys ==> Key(id, customer) in s.rows
    ensures EnrolAll(s, journeys, customer, at) == s
  {
    EnrolAllIs(s, journeys, customer, at);
    assert EnrolAll(s, journeys, customer, at).rows == s.rows;
  }

  // --- The enrol route ---

  datatype RouteError = NoSuchJourney | JourneyNotActive | SaveFailed

  /** The enrol route saves one row per customer and looks at none. */
  function EnrolEach(s: State, journey: Id, customers: seq<Id>, at: Time): State {
    if customers == [] then s else
      var before := EnrolEach(s, journey, customers[..|customers| - 1], at);
      before.(rows := before.rows[Key(journey, customers[|customers| - 1]) := Saved(Route, at)])
  }

  /** So every listed customer stands at step 1 again, however far they were, and no other row changes. */
  lemma {:induction false} EnrolEachIs(s: State, journey: Id, customers: seq<Id>, at: Time)
    ensures var t := EnrolEach(s, journey, customers, at);
      && t.triggered == s.triggered
      && (forall key :: key in t.rows <==> key in s.rows || (key.journey == journey && key.customer in customers))
      && (forall key :: key in t.rows ==>
            t.rows[key] ==
            if key.journey == journey && key.customer in customers then Enrolment(Some(1), Enrolled, Some(at))
            else s.rows[key])
  {
    if customers == [] {
    } else {
      var front := customers[..|customers| - 1];
      EnrolEachIs(s, journey, front, at);
      assert customers == front + [customers[|customers| - 1]];
    }
  }

  // --- Overlapping requests ---

  /** Rows appear only by being saved, and never go. */
  lemma {:induction false} RowsAppearBySave(journeys: map<Id, Journey>, s: System, actions: seq<Action>, key: Key)
    ensures key in Run(journeys, s, actions).table.rows <==>
            key in s.table.rows || exists i :: 0 <= i < |actions| && actions[i].Save? && actions[i].key == key
  {
    hide Next, Handles;
    if actions == [] {
    } else {
      var front, last := actions[..|actions| - 1], actions[|actions| - 1];
      RowsAppearBySave(journeys, s, front, key);
      if last.Save? && last.key == key {
        SaveIs(journeys, Run(journeys, s, front), key, last.at, last.via);
      } else {
        NextAt(journeys, Run(journeys, s, front), last, key);
      }
      assert forall i :: 0 <= i < |front| ==> front[i] == actions[i];
      assert (exists i :: 0 <= i < |actions| && actions[i].Save? && actions[i].key == key) <==>
             (exists i :: 0 <= i < |front| && front[i].Save? && front[i].key == key) || (last.Save? && last.key == key);
    }
  }

  /**
   The save that follows a failed check overwrites an enrolment, back to its first step, exactly when another save of
   the same customer and journey came between the check and the save.
   */
  lemma RaceOverwritesExactly(journeys: map<Id, Journey>, s: System, between: seq<Action>, key: Key, at: Time)
    requires key !in s.table.rows
    ensures var t := Run(journeys, s, between);
      && (key in t.table.rows <==> exists i :: 0 <= i < |between| && between[i].Save? && between[i].key == key)
      && Next(journeys, t, Save(key, at, Consumer)).table.rows[key] == Enrolment(None, Enrolled, Some(at))
  {
    RowsAppearBySave(journeys, s, between, key);
  }

  // --- Runs that send twice ---

  /** A journey that sends a campaign and then waits. */
  function SendThenWait(campaign: Id): Journey {
    Journey(Active, [
      Step(1, SendCampaign, Some(campaign), None, None, None, None, None),
      Step(2, Wait, None, None, None, None, None, None)])
  }

  const NOBODY: map<nat, seq<Fetched>> := map[]

  lemma FetchFirst(journeys: map<Id, Journey>, s: System, key: Key, at: Time, x: nat)
    requires s.table.rows == map[key := Fresh(at)] && Batch(s, x) == []
    ensures DueList(s.table.rows, [key], at)
    ensures Next(journeys, s, Fetch(x, at, [key])) == s.(batches := s.batches[x := [Fetched(key, Fresh(at))]])
  {
    assert Read(s.table.rows, [key]) == [Fetched(key, Fresh(at))];
  }

  lemma HandleFirst(journeys: map<Id, Journey>, s: System, key: Key, campaign: Id, at: Time, x: nat, env: Env,
                    lands: bool)
    requires key.journey in journeys && journeys[key.journey] == SendThenWait(campaign)
    requires s.table.rows.Keys == {key} && s.table.rows[key].status.Enrolled?
    requires Batch(s, x) == [Fetched(key, Fresh(at))]
    ensures var t := Next(journeys, s, Process(x, env, at, lands));
      && t.batches == s.batches[x := []]
      && t.table.rows == (if lands then map[key := Enrolment(Some(2), Enrolled, Some(at))] else s.table.rows)
      && t.table.triggered == s.table.triggered + [(key, campaign)]
  {
    assert Batch(s, x)[1..] == [];
  }

  function Enrolled1(key: Key): System {
    System(State(map[key := Fresh(1)], []), NOBODY)
  }

  /** Two executors that fetch a due row before either has updated it both send its campaign. */
  lemma TwoExecutorsSendTwice(key: Key, campaign: Id, env: Env)
    ensures var journeys := map[key.journey := SendThenWait(campaign)];
      var actions := [] + [Fetch(0, 1, [key])] + [Fetch(1, 1, [key])] + [Process(0, env, 1, true)]
        + [Process(1, env, 1, true)];
      && Plays(journeys, Enrolled1(key), actions)
      && Run(journeys, Enrolled1(key), actions).table.triggered == [(key, campaign), (key, campaign)]
  {
    hide Next, Run, Plays, DueList;
    var journeys := map[key.journey := SendThenWait(campaign)];
    var s := Enrolled1(key);
    var a1 := [] + [Fetch(0, 1, [key])];
    var a2 := a1 + [Fetch(1, 1, [key])];
    var a3 := a2 + [Process(0, env, 1, true)];
    NothingRun(journeys, s);
    FetchFirst(journeys, s, key, 1, 0);
    RunPush(journeys, s, [], Fetch(0, 1, [key]));
    FetchFirst(journeys, Run(journeys, s, a1), key, 1, 1);
    RunPush(journeys, s, a1, Fetch(1, 1, [key]));
    HandleFirst(journeys, Run(journeys, s, a2), key, campaign, 1, 0, env, true);
    RunPush(journeys, s, a2, Process(0, env, 1, true));
    HandleFirst(journeys, Run(journeys, s, a3), key, campaign, 1, 1, env, true);
    RunPush(journeys, s, a3, Process(1, env, 1, true));
  }

  /** One executor alone sends a campaign twice when the update after the first send fails. */
  lemma FailedUpdateSendsTwice(key: Key, campaign: Id, env: Env)
    ensures var journeys := map[key.journey := SendThenWait(campaign)];
      var actions := [] + [Fetch(0, 1, [key])] + [Process(0, env, 1, false)] + [Fetch(0, 1, [key])]
        + [Process(0, env, 1, true)];
      && Plays(journeys, Enrolled1(key), actions)
      && Run(journeys, Enrolled1(key), actions).table.triggered == [(key, campaign), (key, campaign)]
  {
    hide Next, Run, Plays, DueList;
    var journeys := map[key.journey := SendThenWait(campaign)];
    var s := Enrolled1(key);
    var a1 := [] + [Fetch(0, 1, [key])];
    var a2 := a1 + [Process(0, env, 1, false)];
    var a3 := a2 + [Fetch(0, 1, [key])];
    NothingRun(journeys, s);
    FetchFirst(journeys, s, key, 1, 0);
    RunPush(journeys, s, [], Fetch(0, 1, [key]));
    HandleFirst(journeys, Run(journeys, s, a1), key, campaign, 1, 0, env, false);
    RunPush(journeys, s, a1, Process(0, env, 1, false));
    FetchFirst(journeys, Run(journeys, s, a2), key, 1, 0);
    RunPush(journeys, s, a2, Fetch(0, 1, [key]));
    HandleFirst(journeys, Run(journeys, s, a3), key, campaign, 1, 0, env, true);
    RunPush(journeys, s, a3, Process(0, env, 1, true));
  }

  /** Two consumers that both checked before either saved make the first campaign of a journey go out twice. */
  lemma RaceSendsTwice(key: Key, campaign: Id, env: Env)
    ensures var journeys := map[key.journey := SendThenWait(campaign)];
      var start := System(State(map[], []), NOBODY);
      var actions := [] + [Save(key, 1, Consumer)] + [Fetch(0, 1, [key])] + [Process(0, env, 1, true)]
        + [Save(key, 2, Consumer)] + [Fetch(0, 2, [key])] + [Process(0, env, 2, true)];
      && Plays(journeys, start, actions)
      && Run(journeys, start, actions).table.triggered == [(key, campaign), (key, campaign)]
  {
    hide Next, Run, Plays, DueList;
    var journeys := map[key.journey := SendThenWait(campaign)];
    var s := System(State(map[], []), NOBODY);
    var a1 := [] + [Save(key, 1, Consumer)];
    var a2 := a1 + [Fetch(0, 1, [key])];
    var a3 := a2 + [Process(0, env, 1, true)];
    var a4 := a3 + [Save(key, 2, Consumer)];
    var a5 := a4 + [Fetch(0, 2, [key])];
    NothingRun(journeys, s);
    RunPush(journeys, s, [], Save(key, 1, Consumer));
    SaveIs(journeys, s, key, 1, Consumer);
    FetchFirst(journeys, Run(journeys, s, a1), key, 1, 0);
    RunPush(journeys, s, a1, Fetch(0, 1, [key]));
    HandleFirst(journeys, Run(journeys, s, a2), key, campaign, 1, 0, env, true);
    RunPush(journeys, s, a2, Process(0, env, 1, true));
    RunPush(journeys, s, a3, Save(key, 2, Consumer));
    SaveIs(journeys, Run(journeys, s, a3), key, 2, Consumer);
    FetchFirst(journeys, Run(journeys, s, a4), key, 2, 0);
    RunPush(journeys, s, a4, Fetch(0, 2, [key]));
    HandleFirst(journeys, Run(journeys, s, a5), key, campaign, 2, 0, env, true);
    RunPush(journeys, s, a5, Process(0, env, 2, true));
  }
}
