/**
 Whole runs: any number of executors that each fetch due rows and then handle them one by one, interleaved with each
 other and with saves of enrolments. Nothing locks a row between its fetch and its update.
 */
module JourneyRuns {
  import opened Outcome
  import opened Seqs
  import opened Journeys
  import opened JourneyExecutor

  /** A row as an executor read it. */
  datatype Fetched = Fetched(key: Key, row: Enrolment)

  /** `batches` holds what each executor has fetched and not handled yet. */
  datatype System = System(table: State, batches: map<nat, seq<Fetched>>)

  /** The auto-enrolment consumer leaves the current step open; the enrol route puts 1 whatever the steps are. */
  datatype Enroller = Consumer | Route

  /**
   A fetch is the due query of an idle executor. A handling takes the next row of the batch; when its update does not
   land the tick is over. An abort ends a tick between two rows. A save overwrites whatever the table holds.
   */
  datatype Action =
    | Fetch(executor: nat, now: Time, due: seq<Key>)
    | Process(executor: nat, env: Env, now: Time, lands: bool)
    | Abort(executor: nat)
    | Save(key: Key, at: Time, via: Enroller)

  function Fresh(at: Time): Enrolment {
    Enrolment(None, Enrolled, Some(at))
  }

  function Saved(via: Enroller, at: Time): Enrolment {
    Fresh(at).(current := if via.Route? then Some(1) else None)
  }

  function Batch(s: System, executor: nat): seq<Fetched> {
    if executor in s.batches then s.batches[executor] else []
  }

  function Read(rows: map<Key, Enrolment>, due: seq<Key>): seq<Fetched>
    requires forall key :: key in due ==> key in rows
  {
    seq(|due|, i requires 0 <= i < |due| => Fetched(due[i], rows[due[i]]))
  }

  /** A step that is not enabled leaves the state as it is. */
  function Next(journeys: map<Id, Journey>, s: System, a: Action): System {
    match a
    case Fetch(x, _, due) =>
      if Batch(s, x) != [] || exists key :: key in due && key !in s.table.rows then s
      else s.(batches := s.batches[x := Read(s.table.rows, due)])
    case Process(x, env, now, lands) =>
      var batch := Batch(s, x);
      if batch == [] then s
      else System(HandleRow(journeys, s.table, batch[0].key, batch[0].row, env, now, lands),
                  s.batches[x := if lands then batch[1..] else []])
    case Abort(x) => s.(batches := s.batches[x := []])
    case Save(key, at, via) => s.(table := s.table.(rows := s.table.rows[key := Saved(via, at)]))
  }

  function Run(journeys: map<Id, Journey>, s: System, actions: seq<Action>): System {
    if actions == [] then s else
      Next(journeys, Run(journeys, s, actions[..|actions| - 1]), actions[|actions| - 1])
  }

  /** Every fetch gets what the due query may return at that point. */
  ghost predicate Plays(journeys: map<Id, Journey>, s: System, actions: seq<Action>) {
    actions == [] ||
    (var front, last := actions[..|actions| - 1], actions[|actions| - 1];
     && Plays(journeys, s, front)
     && (last.Fetch? ==> DueList(Run(journeys, s, front).table.rows, last.due, last.now)))
  }

  lemma RunPush(journeys: map<Id, Journey>, s: System, actions: seq<Action>, a: Action)
    requires Plays(journeys, s, actions)
    requires a.Fetch? ==> DueList(Run(journeys, s, actions).table.rows, a.due, a.now)
    ensures Plays(journeys, s, actions + [a])
    ensures Run(journeys, s, actions + [a]) == Next(journeys, Run(journeys, s, actions), a)
  {
    assert (actions + [a])[..|actions|] == actions;
  }

  lemma NothingRun(journeys: map<Id, Journey>, s: System)
    ensures Plays(journeys, s, []) && Run(journeys, s, []) == s
  {
  }

  // --- One handling, seen from one enrolment ---

  function TriggeredFor(triggered: seq<(Key, Id)>, key: Key): seq<Id> {
    if triggered == [] then [] else
      var last := triggered[|triggered| - 1];
      TriggeredFor(triggered[..|triggered| - 1], key) + (if last.0 == key then [last.1] else [])
  }

  lemma TriggeredPush(triggered: seq<(Key, Id)>, key: Key, id: Id, other: Key)
    ensures TriggeredFor(triggered + [(key, id)], other) ==
            TriggeredFor(triggered, other) + (if key == other then [id] else [])
  {
    assert (triggered + [(key, id)])[..|triggered|] == triggered;
  }

  /** A handling moves its own row when it lands, triggers its own campaign in any case, and touches no other row. */
  lemma HandleRowAt(journeys: map<Id, Journey>, s: State, last: Key, e: Enrolment, env: Env, now: Time, lands: bool,
                    key: Key)
    ensures var t := HandleRow(journeys, s, last, e, env, now, lands);
      var effect := Handle(journeys, last, e, env, now);
      && t.rows.Keys == s.rows.Keys
      && (key in s.rows ==>
            t.rows[key] == if key == last && lands then Moved(s.rows[key], effect.move) else s.rows[key])
      && TriggeredFor(t.triggered, key) ==
         TriggeredFor(s.triggered, key) + (if key == last then TriggerOf(effect.trigger) else [])
  {
    hide Handle, TriggeredFor, Moved;
    var effect := Handle(journeys, last, e, env, now);
    if effect.trigger.Some? {
      TriggeredPush(s.triggered, last, effect.trigger.value, key);
    } else {
      assert TriggeredFor(s.triggered, key) + [] == TriggeredFor(s.triggered, key);
    }
  }

  /** The row `a` handles next, if it handles one. */
  function Handled(s: System, a: Action): Option<Fetched> {
    if a.Process? && Batch(s, a.executor) != [] then Some(Batch(s, a.executor)[0]) else None
  }

  predicate Handles(s: System, a: Action, key: Key) {
    Handled(s, a).Some? && Handled(s, a).value.key == key
  }

  /** What an action does to one row and its campaigns. */
  lemma NextAt(journeys: map<Id, Journey>, s: System, a: Action, key: Key)
    requires !(a.Save? && a.key == key)
    ensures var t := Next(journeys, s, a);
      && (key in s.table.rows <==> key in t.table.rows)
      && (key in s.table.rows && !(Handles(s, a, key) && a.lands) ==> t.table.rows[key] == s.table.rows[key])
      && (key in s.table.rows && Handles(s, a, key) && a.lands ==>
            t.table.rows[key] ==
            Moved(s.table.rows[key], Handle(journeys, key, Handled(s, a).value.row, a.env, a.now).move))
      && TriggeredFor(t.table.triggered, key) == TriggeredFor(s.table.triggered, key) +
         (if Handles(s, a, key)
          then TriggerOf(Handle(journeys, key, Handled(s, a).value.row, a.env, a.now).trigger) else [])
  {
    hide Handle, TriggeredFor, Moved, HandleRow;
    assert TriggeredFor(s.table.triggered, key) + [] == TriggeredFor(s.table.triggered, key);
    if Handled(s, a).Some? {
      var f := Handled(s, a).value;
      HandleRowAt(journeys, s.table, f.key, f.row, a.env, a.now, a.lands, key);
    }
  }

  // --- The handlings of one enrolment ---

  /**
   One handling: the order its executor had read and the answer given there; whether the row still stood there; and
   whether the update landed.
   */
  datatype Handling = Handling(order: int, answer: bool, standing: bool, landed: bool)

  predicate Standing(rows: map<Key, Enrolment>, f: Fetched) {
    && f.key in rows && rows[f.key].status.Enrolled?
    && CurrentOrder(rows[f.key]) == CurrentOrder(f.row)
  }

  function HandlingOf(steps: seq<Step>, s: System, a: Action): Handling
    requires Handled(s, a).Some?
  {
    var f := Handled(s, a).value;
    Handling(CurrentOrder(f.row), AnswerAt(steps, CurrentOrder(f.row), a.env), Standing(s.table.rows, f), a.lands)
  }

  /** Every handling of `key` in a run, in order. */
  function Handlings(journeys: map<Id, Journey>, s: System, actions: seq<Action>, key: Key): seq<Handling>
    requires key.journey in journeys
  {
    if actions == [] then [] else
      var front, last := actions[..|actions| - 1], actions[|actions| - 1];
      var before := Run(journeys, s, front);
      Handlings(journeys, s, front, key) +
      (if Handles(before, last, key) then [HandlingOf(journeys[key.journey].steps, before, last)] else [])
  }

  function Landed(hs: seq<Handling>): seq<Handling> {
    Filter(hs, (h: Handling) => h.landed)
  }

  function Answers(hs: seq<Handling>): seq<bool> {
    seq(|hs|, i requires 0 <= i < |hs| => hs[i].answer)
  }

  /** The steps performed by handlings, whether or not they landed. */
  function StepsOf(steps: seq<Step>, hs: seq<Handling>): seq<Step> {
    if hs == [] then [] else
      StepsOf(steps, hs[..|hs| - 1]) +
      match FindStep(steps, hs[|hs| - 1].order)
      case None => []
      case Some(step) => [step]
  }

  /** The handlings go along the walk their answers choose. */
  ghost predicate IsWalk(steps: seq<Step>, hs: seq<Handling>) {
    forall i :: 0 <= i < |hs| ==> Walk(steps, 1, Answers(hs[..i])) == Some(hs[i].order)
  }

  predicate AllStanding(hs: seq<Handling>) {
    forall i :: 0 <= i < |hs| ==> hs[i].standing
  }

  predicate AllLanded(hs: seq<Handling>) {
    forall i :: 0 <= i < |hs| ==> hs[i].landed
  }

  lemma FilterPush(hs: seq<Handling>, h: Handling)
    ensures Landed(hs + [h]) == Landed(hs) + (if h.landed then [h] else [])
  {
    assert (hs + [h])[..|hs|] == hs;
  }

  lemma AnswersPush(hs: seq<Handling>, h: Handling)
    ensures Answers(hs + [h]) == Answers(hs) + [h.answer]
  {
  }

  lemma IsWalkPush(steps: seq<Step>, hs: seq<Handling>, h: Handling)
    ensures IsWalk(steps, hs + [h]) <==> IsWalk(steps, hs) && Walk(steps, 1, Answers(hs)) == Some(h.order)
  {
    hide Walk, Answers;
    var longer := hs + [h];
    assert longer[..|hs|] == hs;
    forall i | 0 <= i < |hs|
      ensures longer[..i] == hs[..i] && longer[i] == hs[i]
    {
    }
    if IsWalk(steps, longer) {
      assert Walk(steps, 1, Answers(longer[..|hs|])) == Some(longer[|hs|].order);
      forall i | 0 <= i < |hs|
        ensures Walk(steps, 1, Answers(hs[..i])) == Some(hs[i].order)
      {
        assert Walk(steps, 1, Answers(longer[..i])) == Some(longer[i].order);
      }
    }
  }

  lemma AllStandingPush(hs: seq<Handling>, h: Handling)
    ensures AllStanding(hs + [h]) <==> AllStanding(hs) && h.standing
  {
    var longer := hs + [h];
    assert longer[|hs|] == h;
    assert forall i :: 0 <= i < |hs| ==> longer[i] == hs[i];
  }

  lemma StepsOfPush(steps: seq<Step>, hs: seq<Handling>, h: Handling)
    ensures StepsOf(steps, hs + [h]) ==
            StepsOf(steps, hs) + (match FindStep(steps, h.order) case None => [] case Some(step) => [step])
  {
    assert (hs + [h])[..|hs|] == hs;
  }

  lemma CampaignsPush(performed: seq<Step>, more: seq<Step>)
    requires |more| <= 1
    ensures CampaignsOf(performed + more) ==
            CampaignsOf(performed) + if more == [] then [] else CampaignOf(more[0])
  {
    if more == [] {
      assert performed + more == performed;
    } else {
      assert (performed + more)[..|performed|] == performed;
    }
  }

  /** The row stands where the walk does. */
  predicate StandsAt(e: Enrolment, reached: Option<int>) {
    match reached
    case None => e.status.Completed? && e.nextAt.None?
    case Some(order) => e.status.Enrolled? && CurrentOrder(e) == order
  }

  // --- The executors and the graph ---

  /** What the handlings so far have made of an enrolment. */
  ghost predicate OnTrack(steps: seq<Step>, t: System, key: Key, hs: seq<Handling>) {
    && key in t.table.rows
    && (IsWalk(steps, Landed(hs)) <==> AllStanding(Landed(hs)))
    && (IsWalk(steps, Landed(hs)) ==> StandsAt(t.table.rows[key], Walk(steps, 1, Answers(Landed(hs)))))
  }

  lemma WalkPush(steps: seq<Step>, answers: seq<bool>, answer: bool)
    ensures Walk(steps, 1, answers + [answer]) ==
            match Walk(steps, 1, answers) case None => None case Some(reached) => Edge(steps, reached, answer)
  {
    assert (answers + [answer])[..|answers|] == answers;
  }

  /** A handling that lands goes on from where the row stands exactly when the row stands where it was read. */
  lemma LandingOnTrack(journeys: map<Id, Journey>, t: System, a: Action, key: Key, hs: seq<Handling>)
    requires key.journey in journeys && journeys[key.journey].status.Active?
    requires OnTrack(journeys[key.journey].steps, t, key, hs) && Handles(t, a, key) && a.lands
    ensures var steps := journeys[key.journey].steps;
      OnTrack(steps, Next(journeys, t, a), key, hs + [HandlingOf(steps, t, a)])
  {
    hide Edge, Walk, FindStep, Handle, TriggeredFor, AnswerAt, HandleRow, IsWalk, Landed, Answers, AllStanding, Next;
    var steps := journeys[key.journey].steps;
    var f, h := Handled(t, a).value, HandlingOf(steps, t, a);
    var landed := Landed(hs);
    NextAt(journeys, t, a, key);
    HandleIsEdge(journeys, key, f.row, a.env, a.now);
    FilterPush(hs, h);
    AnswersPush(landed, h);
    IsWalkPush(steps, landed, h);
    AllStandingPush(landed, h);
    WalkPush(steps, Answers(landed), h.answer);
  }

  lemma NotLandingOnTrack(journeys: map<Id, Journey>, t: System, a: Action, key: Key, hs: seq<Handling>)
    requires key.journey in journeys
    requires OnTrack(journeys[key.journey].steps, t, key, hs) && !(Handles(t, a, key) && a.lands)
    requires !(a.Save? && a.key == key)
    ensures var steps := journeys[key.journey].steps;
      OnTrack(steps, Next(journeys, t, a), key,
              hs + if Handles(t, a, key) then [HandlingOf(steps, t, a)] else [])
  {
    hide Walk, FindStep, Handle, TriggeredFor, AnswerAt, HandleRow, IsWalk, Landed, Answers, AllStanding, Next;
    var steps := journeys[key.journey].steps;
    NextAt(journeys, t, a, key);
    if Handles(t, a, key) {
      FilterPush(hs, HandlingOf(steps, t, a));
      assert Landed(hs) + [] == Landed(hs);
    } else {
      assert hs + [] == hs;
    }
  }

  /** An enrolment in an active journey at its first step, which nobody saves again. */
  ghost predicate Enters(journeys: map<Id, Journey>, s: System, actions: seq<Action>, key: Key) {
    && key.journey in journeys && journeys[key.journey].status.Active?
    && key in s.table.rows && s.table.rows[key].status.Enrolled? && CurrentOrder(s.table.rows[key]) == 1
    && (forall a :: a in actions && a.Save? ==> a.key != key)
  }

  lemma EntersFront(journeys: map<Id, Journey>, s: System, actions: seq<Action>, key: Key)
    requires actions != [] && Enters(journeys, s, actions, key)
    ensures Enters(journeys, s, actions[..|actions| - 1], key)
    ensures !(actions[|actions| - 1].Save? && actions[|actions| - 1].key == key)
  {
    assert actions[|actions| - 1] in actions;
  }

  /**
   In every interleaving of executors, failing updates and the enrolments of others: the handlings of an enrolment that
   landed go along the path their answers choose if and only if each of them met the row standing where its executor
   had read it; and then the row stands at the end of that path.
   */
  lemma {:induction false} PathExactly(journeys: map<Id, Journey>, s: System, actions: seq<Action>, key: Key)
    requires Enters(journeys, s, actions, key)
    ensures OnTrack(journeys[key.journey].steps, Run(journeys, s, actions), key, Handlings(journeys, s, actions, key))
  {
    hide OnTrack, HandlingOf, Next;
    if actions == [] {
      NothingOnTrack(journeys[key.journey].steps, s, key);
    } else {
      var front, last := actions[..|actions| - 1], actions[|actions| - 1];
      EntersFront(journeys, s, actions, key);
      PathExactly(journeys, s, front, key);
      var t, hs := Run(journeys, s, front), Handlings(journeys, s, front, key);
      if Handles(t, last, key) && last.lands {
        LandingOnTrack(journeys, t, last, key, hs);
      } else {
        NotLandingOnTrack(journeys, t, last, key, hs);
      }
    }
  }

  lemma NothingOnTrack(steps: seq<Step>, s: System, key: Key)
    requires key in s.table.rows && s.table.rows[key].status.Enrolled? && CurrentOrder(s.table.rows[key]) == 1
    ensures OnTrack(steps, s, key, [])
  {
  }

  /** The campaigns triggered are those of the steps handled, in order, whether or not the updates landed. */
  lemma {:induction false} TriggersAreHandlings(journeys: map<Id, Journey>, s: System, actions: seq<Action>, key: Key)
    requires Enters(journeys, s, actions, key)
    ensures TriggeredFor(Run(journeys, s, actions).table.triggered, key) ==
            TriggeredFor(s.table.triggered, key) +
            CampaignsOf(StepsOf(journeys[key.journey].steps, Handlings(journeys, s, actions, key)))
  {
    hide TriggeredFor, CampaignsOf, StepsOf, FindStep, Handle, AnswerAt, Next;
    var steps := journeys[key.journey].steps;
    if actions == [] {
      NoCampaigns(steps);
      assert TriggeredFor(s.table.triggered, key) + [] == TriggeredFor(s.table.triggered, key);
    } else {
      var front, last := actions[..|actions| - 1], actions[|actions| - 1];
      EntersFront(journeys, s, actions, key);
      TriggersAreHandlings(journeys, s, front, key);
      var t, hs := Run(journeys, s, front), Handlings(journeys, s, front, key);
      NextAt(journeys, t, last, key);
      if Handles(t, last, key) {
        var f, h := Handled(t, last).value, HandlingOf(steps, t, last);
        HandleIsEdge(journeys, key, f.row, last.env, last.now);
        StepsOfPush(steps, hs, h);
        CampaignsPush(StepsOf(steps, hs), match FindStep(steps, h.order) case None => [] case Some(step) => [step]);
      } else {
        assert hs + [] == hs;
      }
    }
  }

  lemma NoCampaigns(steps: seq<Step>)
    ensures CampaignsOf(StepsOf(steps, [])) == []
  {
  }

  /** Along a walk, the steps handled are the steps performed. */
  lemma {:induction false} WalkPerforms(steps: seq<Step>, hs: seq<Handling>)
    requires IsWalk(steps, hs)
    ensures StepsOf(steps, hs) == Performed(steps, 1, Answers(hs))
  {
    hide Walk, FindStep;
    if hs == [] {
    } else {
      var front, h := hs[..|hs| - 1], hs[|hs| - 1];
      assert hs == front + [h];
      IsWalkPush(steps, front, h);
      WalkPerforms(steps, front);
      AnswersPush(front, h);
      assert (Answers(front) + [h.answer])[..|front|] == Answers(front);
    }
  }

  lemma {:induction false} AllLandedFilter(hs: seq<Handling>)
    requires AllLanded(hs)
    ensures Landed(hs) == hs
  {
    if hs == [] {
    } else {
      AllLandedFilter(hs[..|hs| - 1]);
    }
  }

  // --- What is sent ---

  predicate SendsNothing(steps: seq<Step>, h: Handling) {
    match FindStep(steps, h.order)
    case None => true
    case Some(step) => CampaignOf(step) == []
  }

  /** Only handlings that send nothing failed to land. */
  predicate SendsLanded(steps: seq<Step>, hs: seq<Handling>) {
    forall i :: 0 <= i < |hs| ==> hs[i].landed || SendsNothing(steps, hs[i])
  }

  lemma SendsLandedPush(steps: seq<Step>, hs: seq<Handling>, h: Handling)
    ensures SendsLanded(steps, hs + [h]) <==> SendsLanded(steps, hs) && (h.landed || SendsNothing(steps, h))
  {
    hide SendsNothing;
    var longer := hs + [h];
    assert longer[|hs|] == h;
    assert forall i :: 0 <= i < |hs| ==> longer[i] == hs[i];
  }

  lemma SendsPush(steps: seq<Step>, hs: seq<Handling>, h: Handling)
    ensures var sent := CampaignsOf(StepsOf(steps, hs + [h]));
      && |sent| == |CampaignsOf(StepsOf(steps, hs))| + (if SendsNothing(steps, h) then 0 else 1)
      && (SendsNothing(steps, h) ==> sent == CampaignsOf(StepsOf(steps, hs)))
    ensures forall other ::
      CampaignsOf(StepsOf(steps, other)) == CampaignsOf(StepsOf(steps, hs)) ==>
        CampaignsOf(StepsOf(steps, other + [h])) == CampaignsOf(StepsOf(steps, hs + [h]))
  {
    hide CampaignsOf, StepsOf, FindStep;
    var more := match FindStep(steps, h.order) case None => [] case Some(step) => [step];
    StepsOfPush(steps, hs, h);
    CampaignsPush(StepsOf(steps, hs), more);
    forall other | CampaignsOf(StepsOf(steps, other)) == CampaignsOf(StepsOf(steps, hs))
      ensures CampaignsOf(StepsOf(steps, other + [h])) == CampaignsOf(StepsOf(steps, hs + [h]))
    {
      StepsOfPush(steps, other, h);
      CampaignsPush(StepsOf(steps, other), more);
    }
  }

  /** Handlings that did not land only ever add campaigns, and add none exactly when they send nothing. */
  lemma {:induction false} UnlandedSends(steps: seq<Step>, hs: seq<Handling>)
    ensures |CampaignsOf(StepsOf(steps, hs))| >= |CampaignsOf(StepsOf(steps, Landed(hs)))|
    ensures CampaignsOf(StepsOf(steps, hs)) == CampaignsOf(StepsOf(steps, Landed(hs))) <==> SendsLanded(steps, hs)
    ensures |CampaignsOf(StepsOf(steps, hs))| == |CampaignsOf(StepsOf(steps, Landed(hs)))| <==> SendsLanded(steps, hs)
  {
    hide CampaignsOf, StepsOf, SendsLanded, SendsNothing, Landed;
    if hs == [] {
      NoneLanded(steps);
    } else {
      var front, h := hs[..|hs| - 1], hs[|hs| - 1];
      assert hs == front + [h];
      UnlandedSends(steps, front);
      FilterPush(front, h);
      SendsLandedPush(steps, front, h);
      SendsPush(steps, front, h);
      SendsPush(steps, Landed(front), h);
      assert Landed(front) + [] == Landed(front);
    }
  }

  lemma NoneLanded(steps: seq<Step>)
    ensures Landed([]) == [] && SendsLanded(steps, [])
  {
  }

  /**
   For an enrolment that keeps to its path, the campaigns triggered are exactly those of the steps on that path if and
   only if no handling that sends one failed to land.
   */
  lemma SendsExactly(journeys: map<Id, Journey>, s: System, actions: seq<Action>, key: Key)
    requires Enters(journeys, s, actions, key)
    requires AllStanding(Landed(Handlings(journeys, s, actions, key)))
    ensures var hs, steps := Handlings(journeys, s, actions, key), journeys[key.journey].steps;
      TriggeredFor(Run(journeys, s, actions).table.triggered, key) ==
      TriggeredFor(s.table.triggered, key) + CampaignsOf(Performed(steps, 1, Answers(Landed(hs)))) <==>
      SendsLanded(steps, hs)
  {
    hide Walk, Performed, CampaignsOf, TriggeredFor, IsWalk, StepsOf, SendsLanded, Landed;
    var hs, steps := Handlings(journeys, s, actions, key), journeys[key.journey].steps;
    PathExactly(journeys, s, actions, key);
    TriggersAreHandlings(journeys, s, actions, key);
    WalkPerforms(steps, Landed(hs));
    UnlandedSends(steps, hs);
    var sent, due := CampaignsOf(StepsOf(steps, hs)), CampaignsOf(StepsOf(steps, Landed(hs)));
    var before := TriggeredFor(s.table.triggered, key);
    if before + sent == before + due {
      assert |sent| == |due|;
    }
  }

  // --- Executors that do not overlap ---

  /** At most one executor holds the row. */
  ghost predicate OneHolder(s: System, key: Key) {
    forall x, y, i, j ::
      0 <= i < |Batch(s, x)| && 0 <= j < |Batch(s, y)| && Batch(s, x)[i].key == key && Batch(s, y)[j].key == key ==>
        x == y && i == j
  }

  /** All along the run. */
  ghost predicate NeverOverlaps(journeys: map<Id, Journey>, s: System, actions: seq<Action>, key: Key) {
    && OneHolder(s, key)
    && (actions != [] ==>
          && NeverOverlaps(journeys, s, actions[..|actions| - 1], key)
          && OneHolder(Run(journeys, s, actions), key))
  }

  /** Whoever holds the row has read it as it is. */
  ghost predicate HeldAsIs(s: System, key: Key) {
    forall x, i :: 0 <= i < |Batch(s, x)| && Batch(s, x)[i].key == key ==>
      key in s.table.rows && Batch(s, x)[i].row == s.table.rows[key] && s.table.rows[key].status.Enrolled?
  }

  lemma HeldElsewhere(s: System, a: Action, key: Key, x: nat, k: nat)
    requires OneHolder(s, key) && a.Process? && k < |Batch(s, x)| && Batch(s, x)[k].key == key
    requires x != a.executor || k > 0
    ensures !Handles(s, a, key)
  {
  }

  lemma HeldStays(journeys: map<Id, Journey>, s: System, a: Action, key: Key)
    requires HeldAsIs(s, key) && OneHolder(s, key) && !(a.Save? && a.key == key)
    requires a.Fetch? ==> DueList(s.table.rows, a.due, a.now)
    ensures HeldAsIs(Next(journeys, s, a), key)
  {
    hide Handle, HandleRow, TriggeredFor, Moved;
    NextAt(journeys, s, a, key);
    var t := Next(journeys, s, a);
    forall x, i | 0 <= i < |Batch(t, x)| && Batch(t, x)[i].key == key
      ensures key in t.table.rows && Batch(t, x)[i].row == t.table.rows[key] && t.table.rows[key].status.Enrolled?
    {
      if a.Process? && Batch(s, a.executor) != [] {
        var k := if x == a.executor then i + 1 else i;
        assert Batch(s, x)[k] == Batch(t, x)[i];
        HeldElsewhere(s, a, key, x, k);
      } else if a.Fetch? && x == a.executor && Batch(s, x) == [] {
        assert a.due[i] in a.due;
      } else {
        assert Batch(s, x)[i] == Batch(t, x)[i];
      }
    }
  }

  /** When no two executors hold the row at once, every handling meets it standing where it was read. */
  lemma {:induction false} ApartIsStanding(journeys: map<Id, Journey>, s: System, actions: seq<Action>, key: Key)
    requires Enters(journeys, s, actions, key) && Plays(journeys, s, actions)
    requires NeverOverlaps(journeys, s, actions, key) && HeldAsIs(s, key)
    ensures HeldAsIs(Run(journeys, s, actions), key)
    ensures AllStanding(Handlings(journeys, s, actions, key))
  {
    hide Next, HeldAsIs, DueList, OneHolder, AnswerAt;
    if actions == [] {
    } else {
      var front, last := actions[..|actions| - 1], actions[|actions| - 1];
      EntersFront(journeys, s, actions, key);
      ApartIsStanding(journeys, s, front, key);
      var t := Run(journeys, s, front);
      HolderNow(journeys, s, front, key);
      HeldStays(journeys, t, last, key);
      if Handles(t, last, key) {
        HandlesStanding(journeys[key.journey].steps, t, last, key);
        AllStandingPush(Handlings(journeys, s, front, key), HandlingOf(journeys[key.journey].steps, t, last));
      } else {
        assert Handlings(journeys, s, front, key) + [] == Handlings(journeys, s, front, key);
      }
    }
  }

  lemma HolderNow(journeys: map<Id, Journey>, s: System, actions: seq<Action>, key: Key)
    requires NeverOverlaps(journeys, s, actions, key)
    ensures OneHolder(Run(journeys, s, actions), key)
  {
  }

  lemma HandlesStanding(steps: seq<Step>, t: System, a: Action, key: Key)
    requires HeldAsIs(t, key) && Handles(t, a, key)
    ensures HandlingOf(steps, t, a).standing
  {
    assert Batch(t, a.executor)[0].key == key;
  }

  /** From enrolment on, the campaigns triggered and the row are those of the walk its answers choose. */
  ghost predicate OnPath(steps: seq<Step>, s: State, t: State, key: Key, answers: seq<bool>) {
    && key in t.rows
    && StandsAt(t.rows[key], Walk(steps, 1, answers))
    && TriggeredFor(t.triggered, key) == TriggeredFor(s.triggered, key) + CampaignsOf(Performed(steps, 1, answers))
  }

  /**
   When no two executors hold the row at once and its updates land, an enrolment in an active journey triggers exactly
   the campaigns on the path chosen by its answers, and its row stands at the end of that path.
   */
  lemma ExecutorFollowsPath(journeys: map<Id, Journey>, s: System, actions: seq<Action>, key: Key)
    requires Enters(journeys, s, actions, key) && Plays(journeys, s, actions)
    requires NeverOverlaps(journeys, s, actions, key) && HeldAsIs(s, key)
    requires AllLanded(Handlings(journeys, s, actions, key))
    ensures OnPath(journeys[key.journey].steps, s.table, Run(journeys, s, actions).table, key,
                   Answers(Handlings(journeys, s, actions, key)))
  {
    hide Walk, Performed, CampaignsOf, TriggeredFor, IsWalk, StepsOf;
    var hs := Handlings(journeys, s, actions, key);
    ApartIsStanding(journeys, s, actions, key);
    PathExactly(journeys, s, actions, key);
    AllLandedFilter(hs);
    TriggersAreHandlings(journeys, s, actions, key);
    WalkPerforms(journeys[key.journey].steps, hs);
  }

  // --- A single executor ---

  function Executor(a: Action): Option<nat> {
    match a
    case Fetch(x, _, _) => Some(x)
    case Process(x, _, _, _) => Some(x)
    case Abort(x) => Some(x)
    case Save(_, _, _) => None
  }

  ghost predicate Only(actions: seq<Action>, x: nat) {
    forall a :: a in actions ==> Executor(a).None? || Executor(a) == Some(x)
  }

  /** Nobody but `x` holds anything, and `x` holds no row twice. */
  ghost predicate Lone(s: System, x: nat) {
    && (forall y :: y != x ==> Batch(s, y) == [])
    && (forall i, j :: 0 <= i < j < |Batch(s, x)| ==> Batch(s, x)[i].key != Batch(s, x)[j].key)
  }

  lemma LoneStays(journeys: map<Id, Journey>, s: System, a: Action, x: nat)
    requires Lone(s, x) && (Executor(a).None? || Executor(a) == Some(x))
    requires a.Fetch? ==> DueList(s.table.rows, a.due, a.now)
    ensures Lone(Next(journeys, s, a), x)
  {
    hide HandleRow;
    var t := Next(journeys, s, a);
    forall y | y != x
      ensures Batch(t, y) == []
    {
      assert Batch(s, y) == [];
    }
    forall i, j | 0 <= i < j < |Batch(t, x)|
      ensures Batch(t, x)[i].key != Batch(t, x)[j].key
    {
      if a.Process? && Batch(s, x) != [] {
        var k, m := i + 1, j + 1;
        assert Batch(t, x)[i] == Batch(s, x)[k] && Batch(t, x)[j] == Batch(s, x)[m];
      } else if a.Fetch? && Batch(s, x) == [] {
        assert Batch(t, x)[i].key == a.due[i] && Batch(t, x)[j].key == a.due[j];
      } else {
        assert Batch(t, x) == Batch(s, x);
      }
    }
  }

  lemma LoneIsOneHolder(s: System, x: nat, key: Key)
    requires Lone(s, x)
    ensures OneHolder(s, key)
  {
    forall y, z, i, j | 0 <= i < |Batch(s, y)| && 0 <= j < |Batch(s, z)|
      && Batch(s, y)[i].key == key && Batch(s, z)[j].key == key
      ensures y == z && i == j
    {
      assert y == x && z == x;
    }
  }

  lemma {:induction false} OneExecutorNeverOverlaps(journeys: map<Id, Journey>, s: System, actions: seq<Action>, x: nat,
                                                    key: Key)
    requires Plays(journeys, s, actions) && Lone(s, x) && Only(actions, x)
    ensures Lone(Run(journeys, s, actions), x) && NeverOverlaps(journeys, s, actions, key)
  {
    hide Next, Lone, OneHolder, DueList;
    LoneIsOneHolder(s, x, key);
    if actions == [] {
    } else {
      var front, last := actions[..|actions| - 1], actions[|actions| - 1];
      assert last in actions;
      OneExecutorNeverOverlaps(journeys, s, front, x, key);
      LoneStays(journeys, Run(journeys, s, front), last, x);
      LoneIsOneHolder(Run(journeys, s, actions), x, key);
    }
  }

  /** One executor alone follows the path of every enrolment whose updates land, whoever else is enrolled meanwhile. */
  lemma OneExecutorFollowsPath(journeys: map<Id, Journey>, s: System, actions: seq<Action>, x: nat, key: Key)
    requires Enters(journeys, s, actions, key) && Plays(journeys, s, actions)
    requires Only(actions, x) && forall y :: Batch(s, y) == []
    requires AllLanded(Handlings(journeys, s, actions, key))
    ensures OnPath(journeys[key.journey].steps, s.table, Run(journeys, s, actions).table, key,
                   Answers(Handlings(journeys, s, actions, key)))
  {
    hide OnPath, Run, Plays, Handlings;
    OneExecutorNeverOverlaps(journeys, s, actions, x, key);
    ExecutorFollowsPath(journeys, s, actions, key);
  }

  // --- Ending ---

  lemma LongEnds(steps: seq<Step>, answers: seq<bool>)
    requires AlwaysEnds(steps) && |answers| >= Bound(steps)
    ensures Walk(steps, 1, answers).None?
  {
    var n := Bound(steps);
    assert |answers[..n]| == n;
    WalkConcat(steps, 1, answers[..n], answers[n..]);
    assert answers == answers[..n] + answers[n..];
  }

  /**
   In a journey whose walks all end, an enrolment whose landed handlings each met it standing is moved at most as often
   as there are steps, and then completed.
   */
  lemma CompletesInTime(journeys: map<Id, Journey>, s: System, actions: seq<Action>, key: Key)
    requires Enters(journeys, s, actions, key) && AlwaysEnds(journeys[key.journey].steps)
    requires AllStanding(Landed(Handlings(journeys, s, actions, key)))
    ensures var landed, bound := Landed(Handlings(journeys, s, actions, key)), Bound(journeys[key.journey].steps);
      && |landed| <= bound
      && (|landed| == bound ==> key in Run(journeys, s, actions).table.rows
                                && Run(journeys, s, actions).table.rows[key].status.Completed?)
  {
    hide Walk;
    PathExactly(journeys, s, actions, key);
    var steps := journeys[key.journey].steps;
    var landed := Landed(Handlings(journeys, s, actions, key));
    if |landed| >= Bound(steps) {
      LongEnds(steps, Answers(landed));
    }
    if |landed| > Bound(steps) {
      LongEnds(steps, Answers(landed[..|landed| - 1]));
    }
  }

  // --- Stored steps ---

  predicate StepExists(steps: seq<Step>, e: Enrolment) {
    e.status.Enrolled? && e.current.Some? ==> FindStep(steps, e.current.value).Some?
  }

  /** The current step of every unfinished enrolment in an active journey exists, but for the 1 of the enrol route. */
  ghost predicate StepsExist(journeys: map<Id, Journey>, s: State) {
    forall key :: key in s.rows && key.journey in journeys && journeys[key.journey].status.Active? ==>
      StepExists(journeys[key.journey].steps, s.rows[key]) || s.rows[key].current == Some(1)
  }

  lemma AdvancesToStep(journeys: map<Id, Journey>, key: Key, e: Enrolment, env: Env, now: Time)
    requires key.journey in journeys
    ensures var move := Handle(journeys, key, e, env, now).move;
      move.Advance? ==> FindStep(journeys[key.journey].steps, move.order).Some?
  {
  }

  /** That stays so in every run, overlapping executors included. */
  lemma {:induction false} StoredStepsExist(journeys: map<Id, Journey>, s: System, actions: seq<Action>)
    requires StepsExist(journeys, s.table)
    ensures StepsExist(journeys, Run(journeys, s, actions).table)
  {
    hide Handle, FindStep, HandleRow, Next;
    if actions == [] {
    } else {
      var front, last := actions[..|actions| - 1], actions[|actions| - 1];
      StoredStepsExist(journeys, s, front);
      var t := Run(journeys, s, front);
      forall key | key in Run(journeys, s, actions).table.rows && key.journey in journeys
        && journeys[key.journey].status.Active?
        ensures StepExists(journeys[key.journey].steps, Run(journeys, s, actions).table.rows[key])
          || Run(journeys, s, actions).table.rows[key].current == Some(1)
      {
        if last.Save? && last.key == key {
          SaveIs(journeys, t, key, last.at, last.via);
        } else {
          NextAt(journeys, t, last, key);
          if Handles(t, last, key) {
            AdvancesToStep(journeys, key, Handled(t, last).value.row, last.env, last.now);
          }
        }
      }
    }
  }

  lemma SaveIs(journeys: map<Id, Journey>, s: System, key: Key, at: Time, via: Enroller)
    ensures Next(journeys, s, Save(key, at, via)) == s.(table := s.table.(rows := s.table.rows[key := Saved(via, at)]))
  {
  }

  const NOTHING := System(State(map[], []), map[])

  /** Every stored current step of a journey exists, whatever happens from an empty table on. */
  ghost predicate AlwaysStored(journeys: map<Id, Journey>, id: Id)
    requires id in journeys
  {
    forall actions, key: Key :: key.journey == id && key in Run(journeys, NOTHING, actions).table.rows ==>
      StepExists(journeys[id].steps, Run(journeys, NOTHING, actions).table.rows[key])
  }

  /** In an active journey that promise is kept exactly when the journey has a step 1: the enrol route does not look. */
  lemma StoredStepsExactly(journeys: map<Id, Journey>, id: Id)
    requires id in journeys && journeys[id].status.Active?
    ensures AlwaysStored(journeys, id) <==> FindStep(journeys[id].steps, 1).Some?
  {
    hide FindStep, Next;
    if FindStep(journeys[id].steps, 1).Some? {
      forall actions, key: Key | key.journey == id && key in Run(journeys, NOTHING, actions).table.rows
        ensures StepExists(journeys[id].steps, Run(journeys, NOTHING, actions).table.rows[key])
      {
        StoredStepsExist(journeys, NOTHING, actions);
      }
    } else {
      var key := Key(id, 0);
      var actions := [] + [Save(key, 0, Route)];
      NothingRun(journeys, NOTHING);
      RunPush(journeys, NOTHING, [], Save(key, 0, Route));
      SaveIs(journeys, NOTHING, key, 0, Route);
      assert !StepExists(journeys[id].steps, Run(journeys, NOTHING, actions).table.rows[key]);
    }
  }

  // --- Waiting ---

  /** The action changes the row. */
  predicate Touches(s: System, a: Action, key: Key) {
    (a.Save? && a.key == key) || (Handles(s, a, key) && a.lands)
  }

  ghost predicate Untouched(journeys: map<Id, Journey>, s: System, actions: seq<Action>, key: Key) {
    actions == [] ||
    (var front, last := actions[..|actions| - 1], actions[|actions| - 1];
     Untouched(journeys, s, front, key) && !Touches(Run(journeys, s, front), last, key))
  }

  lemma {:induction false} UntouchedRowStays(journeys: map<Id, Journey>, s: System, actions: seq<Action>, key: Key)
    requires key in s.table.rows && Untouched(journeys, s, actions, key)
    ensures key in Run(journeys, s, actions).table.rows
    ensures Run(journeys, s, actions).table.rows[key] == s.table.rows[key]
  {
    hide Next;
    if actions == [] {
    } else {
      UntouchedRowStays(journeys, s, actions[..|actions| - 1], key);
      NextAt(journeys, Run(journeys, s, actions[..|actions| - 1]), actions[|actions| - 1], key);
    }
  }

  /** After a wait step was handled, nobody fetches the enrolment before its days have passed, unless it is touched. */
  lemma WaitIsKept(journeys: map<Id, Journey>, s: System, wait: Action, between: seq<Action>, next: Action, key: Key)
    requires key.journey in journeys && journeys[key.journey].status.Active? && key in s.table.rows
    requires Handles(s, wait, key) && wait.lands && s.table.rows[key].status.Enrolled?
    requires var found := FindStep(journeys[key.journey].steps, CurrentOrder(Handled(s, wait).value.row));
      found.Some? && found.value.kind.Wait?
    requires Untouched(journeys, Next(journeys, s, wait), between, key)
    requires next.Fetch? && key in next.due
    requires DueList(Run(journeys, Next(journeys, s, wait), between).table.rows, next.due, next.now)
    ensures var days := WaitDays(FindStep(journeys[key.journey].steps, CurrentOrder(Handled(s, wait).value.row)).value);
      next.now >= wait.now + days * DAY
  {
    hide FindStep, Next;
    NextAt(journeys, s, wait, key);
    UntouchedRowStays(journeys, Next(journeys, s, wait), between, key);
  }

  // --- Nobody waits for ever ---

  /** The other unfinished enrolments that fall due no later than `t`. */
  ghost function Ahead(rows: map<Key, Enrolment>, key: Key, t: Time): set<Key> {
    set k | k in rows && k != key && rows[k].status.Enrolled? && rows[k].nextAt.Some? && rows[k].nextAt.value <= t
  }

  function KeysOf(batch: seq<Fetched>): set<Key> {
    set i | 0 <= i < |batch| :: batch[i].key
  }

  /** The rows ahead, and those executor `x` still has to handle. */
  ghost function Before(s: System, x: nat, key: Key, t: Time): set<Key> {
    Ahead(s.table.rows, key, t) + KeysOf(Batch(s, x))
  }

  ghost predicate WaitsForward(journeys: map<Id, Journey>) {
    forall id :: id in journeys ==> forall s :: s in journeys[id].steps ==> WaitDays(s) >= 0
  }

  lemma HandleLooksAhead(journeys: map<Id, Journey>, key: Key, e: Enrolment, env: Env, now: Time)
    requires WaitsForward(journeys)
    ensures var move := Handle(journeys, key, e, env, now).move; move.Advance? ==> move.at >= now
  {
  }

  /** The actions happen after `t`, and nobody reads or saves the row. */
  predicate PassesOver(a: Action, key: Key, t: Time) {
    match a
    case Fetch(_, now, due) => t < now && key !in due
    case Process(_, _, now, _) => t < now
    case Abort(_) => true
    case Save(saved, at, _) => t < at && saved != key
  }

  ghost predicate Waiting(s: System, key: Key, t: Time) {
    && key in s.table.rows && s.table.rows[key].status.Enrolled? && s.table.rows[key].nextAt == Some(t)
    && forall y, i :: 0 <= i < |Batch(s, y)| ==> Batch(s, y)[i].key != key
  }

  lemma WaitingStays(journeys: map<Id, Journey>, s: System, a: Action, key: Key, t: Time)
    requires Waiting(s, key, t) && PassesOver(a, key, t)
    ensures Waiting(Next(journeys, s, a), key, t) && Next(journeys, s, a).table.rows[key] == s.table.rows[key]
  {
    hide Handle, HandleRow, TriggeredFor;
    var u := Next(journeys, s, a);
    if Handled(s, a).Some? {
      assert Batch(s, a.executor)[0].key != key;
    }
    NextAt(journeys, s, a, key);
    forall y, i | 0 <= i < |Batch(u, y)|
      ensures Batch(u, y)[i].key != key
    {
      if a.Process? && Batch(s, a.executor) != [] && y == a.executor {
        var k := i + 1;
        assert Batch(u, y)[i] == Batch(s, y)[k];
      } else if a.Fetch? && Batch(s, a.executor) == [] && y == a.executor {
        assert a.due[i] in a.due;
      } else {
        assert Batch(u, y)[i] == Batch(s, y)[i];
      }
    }
  }

  /** Nobody gets ahead of the row. */
  lemma AheadShrinks(journeys: map<Id, Journey>, s: System, a: Action, key: Key, t: Time)
    requires WaitsForward(journeys) && Waiting(s, key, t) && PassesOver(a, key, t)
    ensures Ahead(Next(journeys, s, a).table.rows, key, t) <= Ahead(s.table.rows, key, t)
    ensures a.Process? && a.lands && Handled(s, a).Some? ==>
              Handled(s, a).value.key !in Ahead(Next(journeys, s, a).table.rows, key, t)
  {
    hide Handle, HandleRow, TriggeredFor, Next;
    var u := Next(journeys, s, a);
    forall k | k in u.table.rows
      ensures k in Ahead(u.table.rows, key, t) ==> k in Ahead(s.table.rows, key, t) && !(Handles(s, a, k) && a.lands)
    {
      if a.Save? && a.key == k {
        SaveIs(journeys, s, k, a.at, a.via);
      } else {
        NextAt(journeys, s, a, k);
        if Handles(s, a, k) {
          HandleLooksAhead(journeys, k, Handled(s, a).value.row, a.env, a.now);
        }
      }
    }
  }

  /** How many rows executor `x` has handled and landed. */
  function LandedBy(journeys: map<Id, Journey>, s: System, actions: seq<Action>, x: nat): nat {
    if actions == [] then 0 else
      var front, last := actions[..|actions| - 1], actions[|actions| - 1];
      LandedBy(journeys, s, front, x) +
      if last.Process? && last.executor == x && last.lands && Batch(Run(journeys, s, front), x) != [] then 1 else 0
  }

  /** A due list that leaves the row out holds only rows that are ahead of it. */
  lemma FetchIsAhead(s: System, a: Action, key: Key, t: Time)
    requires a.Fetch? && DueList(s.table.rows, a.due, a.now) && Waiting(s, key, t) && t < a.now && key !in a.due
    ensures forall k :: k in a.due ==> k in Ahead(s.table.rows, key, t)
    ensures |a.due| == 100
  {
  }

  ghost predicate DistinctKeys(batch: seq<Fetched>) {
    forall i, j :: 0 <= i < j < |batch| ==> batch[i].key != batch[j].key
  }

  lemma TailKeys(batch: seq<Fetched>)
    requires batch != [] && DistinctKeys(batch)
    ensures DistinctKeys(batch[1..]) && KeysOf(batch[1..]) == KeysOf(batch) - {batch[0].key}
  {
    forall k | k in KeysOf(batch[1..])
      ensures k in KeysOf(batch) - {batch[0].key}
    {
      var i :| 0 <= i < |batch[1..]| && batch[1..][i].key == k;
      assert batch[i + 1].key == k;
    }
    forall k | k in KeysOf(batch) - {batch[0].key}
      ensures k in KeysOf(batch[1..])
    {
      var i :| 0 <= i < |batch| && batch[i].key == k;
      assert batch[1..][i - 1].key == k;
    }
  }

  /** A landed handling takes its row out of both what is ahead and the batch. */
  lemma OwnLandingShrinks(ahead: set<Key>, later: set<Key>, batch: seq<Fetched>)
    requires batch != [] && DistinctKeys(batch) && later <= ahead && batch[0].key !in later
    ensures DistinctKeys(batch[1..])
    ensures |later + KeysOf(batch[1..])| + 1 <= |ahead + KeysOf(batch)|
  {
    hide KeysOf, DistinctKeys;
    TailKeys(batch);
    HeadKey(batch);
    SubsetCount(later + KeysOf(batch[1..]), ahead + KeysOf(batch) - {batch[0].key});
  }

  lemma HeadKey(batch: seq<Fetched>)
    requires batch != []
    ensures batch[0].key in KeysOf(batch)
  {
  }

  lemma OwnBatchAfter(journeys: map<Id, Journey>, s: System, a: Action, x: nat)
    requires a.Fetch? ==> DueList(s.table.rows, a.due, a.now)
    ensures var batch, after := Batch(s, x), Batch(Next(journeys, s, a), x);
      if a.Process? && a.executor == x && batch != [] && a.lands then after == batch[1..]
      else if a.Fetch? && a.executor == x && batch == [] then after == Read(s.table.rows, a.due)
      else if (a.Process? || a.Abort?) && a.executor == x then after == []
      else after == batch
  {
    hide HandleRow;
  }

  lemma NoKeys()
    ensures KeysOf([]) == {} && DistinctKeys([])
  {
  }

  lemma BeforeShrinks(journeys: map<Id, Journey>, s: System, a: Action, x: nat, key: Key, t: Time)
    requires WaitsForward(journeys) && Waiting(s, key, t) && PassesOver(a, key, t)
    requires a.Fetch? ==> DueList(s.table.rows, a.due, a.now)
    requires DistinctKeys(Batch(s, x))
    ensures var u := Next(journeys, s, a);
      && DistinctKeys(Batch(u, x))
      && |Before(u, x, key, t)| +
         (if a.Process? && a.executor == x && a.lands && Batch(s, x) != [] then 1 else 0) <= |Before(s, x, key, t)|
  {
    hide Ahead, DueList, Next, KeysOf, DistinctKeys, Read, Waiting;
    var u := Next(journeys, s, a);
    AheadShrinks(journeys, s, a, key, t);
    OwnBatchAfter(journeys, s, a, x);
    NoKeys();
    if a.Process? && a.executor == x && Batch(s, x) != [] && a.lands {
      OwnLandingShrinks(Ahead(s.table.rows, key, t), Ahead(u.table.rows, key, t), Batch(s, x));
    } else {
      if a.Fetch? && a.executor == x && Batch(s, x) == [] {
        FetchIsAhead(s, a, key, t);
        FetchedKeys(s, a, x);
      }
      SubsetCount(Before(u, x, key, t), Before(s, x, key, t));
    }
  }

  lemma FetchedKeys(s: System, a: Action, x: nat)
    requires a.Fetch? && DueList(s.table.rows, a.due, a.now)
    ensures DistinctKeys(Read(s.table.rows, a.due))
    ensures forall k :: k in KeysOf(Read(s.table.rows, a.due)) ==> k in a.due
  {
  }

  /**
   No starvation by load: while an enrolment that fell due is fetched by nobody, each executor lands at most as many
   handlings as rows were ahead of it or in that executor's batch, whatever the other executors do and whoever is
   enrolled. A fetch that passes it over takes a full hundred of those rows.
   */
  lemma {:induction false} NobodyStarves(journeys: map<Id, Journey>, s: System, actions: seq<Action>, x: nat, key: Key,
                                         t: Time)
    requires WaitsForward(journeys) && Plays(journeys, s, actions)
    requires Waiting(s, key, t) && DistinctKeys(Batch(s, x))
    requires forall a :: a in actions ==> PassesOver(a, key, t)
    ensures var u := Run(journeys, s, actions);
      && Waiting(u, key, t) && DistinctKeys(Batch(u, x))
      && |Before(u, x, key, t)| + LandedBy(journeys, s, actions, x) <= |Before(s, x, key, t)|
  {
    hide Next, Waiting, Before, DistinctKeys, DueList, PassesOver;
    if actions == [] {
    } else {
      var front, last := actions[..|actions| - 1], actions[|actions| - 1];
      assert last in actions;
      NobodyStarves(journeys, s, front, x, key, t);
      WaitingStays(journeys, Run(journeys, s, front), last, key, t);
      BeforeShrinks(journeys, Run(journeys, s, front), last, x, key, t);
    }
  }

  /** A tick whose first update fails changes no row, any number of times: such a row blocks all behind it. */
  lemma {:induction false} FailingTicks(journeys: map<Id, Journey>, s: System, x: nat, due: seq<Key>, env: Env,
                                        now: Time, n: nat)
    returns (actions: seq<Action>)
    requires DueList(s.table.rows, due, now) && due != [] && Batch(s, x) == []
    ensures |actions| == 2 * n && Plays(journeys, s, actions)
    ensures forall i :: 0 <= i < |actions| ==> actions[i] in {Fetch(x, now, due), Process(x, env, now, false)}
    ensures var u := Run(journeys, s, actions); u.table.rows == s.table.rows && Batch(u, x) == []
  {
    hide DueList, HandleRow;
    if n == 0 {
      actions := [];
    } else {
      actions := FailingTicks(journeys, s, x, due, env, now, n - 1);
      var fetch, fail := Fetch(x, now, due), Process(x, env, now, false);
      var u := Run(journeys, s, actions);
      RunPush(journeys, s, actions, fetch);
      RunPush(journeys, s, actions + [fetch], fail);
      FailingTick(journeys, u, x, due, env, now);
      actions := actions + [fetch] + [fail];
    }
  }

  lemma FailingTick(journeys: map<Id, Journey>, s: System, x: nat, due: seq<Key>, env: Env, now: Time)
    requires DueList(s.table.rows, due, now) && due != [] && Batch(s, x) == []
    ensures var u := Next(journeys, Next(journeys, s, Fetch(x, now, due)), Process(x, env, now, false));
      u.table.rows == s.table.rows && Batch(u, x) == []
  {
    hide Handle;
  }

  /** Wherever an executor holds the later row, it holds the failing one before it. */
  ghost predicate InFrontOf(batch: seq<Fetched>, failing: Key, later: Key) {
    forall j :: 0 <= j < |batch| && batch[j].key == later ==> exists i :: 0 <= i < j && batch[i].key == failing
  }

  /** `failing` falls due before `later`, and no executor holds `later` without it. */
  ghost predicate Blocked(s: System, failing: Key, later: Key) {
    && failing != later && failing in s.table.rows && later in s.table.rows
    && s.table.rows[failing].status.Enrolled? && s.table.rows[failing].nextAt.Some?
    && (s.table.rows[later].nextAt.Some? ==> s.table.rows[failing].nextAt.value < s.table.rows[later].nextAt.value)
    && forall x :: InFrontOf(Batch(s, x), failing, later)
  }

  /** No handling of `failing` lands, and nobody saves either row. */
  ghost predicate AlwaysFails(journeys: map<Id, Journey>, s: System, actions: seq<Action>, failing: Key, later: Key) {
    actions == [] ||
    (var front, last := actions[..|actions| - 1], actions[|actions| - 1];
     && AlwaysFails(journeys, s, front, failing, later)
     && !Touches(Run(journeys, s, front), last, failing)
     && !(last.Save? && last.key == later))
  }

  lemma BlockedFetch(rows: map<Key, Enrolment>, due: seq<Key>, now: Time, failing: Key, later: Key)
    requires failing in rows && later in rows && rows[failing].status.Enrolled? && rows[failing].nextAt.Some?
    requires rows[later].nextAt.Some? ==> rows[failing].nextAt.value < rows[later].nextAt.value
    requires DueList(rows, due, now)
    ensures InFrontOf(Read(rows, due), failing, later)
  {
    var batch := Read(rows, due);
    forall j | 0 <= j < |batch| && batch[j].key == later
      ensures exists i :: 0 <= i < j && batch[i].key == failing
    {
      assert due[j] == later;
      assert IsDue(rows[failing], now);
      assert failing in due;
      var i :| 0 <= i < |due| && due[i] == failing;
      assert i < j;
      assert batch[i].key == failing;
    }
  }

  /** The head of a batch is not the later row; and once the head was handled, what is left is still in that order. */
  lemma BlockedTail(batch: seq<Fetched>, failing: Key, later: Key)
    requires batch != [] && InFrontOf(batch, failing, later)
    ensures batch[0].key != later
    ensures batch[0].key != failing ==> InFrontOf(batch[1..], failing, later)
  {
    if batch[0].key != failing {
      forall j | 0 <= j < |batch[1..]| && batch[1..][j].key == later
        ensures exists i :: 0 <= i < j && batch[1..][i].key == failing
      {
        assert batch[j + 1].key == later;
        var i :| 0 <= i < j + 1 && batch[i].key == failing;
        assert batch[1..][i - 1].key == failing;
      }
    }
  }

  lemma BlockedStep(journeys: map<Id, Journey>, s: System, a: Action, failing: Key, later: Key)
    requires Blocked(s, failing, later)
    requires !Touches(s, a, failing) && !(a.Save? && a.key == later)
    requires a.Fetch? ==> DueList(s.table.rows, a.due, a.now)
    ensures Blocked(Next(journeys, s, a), failing, later) && !Handles(s, a, later)
    ensures Next(journeys, s, a).table.rows[later] == s.table.rows[later]
  {
    hide HandleRow, Handle, TriggeredFor, InFrontOf, DueList, Read;
    if Handled(s, a).Some? {
      BlockedTail(Batch(s, a.executor), failing, later);
    }
    NextAt(journeys, s, a, failing);
    NextAt(journeys, s, a, later);
    var t := Next(journeys, s, a);
    forall x
      ensures InFrontOf(Batch(t, x), failing, later)
    {
      assert InFrontOf(Batch(s, x), failing, later);
      OwnBatchAfter(journeys, s, a, x);
      NothingInFront(failing, later);
      if a.Fetch? && a.executor == x && Batch(s, x) == [] {
        BlockedFetch(s.table.rows, a.due, a.now, failing, later);
      }
    }
  }

  lemma NothingInFront(failing: Key, later: Key)
    ensures InFrontOf([], failing, later)
  {
  }

  /**
   A row whose handlings never land blocks every row that falls due after it: whatever any number of executors do and
   however long, the later row is handled by nobody, unless somebody saves it anew.
   */
  lemma {:induction false} FailingRowBlocks(journeys: map<Id, Journey>, s: System, actions: seq<Action>, failing: Key,
                                            later: Key)
    requires later.journey in journeys && Plays(journeys, s, actions)
    requires Blocked(s, failing, later) && AlwaysFails(journeys, s, actions, failing, later)
    ensures Blocked(Run(journeys, s, actions), failing, later)
    ensures Handlings(journeys, s, actions, later) == []
    ensures Run(journeys, s, actions).table.rows[later] == s.table.rows[later]
  {
    hide Next, Blocked, DueList, Touches, HandlingOf;
    if actions == [] {
      BothInTable(s, failing, later);
    } else {
      var front, last := actions[..|actions| - 1], actions[|actions| - 1];
      FailingRowBlocks(journeys, s, front, failing, later);
      BlockedStep(journeys, Run(journeys, s, front), last, failing, later);
      BothInTable(Run(journeys, s, actions), failing, later);
    }
  }

  lemma BothInTable(s: System, failing: Key, later: Key)
    requires Blocked(s, failing, later)
    ensures later in s.table.rows
  {
  }

  // --- One tick undisturbed ---

  /** The handlings of a whole batch, one after the other, each landing. */
  function HandleAll(x: nat, due: seq<Key>, tick: Tick): seq<Action> {
    if due == [] then [] else
      var key := due[|due| - 1];
      HandleAll(x, due[..|due| - 1], tick) + [Process(x, tick.env(key), tick.clock(key), true)]
  }

  /** A tick that nothing interrupts handles its due list as one loop does. */
  lemma {:induction false} TickIsARun(journeys: map<Id, Journey>, s: System, x: nat, now: Time, due: seq<Key>, n: nat,
                                      tick: Tick)
    requires DueList(s.table.rows, due, now) && Batch(s, x) == [] && n <= |due|
    ensures var start := Next(journeys, s, Fetch(x, now, due));
      var t := Run(journeys, start, HandleAll(x, due[..n], tick));
      && t.table == HandleRows(journeys, s.table.rows, s.table, due[..n], tick)
      && Batch(t, x) == Read(s.table.rows, due)[n..]
  {
    hide HandleRow, HandleRows;
    var start := Next(journeys, s, Fetch(x, now, due));
    if n == 0 {
      NoRows(journeys, s.table.rows, s.table, tick);
      assert due[..n] == [];
      assert Read(s.table.rows, due)[0..] == Read(s.table.rows, due);
    } else {
      TickIsARun(journeys, s, x, now, due, n - 1, tick);
      TickStep(journeys, s, x, due, n, tick, Run(journeys, start, HandleAll(x, due[..n - 1], tick)));
      HandleAllPush(journeys, start, x, due, n, tick);
    }
  }

  lemma NoRows(journeys: map<Id, Journey>, read: map<Key, Enrolment>, s: State, tick: Tick)
    ensures HandleRows(journeys, read, s, [], tick) == s
  {
  }

  lemma HandleAllPush(journeys: map<Id, Journey>, start: System, x: nat, due: seq<Key>, n: nat, tick: Tick)
    requires 1 <= n <= |due|
    ensures var key := due[n - 1];
      Run(journeys, start, HandleAll(x, due[..n], tick)) ==
      Next(journeys, Run(journeys, start, HandleAll(x, due[..n - 1], tick)),
           Process(x, tick.env(key), tick.clock(key), true))
  {
    hide Next;
    assert due[..n][..n - 1] == due[..n - 1];
    var actions := HandleAll(x, due[..n - 1], tick);
    var last := Process(x, tick.env(due[n - 1]), tick.clock(due[n - 1]), true);
    assert (actions + [last])[..|actions|] == actions;
  }

  lemma TickStep(journeys: map<Id, Journey>, s: System, x: nat, due: seq<Key>, n: nat, tick: Tick, t: System)
    requires (forall key :: key in due ==> key in s.table.rows) && 1 <= n <= |due|
    requires t.table == HandleRows(journeys, s.table.rows, s.table, due[..n - 1], tick)
    requires Batch(t, x) == Read(s.table.rows, due)[n - 1..]
    ensures var key := due[n - 1];
      var u := Next(journeys, t, Process(x, tick.env(key), tick.clock(key), true));
      && u.table == HandleRows(journeys, s.table.rows, s.table, due[..n], tick)
      && Batch(u, x) == Read(s.table.rows, due)[n..]
  {
    hide HandleRow;
    var read, key := Read(s.table.rows, due), due[n - 1];
    assert due[..n][..n - 1] == due[..n - 1];
    assert read[n - 1..][0] == Fetched(key, s.table.rows[key]);
    assert read[n - 1..][1..] == read[n..];
  }
}
