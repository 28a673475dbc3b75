/** The executor of due enrolments and the auto-enrolment consumer, over the table of enrolments. */
module JourneyExecutor {
  import opened Outcome
  import opened Seqs
  import opened Journeys

  // --- Conditions ---

  /** What the engagement service reports of one campaign to one customer. */
  datatype Sends = Sends(wasOpened: bool, wasClicked: bool)

  /** The services a condition may ask: None is not configured, and an inner None a failed lookup. */
  datatype Env = Env(engagement: Option<Id -> Option<Sends>>, clv: Option<Option<real>>)

  /** The send_campaign step with the greatest order below `order`, the last of several. */
  function NearestSend(steps: seq<Step>, order: int): Option<Step> {
    if steps == [] then None else
      var last, best := steps[|steps| - 1], NearestSend(steps[..|steps| - 1], order);
      if last.order < order && last.kind.SendCampaign? && (best.None? || best.value.order <= last.order) then Some(last)
      else best
  }

  lemma {:induction false} NearestSendIs(steps: seq<Step>, order: int)
    ensures match NearestSend(steps, order)
            case None => forall s :: s in steps && s.kind.SendCampaign? ==> s.order >= order
            case Some(best) =>
              && best in steps && best.kind.SendCampaign? && best.order < order
              && (forall s :: s in steps && s.kind.SendCampaign? && s.order < order ==> s.order <= best.order)
              && exists i :: 0 <= i < |steps| && steps[i] == best
                   && forall j :: i < j < |steps| && steps[j].kind.SendCampaign? ==> steps[j].order != best.order
  {
    if steps == [] {
    } else {
      var front := steps[..|steps| - 1];
      NearestSendIs(front, order);
      var last := steps[|steps| - 1];
      assert steps == front + [last];
      var best := NearestSend(steps, order);
      if best.Some? && best != Some(last) {
        var i :| 0 <= i < |front| && front[i] == best.value
                 && forall j :: i < j < |front| && front[j].kind.SendCampaign? ==> front[j].order != best.value.order;
        assert steps[i] == best.value;
      } else if best.Some? {
        assert steps[|steps| - 1] == best.value;
      }
    }
  }

  /** The campaign whose engagement a condition asks about. */
  function CampaignAsked(step: Step, steps: seq<Step>, order: int): Option<Id> {
    if step.conditionCampaign.Some? then step.conditionCampaign else
      match NearestSend(steps, order)
      case None => None
      case Some(best) => best.campaign
  }

  function ConditionOf(step: Step): ConditionType {
    match step.condition
    case None => Opened
    case Some(condition) => condition
  }

  /** The engagement a condition is judged by: None without a campaign or a service, all false after a failed lookup. */
  function Reported(step: Step, steps: seq<Step>, order: int, env: Env): Option<Sends> {
    var campaign := CampaignAsked(step, steps, order);
    if campaign.None? || env.engagement.None? then None else
      match env.engagement.value(campaign.value)
      case None => Some(Sends(false, false))
      case Some(sends) => Some(sends)
  }

  function Evaluate(step: Step, steps: seq<Step>, order: int, env: Env): bool {
    var reported := Reported(step, steps, order, env);
    match ConditionOf(step)
    case Opened => reported.Some? && reported.value.wasOpened
    case Clicked => reported.Some? && reported.value.wasClicked
    case NotOpened => reported.Some? && !reported.value.wasOpened
    case ClvAbove60 => env.clv.Some? && env.clv.value.Some? && env.clv.value.value > 60.0
    case Unrecognised => false
  }

  /** The engagement service is configured and reports a send of the campaign the condition asks about. */
  predicate Knows(step: Step, steps: seq<Step>, order: int, env: Env) {
    && env.engagement.Some? && CampaignAsked(step, steps, order).Some?
    && env.engagement.value(CampaignAsked(step, steps, order).value).Some?
  }

  function Known(step: Step, steps: seq<Step>, order: int, env: Env): Sends
    requires Knows(step, steps, order, env)
  {
    env.engagement.value(CampaignAsked(step, steps, order).value).value
  }

  /** A condition without a campaign asks about the send step with the greatest order before it. */
  lemma CampaignAskedIs(step: Step, steps: seq<Step>, order: int)
    ensures step.conditionCampaign.Some? ==> CampaignAsked(step, steps, order) == step.conditionCampaign
    ensures step.conditionCampaign.None? ==>
              match CampaignAsked(step, steps, order)
              case Some(id) =>
                exists s :: s in steps && s.kind.SendCampaign? && s.order < order && s.campaign == Some(id)
                  && forall o :: o in steps && o.kind.SendCampaign? && o.order < order ==> o.order <= s.order
              case None =>
                || (forall s :: s in steps && s.kind.SendCampaign? ==> s.order >= order)
                || exists s :: s in steps && s.kind.SendCampaign? && s.order < order && s.campaign.None?
                     && forall o :: o in steps && o.kind.SendCampaign? && o.order < order ==> o.order <= s.order
  {
    NearestSendIs(steps, order);
  }

  /** The condition is true of what was reported; an unset type is opened, and an unknown one is never true. */
  ghost predicate HoldsOf(step: Step, steps: seq<Step>, order: int, env: Env) {
    || ((step.condition.None? || step.condition == Some(Opened))
        && Knows(step, steps, order, env) && Known(step, steps, order, env).wasOpened)
    || (step.condition == Some(Clicked)
        && Knows(step, steps, order, env) && Known(step, steps, order, env).wasClicked)
    || (step.condition == Some(NotOpened)
        && env.engagement.Some? && CampaignAsked(step, steps, order).Some?
        && !(Knows(step, steps, order, env) && Known(step, steps, order, env).wasOpened))
    || (step.condition == Some(ClvAbove60)
        && exists score :: env.clv == Some(Some(score)) && score > 60.0)
  }

  /**
   What each condition answers: opened (the default) and clicked yes exactly when that was reported of the send;
   not_opened, with a campaign to ask about and a service, exactly when opened was not reported; the value condition
   exactly for a reported value above 60; any other no.
   */
  lemma ConditionExactly(step: Step, steps: seq<Step>, order: int, env: Env)
    ensures Evaluate(step, steps, order, env) <==> HoldsOf(step, steps, order, env)
  {
    hide CampaignAsked;
    if step.condition == Some(ClvAbove60) && Evaluate(step, steps, order, env) {
      assert env.clv == Some(Some(env.clv.value.value));
    }
  }

  /** Every lookup that could be made fails. */
  ghost predicate Unreachable(env: Env) {
    && (env.engagement.Some? ==> forall id :: env.engagement.value(id).None?)
    && (env.clv.Some? ==> env.clv.value.None?)
  }

  /**
   When every lookup fails the answer is yes exactly for not_opened with a campaign to ask about and an engagement
   service configured; the promise that a failed call counts as no is kept exactly otherwise.
   */
  lemma BlindYesExactly(step: Step, steps: seq<Step>, order: int, env: Env)
    requires Unreachable(env)
    ensures Evaluate(step, steps, order, env) <==>
            ConditionOf(step).NotOpened? && env.engagement.Some? && CampaignAsked(step, steps, order).Some?
  {
  }

  // --- One enrolment ---

  datatype EnrolmentStatus = Enrolled | Completed | Exited

  /** Enrolments are unique by journey and customer. */
  datatype Key = Key(journey: Id, customer: Id)

  datatype Enrolment = Enrolment(current: Option<int>, status: EnrolmentStatus, nextAt: Option<Time>)

  datatype Move = Advance(order: int, at: Time) | Finish

  /** What the executor does for one due enrolment: the campaign it triggers and where it moves the row. */
  datatype Effect = Effect(trigger: Option<Id>, move: Move)

  function InOrder(steps: seq<Step>, current: int, at: Time): Move {
    if FindStep(steps, current + 1).Some? then Advance(current + 1, at) else Finish
  }

  function CurrentOrder(e: Enrolment): int {
    match e.current
    case None => 1
    case Some(order) => order
  }

  function WaitDays(step: Step): int {
    match step.waitDays
    case None => 1
    case Some(days) => days
  }

  function Handle(journeys: map<Id, Journey>, key: Key, e: Enrolment, env: Env, now: Time): Effect {
    if key.journey !in journeys || !journeys[key.journey].status.Active? then Effect(None, Finish) else
      var steps := journeys[key.journey].steps;
      var current := CurrentOrder(e);
      match FindStep(steps, current)
      case None => Effect(None, Finish)
      case Some(step) =>
        match step.kind
        case SendCampaign => Effect(step.campaign, InOrder(steps, current, now))
        case Wait => Effect(None, InOrder(steps, current, now + WaitDays(step) * DAY))
        case Unknown => Effect(None, InOrder(steps, current, now))
        case Condition =>
          var next := if !Evaluate(step, steps, current, env) then step.noNext
                      else if step.yesNext.Some? then step.yesNext
                      else Some(current + 1);
          Effect(None, if next.Some? && FindStep(steps, next.value).Some? then Advance(next.value, now) else Finish)
  }

  /** The answer given at a processing; only conditions ask. */
  function AnswerAt(steps: seq<Step>, order: int, env: Env): bool {
    match FindStep(steps, order)
    case None => false
    case Some(step) => step.kind.Condition? && Evaluate(step, steps, order, env)
  }

  /** On to `order` at `at` if the journey has such a step, else finished. */
  predicate GoesTo(move: Move, steps: seq<Step>, order: Option<int>, at: Time) {
    if order.Some? && exists s :: s in steps && s.order == order.value
    then move == Advance(order.value, at)
    else move == Finish
  }

  /** What the executor makes of a row, step type by step type. */
  lemma HandleExactly(journeys: map<Id, Journey>, key: Key, e: Enrolment, env: Env, now: Time)
    ensures var effect := Handle(journeys, key, e, env, now);
      && (key.journey !in journeys || journeys[key.journey].status != Active ==> effect == Effect(None, Finish))
      && (key.journey in journeys && journeys[key.journey].status == Active ==>
            var steps, current := journeys[key.journey].steps, if e.current.Some? then e.current.value else 1;
            match FindStep(steps, current)
            case None => effect == Effect(None, Finish)
            case Some(step) =>
              && (step.kind.SendCampaign? ==>
                    effect.trigger == step.campaign && GoesTo(effect.move, steps, Some(current + 1), now))
              && (step.kind.Wait? ==>
                    var days := if step.waitDays.Some? then step.waitDays.value else 1;
                    effect.trigger == None && GoesTo(effect.move, steps, Some(current + 1), now + days * 86400))
              && (step.kind.Unknown? ==>
                    effect.trigger == None && GoesTo(effect.move, steps, Some(current + 1), now))
              && (step.kind.Condition? ==>
                    effect.trigger == None
                    && GoesTo(effect.move, steps,
                              if !HoldsOf(step, steps, current, env) then step.noNext
                              else if step.yesNext.Some? then step.yesNext else Some(current + 1),
                              now)))
  {
    hide Evaluate, HoldsOf;
    if key.journey in journeys && FindStep(journeys[key.journey].steps, CurrentOrder(e)).Some? {
      var steps := journeys[key.journey].steps;
      ConditionExactly(FindStep(steps, CurrentOrder(e)).value, steps, CurrentOrder(e), env);
    }
  }

  /** One processing is one edge of the graph, and triggers the campaign of its step. */
  lemma HandleIsEdge(journeys: map<Id, Journey>, key: Key, e: Enrolment, env: Env, now: Time)
    requires key.journey in journeys && journeys[key.journey].status.Active?
    ensures var steps, current := journeys[key.journey].steps, CurrentOrder(e);
      var effect := Handle(journeys, key, e, env, now);
      && (match Edge(steps, current, AnswerAt(steps, current, env))
          case None => effect.move.Finish?
          case Some(next) => effect.move.Advance? && effect.move.order == next)
      && (match FindStep(steps, current)
          case None => effect.trigger.None?
          case Some(step) => TriggerOf(effect.trigger) == CampaignOf(step))
  {
  }

  function TriggerOf(trigger: Option<Id>): seq<Id> {
    if trigger.Some? then [trigger.value] else []
  }

  // --- The table ---

  /** The rows of the table and every campaign triggered so far. */
  datatype State = State(rows: map<Key, Enrolment>, triggered: seq<(Key, Id)>)

  predicate IsDue(e: Enrolment, now: Time) {
    e.status.Enrolled? && e.nextAt.Some? && e.nextAt.value <= now
  }

  const LIMIT := 100

  /**
   The rows the due query may return: due, distinct, earliest first, up to the limit, and none left out without cause.
   */
  ghost predicate DueList(rows: map<Key, Enrolment>, due: seq<Key>, now: Time) {
    && NoDup(due) && |due| <= LIMIT
    && (forall key :: key in due ==> key in rows && IsDue(rows[key], now))
    && (forall i, j :: 0 <= i < j < |due| ==> rows[due[i]].nextAt.value <= rows[due[j]].nextAt.value)
    && (forall key :: key in rows && IsDue(rows[key], now) && key !in due ==>
          |due| == LIMIT && forall other :: other in due ==> rows[other].nextAt.value <= rows[key].nextAt.value)
  }

  function Moved(e: Enrolment, move: Move): Enrolment {
    match move
    case Advance(order, at) => e.(current := Some(order), nextAt := Some(at))
    case Finish => e.(status := Completed, nextAt := None)
  }

  /** One row is handled as it was read; if the update does not land, its campaign has gone out all the same. */
  function HandleRow(journeys: map<Id, Journey>, s: State, key: Key, e: Enrolment, env: Env, now: Time,
                     lands: bool): State
  {
    var effect := Handle(journeys, key, e, env, now);
    State(
      if lands && key in s.rows then s.rows[key := Moved(s.rows[key], effect.move)] else s.rows,
      if effect.trigger.Some? then s.triggered + [(key, effect.trigger.value)] else s.triggered)
  }

  /** What the executor asks and when it looks at the clock, for each row of a tick. */
  datatype Tick = Tick(env: Key -> Env, clock: Key -> Time)

  /** The rows of a due list, in order, as `read` had them. */
  function HandleRows(journeys: map<Id, Journey>, read: map<Key, Enrolment>, s: State, due: seq<Key>, tick: Tick): State
    requires forall key :: key in due ==> key in read
  {
    if due == [] then s else
      var key := due[|due| - 1];
      var before := HandleRows(journeys, read, s, due[..|due| - 1], tick);
      HandleRow(journeys, before, key, read[key], tick.env(key), tick.clock(key), true)
  }
}
