/** The executor and the consumer as the program writes them, changing the enrolment table row by row. */
module JourneyService {
  import opened Outcome
  import opened Journeys
  import opened JourneyExecutor
  import opened JourneyRuns
  import opened JourneyEnrolment

  class JourneyRepository {
    var journeys: map<Id, Journey>
    var rows: map<Key, Enrolment>
    /** Requests made to trigger a campaign for a customer. */
    var triggered: seq<(Key, Id)>

    constructor (journeys: map<Id, Journey>)
      ensures this.journeys == journeys && rows == map[] && triggered == []
    {
      this.journeys := journeys;
      rows, triggered := map[], [];
    }

    function Now(): State
      reads this
    {
      State(rows, triggered)
    }

    method EnrolmentExists(key: Key) returns (found: bool)
      ensures found <==> key in rows
    {
      found := key in rows;
    }

    /** Insert, or overwrite the progress of an existing row. */
    method SaveEnrolment(key: Key, e: Enrolment)
      modifies this`rows
      ensures rows == old(rows)[key := e]
    {
      rows := rows[key := e];
    }

    method AdvanceEnrolment(key: Key, order: int, at: Time)
      modifies this`rows
      ensures rows ==
              if key in old(rows) then old(rows)[key := Enrolment(Some(order), old(rows)[key].status, Some(at))]
              else old(rows)
    {
      if key in rows {
        rows := rows[key := rows[key].(current := Some(order), nextAt := Some(at))];
      }
    }

    method CompleteEnrolment(key: Key)
      modifies this`rows
      ensures rows ==
              if key in old(rows) then old(rows)[key := Enrolment(old(rows)[key].current, Completed, None)]
              else old(rows)
    {
      if key in rows {
        rows := rows[key := rows[key].(status := Completed, nextAt := None)];
      }
    }

    method TriggerForRecipient(key: Key, campaign: Id)
      modifies this`triggered
      ensures triggered == old(triggered) + [(key, campaign)]
    {
      triggered := triggered + [(key, campaign)];
    }

    /** The update at the end of a handling: on to `nextOrder` if that step exists, else finished. */
    method AdvanceTo(key: Key, steps: seq<Step>, nextOrder: Option<int>, at: Time, lands: bool)
      modifies this`rows
      ensures rows ==
              if lands && key in old(rows)
              then old(rows)[key := Moved(old(rows)[key],
                     if nextOrder.Some? && FindStep(steps, nextOrder.value).Some?
                     then Advance(nextOrder.value, at)
                     else Finish)]
              else old(rows)
    {
      if lands {
        if nextOrder.Some? && FindStep(steps, nextOrder.value).Some? {
          AdvanceEnrolment(key, nextOrder.value, at);
        } else {
          CompleteEnrolment(key);
        }
      }
    }

    /** The condition step a row stands at in an active journey. */
    function Branches(key: Key, e: Enrolment): Option<Step>
      reads this`journeys
    {
      if key.journey !in journeys || !journeys[key.journey].status.Active? then None else
        match FindStep(journeys[key.journey].steps, CurrentOrder(e))
        case Some(step) => if step.kind.Condition? then Some(step) else None
        case None => None
    }

    /** One pass of the executor's loop body; without `lands` its update fails, and so does the tick. */
    method Process(key: Key, e: Enrolment, env: Env, now: Time, lands: bool)
      modifies this`rows, this`triggered
      ensures Now() == HandleRow(journeys, old(Now()), key, e, env, now, lands)
      ensures lands && key in old(rows) && Branches(key, e).Some? ==>
                var step := Branches(key, e).value;
                var target := if !HoldsOf(step, journeys[key.journey].steps, CurrentOrder(e), env) then step.noNext
                              else if step.yesNext.Some? then step.yesNext else Some(CurrentOrder(e) + 1);
                if target.Some? && exists s :: s in journeys[key.journey].steps && s.order == target.value
                then rows[key] == Enrolment(target, old(rows)[key].status, Some(now))
                else rows[key] == Enrolment(old(rows)[key].current, Completed, None)
    {
      hide FindStep, Evaluate, HoldsOf;
      if Branches(key, e).Some? {
        ConditionExactly(Branches(key, e).value, journeys[key.journey].steps, CurrentOrder(e), env);
      }
      if key.journey !in journeys || !journeys[key.journey].status.Active? {
        AdvanceTo(key, [], None, now, lands);
        return;
      }
      var journey := journeys[key.journey];
      var currentOrder := CurrentOrder(e);
      var found := FindStep(journey.steps, currentOrder);
      if found.None? {
        AdvanceTo(key, journey.steps, None, now, lands);
        return;
      }
      var step := found.value;
      match step.kind
      case SendCampaign =>
        if step.campaign.Some? {
          TriggerForRecipient(key, step.campaign.value);
        }
        AdvanceTo(key, journey.steps, Some(currentOrder + 1), now, lands);
      case Wait =>
        AdvanceTo(key, journey.steps, Some(currentOrder + 1), now + WaitDays(step) * DAY, lands);
      case Condition =>
        var passed := Evaluate(step, journey.steps, currentOrder, env);
        var nextOrder := if !passed then step.noNext
                         else if step.yesNext.Some? then step.yesNext
                         else Some(currentOrder + 1);
        AdvanceTo(key, journey.steps, nextOrder, now, lands);
      case Unknown =>
        AdvanceTo(key, journey.steps, Some(currentOrder + 1), now, lands);
    }

    /** A tick: `due` is what the due query returned, and `failing` the row whose update fails, if one does. */
    method ExecuteDueJourneys(due: seq<Key>, now: Time, tick: Tick, failing: nat) returns (ok: bool)
      requires DueList(rows, due, now)
      modifies this`rows, this`triggered
      ensures ok <==> failing >= |due|
      ensures ok ==> Now() == HandleRows(journeys, old(rows), old(Now()), due, tick)
      ensures !ok ==>
                var before, key := HandleRows(journeys, old(rows), old(Now()), due[..failing], tick), due[failing];
                Now() == HandleRow(journeys, before, key, old(rows)[key], tick.env(key), tick.clock(key), false)
    {
      ghost var start := Now();
      var read := rows;
      for i := 0 to |due|
        invariant journeys == old(journeys) && i <= failing
        invariant Now() == HandleRows(journeys, read, start, due[..i], tick)
      {
        assert due[..i + 1][..i] == due[..i];
        Process(due[i], read[due[i]], tick.env(due[i]), tick.clock(due[i]), i != failing);
        if i == failing {
          return false;
        }
      }
      assert due[..|due|] == due;
      return true;
    }

    /** The enrol route; `failing` is the customer whose save fails, if one does. */
    method EnrollJourney(id: Id, customers: seq<Id>, at: Time, failing: nat) returns (r: Result<nat, RouteError>)
      modifies this`rows
      ensures var open := id in journeys && journeys[id].status.Active?;
        var saved := if !open then [] else if failing < |customers| then customers[..failing] else customers;
        && Now() == EnrolEach(old(Now()), id, saved, at)
        && r == if id !in journeys then Err(NoSuchJourney)
                else if !open then Err(JourneyNotActive)
                else if failing < |customers| then Err(SaveFailed)
                else Ok(|customers|)
    {
      if id !in journeys {
        return Err(NoSuchJourney);
      }
      if !journeys[id].status.Active? {
        return Err(JourneyNotActive);
      }
      var enrolled := 0;
      for i := 0 to |customers|
        invariant enrolled == i <= failing
        invariant Now() == EnrolEach(old(Now()), id, customers[..i], at)
      {
        assert customers[..i + 1][..i] == customers[..i];
        if i == failing {
          return Err(SaveFailed);
        }
        SaveEnrolment(Key(id, customers[i]), Enrolment(Some(1), Enrolled, Some(at)));
        enrolled := enrolled + 1;
      }
      assert customers[..|customers|] == customers;
      return Ok(enrolled);
    }

    /** Enrol a customer in every active journey a trigger matched. */
    method HandleEngagementTrigger(matched: seq<Id>, customer: Id, at: Time)
      modifies this`rows
      ensures Now() == EnrolAll(old(Now()), matched, customer, at)
    {
      for i := 0 to |matched|
        invariant Now() == EnrolAll(old(Now()), matched[..i], customer, at)
      {
        assert matched[..i + 1][..i] == matched[..i];
        var key := Key(matched[i], customer);
        var enrolled := EnrolmentExists(key);
        if enrolled {
          continue;
        }
        SaveEnrolment(key, Enrolment(None, Enrolled, Some(at)));
      }
      assert matched[..|matched|] == matched;
    }
  }
}
