/** Marketing journeys: their steps as a graph, walks through it, and the executor's handling of one enrolment. */
module Journeys {
  import opened Outcome
  import opened Seqs

  type Id = nat

  /** Seconds. */
  type Time = int

  const DAY: Time := 86400

  /** `Unknown` is any step type the executor does not recognise. */
  datatype StepType = SendCampaign | Wait | Condition | Unknown

  datatype ConditionType = Opened | Clicked | NotOpened | ClvAbove60 | Unrecognised

  datatype Step = Step(
    order: int,
    kind: StepType,
    campaign: Option<Id>,
    waitDays: Option<int>,
    condition: Option<ConditionType>,
    conditionCampaign: Option<Id>,
    yesNext: Option<int>,
    noNext: Option<int>)

  datatype JourneyStatus = Draft | Active | Paused | Archived

  datatype Journey = Journey(status: JourneyStatus, steps: seq<Step>)

  function FindStep(steps: seq<Step>, order: int): (found: Option<Step>)
    ensures found.Some? ==> found.value in steps && found.value.order == order
    ensures found.None? ==> forall s :: s in steps ==> s.order != order
  {
    if steps == [] then None
    else if steps[0].order == order then Some(steps[0])
    else FindStep(steps[1..], order)
  }

  /** Of several steps of one order the first is taken. */
  lemma {:induction false} FindStepIsFirst(steps: seq<Step>, i: nat)
    requires i < |steps| && forall j :: 0 <= j < i ==> steps[j].order != steps[i].order
    ensures FindStep(steps, steps[i].order) == Some(steps[i])
  {
    if i == 0 {
    } else {
      assert forall j :: 0 <= j < i - 1 ==> steps[1..][j] == steps[j + 1];
      FindStepIsFirst(steps[1..], i - 1);
    }
  }

  // --- Walking the graph ---

  /** Where a step leads, given the answer to its condition; None ends the journey. */
  function Edge(steps: seq<Step>, order: int, passed: bool): Option<int> {
    match FindStep(steps, order)
    case None => None
    case Some(step) =>
      var target := if !step.kind.Condition? then Some(order + 1)
                    else if !passed then step.noNext
                    else if step.yesNext.Some? then step.yesNext
                    else Some(order + 1);
      if target.Some? && FindStep(steps, target.value).Some? then target else None
  }

  /** The order reached from `order` by one edge per answer, None once the journey has ended. */
  function Walk(steps: seq<Step>, order: int, answers: seq<bool>): Option<int> {
    if answers == [] then Some(order) else
      match Walk(steps, order, answers[..|answers| - 1])
      case None => None
      case Some(reached) => Edge(steps, reached, answers[|answers| - 1])
  }

  /** The steps performed on such a walk. */
  function Performed(steps: seq<Step>, order: int, answers: seq<bool>): seq<Step> {
    if answers == [] then [] else
      var front := answers[..|answers| - 1];
      Performed(steps, order, front) +
      match Walk(steps, order, front)
      case None => []
      case Some(reached) =>
        match FindStep(steps, reached)
        case None => []
        case Some(step) => [step]
  }

  /** The campaigns those steps send. */
  function CampaignsOf(performed: seq<Step>): seq<Id> {
    if performed == [] then [] else
      CampaignsOf(performed[..|performed| - 1]) + CampaignOf(performed[|performed| - 1])
  }

  function CampaignOf(step: Step): seq<Id> {
    if step.kind.SendCampaign? && step.campaign.Some? then [step.campaign.value] else []
  }

  lemma {:induction false} WalkConcat(steps: seq<Step>, order: int, a: seq<bool>, b: seq<bool>)
    ensures Walk(steps, order, a + b) ==
            match Walk(steps, order, a)
            case None => None
            case Some(reached) => Walk(steps, reached, b)
  {
    if b == [] {
      assert a + b == a;
    } else {
      var front := b[..|b| - 1];
      WalkConcat(steps, order, a, front);
      assert (a + b)[..|a + b| - 1] == a + front;
    }
  }

  /** A walk that is still going was still going after every shorter list of answers. */
  lemma WalkPrefix(steps: seq<Step>, order: int, answers: seq<bool>, n: nat)
    requires n <= |answers| && Walk(steps, order, answers).Some?
    ensures Walk(steps, order, answers[..n]).Some?
  {
    WalkConcat(steps, order, answers[..n], answers[n..]);
    assert answers == answers[..n] + answers[n..];
  }

  // --- Does every walk end? ---

  /** A journey without steps takes one look to find that out. */
  function Bound(steps: seq<Step>): nat {
    if steps == [] then 1 else |steps|
  }

  /** Whatever the answers, the walk from step 1 has ended after as many looks as there are steps. */
  ghost predicate AlwaysEnds(steps: seq<Step>) {
    forall answers: seq<bool> :: |answers| == Bound(steps) ==> Walk(steps, 1, answers).None?
  }

  /** From a step that can be reached, `cycle` leads back to it. */
  ghost predicate Revisits(steps: seq<Step>, lead: seq<bool>, cycle: seq<bool>) {
    var reached := Walk(steps, 1, lead);
    cycle != [] && reached.Some? && Walk(steps, reached.value, cycle) == reached
  }

  function Repeat(cycle: seq<bool>, n: nat): (r: seq<bool>)
    ensures cycle != [] ==> |r| >= n
  {
    if n == 0 then [] else Repeat(cycle, n - 1) + cycle
  }

  lemma {:induction false} RepeatStays(steps: seq<Step>, order: int, cycle: seq<bool>, n: nat)
    requires Walk(steps, order, cycle) == Some(order)
    ensures Walk(steps, order, Repeat(cycle, n)) == Some(order)
  {
    if n == 0 {
    } else {
      RepeatStays(steps, order, cycle, n - 1);
      WalkConcat(steps, order, Repeat(cycle, n - 1), cycle);
    }
  }

  lemma RevisitGoesOn(steps: seq<Step>, lead: seq<bool>, cycle: seq<bool>)
    requires Revisits(steps, lead, cycle)
    ensures !AlwaysEnds(steps)
  {
    hide Walk, Bound, Repeat;
    var n := Bound(steps);
    var reached := Walk(steps, 1, lead).value;
    var again := Repeat(cycle, n);
    RepeatStays(steps, reached, cycle, n);
    WalkConcat(steps, 1, lead, again);
    WalkPrefix(steps, 1, lead + again, n);
    assert |(lead + again)[..n]| == n;
  }

  /** The orders a walk comes through, one for each answer it was still going after. */
  function Orders(steps: seq<Step>, answers: seq<bool>): (orders: seq<int>)
    requires Walk(steps, 1, answers).Some?
    ensures |orders| == |answers|
  {
    if answers == [] then [] else
      var front := answers[..|answers| - 1];
      Orders(steps, front) + [Walk(steps, 1, answers).value]
  }

  lemma {:induction false} OrdersAre(steps: seq<Step>, answers: seq<bool>, k: nat)
    requires Walk(steps, 1, answers).Some? && k < |answers|
    ensures Walk(steps, 1, answers[..k + 1]) == Some(Orders(steps, answers)[k])
    ensures FindStep(steps, Orders(steps, answers)[k]).Some?
  {
    if k + 1 == |answers| {
      assert answers[..k + 1] == answers;
    } else {
      var front := answers[..|answers| - 1];
      OrdersAre(steps, front, k);
      assert front[..k + 1] == answers[..k + 1];
    }
  }

  function OrdersOf(steps: seq<Step>): seq<int> {
    seq(|steps|, i requires 0 <= i < |steps| => steps[i].order)
  }

  lemma FoundIsListed(steps: seq<Step>, order: int)
    requires FindStep(steps, order).Some?
    ensures order in OrdersOf(steps)
  {
    var i :| 0 <= i < |steps| && steps[i] == FindStep(steps, order).value;
    assert OrdersOf(steps)[i] == order;
  }

  lemma RepeatedOrderRevisits(steps: seq<Step>, answers: seq<bool>, i: nat, k: nat)
    requires Walk(steps, 1, answers).Some? && i < k <= |answers|
    requires Walk(steps, 1, answers[..i]) == Walk(steps, 1, answers[..k])
    ensures Revisits(steps, answers[..i], answers[i..k])
  {
    hide Walk;
    WalkPrefix(steps, 1, answers, i);
    WalkConcat(steps, 1, answers[..i], answers[i..k]);
    assert answers[..k] == answers[..i] + answers[i..k];
  }

  /** Every order of a walk, its start included, that is left again or arrived at belongs to a step. */
  lemma WalkStaysListed(steps: seq<Step>, answers: seq<bool>)
    requires answers != [] && Walk(steps, 1, answers).Some?
    ensures forall n :: 0 <= n < |answers| ==> Orders(steps, answers)[n] in OrdersOf(steps)
    ensures 1 in OrdersOf(steps)
  {
    FirstIsFound(steps, answers);
    FoundIsListed(steps, 1);
    var orders := Orders(steps, answers);
    forall n | 0 <= n < |orders|
      ensures orders[n] in OrdersOf(steps)
    {
      OrdersAre(steps, answers, n);
      FoundIsListed(steps, orders[n]);
    }
  }

  /** A walk that outlives its bound has come through more steps than there are. */
  lemma LongWalkRepeats(steps: seq<Step>, answers: seq<bool>)
    requires |answers| == Bound(steps) && Walk(steps, 1, answers).Some?
    ensures !NoDup([1] + Orders(steps, answers))
  {
    WalkStaysListed(steps, answers);
    var visited, listed := [1] + Orders(steps, answers), OrdersOf(steps);
    forall order | order in visited
      ensures order in listed
    {
      var n :| 0 <= n < |visited| && visited[n] == order;
    }
    if NoDup(visited) {
      Pigeonhole(visited, listed);
    }
  }

  lemma LongWalkRevisits(steps: seq<Step>, answers: seq<bool>) returns (i: nat, k: nat)
    requires |answers| == Bound(steps) && Walk(steps, 1, answers).Some?
    ensures i < k <= |answers| && Revisits(steps, answers[..i], answers[i..k])
  {
    var orders := [1] + Orders(steps, answers);
    LongWalkRepeats(steps, answers);
    i, k :| 0 <= i < k < |orders| && orders[i] == orders[k];
    assert answers[..0] == [];
    if i > 0 {
      OrdersAre(steps, answers, i - 1);
    }
    OrdersAre(steps, answers, k - 1);
    RepeatedOrderRevisits(steps, answers, i, k);
  }

  lemma FirstIsFound(steps: seq<Step>, answers: seq<bool>)
    requires answers != [] && Walk(steps, 1, answers).Some?
    ensures FindStep(steps, 1).Some?
  {
    WalkPrefix(steps, 1, answers, 1);
    assert answers[..1][..0] == [];
  }

  /**
   Every enrolment ends within as many looks as there are steps, exactly when no reachable step leads back to itself.
   */
  lemma AlwaysEndsExactly(steps: seq<Step>)
    ensures AlwaysEnds(steps) <==> !exists lead, cycle :: Revisits(steps, lead, cycle)
  {
    if AlwaysEnds(steps) {
      forall lead, cycle
        ensures !Revisits(steps, lead, cycle)
      {
        if Revisits(steps, lead, cycle) {
          RevisitGoesOn(steps, lead, cycle);
        }
      }
    } else {
      var answers: seq<bool> :| |answers| == Bound(steps) && Walk(steps, 1, answers).Some?;
      var i, k := LongWalkRevisits(steps, answers);
    }
  }

  /** Every branch of every condition leads to a later step. */
  ghost predicate Forward(steps: seq<Step>) {
    forall s :: s in steps && s.kind.Condition? ==>
      && (s.yesNext.Some? ==> s.yesNext.value > s.order)
      && (s.noNext.Some? ==> s.noNext.value > s.order)
  }

  lemma {:induction false} ForwardClimbs(steps: seq<Step>, order: int, answers: seq<bool>)
    requires Forward(steps) && Walk(steps, order, answers).Some?
    ensures Walk(steps, order, answers).value >= order + |answers|
  {
    if answers == [] {
    } else {
      ForwardClimbs(steps, order, answers[..|answers| - 1]);
    }
  }

  /**
   When branches only lead forward, no walk comes to a step twice, so each ends within as many looks as there are
   steps.
   */
  lemma ForwardEnds(steps: seq<Step>)
    requires Forward(steps)
    ensures AlwaysEnds(steps)
  {
    forall lead, cycle
      ensures !Revisits(steps, lead, cycle)
    {
      if Revisits(steps, lead, cycle) {
        ForwardClimbs(steps, Walk(steps, 1, lead).value, cycle);
      }
    }
    AlwaysEndsExactly(steps);
  }
}
