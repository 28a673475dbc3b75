/**
 The consolidation scan handler as a transition system: any number of handlers run side by side, each
 database statement is one atomic step, and any statement may fail before or after taking effect.
 Whatever else happens to the plan's container happens in between: loads, sealing, departure and whole-row saves.
 */
module Consolidation {
  import opened Seqs
  import opened Containers
  import ContainerSaves
  import Loadings

  datatype PlanStatus = Confirmed | Loaded

  /**
   What a confirmed plan fixes: placed AWBs (in placement order), its piece count, and whether a container is linked.
   */
  datatype Plan = Plan(placed: seq<string>, pieceCount: int, linked: bool)

  datatype Stage = AtRead | AtInsert | AtCount | AtMark | AtFinalise

  datatype Response =
    | PlanNotConfirmed
    | AwbNotInPlan
    | AlreadyScanned
    | Scanned(count: nat, reported: PlanStatus)
    | FinaliseRefused
    | DatabaseError(stage: Stage, tookEffect: bool)

  /** Where a handler stands: the statement it will execute next, with the values it carries. */
  datatype Pc =
    | Reading
    | Inserting
    | Counting
    | Marking(count: nat)
    | ProbingPallets(count: nat)
    | ProbingPieces(count: nat, hasPallet: bool)
    | Finalising(count: nat)
    | Publishing(count: nat)
    | Done(response: Response)

  datatype Scanner = Scanner(awb: string, pc: Pc)

  datatype Event = PlanLoaded(scanner: nat, masterAwbs: seq<string>)

  /**
   `rows` are the loading rows in insertion order, and `traffic` everything else that is on its way to the container;
   the container is `container` and not the one in there.
   `winners` records the handlers whose compare-and-set moved the plan, and `restored` whether a save has taken the
   container back to planning; the program stores neither.
   */
  datatype State = State(
    status: PlanStatus,
    rows: seq<string>,
    container: Container,
    traffic: ContainerSaves.State,
    scanners: map<nat, Scanner>,
    events: seq<Event>,
    winners: seq<nat>,
    restored: bool)

  datatype Action =
    | Arrive(id: nat, awb: string)
    | Advance(id: nat, fault: Fault)
    | Outside(action: ContainerSaves.Action)

  function Initial(yard: ContainerSaves.State): State {
    State(Confirmed, [], yard.base.container, yard, map[], [], [], false)
  }

  const NEW := Initial(ContainerSaves.Start(true))

  /** The plan's container with everything on its way to it. */
  function Yard(s: State): ContainerSaves.State {
    s.traffic.(base := s.traffic.base.(container := s.container))
  }

  // --- The statements ---

  /** INSERT ... ON CONFLICT (plan_id, awb) DO NOTHING */
  function InsertLoading(rows: seq<string>, awb: string): seq<string> {
    if awb in rows then rows else rows + [awb]
  }

  function At(s: State, id: nat, pc: Pc): State
    requires id in s.scanners
  {
    s.(scanners := s.scanners[id := s.scanners[id].(pc := pc)])
  }

  function Answer(s: State, id: nat, response: Response): State
    requires id in s.scanners
  {
    At(s, id, Done(response))
  }

  function InsertStep(s: State, id: nat, fault: Fault): State
    requires id in s.scanners
  {
    var awb := s.scanners[id].awb;
    var inserted := awb !in s.rows;
    var after := if fault.Lost? then s else s.(rows := InsertLoading(s.rows, awb));
    if !fault.Clean? then Answer(after, id, DatabaseError(AtInsert, fault.Applied? && inserted))
    else if inserted then At(after, id, Counting)
    else Answer(after, id, AlreadyScanned)
  }

  /** UPDATE ... SET status = 'loaded' WHERE status = 'confirmed' */
  function MarkStep(plan: Plan, s: State, id: nat, count: nat, fault: Fault): State
    requires id in s.scanners
  {
    var transitioned := s.status.Confirmed?;
    var after := if fault.Lost? || !transitioned then s else s.(status := Loaded, winners := s.winners + [id]);
    if !fault.Clean? then Answer(after, id, DatabaseError(AtMark, fault.Applied?))
    else if transitioned && plan.linked then At(after, id, ProbingPallets(count))
    else Answer(after, id, Scanned(count, Loaded))
  }

  /** UPDATE ... SET status = 'manifested' WHERE status = 'planning' */
  function FinaliseStep(s: State, id: nat, count: nat, fault: Fault): State
    requires id in s.scanners
  {
    var sealing := s.container.status.Planning?;
    var after := if fault.Lost? || !sealing then s else s.(container := s.container.(status := Manifested));
    if !fault.Clean? then Answer(after, id, DatabaseError(AtFinalise, fault.Applied?))
    else if sealing then At(after, id, Publishing(count))
    else Answer(after, id, FinaliseRefused)
  }

  /** A publish failure is logged and swallowed, so the answer is the same either way. */
  function PublishStep(plan: Plan, s: State, id: nat, count: nat, fault: Fault): State
    requires id in s.scanners
  {
    var after := if fault.Lost? then s else s.(events := s.events + [PlanLoaded(id, plan.placed)]);
    Answer(after, id, Scanned(count, Loaded))
  }

  function ScannerStep(plan: Plan, s: State, id: nat, fault: Fault): State
    requires id in s.scanners
  {
    match s.scanners[id].pc
    case Reading =>
      if !fault.Clean? then Answer(s, id, DatabaseError(AtRead, false))
      else if !s.status.Confirmed? then Answer(s, id, PlanNotConfirmed)
      else if s.scanners[id].awb !in plan.placed then Answer(s, id, AwbNotInPlan)
      else At(s, id, Inserting)
    case Inserting => InsertStep(s, id, fault)
    case Counting =>
      if !fault.Clean? then Answer(s, id, DatabaseError(AtCount, false))
      else if |s.rows| >= plan.pieceCount then At(s, id, Marking(|s.rows|))
      else Answer(s, id, Scanned(|s.rows|, Confirmed))
    case Marking(count) => MarkStep(plan, s, id, count, fault)
    case ProbingPallets(count) =>
      if !fault.Clean? then Answer(s, id, DatabaseError(AtFinalise, false))
      else At(s, id, ProbingPieces(count, s.container.pallets != {}))
    case ProbingPieces(count, hasPallet) =>
      if !fault.Clean? then Answer(s, id, DatabaseError(AtFinalise, false))
      else if !hasPallet && s.container.pieces == {} then Answer(s, id, FinaliseRefused)
      else At(s, id, Finalising(count))
    case Finalising(count) => FinaliseStep(s, id, count, fault)
    case Publishing(count) => PublishStep(plan, s, id, count, fault)
    case Done(_) => s
  }

  ghost function OutsideStep(s: State, action: ContainerSaves.Action): State {
    var yard := ContainerSaves.Step(Yard(s), action);
    var after := yard.base.container;
    s.(container := after, traffic := yard,
       restored := s.restored || (s.container.status != Planning && after.status == Planning))
  }

  /** A step that is not enabled leaves the state as it is. */
  ghost function Step(plan: Plan, s: State, a: Action): State {
    match a
    case Arrive(id, awb) => if id in s.scanners then s else s.(scanners := s.scanners[id := Scanner(awb, Reading)])
    case Advance(id, fault) => if id in s.scanners then ScannerStep(plan, s, id, fault) else s
    case Outside(action) => OutsideStep(s, action)
  }

  ghost function Run(plan: Plan, s: State, actions: seq<Action>): State {
    if actions == [] then s
    else Step(plan, Run(plan, s, actions[..|actions| - 1]), actions[|actions| - 1])
  }

  lemma {:induction false} RunConcat(plan: Plan, s: State, a: seq<Action>, b: seq<Action>)
    ensures Run(plan, s, a + b) == Run(plan, Run(plan, s, a), b)
  {
    if b == [] {
      assert a + b == a;
    } else {
      RunConcat(plan, s, a, b[..|b| - 1]);
      assert (a + b)[..|a + b| - 1] == a + b[..|b| - 1];
    }
  }

  // --- The invariant ---

  /** Won the compare-and-set and has not finished with the container yet. */
  predicate Winning(pc: Pc) {
    pc.ProbingPallets? || pc.ProbingPieces? || pc.Finalising? || pc.Publishing?
  }

  /** Inserted a row and still has to count or to mark. */
  predicate Pending(pc: Pc) {
    pc.Counting? || pc.Marking?
  }

  /** Inserted a row and then failed before it could mark the plan. */
  predicate Died(pc: Pc) {
    && pc.Done? && pc.response.DatabaseError?
    && match pc.response.stage
       case AtInsert => pc.response.tookEffect
       case AtCount => true
       case AtMark => !pc.response.tookEffect
       case _ => false
  }

  predicate Finished(s: State, id: nat) {
    id in s.scanners && s.scanners[id].pc.Done?
  }

  /** Nobody takes the container back to planning but a save. */
  predicate SealedAndLoaded(s: State) {
    !s.container.Empty() && (s.container.status != Planning || s.restored)
  }

  ghost predicate RowsSound(plan: Plan, s: State) {
    && NoDup(s.rows)
    && (forall awb :: awb in s.rows ==> awb in plan.placed)
  }

  /** Full enough to be marked. */
  predicate Full(plan: Plan, rows: seq<string>) {
    rows != [] && |rows| >= plan.pieceCount
  }

  /** The plan is loaded exactly when one handler has won, and only with enough rows. */
  ghost predicate StatusSound(plan: Plan, s: State) {
    && |s.winners| == (if s.status.Loaded? then 1 else 0)
    && (s.status.Loaded? ==> Full(plan, s.rows) && s.winners[0] in s.scanners)
  }

  /** What a handler may rely on at its next statement. */
  ghost predicate ScannerSound(plan: Plan, s: State, id: nat)
    requires id in s.scanners
  {
    match s.scanners[id].pc
    case Inserting => s.scanners[id].awb in plan.placed
    case Counting => s.rows != []
    case Marking(_) => Full(plan, s.rows)
    case ProbingPallets(_) => s.winners == [id]
    case ProbingPieces(_, hasPallet) => s.winners == [id] && (hasPallet ==> s.container.pallets != {})
    case Finalising(_) => s.winners == [id] && !s.container.Empty()
    case Publishing(_) => s.winners == [id] && SealedAndLoaded(s)
    case _ => true
  }

  ghost predicate ScannersSound(plan: Plan, s: State) {
    forall id :: id in s.scanners ==> ScannerSound(plan, s, id)
  }

  ghost predicate EventsSound(plan: Plan, s: State) {
    s.events != [] ==>
      && |s.winners| == 1
      && s.events == [PlanLoaded(s.winners[0], plan.placed)]
      && Finished(s, s.winners[0])
      && SealedAndLoaded(s)
  }

  /** As soon as the rows suffice, the plan is loaded or somebody is still on the way to mark it (or died on it). */
  ghost predicate NothingLost(plan: Plan, s: State) {
    s.status.Confirmed? && Full(plan, s.rows) ==>
      exists id :: id in s.scanners && (Pending(s.scanners[id].pc) || Died(s.scanners[id].pc))
  }

  ghost predicate Inv(plan: Plan, s: State) {
    && RowsSound(plan, s)
    && StatusSound(plan, s)
    && ScannersSound(plan, s)
    && EventsSound(plan, s)
    && NothingLost(plan, s)
  }

  /** Nothing empties the container, and only a save takes it back to planning. */
  lemma OutsideOnlyGrows(s: State, action: ContainerSaves.Action)
    ensures var t := OutsideStep(s, action);
      && t == s.(container := t.container, traffic := t.traffic, restored := t.restored)
      && s.container.pallets <= t.container.pallets && s.container.pieces <= t.container.pieces
      && (t.container.status == Planning ==> s.container.status == Planning || t.restored)
      && (s.restored ==> t.restored)
  {
    hide ContainerSaves.RequestStep, Loadings.Step;
    if action.Other? {
      Loadings.StepKeepsContainer(Yard(s).base, action.action);
    } else if action.Advance? && action.id in Yard(s).requests {
      ContainerSaves.RequestTouches(Yard(s), action.id, action.fault);
    }
  }

  /** A handler moves itself and no other. */
  lemma StepMoves(plan: Plan, s: State, id: nat, fault: Fault)
    requires id in s.scanners
    ensures var t := ScannerStep(plan, s, id, fault);
      t.scanners == s.scanners[id := Scanner(s.scanners[id].awb, t.scanners[id].pc)]
  {
    match s.scanners[id].pc
    case Reading =>
    case Inserting =>
    case Counting =>
    case Marking(_) =>
    case ProbingPallets(_) =>
    case ProbingPieces(_, _) =>
    case Finalising(_) =>
    case Publishing(_) =>
    case Done(_) =>
  }

  /** Each of its statements changes one thing at most. */
  lemma StepChanges(plan: Plan, s: State, id: nat, fault: Fault)
    requires id in s.scanners
    ensures var t := ScannerStep(plan, s, id, fault); var pc, awb := s.scanners[id].pc, s.scanners[id].awb;
      && t.rows == (if pc.Inserting? && !fault.Lost? && awb !in s.rows then s.rows + [awb] else s.rows)
      && (if pc.Marking? && s.status.Confirmed? && !fault.Lost? then t.status.Loaded? && t.winners == s.winners + [id]
          else t.status == s.status && t.winners == s.winners)
      && t.container == (if pc.Finalising? && !fault.Lost? && s.container.status == Planning
                         then s.container.(status := Manifested) else s.container)
      && t.events == (if pc.Publishing? && !fault.Lost? then s.events + [PlanLoaded(id, plan.placed)] else s.events)
      && t.traffic == s.traffic && t.restored == s.restored
  {
    match s.scanners[id].pc
    case Reading =>
    case Inserting =>
    case Counting =>
    case Marking(_) =>
    case ProbingPallets(_) =>
    case ProbingPieces(_, _) =>
    case Finalising(_) =>
    case Publishing(_) =>
    case Done(_) =>
  }

  lemma StepEnds(plan: Plan, s: State, id: nat, fault: Fault)
    requires id in s.scanners
    ensures var t := ScannerStep(plan, s, id, fault); var pc := s.scanners[id].pc;
      (pc.Done? ==> t == s) && (pc.Publishing? ==> t.scanners[id].pc.Done?)
  {
  }

  lemma StepTouches(plan: Plan, s: State, id: nat, fault: Fault)
    requires id in s.scanners
    ensures var t := ScannerStep(plan, s, id, fault); var pc, awb := s.scanners[id].pc, s.scanners[id].awb;
      && t.scanners.Keys == s.scanners.Keys && t.scanners[id].awb == awb
      && (forall other :: other in s.scanners && other != id ==> t.scanners[other] == s.scanners[other])
      && t.rows == (if pc.Inserting? && !fault.Lost? && awb !in s.rows then s.rows + [awb] else s.rows)
      && (if pc.Marking? && s.status.Confirmed? && !fault.Lost? then t.status.Loaded? && t.winners == s.winners + [id]
          else t.status == s.status && t.winners == s.winners)
      && t.container == (if pc.Finalising? && !fault.Lost? && s.container.status == Planning
                         then s.container.(status := Manifested) else s.container)
      && t.events == (if pc.Publishing? && !fault.Lost? then s.events + [PlanLoaded(id, plan.placed)] else s.events)
      && (pc.Done? ==> t == s) && (pc.Publishing? ==> t.scanners[id].pc.Done?)
      && t.traffic == s.traffic && t.restored == s.restored
  {
    hide ScannerStep;
    StepMoves(plan, s, id, fault);
    StepChanges(plan, s, id, fault);
    StepEnds(plan, s, id, fault);
  }

  lemma StepKeepsRows(plan: Plan, s: State, a: Action)
    requires Inv(plan, s)
    ensures RowsSound(plan, Step(plan, s, a))
  {
    hide OutsideStep, ScannerStep;
    if a.Outside? {
      OutsideOnlyGrows(s, a.action);
    }
    if a.Advance? && a.id in s.scanners {
      StepTouches(plan, s, a.id, a.fault);
      assert ScannerSound(plan, s, a.id);
    }
  }

  lemma StepKeepsStatus(plan: Plan, s: State, a: Action)
    requires Inv(plan, s)
    ensures StatusSound(plan, Step(plan, s, a))
  {
    hide OutsideStep, ScannerStep;
    if a.Outside? {
      OutsideOnlyGrows(s, a.action);
    }
    if a.Advance? && a.id in s.scanners {
      StepTouches(plan, s, a.id, a.fault);
      assert ScannerSound(plan, s, a.id);
    }
  }

  /** The handler that steps finds what its next statement relies on. */
  lemma StepperSound(plan: Plan, s: State, id: nat, fault: Fault)
    requires Inv(plan, s) && id in s.scanners
    ensures ScannerSound(plan, ScannerStep(plan, s, id, fault), id)
  {
    assert ScannerSound(plan, s, id);
    match s.scanners[id].pc
    case Reading =>
    case Inserting =>
    case Counting =>
    case Marking(_) =>
    case ProbingPallets(_) =>
    case ProbingPieces(_, _) =>
    case Finalising(_) =>
    case Publishing(_) =>
    case Done(_) =>
  }

  /** No other handler loses what it relies on. */
  lemma OthersSound(plan: Plan, s: State, id: nat, fault: Fault, other: nat)
    requires Inv(plan, s) && id in s.scanners && other in s.scanners && other != id
    ensures ScannerSound(plan, ScannerStep(plan, s, id, fault), other)
  {
    hide ScannerStep;
    StepTouches(plan, s, id, fault);
    assert ScannerSound(plan, s, id) && ScannerSound(plan, s, other);
  }

  lemma StepKeepsScanners(plan: Plan, s: State, a: Action)
    requires Inv(plan, s)
    ensures ScannersSound(plan, Step(plan, s, a))
  {
    hide OutsideStep, ScannerStep;
    var t := Step(plan, s, a);
    if a.Advance? && a.id in s.scanners {
      StepTouches(plan, s, a.id, a.fault);
    }
    forall other | other in t.scanners
      ensures ScannerSound(plan, t, other)
    {
      match a
      case Arrive(_, _) =>
        assert other in s.scanners ==> ScannerSound(plan, s, other);
      case Advance(id, fault) =>
        if id in s.scanners {
          if other == id {
            StepperSound(plan, s, id, fault);
          } else {
            OthersSound(plan, s, id, fault, other);
          }
        }
      case Outside(action) =>
        OutsideOnlyGrows(s, action);
        assert ScannerSound(plan, s, other);
    }
  }

  lemma StepKeepsEvents(plan: Plan, s: State, a: Action)
    requires Inv(plan, s)
    ensures EventsSound(plan, Step(plan, s, a))
  {
    hide OutsideStep, ScannerStep;
    match a
    case Arrive(_, _) =>
    case Advance(id, fault) =>
      if id in s.scanners {
        StepTouches(plan, s, id, fault);
        assert ScannerSound(plan, s, id);
      }
    case Outside(action) => OutsideOnlyGrows(s, action);
  }

  /** A handler on its way to mark the plan stays there, marks it or dies. */
  lemma PendingGoesOn(plan: Plan, s: State, id: nat, fault: Fault)
    requires id in s.scanners && (Pending(s.scanners[id].pc) || Died(s.scanners[id].pc)) && Full(plan, s.rows)
    ensures var t := ScannerStep(plan, s, id, fault);
      t.status.Confirmed? ==> Pending(t.scanners[id].pc) || Died(t.scanners[id].pc)
  {
  }

  /** Only an insert makes the rows suffice, and its handler goes on to count or dies. */
  lemma InsertGoesOn(plan: Plan, s: State, id: nat, fault: Fault)
    requires id in s.scanners && !Full(plan, s.rows)
    ensures var t := ScannerStep(plan, s, id, fault);
      Full(plan, t.rows) ==> Pending(t.scanners[id].pc) || Died(t.scanners[id].pc)
  {
  }

  lemma StepKeepsProgress(plan: Plan, s: State, a: Action)
    requires Inv(plan, s)
    ensures NothingLost(plan, Step(plan, s, a))
  {
    hide OutsideStep, ScannerStep, Full, Pending, Died, ScannerSound;
    var t := Step(plan, s, a);
    if a.Outside? {
      OutsideOnlyGrows(s, a.action);
    } else if a.Advance? && a.id in s.scanners {
      StepTouches(plan, s, a.id, a.fault);
      if t.status.Confirmed? && Full(plan, t.rows) {
        if Full(plan, s.rows) {
          var id :| id in s.scanners && (Pending(s.scanners[id].pc) || Died(s.scanners[id].pc));
          if id == a.id {
            PendingGoesOn(plan, s, id, a.fault);
          }
          assert Pending(t.scanners[id].pc) || Died(t.scanners[id].pc);
        } else {
          InsertGoesOn(plan, s, a.id, a.fault);
        }
      }
    } else if t.status.Confirmed? && Full(plan, t.rows) {
      var id :| id in s.scanners && (Pending(s.scanners[id].pc) || Died(s.scanners[id].pc));
      assert t.scanners[id] == s.scanners[id];
    }
  }

  lemma {:induction false} RunKeepsInv(plan: Plan, s: State, actions: seq<Action>)
    requires Inv(plan, s)
    ensures Inv(plan, Run(plan, s, actions))
  {
    hide Step, RowsSound, StatusSound, ScannersSound, EventsSound, NothingLost;
    if actions == [] {
    } else {
      var before := actions[..|actions| - 1];
      var a := actions[|actions| - 1];
      RunKeepsInv(plan, s, before);
      var m := Run(plan, s, before);
      StepKeepsRows(plan, m, a);
      StepKeepsStatus(plan, m, a);
      StepKeepsScanners(plan, m, a);
      StepKeepsEvents(plan, m, a);
      StepKeepsProgress(plan, m, a);
    }
  }

  // --- What a handler answers ---

  /** The stage a failing statement is reported under. */
  function StageOf(pc: Pc): Stage
    requires !pc.Publishing? && !pc.Done?
  {
    match pc
    case Reading => AtRead
    case Inserting => AtInsert
    case Counting => AtCount
    case Marking(_) => AtMark
    case _ => AtFinalise
  }

  /** The failing statement took effect all the same. */
  predicate TookEffect(s: State, id: nat, fault: Fault)
    requires id in s.scanners
  {
    var pc := s.scanners[id].pc;
    && fault.Applied?
    && ((pc.Inserting? && s.scanners[id].awb !in s.rows) || pc.Marking? || pc.Finalising?)
  }

  /** When the next statement of a handler ends it with this answer. */
  predicate Justified(plan: Plan, s: State, id: nat, fault: Fault, r: Response)
    requires id in s.scanners
  {
    var pc, awb := s.scanners[id].pc, s.scanners[id].awb;
    match r
    case PlanNotConfirmed => pc.Reading? && fault.Clean? && s.status != Confirmed
    case AwbNotInPlan => pc.Reading? && fault.Clean? && s.status == Confirmed && awb !in plan.placed
    case AlreadyScanned => pc.Inserting? && fault.Clean? && awb in s.rows
    case Scanned(count, reported) =>
      || (pc.Counting? && fault.Clean? && count == |s.rows| < plan.pieceCount && reported == Confirmed)
      || (pc == Marking(count) && fault.Clean? && reported == Loaded && (s.status != Confirmed || !plan.linked))
      || (pc == Publishing(count) && reported == Loaded)
    case FinaliseRefused =>
      && fault.Clean?
      && (|| (pc.ProbingPieces? && !pc.hasPallet && s.container.pieces == {})
          || (pc.Finalising? && s.container.status != Planning))
    case DatabaseError(stage, tookEffect) =>
      && !fault.Clean? && !pc.Publishing? && !pc.Done? && stage == StageOf(pc)
      && (tookEffect <==> TookEffect(s, id, fault))
  }

  /** Each answer is given exactly when it is justified. */
  lemma AnswerExactly(plan: Plan, s: State, id: nat, fault: Fault, r: Response)
    requires id in s.scanners && !s.scanners[id].pc.Done?
    ensures ScannerStep(plan, s, id, fault).scanners[id].pc == Done(r) <==> Justified(plan, s, id, fault, r)
  {
    if s.scanners[id].pc.Inserting? || s.scanners[id].pc.Marking? || s.scanners[id].pc.Finalising? {
      WritesAnswer(plan, s, id, fault, r);
    } else {
      hide InsertStep, MarkStep, FinaliseStep;
      match s.scanners[id].pc
      case Reading =>
      case Counting =>
      case ProbingPallets(_) =>
      case ProbingPieces(_, _) =>
      case Publishing(_) =>
    }
  }

  lemma WritesAnswer(plan: Plan, s: State, id: nat, fault: Fault, r: Response)
    requires id in s.scanners
    requires s.scanners[id].pc.Inserting? || s.scanners[id].pc.Marking? || s.scanners[id].pc.Finalising?
    ensures ScannerStep(plan, s, id, fault).scanners[id].pc == Done(r) <==> Justified(plan, s, id, fault, r)
  {
    hide InsertLoading;
    match s.scanners[id].pc
    case Inserting =>
    case Marking(_) =>
    case Finalising(_) =>
  }

  /** When it goes on, and to which statement with which values. */
  predicate GoesOnTo(plan: Plan, s: State, id: nat, pc: Pc)
    requires id in s.scanners
  {
    match s.scanners[id].pc
    case Reading => pc == Inserting && s.status == Confirmed && s.scanners[id].awb in plan.placed
    case Inserting => pc == Counting && s.scanners[id].awb !in s.rows
    case Counting => pc == Marking(|s.rows|) && |s.rows| >= plan.pieceCount
    case Marking(count) => pc == ProbingPallets(count) && s.status == Confirmed && plan.linked
    case ProbingPallets(count) => pc == ProbingPieces(count, s.container.pallets != {})
    case ProbingPieces(count, hasPallet) => pc == Finalising(count) && (hasPallet || s.container.pieces != {})
    case Finalising(count) => pc == Publishing(count) && s.container.status == Planning
    case _ => false
  }

  lemma GoesOnExactly(plan: Plan, s: State, id: nat, fault: Fault, pc: Pc)
    requires id in s.scanners && !s.scanners[id].pc.Done? && !pc.Done?
    ensures ScannerStep(plan, s, id, fault).scanners[id].pc == pc <==> fault.Clean? && GoesOnTo(plan, s, id, pc)
  {
    if s.scanners[id].pc.Inserting? || s.scanners[id].pc.Marking? || s.scanners[id].pc.Finalising? {
      WritesGoOn(plan, s, id, fault, pc);
    } else {
      hide InsertStep, MarkStep, FinaliseStep;
      match s.scanners[id].pc
      case Reading =>
      case Counting =>
      case ProbingPallets(_) =>
      case ProbingPieces(_, _) =>
      case Publishing(_) =>
    }
  }

  lemma WritesGoOn(plan: Plan, s: State, id: nat, fault: Fault, pc: Pc)
    requires id in s.scanners && !pc.Done?
    requires s.scanners[id].pc.Inserting? || s.scanners[id].pc.Marking? || s.scanners[id].pc.Finalising?
    ensures ScannerStep(plan, s, id, fault).scanners[id].pc == pc <==> fault.Clean? && GoesOnTo(plan, s, id, pc)
  {
    hide InsertLoading;
    match s.scanners[id].pc
    case Inserting =>
    case Marking(_) =>
    case Finalising(_) =>
  }

  /** At step `n` of the run, handler `id` executes a statement and stands at `pc`. */
  ghost predicate Executes(plan: Plan, yard: ContainerSaves.State, actions: seq<Action>, id: nat, n: nat, pc: Pc) {
    && n < |actions| && actions[n].Advance? && actions[n].id == id
    && var before := Run(plan, Initial(yard), actions[..n]);
       id in before.scanners && before.scanners[id].pc == pc
  }

  /** At step `n` it counted `count` rows, its own among them. */
  ghost predicate CountedAt(plan: Plan, yard: ContainerSaves.State, actions: seq<Action>, id: nat, n: nat, count: nat) {
    && Executes(plan, yard, actions, id, n, Counting) && actions[n].fault.Clean?
    && count == |Run(plan, Initial(yard), actions[..n]).rows|
  }

  ghost predicate Counted(plan: Plan, yard: ContainerSaves.State, actions: seq<Action>, id: nat, count: nat) {
    exists n: nat :: CountedAt(plan, yard, actions, id, n, count)
  }

  /** At step `n` it was given this answer, with cause. */
  ghost predicate AnsweredAt(plan: Plan, yard: ContainerSaves.State, actions: seq<Action>, id: nat, n: nat,
                             r: Response)
  {
    && n < |actions| && actions[n].Advance? && actions[n].id == id
    && var before := Run(plan, Initial(yard), actions[..n]);
       id in before.scanners && Justified(plan, before, id, actions[n].fault, r)
  }

  /** The count a handler carries or has answered is one it has counted, and its answer had its cause. */
  ghost predicate Truthful(plan: Plan, yard: ContainerSaves.State, actions: seq<Action>, id: nat, pc: Pc) {
    match pc
    case Marking(count) => Counted(plan, yard, actions, id, count) && count >= plan.pieceCount
    case ProbingPallets(count) => Counted(plan, yard, actions, id, count) && count >= plan.pieceCount
    case ProbingPieces(count, _) => Counted(plan, yard, actions, id, count) && count >= plan.pieceCount
    case Finalising(count) => Counted(plan, yard, actions, id, count) && count >= plan.pieceCount
    case Publishing(count) => Counted(plan, yard, actions, id, count) && count >= plan.pieceCount
    case Done(r) =>
      && (exists n: nat :: AnsweredAt(plan, yard, actions, id, n, r))
      && (r.Scanned? ==> Counted(plan, yard, actions, id, r.count)
                         && (r.reported.Loaded? <==> r.count >= plan.pieceCount))
    case _ => true
  }

  lemma TruthfulLater(plan: Plan, yard: ContainerSaves.State, actions: seq<Action>, a: Action, id: nat, pc: Pc)
    requires Truthful(plan, yard, actions, id, pc)
    ensures Truthful(plan, yard, actions + [a], id, pc)
  {
    hide Run, Justified;
    var longer := actions + [a];
    forall n: nat, count | CountedAt(plan, yard, actions, id, n, count)
      ensures CountedAt(plan, yard, longer, id, n, count)
    {
      assert longer[..n] == actions[..n];
    }
    forall count | Counted(plan, yard, actions, id, count)
      ensures Counted(plan, yard, longer, id, count)
    {
      var n: nat :| CountedAt(plan, yard, actions, id, n, count);
      assert CountedAt(plan, yard, longer, id, n, count);
    }
    if pc.Done? {
      var n: nat :| AnsweredAt(plan, yard, actions, id, n, pc.response);
      assert longer[..n] == actions[..n];
      assert AnsweredAt(plan, yard, longer, id, n, pc.response);
    }
  }

  lemma TruthfulStep(plan: Plan, yard: ContainerSaves.State, actions: seq<Action>, id: nat, fault: Fault)
    requires var m := Run(plan, Initial(yard), actions);
      id in m.scanners && !m.scanners[id].pc.Done? && Truthful(plan, yard, actions, id, m.scanners[id].pc)
    ensures var m := Run(plan, Initial(yard), actions);
      Truthful(plan, yard, actions + [Advance(id, fault)], id, ScannerStep(plan, m, id, fault).scanners[id].pc)
  {
    hide Run, Justified, ScannerStep;
    var longer, m := actions + [Advance(id, fault)], Run(plan, Initial(yard), actions);
    StepTouches(plan, m, id, fault);
    var before, after := m.scanners[id].pc, ScannerStep(plan, m, id, fault).scanners[id].pc;
    TruthfulLater(plan, yard, actions, Advance(id, fault), id, before);
    assert longer[..|actions|] == actions;
    if before.Counting? && fault.Clean? {
      assert CountedAt(plan, yard, longer, id, |actions|, |m.rows|);
    }
    if after.Done? {
      AnswerExactly(plan, m, id, fault, after.response);
      assert AnsweredAt(plan, yard, longer, id, |actions|, after.response);
      if after.response.Scanned? {
        ScannedCounts(plan, m, id, fault, after.response);
      }
    } else {
      GoesOnExactly(plan, m, id, fault, after);
    }
  }

  lemma ScannedCounts(plan: Plan, s: State, id: nat, fault: Fault, r: Response)
    requires id in s.scanners && Justified(plan, s, id, fault, r) && r.Scanned?
    ensures || (s.scanners[id].pc.Counting? && fault.Clean? && r.count == |s.rows| < plan.pieceCount
                && r.reported.Confirmed?)
            || ((s.scanners[id].pc == Marking(r.count) || s.scanners[id].pc == Publishing(r.count))
                && r.reported.Loaded?)
  {
  }

  /**
   Over every run, every answered handler was given an answer for which there was cause at its last statement; a
   count reported is the number of rows stored when that handler counted; and loaded is reported exactly of a count
   that reaches the piece count.
   */
  lemma {:induction false} AnswersAreTrue(plan: Plan, yard: ContainerSaves.State, actions: seq<Action>, id: nat)
    requires id in Run(plan, Initial(yard), actions).scanners
    ensures Truthful(plan, yard, actions, id, Run(plan, Initial(yard), actions).scanners[id].pc)
  {
    hide Truthful, ScannerStep, OutsideStep;
    if actions == [] {
    } else {
      var front, last := actions[..|actions| - 1], actions[|actions| - 1];
      assert actions == front + [last];
      var m := Run(plan, Initial(yard), front);
      if last.Advance? && last.id in m.scanners {
        StepTouches(plan, m, last.id, last.fault);
      } else if last.Outside? {
        OutsideOnlyGrows(m, last.action);
      }
      if id !in m.scanners {
        NewIsTruthful(plan, yard, actions, id);
      } else {
        AnswersAreTrue(plan, yard, front, id);
        TruthfulLater(plan, yard, front, last, id, m.scanners[id].pc);
        if last.Advance? && last.id == id && !m.scanners[id].pc.Done? {
          TruthfulStep(plan, yard, front, id, last.fault);
        }
      }
    }
  }

  lemma NewIsTruthful(plan: Plan, yard: ContainerSaves.State, actions: seq<Action>, id: nat)
    ensures Truthful(plan, yard, actions, id, Reading)
  {
  }

  /** The plan is stored as loaded whenever some handler reports that, and as confirmed when one counts too few rows. */
  lemma ReportedIsStored(plan: Plan, s: State, id: nat, fault: Fault, r: Response)
    requires Inv(plan, s) && id in s.scanners && Justified(plan, s, id, fault, r) && r.Scanned?
    ensures ScannerStep(plan, s, id, fault).status == r.reported
  {
    hide ScannerStep;
    assert ScannerSound(plan, s, id);
    StepTouches(plan, s, id, fault);
  }

  // --- Safety over every run ---

  /**
   In every run: one handler at most moves the plan to loaded; the event goes out at most once, from that
   handler, naming the placements, with the container sealed and not empty (and still sealed, unless a save has taken it
   back to planning); and the rows are distinct
   placed AWBs, so the count is the number of pieces loaded.
   */
  lemma OneWinnerOneEvent(plan: Plan, yard: ContainerSaves.State, actions: seq<Action>)
    ensures var s := Run(plan, Initial(yard), actions);
      && |s.winners| <= 1
      && (s.status.Loaded? <==> |s.winners| == 1)
      && (s.events != [] ==>
            && s.winners != [] && s.events == [PlanLoaded(s.winners[0], plan.placed)]
            && (s.container.status != Planning || s.restored) && !s.container.Empty())
      && NoDup(s.rows) && |s.rows| == |ToSet(s.rows)| && ToSet(s.rows) <= ToSet(plan.placed)
  {
    RunKeepsInv(plan, Initial(yard), actions);
    DistinctCount(Run(plan, Initial(yard), actions).rows);
  }

  /** Every handler has got past its count and its mark, and none failed in between. */
  ghost predicate Quiet(s: State) {
    forall id :: id in s.scanners ==> !Pending(s.scanners[id].pc) && !Died(s.scanners[id].pc)
  }

  /** Once the handlers are quiet, the plan is loaded exactly when enough rows are stored. */
  lemma QuietMeansDecided(plan: Plan, yard: ContainerSaves.State, actions: seq<Action>)
    requires Quiet(Run(plan, Initial(yard), actions))
    ensures var s := Run(plan, Initial(yard), actions);
      s.status.Loaded? <==> s.rows != [] && |s.rows| >= plan.pieceCount
  {
    RunKeepsInv(plan, Initial(yard), actions);
  }

  /** No completion is lost: all placed AWBs scanned and all handlers past their mark means the plan is loaded. */
  lemma NoCompletionLost(plan: Plan, yard: ContainerSaves.State, actions: seq<Action>)
    requires plan.placed != [] && plan.pieceCount <= |ToSet(plan.placed)|
    requires var s := Run(plan, Initial(yard), actions);
      Quiet(s) && forall awb :: awb in plan.placed ==> awb in s.rows
    ensures Run(plan, Initial(yard), actions).status.Loaded?
  {
    var s := Run(plan, Initial(yard), actions);
    RunKeepsInv(plan, Initial(yard), actions);
    assert plan.placed[0] in s.rows;
    SubsetCount(ToSet(plan.placed), ToSet(s.rows));
    DistinctCount(s.rows);
    QuietMeansDecided(plan, yard, actions);
  }

  /** With more pieces counted than distinct AWBs placed, no run ever loads the plan. */
  lemma OvercountedPlanNeverLoads(plan: Plan, yard: ContainerSaves.State, actions: seq<Action>)
    requires plan.pieceCount > |ToSet(plan.placed)|
    ensures Run(plan, Initial(yard), actions).status.Confirmed?
  {
    var s := Run(plan, Initial(yard), actions);
    OneWinnerOneEvent(plan, yard, actions);
    RunKeepsInv(plan, Initial(yard), actions);
    SubsetCount(ToSet(s.rows), ToSet(plan.placed));
  }

  /**
   If the winning handler has answered and no event is out, none will ever follow: whatever handlers and
   loaders do afterwards, the plan stays loaded without its event.
   */
  lemma {:induction false} MissedEventIsMissedForGood(plan: Plan, s: State, actions: seq<Action>)
    requires Inv(plan, s)
    requires s.status.Loaded? && s.events == [] && Finished(s, s.winners[0])
    ensures var t := Run(plan, s, actions);
      t.status.Loaded? && t.events == [] && t.winners == s.winners && Finished(t, t.winners[0])
  {
    hide ScannerStep, OutsideStep, RowsSound, NothingLost;
    if actions == [] {
    } else {
      var before := actions[..|actions| - 1];
      MissedEventIsMissedForGood(plan, s, before);
      RunKeepsInv(plan, s, before);
      var m := Run(plan, s, before);
      var a := actions[|actions| - 1];
      if a.Advance? && a.id in m.scanners {
        assert ScannerSound(plan, m, a.id);
        StepTouches(plan, m, a.id, a.fault);
      } else if a.Outside? {
        OutsideOnlyGrows(m, a.action);
      }
    }
  }

  /** The winner is on its way to publish, and the container lets it through. */
  ghost predicate EventOpen(s: State) {
    && s.winners != [] && s.winners[0] in s.scanners
    && var pc := s.scanners[s.winners[0]].pc;
       && Winning(pc)
       && (pc.Publishing? || s.container.status == Planning || ContainerSaves.SomebodyWritesBelow(Yard(s), 1))
  }

  /** The plan is loaded without its event, and nobody will publish it. */
  ghost predicate EventMissed(plan: Plan, s: State) {
    Inv(plan, s) && s.status.Loaded? && s.events == [] && !EventOpen(s)
  }

  lemma MissedStep(plan: Plan, s: State, a: Action)
    requires EventMissed(plan, s)
    ensures EventMissed(plan, Step(plan, s, a))
  {
    hide ScannerStep, OutsideStep, RowsSound, NothingLost, ContainerSaves.SomebodyWritesBelow;
    RunIsStep(plan, s, a);
    RunKeepsInv(plan, s, [a]);
    if a.Advance? && a.id in s.scanners {
      assert ScannerSound(plan, s, a.id);
      StepTouches(plan, s, a.id, a.fault);
      WinnerStep(plan, s, a.id, a.fault);
    } else if a.Outside? {
      OutsideOnlyGrows(s, a.action);
      if s.container.status != Planning && !ContainerSaves.SomebodyWritesBelow(Yard(s), 1) {
        ShutStays(s, a.action);
      }
    }
  }

  /** Without planning in reach, a handler wins nothing and gets no nearer to publishing. */
  lemma WinnerStep(plan: Plan, s: State, id: nat, fault: Fault)
    requires id in s.scanners
    ensures var t := ScannerStep(plan, s, id, fault);
      && (Winning(t.scanners[id].pc) ==> Winning(s.scanners[id].pc) || s.status.Confirmed?)
      && (t.scanners[id].pc.Publishing? ==> s.container.status == Planning)
  {
    match s.scanners[id].pc
    case Reading =>
    case Inserting =>
    case Counting =>
    case Marking(_) =>
    case ProbingPallets(_) =>
    case ProbingPieces(_, _) =>
    case Finalising(_) =>
    case Publishing(_) =>
    case Done(_) =>
  }

  lemma ShutStays(s: State, action: ContainerSaves.Action)
    requires s.container.status != Planning && !ContainerSaves.SomebodyWritesBelow(Yard(s), 1)
    ensures var t := OutsideStep(s, action);
      t.container.status != Planning && !ContainerSaves.SomebodyWritesBelow(Yard(t), 1)
  {
    hide ContainerSaves.Step, ContainerSaves.SomebodyWritesBelow;
    ContainerSaves.AboveStep(Yard(s), action, 1);
    assert Yard(OutsideStep(s, action)) == ContainerSaves.Step(Yard(s), action);
  }

  lemma {:induction false} MissedForGood(plan: Plan, s: State, actions: seq<Action>)
    requires EventMissed(plan, s)
    ensures EventMissed(plan, Run(plan, s, actions))
  {
    hide Step, EventMissed;
    if actions == [] {
    } else {
      MissedForGood(plan, s, actions[..|actions| - 1]);
      MissedStep(plan, Run(plan, s, actions[..|actions| - 1]), actions[|actions| - 1]);
    }
  }

  lemma RunIsStep(plan: Plan, s: State, a: Action)
    ensures Run(plan, s, [a]) == Step(plan, s, a)
  {
    assert [a][..0] == [];
    assert Run(plan, s, [a][..0]) == s;
  }

  lemma RunThen(plan: Plan, s: State, a: Action, later: seq<Action>)
    ensures Run(plan, s, [a] + later) == Run(plan, Step(plan, s, a), later)
  {
    RunConcat(plan, s, [a], later);
    RunIsStep(plan, s, a);
  }

  /** From its statement on, the winner publishes on a container that holds a piece and can be sealed. */
  lemma {:induction false} WinnerPublishes(plan: Plan, s: State, id: nat) returns (later: seq<Action>)
    requires id in s.scanners && Winning(s.scanners[id].pc)
    requires s.scanners[id].pc.Publishing? || (s.container.status == Planning && s.container.pieces != {})
    ensures Run(plan, s, later).events != []
    decreases Rank(s.scanners[id].pc)
  {
    var step := Advance(id, Clean);
    if s.scanners[id].pc.Publishing? {
      later := [step];
      RunIsStep(plan, s, step);
    } else {
      var rest := WinnerPublishes(plan, Step(plan, s, step), id);
      later := [step] + rest;
      RunThen(plan, s, step, rest);
    }
  }

  function Outsides(actions: seq<ContainerSaves.Action>): seq<Action> {
    seq(|actions|, i requires 0 <= i < |actions| => Outside(actions[i]))
  }

  /** A run of the container alone moves no handler. */
  lemma {:induction false} OutsidesRun(plan: Plan, s: State, actions: seq<ContainerSaves.Action>)
    ensures var t := Run(plan, s, Outsides(actions));
      && Yard(t) == ContainerSaves.Run(Yard(s), actions)
      && t == s.(container := t.container, traffic := t.traffic, restored := t.restored)
  {
    hide ContainerSaves.Step;
    if actions == [] {
    } else {
      var front := actions[..|actions| - 1];
      OutsidesRun(plan, s, front);
      assert Outsides(actions)[..|actions| - 1] == Outsides(front);
    }
  }

  /** A winner before its update publishes once the container is in planning. */
  lemma PlanningPublishes(plan: Plan, s: State, id: nat) returns (later: seq<Action>)
    requires id in s.scanners && Winning(s.scanners[id].pc) && s.container.status == Planning
    ensures Run(plan, s, later).events != []
  {
    hide Run, ContainerSaves.Run;
    if s.scanners[id].pc.Publishing? || s.container.pieces != {} {
      later := WinnerPublishes(plan, s, id);
    } else {
      var load := ContainerSaves.OpenTakesPiece(Yard(s));
      OutsidesRun(plan, s, load);
      var rest := WinnerPublishes(plan, Run(plan, s, Outsides(load)), id);
      RunConcat(plan, s, Outsides(load), rest);
      later := Outsides(load) + rest;
    }
  }

  /**
   For a loaded plan without its event, the event can still go out exactly while the winner is on its way and either
   about to publish, or facing a container that is in planning or that a save is about to take back there. A container
   that somebody else seals in between is enough to lose it.
   */
  lemma EventOpenExactly(plan: Plan, s: State)
    requires Inv(plan, s) && s.status.Loaded? && s.events == []
    ensures (exists later :: Run(plan, s, later).events != []) <==> EventOpen(s)
  {
    hide Run, ContainerSaves.Run, ContainerSaves.SomebodyWritesBelow, Inv;
    if EventOpen(s) {
      var id := s.winners[0];
      if s.scanners[id].pc.Publishing? {
        var later := WinnerPublishes(plan, s, id);
      } else if s.container.status == Planning {
        var later := PlanningPublishes(plan, s, id);
      } else {
        ContainerSaves.FallsBackExactly(Yard(s), 1);
        var back :| ContainerSaves.Phase(ContainerSaves.Run(Yard(s), back).base.container.status) < 1;
        OutsidesRun(plan, s, back);
        var rest := PlanningPublishes(plan, Run(plan, s, Outsides(back)), id);
        RunConcat(plan, s, Outsides(back), rest);
        assert Run(plan, s, Outsides(back) + rest).events != [];
      }
    } else {
      forall later
        ensures Run(plan, s, later).events == []
      {
        MissedForGood(plan, s, later);
      }
    }
  }

  /** As long as no request that saves whole rows takes a step, the container of a published plan stays sealed. */
  lemma {:induction false} OnlySavesRestore(plan: Plan, yard: ContainerSaves.State, actions: seq<Action>)
    requires forall a :: a in actions && a.Outside? ==> !a.action.Advance?
    ensures !Run(plan, Initial(yard), actions).restored
  {
    hide ScannerStep, Loadings.Step;
    if actions == [] {
    } else {
      var front, last := actions[..|actions| - 1], actions[|actions| - 1];
      assert last in actions;
      OnlySavesRestore(plan, yard, front);
      var m := Run(plan, Initial(yard), front);
      if last.Outside? && last.action.Other? {
        Loadings.StepKeepsContainer(Yard(m).base, last.action.action);
      } else if last.Advance? && last.id in m.scanners {
        StepTouches(plan, m, last.id, last.fault);
      }
    }
  }

  // --- What a failed statement costs ---

  ghost predicate AllStored(plan: Plan, s: State) {
    forall awb :: awb in plan.placed ==> awb in s.rows
  }

  ghost predicate SomebodyPending(s: State) {
    exists id :: id in s.scanners && Pending(s.scanners[id].pc)
  }

  /** Everything is scanned, the plan is not loaded, and no handler is on its way to load it. */
  ghost predicate Stuck(plan: Plan, s: State) {
    Inv(plan, s) && s.status.Confirmed? && AllStored(plan, s) && !SomebodyPending(s)
  }

  lemma StuckStep(plan: Plan, s: State, a: Action)
    requires Stuck(plan, s)
    ensures Stuck(plan, Step(plan, s, a))
  {
    hide ScannerStep, OutsideStep, RowsSound, NothingLost, EventsSound;
    RunIsStep(plan, s, a);
    RunKeepsInv(plan, s, [a]);
    if a.Advance? && a.id in s.scanners {
      assert ScannerSound(plan, s, a.id);
      StepTouches(plan, s, a.id, a.fault);
      StoredNeverPends(plan, s, a.id, a.fault);
    } else if a.Outside? {
      OutsideOnlyGrows(s, a.action);
    }
  }

  lemma StoredNeverPends(plan: Plan, s: State, id: nat, fault: Fault)
    requires AllStored(plan, s) && id in s.scanners && ScannerSound(plan, s, id) && !Pending(s.scanners[id].pc)
    ensures !Pending(ScannerStep(plan, s, id, fault).scanners[id].pc)
  {
  }

  lemma {:induction false} StuckForGood(plan: Plan, s: State, actions: seq<Action>)
    requires Stuck(plan, s)
    ensures Stuck(plan, Run(plan, s, actions))
  {
    hide Step, Stuck;
    if actions == [] {
    } else {
      StuckForGood(plan, s, actions[..|actions| - 1]);
      StuckStep(plan, Run(plan, s, actions[..|actions| - 1]), actions[|actions| - 1]);
    }
  }

  /** A handler that still has to count or to mark loads a full plan. */
  lemma PendingLoads(plan: Plan, s: State, id: nat) returns (actions: seq<Action>)
    requires s.status.Confirmed? && |s.rows| >= plan.pieceCount
    requires id in s.scanners && Pending(s.scanners[id].pc)
    ensures Run(plan, s, actions).status.Loaded?
  {
    var step := Advance(id, Clean);
    RunIsStep(plan, s, step);
    if s.scanners[id].pc.Marking? {
      actions := [step];
    } else {
      actions := [step] + [step];
      RunConcat(plan, s, [step], [step]);
      RunIsStep(plan, Step(plan, s, step), step);
    }
  }

  /** A new handler stores an AWB that is missing and goes on to count. */
  lemma StoresNext(plan: Plan, s: State, id: nat, awb: string) returns (actions: seq<Action>)
    requires Inv(plan, s) && s.status.Confirmed? && id !in s.scanners && awb in plan.placed && awb !in s.rows
    ensures var t := Run(plan, s, actions);
      && Inv(plan, t) && t.status.Confirmed? && t.rows == s.rows + [awb]
      && id in t.scanners && t.scanners[id].pc.Counting?
  {
    var arrive, step := Arrive(id, awb), Advance(id, Clean);
    actions := [arrive] + ([step] + [step]);
    RunThen(plan, s, arrive, [step] + [step]);
    RunThen(plan, Step(plan, s, arrive), step, [step]);
    RunIsStep(plan, Step(plan, Step(plan, s, arrive), step), step);
    RunKeepsInv(plan, s, actions);
  }

  /** As long as an AWB is missing or a handler is on its way, the plan can be completed. */
  lemma {:induction false} Completes(plan: Plan, s: State) returns (actions: seq<Action>)
    requires Inv(plan, s) && s.status.Confirmed? && plan.pieceCount <= |ToSet(plan.placed)|
    requires SomebodyPending(s) || !AllStored(plan, s)
    ensures Run(plan, s, actions).status.Loaded?
    decreases ToSet(plan.placed) - ToSet(s.rows)
  {
    hide Inv, Run, Step;
    if AllStored(plan, s) {
      var id :| id in s.scanners && Pending(s.scanners[id].pc);
      StoredIsFull(plan, s);
      actions := PendingLoads(plan, s, id);
    } else {
      var awb :| awb in plan.placed && awb !in s.rows;
      var id := FreshNat(s.scanners.Keys);
      var first := StoresNext(plan, s, id, awb);
      var t := Run(plan, s, first);
      assert awb in ToSet(plan.placed) - ToSet(s.rows) && awb !in ToSet(plan.placed) - ToSet(t.rows);
      assert Pending(t.scanners[id].pc);
      var rest := Completes(plan, t);
      RunConcat(plan, s, first, rest);
      actions := first + rest;
    }
  }

  lemma StoredIsFull(plan: Plan, s: State)
    requires Inv(plan, s) && AllStored(plan, s) && plan.pieceCount <= |ToSet(plan.placed)|
    ensures |s.rows| >= plan.pieceCount
  {
    SubsetCount(ToSet(plan.placed), ToSet(s.rows));
    DistinctCount(s.rows);
  }

  /**
   A plan that is not loaded yet can still be loaded exactly while some placed AWB is not stored or some handler is
   between its insert and its mark: whoever scans a stored AWB again is turned away before counting. So a statement
   that fails there after the last AWB was stored loses the completion for good.
   */
  lemma CompletionOpenExactly(plan: Plan, s: State)
    requires Inv(plan, s) && s.status.Confirmed? && plan.pieceCount <= |ToSet(plan.placed)|
    ensures (exists actions :: Run(plan, s, actions).status.Loaded?) <==>
            SomebodyPending(s) || !AllStored(plan, s)
  {
    if SomebodyPending(s) || !AllStored(plan, s) {
      var actions := Completes(plan, s);
    } else {
      forall actions
        ensures !Run(plan, s, actions).status.Loaded?
      {
        StuckForGood(plan, s, actions);
      }
    }
  }

  /** A count that fails after the only piece was stored leaves the plan unloaded in every continuation. */
  lemma FailedCountLosesPlan(later: seq<Action>)
    ensures var plan := Plan(["A"], 1, true);
      var scan := [] + [Arrive(0, "A")] + [Advance(0, Clean)] + [Advance(0, Clean)] + [Advance(0, Lost)];
      var s := Run(plan, NEW, scan);
      s.rows == ["A"] && Run(plan, s, later).status.Confirmed?
  {
    hide Run, Inv;
    var plan := Plan(["A"], 1, true);
    var a1 := [] + [Arrive(0, "A")];
    var a2 := a1 + [Advance(0, Clean)];
    var a3 := a2 + [Advance(0, Clean)];
    NothingRun(plan, NEW);
    RunPush(plan, NEW, [], Arrive(0, "A"));
    RunPush(plan, NEW, a1, Advance(0, Clean));
    RunPush(plan, NEW, a2, Advance(0, Clean));
    RunPush(plan, NEW, a3, Advance(0, Lost));
    StartIsSound(plan);
    RunKeepsInv(plan, NEW, a3 + [Advance(0, Lost)]);
    StuckForGood(plan, Run(plan, NEW, a3 + [Advance(0, Lost)]), later);
  }

  lemma NothingRun(plan: Plan, s: State)
    ensures Run(plan, s, []) == s
  {
  }

  lemma StartIsSound(plan: Plan)
    ensures Inv(plan, NEW)
  {
  }

  lemma RunPush(plan: Plan, s: State, actions: seq<Action>, a: Action)
    ensures Run(plan, s, actions + [a]) == Step(plan, Run(plan, s, actions), a)
  {
    assert (actions + [a])[..|actions|] == actions;
  }

  // --- One handler running alone ---

  function Rank(pc: Pc): nat {
    match pc
    case Reading => 8
    case Inserting => 7
    case Counting => 6
    case Marking(_) => 5
    case ProbingPallets(_) => 4
    case ProbingPieces(_, _) => 3
    case Finalising(_) => 2
    case Publishing(_) => 1
    case Done(_) => 0
  }

  /** Lets one handler run to its answer, undisturbed and without failures. */
  function Finish(plan: Plan, s: State, id: nat): (t: State)
    requires id in s.scanners
    ensures id in t.scanners && t.scanners[id].pc.Done?
    decreases Rank(s.scanners[id].pc)
  {
    if s.scanners[id].pc.Done? then s else Finish(plan, ScannerStep(plan, s, id, Clean), id)
  }

  ghost function Solo(plan: Plan, s: State, id: nat, awb: string): State
    requires id !in s.scanners
  {
    Finish(plan, Step(plan, s, Arrive(id, awb)), id)
  }

  lemma {:induction false} FinishIsARun(plan: Plan, s: State, id: nat) returns (actions: seq<Action>)
    requires id in s.scanners
    ensures Run(plan, s, actions) == Finish(plan, s, id)
    decreases Rank(s.scanners[id].pc)
  {
    if s.scanners[id].pc.Done? {
      actions := [];
    } else {
      var step := [Advance(id, Clean)];
      assert step[..0] == [];
      assert Run(plan, s, step) == ScannerStep(plan, s, id, Clean);
      var rest := FinishIsARun(plan, ScannerStep(plan, s, id, Clean), id);
      RunConcat(plan, s, step, rest);
      actions := step + rest;
    }
  }

  lemma SoloIsARun(plan: Plan, s: State, id: nat, awb: string) returns (actions: seq<Action>)
    requires id !in s.scanners
    ensures Run(plan, s, actions) == Solo(plan, s, id, awb)
  {
    var arrive := [Arrive(id, awb)];
    assert arrive[..0] == [];
    assert Run(plan, s, arrive) == Step(plan, s, Arrive(id, awb));
    var rest := FinishIsARun(plan, Step(plan, s, Arrive(id, awb)), id);
    RunConcat(plan, s, arrive, rest);
    actions := arrive + rest;
  }

  /** A statement that does not fail brings its handler nearer to its answer. */
  lemma CleanStep(plan: Plan, s: State, id: nat)
    requires id in s.scanners && !s.scanners[id].pc.Done?
    ensures var t := ScannerStep(plan, s, id, Clean);
      && Rank(t.scanners[id].pc) < Rank(s.scanners[id].pc) && !Died(t.scanners[id].pc)
      && (s.scanners[id].pc.Reading? && s.scanners[id].awb in plan.placed ==>
            s.status.Loaded? || t.scanners[id].pc.Inserting?)
      && (s.scanners[id].pc.Inserting? ==> s.scanners[id].awb in t.rows)
  {
    match s.scanners[id].pc
    case Reading =>
    case Inserting =>
    case Counting =>
    case Marking(_) =>
    case ProbingPallets(_) =>
    case ProbingPieces(_, _) =>
    case Finalising(_) =>
    case Publishing(_) =>
  }

  /**
   A lone handler disturbs no other, keeps the rows, does not die, and leaves its placed AWB stored or the plan loaded.
   */
  lemma {:induction false} FinishEffect(plan: Plan, s: State, id: nat)
    requires id in s.scanners && !Died(s.scanners[id].pc)
    ensures var t := Finish(plan, s, id);
      && t.scanners.Keys == s.scanners.Keys && !Died(t.scanners[id].pc)
      && (forall other :: other in s.scanners && other != id ==> t.scanners[other] == s.scanners[other])
      && (forall awb :: awb in s.rows ==> awb in t.rows)
      && (s.status.Loaded? ==> t.status.Loaded?)
      && ((s.scanners[id].pc.Reading? || s.scanners[id].pc.Inserting?) && s.scanners[id].awb in plan.placed ==>
            t.status.Loaded? || s.scanners[id].awb in t.rows)
    decreases Rank(s.scanners[id].pc)
  {
    hide ScannerStep;
    if s.scanners[id].pc.Done? {
    } else {
      StepTouches(plan, s, id, Clean);
      CleanStep(plan, s, id);
      FinishEffect(plan, ScannerStep(plan, s, id, Clean), id);
    }
  }

  /** A new handler that runs alone leaves everybody quiet and its AWB stored, or the plan loaded. */
  lemma SoloIsQuiet(plan: Plan, s: State, id: nat, awb: string)
    requires Quiet(s) && id !in s.scanners && awb in plan.placed
    ensures var t := Solo(plan, s, id, awb);
      && Quiet(t) && t.scanners.Keys == s.scanners.Keys + {id}
      && (forall other :: other in s.rows ==> other in t.rows)
      && (s.status.Loaded? ==> t.status.Loaded?) && (t.status.Loaded? || awb in t.rows)
  {
    hide Finish, ScannerStep;
    FinishEffect(plan, Step(plan, s, Arrive(id, awb)), id);
  }

  lemma NobodyIsQuiet(yard: ContainerSaves.State)
    ensures Quiet(Initial(yard))
  {
  }

  /** Scanning the first k placed AWBs one after the other. */
  lemma {:induction false} ScanInTurn(plan: Plan, yard: ContainerSaves.State, k: nat) returns (actions: seq<Action>)
    requires k <= |plan.placed|
    ensures var s := Run(plan, Initial(yard), actions);
      && Quiet(s)
      && (forall id :: id in s.scanners ==> id < k)
      && (s.status.Loaded? || forall i :: 0 <= i < k ==> plan.placed[i] in s.rows)
  {
    hide Finish, ScannerStep, OutsideStep, Quiet, Solo;
    if k == 0 {
      NobodyIsQuiet(yard);
      actions := [];
    } else {
      var before := ScanInTurn(plan, yard, k - 1);
      var m := Run(plan, Initial(yard), before);
      var awb := plan.placed[k - 1];
      var scan := SoloIsARun(plan, m, k - 1, awb);
      RunConcat(plan, Initial(yard), before, scan);
      SoloIsQuiet(plan, m, k - 1, awb);
      actions := before + scan;
    }
  }

  /** A plan can be loaded exactly when something is placed and no more pieces are counted than distinct AWBs. */
  lemma LoadableExactly(plan: Plan, yard: ContainerSaves.State)
    ensures (exists actions :: Run(plan, Initial(yard), actions).status.Loaded?)
            <==> plan.placed != [] && plan.pieceCount <= |ToSet(plan.placed)|
  {
    if plan.placed != [] && plan.pieceCount <= |ToSet(plan.placed)| {
      var actions := ScanInTurn(plan, yard, |plan.placed|);
      if !Run(plan, Initial(yard), actions).status.Loaded? {
        NoCompletionLost(plan, yard, actions);
      }
    }
    forall actions | Run(plan, Initial(yard), actions).status.Loaded?
      ensures plan.placed != [] && plan.pieceCount <= |ToSet(plan.placed)|
    {
      RunKeepsInv(plan, Initial(yard), actions);
      var s := Run(plan, Initial(yard), actions);
      assert s.rows[0] in plan.placed;
      if plan.pieceCount > |ToSet(plan.placed)| {
        OvercountedPlanNeverLoads(plan, yard, actions);
      }
    }
  }

  /** Scans load nothing into the container, so a plan confirmed onto a new container loses its event. */
  lemma EmptyContainerLosesTheEvent(later: seq<Action>)
    ensures var plan := Plan(["A"], 1, true);
      var s := Solo(plan, NEW, 0, "A");
      && s.status.Loaded? && s.scanners[0].pc == Done(FinaliseRefused)
      && Run(plan, s, later).events == []
  {
    var plan := Plan(["A"], 1, true);
    var s0 := Step(plan, NEW, Arrive(0, "A"));
    var s1 := ScannerStep(plan, s0, 0, Clean);
    var s2 := ScannerStep(plan, s1, 0, Clean);
    var s3 := ScannerStep(plan, s2, 0, Clean);
    var s4 := ScannerStep(plan, s3, 0, Clean);
    var s5 := ScannerStep(plan, s4, 0, Clean);
    var s6 := ScannerStep(plan, s5, 0, Clean);
    assert s6.scanners[0].pc == Done(FinaliseRefused);
    assert Finish(plan, s5, 0) == s6;
    assert Finish(plan, s4, 0) == s6;
    assert Finish(plan, s3, 0) == s6;
    assert Finish(plan, s2, 0) == s6;
    assert Finish(plan, s0, 0) == s6;
    var run := SoloIsARun(plan, NEW, 0, "A");
    RunKeepsInv(plan, NEW, run);
    MissedEventIsMissedForGood(plan, s6, later);
  }

  /**
   The stored plan, its loadings and its container, with the repository methods and the handler as the program runs
   them.
   */
  class ScanService {
    const plan: Plan
    var status: PlanStatus
    var rows: seq<string>
    var container: Container
    var events: seq<Event>

    constructor (plan: Plan, container: Container)
      ensures this.plan == plan && this.container == container
      ensures forall yard: ContainerSaves.State :: yard.base.container == container ==> Stores(Initial(yard))
    {
      this.plan := plan;
      this.status := Confirmed;
      this.rows := [];
      this.container := container;
      this.events := [];
    }

    ghost predicate Stores(s: State)
      reads this
    {
      status == s.status && rows == s.rows && container == s.container && events == s.events
    }

    method InsertRow(awb: string) returns (inserted: bool)
      modifies this`rows
      ensures inserted <==> awb !in old(rows)
      ensures rows == if inserted then old(rows) + [awb] else old(rows)
    {
      inserted := awb !in rows;
      if inserted {
        rows := rows + [awb];
      }
    }

    method LoadingCount() returns (count: nat)
      ensures count == |rows|
    {
      count := |rows|;
    }

    method MarkLoaded() returns (transitioned: bool)
      modifies this`status
      ensures transitioned <==> old(status).Confirmed?
      ensures status.Loaded?
    {
      transitioned := status.Confirmed?;
      status := Loaded;
    }

    method SealContainer() returns (sealed: bool)
      modifies this`container
      ensures sealed <==> !old(container).Empty() && old(container).status == Planning
      ensures container == if sealed then old(container).(status := Manifested) else old(container)
    {
      var hasPallet := container.pallets != {};
      var hasPiece := container.pieces != {};
      if !hasPallet && !hasPiece {
        return false;
      }
      sealed := container.status == Planning;
      if sealed {
        container := container.(status := Manifested);
      }
    }

    /**
     The handler as one request executes it. Undisturbed, it does what the transition system does for one
     handler; and it publishes exactly when this scan completes the plan onto a container it can seal.
     */
    method Scan(id: nat, awb: string, ghost s: State) returns (response: Response)
      requires Stores(s) && id !in s.scanners
      modifies this`status, this`rows, this`container, this`events
      ensures Stores(Solo(plan, s, id, awb))
      ensures Solo(plan, s, id, awb).scanners[id].pc == Done(response)
      ensures response.PlanNotConfirmed? <==> old(status) != Confirmed
      ensures response.AwbNotInPlan? <==> old(status) == Confirmed && awb !in plan.placed
      ensures response.AlreadyScanned? <==> old(status) == Confirmed && awb in plan.placed && awb in old(rows)
      ensures var stores := old(status) == Confirmed && awb in plan.placed && awb !in old(rows);
        var completes := stores && |old(rows)| + 1 >= plan.pieceCount;
        var seals := completes && plan.linked && old(container).status == Planning && !old(container).Empty();
        && (response.FinaliseRefused? <==> completes && plan.linked && !seals)
        && (response.Scanned? <==> stores && !(completes && plan.linked && !seals))
        && (response.Scanned? ==> response.count == |rows| && response.reported == status)
        && rows == (if stores then old(rows) + [awb] else old(rows))
        && status == (if completes then Loaded else old(status))
        && container == (if seals then old(container).(status := Manifested) else old(container))
        && events == (if seals then old(events) + [PlanLoaded(id, plan.placed)] else old(events))
    {
      ghost var t := Step(plan, s, Arrive(id, awb));
      assert Solo(plan, s, id, awb) == Finish(plan, ScannerStep(plan, t, id, Clean), id);
      if status != Confirmed {
        return PlanNotConfirmed;
      }
      if awb !in plan.placed {
        return AwbNotInPlan;
      }
      t := ScannerStep(plan, t, id, Clean);
      var inserted := InsertRow(awb);
      t := ScannerStep(plan, t, id, Clean);
      assert Solo(plan, s, id, awb) == Finish(plan, t, id);
      if !inserted {
        return AlreadyScanned;
      }
      var count := LoadingCount();
      t := ScannerStep(plan, t, id, Clean);
      assert Solo(plan, s, id, awb) == Finish(plan, t, id);
      if count < plan.pieceCount {
        return Scanned(count, Confirmed);
      }
      response := Complete(id, count, t);
    }

    /** The part of the handler that follows a full count: move the plan to loaded, seal the container, publish. */
    method Complete(id: nat, count: nat, ghost s: State) returns (response: Response)
      requires Stores(s) && id in s.scanners && s.scanners[id].pc == Marking(count)
      modifies this`status, this`container, this`events
      ensures Stores(Finish(plan, s, id))
      ensures Finish(plan, s, id).scanners[id].pc == Done(response)
      ensures var wins := old(status) == Confirmed && plan.linked;
        var seals := wins && old(container).status == Planning && !old(container).Empty();
        && response == (if wins && !seals then FinaliseRefused else Scanned(count, Loaded))
        && status == Loaded
        && container == (if seals then old(container).(status := Manifested) else old(container))
        && events == (if seals then old(events) + [PlanLoaded(id, plan.placed)] else old(events))
    {
      var transitioned := MarkLoaded();
      ghost var t := ScannerStep(plan, s, id, Clean);
      if transitioned && plan.linked {
        assert Finish(plan, s, id) == Finish(plan, t, id);
        t := ScannerStep(plan, t, id, Clean);
        assert Finish(plan, s, id) == Finish(plan, t, id);
        t := ScannerStep(plan, t, id, Clean);
        assert Finish(plan, s, id) == Finish(plan, t, id);
        var sealed := SealContainer();
        t := ScannerStep(plan, t, id, Clean);
        assert Finish(plan, s, id) == Finish(plan, t, id);
        if !sealed {
          return FinaliseRefused;
        }
        t := ScannerStep(plan, t, id, Clean);
        events := events + [PlanLoaded(id, plan.placed)];
        assert Finish(plan, s, id) == Finish(plan, t, id);
      }
      return Scanned(count, Loaded);
    }
  }
}
