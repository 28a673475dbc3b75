/**
 Loading a container statement by statement: any number of load requests run side by side with sealing and departure,
 without a transaction, and any statement may fail before or after taking effect.
 */
module Loadings {
  import opened Outcome
  import opened Seqs
  import opened Containers

  datatype Stage = OnRead | OnProbe | OnInsert | OnName

  datatype Response = Taken | Refused(error: Error) | Broken(stage: Stage, tookEffect: bool)

  /** The statement a request executes next. */
  datatype Pc = Reading | Probing | Inserting | Naming | Done(response: Response)

  datatype Loader = Loader(load: Op, pc: Pc)

  /** `stored` are the loads whose row was inserted; the program keeps the rows, but not which AWBs came with them. */
  datatype State = State(container: Container, loaders: map<nat, Loader>, stored: seq<Op>)

  /** `Manage` is the guarded UPDATE of sealing or departure; rows only grow, so the probes before it stay true. */
  datatype Action = Arrive(id: nat, load: Op) | Advance(id: nat, fault: Fault) | Manage(op: Op)

  const START := State(FRESH, map[], [])

  predicate IsLoad(op: Op) {
    op.LoadPallet? || op.LoadPiece?
  }

  // --- The statements ---

  predicate RowExists(c: Container, load: Op) {
    match load
    case LoadPallet(pallet, _) => pallet in c.pallets
    case LoadPiece(piece, _) => piece in c.pieces
    case _ => false
  }

  /** INSERT into the table of pallets or of loose pieces. */
  function WithRow(c: Container, load: Op): Container {
    match load
    case LoadPallet(pallet, _) => c.(pallets := c.pallets + {pallet})
    case LoadPiece(piece, _) => c.(pieces := c.pieces + {piece})
    case _ => c
  }

  /** UPDATE of the manifest. */
  function WithNames(c: Container, load: Op): Container {
    match load
    case LoadPallet(_, awbs) => c.(masterAwbs := Distinct(c.masterAwbs + awbs))
    case LoadPiece(_, master) => if master in c.masterAwbs then c else c.(masterAwbs := c.masterAwbs + [master])
    case _ => c
  }

  predicate HasNames(load: Op) {
    load.LoadPiece? || (load.LoadPallet? && load.awbs != [])
  }

  function At(s: State, id: nat, pc: Pc): State
    requires id in s.loaders
  {
    s.(loaders := s.loaders[id := s.loaders[id].(pc := pc)])
  }

  function InsertStep(s: State, id: nat, fault: Fault): State
    requires id in s.loaders
  {
    var load := s.loaders[id].load;
    var free := !RowExists(s.container, load);
    var after := if fault.Lost? || !free then s
                 else s.(container := WithRow(s.container, load), stored := s.stored + [load]);
    if !fault.Clean? then At(after, id, Done(Broken(OnInsert, fault.Applied? && free)))
    else if !free then At(after, id, Done(Refused(ConstraintViolation)))
    else if HasNames(load) then At(after, id, Naming)
    else At(after, id, Done(Taken))
  }

  function NameStep(s: State, id: nat, fault: Fault): State
    requires id in s.loaders
  {
    var after := if fault.Lost? then s else s.(container := WithNames(s.container, s.loaders[id].load));
    At(after, id, Done(if fault.Clean? then Taken else Broken(OnName, fault.Applied?)))
  }

  function LoaderStep(s: State, id: nat, fault: Fault): State
    requires id in s.loaders
  {
    match s.loaders[id].pc
    case Reading =>
      if !fault.Clean? then At(s, id, Done(Broken(OnRead, false)))
      else if !Modifiable(s.container.status) then At(s, id, Done(Refused(NotModifiable(s.container.status))))
      else At(s, id, if s.loaders[id].load.LoadPallet? then Probing else Inserting)
    case Probing =>
      if !fault.Clean? then At(s, id, Done(Broken(OnProbe, false)))
      else if RowExists(s.container, s.loaders[id].load) then At(s, id, Done(Refused(AlreadyLoaded)))
      else At(s, id, Inserting)
    case Inserting => InsertStep(s, id, fault)
    case Naming => NameStep(s, id, fault)
    case Done(_) => s
  }

  /** A step that is not enabled leaves the state as it is. */
  function Step(s: State, a: Action): State {
    match a
    case Arrive(id, load) =>
      if id in s.loaders || !IsLoad(load) then s else s.(loaders := s.loaders[id := Loader(load, Reading)])
    case Advance(id, fault) => if id in s.loaders then LoaderStep(s, id, fault) else s
    case Manage(op) => if IsLoad(op) then s else s.(container := Apply(s.container, op))
  }

  function Run(s: State, actions: seq<Action>): State {
    if actions == [] then s else Step(Run(s, actions[..|actions| - 1]), actions[|actions| - 1])
  }

  lemma {:induction false} RunConcat(s: State, a: seq<Action>, b: seq<Action>)
    ensures Run(s, a + b) == Run(Run(s, a), b)
  {
    if b == [] {
      assert a + b == a;
    } else {
      RunConcat(s, a, b[..|b| - 1]);
      assert (a + b)[..|a + b| - 1] == a + b[..|b| - 1];
    }
  }

  lemma RunOne(s: State, a: Action)
    ensures Run(s, [a]) == Step(s, a)
  {
    assert [a][..0] == [];
    assert Run(s, [a][..0]) == s;
  }

  lemma RunThen(s: State, a: Action, later: seq<Action>)
    ensures Run(s, [a] + later) == Run(Step(s, a), later)
  {
    RunConcat(s, [a], later);
    RunOne(s, a);
  }

  lemma RunPush(s: State, actions: seq<Action>, a: Action)
    ensures Run(s, actions + [a]) == Step(Run(s, actions), a)
  {
    assert (actions + [a])[..|actions|] == actions;
  }

  // --- The manifest over every run ---

  /** Inserted the row and still has to name its AWBs, or failed before it could. */
  predicate Short(pc: Pc) {
    || pc.Naming?
    || pc == Done(Broken(OnInsert, true))
    || pc == Done(Broken(OnName, false))
  }

  ghost function Names(c: Container): set<string> {
    ToSet(c.masterAwbs)
  }

  /** The AWBs of every stored load. */
  function CarriedBy(stored: seq<Op>): set<string> {
    if stored == [] then {} else CarriedBy(stored[..|stored| - 1]) + Carried(stored[|stored| - 1])
  }

  lemma CarriedByPush(stored: seq<Op>, load: Op)
    ensures CarriedBy(stored + [load]) == CarriedBy(stored) + Carried(load)
  {
    assert (stored + [load])[..|stored|] == stored;
  }

  /** Some request that stored its row has not named `awb`. */
  ghost predicate Owed(s: State, awb: string) {
    exists id :: id in s.loaders && Short(s.loaders[id].pc) && awb in Carried(s.loaders[id].load)
  }

  ghost predicate LoadersSound(s: State) {
    forall id :: id in s.loaders ==>
      && IsLoad(s.loaders[id].load)
      && (s.loaders[id].pc.Probing? ==> s.loaders[id].load.LoadPallet?)
      && (s.loaders[id].pc.Naming? ==> HasNames(s.loaders[id].load))
      && (Short(s.loaders[id].pc) ==> Carried(s.loaders[id].load) <= CarriedBy(s.stored))
  }

  /** Every stored AWB is named, or owed by a request that stopped, or excused. */
  ghost predicate Tracked(s: State, excused: set<string>) {
    && LoadersSound(s)
    && forall awb :: awb in CarriedBy(s.stored) && awb !in Names(s.container) ==> Owed(s, awb) || awb in excused
  }

  ghost predicate Inv(s: State) {
    && NoDup(s.container.masterAwbs)
    && Names(s.container) <= CarriedBy(s.stored)
    && Tracked(s, {})
    && (s.container.status != Planning ==> !s.container.Empty())
    && s.container.status in {Planning, Manifested, InTransit}
  }

  lemma NamesAfter(c: Container, load: Op)
    ensures Names(WithNames(c, load)) == Names(c) + Carried(load)
    ensures NoDup(c.masterAwbs) ==> NoDup(WithNames(c, load).masterAwbs)
    ensures WithNames(c, load) == c.(masterAwbs := WithNames(c, load).masterAwbs)
  {
    match load
    case LoadPallet(_, awbs) => assert ToSet(c.masterAwbs + awbs) == ToSet(c.masterAwbs) + ToSet(awbs);
    case LoadPiece(_, master) => assert ToSet(c.masterAwbs + [master]) == ToSet(c.masterAwbs) + {master};
    case _ =>
  }

  lemma ManageKeeps(c: Container, op: Op)
    requires !IsLoad(op)
    ensures var after := Apply(c, op); after == c.(status := after.status)
  {
  }

  lemma SameNames(c: Container, d: Container)
    requires c.masterAwbs == d.masterAwbs
    ensures Names(c) == Names(d)
  {
  }

  lemma NamelessCarriesNothing(load: Op)
    requires IsLoad(load) && !HasNames(load)
    ensures Carried(load) == {}
  {
  }

  /** The names a step adds are those of a request at its naming statement. */
  lemma NamesGrow(s: State, a: Action)
    ensures var t := Step(s, a);
      if a.Advance? && a.id in s.loaders && s.loaders[a.id].pc.Naming? && !a.fault.Lost?
      then Names(t.container) == Names(s.container) + Carried(s.loaders[a.id].load)
      else Names(t.container) == Names(s.container)
  {
    hide CarriedBy, Names, Carried, WithNames;
    var t := Step(s, a);
    if a.Manage? && !IsLoad(a.op) {
      ManageKeeps(s.container, a.op);
    }
    if a.Advance? && a.id in s.loaders && s.loaders[a.id].pc.Naming? && !a.fault.Lost? {
      NamesAfter(s.container, s.loaders[a.id].load);
    } else {
      SameNames(s.container, t.container);
    }
  }

  /** A step stores the load of a request at its insert, or nothing. */
  lemma StoredGrows(s: State, a: Action)
    ensures var t := Step(s, a);
      || t.stored == s.stored
      || (&& a.Advance? && a.id in s.loaders && s.loaders[a.id].pc.Inserting?
          && t.stored == s.stored + [s.loaders[a.id].load]
          && CarriedBy(t.stored) == CarriedBy(s.stored) + Carried(s.loaders[a.id].load)
          && (Short(t.loaders[a.id].pc) || !HasNames(s.loaders[a.id].load)))
  {
    hide CarriedBy, Carried, RowExists, WithRow;
    if a.Advance? && a.id in s.loaders {
      CarriedByPush(s.stored, s.loaders[a.id].load);
    }
  }

  lemma StepKeepsLoaders(s: State, a: Action)
    requires LoadersSound(s)
    ensures LoadersSound(Step(s, a))
  {
    hide CarriedBy, Carried, RowExists, WithRow, WithNames, Apply, Modifiable;
    StoredGrows(s, a);
    if a.Advance? && a.id in s.loaders && !HasNames(s.loaders[a.id].load) {
      NamelessCarriesNothing(s.loaders[a.id].load);
    }
  }

  lemma StepKeepsTrack(s: State, a: Action, excused: set<string>)
    requires Tracked(s, excused)
    ensures Tracked(Step(s, a), excused)
  {
    hide CarriedBy, Names, Carried, RowExists, WithRow, WithNames, Apply, Modifiable, LoadersSound;
    var t := Step(s, a);
    StepKeepsLoaders(s, a);
    StoredGrows(s, a);
    NamesGrow(s, a);
    forall awb | awb in CarriedBy(t.stored) && awb !in Names(t.container) && awb !in excused
      ensures Owed(t, awb)
    {
      if awb in CarriedBy(s.stored) {
        var i :| i in s.loaders && Short(s.loaders[i].pc) && awb in Carried(s.loaders[i].load);
        assert t.loaders[i].load == s.loaders[i].load && Short(t.loaders[i].pc);
      } else {
        Inserts(s, a.id);
        assert awb in Carried(t.loaders[a.id].load) && Short(t.loaders[a.id].pc);
      }
    }
  }

  lemma Inserts(s: State, id: nat)
    requires LoadersSound(s) && id in s.loaders
    ensures !HasNames(s.loaders[id].load) ==> Carried(s.loaders[id].load) == {}
  {
  }

  /** What a step leaves as it was, or only adds to. */
  lemma StepKeepsContainer(s: State, a: Action)
    ensures var c, d := s.container, Step(s, a).container;
      && c.pallets <= d.pallets && c.pieces <= d.pieces
      && (NoDup(c.masterAwbs) ==> NoDup(d.masterAwbs))
      && (d.status == c.status
          || (c.status == Planning && d.status == Manifested && !c.Empty())
          || (c.status in {Manifested, Sealed} && d.status == InTransit))
  {
    hide CarriedBy, Names, Carried, WithNames;
    if a.Advance? && a.id in s.loaders {
      NamesAfter(s.container, s.loaders[a.id].load);
    }
  }

  lemma StepKeepsInv(s: State, a: Action)
    requires Inv(s)
    ensures Inv(Step(s, a))
  {
    hide CarriedBy, Names, Carried, Step, Tracked;
    InvParts(s);
    StepKeepsTrack(s, a, {});
    StepKeepsContainer(s, a);
    NamesGrow(s, a);
    StoredGrows(s, a);
  }

  lemma InvParts(s: State)
    requires Inv(s)
    ensures LoadersSound(s)
    ensures forall id :: id in s.loaders && s.loaders[id].pc.Naming? ==>
      Carried(s.loaders[id].load) <= CarriedBy(s.stored)
  {
  }

  lemma {:induction false} RunKeepsInv(s: State, actions: seq<Action>)
    requires Inv(s)
    ensures Inv(Run(s, actions))
  {
    hide Inv, Step;
    if actions == [] {
    } else {
      RunKeepsInv(s, actions[..|actions| - 1]);
      StepKeepsInv(Run(s, actions[..|actions| - 1]), actions[|actions| - 1]);
    }
  }

  lemma StartIsSound()
    ensures Inv(START)
  {
  }

  /**
   In every interleaving of loads, sealing and departure with failing statements, the manifest repeats nothing, names
   only AWBs of stored loads, and names all of them if and only if every AWB of a request that stopped between its
   insert and its update, or is still there, was named by another.
   */
  lemma ManifestNamesExactly(actions: seq<Action>)
    ensures var s := Run(START, actions);
      && NoDup(s.container.masterAwbs)
      && Names(s.container) <= CarriedBy(s.stored)
      && (Names(s.container) == CarriedBy(s.stored) <==>
          forall id :: id in s.loaders && Short(s.loaders[id].pc) ==> Carried(s.loaders[id].load) <= Names(s.container))
  {
    StartIsSound();
    RunKeepsInv(START, actions);
    var s := Run(START, actions);
    if forall id :: id in s.loaders && Short(s.loaders[id].pc) ==> Carried(s.loaders[id].load) <= Names(s.container) {
      forall awb | awb in CarriedBy(s.stored)
        ensures awb in Names(s.container)
      {
        if Owed(s, awb) {
          var id :| id in s.loaders && Short(s.loaders[id].pc) && awb in Carried(s.loaders[id].load);
          assert Carried(s.loaders[id].load) <= Names(s.container);
        }
      }
    }
  }

  function PalletsOf(stored: seq<Op>): set<nat> {
    if stored == [] then {} else
      PalletsOf(stored[..|stored| - 1]) +
      match stored[|stored| - 1]
      case LoadPallet(pallet, _) => {pallet}
      case _ => {}
  }

  function PiecesOf(stored: seq<Op>): set<string> {
    if stored == [] then {} else
      PiecesOf(stored[..|stored| - 1]) +
      match stored[|stored| - 1]
      case LoadPiece(piece, _) => {piece}
      case _ => {}
  }

  /** The rows are those of the stored loads. */
  predicate RowsMatch(s: State) {
    s.container.pallets == PalletsOf(s.stored) && s.container.pieces == PiecesOf(s.stored)
  }

  lemma RowsMatchPush(c: Container, stored: seq<Op>, load: Op)
    requires c.pallets == PalletsOf(stored) && c.pieces == PiecesOf(stored)
    ensures WithRow(c, load).pallets == PalletsOf(stored + [load])
    ensures WithRow(c, load).pieces == PiecesOf(stored + [load])
  {
    assert (stored + [load])[..|stored|] == stored;
  }

  lemma StepKeepsRowsMatched(s: State, a: Action)
    requires RowsMatch(s)
    ensures RowsMatch(Step(s, a))
  {
    hide PalletsOf, PiecesOf, WithNames, WithRow, RowExists, HasNames;
    if a.Manage? && !IsLoad(a.op) {
      ManageKeeps(s.container, a.op);
    } else if a.Advance? && a.id in s.loaders {
      RowsMatchPush(s.container, s.stored, s.loaders[a.id].load);
      NamesAfter(s.container, s.loaders[a.id].load);
    }
  }

  /** In every run the rows are exactly those of the stored loads. */
  lemma {:induction false} RowsAreStored(actions: seq<Action>)
    ensures RowsMatch(Run(START, actions))
  {
    hide Step;
    if actions == [] {
    } else {
      RowsAreStored(actions[..|actions| - 1]);
      StepKeepsRowsMatched(Run(START, actions[..|actions| - 1]), actions[|actions| - 1]);
    }
  }

  // --- What a request is answered ---

  /** When the next statement of a request ends it with this answer. */
  predicate Justified(s: State, id: nat, fault: Fault, r: Response)
    requires id in s.loaders
  {
    var pc, taken := s.loaders[id].pc, RowExists(s.container, s.loaders[id].load);
    match r
    case Refused(NotModifiable(status)) =>
      && pc.Reading? && fault.Clean? && status == s.container.status
      && status in {InTransit, Delivered, Customs, Released}
    case Refused(AlreadyLoaded) => pc.Probing? && fault.Clean? && taken
    case Refused(ConstraintViolation) => pc.Inserting? && fault.Clean? && taken
    case Refused(_) => false
    case Taken =>
      && fault.Clean?
      && (|| pc.Naming?
          || (pc.Inserting? && !taken && s.loaders[id].load.LoadPallet? && s.loaders[id].load.awbs == []))
    case Broken(stage, tookEffect) =>
      && !fault.Clean?
      && (match stage
          case OnRead => pc.Reading?
          case OnProbe => pc.Probing?
          case OnInsert => pc.Inserting?
          case OnName => pc.Naming?)
      && (tookEffect <==> fault.Applied? && (pc.Naming? || (pc.Inserting? && !taken)))
  }

  /** Each answer is given exactly when it is justified. */
  lemma AnswerExactly(s: State, id: nat, fault: Fault, r: Response)
    requires LoadersSound(s) && id in s.loaders && !s.loaders[id].pc.Done?
    ensures LoaderStep(s, id, fault).loaders[id].pc == Done(r) <==> Justified(s, id, fault, r)
  {
    hide RowExists, WithRow, WithNames, CarriedBy, Carried;
    match s.loaders[id].pc
    case Reading =>
    case Probing =>
    case Inserting =>
    case Naming =>
  }

  /** Which statement follows otherwise, and what each changes in the container. */
  lemma StatementExactly(s: State, id: nat, fault: Fault)
    requires LoadersSound(s) && id in s.loaders && !s.loaders[id].pc.Done?
    ensures var t := LoaderStep(s, id, fault); var pc, load := s.loaders[id].pc, s.loaders[id].load;
      && t.loaders.Keys == s.loaders.Keys
      && (forall other :: other in s.loaders && other != id ==> t.loaders[other] == s.loaders[other])
      && t.loaders[id].load == load
      && (t.loaders[id].pc.Probing? ==> pc.Reading? && load.LoadPallet?)
      && (t.loaders[id].pc.Inserting? ==> if load.LoadPallet? then pc.Probing? else pc.Reading?)
      && (t.loaders[id].pc.Naming? ==> pc.Inserting?) && !t.loaders[id].pc.Reading?
      && t.container.status == s.container.status
      && t.container.pallets ==
         (if pc.Inserting? && load.LoadPallet? && !fault.Lost? then s.container.pallets + {load.pallet}
          else s.container.pallets)
      && t.container.pieces ==
         (if pc.Inserting? && load.LoadPiece? && !fault.Lost? then s.container.pieces + {load.piece}
          else s.container.pieces)
      && Names(t.container) ==
         (if pc.Naming? && !fault.Lost? then Names(s.container) + Carried(load) else Names(s.container))
  {
    hide CarriedBy, Carried, Names, WithNames, Modifiable;
    NamesAfter(s.container, s.loaders[id].load);
    match s.loaders[id].pc
    case Reading =>
    case Probing =>
    case Inserting => SameNames(s.container, LoaderStep(s, id, fault).container);
    case Naming =>
  }

  // --- What a stopped request costs ---

  /** The request can still get `awb` into the manifest, without a failure and without anybody else. */
  predicate CanStillName(s: State, id: nat, awb: string)
    requires id in s.loaders
  {
    var loader := s.loaders[id];
    && awb in Carried(loader.load)
    && match loader.pc
       case Naming => true
       case Inserting => !RowExists(s.container, loader.load)
       case Probing => !RowExists(s.container, loader.load)
       case Reading => !RowExists(s.container, loader.load) && Modifiable(s.container.status)
       case Done(_) => false
  }

  ghost predicate SomebodyNames(s: State, awb: string) {
    exists id :: id in s.loaders && CanStillName(s, id, awb)
  }

  /** Whoever arrives with `awb` tries again to load what is loaded already. */
  predicate RetriesOnly(s: State, later: seq<Action>, awb: string) {
    forall i :: 0 <= i < |later| && later[i].Arrive? && awb in Carried(later[i].load) ==>
      RowExists(s.container, later[i].load)
  }

  ghost predicate Unnamed(s: State, awb: string) {
    Inv(s) && awb !in Names(s.container) && !SomebodyNames(s, awb)
  }

  lemma RowsStay(c: Container, load: Op, other: Op)
    requires RowExists(c, other)
    ensures RowExists(WithRow(c, load), other) && RowExists(WithNames(c, load), other)
  {
  }

  /** Rows are never deleted, and a closed container is never opened again. */
  lemma StepKeepsRows(s: State, a: Action, other: Op)
    requires s.container.status in {Planning, Manifested, InTransit}
    ensures RowExists(s.container, other) ==> RowExists(Step(s, a).container, other)
    ensures Modifiable(Step(s, a).container.status) ==> Modifiable(s.container.status)
  {
    hide WithRow, WithNames, RowExists;
    if a.Manage? && !IsLoad(a.op) {
      ManageKeepsRows(s.container, a.op, other);
    } else if a.Advance? && a.id in s.loaders && RowExists(s.container, other) {
      RowsStay(s.container, s.loaders[a.id].load, other);
    }
    StatusAfter(s, a);
  }

  lemma ManageKeepsRows(c: Container, op: Op, other: Op)
    requires !IsLoad(op)
    ensures RowExists(Apply(c, op), other) == RowExists(c, other)
  {
  }

  lemma StatusAfter(s: State, a: Action)
    ensures Step(s, a).container.status == s.container.status || (a.Manage? && !IsLoad(a.op))
  {
  }

  /** Nobody gets on the way to name `awb` by a step. */
  lemma NobodyStarts(s: State, a: Action, awb: string, id: nat)
    requires Unnamed(s, awb) && id in Step(s, a).loaders
    requires a.Arrive? && awb in Carried(a.load) ==> RowExists(s.container, a.load)
    ensures !CanStillName(Step(s, a), id, awb)
  {
    hide CarriedBy, Names, Carried, WithNames, WithRow, RowExists, Modifiable, Apply;
    var t := Step(s, a);
    StepKeepsRows(s, a, t.loaders[id].load);
    if id in s.loaders {
      assert !CanStillName(s, id, awb);
    }
  }

  lemma UnnamedStep(s: State, a: Action, awb: string)
    requires Unnamed(s, awb)
    requires a.Arrive? && awb in Carried(a.load) ==> RowExists(s.container, a.load)
    ensures Unnamed(Step(s, a), awb)
  {
    hide CarriedBy, Names, Carried, WithNames, WithRow, RowExists, Step, LoadersSound;
    StepKeepsInv(s, a);
    NamesGrow(s, a);
    forall id | id in Step(s, a).loaders
      ensures !CanStillName(Step(s, a), id, awb)
    {
      NobodyStarts(s, a, awb, id);
    }
    if a.Advance? && a.id in s.loaders {
      assert !CanStillName(s, a.id, awb);
    }
  }

  lemma {:induction false} RunKeepsRows(s: State, actions: seq<Action>, other: Op)
    requires Inv(s) && RowExists(s.container, other)
    ensures RowExists(Run(s, actions).container, other)
  {
    hide RowExists, Step;
    if actions == [] {
    } else {
      RunKeepsRows(s, actions[..|actions| - 1], other);
      RunKeepsInv(s, actions[..|actions| - 1]);
      StepKeepsRows(Run(s, actions[..|actions| - 1]), actions[|actions| - 1], other);
    }
  }

  lemma {:induction false} UnnamedForGood(s: State, later: seq<Action>, awb: string)
    requires Unnamed(s, awb) && RetriesOnly(s, later, awb)
    ensures Unnamed(Run(s, later), awb)
  {
    hide Step, Unnamed, RowExists, Carried;
    if later == [] {
    } else {
      var front, last := later[..|later| - 1], later[|later| - 1];
      assert forall i :: 0 <= i < |front| ==> front[i] == later[i];
      UnnamedForGood(s, front, awb);
      if last.Arrive? && awb in Carried(last.load) {
        UnnamedIsSound(s, awb);
        RunKeepsRows(s, front, last.load);
      }
      UnnamedStep(Run(s, front), last, awb);
    }
  }

  lemma UnnamedIsSound(s: State, awb: string)
    requires Unnamed(s, awb)
    ensures Inv(s)
  {
  }

  /** A request that can still name its AWB does so when left alone. */
  lemma {:induction false} NamesWhenAlone(s: State, id: nat, awb: string) returns (later: seq<Action>)
    requires Inv(s) && id in s.loaders && CanStillName(s, id, awb)
    ensures awb in Names(Run(s, later).container) && forall i :: 0 <= i < |later| ==> later[i].Advance?
    decreases match s.loaders[id].pc case Reading => 4 case Probing => 3 case Inserting => 2 case _ => 1
  {
    hide CarriedBy, Names, WithNames;
    var step := Advance(id, Clean);
    var t := Step(s, step);
    NamesGrow(s, step);
    if s.loaders[id].pc.Naming? {
      RunOne(s, step);
      later := [step];
    } else {
      StepKeepsInv(s, step);
      var rest := NamesWhenAlone(t, id, awb);
      RunThen(s, step, rest);
      later := [step] + rest;
    }
  }

  /**
   An AWB missing from the manifest can still be named, by others than new loads that carry it, if and only if some
   request that carries it is on its way: past its insert, or before it with the row still free. A retry never helps,
   as it is refused for the row that exists.
   */
  lemma NamedLaterExactly(s: State, awb: string)
    requires Inv(s) && awb !in Names(s.container)
    ensures (exists later :: RetriesOnly(s, later, awb) && awb in Names(Run(s, later).container)) <==>
            SomebodyNames(s, awb)
  {
    if SomebodyNames(s, awb) {
      var id :| id in s.loaders && CanStillName(s, id, awb);
      var later := NamesWhenAlone(s, id, awb);
      assert RetriesOnly(s, later, awb);
    } else {
      forall later | RetriesOnly(s, later, awb)
        ensures awb !in Names(Run(s, later).container)
      {
        UnnamedForGood(s, later, awb);
      }
    }
  }

  /** A run in which a failed update leaves a loaded pallet out of the manifest, whatever is retried. */
  lemma FailedUpdateHidesPallet(later: seq<Action>)
    ensures var load := LoadPallet(1, ["A"]);
      var start := [] + [Arrive(0, load)] + [Advance(0, Clean)] + [Advance(0, Clean)] + [Advance(0, Clean)]
        + [Advance(0, Lost)];
      var s := Run(START, start);
      && s.container.pallets == {1} && s.stored == [load]
      && (RetriesOnly(s, later, "A") ==> "A" !in Names(Run(s, later).container))
  {
    hide Run, RetriesOnly, CarriedBy;
    var load := LoadPallet(1, ["A"]);
    var a1 := [] + [Arrive(0, load)];
    var a2 := a1 + [Advance(0, Clean)];
    var a3 := a2 + [Advance(0, Clean)];
    var a4 := a3 + [Advance(0, Clean)];
    NothingRun(START);
    RunPush(START, [], Arrive(0, load));
    RunPush(START, a1, Advance(0, Clean));
    RunPush(START, a2, Advance(0, Clean));
    RunPush(START, a3, Advance(0, Clean));
    RunPush(START, a4, Advance(0, Lost));
    var s := Run(START, a4 + [Advance(0, Lost)]);
    StartIsSound();
    RunKeepsInv(START, a4 + [Advance(0, Lost)]);
    if RetriesOnly(s, later, "A") {
      UnnamedForGood(s, later, "A");
    }
  }

  lemma NothingRun(s: State)
    ensures Run(s, []) == s
  {
  }

  // --- After departure ---

  /** What is loaded and named; the order of the manifest is the database's. */
  ghost function Held(c: Container): (set<nat>, set<string>, set<string>) {
    (c.pallets, c.pieces, Names(c))
  }

  ghost function Contents(c: Container): (Status, (set<nat>, set<string>, set<string>)) {
    (c.status, Held(c))
  }

  /** The request passed its checks and has something left to change. */
  ghost predicate InFlight(s: State, id: nat)
    requires id in s.loaders
  {
    var loader := s.loaders[id];
    match loader.pc
    case Probing => !RowExists(s.container, loader.load)
    case Inserting => !RowExists(s.container, loader.load)
    case Naming => !(Carried(loader.load) <= Names(s.container))
    case _ => false
  }

  ghost predicate Landed(s: State) {
    !Modifiable(s.container.status) && forall id :: id in s.loaders ==> !InFlight(s, id)
  }

  lemma LandedContents(s: State, a: Action)
    requires Landed(s)
    ensures Contents(Step(s, a).container) == Contents(s.container)
  {
    hide CarriedBy, Names, WithNames, WithRow;
    NamesGrow(s, a);
    if a.Advance? && a.id in s.loaders {
      assert !InFlight(s, a.id);
      if s.loaders[a.id].pc.Naming? {
        NamesAfter(s.container, s.loaders[a.id].load);
        assert Names(s.container) + Carried(s.loaders[a.id].load) == Names(s.container);
      }
    }
  }

  lemma LandedStep(s: State, a: Action)
    requires Landed(s)
    ensures Landed(Step(s, a)) && Contents(Step(s, a).container) == Contents(s.container)
  {
    hide CarriedBy, Names, WithNames, WithRow, Carried, RowExists;
    var t := Step(s, a);
    LandedContents(s, a);
    SameRows(s.container, t.container);
    forall id | id in t.loaders
      ensures !InFlight(t, id)
    {
      if id in s.loaders {
        assert !InFlight(s, id);
      }
    }
  }

  lemma SameRows(c: Container, d: Container)
    requires c.pallets == d.pallets && c.pieces == d.pieces
    ensures forall load :: RowExists(c, load) == RowExists(d, load)
  {
  }

  lemma {:induction false} LandedForGood(s: State, later: seq<Action>)
    requires Landed(s)
    ensures Landed(Run(s, later)) && Contents(Run(s, later).container) == Contents(s.container)
  {
    hide Landed, Step, Contents;
    if later == [] {
    } else {
      LandedForGood(s, later[..|later| - 1]);
      LandedStep(Run(s, later[..|later| - 1]), later[|later| - 1]);
    }
  }

  lemma FlightLands(s: State, id: nat) returns (later: seq<Action>)
    requires LoadersSound(s) && id in s.loaders && InFlight(s, id)
    ensures Held(Run(s, later).container) != Held(s.container)
  {
    hide CarriedBy, Names, WithNames;
    var step := Advance(id, Clean);
    RunOne(s, step);
    NamesGrow(s, step);
    later := [step];
    if s.loaders[id].pc.Probing? {
      later := [step] + [step];
      RunThen(s, step, [step]);
      RunOne(Step(s, step), step);
    }
  }

  /**
   A departed container can still change if and only if some request passed its status check before the departure and
   has not yet inserted a free row, or not yet named an AWB that is missing.
   */
  lemma DepartedChangesExactly(s: State)
    requires Inv(s) && s.container.status == InTransit
    ensures (exists later :: Contents(Run(s, later).container) != Contents(s.container)) <==>
            exists id :: id in s.loaders && InFlight(s, id)
  {
    if exists id :: id in s.loaders && InFlight(s, id) {
      var id :| id in s.loaders && InFlight(s, id);
      var later := FlightLands(s, id);
    } else {
      forall later
        ensures Contents(Run(s, later).container) == Contents(s.container)
      {
        LandedForGood(s, later);
      }
    }
  }

  /** A container with a pallet in it is sealed. */
  lemma SealedRun() returns (actions: seq<Action>)
    ensures Run(START, actions) ==
            State(
              Container(Manifested, {1}, {}, []),
              map[0 := Loader(LoadPallet(1, []), Done(Taken))],
              [LoadPallet(1, [])])
  {
    hide Run;
    var one := LoadPallet(1, []);
    var a1 := [] + [Arrive(0, one)];
    var a2 := a1 + [Advance(0, Clean)];
    var a3 := a2 + [Advance(0, Clean)];
    var a4 := a3 + [Advance(0, Clean)];
    NothingRun(START);
    RunPush(START, [], Arrive(0, one));
    RunPush(START, a1, Advance(0, Clean));
    RunPush(START, a2, Advance(0, Clean));
    RunPush(START, a3, Advance(0, Clean));
    RunPush(START, a4, Manage(Seal));
    actions := a4 + [Manage(Seal)];
  }

  /** A run in which a pallet is loaded into a container that has departed. */
  lemma DepartedStillLoads() returns (departed: seq<Action>)
    ensures Run(START, departed).container.status == InTransit && 2 !in Run(START, departed).container.pallets
    ensures 2 in Run(START, departed + [Advance(1, Clean)]).container.pallets
  {
    hide Run;
    var a5 := SealedRun();
    var a6 := a5 + [Arrive(1, LoadPallet(2, []))];
    var a7 := a6 + [Advance(1, Clean)];
    var a8 := a7 + [Advance(1, Clean)];
    departed := a8 + [Manage(Depart)];
    RunPush(START, a5, Arrive(1, LoadPallet(2, [])));
    RunPush(START, a6, Advance(1, Clean));
    RunPush(START, a7, Advance(1, Clean));
    RunPush(START, a8, Manage(Depart));
    RunPush(START, departed, Advance(1, Clean));
  }

  // --- One request by itself ---

  /** How the statements of one request end; loading a piece has no probe. */
  datatype Faults = Faults(read: Fault, probe: Fault, insert: Fault, name: Fault)

  const NO_FAULTS := Faults(Clean, Clean, Clean, Clean)

  datatype Executed = Executed(container: Container, response: Response)

  /** `admitted` says that the tables besides this container's let the row in. */
  function Execute(c: Container, load: Op, admitted: bool, faults: Faults): Executed {
    if !faults.read.Clean? then Executed(c, Broken(OnRead, false))
    else if !Modifiable(c.status) then Executed(c, Refused(NotModifiable(c.status)))
    else if load.LoadPallet? && !faults.probe.Clean? then Executed(c, Broken(OnProbe, false))
    else if load.LoadPallet? && RowExists(c, load) then Executed(c, Refused(AlreadyLoaded))
    else if RowExists(c, load) || !admitted then
      Executed(c, if faults.insert.Clean? then Refused(ConstraintViolation) else Broken(OnInsert, false))
    else if faults.insert.Lost? then Executed(c, Broken(OnInsert, false))
    else if faults.insert.Applied? then Executed(WithRow(c, load), Broken(OnInsert, true))
    else if !HasNames(load) then Executed(WithRow(c, load), Taken)
    else if faults.name.Lost? then Executed(WithRow(c, load), Broken(OnName, false))
    else Executed(WithNames(WithRow(c, load), load), if faults.name.Clean? then Taken else Broken(OnName, true))
  }

  function Solo(id: nat, load: Op, faults: Faults): seq<Action> {
    [Arrive(id, load)] + [Advance(id, faults.read)]
    + (if load.LoadPallet? then [Advance(id, faults.probe)] else [])
    + [Advance(id, faults.insert)] + [Advance(id, faults.name)]
  }

  /** A request whose statements run without another in between does what one execution says. */
  lemma SoloIsExecution(s: State, id: nat, load: Op, faults: Faults)
    requires id !in s.loaders && IsLoad(load)
    ensures var t := Run(s, Solo(id, load, faults)); var e := Execute(s.container, load, true, faults);
      t.container == e.container && id in t.loaders && t.loaders[id] == Loader(load, Done(e.response))
  {
    hide Run, WithRow, WithNames, RowExists, HasNames, Modifiable;
    var a1 := [Arrive(id, load)];
    var a2 := a1 + [Advance(id, faults.read)];
    var a3 := a2 + (if load.LoadPallet? then [Advance(id, faults.probe)] else []);
    RunOne(s, Arrive(id, load));
    RunPush(s, a1, Advance(id, faults.read));
    if load.LoadPallet? {
      RunPush(s, a2, Advance(id, faults.probe));
    } else {
      assert a3 == a2;
    }
    RunPush(s, a3, Advance(id, faults.insert));
    RunPush(s, a3 + [Advance(id, faults.insert)], Advance(id, faults.name));
  }

  /** Without failures that is the operation as the serial model has it, and the answer says so. */
  lemma CleanIsApply(c: Container, load: Op)
    requires IsLoad(load)
    ensures var e := Execute(c, load, true, NO_FAULTS);
      e.container == Apply(c, load) && (e.response.Taken? <==> Attempt(c, load).Ok?)
  {
    match load
    case LoadPallet(_, awbs) =>
    case LoadPiece(_, master) =>
  }

  /** The answer tells the truth about a load that succeeded; an error leaves the row behind exactly when it says so. */
  lemma AnswerIsTrue(c: Container, load: Op, admitted: bool, faults: Faults)
    requires IsLoad(load) && !RowExists(c, load)
    ensures var e := Execute(c, load, admitted, faults);
      && (!admitted ==> e.container == c && !e.response.Taken?)
      && (e.response.Taken? ==> RowExists(e.container, load) && Carried(load) <= Names(e.container))
      && (RowExists(e.container, load) <==>
          e.response.Taken? || e.response == Broken(OnInsert, true) ||
          (e.response.Broken? && e.response.stage.OnName?))
  {
    NamesAfter(WithRow(c, load), load);
    if !HasNames(load) {
      NamelessCarriesNothing(load);
    }
    RowsStay(WithRow(c, load), load, load);
  }

  /** `PgContainerRepository`: the `containers` table with its two loading tables. */
  class ContainerRepository {
    var rows: map<nat, Container>
    const knownPallets: set<nat>

    /**
     A piece is loose in at most one container, only known pallets are loaded, no manifest repeats an AWB,
     and no container is past planning without having been loaded.
     */
    ghost predicate Valid()
      reads this
    {
      && (forall id :: id in rows ==>
            && NoDup(rows[id].masterAwbs)
            && rows[id].pallets <= knownPallets
            && (rows[id].status != Planning ==> !rows[id].Empty()))
      && (forall i, j, piece :: i in rows && j in rows && piece in rows[i].pieces && piece in rows[j].pieces ==> i == j)
    }

    constructor (knownPallets: set<nat>)
      ensures Valid() && rows == map[] && this.knownPallets == knownPallets
    {
      this.knownPallets := knownPallets;
      rows := map[];
    }

    /** A pallet must be known, and a piece loose nowhere. */
    predicate Admitted(load: Op)
      reads this
    {
      match load
      case LoadPallet(pallet, _) => pallet in knownPallets
      case LoadPiece(piece, _) => forall id :: id in rows ==> piece !in rows[id].pieces
      case _ => false
    }

    method Create(id: nat) returns (r: Result<(), Error>)
      requires Valid()
      modifies this
      ensures Valid()
      ensures r.Ok? <==> id !in old(rows)
      ensures r.Err? ==> r.error == ConstraintViolation
      ensures rows == if r.Ok? then old(rows)[id := FRESH] else old(rows)
    {
      if id in rows {
        return Err(ConstraintViolation);
      }
      rows := rows[id := FRESH];
      return Ok(());
    }

    /** The INSERT; `r` is None when the request goes on. */
    method InsertRow(id: nat, load: Op, fault: Fault) returns (r: Option<Response>)
      requires Valid() && id in rows && IsLoad(load)
      modifies this`rows
      ensures Valid()
      ensures var free := old(Admitted(load)) && !RowExists(old(rows)[id], load);
        && rows == (if free && !fault.Lost? then old(rows)[id := WithRow(old(rows)[id], load)] else old(rows))
        && r == if !fault.Clean? then Some(Broken(OnInsert, fault.Applied? && free))
                else if !free then Some(Refused(ConstraintViolation)) else None
    {
      var free := Admitted(load) && !RowExists(rows[id], load);
      if free && !fault.Lost? {
        rows := rows[id := WithRow(rows[id], load)];
      }
      if !fault.Clean? {
        return Some(Broken(OnInsert, fault.Applied? && free));
      }
      return if free then None else Some(Refused(ConstraintViolation));
    }

    /** The UPDATE of the manifest. */
    method NameAwbs(id: nat, load: Op, fault: Fault) returns (r: Response)
      requires Valid() && id in rows && IsLoad(load)
      modifies this`rows
      ensures Valid()
      ensures rows == if fault.Lost? then old(rows) else old(rows)[id := WithNames(old(rows)[id], load)]
      ensures r == if fault.Clean? then Taken else Broken(OnName, fault.Applied?)
    {
      if !fault.Lost? {
        NamesAfter(rows[id], load);
        rows := rows[id := WithNames(rows[id], load)];
      }
      return if fault.Clean? then Taken else Broken(OnName, fault.Applied?);
    }

    method LoadPallet(id: nat, pallet: nat, masterAwbs: seq<string>, faults: Faults) returns (r: Response)
      requires Valid()
      modifies this`rows
      ensures Valid()
      ensures id !in old(rows) ==>
                rows == old(rows) && r == if faults.read.Clean? then Refused(NotFound) else Broken(OnRead, false)
      ensures id in old(rows) ==>
                var load := Op.LoadPallet(pallet, masterAwbs);
                var e := Execute(old(rows)[id], load, old(Admitted(load)), faults);
                r == e.response && rows == old(rows)[id := e.container]
      ensures id in old(rows) && faults == NO_FAULTS ==>
                var status := old(rows)[id].status;
                r == if status in {InTransit, Delivered, Customs, Released} then Refused(NotModifiable(status))
                     else if pallet in old(rows)[id].pallets then Refused(AlreadyLoaded)
                     else if pallet !in knownPallets then Refused(ConstraintViolation)
                     else Taken
    {
      hide WithNames, WithRow;
      ghost var start := rows;
      var load := Op.LoadPallet(pallet, masterAwbs);
      if id in rows {
        assert start == start[id := start[id]];
      }
      if !faults.read.Clean? {
        return Broken(OnRead, false);
      }
      if id !in rows {
        return Refused(NotFound);
      }
      if !Modifiable(rows[id].status) {
        return Refused(NotModifiable(rows[id].status));
      }
      if !faults.probe.Clean? {
        return Broken(OnProbe, false);
      }
      if pallet in rows[id].pallets {
        return Refused(AlreadyLoaded);
      }
      var inserted := InsertRow(id, load, faults.insert);
      if inserted.Some? {
        return inserted.value;
      }
      if masterAwbs == [] {
        return Taken;
      }
      r := NameAwbs(id, load, faults.name);
    }

    method LoadLoosePiece(id: nat, piece: string, masterAwb: string, faults: Faults) returns (r: Response)
      requires Valid()
      modifies this`rows
      ensures Valid()
      ensures id !in old(rows) ==>
                rows == old(rows) && r == if faults.read.Clean? then Refused(NotFound) else Broken(OnRead, false)
      ensures id in old(rows) ==>
                var load := LoadPiece(piece, masterAwb);
                var e := Execute(old(rows)[id], load, old(Admitted(load)), faults);
                r == e.response && rows == old(rows)[id := e.container]
    {
      hide WithNames, WithRow;
      ghost var start := rows;
      var load := LoadPiece(piece, masterAwb);
      if id in rows {
        assert start == start[id := start[id]];
      }
      if !faults.read.Clean? {
        return Broken(OnRead, false);
      }
      if id !in rows {
        return Refused(NotFound);
      }
      if !Modifiable(rows[id].status) {
        return Refused(NotModifiable(rows[id].status));
      }
      var inserted := InsertRow(id, load, faults.insert);
      if inserted.Some? {
        return inserted.value;
      }
      r := NameAwbs(id, load, faults.name);
    }

    method Finalise(id: nat) returns (r: Result<(), Error>)
      requires Valid()
      modifies this
      ensures Valid()
      ensures r.Ok? <==> id in old(rows) && old(rows)[id].status == Planning && !old(rows)[id].Empty()
      ensures r.Err? ==> r.error == if id !in old(rows) || old(rows)[id].Empty() then NothingLoaded else WrongStatus
      ensures rows == if r.Ok? then old(rows)[id := old(rows)[id].(status := Manifested)] else old(rows)
    {
      var hasPallet := id in rows && rows[id].pallets != {};
      var hasPiece := id in rows && rows[id].pieces != {};
      if !hasPallet && !hasPiece {
        return Err(NothingLoaded);
      }
      if rows[id].status != Planning {
        return Err(WrongStatus);
      }
      rows := rows[id := rows[id].(status := Manifested)];
      return Ok(());
    }

    method MarkDeparted(id: nat) returns (r: Result<(), Error>)
      requires Valid()
      modifies this
      ensures Valid()
      ensures r.Ok? <==> id in old(rows) && old(rows)[id].status in {Manifested, Sealed}
      ensures r.Err? ==> r.error == WrongStatus
      ensures rows == if r.Ok? then old(rows)[id := old(rows)[id].(status := InTransit)] else old(rows)
    {
      if id !in rows || rows[id].status !in {Manifested, Sealed} {
        return Err(WrongStatus);
      }
      rows := rows[id := rows[id].(status := InTransit)];
      return Ok(());
    }
  }
}
