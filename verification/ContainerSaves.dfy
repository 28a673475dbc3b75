/**
 The routes that read a whole container, change it in memory and save the whole row back: loading a sealed pallet, and
 every step after departure. They run beside the guarded statements of the container routes, and nothing locks the row
 between the read and the save.
 */
module ContainerSaves {
  import opened Outcome
  import opened Seqs
  import opened Containers
  import Awbs
  import Loadings
  import Pieces

  datatype Edit = LoadSealed(pallet: nat, awbs: seq<string>) | Move(to: Status)

  /** The statement a request executes next, with what it has read or is about to write. */
  datatype Stage =
    | Reading
    | Listing(status: Status, names: seq<string>)
    | Writing(status: Status, names: seq<string>)
    | Linking
    | Over(ok: bool)

  datatype Request = Request(edit: Edit, stage: Stage)

  /** `announced` are the AWBs that came with saves and `erased` those saves dropped; the program keeps neither. */
  datatype State = State(
    road: bool,
    base: Loadings.State,
    requests: map<nat, Request>,
    announced: set<string>,
    erased: set<string>)

  datatype Action =
    | Other(action: Loadings.Action)
    | Submit(id: nat, edit: Edit)
    | Advance(id: nat, fault: Fault)

  function Start(road: bool): State {
    State(road, Loadings.START, map[], {}, {})
  }

  // --- The container in memory ---

  /** The AWBs among some texts, as the parser spells them; other texts are dropped. */
  function Parsed(texts: seq<string>): seq<string> {
    if texts == [] then [] else
      Parsed(texts[..|texts| - 1]) +
      match Awbs.Parse(texts[|texts| - 1])
      case Ok(awb) => [awb.text]
      case Err(_) => []
  }

  /** Adds what is not there yet. */
  function Extend(names: seq<string>, more: seq<string>): seq<string> {
    if more == [] then names else
      var front, last := Extend(names, more[..|more| - 1]), more[|more| - 1];
      if last in front then front else front + [last]
  }

  /** The guard of the container in memory refuses six statuses, two more than the container routes do. */
  predicate Mutable(status: Status) {
    status in {Planning, Manifested, Loading, Sealed}
  }

  lemma MutableExactly(status: Status)
    ensures Mutable(status) <==>
            status !in {InTransit, ArrivedAtPort, Customs, Released, Deconsolidated, Delivered}
  {
    match status
    case Planning =>
    case Manifested =>
    case Loading =>
    case Sealed =>
    case InTransit =>
    case ArrivedAtPort =>
    case Customs =>
    case Released =>
    case Deconsolidated =>
    case Delivered =>
  }

  predicate CanMove(road: bool, from: Status, to: Status) {
    || (from == InTransit && to == Delivered)
    || (from == InTransit && to == ArrivedAtPort && !road)
    || (from == ArrivedAtPort && to == Customs)
    || (from == Customs && to == Released)
    || (from == InTransit && to == Released && road)
    || (from == Released && to == Deconsolidated)
  }

  predicate Permitted(road: bool, edit: Edit, status: Status, pallets: set<nat>) {
    match edit
    case LoadSealed(pallet, _) => Mutable(status) && pallet !in pallets
    case Move(to) => CanMove(road, status, to)
  }

  function StatusAfter(edit: Edit, status: Status): Status {
    match edit
    case LoadSealed(_, _) => status
    case Move(to) => to
  }

  function NamesAfter(edit: Edit, names: seq<string>): seq<string> {
    match edit
    case LoadSealed(_, awbs) => Extend(names, Parsed(awbs))
    case Move(_) => names
  }

  ghost function Brought(edit: Edit): set<string> {
    match edit
    case LoadSealed(_, awbs) => ToSet(Parsed(awbs))
    case Move(_) => {}
  }

  /** A loose piece whose text is no piece label makes every read of the container fail. */
  ghost predicate Readable(c: Container) {
    forall piece :: piece in c.pieces ==> Pieces.ParseChild(piece).Ok?
  }

  // --- The statements ---

  function At(s: State, id: nat, stage: Stage): State
    requires id in s.requests
  {
    s.(requests := s.requests[id := s.requests[id].(stage := stage)])
  }

  ghost function Saved(s: State, edit: Edit, status: Status, names: seq<string>): State {
    var c := s.base.container;
    s.(base := s.base.(container := c.(status := status, masterAwbs := names)),
       announced := s.announced + Brought(edit),
       erased := s.erased + (Loadings.Names(c) - ToSet(names)))
  }

  /** INSERT ... ON CONFLICT DO NOTHING; the links that were read exist already. */
  function Linked(s: State, edit: Edit): State {
    match edit
    case LoadSealed(pallet, awbs) =>
      if pallet in s.base.container.pallets then s else
        var load := LoadPallet(pallet, Parsed(awbs));
        s.(base := s.base.(container := Loadings.WithRow(s.base.container, load), stored := s.base.stored + [load]))
    case Move(_) => s
  }

  ghost function RequestStep(s: State, id: nat, fault: Fault): (t: State)
    requires id in s.requests
    ensures id in t.requests
  {
    var edit, c := s.requests[id].edit, s.base.container;
    match s.requests[id].stage
    case Reading => At(s, id, if fault.Clean? then Listing(c.status, Parsed(c.masterAwbs)) else Over(false))
    case Listing(status, names) =>
      if fault.Clean? && Readable(c) && Permitted(s.road, edit, status, c.pallets)
      then At(s, id, Writing(StatusAfter(edit, status), NamesAfter(edit, names)))
      else At(s, id, Over(false))
    case Writing(status, names) =>
      var after := if fault.Lost? then s else Saved(s, edit, status, names);
      At(after, id, if fault.Clean? then Linking else Over(false))
    case Linking =>
      var after := if fault.Lost? then s else Linked(s, edit);
      At(after, id, Over(fault.Clean?))
    case Over(_) => s
  }

  /** A step that is not enabled leaves the state as it is. */
  ghost function Step(s: State, a: Action): State {
    match a
    case Other(action) => s.(base := Loadings.Step(s.base, action))
    case Submit(id, edit) => if id in s.requests then s else s.(requests := s.requests[id := Request(edit, Reading)])
    case Advance(id, fault) => if id in s.requests then RequestStep(s, id, fault) else s
  }

  ghost function Run(s: State, actions: seq<Action>): State {
    if actions == [] then s else Step(Run(s, actions[..|actions| - 1]), actions[|actions| - 1])
  }

  lemma RunPush(s: State, actions: seq<Action>, a: Action)
    ensures Run(s, actions + [a]) == Step(Run(s, actions), a)
  {
    assert (actions + [a])[..|actions|] == actions;
  }

  lemma NothingRun(s: State)
    ensures Run(s, []) == s
  {
  }

  lemma {:induction false} RunConcat(s: State, a: seq<Action>, b: seq<Action>)
    ensures Run(s, a + b) == Run(Run(s, a), b)
  {
    hide Step;
    if b == [] {
      assert a + b == a;
    } else {
      RunConcat(s, a, b[..|b| - 1]);
      assert (a + b)[..|a + b| - 1] == a + b[..|b| - 1];
    }
  }

  // --- Spelling ---

  predicate Canonical(awb: string) {
    Awbs.Parse(awb) == Ok(Awbs.Awb(awb))
  }

  lemma ParsedIsCanonical(text: string)
    requires Awbs.Parse(text).Ok?
    ensures Canonical(Awbs.Parse(text).value.text)
  {
    hide Awbs.Parse, Awbs.WellFormed;
    var awb := Awbs.Parse(text).value;
    assert awb == Awbs.Awb(awb.text);
    Awbs.ParseAcceptsExactly(text, awb.text);
    Awbs.BothFormsParse(awb.text);
  }

  /** What parsing leaves of some texts. */
  lemma {:induction false} ParsedHolds(texts: seq<string>)
    ensures forall x :: x in texts && Canonical(x) ==> x in Parsed(texts)
    ensures forall awb :: awb in Parsed(texts) ==>
      Canonical(awb) && exists x :: x in texts && Awbs.Parse(x) == Ok(Awbs.Awb(awb))
  {
    hide Awbs.Parse;
    if texts == [] {
    } else {
      var front, last := texts[..|texts| - 1], texts[|texts| - 1];
      assert texts == front + [last];
      ParsedHolds(front);
      if Awbs.Parse(last).Ok? {
        ParsedIsCanonical(last);
        assert Awbs.Parse(last) == Ok(Awbs.Awb(Awbs.Parse(last).value.text));
      }
    }
  }

  lemma {:induction false} ExtendHolds(names: seq<string>, more: seq<string>)
    ensures ToSet(Extend(names, more)) == ToSet(names) + ToSet(more)
    ensures names <= Extend(names, more)
    ensures NoDup(names) ==> NoDup(Extend(names, more))
  {
    if more == [] {
    } else {
      var front, last := more[..|more| - 1], more[|more| - 1];
      ExtendHolds(names, front);
      assert more == front + [last];
      assert ToSet(more) == ToSet(front) + {last};
      assert ToSet(Extend(names, front) + [last]) == ToSet(Extend(names, front)) + {last};
    }
  }

  lemma NamesAfterHolds(edit: Edit, names: seq<string>)
    ensures ToSet(NamesAfter(edit, names)) == ToSet(names) + Brought(edit)
  {
    if edit.LoadSealed? {
      ExtendHolds(names, Parsed(edit.awbs));
    }
  }

  // --- The manifest over every run ---

  /** The text is among those, or is how the parser spells one of them. */
  ghost predicate Spelled(awb: string, among: set<string>) {
    awb in among || exists x :: x in among && Awbs.Parse(x) == Ok(Awbs.Awb(awb))
  }

  ghost predicate AllSpelled(names: seq<string>, among: set<string>) {
    forall awb :: awb in names ==> Spelled(awb, among)
  }

  ghost predicate AllCanonical(names: seq<string>) {
    forall awb :: awb in names ==> Canonical(awb)
  }

  /** Every AWB that came with a load or a save. */
  ghost function Known(s: State): set<string> {
    Loadings.CarriedBy(s.base.stored) + s.announced
  }

  ghost predicate RequestSound(s: State, id: nat)
    requires id in s.requests
  {
    var edit, c := s.requests[id].edit, s.base.container;
    match s.requests[id].stage
    case Listing(status, names) =>
      AllCanonical(names) && AllSpelled(names, Known(s)) && (status != Planning ==> !c.Empty())
    case Writing(status, names) =>
      && AllCanonical(names) && AllSpelled(names, Known(s) + Brought(edit)) && Brought(edit) <= ToSet(names)
      && (status != Planning ==> !c.Empty())
      && (edit.LoadSealed? ==> Mutable(status))
    case Linking => Brought(edit) <= Loadings.Names(c) + s.erased
    case _ => true
  }

  ghost predicate Inv(s: State) {
    && Loadings.Tracked(s.base, s.erased)
    && AllSpelled(s.base.container.masterAwbs, Known(s))
    && (forall id :: id in s.requests ==> RequestSound(s, id))
    && (s.base.container.status != Planning ==> !s.base.container.Empty())
  }

  lemma SpelledMore(names: seq<string>, among: set<string>, more: set<string>)
    requires AllSpelled(names, among) && among <= more
    ensures AllSpelled(names, more)
  {
    hide Awbs.Parse;
    forall awb | awb in names
      ensures Spelled(awb, more)
    {
      assert Spelled(awb, among);
    }
  }

  /** Parsing what is spelled from some texts gives what is spelled from them. */
  lemma ParsedSpelled(names: seq<string>, among: set<string>)
    requires AllSpelled(names, among)
    ensures AllSpelled(Parsed(names), among) && AllCanonical(Parsed(names))
  {
    hide Awbs.Parse, Parsed;
    ParsedHolds(names);
    forall awb | awb in Parsed(names)
      ensures Spelled(awb, among)
    {
      var x :| x in names && Awbs.Parse(x) == Ok(Awbs.Awb(awb));
      assert Spelled(x, among);
      if x !in among {
        var y :| y in among && Awbs.Parse(y) == Ok(Awbs.Awb(x));
        ParsedIsCanonical(y);
        assert Awbs.Parse(x) == Ok(Awbs.Awb(x));
      }
    }
  }

  lemma BroughtIsCanonical(edit: Edit)
    ensures forall awb :: awb in Brought(edit) ==> Canonical(awb)
  {
    hide Parsed, Canonical;
    if edit.LoadSealed? {
      ParsedHolds(edit.awbs);
    }
  }

  /** What a request relies on stays while more becomes known and nothing is forgotten. */
  lemma SoundStays(s: State, t: State, id: nat)
    requires id in s.requests && id in t.requests && t.requests[id] == s.requests[id] && RequestSound(s, id)
    requires Known(s) <= Known(t)
    requires Loadings.Names(s.base.container) + s.erased <= Loadings.Names(t.base.container) + t.erased
    requires t.base.container.Empty() ==> s.base.container.Empty()
    ensures RequestSound(t, id)
  {
    hide Known, Loadings.Names, Brought, AllSpelled, AllCanonical;
    match s.requests[id].stage
    case Listing(_, names) => SpelledMore(names, Known(s), Known(t));
    case Writing(_, names) =>
      SpelledMore(names, Known(s) + Brought(s.requests[id].edit), Known(t) + Brought(s.requests[id].edit));
    case _ =>
  }

  lemma OtherKeepsInv(s: State, action: Loadings.Action)
    requires Inv(s)
    ensures Inv(s.(base := Loadings.Step(s.base, action)))
  {
    hide Spelled, Loadings.Step, Loadings.CarriedBy, Brought, AllCanonical, RequestSound;
    var t := s.(base := Loadings.Step(s.base, action));
    Loadings.StepKeepsTrack(s.base, action, s.erased);
    Loadings.StepKeepsContainer(s.base, action);
    Loadings.StoredGrows(s.base, action);
    Loadings.NamesGrow(s.base, action);
    SpelledMore(s.base.container.masterAwbs, Known(s), Known(t));
    forall awb | awb in t.base.container.masterAwbs
      ensures Spelled(awb, Known(t))
    {
      assert awb in Loadings.Names(t.base.container);
      if awb !in Loadings.Names(s.base.container) {
        IsSpelled(awb, Known(t));
      }
    }
    forall id | id in t.requests
      ensures RequestSound(t, id)
    {
      SoundStays(s, t, id);
    }
  }

  lemma IsSpelled(awb: string, among: set<string>)
    requires awb in among
    ensures Spelled(awb, among)
  {
  }

  lemma ReadKeepsInv(s: State, id: nat)
    requires Inv(s) && id in s.requests
    ensures var c := s.base.container; Inv(At(s, id, Listing(c.status, Parsed(c.masterAwbs))))
  {
    hide Loadings.Tracked, Spelled, Parsed, RequestSound, Loadings.CarriedBy, Loadings.Names;
    var c := s.base.container;
    var t := At(s, id, Listing(c.status, Parsed(c.masterAwbs)));
    ParsedSpelled(c.masterAwbs, Known(s));
    ListedIsSound(t, id);
    forall other | other in t.requests && other != id
      ensures RequestSound(t, other)
    {
      SoundStays(s, t, other);
    }
  }

  lemma ListedIsSound(t: State, id: nat)
    requires id in t.requests && t.requests[id].stage.Listing?
    requires var stage := t.requests[id].stage;
      && AllCanonical(stage.names) && AllSpelled(stage.names, Known(t))
      && (stage.status != Planning ==> !t.base.container.Empty())
    ensures RequestSound(t, id)
  {
  }

  /** The edit of what was read, once it is permitted. */
  lemma ListKeepsInv(s: State, id: nat)
    requires Inv(s) && id in s.requests && s.requests[id].stage.Listing?
    requires Permitted(s.road, s.requests[id].edit, s.requests[id].stage.status, s.base.container.pallets)
    ensures var edit, stage := s.requests[id].edit, s.requests[id].stage;
      Inv(At(s, id, Writing(StatusAfter(edit, stage.status), NamesAfter(edit, stage.names))))
  {
    hide Loadings.Tracked, Spelled, Parsed, Loadings.CarriedBy, Loadings.Names, Brought, NamesAfter, Canonical;
    var edit, stage := s.requests[id].edit, s.requests[id].stage;
    var t := At(s, id, Writing(StatusAfter(edit, stage.status), NamesAfter(edit, stage.names)));
    assert RequestSound(s, id);
    NamesAfterHolds(edit, stage.names);
    BroughtIsCanonical(edit);
    SpelledMore(stage.names, Known(s), Known(s) + Brought(edit));
    forall awb | awb in NamesAfter(edit, stage.names)
      ensures Canonical(awb) && Spelled(awb, Known(t) + Brought(edit))
    {
      assert awb in ToSet(NamesAfter(edit, stage.names));
      if awb in Brought(edit) {
        IsSpelled(awb, Known(t) + Brought(edit));
      } else {
        assert awb in ToSet(stage.names);
      }
    }
    forall other | other in t.requests && other != id
      ensures RequestSound(t, other)
    {
      SoundStays(s, t, other);
    }
  }

  lemma SaveKeepsTrack(s: State, edit: Edit, status: Status, names: seq<string>)
    requires Loadings.Tracked(s.base, s.erased)
    ensures var t := Saved(s, edit, status, names); Loadings.Tracked(t.base, t.erased)
  {
    hide Loadings.CarriedBy, Carried;
    var t := Saved(s, edit, status, names);
    forall awb | awb in Loadings.CarriedBy(t.base.stored) && awb !in Loadings.Names(t.base.container)
      ensures Loadings.Owed(t.base, awb) || awb in t.erased
    {
      assert Loadings.Names(t.base.container) == ToSet(names);
      if awb !in Loadings.Names(s.base.container) && awb !in s.erased {
        assert Loadings.Owed(s.base, awb);
      }
    }
  }

  lemma SaveKeepsInv(s: State, id: nat, after: Stage)
    requires Inv(s) && id in s.requests && s.requests[id].stage.Writing? && (after.Linking? || after.Over?)
    ensures var edit, stage := s.requests[id].edit, s.requests[id].stage;
      Inv(At(Saved(s, edit, stage.status, stage.names), id, after))
  {
    hide Loadings.Tracked, Spelled, Loadings.CarriedBy, Brought, AllCanonical;
    var edit, stage := s.requests[id].edit, s.requests[id].stage;
    var t := At(Saved(s, edit, stage.status, stage.names), id, after);
    assert RequestSound(s, id);
    SaveKeepsTrack(s, edit, stage.status, stage.names);
    assert Known(t) == Known(s) + Brought(edit);
    assert Loadings.Names(t.base.container) == ToSet(stage.names);
    forall other | other in t.requests && other != id
      ensures RequestSound(t, other)
    {
      SoundStays(s, t, other);
    }
  }

  lemma LinkKeepsTrack(s: State, edit: Edit)
    requires Loadings.Tracked(s.base, s.erased) && Brought(edit) <= Loadings.Names(s.base.container) + s.erased
    ensures var t := Linked(s, edit);
      && Loadings.Tracked(t.base, t.erased) && Known(s) <= Known(t)
      && t.base.container.masterAwbs == s.base.container.masterAwbs
  {
    hide Loadings.CarriedBy, Parsed;
    var t := Linked(s, edit);
    if edit.LoadSealed? {
      var load := LoadPallet(edit.pallet, Parsed(edit.awbs));
      Loadings.CarriedByPush(s.base.stored, load);
      assert Carried(load) == Brought(edit);
      forall awb | awb in Loadings.CarriedBy(t.base.stored) && awb !in Loadings.Names(t.base.container)
        ensures Loadings.Owed(t.base, awb) || awb in t.erased
      {
        Loadings.SameNames(s.base.container, t.base.container);
        if awb in Loadings.CarriedBy(s.base.stored) && awb !in s.erased {
          assert Loadings.Owed(s.base, awb);
        }
      }
    }
  }

  lemma LinkKeepsInv(s: State, id: nat, after: Stage)
    requires Inv(s) && id in s.requests && s.requests[id].stage.Linking? && after.Over?
    ensures Inv(At(Linked(s, s.requests[id].edit), id, after))
  {
    hide Loadings.Tracked, Spelled, Loadings.CarriedBy, Brought, AllCanonical, Parsed;
    var edit := s.requests[id].edit;
    var t := At(Linked(s, edit), id, after);
    assert RequestSound(s, id);
    LinkKeepsTrack(s, edit);
    SpelledMore(s.base.container.masterAwbs, Known(s), Known(t));
    Loadings.SameNames(s.base.container, t.base.container);
    forall other | other in t.requests && other != id
      ensures RequestSound(t, other)
    {
      SoundStays(s, t, other);
    }
  }

  lemma OverKeepsInv(s: State, id: nat, after: Stage)
    requires Inv(s) && id in s.requests && (after.Over? || (after.Linking? && s.requests[id].stage.Linking?))
    ensures Inv(At(s, id, after))
  {
    hide Loadings.Tracked, Spelled, Loadings.CarriedBy, Brought, AllCanonical, Loadings.Names;
    var t := At(s, id, after);
    forall other | other in t.requests && other != id
      ensures RequestSound(t, other)
    {
      SoundStays(s, t, other);
    }
  }

  lemma RequestKeepsInv(s: State, id: nat, fault: Fault)
    requires Inv(s) && id in s.requests
    ensures Inv(RequestStep(s, id, fault))
  {
    hide Inv, Parsed, NamesAfter, StatusAfter, Readable, Permitted, Saved, Linked;
    match s.requests[id].stage
    case Reading =>
      ReadKeepsInv(s, id);
      OverKeepsInv(s, id, Over(false));
    case Listing(_, _) =>
      OverKeepsInv(s, id, Over(false));
      if Permitted(s.road, s.requests[id].edit, s.requests[id].stage.status, s.base.container.pallets) {
        ListKeepsInv(s, id);
      }
    case Writing(_, _) =>
      if fault.Lost? {
        OverKeepsInv(s, id, Over(false));
      } else {
        SaveKeepsInv(s, id, if fault.Clean? then Linking else Over(false));
      }
    case Linking =>
      if fault.Lost? {
        OverKeepsInv(s, id, Over(false));
      } else {
        LinkKeepsInv(s, id, Over(fault.Clean?));
      }
    case Over(_) =>
  }

  lemma SubmitKeepsInv(s: State, id: nat, edit: Edit)
    requires Inv(s) && id !in s.requests
    ensures Inv(s.(requests := s.requests[id := Request(edit, Reading)]))
  {
    hide Loadings.Tracked, Spelled, Loadings.CarriedBy, Brought, AllCanonical, Loadings.Names;
    var t := s.(requests := s.requests[id := Request(edit, Reading)]);
    forall other | other in t.requests && other != id
      ensures RequestSound(t, other)
    {
      SoundStays(s, t, other);
    }
  }

  lemma StepKeepsInv(s: State, a: Action)
    requires Inv(s)
    ensures Inv(Step(s, a))
  {
    hide Inv, RequestStep;
    match a
    case Other(action) => OtherKeepsInv(s, action);
    case Submit(id, edit) =>
      if id !in s.requests {
        SubmitKeepsInv(s, id, edit);
      }
    case Advance(id, fault) =>
      if id in s.requests {
        RequestKeepsInv(s, id, fault);
      }
  }

  lemma {:induction false} RunKeepsInv(s: State, actions: seq<Action>)
    requires Inv(s)
    ensures Inv(Run(s, actions))
  {
    hide Inv, Step;
    if actions == [] {
    } else {
      RunKeepsInv(s, actions[..|actions| - 1]);
      StepKeepsInv(Run(s, actions[..|actions| - 1]), actions[|actions| - 1]);
    }
  }

  lemma StartIsSound(road: bool)
    ensures Inv(Start(road))
  {
  }

  /**
   With the saves of whole rows among the writers: every name came with a load or a save, up to its spelling; the
   manifest names all stored AWBs if and only if those of every request that stopped between insert and update, and
   those that a save has erased, are named again; and a container past planning is not empty.
   */
  lemma ManifestWithSavesExactly(road: bool, actions: seq<Action>)
    ensures var s := Run(Start(road), actions);
      var c, loaders, stored := s.base.container, s.base.loaders, Loadings.CarriedBy(s.base.stored);
      && AllSpelled(c.masterAwbs, Known(s))
      && (stored <= Loadings.Names(c) <==>
            && (forall id :: id in loaders && Loadings.Short(loaders[id].pc) ==>
                  Carried(loaders[id].load) <= Loadings.Names(c))
            && s.erased * stored <= Loadings.Names(c))
      && (c.status != Planning ==> !c.Empty())
  {
    hide Run, Spelled, RequestSound, Loadings.CarriedBy, Carried;
    StartIsSound(road);
    RunKeepsInv(Start(road), actions);
    var s := Run(Start(road), actions);
    var c, loaders, stored := s.base.container, s.base.loaders, Loadings.CarriedBy(s.base.stored);
    forall awb | awb in stored && awb !in Loadings.Names(c) && awb !in s.erased
      ensures exists id :: id in loaders && Loadings.Short(loaders[id].pc) && awb in Carried(loaders[id].load)
    {
      assert Loadings.Owed(s.base, awb);
    }
  }

  lemma StepKeepsRowsMatched(s: State, a: Action)
    requires Loadings.RowsMatch(s.base)
    ensures Loadings.RowsMatch(Step(s, a).base)
  {
    hide Loadings.PalletsOf, Loadings.PiecesOf, Loadings.Step, Loadings.WithRow;
    hide Parsed, NamesAfter, Readable, Permitted;
    if a.Other? {
      Loadings.StepKeepsRowsMatched(s.base, a.action);
    } else if a.Advance? && a.id in s.requests && s.requests[a.id].edit.LoadSealed? {
      var edit := s.requests[a.id].edit;
      Loadings.RowsMatchPush(s.base.container, s.base.stored, LoadPallet(edit.pallet, Parsed(edit.awbs)));
    }
  }

  /** In every run the rows are exactly those of the stored loads. */
  lemma {:induction false} RowsAreStored(road: bool, actions: seq<Action>)
    ensures Loadings.RowsMatch(Run(Start(road), actions).base)
  {
    hide Step;
    if actions == [] {
    } else {
      RowsAreStored(road, actions[..|actions| - 1]);
      StepKeepsRowsMatched(Run(Start(road), actions[..|actions| - 1]), actions[|actions| - 1]);
    }
  }

  // --- When a name can be lost ---

  /** The request is past its read, will get through its checks, and writes names without `awb`. */
  ghost predicate Drops(s: State, id: nat, awb: string)
    requires id in s.requests
  {
    var edit, c := s.requests[id].edit, s.base.container;
    match s.requests[id].stage
    case Listing(status, names) =>
      Readable(c) && Permitted(s.road, edit, status, c.pallets) && awb !in NamesAfter(edit, names)
    case Writing(_, names) => awb !in names
    case _ => false
  }

  ghost predicate SomebodyDrops(s: State, awb: string) {
    exists id :: id in s.requests && Drops(s, id, awb)
  }

  /** Some edit is permitted in this status. */
  predicate Open(status: Status) {
    status !in {Delivered, Deconsolidated}
  }

  ghost predicate Kept(s: State, awb: string) {
    && Inv(s) && awb in Loadings.Names(s.base.container) && !SomebodyDrops(s, awb)
    && (Canonical(awb) || !Readable(s.base.container) || !Open(s.base.container.status))
  }

  lemma FewerReads(s: Loadings.State, action: Loadings.Action)
    ensures var c, d := s.container, Loadings.Step(s, action).container;
      && (Readable(d) ==> Readable(c)) && c.pallets <= d.pallets
      && (Open(d.status) <==> Open(c.status))
      && Loadings.Names(c) <= Loadings.Names(d)
  {
    hide Loadings.CarriedBy, Loadings.Names, Loadings.Step, Pieces.ParseChild;
    Loadings.StepKeepsContainer(s, action);
    Loadings.NamesGrow(s, action);
  }

  /** What a request that drops nothing writes still names `awb`. */
  lemma KeptName(s: State, id: nat, fault: Fault, awb: string)
    requires Kept(s, awb) && id in s.requests
    ensures awb in Loadings.Names(RequestStep(s, id, fault).base.container)
  {
    hide Inv, RequestStep, Readable, NamesAfter, Canonical;
    assert !Drops(s, id, awb);
    RequestTouches(s, id, fault);
    if s.requests[id].stage.Writing? {
      assert awb in ToSet(s.requests[id].stage.names);
    }
  }

  lemma KeptStage(s: State, id: nat, fault: Fault, awb: string)
    requires Kept(s, awb) && id in s.requests
    ensures !Drops(RequestStep(s, id, fault), id, awb)
  {
    hide Inv, Parsed, Readable, NamesAfter, Canonical, Permitted, StatusAfter, Saved, Linked, Open;
    assert !Drops(s, id, awb);
    var edit, c := s.requests[id].edit, s.base.container;
    if s.requests[id].stage.Reading? {
      ReadKeepsName(edit, c, s.road, awb);
    }
  }

  lemma ReadKeepsName(edit: Edit, c: Container, road: bool, awb: string)
    requires awb in c.masterAwbs
    ensures Canonical(awb) ==> awb in NamesAfter(edit, Parsed(c.masterAwbs))
    ensures Permitted(road, edit, c.status, c.pallets) ==> Open(c.status)
  {
    hide Parsed, NamesAfter, Canonical, Brought;
    ParsedHolds(c.masterAwbs);
    NamesAfterHolds(edit, Parsed(c.masterAwbs));
    if Canonical(awb) {
      assert awb in ToSet(NamesAfter(edit, Parsed(c.masterAwbs)));
    }
  }

  lemma OtherRequests(s: State, t: State, id: nat, awb: string)
    requires id in s.requests && id in t.requests && t.requests[id] == s.requests[id] && !Drops(s, id, awb)
    requires t.road == s.road
    requires Readable(t.base.container) ==> Readable(s.base.container)
    requires s.base.container.pallets <= t.base.container.pallets
    ensures !Drops(t, id, awb)
  {
    hide Readable, NamesAfter;
  }

  /** The pieces and pallets after a step of a request, and where its status may come from. */
  lemma RequestTouches(s: State, id: nat, fault: Fault)
    requires id in s.requests
    ensures var t := RequestStep(s, id, fault); var c, d := s.base.container, t.base.container;
      && t.road == s.road && t.requests.Keys == s.requests.Keys
      && (forall other :: other in s.requests && other != id ==> t.requests[other] == s.requests[other])
      && t.requests[id].edit == s.requests[id].edit
      && d.pieces == c.pieces && c.pallets <= d.pallets && t.base.loaders == s.base.loaders
      && (!s.requests[id].stage.Writing? ==> d.status == c.status && d.masterAwbs == c.masterAwbs)
      && (s.requests[id].stage.Writing? ==>
            || (d.status == c.status && d.masterAwbs == c.masterAwbs)
            || (d.status == s.requests[id].stage.status && d.masterAwbs == s.requests[id].stage.names))
      && (!s.requests[id].stage.Linking? ==> d.pallets == c.pallets)
  {
    hide Parsed, NamesAfter, Readable, Permitted;
  }

  lemma KeptRequestStep(s: State, id: nat, fault: Fault, awb: string)
    requires Kept(s, awb) && id in s.requests
    ensures Kept(RequestStep(s, id, fault), awb)
  {
    hide Inv, RequestStep, Drops, Canonical, Open;
    var t := RequestStep(s, id, fault);
    RequestKeepsInv(s, id, fault);
    KeptStage(s, id, fault, awb);
    KeptName(s, id, fault, awb);
    RequestTouches(s, id, fault);
    forall other | other in t.requests
      ensures !Drops(t, other, awb)
    {
      if other != id {
        assert !Drops(s, other, awb);
        OtherRequests(s, t, other, awb);
      }
    }
    if !Canonical(awb) && s.requests[id].stage.Writing? {
      WritingIsCanonical(s, id);
      WritingDrops(s, id, awb);
    }
  }

  lemma WritingIsCanonical(s: State, id: nat)
    requires Inv(s) && id in s.requests && s.requests[id].stage.Writing?
    ensures AllCanonical(s.requests[id].stage.names)
  {
    assert RequestSound(s, id);
  }

  lemma WritingDrops(s: State, id: nat, awb: string)
    requires id in s.requests && s.requests[id].stage.Writing? && AllCanonical(s.requests[id].stage.names)
    requires !Canonical(awb)
    ensures Drops(s, id, awb)
  {
  }

  lemma KeptStep(s: State, a: Action, awb: string)
    requires Kept(s, awb)
    ensures Kept(Step(s, a), awb)
  {
    hide Inv, RequestStep, Drops, Canonical, Readable, Loadings.Step, Loadings.Names, Open;
    var t := Step(s, a);
    StepKeepsInv(s, a);
    if a.Advance? {
      var id, fault := a.id, a.fault;
      if id in s.requests {
        KeptRequestStep(s, id, fault, awb);
      }
    } else {
      if a.Other? {
        FewerReads(s.base, a.action);
      }
      forall id | id in t.requests
        ensures !Drops(t, id, awb)
      {
        if id in s.requests {
          assert !Drops(s, id, awb);
          OtherRequests(s, t, id, awb);
        } else {
          NewDropsNothing(t, id, awb);
        }
      }
    }
  }

  lemma NewDropsNothing(s: State, id: nat, awb: string)
    requires id in s.requests && s.requests[id].stage.Reading?
    ensures !Drops(s, id, awb)
  {
  }

  lemma {:induction false} KeptForGood(s: State, later: seq<Action>, awb: string)
    requires Kept(s, awb)
    ensures Kept(Run(s, later), awb)
  {
    hide Kept, Step;
    if later == [] {
    } else {
      KeptForGood(s, later[..|later| - 1], awb);
      KeptStep(Run(s, later[..|later| - 1]), later[|later| - 1], awb);
    }
  }

  /** A request that is past its read and gets through its checks writes what it is about to write. */
  lemma Writes(s: State, id: nat) returns (later: seq<Action>)
    requires id in s.requests
    requires var edit, stage := s.requests[id].edit, s.requests[id].stage;
      stage.Writing? || (stage.Listing? && Readable(s.base.container)
                         && Permitted(s.road, edit, stage.status, s.base.container.pallets))
    ensures var edit, stage, c := s.requests[id].edit, s.requests[id].stage, s.base.container;
      var t := Run(s, later); var d := t.base.container;
      && d.pallets == c.pallets && d.pieces == c.pieces && t.base.loaders == s.base.loaders && t.road == s.road
      && t.requests.Keys == s.requests.Keys
      && d.status == (if stage.Writing? then stage.status else StatusAfter(edit, stage.status))
      && d.masterAwbs == (if stage.Writing? then stage.names else NamesAfter(edit, stage.names))
  {
    hide Readable, NamesAfter, Run;
    var step := Advance(id, Clean);
    NothingRun(s);
    later := [] + [step];
    RunPush(s, [], step);
    if s.requests[id].stage.Listing? {
      RunPush(s, later, step);
      later := later + [step];
    }
  }

  /** A new request by itself reads the container as it is and writes it back with its edit. */
  lemma WritesAlone(s: State, edit: Edit) returns (later: seq<Action>)
    requires Readable(s.base.container)
    requires Permitted(s.road, edit, s.base.container.status, s.base.container.pallets)
    ensures var c, t := s.base.container, Run(s, later); var d := t.base.container;
      && d.pallets == c.pallets && d.pieces == c.pieces && t.base.loaders == s.base.loaders && t.road == s.road
      && d.status == StatusAfter(edit, c.status)
      && d.masterAwbs == NamesAfter(edit, Parsed(c.masterAwbs))
  {
    hide Readable, NamesAfter, Run, Parsed;
    var id := FreshNat(s.requests.Keys);
    var submit, step := Submit(id, edit), Advance(id, Clean);
    NothingRun(s);
    RunPush(s, [], submit);
    RunPush(s, [] + [submit], step);
    var start := [] + [submit] + [step];
    var rest := Writes(Run(s, start), id);
    RunConcat(s, start, rest);
    later := start + rest;
  }

  lemma SomeEdit(road: bool, c: Container) returns (edit: Edit)
    requires Open(c.status)
    ensures Permitted(road, edit, c.status, c.pallets) && Brought(edit) == {}
  {
    if Mutable(c.status) {
      var pallet := FreshNat(c.pallets);
      edit := LoadSealed(pallet, []);
    } else {
      edit := Move(match c.status
                   case InTransit => Delivered
                   case ArrivedAtPort => Customs
                   case Customs => Released
                   case _ => Deconsolidated);
    }
  }

  /**
   A name that stands in the manifest can be lost if and only if some request that has read the container without it
   is still to write; or the name is not spelled as the parser spells it, and the container can still be read and
   edited at all, since every save drops or respells such a name.
   */
  lemma NameLostExactly(s: State, awb: string)
    requires Inv(s) && awb in Loadings.Names(s.base.container)
    ensures (exists later :: awb !in Loadings.Names(Run(s, later).base.container)) <==>
            || SomebodyDrops(s, awb)
            || (!Canonical(awb) && Readable(s.base.container) && Open(s.base.container.status))
  {
    hide Inv, Run, Readable, Canonical, Open, NamesAfter, Parsed;
    if SomebodyDrops(s, awb) {
      var id :| id in s.requests && Drops(s, id, awb);
      var later := Writes(s, id);
    } else if !Canonical(awb) && Readable(s.base.container) && Open(s.base.container.status) {
      var edit := SomeEdit(s.road, s.base.container);
      var later := WritesAlone(s, edit);
      ParsedHolds(s.base.container.masterAwbs);
      NamesAfterHolds(edit, Parsed(s.base.container.masterAwbs));
      assert Loadings.Names(Run(s, later).base.container) == ToSet(Parsed(s.base.container.masterAwbs));
    } else {
      forall later
        ensures awb in Loadings.Names(Run(s, later).base.container)
      {
        KeptForGood(s, later, awb);
      }
    }
  }

  // --- When the status can go back ---

  /** The statuses in the order a container comes through them. */
  function Phase(status: Status): nat {
    match status
    case Planning => 0
    case Manifested => 1
    case Loading => 1
    case Sealed => 1
    case InTransit => 2
    case ArrivedAtPort => 3
    case Customs => 4
    case Released => 5
    case Deconsolidated => 6
    case Delivered => 6
  }

  /** The request is still to write a status below phase `k`. */
  ghost predicate WritesBelow(s: State, id: nat, k: nat)
    requires id in s.requests
  {
    var edit, c := s.requests[id].edit, s.base.container;
    match s.requests[id].stage
    case Listing(status, _) =>
      Readable(c) && Permitted(s.road, edit, status, c.pallets) && Phase(StatusAfter(edit, status)) < k
    case Writing(status, _) => Phase(status) < k
    case _ => false
  }

  ghost predicate SomebodyWritesBelow(s: State, k: nat) {
    exists id :: id in s.requests && WritesBelow(s, id, k)
  }

  ghost predicate StaysAbove(s: State, k: nat) {
    Phase(s.base.container.status) >= k && !SomebodyWritesBelow(s, k)
  }

  lemma OtherBelow(s: State, t: State, id: nat, k: nat)
    requires id in s.requests && id in t.requests && t.requests[id] == s.requests[id] && !WritesBelow(s, id, k)
    requires t.road == s.road
    requires Readable(t.base.container) ==> Readable(s.base.container)
    requires s.base.container.pallets <= t.base.container.pallets
    ensures !WritesBelow(t, id, k)
  {
    hide Readable;
  }

  lemma AboveRequest(s: State, id: nat, fault: Fault, k: nat)
    requires StaysAbove(s, k) && id in s.requests
    ensures var t := RequestStep(s, id, fault);
      !WritesBelow(t, id, k) && Phase(t.base.container.status) >= k
  {
    hide Readable, Parsed, NamesAfter;
    assert !WritesBelow(s, id, k);
  }

  lemma AboveStep(s: State, a: Action, k: nat)
    requires StaysAbove(s, k)
    ensures StaysAbove(Step(s, a), k)
  {
    hide RequestStep, WritesBelow, Readable, Loadings.Step, Loadings.Names;
    var t := Step(s, a);
    if a.Advance? {
      var id, fault := a.id, a.fault;
      if id in s.requests {
        AboveRequest(s, id, fault, k);
        RequestTouches(s, id, fault);
        SameReads(s.base.container, t.base.container);
        forall other | other in t.requests
          ensures !WritesBelow(t, other, k)
        {
          if other != id {
            OtherBelow(s, t, other, k);
          }
        }
      }
    } else {
      if a.Other? {
        FewerReads(s.base, a.action);
        Loadings.StepKeepsContainer(s.base, a.action);
      }
      forall id | id in t.requests
        ensures !WritesBelow(t, id, k)
      {
        if id in s.requests {
          OtherBelow(s, t, id, k);
        } else {
          NewWritesNothing(t, id, k);
        }
      }
    }
  }

  lemma SameReads(c: Container, d: Container)
    requires c.pieces == d.pieces
    ensures Readable(c) == Readable(d)
  {
  }

  lemma NewWritesNothing(s: State, id: nat, k: nat)
    requires id in s.requests && s.requests[id].stage.Reading?
    ensures !WritesBelow(s, id, k)
  {
  }

  lemma {:induction false} AboveForGood(s: State, later: seq<Action>, k: nat)
    requires StaysAbove(s, k)
    ensures StaysAbove(Run(s, later), k)
  {
    hide StaysAbove, Step;
    if later == [] {
    } else {
      AboveForGood(s, later[..|later| - 1], k);
      AboveStep(Run(s, later[..|later| - 1]), later[|later| - 1], k);
    }
  }

  /**
   A container that has reached a phase falls back below it if and only if some request that read it before is still
   to write the status it read.
   */
  lemma FallsBackExactly(s: State, k: nat)
    requires Phase(s.base.container.status) >= k
    ensures (exists later :: Phase(Run(s, later).base.container.status) < k) <==> SomebodyWritesBelow(s, k)
  {
    hide Run, Readable, NamesAfter;
    if SomebodyWritesBelow(s, k) {
      var id :| id in s.requests && WritesBelow(s, id, k);
      var later := Writes(s, id);
    } else {
      forall later
        ensures Phase(Run(s, later).base.container.status) >= k
      {
        AboveForGood(s, later, k);
      }
    }
  }

  // --- When an arrival can be recorded ---

  /** The container can no longer be read, and nobody is about to record its arrival. */
  ghost predicate Stranded(s: State) {
    && !Readable(s.base.container) && Phase(s.base.container.status) <= 2
    && forall id :: id in s.requests && s.requests[id].stage.Writing? ==> Phase(s.requests[id].stage.status) <= 2
  }

  lemma StrandedStep(s: State, a: Action)
    requires Stranded(s)
    ensures Stranded(Step(s, a))
  {
    hide RequestStep, Readable, Loadings.Step, Loadings.Names;
    var t := Step(s, a);
    if a.Advance? {
      if a.id in s.requests {
        RequestTouches(s, a.id, a.fault);
        SameReads(s.base.container, t.base.container);
        UnreadableNeverWrites(s, a.id, a.fault);
      }
    } else if a.Other? {
      FewerReads(s.base, a.action);
      Loadings.StepKeepsContainer(s.base, a.action);
    }
  }

  lemma UnreadableNeverWrites(s: State, id: nat, fault: Fault)
    requires !Readable(s.base.container) && id in s.requests
    ensures !RequestStep(s, id, fault).requests[id].stage.Writing?
  {
    hide Readable, Parsed, NamesAfter;
  }

  lemma {:induction false} StrandedForGood(s: State, later: seq<Action>)
    requires Stranded(s)
    ensures Stranded(Run(s, later))
  {
    hide Stranded, Step;
    if later == [] {
    } else {
      StrandedForGood(s, later[..|later| - 1]);
      StrandedStep(Run(s, later[..|later| - 1]), later[|later| - 1]);
    }
  }

  /**
   A departed container can be taken any further if and only if all texts stored as its loose pieces are piece labels,
   or a request has already read it and is about to write. The container routes store any text, so one wrong text is
   enough to keep a container in transit for good.
   */
  lemma ArrivesExactly(s: State)
    requires Inv(s) && s.base.container.status == InTransit
    ensures (exists later :: Phase(Run(s, later).base.container.status) > 2) <==>
            || Readable(s.base.container)
            || exists id :: id in s.requests && s.requests[id].stage.Writing? && Phase(s.requests[id].stage.status) > 2
  {
    hide Run, Readable, NamesAfter, Parsed;
    if exists id :: id in s.requests && s.requests[id].stage.Writing? && Phase(s.requests[id].stage.status) > 2 {
      var id :| id in s.requests && s.requests[id].stage.Writing? && Phase(s.requests[id].stage.status) > 2;
      var later := Writes(s, id);
    } else if Readable(s.base.container) {
      var later := WritesAlone(s, Move(Delivered));
    } else {
      forall later
        ensures Phase(Run(s, later).base.container.status) <= 2
      {
        StrandedForGood(s, later);
      }
    }
  }

  // --- What a departed container can still take in ---

  /** The request is to write other names or a status that opens the container, or to link a pallet. */
  ghost predicate Alters(s: State, id: nat)
    requires id in s.requests
  {
    var edit, c := s.requests[id].edit, s.base.container;
    match s.requests[id].stage
    case Writing(status, names) => Modifiable(status) || ToSet(names) != Loadings.Names(c)
    case Linking => edit.LoadSealed? && edit.pallet !in c.pallets
    case _ => false
  }

  ghost predicate AllLanded(s: State) {
    && Loadings.Landed(s.base) && !Readable(s.base.container)
    && forall id :: id in s.requests ==> !Alters(s, id)
  }

  lemma LandedRequest(s: State, id: nat, fault: Fault)
    requires AllLanded(s) && id in s.requests && RequestSound(s, id)
    ensures var t := RequestStep(s, id, fault);
      && Loadings.Held(t.base.container) == Loadings.Held(s.base.container) && t.base.loaders == s.base.loaders
      && !Modifiable(t.base.container.status) && !Alters(t, id)
  {
    hide Readable, Parsed, NamesAfter, Loadings.Landed;
    LandedIsClosed(s);
    assert !Alters(s, id);
  }

  lemma LandedIsClosed(s: State)
    requires Loadings.Landed(s.base)
    ensures !Modifiable(s.base.container.status)
  {
  }

  lemma SameFlights(s: Loadings.State, t: Loadings.State)
    requires Loadings.Landed(s) && t.loaders == s.loaders && Loadings.Held(t.container) == Loadings.Held(s.container)
    requires !Modifiable(t.container.status)
    ensures Loadings.Landed(t)
  {
    hide Carried;
    forall id | id in t.loaders
      ensures !Loadings.InFlight(t, id)
    {
      assert !Loadings.InFlight(s, id);
    }
  }

  lemma AlteringStays(s: State, t: State, id: nat)
    requires id in s.requests && id in t.requests && t.requests[id] == s.requests[id] && !Alters(s, id)
    requires Loadings.Held(t.base.container) == Loadings.Held(s.base.container)
    ensures !Alters(t, id)
  {
  }

  lemma AllLandedStep(s: State, a: Action)
    requires AllLanded(s) && Inv(s)
    ensures AllLanded(Step(s, a)) && Loadings.Held(Step(s, a).base.container) == Loadings.Held(s.base.container)
  {
    hide RequestStep, Readable, Loadings.Step, Loadings.Landed, RequestSound, Alters;
    var t := Step(s, a);
    LandedIsClosed(s);
    if a.Advance? {
      if a.id in s.requests {
        LandedRequest(s, a.id, a.fault);
        RequestTouches(s, a.id, a.fault);
        SameFlights(s.base, t.base);
      }
    } else if a.Other? {
      Loadings.LandedContents(s.base, a.action);
      Loadings.LandedStep(s.base, a.action);
    }
    SameReads(s.base.container, t.base.container);
    forall id | id in t.requests
      ensures !Alters(t, id)
    {
      if id in s.requests && t.requests[id] == s.requests[id] {
        AlteringStays(s, t, id);
      } else if id !in s.requests {
        NewAltersNothing(t, id);
      }
    }
  }

  lemma NewAltersNothing(s: State, id: nat)
    requires id in s.requests && s.requests[id].stage.Reading?
    ensures !Alters(s, id)
  {
  }

  lemma {:induction false} AllLandedForGood(s: State, later: seq<Action>)
    requires AllLanded(s) && Inv(s)
    ensures AllLanded(Run(s, later)) && Loadings.Held(Run(s, later).base.container) == Loadings.Held(s.base.container)
  {
    hide AllLanded, Step, Loadings.Held, Inv;
    if later == [] {
    } else {
      AllLandedForGood(s, later[..|later| - 1]);
      RunKeepsInv(s, later[..|later| - 1]);
      AllLandedStep(Run(s, later[..|later| - 1]), later[|later| - 1]);
    }
  }

  function Others(actions: seq<Loadings.Action>): seq<Action> {
    seq(|actions|, i requires 0 <= i < |actions| => Other(actions[i]))
  }

  /** A run of the container routes is a run. */
  lemma {:induction false} OthersRun(s: State, actions: seq<Loadings.Action>)
    ensures Run(s, Others(actions)) == s.(base := Loadings.Run(s.base, actions))
  {
    hide Loadings.Step;
    if actions == [] {
    } else {
      var front := actions[..|actions| - 1];
      OthersRun(s, front);
      assert Others(actions)[..|actions| - 1] == Others(front);
    }
  }

  /** Where the container routes take loads, a pallet nobody has loaded can be. */
  lemma OpenTakesPallet(s: State) returns (later: seq<Action>)
    requires Modifiable(s.base.container.status)
    ensures Run(s, later).base.container.pallets > s.base.container.pallets
  {
    hide Run, Modifiable;
    var id := FreshNat(s.base.loaders.Keys);
    var pallet := FreshNat(s.base.container.pallets);
    var arrive, step := Loadings.Arrive(id, LoadPallet(pallet, [])), Loadings.Advance(id, Clean);
    var a1 := [] + [Other(arrive)];
    var a2 := a1 + [Other(step)];
    var a3 := a2 + [Other(step)];
    NothingRun(s);
    RunPush(s, [], Other(arrive));
    RunPush(s, a1, Other(step));
    RunPush(s, a2, Other(step));
    RunPush(s, a3, Other(step));
    later := a3 + [Other(step)];
    assert pallet in Run(s, later).base.container.pallets;
  }

  /** And so can a loose piece, where there is none. */
  lemma OpenTakesPiece(s: State) returns (later: seq<Action>)
    requires Modifiable(s.base.container.status) && s.base.container.pieces == {}
    ensures var d := Run(s, later).base.container; d.pieces != {} && d.status == s.base.container.status
  {
    hide Run, Modifiable;
    var id := FreshNat(s.base.loaders.Keys);
    var arrive, step := Loadings.Arrive(id, LoadPiece("P", "P")), Loadings.Advance(id, Clean);
    var a1 := [] + [Other(arrive)];
    var a2 := a1 + [Other(step)];
    NothingRun(s);
    RunPush(s, [], Other(arrive));
    RunPush(s, a1, Other(step));
    RunPush(s, a2, Other(step));
    later := a2 + [Other(step)];
    assert "P" in Run(s, later).base.container.pieces;
  }

  /** A departed container that can be read comes to a status in which the container routes take loads again. */
  lemma ReadableOpens(s: State) returns (later: seq<Action>)
    requires Readable(s.base.container) && s.base.container.status == InTransit
    ensures var d := Run(s, later).base.container; Modifiable(d.status) && d.pallets == s.base.container.pallets
  {
    hide Run, Readable, NamesAfter, Parsed;
    if s.road {
      var first := WritesAlone(s, Move(Released));
      var t := Run(s, first);
      SameReads(s.base.container, t.base.container);
      var rest := WritesAlone(t, Move(Deconsolidated));
      RunConcat(s, first, rest);
      later := first + rest;
    } else {
      later := WritesAlone(s, Move(ArrivedAtPort));
    }
  }

  lemma RequestAlters(s: State, id: nat) returns (later: seq<Action>)
    requires id in s.requests && Alters(s, id)
    ensures Loadings.Held(Run(s, later).base.container) != Loadings.Held(s.base.container)
  {
    hide Run, Modifiable;
    if s.requests[id].stage.Linking? {
      NothingRun(s);
      later := [] + [Advance(id, Clean)];
      RunPush(s, [], Advance(id, Clean));
    } else {
      later := Writes(s, id);
      if Modifiable(s.requests[id].stage.status) {
        var rest := OpenTakesPallet(Run(s, later));
        RunConcat(s, later, rest);
        later := later + rest;
      }
    }
  }

  /**
   What a departed container holds can still change if and only if it can be read, so that it arrives and is opened
   again; or a load request has something left to change; or a request that has read it is about to write other names
   or an open status, or to link a pallet.
   */
  lemma DepartedTakesInExactly(s: State)
    requires Inv(s) && s.base.container.status == InTransit
    ensures (exists later :: Loadings.Held(Run(s, later).base.container) != Loadings.Held(s.base.container)) <==>
            || Readable(s.base.container)
            || (exists id :: id in s.base.loaders && Loadings.InFlight(s.base, id))
            || (exists id :: id in s.requests && Alters(s, id))
  {
    hide Run, Readable, Alters, Loadings.InFlight, RequestSound;
    if Readable(s.base.container) {
      var first := ReadableOpens(s);
      var rest := OpenTakesPallet(Run(s, first));
      RunConcat(s, first, rest);
      assert Loadings.Held(Run(s, first + rest).base.container) != Loadings.Held(s.base.container);
    } else if exists id :: id in s.base.loaders && Loadings.InFlight(s.base, id) {
      var id :| id in s.base.loaders && Loadings.InFlight(s.base, id);
      var flight := Loadings.FlightLands(s.base, id);
      OthersRun(s, flight);
      assert Loadings.Held(Run(s, Others(flight)).base.container) != Loadings.Held(s.base.container);
    } else if exists id :: id in s.requests && Alters(s, id) {
      var id :| id in s.requests && Alters(s, id);
      var later := RequestAlters(s, id);
    } else {
      forall later
        ensures Loadings.Held(Run(s, later).base.container) == Loadings.Held(s.base.container)
      {
        AllLandedForGood(s, later);
      }
    }
  }

  // --- One request by itself ---

  function Alone(id: nat, edit: Edit): seq<Action> {
    [] + [Submit(id, edit)] + [Advance(id, Clean)] + [Advance(id, Clean)] + [Advance(id, Clean)] + [Advance(id, Clean)]
  }

  lemma {:induction false} ParsedCanonical(names: seq<string>)
    requires AllCanonical(names)
    ensures Parsed(names) == names
  {
    hide Awbs.Parse;
    if names == [] {
    } else {
      var front, last := names[..|names| - 1], names[|names| - 1];
      assert names == front + [last];
      ParsedCanonical(front);
      assert Canonical(last);
    }
  }

  lemma {:induction false} DistinctOfDistinct(names: seq<string>)
    requires NoDup(names)
    ensures Distinct(names) == names
  {
    if names == [] {
    } else {
      var front, last := names[..|names| - 1], names[|names| - 1];
      assert names == front + [last];
      assert forall i, j :: 0 <= i < j < |front| ==> front[i] == names[i] && front[j] == names[j];
      DistinctOfDistinct(front);
    }
  }

  /** Adding one by one what is not there yet is what the container routes leave to `SELECT DISTINCT`. */
  lemma {:induction false} ExtendIsDistinct(names: seq<string>, more: seq<string>)
    requires NoDup(names)
    ensures Extend(names, more) == Distinct(names + more)
  {
    if more == [] {
      assert names + more == names;
      DistinctOfDistinct(names);
    } else {
      ExtendIsDistinct(names, more[..|more| - 1]);
      assert (names + more)[..|names + more| - 1] == names + more[..|more| - 1];
    }
  }

  /**
   Undisturbed and without failures, a readable container whose manifest is spelled as the parser spells it takes a
   sealed pallet just as the container route loads one, but in fewer statuses.
   */
  lemma SavedLoadIsLoad(s: State, id: nat, pallet: nat, awbs: seq<string>)
    requires id !in s.requests && Readable(s.base.container)
    requires NoDup(s.base.container.masterAwbs) && AllCanonical(s.base.container.masterAwbs)
    ensures var c, t := s.base.container, Run(s, Alone(id, LoadSealed(pallet, awbs)));
      var load := LoadPallet(pallet, Parsed(awbs));
      && t.base.container == (if Mutable(c.status) then Apply(c, load) else c)
      && id in t.requests
      && t.requests[id].stage == Over(Mutable(c.status) && Attempt(c, load).Ok?)
  {
    hide Run, Readable, Parsed, Distinct, Extend, AllCanonical;
    var c, step := s.base.container, Advance(id, Clean);
    var submit := Submit(id, LoadSealed(pallet, awbs));
    var a1 := [] + [submit];
    var a2 := a1 + [step];
    var a3 := a2 + [step];
    var a4 := a3 + [step];
    NothingRun(s);
    RunPush(s, [], submit);
    RunPush(s, a1, step);
    RunPush(s, a2, step);
    RunPush(s, a3, step);
    RunPush(s, a4, step);
    ParsedCanonical(c.masterAwbs);
    ExtendIsDistinct(c.masterAwbs, Parsed(awbs));
    assert c.masterAwbs + [] == c.masterAwbs;
    DistinctOfDistinct(c.masterAwbs);
  }

  // --- Runs that go wrong ---

  /** What is loaded is sealed and departs. */
  lemma Departs(s: State, actions: seq<Action>) returns (departed: seq<Action>)
    requires Run(s, actions).base.container.status == Planning && !Run(s, actions).base.container.Empty()
    ensures var c := Run(s, actions).base.container;
      Run(s, departed) ==
      Run(s, actions).(base := Run(s, actions).base.(container := c.(status := InTransit)))
  {
    hide Run;
    departed := actions + [Other(Loadings.Manage(Seal))] + [Other(Loadings.Manage(Depart))];
    RunPush(s, actions, Other(Loadings.Manage(Seal)));
    RunPush(s, actions + [Other(Loadings.Manage(Seal))], Other(Loadings.Manage(Depart)));
  }

  lemma LoadedRun(s: State, pallet: nat, awb: string) returns (actions: seq<Action>)
    requires s.base == Loadings.START
    ensures var t := Run(s, actions);
      && t.base.container == Container(Planning, {pallet}, {}, Distinct([] + [awb]))
      && t.requests == s.requests && t.road == s.road
  {
    hide Run, Distinct;
    var arrive, load := Other(Loadings.Arrive(0, LoadPallet(pallet, [awb]))), Other(Loadings.Advance(0, Clean));
    var a1 := [] + [arrive];
    var a2 := a1 + [load];
    var a3 := a2 + [load];
    var a4 := a3 + [load];
    NothingRun(s);
    RunPush(s, [], arrive);
    RunPush(s, a1, load);
    RunPush(s, a2, load);
    RunPush(s, a3, load);
    RunPush(s, a4, load);
    actions := a4 + [load];
  }

  /** A container with pallet 1 departs while a request that read it before still has to write. */
  lemma DepartedRun(road: bool) returns (actions: seq<Action>)
    ensures var s := Run(Start(road), actions);
      && s.base.container == Container(InTransit, {1}, {}, Distinct([] + ["A"]))
      && s.requests == map[0 := Request(LoadSealed(2, []), Listing(Planning, []))]
  {
    hide Run, Distinct;
    var submit := Submit(0, LoadSealed(2, []));
    var read := [] + [submit] + [Advance(0, Clean)];
    NothingRun(Start(road));
    RunPush(Start(road), [], submit);
    RunPush(Start(road), [] + [submit], Advance(0, Clean));
    var load := LoadedRun(Run(Start(road), read), 1, "A");
    RunConcat(Start(road), read, load);
    actions := Departs(Start(road), read + load);
  }

  /** A run in which a save takes a departed container back to planning and empties its manifest. */
  lemma StaleSaveUndoesDeparture(road: bool) returns (departed: seq<Action>, later: seq<Action>)
    ensures var c := Run(Start(road), departed).base.container;
      c.status == InTransit && c.pallets == {1} && "A" in Loadings.Names(c)
    ensures var c := Run(Start(road), departed + later).base.container;
      c.status == Planning && c.pallets == {1} && c.masterAwbs == []
  {
    hide Run, Distinct;
    departed := DepartedRun(road);
    assert "A" in ToSet([] + ["A"]) by {
      assert ([] + ["A"])[0] == "A";
    }
    var s := Run(Start(road), departed);
    later := Writes(s, 0);
    RunConcat(Start(road), departed, later);
  }

  lemma LabellessRun(road: bool) returns (actions: seq<Action>)
    ensures var s := Run(Start(road), actions); var c := s.base.container;
      c.status == InTransit && c.pieces == {"P"} && s.requests == map[]
  {
    hide Run;
    var arrive, load := Other(Loadings.Arrive(0, LoadPiece("P", "A"))), Other(Loadings.Advance(0, Clean));
    var a1 := [] + [arrive];
    var a2 := a1 + [load];
    NothingRun(Start(road));
    RunPush(Start(road), [], arrive);
    RunPush(Start(road), a1, load);
    RunPush(Start(road), a2, load);
    actions := Departs(Start(road), a2 + [load]);
  }

  /** A run after which a container is in transit for good: the text loaded as a piece is no piece label. */
  lemma WrongLabelStrands(road: bool, later: seq<Action>) returns (departed: seq<Action>)
    ensures Run(Start(road), departed).base.container.status == InTransit
    ensures Phase(Run(Start(road), departed + later).base.container.status) <= 2
  {
    hide Run, Inv, Pieces.ParseChild;
    departed := LabellessRun(road);
    var s := Run(Start(road), departed);
    NoLabel();
    assert "P" in s.base.container.pieces;
    StartIsSound(road);
    RunKeepsInv(Start(road), departed);
    StrandedForGood(s, later);
    RunConcat(Start(road), departed, later);
  }

  lemma NoLabel()
    ensures Pieces.ParseChild("P").Err?
  {
    hide Awbs.Parse;
  }

  // --- The container in memory, as the program changes it ---

  datatype EditError = AlreadyDeparted | PalletLoaded | InvalidTransition

  /** `Container` of the domain, between its read and its save. */
  class ContainerEntity {
    const road: bool
    var status: Status
    var pallets: seq<nat>
    var masterAwbs: seq<string>

    constructor (road: bool, status: Status, pallets: seq<nat>, masterAwbs: seq<string>)
      ensures this.road == road && this.status == status && this.pallets == pallets && this.masterAwbs == masterAwbs
    {
      this.road := road;
      this.status, this.pallets, this.masterAwbs := status, pallets, masterAwbs;
    }

    method LoadPallet(pallet: nat, awbs: seq<string>) returns (r: Result<(), EditError>)
      modifies this
      ensures var departed :=
          old(status) in {InTransit, ArrivedAtPort, Customs, Released, Deconsolidated, Delivered};
        && (r.Ok? <==> !departed && pallet !in old(pallets))
        && (r.Err? ==> r.error == if departed then AlreadyDeparted else PalletLoaded)
      ensures status == old(status)
      ensures pallets == if r.Ok? then old(pallets) + [pallet] else old(pallets)
      ensures masterAwbs == if r.Ok? then Extend(old(masterAwbs), awbs) else old(masterAwbs)
      ensures old(masterAwbs) <= masterAwbs
      ensures r.Ok? ==> forall awb :: awb in masterAwbs <==> awb in old(masterAwbs) || awb in awbs
    {
      MutableExactly(status);
      ExtendHolds(masterAwbs, awbs);
      ghost var extended := Extend(masterAwbs, awbs);
      assert forall awb :: awb in extended <==> awb in ToSet(extended);
      if !Mutable(status) {
        return Err(AlreadyDeparted);
      }
      if pallet in pallets {
        return Err(PalletLoaded);
      }
      pallets := pallets + [pallet];
      for i := 0 to |awbs|
        invariant status == old(status) && pallets == old(pallets) + [pallet]
        invariant masterAwbs == Extend(old(masterAwbs), awbs[..i])
      {
        assert awbs[..i + 1][..i] == awbs[..i];
        if awbs[i] !in masterAwbs {
          masterAwbs := masterAwbs + [awbs[i]];
        }
      }
      assert awbs[..|awbs|] == awbs;
      return Ok(());
    }

    method Arrive() returns (ok: bool)
      modifies this`status
      ensures ok <==> old(status) == InTransit
      ensures ok <==> CanMove(road, old(status), Delivered)
      ensures status == if ok then Delivered else old(status)
    {
      ok := status == InTransit;
      if ok {
        status := Delivered;
      }
    }

    method ArriveAtPort() returns (ok: bool)
      modifies this`status
      ensures ok <==> old(status) == InTransit && !road
      ensures ok <==> CanMove(road, old(status), ArrivedAtPort)
      ensures status == if ok then ArrivedAtPort else old(status)
    {
      ok := !road && status == InTransit;
      if ok {
        status := ArrivedAtPort;
      }
    }

    method EnterCustoms() returns (ok: bool)
      modifies this`status
      ensures ok <==> old(status) == ArrivedAtPort
      ensures ok <==> CanMove(road, old(status), Customs)
      ensures status == if ok then Customs else old(status)
    {
      ok := status == ArrivedAtPort;
      if ok {
        status := Customs;
      }
    }

    method ClearCustoms() returns (ok: bool)
      modifies this`status
      ensures ok <==> old(status) == Customs
      ensures CanMove(road, old(status), Released) <==> ok || (road && old(status) == InTransit)
      ensures status == if ok then Released else old(status)
    {
      ok := status == Customs;
      if ok {
        status := Released;
      }
    }

    /** Road containers skip port and customs. */
    method ReleaseDomestic() returns (ok: bool)
      modifies this`status
      ensures ok <==> road && old(status) == InTransit
      ensures CanMove(road, old(status), Released) <==> ok || old(status) == Customs
      ensures status == if ok then Released else old(status)
    {
      ok := road && status == InTransit;
      if ok {
        status := Released;
      }
    }

    method Deconsolidate() returns (ok: bool)
      modifies this`status
      ensures ok <==> old(status) == Released
      ensures ok <==> CanMove(road, old(status), Deconsolidated)
      ensures status == if ok then Deconsolidated else old(status)
    {
      ok := status == Released;
      if ok {
        status := Deconsolidated;
      }
    }
  }
}
