/**
 The container manifest of hub-ops: one container row with its pallet and loose-piece rows, and the SQL-backed
 operations on it, each as it works when no statement fails and no other request comes in between.
 */
module Containers {
  import opened Outcome
  import opened Seqs

  /** Every status the `containers` table admits. */
  datatype Status =
    | Planning | Manifested | Loading | Sealed | InTransit
    | ArrivedAtPort | Customs | Released | Deconsolidated | Delivered

  /** How a statement ended: as intended, failed without effect, or failed after taking effect. */
  datatype Fault = Clean | Lost | Applied

  datatype Container = Container(
    status: Status,
    pallets: set<nat>,
    pieces: set<string>,
    masterAwbs: seq<string>)
  {
    predicate Empty() {
      pallets == {} && pieces == {}
    }
  }

  datatype Error = NotFound | NotModifiable(status: Status) | AlreadyLoaded | ConstraintViolation
    | NothingLoaded | WrongStatus

  const FRESH := Container(Planning, {}, {}, [])

  predicate Modifiable(status: Status) {
    status !in {InTransit, Delivered, Customs, Released}
  }

  /** `SELECT DISTINCT`, keeping the first occurrence of each value (SQL leaves the order open). */
  function Distinct(s: seq<string>): (r: seq<string>)
    ensures NoDup(r)
    ensures ToSet(r) == ToSet(s)
  {
    if s == [] then []
    else
      var front := Distinct(s[..|s| - 1]);
      var last := s[|s| - 1];
      assert s == s[..|s| - 1] + [last];
      assert ToSet(s) == ToSet(s[..|s| - 1]) + {last};
      assert ToSet(front + [last]) == ToSet(front) + {last};
      if last in front then front else front + [last]
  }

  function AddPallet(c: Container, pallet: nat, masterAwbs: seq<string>): Result<Container, Error> {
    if !Modifiable(c.status) then Err(NotModifiable(c.status))
    else if pallet in c.pallets then Err(AlreadyLoaded)
    else
      var loaded := c.(pallets := c.pallets + {pallet});
      if masterAwbs == [] then Ok(loaded)
      else Ok(loaded.(masterAwbs := Distinct(c.masterAwbs + masterAwbs)))
  }

  function AddLoosePiece(c: Container, piece: string, masterAwb: string): Result<Container, Error> {
    if !Modifiable(c.status) then Err(NotModifiable(c.status))
    else if piece in c.pieces then Err(ConstraintViolation)
    else
      var master := if masterAwb !in c.masterAwbs then c.masterAwbs + [masterAwb] else c.masterAwbs;
      Ok(c.(pieces := c.pieces + {piece}, masterAwbs := master))
  }

  function Finalise(c: Container): Result<Container, Error> {
    if c.Empty() then Err(NothingLoaded)
    else if c.status != Planning then Err(WrongStatus)
    else Ok(c.(status := Manifested))
  }

  function MarkDeparted(c: Container): Result<Container, Error> {
    if c.status in {Manifested, Sealed} then Ok(c.(status := InTransit)) else Err(WrongStatus)
  }

  datatype Op =
    | LoadPallet(pallet: nat, awbs: seq<string>)
    | LoadPiece(piece: string, master: string)
    | Seal
    | Depart

  function Attempt(c: Container, op: Op): Result<Container, Error> {
    match op
    case LoadPallet(pallet, awbs) => AddPallet(c, pallet, awbs)
    case LoadPiece(piece, master) => AddLoosePiece(c, piece, master)
    case Seal => Finalise(c)
    case Depart => MarkDeparted(c)
  }

  /** A refused operation leaves the container as it was. */
  function Apply(c: Container, op: Op): Container {
    match Attempt(c, op)
    case Ok(after) => after
    case Err(_) => c
  }

  /** What each operation is refused for, and all that it changes otherwise. */
  lemma AttemptExactly(c: Container, op: Op)
    ensures match op
            case LoadPallet(pallet, awbs) =>
              if c.status in {InTransit, Delivered, Customs, Released}
              then Attempt(c, op) == Err(NotModifiable(c.status))
              else if pallet in c.pallets then Attempt(c, op) == Err(AlreadyLoaded)
              else Attempt(c, op).Ok?
                   && var d := Attempt(c, op).value;
                      && d.status == c.status && d.pallets == c.pallets + {pallet} && d.pieces == c.pieces
                      && ToSet(d.masterAwbs) == ToSet(c.masterAwbs) + ToSet(awbs)
                      && (NoDup(c.masterAwbs) ==> NoDup(d.masterAwbs))
            case LoadPiece(piece, master) =>
              if c.status in {InTransit, Delivered, Customs, Released}
              then Attempt(c, op) == Err(NotModifiable(c.status))
              else if piece in c.pieces then Attempt(c, op) == Err(ConstraintViolation)
              else Attempt(c, op).Ok?
                   && var d := Attempt(c, op).value;
                      && d.status == c.status && d.pallets == c.pallets && d.pieces == c.pieces + {piece}
                      && ToSet(d.masterAwbs) == ToSet(c.masterAwbs) + {master}
                      && (NoDup(c.masterAwbs) ==> NoDup(d.masterAwbs))
            case Seal =>
              Attempt(c, op) == if c.pallets == {} && c.pieces == {} then Err(NothingLoaded)
                                else if c.status != Planning then Err(WrongStatus)
                                else Ok(Container(Manifested, c.pallets, c.pieces, c.masterAwbs))
            case Depart =>
              Attempt(c, op) == if c.status == Manifested || c.status == Sealed
                                then Ok(Container(InTransit, c.pallets, c.pieces, c.masterAwbs))
                                else Err(WrongStatus)
  {
    match op
    case LoadPallet(_, awbs) => assert ToSet(c.masterAwbs + awbs) == ToSet(c.masterAwbs) + ToSet(awbs);
    case LoadPiece(_, master) => assert ToSet(c.masterAwbs + [master]) == ToSet(c.masterAwbs) + {master};
    case _ =>
  }

  function Replay(c: Container, ops: seq<Op>): Container {
    if ops == [] then c else Apply(Replay(c, ops[..|ops| - 1]), ops[|ops| - 1])
  }

  function Carried(op: Op): set<string> {
    match op
    case LoadPallet(_, awbs) => set a | a in awbs
    case LoadPiece(_, master) => {master}
    case _ => {}
  }

  /** The master AWBs of every loading that was accepted during a replay. */
  ghost function Accepted(c: Container, ops: seq<Op>): set<string> {
    if ops == [] then {}
    else
      var before := ops[..|ops| - 1];
      var op := ops[|ops| - 1];
      Accepted(c, before) + (if Attempt(Replay(c, before), op).Ok? then Carried(op) else {})
  }

  /**
   Whatever is attempted on a new container, one call after the other and without failures: the manifest names exactly
   the master AWBs of the accepted loadings, each once; and a container past planning is never empty.
   */
  lemma {:induction false} ManifestIsExact(ops: seq<Op>)
    ensures var c := Replay(FRESH, ops);
      && NoDup(c.masterAwbs)
      && ToSet(c.masterAwbs) == Accepted(FRESH, ops)
      && (c.status != Planning ==> !c.Empty())
      && c.status in {Planning, Manifested, InTransit}
  {
    if ops == [] {
    } else {
      var before := ops[..|ops| - 1];
      ManifestIsExact(before);
      var c := Replay(FRESH, before);
      match ops[|ops| - 1]
      case LoadPallet(_, awbs) =>
        assert ToSet(c.masterAwbs + awbs) == ToSet(c.masterAwbs) + ToSet(awbs);
      case LoadPiece(_, master) =>
        assert ToSet(c.masterAwbs + [master]) == ToSet(c.masterAwbs) + {master};
      case _ =>
    }
  }

  /** After departure no call that starts then changes the container any more. */
  lemma {:induction false} FrozenAfterDeparture(c: Container, ops: seq<Op>)
    requires c.status == InTransit
    ensures Replay(c, ops) == c
  {
    if ops == [] {
    } else {
      FrozenAfterDeparture(c, ops[..|ops| - 1]);
    }
  }

  /**
   The route documentation says a finalised manifest takes no more loading. It does: this run seals a
   container and then loads a second pallet into it.
   */
  lemma SealedManifestStillLoads()
    ensures var ops := [LoadPallet(1, ["A"]), Seal, LoadPallet(2, ["B"])];
      && Replay(FRESH, ops[..2]).status == Manifested
      && Replay(FRESH, ops).status == Manifested
      && 2 in Replay(FRESH, ops).pallets && "B" in Replay(FRESH, ops).masterAwbs
  {
    var ops := [LoadPallet(1, ["A"]), Seal, LoadPallet(2, ["B"])];
    var empty := ops[..0];
    assert Replay(FRESH, empty) == FRESH;
    assert ops[..1][..0] == empty;
    var one := Apply(FRESH, ops[0]);
    assert Replay(FRESH, ops[..1]) == one;
    assert 1 in one.pallets;
    assert ops[..2][..1] == ops[..1];
    var two := Apply(one, ops[1]);
    assert Replay(FRESH, ops[..2]) == two;
    assert "B" in ToSet(two.masterAwbs + ["B"]) by {
      assert (two.masterAwbs + ["B"])[|two.masterAwbs|] == "B";
    }
  }

  /** A new pallet is taken exactly while the container is in none of the four closed statuses. */
  lemma LoadingIsOpenExactly(c: Container, pallet: nat, awbs: seq<string>)
    requires pallet !in c.pallets
    ensures AddPallet(c, pallet, awbs).Ok? <==>
            c.status in {Planning, Manifested, Loading, Sealed, ArrivedAtPort, Deconsolidated}
  {
    match c.status
    case Planning =>
    case Manifested =>
    case Loading =>
    case Sealed =>
    case InTransit =>
    case ArrivedAtPort =>
    case Customs =>
    case Released =>
    case Deconsolidated =>
    case Delivered =>
  }
}
