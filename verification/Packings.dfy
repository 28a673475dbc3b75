/** What the packing of a truck keeps: the items, the weight, the geometry and the volume. */
module Packings {
  import opened Outcome
  import opened Seqs
  import opened BinPack
  import Consolidation
  import ContainerSaves

  // --- The first fit ---

  function SpotOf(p: Placement): Point {
    Point(p.x, p.y, p.z)
  }

  /** The placement is of this item, turned by 90 degrees or not. */
  predicate IsOf(p: Placement, item: Item) {
    && p.awb == item.awb && p.weight == item.weight && p.estimated == item.estimated
    && p.height == item.height
    && p.length == (if p.rotated then item.width else item.length)
    && p.width == (if p.rotated then item.length else item.width)
  }

  /** The placement is of this item, turned or not, at a point that accepts it. */
  predicate FitsAt(bin: Bin, placements: seq<Placement>, points: seq<Point>, item: Item, p: Placement) {
    && IsOf(p, item)
    && SpotOf(p) in points
    && Accepts(bin, placements, SpotOf(p), p.length, p.width, p.height)
  }

  predicate TakesNeither(bin: Bin, placements: seq<Placement>, at: Point, item: Item) {
    && !Accepts(bin, placements, at, item.length, item.width, item.height)
    && !Accepts(bin, placements, at, item.width, item.length, item.height)
  }

  /** An item is placed exactly when some point accepts it one way or the other. */
  lemma {:induction false} FirstFitExactly(bin: Bin, placements: seq<Placement>, points: seq<Point>, item: Item)
    ensures match FirstFit(bin, placements, points, item)
            case Some(p) => FitsAt(bin, placements, points, item, p)
            case None => forall at :: at in points ==> TakesNeither(bin, placements, at, item)
  {
    hide Accepts;
    if points == [] {
    } else {
      FirstFitExactly(bin, placements, points[..|points| - 1], item);
      assert points == points[..|points| - 1] + [points[|points| - 1]];
    }
  }

  /** It goes to the earliest such point, and is turned only when it does not fit there as it is. */
  lemma {:induction false} FirstFitIsFirst(bin: Bin, placements: seq<Placement>, points: seq<Point>, item: Item)
    returns (k: nat)
    requires FirstFit(bin, placements, points, item).Some?
    ensures var p := FirstFit(bin, placements, points, item).value;
      && k < |points| && points[k] == SpotOf(p)
      && (forall j :: 0 <= j < k ==> TakesNeither(bin, placements, points[j], item))
      && (p.rotated ==> !Accepts(bin, placements, points[k], item.length, item.width, item.height))
  {
    hide Accepts;
    var front := points[..|points| - 1];
    if FirstFit(bin, placements, front, item).Some? {
      k := FirstFitIsFirst(bin, placements, front, item);
    } else {
      k := |front|;
      FirstFitExactly(bin, placements, front, item);
      assert forall j :: 0 <= j < k ==> front[j] == points[j] && front[j] in front;
    }
  }

  lemma {:induction false} InsertSame<T>(s: seq<T>, before: (T, T) -> bool, t: T)
    ensures t in StableSort(s, before) <==> t in s
  {
    SortKeeps(s, before);
    assert t in multiset(StableSort(s, before)) <==> t in multiset(s);
  }

  lemma {:induction false} DedupSame(points: seq<Point>, at: Point)
    ensures at in Dedup(points) <==> at in points
  {
    if |points| <= 1 {
    } else {
      var front, last := points[..|points| - 1], points[|points| - 1];
      assert points == front + [last];
      DedupSame(front, at);
      if points[|points| - 2] == last {
        assert front[|front| - 1] == last;
      }
    }
  }

  lemma InOrderSame(points: seq<Point>, at: Point)
    ensures at in InOrder(points) <==> at in points
  {
    InsertSame(points, Precedes, at);
    DedupSame(StableSort(points, Precedes), at);
  }

  // --- One step ---

  /** The item was left over, for the first reason that applies. */
  predicate LeftOver(bin: Bin, s: Packing, item: Item, t: Packing, reason: Reason) {
    && t.placements == s.placements && t.weight == s.weight && t.volume == s.volume
    && t.unplaced == s.unplaced + [Unplaced(item.awb, item.weight, reason)]
    && (reason.ZeroDimension? <==> item.length == 0 || item.width == 0 || item.height == 0)
    && (reason.WeightLimit? <==> !reason.ZeroDimension? && Wrap(s.weight + item.weight) > bin.maxPayload)
    && (reason.NoSpace? ==> forall at :: at in s.points ==> TakesNeither(bin, s.placements, at, item))
  }

  /** The item was placed at one of the points. */
  predicate PutAt(bin: Bin, s: Packing, item: Item, t: Packing, p: Placement) {
    && item.length > 0 && item.width > 0 && item.height > 0
    && t.placements == s.placements + [p] && t.unplaced == s.unplaced
    && t.weight == Wrap(s.weight + item.weight) <= bin.maxPayload
    && t.volume == Wrap(s.volume + Volume(p.length, p.width, p.height))
    && FitsAt(bin, s.placements, s.points, item, p)
    && t.points == Offer(bin, InOrder(s.points), Corners(p))
  }

  /** `a` is tried no later than `b`: it is lower, or as low and nearer along the length, then along the width. */
  predicate NoLater(a: Point, b: Point) {
    a.z < b.z || (a.z == b.z && (a.x < b.x || (a.x == b.x && a.y <= b.y)))
  }

  /** A box stands at the lowest point that would take it, and among those at the least length, then width. */
  lemma LowestSpot(bin: Bin, s: Packing, item: Item)
    requires |PackOne(bin, s, item).placements| > |s.placements|
    ensures var t := PackOne(bin, s, item);
      var p := t.placements[|s.placements|];
      && IsOf(p, item) && SpotOf(p) in s.points
      && (forall at :: at in s.points && !TakesNeither(bin, s.placements, at, item) ==> NoLater(SpotOf(p), at))
      && (p.rotated ==> !Accepts(bin, s.placements, SpotOf(p), item.length, item.width, item.height))
  {
    hide FirstFit, InOrder, Offer, Volume, Accepts, Wrap;
    var points := InOrder(s.points);
    var p := FirstFit(bin, s.placements, points, item).value;
    FirstFitExactly(bin, s.placements, points, item);
    var k := FirstFitIsFirst(bin, s.placements, points, item);
    PointsAscend(s.points);
    InOrderSame(s.points, SpotOf(p));
    forall at | at in s.points && !TakesNeither(bin, s.placements, at, item)
      ensures NoLater(SpotOf(p), at)
    {
      InOrderSame(s.points, at);
      var j :| 0 <= j < |points| && points[j] == at;
      assert j >= k;
    }
  }

  /** A new point is a corner of the new box that lies in the truck. */
  lemma PointsAfter(bin: Bin, points: seq<Point>, p: Placement, at: Point)
    ensures at in Offer(bin, points, Corners(p)) <==>
            || at in points
            || (at.x <= bin.length && at.y <= bin.width && at.z <= bin.height
                && (|| at == Point((p.x + p.length) % 0x1_0000_0000, p.y, p.z)
                    || at == Point(p.x, (p.y + p.width) % 0x1_0000_0000, p.z)
                    || at == Point(p.x, p.y, (p.z + p.height) % 0x1_0000_0000)))
  {
    hide Corners;
    var corners := Corners(p);
    CornersAre(p);
    OfferHolds(bin, points, corners, at);
    assert at in corners <==> at == corners[0] || at == corners[1] || at == corners[2];
  }

  lemma CornersAre(p: Placement)
    ensures Corners(p) ==
            [Point((p.x + p.length) % 0x1_0000_0000, p.y, p.z), Point(p.x, (p.y + p.width) % 0x1_0000_0000, p.z),
             Point(p.x, p.y, (p.z + p.height) % 0x1_0000_0000)]
  {
    AddIs(p.x, p.length);
    AddIs(p.y, p.width);
    AddIs(p.z, p.height);
  }

  lemma {:induction false} OfferHolds(bin: Bin, points: seq<Point>, corners: seq<Point>, at: Point)
    ensures at in Offer(bin, points, corners) <==>
            at in points || (at in corners && at.x <= bin.length && at.y <= bin.width && at.z <= bin.height)
  {
    if corners == [] {
    } else {
      OfferHolds(bin, points, corners[..|corners| - 1], at);
      assert corners == corners[..|corners| - 1] + [corners[|corners| - 1]];
    }
  }

  /** A step leaves its item over or places it, and changes nothing else. */
  lemma PackOneIs(bin: Bin, s: Packing, item: Item) returns (put: bool, p: Placement, reason: Reason)
    ensures var t := PackOne(bin, s, item);
      if put then PutAt(bin, s, item, t, p)
      else LeftOver(bin, s, item, t, reason) && (t.points == s.points || t.points == InOrder(s.points))
  {
    hide FirstFit, InOrder, Offer, Volume, Accepts, Wrap;
    var points := InOrder(s.points);
    p, reason := Placed(item, Point(0, 0, 0), false), NoSpace;
    FirstFitExactly(bin, s.placements, points, item);
    forall at
      ensures at in points <==> at in s.points
    {
      InOrderSame(s.points, at);
    }
    var found := FirstFit(bin, s.placements, points, item);
    put := |PackOne(bin, s, item).placements| > |s.placements|;
    if put {
      p := found.value;
    } else {
      reason := PackOne(bin, s, item).unplaced[|s.unplaced|].reason;
    }
  }

  // --- Every item once ---

  /** `placed` and `rest` are the items behind the placements and behind the leftovers. */
  predicate Accounts(s: Packing, placed: seq<Item>, rest: seq<Item>) {
    && |placed| == |s.placements| && |rest| == |s.unplaced|
    && (forall i :: 0 <= i < |placed| ==>
          IsOf(s.placements[i], placed[i]))
    && (forall i :: 0 <= i < |rest| ==>
          s.unplaced[i].awb == rest[i].awb && s.unplaced[i].weight == rest[i].weight)
  }

  lemma AccountsPut(bin: Bin, s: Packing, item: Item, t: Packing, p: Placement, placed: seq<Item>, rest: seq<Item>)
    requires Accounts(s, placed, rest) && PutAt(bin, s, item, t, p)
    ensures Accounts(t, placed + [item], rest)
  {
    hide FitsAt, InOrder, Offer, Corners;
    FitsIsPlaced(bin, s, item, p);
  }

  lemma FitsIsPlaced(bin: Bin, s: Packing, item: Item, p: Placement)
    requires FitsAt(bin, s.placements, s.points, item, p)
    ensures IsOf(p, item)
  {
  }

  lemma {:induction false} PackAllAccounts(bin: Bin, items: seq<Item>) returns (placed: seq<Item>, rest: seq<Item>)
    ensures Accounts(PackAll(bin, items), placed, rest)
    ensures multiset(placed) + multiset(rest) == multiset(items)
  {
    hide PackOne, PutAt;
    if items == [] {
      placed, rest := [], [];
    } else {
      var front, item := items[..|items| - 1], items[|items| - 1];
      assert items == front + [item];
      placed, rest := PackAllAccounts(bin, front);
      var s := PackAll(bin, front);
      var put, p, reason := PackOneIs(bin, s, item);
      if put {
        AccountsPut(bin, s, item, PackAll(bin, items), p, placed, rest);
        placed := placed + [item];
      } else {
        rest := rest + [item];
      }
    }
  }

  /** Every item is placed or left over exactly once, with its weight, height and footprint up to a quarter turn. */
  lemma EveryItemOnce(bin: Bin, items: seq<Item>) returns (placed: seq<Item>, rest: seq<Item>)
    ensures Accounts(Pack(bin, items), placed, rest)
    ensures multiset(placed) + multiset(rest) == multiset(items)
  {
    placed, rest := PackAllAccounts(bin, ByVolume(items));
    SortKeeps(items, (a: Item, b: Item) => SortKey(a) > SortKey(b));
  }

  // --- Weight ---

  function Weights(ps: seq<Placement>): nat {
    if ps == [] then 0 else Weights(ps[..|ps| - 1]) + ps[|ps| - 1].weight
  }

  function Volumes(ps: seq<Placement>): nat {
    if ps == [] then 0 else
      var p := ps[|ps| - 1];
      Volumes(ps[..|ps| - 1]) + Volume(p.length, p.width, p.height)
  }

  /** The totals reported are the sums over the placements in 64 bits, and the reported weight is within the payload. */
  lemma {:induction false} TotalsAreSums(bin: Bin, items: seq<Item>)
    ensures var s := PackAll(bin, items);
      s.weight == Wrap(Weights(s.placements)) <= bin.maxPayload && s.volume == Wrap(Volumes(s.placements))
  {
    hide PackOne, Volume, FitsAt, InOrder, Offer, Wrap;
    if items == [] {
      WrapSmall(0);
    } else {
      var front, item := items[..|items| - 1], items[|items| - 1];
      TotalsAreSums(bin, front);
      var s, t := PackAll(bin, front), PackAll(bin, items);
      var put, p, reason := PackOneIs(bin, s, item);
      if put {
        FitsIsPlaced(bin, s, item, p);
        assert t.placements[..|t.placements| - 1] == s.placements;
        WrapSum(Weights(s.placements), item.weight);
        WrapSum(Volumes(s.placements), Volume(p.length, p.width, p.height));
      }
    }
  }

  /** Unless the payload limit is within 2^32 of 2^64, the weight does not wrap and the boxes placed are within it. */
  lemma {:induction false} PayloadIsKept(bin: Bin, items: seq<Item>)
    requires bin.maxPayload + MODULUS <= WORD
    ensures PackAll(bin, items).weight == Weights(PackAll(bin, items).placements) <= bin.maxPayload
  {
    hide PackOne, Volume, FitsAt, InOrder, Offer, Wrap;
    if items == [] {
    } else {
      var front, item := items[..|items| - 1], items[|items| - 1];
      PayloadIsKept(bin, front);
      var s, t := PackAll(bin, front), PackAll(bin, items);
      var put, p, reason := PackOneIs(bin, s, item);
      if put {
        FitsIsPlaced(bin, s, item, p);
        assert t.placements[..|t.placements| - 1] == s.placements;
        WrapSmall(s.weight + item.weight);
      }
    }
  }

  // --- Geometry ---

  predicate Inside(bin: Bin, p: Placement) {
    p.x + p.length <= bin.length && p.y + p.width <= bin.width && p.z + p.height <= bin.height
  }

  predicate Apart(p: Placement, q: Placement) {
    || p.x + p.length <= q.x || q.x + q.length <= p.x
    || p.y + p.width <= q.y || q.y + q.width <= p.y
    || p.z + p.height <= q.z || q.z + q.height <= p.z
  }

  /** The far corner of the box can be written in 32 bits. */
  predicate CornerFits(p: Placement) {
    p.x + p.length < MODULUS && p.y + p.width < MODULUS && p.z + p.height < MODULUS
  }

  predicate AllCornersFit(ps: seq<Placement>) {
    forall i :: 0 <= i < |ps| ==> CornerFits(ps[i])
  }

  /** Every box lies in the truck and no two share space. */
  predicate Sound(bin: Bin, ps: seq<Placement>) {
    && (forall i :: 0 <= i < |ps| ==> Inside(bin, ps[i]))
    && (forall i, j :: 0 <= i < j < |ps| ==> Apart(ps[i], ps[j]))
  }

  /** As long as nothing overflows, a spot is taken exactly when the box there is inside and shares no space. */
  lemma AcceptedExactly(bin: Bin, placements: seq<Placement>, p: Placement)
    requires AllCornersFit(placements) && CornerFits(p)
    ensures Accepts(bin, placements, SpotOf(p), p.length, p.width, p.height) <==>
            Inside(bin, p) && forall i :: 0 <= i < |placements| ==> Apart(placements[i], p)
  {
    hide Collides;
    forall i | 0 <= i < |placements|
      ensures Apart(placements[i], p) <==> !Collides(placements[i], SpotOf(p), p.length, p.width, p.height)
    {
      ApartExactly(placements[i], p);
    }
  }

  lemma ApartExactly(q: Placement, p: Placement)
    requires CornerFits(p) && CornerFits(q)
    ensures Apart(q, p) <==> !Collides(q, SpotOf(p), p.length, p.width, p.height)
  {
  }

  lemma AcceptedIsInside(bin: Bin, placements: seq<Placement>, p: Placement)
    requires Accepts(bin, placements, SpotOf(p), p.length, p.width, p.height) && CornerFits(p)
    ensures Inside(bin, p)
  {
  }

  lemma AcceptedIsApart(bin: Bin, placements: seq<Placement>, p: Placement, i: nat)
    requires Accepts(bin, placements, SpotOf(p), p.length, p.width, p.height) && CornerFits(p)
    requires i < |placements| && CornerFits(placements[i])
    ensures Apart(placements[i], p)
  {
    assert !Collides(placements[i], SpotOf(p), p.length, p.width, p.height);
  }

  lemma SoundPush(bin: Bin, ps: seq<Placement>, p: Placement)
    requires Sound(bin, ps) && Accepts(bin, ps, SpotOf(p), p.length, p.width, p.height)
    requires AllCornersFit(ps) && CornerFits(p)
    ensures Sound(bin, ps + [p])
  {
    hide Accepts, Apart, Inside;
    AcceptedIsInside(bin, ps, p);
    forall i | 0 <= i < |ps|
      ensures Apart(ps[i], p)
    {
      AcceptedIsApart(bin, ps, p, i);
    }
  }

  lemma {:induction false} SoundIfCornersFit(bin: Bin, items: seq<Item>)
    ensures var ps := PackAll(bin, items).placements; AllCornersFit(ps) ==> Sound(bin, ps)
  {
    hide PackOne, InOrder, Offer, Volume, Accepts, Sound, CornerFits;
    if items == [] {
      NothingIsSound(bin);
    } else {
      var front, item := items[..|items| - 1], items[|items| - 1];
      SoundIfCornersFit(bin, front);
      var s, t := PackAll(bin, front), PackAll(bin, items);
      var put, p, reason := PackOneIs(bin, s, item);
      if put && AllCornersFit(t.placements) {
        assert forall i :: 0 <= i < |s.placements| ==> s.placements[i] == t.placements[i];
        assert t.placements[|s.placements|] == p;
        SoundPush(bin, s.placements, p);
      }
    }
  }

  lemma NothingIsSound(bin: Bin)
    ensures Sound(bin, [])
  {
  }

  /** The boxes lie inside the truck and apart exactly when no far corner overflows 32 bits. */
  lemma SoundExactly(bin: Bin, items: seq<Item>)
    ensures var ps := Pack(bin, items).placements; Sound(bin, ps) <==> AllCornersFit(ps)
  {
    SoundIfCornersFit(bin, ByVolume(items));
  }

  // --- When nothing overflows ---

  predicate PointsWithin(bin: Bin, points: seq<Point>) {
    forall at :: at in points ==> at.x <= bin.length && at.y <= bin.width && at.z <= bin.height
  }

  lemma {:induction false} OfferStaysWithin(bin: Bin, points: seq<Point>, corners: seq<Point>)
    requires PointsWithin(bin, points)
    ensures PointsWithin(bin, Offer(bin, points, corners))
  {
    if corners == [] {
    } else {
      OfferStaysWithin(bin, points, corners[..|corners| - 1]);
    }
  }

  /** No box can reach past 32 bits from a point inside the truck. */
  predicate Small(bin: Bin, item: Item) {
    && bin.length + item.length < MODULUS && bin.length + item.width < MODULUS
    && bin.width + item.width < MODULUS && bin.width + item.length < MODULUS
    && bin.height + item.height < MODULUS
  }

  lemma SmallFits(bin: Bin, s: Packing, item: Item, p: Placement)
    requires Small(bin, item) && PointsWithin(bin, s.points) && FitsAt(bin, s.placements, s.points, item, p)
    ensures CornerFits(p)
  {
    hide Accepts;
    var at := SpotOf(p);
    assert at in s.points;
    assert IsOf(p, item);
  }

  lemma {:induction false} SmallItemsFit(bin: Bin, items: seq<Item>)
    requires forall item :: item in items ==> Small(bin, item)
    ensures AllCornersFit(PackAll(bin, items).placements) && PointsWithin(bin, PackAll(bin, items).points)
  {
    hide PackOne, InOrder, Offer, Volume, Accepts, Corners;
    if items == [] {
    } else {
      var front, item := items[..|items| - 1], items[|items| - 1];
      assert items == front + [item];
      SmallItemsFit(bin, front);
      var s := PackAll(bin, front);
      forall at | at in InOrder(s.points)
        ensures at in s.points
      {
        InOrderSame(s.points, at);
      }
      var put, p, reason := PackOneIs(bin, s, item);
      if put {
        SmallFits(bin, s, item, p);
        OfferStaysWithin(bin, InOrder(s.points), Corners(p));
      }
    }
  }

  /** For items whose size added to the truck's stays below 2^32 the packing is always sound. */
  lemma SmallItemsPackSoundly(bin: Bin, items: seq<Item>)
    requires forall item :: item in items ==> Small(bin, item)
    ensures Sound(bin, Pack(bin, items).placements)
  {
    SortKeeps(items, (a: Item, b: Item) => SortKey(a) > SortKey(b));
    assert forall item :: item in multiset(ByVolume(items)) ==> item in multiset(items);
    forall item | item in ByVolume(items)
      ensures Small(bin, item)
    {
      assert item in multiset(ByVolume(items));
      assert item in multiset(items);
    }
    SmallItemsFit(bin, ByVolume(items));
    SoundExactly(bin, items);
  }

  // --- Volume ---

  type Cell = (int, int, int)

  ghost function Cells(x: int, y: int, z: int, l: nat, w: nat, h: nat): set<Cell> {
    set a, b, c | x <= a < x + l && y <= b < y + w && z <= c < z + h :: (a, b, c)
  }

  lemma {:induction false} ColumnCount(x: int, y: int, z: int, h: nat)
    ensures |Cells(x, y, z, 1, 1, h)| == h
  {
    if h == 0 {
      assert Cells(x, y, z, 1, 1, 0) == {};
    } else {
      ColumnCount(x, y, z, h - 1);
      assert Cells(x, y, z, 1, 1, h) == Cells(x, y, z, 1, 1, h - 1) + {(x, y, z + h - 1)};
    }
  }

  lemma OneMoreColumn(w: nat, h: nat)
    requires w > 0
    ensures w * h == (w - 1) * h + h
  {
  }

  lemma {:induction false} SlabCount(x: int, y: int, z: int, w: nat, h: nat)
    ensures |Cells(x, y, z, 1, w, h)| == w * h
  {
    if w == 0 {
      assert Cells(x, y, z, 1, 0, h) == {};
    } else {
      SlabCount(x, y, z, w - 1, h);
      ColumnCount(x, y + w - 1, z, h);
      assert Cells(x, y, z, 1, w, h) == Cells(x, y, z, 1, w - 1, h) + Cells(x, y + w - 1, z, 1, 1, h);
      assert Cells(x, y, z, 1, w - 1, h) !! Cells(x, y + w - 1, z, 1, 1, h);
      OneMoreColumn(w, h);
    }
  }

  lemma {:induction false} CellCount(x: int, y: int, z: int, l: nat, w: nat, h: nat)
    ensures |Cells(x, y, z, l, w, h)| == Volume(l, w, h)
  {
    if l == 0 {
      assert Cells(x, y, z, 0, w, h) == {};
    } else {
      CellCount(x, y, z, l - 1, w, h);
      SlabCount(x + l - 1, y, z, w, h);
      assert Cells(x, y, z, l, w, h) == Cells(x, y, z, l - 1, w, h) + Cells(x + l - 1, y, z, 1, w, h);
      assert Cells(x, y, z, l - 1, w, h) !! Cells(x + l - 1, y, z, 1, w, h);
      OneMore(l, w, h);
    }
  }

  lemma OneMore(l: nat, w: nat, h: nat)
    requires l > 0
    ensures Volume(l, w, h) == Volume(l - 1, w, h) + w * h
  {
    assert l * w == (l - 1) * w + w;
    assert ((l - 1) * w + w) * h == (l - 1) * w * h + w * h;
  }

  ghost function CellsOf(p: Placement): set<Cell> {
    Cells(p.x, p.y, p.z, p.length, p.width, p.height)
  }

  ghost function AllCells(ps: seq<Placement>): set<Cell> {
    if ps == [] then {} else AllCells(ps[..|ps| - 1]) + CellsOf(ps[|ps| - 1])
  }

  lemma ApartCells(p: Placement, q: Placement)
    requires Apart(p, q)
    ensures CellsOf(p) !! CellsOf(q)
  {
  }

  lemma {:induction false} ApartFromAll(ps: seq<Placement>, q: Placement)
    requires forall i :: 0 <= i < |ps| ==> Apart(ps[i], q)
    ensures AllCells(ps) !! CellsOf(q)
  {
    hide Apart, CellsOf;
    if ps == [] {
    } else {
      ApartFromAll(ps[..|ps| - 1], q);
      ApartCells(ps[|ps| - 1], q);
    }
  }

  lemma InsideCells(bin: Bin, p: Placement)
    requires Inside(bin, p)
    ensures CellsOf(p) <= Cells(0, 0, 0, bin.length, bin.width, bin.height)
  {
  }

  /** Boxes that lie apart fill as many cells as their volumes add up to. */
  lemma {:induction false} SoundCells(bin: Bin, ps: seq<Placement>)
    requires Sound(bin, ps)
    ensures |AllCells(ps)| == Volumes(ps)
    ensures AllCells(ps) <= Cells(0, 0, 0, bin.length, bin.width, bin.height)
  {
    hide Apart, Inside, Cells, CellsOf, Volume;
    if ps == [] {
    } else {
      var front, p := ps[..|ps| - 1], ps[|ps| - 1];
      SoundCells(bin, front);
      ApartFromAll(front, p);
      InsideCells(bin, p);
      CellsOfCount(p);
    }
  }

  lemma CellsOfCount(p: Placement)
    ensures |CellsOf(p)| == Volume(p.length, p.width, p.height)
  {
    CellCount(p.x, p.y, p.z, p.length, p.width, p.height);
  }

  /**
   Whenever the packing is sound, the volume of the boxes is no more than the truck's; and if that can be written in
   64 bits, so is the volume reported.
   */
  lemma VolumeWithinBin(bin: Bin, items: seq<Item>)
    requires AllCornersFit(Pack(bin, items).placements)
    ensures Volumes(Pack(bin, items).placements) <= Volume(bin.length, bin.width, bin.height)
    ensures Volume(bin.length, bin.width, bin.height) < WORD ==>
              Pack(bin, items).volume == Volumes(Pack(bin, items).placements)
  {
    hide Cells, AllCells, Volume, Wrap;
    SoundExactly(bin, items);
    TotalsAreSums(bin, ByVolume(items));
    SoundCells(bin, Pack(bin, items).placements);
    SubsetCount(AllCells(Pack(bin, items).placements), Cells(0, 0, 0, bin.length, bin.width, bin.height));
    CellCount(0, 0, 0, bin.length, bin.width, bin.height);
    if Volume(bin.length, bin.width, bin.height) < WORD {
      WrapSmall(Volumes(Pack(bin, items).placements));
    }
  }

  // --- From packing to loading ---

  function Awbs(ps: seq<Placement>): seq<string> {
    seq(|ps|, i requires 0 <= i < |ps| => ps[i].awb)
  }

  /** A plan keeps the placed AWBs and counts the placements. */
  function PlanOf(s: Packing, linked: bool): Consolidation.Plan {
    Consolidation.Plan(Awbs(s.placements), |s.placements|, linked)
  }

  /** Some sequence of scans loads the plan exactly when something was placed and no AWB was placed twice. */
  lemma PackedPlanLoadsExactly(bin: Bin, items: seq<Item>, linked: bool, yard: ContainerSaves.State)
    ensures var plan := PlanOf(Pack(bin, items), linked);
      (exists actions :: Consolidation.Run(plan, Consolidation.Initial(yard), actions).status.Loaded?)
      <==> plan.placed != [] && NoDup(plan.placed)
  {
    var plan := PlanOf(Pack(bin, items), linked);
    Consolidation.LoadableExactly(plan, yard);
    DistinctCount(plan.placed);
  }
}
