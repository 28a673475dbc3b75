/**
 Packing boxes into a truck by extreme points. Coordinates are 32-bit, weights and volumes 64-bit, and their sums and
 products wrap around.
 */
module BinPack {
  import opened Outcome
  import opened Seqs

  const MODULUS: int := 0x1_0000_0000

  const WORD: int := 0x1_0000_0000_0000_0000

  type u32 = x: int | 0 <= x < 0x1_0000_0000

  type u64 = x: int | 0 <= x < 0x1_0000_0000_0000_0000

  datatype Item = Item(awb: string, weight: u32, length: u32, width: u32, height: u32, estimated: bool)

  datatype Bin = Bin(length: u32, width: u32, height: u32, maxPayload: u64)

  datatype Placement = Placement(
    awb: string, x: u32, y: u32, z: u32, length: u32, width: u32, height: u32,
    weight: u32, estimated: bool, rotated: bool)

  datatype Reason = ZeroDimension | WeightLimit | NoSpace

  datatype Unplaced = Unplaced(awb: string, weight: u32, reason: Reason)

  datatype Point = Point(x: u32, y: u32, z: u32)

  datatype Packing = Packing(
    placements: seq<Placement>, unplaced: seq<Unplaced>, weight: u64, volume: u64, points: seq<Point>)

  /** Addition of the machine's 32-bit integers. */
  function Add(a: u32, b: u32): u32 {
    if a + b < MODULUS then a + b else a + b - MODULUS
  }

  lemma AddIs(a: u32, b: u32)
    ensures Add(a, b) == (a + b) % 0x1_0000_0000
  {
  }

  /** What remains of a number in 64 bits; additions and multiplications of the machine keep exactly this much. */
  function Wrap(n: nat): u64 {
    n % WORD
  }

  lemma WrapSmall(n: nat)
    requires n < WORD
    ensures Wrap(n) == n
  {
  }

  /** Wrapping on the way makes no difference. */
  lemma WrapSum(n: nat, m: nat)
    ensures Wrap(Wrap(n) + m) == Wrap(n + m)
  {
    var k := n / WORD;
    assert n == k * WORD + Wrap(n);
    assert n + m == k * WORD + (Wrap(n) + m);
    WrapShift(Wrap(n) + m, k);
  }

  lemma {:induction false} WrapShift(n: nat, k: nat)
    ensures Wrap(k * WORD + n) == Wrap(n)
  {
  }

  // --- Stable sorting ---

  /** Insert behind everything that does not have to come after. */
  function Insert<T>(sorted: seq<T>, t: T, before: (T, T) -> bool): seq<T> {
    if sorted == [] then [t] else
      var last := sorted[|sorted| - 1];
      if before(t, last) then Insert(sorted[..|sorted| - 1], t, before) + [last] else sorted + [t]
  }

  function StableSort<T>(s: seq<T>, before: (T, T) -> bool): seq<T> {
    if s == [] then [] else Insert(StableSort(s[..|s| - 1], before), s[|s| - 1], before)
  }

  lemma {:induction false} InsertKeeps<T>(sorted: seq<T>, t: T, before: (T, T) -> bool)
    ensures multiset(Insert(sorted, t, before)) == multiset(sorted) + multiset{t}
  {
    if sorted == [] {
    } else {
      var front, last := sorted[..|sorted| - 1], sorted[|sorted| - 1];
      assert sorted == front + [last];
      InsertKeeps(front, t, before);
    }
  }

  lemma {:induction false} SortKeeps<T>(s: seq<T>, before: (T, T) -> bool)
    ensures multiset(StableSort(s, before)) == multiset(s)
  {
    if s == [] {
    } else {
      var front, last := s[..|s| - 1], s[|s| - 1];
      assert s == front + [last];
      SortKeeps(front, before);
      InsertKeeps(StableSort(front, before), last, before);
    }
  }

  function Volume(length: nat, width: nat, height: nat): nat {
    var base: nat := length * width;
    base * height
  }

  /** The volume as the machine computes it. */
  function SortKey(item: Item): u64 {
    Wrap(Volume(item.length, item.width, item.height))
  }

  /** Larger boxes first. */
  function ByVolume(items: seq<Item>): seq<Item> {
    StableSort(items, (a: Item, b: Item) => SortKey(a) > SortKey(b))
  }

  /** Lowest first, then nearest along the length, then along the width. */
  predicate Precedes(a: Point, b: Point) {
    a.z < b.z || (a.z == b.z && (a.x < b.x || (a.x == b.x && a.y < b.y)))
  }

  function Dedup(points: seq<Point>): seq<Point> {
    if |points| <= 1 then points else
      var front, last := points[..|points| - 1], points[|points| - 1];
      if points[|points| - 2] == last then Dedup(front) else Dedup(front) + [last]
  }

  function InOrder(points: seq<Point>): seq<Point> {
    Dedup(StableSort(points, Precedes))
  }

  // --- Placing one box ---

  /** The candidate box collides with a placed one, by the wrapped sums. */
  predicate Collides(p: Placement, at: Point, l: u32, w: u32, h: u32) {
    && at.x < Add(p.x, p.length) && Add(at.x, l) > p.x
    && at.y < Add(p.y, p.width) && Add(at.y, w) > p.y
    && at.z < Add(p.z, p.height) && Add(at.z, h) > p.z
  }

  predicate CollidesWithAny(placements: seq<Placement>, at: Point, l: u32, w: u32, h: u32) {
    exists i :: 0 <= i < |placements| && Collides(placements[i], at, l, w, h)
  }

  /** The candidate box passes the bounds test and collides with nothing. */
  predicate Accepts(bin: Bin, placements: seq<Placement>, at: Point, l: u32, w: u32, h: u32) {
    && Add(at.x, l) <= bin.length && Add(at.y, w) <= bin.width && Add(at.z, h) <= bin.height
    && !CollidesWithAny(placements, at, l, w, h)
  }

  function Placed(item: Item, at: Point, rotated: bool): Placement {
    if rotated
    then Placement(item.awb, at.x, at.y, at.z, item.width, item.length, item.height, item.weight, item.estimated, true)
    else Placement(item.awb, at.x, at.y, at.z, item.length, item.width, item.height, item.weight, item.estimated, false)
  }

  /** The first point that takes the box, as it is or turned by 90 degrees. */
  function FirstFit(bin: Bin, placements: seq<Placement>, points: seq<Point>, item: Item): Option<Placement> {
    if points == [] then None else
      match FirstFit(bin, placements, points[..|points| - 1], item)
      case Some(p) => Some(p)
      case None =>
        var at := points[|points| - 1];
        if Accepts(bin, placements, at, item.length, item.width, item.height) then Some(Placed(item, at, false))
        else if Accepts(bin, placements, at, item.width, item.length, item.height) then Some(Placed(item, at, true))
        else None
  }

  /** The three corners of a box from which others may start. */
  function Corners(p: Placement): seq<Point> {
    [Point(Add(p.x, p.length), p.y, p.z), Point(p.x, Add(p.y, p.width), p.z), Point(p.x, p.y, Add(p.z, p.height))]
  }

  function Offer(bin: Bin, points: seq<Point>, corners: seq<Point>): seq<Point> {
    if corners == [] then points else
      var before, corner := Offer(bin, points, corners[..|corners| - 1]), corners[|corners| - 1];
      if corner.x <= bin.length && corner.y <= bin.width && corner.z <= bin.height && corner !in before
      then before + [corner]
      else before
  }

  function Reject(s: Packing, item: Item, reason: Reason): Packing {
    s.(unplaced := s.unplaced + [Unplaced(item.awb, item.weight, reason)])
  }

  function PackOne(bin: Bin, s: Packing, item: Item): Packing {
    if item.length == 0 || item.width == 0 || item.height == 0 then Reject(s, item, ZeroDimension)
    else if Wrap(s.weight + item.weight) > bin.maxPayload then Reject(s, item, WeightLimit)
    else
      var points := InOrder(s.points);
      match FirstFit(bin, s.placements, points, item)
      case None => Reject(s.(points := points), item, NoSpace)
      case Some(p) =>
        Packing(s.placements + [p], s.unplaced, Wrap(s.weight + item.weight),
                Wrap(s.volume + Volume(p.length, p.width, p.height)), Offer(bin, points, Corners(p)))
  }

  const EMPTY := Packing([], [], 0, 0, [Point(0, 0, 0)])

  function PackAll(bin: Bin, items: seq<Item>): Packing {
    if items == [] then EMPTY else PackOne(bin, PackAll(bin, items[..|items| - 1]), items[|items| - 1])
  }

  function Pack(bin: Bin, items: seq<Item>): Packing {
    PackAll(bin, ByVolume(items))
  }

  // --- The order of packing ---

  /** An order by some key: `before` is strict, and items that come before neither way are interchangeable. */
  ghost predicate OrdersByKey<T(!new)>(before: (T, T) -> bool) {
    && (forall a, b :: before(a, b) ==> !before(b, a))
    && (forall a, b, c :: !before(a, b) && !before(b, c) ==> !before(a, c))
  }

  ghost predicate Sorted<T>(s: seq<T>, before: (T, T) -> bool) {
    forall i, j :: 0 <= i < j < |s| ==> !before(s[j], s[i])
  }

  lemma {:induction false} InsertSorts<T(!new)>(sorted: seq<T>, t: T, before: (T, T) -> bool)
    requires OrdersByKey(before) && Sorted(sorted, before)
    ensures Sorted(Insert(sorted, t, before), before)
    ensures forall x :: x in Insert(sorted, t, before) ==> x in sorted || x == t
  {
    if sorted == [] {
    } else {
      var front, last := sorted[..|sorted| - 1], sorted[|sorted| - 1];
      if before(t, last) {
        InsertSorts(front, t, before);
        var longer := Insert(front, t, before);
        forall i | 0 <= i < |longer|
          ensures !before(last, longer[i])
        {
          assert longer[i] in longer;
        }
      } else {
        forall i | 0 <= i < |sorted|
          ensures !before(t, sorted[i])
        {
          assert i < |front| ==> !before(last, sorted[i]);
        }
      }
    }
  }

  lemma {:induction false} SortSorts<T(!new)>(s: seq<T>, before: (T, T) -> bool)
    requires OrdersByKey(before)
    ensures Sorted(StableSort(s, before), before)
  {
    if s == [] {
    } else {
      SortSorts(s[..|s| - 1], before);
      InsertSorts(StableSort(s[..|s| - 1], before), s[|s| - 1], before);
    }
  }

  /** The product of the sides, in 64 bits. */
  lemma SortKeyIs(item: Item)
    ensures SortKey(item) == item.length * item.width * item.height % 0x1_0000_0000_0000_0000
  {
  }

  /** Items are packed from the largest 64-bit volume down. */
  lemma LargestFirst(items: seq<Item>)
    ensures var sorted := ByVolume(items);
      forall i, j :: 0 <= i < j < |sorted| ==> SortKey(sorted[i]) >= SortKey(sorted[j])
    ensures forall item: Item ::
      SortKey(item) == item.length * item.width * item.height % 0x1_0000_0000_0000_0000
  {
    hide SortKey;
    SortSorts(items, (a: Item, b: Item) => SortKey(a) > SortKey(b));
    forall item: Item
      ensures SortKey(item) == item.length * item.width * item.height % 0x1_0000_0000_0000_0000
    {
      SortKeyIs(item);
    }
  }

  /** Whatever is inserted goes behind its equals. */
  lemma {:induction false} InsertIsStable<T(!new)>(sorted: seq<T>, t: T, before: (T, T) -> bool, alike: T -> bool)
    requires Sorted(sorted, before) && OrdersByKey(before)
    requires forall a, b :: alike(a) && alike(b) ==> !before(a, b)
    ensures Filter(Insert(sorted, t, before), alike) == Filter(sorted, alike) + (if alike(t) then [t] else [])
  {
    if sorted == [] {
      assert [t][..0] == [];
    } else {
      var front, last := sorted[..|sorted| - 1], sorted[|sorted| - 1];
      if before(t, last) {
        var longer := Insert(front, t, before);
        InsertIsStable(front, t, before, alike);
        assert (longer + [last])[..|longer|] == longer;
        if alike(t) && !alike(last) {
          assert Filter(sorted, alike) == Filter(front, alike) + [];
        }
      } else {
        assert (sorted + [t])[..|sorted|] == sorted;
      }
    }
  }

  lemma {:induction false} SortIsStable<T(!new)>(s: seq<T>, before: (T, T) -> bool, alike: T -> bool)
    requires OrdersByKey(before)
    requires forall a, b :: alike(a) && alike(b) ==> !before(a, b)
    ensures Filter(StableSort(s, before), alike) == Filter(s, alike)
  {
    if s == [] {
    } else {
      SortIsStable(s[..|s| - 1], before, alike);
      SortSorts(s[..|s| - 1], before);
      InsertIsStable(StableSort(s[..|s| - 1], before), s[|s| - 1], before, alike);
    }
  }

  /** Items of one volume are packed in the order they were given in. */
  lemma EqualsKeepOrder(items: seq<Item>, key: u64)
    ensures var same := (item: Item) => SortKey(item) == key;
      Filter(ByVolume(items), same) == Filter(items, same)
  {
    hide SortKey;
    var before, same := (a: Item, b: Item) => SortKey(a) > SortKey(b), (item: Item) => SortKey(item) == key;
    SortIsStable(items, before, same);
  }

  /** Points are tried from the floor up, each once. */
  lemma {:induction false} DedupAscends(points: seq<Point>)
    requires Sorted(points, Precedes)
    ensures var d := Dedup(points);
      && (forall i, j :: 0 <= i < j < |d| ==> Precedes(d[i], d[j]))
      && (points != [] ==> d != [] && d[|d| - 1] == points[|points| - 1])
  {
    if |points| <= 1 {
    } else {
      DedupAscends(points[..|points| - 1]);
    }
  }

  /** Of two points, the lower one is tried first, then the one nearer along the length, then along the width. */
  lemma PointsAscend(points: seq<Point>)
    ensures var sorted := InOrder(points);
      forall i, j :: 0 <= i < j < |sorted| ==>
        || sorted[i].z < sorted[j].z
        || (sorted[i].z == sorted[j].z && sorted[i].x < sorted[j].x)
        || (sorted[i].z == sorted[j].z && sorted[i].x == sorted[j].x && sorted[i].y < sorted[j].y)
  {
    SortSorts(points, Precedes);
    DedupAscends(StableSort(points, Precedes));
  }

  // --- The loops ---

  method OverlapsAny(placements: seq<Placement>, at: Point, l: u32, w: u32, h: u32) returns (found: bool)
    ensures found == CollidesWithAny(placements, at, l, w, h)
  {
    for i := 0 to |placements|
      invariant forall k :: 0 <= k < i ==> !Collides(placements[k], at, l, w, h)
    {
      if Collides(placements[i], at, l, w, h) {
        return true;
      }
    }
    return false;
  }

  lemma {:induction false} FirstFitSticks(bin: Bin, placements: seq<Placement>, points: seq<Point>, item: Item, n: nat)
    requires n <= |points| && FirstFit(bin, placements, points[..n], item).Some?
    ensures FirstFit(bin, placements, points, item) == FirstFit(bin, placements, points[..n], item)
  {
    hide Accepts;
    if n == |points| {
      assert points[..n] == points;
    } else {
      assert points[..|points| - 1][..n] == points[..n];
      FirstFitSticks(bin, placements, points[..|points| - 1], item, n);
    }
  }

  method FindSpot(bin: Bin, placements: seq<Placement>, points: seq<Point>, item: Item)
    returns (spot: Option<Placement>)
    ensures spot == FirstFit(bin, placements, points, item)
  {
    hide Collides, CollidesWithAny;
    for i := 0 to |points|
      invariant FirstFit(bin, placements, points[..i], item).None?
    {
      var ep := points[i];
      assert points[..i + 1][..i] == points[..i];
      for turned := 0 to 2
        invariant turned > 0 ==> !Accepts(bin, placements, ep, item.length, item.width, item.height)
        invariant turned > 1 ==> !Accepts(bin, placements, ep, item.width, item.length, item.height)
      {
        var l, w, h := if turned == 0 then item.length else item.width, if turned == 0 then item.width else item.length,
          item.height;
        if Add(ep.x, l) > bin.length || Add(ep.y, w) > bin.width || Add(ep.z, h) > bin.height {
          continue;
        }
        var overlaps := OverlapsAny(placements, ep, l, w, h);
        if overlaps {
          continue;
        }
        FirstFitSticks(bin, placements, points, item, i + 1);
        return Some(Placed(item, ep, turned == 1));
      }
    }
    assert points[..|points|] == points;
    return None;
  }

  method ComputePack(bin: Bin, items: seq<Item>) returns (result: Packing)
    ensures result == Pack(bin, items)
  {
    hide StableSort, FirstFit, Volume, InOrder, ByVolume, Wrap;
    var sorted := ByVolume(items);
    var placements: seq<Placement>, unplaced: seq<Unplaced> := [], [];
    var totalWeight: u64, volumeUsed: u64 := 0, 0;
    var eps := [Point(0, 0, 0)];
    for i := 0 to |sorted|
      invariant Packing(placements, unplaced, totalWeight, volumeUsed, eps) == PackAll(bin, sorted[..i])
    {
      var item := sorted[i];
      assert sorted[..i + 1][..i] == sorted[..i];
      if item.length == 0 || item.width == 0 || item.height == 0 {
        unplaced := unplaced + [Unplaced(item.awb, item.weight, ZeroDimension)];
        continue;
      }
      if Wrap(totalWeight + item.weight) > bin.maxPayload {
        unplaced := unplaced + [Unplaced(item.awb, item.weight, WeightLimit)];
        continue;
      }
      eps := InOrder(eps);
      var spot := FindSpot(bin, placements, eps, item);
      if spot.None? {
        unplaced := unplaced + [Unplaced(item.awb, item.weight, NoSpace)];
        continue;
      }
      var p := spot.value;
      totalWeight := Wrap(totalWeight + item.weight);
      volumeUsed := Wrap(volumeUsed + Volume(p.length, p.width, p.height));
      placements := placements + [p];
      eps := OfferCorners(bin, eps, Corners(p));
    }
    assert sorted[..|sorted|] == sorted;
    result := Packing(placements, unplaced, totalWeight, volumeUsed, eps);
  }

  /** New points are kept when they lie in the truck and are not known yet. */
  method OfferCorners(bin: Bin, points: seq<Point>, corners: seq<Point>) returns (eps: seq<Point>)
    ensures eps == Offer(bin, points, corners)
  {
    eps := points;
    for i := 0 to |corners|
      invariant eps == Offer(bin, points, corners[..i])
    {
      assert corners[..i + 1][..i] == corners[..i];
      var corner := corners[i];
      if corner.x <= bin.length && corner.y <= bin.width && corner.z <= bin.height && corner !in eps {
        eps := eps + [corner];
      }
    }
    assert corners[..|corners|] == corners;
  }
}
