/**
 Which trucks can be packed wrongly. The test for one box wraps from 2^32 on, but boxes are tried from the largest
 volume down, so only a truck about as large as 2^32 unit cells ever meets a box that gets through the wrapped test.
 */
module Trucks {
  import opened Outcome
  import opened BinPack
  import opened Packings

  // --- A box that wraps has a large sort key ---

  /** The remainder determines the wrapped value. */
  lemma WrapIs(k: int, r: int, n: nat)
    requires n == k * WORD + r && 0 <= r < WORD
    ensures Wrap(n) == r
  {
  }

  lemma Turned(l: nat, w: nat, h: nat)
    ensures Volume(l, w, h) == Volume(w, l, h) == Volume(h, w, l) == Volume(l, h, w)
  {
    assert (l * w) * h == (w * l) * h;
    assert (l * w) * h == (h * w) * l;
    assert (l * w) * h == (l * h) * w;
  }

  lemma ProductMonotone(a: nat, b: nat, c: nat, d: nat)
    requires a <= c && b <= d
    ensures a * b <= c * d
  {
    assert a * b <= c * b;
    assert c * b <= c * d;
  }

  lemma VolumeMonotone(l: nat, w: nat, h: nat, ll: nat, ww: nat, hh: nat)
    requires l <= ll && w <= ww && h <= hh
    ensures Volume(l, w, h) <= Volume(ll, ww, hh)
  {
    ProductMonotone(l, w, ll, ww);
    ProductMonotone(l * w, h, ll * ww, hh);
  }

  /** One long side and a small cross-section: the volume does not wrap, and is at least the long side. */
  lemma OneLong(l: nat, w: nat, h: nat)
    requires l < MODULUS && 1 <= w && 1 <= h && w * h < MODULUS
    ensures Wrap(Volume(l, w, h)) >= l
  {
    Turned(l, w, h);
    assert Volume(h, w, l) == (h * w) * l;
    ProductMonotone(h * w, l, MODULUS - 1, MODULUS - 1);
    ProductMonotone(1, l, h * w, l);
    WrapSmall(Volume(h, w, l));
  }

  lemma TwoLongExpansion(a: nat, b: nat, h: nat)
    requires a < MODULUS && b < MODULUS && h >= 1
    ensures ((MODULUS - a) * (MODULUS - b)) * h == (h - 1) * WORD + (WORD - h * (a + b) * MODULUS + h * a * b)
  {
    assert (MODULUS - a) * (MODULUS - b) == WORD - (a + b) * MODULUS + a * b;
    var rest := a * b - (a + b) * MODULUS;
    assert (WORD + rest) * h == h * WORD + h * rest;
    assert h * rest == h * a * b - h * (a + b) * MODULUS;
  }

  /** Two sides close to 2^32: the wrapped volume is at least 2^32. */
  lemma TwoLong(a: nat, b: nat, h: nat)
    requires 1 <= a < MODULUS && 1 <= b < MODULUS && 1 <= h && h * (a + b) < MODULUS
    ensures Wrap(Volume(MODULUS - a, MODULUS - b, h)) >= MODULUS
  {
    TwoLongExpansion(a, b, h);
    var q := h * (a + b);
    var r := WORD - q * MODULUS + h * a * b;
    assert h * a * b <= h * a * MODULUS by {
      ProductMonotone(h * a, b, h * a, MODULUS);
    }
    assert h * a * MODULUS <= q * MODULUS - MODULUS by {
      assert q == h * a + h * b;
      assert h * b >= 1;
      assert h * a <= q - 1;
    }
    assert h * a * b >= 0;
    assert r >= WORD - (MODULUS - 1) * MODULUS;
    WrapIs(h - 1, r, Volume(MODULUS - a, MODULUS - b, h));
  }

  lemma ThreeLongExpansion(a: nat, b: nat, c: nat)
    ensures ((MODULUS - a) * (MODULUS - b)) * (MODULUS - c) ==
            (MODULUS - a - b - c) * WORD + ((a * b + b * c + a * c) * MODULUS - a * b * c)
  {
    assert (MODULUS - a) * (MODULUS - b) == WORD - (a + b) * MODULUS + a * b;
    var front := WORD - (a + b) * MODULUS + a * b;
    assert front * (MODULUS - c) == front * MODULUS - front * c;
    assert front * MODULUS == MODULUS * WORD - (a + b) * WORD + a * b * MODULUS;
    assert front * c == WORD * c - (a + b) * c * MODULUS + a * b * c by {
      assert (a + b) * MODULUS * c == (a + b) * c * MODULUS;
    }
    assert (a + b) * c == a * c + b * c;
  }

  /** Three sides close to 2^32: the wrapped volume is at least 2^32. */
  lemma ThreeLong(a: nat, b: nat, c: nat)
    requires 1 <= a < MODULUS && 1 <= b < MODULUS && 1 <= c < MODULUS
    requires a * b + b * c + a * c < MODULUS
    ensures Wrap(Volume(MODULUS - a, MODULUS - b, MODULUS - c)) >= MODULUS
  {
    hide Wrap, Volume;
    ThreeLongExpansion(a, b, c);
    ThreeLongRest(a, b, c);
    VolumeIs(MODULUS - a, MODULUS - b, MODULUS - c);
    WrapIs(MODULUS - a - b - c, (a * b + b * c + a * c) * MODULUS - a * b * c,
           Volume(MODULUS - a, MODULUS - b, MODULUS - c));
  }

  lemma VolumeIs(l: nat, w: nat, h: nat)
    ensures Volume(l, w, h) == (l * w) * h
  {
  }

  lemma ThreeLongRest(a: nat, b: nat, c: nat)
    requires 1 <= a && 1 <= b && 1 <= c < MODULUS
    requires a * b + b * c + a * c < MODULUS
    ensures MODULUS <= (a * b + b * c + a * c) * MODULUS - a * b * c < WORD
  {
    var ab, more := a * b, b * c + a * c;
    ProductMonotone(1, 1, b, c);
    ProductMonotone(1, 1, a, c);
    ProductMonotone(ab, c, ab, MODULUS);
    assert ab * c >= 0;
    assert (ab + more) * MODULUS == ab * MODULUS + more * MODULUS;
  }

  // --- Trucks that cannot be packed wrongly ---

  function Capacity(bin: Bin): nat {
    Volume(bin.length, bin.width, bin.height)
  }

  /** The truck's volume in unit cells, with any of its sides added, stays below 2^32. */
  predicate SafeTruck(bin: Bin) {
    && Capacity(bin) + bin.length < MODULUS
    && Capacity(bin) + bin.width < MODULUS
    && Capacity(bin) + bin.height < MODULUS
  }

  predicate Roomy(bin: Bin) {
    bin.length >= 1 && bin.width >= 1 && bin.height >= 1
  }

  /** In the truck, and strictly inside in at least two directions. */
  predicate Fringe(bin: Bin, at: Point) {
    && at.x <= bin.length && at.y <= bin.width && at.z <= bin.height
    && (|| (at.y < bin.width && at.z < bin.height)
        || (at.x < bin.length && at.z < bin.height)
        || (at.x < bin.length && at.y < bin.width))
  }

  lemma FacesFit(l: nat, w: nat, h: nat)
    requires l >= 1 && w >= 1 && h >= 1
    ensures l * w <= Volume(l, w, h) && w * h <= Volume(l, w, h) && l * h <= Volume(l, w, h)
    ensures h * (l + w) <= Volume(l, w, h) + h
  {
    ProductMonotone(l * w, 1, l * w, h);
    Turned(l, w, h);
    ProductMonotone(h * w, 1, h * w, l);
    ProductMonotone(l * h, 1, l * h, w);
    assert (l - 1) * (w - 1) >= 0;
    assert l + w <= l * w + 1;
    ProductMonotone(h, l + w, h, l * w + 1);
    assert h * (l * w + 1) == l * w * h + h;
  }

  lemma VolumeOfSuccessors(l: nat, u: nat, v: nat)
    ensures Volume(l, u + 1, v + 1) == l * (u * v) + l * u + l * v + l
  {
    assert l * (u + 1) == l * u + l;
    assert (l * u + l) * (v + 1) == (l * u + l) * v + (l * u + l);
    assert (l * u + l) * v == l * u * v + l * v;
    assert l * u * v == l * (u * v);
  }

  lemma PairsBelow(l: nat, w: nat, h: nat, a: nat, b: nat, c: nat)
    requires l >= 1 && a <= l && 1 <= b < w && 1 <= c < h
    ensures a * b + b * c + a * c < Volume(l, w, h)
  {
    hide Volume;
    var u, v := w - 1, h - 1;
    ProductMonotone(a, b, l, u);
    ProductMonotone(b, c, u, v);
    ProductMonotone(a, c, l, v);
    ProductMonotone(1, u * v, l, u * v);
    VolumeOfSuccessors(l, u, v);
    assert 1 * (u * v) == u * v;
  }

  /** A box whose far corner wraps in one direction only. */
  lemma OneWraps(bin: Bin, l: nat, w: nat, h: nat)
    requires Roomy(bin) && Capacity(bin) + bin.length < MODULUS
    requires l < MODULUS <= l + bin.length && 1 <= w <= bin.width && 1 <= h <= bin.height
    ensures Wrap(Volume(l, w, h)) > Capacity(bin)
  {
    hide Wrap;
    FacesFit(bin.length, bin.width, bin.height);
    ProductMonotone(w, h, bin.width, bin.height);
    OneLong(l, w, h);
  }

  /** A box whose far corner wraps in two directions. */
  lemma TwoWrap(bin: Bin, l: nat, w: nat, h: nat)
    requires Roomy(bin) && Capacity(bin) + bin.height < MODULUS
    requires l < MODULUS <= l + bin.length && w < MODULUS <= w + bin.width && 1 <= h <= bin.height
    ensures Wrap(Volume(l, w, h)) > Capacity(bin)
  {
    hide Wrap;
    var a, b := MODULUS - l, MODULUS - w;
    FacesFit(bin.length, bin.width, bin.height);
    ProductMonotone(h, a + b, bin.height, bin.length + bin.width);
    TwoLong(a, b, h);
  }

  /** A box whose far corner wraps in all three, from a point strictly inside in two of them. */
  lemma ThreeWrap(bin: Bin, l: nat, w: nat, h: nat)
    requires Roomy(bin) && Capacity(bin) < MODULUS
    requires l < MODULUS <= l + bin.length && w < MODULUS < w + bin.width && h < MODULUS < h + bin.height
    ensures Wrap(Volume(l, w, h)) > Capacity(bin)
  {
    hide Wrap;
    var a, b, c := MODULUS - l, MODULUS - w, MODULUS - h;
    PairsBelow(bin.length, bin.width, bin.height, a, b, c);
    ThreeLong(a, b, c);
  }

  /** The truck with its sides in another order. */
  function Swapped(bin: Bin): Bin {
    bin.(length := bin.width, width := bin.length)
  }

  function Tipped(bin: Bin): Bin {
    bin.(length := bin.height, height := bin.length)
  }

  function Rolled(bin: Bin): Bin {
    bin.(width := bin.height, height := bin.width)
  }

  lemma SameCapacity(bin: Bin)
    ensures Capacity(Swapped(bin)) == Capacity(Tipped(bin)) == Capacity(Rolled(bin)) == Capacity(bin)
  {
    Turned(bin.length, bin.width, bin.height);
  }

  /** In a safe truck, a box let through at a fringe point with a wrapped corner is larger than the truck. */
  lemma WrappedIsLarge(bin: Bin, at: Point, l: u32, w: u32, h: u32)
    requires SafeTruck(bin) && Roomy(bin) && Fringe(bin, at) && l >= 1 && w >= 1 && h >= 1
    requires Add(at.x, l) <= bin.length && Add(at.y, w) <= bin.width && Add(at.z, h) <= bin.height
    requires at.x + l >= MODULUS || at.y + w >= MODULUS || at.z + h >= MODULUS
    ensures Wrap(Volume(l, w, h)) > Capacity(bin)
  {
    hide Wrap, Volume, Capacity;
    SameCapacity(bin);
    Turned(l, w, h);
    var x, y, z := at.x + l >= MODULUS, at.y + w >= MODULUS, at.z + h >= MODULUS;
    if x && y && z {
      AllWrap(bin, at, l, w, h);
    } else if x && y {
      TwoWrap(bin, l, w, h);
    } else if x && z {
      TwoWrap(Rolled(bin), l, h, w);
    } else if y && z {
      TwoWrap(Tipped(bin), h, w, l);
    } else if x {
      OneWraps(bin, l, w, h);
    } else if y {
      OneWraps(Swapped(bin), w, l, h);
    } else {
      OneWraps(Tipped(bin), h, w, l);
    }
  }

  lemma AllWrap(bin: Bin, at: Point, l: u32, w: u32, h: u32)
    requires SafeTruck(bin) && Roomy(bin) && Fringe(bin, at)
    requires at.x + l >= MODULUS && at.y + w >= MODULUS && at.z + h >= MODULUS
    ensures Wrap(Volume(l, w, h)) > Capacity(bin)
  {
    hide Wrap, Volume, Capacity;
    SameCapacity(bin);
    Turned(l, w, h);
    if at.y < bin.width && at.z < bin.height {
      ThreeWrap(bin, l, w, h);
    } else if at.x < bin.length && at.z < bin.height {
      ThreeWrap(Swapped(bin), w, l, h);
    } else {
      ThreeWrap(Tipped(bin), h, w, l);
    }
  }

  /** With nothing placed the only point is the origin; afterwards every point is a fringe point. */
  predicate PointsReady(bin: Bin, s: Packing) {
    if s.placements == [] then forall at :: at in s.points ==> at == Point(0, 0, 0)
    else Roomy(bin) && forall at :: at in s.points ==> Fringe(bin, at)
  }

  /** The first box placed is one of the items, so no later item is larger. */
  ghost predicate FirstIsItem(s: Packing, items: seq<Item>) {
    s.placements != [] ==>
      exists i :: 0 <= i < |items| && SortKey(items[i]) ==
        Wrap(Volume(s.placements[0].length, s.placements[0].width, s.placements[0].height))
  }

  ghost predicate Descending(items: seq<Item>) {
    forall i, j :: 0 <= i < j < |items| ==> SortKey(items[i]) >= SortKey(items[j])
  }

  ghost predicate PackedWell(bin: Bin, s: Packing, items: seq<Item>) {
    AllCornersFit(s.placements) && Sound(bin, s.placements) && PointsReady(bin, s) && FirstIsItem(s, items)
  }

  lemma WrapShrinks(n: nat)
    ensures Wrap(n) <= n
  {
  }

  /** Once something is placed, an item no larger than an earlier one cannot be larger than the truck. */
  lemma LaterIsSmall(bin: Bin, s: Packing, items: seq<Item>, item: Item)
    requires Sound(bin, s.placements) && s.placements != [] && FirstIsItem(s, items)
    requires forall i :: 0 <= i < |items| ==> SortKey(items[i]) >= SortKey(item)
    ensures SortKey(item) <= Capacity(bin)
  {
    hide Wrap, Volume, SortKey;
    var p := s.placements[0];
    assert Inside(bin, p);
    VolumeMonotone(p.length, p.width, p.height, bin.length, bin.width, bin.height);
    WrapShrinks(Volume(p.length, p.width, p.height));
    var i :| 0 <= i < |items| && SortKey(items[i]) == Wrap(Volume(p.length, p.width, p.height));
  }

  lemma KeyOfPlacement(bin: Bin, s: Packing, item: Item, p: Placement)
    requires FitsAt(bin, s.placements, s.points, item, p)
    ensures SortKey(item) == Wrap(Volume(p.length, p.width, p.height))
    ensures item.length > 0 && item.width > 0 && item.height > 0 ==> p.length > 0 && p.width > 0 && p.height > 0
  {
    FitsIsPlaced(bin, s, item, p);
    Turned(item.length, item.width, item.height);
  }

  lemma CornerOfPlacement(bin: Bin, s: Packing, items: seq<Item>, item: Item, t: Packing, p: Placement)
    requires SafeTruck(bin) && PackedWell(bin, s, items) && PutAt(bin, s, item, t, p)
    requires forall i :: 0 <= i < |items| ==> SortKey(items[i]) >= SortKey(item)
    ensures CornerFits(p) && Roomy(bin)
  {
    hide Wrap, Volume, SortKey, Capacity, Offer, InOrder, Corners, Sound, AllCornersFit, FirstIsItem, CollidesWithAny;
    KeyOfPlacement(bin, s, item, p);
    if s.placements == [] {
      assert SpotOf(p) == Point(0, 0, 0);
    } else {
      LaterIsSmall(bin, s, items, item);
      if !CornerFits(p) {
        WrappedIsLarge(bin, SpotOf(p), p.length, p.width, p.height);
      }
    }
  }

  lemma CornersAreFringe(bin: Bin, p: Placement)
    requires Inside(bin, p) && CornerFits(p) && p.length > 0 && p.width > 0 && p.height > 0
    ensures forall at :: at in Corners(p) ==> Fringe(bin, at)
  {
  }

  lemma {:induction false} OfferAdds(bin: Bin, points: seq<Point>, corners: seq<Point>)
    ensures forall at :: at in Offer(bin, points, corners) ==> at in points || at in corners
  {
    if corners == [] {
    } else {
      OfferAdds(bin, points, corners[..|corners| - 1]);
    }
  }

  lemma PointsAfter(bin: Bin, s: Packing, item: Item, t: Packing, p: Placement)
    requires PointsReady(bin, s) && Roomy(bin) && PutAt(bin, s, item, t, p) && CornerFits(p) && Inside(bin, p)
    requires p.length > 0 && p.width > 0 && p.height > 0
    ensures PointsReady(bin, t)
  {
    hide Wrap, Volume, InOrder, Corners, Offer, FitsAt;
    OfferAdds(bin, InOrder(s.points), Corners(p));
    CornersAreFringe(bin, p);
    forall at | at in t.points
      ensures Fringe(bin, at)
    {
      InOrderSame(s.points, at);
    }
  }

  lemma FirstStaysItem(bin: Bin, s: Packing, items: seq<Item>, item: Item, t: Packing, p: Placement)
    requires FirstIsItem(s, items) && t.placements == s.placements + [p]
    requires SortKey(item) == Wrap(Volume(p.length, p.width, p.height))
    ensures FirstIsItem(t, items + [item])
  {
    hide Wrap, Volume, SortKey;
    var longer := items + [item];
    if s.placements == [] {
      assert longer[|items|] == item;
    } else {
      var i :| 0 <= i < |items| && SortKey(items[i]) ==
        Wrap(Volume(s.placements[0].length, s.placements[0].width, s.placements[0].height));
      assert longer[i] == items[i];
    }
  }

  lemma PutPacksWell(bin: Bin, s: Packing, items: seq<Item>, item: Item, t: Packing, p: Placement)
    requires SafeTruck(bin) && PackedWell(bin, s, items) && PutAt(bin, s, item, t, p)
    requires forall i :: 0 <= i < |items| ==> SortKey(items[i]) >= SortKey(item)
    ensures PackedWell(bin, t, items + [item])
  {
    hide Wrap, Volume, SortKey, Capacity, Offer, InOrder, Corners, Sound, PointsReady, FirstIsItem, Accepts;
    CornerOfPlacement(bin, s, items, item, t, p);
    KeyOfPlacement(bin, s, item, p);
    AcceptedIsInside(bin, s.placements, p);
    SoundPush(bin, s.placements, p);
    PointsAfter(bin, s, item, t, p);
    FirstStaysItem(bin, s, items, item, t, p);
  }

  lemma LeavePacksWell(bin: Bin, s: Packing, items: seq<Item>, item: Item, t: Packing)
    requires PackedWell(bin, s, items) && t.placements == s.placements
    requires t.points == s.points || t.points == InOrder(s.points)
    ensures PackedWell(bin, t, items + [item])
  {
    hide Wrap, Volume, SortKey, InOrder, Sound;
    forall at
      ensures at in InOrder(s.points) <==> at in s.points
    {
      InOrderSame(s.points, at);
    }
    if s.placements != [] {
      var i :| 0 <= i < |items| && SortKey(items[i]) ==
        Wrap(Volume(s.placements[0].length, s.placements[0].width, s.placements[0].height));
      assert (items + [item])[i] == items[i];
    }
  }

  lemma {:induction false} SafeTruckPacksWell(bin: Bin, items: seq<Item>)
    requires SafeTruck(bin) && Descending(items)
    ensures PackedWell(bin, PackAll(bin, items), items)
  {
    hide PackOne, PackedWell, PutAt, SortKey, SafeTruck;
    if items == [] {
      NothingPackedWell(bin);
    } else {
      var front, item := items[..|items| - 1], items[|items| - 1];
      assert items == front + [item];
      SafeTruckPacksWell(bin, front);
      var s, t := PackAll(bin, front), PackAll(bin, items);
      var put, p, reason := PackOneIs(bin, s, item);
      if put {
        PutPacksWell(bin, s, front, item, t, p);
      } else {
        LeavePacksWell(bin, s, front, item, t);
      }
    }
  }

  lemma NothingPackedWell(bin: Bin)
    ensures PackedWell(bin, EMPTY, [])
  {
  }

  // --- Any other truck can be packed wrongly ---

  function Weightless(length: u32, width: u32, height: u32): Item {
    Item("", 0, length, width, height, false)
  }

  lemma PackTwo(bin: Bin, a: Item, b: Item)
    ensures PackAll(bin, [a, b]) == PackOne(bin, PackOne(bin, EMPTY, a), b)
  {
    hide PackOne;
    assert [a, b][..1] == [a] && [a][..0] == [];
    assert PackAll(bin, [a]) == PackOne(bin, PackAll(bin, [a][..0]), a);
    assert PackAll(bin, [a, b]) == PackOne(bin, PackAll(bin, [a, b][..1]), b);
  }

  lemma OrderOfTwo(a: Item, b: Item)
    requires SortKey(b) <= SortKey(a)
    ensures ByVolume([a, b]) == [a, b]
  {
    hide SortKey;
    var before := (a: Item, b: Item) => SortKey(a) > SortKey(b);
    assert [a, b][..1] == [a] && [a][..0] == [];
    assert StableSort([a][..0], before) == [];
    assert StableSort([a], before) == Insert([], a, before) == [a];
    assert StableSort([a, b], before) == Insert(StableSort([a, b][..1], before), b, before);
  }

  /** The first box that fits the truck goes to the origin and offers its three corners. */
  lemma FirstToOrigin(bin: Bin, f: Item, i: nat)
    requires f.weight == 0 && 1 <= f.length <= bin.length && 1 <= f.width <= bin.width && 1 <= f.height <= bin.height
    requires i < 3
    ensures var s := PackOne(bin, EMPTY, f); var p := Placed(f, Point(0, 0, 0), false);
      s.placements == [p] && s.weight == 0 && Corners(p)[i] in s.points
  {
    hide Volume;
    var p := Placed(f, Point(0, 0, 0), false);
    var origin := [Point(0, 0, 0)];
    assert origin[..0] == [];
    assert StableSort(origin[..0], Precedes) == [];
    assert InOrder(origin) == origin;
    assert FirstFit(bin, [], origin[..0], f) == None;
    WrapSmall(0);
    OfferKeeps(bin, origin, Corners(p), i);
  }

  /** A corner inside the truck is among the points afterwards. */
  lemma {:induction false} OfferKeeps(bin: Bin, points: seq<Point>, corners: seq<Point>, i: nat)
    requires i < |corners|
    requires corners[i].x <= bin.length && corners[i].y <= bin.width && corners[i].z <= bin.height
    ensures corners[i] in Offer(bin, points, corners)
  {
    if i < |corners| - 1 {
      OfferKeeps(bin, points, corners[..|corners| - 1], i);
    }
  }

  /** Two weightless boxes: the first fills the corner at the origin, and the second gets in beside it. */
  lemma SecondGetsIn(bin: Bin, f: Item, b: Item, i: nat) returns (p: Placement)
    requires f.weight == 0 && 1 <= f.length <= bin.length && 1 <= f.width <= bin.width && 1 <= f.height <= bin.height
    requires b.weight == 0 && b.length >= 1 && b.width >= 1 && b.height >= 1 && SortKey(b) <= SortKey(f) && i < 3
    requires var first := Placed(f, Point(0, 0, 0), false);
      Accepts(bin, [first], Corners(first)[i], b.length, b.width, b.height)
    ensures Pack(bin, [f, b]).placements == [Placed(f, Point(0, 0, 0), false), p]
    ensures p == Placed(b, SpotOf(p), p.rotated)
  {
    hide FirstFit, InOrder, Offer, Accepts, StableSort, ByVolume, PackAll, SortKey, Wrap, Volume;
    var s := PackOne(bin, EMPTY, f);
    OrderOfTwo(f, b);
    PackTwo(bin, f, b);
    FirstToOrigin(bin, f, i);
    var put, q, reason := PackOneIs(bin, s, b);
    WrapSmall(0);
    assert !TakesNeither(bin, s.placements, Corners(Placed(f, Point(0, 0, 0), false))[i], b);
    assert put;
    p := q;
    FitsIsPlaced(bin, s, b, p);
  }

  /** A truck with a side of 2^31 or more: two boxes of the truck's own size both get in. */
  lemma HugeTruckFails(bin: Bin, i: nat)
    requires Roomy(bin) && i < 3
    requires 2 * (if i == 0 then bin.length else if i == 1 then bin.width else bin.height) >= MODULUS
    ensures var f := Weightless(bin.length, bin.width, bin.height); !Sound(bin, Pack(bin, [f, f]).placements)
  {
    hide Pack, SortKey;
    var f := Weightless(bin.length, bin.width, bin.height);
    var first := Placed(f, Point(0, 0, 0), false);
    var at := Corners(first)[i];
    assert !Collides(first, at, f.length, f.width, f.height);
    var p := SecondGetsIn(bin, f, f, i);
    var ps := [first, p];
    assert !(Inside(bin, p) && Apart(first, p));
    assert ps[0] == first && ps[1] == p;
  }

  predicate Longer(bin: Bin, n: nat) {
    n > bin.length && n > bin.width && n > bin.height
  }

  /** A box longer than every side gets in beside a first box that is at least as large. */
  lemma LongBoxFails(bin: Bin, f: Item, b: Item, i: nat)
    requires f.weight == 0 && 1 <= f.length <= bin.length && 1 <= f.width <= bin.width && 1 <= f.height <= bin.height
    requires b.weight == 0 && b.length >= 1 && b.width >= 1 && b.height >= 1 && SortKey(b) <= SortKey(f) && i < 3
    requires var first := Placed(f, Point(0, 0, 0), false);
      Accepts(bin, [first], Corners(first)[i], b.length, b.width, b.height)
    requires Longer(bin, b.length) || Longer(bin, b.width) || Longer(bin, b.height)
    ensures !Sound(bin, Pack(bin, [f, b]).placements)
  {
    hide Pack, SortKey, Accepts;
    var p := SecondGetsIn(bin, f, b, i);
    var ps := [Placed(f, Point(0, 0, 0), false), p];
    assert ps[1] == p && !Inside(bin, p);
  }

  /** Two boxes that leave a truck of 5000 a side. */
  lemma WrappedBoxIsPacked()
    ensures var bin := Bin(5000, 5000, 5000, 1000);
      !Sound(bin, Pack(bin, [Weightless(2000, 2000, 2000), Weightless(0xFFFF_FFFA, 1, 1)]).placements)
  {
    hide Pack, Wrap, Sound;
    var bin := Bin(5000, 5000, 5000, 1000);
    var cube, long := Weightless(2000, 2000, 2000), Weightless(0xFFFF_FFFA, 1, 1);
    WrapSmall(8_000_000_000);
    ThinKey(0xFFFF_FFFA);
    assert !Collides(Placed(cube, Point(0, 0, 0), false), Point(2000, 0, 0), 0xFFFF_FFFA, 1, 1);
    LongBoxFails(bin, cube, long, 0);
  }

  /** A box with full side `side` whose volume is at least 2^32 - side and below 2^64. */
  lemma LargeKey(side: nat, other: nat, third: nat)
    requires 1 <= side && 2 * side < MODULUS && 1 <= other && 2 * other < MODULUS && 1 <= third && 2 * third < MODULUS
    requires side * other * third + side >= MODULUS
    ensures if side * other + side >= MODULUS then Wrap(Volume(side, other, 1)) >= MODULUS - side
            else Wrap(Volume(side, other, third)) >= MODULUS - side
  {
    hide Wrap;
    ProductMonotone(side, other, MODULUS, MODULUS - 1);
    if side * other + side >= MODULUS {
      WrapSmall(Volume(side, other, 1));
    } else {
      ProductMonotone(side * other, third, MODULUS, MODULUS - 1);
      WrapSmall(Volume(side, other, third));
    }
  }

  lemma ThinKey(n: u32)
    ensures Wrap(Volume(n, 1, 1)) == Wrap(Volume(1, n, 1)) == Wrap(Volume(1, 1, n)) == n
  {
    WrapSmall(n);
  }

  /** The two boxes that leave a truck without a side of 2^31, when a side brings its capacity to 2^32. */
  lemma LargeTruckFails(bin: Bin, i: nat) returns (items: seq<Item>)
    requires Roomy(bin) && 2 * bin.length < MODULUS && 2 * bin.width < MODULUS && 2 * bin.height < MODULUS && i < 3
    requires Capacity(bin) + (if i == 0 then bin.length else if i == 1 then bin.width else bin.height) >= MODULUS
    ensures !Sound(bin, Pack(bin, items).placements)
  {
    hide Pack, Wrap, Sound;
    var l, w, h := bin.length, bin.width, bin.height;
    Turned(l, w, h);
    var f, b;
    if i == 0 {
      f := if l * w + l >= MODULUS then Weightless(l, w, 1) else Weightless(l, w, h);
      b := Weightless(MODULUS - l, 1, 1);
      LargeKey(l, w, h);
    } else if i == 1 {
      f := if w * l + w >= MODULUS then Weightless(l, w, 1) else Weightless(l, w, h);
      b := Weightless(1, MODULUS - w, 1);
      LargeKey(w, l, h);
      Turned(l, w, 1);
    } else {
      f := if h * w + h >= MODULUS then Weightless(1, w, h) else Weightless(l, w, h);
      b := Weightless(1, 1, MODULUS - h);
      LargeKey(h, w, l);
      Turned(1, w, h);
    }
    ThinKey(if i == 0 then MODULUS - l else if i == 1 then MODULUS - w else MODULUS - h);
    var first := Placed(f, Point(0, 0, 0), false);
    assert !Collides(first, Corners(first)[i], b.length, b.width, b.height);
    LongBoxFails(bin, f, b, i);
    items := [f, b];
  }

  /** A truck that is not safe can be packed wrongly. */
  lemma UnsafeTruckFails(bin: Bin) returns (items: seq<Item>)
    requires !SafeTruck(bin)
    ensures !Sound(bin, Pack(bin, items).placements)
  {
    hide Pack, Sound;
    assert Roomy(bin) by {
      if bin.length == 0 || bin.width == 0 || bin.height == 0 {
        EmptyCapacity(bin);
      }
    }
    if 2 * bin.length >= MODULUS {
      HugeTruckFails(bin, 0);
      items := [Weightless(bin.length, bin.width, bin.height), Weightless(bin.length, bin.width, bin.height)];
    } else if 2 * bin.width >= MODULUS {
      HugeTruckFails(bin, 1);
      items := [Weightless(bin.length, bin.width, bin.height), Weightless(bin.length, bin.width, bin.height)];
    } else if 2 * bin.height >= MODULUS {
      HugeTruckFails(bin, 2);
      items := [Weightless(bin.length, bin.width, bin.height), Weightless(bin.length, bin.width, bin.height)];
    } else if Capacity(bin) + bin.length >= MODULUS {
      items := LargeTruckFails(bin, 0);
    } else if Capacity(bin) + bin.width >= MODULUS {
      items := LargeTruckFails(bin, 1);
    } else {
      items := LargeTruckFails(bin, 2);
    }
  }

  lemma EmptyCapacity(bin: Bin)
    requires bin.length == 0 || bin.width == 0 || bin.height == 0
    ensures Capacity(bin) == 0
  {
  }

  /**
   Whatever is packed into it, in a truck every box lies inside and no two overlap if and only if the truck's volume
   in unit cells, with its longest side added, stays below 2^32.
   */
  lemma TruckIsSafeExactly(bin: Bin)
    ensures (forall items: seq<Item> :: Sound(bin, Pack(bin, items).placements)) <==> SafeTruck(bin)
  {
    if SafeTruck(bin) {
      forall items: seq<Item>
        ensures Sound(bin, Pack(bin, items).placements)
      {
        LargestFirst(items);
        SafeTruckPacksWell(bin, ByVolume(items));
      }
    } else {
      var items := UnsafeTruckFails(bin);
    }
  }

  /** In a safe truck the volume reported is that of the boxes, and no more than the truck's. */
  lemma SafeTruckReportsVolume(bin: Bin, items: seq<Item>)
    requires SafeTruck(bin)
    ensures Pack(bin, items).volume == Volumes(Pack(bin, items).placements) <= Capacity(bin)
  {
    hide Wrap, Volume;
    TruckIsSafeExactly(bin);
    SoundExactly(bin, items);
    VolumeWithinBin(bin, items);
  }
}
