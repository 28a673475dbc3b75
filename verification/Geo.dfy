/** Ordering the stops of a route, nearest first, for an arbitrary real-valued distance. */
module Geo {
  import opened Seqs

  datatype Coordinates = Coordinates(lat: real, lng: real)

  type Distance = (Coordinates, Coordinates) -> real

  /** `i` is the first of the nearest stops not yet in `order`, seen from `from`. */
  ghost predicate IsNext(distance: Distance, stops: seq<Coordinates>, order: seq<nat>, from: Coordinates, i: nat) {
    && i < |stops| && i !in order
    && forall k: nat :: k < |stops| && k !in order ==>
         && distance(from, stops[i]) <= distance(from, stops[k])
         && (distance(from, stops[k]) == distance(from, stops[i]) ==> i <= k)
  }

  predicate AllStops(order: seq<nat>, n: nat) {
    forall k :: 0 <= k < |order| ==> order[k] < n
  }

  /** Where the vehicle is after the first `n` stops of `order`. */
  function At(origin: Coordinates, stops: seq<Coordinates>, order: seq<nat>, n: nat): Coordinates
    requires n <= |order| && AllStops(order, |stops|)
  {
    if n == 0 then origin else stops[order[n - 1]]
  }

  /** Every entry is the first nearest stop that no earlier entry names, seen from the entry before it. */
  ghost predicate Greedy(distance: Distance, origin: Coordinates, stops: seq<Coordinates>, order: seq<nat>) {
    && AllStops(order, |stops|)
    && forall n: nat :: n < |order| ==> IsNext(distance, stops, order[..n], At(origin, stops, order, n), order[n])
  }

  lemma GreedyHasNoDuplicates(distance: Distance, origin: Coordinates, stops: seq<Coordinates>, order: seq<nat>)
    requires Greedy(distance, origin, stops, order)
    ensures NoDup(order)
  {
    forall i, j | 0 <= i < j < |order|
      ensures order[i] != order[j]
    {
      assert IsNext(distance, stops, order[..j], At(origin, stops, order, j), order[j]);
      assert order[..j][i] == order[i];
    }
  }

  function Indices(n: nat): seq<nat> {
    seq(n, i => i)
  }

  /** A greedy order that is as long as the list of stops names every stop exactly once. */
  lemma GreedyIsPermutation(distance: Distance, origin: Coordinates, stops: seq<Coordinates>, order: seq<nat>)
    requires Greedy(distance, origin, stops, order) && |order| == |stops|
    ensures multiset(order) == multiset(Indices(|stops|))
  {
    GreedyHasNoDuplicates(distance, origin, stops, order);
    FullIsPermutation(order, |stops|);
  }

  lemma FullHasAll(order: seq<nat>, n: nat, i: nat)
    requires NoDup(order) && |order| == n && i < n && AllStops(order, n)
    ensures i in order
  {
    var all := Indices(n);
    var longer := [i] + order;
    forall x | x in longer
      ensures x in all
    {
      assert all[x] == x;
    }
    if i !in order {
      Pigeonhole(longer, all);
    }
  }

  /** Distinct numbers below `n`, `n` of them, are all the numbers below `n`. */
  lemma FullIsPermutation(order: seq<nat>, n: nat)
    requires NoDup(order) && |order| == n && AllStops(order, n)
    ensures multiset(order) == multiset(Indices(n))
  {
    var all := Indices(n);
    forall i: nat
      ensures multiset(order)[i] == multiset(all)[i]
    {
      if i < n {
        FullHasAll(order, n, i);
        assert all[i] == i;
      }
      CountsOnce(order, i);
      CountsOnce(all, i);
    }
  }

  lemma {:induction false} CountsOnce(s: seq<nat>, x: nat)
    requires NoDup(s)
    ensures multiset(s)[x] == if x in s then 1 else 0
  {
    if s == [] {
    } else {
      var front, last := s[..|s| - 1], s[|s| - 1];
      assert s == front + [last];
      assert last !in front;
      CountsOnce(front, x);
    }
  }

  /** The rule leaves no choice: two greedy orders of the same length are the same. */
  lemma {:induction false} GreedyIsUnique(distance: Distance, origin: Coordinates, stops: seq<Coordinates>,
                                          a: seq<nat>, b: seq<nat>)
    requires Greedy(distance, origin, stops, a) && Greedy(distance, origin, stops, b) && |a| == |b|
    ensures a == b
  {
    if a == [] {
    } else {
      hide IsNext, Greedy, At;
      var front := a[..|a| - 1];
      GreedyFront(distance, origin, stops, a);
      GreedyFront(distance, origin, stops, b);
      GreedyIsUnique(distance, origin, stops, front, b[..|b| - 1]);
      NextIsUnique(distance, stops, front, At(origin, stops, front, |front|), a[|a| - 1], b[|b| - 1]);
      assert a == front + [a[|a| - 1]] && b == front + [b[|b| - 1]];
    }
  }

  lemma NextIsUnique(distance: Distance, stops: seq<Coordinates>, order: seq<nat>, from: Coordinates, i: nat, k: nat)
    requires IsNext(distance, stops, order, from, i) && IsNext(distance, stops, order, from, k)
    ensures i == k
  {
  }

  lemma GreedyFront(distance: Distance, origin: Coordinates, stops: seq<Coordinates>, order: seq<nat>)
    requires order != [] && Greedy(distance, origin, stops, order)
    ensures Greedy(distance, origin, stops, order[..|order| - 1])
    ensures var front := order[..|order| - 1];
      IsNext(distance, stops, front, At(origin, stops, front, |front|), order[|order| - 1])
  {
    hide IsNext;
    var front := order[..|order| - 1];
    forall n: nat | n < |front|
      ensures IsNext(distance, stops, front[..n], At(origin, stops, front, n), front[n])
    {
      assert front[..n] == order[..n];
      assert At(origin, stops, front, n) == At(origin, stops, order, n);
      assert IsNext(distance, stops, order[..n], At(origin, stops, order, n), order[n]);
    }
    var last := |front|;
    assert At(origin, stops, front, last) == At(origin, stops, order, last);
    assert IsNext(distance, stops, order[..last], At(origin, stops, order, last), order[last]);
  }

  lemma NothingIsGreedy(distance: Distance, origin: Coordinates, stops: seq<Coordinates>)
    ensures Greedy(distance, origin, stops, [])
  {
  }

  lemma GreedyPush(distance: Distance, origin: Coordinates, stops: seq<Coordinates>, order: seq<nat>, next: nat)
    requires Greedy(distance, origin, stops, order)
    requires IsNext(distance, stops, order, At(origin, stops, order, |order|), next)
    ensures Greedy(distance, origin, stops, order + [next])
  {
    hide IsNext;
    var longer := order + [next];
    NextIsStop(distance, stops, order, At(origin, stops, order, |order|), next);
    forall n: nat | n < |longer|
      ensures IsNext(distance, stops, longer[..n], At(origin, stops, longer, n), longer[n])
    {
      assert longer[..n] == order[..n];
      assert At(origin, stops, longer, n) == At(origin, stops, order, n);
      if n < |order| {
        assert IsNext(distance, stops, order[..n], At(origin, stops, order, n), order[n]);
      } else {
        assert order[..n] == order;
      }
    }
  }

  lemma NextIsStop(distance: Distance, stops: seq<Coordinates>, order: seq<nat>, from: Coordinates, i: nat)
    requires IsNext(distance, stops, order, from, i)
    ensures i < |stops| && i !in order
  {
  }

  /** The stop to go to next: the first of the nearest unvisited ones, if any is left. */
  method Nearest(distance: Distance, stops: seq<Coordinates>, visited: array<bool>, ghost order: seq<nat>,
                 from: Coordinates)
    returns (found: bool, next: nat)
    requires visited.Length == |stops|
    requires forall k: nat :: k < |stops| ==> (visited[k] <==> k in order)
    ensures found <==> exists k: nat :: k < |stops| && !visited[k]
    ensures found ==> IsNext(distance, stops, order, from, next)
  {
    found, next := false, 0;
    for i := 0 to |stops|
      invariant found ==> next < i && !visited[next]
      invariant forall k: nat :: k < i && !visited[k] ==>
        found && distance(from, stops[next]) <= distance(from, stops[k])
        && (distance(from, stops[k]) == distance(from, stops[next]) ==> next <= k)
    {
      if !visited[i] && (!found || distance(from, stops[i]) < distance(from, stops[next])) {
        found, next := true, i;
      }
    }
  }

  /** Some stop is left as long as the order is shorter than the list. */
  lemma SomeLeft(order: seq<nat>, n: nat) returns (left: nat)
    requires |order| < n
    ensures left < n && left !in order
  {
    if forall k: nat :: k < n ==> k in order {
      Pigeonhole(Indices(n), order);
    }
    left :| left < n && left !in order;
  }

  /** A permutation of all the stops in which every entry is the first nearest stop still to be visited. */
  method NearestNeighborOrder(distance: Distance, origin: Coordinates, stops: seq<Coordinates>)
    returns (order: seq<nat>)
    ensures Greedy(distance, origin, stops, order)
    ensures |order| == |stops| && multiset(order) == multiset(Indices(|stops|))
  {
    hide IsNext, Greedy, Indices;
    var n := |stops|;
    var visited := new bool[n](_ => false);
    order := [];
    NothingIsGreedy(distance, origin, stops);
    var current := origin;
    for i := 0 to n
      invariant |order| == i
      invariant Greedy(distance, origin, stops, order) && AllStops(order, n)
      invariant current == At(origin, stops, order, i)
      invariant forall k: nat :: k < n ==> (visited[k] <==> k in order)
    {
      var found, next := Nearest(distance, stops, visited, order, current);
      ghost var left := SomeLeft(order, n);
      assert !visited[left];
      if found {
        NextIsStop(distance, stops, order, current, next);
        GreedyPush(distance, origin, stops, order, next);
        visited[next] := true;
        order := order + [next];
        current := stops[next];
      }
    }
    GreedyIsPermutation(distance, origin, stops, order);
  }
}
