/** Facts about finite sequences used across the model. */
module Seqs {

  ghost function ToSet<T>(s: seq<T>): set<T> {
    set x | x in s
  }

  ghost predicate NoDup<T>(s: seq<T>) {
    forall i, j :: 0 <= i < j < |s| ==> s[i] != s[j]
  }

  /** A sequence never has more distinct elements than positions, and exactly as many when none repeats. */
  lemma {:induction false} DistinctCount<T>(s: seq<T>)
    ensures |ToSet(s)| <= |s|
    ensures |ToSet(s)| == |s| <==> NoDup(s)
  {
    if s == [] {
    } else {
      var last := s[|s| - 1];
      var front := s[..|s| - 1];
      DistinctCount(front);
      assert s == front + [last];
      assert ToSet(s) == ToSet(front) + {last};
      if last in front {
        assert ToSet(s) == ToSet(front);
        var k :| 0 <= k < |front| && front[k] == last;
        assert s[k] == s[|s| - 1];
      } else {
        assert |ToSet(s)| == |ToSet(front)| + 1;
        assert NoDup(s) <==> NoDup(front) by {
          if NoDup(s) {
            assert forall i, j :: 0 <= i < j < |front| ==> front[i] == s[i] && front[j] == s[j];
          }
        }
      }
    }
  }

  /** A subset is no larger. */
  lemma {:induction false} SubsetCount<T>(a: set<T>, b: set<T>)
    requires a <= b
    ensures |a| <= |b|
    decreases |a|
  {
    if a == {} {
    } else {
      var x :| x in a;
      SubsetCount(a - {x}, b - {x});
    }
  }

  /** No finite set holds every number. */
  lemma {:induction false} FreshNat(used: set<nat>) returns (n: nat)
    ensures forall other :: other in used ==> other < n
  {
    if used == {} {
      n := 0;
    } else {
      var one :| one in used;
      var rest := FreshNat(used - {one});
      n := if one < rest then rest else one + 1;
      assert forall other :: other in used ==> other == one || other in used - {one};
    }
  }

  /** Pigeonhole: distinct elements drawn from a list are no more than the list is long. */
  lemma Pigeonhole<T>(s: seq<T>, pool: seq<T>)
    requires NoDup(s)
    requires forall x :: x in s ==> x in pool
    ensures |s| <= |pool|
  {
    DistinctCount(s);
    DistinctCount(pool);
    SubsetCount(ToSet(s), ToSet(pool));
  }

  /** The elements of `s` that satisfy `keep`, in their order. */
  function Filter<T>(s: seq<T>, keep: T -> bool): seq<T> {
    if s == [] then [] else
      var last := s[|s| - 1];
      Filter(s[..|s| - 1], keep) + (if keep(last) then [last] else [])
  }

  /** `chosen` is the elements of `s` at the increasing positions `picks`. */
  ghost predicate Picked<T>(s: seq<T>, chosen: seq<T>, picks: seq<nat>) {
    && |picks| == |chosen|
    && (forall i, j :: 0 <= i < j < |picks| ==> picks[i] < picks[j])
    && (forall i :: 0 <= i < |picks| ==> picks[i] < |s| && chosen[i] == s[picks[i]])
  }

  lemma PickedPush<T>(s: seq<T>, chosen: seq<T>, picks: seq<nat>)
    requires s != [] && Picked(s[..|s| - 1], chosen, picks)
    ensures Picked(s, chosen, picks)
    ensures Picked(s, chosen + [s[|s| - 1]], picks + [|s| - 1])
  {
  }

  /** Filtering picks exactly the positions whose element is kept. */
  lemma {:induction false} FilterPicks<T>(s: seq<T>, keep: T -> bool) returns (picks: seq<nat>)
    ensures Picked(s, Filter(s, keep), picks)
    ensures forall k :: 0 <= k < |s| ==> (keep(s[k]) <==> k in picks)
  {
    if s == [] {
      picks := [];
    } else {
      var n := |s| - 1;
      var rest := FilterPicks(s[..n], keep);
      PickedPush(s, Filter(s[..n], keep), rest);
      picks := if keep(s[n]) then rest + [n] else rest;
      forall k | 0 <= k < |s|
        ensures keep(s[k]) <==> k in picks
      {
        if k < n {
          assert s[..n][k] == s[k];
        }
      }
    }
  }

  lemma {:induction false} FilterConcat<T>(a: seq<T>, b: seq<T>, keep: T -> bool)
    ensures Filter(a + b, keep) == Filter(a, keep) + Filter(b, keep)
  {
    if b == [] {
      assert a + b == a;
    } else {
      FilterConcat(a, b[..|b| - 1], keep);
      assert (a + b)[..|a + b| - 1] == a + b[..|b| - 1];
    }
  }

  lemma {:induction false} FilterKeeps<T>(s: seq<T>, keep: T -> bool)
    ensures forall x :: x in Filter(s, keep) ==> x in s && keep(x)
  {
    if s == [] {
    } else {
      FilterKeeps(s[..|s| - 1], keep);
    }
  }
}
