/**
 The base-34 check digit: a Luhn sum over the values 0..33 in which the rightmost payload digit is not
 doubled, and what that detects.
 */
module Luhn {

  const BASE := 34

  type digit = v: nat | v < 34

  /** What one digit adds to the sum: doubling with the carry folded back in. */
  function Weight(v: digit, doubled: bool): digit {
    if !doubled then v else if v < 17 then 2 * v else 2 * v - 33
  }

  /** The folding as the program computes it. */
  lemma FoldedDoubling(v: digit, doubled: bool)
    ensures Weight(v, doubled) ==
            var d := if doubled then v * 2 else v;
            if d >= BASE then d / BASE + d % BASE else d
  {
  }

  /** The sum over vs read from the right, where `doubled` says how its last digit counts. */
  function Sum(vs: seq<digit>, doubled: bool): nat {
    if vs == [] then 0
    else Sum(vs[..|vs| - 1], !doubled) + Weight(vs[|vs| - 1], doubled)
  }

  function CheckDigit(vs: seq<digit>): digit {
    (BASE - Sum(vs, false) % BASE) % BASE
  }

  /** A digit is the check digit exactly when it completes the sum to a multiple of 34. */
  lemma CheckCompletes(vs: seq<digit>, c: digit)
    ensures c == CheckDigit(vs) <==> (Sum(vs, false) + c) % BASE == 0
  {
  }

  lemma SumOfNone(doubled: bool)
    ensures Sum([], doubled) == 0
  {
  }

  lemma {:induction false} SumPush(vs: seq<digit>, v: digit, doubled: bool)
    ensures Sum(vs + [v], doubled) == Sum(vs, !doubled) + Weight(v, doubled)
  {
    assert (vs + [v])[..|vs|] == vs;
  }

  /** The sum of the eleven digits of PH1S0001234. */
  lemma KnownSum()
    ensures Sum([23, 17, 1, 26, 0, 0, 0, 1, 2, 3, 4], false) == 58
  {
    hide Sum;
    SumOfNone(true);
    SumPush([], 23, false);
    SumPush([] + [23], 17, true);
    SumPush([] + [23] + [17], 1, false);
    SumPush([] + [23] + [17] + [1], 26, true);
    SumPush([] + [23] + [17] + [1] + [26], 0, false);
    SumPush([] + [23] + [17] + [1] + [26] + [0], 0, true);
    SumPush([] + [23] + [17] + [1] + [26] + [0] + [0], 0, false);
    SumPush([] + [23] + [17] + [1] + [26] + [0] + [0] + [0], 1, true);
    SumPush([] + [23] + [17] + [1] + [26] + [0] + [0] + [0] + [1], 2, false);
    SumPush([] + [23] + [17] + [1] + [26] + [0] + [0] + [0] + [1] + [2], 3, true);
    SumPush([] + [23] + [17] + [1] + [26] + [0] + [0] + [0] + [1] + [2] + [3], 4, false);
    assert [] + [23] + [17] + [1] + [26] + [0] + [0] + [0] + [1] + [2] + [3] + [4] ==
           [23, 17, 1, 26, 0, 0, 0, 1, 2, 3, 4];
  }

  /** Two sums give the same check digit exactly when they differ by a multiple of 34. */
  lemma SameCheck(vs: seq<digit>, ws: seq<digit>, delta: int)
    requires Sum(ws, false) == Sum(vs, false) + delta
    ensures CheckDigit(vs) == CheckDigit(ws) <==> delta % BASE == 0
  {
    hide Sum;
    ShiftedRemainder(Sum(vs, false), delta);
    SameComplement(Sum(vs, false) % BASE, Sum(ws, false) % BASE);
  }

  lemma SameComplement(r: digit, s: digit)
    ensures (BASE - r) % BASE == (BASE - s) % BASE <==> r == s
  {
  }

  lemma ShiftedRemainder(s: nat, delta: int)
    ensures (s + delta) % BASE == s % BASE <==> delta % BASE == 0
  {
  }

  /** How the digit at position i of n digits counts. */
  function Flag(n: nat, i: nat, doubled: bool): bool {
    ((n - 1 - i) % 2 == 1) != doubled
  }

  lemma FlagOfFront(n: nat, i: nat, doubled: bool)
    requires i < n
    ensures Flag(n + 1, i, doubled) == Flag(n, i, !doubled)
  {
  }

  /** Changing one digit changes the sum by the difference of its weights. */
  lemma {:induction false} SumAfterUpdate(vs: seq<digit>, i: nat, c: digit, doubled: bool)
    requires i < |vs|
    ensures var f := Flag(|vs|, i, doubled);
      Sum(vs[i := c], doubled) == Sum(vs, doubled) + Weight(c, f) - Weight(vs[i], f)
  {
    var n := |vs| - 1;
    if i == n {
      assert vs[i := c][..n] == vs[..n];
    } else {
      SumAfterUpdate(vs[..n], i, c, !doubled);
      assert vs[i := c][..n] == vs[..n][i := c];
      FlagOfFront(n, i, doubled);
    }
  }

  /** Peeling the sum off from the left instead. */
  lemma {:induction false} SumFromLeft(vs: seq<digit>, doubled: bool)
    requires vs != []
    ensures Sum(vs, doubled) == Sum(vs[1..], doubled) + Weight(vs[0], Flag(|vs|, 0, doubled))
  {
    var n := |vs| - 1;
    if n == 0 {
      assert vs[..0] == [] && vs[1..] == [];
    } else {
      SumFromLeft(vs[..n], !doubled);
      assert vs[1..][..n - 1] == vs[..n][1..];
      FlagOfFront(n, 0, doubled);
    }
  }

  /** Doubling permutes 0..33, so different digits have different weights. */
  lemma WeightIsInjective(v: digit, w: digit, doubled: bool)
    requires v != w
    ensures Weight(v, doubled) != Weight(w, doubled)
  {
  }

  lemma SmallDelta(v: digit, w: digit)
    requires v != w
    ensures (v - w) % BASE != 0
  {
  }

  /** Every substitution of one payload digit changes the check digit. */
  lemma SubstitutionDetected(vs: seq<digit>, i: nat, c: digit)
    requires i < |vs| && c != vs[i]
    ensures CheckDigit(vs[i := c]) != CheckDigit(vs)
  {
    hide CheckDigit, Weight, Sum, Flag;
    SumAfterUpdate(vs, i, c, false);
    var f := Flag(|vs|, i, false);
    WeightIsInjective(c, vs[i], f);
    SmallDelta(Weight(c, f), Weight(vs[i], f));
    SameCheck(vs, vs[i := c], Weight(c, f) - Weight(vs[i], f));
  }

  predicate ZeroAndLast(v: digit, w: digit) {
    (v == 0 && w == 33) || (v == 33 && w == 0)
  }

  /** How a swap of neighbours v, w changes the sum, when the left one counts as `f`. */
  function SwapDelta(v: digit, w: digit, f: bool): int {
    Weight(w, f) - Weight(v, f) + (Weight(v, !f) - Weight(w, !f))
  }

  /** The only two digits whose order the doubling does not see are 0 and 33. */
  lemma SwapDeltaVanishes(v: digit, w: digit, f: bool)
    requires v != w
    ensures SwapDelta(v, w, f) % BASE == 0 <==> ZeroAndLast(v, w)
  {
    SmallMultiple(SwapDelta(v, w, f));
  }

  lemma SmallMultiple(x: int)
    requires -68 < x < 68
    ensures x % BASE == 0 <==> x == -34 || x == 0 || x == 34
  {
  }

  function Swap<T>(s: seq<T>, i: nat): (t: seq<T>)
    requires i + 1 < |s|
    ensures |t| == |s|
  {
    s[i := s[i + 1]][i + 1 := s[i]]
  }

  lemma SumAfterSwap(vs: seq<digit>, i: nat)
    requires i + 1 < |vs|
    ensures Sum(Swap(vs, i), false) == Sum(vs, false) + SwapDelta(vs[i], vs[i + 1], Flag(|vs|, i, false))
  {
    var v, w := vs[i], vs[i + 1];
    var f, g := Flag(|vs|, i, false), Flag(|vs|, i + 1, false);
    FlagAlternates(|vs|, i);
    var once := vs[i := w];
    SumAfterUpdate(vs, i, w, false);
    SumAfterUpdate(once, i + 1, v, false);
    assert Swap(vs, i) == once[i + 1 := v];
  }

  lemma FlagAlternates(n: nat, i: nat)
    ensures Flag(n, i + 1, false) == !Flag(n, i, false)
  {
  }

  /** Swapping two different neighbours changes the check digit unless they are 0 and 33. */
  lemma SwapDetectedExactly(vs: seq<digit>, i: nat)
    requires i + 1 < |vs| && vs[i] != vs[i + 1]
    ensures CheckDigit(Swap(vs, i)) == CheckDigit(vs) <==> ZeroAndLast(vs[i], vs[i + 1])
  {
    SumAfterSwap(vs, i);
    SameCheck(vs, Swap(vs, i), SwapDelta(vs[i], vs[i + 1], Flag(|vs|, i, false)));
    SwapDeltaVanishes(vs[i], vs[i + 1], Flag(|vs|, i, false));
  }

  /** Swapping the last payload digit with the check digit always keeps the pair valid. */
  lemma LastSwapUndetected(vs: seq<digit>)
    requires vs != []
    ensures CheckDigit(vs[|vs| - 1 := CheckDigit(vs)]) == vs[|vs| - 1]
  {
    var n := |vs| - 1;
    var c := CheckDigit(vs);
    SumAfterUpdate(vs, n, c, false);
    CheckCompletes(vs, c);
    CheckCompletes(vs[n := c], vs[n]);
  }
}
