/** Sums of what requests in progress may still add to a counter. */
module Tally {

  function Sum(weights: seq<int>): int {
    if weights == [] then 0 else Sum(weights[..|weights| - 1]) + weights[|weights| - 1]
  }

  function Count(flags: seq<bool>): (n: nat)
    ensures n <= |flags|
  {
    if flags == [] then 0 else Count(flags[..|flags| - 1]) + if flags[|flags| - 1] then 1 else 0
  }

  /** `n` times `m`, added up. */
  function Times(n: nat, m: nat): nat {
    if n == 0 then 0 else m + Times(n - 1, m)
  }

  lemma {:induction false} TimesIsProduct(n: nat, m: nat)
    ensures Times(n, m) == n * m
  {
    if n > 0 { TimesIsProduct(n - 1, m); }
  }

  lemma {:induction false} TimesMonotone(n: nat, k: nat, m: nat)
    requires n <= k
    ensures Times(n, m) <= Times(k, m)
  {
    if n < k { TimesMonotone(n, k - 1, m); }
  }

  lemma {:induction false} TimesGrows(n: nat, m: nat, more: nat)
    requires m <= more
    ensures Times(n, m) <= Times(n, more)
  {
    if n > 0 { TimesGrows(n - 1, m, more); }
  }

  lemma {:induction false} SumUpdate(weights: seq<int>, i: nat, w: int)
    requires i < |weights|
    ensures Sum(weights[i := w]) == Sum(weights) - weights[i] + w
  {
    var n := |weights| - 1;
    if i < n {
      SumUpdate(weights[..n], i, w);
      assert weights[i := w][..n] == weights[..n][i := w];
    } else {
      assert weights[i := w][..n] == weights[..n];
    }
  }

  lemma {:induction false} SumAppend(weights: seq<int>, w: int)
    ensures Sum(weights + [w]) == Sum(weights) + w
  {
    assert (weights + [w])[..|weights|] == weights;
  }

  lemma {:induction false} SumLess(a: seq<int>, b: seq<int>)
    requires |a| == |b| && forall i | 0 <= i < |a| :: a[i] <= b[i]
    ensures Sum(a) <= Sum(b)
  {
    if a != [] { SumLess(a[..|a| - 1], b[..|b| - 1]); }
  }

  lemma {:induction false} SumNotNegative(weights: seq<int>)
    requires forall i | 0 <= i < |weights| :: 0 <= weights[i]
    ensures 0 <= Sum(weights)
  {
    if weights != [] { SumNotNegative(weights[..|weights| - 1]); }
  }

  /** Flagged weights are at most `m`, the others at most nothing. */
  ghost predicate Capped(weights: seq<int>, flags: seq<bool>, m: nat) {
    && |weights| == |flags|
    && forall i | 0 <= i < |weights| :: weights[i] <= if flags[i] then m else 0
  }

  lemma {:induction false} SumCapped(weights: seq<int>, flags: seq<bool>, m: nat)
    requires Capped(weights, flags, m)
    ensures Sum(weights) <= Times(Count(flags), m)
  {
    if weights != [] {
      var n := |weights| - 1;
      SumCapped(weights[..n], flags[..n], m);
    }
  }

  /** All but one of the flagged weights cost at most `m`. */
  lemma {:induction false} SumAllButOne(weights: seq<int>, flags: seq<bool>, m: nat, i: nat)
    requires Capped(weights, flags, m) && i < |weights| && flags[i]
    ensures 0 < Count(flags) && Sum(weights) <= weights[i] + Times(Count(flags) - 1, m)
  {
    var n := |weights| - 1;
    if i < n {
      SumAllButOne(weights[..n], flags[..n], m, i);
    } else {
      SumCapped(weights[..n], flags[..n], m);
    }
  }

  /** One weight, and `k - 1` others of at most `m`. */
  lemma {:induction false} SumOthers(weights: seq<int>, flags: seq<bool>, m: nat, k: nat, i: nat)
    requires Capped(weights, flags, m) && Count(flags) <= k && i < |weights| && 0 < weights[i]
    ensures 1 <= k && Sum(weights) <= weights[i] + Times(k - 1, m)
  {
    SumAllButOne(weights, flags, m, i);
    TimesMonotone(Count(flags) - 1, k - 1, m);
  }

  /** If each flagged weight alone is at most `top`, `k` of them cost at most `top` and
      `k - 1` times `m`. */
  lemma {:induction false} SumFlagged(weights: seq<int>, flags: seq<bool>, m: nat, top: nat, k: nat)
    requires Capped(weights, flags, m) && Count(flags) <= k && 1 <= k
    requires forall i | 0 <= i < |weights| && flags[i] :: weights[i] <= top
    ensures Sum(weights) <= top + Times(k - 1, m)
  {
    if i :| 0 <= i < |weights| && flags[i] {
      SumAllButOne(weights, flags, m, i);
      TimesMonotone(Count(flags) - 1, k - 1, m);
    } else {
      NoneFlagged(flags);
      SumCapped(weights, flags, m);
    }
  }

  lemma {:induction false} NoneFlagged(flags: seq<bool>)
    requires forall i | 0 <= i < |flags| :: !flags[i]
    ensures Count(flags) == 0
  {
    if flags != [] { NoneFlagged(flags[..|flags| - 1]); }
  }

  lemma {:induction false} OneFlagged(flags: seq<bool>, i: nat)
    requires forall j | 0 <= j < |flags| && j != i :: !flags[j]
    ensures Count(flags) <= 1
  {
    if flags != [] {
      var n := |flags| - 1;
      if i == n { NoneFlagged(flags[..n]); } else { OneFlagged(flags[..n], i); }
    }
  }
}
