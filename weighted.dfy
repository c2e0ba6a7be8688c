/** Weighted selection by running prefix sums, the loop shape both the server's
    roulette and the shared `getRandomItem` use: walk the weights, add each to
    a running total, and stop at the first total that passes a threshold. */
module Weighted {
  import opened Wrappers

  /** The running total after the first `k` weights. */
  function Prefix(w: seq<real>, k: nat): real
    requires k <= |w|
  {
    if k == 0 then 0.0 else Prefix(w, k - 1) + w[k - 1]
  }

  /** The running total once weight `j` has been added. */
  function Through(w: seq<real>, j: nat): real
    requires j < |w|
  {
    Prefix(w, j + 1)
  }

  ghost predicate AllPositive(w: seq<real>) {
    forall i :: 0 <= i < |w| ==> w[i] > 0.0
  }

  /** With positive weights the running total only grows. */
  lemma {:induction false} PrefixMonotone(w: seq<real>, i: nat, j: nat)
    requires AllPositive(w) && i < j <= |w|
    ensures Prefix(w, i) < Prefix(w, j)
  {
    if i < j - 1 {
      PrefixMonotone(w, i, j - 1);
    }
  }

  /** Index of the first weight whose running total reaches `x` (`x <= total`),
      or `None` when no running total does. */
  function AtMostIndex(w: seq<real>, x: real): (r: Option<nat>)
    ensures r.Some? ==> r.value < |w| && x <= Through(w, r.value)
    ensures r.Some? ==> forall j :: 0 <= j < r.value ==> x > Through(w, j)
    ensures r.None? ==> forall j :: 0 <= j < |w| ==> x > Through(w, j)
  {
    AtMostFrom(w, x, 0)
  }

  function AtMostFrom(w: seq<real>, x: real, k: nat): (r: Option<nat>)
    requires k <= |w|
    requires forall j :: 0 <= j < k ==> x > Through(w, j)
    ensures r.Some? ==> k <= r.value < |w| && x <= Through(w, r.value)
    ensures r.Some? ==> forall j :: 0 <= j < r.value ==> x > Through(w, j)
    ensures r.None? ==> forall j :: 0 <= j < |w| ==> x > Through(w, j)
    decreases |w| - k
  {
    if k == |w| then None
    else if x <= Through(w, k) then Some(k)
    else AtMostFrom(w, x, k + 1)
  }

  /** Index of the first weight whose running total exceeds `x` (`x < total`). */
  function BelowIndex(w: seq<real>, x: real): (r: Option<nat>)
    ensures r.Some? ==> r.value < |w| && x < Through(w, r.value)
    ensures r.Some? ==> forall j :: 0 <= j < r.value ==> x >= Through(w, j)
    ensures r.None? ==> forall j :: 0 <= j < |w| ==> x >= Through(w, j)
  {
    BelowFrom(w, x, 0)
  }

  function BelowFrom(w: seq<real>, x: real, k: nat): (r: Option<nat>)
    requires k <= |w|
    requires forall j :: 0 <= j < k ==> x >= Through(w, j)
    ensures r.Some? ==> k <= r.value < |w| && x < Through(w, r.value)
    ensures r.Some? ==> forall j :: 0 <= j < r.value ==> x >= Through(w, j)
    ensures r.None? ==> forall j :: 0 <= j < |w| ==> x >= Through(w, j)
    decreases |w| - k
  {
    if k == |w| then None
    else if x < Through(w, k) then Some(k)
    else BelowFrom(w, x, k + 1)
  }

  /** A threshold no larger than the grand total always finds a weight. */
  lemma AtMostFound(w: seq<real>, x: real)
    requires |w| > 0 && x <= Prefix(w, |w|)
    ensures AtMostIndex(w, x).Some?
  {
    assert x <= Through(w, |w| - 1);
  }

  /** A threshold below the grand total always finds a weight. */
  lemma BelowFound(w: seq<real>, x: real)
    requires |w| > 0 && x < Prefix(w, |w|)
    ensures BelowIndex(w, x).Some?
  {
    assert x < Through(w, |w| - 1);
  }

  /** Every running total before weight `i` stays at or below `Prefix(w, i)`. */
  lemma EarlierTotals(w: seq<real>, i: nat)
    requires AllPositive(w) && i <= |w|
    ensures forall j :: 0 <= j < i ==> Through(w, j) <= Prefix(w, i)
  {
    forall j | 0 <= j < i ensures Through(w, j) <= Prefix(w, i) {
      if j + 1 < i {
        PrefixMonotone(w, j + 1, i);
      }
    }
  }

  /** With positive weights, weight `i` is chosen by the inclusive walk exactly
      when the threshold lies in the interval `(Prefix(i), Prefix(i + 1)]`,
      whose width is that weight. */
  lemma AtMostInterval(w: seq<real>, x: real, i: nat)
    requires AllPositive(w) && i < |w| && x > 0.0
    ensures AtMostIndex(w, x) == Some(i) <==> Prefix(w, i) < x <= Prefix(w, i + 1)
  {
    if AtMostIndex(w, x) == Some(i) && i > 0 {
      assert x > Through(w, i - 1);
    }
    if Prefix(w, i) < x <= Prefix(w, i + 1) {
      assert x <= Through(w, i);
      EarlierTotals(w, i);
    }
  }

  /** With positive weights, weight `i` is chosen by the strict walk exactly
      when the threshold lies in `[Prefix(i), Prefix(i + 1))`. */
  lemma BelowInterval(w: seq<real>, x: real, i: nat)
    requires AllPositive(w) && i < |w| && x >= 0.0
    ensures BelowIndex(w, x) == Some(i) <==> Prefix(w, i) <= x < Prefix(w, i + 1)
  {
    if BelowIndex(w, x) == Some(i) && i > 0 {
      assert x >= Through(w, i - 1);
    }
    if Prefix(w, i) <= x < Prefix(w, i + 1) {
      assert x < Through(w, i);
      EarlierTotals(w, i);
    }
  }
}
