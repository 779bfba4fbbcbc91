/** The weighted winner draw of utils/weightedRandomSelection.js. The random
    number `Math.random()` is the parameter `draw`; the threshold the loop
    compares against is `draw * overallTotal`. */
module WeightedSelection {
  import opened Wrappers

  /** One element of `participantsWithValue`: a participant and the sum of
      the values of the items it staked. */
  datatype Weighted<P> = Weighted(participant: P, totalContribution: real)

  /** The value of `cumulative` after the loop has visited the first `k`
      pairs. */
  function Prefix<P>(ws: seq<Weighted<P>>, k: nat): real
    requires k <= |ws|
  {
    if k == 0 then 0.0 else Prefix(ws, k - 1) + ws[k - 1].totalContribution
  }

  /** `participantsWithValue.reduce((acc, p) => acc + p.totalContribution, 0)`. */
  function Total<P>(ws: seq<Weighted<P>>): real {
    Prefix(ws, |ws|)
  }

  predicate NonNegative<P>(ws: seq<Weighted<P>>) {
    forall i :: 0 <= i < |ws| ==> ws[i].totalContribution >= 0.0
  }

  /** The index the draw lands on when the scan starts at `k`: the first
      `i >= k` whose running sum exceeds `random`, or the last index when
      there is none (the fallback after the loop). */
  function FirstAbove<P>(ws: seq<Weighted<P>>, random: real, k: nat): (i: nat)
    requires k < |ws|
    ensures k <= i < |ws|
    ensures forall j :: k < j <= i ==> Prefix(ws, j) <= random
    ensures random < Prefix(ws, i + 1) || (i == |ws| - 1 && Prefix(ws, i + 1) <= random)
    decreases |ws| - k
  {
    if random < Prefix(ws, k + 1) then k
    else if k == |ws| - 1 then k
    else FirstAbove(ws, random, k + 1)
  }

  /** The index of the pair the selection returns for threshold `random`. */
  function SelectedIndex<P>(ws: seq<Weighted<P>>, random: real): (i: nat)
    requires |ws| > 0
    ensures i < |ws|
    ensures forall j :: 0 < j <= i ==> Prefix(ws, j) <= random
    ensures random < Prefix(ws, i + 1) || (i == |ws| - 1 && Prefix(ws, |ws|) <= random)
  {
    FirstAbove(ws, random, 0)
  }

  /** utils/weightedRandomSelection.js: walks the pairs accumulating the
      contributions and returns the first pair whose running sum is strictly
      greater than `draw * overallTotal`; with no such pair it returns the
      last pair, and `null` (None) for no pairs at all. */
  method WeightedRandomSelection<P>(ws: seq<Weighted<P>>, overallTotal: real, draw: real)
    returns (chosen: Option<Weighted<P>>)
    ensures chosen.None? <==> ws == []
    ensures chosen.Some? ==> chosen.value == ws[SelectedIndex(ws, draw * overallTotal)]
  {
    var random := draw * overallTotal;
    var cumulative := 0.0;
    var i := 0;
    while i < |ws|
      invariant 0 <= i <= |ws|
      invariant cumulative == Prefix(ws, i)
      invariant forall j :: 0 < j <= i ==> Prefix(ws, j) <= random
    {
      cumulative := cumulative + ws[i].totalContribution;
      if random < cumulative {
        SelectedIsFirstAbove(ws, random, i);
        return Some(ws[i]);
      }
      i := i + 1;
    }
    if |ws| > 0 {
      FallbackIsLast(ws, random);
    }
    chosen := if |ws| > 0 then Some(ws[|ws| - 1]) else None;
  }

  /** The selected index is determined by its characterisation: the first
      running sum above the threshold. */
  lemma SelectedIsFirstAbove<P>(ws: seq<Weighted<P>>, random: real, i: nat)
    requires i < |ws| && random < Prefix(ws, i + 1)
    requires forall j :: 0 < j <= i ==> Prefix(ws, j) <= random
    ensures SelectedIndex(ws, random) == i
  {
  }

  /** When no running sum exceeds the threshold the last pair is selected. */
  lemma FallbackIsLast<P>(ws: seq<Weighted<P>>, random: real)
    requires |ws| > 0
    requires forall j :: 0 < j <= |ws| ==> Prefix(ws, j) <= random
    ensures SelectedIndex(ws, random) == |ws| - 1
  {
  }

  /** With non-negative contributions the running sums never decrease. */
  lemma {:induction false} PrefixMonotone<P>(ws: seq<Weighted<P>>, a: nat, b: nat)
    requires NonNegative(ws)
    requires a <= b <= |ws|
    ensures Prefix(ws, a) <= Prefix(ws, b)
  {
    if a < b {
      PrefixMonotone(ws, a, b - 1);
    }
  }

  /** Intervals are half-open: a threshold equal to the running sum through
      participant `i` does not select `i`, except through the fallback when
      `i` is last and no running sum exceeds the threshold. */
  lemma HalfOpenBoundary<P>(ws: seq<Weighted<P>>, i: nat)
    requires i < |ws|
    ensures SelectedIndex(ws, Prefix(ws, i + 1)) == i ==>
              i == |ws| - 1 && forall j :: 0 < j <= |ws| ==> Prefix(ws, j) <= Prefix(ws, i + 1)
  {
  }

  /** A draw inside `[0, Total)` with non-negative contributions lands in the
      interval `[Prefix(i), Prefix(i + 1))` of the selected participant, so the
      fallback never decides. */
  lemma SelectionInInterval<P>(ws: seq<Weighted<P>>, random: real)
    requires NonNegative(ws)
    requires 0.0 <= random < Total(ws)
    ensures |ws| > 0
    ensures Prefix(ws, SelectedIndex(ws, random)) <= random < Prefix(ws, SelectedIndex(ws, random) + 1)
  {
    var i := SelectedIndex(ws, random);
    if i > 0 {
      assert Prefix(ws, (i - 1) + 1) <= random;
    }
  }

  /** Fairness: for a draw inside `[0, Total)` participant `i` is selected
      exactly when the draw falls in `[Prefix(i), Prefix(i + 1))`, an interval
      whose length is `i`'s contribution. */
  lemma SelectedIffInInterval<P>(ws: seq<Weighted<P>>, random: real, i: nat)
    requires NonNegative(ws)
    requires 0.0 <= random < Total(ws)
    requires i < |ws|
    ensures SelectedIndex(ws, random) == i <==> Prefix(ws, i) <= random < Prefix(ws, i + 1)
    ensures Prefix(ws, i + 1) - Prefix(ws, i) == ws[i].totalContribution
  {
    SelectionInInterval(ws, random);
    var s := SelectedIndex(ws, random);
    if Prefix(ws, i) <= random < Prefix(ws, i + 1) && s != i {
      if s < i {
        PrefixMonotone(ws, s + 1, i);
      }
    }
  }

  /** `Math.random()` lies in `[0, 1)`, so with a positive total the threshold
      lies in `[0, Total)` and the selection is the fair one above. */
  lemma DrawIsFair<P>(ws: seq<Weighted<P>>, draw: real, i: nat)
    requires NonNegative(ws) && Total(ws) > 0.0
    requires 0.0 <= draw < 1.0
    requires i < |ws|
    ensures 0.0 <= draw * Total(ws) < Total(ws)
    ensures SelectedIndex(ws, draw * Total(ws)) == i <==>
              Prefix(ws, i) <= draw * Total(ws) < Prefix(ws, i + 1)
  {
    DrawBelowTotal(draw, Total(ws));
    SelectedIffInInterval(ws, draw * Total(ws), i);
  }

  lemma DrawBelowTotal(draw: real, total: real)
    requires 0.0 <= draw < 1.0 && total > 0.0
    ensures 0.0 <= draw * total < total
  {
    assert (1.0 - draw) * total > 0.0;
  }

  /** With a non-negative threshold the scan never stops at a participant
      whose contribution is zero; such a participant is returned only by the
      fallback, and only when it is last. */
  lemma ZeroContributionOnlyByFallback<P>(ws: seq<Weighted<P>>, random: real, i: nat)
    requires random >= 0.0
    requires i < |ws| && ws[i].totalContribution == 0.0
    requires SelectedIndex(ws, random) == i
    ensures i == |ws| - 1 && Prefix(ws, |ws|) <= random
  {
    assert Prefix(ws, i + 1) == Prefix(ws, i);
    if i > 0 {
      assert Prefix(ws, i) <= random;
    }
  }
}
