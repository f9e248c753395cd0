/** The relaxed bound of a search only shrinks when less is asked of fewer venues. */
module Relaxation {
  import opened Base
  import opened Products
  import opened Curves
  import opened Greedy
  import opened Allocations
  import opened Waterfill
  import opened GreedyOptimality
  import opened SearchSpec
  import opened SearchTheorems

  // ---------------------------------------------------------------- filling up a split

  lemma {:induction false} IntegralMonotone(bands: seq<Segment>, x: nat, x': nat)
    requires x <= x'
    ensures Integral(bands, x) <= Integral(bands, x')
  {
    hide Yield;
    if |bands| > 0 && x > 0 {
      var c := bands[0].inputCapacity;
      YieldGrows(Min(x, c), Min(x', c), bands[0].marginal);
      IntegralMonotone(bands[1..], x - Min(x, c), x' - Min(x', c));
    }
  }

  lemma YieldGrows(x: nat, x': nat, rate: nat)
    requires x <= x'
    ensures Yield(x, rate) <= Yield(x', rate)
  {
    Mono(x, x', rate);
  }

  lemma {:induction false} RaiseOne(curves: seq<Curve>, y: seq<nat>, i: nat, n: nat)
    requires n <= |curves| <= |y| && i < |curves|
    ensures Total(y[i := y[i] + 1], n) == Total(y, n) + if i < n then 1 else 0
    ensures Score(curves, y, n) <= Score(curves, y[i := y[i] + 1], n)
  {
    hide Integral;
    if n > 0 {
      RaiseOne(curves, y, i, n - 1);
      IntegralMonotone(curves[i].segments, y[i], y[i] + 1);
    }
  }

  /** A split that does not use all capacity leaves room at some venue. */
  lemma {:induction false} RoomSomewhere(curves: seq<Curve>, mask: set<nat>, y: seq<nat>, n: nat) returns (i: nat)
    requires n <= |curves| <= |y| && Total(y, n) < MaskCapacity(curves, mask, n)
    ensures i < n && i in mask && y[i] < TotalCapacity(curves[i].segments)
  {
    if n - 1 in mask && y[n - 1] < TotalCapacity(curves[n - 1].segments) {
      i := n - 1;
    } else {
      i := RoomSomewhere(curves, mask, y, n - 1);
    }
  }

  /** Every split of less can be filled up to a split of more that pays at least as much. */
  lemma {:induction false} FillUp(curves: seq<Curve>, mask: set<nat>, less: nat, amount: nat, y: seq<nat>)
    returns (z: seq<nat>)
    requires IsSplit(curves, mask, less, y) && less <= amount <= MaskCapacity(curves, mask, |curves|)
    ensures IsSplit(curves, mask, amount, z) && Score(curves, y, |curves|) <= Score(curves, z, |curves|)
    decreases amount - less
  {
    hide Score, MaskCapacity, Total;
    if less == amount {
      z := y;
    } else {
      var i := RoomSomewhere(curves, mask, y, |curves|);
      RaiseOne(curves, y, i, |curves|);
      z := FillUp(curves, mask, less + 1, amount, y[i := y[i] + 1]);
    }
  }

  // ---------------------------------------------------------------- the relaxed optimum

  lemma WaterfillFits(curves: seq<Curve>, amount: nat, mask: set<nat>)
    requires WaterfillOf(curves, amount, mask).Ok?
    ensures Fillable(curves, mask, amount) && amount <= MaskCapacity(curves, mask, |curves|)
    ensures WaterfillOf(curves, amount, mask).value.output == Score(curves, GreedyInputs(curves, mask, amount), |curves|) / SCALE
  {
    hide GreedyInputs, MaskCapacity, Score;
    NoMaskFault(curves, mask, |curves|);
  }

  lemma SmallerMask(curves: seq<Curve>, small: set<nat>, mask: set<nat>, amount: nat, y: seq<nat>)
    requires IsSplit(curves, small, amount, y) && small <= mask
    ensures IsSplit(curves, mask, amount, y)
  {
    hide Total;
  }

  /** The greedy optimum of less over fewer venues pays at most that of more over more. */
  lemma OptimumShrinks(curves: seq<Curve>, less: nat, small: set<nat>, amount: nat, mask: set<nat>)
    requires WaterfillOf(curves, less, small).Ok? && WaterfillOf(curves, amount, mask).Ok?
    requires less <= amount && small <= mask
    ensures WaterfillOf(curves, less, small).value.output <= WaterfillOf(curves, amount, mask).value.output
  {
    hide *;
    WaterfillFits(curves, less, small);
    WaterfillFits(curves, amount, mask);
    GreedyIsSplit(curves, small, less);
    var y := GreedyInputs(curves, small, less);
    SmallerMask(curves, small, mask, less, y);
    var z := FillUp(curves, mask, less, amount, y);
    SplitShape(curves, mask, less, y);
    SplitShape(curves, mask, amount, z);
    GreedyIsOptimal(curves, amount, mask, z);
    FloorMonotone(Score(curves, y, |curves|), Score(curves, z, |curves|));
  }

  lemma SplitShape(curves: seq<Curve>, mask: set<nat>, amount: nat, y: seq<nat>)
    requires IsSplit(curves, mask, amount, y)
    ensures |curves| <= |y|
  {
  }

  // ---------------------------------------------------------------- the bound

  lemma {:induction false} FewerErrors(q: Problem, q': Problem, n: nat)
    requires q'.curves == q.curves && q'.eligible <= q.eligible && n <= |q.curves|
    ensures UpperErrors(q', n) <= UpperErrors(q, n)
  {
    if n > 0 {
      FewerErrors(q, q', n - 1);
    }
  }

  lemma {:induction false} UpperFits(q: Problem, relaxed: nat, n: nat)
    requires n <= |q.curves| && relaxed + UpperErrors(q, n) <= U64_MAX
    ensures UpperOf(q, relaxed, n).Ok?
  {
    if n > 0 {
      UpperFits(q, relaxed, n - 1);
      UpperIs(q, relaxed, n - 1);
    }
  }

  /** When the bound of a question fits 64 bits, so does that of asking less of fewer
      of the same venues. */
  lemma BoundShrinks(q: Problem, q': Problem)
    requires Enclosed(q) && QueryOf(q, q.eligible, false).Ok? && !BoundOverflows(q)
    requires q'.curves == q.curves && q'.eligible <= q.eligible && q'.amount <= q.amount
    ensures !BoundOverflows(q')
  {
    hide *;
    BoundMeans(q);
    BoundMeans(q');
    if QueryOf(q', q'.eligible, false).Ok? {
      RelaxedFits(q);
      OptimumShrinks(q.curves, q'.amount, q'.eligible, q.amount, q.eligible);
      FewerErrors(q, q', |q.curves|);
      UpperIs(q, QueryOf(q, q.eligible, false).value.output, |q.curves|);
      UpperFits(q', QueryOf(q', q'.eligible, false).value.output, |q'.curves|);
    }
  }

  lemma BoundMeans(q: Problem)
    ensures QueryOf(q, q.eligible, false) == WaterfillOf(q.curves, q.amount, q.eligible)
    ensures BoundOverflows(q) <==>
              && QueryOf(q, q.eligible, false).Ok?
              && UpperOf(q, QueryOf(q, q.eligible, false).value.output, |q.curves|).Err?
  {
    hide WaterfillOf, UpperOf;
  }
}
