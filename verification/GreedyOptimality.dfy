/** No split of the same amount over the same venues beats the greedy one. */
module GreedyOptimality {
  import opened Base
  import opened Curves
  import opened Greedy
  import opened Allocations
  import opened Waterfill

  /** The rate of the band taken last. */
  ghost function LastRate(curves: seq<Curve>, mask: set<nat>, picks: seq<nat>): nat
    requires Picks(curves, mask, picks) && |picks| > 0
  {
    var k := |picks| - 1;
    PickedBand(curves, mask, picks, k);
    curves[picks[k]].segments[Count(picks[..k], picks[k])].marginal
  }

  /** Everything not picked pays at most the last rate. */
  lemma UnpickedPayLess(curves: seq<Curve>, mask: set<nat>, picks: seq<nat>, i: nat, j: nat)
    requires Picks(curves, mask, picks) && |picks| > 0 && ValidMask(curves, mask)
    requires i < |curves| && i in mask && Count(picks, i) <= j < |curves[i].segments|
    ensures curves[i].segments[j].marginal <= LastRate(curves, mask, picks)
  {
    var k := |picks| - 1;
    var before, last := picks[..k], picks[k];
    assert IsPick(curves, mask, picks, k);
    PickedBand(curves, mask, picks, k);
    var cursor := Counts(before, |curves|);
    assert Open(curves, mask, cursor, i);
    assert Rate(curves, cursor, i) <= Rate(curves, cursor, last);
    assert NonIncreasing(curves[i].segments, MAX_RATE);
    assert curves[i].segments[j].marginal <= curves[i].segments[Count(before, i)].marginal;
  }

  /** Everything picked pays at least the last rate. */
  lemma {:induction false} PickedPayMore(curves: seq<Curve>, mask: set<nat>, picks: seq<nat>, i: nat, j: nat)
    requires Picks(curves, mask, picks) && |picks| > 0 && ValidMask(curves, mask)
    requires i < |curves| && i in mask && j < Count(picks, i)
    ensures j < |curves[i].segments|
    ensures curves[i].segments[j].marginal >= LastRate(curves, mask, picks)
    decreases |picks|
  {
    hide Best;
    PicksInRange(curves, mask, picks);
    var k := |picks| - 1;
    var before, last := picks[..k], picks[k];
    PickedBand(curves, mask, picks, k);
    PicksPrefix(curves, mask, picks, k);
    if j < Count(before, i) {
      PickedPayMore(curves, mask, before, i, j);
      UnpickedPayLess(curves, mask, before, last, Count(before, last));
    }
  }

  /** c whole bands paying at least lambda, t atoms paying exactly lambda, and
      nothing dearer left: lambda supports the curve there. */
  lemma {:induction false} SupportsAt(bands: seq<Segment>, c: nat, t: nat, lambda: nat)
    requires c <= |bands| && forall j :: 0 <= j < |bands| ==> bands[j].inputCapacity > 0
    requires forall j :: 0 <= j < c ==> bands[j].marginal >= lambda
    requires forall j :: c <= j < |bands| ==> bands[j].marginal <= lambda
    requires t > 0 ==> c < |bands| && t <= bands[c].inputCapacity && bands[c].marginal == lambda
    ensures Supports(bands, CapPrefix(bands, c) + t, lambda)
  {
    if c > 0 {
      CapPrefixHead(bands, c);
      SupportsAt(bands[1..], c - 1, t, lambda);
    } else if t > 0 && t == bands[0].inputCapacity {
      SupportsAt(bands[1..], 0, 0, lambda);
    }
  }

  /** The last rate supports every venue's curve at its greedy input. */
  lemma GreedyIsSupported(curves: seq<Curve>, mask: set<nat>, amount: nat, i: nat)
    requires Fillable(curves, mask, amount) && i < |curves| && i in mask
    ensures Supports(curves[i].segments, GreedyInputs(curves, mask, amount)[i],
                     LastRate(curves, mask, GreedyPicks(curves, mask, amount)))
  {
    hide Best, GreedyPicks, Yield;
    var picks := GreedyPicks(curves, mask, amount);
    var lambda := LastRate(curves, mask, picks);
    var k := |picks| - 1;
    var before, last := picks[..k], picks[k];
    Anatomy(curves, mask, amount, picks);
    var bands, c := curves[i].segments, Count(before, i);
    var t := if i == last then amount - Rank(curves, mask, before, |curves|) else 0;
    assert picks == before + [last];
    CountSnoc(before, last, i);
    forall j | 0 <= j < c
      ensures bands[j].marginal >= lambda
    {
      PickedPayMore(curves, mask, picks, i, j);
    }
    forall j | c <= j < |bands|
      ensures bands[j].marginal <= lambda
    {
      if i != last || j > c {
        UnpickedPayLess(curves, mask, picks, i, j);
      }
    }
    SupportsAt(bands, c, t, lambda);
  }

  /** A split of the amount over the venues of the mask, within their capacities. */
  ghost predicate IsSplit(curves: seq<Curve>, mask: set<nat>, amount: nat, y: seq<nat>) {
    && |curves| <= |y|
    && (forall i :: 0 <= i < |curves| ==> y[i] <= TotalCapacity(curves[i].segments))
    && (forall i :: 0 <= i < |curves| && i !in mask ==> y[i] == 0)
    && Total(y, |curves|) == amount
  }

  lemma {:induction false} SumOfTangents(
    curves: seq<Curve>, mask: set<nat>, x: seq<nat>, y: seq<nat>, lambda: nat, n: nat)
    requires n <= |curves| <= |x| && |curves| <= |y|
    requires forall i :: 0 <= i < n && i !in mask ==> x[i] == 0 && y[i] == 0
    requires forall i :: 0 <= i < n && i in mask ==>
               x[i] <= TotalCapacity(curves[i].segments) && Supports(curves[i].segments, x[i], lambda)
    ensures Score(curves, y, n) + Yield(Total(x, n), lambda) <= Score(curves, x, n) + Yield(Total(y, n), lambda)
  {
    hide Yield;
    if n == 0 {
      YieldNothing(lambda);
    } else {
      var i := n - 1;
      SumOfTangents(curves, mask, x, y, lambda, i);
      YieldAdd(Total(x, i), x[i], lambda);
      YieldAdd(Total(y, i), y[i], lambda);
      if i in mask {
        Tangent(curves[i].segments, x[i], y[i], lambda);
      } else {
        IntegralDone(curves[i].segments, 0);
      }
    }
  }

  /** The greedy split is itself a split. */
  lemma GreedyIsSplit(curves: seq<Curve>, mask: set<nat>, amount: nat)
    requires Fillable(curves, mask, amount)
    ensures IsSplit(curves, mask, amount, GreedyInputs(curves, mask, amount))
  {
    hide Best, GreedyPicks;
    var picks := GreedyPicks(curves, mask, amount);
    Anatomy(curves, mask, amount, picks);
    forall i | 0 <= i < |curves|
      ensures GreedyInputs(curves, mask, amount)[i] <= TotalCapacity(curves[i].segments)
      ensures i !in mask ==> GreedyInputs(curves, mask, amount)[i] == 0
    {
      InputsWithin(curves, mask, amount, picks, i);
    }
  }

  /** Greedy optimality: whatever the split, its Q32 score, and hence its output,
      is at most that of `waterfill`. */
  lemma GreedyIsOptimal(curves: seq<Curve>, amount: nat, mask: set<nat>, y: seq<nat>)
    requires WaterfillOf(curves, amount, mask).Ok? && IsSplit(curves, mask, amount, y)
    ensures var plan := WaterfillOf(curves, amount, mask).value;
            && IsSplit(curves, mask, amount, plan.inputs)
            && Score(curves, y, |curves|) <= Score(curves, plan.inputs, |curves|)
            && Score(curves, y, |curves|) / SCALE <= plan.output
  {
    hide Best, GreedyPicks, Yield, Supports, Integral;
    NoMaskFault(curves, mask, |curves|);
    var x := GreedyInputs(curves, mask, amount);
    var lambda := LastRate(curves, mask, GreedyPicks(curves, mask, amount));
    GreedyIsSplit(curves, mask, amount);
    forall i | 0 <= i < |curves| && i in mask
      ensures Supports(curves[i].segments, x[i], lambda)
    {
      GreedyIsSupported(curves, mask, amount, i);
    }
    SumOfTangents(curves, mask, x, y, lambda, |curves|);
  }
}
