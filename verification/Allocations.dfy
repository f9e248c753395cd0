/** The greedy allocation of an amount over a set of venues, defined from the
    greedy order and independent of any particular algorithm. */
module Allocations {
  import opened Base
  import opened Curves
  import opened Greedy

  datatype Allocation = Allocation(inputs: seq<nat>, output: nat, mask: set<nat>)

  ghost predicate ValidMask(curves: seq<Curve>, mask: set<nat>) {
    && (forall i :: i in mask ==> i < |curves|)
    && forall i :: 0 <= i < |curves| && i in mask ==> ValidCurve(curves[i])
  }

  /** The greedy list stops with the pick that reaches the amount. */
  ghost predicate Stops(curves: seq<Curve>, mask: set<nat>, amount: nat, picks: seq<nat>) {
    && Picks(curves, mask, picks) && |picks| > 0
    && InBounds(curves, picks) && InBounds(curves, picks[..|picks| - 1])
    && Rank(curves, mask, picks[..|picks| - 1], |curves|) < amount <= Rank(curves, mask, picks, |curves|)
  }

  lemma PrefixInBounds(curves: seq<Curve>, mask: set<nat>, picks: seq<nat>, n: nat)
    requires Picks(curves, mask, picks) && n <= |picks|
    ensures Picks(curves, mask, picks[..n]) && InBounds(curves, picks[..n]) && InBounds(curves, picks)
  {
    hide Best;
    PicksPrefix(curves, mask, picks, n);
    PicksInRange(curves, mask, picks);
    PicksInRange(curves, mask, picks[..n]);
  }

  /** The band taken by pick k of a greedy list. */
  lemma PickedBand(curves: seq<Curve>, mask: set<nat>, picks: seq<nat>, k: nat)
    requires Picks(curves, mask, picks) && k < |picks|
    ensures picks[k] < |curves| && picks[k] in mask
    ensures Count(picks[..k], picks[k]) < |curves[picks[k]].segments|
  {
    assert IsPick(curves, mask, picks, k);
  }

  lemma {:induction false} RankGrows(curves: seq<Curve>, mask: set<nat>, m: set<nat>, picks: seq<nat>, a: nat, b: nat)
    requires Picks(curves, mask, picks) && a <= b <= |picks|
    ensures InBounds(curves, picks[..a]) && InBounds(curves, picks[..b])
    ensures Rank(curves, m, picks[..a], |curves|) <= Rank(curves, m, picks[..b], |curves|)
    decreases b - a
  {
    PrefixInBounds(curves, mask, picks, a);
    PrefixInBounds(curves, mask, picks, b);
    if a < b {
      RankGrows(curves, mask, m, picks, a, b - 1);
      PickedBand(curves, mask, picks, b - 1);
      RankSnoc(curves, m, picks[..b - 1], picks[b - 1], |curves|);
      assert picks[..b] == picks[..b - 1] + [picks[b - 1]];
    }
  }

  /** There is only one list that stops at a given amount. */
  lemma StopsUnique(curves: seq<Curve>, mask: set<nat>, amount: nat, p: seq<nat>, q: seq<nat>)
    requires Stops(curves, mask, amount, p) && Stops(curves, mask, amount, q)
    ensures p == q
  {
    hide Best, Picks;
    if |p| <= |q| {
      PicksAgree(curves, mask, p, q);
      if |p| < |q| {
        RankGrows(curves, mask, mask, q, |p|, |q| - 1);
        assert false;
      }
    } else {
      PicksAgree(curves, mask, q, p);
      RankGrows(curves, mask, mask, p, |q|, |p| - 1);
      assert false;
    }
  }

  lemma NextPick(curves: seq<Curve>, mask: set<nat>, picks: seq<nat>)
    requires Picks(curves, mask, picks) && InBounds(curves, picks) && ValidMask(curves, mask)
    requires Rank(curves, mask, picks, |curves|) < MaskCapacity(curves, mask, |curves|)
    ensures var b := Best(curves, mask, Counts(picks, |curves|), |curves|);
            && b.Some?
            && Picks(curves, mask, picks + [b.value]) && InBounds(curves, picks + [b.value])
            && Rank(curves, mask, picks + [b.value], |curves|) > Rank(curves, mask, picks, |curves|)
  {
    var b := Best(curves, mask, Counts(picks, |curves|), |curves|);
    if b.None? {
      RankWhenExhausted(curves, mask, picks, |curves|);
    }
    hide Best;
    PicksSnoc(curves, mask, picks, b.value);
    RankSnoc(curves, mask, picks, b.value, |curves|);
  }

  /** Extend a greedy list until it reaches the amount. */
  ghost function PicksUpTo(curves: seq<Curve>, mask: set<nat>, amount: nat, picks: seq<nat>): (r: seq<nat>)
    requires Picks(curves, mask, picks) && InBounds(curves, picks) && ValidMask(curves, mask)
    requires Rank(curves, mask, picks, |curves|) < amount <= MaskCapacity(curves, mask, |curves|)
    ensures Stops(curves, mask, amount, r)
    decreases amount - Rank(curves, mask, picks, |curves|)
  {
    NextPick(curves, mask, picks);
    var next := picks + [Best(curves, mask, Counts(picks, |curves|), |curves|).value];
    assert next[..|next| - 1] == picks;
    if Rank(curves, mask, next, |curves|) >= amount then next else PicksUpTo(curves, mask, amount, next)
  }

  ghost predicate Fillable(curves: seq<Curve>, mask: set<nat>, amount: nat) {
    && |curves| <= MAX_EDGES && ValidMask(curves, mask)
    && 0 < amount <= MAX_ATOMS && amount <= MaskCapacity(curves, mask, |curves|)
  }

  ghost function GreedyPicks(curves: seq<Curve>, mask: set<nat>, amount: nat): (r: seq<nat>)
    requires Fillable(curves, mask, amount)
    ensures Stops(curves, mask, amount, r)
  {
    RankNone(curves, mask, |curves|);
    PicksUpTo(curves, mask, amount, [])
  }

  /** Whole bands for every pick but the last; the last takes what is left. */
  ghost function InputsOf(curves: seq<Curve>, mask: set<nat>, amount: nat, picks: seq<nat>): (inputs: seq<nat>)
    requires |curves| <= MAX_EDGES && Stops(curves, mask, amount, picks)
    ensures |inputs| == MAX_EDGES
  {
    var before, last := picks[..|picks| - 1], picks[|picks| - 1];
    seq(MAX_EDGES, i requires 0 <= i < MAX_EDGES =>
      if i < |curves| then
        Filled(curves, before, i) + if i == last then amount - Rank(curves, mask, before, |curves|) else 0
      else 0)
  }

  ghost function GreedyInputs(curves: seq<Curve>, mask: set<nat>, amount: nat): (inputs: seq<nat>)
    requires Fillable(curves, mask, amount)
    ensures |inputs| == MAX_EDGES
  {
    InputsOf(curves, mask, amount, GreedyPicks(curves, mask, amount))
  }

  /** Q32 output of a split over the first n venues. */
  ghost function Score(curves: seq<Curve>, inputs: seq<nat>, n: nat): nat
    requires n <= |curves| && n <= |inputs|
  {
    if n == 0 then 0 else Score(curves, inputs, n - 1) + Integral(curves[n - 1].segments, inputs[n - 1])
  }

  function Support(inputs: seq<nat>): set<nat> {
    set i | 0 <= i < |inputs| && inputs[i] > 0
  }

  ghost function AllocationOf(curves: seq<Curve>, inputs: seq<nat>): Allocation
    requires |curves| <= |inputs|
  {
    Allocation(inputs, Score(curves, inputs, |curves|) / SCALE, Support(inputs))
  }

  /** The first invalid curve among the venues of the mask. */
  function MaskFault(curves: seq<Curve>, mask: set<nat>, n: nat): Option<Error>
    requires n <= |curves|
  {
    if n == 0 then None
    else if MaskFault(curves, mask, n - 1).Some? then MaskFault(curves, mask, n - 1)
    else if n - 1 in mask then CurveFault(curves[n - 1])
    else None
  }

  lemma {:induction false} NoMaskFault(curves: seq<Curve>, mask: set<nat>, n: nat)
    requires n <= |curves|
    ensures MaskFault(curves, mask, n).None? <==> forall i :: 0 <= i < n && i in mask ==> ValidCurve(curves[i])
  {
    if n > 0 {
      NoMaskFault(curves, mask, n - 1);
      FaultMeaning(curves[n - 1]);
    }
  }

  lemma {:induction false} MaskFaultSticks(curves: seq<Curve>, mask: set<nat>, i: nat, n: nat)
    requires i <= n <= |curves| && MaskFault(curves, mask, i).Some?
    ensures MaskFault(curves, mask, n) == MaskFault(curves, mask, i)
  {
    if i < n {
      MaskFaultSticks(curves, mask, i, n - 1);
    }
  }

  /** What the greedy allocator must answer, errors included. */
  ghost function WaterfillOf(curves: seq<Curve>, amount: nat, mask: set<nat>): Result<Allocation> {
    if |curves| == 0 || |curves| > MAX_EDGES || amount == 0 || amount > MAX_ATOMS then Err(InvalidAmount)
    else if mask == {} || exists i :: i in mask && i >= |curves| then Err(Error.Bounds)
    else if MaskFault(curves, mask, |curves|).Some? then Err(MaskFault(curves, mask, |curves|).value)
    else if MaskCapacity(curves, mask, |curves|) < amount then Err(Error.Capacity)
    else
      NoMaskFault(curves, mask, |curves|);
      Ok(AllocationOf(curves, GreedyInputs(curves, mask, amount)))
  }

  // ---------------------------------------------------------------- scores of whole bands

  /** Q32 output of the bands picked from the first n venues. */
  ghost function BandScore(curves: seq<Curve>, m: set<nat>, picks: seq<nat>, n: nat): nat
    requires InBounds(curves, picks) && n <= |curves|
  {
    if n == 0 then 0
    else BandScore(curves, m, picks, n - 1)
         + if n - 1 in m then IntPrefix(curves[n - 1].segments, Count(picks, n - 1)) else 0
  }

  lemma {:induction false} BandScoreSnoc(curves: seq<Curve>, m: set<nat>, picks: seq<nat>, p: nat, n: nat)
    requires InBounds(curves, picks) && InBounds(curves, picks + [p]) && n <= |curves| && p < |curves|
    requires Count(picks, p) < |curves[p].segments|
    ensures BandScore(curves, m, picks + [p], n) ==
            BandScore(curves, m, picks, n)
            + if p < n && p in m then
                Yield(curves[p].segments[Count(picks, p)].inputCapacity, curves[p].segments[Count(picks, p)].marginal)
              else 0
  {
    hide Yield;
    if n > 0 {
      BandScoreSnoc(curves, m, picks, p, n - 1);
      CountSnoc(picks, p, n - 1);
    }
  }

  lemma {:induction false} BandScoreNone(curves: seq<Curve>, m: set<nat>, n: nat)
    requires n <= |curves|
    ensures InBounds(curves, []) && BandScore(curves, m, [], n) == 0
  {
    if n > 0 {
      BandScoreNone(curves, m, n - 1);
    }
  }

  ghost predicate BandsPositive(curves: seq<Curve>, m: set<nat>) {
    forall i :: 0 <= i < |curves| && i in m ==>
      forall j :: 0 <= j < |curves[i].segments| ==> curves[i].segments[j].inputCapacity > 0
  }

  /** The score of the greedy split is the score of its whole bands plus the
      partial last band. */
  lemma {:induction false} ScoreOfInputs(
    curves: seq<Curve>, mask: set<nat>, before: seq<nat>, last: nat, partial: nat, inputs: seq<nat>, n: nat)
    requires InBounds(curves, before) && n <= |curves| <= |inputs| && last < |curves|
    requires forall i :: 0 <= i < |curves| && i !in mask ==> Count(before, i) == 0
    requires BandsPositive(curves, mask) && last in mask
    requires Count(before, last) < |curves[last].segments|
    requires 0 < partial <= curves[last].segments[Count(before, last)].inputCapacity
    requires forall i :: 0 <= i < |curves| ==> inputs[i] == Filled(curves, before, i) + if i == last then partial else 0
    ensures Score(curves, inputs, n) ==
            BandScore(curves, mask, before, n)
            + if last < n then Yield(partial, curves[last].segments[Count(before, last)].marginal) else 0
  {
    hide Yield;
    if n > 0 {
      ScoreOfInputs(curves, mask, before, last, partial, inputs, n - 1);
      var i := n - 1;
      if i in mask {
        IntegralAt(curves[i].segments, Count(before, i), if i == last then partial else 0);
      } else {
        assert inputs[i] == 0;
      }
    }
  }

  // ---------------------------------------------------------------- totals

  ghost function Total(inputs: seq<nat>, n: nat): nat
    requires n <= |inputs|
  {
    if n == 0 then 0 else Total(inputs, n - 1) + inputs[n - 1]
  }

  lemma {:induction false} TotalOfInputs(
    curves: seq<Curve>, mask: set<nat>, before: seq<nat>, last: nat, partial: nat, inputs: seq<nat>, n: nat)
    requires InBounds(curves, before) && n <= |curves| <= |inputs| && last < |curves|
    requires forall i :: 0 <= i < |curves| && i !in mask ==> Count(before, i) == 0
    requires forall i :: 0 <= i < |curves| ==> inputs[i] == Filled(curves, before, i) + if i == last then partial else 0
    ensures Total(inputs, n) == Rank(curves, mask, before, n) + if last < n then partial else 0
  {
    if n > 0 {
      TotalOfInputs(curves, mask, before, last, partial, inputs, n - 1);
    }
  }

  lemma {:induction false} ScoreBounded(curves: seq<Curve>, inputs: seq<nat>, n: nat)
    requires n <= |curves| && n <= |inputs|
    requires forall i, j :: 0 <= i < n && inputs[i] > 0 && 0 <= j < |curves[i].segments| ==>
               curves[i].segments[j].marginal <= MAX_RATE
    ensures Score(curves, inputs, n) <= Total(inputs, n) * MAX_RATE
  {
    if n > 0 {
      ScoreBounded(curves, inputs, n - 1);
      if inputs[n - 1] > 0 {
        IntegralBounded(curves[n - 1].segments, inputs[n - 1]);
      } else {
        IntegralDone(curves[n - 1].segments, 0);
      }
    }
  }
}
