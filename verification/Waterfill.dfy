/** The streaming allocator: scan all venues for the best next band until the
    amount is used up. */
module Waterfill {
  import opened Base
  import opened Products
  import opened Curves
  import opened Greedy
  import opened Allocations

  lemma ValidMaskPositive(curves: seq<Curve>, mask: set<nat>)
    requires ValidMask(curves, mask)
    ensures BandsPositive(curves, mask)
  {
  }

  /** The anatomy of a greedy split: whole bands, one partial band, nothing else. */
  lemma Anatomy(curves: seq<Curve>, mask: set<nat>, amount: nat, picks: seq<nat>)
    requires Fillable(curves, mask, amount) && Stops(curves, mask, amount, picks)
    ensures var k := |picks| - 1;
            var before, last := picks[..k], picks[k];
            var partial := amount - Rank(curves, mask, before, |curves|);
            && InBounds(curves, before) && last < |curves| && last in mask
            && Count(before, last) < |curves[last].segments|
            && 0 < partial <= curves[last].segments[Count(before, last)].inputCapacity
            && Total(InputsOf(curves, mask, amount, picks), |curves|) == amount
            && Score(curves, InputsOf(curves, mask, amount, picks), |curves|) ==
               BandScore(curves, mask, before, |curves|)
               + Yield(partial, curves[last].segments[Count(before, last)].marginal)
  {
    hide Best, Yield;
    var k := |picks| - 1;
    var before, last := picks[..k], picks[k];
    assert picks == before + [last];
    PrefixInBounds(curves, mask, picks, k);
    PickedBand(curves, mask, picks, k);
    RankSnoc(curves, mask, before, last, |curves|);
    PicksInRange(curves, mask, before);
    ValidMaskPositive(curves, mask);
    var partial := amount - Rank(curves, mask, before, |curves|);
    ScoreOfInputs(curves, mask, before, last, partial, InputsOf(curves, mask, amount, picks), |curves|);
    TotalOfInputs(curves, mask, before, last, partial, InputsOf(curves, mask, amount, picks), |curves|);
  }

  /** The input of venue i: its whole bands and, for the last pick, a part of the next. */
  lemma InputParts(curves: seq<Curve>, mask: set<nat>, amount: nat, picks: seq<nat>, i: nat)
    requires Fillable(curves, mask, amount) && Stops(curves, mask, amount, picks) && i < |curves|
    ensures |picks| > 0 && |curves| <= MAX_EDGES
    ensures var before, last, bands := picks[..|picks| - 1], picks[|picks| - 1], curves[i].segments;
            var c, x := Count(before, i), InputsOf(curves, mask, amount, picks)[i];
            && c <= |bands| && (c > 0 ==> i in mask)
            && Count(picks, i) == c + (if i == last then 1 else 0) <= |bands|
            && (i != last ==> x == CapPrefix(bands, c))
            && (i == last ==> i in mask && CapPrefix(bands, c) < x <= CapPrefix(bands, c) + bands[c].inputCapacity)
  {
    hide Best, Yield, Count, Rank, CapPrefix, Picks, BandScore, Score, Total, ValidMask, MaskCapacity;
    Anatomy(curves, mask, amount, picks);
    var k := |picks| - 1;
    PrefixInBounds(curves, mask, picks, k);
    PicksInRange(curves, mask, picks);
    PicksInRange(curves, mask, picks[..k]);
    assert picks == picks[..k] + [picks[k]];
    CountSnoc(picks[..k], picks[k], i);
  }

  lemma SomeCapacity(curves: seq<Curve>, mask: set<nat>, amount: nat, i: nat, c: nat)
    requires Fillable(curves, mask, amount) && i < |curves| && i in mask && 0 < c <= |curves[i].segments|
    ensures CapPrefix(curves[i].segments, c) > 0
  {
    ValidMaskPositive(curves, mask);
    CapPrefixMonotone(curves[i].segments, 1, c);
  }

  lemma NextCapacity(bands: seq<Segment>, c: nat)
    requires c < |bands|
    ensures CapPrefix(bands, c + 1) == CapPrefix(bands, c) + bands[c].inputCapacity
  {
  }

  /** The split stays on the mask and within every venue's capacity. */
  lemma InputsWithin(curves: seq<Curve>, mask: set<nat>, amount: nat, picks: seq<nat>, i: nat)
    requires Fillable(curves, mask, amount) && Stops(curves, mask, amount, picks) && i < |curves|
    ensures var x := InputsOf(curves, mask, amount, picks)[i];
            && x <= TotalCapacity(curves[i].segments)
            && (x > 0 <==> Count(picks, i) > 0)
            && (x > 0 ==> i in mask)
  {
    hide *;
    InputParts(curves, mask, amount, picks, i);
    var bands, c := curves[i].segments, Count(picks[..|picks| - 1], i);
    NoCapacity(bands);
    CapPrefixTotal(bands);
    CapPrefixMonotone(bands, Count(picks, i), |bands|);
    if i == picks[|picks| - 1] {
      NextCapacity(bands, c);
    } else if c > 0 {
      SomeCapacity(curves, mask, amount, i, c);
    }
  }

  lemma NoCapacity(bands: seq<Segment>)
    ensures CapPrefix(bands, 0) == 0
  {
  }

  lemma OutputFits(curves: seq<Curve>, mask: set<nat>, amount: nat, picks: seq<nat>)
    requires Fillable(curves, mask, amount) && Stops(curves, mask, amount, picks)
    ensures Score(curves, InputsOf(curves, mask, amount, picks), |curves|) <= MAX_ATOMS * MAX_RATE <= U128_MAX
    ensures Score(curves, InputsOf(curves, mask, amount, picks), |curves|) / SCALE <= U64_MAX
  {
    var inputs := InputsOf(curves, mask, amount, picks);
    forall i, j | 0 <= i < |curves| && inputs[i] > 0 && 0 <= j < |curves[i].segments|
      ensures curves[i].segments[j].marginal <= MAX_RATE
    {
      InputsWithin(curves, mask, amount, picks, i);
    }
    Anatomy(curves, mask, amount, picks);
    ScoreBounded(curves, inputs, |curves|);
    Mono(amount, MAX_ATOMS, MAX_RATE);
  }

  // ---------------------------------------------------------------- the loop

  /** Scan all venues for the best next band. */
  method ScanBest(curves: seq<Curve>, mask: set<nat>, cursor: array<nat>, meter: WorkMeter)
    returns (ok: bool, best: Option<nat>)
    requires cursor.Length == |curves|
    modifies meter`used
    ensures old(meter.Within()) ==> meter.Within()
    ensures ok ==> best == Best(curves, mask, cursor[..], |curves|)
    ensures ok ==> meter.used == old(meter.used) + |curves|
    ensures old(meter.used) <= meter.used <= old(meter.used) + |curves|
    ensures !ok ==> old(meter.used) + |curves| > meter.limit
  {
    ghost var at := cursor[..];
    best := None;
    for i := 0 to |curves|
      invariant old(meter.Within()) ==> meter.Within()
      invariant best == Best(curves, mask, at, i)
      invariant meter.used == old(meter.used) + i
    {
      ok := meter.Charge(1);
      if !ok {
        return;
      }
      assert cursor[..] == at;
      if i !in mask || cursor[i] >= |curves[i].segments| {
        continue;
      }
      if best.None?
         || curves[i].segments[cursor[i]].marginal > curves[best.value].segments[cursor[best.value]].marginal {
        best := Some(i);
      }
    }
    ok := true;
  }

  /** The loop's state after some picks: everything picked so far was taken whole. */
  ghost predicate Poured(
    curves: seq<Curve>, mask: set<nat>, amount: nat, picks: seq<nat>,
    cursor: seq<nat>, inputs: seq<nat>, used: set<nat>, remaining: nat, score: nat)
  {
    && Picks(curves, mask, picks) && InBounds(curves, picks)
    && cursor == Counts(picks, |curves|)
    && Rank(curves, mask, picks, |curves|) + remaining == amount
    && |inputs| == MAX_EDGES && |curves| <= MAX_EDGES
    && (forall i :: 0 <= i < |curves| ==> inputs[i] == Filled(curves, picks, i))
    && (forall i :: |curves| <= i < MAX_EDGES ==> inputs[i] == 0)
    && used == (set i | 0 <= i < |curves| && Count(picks, i) > 0)
    && score == BandScore(curves, mask, picks, |curves|)
  }

  ghost predicate Finished(
    curves: seq<Curve>, mask: set<nat>, amount: nat, inputs: seq<nat>, used: set<nat>, score: nat)
  {
    && Fillable(curves, mask, amount)
    && inputs == GreedyInputs(curves, mask, amount)
    && used == Support(inputs)
    && score == Score(curves, inputs, |curves|)
  }

  lemma PourStart(curves: seq<Curve>, mask: set<nat>, amount: nat)
    requires |curves| <= MAX_EDGES
    ensures Poured(curves, mask, amount, [], seq(|curves|, _ => 0), seq(MAX_EDGES, _ => 0), {}, amount, 0)
  {
    RankNone(curves, mask, |curves|);
    BandScoreNone(curves, mask, |curves|);
  }

  /** Taking a whole band and going on. */
  lemma PourBand(
    curves: seq<Curve>, mask: set<nat>, amount: nat, picks: seq<nat>,
    cursor: seq<nat>, inputs: seq<nat>, used: set<nat>, remaining: nat, score: nat, i: nat)
    requires Poured(curves, mask, amount, picks, cursor, inputs, used, remaining, score)
    requires Best(curves, mask, cursor, |curves|) == Some(i)
    requires curves[i].segments[cursor[i]].inputCapacity <= remaining
    ensures var s := curves[i].segments[cursor[i]];
            Poured(curves, mask, amount, picks + [i], cursor[i := cursor[i] + 1],
                   inputs[i := inputs[i] + s.inputCapacity], used + {i},
                   remaining - s.inputCapacity, score + Yield(s.inputCapacity, s.marginal))
  {
    hide Best, Yield;
    PicksSnoc(curves, mask, picks, i);
    RankSnoc(curves, mask, picks, i, |curves|);
    BandScoreSnoc(curves, mask, picks, i, |curves|);
    forall j | 0 <= j < |curves|
      ensures Count(picks + [i], j) == Count(picks, j) + if i == j then 1 else 0
    {
      CountSnoc(picks, i, j);
    }
  }

  lemma {:induction false} BestIsOpen(curves: seq<Curve>, mask: set<nat>, cursor: seq<nat>, i: nat)
    requires |cursor| == |curves| && Best(curves, mask, cursor, |curves|) == Some(i)
    ensures i < |curves| && i in mask && cursor[i] < |curves[i].segments|
  {
  }

  lemma LastPickStops(curves: seq<Curve>, mask: set<nat>, amount: nat, picks: seq<nat>, i: nat)
    requires Picks(curves, mask, picks) && InBounds(curves, picks) && |curves| <= MAX_EDGES
    requires ValidMask(curves, mask) && 0 < amount <= MAX_ATOMS
    requires Best(curves, mask, Counts(picks, |curves|), |curves|) == Some(i)
    requires Rank(curves, mask, picks, |curves|) < amount
    requires amount <= Rank(curves, mask, picks, |curves|) + curves[i].segments[Count(picks, i)].inputCapacity
    ensures Fillable(curves, mask, amount) && GreedyPicks(curves, mask, amount) == picks + [i]
  {
    BestIsOpen(curves, mask, Counts(picks, |curves|), i);
    hide Best, Yield;
    var picks' := picks + [i];
    assert picks'[..|picks|] == picks;
    PicksSnoc(curves, mask, picks, i);
    RankSnoc(curves, mask, picks, i, |curves|);
    RankAtMost(curves, mask, picks', |curves|);
    StopsUnique(curves, mask, amount, picks', GreedyPicks(curves, mask, amount));
  }

  /** Taking the rest of the amount from a band and stopping. */
  lemma PourLast(
    curves: seq<Curve>, mask: set<nat>, amount: nat, picks: seq<nat>,
    cursor: seq<nat>, inputs: seq<nat>, used: set<nat>, remaining: nat, score: nat, i: nat)
    requires Poured(curves, mask, amount, picks, cursor, inputs, used, remaining, score)
    requires ValidMask(curves, mask) && 0 < amount <= MAX_ATOMS
    requires Best(curves, mask, cursor, |curves|) == Some(i)
    requires i < |curves| && cursor[i] < |curves[i].segments|
    requires 0 < remaining <= curves[i].segments[cursor[i]].inputCapacity
    ensures var s := curves[i].segments[cursor[i]];
            Finished(curves, mask, amount, inputs[i := inputs[i] + remaining], used + {i}, score + Yield(remaining, s.marginal))
  {
    hide Best, Picks, ValidMask, GreedyPicks, Yield, BandScore, Score, Rank, InBounds, Count, Support, Total, MaskCapacity;
    LastPickStops(curves, mask, amount, picks, i);
    var picks' := GreedyPicks(curves, mask, amount);
    assert picks'[..|picks|] == picks && picks'[|picks|] == i;
    Anatomy(curves, mask, amount, picks');
    var inputs' := inputs[i := inputs[i] + remaining];
    assert inputs' == InputsOf(curves, mask, amount, picks');
    SupportIsPicked(curves, mask, amount, picks, i);
  }

  /** The venues with some input are those that were picked. */
  lemma SupportIsPicked(curves: seq<Curve>, mask: set<nat>, amount: nat, picks: seq<nat>, i: nat)
    requires Fillable(curves, mask, amount) && GreedyPicks(curves, mask, amount) == picks + [i] && i < |curves|
    ensures Support(GreedyInputs(curves, mask, amount)) == (set j | 0 <= j < |curves| && Count(picks, j) > 0) + {i}
  {
    var picks', inputs := GreedyPicks(curves, mask, amount), GreedyInputs(curves, mask, amount);
    forall j | 0 <= j < |curves|
      ensures inputs[j] > 0 <==> Count(picks, j) > 0 || i == j
    {
      hide *;
      InputsWithin(curves, mask, amount, picks', j);
      CountSnoc(picks, i, j);
      GreedyInputsAre(curves, mask, amount);
    }
  }

  lemma GreedyInputsAre(curves: seq<Curve>, mask: set<nat>, amount: nat)
    requires Fillable(curves, mask, amount)
    ensures |curves| <= MAX_EDGES
    ensures GreedyInputs(curves, mask, amount) == InputsOf(curves, mask, amount, GreedyPicks(curves, mask, amount))
  {
  }

  /** No open venue left although something remains: the mask is too small. */
  lemma PourFails(
    curves: seq<Curve>, mask: set<nat>, amount: nat, picks: seq<nat>,
    cursor: seq<nat>, inputs: seq<nat>, used: set<nat>, remaining: nat, score: nat)
    requires Poured(curves, mask, amount, picks, cursor, inputs, used, remaining, score) && remaining > 0
    requires Best(curves, mask, cursor, |curves|).None?
    ensures MaskCapacity(curves, mask, |curves|) < amount
  {
    RankWhenExhausted(curves, mask, picks, |curves|);
  }

  // ---------------------------------------------------------------- work

  function BandCount(curves: seq<Curve>, mask: set<nat>, n: nat): nat
    requires n <= |curves|
  {
    if n == 0 then 0 else BandCount(curves, mask, n - 1) + if n - 1 in mask then |curves[n - 1].segments| else 0
  }

  ghost function CountUpTo(picks: seq<nat>, n: nat): nat {
    if n == 0 then 0 else CountUpTo(picks, n - 1) + Count(picks, n - 1)
  }

  lemma {:induction false} CountUpToSnoc(picks: seq<nat>, p: nat, n: nat)
    ensures CountUpTo(picks + [p], n) == CountUpTo(picks, n) + if p < n then 1 else 0
  {
    if n > 0 {
      CountUpToSnoc(picks, p, n - 1);
      CountSnoc(picks, p, n - 1);
    }
  }

  lemma {:induction false} CountUpToNone(n: nat)
    ensures CountUpTo([], n) == 0
  {
    if n > 0 {
      CountUpToNone(n - 1);
    }
  }

  lemma {:induction false} LengthIsCount(picks: seq<nat>, n: nat)
    requires forall k :: 0 <= k < |picks| ==> picks[k] < n
    ensures CountUpTo(picks, n) == |picks|
  {
    if |picks| == 0 {
      CountUpToNone(n);
    } else {
      var k := |picks| - 1;
      LengthIsCount(picks[..k], n);
      CountUpToSnoc(picks[..k], picks[k], n);
      assert picks == picks[..k] + [picks[k]];
    }
  }

  lemma {:induction false} CountUpToBounded(curves: seq<Curve>, mask: set<nat>, picks: seq<nat>, n: nat)
    requires InBounds(curves, picks) && n <= |curves|
    requires forall i :: i !in mask ==> Count(picks, i) == 0
    ensures CountUpTo(picks, n) <= BandCount(curves, mask, n)
  {
    if n > 0 {
      CountUpToBounded(curves, mask, picks, n - 1);
    }
  }

  /** A greedy list never has more picks than there are bands. */
  lemma PicksBounded(curves: seq<Curve>, mask: set<nat>, picks: seq<nat>)
    requires Picks(curves, mask, picks)
    ensures |picks| <= BandCount(curves, mask, |curves|)
  {
    PicksInRange(curves, mask, picks);
    LengthIsCount(picks, |curves|);
    CountUpToBounded(curves, mask, picks, |curves|);
  }

  function FillWork(curves: seq<Curve>, mask: set<nat>): nat {
    (BandCount(curves, mask, |curves|) + 1) * |curves|
  }

  /** The main loop over a validated mask. */
  method Pour(curves: seq<Curve>, amount: nat, mask: set<nat>, meter: WorkMeter) returns (r: Result<Allocation>)
    requires 0 < |curves| <= MAX_EDGES && 0 < amount <= MAX_ATOMS && ValidMask(curves, mask)
    modifies meter`used
    ensures old(meter.Within()) ==> meter.Within()
    ensures r.Ok? ==> MaskCapacity(curves, mask, |curves|) >= amount &&
                      r.value == AllocationOf(curves, GreedyInputs(curves, mask, amount))
    ensures r.Err? && !r.error.WorkLimit? ==> r.error.Capacity? && MaskCapacity(curves, mask, |curves|) < amount
    ensures r.Err? && r.error.WorkLimit? ==> old(meter.used) + FillWork(curves, mask) > meter.limit
    ensures old(meter.used) <= meter.used <= old(meter.used) + FillWork(curves, mask)
  {
    var cursor := new nat[|curves|](_ => 0);
    var inputs := new nat[MAX_EDGES](_ => 0);
    var used: set<nat>, remaining: nat, score: nat := {}, amount, 0;
    ghost var picks: seq<nat> := [];
    assert cursor[..] == seq(|curves|, _ => 0) && inputs[..] == seq(MAX_EDGES, _ => 0);
    PourStart(curves, mask, amount);
    hide Poured, Finished, ValidMask, BandCount, Best, FillWork, Yield;
    while remaining > 0
      invariant old(meter.Within()) ==> meter.Within()
      invariant remaining > 0 ==> Poured(curves, mask, amount, picks, cursor[..], inputs[..], used, remaining, score)
      invariant remaining > 0 ==> meter.used == old(meter.used) + |picks| * |curves|
      invariant old(meter.used) <= meter.used <= old(meter.used) + FillWork(curves, mask)
      invariant remaining == 0 ==> Finished(curves, mask, amount, inputs[..], used, score)
      decreases remaining
    {
      ghost var at, filled := cursor[..], inputs[..];
      PouredParts(curves, mask, amount, picks, at, filled, used, remaining, score);
      FillWorkStep(curves, mask, |picks|);
      var ok, best := ScanBest(curves, mask, cursor, meter);
      if !ok {
        return Err(WorkLimit);
      }
      assert cursor[..] == at && inputs[..] == filled;
      if best.None? {
        PourFails(curves, mask, amount, picks, at, filled, used, remaining, score);
        return Err(Error.Capacity);
      }
      used, remaining, score :=
        PourOne(curves, mask, amount, picks, cursor, inputs, used, remaining, score, best.value);
      picks := picks + [best.value];
    }
    FinishedParts(curves, mask, amount, inputs[..], used, score);
    if score / SCALE > U64_MAX {
      return Err(Arithmetic);
    }
    return Ok(Allocation(inputs[..], score / SCALE, used));
  }

  /** Take from the chosen band. */
  method PourOne(
    curves: seq<Curve>, mask: set<nat>, amount: nat, ghost picks: seq<nat>,
    cursor: array<nat>, inputs: array<nat>, used: set<nat>, remaining: nat, score: nat, i: nat)
    returns (used': set<nat>, remaining': nat, score': nat)
    requires cursor != inputs && 0 < amount <= MAX_ATOMS && ValidMask(curves, mask) && remaining > 0
    requires Poured(curves, mask, amount, picks, cursor[..], inputs[..], used, remaining, score)
    requires Best(curves, mask, cursor[..], |curves|) == Some(i)
    modifies cursor, inputs
    ensures remaining' < remaining
    ensures remaining' > 0 ==>
              Poured(curves, mask, amount, picks + [i], cursor[..], inputs[..], used', remaining', score')
    ensures remaining' == 0 ==> Finished(curves, mask, amount, inputs[..], used', score')
  {
    hide Poured, Finished, ValidMask, Best, Yield;
    ghost var at, filled := cursor[..], inputs[..];
    PouredParts(curves, mask, amount, picks, at, filled, used, remaining, score);
    BestIsOpen(curves, mask, at, i);
    BandNotEmpty(curves, mask, i, cursor[i]);
    var s := curves[i].segments[cursor[i]];
    var take := Min(remaining, s.inputCapacity);
    if take < remaining {
      PourBand(curves, mask, amount, picks, at, filled, used, remaining, score, i);
    } else {
      PourLast(curves, mask, amount, picks, at, filled, used, remaining, score, i);
    }
    inputs[i] := inputs[i] + take;
    used' := used + {i};
    score' := score + Yield(take, s.marginal);
    remaining' := remaining - take;
    cursor[i] := cursor[i] + 1;
    assert cursor[..] == at[i := at[i] + 1];
    assert inputs[..] == filled[i := filled[i] + take];
  }

  lemma PouredParts(
    curves: seq<Curve>, mask: set<nat>, amount: nat, picks: seq<nat>,
    cursor: seq<nat>, inputs: seq<nat>, used: set<nat>, remaining: nat, score: nat)
    requires Poured(curves, mask, amount, picks, cursor, inputs, used, remaining, score)
    ensures |cursor| == |curves| <= |inputs| == MAX_EDGES
    ensures |picks| <= BandCount(curves, mask, |curves|)
  {
    PicksBounded(curves, mask, picks);
  }

  lemma FillWorkStep(curves: seq<Curve>, mask: set<nat>, n: nat)
    requires n <= BandCount(curves, mask, |curves|)
    ensures n * |curves| + |curves| <= FillWork(curves, mask)
    ensures n * |curves| + |curves| == (n + 1) * |curves|
  {
    hide BandCount;
    OneMoreRound(n, BandCount(curves, mask, |curves|) + 1, |curves|);
  }

  lemma BandNotEmpty(curves: seq<Curve>, mask: set<nat>, i: nat, j: nat)
    requires ValidMask(curves, mask) && i < |curves| && i in mask && j < |curves[i].segments|
    ensures curves[i].segments[j].inputCapacity > 0
  {
  }

  lemma FinishedParts(curves: seq<Curve>, mask: set<nat>, amount: nat, inputs: seq<nat>, used: set<nat>, score: nat)
    requires Finished(curves, mask, amount, inputs, used, score)
    ensures MaskCapacity(curves, mask, |curves|) >= amount
    ensures |inputs| == MAX_EDGES >= |curves|
    ensures Fillable(curves, mask, amount)
    ensures Allocation(inputs, score / SCALE, used) == AllocationOf(curves, GreedyInputs(curves, mask, amount))
    ensures score / SCALE <= U64_MAX
  {
    OutputFits(curves, mask, amount, GreedyPicks(curves, mask, amount));
  }

  /** Validate the selected curves; the first invalid one decides the error. */
  method ValidateMask(curves: seq<Curve>, mask: set<nat>) returns (fault: Option<Error>)
    ensures fault == MaskFault(curves, mask, |curves|)
  {
    for i := 0 to |curves|
      invariant MaskFault(curves, mask, i).None?
    {
      if i in mask {
        var valid := Validate(curves[i]);
        if valid.Err? {
          MaskFaultSticks(curves, mask, i + 1, |curves|);
          return Some(valid.error);
        }
      }
    }
    return None;
  }

  /** `waterfill` computes the greedy allocation, errors included; its own output
      check never fails. */
  method ComputeWaterfill(curves: seq<Curve>, amount: nat, mask: set<nat>, meter: WorkMeter) returns (r: Result<Allocation>)
    modifies meter`used
    ensures old(meter.Within()) ==> meter.Within()
    ensures r == WaterfillOf(curves, amount, mask) || r == Err(WorkLimit)
    ensures r == Err(WorkLimit) && r != WaterfillOf(curves, amount, mask) ==>
              old(meter.used) + FillWork(curves, mask) > meter.limit
    ensures old(meter.used) <= meter.used <= old(meter.used) + FillWork(curves, mask)
    ensures ValidMask(curves, mask) || (r == WaterfillOf(curves, amount, mask) && meter.used == old(meter.used))
  {
    if |curves| == 0 || |curves| > MAX_EDGES || amount == 0 || amount > MAX_ATOMS {
      return Err(InvalidAmount);
    }
    if mask == {} || exists i :: i in mask && i >= |curves| {
      return Err(Error.Bounds);
    }
    var fault := ValidateMask(curves, mask);
    if fault.Some? {
      return Err(fault.value);
    }
    NoMaskFault(curves, mask, |curves|);
    r := Pour(curves, amount, mask, meter);
  }

  // ---------------------------------------------------------------- optimality

  /** lambda supports the curve at x: bands taken whole pay at least lambda, the
      partial one exactly lambda, the untouched ones at most lambda. */
  ghost predicate Supports(bands: seq<Segment>, x: nat, lambda: nat) {
    |bands| == 0 ||
    if x >= bands[0].inputCapacity then
      bands[0].marginal >= lambda && Supports(bands[1..], x - bands[0].inputCapacity, lambda)
    else if x == 0 then
      forall j :: 0 <= j < |bands| ==> bands[j].marginal <= lambda
    else
      bands[0].marginal == lambda && forall j :: 0 < j < |bands| ==> bands[j].marginal <= lambda
  }

  lemma YieldMonotone(x: nat, rate: nat, rate': nat)
    requires rate <= rate'
    ensures Yield(x, rate) <= Yield(x, rate')
  {
    Mono(rate, rate', x);
  }

  lemma YieldAdd(x: nat, y: nat, rate: nat)
    ensures Yield(x + y, rate) == Yield(x, rate) + Yield(y, rate)
  {
  }

  lemma {:induction false} BelowLambda(bands: seq<Segment>, x: nat, lambda: nat)
    requires forall j :: 0 <= j < |bands| ==> bands[j].marginal <= lambda
    ensures Integral(bands, x) <= Yield(x, lambda)
  {
    hide Yield;
    if |bands| > 0 && x > 0 {
      var take := Min(x, bands[0].inputCapacity);
      BelowLambda(bands[1..], x - take, lambda);
      YieldMonotone(take, bands[0].marginal, lambda);
      YieldAdd(take, x - take, lambda);
    }
  }

  /** A supporting rate is a tangent: no other input beats the line. */
  lemma {:induction false} Tangent(bands: seq<Segment>, x: nat, y: nat, lambda: nat)
    requires Supports(bands, x, lambda) && x <= TotalCapacity(bands)
    ensures Integral(bands, y) + Yield(x, lambda) <= Integral(bands, x) + Yield(y, lambda)
  {
    hide Yield;
    if |bands| > 0 {
      var s, rest := bands[0], bands[1..];
      var t, u := Min(x, s.inputCapacity), Min(y, s.inputCapacity);
      IntegralHead(bands, x);
      IntegralHead(bands, y);
      YieldAdd(t, x - t, lambda);
      YieldAdd(u, y - u, lambda);
      if x >= s.inputCapacity {
        Tangent(rest, x - t, y - u, lambda);
        YieldAdd(u, t - u, s.marginal);
        YieldAdd(u, t - u, lambda);
        YieldMonotone(t - u, lambda, s.marginal);
      } else {
        IntegralDone(rest, 0);
        BelowLambda(rest, y - u, lambda);
        YieldNothing(lambda);
        YieldNothing(s.marginal);
        if x == 0 {
          YieldMonotone(u, s.marginal, lambda);
        }
      }
    } else {
      IntegralDone(bands, x);
      IntegralDone(bands, y);
      YieldNothing(lambda);
    }
  }

  lemma YieldNothing(rate: nat)
    ensures Yield(0, rate) == 0
  {
  }
}