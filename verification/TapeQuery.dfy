/** Answering subset and residual queries from a tape by rank and select. */
module TapeQuery {
  import opened Base
  import opened Products
  import opened Curves
  import opened Greedy
  import opened Allocations
  import opened Waterfill
  import opened Tape

  // ---------------------------------------------------------------- rows of a subset

  /** The greedy picks of a subset up to row k of the tape. */
  ghost function SubsetPicks(tape: ResidualTape, mask: set<nat>, k: nat): seq<nat>
    requires |tape.owner| > 0 && k < |tape.owner|
  {
    Filter(Order(tape)[..k], mask)
  }

  /** Row k of the tape, seen through a subset, is a greedy state of that subset. */
  lemma SubsetRow(tape: ResidualTape, curves: seq<Curve>, mask: set<nat>, k: nat)
    requires IsTape(tape, curves) && mask <= tape.compiledMask && k <= tape.bands
    ensures |tape.owner| == |tape.prefix| == tape.bands + 1
    ensures Picks(curves, mask, SubsetPicks(tape, mask, k)) && InBounds(curves, SubsetPicks(tape, mask, k))
    ensures InBounds(curves, Order(tape)[..k])
    ensures forall i :: i in mask ==> Count(SubsetPicks(tape, mask, k), i) == Count(Order(tape)[..k], i)
    ensures Rank(curves, mask, SubsetPicks(tape, mask, k), |curves|) == Rank(curves, mask, Order(tape)[..k], |curves|)
  {
    hide Best;
    var row := Order(tape)[..k];
    PrefixInBounds(curves, tape.compiledMask, Order(tape), k);
    FilterPicks(curves, tape.compiledMask, mask, row);
    PicksInRange(curves, mask, Filter(row, mask));
    forall i | i in mask
      ensures Count(Filter(row, mask), i) == Count(row, i)
    {
      FilterCount(row, mask, i);
    }
    RankSame(curves, mask, Filter(row, mask), row, |curves|);
  }

  ghost function RowRank(tape: ResidualTape, curves: seq<Curve>, mask: set<nat>, k: nat): nat
    requires IsTape(tape, curves) && mask <= tape.compiledMask && k <= tape.bands
  {
    SubsetRow(tape, curves, mask, k);
    Rank(curves, mask, SubsetPicks(tape, mask, k), |curves|)
  }

  lemma RowRankMonotone(tape: ResidualTape, curves: seq<Curve>, mask: set<nat>, a: nat, b: nat)
    requires IsTape(tape, curves) && mask <= tape.compiledMask && a <= b <= tape.bands
    ensures RowRank(tape, curves, mask, a) <= RowRank(tape, curves, mask, b)
  {
    SubsetRow(tape, curves, mask, a);
    SubsetRow(tape, curves, mask, b);
    hide Best;
    RankGrows(curves, tape.compiledMask, mask, Order(tape), a, b);
  }

  /** The last row holds everything. */
  lemma LastRow(tape: ResidualTape, curves: seq<Curve>, mask: set<nat>)
    requires IsTape(tape, curves) && mask <= tape.compiledMask
    ensures RowRank(tape, curves, mask, tape.bands) == MaskCapacity(curves, mask, |curves|)
    ensures RowRank(tape, curves, mask, 0) == 0
  {
    SubsetRow(tape, curves, mask, tape.bands);
    SubsetRow(tape, curves, mask, 0);
    var order := Order(tape);
    assert order[..tape.bands] == order && order[..0] == [];
    var all, sub := Counts(order, |curves|), Counts(Filter(order, mask), |curves|);
    BestOfSubset(curves, tape.compiledMask, mask, all, sub);
    RankWhenExhausted(curves, mask, Filter(order, mask), |curves|);
    RankNone(curves, mask, |curves|);
  }

  /** Row k reaches the amount and row k - 1 does not: the owner of row k is the
      subset's last pick, and together they are its greedy list. */
  lemma SelectedRow(tape: ResidualTape, curves: seq<Curve>, mask: set<nat>, amount: nat, k: nat)
    requires IsTape(tape, curves) && mask <= tape.compiledMask && 0 < k <= tape.bands
    requires 0 < amount <= MAX_ATOMS
    requires RowRank(tape, curves, mask, k - 1) < amount <= RowRank(tape, curves, mask, k)
    ensures Fillable(curves, mask, amount)
    ensures |tape.owner| == |tape.prefix| == tape.bands + 1
    ensures tape.owner[k] in mask
    ensures GreedyPicks(curves, mask, amount) == SubsetPicks(tape, mask, k - 1) + [tape.owner[k]]
  {
    SubsetRow(tape, curves, mask, k - 1);
    SubsetRow(tape, curves, mask, k);
    LastRow(tape, curves, mask);
    RowRankMonotone(tape, curves, mask, k, tape.bands);
    hide Best, RowsMatch, Exhausted, Picks;
    var order := Order(tape);
    assert order[..k][..k - 1] == order[..k - 1] && order[k - 1] == tape.owner[k];
    var before, picks := SubsetPicks(tape, mask, k - 1), SubsetPicks(tape, mask, k);
    assert tape.owner[k] in mask;
    assert picks == before + [tape.owner[k]];
    assert picks[..|picks| - 1] == before;
    StopsUnique(curves, mask, amount, picks, GreedyPicks(curves, mask, amount));
  }

  // ---------------------------------------------------------------- lower estimates

  /** Output of a split under each venue's lower error, venue by venue. */
  ghost function LowerOutput(curves: seq<Curve>, inputs: seq<nat>, n: nat): nat
    requires n <= |curves| && n <= |inputs|
  {
    if n == 0 then 0
    else LowerOutput(curves, inputs, n - 1)
         + if inputs[n - 1] > 0
           then SaturatingSub(Integral(curves[n - 1].segments, inputs[n - 1]) / SCALE, curves[n - 1].lowerError)
           else 0
  }

  /** The same allocation, reported with its lower estimate. */
  ghost function Lowered(curves: seq<Curve>, r: Result<Allocation>): Result<Allocation>
    requires r.Ok? ==> |curves| <= |r.value.inputs|
  {
    if r.Ok? then Ok(r.value.(output := LowerOutput(curves, r.value.inputs, |curves|))) else r
  }

  lemma {:induction false} LowerAtMostScore(curves: seq<Curve>, inputs: seq<nat>, n: nat)
    requires n <= |curves| && n <= |inputs|
    ensures LowerOutput(curves, inputs, n) * SCALE <= Score(curves, inputs, n)
  {
    if n > 0 {
      LowerAtMostScore(curves, inputs, n - 1);
    }
  }

  // ---------------------------------------------------------------- the queries

  lemma TapeParts(tape: ResidualTape, curves: seq<Curve>, mask: set<nat>)
    requires IsTape(tape, curves) && mask <= tape.compiledMask
    ensures tape.edges == |curves| <= MAX_EDGES && |tape.curves| == MAX_EDGES
    ensures |tape.owner| == |tape.prefix| == tape.bands + 1
    ensures ValidMask(curves, mask)
    ensures forall i :: i in mask ==> i < |curves| && tape.curves[i] == Index(curves[i])
    ensures forall k :: 0 <= k <= tape.bands ==> tape.prefix[k] == Counts(Order(tape)[..k], MAX_EDGES)
  {
  }

  /** Capacity of the subset's complete bands in one row. */
  method RankOf(tape: ResidualTape, ghost curves: seq<Curve>, row: nat, mask: set<nat>, meter: WorkMeter)
    returns (ok: bool, sum: nat)
    requires IsTape(tape, curves) && mask <= tape.compiledMask && row <= tape.bands
    modifies meter`used
    ensures old(meter.Within()) ==> meter.Within()
    ensures ok ==> sum == RowRank(tape, curves, mask, row)
    ensures old(meter.used) <= meter.used <= old(meter.used) + tape.edges
    ensures !ok ==> old(meter.used) + tape.edges > meter.limit
  {
    TapeParts(tape, curves, mask);
    SubsetRow(tape, curves, mask, row);
    hide IsTape, Picks, ValidMask;
    ghost var picks := Order(tape)[..row];
    sum := 0;
    for i := 0 to tape.edges
      invariant old(meter.Within()) ==> meter.Within()
      invariant sum == Rank(curves, mask, picks, i)
      invariant old(meter.used) <= meter.used <= old(meter.used) + i
    {
      if i in mask {
        ok := meter.Charge(1);
        if !ok {
          return;
        }
        assert tape.prefix[row][i] == Count(picks, i);
        sum := sum + tape.curves[i].capacity[tape.prefix[row][i]];
      }
    }
    ok := true;
  }

  /** Binary search for the first row that reaches the amount. */
  method Select(tape: ResidualTape, ghost curves: seq<Curve>, amount: nat, mask: set<nat>, meter: WorkMeter)
    returns (ok: bool, lo: nat)
    requires IsTape(tape, curves) && mask <= tape.compiledMask
    requires 0 < amount <= RowRank(tape, curves, mask, tape.bands)
    modifies meter`used
    ensures old(meter.Within()) ==> meter.Within()
    ensures ok ==> 0 < lo <= tape.bands
    ensures ok ==> RowRank(tape, curves, mask, lo - 1) < amount <= RowRank(tape, curves, mask, lo)
    ensures old(meter.used) <= meter.used <= old(meter.used) + tape.bands * tape.edges
    ensures !ok ==> old(meter.used) + tape.bands * tape.edges > meter.limit
  {
    LastRow(tape, curves, mask);
    hide IsTape, RowRank;
    lo := 1;
    var hi := tape.bands;
    ghost var steps := 0;
    if hi == 0 {
      NoBandsNoRank(tape, curves, mask);
    }
    while lo < hi
      invariant old(meter.Within()) ==> meter.Within()
      invariant 0 < lo <= hi <= tape.bands
      invariant RowRank(tape, curves, mask, lo - 1) < amount <= RowRank(tape, curves, mask, hi)
      invariant steps + (hi - lo) <= tape.bands - 1
      invariant old(meter.used) <= meter.used <= old(meter.used) + steps * tape.edges
      decreases hi - lo
    {
      var mid := lo + (hi - lo) / 2;
      OneMoreRound(steps, tape.bands, tape.edges);
      var rank;
      ok, rank := RankOf(tape, curves, mid, mask, meter);
      if !ok {
        return;
      }
      steps := steps + 1;
      if rank >= amount {
        hi := mid;
      } else {
        lo := mid + 1;
      }
    }
    OneMoreRound(steps, tape.bands, tape.edges);
    ok := true;
  }

  lemma NoBandsNoRank(tape: ResidualTape, curves: seq<Curve>, mask: set<nat>)
    requires IsTape(tape, curves) && mask <= tape.compiledMask && tape.bands == 0
    ensures RowRank(tape, curves, mask, tape.bands) == 0
  {
    LastRow(tape, curves, mask);
  }

  /** Row k is the first to reach the amount. */
  ghost predicate Selected(tape: ResidualTape, curves: seq<Curve>, amount: nat, mask: set<nat>, k: nat) {
    && IsTape(tape, curves) && mask <= tape.compiledMask && 0 < k <= tape.bands
    && 0 < amount <= MAX_ATOMS
    && RowRank(tape, curves, mask, k - 1) < amount <= RowRank(tape, curves, mask, k)
  }

  /** What a selected row says about venue i: c complete bands and, for the owner
      of the row, a part of the next one. */
  lemma RowVenue(tape: ResidualTape, curves: seq<Curve>, mask: set<nat>, amount: nat, k: nat, i: nat)
    requires Selected(tape, curves, amount, mask, k) && i in mask
    ensures |tape.owner| == |tape.prefix| == tape.bands + 1 && |tape.prefix[k - 1]| == MAX_EDGES && |tape.curves| == MAX_EDGES
    ensures i < |curves| <= MAX_EDGES && Fillable(curves, mask, amount)
    ensures var c, partial := tape.prefix[k - 1][i], amount - RowRank(tape, curves, mask, k - 1);
            && tape.curves[i] == Index(curves[i]) && c <= |curves[i].segments|
            && (i == tape.owner[k] ==>
                  c < |curves[i].segments| && 0 < partial <= curves[i].segments[c].inputCapacity)
            && GreedyInputs(curves, mask, amount)[i] ==
               CapPrefix(curves[i].segments, c) + (if i == tape.owner[k] then partial else 0)
  {
    SelectedRow(tape, curves, mask, amount, k);
    SubsetRow(tape, curves, mask, k - 1);
    TapeParts(tape, curves, mask);
    hide IsTape, Best, Picks, ValidMask, GreedyPicks, Stops, Yield, RowsMatch, Indexed, Index, CapPrefix;
    var picks, before, last := GreedyPicks(curves, mask, amount), SubsetPicks(tape, mask, k - 1), tape.owner[k];
    assert picks[..|picks| - 1] == before && picks[|picks| - 1] == last;
    Anatomy(curves, mask, amount, picks);
    assert tape.prefix[k - 1][i] == Count(Order(tape)[..k - 1], i) == Count(before, i);
  }

  /** The indexed integral of those bands is the venue's Q32 output. */
  lemma RowIntegral(tape: ResidualTape, curves: seq<Curve>, mask: set<nat>, amount: nat, k: nat, i: nat)
    requires Selected(tape, curves, amount, mask, k) && i in mask
    ensures |tape.owner| == |tape.prefix| == tape.bands + 1 && |tape.prefix[k - 1]| == MAX_EDGES && |tape.curves| == MAX_EDGES
    ensures i < |curves| <= MAX_EDGES && Fillable(curves, mask, amount)
    ensures var c, partial := tape.prefix[k - 1][i], amount - RowRank(tape, curves, mask, k - 1);
            && c < |tape.curves[i].integral| && (i == tape.owner[k] ==> c < |tape.curves[i].rates|)
            && Integral(curves[i].segments, GreedyInputs(curves, mask, amount)[i]) ==
               tape.curves[i].integral[c]
               + (if i == tape.owner[k] then Yield(partial, tape.curves[i].rates[c]) else 0)
  {
    RowVenue(tape, curves, mask, amount, k, i);
    TapeParts(tape, curves, mask);
    PositiveBands(curves, mask, i);
    hide IsTape, ValidMask, Yield, GreedyInputs, Fillable, Integral, RowRank;
    var c, partial := tape.prefix[k - 1][i], amount - RowRank(tape, curves, mask, k - 1);
    IntegralAt(curves[i].segments, c, if i == tape.owner[k] then partial else 0);
  }

  lemma PositiveBands(curves: seq<Curve>, mask: set<nat>, i: nat)
    requires ValidMask(curves, mask) && i in mask && i < |curves|
    ensures forall j :: 0 <= j < |curves[i].segments| ==> curves[i].segments[j].inputCapacity > 0
  {
  }

  /** Venues outside the mask get nothing. */
  lemma NothingOutside(curves: seq<Curve>, mask: set<nat>, amount: nat, i: nat)
    requires Fillable(curves, mask, amount) && i < MAX_EDGES && i !in mask
    ensures GreedyInputs(curves, mask, amount)[i] == 0
  {
    if i < |curves| {
      InputsWithin(curves, mask, amount, GreedyPicks(curves, mask, amount), i);
    }
  }

  lemma SelectedParts(tape: ResidualTape, curves: seq<Curve>, amount: nat, mask: set<nat>, k: nat)
    requires Selected(tape, curves, amount, mask, k)
    ensures Fillable(curves, mask, amount) && tape.edges == |curves| <= MAX_EDGES
    ensures |tape.owner| == |tape.prefix| == tape.bands + 1 && tape.owner[k] in mask && tape.owner[k] < |curves|
    ensures IsTape(tape, curves) && mask <= tape.compiledMask && 0 < k <= tape.bands
    ensures RowRank(tape, curves, mask, k - 1) < amount
  {
    SelectedRow(tape, curves, mask, amount, k);
    TapeParts(tape, curves, mask);
  }

  /** The rows filled so far hold each venue's complete bands. */
  ghost predicate FilledUpTo(
    tape: ResidualTape, curves: seq<Curve>, amount: nat, mask: set<nat>, k: nat, inputs: seq<nat>, filled: nat, n: nat)
    requires Selected(tape, curves, amount, mask, k)
  {
    SelectedParts(tape, curves, amount, mask, k);
    SubsetRow(tape, curves, mask, k - 1);
    && n <= |curves| && |inputs| == MAX_EDGES
    && filled == Rank(curves, mask, SubsetPicks(tape, mask, k - 1), n)
    && (forall j :: 0 <= j < n ==>
          inputs[j] + (if j == tape.owner[k] then amount - RowRank(tape, curves, mask, k - 1) else 0)
          == GreedyInputs(curves, mask, amount)[j])
    && forall j :: n <= j < MAX_EDGES ==> inputs[j] == 0
  }

  lemma FillNone(tape: ResidualTape, curves: seq<Curve>, amount: nat, mask: set<nat>, k: nat)
    requires Selected(tape, curves, amount, mask, k)
    ensures FilledUpTo(tape, curves, amount, mask, k, seq(MAX_EDGES, _ => 0), 0, 0)
  {
    SelectedParts(tape, curves, amount, mask, k);
  }

  lemma FillSkip(
    tape: ResidualTape, curves: seq<Curve>, amount: nat, mask: set<nat>, k: nat, inputs: seq<nat>, filled: nat, i: nat)
    requires Selected(tape, curves, amount, mask, k)
    requires FilledUpTo(tape, curves, amount, mask, k, inputs, filled, i) && i < |curves| && i !in mask
    ensures FilledUpTo(tape, curves, amount, mask, k, inputs, filled, i + 1)
  {
    hide Selected, IsTape, GreedyInputs, Fillable, RowRank, SubsetPicks;
    SelectedParts(tape, curves, amount, mask, k);
    NothingOutside(curves, mask, amount, i);
  }

  lemma FillVenue(
    tape: ResidualTape, curves: seq<Curve>, amount: nat, mask: set<nat>, k: nat, inputs: seq<nat>, filled: nat, i: nat)
    requires Selected(tape, curves, amount, mask, k)
    requires FilledUpTo(tape, curves, amount, mask, k, inputs, filled, i) && i in mask
    ensures |tape.prefix| == tape.bands + 1 && |tape.prefix[k - 1]| == |tape.curves| == |inputs| == MAX_EDGES && i < MAX_EDGES
    ensures tape.prefix[k - 1][i] < |tape.curves[i].capacity|
    ensures var x := tape.curves[i].capacity[tape.prefix[k - 1][i]];
            FilledUpTo(tape, curves, amount, mask, k, inputs[i := x], filled + x, i + 1)
  {
    RowVenue(tape, curves, mask, amount, k, i);
    SubsetRow(tape, curves, mask, k - 1);
    TapeParts(tape, curves, mask);
    hide Selected, IsTape, GreedyInputs, Fillable, RowRank, ValidMask, Picks;
    assert tape.prefix[k - 1][i] == Count(Order(tape)[..k - 1], i) == Count(SubsetPicks(tape, mask, k - 1), i);
  }

  lemma FillLast(
    tape: ResidualTape, curves: seq<Curve>, amount: nat, mask: set<nat>, k: nat, inputs: seq<nat>, filled: nat)
    requires Selected(tape, curves, amount, mask, k)
    requires FilledUpTo(tape, curves, amount, mask, k, inputs, filled, |curves|)
    ensures |tape.owner| == tape.bands + 1 && tape.owner[k] < |inputs| == MAX_EDGES && filled <= amount
    ensures Fillable(curves, mask, amount)
    ensures IsTape(tape, curves) && mask <= tape.compiledMask && 0 < k <= tape.bands
    ensures filled == RowRank(tape, curves, mask, k - 1)
    ensures inputs[tape.owner[k] := inputs[tape.owner[k]] + (amount - filled)] == GreedyInputs(curves, mask, amount)
  {
    SelectedParts(tape, curves, amount, mask, k);
    assert filled == RowRank(tape, curves, mask, k - 1);
    hide Selected, IsTape, GreedyInputs, Fillable, RowRank;
    forall j | |curves| <= j < MAX_EDGES
      ensures GreedyInputs(curves, mask, amount)[j] == 0
    {
      OutsideMask(curves, mask, amount, j);
      NothingOutside(curves, mask, amount, j);
    }
  }

  lemma OutsideMask(curves: seq<Curve>, mask: set<nat>, amount: nat, j: nat)
    requires Fillable(curves, mask, amount) && j >= |curves|
    ensures j !in mask
  {
  }

  /** Complete bands before the selected row, then the partial band of its owner. */
  method FillRow(tape: ResidualTape, ghost curves: seq<Curve>, amount: nat, mask: set<nat>, k: nat, meter: WorkMeter)
    returns (ok: bool, inputs: seq<nat>, partial: nat)
    requires Selected(tape, curves, amount, mask, k)
    modifies meter`used
    ensures old(meter.Within()) ==> meter.Within()
    ensures Fillable(curves, mask, amount) && IsTape(tape, curves) && mask <= tape.compiledMask && 0 < k <= tape.bands
    ensures ok ==> inputs == GreedyInputs(curves, mask, amount)
    ensures ok ==> partial == amount - RowRank(tape, curves, mask, k - 1)
    ensures old(meter.used) <= meter.used <= old(meter.used) + tape.edges
    ensures !ok ==> old(meter.used) + tape.edges > meter.limit
  {
    SelectedParts(tape, curves, amount, mask, k);
    hide Selected, IsTape, FilledUpTo, GreedyInputs, RowRank;
    partial := 0;
    inputs := seq(MAX_EDGES, _ => 0);
    var filled: nat := 0;
    FillNone(tape, curves, amount, mask, k);
    for i := 0 to tape.edges
      invariant old(meter.Within()) ==> meter.Within()
      invariant FilledUpTo(tape, curves, amount, mask, k, inputs, filled, i)
      invariant old(meter.used) <= meter.used <= old(meter.used) + i
    {
      if i in mask {
        ok := meter.Charge(1);
        if !ok {
          return;
        }
        FillVenue(tape, curves, amount, mask, k, inputs, filled, i);
        inputs := inputs[i := tape.curves[i].capacity[tape.prefix[k - 1][i]]];
        filled := filled + inputs[i];
      } else {
        FillSkip(tape, curves, amount, mask, k, inputs, filled, i);
      }
    }
    FillLast(tape, curves, amount, mask, k, inputs, filled);
    ok := true;
    partial := amount - filled;
    inputs := inputs[tape.owner[k] := inputs[tape.owner[k]] + partial];
  }

  /** One venue's Q32 output, looked up in its index. */
  method VenueOutput(
    tape: ResidualTape, ghost built: seq<Curve>, amount: nat, mask: set<nat>, k: nat, partial: nat, i: nat)
    returns (venue: nat)
    requires Selected(tape, built, amount, mask, k) && i in mask
    requires IsTape(tape, built) && mask <= tape.compiledMask && 0 < k <= tape.bands
    requires partial == amount - RowRank(tape, built, mask, k - 1)
    ensures i < |built| && Fillable(built, mask, amount)
    ensures venue == Integral(built[i].segments, GreedyInputs(built, mask, amount)[i])
  {
    RowIntegral(tape, built, mask, amount, k, i);
    hide Selected, IsTape, Fillable, GreedyInputs, RowRank, Integral, Yield;
    var completed := tape.prefix[k - 1][i];
    venue := tape.curves[i].integral[completed];
    if i == tape.owner[k] {
      venue := venue + Yield(partial, tape.curves[i].rates[completed]);
    }
  }

  /** Output of the filled row: venue integrals looked up, never rescanned. */
  method ScoreRow(
    tape: ResidualTape, ghost built: seq<Curve>, curves: seq<Curve>, lower: bool,
    amount: nat, mask: set<nat>, k: nat, inputs: seq<nat>, partial: nat)
    returns (r: Result<Allocation>)
    requires Selected(tape, built, amount, mask, k)
    requires IsTape(tape, built) && mask <= tape.compiledMask && 0 < k <= tape.bands
    requires Fillable(built, mask, amount) && inputs == GreedyInputs(built, mask, amount)
    requires partial == amount - RowRank(tape, built, mask, k - 1)
    requires lower ==> |curves| == |built| && forall i :: 0 <= i < |built| && i in mask ==> curves[i].segments == built[i].segments
    ensures var plan := AllocationOf(built, inputs);
            r == if lower then Lowered(curves, Ok(plan)) else Ok(plan)
  {
    SelectedParts(tape, built, amount, mask, k);
    NothingOutsideAtAll(built, mask, amount);
    hide *;
    var integral: nat, estimate: nat, used: set<nat> := 0, 0, {};
    ScoreNone(built, curves, lower, inputs);
    for i := 0 to tape.edges
      invariant ScoredUpTo(built, curves, lower, inputs, integral, estimate, used, i)
    {
      if i !in mask || inputs[i] == 0 {
        ScoreSkip(built, curves, lower, inputs, integral, estimate, used, i);
        continue;
      }
      var venue := VenueOutput(tape, built, amount, mask, k, partial, i);
      ScoreVenue(built, curves, lower, amount, mask, inputs, integral, estimate, used, i, venue);
      used := used + {i};
      integral := integral + venue;
      if lower {
        if venue / SCALE > U64_MAX {
          return Err(Arithmetic);
        }
        estimate := estimate + SaturatingSub(venue / SCALE, curves[i].lowerError);
        if estimate > U64_MAX {
          return Err(Arithmetic);
        }
      }
    }
    ScoreDone(built, curves, lower, amount, mask, inputs, integral, estimate, used);
    if integral / SCALE > U64_MAX {
      return Err(Arithmetic);
    }
    return Ok(Allocation(inputs, if lower then estimate else integral / SCALE, used));
  }

  ghost predicate ScoredUpTo(
    built: seq<Curve>, curves: seq<Curve>, lower: bool, inputs: seq<nat>,
    integral: nat, estimate: nat, used: set<nat>, n: nat)
  {
    && n <= |built| <= |inputs| == MAX_EDGES && (lower ==> |curves| == |built|)
    && integral == Score(built, inputs, n)
    && (lower ==> estimate == LowerOutput(curves, inputs, n))
    && used == set j | 0 <= j < n && inputs[j] > 0
  }

  lemma ScoreNone(built: seq<Curve>, curves: seq<Curve>, lower: bool, inputs: seq<nat>)
    requires |built| <= |inputs| == MAX_EDGES && (lower ==> |curves| == |built|)
    ensures ScoredUpTo(built, curves, lower, inputs, 0, 0, {}, 0)
  {
  }

  lemma ScoreSkip(
    built: seq<Curve>, curves: seq<Curve>, lower: bool, inputs: seq<nat>,
    integral: nat, estimate: nat, used: set<nat>, i: nat)
    requires ScoredUpTo(built, curves, lower, inputs, integral, estimate, used, i)
    requires i < |built| && inputs[i] == 0
    ensures ScoredUpTo(built, curves, lower, inputs, integral, estimate, used, i + 1)
  {
    NoIntegral(built, i);
  }

  /** Adding a venue; no running total can leave 64 bits. */
  lemma ScoreVenue(
    built: seq<Curve>, curves: seq<Curve>, lower: bool, amount: nat, mask: set<nat>, inputs: seq<nat>,
    integral: nat, estimate: nat, used: set<nat>, i: nat, venue: nat)
    requires Fillable(built, mask, amount) && inputs == GreedyInputs(built, mask, amount)
    requires ScoredUpTo(built, curves, lower, inputs, integral, estimate, used, i)
    requires i < |built| && i in mask && inputs[i] > 0 && venue == Integral(built[i].segments, inputs[i])
    requires lower ==> forall j :: 0 <= j < |built| && j in mask ==> curves[j].segments == built[j].segments
    ensures var estimate' := if lower then estimate + SaturatingSub(venue / SCALE, curves[i].lowerError) else estimate;
            && ScoredUpTo(built, curves, lower, inputs, integral + venue, estimate', used + {i}, i + 1)
            && (lower ==> estimate' <= U64_MAX)
    ensures venue / SCALE <= U64_MAX
  {
    OutputFits(built, mask, amount, GreedyPicks(built, mask, amount));
    NothingOutsideAtAll(built, mask, amount);
    hide Integral, Fillable, GreedyInputs;
    ScoreGrows(built, inputs, i + 1, |built|);
    if lower {
      EstimateFits(built, curves, mask, inputs, i + 1);
    }
  }

  lemma ScoreDone(
    built: seq<Curve>, curves: seq<Curve>, lower: bool, amount: nat, mask: set<nat>, inputs: seq<nat>,
    integral: nat, estimate: nat, used: set<nat>)
    requires Fillable(built, mask, amount) && inputs == GreedyInputs(built, mask, amount)
    requires ScoredUpTo(built, curves, lower, inputs, integral, estimate, used, |built|)
    ensures integral / SCALE <= U64_MAX
    ensures var plan := AllocationOf(built, inputs);
            Ok(Allocation(inputs, if lower then estimate else integral / SCALE, used)) ==
            if lower then Lowered(curves, Ok(plan)) else Ok(plan)
  {
    OutputFits(built, mask, amount, GreedyPicks(built, mask, amount));
    NothingOutsideAtAll(built, mask, amount);
    hide Fillable, GreedyInputs, Score, LowerOutput;
    assert used == Support(inputs);
  }

  lemma NothingOutsideAtAll(curves: seq<Curve>, mask: set<nat>, amount: nat)
    requires Fillable(curves, mask, amount)
    ensures forall i :: 0 <= i < MAX_EDGES && i !in mask ==> GreedyInputs(curves, mask, amount)[i] == 0
    ensures forall i :: i in mask ==> i < |curves|
  {
    forall i | 0 <= i < MAX_EDGES && i !in mask
      ensures GreedyInputs(curves, mask, amount)[i] == 0
    {
      NothingOutside(curves, mask, amount, i);
    }
  }

  lemma NoIntegral(curves: seq<Curve>, i: nat)
    requires i < |curves|
    ensures Integral(curves[i].segments, 0) == 0
  {
  }

  lemma {:induction false} ScoreGrows(curves: seq<Curve>, inputs: seq<nat>, a: nat, b: nat)
    requires a <= b <= |curves| && b <= |inputs|
    ensures Score(curves, inputs, a) <= Score(curves, inputs, b)
    ensures a > 0 ==> Integral(curves[a - 1].segments, inputs[a - 1]) <= Score(curves, inputs, b)
    decreases b - a
  {
    if a < b {
      ScoreGrows(curves, inputs, a, b - 1);
    }
  }

  lemma {:induction false} EstimateFits(built: seq<Curve>, curves: seq<Curve>, mask: set<nat>, inputs: seq<nat>, n: nat)
    requires |curves| == |built| <= |inputs| && n <= |built|
    requires forall i :: 0 <= i < n && i in mask ==> curves[i].segments == built[i].segments
    requires forall i :: 0 <= i < n && i !in mask ==> inputs[i] == 0
    ensures LowerOutput(curves, inputs, n) * SCALE <= Score(built, inputs, n)
  {
    if n > 0 {
      EstimateFits(built, curves, mask, inputs, n - 1);
    }
  }

  // ---------------------------------------------------------------- one venue

  lemma {:induction false} LoneTotals(curves: seq<Curve>, lowered: seq<Curve>, inputs: seq<nat>, i: nat, n: nat)
    requires n <= |curves| == |lowered| <= |inputs| && i < |curves|
    requires forall j :: 0 <= j < |curves| && j != i ==> inputs[j] == 0
    ensures Total(inputs, n) == if i < n then inputs[i] else 0
    ensures Score(curves, inputs, n) == if i < n then Integral(curves[i].segments, inputs[i]) else 0
    ensures LowerOutput(lowered, inputs, n) ==
            if i < n && inputs[i] > 0
            then SaturatingSub(Integral(lowered[i].segments, inputs[i]) / SCALE, lowered[i].lowerError) else 0
  {
    hide Integral, SaturatingSub;
    if n > 0 {
      LoneTotals(curves, lowered, inputs, i, n - 1);
      NoIntegral(curves, n - 1);
      NoIntegral(lowered, n - 1);
    }
  }

  lemma {:induction false} LoneCapacity(curves: seq<Curve>, i: nat, n: nat)
    requires n <= |curves| && i < |curves|
    ensures MaskCapacity(curves, {i}, n) == if i < n then TotalCapacity(curves[i].segments) else 0
  {
    if n > 0 {
      LoneCapacity(curves, i, n - 1);
    }
  }

  /** One selected venue takes everything. */
  lemma LoneVenue(curves: seq<Curve>, amount: nat, i: nat)
    requires Fillable(curves, {i}, amount) && i < |curves|
    ensures GreedyInputs(curves, {i}, amount) == seq(MAX_EDGES, _ => 0)[i := amount]
    ensures amount <= TotalCapacity(curves[i].segments)
  {
    var inputs := GreedyInputs(curves, {i}, amount);
    Anatomy(curves, {i}, amount, GreedyPicks(curves, {i}, amount));
    NothingOutsideAtAll(curves, {i}, amount);
    hide Fillable, GreedyInputs, GreedyPicks;
    LoneTotals(curves, curves, inputs, i, |curves|);
    LoneCapacity(curves, i, |curves|);
    assert inputs == seq(MAX_EDGES, _ => 0)[i := amount];
    FillableCapacity(curves, {i}, amount);
  }

  lemma FillableCapacity(curves: seq<Curve>, mask: set<nat>, amount: nat)
    requires Fillable(curves, mask, amount)
    ensures amount <= MaskCapacity(curves, mask, |curves|)
  {
  }

  /** Binary search inside one indexed curve. */
  method SelectBand(index: IndexedCurve, ghost c: Curve, amount: nat, meter: WorkMeter) returns (ok: bool, before: nat)
    requires index == Index(c) && 0 < amount <= CapPrefix(c.segments, |c.segments|)
    modifies meter`used
    ensures old(meter.Within()) ==> meter.Within()
    ensures ok ==> before < |c.segments| && CapPrefix(c.segments, before) < amount <= CapPrefix(c.segments, before + 1)
    ensures old(meter.used) <= meter.used <= old(meter.used) + |c.segments|
    ensures !ok ==> old(meter.used) + |c.segments| > meter.limit
  {
    before := 0;
    var lo, hi := 1, index.len;
    ghost var steps := 0;
    while lo < hi
      invariant old(meter.Within()) ==> meter.Within()
      invariant 0 < lo <= hi <= index.len
      invariant CapPrefix(c.segments, lo - 1) < amount <= CapPrefix(c.segments, hi)
      invariant steps + (hi - lo) <= index.len - 1
      invariant old(meter.used) <= meter.used <= old(meter.used) + steps
      decreases hi - lo
    {
      ok := meter.Charge(1);
      if !ok {
        return;
      }
      steps := steps + 1;
      var mid := lo + (hi - lo) / 2;
      if index.capacity[mid] >= amount {
        hi := mid;
      } else {
        lo := mid + 1;
      }
    }
    ok, before := true, lo - 1;
  }

  /** Q32 output of an amount in one indexed curve. */
  method LoneIntegral(index: IndexedCurve, ghost c: Curve, amount: nat, meter: WorkMeter)
    returns (r: Result<nat>, ghost before: nat)
    requires index == Index(c) && 0 < amount && |c.segments| <= MAX_SEGMENTS
    modifies meter`used
    ensures old(meter.Within()) ==> meter.Within()
    ensures r.Ok? ==> before < |c.segments| && CapPrefix(c.segments, before) < amount <= CapPrefix(c.segments, before + 1)
    ensures r.Ok? ==> r.value == IntPrefix(c.segments, before)
                                 + Yield(amount - CapPrefix(c.segments, before), c.segments[before].marginal)
    ensures r.Err? ==> || (r.error.Capacity? && amount > CapPrefix(c.segments, |c.segments|))
                       || (r.error.WorkLimit? && old(meter.used) + MAX_SEGMENTS + 1 > meter.limit)
    ensures r.Ok? ==> amount <= CapPrefix(c.segments, |c.segments|)
    ensures old(meter.used) <= meter.used <= old(meter.used) + MAX_SEGMENTS + 1
  {
    IndexFacts(c);
    hide Index, CapPrefix, IntPrefix, Yield;
    before := 0;
    var ok := meter.Charge(1);
    if !ok {
      return Err(WorkLimit), 0;
    }
    if amount > index.capacity[index.len] {
      return Err(Error.Capacity), 0;
    }
    var found;
    ok, found := SelectBand(index, c, amount, meter);
    if !ok {
      return Err(WorkLimit), 0;
    }
    before := found;
    r := Ok(index.integral[found] + Yield(amount - index.capacity[found], index.rates[found]));
  }

  /** A single selected venue is searched directly in its own bands. */
  method AllocateOne(
    tape: ResidualTape, ghost built: seq<Curve>, curves: seq<Curve>, lower: bool, amount: nat, i: nat, meter: WorkMeter)
    returns (r: Result<Allocation>)
    requires IsTape(tape, built) && {i} <= tape.compiledMask && 0 < amount <= MAX_ATOMS
    requires lower ==> |curves| == |built| && forall j :: 0 <= j < |built| && j in {i} ==> curves[j].segments == built[j].segments
    modifies meter`used
    ensures old(meter.Within()) ==> meter.Within()
    ensures var spec := WaterfillOf(built, amount, {i});
            (spec.Ok? ==> |spec.value.inputs| == MAX_EDGES >= |built|) &&
            (r == (if lower then Lowered(curves, spec) else spec) || r == Err(WorkLimit))
    ensures r == Err(WorkLimit) ==> old(meter.used) + MAX_SEGMENTS + 1 > meter.limit
    ensures old(meter.used) <= meter.used <= old(meter.used) + MAX_SEGMENTS + 1
  {
    assert i in {i};
    TapeParts(tape, built, {i});
    CapPrefixTotal(built[i].segments);
    LoneSpec(built, amount, i);
    hide *;
    var integral; ghost var before;
    integral, before := LoneIntegral(tape.curves[i], built[i], amount, meter);
    if integral.Err? {
      return Err(integral.error);
    }
    LoneOutput(built, curves, lower, amount, i, before);
    if integral.value / SCALE > U64_MAX {
      return Err(Arithmetic);
    }
    var output := integral.value / SCALE;
    var inputs := seq(MAX_EDGES, _ => 0)[i := amount];
    return Ok(Allocation(inputs, if lower then SaturatingSub(output, curves[i].lowerError) else output, {i}));
  }

  lemma IndexFacts(c: Curve)
    ensures var index, n := Index(c), |c.segments|;
            && index.len == n && |index.capacity| == n + 1 == |index.integral| && |index.rates| == n
            && (forall j :: 0 <= j <= n ==> index.capacity[j] == CapPrefix(c.segments, j))
            && (forall j :: 0 <= j <= n ==> index.integral[j] == IntPrefix(c.segments, j))
            && forall j :: 0 <= j < n ==> index.rates[j] == c.segments[j].marginal
  {
  }

  lemma LoneSpec(curves: seq<Curve>, amount: nat, i: nat)
    requires ValidMask(curves, {i}) && i < |curves| <= MAX_EDGES && 0 < amount <= MAX_ATOMS
    ensures if TotalCapacity(curves[i].segments) < amount then WaterfillOf(curves, amount, {i}) == Err(Error.Capacity)
            else Fillable(curves, {i}, amount)
                 && WaterfillOf(curves, amount, {i}) == Ok(AllocationOf(curves, GreedyInputs(curves, {i}, amount)))
    ensures |curves[i].segments| <= MAX_SEGMENTS
  {
    NoMaskFault(curves, {i}, |curves|);
    LoneCapacity(curves, i, |curves|);
    assert i in {i};
  }

  lemma LoneScore(built: seq<Curve>, amount: nat, i: nat, before: nat)
    requires Fillable(built, {i}, amount) && i < |built| && before < |built[i].segments|
    requires CapPrefix(built[i].segments, before) < amount <= CapPrefix(built[i].segments, before + 1)
    ensures Integral(built[i].segments, amount) == IntPrefix(built[i].segments, before)
              + Yield(amount - CapPrefix(built[i].segments, before), built[i].segments[before].marginal)
    ensures |built| <= MAX_EDGES && |GreedyInputs(built, {i}, amount)| == MAX_EDGES
    ensures Score(built, GreedyInputs(built, {i}, amount), |built|) / SCALE <= U64_MAX
  {
    hide Integral, Yield;
    assert i in {i};
    PositiveBands(built, {i}, i);
    IntegralAt(built[i].segments, before, amount - CapPrefix(built[i].segments, before));
    OutputFits(built, {i}, amount, GreedyPicks(built, {i}, amount));
  }

  lemma LoneOutput(built: seq<Curve>, curves: seq<Curve>, lower: bool, amount: nat, i: nat, before: nat)
    requires Fillable(built, {i}, amount) && i < |built| && before < |built[i].segments|
    requires CapPrefix(built[i].segments, before) < amount <= CapPrefix(built[i].segments, before + 1)
    requires lower ==> |curves| == |built| && curves[i].segments == built[i].segments
    ensures var output := (IntPrefix(built[i].segments, before)
                           + Yield(amount - CapPrefix(built[i].segments, before), built[i].segments[before].marginal)) / SCALE;
            var inputs := seq(MAX_EDGES, _ => 0)[i := amount];
            var plan := AllocationOf(built, GreedyInputs(built, {i}, amount));
            && output <= U64_MAX
            && Ok(Allocation(inputs, if lower then SaturatingSub(output, curves[i].lowerError) else output, {i}))
               == if lower then Lowered(curves, Ok(plan)) else Ok(plan)
  {
    hide Fillable, GreedyInputs, Integral, Yield, CapPrefix, IntPrefix;
    LoneScore(built, amount, i, before);
    LoneVenue(built, amount, i);
    var inputs := GreedyInputs(built, {i}, amount);
    LoneTotals(built, if lower then curves else built, inputs, i, |built|);
    assert Support(inputs) == {i};
  }

  // ---------------------------------------------------------------- allocate

  function QueryWork(tape: ResidualTape): nat {
    (tape.bands + 2) * tape.edges + MAX_SEGMENTS + 1
  }

  /** `allocate` and `allocate_lower`: for every subset of the compiled venues and
      every amount, the tape answers exactly what the greedy allocator answers. */
  method Allocate(
    tape: ResidualTape, ghost built: seq<Curve>, curves: seq<Curve>, lower: bool,
    amount: nat, mask: set<nat>, meter: WorkMeter)
    returns (r: Result<Allocation>)
    requires IsTape(tape, built)
    requires lower ==> |curves| == |built| && forall i :: 0 <= i < |built| && i in mask ==> curves[i].segments == built[i].segments
    modifies meter`used
    ensures old(meter.Within()) ==> meter.Within()
    ensures var spec := WaterfillOf(built, amount, mask);
            mask <= tape.compiledMask ==>
              && (spec.Ok? ==> |spec.value.inputs| == MAX_EDGES >= |built|)
              && (r == (if lower then Lowered(curves, spec) else spec) || r == Err(WorkLimit))
    ensures !(mask <= tape.compiledMask) ==>
              r == if amount == 0 || amount > MAX_ATOMS then Err(InvalidAmount) else Err(Error.Bounds)
    ensures mask <= tape.compiledMask && r == Err(WorkLimit) ==> old(meter.used) + QueryWork(tape) > meter.limit
    ensures old(meter.used) <= meter.used <= old(meter.used) + QueryWork(tape)
  {
    if amount == 0 || amount > MAX_ATOMS {
      return Err(InvalidAmount);
    }
    if mask == {} || !(mask <= tape.compiledMask) {
      return Err(Error.Bounds);
    }
    QueryWorkParts(tape);
    QuerySpec(tape, built, mask, amount);
    if |mask| == 1 {
      var i := Least(mask);
      LoneMask(mask, i);
      hide IsTape, WaterfillOf, Lowered;
      r := AllocateOne(tape, built, curves, lower, amount, i, meter);
      return;
    }
    LastRow(tape, built, mask);
    hide IsTape, WaterfillOf, Lowered, RowRank, Fillable, GreedyInputs, QueryWork, AllocationOf, Selected, Picks;
    var ok, rank := RankOf(tape, built, tape.bands, mask, meter);
    if !ok {
      return Err(WorkLimit);
    }
    if rank < amount {
      return Err(Error.Capacity);
    }
    var lo;
    ok, lo := Select(tape, built, amount, mask, meter);
    if !ok {
      return Err(WorkLimit);
    }
    SelectedIntro(tape, built, amount, mask, lo);
    var inputs, partial;
    ok, inputs, partial := FillRow(tape, built, amount, mask, lo, meter);
    if !ok {
      return Err(WorkLimit);
    }
    r := ScoreRow(tape, built, curves, lower, amount, mask, lo, inputs, partial);
  }

  lemma LoneMask(mask: set<nat>, i: nat)
    requires |mask| == 1 && i in mask
    ensures mask == {i}
  {
    assert |mask - {i}| == 0;
  }

  lemma SelectedIntro(tape: ResidualTape, curves: seq<Curve>, amount: nat, mask: set<nat>, k: nat)
    requires IsTape(tape, curves) && mask <= tape.compiledMask && 0 < k <= tape.bands && 0 < amount <= MAX_ATOMS
    requires RowRank(tape, curves, mask, k - 1) < amount <= RowRank(tape, curves, mask, k)
    ensures Selected(tape, curves, amount, mask, k)
  {
  }

  lemma QueryWorkParts(tape: ResidualTape)
    ensures tape.bands * tape.edges + 2 * tape.edges <= QueryWork(tape)
    ensures MAX_SEGMENTS + 1 <= QueryWork(tape) && 0 <= tape.bands * tape.edges
  {
  }

  lemma QuerySpec(tape: ResidualTape, curves: seq<Curve>, mask: set<nat>, amount: nat)
    requires IsTape(tape, curves) && mask <= tape.compiledMask && mask != {} && 0 < amount <= MAX_ATOMS
    ensures if MaskCapacity(curves, mask, |curves|) < amount then WaterfillOf(curves, amount, mask) == Err(Error.Capacity)
            else Fillable(curves, mask, amount)
                 && WaterfillOf(curves, amount, mask) == Ok(AllocationOf(curves, GreedyInputs(curves, mask, amount)))
  {
    TapeParts(tape, curves, mask);
    NoMaskFault(curves, mask, |curves|);
  }
}
