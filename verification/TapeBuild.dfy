/** Building a residual tape: index every selected curve, then merge all bands
    through a winner tree (or through two heads, when there are at most two). */
module TapeBuild {
  import opened Base
  import opened Curves
  import opened Greedy
  import opened Allocations
  import opened Waterfill
  import opened Tape

  /** Prefix sums of one curve. */
  method IndexCurve(c: Curve, meter: WorkMeter) returns (ok: bool, indexed: IndexedCurve)
    modifies meter`used
    ensures old(meter.Within()) ==> meter.Within()
    ensures ok ==> indexed == Index(c)
    ensures old(meter.used) <= meter.used <= old(meter.used) + |c.segments|
    ensures !ok ==> old(meter.used) + |c.segments| > meter.limit
  {
    hide Yield;
    indexed := EMPTY_INDEX;
    var n := |c.segments|;
    var cap: nat, integral: nat := 0, 0;
    var capacities: seq<nat>, integrals: seq<nat>, rates: seq<nat> := [0], [0], [];
    for j := 0 to n
      invariant old(meter.Within()) ==> meter.Within()
      invariant cap == CapPrefix(c.segments, j) && integral == IntPrefix(c.segments, j)
      invariant capacities == seq(j + 1, k requires 0 <= k <= j => CapPrefix(c.segments, k))
      invariant integrals == seq(j + 1, k requires 0 <= k <= j => IntPrefix(c.segments, k))
      invariant rates == seq(j, k requires 0 <= k < j => c.segments[k].marginal)
      invariant meter.used == old(meter.used) + j
    {
      ok := meter.Charge(1);
      if !ok {
        return;
      }
      var s := c.segments[j];
      cap := cap + s.inputCapacity;
      integral := integral + Yield(s.inputCapacity, s.marginal);
      capacities, integrals, rates := capacities + [cap], integrals + [integral], rates + [s.marginal];
    }
    ok, indexed := true, IndexedCurve(capacities, integrals, rates, n);
  }

  ghost function Zeros(): (z: seq<nat>)
    ensures |z| == MAX_EDGES
  {
    seq(MAX_EDGES, _ => 0)
  }

  /** The first n venues have entered the tree with their first band. */
  ghost predicate Entered(
    curves: seq<Curve>, mask: set<nat>, n: nat, indexed: seq<IndexedCurve>, winners: seq<nat>, rates: seq<nat>)
  {
    && n <= |curves| <= MAX_EDGES && |winners| == 2 * MAX_EDGES && |rates| == MAX_EDGES
    && Indexed(curves, mask, indexed, n)
    && (forall i :: 0 <= i < n && i in mask ==> ValidCurve(curves[i]))
    && (forall v :: MAX_EDGES <= v < 2 * MAX_EDGES ==>
          winners[v] == (if v - MAX_EDGES < n && (v - MAX_EDGES) as nat in mask then v - MAX_EDGES else NO_EDGE))
    && (forall v :: 0 <= v < MAX_EDGES ==> winners[v] == NO_EDGE)
    && forall i :: 0 <= i < n && i in mask ==> rates[i] == curves[i].segments[0].marginal
  }

  lemma EnterNone(curves: seq<Curve>, mask: set<nat>, indexed: seq<IndexedCurve>, winners: seq<nat>, rates: seq<nat>)
    requires |curves| <= MAX_EDGES == |indexed| && |winners| == 2 * MAX_EDGES && |rates| == MAX_EDGES
    requires forall v :: 0 <= v < |winners| ==> winners[v] == NO_EDGE
    ensures Entered(curves, mask, 0, indexed, winners, rates)
  {
  }

  lemma EnterSkip(
    curves: seq<Curve>, mask: set<nat>, i: nat, indexed: seq<IndexedCurve>, winners: seq<nat>, rates: seq<nat>)
    requires Entered(curves, mask, i, indexed, winners, rates) && i < |curves| && i !in mask
    ensures Entered(curves, mask, i + 1, indexed, winners, rates)
  {
    hide Index;
  }

  lemma EnterOne(
    curves: seq<Curve>, mask: set<nat>, i: nat, indexed: seq<IndexedCurve>, winners: seq<nat>, rates: seq<nat>)
    requires Entered(curves, mask, i, indexed, winners, rates) && i < |curves| && i in mask && ValidCurve(curves[i])
    ensures |indexed| == |rates| == MAX_EDGES && |winners| == 2 * MAX_EDGES && i < MAX_EDGES
    ensures Entered(curves, mask, i + 1, indexed[i := Index(curves[i])], winners[MAX_EDGES + i := i],
                    rates[i := curves[i].segments[0].marginal])
  {
    hide ValidCurve, Index;
  }

  /** Index the selected curves and enter them into the tree. */
  method EnterAll(curves: seq<Curve>, mask: set<nat>, winners: array<nat>, rates: array<nat>, meter: WorkMeter)
    returns (r: Result<seq<IndexedCurve>>)
    requires |curves| <= MAX_EDGES && winners.Length == 2 * MAX_EDGES && rates.Length == MAX_EDGES && winners != rates
    requires forall v :: 0 <= v < winners.Length ==> winners[v] == NO_EDGE
    modifies winners, rates, meter`used
    ensures old(meter.Within()) ==> meter.Within()
    ensures r.Ok? ==> Entered(curves, mask, |curves|, r.value, winners[..], rates[..])
    ensures r.Err? && !r.error.WorkLimit? ==> MaskFault(curves, mask, |curves|) == Some(r.error)
    ensures old(meter.used) <= meter.used <= old(meter.used) + BandCount(curves, mask, |curves|)
    ensures r.Err? && r.error.WorkLimit? && MaskFault(curves, mask, |curves|) != Some(WorkLimit) ==>
              old(meter.used) + BandCount(curves, mask, |curves|) > meter.limit
  {
    hide Yield, CurveFault, Entered, Index, ValidBands;
    var indexed := seq(MAX_EDGES, _ => EMPTY_INDEX);
    EnterNone(curves, mask, indexed, winners[..], rates[..]);
    for i := 0 to |curves|
      invariant old(meter.Within()) ==> meter.Within()
      invariant Entered(curves, mask, i, indexed, winners[..], rates[..])
      invariant MaskFault(curves, mask, i).None?
      invariant old(meter.used) <= meter.used <= old(meter.used) + BandCount(curves, mask, i)
    {
      BandCountGrows(curves, mask, i + 1, |curves|);
      BandCountGrows(curves, mask, i, |curves|);
      ghost var leaves, heads := winners[..], rates[..];
      if i !in mask {
        EnterSkip(curves, mask, i, indexed, leaves, heads);
        continue;
      }
      var valid := Validate(curves[i]);
      if valid.Err? {
        MaskFaultSticks(curves, mask, i + 1, |curves|);
        return Err(valid.error);
      }
      FaultMeaning(curves[i]);
      var ok, index := IndexCurve(curves[i], meter);
      if !ok {
        return Err(WorkLimit);
      }
      EnterOne(curves, mask, i, indexed, leaves, heads);
      winners[MAX_EDGES + i] := i;
      rates[i] := curves[i].segments[0].marginal;
      assert winners[..] == leaves[MAX_EDGES + i := i];
      assert rates[..] == heads[i := curves[i].segments[0].marginal];
      indexed := indexed[i := index];
    }
    return Ok(indexed);
  }

  lemma {:induction false} BandCountGrows(curves: seq<Curve>, mask: set<nat>, a: nat, b: nat)
    requires a <= b <= |curves|
    ensures BandCount(curves, mask, a) <= BandCount(curves, mask, b)
  {
    if a < b {
      BandCountGrows(curves, mask, a, b - 1);
    }
  }

  lemma EnteredFrontier(curves: seq<Curve>, mask: set<nat>, indexed: seq<IndexedCurve>, winners: seq<nat>, rates: seq<nat>)
    requires Entered(curves, mask, |curves|, indexed, winners, rates)
    ensures Frontier(curves, mask, Zeros(), winners[MAX_EDGES..], rates)
    ensures forall v :: MAX_EDGES <= v < 2 * MAX_EDGES ==> NodeSettled(winners, rates, v)
  {
  }

  // ---------------------------------------------------------------- rows

  lemma CountsCut(picks: seq<nat>, n: nat)
    requires n <= MAX_EDGES
    ensures Counts(picks, MAX_EDGES)[..n] == Counts(picks, n)
  {
  }

  /** Appending the greedy choice appends its row. */
  lemma RowsSnoc(curves: seq<Curve>, mask: set<nat>, prefix: seq<seq<nat>>, owner: seq<nat>, bands: nat, i: nat)
    requires |curves| <= MAX_EDGES && RowsMatch(curves, mask, prefix, owner, bands) && i < MAX_EDGES
    requires Best(curves, mask, Counts(owner[1..], |curves|), |curves|) == Some(i)
    ensures var row := prefix[bands];
            RowsMatch(curves, mask, prefix + [row[i := row[i] + 1]], owner + [i], bands + 1)
    ensures Counts((owner + [i])[1..], MAX_EDGES) == prefix[bands][i := prefix[bands][i] + 1]
    ensures prefix[bands] == Counts(owner[1..], MAX_EDGES)
  {
    hide Best;
    var order, order' := owner[1..], (owner + [i])[1..];
    assert order' == order + [i] && order[..bands] == order;
    PicksSnoc(curves, mask, order, i);
    var row := prefix[bands];
    forall j | 0 <= j < MAX_EDGES
      ensures Counts(order', MAX_EDGES)[j] == row[i := row[i] + 1][j]
    {
      CountSnoc(order, i, j);
    }
    forall k | 0 <= k <= bands
      ensures order'[..k] == order[..k]
    {
    }
    assert order'[..bands + 1] == order';
  }

  /** The loop state shared by both merges. */
  ghost predicate Merging(
    curves: seq<Curve>, mask: set<nat>, prefix: seq<seq<nat>>, owner: seq<nat>, bands: nat,
    cursor: seq<nat>, leaves: seq<nat>, rates: seq<nat>)
  {
    && RowsMatch(curves, mask, prefix, owner, bands)
    && cursor == Counts(owner[1..], MAX_EDGES)
    && Frontier(curves, mask, cursor, leaves, rates)
  }

  lemma StartMerging(curves: seq<Curve>, mask: set<nat>, leaves: seq<nat>, rates: seq<nat>)
    requires Frontier(curves, mask, Zeros(), leaves, rates)
    ensures Merging(curves, mask, [Zeros()], [0], 0, Zeros(), leaves, rates)
  {
    assert [0][1..] == [];
  }

  /** The venue to advance, once it is known to be the greedy choice. */
  ghost predicate Chosen(curves: seq<Curve>, mask: set<nat>, cursor: seq<nat>, i: nat) {
    && |curves| <= MAX_EDGES && |cursor| == MAX_EDGES
    && Best(curves, mask, cursor[..|curves|], |curves|) == Some(i)
  }

  /** The leaf of the advanced venue moves to its next band or dies out; the
      other leaves stay. */
  lemma KeepMerging(
    curves: seq<Curve>, mask: set<nat>, prefix: seq<seq<nat>>, owner: seq<nat>, bands: nat,
    cursor: seq<nat>, leaves: seq<nat>, rates: seq<nat>, i: nat, leaves': seq<nat>, rates': seq<nat>)
    requires Merging(curves, mask, prefix, owner, bands, cursor, leaves, rates) && Chosen(curves, mask, cursor, i)
    requires i < |curves| && i in mask
    requires |leaves'| == |rates'| == MAX_EDGES
    requires leaves' == if cursor[i] + 1 < |curves[i].segments| then leaves else leaves[i := NO_EDGE]
    requires rates' == if cursor[i] + 1 < |curves[i].segments| then rates[i := curves[i].segments[cursor[i] + 1].marginal] else rates
    ensures var row := prefix[bands];
            Merging(curves, mask, prefix + [row[i := row[i] + 1]], owner + [i], bands + 1,
                    cursor[i := cursor[i] + 1], leaves', rates')
    ensures bands + 1 <= BandCount(curves, mask, |curves|)
  {
    CountsCut(owner[1..], |curves|);
    RowsSnoc(curves, mask, prefix, owner, bands, i);
    PicksBounded(curves, mask, (owner + [i])[1..]);
    BestIsOpen(curves, mask, cursor[..|curves|], i);
    hide Best;
    var cursor' := cursor[i := cursor[i] + 1];
    forall j | 0 <= j < MAX_EDGES && j != i
      ensures Open(curves, mask, cursor'[..|curves|], j) == Open(curves, mask, cursor[..|curves|], j)
    {
    }
  }

  // ---------------------------------------------------------------- winner tree

  /** Play all matches once, from the leaves up. */
  method PlayAll(winners: array<nat>, rates: array<nat>, meter: WorkMeter) returns (ok: bool)
    requires winners.Length == 2 * MAX_EDGES && rates.Length == MAX_EDGES && winners != rates
    requires forall v :: MAX_EDGES <= v < 2 * MAX_EDGES ==> NodeSettled(winners[..], rates[..], v)
    modifies winners, meter`used
    ensures old(meter.Within()) ==> meter.Within()
    ensures winners[MAX_EDGES..] == old(winners[MAX_EDGES..])
    ensures ok ==> SettledBelow(winners[..], rates[..], 0)
    ensures old(meter.used) <= meter.used <= old(meter.used) + MAX_EDGES
    ensures !ok ==> old(meter.used) + MAX_EDGES > meter.limit
  {
    hide NodeSettled, IsChampion;
    var node := MAX_EDGES;
    while node > 1
      invariant old(meter.Within()) ==> meter.Within()
      invariant 1 <= node <= MAX_EDGES
      invariant winners[MAX_EDGES..] == old(winners[MAX_EDGES..])
      invariant forall v :: node <= v < 2 * MAX_EDGES ==> NodeSettled(winners[..], rates[..], v)
      invariant meter.used == old(meter.used) + MAX_EDGES - node
    {
      ok := meter.Charge(1);
      if !ok {
        return;
      }
      node := node - 1;
      PlayMatch(winners, rates, node);
    }
    ok := true;
  }

  method PlayMatch(winners: array<nat>, rates: array<nat>, node: nat)
    requires winners.Length == 2 * MAX_EDGES && rates.Length == MAX_EDGES && winners != rates && 1 <= node < MAX_EDGES
    requires forall v :: node < v < 2 * MAX_EDGES ==> NodeSettled(winners[..], rates[..], v)
    modifies winners
    ensures winners[MAX_EDGES..] == old(winners[MAX_EDGES..])
    ensures forall v :: node <= v < 2 * MAX_EDGES ==> NodeSettled(winners[..], rates[..], v)
  {
    ghost var before := winners[..];
    assert NodeSettled(before, rates[..], 2 * node) && NodeSettled(before, rates[..], 2 * node + 1);
    Spans(node);
    ChampionOfTwo(before[MAX_EDGES..], rates[..], Lo(node), Hi(2 * node), Hi(node), before[2 * node], before[2 * node + 1]);
    winners[node] := Winner(winners[2 * node], winners[2 * node + 1], rates[..]);
    assert winners[..] == before[node := winners[node]];
    assert winners[..][MAX_EDGES..] == before[MAX_EDGES..];
    forall v | node < v < 2 * MAX_EDGES
      ensures NodeSettled(winners[..], rates[..], v)
    {
      assert NodeSettled(before, rates[..], v);
    }
  }

  /** Replay the matches on the path from a changed leaf to the root. */
  method Repair(winners: array<nat>, rates: array<nat>, leaf: nat, meter: WorkMeter) returns (ok: bool)
    requires winners.Length == 2 * MAX_EDGES && rates.Length == MAX_EDGES && winners != rates
    requires MAX_EDGES <= leaf < 2 * MAX_EDGES && SettledBelow(winners[..], rates[..], leaf / 2)
    modifies winners, meter`used
    ensures old(meter.Within()) ==> meter.Within()
    ensures winners[MAX_EDGES..] == old(winners[MAX_EDGES..])
    ensures ok ==> SettledBelow(winners[..], rates[..], 0)
    ensures old(meter.used) <= meter.used <= old(meter.used) + 3
    ensures !ok ==> old(meter.used) + 3 > meter.limit
  {
    hide SettledBelow;
    var node := leaf / 2;
    ghost var level := 0;
    while node != 0
      invariant old(meter.Within()) ==> meter.Within()
      invariant level <= 3 && node == leaf / Halvings(level) && node < MAX_EDGES
      invariant winners[MAX_EDGES..] == old(winners[MAX_EDGES..])
      invariant SettledBelow(winners[..], rates[..], node)
      invariant meter.used == old(meter.used) + level
      decreases node
    {
      ok := meter.Charge(1);
      if !ok {
        return;
      }
      ghost var before := winners[..];
      ReplayMatch(before, rates[..], node);
      winners[node] := Winner(winners[2 * node], winners[2 * node + 1], rates[..]);
      assert winners[..] == before[node := winners[node]];
      node := node / 2;
      level := level + 1;
    }
    ok := true;
  }

  ghost function Halvings(level: nat): nat {
    if level == 0 then 2 else if level == 1 then 4 else if level == 2 then 8 else 16
  }

  // ---------------------------------------------------------------- the two merges

  /** Advance one venue: its next rate, or its exhausted leaf. */
  method Advance(curves: seq<Curve>, cursor: array<nat>, rates: array<nat>, i: nat) returns (alive: bool)
    requires cursor.Length == rates.Length == MAX_EDGES && cursor != rates
    requires i < |curves| <= MAX_EDGES
    modifies cursor, rates
    ensures cursor[..] == old(cursor[..])[i := old(cursor[..])[i] + 1]
    ensures alive == (old(cursor[..])[i] + 1 < |curves[i].segments|)
    ensures rates[..] == if alive
              then old(rates[..])[i := curves[i].segments[old(cursor[..])[i] + 1].marginal]
              else old(rates[..])
  {
    ghost var at, was := cursor[..], rates[..];
    cursor[i] := cursor[i] + 1;
    assert cursor[..] == at[i := at[i] + 1];
    alive := cursor[i] < |curves[i].segments|;
    if alive {
      rates[i] := curves[i].segments[cursor[i]].marginal;
      assert rates[..] == was[i := rates[i]];
    }
  }

  lemma MergingParts(
    curves: seq<Curve>, mask: set<nat>, prefix: seq<seq<nat>>, owner: seq<nat>, bands: nat,
    cursor: seq<nat>, leaves: seq<nat>, rates: seq<nat>)
    requires Merging(curves, mask, prefix, owner, bands, cursor, leaves, rates)
    ensures |curves| <= MAX_EDGES && |cursor| == |leaves| == |rates| == MAX_EDGES
    ensures |owner| == |prefix| == bands + 1 && |prefix[bands]| == MAX_EDGES
    ensures bands <= BandCount(curves, mask, |curves|)
    ensures Counts(owner[1..], |curves|) == cursor[..|curves|]
  {
    PicksBounded(curves, mask, owner[1..]);
  }

  ghost predicate Merged(curves: seq<Curve>, mask: set<nat>, prefix: seq<seq<nat>>, owner: seq<nat>, bands: nat) {
    RowsMatch(curves, mask, prefix, owner, bands) && |owner| > 0 && Exhausted(curves, mask, owner[1..])
  }

  lemma DoneMerging(
    curves: seq<Curve>, mask: set<nat>, prefix: seq<seq<nat>>, owner: seq<nat>, bands: nat,
    cursor: seq<nat>, leaves: seq<nat>, rates: seq<nat>)
    requires Merging(curves, mask, prefix, owner, bands, cursor, leaves, rates)
    requires Best(curves, mask, cursor[..|curves|], |curves|).None?
    ensures Merged(curves, mask, prefix, owner, bands)
  {
    MergingParts(curves, mask, prefix, owner, bands, cursor, leaves, rates);
  }

  lemma RootIsChampion(winners: seq<nat>, rates: seq<nat>)
    requires SettledBelow(winners, rates, 0)
    ensures winners[1] <= NO_EDGE && IsChampion(winners[MAX_EDGES..], rates, 0, MAX_EDGES, winners[1])
  {
    assert NodeSettled(winners, rates, 1);
  }

  /** One round of the tree merge: advance the root's venue and repair its path. */
  method TreeRound(
    curves: seq<Curve>, mask: set<nat>, ghost prefix: seq<seq<nat>>, ghost owner: seq<nat>, ghost bands: nat,
    cursor: array<nat>, winners: array<nat>, rates: array<nat>, i: nat, meter: WorkMeter)
    returns (ok: bool)
    requires cursor.Length == rates.Length == MAX_EDGES && winners.Length == 2 * MAX_EDGES
    requires cursor != rates && cursor != winners && winners != rates && |curves| <= MAX_EDGES
    requires Merging(curves, mask, prefix, owner, bands, cursor[..], winners[MAX_EDGES..], rates[..])
    requires SettledBelow(winners[..], rates[..], 0)
    requires Chosen(curves, mask, cursor[..], i) && i < |curves| && i in mask
    requires |prefix| == bands + 1 && |prefix[bands]| == MAX_EDGES
    modifies cursor, winners, rates, meter`used
    ensures old(meter.Within()) ==> meter.Within()
    ensures Merging(curves, mask, prefix + [prefix[bands][i := prefix[bands][i] + 1]], owner + [i], bands + 1,
                    cursor[..], winners[MAX_EDGES..], rates[..])
    ensures bands + 1 <= BandCount(curves, mask, |curves|)
    ensures ok ==> SettledBelow(winners[..], rates[..], 0)
    ensures old(meter.used) <= meter.used <= old(meter.used) + 3
    ensures !ok ==> old(meter.used) + 3 > meter.limit
  {
    hide Merging, SettledBelow, Chosen;
    ghost var at, tree, heads := cursor[..], winners[..], rates[..];
    assert tree[MAX_EDGES..] == winners[MAX_EDGES..];
    var alive := Advance(curves, cursor, rates, i);
    assert winners[..] == tree;
    if !alive {
      winners[MAX_EDGES + i] := NO_EDGE;
    }
    assert winners[..] == if alive then tree else tree[MAX_EDGES + i := NO_EDGE];
    assert winners[MAX_EDGES..] == if alive then tree[MAX_EDGES..] else tree[MAX_EDGES..][i := NO_EDGE];
    KeepMerging(curves, mask, prefix, owner, bands, at, tree[MAX_EDGES..], heads, i, winners[MAX_EDGES..], rates[..]);
    LiveLeaf(curves, mask, prefix, owner, bands, at, tree[MAX_EDGES..], heads, i);
    LeafChanged(tree, heads, winners[..], rates[..], i);
    ok := Repair(winners, rates, MAX_EDGES + i, meter);
  }

  lemma LiveLeaf(
    curves: seq<Curve>, mask: set<nat>, prefix: seq<seq<nat>>, owner: seq<nat>, bands: nat,
    cursor: seq<nat>, leaves: seq<nat>, rates: seq<nat>, i: nat)
    requires Merging(curves, mask, prefix, owner, bands, cursor, leaves, rates) && Chosen(curves, mask, cursor, i)
    requires i < MAX_EDGES
    ensures |leaves| == MAX_EDGES && leaves[i] == i
  {
  }

  method MergeTree(curves: seq<Curve>, mask: set<nat>, winners: array<nat>, rates: array<nat>, meter: WorkMeter)
    returns (ok: bool, prefix: seq<seq<nat>>, owner: seq<nat>, bands: nat)
    requires |curves| <= MAX_EDGES && winners.Length == 2 * MAX_EDGES && rates.Length == MAX_EDGES && winners != rates
    requires Frontier(curves, mask, Zeros(), winners[MAX_EDGES..], rates[..])
    requires forall v :: MAX_EDGES <= v < 2 * MAX_EDGES ==> NodeSettled(winners[..], rates[..], v)
    modifies winners, rates, meter`used
    ensures old(meter.Within()) ==> meter.Within()
    ensures ok ==> Merged(curves, mask, prefix, owner, bands)
    ensures old(meter.used) <= meter.used <= old(meter.used) + MAX_EDGES + 3 * BandCount(curves, mask, |curves|)
    ensures !ok ==> old(meter.used) + MAX_EDGES + 3 * BandCount(curves, mask, |curves|) > meter.limit
  {
    hide Merging, SettledBelow, IsChampion, NodeSettled, Merged, Frontier;
    var cursor := new nat[MAX_EDGES](_ => 0);
    prefix, owner, bands := [seq(MAX_EDGES, _ => 0)], [0], 0;
    assert cursor[..] == Zeros() && prefix == [Zeros()];
    StartMerging(curves, mask, winners[MAX_EDGES..], rates[..]);
    ok := PlayAll(winners, rates, meter);
    if !ok {
      return;
    }
    ghost var total := BandCount(curves, mask, |curves|);
    MergingParts(curves, mask, prefix, owner, bands, cursor[..], winners[MAX_EDGES..], rates[..]);
    while winners[1] != NO_EDGE
      invariant old(meter.Within()) ==> meter.Within()
      invariant Merging(curves, mask, prefix, owner, bands, cursor[..], winners[MAX_EDGES..], rates[..])
      invariant SettledBelow(winners[..], rates[..], 0)
      invariant bands <= total
      invariant old(meter.used) <= meter.used <= old(meter.used) + MAX_EDGES + 3 * bands
      decreases total - bands
    {
      var i := winners[1];
      RootChosen(curves, mask, prefix, owner, bands, cursor[..], winners[..], rates[..]);
      ok := TreeRound(curves, mask, prefix, owner, bands, cursor, winners, rates, i, meter);
      if !ok {
        return;
      }
      prefix := prefix + [prefix[bands][i := prefix[bands][i] + 1]];
      owner := owner + [i];
      bands := bands + 1;
    }
    RootChosen(curves, mask, prefix, owner, bands, cursor[..], winners[..], rates[..]);
    DoneMerging(curves, mask, prefix, owner, bands, cursor[..], winners[MAX_EDGES..], rates[..]);
    ok := true;
  }

  /** The root of a settled tree is the greedy choice, or nobody is left. */
  lemma RootChosen(
    curves: seq<Curve>, mask: set<nat>, prefix: seq<seq<nat>>, owner: seq<nat>, bands: nat,
    cursor: seq<nat>, winners: seq<nat>, rates: seq<nat>)
    requires |winners| == 2 * MAX_EDGES && SettledBelow(winners, rates, 0)
    requires Merging(curves, mask, prefix, owner, bands, cursor, winners[MAX_EDGES..], rates)
    ensures |curves| <= MAX_EDGES == |cursor|
    ensures if winners[1] == NO_EDGE then Best(curves, mask, cursor[..|curves|], |curves|).None?
            else Chosen(curves, mask, cursor, winners[1]) && winners[1] < |curves| && winners[1] in mask
    ensures |prefix| == bands + 1 && |prefix[bands]| == MAX_EDGES
    ensures bands <= BandCount(curves, mask, |curves|)
  {
    hide IsChampion;
    MergingParts(curves, mask, prefix, owner, bands, cursor, winners[MAX_EDGES..], rates);
    RootIsChampion(winners, rates);
    ChampionIsBest(curves, mask, cursor, winners[MAX_EDGES..], rates, winners[1]);
    if winners[1] != NO_EDGE {
      BestIsOpen(curves, mask, cursor[..|curves|], winners[1]);
    }
  }

  /** The heads of at most two streams. */
  ghost predicate Heads(mask: set<nat>, l: nat, r: nat, leaves: seq<nat>, left: nat, right: nat) {
    && |leaves| == MAX_EDGES && l < MAX_EDGES && mask == (if r == NO_EDGE then {l} else {l, r})
    && left == leaves[l] && left <= NO_EDGE
    && (r != NO_EDGE ==> l < r < MAX_EDGES && right == leaves[r] && right <= NO_EDGE)
    && (r == NO_EDGE ==> right == NO_EDGE)
  }

  lemma HeadsChosen(
    curves: seq<Curve>, mask: set<nat>, prefix: seq<seq<nat>>, owner: seq<nat>, bands: nat,
    cursor: seq<nat>, leaves: seq<nat>, rates: seq<nat>, l: nat, r: nat, left: nat, right: nat)
    requires Merging(curves, mask, prefix, owner, bands, cursor, leaves, rates)
    requires Heads(mask, l, r, leaves, left, right) && |rates| == MAX_EDGES
    ensures |curves| <= MAX_EDGES == |cursor|
    ensures left <= NO_EDGE && right <= NO_EDGE
    ensures var w := Winner(left, right, rates);
            if w == NO_EDGE then Best(curves, mask, cursor[..|curves|], |curves|).None?
            else Chosen(curves, mask, cursor, w) && w < |curves| && w in mask && leaves[w] == w
                 && (w == left || w == right) && (w == left ==> w == l) && (w != left ==> w == r)
    ensures |prefix| == bands + 1 && |prefix[bands]| == MAX_EDGES && |owner| == bands + 1
    ensures bands <= BandCount(curves, mask, |curves|)
  {
    MergingParts(curves, mask, prefix, owner, bands, cursor, leaves, rates);
    var at := cursor[..|curves|];
    var b := Best(curves, mask, at, |curves|);
    if b.Some? {
      assert leaves[b.value] == b.value;
    }
    assert leaves[l] == (if Open(curves, mask, at, l) then l else NO_EDGE);
    if r != NO_EDGE {
      assert leaves[r] == (if Open(curves, mask, at, r) then r else NO_EDGE);
    }
  }

  /** Merging one or two streams without a tree: just their two heads. */
  method MergePair(curves: seq<Curve>, mask: set<nat>, ghost start: seq<nat>, rates: array<nat>, meter: WorkMeter)
    returns (ok: bool, prefix: seq<seq<nat>>, owner: seq<nat>, bands: nat)
    requires |curves| <= MAX_EDGES && rates.Length == MAX_EDGES
    requires mask != {} && |mask| <= 2 && forall i :: i in mask ==> i < |curves|
    requires Frontier(curves, mask, Zeros(), start, rates[..])
    requires forall i :: i in mask ==> start[i] == i
    modifies rates, meter`used
    ensures old(meter.Within()) ==> meter.Within()
    ensures ok ==> Merged(curves, mask, prefix, owner, bands)
    ensures old(meter.used) <= meter.used <= old(meter.used) + BandCount(curves, mask, |curves|) + 1
    ensures !ok ==> old(meter.used) + BandCount(curves, mask, |curves|) + 1 > meter.limit
  {
    hide Merging, Merged, Frontier, Chosen, Heads, BandCount, Winner, Zeros, Counts, Best;
    var cursor := new nat[MAX_EDGES](_ => 0);
    prefix, owner, bands := [seq(MAX_EDGES, _ => 0)], [0], 0;
    AllZeros();
    assert cursor[..] == Zeros() && prefix == [Zeros()];
    FrontierShape(curves, mask, Zeros(), start, rates[..]);
    StartMerging(curves, mask, start, rates[..]);
    var left: nat := Least(mask);
    var rest := mask - {left};
    var right: nat := if rest == {} then NO_EDGE else Least(rest);
    ghost var l: nat, r: nat, leaves: seq<nat> := left, right, start;
    StartHeads(curves, mask, start, rates[..], left, right);
    ghost var total := BandCount(curves, mask, |curves|);
    ok := true;
    while true
      invariant old(meter.Within()) ==> meter.Within()
      invariant ok
      invariant Merging(curves, mask, prefix, owner, bands, cursor[..], leaves, rates[..])
      invariant Heads(mask, l, r, leaves, left, right)
      invariant meter.used == old(meter.used) + bands
      decreases total - bands
    {
      HeadsChosen(curves, mask, prefix, owner, bands, cursor[..], leaves, rates[..], l, r, left, right);
      ghost var at, heads := cursor[..], rates[..];
      ok := meter.Charge(1);
      if !ok {
        return;
      }
      assert cursor[..] == at && rates[..] == heads;
      var i := Winner(left, right, rates[..]);
      if i == NO_EDGE {
        DoneMerging(curves, mask, prefix, owner, bands, at, leaves, heads);
        return;
      }
      left, right, leaves :=
        PairRound(curves, mask, prefix, owner, bands, cursor, leaves, rates, l, r, left, right, i);
      prefix := prefix + [prefix[bands][i := prefix[bands][i] + 1]];
      owner := owner + [i];
      bands := bands + 1;
    }
  }

  lemma FrontierShape(curves: seq<Curve>, mask: set<nat>, cursor: seq<nat>, leaves: seq<nat>, rates: seq<nat>)
    requires Frontier(curves, mask, cursor, leaves, rates)
    ensures |leaves| == |rates| == MAX_EDGES
  {
  }

  lemma AllZeros()
    ensures Zeros() == seq(MAX_EDGES, _ => 0)
  {
  }

  /** The heads of the merge before its first round. */
  lemma StartHeads(curves: seq<Curve>, mask: set<nat>, start: seq<nat>, rates: seq<nat>, left: nat, right: nat)
    requires |curves| <= MAX_EDGES && Frontier(curves, mask, Zeros(), start, rates)
    requires mask != {} && |mask| <= 2 && forall i :: i in mask ==> i < |curves| && i < |start| && start[i] == i
    requires left in mask && forall i :: i in mask ==> left <= i
    requires right == if mask - {left} == {} then NO_EDGE else Least(mask - {left})
    ensures Heads(mask, left, right, start, left, right)
  {
    AtMostTwo(mask, left, mask - {left});
  }

  /** One round of the two-head merge. */
  method PairRound(
    curves: seq<Curve>, mask: set<nat>, ghost prefix: seq<seq<nat>>, ghost owner: seq<nat>, ghost bands: nat,
    cursor: array<nat>, ghost leaves: seq<nat>, rates: array<nat>, ghost l: nat, ghost r: nat,
    left: nat, right: nat, i: nat)
    returns (left': nat, right': nat, ghost leaves': seq<nat>)
    requires cursor.Length == rates.Length == MAX_EDGES && cursor != rates && |curves| <= MAX_EDGES
    requires Merging(curves, mask, prefix, owner, bands, cursor[..], leaves, rates[..])
    requires Heads(mask, l, r, leaves, left, right)
    requires left <= NO_EDGE && right <= NO_EDGE && i == Winner(left, right, rates[..])
    requires Chosen(curves, mask, cursor[..], i) && i < |curves| && i in mask && leaves[i] == i
    requires (i == left || i == right) && (i == left ==> i == l) && (i != left ==> i == r)
    requires |prefix| == bands + 1 && |prefix[bands]| == MAX_EDGES
    modifies cursor, rates
    ensures Merging(curves, mask, prefix + [prefix[bands][i := prefix[bands][i] + 1]], owner + [i], bands + 1,
                    cursor[..], leaves', rates[..])
    ensures Heads(mask, l, r, leaves', left', right')
    ensures bands + 1 <= BandCount(curves, mask, |curves|)
  {
    hide Merging, Chosen, BandCount;
    ghost var at, heads := cursor[..], rates[..];
    left', right' := left, right;
    var alive := Advance(curves, cursor, rates, i);
    if !alive {
      if i == left {
        left' := NO_EDGE;
      } else {
        right' := NO_EDGE;
      }
    }
    leaves' := if alive then leaves else leaves[i := NO_EDGE];
    KeepMerging(curves, mask, prefix, owner, bands, at, leaves, heads, i, leaves', rates[..]);
  }

  lemma AtMostTwo(mask: set<nat>, l: nat, rest: set<nat>)
    requires l in mask && |mask| <= 2 && rest == mask - {l}
    requires forall x :: x in mask ==> l <= x
    ensures rest == {} ==> mask == {l}
    ensures rest != {} ==> mask == {l, Least(rest)} && l < Least(rest)
  {
    assert |rest| <= 1;
    if rest != {} {
      var r := Least(rest);
      assert |rest - {r}| == 0;
      assert rest == {r};
      assert mask == {l} + rest;
    }
  }

  function BuildWork(curves: seq<Curve>, mask: set<nat>): nat {
    4 * BandCount(curves, mask, |curves|) + MAX_EDGES
  }

  /** Build the tape: it exists whenever the selection is sensible, its curves are
      valid, and the work budget suffices. */
  method BuildTape(curves: seq<Curve>, mask: set<nat>, meter: WorkMeter) returns (r: Result<ResidualTape>)
    modifies meter`used
    ensures old(meter.Within()) ==> meter.Within()
    ensures r.Ok? ==> IsTape(r.value, curves) && r.value.compiledMask == mask
    ensures |curves| == 0 || |curves| > MAX_EDGES || mask == {} || (exists i :: i in mask && i >= |curves|) ==>
              r == Err(Error.Bounds)
    ensures r.Err? && !r.error.WorkLimit? && !r.error.Bounds? ==> MaskFault(curves, mask, |curves|) == Some(r.error)
    ensures r.Err? && r.error.Bounds? && MaskFault(curves, mask, |curves|) != Some(Error.Bounds) ==>
              |curves| == 0 || |curves| > MAX_EDGES || mask == {} || exists i :: i in mask && i >= |curves|
    ensures r.Err? && r.error.WorkLimit? && MaskFault(curves, mask, |curves|) != Some(WorkLimit) ==>
              old(meter.used) + BuildWork(curves, mask) > meter.limit
    ensures old(meter.used) <= meter.used <= old(meter.used) + BuildWork(curves, mask)
  {
    if |curves| == 0 || |curves| > MAX_EDGES || mask == {} || exists i :: i in mask && i >= |curves| {
      return Err(Error.Bounds);
    }
    var winners := new nat[2 * MAX_EDGES](_ => NO_EDGE);
    var rates := new nat[MAX_EDGES](_ => 0);
    var entered := EnterAll(curves, mask, winners, rates, meter);
    if entered.Err? {
      return Err(entered.error);
    }
    EnteredFrontier(curves, mask, entered.value, winners[..], rates[..]);
    EnteredParts(curves, mask, entered.value, winners[..], rates[..]);
    hide Entered, Frontier, NodeSettled, Merged, IsTape, Indexed, ValidMask, ValidCurve;
    var ok, prefix, owner, bands;
    if |mask| <= 2 {
      ok, prefix, owner, bands := MergePair(curves, mask, winners[MAX_EDGES..], rates, meter);
    } else {
      ok, prefix, owner, bands := MergeTree(curves, mask, winners, rates, meter);
    }
    if !ok {
      return Err(WorkLimit);
    }
    var tape := ResidualTape(prefix, owner, entered.value, bands, |curves|, mask);
    TapeIntro(tape, curves);
    return Ok(tape);
  }

  lemma EnteredParts(curves: seq<Curve>, mask: set<nat>, indexed: seq<IndexedCurve>, winners: seq<nat>, rates: seq<nat>)
    requires Entered(curves, mask, |curves|, indexed, winners, rates)
    requires forall i :: i in mask ==> i < |curves|
    ensures ValidMask(curves, mask) && Indexed(curves, mask, indexed, |curves|)
    ensures forall i :: i in mask ==> winners[MAX_EDGES..][i] == i
    ensures winners[MAX_EDGES..] == winners[MAX_EDGES..]
  {
  }

  lemma TapeIntro(tape: ResidualTape, curves: seq<Curve>)
    requires 0 < |curves| <= MAX_EDGES && tape.edges == |curves| && tape.compiledMask != {}
    requires ValidMask(curves, tape.compiledMask) && Indexed(curves, tape.compiledMask, tape.curves, |curves|)
    requires Merged(curves, tape.compiledMask, tape.prefix, tape.owner, tape.bands)
    ensures IsTape(tape, curves)
  {
  }
}
