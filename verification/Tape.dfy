/** The residual tape: the greedy order of all bands, merged once by a
    tournament, with one row of per-venue counts for every prefix. */
module Tape {
  import opened Base
  import opened Curves
  import opened Greedy
  import opened Allocations
  import opened Waterfill

  const NO_EDGE: nat := MAX_EDGES

  datatype IndexedCurve = IndexedCurve(capacity: seq<nat>, integral: seq<nat>, rates: seq<nat>, len: nat)

  const EMPTY_INDEX: IndexedCurve := IndexedCurve([0], [0], [], 0)

  /** Rows and owners are counted from 1; row 0 is the empty prefix. */
  datatype ResidualTape = ResidualTape(
    prefix: seq<seq<nat>>, owner: seq<nat>, curves: seq<IndexedCurve>, bands: nat, edges: nat, compiledMask: set<nat>)

  function Index(c: Curve): IndexedCurve {
    var n := |c.segments|;
    IndexedCurve(
      seq(n + 1, j requires 0 <= j <= n => CapPrefix(c.segments, j)),
      seq(n + 1, j requires 0 <= j <= n => IntPrefix(c.segments, j)),
      seq(n, j requires 0 <= j < n => c.segments[j].marginal),
      n)
  }

  ghost function Order(tape: ResidualTape): seq<nat>
    requires |tape.owner| > 0
  {
    tape.owner[1..]
  }

  /** The rows are the counts of the prefixes of the greedy order. */
  ghost predicate RowsMatch(curves: seq<Curve>, mask: set<nat>, prefix: seq<seq<nat>>, owner: seq<nat>, bands: nat) {
    && |owner| == |prefix| == bands + 1
    && Picks(curves, mask, owner[1..])
    && forall k :: 0 <= k <= bands ==> prefix[k] == Counts(owner[1..][..k], MAX_EDGES)
  }

  ghost predicate Indexed(curves: seq<Curve>, mask: set<nat>, indexed: seq<IndexedCurve>, n: nat)
    requires n <= |curves|
  {
    && |indexed| == MAX_EDGES && |curves| <= MAX_EDGES
    && forall i :: 0 <= i < n && i in mask ==> indexed[i] == Index(curves[i])
  }

  /** The tape of `curves` compiled for its mask. */
  ghost predicate IsTape(tape: ResidualTape, curves: seq<Curve>) {
    && 0 < |curves| <= MAX_EDGES && tape.edges == |curves|
    && tape.compiledMask != {} && ValidMask(curves, tape.compiledMask)
    && Indexed(curves, tape.compiledMask, tape.curves, |curves|)
    && RowsMatch(curves, tape.compiledMask, tape.prefix, tape.owner, tape.bands)
    && Exhausted(curves, tape.compiledMask, tape.owner[1..])
  }

  // ---------------------------------------------------------------- the tournament

  function Winner(left: nat, right: nat, rates: seq<nat>): nat
    requires |rates| == MAX_EDGES && left <= NO_EDGE && right <= NO_EDGE
  {
    if left == NO_EDGE then right
    else if right == NO_EDGE || rates[left] >= rates[right] then left
    else right
  }

  /** w is the best live leaf in [lo, hi), the lowest one on a tie. */
  ghost predicate IsChampion(leaves: seq<nat>, rates: seq<nat>, lo: nat, hi: nat, w: nat)
    requires |leaves| == |rates| == MAX_EDGES && lo <= hi <= MAX_EDGES
  {
    if w == NO_EDGE then forall i :: lo <= i < hi ==> leaves[i] == NO_EDGE
    else
      && lo <= w < hi && leaves[w] == w
      && forall i :: lo <= i < hi && leaves[i] != NO_EDGE ==>
           rates[i] <= rates[w] && (i < w ==> rates[i] < rates[w])
  }

  /** The winner of two adjacent ranges is the champion of both. */
  lemma ChampionOfTwo(leaves: seq<nat>, rates: seq<nat>, lo: nat, mid: nat, hi: nat, a: nat, b: nat)
    requires |leaves| == |rates| == MAX_EDGES && lo <= mid <= hi <= MAX_EDGES
    requires a <= NO_EDGE && b <= NO_EDGE
    requires IsChampion(leaves, rates, lo, mid, a) && IsChampion(leaves, rates, mid, hi, b)
    ensures IsChampion(leaves, rates, lo, hi, Winner(a, b, rates))
  {
  }

  /** The leaves below a node of the tree. */
  function Lo(node: nat): nat
    requires 1 <= node < 2 * MAX_EDGES
  {
    if node >= 8 then node - 8 else if node >= 4 then 2 * (node - 4) else if node >= 2 then 4 * (node - 2) else 0
  }

  function Hi(node: nat): nat
    requires 1 <= node < 2 * MAX_EDGES
  {
    if node >= 8 then node - 7 else if node >= 4 then 2 * (node - 4) + 2 else if node >= 2 then 4 * (node - 2) + 4 else 8
  }

  lemma Spans(node: nat)
    requires 1 <= node < MAX_EDGES
    ensures Lo(2 * node) == Lo(node) && Hi(2 * node) == Lo(2 * node + 1) && Hi(2 * node + 1) == Hi(node)
    ensures Lo(node) <= Hi(2 * node) <= Hi(node) <= MAX_EDGES
  {
  }

  ghost predicate NodeSettled(winners: seq<nat>, rates: seq<nat>, node: nat)
    requires |winners| == 2 * MAX_EDGES && |rates| == MAX_EDGES && 1 <= node < 2 * MAX_EDGES
  {
    winners[node] <= NO_EDGE && IsChampion(winners[MAX_EDGES..], rates, Lo(node), Hi(node), winners[node])
  }

  /** Every node is settled except possibly `node` and its ancestors. */
  ghost predicate SettledBelow(winners: seq<nat>, rates: seq<nat>, node: nat) {
    && |winners| == 2 * MAX_EDGES && |rates| == MAX_EDGES
    && forall v :: 1 <= v < 2 * MAX_EDGES && v != node && v != node / 2 && v != node / 4 && v != node / 8 ==>
         NodeSettled(winners, rates, v)
  }

  /** Replaying one match settles its node and leaves only its ancestors open. */
  lemma ReplayMatch(winners: seq<nat>, rates: seq<nat>, node: nat)
    requires 1 <= node < MAX_EDGES && SettledBelow(winners, rates, node)
    ensures winners[2 * node] <= NO_EDGE && winners[2 * node + 1] <= NO_EDGE
    ensures SettledBelow(winners[node := Winner(winners[2 * node], winners[2 * node + 1], rates)], rates, node / 2)
  {
    assert NodeSettled(winners, rates, 2 * node) && NodeSettled(winners, rates, 2 * node + 1);
    Spans(node);
    var w := Winner(winners[2 * node], winners[2 * node + 1], rates);
    var winners' := winners[node := w];
    assert winners'[MAX_EDGES..] == winners[MAX_EDGES..];
    ChampionOfTwo(winners[MAX_EDGES..], rates, Lo(node), Hi(2 * node), Hi(node), winners[2 * node], winners[2 * node + 1]);
    forall v | 1 <= v < 2 * MAX_EDGES && v != node / 2 && v != node / 4 && v != node / 8 && v != node / 16
      ensures NodeSettled(winners', rates, v)
    {
      if v != node {
        assert NodeSettled(winners, rates, v);
      }
    }
  }

  /** Changing one leaf only concerns its ancestors. */
  lemma LeafChanged(winners: seq<nat>, rates: seq<nat>, winners': seq<nat>, rates': seq<nat>, i: nat)
    requires i < MAX_EDGES && SettledBelow(winners, rates, 0)
    requires |rates'| == MAX_EDGES && |winners'| == 2 * MAX_EDGES
    requires forall j :: 0 <= j < MAX_EDGES && j != i ==> rates'[j] == rates[j]
    requires forall v :: 0 <= v < 2 * MAX_EDGES && v != MAX_EDGES + i ==> winners'[v] == winners[v]
    requires winners'[MAX_EDGES + i] == i || winners'[MAX_EDGES + i] == NO_EDGE
    ensures SettledBelow(winners', rates', (MAX_EDGES + i) / 2)
  {
    var leaves, leaves' := winners[MAX_EDGES..], winners'[MAX_EDGES..];
    forall v | 1 <= v < 2 * MAX_EDGES && v != (MAX_EDGES + i) / 2 && v != (MAX_EDGES + i) / 4 && v != (MAX_EDGES + i) / 8
      ensures NodeSettled(winners', rates', v)
    {
      assert NodeSettled(winners, rates, v);
      if v != MAX_EDGES + i {
        assert !(Lo(v) <= i < Hi(v));
        assert forall j :: Lo(v) <= j < Hi(v) ==> leaves'[j] == leaves[j] && rates'[j] == rates[j];
      } else {
        assert leaves'[i] == winners'[v];
      }
    }
  }

  /** The live leaves are the open venues, at their current rates. */
  ghost predicate Frontier(curves: seq<Curve>, mask: set<nat>, cursor: seq<nat>, leaves: seq<nat>, rates: seq<nat>) {
    && |curves| <= MAX_EDGES && |leaves| == |rates| == MAX_EDGES && |cursor| == MAX_EDGES
    && (forall i :: 0 <= i < MAX_EDGES ==>
         leaves[i] == (if Open(curves, mask, cursor[..|curves|], i) then i else NO_EDGE))
    && forall i :: 0 <= i < MAX_EDGES && Open(curves, mask, cursor[..|curves|], i) ==>
         rates[i] == Rate(curves, cursor[..|curves|], i)
  }

  /** The champion of all leaves is the greedy choice. */
  lemma ChampionIsBest(curves: seq<Curve>, mask: set<nat>, cursor: seq<nat>, leaves: seq<nat>, rates: seq<nat>, w: nat)
    requires Frontier(curves, mask, cursor, leaves, rates) && IsChampion(leaves, rates, 0, MAX_EDGES, w)
    ensures Best(curves, mask, cursor[..|curves|], |curves|) == if w == NO_EDGE then None else Some(w)
  {
    var at := cursor[..|curves|];
    var b := Best(curves, mask, at, |curves|);
    if b.Some? {
      assert leaves[b.value] != NO_EDGE;
    }
    if w != NO_EDGE {
      assert leaves[w] != NO_EDGE;
      assert Open(curves, mask, at, w);
    }
  }
}
