/** The residual graph of a bounded circulation, and the Bellman-Ford search for
    a positive-cost cycle in it.

    Every order contributes two arcs: arc 2i moves more of the order from its
    sell asset to its buy asset, arc 2i+1 takes back what was already moved. */
module ResidualGraph {
  import opened Base
  import opened Products

  datatype FlowIntent = FlowIntent(
    owner: Key, nonce: u64, sell: nat, buy: nat, amount: u64, minOut: u64, expiresAtSlot: u64)

  datatype Arc = Arc(from: nat, to: nat, order: nat, reverse: bool, cap: nat, cost: int)

  /** What the cycle search looks at: the orders, how much of each may flow and
      how much does. */
  datatype Network = Network(orders: seq<FlowIntent>, capacities: seq<nat>, flows: seq<nat>, assets: nat)
  {
    ghost predicate Valid() {
      && |orders| == |capacities| == |flows|
      && (forall i :: 0 <= i < |orders| ==> orders[i].sell < assets && orders[i].buy < assets)
      && (forall i :: 0 <= i < |orders| ==> flows[i] <= capacities[i])
    }

    function Arcs(): nat {
      2 * |orders|
    }

    function ArcAt(index: nat): (e: Arc)
      requires Valid() && index < Arcs()
      ensures e.from < assets && e.to < assets && e.order < |orders|
    {
      var i := index / 2;
      var o := orders[i];
      if index % 2 == 1 then
        Arc(o.buy, o.sell, i, true, flows[i], -1)
      else
        Arc(o.sell, o.buy, i, false, capacities[i] - flows[i], 1)
    }
  }

  type Predecessors = seq<Option<nat>>

  /** Every recorded predecessor of a vertex is a residual arc entering it. */
  ghost predicate Linked(net: Network, prev: Predecessors)
    requires net.Valid()
  {
    && |prev| == net.assets
    && forall v :: 0 <= v < |prev| && prev[v].Some? ==>
         && prev[v].value < net.Arcs()
         && net.ArcAt(prev[v].value).to == v
         && net.ArcAt(prev[v].value).cap > 0
  }

  /** The vertex reached by following k predecessor arcs backwards from v. */
  ghost function Back(net: Network, prev: Predecessors, v: nat, k: nat): (r: Option<nat>)
    requires net.Valid() && Linked(net, prev) && v < net.assets
    ensures r.Some? ==> r.value < net.assets
    decreases k
  {
    if k == 0 then Some(v)
    else if prev[v].None? then None
    else Back(net, prev, net.ArcAt(prev[v].value).from, k - 1)
  }

  /** The total cost of those k arcs. */
  ghost function BackCost(net: Network, prev: Predecessors, v: nat, k: nat): int
    requires net.Valid() && Linked(net, prev) && v < net.assets
    requires Back(net, prev, v, k).Some?
    decreases k
  {
    if k == 0 then 0
    else
      var e := net.ArcAt(prev[v].value);
      e.cost + BackCost(net, prev, e.from, k - 1)
  }

  /** Labels never exceed what their predecessor arc now offers; an unlabelled
      vertex has no predecessor. */
  ghost predicate Labelled(net: Network, d: seq<int>, prev: Predecessors)
    requires net.Valid()
  {
    && Linked(net, prev)
    && |d| == net.assets
    && forall v :: 0 <= v < |prev| ==>
         && d[v] >= 0
         && (prev[v].None? ==> d[v] == 0)
         && (prev[v].Some? ==>
               var e := net.ArcAt(prev[v].value);
               d[v] <= d[e.from] + e.cost)
  }

  ghost predicate CyclesPositive(net: Network, prev: Predecessors)
    requires net.Valid() && Linked(net, prev)
  {
    forall v: nat, k: nat :: v < net.assets && k > 0 && Back(net, prev, v, k) == Some(v) ==>
      BackCost(net, prev, v, k) > 0
  }

  /** No walk of at most r residual arcs, through any predecessor map, costs
      more than the label of the vertex where it ends. */
  ghost predicate Dominates(net: Network, d: seq<int>, r: nat)
    requires net.Valid() && |d| == net.assets
  {
    forall prev: Predecessors, v: nat, k: nat ::
      Linked(net, prev) && v < net.assets && k <= r && Back(net, prev, v, k).Some? ==>
        d[v] >= BackCost(net, prev, v, k)
  }

  /** Every residual arc is tight or slack: no label can be raised further. */
  ghost predicate Potential(net: Network, d: seq<int>)
    requires net.Valid()
  {
    && |d| == net.assets
    && forall j :: 0 <= j < net.Arcs() && net.ArcAt(j).cap > 0 ==>
         d[net.ArcAt(j).from] + net.ArcAt(j).cost <= d[net.ArcAt(j).to]
  }

  function CycleCost(net: Network, cycle: seq<nat>): int
    requires net.Valid()
    requires forall k :: 0 <= k < |cycle| ==> cycle[k] < net.Arcs()
  {
    if |cycle| == 0 then 0
    else
      var n := |cycle| - 1;
      CycleCost(net, cycle[..n]) + net.ArcAt(cycle[n]).cost
  }

  /** A chain of residual arcs, listed against their direction: each arc starts
      where the next one listed ends. */
  ghost predicate IsChain(net: Network, chain: seq<nat>)
    requires net.Valid()
  {
    && (forall k :: 0 <= k < |chain| ==> chain[k] < net.Arcs() && net.ArcAt(chain[k]).cap > 0)
    && (forall k :: 0 <= k < |chain| - 1 ==> net.ArcAt(chain[k]).from == net.ArcAt(chain[k + 1]).to)
  }

  /** A closed chain that enters no vertex twice. */
  ghost predicate IsSimpleCycle(net: Network, cycle: seq<nat>)
    requires net.Valid()
  {
    && IsChain(net, cycle)
    && 0 < |cycle| <= net.assets
    && net.ArcAt(cycle[|cycle| - 1]).from == net.ArcAt(cycle[0]).to
    && forall a, b :: 0 <= a < b < |cycle| ==> net.ArcAt(cycle[a]).to != net.ArcAt(cycle[b]).to
  }

  ghost predicate IsImprovingCycle(net: Network, cycle: seq<nat>)
    requires net.Valid()
  {
    IsSimpleCycle(net, cycle) && CycleCost(net, cycle) > 0
  }

  // ---------------------------------------------------------------- walking back

  lemma {:induction false} BackAdd(net: Network, prev: Predecessors, v: nat, a: nat, b: nat)
    requires net.Valid() && Linked(net, prev) && v < net.assets
    requires Back(net, prev, v, a).Some?
    ensures Back(net, prev, v, a + b) == Back(net, prev, Back(net, prev, v, a).value, b)
    decreases a
  {
    if a > 0 {
      BackAdd(net, prev, net.ArcAt(prev[v].value).from, a - 1, b);
    }
  }

  lemma {:induction false} BackShorter(net: Network, prev: Predecessors, v: nat, a: nat, b: nat)
    requires net.Valid() && Linked(net, prev) && v < net.assets
    requires a <= b && Back(net, prev, v, b).Some?
    ensures Back(net, prev, v, a).Some?
    decreases a
  {
    if a > 0 {
      BackShorter(net, prev, net.ArcAt(prev[v].value).from, a - 1, b - 1);
    }
  }

  /** One more step at the far end. */
  lemma {:induction false} BackSnoc(net: Network, prev: Predecessors, v: nat, k: nat)
    requires net.Valid() && Linked(net, prev) && v < net.assets
    requires Back(net, prev, v, k).Some? && prev[Back(net, prev, v, k).value].Some?
    ensures Back(net, prev, v, k + 1) == Some(net.ArcAt(prev[Back(net, prev, v, k).value].value).from)
    ensures BackCost(net, prev, v, k + 1) ==
            BackCost(net, prev, v, k) + net.ArcAt(prev[Back(net, prev, v, k).value].value).cost
    decreases k
  {
    if k == 0 {
      var e := net.ArcAt(prev[v].value);
      assert Back(net, prev, v, 1) == Back(net, prev, e.from, 0) == Some(e.from);
      assert BackCost(net, prev, v, 1) == e.cost + BackCost(net, prev, e.from, 0);
    } else {
      var e := net.ArcAt(prev[v].value);
      BackSnoc(net, prev, e.from, k - 1);
    }
  }

  ghost predicate Passes(net: Network, prev: Predecessors, v: nat, k: nat, x: nat)
    requires net.Valid() && Linked(net, prev) && v < net.assets
    requires Back(net, prev, v, k).Some?
    decreases k
  {
    k > 0 && (v == x || Passes(net, prev, net.ArcAt(prev[v].value).from, k - 1, x))
  }

  /** Telescoping the labels along a backward walk. The inequality is strict
      when the walk uses the arc into x and that arc is strictly better. */
  lemma {:induction false} Telescope(net: Network, prev: Predecessors, d: seq<int>, x: nat, v: nat, k: nat)
    requires net.Valid() && Linked(net, prev) && |d| == net.assets && v < net.assets && x < net.assets
    requires forall u :: 0 <= u < net.assets && prev[u].Some? ==>
               d[u] <= d[net.ArcAt(prev[u].value).from] + net.ArcAt(prev[u].value).cost
    requires prev[x].Some? ==> d[x] < d[net.ArcAt(prev[x].value).from] + net.ArcAt(prev[x].value).cost
    requires Back(net, prev, v, k).Some?
    ensures d[v] <= d[Back(net, prev, v, k).value] + BackCost(net, prev, v, k)
    ensures Passes(net, prev, v, k, x) ==> d[v] < d[Back(net, prev, v, k).value] + BackCost(net, prev, v, k)
    decreases k
  {
    if k > 0 {
      Telescope(net, prev, d, x, net.ArcAt(prev[v].value).from, k - 1);
    }
  }

  /** A walk that does not use the predecessor of x is the same walk whatever that predecessor is. */
  lemma {:induction false} BackElsewhere(
    net: Network, prev: Predecessors, prev': Predecessors, x: nat, v: nat, k: nat)
    requires net.Valid() && Linked(net, prev) && Linked(net, prev') && v < net.assets && x < net.assets
    requires forall u :: 0 <= u < net.assets && u != x ==> prev[u] == prev'[u]
    requires Back(net, prev', v, k).Some? && !Passes(net, prev', v, k, x)
    ensures Back(net, prev, v, k) == Back(net, prev', v, k)
    ensures BackCost(net, prev, v, k) == BackCost(net, prev', v, k)
    decreases k
  {
    if k > 0 {
      BackElsewhere(net, prev, prev', x, net.ArcAt(prev[v].value).from, k - 1);
    }
  }

  /** Raising one label keeps the labelling sound and every cycle of
      predecessors strictly positive. */
  lemma RelaxKeepsCyclesPositive(net: Network, d: seq<int>, prev: Predecessors, j: nat, prev': Predecessors)
    requires net.Valid() && Labelled(net, d, prev) && CyclesPositive(net, prev)
    requires j < net.Arcs() && net.ArcAt(j).cap > 0
    requires d[net.ArcAt(j).to] < d[net.ArcAt(j).from] + net.ArcAt(j).cost
    requires prev' == prev[net.ArcAt(j).to := Some(j)]
    ensures Linked(net, prev') && CyclesPositive(net, prev')
  {
    var x := net.ArcAt(j).to;
    assert Linked(net, prev');
    forall v: nat, k: nat | v < net.assets && k > 0 && Back(net, prev', v, k) == Some(v)
      ensures BackCost(net, prev', v, k) > 0
    {
      Telescope(net, prev', d, x, v, k);
      if !Passes(net, prev', v, k, x) {
        BackElsewhere(net, prev, prev', x, v, k);
      }
    }
  }

  lemma RelaxKeepsLabels(
    net: Network, d: seq<int>, prev: Predecessors, j: nat, d': seq<int>, prev': Predecessors)
    requires net.Valid() && Labelled(net, d, prev)
    requires j < net.Arcs() && net.ArcAt(j).cap > 0
    requires d[net.ArcAt(j).to] < d[net.ArcAt(j).from] + net.ArcAt(j).cost
    requires d' == d[net.ArcAt(j).to := d[net.ArcAt(j).from] + net.ArcAt(j).cost]
    requires prev' == prev[net.ArcAt(j).to := Some(j)]
    ensures Labelled(net, d', prev')
  {
  }

  /** A full pass over the arcs extends domination by one arc. */
  lemma PassExtendsDomination(net: Network, d: seq<int>, d': seq<int>, r: nat)
    requires net.Valid() && |d| == |d'| == net.assets
    requires Dominates(net, d, r)
    requires forall v :: 0 <= v < net.assets ==> d[v] <= d'[v]
    requires forall j :: 0 <= j < net.Arcs() && net.ArcAt(j).cap > 0 ==>
               d[net.ArcAt(j).from] + net.ArcAt(j).cost <= d'[net.ArcAt(j).to]
    ensures Dominates(net, d', r + 1)
  {
    forall prev: Predecessors, v: nat, k: nat |
      Linked(net, prev) && v < net.assets && k <= r + 1 && Back(net, prev, v, k).Some?
      ensures d'[v] >= BackCost(net, prev, v, k)
    {
      if k == 0 {
        assert Back(net, prev, v, 0).Some?;
        assert BackCost(net, prev, v, 0) <= d[v];
      } else {
        var e := net.ArcAt(prev[v].value);
        assert Back(net, prev, e.from, k - 1).Some?;
        assert d[e.from] >= BackCost(net, prev, e.from, k - 1);
      }
    }
  }

  lemma ZeroDominates(net: Network, d: seq<int>)
    requires net.Valid() && |d| == net.assets
    requires forall v :: 0 <= v < net.assets ==> d[v] == 0
    ensures Dominates(net, d, 0)
  {
  }

  lemma NoPredecessorsNoCycles(net: Network, prev: Predecessors)
    requires net.Valid() && Linked(net, prev)
    requires forall v :: 0 <= v < net.assets ==> prev[v].None?
    ensures CyclesPositive(net, prev)
  {
    forall v: nat, k: nat | v < net.assets && k > 0
      ensures Back(net, prev, v, k).None?
    {
    }
  }

  /** A vertex raised in a pass that started from labels dominating all walks of
      n arcs has a predecessor k steps back, for every k up to n. */
  lemma PredecessorExists(net: Network, d0: seq<int>, d: seq<int>, prev: Predecessors, v: nat, n: nat, k: nat)
    requires net.Valid() && |d0| == net.assets && Dominates(net, d0, n)
    requires Labelled(net, d, prev) && v < net.assets && d0[v] < d[v]
    requires k <= n && Back(net, prev, v, k).Some?
    ensures prev[Back(net, prev, v, k).value].Some?
  {
    TelescopeWeak(net, prev, d, v, k);
    assert d0[v] >= BackCost(net, prev, v, k);
  }

  lemma LabelledIsLinked(net: Network, d: seq<int>, prev: Predecessors)
    requires net.Valid() && Labelled(net, d, prev)
    ensures Linked(net, prev) && |d| == net.assets
  {
  }

  lemma {:induction false} NeverRunsOut(
    net: Network, d0: seq<int>, d: seq<int>, prev: Predecessors, v: nat, n: nat, k: nat)
    requires net.Valid() && |d0| == net.assets && Dominates(net, d0, n)
    requires Labelled(net, d, prev) && v < net.assets && d0[v] < d[v]
    requires k <= n + 1
    ensures Back(net, prev, v, k).Some?
    decreases k
  {
    hide Dominates, Labelled;
    LabelledIsLinked(net, d, prev);
    if k > 0 {
      NeverRunsOut(net, d0, d, prev, v, n, k - 1);
      PredecessorExists(net, d0, d, prev, v, n, k - 1);
      BackSnoc(net, prev, v, k - 1);
    }
  }

  lemma {:induction false} TelescopeWeak(net: Network, prev: Predecessors, d: seq<int>, v: nat, k: nat)
    requires net.Valid() && Labelled(net, d, prev) && v < net.assets
    requires Back(net, prev, v, k).Some?
    ensures d[v] <= d[Back(net, prev, v, k).value] + BackCost(net, prev, v, k)
    decreases k
  {
    if k > 0 {
      TelescopeWeak(net, prev, d, net.ArcAt(prev[v].value).from, k - 1);
    }
  }

  // ---------------------------------------------------------------- reaching the cycle

  /** n + 1 values below n cannot all differ. */
  lemma {:induction false} Pigeonhole(f: seq<nat>, n: nat) returns (a: nat, b: nat)
    requires |f| == n + 1
    requires forall i :: 0 <= i < |f| ==> f[i] < n
    ensures a < b < |f| && f[a] == f[b]
    decreases n
  {
    if i :| 0 <= i < n && f[i] == f[n] {
      a, b := i, n;
    } else {
      // rename the value n - 1 to f[n], so the first n values stay below n - 1
      var g := seq(n, i requires 0 <= i < n => if f[i] == n - 1 then f[n] else f[i]);
      a, b := Pigeonhole(g, n - 1);
    }
  }

  /** Following predecessors for as many steps as there are vertices ends on a
      cycle of predecessors no longer than that. */
  lemma EndsOnCycle(net: Network, prev: Predecessors, v: nat) returns (p: nat)
    requires net.Valid() && Linked(net, prev) && v < net.assets
    requires forall k :: 0 <= k <= net.assets ==> Back(net, prev, v, k).Some?
    ensures 0 < p <= net.assets
    ensures Back(net, prev, Back(net, prev, v, net.assets).value, p) == Back(net, prev, v, net.assets)
  {
    var n := net.assets;
    var f := seq(n + 1, k requires 0 <= k <= n => Back(net, prev, v, k).value);
    var a, b := Pigeonhole(f, n);
    p := b - a;
    var c := f[a];
    assert Back(net, prev, v, a) == Some(c) == Back(net, prev, v, b);
    BackAdd(net, prev, v, a, p);
    assert Back(net, prev, c, p) == Some(c);
    BackAdd(net, prev, v, a, n - a);
    var x := Back(net, prev, v, n).value;
    assert Back(net, prev, c, n - a) == Some(x);
    BackAdd(net, prev, c, p, n - a);
    BackAdd(net, prev, c, n - a, p);
  }

  /** Labels can grow by at most one per relaxation, so 64 bits are ample. */
  ghost predicate AtMost(d: seq<int>, bound: int) {
    forall v :: 0 <= v < |d| ==> d[v] <= bound
  }

  ghost predicate Grew(d: seq<int>, d': seq<int>) {
    |d| == |d'| && forall v :: 0 <= v < |d| ==> d[v] <= d'[v]
  }

  /** The first n arcs have been offered labels at least as good as d. */
  ghost predicate Offered(net: Network, d: seq<int>, d': seq<int>, n: nat)
    requires net.Valid() && |d| == |d'| == net.assets && n <= net.Arcs()
  {
    forall j :: 0 <= j < n && net.ArcAt(j).cap > 0 ==>
      d[net.ArcAt(j).from] + net.ArcAt(j).cost <= d'[net.ArcAt(j).to]
  }

  ghost predicate Sound(net: Network, d: seq<int>, prev: Predecessors)
    requires net.Valid()
  {
    Labelled(net, d, prev) && CyclesPositive(net, prev)
  }

  /** Where a pass stands after its first n arcs: it started from labels d0. */
  ghost predicate Progress(net: Network, d0: seq<int>, d: seq<int>, updated: Option<nat>, bound: int, n: nat)
    requires net.Valid() && |d0| == net.assets && n <= net.Arcs()
  {
    && Grew(d0, d) && Offered(net, d0, d, n) && AtMost(d, bound + n)
    && (updated.None? ==> d == d0)
    && (updated.Some? ==> updated.value < net.assets && d0[updated.value] < d[updated.value])
  }

  lemma RaiseKeepsSound(net: Network, d: seq<int>, prev: Predecessors, n: nat)
    requires net.Valid() && n < net.Arcs() && Sound(net, d, prev)
    requires net.ArcAt(n).cap > 0
    requires d[net.ArcAt(n).to] < d[net.ArcAt(n).from] + net.ArcAt(n).cost
    ensures var e := net.ArcAt(n);
            Sound(net, d[e.to := d[e.from] + e.cost], prev[e.to := Some(n)])
  {
    hide Labelled, CyclesPositive, Linked, Network.ArcAt, Network.Arcs, Network.Valid;
    LabelledIsLinked(net, d, prev);
    var e := net.ArcAt(n);
    var d', prev' := d[e.to := d[e.from] + e.cost], prev[e.to := Some(n)];
    RelaxKeepsCyclesPositive(net, d, prev, n, prev');
    RelaxKeepsLabels(net, d, prev, n, d', prev');
  }

  lemma StartOfPass(net: Network, d0: seq<int>, bound: int)
    requires net.Valid() && |d0| == net.assets && AtMost(d0, bound)
    ensures Progress(net, d0, d0, None, bound, 0)
  {
  }

  lemma RaiseMakesProgress(net: Network, d0: seq<int>, d: seq<int>, updated: Option<nat>, bound: int, n: nat)
    requires net.Valid() && |d0| == net.assets && n < net.Arcs()
    requires Progress(net, d0, d, updated, bound, n)
    requires d[net.ArcAt(n).to] < d[net.ArcAt(n).from] + net.ArcAt(n).cost
    ensures var e := net.ArcAt(n);
            Progress(net, d0, d[e.to := d[e.from] + e.cost], Some(e.to), bound, n + 1)
  {
  }

  lemma SkipMakesProgress(net: Network, d0: seq<int>, d: seq<int>, updated: Option<nat>, bound: int, n: nat)
    requires net.Valid() && |d0| == net.assets && n < net.Arcs()
    requires Progress(net, d0, d, updated, bound, n)
    requires net.ArcAt(n).cap > 0 ==> d[net.ArcAt(n).from] + net.ArcAt(n).cost <= d[net.ArcAt(n).to]
    ensures Progress(net, d0, d, updated, bound, n + 1)
  {
  }

  /** Offer arc j to the label of the vertex it enters. */
  method Relax(net: Network, j: nat, distance: array<int>, previous: array<Option<nat>>) returns (raised: bool)
    requires net.Valid() && j < net.Arcs() && distance.Length == previous.Length == net.assets
    requires Sound(net, distance[..], previous[..])
    modifies distance, previous
    ensures Sound(net, distance[..], previous[..])
    ensures raised == (net.ArcAt(j).cap > 0 &&
              old(distance[..])[net.ArcAt(j).to] < old(distance[..])[net.ArcAt(j).from] + net.ArcAt(j).cost)
    ensures distance[..] == if raised
              then old(distance[..])[net.ArcAt(j).to := old(distance[..])[net.ArcAt(j).from] + net.ArcAt(j).cost]
              else old(distance[..])
    ensures previous[..] == if raised then old(previous[..])[net.ArcAt(j).to := Some(j)] else old(previous[..])
  {
    hide Sound;
    var e := net.ArcAt(j);
    raised := e.cap > 0 && distance[e.to] < distance[e.from] + e.cost;
    if raised {
      ghost var d, prev := distance[..], previous[..];
      RaiseKeepsSound(net, d, prev, j);
      distance[e.to] := distance[e.from] + e.cost;
      previous[e.to] := Some(j);
      assert distance[..] == d[e.to := d[e.from] + e.cost];
      assert previous[..] == prev[e.to := Some(j)];
    }
  }

  /** One pass over all arcs, raising labels in place. */
  method RelaxAll(
    net: Network, distance: array<int>, previous: array<Option<nat>>, ghost bound: int, meter: WorkMeter)
    returns (ok: bool, updated: Option<nat>)
    requires net.Valid() && distance.Length == previous.Length == net.assets
    requires Sound(net, distance[..], previous[..]) && AtMost(distance[..], bound)
    modifies distance, previous, meter`used
    ensures Sound(net, distance[..], previous[..])
    ensures ok ==> Progress(net, old(distance[..]), distance[..], updated, bound, net.Arcs())
    ensures old(meter.used) <= meter.used <= old(meter.used) + net.Arcs()
    ensures !ok ==> old(meter.used) + net.Arcs() > meter.limit
  {
    hide Sound, Progress, AtMost;
    ghost var d0 := distance[..];
    updated := None;
    StartOfPass(net, d0, bound);
    for j := 0 to net.Arcs()
      invariant Sound(net, distance[..], previous[..])
      invariant Progress(net, d0, distance[..], updated, bound, j)
      invariant meter.used == old(meter.used) + j
    {
      ghost var d := distance[..];
      ok := meter.Charge(1);
      if !ok {
        return;
      }
      assert distance[..] == d;
      var raised := Relax(net, j, distance, previous);
      if raised {
        RaiseMakesProgress(net, d0, d, updated, bound, j);
        updated := Some(net.ArcAt(j).to);
      } else {
        SkipMakesProgress(net, d0, d, updated, bound, j);
      }
    }
    ok := true;
  }

  /** Follow predecessors from `vertex` for `steps` steps; none is ever missing. */
  method WalkBack(net: Network, previous: array<Option<nat>>, vertex: nat, steps: nat) returns (r: Result<nat>)
    requires net.Valid() && Linked(net, previous[..]) && vertex < net.assets
    requires forall k :: 0 <= k <= steps ==> Back(net, previous[..], vertex, k).Some?
    ensures r.Ok? && Back(net, previous[..], vertex, steps) == Some(r.value)
  {
    var current := vertex;
    for k := 0 to steps
      invariant Back(net, previous[..], vertex, k) == Some(current)
    {
      ghost var next := Back(net, previous[..], vertex, k + 1);
      BackAdd(net, previous[..], vertex, k, 1);
      var j := previous[current];
      if j.None? {
        return Err(Arithmetic);
      }
      current := net.ArcAt(j.value).from;
      assert next == Back(net, previous[..], current, 0);
    }
    r := Ok(current);
  }

  /** `chain` lists the predecessor arcs met on the way back from v. */
  ghost predicate Traces(net: Network, prev: Predecessors, v: nat, chain: seq<nat>)
    requires net.Valid() && Linked(net, prev) && v < net.assets
  {
    forall i :: 0 <= i < |chain| ==>
      && Back(net, prev, v, i).Some?
      && prev[Back(net, prev, v, i).value] == Some(chain[i])
  }

  lemma {:induction false} TracedChain(net: Network, prev: Predecessors, v: nat, chain: seq<nat>)
    requires net.Valid() && Linked(net, prev) && v < net.assets
    requires Traces(net, prev, v, chain)
    ensures forall i :: 0 <= i < |chain| ==> chain[i] < net.Arcs() && net.ArcAt(chain[i]).cap > 0
    ensures forall i :: 0 <= i < |chain| ==> Back(net, prev, v, i) == Some(net.ArcAt(chain[i]).to)
    ensures forall i :: 0 <= i < |chain| ==> Back(net, prev, v, i + 1) == Some(net.ArcAt(chain[i]).from)
  {
    forall i | 0 <= i < |chain|
      ensures Back(net, prev, v, i + 1) == Some(net.ArcAt(chain[i]).from)
    {
      BackSnoc(net, prev, v, i);
    }
  }

  lemma {:induction false} TracedCost(net: Network, prev: Predecessors, v: nat, chain: seq<nat>)
    requires net.Valid() && Linked(net, prev) && v < net.assets
    requires Traces(net, prev, v, chain)
    requires Back(net, prev, v, |chain|).Some?
    requires forall i :: 0 <= i < |chain| ==> chain[i] < net.Arcs()
    ensures CycleCost(net, chain) == BackCost(net, prev, v, |chain|)
  {
    if |chain| > 0 {
      var n := |chain| - 1;
      TracedCost(net, prev, v, chain[..n]);
      BackSnoc(net, prev, v, n);
    }
  }

  /** Vertices before the first return to the start all differ. */
  lemma FirstReturnIsSimple(net: Network, prev: Predecessors, v: nat, n: nat, a: nat, b: nat)
    requires net.Valid() && Linked(net, prev) && v < net.assets
    requires a < b < n && Back(net, prev, v, n) == Some(v)
    requires forall k :: 0 < k < n ==> Back(net, prev, v, k) != Some(v)
    ensures Back(net, prev, v, a) != Back(net, prev, v, b)
  {
    BackShorter(net, prev, v, a, n);
    BackShorter(net, prev, v, b, n);
    if Back(net, prev, v, a) == Back(net, prev, v, b) {
      BackAdd(net, prev, v, b, n - b);
      BackAdd(net, prev, v, a, n - b);
      assert false;
    }
  }

  lemma TracedFirstReturnIsCycle(net: Network, prev: Predecessors, v: nat, chain: seq<nat>)
    requires net.Valid() && Linked(net, prev) && CyclesPositive(net, prev) && v < net.assets
    requires 0 < |chain| <= net.assets && Traces(net, prev, v, chain)
    requires Back(net, prev, v, |chain|) == Some(v)
    requires forall k :: 0 < k < |chain| ==> Back(net, prev, v, k) != Some(v)
    ensures IsImprovingCycle(net, chain)
  {
    TracedChain(net, prev, v, chain);
    forall a, b | 0 <= a < b < |chain|
      ensures net.ArcAt(chain[a]).to != net.ArcAt(chain[b]).to
    {
      FirstReturnIsSimple(net, prev, v, |chain|, a, b);
    }
    forall k | 0 <= k < |chain| - 1
      ensures net.ArcAt(chain[k]).from == net.ArcAt(chain[k + 1]).to
    {
      assert Back(net, prev, v, k + 1) == Some(net.ArcAt(chain[k]).from);
    }
    assert Back(net, prev, v, |chain| - 1 + 1) == Some(net.ArcAt(chain[|chain| - 1]).from);
    TracedCost(net, prev, v, chain);
  }

  /** Collect predecessor arcs from `start` until the walk returns there.
      `p` bounds the way round; a longer way would be reported as an arithmetic error. */
  method CollectCycle(net: Network, previous: array<Option<nat>>, start: nat, ghost p: nat)
    returns (r: Result<seq<nat>>)
    requires net.Valid() && Linked(net, previous[..]) && CyclesPositive(net, previous[..]) && start < net.assets
    requires 0 < p <= net.assets && Back(net, previous[..], start, p) == Some(start)
    ensures r.Ok? && IsImprovingCycle(net, r.value)
  {
    hide CyclesPositive, IsImprovingCycle;
    ghost var prev := previous[..];
    var cycle: seq<nat> := [];
    var vertex := start;
    while true
      invariant |cycle| < p
      invariant Traces(net, prev, start, cycle)
      invariant Back(net, prev, start, |cycle|) == Some(vertex)
      invariant forall k :: 0 < k <= |cycle| ==> Back(net, prev, start, k) != Some(start)
      decreases p - |cycle|
    {
      if |cycle| >= net.assets {
        return Err(Arithmetic);
      }
      BackShorter(net, prev, start, |cycle| + 1, p);
      BackAdd(net, prev, start, |cycle|, 1);
      var j := previous[vertex];
      if j.None? {
        return Err(Arithmetic);
      }
      BackSnoc(net, prev, start, |cycle|);
      cycle := cycle + [j.value];
      vertex := net.ArcAt(j.value).from;
      if vertex == start {
        TracedFirstReturnIsCycle(net, prev, start, cycle);
        return Ok(cycle);
      }
    }
  }

  /** Where the search stands after r > 0 passes that all raised something: the
      last one started from labels d0 and raised vertex v. */
  ghost predicate Searching(
    net: Network, d0: seq<int>, d: seq<int>, prev: Predecessors, updated: Option<nat>, r: nat)
    requires net.Valid()
  {
    && |d| == net.assets
    && Sound(net, d, prev) && AtMost(d, r * net.Arcs()) && Dominates(net, d, r)
    && (r > 0 ==>
          && |d0| == net.assets && Dominates(net, d0, r - 1)
          && updated.Some? && updated.value < net.assets && d0[updated.value] < d[updated.value])
  }

  lemma StartSearching(net: Network)
    requires net.Valid()
    ensures forall d, prev :: d == seq(net.assets, _ => 0) && prev == seq(net.assets, _ => None) ==>
              Searching(net, d, d, prev, None, 0)
  {
    var d: seq<int>, prev: Predecessors := seq(net.assets, _ => 0), seq(net.assets, _ => None);
    NoPredecessorsNoCycles(net, prev);
    ZeroDominates(net, d);
  }

  /** A whole pass, as the next one needs to see it. */
  lemma ProgressParts(net: Network, d: seq<int>, d': seq<int>, updated: Option<nat>, bound: int)
    requires net.Valid() && |d| == net.assets && Progress(net, d, d', updated, bound, net.Arcs())
    ensures |d'| == net.assets && AtMost(d', bound + net.Arcs())
    ensures forall v :: 0 <= v < net.assets ==> d[v] <= d'[v]
    ensures forall j :: 0 <= j < net.Arcs() && net.ArcAt(j).cap > 0 ==>
              d[net.ArcAt(j).from] + net.ArcAt(j).cost <= d'[net.ArcAt(j).to]
    ensures updated.Some? ==> updated.value < net.assets && d[updated.value] < d'[updated.value]
  {
  }

  lemma KeepSearching(
    net: Network, d0: seq<int>, d: seq<int>, d': seq<int>, prev: Predecessors, prev': Predecessors,
    updated: Option<nat>, updated': Option<nat>, r: nat)
    requires net.Valid() && Searching(net, d0, d, prev, updated, r) && Sound(net, d', prev')
    requires Progress(net, d, d', updated', r * net.Arcs(), net.Arcs()) && updated'.Some?
    ensures Searching(net, d, d', prev', updated', r + 1)
  {
    hide Sound, Dominates, Offered, Grew, AtMost, Network.Valid, Network.Arcs, Network.ArcAt;
    ProgressParts(net, d, d', updated', r * net.Arcs());
    PassExtendsDomination(net, d, d', r);
    OneMoreRound(r, r + 1, net.Arcs());
  }

  lemma FixpointIsPotential(net: Network, d: seq<int>, d': seq<int>, bound: int)
    requires net.Valid() && |d| == net.assets
    requires Progress(net, d, d', None, bound, net.Arcs())
    ensures Potential(net, d)
  {
  }

  /** After as many raising passes as there are vertices, walking back as many
      steps is possible and ends on a cycle. */
  lemma SearchFindsCycle(
    net: Network, d0: seq<int>, d: seq<int>, prev: Predecessors, updated: Option<nat>) returns (p: nat)
    requires net.Valid() && net.assets > 0 && Searching(net, d0, d, prev, updated, net.assets)
    ensures Linked(net, prev) && updated.Some? && updated.value < net.assets
    ensures forall k :: 0 <= k <= net.assets ==> Back(net, prev, updated.value, k).Some?
    ensures 0 < p <= net.assets
    ensures var x := Back(net, prev, updated.value, net.assets).value;
            Back(net, prev, x, p) == Some(x)
  {
    var v := updated.value;
    forall k | 0 <= k <= net.assets
      ensures Back(net, prev, v, k).Some?
    {
      NeverRunsOut(net, d0, d, prev, v, net.assets - 1, k);
    }
    p := EndsOnCycle(net, prev, v);
  }

  lemma SearchingParts(
    net: Network, d0: seq<int>, d: seq<int>, prev: Predecessors, updated: Option<nat>, r: nat)
    requires net.Valid() && Searching(net, d0, d, prev, updated, r)
    ensures Sound(net, d, prev) && AtMost(d, r * net.Arcs()) && Linked(net, prev) && CyclesPositive(net, prev)
    ensures r > 0 ==> updated.Some? && updated.value < net.assets
  {
  }

  /** Bellman-Ford over the residual graph: either a simple residual cycle of
      strictly positive cost, or labels proving that there is none. */
  method ImprovingCycle(net: Network, meter: WorkMeter) returns (r: Result<Option<seq<nat>>>)
    requires net.Valid()
    modifies meter`used
    ensures r.Ok? && r.value.Some? ==> IsImprovingCycle(net, r.value.value)
    ensures r.Ok? && r.value.None? ==> exists d :: Potential(net, d)
    ensures r.Err? ==>
              || (r.error.WorkLimit? && old(meter.used) + net.assets * net.Arcs() > meter.limit)
              || (r.error.Arithmetic? && net.assets == 0)
    ensures old(meter.used) <= meter.used <= old(meter.used) + net.assets * net.Arcs()
  {
    hide *;
    var distance := new int[net.assets](_ => 0);
    var previous := new Option<nat>[net.assets](_ => None);
    StartSearching(net);
    var updated: Option<nat> := None;
    ghost var d0 := distance[..];
    assert d0 == seq(net.assets, _ => 0);
    assert previous[..] == seq(net.assets, _ => None);
    for round := 0 to net.assets
      invariant Searching(net, d0, distance[..], previous[..], updated, round)
      invariant round == 0 ==> updated.None?
      invariant old(meter.used) <= meter.used <= old(meter.used) + round * net.Arcs()
    {
      ghost var d, prev, last := distance[..], previous[..], updated;
      SearchingParts(net, d0, d, prev, updated, round);
      var ok;
      ok, updated := RelaxAll(net, distance, previous, round * net.Arcs(), meter);
      OneMoreRound(round, net.assets, net.Arcs());
      if !ok {
        return Err(WorkLimit);
      }
      if updated.None? {
        FixpointIsPotential(net, d, distance[..], round * net.Arcs());
        return Ok(None);
      }
      KeepSearching(net, d0, d, distance[..], prev, previous[..], last, updated, round);
      d0 := d;
    }
    if updated.None? {
      SearchingParts(net, d0, distance[..], previous[..], updated, net.assets);
      return Err(Arithmetic);
    }
    SearchingParts(net, d0, distance[..], previous[..], updated, net.assets);
    ghost var p := SearchFindsCycle(net, d0, distance[..], previous[..], updated);
    var start := WalkBack(net, previous, updated.value, net.assets);
    var cycle := CollectCycle(net, previous, start.value, p);
    r := Ok(Some(cycle.value));
  }
}
