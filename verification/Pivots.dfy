/** The pivot loop shared by both folding routines: augment the flow around
    improving cycles until none is left or the pivot bound is hit. */
module Pivots {
  import opened Base
  import opened Products
  import opened Sums
  import opened ResidualGraph
  import opened Circulation

  datatype PivotReport = PivotReport(pivots: nat, reversePivots: nat, optimal: bool)

  ghost predicate ArcsOf(net: Network, cycle: seq<nat>)
    requires net.Valid()
  {
    forall k :: 0 <= k < |cycle| ==> cycle[k] < net.Arcs()
  }

  /** The smallest capacity on the chain. */
  function Bottleneck(net: Network, chain: seq<nat>): nat
    requires net.Valid() && ArcsOf(net, chain)
  {
    if |chain| == 0 then U128_MAX
    else
      var n := |chain| - 1;
      Min(Bottleneck(net, chain[..n]), net.ArcAt(chain[n]).cap)
  }

  predicate UsesReverse(net: Network, chain: seq<nat>)
    requires net.Valid() && ArcsOf(net, chain)
  {
    |chain| > 0 && (UsesReverse(net, chain[..|chain| - 1]) || net.ArcAt(chain[|chain| - 1]).reverse)
  }

  lemma {:induction false} BottleneckIsLeast(net: Network, chain: seq<nat>)
    requires net.Valid() && IsChain(net, chain)
    ensures Bottleneck(net, chain) > 0 && WithinCaps(net, chain, Bottleneck(net, chain))
    ensures Bottleneck(net, chain) < U128_MAX ==>
              exists k :: 0 <= k < |chain| && net.ArcAt(chain[k]).cap == Bottleneck(net, chain)
  {
    if |chain| > 0 {
      BottleneckIsLeast(net, chain[..|chain| - 1]);
      assert forall k :: 0 <= k < |chain| - 1 ==> chain[..|chain| - 1][k] == chain[k];
    }
  }

  /** Bottleneck, total cost and use of reverse arcs of a cycle. */
  method Measure(net: Network, cycle: seq<nat>) returns (delta: nat, cost: int, reverse: bool)
    requires net.Valid() && ArcsOf(net, cycle)
    ensures delta == Bottleneck(net, cycle)
    ensures cost == CycleCost(net, cycle)
    ensures reverse == UsesReverse(net, cycle)
  {
    hide Network.Valid, Network.ArcAt;
    delta, cost, reverse := U128_MAX, 0, false;
    for k := 0 to |cycle|
      invariant delta == Bottleneck(net, cycle[..k])
      invariant cost == CycleCost(net, cycle[..k])
      invariant reverse == UsesReverse(net, cycle[..k])
    {
      var e := net.ArcAt(cycle[k]);
      assert cycle[..k + 1][..k] == cycle[..k];
      delta := Min(delta, e.cap);
      cost := cost + e.cost;
      reverse := reverse || e.reverse;
    }
    assert cycle[..|cycle|] == cycle;
  }

  lemma CycleArcs(net: Network, cycle: seq<nat>)
    requires net.Valid() && IsImprovingCycle(net, cycle)
    ensures forall k :: 0 <= k < |cycle| ==> cycle[k] < net.Arcs()
  {
  }

  lemma PushNone(net: Network, cycle: seq<nat>, delta: nat)
    requires net.Valid()
    ensures cycle[..0] == [] && Push(net, cycle[..0], delta) == net.flows
  {
  }

  /** One more arc of the cycle moves the flow of its order by delta, within bounds. */
  lemma PushNext(net: Network, cycle: seq<nat>, delta: nat, k: nat)
    requires net.Valid() && IsImprovingCycle(net, cycle) && WithinCaps(net, cycle, delta) && k < |cycle|
    ensures forall j :: 0 <= j < |cycle| ==> cycle[j] < net.Arcs()
    ensures var e, x := net.ArcAt(cycle[k]), Push(net, cycle[..k], delta);
            var v := if e.reverse then x[e.order] - delta else x[e.order] + delta;
            e.order < |x| && v >= 0 && Push(net, cycle[..k + 1], delta) == x[e.order := v]
  {
    hide WithinCaps, Network.ArcAt;
    CycleArcs(net, cycle);
    PushStaysInBounds(net, cycle, delta, k + 1);
    assert cycle[..k + 1][..k] == cycle[..k];
    var e, x := net.ArcAt(cycle[k]), Push(net, cycle[..k], delta);
    assert Push(net, cycle[..k + 1], delta)[e.order] == if e.reverse then x[e.order] - delta else x[e.order] + delta;
  }

  /** Push the bottleneck around the cycle, one order at a time. */
  method Augment(net: Network, cycle: seq<nat>, flows: array<nat>, delta: nat)
    requires net.Valid() && IsImprovingCycle(net, cycle)
    requires WithinCaps(net, cycle, delta) && flows[..] == net.flows
    modifies flows
    ensures flows[..] == Push(net, cycle, delta)
  {
    hide *;
    CycleArcs(net, cycle);
    PushNone(net, cycle, delta);
    for k := 0 to |cycle|
      invariant flows[..] == Push(net, cycle[..k], delta)
    {
      ghost var x := flows[..];
      var e := net.ArcAt(cycle[k]);
      PushNext(net, cycle, delta, k);
      flows[e.order] := if e.reverse then flows[e.order] - delta else flows[e.order] + delta;
      assert flows[..] == x[e.order := flows[e.order]];
    }
    assert cycle[..|cycle|] == cycle;
  }

  /** One pivot. It is guarded by an arithmetic error that never occurs. */
  method Pivot(net: Network, cycle: seq<nat>, flows: array<nat>) returns (r: Result<bool>)
    requires net.Valid() && IsImprovingCycle(net, cycle)
    requires IsCirculation(net.orders, net.capacities, net.flows) && flows[..] == net.flows
    modifies flows
    ensures r.Ok? && r.value == UsesReverse(net, cycle)
    ensures flows[..] == Push(net, cycle, Bottleneck(net, cycle))
    ensures IsCirculation(net.orders, net.capacities, flows[..])
    ensures Sum(flows[..]) >= Sum(net.flows) + 1
  {
    BottleneckIsLeast(net, cycle);
    var delta, cost, reverse := Measure(net, cycle);
    if cost <= 0 || delta == 0 {
      return Err(Arithmetic);
    }
    Augment(net, cycle, flows, delta);
    PivotImproves(net, cycle, delta, flows[..]);
    return Ok(reverse);
  }

  /** The work one run may cost: every search looks at each arc once per asset. */
  function SearchWork(orders: nat, assets: nat): nat {
    assets * (2 * orders)
  }

  ghost predicate Endpoints(orders: seq<FlowIntent>, assets: nat) {
    forall i :: 0 <= i < |orders| ==> orders[i].sell < assets && orders[i].buy < assets
  }

  lemma NetworkOf(orders: seq<FlowIntent>, capacities: seq<nat>, flows: seq<nat>, assets: nat)
    requires Endpoints(orders, assets) && IsCirculation(orders, capacities, flows)
    ensures Network(orders, capacities, flows, assets).Valid()
  {
  }

  /** Pivot until no improving cycle is left or `maxPivots` pivots were made; the
      report says "optimal" exactly when the final flow is maximal. */
  method RunPivots(
    orders: seq<FlowIntent>, capacities: seq<nat>, flows: array<nat>, assets: nat, maxPivots: nat, meter: WorkMeter)
    returns (r: Result<PivotReport>)
    requires Endpoints(orders, assets) && assets > 0
    requires IsCirculation(orders, capacities, flows[..])
    modifies flows, meter`used
    ensures IsCirculation(orders, capacities, flows[..])
    ensures r.Ok? ==> (r.value.optimal <==> IsMaximum(orders, capacities, flows[..]))
    ensures r.Ok? ==> Sum(flows[..]) >= Sum(old(flows[..])) + r.value.pivots
    ensures r.Ok? ==> r.value.reversePivots <= r.value.pivots <= maxPivots
    ensures r.Ok? && !r.value.optimal ==> r.value.pivots == maxPivots
    ensures r.Err? ==> r.error.WorkLimit?
    ensures r.Err? ==> old(meter.used) + (maxPivots + 1) * SearchWork(|orders|, assets) > meter.limit
  {
    hide IsCirculation, IsMaximum, Endpoints, SearchWork;
    ghost var start, work := Sum(flows[..]), SearchWork(|orders|, assets);
    var pivots, reversePivots, optimal := 0, 0, false;
    while pivots < maxPivots && !optimal
      invariant reversePivots <= pivots <= maxPivots
      invariant IsCirculation(orders, capacities, flows[..])
      invariant Sum(flows[..]) >= start + pivots
      invariant optimal ==> IsMaximum(orders, capacities, flows[..])
      invariant !optimal ==> old(meter.used) <= meter.used <= old(meter.used) + pivots * work
      decreases maxPivots - pivots, !optimal
    {
      var found := Search(orders, capacities, flows, assets, meter);
      OneMoreRound(pivots, maxPivots + 1, work);
      if found.Err? {
        return Err(found.error);
      }
      if found.value.None? {
        optimal := true;
      } else {
        var reverse := Pivot(Network(orders, capacities, flows[..], assets), found.value.value, flows);
        pivots := pivots + 1;
        reversePivots := reversePivots + if reverse.value then 1 else 0;
      }
    }
    if !optimal {
      var found := Search(orders, capacities, flows, assets, meter);
      OneMoreRound(pivots, maxPivots + 1, work);
      if found.Err? {
        return Err(found.error);
      }
      optimal := found.value.None?;
    }
    return Ok(PivotReport(pivots, reversePivots, optimal));
  }

  /** One cycle search on the current flow, with what its answer means. */
  method Search(orders: seq<FlowIntent>, capacities: seq<nat>, flows: array<nat>, assets: nat, meter: WorkMeter)
    returns (r: Result<Option<seq<nat>>>)
    requires Endpoints(orders, assets) && assets > 0
    requires IsCirculation(orders, capacities, flows[..])
    modifies meter`used
    ensures r.Ok? && r.value.None? ==> IsMaximum(orders, capacities, flows[..])
    ensures r.Ok? && r.value.Some? ==>
              var net := Network(orders, capacities, flows[..], assets);
              net.Valid() && IsImprovingCycle(net, r.value.value) && !IsMaximum(orders, capacities, flows[..])
    ensures old(meter.used) <= meter.used <= old(meter.used) + SearchWork(|orders|, assets)
    ensures r.Err? ==> r.error.WorkLimit? && old(meter.used) + SearchWork(|orders|, assets) > meter.limit
  {
    hide IsCirculation, IsMaximum, Endpoints, IsImprovingCycle, Potential;
    NetworkOf(orders, capacities, flows[..], assets);
    var net := Network(orders, capacities, flows[..], assets);
    r := ImprovingCycle(net, meter);
    assert flows[..] == net.flows;
    if r.Ok? {
      if r.value.Some? {
        ImprovingCycleRefutes(net, r.value.value);
      } else {
        PotentialMeansMaximum(net);
      }
    }
  }
}
