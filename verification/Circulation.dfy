/** Circulations within order capacities: pushing flow around a residual cycle,
    and the maximality certificate given by Bellman-Ford labels. */
module Circulation {
  import opened Base
  import opened Sums
  import opened ResidualGraph

  function Sells(orders: seq<FlowIntent>): (keys: seq<nat>)
    ensures |keys| == |orders|
  {
    seq(|orders|, i requires 0 <= i < |orders| => orders[i].sell)
  }

  function Buys(orders: seq<FlowIntent>): (keys: seq<nat>)
    ensures |keys| == |orders|
  {
    seq(|orders|, i requires 0 <= i < |orders| => orders[i].buy)
  }

  /** As much of every asset is bought as is sold. */
  ghost predicate Balanced(orders: seq<FlowIntent>, x: seq<int>) {
    && |x| == |orders|
    && forall a: nat :: Tally(Sells(orders), x, a) == Tally(Buys(orders), x, a)
  }

  ghost predicate IsCirculation(orders: seq<FlowIntent>, capacities: seq<nat>, x: seq<nat>) {
    && |x| == |orders| == |capacities|
    && (forall i :: 0 <= i < |x| ==> x[i] <= capacities[i])
    && Balanced(orders, x)
  }

  /** No circulation within the same capacities moves more. */
  ghost predicate IsMaximum(orders: seq<FlowIntent>, capacities: seq<nat>, x: seq<nat>) {
    && IsCirculation(orders, capacities, x)
    && forall g: seq<nat> :: IsCirculation(orders, capacities, g) ==> Sum(g) <= Sum(x)
  }

  // ---------------------------------------------------------------- maximality

  /** Moving one order by x away from the current flow cannot gain more than the
      labels of its two assets charge for it. */
  lemma ReducedCostOfOrder(net: Network, d: seq<int>, i: nat, x: int)
    requires net.Valid() && Potential(net, d) && i < |net.orders|
    requires 0 <= net.flows[i] + x <= net.capacities[i]
    ensures x + x * d[net.orders[i].sell] - x * d[net.orders[i].buy] <= 0
  {
    var forward, reverse := net.ArcAt(2 * i), net.ArcAt(2 * i + 1);
    var slack := 1 + d[net.orders[i].sell] - d[net.orders[i].buy];
    if x > 0 {
      assert forward.cap > 0;
      MulSigns(x, -slack);
    } else if x < 0 {
      assert reverse.cap > 0;
      MulSigns(-x, slack);
    }
    assert x * slack <= 0;
    assert x * slack == x + x * d[net.orders[i].sell] - x * d[net.orders[i].buy];
  }

  lemma {:induction false} ReducedCost(net: Network, d: seq<int>, g: seq<nat>, x: seq<int>, n: nat)
    requires net.Valid() && Potential(net, d)
    requires |g| == |net.orders| == |x| && n <= |x|
    requires forall i :: 0 <= i < |x| ==> g[i] <= net.capacities[i] && x[i] + net.flows[i] == g[i]
    ensures Sum(x[..n]) + Dot(Sells(net.orders)[..n], x[..n], d) - Dot(Buys(net.orders)[..n], x[..n], d) <= 0
    decreases n
  {
    hide Potential, Network.ArcAt;
    if n > 0 {
      var i := n - 1;
      ReducedCost(net, d, g, x, i);
      ReducedCostOfOrder(net, d, i, x[i]);
      assert x[..n][..i] == x[..i];
      assert Sells(net.orders)[..n][..i] == Sells(net.orders)[..i];
      assert Buys(net.orders)[..n][..i] == Buys(net.orders)[..i];
    }
  }

  lemma MulSigns(a: int, b: int)
    requires a >= 0 && b >= 0
    ensures a * b >= 0
  {
  }

  lemma BalancedDifference(orders: seq<FlowIntent>, g: seq<int>, f: seq<int>, x: seq<int>)
    requires Balanced(orders, g) && Balanced(orders, f) && |x| == |f|
    requires forall i :: 0 <= i < |x| ==> x[i] + f[i] == g[i]
    ensures Balanced(orders, x)
  {
    forall a: nat
      ensures Tally(Sells(orders), x, a) == Tally(Buys(orders), x, a)
    {
      TallyAdd(Sells(orders), f, x, g, a);
      TallyAdd(Buys(orders), f, x, g, a);
    }
  }

  /** Labels that no residual arc can raise prove the flow maximal. */
  lemma PotentialCertifies(net: Network, d: seq<int>, g: seq<nat>)
    requires net.Valid() && Potential(net, d) && Balanced(net.orders, net.flows)
    requires IsCirculation(net.orders, net.capacities, g)
    ensures Sum(g) <= Sum(net.flows)
  {
    var x: seq<int> := seq(|g|, i requires 0 <= i < |g| => g[i] as int - net.flows[i]);
    BalancedDifference(net.orders, g, net.flows, x);
    ReducedCost(net, d, g, x, |x|);
    assert x[..|x|] == x;
    assert Sells(net.orders)[..|x|] == Sells(net.orders) && Buys(net.orders)[..|x|] == Buys(net.orders);
    DotBalanced(Sells(net.orders), Buys(net.orders), x, d);
    SumAdd(net.flows, x, g);
  }

  // ---------------------------------------------------------------- pivoting

  /** Pushing delta along a chain of residual arcs. */
  ghost function Push(net: Network, chain: seq<nat>, delta: nat): (x: seq<int>)
    requires net.Valid()
    requires forall k :: 0 <= k < |chain| ==> chain[k] < net.Arcs()
    ensures |x| == |net.orders|
  {
    if |chain| == 0 then net.flows
    else
      var n := |chain| - 1;
      var e := net.ArcAt(chain[n]);
      var x := Push(net, chain[..n], delta);
      x[e.order := if e.reverse then x[e.order] - delta else x[e.order] + delta]
  }

  lemma {:induction false} PushSum(net: Network, chain: seq<nat>, delta: nat)
    requires net.Valid()
    requires forall k :: 0 <= k < |chain| ==> chain[k] < net.Arcs()
    ensures Sum(Push(net, chain, delta)) == Sum(net.flows) + delta * CycleCost(net, chain)
  {
    if |chain| > 0 {
      var n := |chain| - 1;
      PushSum(net, chain[..n], delta);
      var e := net.ArcAt(chain[n]);
      var x := Push(net, chain[..n], delta);
      SumUpdate(x, e.order, if e.reverse then x[e.order] - delta else x[e.order] + delta);
      assert delta * (CycleCost(net, chain[..n]) + e.cost) == delta * CycleCost(net, chain[..n]) + delta * e.cost;
    }
  }

  ghost function Surplus(orders: seq<FlowIntent>, x: seq<int>, a: nat): int
    requires |x| == |orders|
  {
    Tally(Sells(orders), x, a) - Tally(Buys(orders), x, a)
  }

  /** Along a chain only the two end vertices can gain or lose. */
  lemma {:induction false} PushSurplus(net: Network, chain: seq<nat>, delta: nat, a: nat)
    requires net.Valid() && IsChain(net, chain) && |chain| > 0
    ensures Surplus(net.orders, Push(net, chain, delta), a) ==
            Surplus(net.orders, net.flows, a)
            + (if net.ArcAt(chain[|chain| - 1]).from == a then delta else 0)
            - (if net.ArcAt(chain[0]).to == a then delta else 0)
  {
    hide *;
    var n := |chain| - 1;
    ChainStep(net, chain);
    StepSurplus(net, chain, delta, a);
    if n > 0 {
      PushSurplus(net, chain[..n], delta, a);
      assert chain[..n][n - 1] == chain[n - 1] && chain[..n][0] == chain[0];
    } else {
      NothingPushed(net, chain[..0], delta);
    }
  }

  lemma NothingPushed(net: Network, chain: seq<nat>, delta: nat)
    requires net.Valid() && chain == []
    ensures Push(net, chain, delta) == net.flows
  {
  }

  /** A chain without its last arc is a chain, and the last arc ends where it started. */
  lemma ChainStep(net: Network, chain: seq<nat>)
    requires net.Valid() && IsChain(net, chain) && |chain| > 0
    ensures var n := |chain| - 1;
            && (forall k :: 0 <= k < |chain| ==> chain[k] < net.Arcs())
            && |net.flows| == |net.orders|
            && IsChain(net, chain[..n]) && (n > 0 ==> net.ArcAt(chain[n - 1]).from == net.ArcAt(chain[n]).to)
  {
    hide Network.ArcAt;
  }

  /** One more arc moves delta from the asset where it ends to the one where it starts. */
  lemma StepSurplus(net: Network, chain: seq<nat>, delta: nat, a: nat)
    requires net.Valid() && |chain| > 0 && forall k :: 0 <= k < |chain| ==> chain[k] < net.Arcs()
    ensures var n := |chain| - 1;
            Surplus(net.orders, Push(net, chain, delta), a) == Surplus(net.orders, Push(net, chain[..n], delta), a)
              + (if net.ArcAt(chain[n]).from == a then delta else 0) - (if net.ArcAt(chain[n]).to == a then delta else 0)
  {
    hide Tally;
    var n := |chain| - 1;
    var e := net.ArcAt(chain[n]);
    var x := Push(net, chain[..n], delta);
    var v := if e.reverse then x[e.order] - delta else x[e.order] + delta;
    TallyUpdate(Sells(net.orders), x, e.order, v, a);
    TallyUpdate(Buys(net.orders), x, e.order, v, a);
  }

  /** A cycle of positive cost never uses both arcs of one order. */
  lemma OrdersDiffer(net: Network, cycle: seq<nat>, a: nat, b: nat)
    requires net.Valid() && IsImprovingCycle(net, cycle) && a < b < |cycle|
    ensures net.ArcAt(cycle[a]).order != net.ArcAt(cycle[b]).order
  {
    var e, f := net.ArcAt(cycle[a]), net.ArcAt(cycle[b]);
    assert e.from == net.ArcAt(cycle[a + 1]).to;
    var next := if b + 1 < |cycle| then b + 1 else 0;
    assert f.from == net.ArcAt(cycle[next]).to;
    if e.order == f.order {
      assert e.to != f.to;
      assert cycle[a] / 2 == cycle[b] / 2 && cycle[a] % 2 != cycle[b] % 2;
      assert e.from == f.to && e.to == f.from && e.cost + f.cost == 0;
      assert b == a + 1;
      assert next == a;
      TwoArcCost(net, cycle);
      assert false;
    }
  }

  lemma TwoArcCost(net: Network, chain: seq<nat>)
    requires net.Valid() && |chain| == 2 && chain[0] < net.Arcs() && chain[1] < net.Arcs()
    ensures CycleCost(net, chain) == net.ArcAt(chain[0]).cost + net.ArcAt(chain[1]).cost
  {
    assert chain[..1][..0] == [];
    assert CycleCost(net, chain[..1]) == net.ArcAt(chain[0]).cost;
  }

  /** Each order on the chain moves by delta, the others not at all. */
  lemma {:induction false} PushValues(net: Network, chain: seq<nat>, delta: nat, i: nat)
    requires net.Valid() && i < |net.orders|
    requires forall k :: 0 <= k < |chain| ==> chain[k] < net.Arcs()
    requires forall a, b :: 0 <= a < b < |chain| ==> net.ArcAt(chain[a]).order != net.ArcAt(chain[b]).order
    ensures forall k :: 0 <= k < |chain| && net.ArcAt(chain[k]).order == i ==>
              Push(net, chain, delta)[i] ==
              if net.ArcAt(chain[k]).reverse then net.flows[i] - delta else net.flows[i] + delta
    ensures (forall k :: 0 <= k < |chain| ==> net.ArcAt(chain[k]).order != i) ==>
              Push(net, chain, delta)[i] == net.flows[i]
  {
    if |chain| > 0 {
      var n := |chain| - 1;
      PushValues(net, chain[..n], delta, i);
      assert forall k :: 0 <= k < n ==> chain[..n][k] == chain[k];
    }
  }

  ghost predicate WithinCaps(net: Network, chain: seq<nat>, delta: nat)
    requires net.Valid()
    requires forall k :: 0 <= k < |chain| ==> chain[k] < net.Arcs()
  {
    forall k :: 0 <= k < |chain| ==> delta <= net.ArcAt(chain[k]).cap
  }

  ghost predicate InBounds(capacities: seq<nat>, x: seq<int>) {
    |x| == |capacities| && forall i :: 0 <= i < |x| ==> 0 <= x[i] <= capacities[i]
  }

  /** Even half-way round the cycle no flow leaves its bounds. */
  lemma PushStaysInBounds(net: Network, cycle: seq<nat>, delta: nat, n: nat)
    requires net.Valid() && IsImprovingCycle(net, cycle) && n <= |cycle|
    requires WithinCaps(net, cycle, delta)
    ensures InBounds(net.capacities, Push(net, cycle[..n], delta))
  {
    var x := Push(net, cycle[..n], delta);
    forall a, b | 0 <= a < b < n
      ensures net.ArcAt(cycle[..n][a]).order != net.ArcAt(cycle[..n][b]).order
    {
      OrdersDiffer(net, cycle, a, b);
    }
    forall i | 0 <= i < |x|
      ensures 0 <= x[i] <= net.capacities[i]
    {
      PushValues(net, cycle[..n], delta, i);
      if k :| 0 <= k < n && net.ArcAt(cycle[..n][k]).order == i {
        assert delta <= net.ArcAt(cycle[k]).cap;
      }
    }
  }

  /** Pushing around a closed chain leaves every asset balanced. */
  lemma PushKeepsBalance(net: Network, cycle: seq<nat>, delta: nat)
    requires net.Valid() && IsSimpleCycle(net, cycle) && Balanced(net.orders, net.flows)
    ensures Balanced(net.orders, Push(net, cycle, delta))
  {
    var x := Push(net, cycle, delta);
    forall a: nat
      ensures Tally(Sells(net.orders), x, a) == Tally(Buys(net.orders), x, a)
    {
      PushSurplus(net, cycle, delta, a);
      assert Tally(Sells(net.orders), net.flows, a) == Tally(Buys(net.orders), net.flows, a);
    }
  }

  /** A pivot gives a circulation that moves at least delta more. */
  lemma PivotImproves(net: Network, cycle: seq<nat>, delta: nat, x: seq<nat>)
    requires net.Valid() && IsImprovingCycle(net, cycle) && delta > 0 && WithinCaps(net, cycle, delta)
    requires IsCirculation(net.orders, net.capacities, net.flows)
    requires x == Push(net, cycle, delta)
    ensures IsCirculation(net.orders, net.capacities, x)
    ensures Sum(x) >= Sum(net.flows) + delta
  {
    PushStaysInBounds(net, cycle, delta, |cycle|);
    assert cycle[..|cycle|] == cycle;
    PushKeepsBalance(net, cycle, delta);
    PushSum(net, cycle, delta);
    MulSigns(delta, CycleCost(net, cycle) - 1);
    assert delta * CycleCost(net, cycle) == delta + delta * (CycleCost(net, cycle) - 1);
  }

  /** A flow with an improving residual cycle is not maximal. */
  lemma ImprovingCycleRefutes(net: Network, cycle: seq<nat>)
    requires net.Valid() && IsImprovingCycle(net, cycle)
    requires IsCirculation(net.orders, net.capacities, net.flows)
    ensures !IsMaximum(net.orders, net.capacities, net.flows)
  {
    assert WithinCaps(net, cycle, 1);
    PushStaysInBounds(net, cycle, 1, |cycle|);
    assert cycle[..|cycle|] == cycle;
    var y := Push(net, cycle, 1);
    var x: seq<nat> := seq(|y|, i requires 0 <= i < |y| => y[i]);
    assert x == y;
    PivotImproves(net, cycle, 1, x);
  }

  lemma PotentialMeansMaximum(net: Network)
    requires net.Valid() && IsCirculation(net.orders, net.capacities, net.flows)
    requires exists d :: Potential(net, d)
    ensures IsMaximum(net.orders, net.capacities, net.flows)
  {
    var d :| Potential(net, d);
    forall g: seq<nat> | IsCirculation(net.orders, net.capacities, g)
      ensures Sum(g) <= Sum(net.flows)
    {
      PotentialCertifies(net, d, g);
    }
  }
}
