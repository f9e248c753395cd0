/** What the two folds achieve, in terms of the fills alone: no other exchange of the
    same orders at the same prices, or on the same lots, clears more. */
module Clearing {
  import opened Base
  import opened Products
  import opened Sums
  import opened ResidualGraph
  import opened Circulation
  import opened Multiples
  import opened Lots
  import opened Fold
  import opened FoldLots

  // ---------------------------------------------------------------- flows and fills

  /** Flows whose lots conserve every token are balanced. */
  lemma ConservedFlows(orders: seq<FlowIntent>, lots: seq<nat>, flows: seq<nat>)
    requires OnLattice(orders, lots) && |flows| == |orders|
    requires Conserves(orders, FillsOf(orders, lots, flows))
    ensures Balanced(orders, flows)
  {
    var fills := FillsOf(orders, lots, flows);
    forall a: nat
      ensures Tally(Sells(orders), flows, a) == Tally(Buys(orders), flows, a)
    {
      if a < |lots| {
        TallyScale(Sells(orders), flows, Inputs(fills), a, lots[a]);
        TallyScale(Buys(orders), flows, Outputs(fills), a, lots[a]);
        Cancel(Tally(Sells(orders), flows, a), Tally(Buys(orders), flows, a), lots[a]);
        Cancel(Tally(Buys(orders), flows, a), Tally(Sells(orders), flows, a), lots[a]);
      } else {
        TallyAbsent(Sells(orders), flows, a);
        TallyAbsent(Buys(orders), flows, a);
      }
    }
  }

  // ---------------------------------------------------------------- at fixed prices

  /** One order's part in an exchange at fixed prices: within its amount, only if the
      prices meet its whole limit, value for value, in whole quanta. */
  ghost predicate PricedFill(o: FlowIntent, prices: seq<nat>, quantum: nat, f: FoldFill)
    requires quantum > 0
  {
    && o.sell < |prices| && o.buy < |prices|
    && f.input <= o.amount
    && (f.input > 0 ==> o.amount * prices[o.sell] >= o.minOut * prices[o.buy])
    && f.input * prices[o.sell] == f.output * prices[o.buy]
    && (f.input * prices[o.sell]) % quantum == 0
  }

  /** An exchange of these orders at these prices that conserves every token. */
  ghost predicate IsExchange(orders: seq<FlowIntent>, prices: seq<nat>, quantum: nat, fills: seq<FoldFill>)
    requires quantum > 0
  {
    && Conserves(orders, fills)
    && forall i :: 0 <= i < |orders| ==> PricedFill(orders[i], prices, quantum, fills[i])
  }

  ghost function Values(orders: seq<FlowIntent>, prices: seq<nat>, fills: seq<FoldFill>): (values: seq<nat>)
    requires |orders| == |fills| && forall i :: 0 <= i < |orders| ==> orders[i].sell < |prices|
    ensures |values| == |orders|
  {
    seq(|orders|, i requires 0 <= i < |orders| => fills[i].input * prices[orders[i].sell])
  }

  /** A filled value in whole quanta is a flow within the order's capacity, and the fill
      is that flow's. */
  lemma FlowOfFill(o: FlowIntent, prices: seq<nat>, f: FoldFill)
    requires AllPositive(prices) && LcmAll(prices) > 0 && PricedFill(o, prices, LcmAll(prices), f)
    ensures var flow := f.input * prices[o.sell] / LcmAll(prices);
            && flow <= PriceCapacity(o, prices, LcmAll(prices))
            && flow * LcmAll(prices) == f.input * prices[o.sell]
            && f == FillOf(o, PriceLots(prices), flow)
  {
    var q, ps, pb, lots := LcmAll(prices), prices[o.sell], prices[o.buy], PriceLots(prices);
    PriceLotsExact(prices, o.sell);
    PriceLotsExact(prices, o.buy);
    hide LcmAll;
    var flow := f.input * ps / q;
    WholeQuanta(f.input * ps, q);
    SameAtoms(f.input, ps, lots[o.sell], flow);
    SameAtoms(f.output, pb, lots[o.buy], flow);
    if f.input > 0 {
      Mono(f.input, o.amount, ps);
      QuotientMonotone(f.input * ps, o.amount * ps, q);
    } else {
      NoFlow(ps, q);
    }
  }

  lemma NoFlow(ps: nat, q: nat)
    requires q > 0
    ensures 0 * ps / q == 0
  {
  }

  lemma WholeQuanta(value: nat, q: nat)
    requires q > 0 && value % q == 0
    ensures value / q * q == value
  {
  }

  lemma QuotientMonotone(a: nat, b: nat, q: nat)
    requires a <= b && q > 0
    ensures a / q <= b / q
  {
    FloorBounds(b, q);
    FloorBounds(a, q);
    if a / q > b / q {
      Mono(b / q + 1, a / q, q);
      assert false;
    }
  }

  lemma SameAtoms(atoms: nat, price: nat, lot: nat, flow: nat)
    requires price > 0 && atoms * price == flow * (price * lot)
    ensures atoms == flow * lot
  {
    Shuffle(flow, lot, price);
    assert flow * (price * lot) == flow * lot * price;
    Cancel(atoms, flow * lot, price);
    Cancel(flow * lot, atoms, price);
  }

  /** Every exchange comes from a circulation that moves its value. */
  lemma FlowsOfExchange(orders: seq<FlowIntent>, prices: seq<nat>, fills: seq<FoldFill>) returns (flows: seq<nat>)
    requires AllPositive(prices) && LcmAll(prices) > 0 && IsExchange(orders, prices, LcmAll(prices), fills)
    ensures Priced(orders, prices, |orders|)
    ensures IsCirculation(orders, PriceCapacities(orders, prices, LcmAll(prices), |orders|), flows)
    ensures |fills| == |orders| && Worth(LcmAll(prices), flows) == Sum(Values(orders, prices, fills))
  {
    var q, lots := LcmAll(prices), PriceLots(prices);
    hide LcmAll, PriceCapacity, PricedFill, PriceLots, Sum;
    ExchangePriced(orders, prices, q, fills);
    flows := seq(|orders|, i requires 0 <= i < |orders| => fills[i].input * prices[orders[i].sell] / q);
    PricesOnLattice(orders, prices);
    forall i | 0 <= i < |orders|
      ensures flows[i] <= PriceCapacity(orders[i], prices, q)
      ensures Values(orders, prices, fills)[i] == flows[i] * q && FillsOf(orders, lots, flows)[i] == fills[i]
    {
      FlowOfFill(orders[i], prices, fills[i]);
    }
    assert FillsOf(orders, lots, flows) == fills;
    ConservedFlows(orders, lots, flows);
    SumScale(flows, Values(orders, prices, fills), q);
  }

  lemma ExchangePriced(orders: seq<FlowIntent>, prices: seq<nat>, quantum: nat, fills: seq<FoldFill>)
    requires quantum > 0 && IsExchange(orders, prices, quantum, fills)
    ensures |fills| == |orders| && Priced(orders, prices, |orders|)
  {
    forall i | 0 <= i < |orders|
      ensures orders[i].sell < |prices| && orders[i].buy < |prices|
    {
      assert PricedFill(orders[i], prices, quantum, fills[i]);
    }
  }

  /** A flow within an order's capacity fills it as an exchange may. */
  lemma FillOfFlow(o: FlowIntent, prices: seq<nat>, flow: nat)
    requires AllPositive(prices) && LcmAll(prices) > 0 && o.sell < |prices| && o.buy < |prices|
    requires flow <= PriceCapacity(o, prices, LcmAll(prices))
    ensures PricedFill(o, prices, LcmAll(prices), FillOf(o, PriceLots(prices), flow))
    ensures FillOf(o, PriceLots(prices), flow).input * prices[o.sell] == flow * LcmAll(prices)
  {
    var q, ps, pb, lots := LcmAll(prices), prices[o.sell], prices[o.buy], PriceLots(prices);
    PriceLotsExact(prices, o.sell);
    PriceLotsExact(prices, o.buy);
    PriceCapacityAdmitted(o, prices);
    FillMeetsLimit(o, lots, PriceCapacity(o, prices, q), flow);
    hide LcmAll;
    Regroup(flow, ps, lots[o.sell]);
    Regroup(flow, pb, lots[o.buy]);
    Multiple(flow, q);
    if flow == 0 {
      NoFlow(lots[o.sell], 1);
    }
  }

  lemma Regroup(flow: nat, price: nat, lot: nat)
    ensures flow * lot * price == flow * (price * lot)
  {
  }

  lemma Multiple(flow: nat, q: nat)
    requires q > 0
    ensures (flow * q) % q == 0
  {
    MultipleOf(q, flow);
  }

  /** Every circulation is an exchange of its value. */
  lemma ExchangeOfFlows(orders: seq<FlowIntent>, prices: seq<nat>, flows: seq<nat>)
    requires AllPositive(prices) && LcmAll(prices) > 0 && Priced(orders, prices, |orders|)
    requires IsCirculation(orders, PriceCapacities(orders, prices, LcmAll(prices), |orders|), flows)
    ensures OnLattice(orders, PriceLots(prices))
    ensures var fills := FillsOf(orders, PriceLots(prices), flows);
            && IsExchange(orders, prices, LcmAll(prices), fills)
            && Sum(Values(orders, prices, fills)) == Worth(LcmAll(prices), flows)
  {
    var q, lots := LcmAll(prices), PriceLots(prices);
    PricesOnLattice(orders, prices);
    hide LcmAll, PriceCapacity, PricedFill, PriceLots, Sum;
    var fills := FillsOf(orders, lots, flows);
    forall i | 0 <= i < |orders|
      ensures PricedFill(orders[i], prices, q, fills[i]) && Values(orders, prices, fills)[i] == flows[i] * q
    {
      FillOfFlow(orders[i], prices, flows[i]);
    }
    LotsConserve(orders, lots, flows);
    SumScale(flows, Values(orders, prices, fills), q);
  }

  /** The fills of a report are an exchange that clears the reported value, and the flag
      is set exactly when no exchange of the same orders at the same prices clears more. */
  lemma FoldIsBest(orders: seq<FlowIntent>, prices: seq<nat>, report: FoldReport)
    requires IsFolded(orders, prices, report)
    ensures report.valueQuantum > 0 && |orders| <= |report.fills|
    ensures forall i :: 0 <= i < |orders| ==> orders[i].sell < |prices|
    ensures IsExchange(orders, prices, report.valueQuantum, report.fills[..|orders|])
    ensures Sum(Values(orders, prices, report.fills[..|orders|])) == report.clearedValue
    ensures report.optimal <==>
              forall fills :: IsExchange(orders, prices, report.valueQuantum, fills) ==>
                |fills| == |orders| && Sum(Values(orders, prices, fills)) <= report.clearedValue
  {
    var flows: seq<nat> :| Reports(orders, prices, flows, report);
    OptimalFlagIsExact(orders, prices, report);
    hide LcmAll, PriceCapacities, PricedFill, IsCirculation, IsMaximum, Sum, FillsOf, Values, Worth;
    ExchangeOfFlows(orders, prices, flows);
    assert report.fills[..|orders|] == FillsOf(orders, PriceLots(prices), flows);
    if report.optimal {
      forall fills | IsExchange(orders, prices, report.valueQuantum, fills)
        ensures |fills| == |orders| && Sum(Values(orders, prices, fills)) <= report.clearedValue
      {
        var g := FlowsOfExchange(orders, prices, fills);
      }
    } else {
      var g: seq<nat> :| IsCirculation(orders, PriceCapacities(orders, prices, report.valueQuantum, |orders|), g)
                         && Worth(report.valueQuantum, g) > report.clearedValue;
      ExchangeOfFlows(orders, prices, g);
    }
  }

  // ---------------------------------------------------------------- on lots

  /** One order's part in an exchange on lots: within its amount, only if the lots meet
      its whole limit, lot for lot. */
  ghost predicate LotFill(o: FlowIntent, lots: seq<nat>, f: FoldFill) {
    && o.sell < |lots| && o.buy < |lots| && lots[o.sell] > 0 && lots[o.buy] > 0
    && f.input <= o.amount
    && (f.input > 0 ==> lots[o.buy] * o.amount >= lots[o.sell] * o.minOut)
    && f.input % lots[o.sell] == 0 && f.output % lots[o.buy] == 0
    && f.input / lots[o.sell] == f.output / lots[o.buy]
  }

  ghost predicate IsLotExchange(orders: seq<FlowIntent>, lots: seq<nat>, fills: seq<FoldFill>) {
    && Conserves(orders, fills)
    && forall i :: 0 <= i < |orders| ==> LotFill(orders[i], lots, fills[i])
  }

  ghost function LotCounts(orders: seq<FlowIntent>, lots: seq<nat>, fills: seq<FoldFill>): (counts: seq<nat>)
    requires IsLotExchange(orders, lots, fills)
    ensures |counts| == |orders|
  {
    seq(|orders|, i requires 0 <= i < |orders| =>
      assert LotFill(orders[i], lots, fills[i]); fills[i].input / lots[orders[i].sell])
  }

  lemma FlowOfLots(o: FlowIntent, lots: seq<nat>, f: FoldFill)
    requires LotFill(o, lots, f)
    ensures f.input / lots[o.sell] <= LotCapacity(o, lots)
    ensures f == FillOf(o, lots, f.input / lots[o.sell])
  {
    WholeQuanta(f.input, lots[o.sell]);
    WholeQuanta(f.output, lots[o.buy]);
    QuotientMonotone(f.input, o.amount, lots[o.sell]);
    if f.input == 0 {
      assert 0 / lots[o.sell] == 0;
    }
  }

  lemma LotsOfFlow(o: FlowIntent, lots: seq<nat>, flow: nat)
    requires o.sell < |lots| && o.buy < |lots| && lots[o.sell] > 0 && lots[o.buy] > 0
    requires flow <= LotCapacity(o, lots)
    ensures LotFill(o, lots, FillOf(o, lots, flow))
    ensures FillOf(o, lots, flow).input / lots[o.sell] == flow
  {
    LotCapacityAdmitted(o, lots);
    FillMeetsLimit(o, lots, LotCapacity(o, lots), flow);
    WholeLots(flow, lots[o.sell]);
    WholeLots(flow, lots[o.buy]);
    if flow == 0 {
      NoFlow(lots[o.sell], 1);
    }
  }

  lemma FlowsOfLotExchange(orders: seq<FlowIntent>, lots: seq<nat>, fills: seq<FoldFill>) returns (flows: seq<nat>)
    requires IsLotExchange(orders, lots, fills) && Sized(orders, lots, |orders|)
    ensures IsCirculation(orders, LotCapacities(orders, lots, |orders|), flows)
    ensures flows == LotCounts(orders, lots, fills)
  {
    flows := LotCounts(orders, lots, fills);
    hide LotCapacity, LotFill;
    forall i | 0 <= i < |orders|
      ensures flows[i] <= LotCapacity(orders[i], lots) && FillsOf(orders, lots, flows)[i] == fills[i]
    {
      assert LotFill(orders[i], lots, fills[i]);
      FlowOfLots(orders[i], lots, fills[i]);
    }
    assert FillsOf(orders, lots, flows) == fills;
    ConservedFlows(orders, lots, flows);
  }

  lemma LotExchangeOfFlows(orders: seq<FlowIntent>, lots: seq<nat>, flows: seq<nat>)
    requires Sized(orders, lots, |orders|)
    requires IsCirculation(orders, LotCapacities(orders, lots, |orders|), flows)
    ensures OnLattice(orders, lots) && IsLotExchange(orders, lots, FillsOf(orders, lots, flows))
    ensures LotCounts(orders, lots, FillsOf(orders, lots, flows)) == flows
  {
    hide LotCapacity, LotFill;
    var fills := FillsOf(orders, lots, flows);
    LotsConserve(orders, lots, flows);
    forall i | 0 <= i < |orders|
      ensures LotFill(orders[i], lots, fills[i]) && fills[i].input / lots[orders[i].sell] == flows[i]
    {
      LotsOfFlow(orders[i], lots, flows[i]);
    }
  }

  /** The same for a fold on lots: the flag is set exactly when no exchange of the same
      orders on the same lots clears more lots. */
  lemma LotFoldIsBest(orders: seq<FlowIntent>, lots: seq<nat>, report: LotFoldReport)
    requires IsLotFolded(orders, lots, report)
    ensures |orders| <= |report.fills| && IsLotExchange(orders, lots, report.fills[..|orders|])
    ensures Sum(LotCounts(orders, lots, report.fills[..|orders|])) == report.clearedLots
    ensures report.optimal <==>
              forall fills :: IsLotExchange(orders, lots, fills) ==>
                Sum(LotCounts(orders, lots, fills)) <= report.clearedLots
  {
    var flows: seq<nat> :| ReportsLots(orders, lots, flows, report);
    OptimalLotFlagIsExact(orders, lots, report);
    hide LotCapacities, IsCirculation, IsMaximum, Sum, FillsOf, LotCounts, IsLotExchange;
    LotExchangeOfFlows(orders, lots, flows);
    assert report.fills[..|orders|] == FillsOf(orders, lots, flows);
    if report.optimal {
      forall fills | IsLotExchange(orders, lots, fills)
        ensures Sum(LotCounts(orders, lots, fills)) <= report.clearedLots
      {
        var g := FlowsOfLotExchange(orders, lots, fills);
      }
    } else {
      var g: seq<nat> :| IsCirculation(orders, LotCapacities(orders, lots, |orders|), g) && Sum(g) > report.clearedLots;
      LotExchangeOfFlows(orders, lots, g);
    }
  }
}
