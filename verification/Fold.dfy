/** Flow folding at fixed prices: admission of orders, the value quantum, the
    pivot run, and the fills that come out of it. */
module Fold {
  import opened Base
  import opened Products
  import opened Sums
  import opened ResidualGraph
  import opened Circulation
  import opened Pivots
  import opened Multiples
  import opened Lots

  const MAX_PRICE: nat := 1_000_000_000_000

  datatype FoldReport = FoldReport(
    fills: seq<FoldFill>, valueQuantum: nat, requestedValue: nat, clearedValue: nat,
    pivots: nat, reversePivots: nat, optimal: bool)

  // ---------------------------------------------------------------- admission

  /** Why order i cannot enter a fold over the given number of assets. */
  function OrderFault(orders: seq<FlowIntent>, i: nat, assets: nat, slot: nat): Option<Error>
    requires i < |orders|
  {
    var o := orders[i];
    if o.sell == o.buy || o.sell >= assets || o.buy >= assets
       || o.amount == 0 || o.amount > MAX_ATOMS || o.minOut > MAX_ATOMS then Some(InvalidAmount)
    else if o.expiresAtSlot < slot then Some(Expired)
    else if exists j :: 0 <= j < i && orders[j].owner == o.owner && orders[j].nonce == o.nonce then Some(Duplicate)
    else None
  }

  /** The first fault among the first n orders. */
  function OrdersFault(orders: seq<FlowIntent>, n: nat, assets: nat, slot: nat): Option<Error>
    requires n <= |orders|
  {
    if n == 0 then None
    else if OrdersFault(orders, n - 1, assets, slot).Some? then OrdersFault(orders, n - 1, assets, slot)
    else OrderFault(orders, n - 1, assets, slot)
  }

  /** The first fault among the first n prices: one out of range, or a common
      multiple that no longer fits 128 bits. */
  function PricesFault(prices: seq<nat>, n: nat): Option<Error>
    requires n <= |prices|
  {
    if n == 0 then None
    else if PricesFault(prices, n - 1).Some? then PricesFault(prices, n - 1)
    else if prices[n - 1] == 0 || prices[n - 1] > MAX_PRICE then Some(InvalidAmount)
    else if LcmAll(prices[..n]) > U128_MAX then Some(Arithmetic)
    else None
  }

  /** Everything that can go wrong with the inputs of a fold, in the order of the checks. */
  function FoldFault(orders: seq<FlowIntent>, prices: seq<nat>, slot: nat, maxPivots: nat): Option<Error> {
    if |orders| == 0 || |orders| > MAX_INTENTS || |prices| < 2 || |prices| > MAX_ASSETS || maxPivots > MAX_PIVOTS then
      Some(Bounds)
    else if PricesFault(prices, |prices|).Some? then PricesFault(prices, |prices|)
    else OrdersFault(orders, |orders|, |prices|, slot)
  }

  ghost predicate WellFormed(o: FlowIntent, assets: nat) {
    o.sell != o.buy && o.sell < assets && o.buy < assets && 0 < o.amount <= MAX_ATOMS && o.minOut <= MAX_ATOMS
  }

  lemma {:induction false} NoOrdersFault(orders: seq<FlowIntent>, n: nat, assets: nat, slot: nat)
    requires n <= |orders| && OrdersFault(orders, n, assets, slot).None?
    ensures forall i :: 0 <= i < n ==> OrderFault(orders, i, assets, slot).None? && WellFormed(orders[i], assets)
  {
    if n > 0 {
      NoOrdersFault(orders, n - 1, assets, slot);
    }
  }

  /** An order that can enter a fold at this slot. */
  ghost predicate SoundOrder(o: FlowIntent, assets: nat, slot: nat) {
    && o.sell != o.buy && o.sell < assets && o.buy < assets
    && 0 < o.amount <= MAX_ATOMS && o.minOut <= MAX_ATOMS && slot <= o.expiresAtSlot
  }

  ghost predicate SameIntent(a: FlowIntent, b: FlowIntent) {
    a.owner == b.owner && a.nonce == b.nonce
  }

  /** What each refusal of an order says about it. */
  lemma OrderFaultKinds(orders: seq<FlowIntent>, i: nat, assets: nat, slot: nat)
    requires i < |orders|
    ensures var o, fault := orders[i], OrderFault(orders, i, assets, slot);
            && (fault == Some(InvalidAmount) <==>
                  || o.sell == o.buy || o.sell >= assets || o.buy >= assets
                  || o.amount == 0 || o.amount > MAX_ATOMS || o.minOut > MAX_ATOMS)
            && (fault == Some(Expired) ==> o.expiresAtSlot < slot)
            && (fault == Some(Duplicate) ==>
                  SoundOrder(o, assets, slot) && exists j :: 0 <= j < i && SameIntent(orders[j], o))
            && (fault.None? <==>
                  SoundOrder(o, assets, slot) && forall j :: 0 <= j < i ==> !SameIntent(orders[j], o))
            && (fault.Some? ==> fault.value.InvalidAmount? || fault.value.Expired? || fault.value.Duplicate?)
  {
  }

  /** The orders of a fold are accepted exactly when every one is sound and live and no
      two are the same intent. */
  lemma {:induction false} OrdersAccepted(orders: seq<FlowIntent>, n: nat, assets: nat, slot: nat)
    requires n <= |orders|
    ensures OrdersFault(orders, n, assets, slot).None? <==>
              && (forall i :: 0 <= i < n ==> SoundOrder(orders[i], assets, slot))
              && forall i, j :: 0 <= i < j < n ==> !SameIntent(orders[i], orders[j])
  {
    hide OrderFault, SoundOrder, SameIntent;
    if n > 0 {
      OrdersAccepted(orders, n - 1, assets, slot);
      OrderFaultKinds(orders, n - 1, assets, slot);
    }
  }

  /** Prices are accepted exactly when each is in range and no common multiple of the
      first few exceeds 128 bits. */
  lemma {:induction false} PricesAccepted(prices: seq<nat>, n: nat)
    requires n <= |prices|
    ensures PricesFault(prices, n).None? <==>
              && (forall a :: 0 <= a < n ==> 0 < prices[a] <= MAX_PRICE)
              && forall a: nat :: 0 < a <= n ==> MultipleFits(prices, a)
  {
    hide LcmAll;
    if n > 0 {
      PricesAccepted(prices, n - 1);
      assert MultipleFits(prices, n) <==> LcmAll(prices[..n]) <= U128_MAX;
      hide MultipleFits;
    }
  }

  /** The least common multiple of the first a prices fits 128 bits. */
  ghost predicate MultipleFits(prices: seq<nat>, a: nat) {
    a <= |prices| && LcmAll(prices[..a]) <= U128_MAX
  }

  /** What a fold accepts. */
  lemma FoldAccepts(orders: seq<FlowIntent>, prices: seq<nat>, slot: nat, maxPivots: nat)
    ensures FoldFault(orders, prices, slot, maxPivots).None? <==>
              && 0 < |orders| <= 32 && 2 <= |prices| <= 8 && maxPivots <= 256
              && (forall a :: 0 <= a < |prices| ==> 0 < prices[a] <= MAX_PRICE)
              && (forall a: nat :: 0 < a <= |prices| ==> MultipleFits(prices, a))
              && (forall i :: 0 <= i < |orders| ==> SoundOrder(orders[i], |prices|, slot))
              && forall i, j :: 0 <= i < j < |orders| ==> !SameIntent(orders[i], orders[j])
  {
    hide LcmAll, SoundOrder, SameIntent, OrdersFault, PricesFault, MultipleFits;
    PricesAccepted(prices, |prices|);
    OrdersAccepted(orders, |orders|, |prices|, slot);
  }

  lemma NextOrderAdmitted(orders: seq<FlowIntent>, i: nat, assets: nat, slot: nat)
    requires i < |orders|
    requires OrdersFault(orders, i, assets, slot).None? && OrderFault(orders, i, assets, slot).None?
    ensures OrdersFault(orders, i + 1, assets, slot).None? && WellFormed(orders[i], assets)
  {
  }

  lemma {:induction false} NoPricesFault(prices: seq<nat>, n: nat)
    requires n <= |prices| && PricesFault(prices, n).None?
    ensures forall a :: 0 <= a < n ==> 0 < prices[a] <= MAX_PRICE
    ensures LcmAll(prices[..n]) <= U128_MAX
  {
    if n > 0 {
      NoPricesFault(prices, n - 1);
    }
  }

  lemma {:induction false} EarlierFaultWins(orders: seq<FlowIntent>, i: nat, n: nat, assets: nat, slot: nat)
    requires i < n <= |orders|
    requires OrdersFault(orders, i, assets, slot).None? && OrderFault(orders, i, assets, slot).Some?
    ensures OrdersFault(orders, n, assets, slot) == OrderFault(orders, i, assets, slot)
  {
    if i + 1 < n {
      EarlierFaultWins(orders, i, n - 1, assets, slot);
    }
  }

  lemma {:induction false} EarlierPriceFaultWins(prices: seq<nat>, i: nat, n: nat)
    requires i <= n <= |prices| && PricesFault(prices, i).Some?
    ensures PricesFault(prices, n) == PricesFault(prices, i)
  {
    if i < n {
      EarlierPriceFaultWins(prices, i, n - 1);
    }
  }

  /** The least value that every price divides. */
  method ComputeQuantum(prices: seq<nat>) returns (r: Result<nat>)
    ensures PricesFault(prices, |prices|) == if r.Ok? then None else Some(r.error)
    ensures r.Ok? ==> r.value == LcmAll(prices)
  {
    var quantum := 1;
    for i := 0 to |prices|
      invariant PricesFault(prices, i).None? && quantum == LcmAll(prices[..i])
    {
      var p := prices[i];
      if p == 0 || p > MAX_PRICE {
        EarlierPriceFaultWins(prices, i + 1, |prices|);
        return Err(InvalidAmount);
      }
      assert prices[..i + 1][..i] == prices[..i];
      assert AllPositive(prices[..i]) by {
        NoPricesFault(prices, i);
      }
      LcmAllPositive(prices[..i]);
      var g := ComputeGcd(quantum, p);
      var next := (quantum / g) * p;
      assert next == LcmAll(prices[..i + 1]);
      if next > U128_MAX {
        EarlierPriceFaultWins(prices, i + 1, |prices|);
        return Err(Arithmetic);
      }
      quantum := next;
    }
    assert prices[..|prices|] == prices;
    return Ok(quantum);
  }

  /** An order crosses only at prices that meet its whole proportional limit. */
  function PriceCapacity(o: FlowIntent, prices: seq<nat>, quantum: nat): nat
    requires o.sell < |prices| && o.buy < |prices| && quantum > 0
  {
    var value := o.amount * prices[o.sell];
    if value >= o.minOut * prices[o.buy] then value / quantum else 0
  }

  function OrderValue(o: FlowIntent, prices: seq<nat>): nat
    requires o.sell < |prices|
  {
    o.amount * prices[o.sell]
  }

  ghost predicate Priced(orders: seq<FlowIntent>, prices: seq<nat>, n: nat) {
    && n <= |orders|
    && forall i :: 0 <= i < n ==> orders[i].sell < |prices| && orders[i].buy < |prices|
  }

  ghost function PriceCapacities(orders: seq<FlowIntent>, prices: seq<nat>, quantum: nat, n: nat): (caps: seq<nat>)
    requires Priced(orders, prices, n) && quantum > 0
    ensures |caps| == n
  {
    seq(n, i requires 0 <= i < n => PriceCapacity(orders[i], prices, quantum))
  }

  ghost function OrderValues(orders: seq<FlowIntent>, prices: seq<nat>, n: nat): (values: seq<nat>)
    requires Priced(orders, prices, n)
    ensures |values| == n
  {
    seq(n, i requires 0 <= i < n => OrderValue(orders[i], prices))
  }

  lemma ValueFits(amount: nat, price: nat)
    requires amount <= MAX_ATOMS && price <= MAX_PRICE
    ensures amount * price <= MAX_ATOMS * MAX_PRICE
  {
    Mono(amount, MAX_ATOMS, price);
    Mono(price, MAX_PRICE, MAX_ATOMS);
  }

  lemma NonePriced(orders: seq<FlowIntent>, prices: seq<nat>, quantum: nat)
    requires quantum > 0
    ensures Priced(orders, prices, 0)
    ensures PriceCapacities(orders, prices, quantum, 0) == [] && Sum(OrderValues(orders, prices, 0)) == 0
  {
  }

  lemma OneMorePriced(orders: seq<FlowIntent>, prices: seq<nat>, quantum: nat, i: nat, slot: nat)
    requires i < |orders| && quantum > 0 && Priced(orders, prices, i) && OrderFault(orders, i, |prices|, slot).None?
    requires forall a :: 0 <= a < |prices| ==> prices[a] <= MAX_PRICE
    ensures Priced(orders, prices, i + 1) && orders[i].sell < |prices| && orders[i].buy < |prices|
    ensures var o := orders[i]; var value := o.amount * prices[o.sell];
            && 0 <= value <= MAX_ATOMS * MAX_PRICE
            && Sum(OrderValues(orders, prices, i + 1)) == Sum(OrderValues(orders, prices, i)) + value
            && PriceCapacities(orders, prices, quantum, i + 1) == PriceCapacities(orders, prices, quantum, i)
                 + [if value >= o.minOut * prices[o.buy] then value / quantum else 0]
  {
    ValueFits(orders[i].amount, prices[orders[i].sell]);
    var value := orders[i].amount * prices[orders[i].sell];
    SumSnoc(OrderValues(orders, prices, i), value);
    assert OrderValues(orders, prices, i + 1) == OrderValues(orders, prices, i) + [value];
  }

  /** The admission loop: report the first faulty order, or all capacities and the requested total. */
  method AdmitOrders(orders: seq<FlowIntent>, prices: seq<nat>, quantum: nat, slot: nat)
    returns (fault: Option<Error>, capacities: seq<u128>, requested: u128)
    requires quantum > 0 && |orders| <= MAX_INTENTS
    requires forall a :: 0 <= a < |prices| ==> prices[a] <= MAX_PRICE
    ensures fault == OrdersFault(orders, |orders|, |prices|, slot)
    ensures fault.None? ==> Priced(orders, prices, |orders|)
    ensures fault.None? ==> capacities == PriceCapacities(orders, prices, quantum, |orders|)
    ensures fault.None? ==> requested == Sum(OrderValues(orders, prices, |orders|))
  {
    hide Priced, PriceCapacities, OrderValues, PriceCapacity, OrderValue, OrderFault, Sum;
    capacities, requested := [], 0;
    NonePriced(orders, prices, quantum);
    for i := 0 to |orders|
      invariant OrdersFault(orders, i, |prices|, slot).None?
      invariant Priced(orders, prices, i)
      invariant capacities == PriceCapacities(orders, prices, quantum, i)
      invariant requested == Sum(OrderValues(orders, prices, i)) <= i * (MAX_ATOMS * MAX_PRICE)
    {
      fault := OrderFault(orders, i, |prices|, slot);
      if fault.Some? {
        EarlierFaultWins(orders, i, |orders|, |prices|, slot);
        return;
      }
      var o := orders[i];
      OneMorePriced(orders, prices, quantum, i, slot);
      var value: u128 := o.amount * prices[o.sell];
      requested := requested + value;
      capacities := capacities + [if value >= o.minOut * prices[o.buy] then value / quantum else 0];
    }
    fault := None;
  }

  // ---------------------------------------------------------------- prices as lots

  ghost function PriceLot(prices: seq<nat>, a: nat): nat
    requires AllPositive(prices) && a < |prices|
  {
    LcmAll(prices) / prices[a]
  }

  ghost function PriceLots(prices: seq<nat>): (lots: seq<nat>)
    requires AllPositive(prices)
    ensures |lots| == |prices|
  {
    seq(|prices|, a requires 0 <= a < |prices| => PriceLot(prices, a))
  }

  /** Pricing is exact: a value quantum is a whole number of atoms of every asset. */
  lemma PriceLotsExact(prices: seq<nat>, a: nat)
    requires AllPositive(prices) && a < |prices|
    ensures LcmAll(prices) == prices[a] * PriceLots(prices)[a] && PriceLots(prices)[a] > 0
  {
    var k := LcmAllIsCommonMultiple(prices, a);
    MultipleOf(prices[a], k);
  }

  lemma CapacityInLots(q: nat, amount: nat, ps: nat, ls: nat, cap: nat)
    requires q == ps * ls && ps > 0 && q * cap <= amount * ps
    ensures cap * ls <= amount
  {
    assert ps * (cap * ls) == q * cap;
    Cancel(cap * ls, amount, ps);
  }

  lemma LimitInLots(q: nat, amount: nat, minOut: nat, ps: nat, pb: nat, ls: nat, lb: nat)
    requires q > 0 && q == ps * ls && q == pb * lb
    requires amount * ps >= minOut * pb
    ensures lb * amount >= ls * minOut
  {
    Mono(minOut * pb, amount * ps, ls * lb);
    assert (minOut * pb) * (ls * lb) == (pb * lb) * (ls * minOut);
    assert (amount * ps) * (ls * lb) == (ps * ls) * (lb * amount);
    Cancel(ls * minOut, lb * amount, q);
  }

  lemma PriceCapacityAdmitted(o: FlowIntent, prices: seq<nat>)
    requires AllPositive(prices) && o.sell < |prices| && o.buy < |prices|
    requires LcmAll(prices) > 0
    ensures Admitted(o, PriceLots(prices), PriceCapacity(o, prices, LcmAll(prices)))
  {
    hide LcmAll;
    var q, lots := LcmAll(prices), PriceLots(prices);
    var ps, pb, ls, lb := prices[o.sell], prices[o.buy], lots[o.sell], lots[o.buy];
    PriceLotsExact(prices, o.sell);
    PriceLotsExact(prices, o.buy);
    var cap := PriceCapacity(o, prices, q);
    if cap > 0 {
      CapacityInLots(q, o.amount, ps, ls, cap);
      LimitInLots(q, o.amount, o.minOut, ps, pb, ls, lb);
    }
  }

  lemma PricesOnLattice(orders: seq<FlowIntent>, prices: seq<nat>)
    requires AllPositive(prices) && Priced(orders, prices, |orders|)
    ensures OnLattice(orders, PriceLots(prices))
  {
    forall a | 0 <= a < |prices|
      ensures PriceLots(prices)[a] > 0
    {
      PriceLotsExact(prices, a);
    }
  }

  /** Dividing a filled value by either price gives whole lots. */
  lemma ValueInLots(prices: seq<nat>, a: nat, flow: nat)
    requires AllPositive(prices) && a < |prices|
    ensures (flow * LcmAll(prices)) / prices[a] == flow * PriceLots(prices)[a]
  {
    hide LcmAll;
    PriceLotsExact(prices, a);
    ExactQuotient(LcmAll(prices), prices[a], PriceLots(prices)[a], flow);
  }

  lemma ExactQuotient(q: nat, p: nat, l: nat, flow: nat)
    requires q == p * l && p > 0
    ensures (flow * q) / p == flow * l
  {
    assert flow * (p * l) == p * (flow * l);
    MultipleOf(p, flow * l);
  }

  // ---------------------------------------------------------------- fills

  /** A report's fill table has a fixed size; unused rows stay zero. */
  ghost function Table(fills: seq<FoldFill>): (rows: seq<FoldFill>)
    requires |fills| <= MAX_INTENTS
    ensures |rows| == MAX_INTENTS && rows[..|fills|] == fills
  {
    fills + seq(MAX_INTENTS - |fills|, _ => FoldFill(0, 0))
  }

  lemma TableIs(fills: seq<FoldFill>)
    requires |fills| <= MAX_INTENTS
    ensures Table(fills) == fills + seq(MAX_INTENTS - |fills|, _ => FoldFill(0, 0))
  {
  }

  /** Flows that respect what was admitted at the given lot sizes. */
  ghost predicate Fillable(orders: seq<FlowIntent>, lots: seq<nat>, capacities: seq<nat>, flows: seq<nat>) {
    && |orders| <= MAX_INTENTS && |lots| <= MAX_ASSETS
    && OnLattice(orders, lots)
    && IsCirculation(orders, capacities, flows)
    && forall i :: 0 <= i < |orders| ==> orders[i].amount <= MAX_ATOMS && Admitted(orders[i], lots, capacities[i])
  }

  /** What every later check on a fill needs. */
  lemma FillableFill(orders: seq<FlowIntent>, lots: seq<nat>, capacities: seq<nat>, flows: seq<nat>, i: nat)
    requires Fillable(orders, lots, capacities, flows) && i < |orders|
    ensures MeetsLimit(orders[i], FillsOf(orders, lots, flows)[i])
    ensures FillsOf(orders, lots, flows)[i].input <= MAX_ATOMS
    ensures FillsOf(orders, lots, flows)[i].output <= MAX_INTENTS * MAX_ATOMS <= U64_MAX
  {
    var fills := FillsOf(orders, lots, flows);
    forall j | 0 <= j < |orders|
      ensures MeetsLimit(orders[j], fills[j])
    {
      FillMeetsLimit(orders[j], lots, capacities[j], flows[j]);
    }
    LotsConserve(orders, lots, flows);
    OutputsFit(orders, fills, i);
  }

  lemma FillableShape(orders: seq<FlowIntent>, lots: seq<nat>, capacities: seq<nat>, flows: seq<nat>)
    requires Fillable(orders, lots, capacities, flows)
    ensures |flows| == |orders| <= MAX_INTENTS && |lots| <= MAX_ASSETS && OnLattice(orders, lots)
  {
  }

  lemma FillableConserves(orders: seq<FlowIntent>, lots: seq<nat>, capacities: seq<nat>, flows: seq<nat>)
    requires Fillable(orders, lots, capacities, flows)
    ensures Conserves(orders, FillsOf(orders, lots, flows))
  {
    LotsConserve(orders, lots, flows);
  }

  /** A flow of value stays within 128 bits. */
  lemma FilledValueFits(lot: nat, price: nat, flow: nat)
    requires flow * lot <= MAX_ATOMS && price <= MAX_PRICE
    ensures flow * (price * lot) <= MAX_ATOMS * MAX_PRICE <= U128_MAX
  {
    assert flow * (price * lot) == (flow * lot) * price;
    ValueFits(flow * lot, price);
  }

  /** The fill of one order and the value it clears; none of the errors can occur. */
  method FillOrder(
    orders: seq<FlowIntent>, prices: seq<nat>, quantum: nat, ghost capacities: seq<nat>, flows: seq<nat>, i: nat)
    returns (r: Result<(FoldFill, nat)>)
    requires AllPositive(prices) && quantum == LcmAll(prices) && i < |orders|
    requires forall a :: 0 <= a < |prices| ==> prices[a] <= MAX_PRICE
    requires Fillable(orders, PriceLots(prices), capacities, flows)
    ensures r.Ok? && r.value.0 == FillsOf(orders, PriceLots(prices), flows)[i] && r.value.1 == flows[i] * quantum
  {
    ghost var lots := PriceLots(prices);
    var o := orders[i];
    FillableFill(orders, lots, capacities, flows, i);
    hide Fillable, LcmAll, Admitted, IsCirculation;
    PriceLotsExact(prices, o.sell);
    FilledValueFits(lots[o.sell], prices[o.sell], flows[i]);
    ValueInLots(prices, o.sell, flows[i]);
    ValueInLots(prices, o.buy, flows[i]);
    var value := flows[i] * quantum;
    if value > U128_MAX {
      return Err(Arithmetic);
    }
    var input, output := value / prices[o.sell], value / prices[o.buy];
    if input > U64_MAX || output > U64_MAX {
      return Err(Arithmetic);
    }
    var fill := FoldFill(input, output);
    if fill.input > o.amount || fill.output * o.amount < fill.input * o.minOut {
      return Err(BalanceInvariant);
    }
    return Ok((fill, value));
  }

  /** The settlement loop of `fold`: turn flows into fills, check every limit and
      compare the two token columns. None of its errors can occur. */
  method FillOrders(orders: seq<FlowIntent>, prices: seq<nat>, quantum: nat, ghost capacities: seq<nat>, flows: seq<nat>)
    returns (r: Result<(seq<FoldFill>, nat)>)
    requires AllPositive(prices) && quantum == LcmAll(prices)
    requires forall a :: 0 <= a < |prices| ==> prices[a] <= MAX_PRICE
    requires Fillable(orders, PriceLots(prices), capacities, flows)
    ensures r.Ok?
    ensures r.value.0 == Table(FillsOf(orders, PriceLots(prices), flows))
    ensures r.value.1 == Worth(quantum, flows)
  {
    hide *;
    ghost var lots := PriceLots(prices);
    FillableShape(orders, lots, capacities, flows);
    ghost var expected := FillsOf(orders, lots, flows);
    var fills := new FoldFill[MAX_INTENTS](_ => FoldFill(0, 0));
    var debit := new nat[MAX_ASSETS](_ => 0);
    var credit := new nat[MAX_ASSETS](_ => 0);
    var cleared := 0;
    NothingPosted(orders, expected, debit[..], credit[..]);
    NoWorth(quantum, flows);
    for i := 0 to |orders|
      invariant Accounts(orders, expected, i, debit[..], credit[..])
      invariant fills[..] == expected[..i] + seq(MAX_INTENTS - i, _ => FoldFill(0, 0))
      invariant cleared == Worth(quantum, flows[..i])
    {
      var fill := FillOrder(orders, prices, quantum, capacities, flows, i);
      fills[i] := fill.value.0;
      WorthTake(quantum, flows, i);
      cleared := cleared + fill.value.1;
      Post(orders, expected, fill.value.0, i, debit, credit);
    }
    assert flows[..|orders|] == flows && expected[..|orders|] == expected;
    EqualColumns(orders, expected, debit[..], credit[..]);
    FillableConserves(orders, lots, capacities, flows);
    TableIs(expected);
    if debit[..] != credit[..] {
      return Err(BalanceInvariant);
    }
    return Ok((fills[..], cleared));
  }

  /** The value of some flows, in quanta. */
  ghost function Worth(quantum: nat, flows: seq<nat>): int {
    quantum * Sum(flows)
  }

  lemma NoWorth(quantum: nat, flows: seq<nat>)
    ensures Worth(quantum, flows[..0]) == 0
  {
  }

  lemma WorthTake(quantum: nat, flows: seq<nat>, i: nat)
    requires i < |flows|
    ensures Worth(quantum, flows[..i + 1]) == Worth(quantum, flows[..i]) + flows[i] * quantum
  {
    SumTake(flows, i);
  }

  // ---------------------------------------------------------------- fold

  /** The report describes one particular circulation at these prices: its fills,
      its value, and whether it is maximal. */
  ghost predicate Reports(orders: seq<FlowIntent>, prices: seq<nat>, flows: seq<nat>, report: FoldReport)
    requires AllPositive(prices) && Priced(orders, prices, |orders|)
    requires |orders| <= MAX_INTENTS && LcmAll(prices) > 0 && OnLattice(orders, PriceLots(prices))
  {
    var capacities := PriceCapacities(orders, prices, LcmAll(prices), |orders|);
    && IsCirculation(orders, capacities, flows)
    && report.fills == Table(FillsOf(orders, PriceLots(prices), flows))
    && report.clearedValue == Worth(LcmAll(prices), flows)
    && (report.optimal <==> IsMaximum(orders, capacities, flows))
    && report.reversePivots <= report.pivots <= Sum(flows)
  }

  ghost predicate IsFolded(orders: seq<FlowIntent>, prices: seq<nat>, report: FoldReport) {
    && AllPositive(prices) && Priced(orders, prices, |orders|) && |orders| <= MAX_INTENTS
    && report.valueQuantum == LcmAll(prices) > 0
    && report.requestedValue == Sum(OrderValues(orders, prices, |orders|))
    && OnLattice(orders, PriceLots(prices))
    && exists flows: seq<nat> :: Reports(orders, prices, flows, report)
  }

  /** No flow at all is a circulation within any capacities. */
  lemma ZeroIsCirculation(orders: seq<FlowIntent>, capacities: seq<nat>, flows: seq<nat>)
    requires |orders| == |capacities| == |flows|
    requires forall i :: 0 <= i < |flows| ==> flows[i] == 0
    ensures IsCirculation(orders, capacities, flows) && Sum(flows) == 0
  {
    forall a: nat
      ensures Tally(Sells(orders), flows, a) == Tally(Buys(orders), flows, a)
    {
      TallyScale(Sells(orders), flows, flows, a, 0);
      TallyScale(Buys(orders), flows, flows, a, 0);
    }
    SumScale(flows, flows, 0);
  }

  lemma AdmittedAreFillable(orders: seq<FlowIntent>, prices: seq<nat>, slot: nat, flows: seq<nat>)
    requires 0 < |orders| <= MAX_INTENTS && |prices| <= MAX_ASSETS
    requires OrdersFault(orders, |orders|, |prices|, slot).None?
    requires AllPositive(prices) && Priced(orders, prices, |orders|) && LcmAll(prices) > 0
    requires IsCirculation(orders, PriceCapacities(orders, prices, LcmAll(prices), |orders|), flows)
    ensures Fillable(orders, PriceLots(prices), PriceCapacities(orders, prices, LcmAll(prices), |orders|), flows)
  {
    hide LcmAll, PriceCapacity, Admitted;
    NoOrdersFault(orders, |orders|, |prices|, slot);
    PricesOnLattice(orders, prices);
    forall i | 0 <= i < |orders|
      ensures Admitted(orders[i], PriceLots(prices), PriceCapacity(orders[i], prices, LcmAll(prices)))
    {
      PriceCapacityAdmitted(orders[i], prices);
    }
  }

  /** Maximum-value clearing at fixed prices. Apart from faulty inputs, only the
      work budget can stop it. */
  method Fold(orders: seq<FlowIntent>, prices: seq<nat>, slot: nat, maxPivots: nat, meter: WorkMeter)
    returns (r: Result<FoldReport>)
    modifies meter`used
    ensures r.Ok? ==> FoldFault(orders, prices, slot, maxPivots).None? && IsFolded(orders, prices, r.value)
    ensures r.Ok? ==> r.value.pivots <= maxPivots && (r.value.optimal || r.value.pivots == maxPivots)
    ensures FoldFault(orders, prices, slot, maxPivots).Some? ==>
              r == Err(FoldFault(orders, prices, slot, maxPivots).value)
    ensures FoldFault(orders, prices, slot, maxPivots).None? && r.Err? ==> r.error.WorkLimit?
    ensures FoldFault(orders, prices, slot, maxPivots).None? && r.Err? ==>
              old(meter.used) + (maxPivots + 1) * SearchWork(|orders|, |prices|) > meter.limit
  {
    hide LcmAll, IsCirculation, IsMaximum, PriceCapacities, OrdersFault, PricesFault, OrderFault, IsFolded, Reports;
    hide Fillable, Sum, Table, FillsOf, Worth, PriceLots, OrderValues, SearchWork;
    if |orders| == 0 || |orders| > MAX_INTENTS || |prices| < 2 || |prices| > MAX_ASSETS || maxPivots > MAX_PIVOTS {
      return Err(Bounds);
    }
    var quantum := ComputeQuantum(prices);
    if quantum.Err? {
      return Err(quantum.error);
    }
    NoPricesFault(prices, |prices|);
    assert prices[..|prices|] == prices;
    LcmAllPositive(prices);
    var fault, capacities, requested := AdmitOrders(orders, prices, quantum.value, slot);
    if fault.Some? {
      return Err(fault.value);
    }
    NoOrdersFault(orders, |orders|, |prices|, slot);
    var flows := new nat[|orders|](_ => 0);
    ZeroIsCirculation(orders, capacities, flows[..]);
    var run := RunPivots(orders, capacities, flows, |prices|, maxPivots, meter);
    if run.Err? {
      return Err(run.error);
    }
    AdmittedAreFillable(orders, prices, slot, flows[..]);
    var settled := FillOrders(orders, prices, quantum.value, capacities, flows[..]);
    var report := FoldReport(settled.value.0, quantum.value, requested, settled.value.1,
                             run.value.pivots, run.value.reversePivots, run.value.optimal);
    PricesOnLattice(orders, prices);
    FoldedIntro(orders, prices, flows[..], report);
    return Ok(report);
  }

  lemma FoldedIntro(orders: seq<FlowIntent>, prices: seq<nat>, flows: seq<nat>, report: FoldReport)
    requires AllPositive(prices) && Priced(orders, prices, |orders|) && |orders| <= MAX_INTENTS
    requires report.valueQuantum == LcmAll(prices) > 0
    requires report.requestedValue == Sum(OrderValues(orders, prices, |orders|))
    requires OnLattice(orders, PriceLots(prices))
    requires var capacities := PriceCapacities(orders, prices, LcmAll(prices), |orders|);
             IsCirculation(orders, capacities, flows) && (report.optimal <==> IsMaximum(orders, capacities, flows))
    requires report.fills == Table(FillsOf(orders, PriceLots(prices), flows))
    requires report.clearedValue == Worth(LcmAll(prices), flows)
    requires report.reversePivots <= report.pivots <= Sum(flows)
    ensures IsFolded(orders, prices, report)
  {
    hide IsCirculation, IsMaximum, PriceCapacities, LcmAll, Sum, Table, FillsOf, Worth, OrderValues;
    assert Reports(orders, prices, flows, report);
  }

  // ---------------------------------------------------------------- what a fold promises

  /** What `validate_fold` accepts. */
  ghost predicate ValidFold(orders: seq<FlowIntent>, fills: seq<FoldFill>)
    requires |orders| <= |fills|
  {
    && (forall i :: 0 <= i < |orders| ==>
          && orders[i].sell < MAX_ASSETS && orders[i].buy < MAX_ASSETS && orders[i].sell != orders[i].buy
          && orders[i].amount > 0
          && MeetsLimit(orders[i], fills[i])
          && (fills[i].input == 0 ==> fills[i].output == 0))
    && Conserves(orders, fills[..|orders|])
  }

  /** The independent checker of a fold report. */
  method ValidateFold(orders: seq<FlowIntent>, fills: seq<FoldFill>) returns (r: Result<()>)
    requires |fills| == MAX_INTENTS
    ensures r == if |orders| > MAX_INTENTS then Err(Bounds)
                 else if ValidFold(orders, fills) then Ok(())
                 else Err(BalanceInvariant)
  {
    if |orders| > MAX_INTENTS {
      return Err(Bounds);
    }
    var debit := new nat[MAX_ASSETS](_ => 0);
    var credit := new nat[MAX_ASSETS](_ => 0);
    assert Accounts(orders, fills, 0, debit[..], credit[..]);
    hide Accounts, Conserves;
    for i := 0 to |orders|
      invariant forall j :: 0 <= j < i ==>
                  && orders[j].sell < MAX_ASSETS && orders[j].buy < MAX_ASSETS && orders[j].sell != orders[j].buy
                  && orders[j].amount > 0
                  && MeetsLimit(orders[j], fills[j])
                  && (fills[j].input == 0 ==> fills[j].output == 0)
      invariant Accounts(orders, fills, i, debit[..], credit[..])
    {
      var o, f := orders[i], fills[i];
      if o.sell >= MAX_ASSETS || o.buy >= MAX_ASSETS || o.sell == o.buy || o.amount == 0
         || f.input > o.amount || (f.input == 0 && f.output != 0)
         || f.output * o.amount < f.input * o.minOut {
        return Err(BalanceInvariant);
      }
      Post(orders, fills, f, i, debit, credit);
    }
    EqualColumns(orders, fills, debit[..], credit[..]);
    if debit[..] != credit[..] {
      return Err(BalanceInvariant);
    }
    return Ok(());
  }

  /** Every report `Fold` returns passes the checker: limits met, tokens conserved. */
  lemma FoldedIsValid(orders: seq<FlowIntent>, prices: seq<nat>, slot: nat, maxPivots: nat, report: FoldReport)
    requires FoldFault(orders, prices, slot, maxPivots).None? && IsFolded(orders, prices, report)
    ensures |report.fills| == MAX_INTENTS && |orders| <= MAX_INTENTS && ValidFold(orders, report.fills)
  {
    hide LcmAll, IsMaximum;
    var flows: seq<nat> :| Reports(orders, prices, flows, report);
    var lots := PriceLots(prices);
    var fills := FillsOf(orders, lots, flows);
    NoOrdersFault(orders, |orders|, |prices|, slot);
    AdmittedAreFillable(orders, prices, slot, flows);
    var capacities := PriceCapacities(orders, prices, LcmAll(prices), |orders|);
    forall i | 0 <= i < |orders|
      ensures MeetsLimit(orders[i], report.fills[i])
      ensures report.fills[i].input == 0 ==> report.fills[i].output == 0
    {
      FillableFill(orders, lots, capacities, flows, i);
      assert report.fills[i] == fills[i];
      ZeroFill(flows[i], lots[orders[i].sell], lots[orders[i].buy]);
    }
    FillableConserves(orders, lots, capacities, flows);
    assert report.fills[..|orders|] == fills;
  }

  lemma ZeroFill(flow: nat, a: nat, b: nat)
    requires a > 0
    ensures flow * a == 0 ==> flow * b == 0
  {
    MulAtLeast(a, flow);
  }

  /** The optimality flag, both ways: it is set exactly when no circulation within
      the admitted capacities clears more value at these prices. */
  lemma OptimalFlagIsExact(orders: seq<FlowIntent>, prices: seq<nat>, report: FoldReport)
    requires IsFolded(orders, prices, report)
    ensures report.optimal <==>
              forall g: seq<nat> ::
                IsCirculation(orders, PriceCapacities(orders, prices, report.valueQuantum, |orders|), g) ==>
                  Worth(report.valueQuantum, g) <= report.clearedValue
  {
    var q := LcmAll(prices);
    var flows: seq<nat> :| Reports(orders, prices, flows, report);
    var capacities := PriceCapacities(orders, prices, q, |orders|);
    forall g: seq<nat> | IsCirculation(orders, capacities, g)
      ensures Worth(q, g) <= Worth(q, flows) <==> Sum(g) <= Sum(flows)
    {
      if Worth(q, g) <= Worth(q, flows) {
        Cancel(Sum(g), Sum(flows), q);
      }
      if Sum(g) <= Sum(flows) {
        SumNonNegative(g);
        Mono(Sum(g), Sum(flows), q);
      }
    }
  }

  /** The quantum is the least value that is whole in every asset. */
  lemma QuantumIsLeast(orders: seq<FlowIntent>, prices: seq<nat>, report: FoldReport, value: nat, atoms: seq<nat>)
    requires IsFolded(orders, prices, report)
    requires value > 0 && |atoms| == |prices|
    requires forall a :: 0 <= a < |prices| ==> value == prices[a] * atoms[a]
    ensures report.valueQuantum <= value
    ensures exists n: nat :: value == report.valueQuantum * n
  {
    var k := LcmAllIsLeast(prices, value, atoms);
    MulAtLeast(LcmAll(prices), k);
    assert value == report.valueQuantum * k;
  }
}
