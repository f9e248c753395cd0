/** Fills on a lattice of asset lots: moving one unit of flow through an order
    debits one lot of its sell asset and credits one lot of its buy asset. */
module Lots {
  import opened Base
  import opened Products
  import opened Sums
  import opened ResidualGraph
  import opened Circulation

  const MAX_INTENTS: nat := 32
  const MAX_ASSETS: nat := 8
  const MAX_PIVOTS: nat := 256

  datatype FoldFill = FoldFill(input: nat, output: nat)

  function Inputs(fills: seq<FoldFill>): (xs: seq<nat>)
    ensures |xs| == |fills|
  {
    seq(|fills|, i requires 0 <= i < |fills| => fills[i].input)
  }

  function Outputs(fills: seq<FoldFill>): (xs: seq<nat>)
    ensures |xs| == |fills|
  {
    seq(|fills|, i requires 0 <= i < |fills| => fills[i].output)
  }

  /** The fill within the order's amount and at least at its proportional limit. */
  ghost predicate MeetsLimit(o: FlowIntent, f: FoldFill) {
    f.input <= o.amount && f.output * o.amount >= f.input * o.minOut
  }

  /** Token by token, the orders together receive exactly what they give. */
  ghost predicate Conserves(orders: seq<FlowIntent>, fills: seq<FoldFill>) {
    && |orders| == |fills|
    && forall a: nat :: Tally(Sells(orders), Inputs(fills), a) == Tally(Buys(orders), Outputs(fills), a)
  }

  function FillOf(o: FlowIntent, lots: seq<nat>, flow: nat): FoldFill
    requires o.sell < |lots| && o.buy < |lots|
  {
    FoldFill(flow * lots[o.sell], flow * lots[o.buy])
  }

  ghost predicate OnLattice(orders: seq<FlowIntent>, lots: seq<nat>) {
    && (forall i :: 0 <= i < |orders| ==> orders[i].sell < |lots| && orders[i].buy < |lots|)
    && (forall a :: 0 <= a < |lots| ==> lots[a] > 0)
  }

  ghost function FillsOf(orders: seq<FlowIntent>, lots: seq<nat>, flows: seq<nat>): (fills: seq<FoldFill>)
    requires OnLattice(orders, lots) && |flows| == |orders|
    ensures |fills| == |orders|
  {
    seq(|orders|, i requires 0 <= i < |orders| => FillOf(orders[i], lots, flows[i]))
  }

  /** A capacity that respects the order's amount and, unless it is zero, its limit. */
  ghost predicate Admitted(o: FlowIntent, lots: seq<nat>, capacity: nat)
    requires o.sell < |lots| && o.buy < |lots|
  {
    && capacity * lots[o.sell] <= o.amount
    && (capacity > 0 ==> lots[o.buy] * o.amount >= lots[o.sell] * o.minOut)
  }

  lemma FillMeetsLimit(o: FlowIntent, lots: seq<nat>, capacity: nat, flow: nat)
    requires o.sell < |lots| && o.buy < |lots|
    requires Admitted(o, lots, capacity) && flow <= capacity
    ensures MeetsLimit(o, FillOf(o, lots, flow))
  {
    Mono(flow, capacity, lots[o.sell]);
    var s, b := lots[o.sell], lots[o.buy];
    if flow > 0 {
      Mono(s * o.minOut, b * o.amount, flow);
      assert flow * b * o.amount == flow * (b * o.amount);
      assert flow * s * o.minOut == flow * (s * o.minOut);
    }
  }

  /** Balanced flows conserve every token, whatever the lot sizes. */
  lemma LotsConserve(orders: seq<FlowIntent>, lots: seq<nat>, flows: seq<nat>)
    requires OnLattice(orders, lots) && Balanced(orders, flows)
    ensures Conserves(orders, FillsOf(orders, lots, flows))
  {
    var fills := FillsOf(orders, lots, flows);
    forall a: nat
      ensures Tally(Sells(orders), Inputs(fills), a) == Tally(Buys(orders), Outputs(fills), a)
    {
      var c := if a < |lots| then lots[a] else 0;
      TallyScale(Sells(orders), flows, Inputs(fills), a, c);
      TallyScale(Buys(orders), flows, Outputs(fills), a, c);
    }
  }

  /** No single fill can receive more than all orders together may give, so
      outputs fit the same 64 bits as inputs. */
  lemma OutputsFit(orders: seq<FlowIntent>, fills: seq<FoldFill>, i: nat)
    requires Conserves(orders, fills) && |orders| <= MAX_INTENTS && i < |orders|
    requires forall j :: 0 <= j < |orders| ==> fills[j].input <= orders[j].amount <= MAX_ATOMS
    ensures fills[i].output <= MAX_INTENTS * MAX_ATOMS <= U64_MAX
  {
    var a := orders[i].buy;
    TallyNonNegative(Buys(orders), Outputs(fills), a);
    TallyBounded(Sells(orders), Inputs(fills), a, MAX_ATOMS);
    assert Buys(orders)[i] == a && Outputs(fills)[i] == fills[i].output;
    Mono(|orders|, MAX_INTENTS, MAX_ATOMS);
  }

  /** The debit and credit columns after the first n fills were posted. */
  ghost predicate Accounts(
    orders: seq<FlowIntent>, fills: seq<FoldFill>, n: nat, debit: seq<nat>, credit: seq<nat>)
    requires n <= |orders| && |orders| <= |fills|
  {
    && |debit| == |credit| == MAX_ASSETS
    && forall a :: 0 <= a < MAX_ASSETS ==>
         && debit[a] == Tally(Sells(orders)[..n], Inputs(fills)[..n], a)
         && credit[a] == Tally(Buys(orders)[..n], Outputs(fills)[..n], a)
  }

  lemma NothingPosted(orders: seq<FlowIntent>, fills: seq<FoldFill>, debit: seq<nat>, credit: seq<nat>)
    requires |orders| <= |fills| && |debit| == |credit| == MAX_ASSETS
    requires forall a :: 0 <= a < MAX_ASSETS ==> debit[a] == 0 && credit[a] == 0
    ensures Accounts(orders, fills, 0, debit, credit)
  {
  }

  /** Post one fill to the two columns. */
  method Post(orders: seq<FlowIntent>, ghost fills: seq<FoldFill>, f: FoldFill, i: nat, debit: array<nat>, credit: array<nat>)
    requires i < |orders| <= |fills| && f == fills[i] && debit != credit
    requires orders[i].sell < MAX_ASSETS && orders[i].buy < MAX_ASSETS
    requires Accounts(orders, fills, i, debit[..], credit[..])
    modifies debit, credit
    ensures Accounts(orders, fills, i + 1, debit[..], credit[..])
  {
    var o := orders[i];
    forall a: nat | a < MAX_ASSETS
      ensures Tally(Sells(orders)[..i + 1], Inputs(fills)[..i + 1], a) ==
              Tally(Sells(orders)[..i], Inputs(fills)[..i], a) + if o.sell == a then f.input else 0
      ensures Tally(Buys(orders)[..i + 1], Outputs(fills)[..i + 1], a) ==
              Tally(Buys(orders)[..i], Outputs(fills)[..i], a) + if o.buy == a then f.output else 0
    {
      hide Tally;
      TallyTake(Sells(orders), Inputs(fills)[..|orders|], i, a);
      TallyTake(Buys(orders), Outputs(fills)[..|orders|], i, a);
      assert Inputs(fills)[..|orders|][..i] == Inputs(fills)[..i];
      assert Inputs(fills)[..|orders|][..i + 1] == Inputs(fills)[..i + 1];
      assert Outputs(fills)[..|orders|][..i] == Outputs(fills)[..i];
      assert Outputs(fills)[..|orders|][..i + 1] == Outputs(fills)[..i + 1];
    }
    debit[o.sell] := debit[o.sell] + f.input;
    credit[o.buy] := credit[o.buy] + f.output;
  }

  /** Equal columns mean conservation, and conversely. */
  lemma EqualColumns(orders: seq<FlowIntent>, fills: seq<FoldFill>, debit: seq<nat>, credit: seq<nat>)
    requires |fills| >= |orders| && Accounts(orders, fills, |orders|, debit, credit)
    requires forall i :: 0 <= i < |orders| ==> orders[i].sell < MAX_ASSETS && orders[i].buy < MAX_ASSETS
    ensures debit == credit <==> Conserves(orders, fills[..|orders|])
  {
    var n, own := |orders|, fills[..|orders|];
    assert Sells(orders)[..n] == Sells(orders) && Buys(orders)[..n] == Buys(orders);
    assert Inputs(fills)[..n] == Inputs(own) && Outputs(fills)[..n] == Outputs(own);
    forall a: nat | a >= MAX_ASSETS
      ensures Tally(Sells(orders), Inputs(own), a) == 0 == Tally(Buys(orders), Outputs(own), a)
    {
      TallyAbsent(Sells(orders), Inputs(own), a);
      TallyAbsent(Buys(orders), Outputs(own), a);
    }
    if Conserves(orders, own) {
      assert forall a :: 0 <= a < MAX_ASSETS ==> debit[a] == credit[a];
    }
  }

  lemma {:induction false} TallyAbsent(keys: seq<nat>, xs: seq<int>, a: nat)
    requires |keys| == |xs|
    requires forall i :: 0 <= i < |keys| ==> keys[i] != a
    ensures Tally(keys, xs, a) == 0
  {
    if |xs| > 0 {
      TallyAbsent(keys[..|xs| - 1], xs[..|xs| - 1], a);
    }
  }
}
