/** Flow folding on caller-supplied asset lots: the same circulation, without the
    least common multiple of unrelated prices. */
module FoldLots {
  import opened Base
  import opened Products
  import opened Sums
  import opened ResidualGraph
  import opened Circulation
  import opened Pivots
  import opened Multiples
  import opened Lots
  import opened Fold

  datatype LotFoldReport = LotFoldReport(
    fills: seq<FoldFill>, lotSizes: seq<nat>, requestedLots: nat, clearedLots: nat,
    pivots: nat, reversePivots: nat, optimal: bool)

  /** Everything that can go wrong with the inputs, in the order of the checks. */
  function LotFoldFault(orders: seq<FlowIntent>, lots: seq<nat>, slot: nat, maxPivots: nat): Option<Error> {
    if |orders| == 0 || |orders| > MAX_INTENTS || |lots| < 2 || |lots| > MAX_ASSETS || maxPivots > MAX_PIVOTS
       || exists a :: 0 <= a < |lots| && (lots[a] == 0 || lots[a] > MAX_ATOMS) then
      Some(Bounds)
    else OrdersFault(orders, |orders|, |lots|, slot)
  }

  /** What a fold on lots accepts. */
  lemma LotFoldAccepts(orders: seq<FlowIntent>, lots: seq<nat>, slot: nat, maxPivots: nat)
    ensures LotFoldFault(orders, lots, slot, maxPivots).None? <==>
              && 0 < |orders| <= 32 && 2 <= |lots| <= 8 && maxPivots <= 256
              && (forall a :: 0 <= a < |lots| ==> 0 < lots[a] <= MAX_ATOMS)
              && (forall i :: 0 <= i < |orders| ==> SoundOrder(orders[i], |lots|, slot))
              && forall i, j :: 0 <= i < j < |orders| ==> !SameIntent(orders[i], orders[j])
  {
    hide SoundOrder, SameIntent, OrdersFault;
    OrdersAccepted(orders, |orders|, |lots|, slot);
  }

  /** Whole lots of an order whose limit the lot rate meets; otherwise nothing. */
  function LotCapacity(o: FlowIntent, lots: seq<nat>): nat
    requires o.sell < |lots| && o.buy < |lots| && lots[o.sell] > 0
  {
    if lots[o.buy] * o.amount >= lots[o.sell] * o.minOut then RequestedLots(o, lots) else 0
  }

  ghost predicate Sized(orders: seq<FlowIntent>, lots: seq<nat>, n: nat) {
    && n <= |orders|
    && (forall i :: 0 <= i < n ==> orders[i].sell < |lots| && orders[i].buy < |lots|)
    && forall a :: 0 <= a < |lots| ==> 0 < lots[a] <= MAX_ATOMS
  }

  ghost function LotCapacities(orders: seq<FlowIntent>, lots: seq<nat>, n: nat): (caps: seq<nat>)
    requires Sized(orders, lots, n)
    ensures |caps| == n
  {
    seq(n, i requires 0 <= i < n => LotCapacity(orders[i], lots))
  }

  function RequestedLots(o: FlowIntent, lots: seq<nat>): nat
    requires o.sell < |lots| && lots[o.sell] > 0
  {
    o.amount / lots[o.sell]
  }

  ghost function LotRequests(orders: seq<FlowIntent>, lots: seq<nat>, n: nat): (requests: seq<nat>)
    requires Sized(orders, lots, n)
    ensures |requests| == n
  {
    seq(n, i requires 0 <= i < n => RequestedLots(orders[i], lots))
  }

  lemma QuotientFits(amount: nat, lot: nat)
    requires lot > 0
    ensures lot * (amount / lot) <= amount && amount / lot <= amount
  {
    assert amount == lot * (amount / lot) + amount % lot;
    Mono(1, lot, amount / lot);
  }

  lemma LotCapacityAdmitted(o: FlowIntent, lots: seq<nat>)
    requires o.sell < |lots| && o.buy < |lots| && lots[o.sell] > 0
    ensures Admitted(o, lots, LotCapacity(o, lots))
  {
    QuotientFits(o.amount, lots[o.sell]);
  }

  lemma RequestFits(o: FlowIntent, lots: seq<nat>)
    requires o.sell < |lots| && lots[o.sell] > 0 && o.amount <= MAX_ATOMS
    ensures RequestedLots(o, lots) <= MAX_ATOMS
  {
    QuotientFits(o.amount, lots[o.sell]);
  }

  lemma NothingAdmittedYet(orders: seq<FlowIntent>, lots: seq<nat>, slot: nat)
    ensures OrdersFault(orders, 0, |lots|, slot).None? && Sum([]) == 0
  {
  }

  method AdmitLots(orders: seq<FlowIntent>, lots: seq<nat>, slot: nat)
    returns (r: Result<(seq<nat>, nat)>)
    requires |orders| <= MAX_INTENTS
    requires forall a :: 0 <= a < |lots| ==> 0 < lots[a] <= MAX_ATOMS
    ensures OrdersFault(orders, |orders|, |lots|, slot) == if r.Ok? then None else Some(r.error)
    ensures r.Ok? ==> Sized(orders, lots, |orders|)
    ensures r.Ok? ==> r.value.0 == LotCapacities(orders, lots, |orders|)
    ensures r.Ok? ==> r.value.1 == Sum(LotRequests(orders, lots, |orders|))
  {
    hide OrdersFault, OrderFault, Sum, LotCapacity, RequestedLots;
    var capacities: seq<nat>, total: nat := [], 0;
    NothingAdmittedYet(orders, lots, slot);
    for i := 0 to |orders|
      invariant OrdersFault(orders, i, |lots|, slot).None?
      invariant Sized(orders, lots, i)
      invariant capacities == LotCapacities(orders, lots, i)
      invariant total == Sum(LotRequests(orders, lots, i)) <= i * MAX_ATOMS
    {
      var fault := OrderFault(orders, i, |lots|, slot);
      if fault.Some? {
        EarlierFaultWins(orders, i, |orders|, |lots|, slot);
        return Err(fault.value);
      }
      NextOrderAdmitted(orders, i, |lots|, slot);
      var o := orders[i];
      var requested := RequestedLots(o, lots);
      RequestFits(o, lots);
      total := total + requested;
      if total > U128_MAX {
        return Err(Arithmetic);
      }
      capacities := capacities + [LotCapacity(o, lots)];
      SumSnoc(LotRequests(orders, lots, i), requested);
      assert LotRequests(orders, lots, i + 1) == LotRequests(orders, lots, i) + [requested];
    }
    return Ok((capacities, total));
  }

  method FillLot(orders: seq<FlowIntent>, lots: seq<nat>, ghost capacities: seq<nat>, flows: seq<nat>, i: nat)
    returns (r: Result<FoldFill>)
    requires Fillable(orders, lots, capacities, flows) && i < |orders|
    ensures r.Ok? && r.value == FillsOf(orders, lots, flows)[i]
  {
    var o := orders[i];
    FillableFill(orders, lots, capacities, flows, i);
    hide Fillable;
    var input, output := flows[i] * lots[o.sell], flows[i] * lots[o.buy];
    if input > U128_MAX || output > U128_MAX {
      return Err(Arithmetic);
    }
    if input > U64_MAX || output > U64_MAX {
      return Err(Arithmetic);
    }
    var fill := FoldFill(input, output);
    if fill.input > o.amount || fill.output * o.amount < fill.input * o.minOut {
      return Err(BalanceInvariant);
    }
    return Ok(fill);
  }

  lemma FlowsAreSmall(orders: seq<FlowIntent>, lots: seq<nat>, capacities: seq<nat>, flows: seq<nat>)
    requires Fillable(orders, lots, capacities, flows)
    ensures |flows| == |orders| <= MAX_INTENTS
    ensures forall i :: 0 <= i < |flows| ==> flows[i] <= MAX_ATOMS
  {
    forall i | 0 <= i < |flows|
      ensures flows[i] <= MAX_ATOMS
    {
      FillableFill(orders, lots, capacities, flows, i);
      Mono(1, lots[orders[i].sell], flows[i]);
    }
  }

  /** The settlement loop of `fold_lots`; none of its errors can occur. */
  method FillLots(orders: seq<FlowIntent>, lots: seq<nat>, ghost capacities: seq<nat>, flows: seq<nat>)
    returns (r: Result<(seq<FoldFill>, nat)>)
    requires Fillable(orders, lots, capacities, flows)
    ensures r.Ok?
    ensures r.value.0 == Table(FillsOf(orders, lots, flows))
    ensures r.value.1 == Sum(flows)
  {
    hide Fillable, OnLattice, Table, FillsOf, Accounts, Sum, Sells, Buys, Conserves;
    FillableShape(orders, lots, capacities, flows);
    ghost var expected := FillsOf(orders, lots, flows);
    var fills := new FoldFill[MAX_INTENTS](_ => FoldFill(0, 0));
    var debit := new nat[MAX_ASSETS](_ => 0);
    var credit := new nat[MAX_ASSETS](_ => 0);
    var cleared: nat := 0;
    FlowsAreSmall(orders, lots, capacities, flows);
    NothingPosted(orders, expected, debit[..], credit[..]);
    SumOfNone();
    TableIs(expected);
    for i := 0 to |orders|
      invariant Accounts(orders, expected, i, debit[..], credit[..])
      invariant fills[..] == expected[..i] + seq(MAX_INTENTS - i, _ => FoldFill(0, 0))
      invariant cleared == Sum(flows[..i]) <= i * MAX_ATOMS
    {
      var fill := FillLot(orders, lots, capacities, flows, i);
      fills[i] := fill.value;
      SumTake(flows, i);
      cleared := cleared + flows[i];
      if cleared > U128_MAX {
        return Err(Arithmetic);
      }
      Post(orders, expected, fill.value, i, debit, credit);
    }
    assert flows[..|orders|] == flows && expected[..|orders|] == expected;
    EqualColumns(orders, expected, debit[..], credit[..]);
    FillableConserves(orders, lots, capacities, flows);
    if debit[..] != credit[..] {
      return Err(BalanceInvariant);
    }
    return Ok((fills[..], cleared));
  }

  /** The lot table of a report has a fixed size, too. */
  ghost function LotTable(lots: seq<nat>): (rows: seq<nat>)
    requires |lots| <= MAX_ASSETS
    ensures |rows| == MAX_ASSETS && rows[..|lots|] == lots
  {
    lots + seq(MAX_ASSETS - |lots|, _ => 0)
  }

  ghost predicate ReportsLots(orders: seq<FlowIntent>, lots: seq<nat>, flows: seq<nat>, report: LotFoldReport)
    requires Sized(orders, lots, |orders|) && |orders| <= MAX_INTENTS && |lots| <= MAX_ASSETS
    requires OnLattice(orders, lots)
  {
    var capacities := LotCapacities(orders, lots, |orders|);
    && IsCirculation(orders, capacities, flows)
    && report.fills == Table(FillsOf(orders, lots, flows))
    && report.lotSizes == LotTable(lots)
    && report.clearedLots == Sum(flows)
    && (report.optimal <==> IsMaximum(orders, capacities, flows))
    && report.reversePivots <= report.pivots <= Sum(flows)
  }

  ghost predicate IsLotFolded(orders: seq<FlowIntent>, lots: seq<nat>, report: LotFoldReport) {
    && Sized(orders, lots, |orders|) && |orders| <= MAX_INTENTS && |lots| <= MAX_ASSETS
    && OnLattice(orders, lots)
    && report.requestedLots == Sum(LotRequests(orders, lots, |orders|))
    && exists flows: seq<nat> :: ReportsLots(orders, lots, flows, report)
  }

  lemma AdmittedLotsAreFillable(orders: seq<FlowIntent>, lots: seq<nat>, slot: nat, flows: seq<nat>)
    requires |orders| <= MAX_INTENTS && |lots| <= MAX_ASSETS && Sized(orders, lots, |orders|)
    requires OrdersFault(orders, |orders|, |lots|, slot).None?
    requires IsCirculation(orders, LotCapacities(orders, lots, |orders|), flows)
    ensures Fillable(orders, lots, LotCapacities(orders, lots, |orders|), flows)
  {
    hide Admitted, LotCapacity;
    NoOrdersFault(orders, |orders|, |lots|, slot);
    forall i | 0 <= i < |orders|
      ensures Admitted(orders[i], lots, LotCapacity(orders[i], lots))
    {
      LotCapacityAdmitted(orders[i], lots);
    }
  }

  /** Maximum clearing on a lot lattice. Apart from faulty inputs, only the work
      budget can stop it. */
  method ComputeFoldLots(orders: seq<FlowIntent>, lots: seq<nat>, slot: nat, maxPivots: nat, meter: WorkMeter)
    returns (r: Result<LotFoldReport>)
    modifies meter`used
    ensures r.Ok? ==> LotFoldFault(orders, lots, slot, maxPivots).None? && IsLotFolded(orders, lots, r.value)
    ensures r.Ok? ==> r.value.pivots <= maxPivots && (r.value.optimal || r.value.pivots == maxPivots)
    ensures LotFoldFault(orders, lots, slot, maxPivots).Some? ==>
              r == Err(LotFoldFault(orders, lots, slot, maxPivots).value)
    ensures LotFoldFault(orders, lots, slot, maxPivots).None? && r.Err? ==> r.error.WorkLimit?
    ensures LotFoldFault(orders, lots, slot, maxPivots).None? && r.Err? ==>
              old(meter.used) + (maxPivots + 1) * SearchWork(|orders|, |lots|) > meter.limit
  {
    hide IsCirculation, IsMaximum, LotCapacities, OrdersFault, Fillable, OrderFault, Admitted;
    if |orders| == 0 || |orders| > MAX_INTENTS || |lots| < 2 || |lots| > MAX_ASSETS || maxPivots > MAX_PIVOTS
       || exists a :: 0 <= a < |lots| && (lots[a] == 0 || lots[a] > MAX_ATOMS) {
      return Err(Bounds);
    }
    var admitted := AdmitLots(orders, lots, slot);
    if admitted.Err? {
      return Err(admitted.error);
    }
    var (capacities, requested) := admitted.value;
    var flows := new nat[|orders|](_ => 0);
    ZeroIsCirculation(orders, capacities, flows[..]);
    var run := RunPivots(orders, capacities, flows, |lots|, maxPivots, meter);
    if run.Err? {
      return Err(run.error);
    }
    AdmittedLotsAreFillable(orders, lots, slot, flows[..]);
    var settled := FillLots(orders, lots, capacities, flows[..]);
    var report := LotFoldReport(settled.value.0, lots + seq(MAX_ASSETS - |lots|, _ => 0), requested, settled.value.1,
                                run.value.pivots, run.value.reversePivots, run.value.optimal);
    assert ReportsLots(orders, lots, flows[..], report);
    return Ok(report);
  }

  // ---------------------------------------------------------------- the checker

  /** One row of `validate_lot_fold`: a whole number of lots in, as many lots out. */
  ghost predicate ValidLotFill(o: FlowIntent, f: FoldFill, lots: seq<nat>)
    requires |lots| == MAX_ASSETS
  {
    && o.sell < MAX_ASSETS && o.buy < MAX_ASSETS && o.sell != o.buy && o.amount > 0
    && lots[o.sell] > 0 && lots[o.buy] > 0
    && MeetsLimit(o, f)
    && (f.input == 0 ==> f.output == 0)
    && f.input % lots[o.sell] == 0 && f.output % lots[o.buy] == 0
    && f.input / lots[o.sell] == f.output / lots[o.buy]
  }

  ghost function LotsFilled(orders: seq<FlowIntent>, fills: seq<FoldFill>, lots: seq<nat>, n: nat): (xs: seq<nat>)
    requires |lots| == MAX_ASSETS && n <= |orders| && n <= |fills|
    requires forall i :: 0 <= i < n ==> ValidLotFill(orders[i], fills[i], lots)
    ensures |xs| == n
  {
    seq(n, i requires 0 <= i < n => FilledLots(orders[i], fills[i], lots))
  }

  ghost function FilledLots(o: FlowIntent, f: FoldFill, lots: seq<nat>): nat
    requires |lots| == MAX_ASSETS && ValidLotFill(o, f, lots)
  {
    f.input / lots[o.sell]
  }

  /** What `validate_lot_fold` accepts. */
  ghost predicate ValidLotFold(orders: seq<FlowIntent>, report: LotFoldReport)
    requires |orders| <= |report.fills| && |report.lotSizes| == MAX_ASSETS
  {
    && (forall i :: 0 <= i < |orders| ==> ValidLotFill(orders[i], report.fills[i], report.lotSizes))
    && Conserves(orders, report.fills[..|orders|])
    && Sum(LotsFilled(orders, report.fills, report.lotSizes, |orders|)) == report.clearedLots
  }

  method CheckLotFill(o: FlowIntent, f: FoldFill, lots: seq<nat>) returns (ok: bool)
    requires |lots| == MAX_ASSETS
    ensures ok <==> ValidLotFill(o, f, lots)
  {
    if o.sell >= MAX_ASSETS || o.buy >= MAX_ASSETS || o.sell == o.buy || o.amount == 0 {
      return false;
    }
    var sellLot, buyLot := lots[o.sell], lots[o.buy];
    if sellLot == 0 || buyLot == 0 || f.input > o.amount || (f.input == 0 && f.output != 0)
       || f.input % sellLot != 0 || f.output % buyLot != 0 || f.input / sellLot != f.output / buyLot
       || f.output * o.amount < f.input * o.minOut {
      return false;
    }
    return true;
  }

  lemma ValidLotFillParts(o: FlowIntent, f: FoldFill, lots: seq<nat>)
    requires |lots| == MAX_ASSETS && ValidLotFill(o, f, lots)
    ensures o.sell < MAX_ASSETS && o.buy < MAX_ASSETS && lots[o.sell] > 0
    ensures FilledLots(o, f, lots) == f.input / lots[o.sell] <= o.amount
  {
    QuotientFits(f.input, lots[o.sell]);
  }

  /** The independent checker of a lot report. */
  method ValidateLotFold(orders: seq<FlowIntent>, report: LotFoldReport) returns (r: Result<()>)
    requires |report.fills| == MAX_INTENTS && |report.lotSizes| == MAX_ASSETS
    ensures r == if |orders| > MAX_INTENTS then Err(Bounds)
                 else if ValidLotFold(orders, report) then Ok(())
                 else Err(BalanceInvariant)
  {
    hide Accounts, Conserves, Sum, ValidLotFill, FilledLots, Tally, Sells, Buys, Inputs, Outputs;
    if |orders| > MAX_INTENTS {
      return Err(Bounds);
    }
    var lots := report.lotSizes;
    var debit := new nat[MAX_ASSETS](_ => 0);
    var credit := new nat[MAX_ASSETS](_ => 0);
    var cleared := 0;
    NothingPosted(orders, report.fills, debit[..], credit[..]);
    SumOfNone();
    for i := 0 to |orders|
      invariant forall j :: 0 <= j < i ==> ValidLotFill(orders[j], report.fills[j], lots)
      invariant forall j :: 0 <= j < i ==> orders[j].sell < MAX_ASSETS && orders[j].buy < MAX_ASSETS
      invariant Accounts(orders, report.fills, i, debit[..], credit[..])
      invariant cleared == Sum(LotsFilled(orders, report.fills, lots, i)) <= i * U64_MAX
    {
      var o, f := orders[i], report.fills[i];
      var ok := CheckLotFill(o, f, lots);
      if !ok {
        return Err(BalanceInvariant);
      }
      ValidLotFillParts(o, f, lots);
      SumSnoc(LotsFilled(orders, report.fills, lots, i), f.input / lots[o.sell]);
      assert LotsFilled(orders, report.fills, lots, i + 1) ==
             LotsFilled(orders, report.fills, lots, i) + [f.input / lots[o.sell]];
      cleared := cleared + f.input / lots[o.sell];
      if cleared > U128_MAX {
        return Err(Arithmetic);
      }
      Post(orders, report.fills, f, i, debit, credit);
    }
    EqualColumns(orders, report.fills, debit[..], credit[..]);
    if debit[..] != credit[..] || cleared != report.clearedLots {
      return Err(BalanceInvariant);
    }
    return Ok(());
  }

  lemma SumOfNone()
    ensures Sum([]) == 0
  {
  }

  lemma WholeLots(flow: nat, lot: nat)
    requires lot > 0
    ensures (flow * lot) % lot == 0 && (flow * lot) / lot == flow
  {
    MultipleOf(lot, flow);
    var n := flow * lot;
    assert n == lot * flow;
  }

  /** Every report of `fold_lots` passes the checker. */
  lemma LotFoldedIsValid(orders: seq<FlowIntent>, lots: seq<nat>, slot: nat, maxPivots: nat, report: LotFoldReport)
    requires LotFoldFault(orders, lots, slot, maxPivots).None? && IsLotFolded(orders, lots, report)
    ensures |report.fills| == MAX_INTENTS && |orders| <= MAX_INTENTS && |report.lotSizes| == MAX_ASSETS
    ensures ValidLotFold(orders, report)
  {
    hide IsMaximum, Fillable, Conserves, Sum, Admitted, OrdersFault;
    var flows: seq<nat> :| ReportsLots(orders, lots, flows, report);
    var fills := FillsOf(orders, lots, flows);
    NoOrdersFault(orders, |orders|, |lots|, slot);
    AdmittedLotsAreFillable(orders, lots, slot, flows);
    var capacities := LotCapacities(orders, lots, |orders|);
    forall i | 0 <= i < |orders|
      ensures ValidLotFill(orders[i], report.fills[i], report.lotSizes)
      ensures FilledLots(orders[i], report.fills[i], report.lotSizes) == flows[i]
    {
      FillableFill(orders, lots, capacities, flows, i);
      assert report.fills[i] == fills[i];
      assert forall a :: 0 <= a < |lots| ==> report.lotSizes[a] == lots[a];
      WholeLots(flows[i], lots[orders[i].sell]);
      WholeLots(flows[i], lots[orders[i].buy]);
    }
    FillableConserves(orders, lots, capacities, flows);
    assert report.fills[..|orders|] == fills;
    assert LotsFilled(orders, report.fills, report.lotSizes, |orders|) == flows;
  }

  /** The optimality flag, both ways. */
  lemma OptimalLotFlagIsExact(orders: seq<FlowIntent>, lots: seq<nat>, report: LotFoldReport)
    requires IsLotFolded(orders, lots, report)
    ensures report.optimal <==>
              forall g: seq<nat> :: IsCirculation(orders, LotCapacities(orders, lots, |orders|), g) ==>
                Sum(g) <= report.clearedLots
  {
    var flows: seq<nat> :| ReportsLots(orders, lots, flows, report);
  }
}
