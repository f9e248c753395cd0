/** Multi-transaction investment plans: a plan is bought in consecutive tranches, and
    the journal's reconciled prefix is the only cursor. */
module Investment {
  import opened Base
  import opened Entries

  const MAX_INPUT: nat := 100_000_000_000_000
  const MAX_ATOMIC_STOCKS: nat := 3

  // ---------------------------------------------------------------- plans

  function InputOf(holdings: seq<Holding>): nat {
    if |holdings| == 0 then 0 else InputOf(holdings[..|holdings| - 1]) + holdings[|holdings| - 1].inputAtoms
  }

  /** `Plan::validate`. */
  ghost predicate ValidPlan(p: Plan) {
    && p.spelled && 2 <= |p.allocations| <= 16 && 1 <= p.maxSlippageBps <= 100
    && 0 < p.totalInput <= MAX_INPUT
    && (forall i :: 0 <= i < |p.allocations| ==> p.allocations[i].inputAtoms > 0)
    && (forall i, j :: 0 <= i < j < |p.allocations| ==> p.allocations[i].instrument != p.allocations[j].instrument)
    && InputOf(p.allocations) + p.retainedCash == p.totalInput
  }

  lemma {:induction false} InputGrows(holdings: seq<Holding>, m: nat, n: nat)
    requires m <= n <= |holdings|
    ensures InputOf(holdings[..m]) <= InputOf(holdings[..n])
  {
    if m < n {
      InputGrows(holdings, m, n - 1);
      assert holdings[..n][..n - 1] == holdings[..n - 1];
    }
  }

  function NamesOf(holdings: seq<Holding>): (names: set<Key>)
    ensures forall x :: x in names <==> exists j :: 0 <= j < |holdings| && holdings[j].instrument == x
  {
    if |holdings| == 0 then {}
    else
      assert forall j :: 0 <= j < |holdings| - 1 ==> holdings[j] == holdings[..|holdings| - 1][j];
      NamesOf(holdings[..|holdings| - 1]) + {holdings[|holdings| - 1].instrument}
  }

  ghost predicate Holdable(holdings: seq<Holding>) {
    && (forall i :: 0 <= i < |holdings| ==> holdings[i].inputAtoms > 0)
    && forall i, j :: 0 <= i < j < |holdings| ==> holdings[i].instrument != holdings[j].instrument
  }

  lemma HoldableNext(all: seq<Holding>, i: nat)
    requires i < |all| && Holdable(all[..i])
    ensures all[..i + 1][..i] == all[..i]
    ensures InputOf(all[..i + 1]) == InputOf(all[..i]) + all[i].inputAtoms
    ensures NamesOf(all[..i + 1]) == NamesOf(all[..i]) + {all[i].instrument}
    ensures Holdable(all[..i + 1]) <==> all[i].inputAtoms > 0 && all[i].instrument !in NamesOf(all[..i])
    ensures Holdable(all) ==> Holdable(all[..i + 1])
  {
    var a, b := all[..i], all[..i + 1];
    assert b[..i] == a && b[i] == all[i];
    hide NamesOf;
    assert forall j :: 0 <= j < i ==> b[j] == a[j];
  }

  method CheckPlan(p: Plan) returns (ok: bool)
    ensures ok <==> ValidPlan(p)
  {
    hide InputOf, NamesOf, Holdable, ValidPlan;
    var all := p.allocations;
    var sum: nat, names: set<Key> := p.retainedCash, {};
    ValidHolds(p);
    if !p.spelled || |all| < 2 || |all| > 16 || p.maxSlippageBps < 1 || p.maxSlippageBps > 100
       || p.totalInput == 0 || p.totalInput > MAX_INPUT {
      return false;
    }
    NothingHeld(all);
    for i := 0 to |all|
      invariant sum == p.retainedCash + InputOf(all[..i]) && sum <= U64_MAX
      invariant names == NamesOf(all[..i]) && Holdable(all[..i])
    {
      HoldableNext(all, i);
      InputGrows(all, i + 1, |all|);
      if all[i].inputAtoms == 0 || all[i].instrument in names {
        return false;
      }
      names := names + {all[i].instrument};
      sum := sum + all[i].inputAtoms;
      if sum > U64_MAX {
        assert all[..|all|] == all;
        return false;
      }
    }
    assert all[..|all|] == all;
    return sum == p.totalInput;
  }

  lemma ValidHolds(p: Plan)
    ensures ValidPlan(p) ==> Holdable(p.allocations)
    ensures ValidPlan(p) <==>
              && p.spelled && 2 <= |p.allocations| <= 16 && 1 <= p.maxSlippageBps <= 100
              && 0 < p.totalInput <= MAX_INPUT && Holdable(p.allocations)
              && InputOf(p.allocations) + p.retainedCash == p.totalInput
  {
  }

  lemma NothingHeld(all: seq<Holding>)
    ensures InputOf(all[..0]) == 0 && NamesOf(all[..0]) == {} && Holdable(all[..0])
  {
  }

  // ---------------------------------------------------------------- the fixed partition

  function StepFrom(left: nat): nat {
    if left == 4 then 2 else Min(left, MAX_ATOMIC_STOCKS)
  }

  /** The groups bought when nothing forces a smaller one. */
  function RangesFrom(start: nat, n: nat): seq<StockRange>
    requires start <= n
    decreases n - start
  {
    if start == n then []
    else [StockRange(start, start + StepFrom(n - start))] + RangesFrom(start + StepFrom(n - start), n)
  }

  method Ranges(p: Plan) returns (out: seq<StockRange>)
    ensures out == RangesFrom(0, |p.allocations|)
  {
    hide *;
    out := [];
    var start: nat, n := 0, |p.allocations|;
    while start < n
      invariant start <= n && out + RangesFrom(start, n) == RangesFrom(0, n)
    {
      StepPositive(n - start);
      RangesStep(start, n);
      var step := StepFrom(n - start);
      out := out + [StockRange(start, start + step)];
      start := start + step;
    }
    RangesDone(n);
  }

  lemma RangesStep(start: nat, n: nat)
    requires start < n && 0 < StepFrom(n - start) <= n - start
    ensures var next := start + StepFrom(n - start);
            RangesFrom(start, n) == [StockRange(start, next)] + RangesFrom(next, n)
  {
  }

  lemma RangesDone(n: nat)
    ensures RangesFrom(n, n) == []
  {
  }

  lemma StepPositive(left: nat)
    requires left > 0
    ensures 0 < StepFrom(left) <= left
  {
  }

  /** The groups tile the stocks in order, and none is a singleton. */
  lemma {:induction false} RangesTile(start: nat, n: nat)
    requires start <= n && n - start != 1
    ensures var rs := RangesFrom(start, n);
            && (forall i :: 0 <= i < |rs| ==> 2 <= rs[i].end - rs[i].start <= MAX_ATOMIC_STOCKS && rs[i].end <= n)
            && (forall i :: 0 < i < |rs| ==> rs[i].start == rs[i - 1].end)
            && (|rs| > 0 <==> start < n)
            && (|rs| > 0 ==> rs[0].start == start && rs[|rs| - 1].end == n)
    decreases n - start
  {
    if start < n {
      var next := start + StepFrom(n - start);
      RangesTile(next, n);
      var rs, rest := RangesFrom(start, n), RangesFrom(next, n);
      assert rs[0] == StockRange(start, next);
      assert forall i :: 0 < i < |rs| ==> rs[i] == rest[i - 1];
    }
  }

  /** Some way to buy the stocks from `start` to n in consecutive groups of two or three. */
  ghost predicate IsGrouping(start: nat, n: nat, rs: seq<StockRange>)
    decreases |rs|
  {
    if |rs| == 0 then start == n
    else
      && rs[0].start == start && start + 2 <= rs[0].end <= start + 3 && rs[0].end <= n
      && IsGrouping(rs[0].end, n, rs[1..])
  }

  /** No group is larger than the one before it. */
  ghost predicate LargerFirst(rs: seq<StockRange>) {
    forall i :: 0 < i < |rs| ==> rs[i].end - rs[i].start <= rs[i - 1].end - rs[i - 1].start
  }

  lemma {:induction false} RangesGroup(start: nat, n: nat)
    requires start <= n && n - start != 1
    ensures IsGrouping(start, n, RangesFrom(start, n)) && LargerFirst(RangesFrom(start, n))
    ensures n - start <= 3 * |RangesFrom(start, n)| < n - start + 3
    decreases n - start
  {
    if start < n {
      var next := start + StepFrom(n - start);
      RangesGroup(next, n);
      var rest := RangesFrom(next, n);
      if |rest| > 0 {
        assert rest[0] == StockRange(next, next + StepFrom(n - next));
      }
      HeadLarger(StockRange(start, next), rest);
    }
  }

  lemma HeadLarger(r: StockRange, rest: seq<StockRange>)
    requires LargerFirst(rest) && (|rest| > 0 ==> rest[0].end - rest[0].start <= r.end - r.start)
    ensures LargerFirst([r] + rest) && ([r] + rest)[1..] == rest
  {
    var rs := [r] + rest;
    forall i | 0 < i < |rs|
      ensures rs[i].end - rs[i].start <= rs[i - 1].end - rs[i - 1].start
    {
      assert rs[i] == rest[i - 1];
      if i > 1 {
        assert rs[i - 1] == rest[i - 2];
      }
    }
  }

  lemma {:induction false} GroupingBounds(start: nat, n: nat, rs: seq<StockRange>)
    requires IsGrouping(start, n, rs)
    ensures start + 2 * |rs| <= n <= start + 3 * |rs|
    decreases |rs|
  {
    if |rs| > 0 {
      GroupingBounds(rs[0].end, n, rs[1..]);
    }
  }

  /** No grouping needs fewer groups. */
  lemma RangesAreFewest(start: nat, n: nat, rs: seq<StockRange>)
    requires start <= n && n - start != 1 && IsGrouping(start, n, rs)
    ensures |RangesFrom(start, n)| <= |rs|
  {
    RangesGroup(start, n);
    GroupingBounds(start, n, rs);
  }

  lemma {:induction false} PairsOnly(start: nat, n: nat, rs: seq<StockRange>)
    requires IsGrouping(start, n, rs) && LargerFirst(rs) && |rs| > 0 && rs[0].end == start + 2
    ensures n == start + 2 * |rs|
    decreases |rs|
  {
    if |rs| > 1 {
      TailLargerFirst(rs);
      assert rs[1].end - rs[1].start <= rs[0].end - rs[0].start;
      PairsOnly(rs[0].end, n, rs[1..]);
    }
  }

  lemma TailLargerFirst(rs: seq<StockRange>)
    requires LargerFirst(rs) && |rs| > 0
    ensures LargerFirst(rs[1..])
  {
    forall i | 0 < i < |rs[1..]|
      ensures rs[1..][i].end - rs[1..][i].start <= rs[1..][i - 1].end - rs[1..][i - 1].start
    {
      assert rs[1..][i] == rs[i + 1] && rs[1..][i - 1] == rs[i];
    }
  }

  /** Of the groupings with the fewest groups, the fixed one is the one that puts the
      larger groups first. */
  lemma {:induction false} RangesAreTheOnes(start: nat, n: nat, rs: seq<StockRange>)
    requires start <= n && n - start != 1
    requires IsGrouping(start, n, rs) && LargerFirst(rs) && |rs| == |RangesFrom(start, n)|
    ensures rs == RangesFrom(start, n)
    decreases n - start
  {
    RangesGroup(start, n);
    if |rs| > 0 {
      GroupingBounds(rs[0].end, n, rs[1..]);
      if rs[0].end == start + 2 {
        PairsOnly(start, n, rs);
      }
      assert rs[0] == StockRange(start, start + StepFrom(n - start));
      TailLargerFirst(rs);
      RangesAreTheOnes(rs[0].end, n, rs[1..]);
      assert rs == [rs[0]] + rs[1..];
    }
  }

  /** The i-th fixed group starts between i and 3 i. */
  lemma {:induction false} RangesPace(start: nat, n: nat, i: nat)
    requires start <= n && n - start != 1 && i < |RangesFrom(start, n)|
    ensures start + i <= RangesFrom(start, n)[i].start <= start + MAX_ATOMIC_STOCKS * i
    decreases n - start
  {
    if i > 0 {
      var next := start + StepFrom(n - start);
      assert RangesFrom(start, n)[i] == RangesFrom(next, n)[i - 1];
      RangesPace(next, n, i - 1);
    }
  }

  // ---------------------------------------------------------------- tranches

  /** `Tranche::range`. */
  ghost function RangeOf(t: Tranche): Outcome<StockRange> {
    if !ValidPlan(t.plan) then Refused(PlanInvalid)
    else if t.stockRange.Some? then
      var r := t.stockRange.value;
      if r.start >= r.end || r.end > |t.plan.allocations| || r.end - r.start > MAX_ATOMIC_STOCKS
         || t.index > r.start || t.index * MAX_ATOMIC_STOCKS < r.start then Refused(RangeInvalid)
      else Done(r)
    else
      var rs := RangesFrom(0, |t.plan.allocations|);
      if t.index < |rs| then Done(rs[t.index]) else Refused(StepMissing)
  }

  method Range(t: Tranche) returns (r: Outcome<StockRange>)
    ensures r == RangeOf(t)
  {
    var ok := CheckPlan(t.plan);
    if !ok {
      return Refused(PlanInvalid);
    }
    if t.stockRange.Some? {
      var s := t.stockRange.value;
      if s.start >= s.end || s.end > |t.plan.allocations| || s.end - s.start > MAX_ATOMIC_STOCKS
         || t.index > s.start || t.index * MAX_ATOMIC_STOCKS < s.start {
        return Refused(RangeInvalid);
      }
      return Done(s);
    }
    var rs := Ranges(t.plan);
    if t.index < |rs| {
      return Done(rs[t.index]);
    }
    return Refused(StepMissing);
  }

  /** A range covers one to three stocks of the plan. */
  lemma RangeShape(t: Tranche)
    requires RangeOf(t).Done?
    ensures ValidPlan(t.plan)
    ensures var r := RangeOf(t).value; r.start < r.end <= |t.plan.allocations| && r.end - r.start <= MAX_ATOMIC_STOCKS
    ensures t.index <= RangeOf(t).value.start <= MAX_ATOMIC_STOCKS * t.index
  {
    if t.stockRange.None? {
      RangesTile(0, |t.plan.allocations|);
      RangesPace(0, |t.plan.allocations|, t.index);
    }
  }

  /** The stocks bought by a tranche. */
  function StocksOf(p: Plan, r: StockRange): seq<Holding>
    requires r.start <= r.end <= |p.allocations|
  {
    p.allocations[r.start..r.end]
  }

  /** `Tranche::validate`: the basket buys exactly the tranche's stocks. */
  ghost predicate Bound(b: Basket, t: Tranche) {
    && RangeOf(t).Done?
    && b.owner == t.plan.owner && b.strategyVersion == t.plan.versionHash && b.retainedCash == 0
    && RangeOf(t).value.start <= RangeOf(t).value.end <= |t.plan.allocations|
    && b.targets == StocksOf(t.plan, RangeOf(t).value)
    && b.totalInput == InputOf(b.targets)
  }

  method CheckBinding(b: Basket, t: Tranche) returns (ok: bool)
    ensures ok <==> Bound(b, t)
  {
    var range := Range(t);
    if range.Refused? {
      return false;
    }
    RangeShape(t);
    var stocks := StocksOf(t.plan, range.value);
    var sum: nat := 0;
    for i := 0 to |stocks|
      invariant sum == InputOf(stocks[..i])
    {
      assert stocks[..i + 1][..i] == stocks[..i];
      sum := sum + stocks[i].inputAtoms;
    }
    assert stocks[..|stocks|] == stocks;
    if b.owner != t.plan.owner || b.strategyVersion != t.plan.versionHash || b.retainedCash != 0
       || b.totalInput != sum || |b.targets| != |stocks| {
      return false;
    }
    for i := 0 to |stocks|
      invariant b.targets[..i] == stocks[..i]
    {
      if b.targets[i] != stocks[i] {
        return false;
      }
      assert b.targets[..i + 1] == b.targets[..i] + [b.targets[i]];
    }
    assert b.targets == b.targets[..|stocks|];
    return true;
  }

  // ---------------------------------------------------------------- the line of tranches

  predicate OfPlan(e: Entry, p: Plan) {
    TrancheOf(e).Some? && TrancheOf(e).value.plan.id == p.id
  }

  /** An entry that still counts: its purchase has not failed. */
  predicate Live(e: Entry, p: Plan) {
    OfPlan(e, p) && e.phase != Failed
  }

  ghost predicate Genuine(e: Entry, p: Plan)
    requires OfPlan(e, p)
  {
    TrancheOf(e).value.plan == p && Bound(e.basket.value, TrancheOf(e).value)
  }

  function IndexOf(e: Entry, p: Plan): nat
    requires OfPlan(e, p)
  {
    TrancheOf(e).value.index
  }

  /** Start and end of an entry's stocks; nothing for entries without a range. */
  ghost function StartOf(e: Entry): nat {
    if TrancheOf(e).Some? && RangeOf(TrancheOf(e).value).Done? then RangeOf(TrancheOf(e).value).value.start else 0
  }

  ghost function EndOf(e: Entry): nat {
    if TrancheOf(e).Some? && RangeOf(TrancheOf(e).value).Done? then RangeOf(TrancheOf(e).value).value.end else 0
  }

  /** Consecutive ranges from the first stock, all but the last reconciled. */
  ghost predicate Chained(line: seq<Entry>) {
    && (forall j :: 0 <= j < |line| ==> StartOf(line[j]) == EndBefore(line, j))
    && forall j :: 0 <= j < |line| - 1 ==> line[j].phase == Reconciled
  }

  /** Where step j must start. */
  ghost function EndBefore(line: seq<Entry>, j: nat): nat
    requires j <= |line|
  {
    if j == 0 then 0 else EndOf(line[j - 1])
  }

  /** The line holds exactly the live entries of the plan, each at its own index,
      and every entry of the plan is genuine. */
  ghost predicate Members(p: Plan, entries: set<Entry>, line: seq<Entry>) {
    && (forall e :: e in entries && OfPlan(e, p) ==> Genuine(e, p))
    && (forall j :: 0 <= j < |line| ==> line[j] in entries && Live(line[j], p) && IndexOf(line[j], p) == j)
    && (forall e :: e in entries && Live(e, p) ==> IndexOf(e, p) < |line| && line[IndexOf(e, p)] == e)
  }

  /** The live entries of a valid plan, in step order: consecutive ranges from the
      first stock, all but the last reconciled. */
  ghost predicate Line(p: Plan, entries: set<Entry>, line: seq<Entry>) {
    ValidPlan(p) && Members(p, entries, line) && Chained(line)
  }

  datatype Progress = Ready(index: nat) | Pending(index: nat) | Complete

  /** Stocks bought by the reconciled prefix. */
  ghost function Bought(line: seq<Entry>): nat {
    if |line| == 0 then 0
    else if line[|line| - 1].phase == Reconciled then EndOf(line[|line| - 1])
    else StartOf(line[|line| - 1])
  }

  ghost function ProgressOf(p: Plan, line: seq<Entry>): Progress {
    if |line| > 0 && line[|line| - 1].phase != Reconciled then Pending(|line| - 1)
    else if Bought(line) == |p.allocations| then Complete
    else Ready(|line|)
  }

  lemma LineAtMost(p: Plan, entries: set<Entry>, a: seq<Entry>, b: seq<Entry>)
    requires Line(p, entries, a) && Line(p, entries, b)
    ensures |a| <= |b|
  {
    hide Genuine, ValidPlan;
    if |a| > 0 {
      assert a[|a| - 1] in entries && Live(a[|a| - 1], p);
    }
  }

  lemma LineUnique(p: Plan, entries: set<Entry>, a: seq<Entry>, b: seq<Entry>)
    requires Line(p, entries, a) && Line(p, entries, b)
    ensures a == b
  {
    LineAtMost(p, entries, a, b);
    LineAtMost(p, entries, b, a);
    hide Genuine, ValidPlan;
    forall j | 0 <= j < |a|
      ensures a[j] == b[j]
    {
      assert a[j] in entries && Live(a[j], p);
    }
  }

  lemma LineEntry(p: Plan, entries: set<Entry>, line: seq<Entry>, j: nat)
    requires Line(p, entries, line) && j < |line|
    ensures StartOf(line[j]) < EndOf(line[j]) <= |p.allocations| && EndOf(line[j]) - StartOf(line[j]) <= MAX_ATOMIC_STOCKS
    ensures OfPlan(line[j], p) && line[j].basket.Some? && Genuine(line[j], p)
    ensures RangeOf(TrancheOf(line[j]).value) == Done(StockRange(StartOf(line[j]), EndOf(line[j])))
    ensures StartOf(line[j]) == EndBefore(line, j)
  {
    assert Genuine(line[j], p);
    RangeShape(TrancheOf(line[j]).value);
  }

  /** Step k starts between stock k and stock 3 k. */
  lemma {:induction false} LinePace(p: Plan, entries: set<Entry>, line: seq<Entry>, k: nat)
    requires Line(p, entries, line) && k <= |line|
    ensures k <= EndBefore(line, k) <= MAX_ATOMIC_STOCKS * k
  {
    hide Line, StartOf, EndOf, Genuine;
    if k > 0 {
      LinePace(p, entries, line, k - 1);
      LineEntry(p, entries, line, k - 1);
    }
  }

  /** No stock is bought twice: ranges of different live steps do not meet. */
  lemma {:induction false} LineDisjoint(p: Plan, entries: set<Entry>, line: seq<Entry>, i: nat, j: nat)
    requires Line(p, entries, line) && i < j < |line|
    ensures EndOf(line[i]) <= StartOf(line[j])
    decreases j
  {
    hide Line, StartOf, EndOf, Genuine;
    LineEntry(p, entries, line, j);
    if i < j - 1 {
      LineDisjoint(p, entries, line, i, j - 1);
      LineEntry(p, entries, line, j - 1);
    }
  }

  ghost function Spent(line: seq<Entry>): nat {
    if |line| == 0 then 0
    else Spent(line[..|line| - 1]) + (if line[|line| - 1].basket.Some? then line[|line| - 1].basket.value.totalInput else 0)
  }

  lemma {:induction false} InputConcat(a: seq<Holding>, b: seq<Holding>)
    ensures InputOf(a + b) == InputOf(a) + InputOf(b)
  {
    if |b| == 0 {
      assert a + b == a;
    } else {
      InputConcat(a, b[..|b| - 1]);
      assert (a + b)[..|a + b| - 1] == a + b[..|b| - 1];
    }
  }

  lemma StocksAdd(p: Plan, s: nat, e: nat)
    requires s <= e <= |p.allocations|
    ensures InputOf(p.allocations[..e]) == InputOf(p.allocations[..s]) + InputOf(StocksOf(p, StockRange(s, e)))
  {
    InputConcat(p.allocations[..s], p.allocations[s..e]);
    assert p.allocations[..s] + p.allocations[s..e] == p.allocations[..e];
  }

  lemma SpentSnoc(line: seq<Entry>, k: nat)
    requires 0 < k <= |line| && line[k - 1].basket.Some?
    ensures Spent(line[..k]) == Spent(line[..k - 1]) + line[k - 1].basket.value.totalInput
  {
    assert line[..k][..k - 1] == line[..k - 1];
  }

  lemma EndNext(line: seq<Entry>, k: nat)
    requires 0 < k <= |line|
    ensures EndBefore(line, k) == EndOf(line[k - 1])
  {
  }

  /** What step j of a line cost. */
  lemma EntryCost(p: Plan, entries: set<Entry>, line: seq<Entry>, j: nat)
    requires Line(p, entries, line) && j < |line|
    ensures line[j].basket.Some? && StartOf(line[j]) <= EndOf(line[j]) <= |p.allocations|
    ensures line[j].basket.value.totalInput == InputOf(StocksOf(p, StockRange(StartOf(line[j]), EndOf(line[j]))))
    ensures StartOf(line[j]) == EndBefore(line, j)
  {
    LineEntry(p, entries, line, j);
    hide Line, Live, InputOf, RangeOf, StartOf, EndOf, EndBefore;
  }

  /** The first k steps cost exactly the plan's inputs for their stocks. */
  lemma {:induction false} SpentIsPrefix(p: Plan, entries: set<Entry>, line: seq<Entry>, k: nat)
    requires Line(p, entries, line) && k <= |line|
    ensures EndBefore(line, k) <= |p.allocations|
    ensures Spent(line[..k]) == InputOf(p.allocations[..EndBefore(line, k)])
  {
    if k == 0 {
      hide Line;
      assert line[..0] == [] && p.allocations[..0] == [];
    } else {
      hide *;
      SpentIsPrefix(p, entries, line, k - 1);
      EntryCost(p, entries, line, k - 1);
      SpentSnoc(line, k);
      StocksAdd(p, StartOf(line[k - 1]), EndOf(line[k - 1]));
      EndNext(line, k);
    }
  }

  lemma CompleteMeans(p: Plan, line: seq<Entry>)
    requires Chained(line) && ProgressOf(p, line) == Complete && |p.allocations| > 0
    ensures EndBefore(line, |line|) == |p.allocations|
    ensures forall j :: 0 <= j < |line| ==> line[j].phase == Reconciled
  {
    hide StartOf, EndOf;
  }

  /** A complete plan has bought every stock once, and what its steps cost together
      with the retained cash is the whole input. */
  lemma CompleteConserves(p: Plan, entries: set<Entry>, line: seq<Entry>)
    requires Line(p, entries, line) && ProgressOf(p, line) == Complete
    ensures Spent(line) + p.retainedCash == p.totalInput
    ensures forall j :: 0 <= j < |line| ==> line[j].phase == Reconciled
  {
    assert |p.allocations| > 0 && InputOf(p.allocations) + p.retainedCash == p.totalInput;
    CompleteMeans(p, line);
    hide Line, Spent, InputOf, EndBefore, ProgressOf;
    SpentIsPrefix(p, entries, line, |line|);
    assert line[..|line|] == line && p.allocations[..|p.allocations|] == p.allocations;
  }

  /** Until a plan is complete and unless a step is pending, every group of one to
      three of the next stocks is an acceptable next tranche. */
  lemma NextTrancheExists(p: Plan, entries: set<Entry>, line: seq<Entry>, count: nat)
    requires Line(p, entries, line) && ProgressOf(p, line).Ready?
    requires 0 < count <= MAX_ATOMIC_STOCKS && Bought(line) + count <= |p.allocations|
    ensures ProgressOf(p, line) == Ready(|line|)
    ensures RangeOf(Tranche(p, |line|, Some(StockRange(Bought(line), Bought(line) + count))))
            == Done(StockRange(Bought(line), Bought(line) + count))
  {
    LinePace(p, entries, line, |line|);
  }

  lemma RoomLeft(p: Plan, entries: set<Entry>, line: seq<Entry>)
    requires Line(p, entries, line) && ProgressOf(p, line).Ready?
    ensures Bought(line) < |p.allocations|
  {
    if |line| > 0 {
      LineEntry(p, entries, line, |line| - 1);
    }
  }

  // ---------------------------------------------------------------- the cursor

  function SetOf(entries: seq<Entry>): set<Entry> {
    set e | e in entries
  }

  ghost predicate NoRepeats(entries: seq<Entry>) {
    forall a, b :: 0 <= a < b < |entries| ==> entries[a] != entries[b]
  }

  /** The live entries found so far, by index. */
  ghost predicate Rows(p: Plan, entries: set<Entry>, rows: map<nat, Entry>, states: map<nat, (StockRange, Phase)>) {
    && (forall e :: e in entries && OfPlan(e, p) ==> Genuine(e, p))
    && rows.Keys == states.Keys
    && (forall k :: k in rows ==> rows[k] in entries && Live(rows[k], p) && IndexOf(rows[k], p) == k)
    && (forall k :: k in states ==> states[k] == (StockRange(StartOf(rows[k]), EndOf(rows[k])), rows[k].phase))
    && forall e :: e in entries && Live(e, p) ==> IndexOf(e, p) in rows && rows[IndexOf(e, p)] == e
  }

  lemma GenuineRange(e: Entry, p: Plan)
    requires OfPlan(e, p) && Genuine(e, p)
    ensures RangeOf(TrancheOf(e).value) == Done(StockRange(StartOf(e), EndOf(e)))
  {
  }

  lemma RowsSkip(p: Plan, entries: set<Entry>, rows: map<nat, Entry>, states: map<nat, (StockRange, Phase)>, e: Entry)
    requires Rows(p, entries, rows, states) && (OfPlan(e, p) ==> Genuine(e, p) && e.phase == Failed)
    ensures Rows(p, entries + {e}, rows, states)
  {
    hide Genuine;
  }

  lemma RowsAdd(p: Plan, entries: set<Entry>, rows: map<nat, Entry>, states: map<nat, (StockRange, Phase)>, e: Entry)
    requires Rows(p, entries, rows, states) && Live(e, p) && Genuine(e, p) && IndexOf(e, p) !in rows
    ensures Rows(p, entries + {e}, rows[IndexOf(e, p) := e],
                 states[IndexOf(e, p) := (StockRange(StartOf(e), EndOf(e)), e.phase)])
  {
    hide Genuine, StartOf, EndOf;
  }

  /** Collect the live tranches of a plan. */
  method Collect(p: Plan, entries: seq<Entry>)
    returns (r: Outcome<map<nat, (StockRange, Phase)>>, ghost rows: map<nat, Entry>)
    ensures r.Done? ==> Rows(p, SetOf(entries), rows, r.value)
    ensures r.Refused? && NoRepeats(entries) ==> forall line :: !Line(p, SetOf(entries), line)
  {
    var states: map<nat, (StockRange, Phase)> := map[];
    rows := map[];
    assert SetOf(entries[..0]) == {};
    for i := 0 to |entries|
      invariant Rows(p, SetOf(entries[..i]), rows, states)
    {
      var e := entries[i];
      assert SetOf(entries[..i + 1]) == SetOf(entries[..i]) + {e};
      assert e in SetOf(entries);
      if !OfPlan(e, p) {
        RowsSkip(p, SetOf(entries[..i]), rows, states, e);
        continue;
      }
      var t := TrancheOf(e).value;
      if t.plan != p {
        NotGenuine(p, SetOf(entries), e);
        return Refused(PlanCollision), rows;
      }
      var bound := CheckBinding(e.basket.value, t);
      if !bound {
        NotGenuine(p, SetOf(entries), e);
        return Refused(BindingInvalid), rows;
      }
      assert Genuine(e, p);
      if e.phase == Failed {
        RowsSkip(p, SetOf(entries[..i]), rows, states, e);
        continue;
      }
      if t.index in states {
        if NoRepeats(entries) {
          assert rows[t.index] in SetOf(entries[..i]);
          IndexShared(p, SetOf(entries), rows[t.index], e);
        }
        return Refused(TrancheDuplicate), rows;
      }
      var range := Range(t);
      GenuineRange(e, p);
      RowsAdd(p, SetOf(entries[..i]), rows, states, e);
      states := states[t.index := (range.value, e.phase)];
      rows := rows[t.index := e];
    }
    assert entries[..|entries|] == entries;
    return Done(states), rows;
  }

  lemma NotGenuine(p: Plan, entries: set<Entry>, e: Entry)
    requires e in entries && OfPlan(e, p) && !Genuine(e, p)
    ensures forall line :: !Line(p, entries, line)
  {
    hide Genuine, ValidPlan;
  }

  lemma IndexShared(p: Plan, entries: set<Entry>, a: Entry, b: Entry)
    requires a in entries && b in entries && a != b && Live(a, p) && Live(b, p) && IndexOf(a, p) == IndexOf(b, p)
    ensures forall line :: !Line(p, entries, line)
  {
    hide Genuine, ValidPlan;
  }

  /** The rows are exactly the line, when there is one. */
  lemma RowsAreLine(
    p: Plan, entries: set<Entry>, rows: map<nat, Entry>, states: map<nat, (StockRange, Phase)>, line: seq<Entry>)
    requires Rows(p, entries, rows, states) && Line(p, entries, line)
    ensures forall k: nat :: k in rows <==> k < |line|
    ensures forall k :: 0 <= k < |line| ==> k in rows && rows[k] == line[k]
  {
    hide Genuine, ValidPlan, StartOf, EndOf;
    forall k | 0 <= k < |line|
      ensures k in rows && rows[k] == line[k]
    {
      assert line[k] in entries && Live(line[k], p);
    }
    forall k | k in rows
      ensures k < |line|
    {
      assert rows[k] in entries && Live(rows[k], p);
    }
  }

  lemma ChainedNext(line: seq<Entry>, e: Entry)
    requires Chained(line) && StartOf(e) == Bought(line) && (|line| > 0 ==> line[|line| - 1].phase == Reconciled)
    ensures Chained(line + [e])
    ensures Bought(line + [e]) == if e.phase == Reconciled then EndOf(e) else StartOf(e)
  {
    var longer := line + [e];
    assert longer[..|line|] == line;
    forall j | 0 <= j < |longer|
      ensures StartOf(longer[j]) == EndBefore(longer, j)
      ensures j < |line| ==> longer[j].phase == Reconciled
    {
      if j < |line| {
        assert longer[j] == line[j] && EndBefore(longer, j) == EndBefore(line, j);
      }
    }
  }

  /** The walked line is the beginning of the rows; the rest is still to come. */
  ghost predicate Prefixed(rows: map<nat, Entry>, line: seq<Entry>, remaining: set<nat>) {
    && (forall j :: 0 <= j < |line| ==> j in rows && line[j] == rows[j])
    && forall k: nat :: k in remaining <==> k in rows && k >= |line|
  }

  /** The walk over the collected tranches, in index order. */
  ghost predicate Walked(
    p: Plan, entries: set<Entry>, rows: map<nat, Entry>, states: map<nat, (StockRange, Phase)>,
    line: seq<Entry>, remaining: set<nat>, start: nat, index: nat, pending: Option<nat>)
  {
    && Rows(p, entries, rows, states) && Prefixed(rows, line, remaining) && Chained(line) && start == Bought(line)
    && (pending.None? ==> index == |line| && (|line| > 0 ==> line[|line| - 1].phase == Reconciled))
    && (pending.Some? ==> pending.value == index == |line| - 1 && line[|line| - 1].phase != Reconciled)
  }

  lemma WalkStart(p: Plan, entries: set<Entry>, rows: map<nat, Entry>, states: map<nat, (StockRange, Phase)>)
    requires Rows(p, entries, rows, states)
    ensures Walked(p, entries, rows, states, [], states.Keys, 0, 0, None)
  {
    hide Genuine;
  }

  lemma RowState(
    p: Plan, entries: set<Entry>, rows: map<nat, Entry>, states: map<nat, (StockRange, Phase)>, k: nat)
    requires Rows(p, entries, rows, states) && k in rows
    ensures k in states && states[k] == (StockRange(StartOf(rows[k]), EndOf(rows[k])), rows[k].phase)
    ensures OfPlan(rows[k], p)
  {
    hide Genuine;
  }

  lemma PrefixedNext(rows: map<nat, Entry>, line: seq<Entry>, remaining: set<nat>)
    requires Prefixed(rows, line, remaining) && |line| in remaining
    ensures |line| in rows && Prefixed(rows, line + [rows[|line|]], remaining - {|line|})
  {
  }

  lemma WalkNext(
    p: Plan, entries: set<Entry>, rows: map<nat, Entry>, states: map<nat, (StockRange, Phase)>,
    line: seq<Entry>, remaining: set<nat>, start: nat, index: nat)
    requires Walked(p, entries, rows, states, line, remaining, start, index, None)
    requires index in remaining && index in states && states[index].0.start == start
    ensures index in rows
    ensures if states[index].1 == Reconciled
            then Walked(p, entries, rows, states, line + [rows[index]], remaining - {index}, states[index].0.end, index + 1, None)
            else Walked(p, entries, rows, states, line + [rows[index]], remaining - {index}, start, index, Some(index))
  {
    PrefixedNext(rows, line, remaining);
    RowState(p, entries, rows, states, index);
    hide StartOf, EndOf, Rows, Prefixed, Chained, Bought;
    ChainedNext(line, rows[index]);
  }

  /** On a line the walk always finds the next step where it looks for it. */
  lemma LineWalks(
    p: Plan, entries: set<Entry>, rows: map<nat, Entry>, states: map<nat, (StockRange, Phase)>,
    line: seq<Entry>, remaining: set<nat>, start: nat, index: nat, pending: Option<nat>, i: nat, l: seq<Entry>)
    requires Walked(p, entries, rows, states, line, remaining, start, index, pending) && Line(p, entries, l)
    requires i in remaining && i in states && (forall k :: k in remaining ==> i <= k)
    ensures pending.None? && i == index && states[i].0.start == start
  {
    RowsAreLine(p, entries, rows, states, l);
    assert i in rows;
    RowState(p, entries, rows, states, i);
    var n := |line|;
    assert n in rows && n in remaining;
    LineStep(p, entries, l, n);
    assert l[n] == rows[n];
    assert n > 0 ==> l[n - 1] == line[n - 1];
    assert EndBefore(l, n) == EndBefore(line, n);
    hide Line, Genuine, StartOf, EndOf, Live, OfPlan, Rows, Chained;
  }

  /** A walk can only fail when the tranches are not a line. */
  lemma WalkRefused(
    p: Plan, entries: set<Entry>, rows: map<nat, Entry>, states: map<nat, (StockRange, Phase)>,
    line: seq<Entry>, remaining: set<nat>, start: nat, index: nat, pending: Option<nat>, i: nat)
    requires Walked(p, entries, rows, states, line, remaining, start, index, pending)
    requires i in remaining && i in states && (forall k :: k in remaining ==> i <= k)
    requires pending.Some? || i != index || states[i].0.start != start
    ensures forall l :: !Line(p, entries, l)
  {
    hide *;
    forall l | Line(p, entries, l)
      ensures false
    {
      LineWalks(p, entries, rows, states, line, remaining, start, index, pending, i, l);
    }
  }

  lemma LineStep(p: Plan, entries: set<Entry>, line: seq<Entry>, n: nat)
    requires Line(p, entries, line)
    ensures n < |line| ==> StartOf(line[n]) == EndBefore(line, n)
    ensures 0 < n < |line| ==> line[n - 1].phase == Reconciled
  {
  }

  lemma WalkDone(
    p: Plan, entries: set<Entry>, rows: map<nat, Entry>, states: map<nat, (StockRange, Phase)>,
    line: seq<Entry>, start: nat, index: nat, pending: Option<nat>)
    requires Walked(p, entries, rows, states, line, {}, start, index, pending) && ValidPlan(p)
    ensures Line(p, entries, line)
    ensures ProgressOf(p, line) == if pending.Some? then Pending(pending.value)
                                   else if start == |p.allocations| then Complete else Ready(index)
  {
    hide Genuine, ValidPlan, StartOf, EndOf, Chained;
    forall e | e in entries && Live(e, p)
      ensures IndexOf(e, p) < |line| && line[IndexOf(e, p)] == e
    {
      assert IndexOf(e, p) in rows && IndexOf(e, p) !in {};
    }
  }

  /** `Plan::cursor`: succeeds exactly on a line of tranches and reads off its
      progress and its next stock. */
  method Cursor(p: Plan, entries: seq<Entry>) returns (r: Outcome<(Progress, nat)>, ghost line: seq<Entry>)
    ensures r.Done? ==> Line(p, SetOf(entries), line) && r.value == (ProgressOf(p, line), Bought(line))
    ensures r.Refused? && NoRepeats(entries) ==> forall l :: !Line(p, SetOf(entries), l)
  {
    line := [];
    var ok := CheckPlan(p);
    if !ok {
      return Refused(PlanInvalid), [];
    }
    var collected; ghost var rows;
    collected, rows := Collect(p, entries);
    if collected.Refused? {
      return Refused(collected.fault), [];
    }
    var states := collected.value;
    var start: nat, index: nat, pending: Option<nat>, remaining := 0, 0, None, states.Keys;
    ghost var all := SetOf(entries);
    WalkStart(p, all, rows, states);
    hide Walked, Line, ValidPlan;
    while remaining != {}
      invariant remaining <= states.Keys
      invariant Walked(p, all, rows, states, line, remaining, start, index, pending)
      decreases |remaining|
    {
      var i := Least(remaining);
      var (range, phase) := states[i];
      if pending.Some? || i != index || range.start != start {
        WalkRefused(p, all, rows, states, line, remaining, start, index, pending, i);
        return Refused(PredecessorUnresolved), [];
      }
      WalkNext(p, all, rows, states, line, remaining, start, index);
      line := line + [rows[index]];
      if phase == Reconciled {
        start := range.end;
        index := index + 1;
      } else {
        pending := Some(i);
      }
      assert |remaining - {i}| < |remaining|;
      remaining := remaining - {i};
    }
    WalkDone(p, all, rows, states, line, start, index, pending);
    return Done((if pending.Some? then Pending(pending.value)
                 else if start == |p.allocations| then Complete else Ready(index), start)), line;
  }

  // ---------------------------------------------------------------- admission

  /** A tranche may enter when it is the next step, at the next stock. */
  ghost predicate Admits(e: Entry, prior: set<Entry>) {
    TrancheOf(e).Some? ==>
      var t := TrancheOf(e).value;
      && Bound(e.basket.value, t)
      && exists line :: Line(t.plan, prior, line) && Next(t, line)
  }

  ghost predicate Next(t: Tranche, line: seq<Entry>) {
    ProgressOf(t.plan, line) == Ready(t.index) && RangeOf(t).Done? && RangeOf(t).value.start == Bought(line)
  }

  method Admission(e: Entry, prior: seq<Entry>) returns (ok: bool)
    ensures ok ==> Admits(e, SetOf(prior))
    ensures NoRepeats(prior) && Admits(e, SetOf(prior)) ==> ok
  {
    if TrancheOf(e).None? {
      return true;
    }
    var t := TrancheOf(e).value;
    var bound := CheckBinding(e.basket.value, t);
    if !bound {
      return false;
    }
    var cursor; ghost var line;
    cursor, line := Cursor(t.plan, prior);
    var range := Range(t);
    hide Line, ProgressOf, Bought, RangeOf, Bound;
    if cursor.Refused? || range.Refused? {
      return false;
    }
    ok := cursor.value.0 == Ready(t.index) && range.value.start == cursor.value.1;
    forall l | Line(t.plan, SetOf(prior), l)
      ensures l == line
    {
      LineUnique(t.plan, SetOf(prior), l, line);
    }
  }

  /** Shrinking a tranche that does not fit keeps it the next step. */
  lemma SmallerStillNext(t: Tranche, line: seq<Entry>)
    requires Next(t, line) && RangeOf(t).value.end - RangeOf(t).value.start > 1
    ensures var r := RangeOf(t).value;
            Next(Tranche(t.plan, t.index, Some(StockRange(r.start, r.end - 1))), line)
  {
    RangeShape(t);
  }

  // ---------------------------------------------------------------- histories

  /** Every plan in the journal is a line. */
  ghost predicate AllLined(entries: set<Entry>) {
    forall e :: e in entries && TrancheOf(e).Some? ==> exists line :: Line(TrancheOf(e).value.plan, entries, line)
  }

  lemma LineUntouched(p: Plan, entries: set<Entry>, more: set<Entry>, line: seq<Entry>)
    requires Line(p, entries, line) && entries <= more
    requires forall e :: e in more && e !in entries ==> !OfPlan(e, p)
    ensures Line(p, more, line)
  {
    hide Genuine, ValidPlan, Chained;
  }

  lemma MembersExtend(p: Plan, prior: set<Entry>, line: seq<Entry>, e: Entry)
    requires Members(p, prior, line) && Live(e, p) && Genuine(e, p) && IndexOf(e, p) == |line|
    ensures Members(p, prior + {e}, line + [e])
  {
    hide Genuine;
    var longer := line + [e];
    forall x | x in prior + {e} && Live(x, p)
      ensures IndexOf(x, p) < |longer| && longer[IndexOf(x, p)] == x
    {
      if x != e {
        assert line[IndexOf(x, p)] == x;
      }
    }
  }

  /** An admitted tranche extends its plan's line, and the cursor stays. */
  lemma LineExtends(e: Entry, prior: set<Entry>, line: seq<Entry>)
    requires TrancheOf(e).Some? && Bound(e.basket.value, TrancheOf(e).value) && e.phase == Prepared
    requires Line(TrancheOf(e).value.plan, prior, line) && Next(TrancheOf(e).value, line)
    ensures Line(TrancheOf(e).value.plan, prior + {e}, line + [e]) && Bought(line + [e]) == Bought(line)
  {
    var t := TrancheOf(e).value;
    GenuineIntro(e);
    assert StartOf(e) == Bought(line) && (|line| > 0 ==> line[|line| - 1].phase == Reconciled);
    hide Genuine, ValidPlan, Members, Chained, Bought, RangeOf, StartOf;
    ChainedNext(line, e);
    MembersExtend(t.plan, prior, line, e);
  }

  lemma GenuineIntro(e: Entry)
    requires TrancheOf(e).Some? && Bound(e.basket.value, TrancheOf(e).value)
    ensures Genuine(e, TrancheOf(e).value.plan)
  {
  }

  /** The entry after a lifecycle update. */
  ghost predicate Updated(e: Entry, e': Entry) {
    Allowed(e.phase, e'.phase) && e' == e.(phase := e'.phase, attempts := e'.attempts)
  }

  /** A lifecycle update keeps every plan's line; its cursor never moves back. */
  lemma LineUpdates(p: Plan, entries: set<Entry>, line: seq<Entry>, e: Entry, e': Entry) returns (next: seq<Entry>)
    requires Line(p, entries, line) && e in entries && Updated(e, e')
    ensures Line(p, entries - {e} + {e'}, next) && Bought(line) <= Bought(next)
  {
    if OfPlan(e, p) {
      var j := IndexOf(e, p);
      OnlyLastChanges(p, entries, line, e);
      LineEntry(p, entries, line, j);
      next := if e'.phase == Failed then line[..j] else line[j := e'];
      hide Line, StartOf, EndOf, Bought, Genuine;
      LastUpdates(p, entries, line, e, e', next);
    } else {
      next := line;
      hide ValidPlan, Members, Chained;
      OthersUpdate(p, entries, line, e, e');
    }
  }

  lemma OthersUpdate(p: Plan, entries: set<Entry>, line: seq<Entry>, e: Entry, e': Entry)
    requires Members(p, entries, line) && !OfPlan(e, p) && !OfPlan(e', p)
    ensures Members(p, entries - {e} + {e'}, line)
  {
    hide Genuine;
  }

  /** Only the last step of a line can still change. */
  lemma OnlyLastChanges(p: Plan, entries: set<Entry>, line: seq<Entry>, e: Entry)
    requires Line(p, entries, line) && e in entries && OfPlan(e, p) && !Terminal(e.phase)
    ensures Live(e, p) && IndexOf(e, p) == |line| - 1 && line[|line| - 1] == e
  {
    hide Genuine, ValidPlan, StartOf, EndOf, EndBefore, IndexOf, OfPlan;
    assert Live(e, p);
    var j := IndexOf(e, p);
    assert line[j] == e;
  }

  lemma LastUpdates(p: Plan, entries: set<Entry>, line: seq<Entry>, e: Entry, e': Entry, next: seq<Entry>)
    requires Line(p, entries, line) && e in entries && Updated(e, e') && Live(e, p)
    requires |line| > 0 && line[|line| - 1] == e && IndexOf(e, p) == |line| - 1
    requires next == if e'.phase == Failed then line[..|line| - 1] else line[|line| - 1 := e']
    ensures Line(p, entries - {e} + {e'}, next) && Bought(line) <= Bought(next)
  {
    hide Genuine, ValidPlan, Members, Chained, StartOf, EndOf, EndBefore, Bought;
    var j := |line| - 1;
    LineEntry(p, entries, line, j);
    SamePlace(e, e', p);
    assert next[..j] == line[..j];
    ChainedCut(line, next, j);
    LineMembers(p, entries, line, e, e', next);
    BoughtUpdates(line, next, e, e');
  }

  /** A lifecycle update does not move an entry's stocks. */
  lemma SamePlace(e: Entry, e': Entry, p: Plan)
    requires Updated(e, e') && OfPlan(e, p) && Genuine(e, p)
    ensures StartOf(e') == StartOf(e) && EndOf(e') == EndOf(e) && OfPlan(e', p) && Genuine(e', p)
  {
  }

  lemma BoughtUpdates(line: seq<Entry>, next: seq<Entry>, e: Entry, e': Entry)
    requires |line| > 0 && line[|line| - 1] == e && Chained(line) && Chained(next) && Updated(e, e')
    requires next == if e'.phase == Failed then line[..|line| - 1] else line[|line| - 1 := e']
    requires StartOf(e') == StartOf(e) <= EndOf(e) == EndOf(e')
    ensures Bought(line) <= Bought(next)
  {
    hide StartOf, EndOf;
    var j := |line| - 1;
    assert StartOf(line[j]) == EndBefore(line, j);
    if e'.phase == Failed && j > 0 {
      assert next[j - 1] == line[j - 1] && line[j - 1].phase == Reconciled;
    }
  }

  lemma ChainedCut(line: seq<Entry>, next: seq<Entry>, j: nat)
    requires Chained(line) && j == |line| - 1 && |next| >= j && next[..j] == line[..j]
    requires |next| == j || (|next| == j + 1 && StartOf(next[j]) == StartOf(line[j]))
    ensures Chained(next)
    ensures EndBefore(next, j) == EndBefore(line, j)
  {
    assert forall k :: 0 <= k < j ==> next[k] == next[..j][k] == line[..j][k] == line[k];
    forall k | 0 <= k < |next|
      ensures StartOf(next[k]) == EndBefore(next, k)
    {
      assert StartOf(line[k]) == EndBefore(line, k);
      assert EndBefore(next, k) == EndBefore(line, k);
    }
  }

  lemma LineMembers(p: Plan, entries: set<Entry>, line: seq<Entry>, e: Entry, e': Entry, next: seq<Entry>)
    requires Members(p, entries, line) && e in entries && Updated(e, e') && Live(e, p) && Genuine(e', p)
    requires |line| > 0 && line[|line| - 1] == e && IndexOf(e, p) == |line| - 1
    requires next == if e'.phase == Failed then line[..|line| - 1] else line[|line| - 1 := e']
    ensures Members(p, entries - {e} + {e'}, next)
  {
    hide Genuine;
    var after, j := entries - {e} + {e'}, |line| - 1;
    forall x | x in after && Live(x, p)
      ensures IndexOf(x, p) < |next| && next[IndexOf(x, p)] == x
    {
      if x != e' {
        assert x in entries && line[IndexOf(x, p)] == x;
        assert IndexOf(x, p) != j;
      }
    }
  }
}
