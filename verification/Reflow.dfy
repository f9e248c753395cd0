/** The bounded execution loop: read, compile, solve, invoke one venue, observe the
    balances, and solve again for what is left. */
module Reflow {
  import opened Base
  import opened Products
  import opened Curves
  import opened Venues
  import opened Greedy
  import opened Allocations
  import opened GreedyOptimality
  import opened Tape
  import opened TapeBuild
  import opened TapeQuery
  import opened SearchSpec
  import opened SearchTheorems
  import opened Search
  import opened Compiler
  import opened ReflowSurvey
  import opened ReflowSolve
  import opened ReflowRound

  // ---------------------------------------------------------------- the run

  /** What a successful run guarantees, whatever the host did. */
  ghost predicate SafeRun(o: Order, limits: Limits, b: seq<Call> -> View, history: seq<Call>, receipt: Receipt) {
    && Executed(o, b, history, receipt.trace) && Followed(o, limits, b, history, receipt.trace)
    && receipt.legs == |receipt.trace| && 0 < receipt.legs <= limits.maxLegs
    && receipt.reflows == receipt.legs - 1 <= limits.maxReflows
    && receipt.workUnits <= limits.maxWork
    && SpentTotal(receipt.trace) == receipt.inputSpent == o.intent.amountIn
    && ReceivedTotal(receipt.trace) == receipt.outputReceived >= o.intent.minOut
    && o.slot <= o.intent.expiresAtSlot
    && b([]).balances.Ok? && b(history).balances.Ok?
    && b([]).balances.value.input == b(history).balances.value.input + o.intent.amountIn
    && b(history).balances.value.output == b([]).balances.value.output + receipt.outputReceived
    && FirstSolve(o, limits, b, receipt.initial)
  }

  /** Every request of the run was filled completely. */
  ghost predicate FilledFully(b: seq<Call> -> View, history: seq<Call>) {
    forall k :: 0 <= k < |history| ==> FillsAt(b(history[..k]), history[k], b(history[..k + 1]))
  }

  lemma FilledPrefix(b: seq<Call> -> View, history: seq<Call>, call: Call)
    requires FilledFully(b, history + [call])
    ensures FilledFully(b, history) && FillsAt(b(history), call, b(history + [call]))
  {
    hide FillsAt;
    var longer := history + [call];
    assert longer[..|history|] == history && longer[..|history| + 1] == longer && longer[|history|] == call;
    forall k | 0 <= k < |history|
      ensures FillsAt(b(history[..k]), history[k], b(history[..k + 1]))
    {
      assert longer[..k] == history[..k] && longer[..k + 1] == history[..k + 1] && longer[k] == history[k];
    }
  }

  /** What the parameters and the host must show at the start for a run to be accepted. */
  ghost predicate Acceptable(o: Order, limits: Limits, view: View) {
    && Checked(o) && 0 < limits.maxLegs <= MAX_LEGS && limits.maxReflows <= MAX_REFLOWS
    && view.slot == o.slot <= o.intent.expiresAtSlot
    && view.balances.Ok? && view.balances.value.input >= o.intent.amountIn
  }

  /** A start from which the first solve is bound to succeed. */
  ghost predicate Promising(o: Order, limits: Limits, view: View) {
    Acceptable(o, limits, view) && Opens(o, view, Spent({}, {}), o.intent.amountIn, FirstBudget(limits))
  }

  /** The most work a number of rounds can take. */
  function RoundsWork(rounds: nat): nat {
    rounds * ROUND_WORK
  }

  lemma RoundsWorkGrows(rounds: nat, most: nat)
    ensures RoundsWork(0) == 0 && RoundsWork(rounds + 1) == RoundsWork(rounds) + ROUND_WORK
    ensures rounds <= most ==> RoundsWork(rounds) <= RoundsWork(most)
  {
    hide ROUND_WORK;
    Distribute(rounds, 1, ROUND_WORK);
    if rounds <= most {
      Mono(rounds, most, ROUND_WORK);
    }
  }

  /** The only reasons to leave the loop early against a host that fills every request:
      the budget does not cover the permitted rounds, or the very first bound does not
      fit 64 bits. */
  ghost predicate LeavesEarly(o: Order, limits: Limits, b: seq<Call> -> View, history: seq<Call>, error: Error) {
    || (error.WorkLimit? && limits.maxWork < RoundsWork(limits.maxLegs))
    || (error.Arithmetic? && history == [] && FirstBoundOverflows(o, b([]), Spent({}, {}), o.intent.amountIn))
  }

  const NO_REPORT: Report := Report(NO_PLAN, Certificate(0, 0, 0), Stats(0, 0, 0))

  method Unaliased(pins: seq<EdgePin>) returns (fault: Option<Error>)
    ensures fault.None? <==> forall i, j :: 0 <= i < j < |pins| ==>
              pins[i].market != pins[j].market && pins[i].liquidityId != pins[j].liquidityId
    ensures fault.Some? ==> fault.value.AliasedLiquidity?
  {
    for j := 0 to |pins|
      invariant forall i, k :: 0 <= i < k < j ==>
                  pins[i].market != pins[k].market && pins[i].liquidityId != pins[k].liquidityId
    {
      for i := 0 to j
        invariant forall k :: 0 <= k < i ==>
                    pins[k].market != pins[j].market && pins[k].liquidityId != pins[j].liquidityId
      {
        if pins[j].market == pins[i].market || pins[j].liquidityId == pins[i].liquidityId {
          return Some(AliasedLiquidity);
        }
      }
    }
    return None;
  }

  /** The checks before the loop, and the loop's first state. */
  method Prepare(host: Host, pins: seq<EdgePin>, intent: Intent, limits: Limits) returns (r: Result<(Order, State)>)
    requires host.history == []
    ensures r.Ok? ==> r.value.0 == Order(pins, intent, host.behaviour([]).slot) && Checked(r.value.0)
    ensures r.Ok? ==> Consistent(r.value.0, limits, host.behaviour, [], r.value.1, []) && r.value.1.remaining > 0
    ensures r.Ok? ==> limits.maxLegs <= MAX_LEGS && intent.expiresAtSlot >= r.value.0.slot
    ensures r.Ok? ==> IsFirst(r.value.0, r.value.1)
    ensures r.Ok? <==> Acceptable(Order(pins, intent, host.behaviour([]).slot), limits, host.behaviour([]))
                       && host.behaviour([]).snapshot(0).Ok?
  {
    if |pins| == 0 || |pins| > MAX_EDGES || limits.maxLegs == 0 || limits.maxLegs > MAX_LEGS
       || limits.maxReflows > MAX_REFLOWS {
      return Err(Error.Bounds);
    }
    if intent.amountIn == 0 || intent.amountIn > MAX_ATOMS || intent.inputMint == intent.outputMint {
      return Err(InvalidAmount);
    }
    var aliased := Unaliased(pins);
    if aliased.Some? {
      return Err(aliased.value);
    }
    var slot := host.Now().slot;
    if slot > intent.expiresAtSlot {
      return Err(Expired);
    }
    var start := host.Now().balances;
    if start.Err? {
      return Err(start.error);
    }
    if start.value.input < intent.amountIn {
      return Err(BalanceInvariant);
    }
    var first := host.Now().snapshot(0);
    if first.Err? {
      return Err(first.error);
    }
    var o := Order(pins, intent, slot);
    var cache := Cache(seq(|pins|, _ => first.value), seq(|pins|, _ => NO_CURVE));
    var st := State(intent.amountIn, Spent({}, {}), start.value, cache, None, [], 0, 0, 0, NO_REPORT);
    FirstState(o, limits, host.behaviour, st);
    return Ok((o, st));
  }

  /** The loop variables before the first round. */
  ghost predicate IsFirst(o: Order, st: State) {
    st.trace == [] && st.spent == Spent({}, {}) && st.tape.None? && st.remaining == o.intent.amountIn
  }

  lemma FirstState(o: Order, limits: Limits, b: seq<Call> -> View, st: State)
    requires st.trace == [] && st.spent == Spent({}, {}) && st.reflows == 0 && st.tape.None?
    requires st.remaining == o.intent.amountIn && b([]).balances == Ok(st.before)
    requires |st.cache.snapshots| == |st.cache.curves| == |o.pins|
    requires forall i :: 0 <= i < |o.pins| ==> st.cache.curves[i] == NO_CURVE
    ensures Consistent(o, limits, b, [], st, [])
  {
  }

  /** As long as the host filled everything so far, the next round is ready; the first
      one is if the start was promising. */
  ghost predicate Unhindered(
    o: Order, limits: Limits, b: seq<Call> -> View, history: seq<Call>, st: State, built: seq<Curve>)
  {
    (|history| > 0 || Promising(o, limits, b([]))) && FilledFully(b, history) && st.remaining > 0 ==>
      Waiting(o, limits, b(history), st, built)
  }

  /** A round, seen from the whole history. */
  method Advance(o: Order, limits: Limits, host: Host, st: State, ghost built: seq<Curve>, meter: WorkMeter)
    returns (r: Result<State>, ghost built': seq<Curve>)
    requires Checked(o) && Consistent(o, limits, host.behaviour, host.history, st, built) && st.remaining > 0
    requires limits.maxLegs <= MAX_LEGS && Unhindered(o, limits, host.behaviour, host.history, st, built)
    requires meter.limit == limits.maxWork && meter.used <= RoundsWork(|st.trace|)
    modifies host, meter`used
    ensures old(meter.Within()) ==> meter.Within()
    ensures |host.history| <= limits.maxLegs
    ensures r.Ok? ==> Consistent(o, limits, host.behaviour, host.history, r.value, built')
    ensures r.Ok? ==> Unhindered(o, limits, host.behaviour, host.history, r.value, built')
    ensures r.Ok? ==> |r.value.trace| == |st.trace| + 1 && meter.used <= RoundsWork(|r.value.trace|)
    ensures (|host.history| > 0 || Promising(o, limits, host.behaviour([])))
            && FilledFully(host.behaviour, host.history) && r.Err? ==>
              LeavesEarly(o, limits, host.behaviour, host.history, r.error)
  {
    hide *;
    ghost var history := host.history;
    ConsistentParts(o, limits, host.behaviour, history, st, built);
    UnhinderedMeans(o, limits, host.behaviour, history, st, built);
    NowIs(host);
    RoundsWorkGrows(|st.trace|, limits.maxLegs);
    RoundsWorkGrows(|st.trace| + 1, limits.maxLegs);
    FirstVariables(o, limits, host.behaviour, history, st, built);
    if Waiting(o, limits, host.Now(), st, built) {
      RoundAhead(o, limits, host.Now(), st, built);
    }
    r, built' := Round(o, limits, host, st, built, meter);
    NowIs(host);
    ghost var now := host.history;
    if |now| > |history| {
      ghost var call := now[|history|];
      assert now == history + [call];
      if FilledFully(host.behaviour, now) {
        FilledPrefix(host.behaviour, history, call);
      }
    }
    if r.Ok? {
      ConsistentParts(o, limits, host.behaviour, now, r.value, built');
      UnhinderedMeans(o, limits, host.behaviour, now, r.value, built');
    } else {
      LeavesIntro(o, limits, host.behaviour, now, r.error);
    }
  }

  lemma LeavesIntro(o: Order, limits: Limits, b: seq<Call> -> View, history: seq<Call>, error: Error)
    ensures error.WorkLimit? && limits.maxWork < RoundsWork(limits.maxLegs) ==> LeavesEarly(o, limits, b, history, error)
    ensures error.Arithmetic? && history == [] && FirstBoundOverflows(o, b([]), Spent({}, {}), o.intent.amountIn) ==>
              LeavesEarly(o, limits, b, history, error)
  {
    hide FirstBoundOverflows, RoundsWork;
  }

  lemma RoundAhead(o: Order, limits: Limits, view: View, st: State, built: seq<Curve>)
    requires Waiting(o, limits, view, st, built)
    ensures |st.trace| < limits.maxLegs
  {
    WaitingParts(o, limits, view, st, built);
    hide Ready, Opens, Waiting;
  }

  lemma FirstVariables(
    o: Order, limits: Limits, b: seq<Call> -> View, history: seq<Call>, st: State, built: seq<Curve>)
    requires Consistent(o, limits, b, history, st, built)
    ensures |st.trace| == 0 ==> history == [] && st.spent == Spent({}, {}) && st.remaining == o.intent.amountIn
  {
    hide Current, IsTape, FirstSolve, LegOk;
  }

  lemma UnhinderedMeans(
    o: Order, limits: Limits, b: seq<Call> -> View, history: seq<Call>, st: State, built: seq<Curve>)
    ensures Unhindered(o, limits, b, history, st, built) <==>
              ((|history| > 0 || Promising(o, limits, b([]))) && FilledFully(b, history) && st.remaining > 0 ==>
                 Waiting(o, limits, b(history), st, built))
  {
    hide Waiting, Promising, FilledFully;
  }

  /** The loop: every round executes one venue, until nothing remains. */
  method RunRounds(o: Order, limits: Limits, host: Host, first: State, meter: WorkMeter)
    returns (r: Result<State>, ghost built: seq<Curve>)
    requires host.history == [] && limits.maxLegs <= MAX_LEGS
    requires Checked(o) && Consistent(o, limits, host.behaviour, [], first, []) && IsFirst(o, first)
    requires meter.limit == limits.maxWork && meter.used == 0
    modifies host, meter`used
    ensures old(meter.Within()) ==> meter.Within()
    ensures |host.history| <= limits.maxLegs
    ensures r.Ok? ==> Consistent(o, limits, host.behaviour, host.history, r.value, built) && r.value.remaining == 0
    ensures (|host.history| > 0 || Promising(o, limits, host.behaviour([])))
            && FilledFully(host.behaviour, host.history) && r.Err? ==>
              LeavesEarly(o, limits, host.behaviour, host.history, r.error)
  {
    var st := first;
    built := [];
    ConsistentParts(o, limits, host.behaviour, host.history, st, built);
    StartsUnhindered(o, limits, host.behaviour, st, built);
    hide *;
    RoundsWorkGrows(0, |st.trace|);
    while st.remaining > 0
      invariant Consistent(o, limits, host.behaviour, host.history, st, built)
      invariant |host.history| == |st.trace| <= limits.maxLegs
      invariant old(meter.Within()) ==> meter.Within()
      invariant Unhindered(o, limits, host.behaviour, host.history, st, built)
      invariant meter.used <= RoundsWork(|st.trace|)
      decreases limits.maxLegs - |st.trace|
    {
      var round;
      round, built := Advance(o, limits, host, st, built, meter);
      if round.Err? {
        return Err(round.error), built;
      }
      st := round.value;
      ConsistentParts(o, limits, host.behaviour, host.history, st, built);
    }
    return Ok(st), built;
  }

  /** `execute`. Against any host, an Ok run is safe. Once a first solve led to an
      invocation, or if the start was promising, a host that fills every request cannot
      make the run fail with anything but the minimum output, a work budget too small for
      the permitted rounds, or a first bound that does not fit. */
  method Execute(host: Host, pins: seq<EdgePin>, intent: Intent, limits: Limits) returns (r: Result<Receipt>)
    requires host.history == []
    modifies host
    ensures |host.history| <= limits.maxLegs
    ensures r.Ok? ==>
              SafeRun(Order(pins, intent, host.behaviour([]).slot), limits, host.behaviour, host.history, r.value)
    ensures (|host.history| > 0 || Promising(Order(pins, intent, host.behaviour([]).slot), limits, host.behaviour([])))
            && FilledFully(host.behaviour, host.history) && r.Err? ==>
              || r.error.MinOut?
              || LeavesEarly(Order(pins, intent, host.behaviour([]).slot), limits, host.behaviour, host.history, r.error)
  {
    PromisingParts(Order(pins, intent, host.behaviour([]).slot), limits, host.behaviour([]));
    var prepared := Prepare(host, pins, intent, limits);
    if prepared.Err? {
      return Err(prepared.error);
    }
    var (o, first) := prepared.value;
    var meter := new WorkMeter(limits.maxWork);
    ConsistentParts(o, limits, host.behaviour, [], first, []);
    StartsWithin(meter);
    hide *;
    var done; ghost var built;
    done, built := RunRounds(o, limits, host, first, meter);
    if done.Err? {
      return Err(done.error);
    }
    r := Finish(o, limits, host, first.before, done.value, built, meter);
  }

  lemma StartsUnhindered(o: Order, limits: Limits, b: seq<Call> -> View, st: State, built: seq<Curve>)
    requires IsFirst(o, st)
    ensures Unhindered(o, limits, b, [], st, built)
  {
    hide Opens, Acceptable;
  }

  lemma PromisingParts(o: Order, limits: Limits, view: View)
    ensures Promising(o, limits, view) ==> Acceptable(o, limits, view) && view.snapshot(0).Ok?
  {
    if Promising(o, limits, view) {
      OpensParts(o, view, Spent({}, {}), o.intent.amountIn, FirstBudget(limits));
      assert Compilable(o, view, Spent({}, {}), 0);
    }
  }

  lemma StartsWithin(meter: WorkMeter)
    requires meter.used == 0
    ensures meter.Within()
  {
  }

  /** The closing checks: only the minimum output can still fail. */
  method Finish(
    o: Order, limits: Limits, host: Host, start: Balances, st: State, ghost built: seq<Curve>, meter: WorkMeter)
    returns (r: Result<Receipt>)
    requires Checked(o) && Consistent(o, limits, host.behaviour, host.history, st, built) && st.remaining == 0
    requires host.behaviour([]).balances == Ok(start) && o.slot <= o.intent.expiresAtSlot
    requires meter.Within() && meter.limit == limits.maxWork
    ensures r.Ok? ==> SafeRun(o, limits, host.behaviour, host.history, r.value)
    ensures r.Err? ==> r.error.MinOut?
  {
    FinalState(o, limits, host.behaviour, host.history, start, st, built);
    assert meter.used <= meter.limit;
    hide *;
    if start.input < st.before.input || st.before.output < start.output {
      return Err(BalanceInvariant);
    }
    var spent, received := start.input - st.before.input, st.before.output - start.output;
    if spent != o.intent.amountIn {
      return Err(BalanceInvariant);
    }
    if received < o.intent.minOut {
      return Err(MinOut);
    }
    var receipt :=
      Receipt(st.initial, spent, received, |st.trace|, st.reflows, meter.used, st.compiled, st.builds, st.trace);
    SafeIntro(o, limits, host.behaviour, host.history, receipt);
    return Ok(receipt);
  }

  /** When nothing remains, the whole amount left the input balance. */
  lemma FinalState(
    o: Order, limits: Limits, b: seq<Call> -> View, history: seq<Call>, start: Balances, st: State, built: seq<Curve>)
    requires Checked(o) && Consistent(o, limits, b, history, st, built) && st.remaining == 0
    requires b([]).balances == Ok(start)
    ensures Executed(o, b, history, st.trace) && Followed(o, limits, b, history, st.trace)
    ensures 0 < |st.trace| <= limits.maxLegs
    ensures st.reflows == |st.trace| - 1 <= limits.maxReflows && FirstSolve(o, limits, b, st.initial)
    ensures SpentTotal(st.trace) == o.intent.amountIn && b(history).balances == Ok(st.before)
    ensures start.input == st.before.input + o.intent.amountIn
    ensures st.before.output == start.output + ReceivedTotal(st.trace)
  {
    var n := |history|;
    ConsistentParts(o, limits, b, history, st, built);
    ConsistentParts2(o, limits, b, history, st, built);
    BalancesTelescope(o, b, history, st.trace, n);
    hide Consistent, Executed, FirstSolve, ReceivedTotal;
    assert history[..n] == history && st.trace[..n] == st.trace;
    if n == 0 {
      assert false;
    }
  }

  lemma SafeIntro(o: Order, limits: Limits, b: seq<Call> -> View, history: seq<Call>, receipt: Receipt)
    requires Executed(o, b, history, receipt.trace) && Followed(o, limits, b, history, receipt.trace)
    requires receipt.legs == |receipt.trace| && 0 < receipt.legs <= limits.maxLegs
    requires receipt.reflows == receipt.legs - 1 <= limits.maxReflows && receipt.workUnits <= limits.maxWork
    requires SpentTotal(receipt.trace) == receipt.inputSpent == o.intent.amountIn
    requires ReceivedTotal(receipt.trace) == receipt.outputReceived >= o.intent.minOut
    requires o.slot <= o.intent.expiresAtSlot
    requires b([]).balances.Ok? && b(history).balances.Ok?
    requires b([]).balances.value.input == b(history).balances.value.input + o.intent.amountIn
    requires b(history).balances.value.output == b([]).balances.value.output + receipt.outputReceived
    requires FirstSolve(o, limits, b, receipt.initial)
    ensures SafeRun(o, limits, b, history, receipt)
  {
    hide Executed, FirstSolve, SpentTotal, ReceivedTotal;
  }
}
