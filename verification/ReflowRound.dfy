/** Executing one venue of the plan, and what the trace of all executed venues says
    about the host's balances. */
module ReflowRound {
  import opened Base
  import opened Curves
  import opened Venues
  import opened Greedy
  import opened Allocations
  import opened GreedyOptimality
  import opened Tape
  import opened TapeBuild
  import opened TapeQuery
  import opened SearchSpec
  import opened SearchTheorems
  import opened Search
  import opened Compiler
  import opened ReflowSurvey
  import opened ReflowSolve
  import opened Relaxation

  // ---------------------------------------------------------------- one leg

  /** The host fills the request completely, keeps the slot and leaves the other
      venues alone; the executed venue stays readable under its pinned identity. */
  ghost predicate FillsAt(a: View, call: Call, b: View) {
    && b.invoked.Ok? && b.slot == a.slot
    && (forall i :: i != call.edge ==> b.snapshot(i) == a.snapshot(i))
    && (a.snapshot(call.edge).Ok? ==>
          b.snapshot(call.edge).Ok? && SameIdentity(a.snapshot(call.edge).value, b.snapshot(call.edge).value))
    && a.balances.Ok? && b.balances.Ok?
    && a.balances.value.input == b.balances.value.input + call.request
    && b.balances.value.output > a.balances.value.output
  }

  predicate SameIdentity(s: Snapshot, t: Snapshot) {
    && s.market == t.market && s.program == t.program && s.liquidityId == t.liquidityId
    && s.inputMint == t.inputMint && s.outputMint == t.outputMint
    && s.writableResources == t.writableResources
  }

  function Executing(o: Order, spent: Spent, e: nat): Spent
    requires e < |o.pins|
  {
    Spent(spent.edges + {e}, spent.resources + o.pins[e].writableResources)
  }

  /** Executing a venue can only remove eligible venues: itself and its neighbours. */
  lemma EligibleShrinks(o: Order, a: View, b: View, spent: Spent, call: Call, i: nat)
    requires call.edge < |o.pins| && i < |o.pins| && FillsAt(a, call, b)
    ensures Eligible(o, b, Executing(o, spent, call.edge), i) <==>
              && i != call.edge && Eligible(o, a, spent, i)
              && o.pins[call.edge].writableResources * o.pins[i].writableResources == {}
  {
    hide Live;
    var next := Executing(o, spent, call.edge);
    if i != call.edge && Readable(o, a, i) {
      var w := o.pins[i].writableResources;
      assert next.resources * w == spent.resources * w + o.pins[call.edge].writableResources * w;
    }
  }

  /** The venues of a plan other than e still have room for everything but e's share. */
  lemma {:induction false} RestHasRoom(curves: seq<Curve>, mask: set<nat>, inputs: seq<nat>, e: nat, n: nat)
    requires n <= |curves| <= |inputs| && e < |curves|
    requires forall i :: 0 <= i < |curves| ==> inputs[i] <= TotalCapacity(curves[i].segments)
    requires forall i :: 0 <= i < |curves| && i !in mask ==> inputs[i] == 0
    ensures MaskCapacity(curves, mask - {e}, n) + (if e < n then inputs[e] else 0) >= Total(inputs, n)
  {
    if n > 0 {
      RestHasRoom(curves, mask, inputs, e, n - 1);
    }
  }

  lemma {:induction false} NoRoom(curves: seq<Curve>, n: nat)
    requires n <= |curves|
    ensures MaskCapacity(curves, {}, n) == 0
  {
    if n > 0 {
      NoRoom(curves, n - 1);
    }
  }

  /** What a solved round says about the venue it is going to execute. */
  lemma SolvedPlan(
    o: Order, view: View, spent: Spent, c: Cache, tape: Option<ResidualTape>, built: seq<Curve>,
    remaining: nat, budget: nat, eligible: set<nat>, report: Report)
    requires Solved(o, view, spent, c, tape, built, remaining, budget, eligible, report)
    ensures |c.snapshots| == |c.curves| == |o.pins| <= |report.plan.inputs|
    ensures report.plan.mask == Support(report.plan.inputs) && report.plan.mask <= eligible
    ensures IsSplit(c.curves, report.plan.mask, remaining, report.plan.inputs)
    ensures |report.plan.mask| <= budget && Independent(c.snapshots, report.plan.mask)
  {
    hide Current, Fresh, EligibleSet, Readable, IsTape, Agrees, Enclosed, SearchOf, Independent, IsSplit, Support;
    CurrentShape(o, c);
  }

  lemma {:induction false} TotalCovers(inputs: seq<nat>, e: nat, n: nat)
    requires e < n <= |inputs|
    ensures inputs[e] <= Total(inputs, n)
  {
    if e < n - 1 {
      TotalCovers(inputs, e, n - 1);
    }
  }

  /** Two venues of one plan are pinned to disjoint resources. */
  lemma PinsApart(o: Order, view: View, spent: Spent, c: Cache, eligible: set<nat>, mask: set<nat>, i: nat, e: nat)
    requires Surveyed(o, view, spent, c, eligible) && mask <= eligible && Independent(c.snapshots, mask)
    requires i in mask && e in mask && i != e
    ensures i < |o.pins| && e < |o.pins| && o.pins[e].writableResources * o.pins[i].writableResources == {}
  {
    hide Surveyed, ValidCurve, Envelope, Live;
    VenueOfRound(o, view, spent, c, eligible, i);
    VenueOfRound(o, view, spent, c, eligible, e);
    if i < e {
      assert c.snapshots[i].writableResources * c.snapshots[e].writableResources == {};
    } else {
      assert c.snapshots[e].writableResources * c.snapshots[i].writableResources == {};
    }
  }

  /** What the rest of a plan needs to be invoked after one of its fills. */
  lemma RestEligible(o: Order, view: View, spent: Spent, c: Cache, eligible: set<nat>, mask: set<nat>, call: Call, view': View)
    requires Surveyed(o, view, spent, c, eligible) && mask <= eligible && Independent(c.snapshots, mask)
    requires call.edge < |o.pins| && call.edge in mask && FillsAt(view, call, view')
    ensures mask - {call.edge} <= EligibleSet(o, view', Executing(o, spent, call.edge), |o.pins|)
  {
    hide FillsAt, Eligible, Executing, Independent, Current, Fresh;
    forall i | i in mask - {call.edge}
      ensures i in EligibleSet(o, view', Executing(o, spent, call.edge), |o.pins|)
    {
      PinsApart(o, view, spent, c, eligible, mask, i, call.edge);
      EligibleShrinks(o, view, view', spent, call, i);
    }
  }

  /** After a complete fill the rest of the plan is still feasible, with one leg less. */
  lemma RestCanTake(
    o: Order, view: View, spent: Spent, c: Cache, tape: Option<ResidualTape>, built: seq<Curve>,
    remaining: nat, budget: nat, eligible: set<nat>, report: Report, e: nat, view': View)
    requires Solved(o, view, spent, c, tape, built, remaining, budget, eligible, report)
    requires e < |o.pins| && e in report.plan.mask && |report.plan.inputs| > e && report.plan.inputs[e] < remaining
    requires FillsAt(view, Call(e, report.plan.inputs[e]), view')
    ensures CanTake(c, EligibleSet(o, view', Executing(o, spent, e), |o.pins|), report.plan.mask - {e},
                    remaining - report.plan.inputs[e], budget - 1)
  {
    hide Solved, Current, FillsAt, Live, Support, MaskCapacity, Readable, Executing, EligibleSet, Eligible;
    var plan := report.plan;
    SolvedPlan(o, view, spent, c, tape, built, remaining, budget, eligible, report);
    SolvedSurvey(o, view, spent, c, tape, built, remaining, budget, eligible, report);
    RestEligible(o, view, spent, c, eligible, plan.mask, Call(e, plan.inputs[e]), view');
    var rest := plan.mask - {e};
    RestHasRoom(c.curves, plan.mask, plan.inputs, e, |c.curves|);
    if rest == {} {
      NoRoom(c.curves, |c.curves|);
    }
    assert |rest| == |plan.mask| - 1;
  }

  lemma SolvedSurvey(
    o: Order, view: View, spent: Spent, c: Cache, tape: Option<ResidualTape>, built: seq<Curve>,
    remaining: nat, budget: nat, eligible: set<nat>, report: Report)
    requires Solved(o, view, spent, c, tape, built, remaining, budget, eligible, report)
    ensures Surveyed(o, view, spent, c, eligible)
  {
  }

  lemma StillFresh(
    o: Order, view: View, spent: Spent, c: Cache, call: Call, view': View, built: seq<Curve>, tape: ResidualTape)
    requires call.edge < |o.pins| && FillsAt(view, call, view')
    requires Fresh(o, view, c, EligibleSet(o, view, spent, |o.pins|))
    requires Agrees(tape, built, c.curves, EligibleSet(o, view, spent, |o.pins|))
    requires forall i :: 0 <= i < |o.pins| ==> Readable(o, view, i)
    ensures var next := EligibleSet(o, view', Executing(o, spent, call.edge), |o.pins|);
            Fresh(o, view', c, next) && Agrees(tape, built, c.curves, next)
    ensures forall i :: 0 <= i < |o.pins| ==> Readable(o, view', i)
  {
    var next := EligibleSet(o, view', Executing(o, spent, call.edge), |o.pins|);
    forall i | i in next
      ensures i in EligibleSet(o, view, spent, |o.pins|) && i != call.edge
    {
      EligibleShrinks(o, view, view', spent, call, i);
    }
    hide EligibleSet, Eligible, Executing;
    forall i | 0 <= i < |o.pins|
      ensures Readable(o, view', i)
    {
      assert Readable(o, view, i);
    }
  }

  lemma NoneBecomesEligible(o: Order, a: View, b: View, spent: Spent, call: Call)
    requires call.edge < |o.pins| && FillsAt(a, call, b)
    ensures EligibleSet(o, b, Executing(o, spent, call.edge), |o.pins|) <= EligibleSet(o, a, spent, |o.pins|)
  {
    hide FillsAt, Eligible, Executing;
    forall i | i in EligibleSet(o, b, Executing(o, spent, call.edge), |o.pins|)
      ensures i in EligibleSet(o, a, spent, |o.pins|)
    {
      EligibleShrinks(o, a, b, spent, call, i);
    }
  }

  lemma ReportBound(q: Problem)
    requires Enclosed(q) && SearchOf(q).Ok?
    ensures QueryOf(q, q.eligible, false).Ok? && !BoundOverflows(q)
  {
    SearchOutcome(q);
    hide ProblemFault, QueryOf, ScanMasks, UpperOf, BoundOverflows, Enclosed, Feasible, Certified;
  }

  /** After a complete fill less is asked of fewer venues, so the bound fits again. */
  lemma BoundStillFits(
    o: Order, view: View, spent: Spent, c: Cache, tape: Option<ResidualTape>, built: seq<Curve>,
    remaining: nat, budget: nat, eligible: set<nat>, report: Report, call: Call, view': View)
    requires Solved(o, view, spent, c, tape, built, remaining, budget, eligible, report)
    requires call.edge < |o.pins| && call.request <= remaining && FillsAt(view, call, view')
    ensures BoundFits(c, remaining - call.request, EligibleSet(o, view', Executing(o, spent, call.edge), |o.pins|))
  {
    hide *;
    SolvedAsks(o, view, spent, c, tape, built, remaining, budget, eligible, report);
    NoneBecomesEligible(o, view, view', spent, call);
    var next, q := EligibleSet(o, view', Executing(o, spent, call.edge), |o.pins|), ProblemOf(c, remaining, eligible, budget);
    var q' := ProblemOf(c, remaining - call.request, next, budget);
    ProblemIs(c, remaining, eligible, budget);
    ProblemIs(c, remaining - call.request, next, budget);
    ReportBound(q);
    BoundShrinks(q, q');
    BoundFitsMeans(c, c, remaining - call.request, next, budget);
  }

  lemma SolvedAsks(
    o: Order, view: View, spent: Spent, c: Cache, tape: Option<ResidualTape>, built: seq<Curve>,
    remaining: nat, budget: nat, eligible: set<nat>, report: Report)
    requires Solved(o, view, spent, c, tape, built, remaining, budget, eligible, report)
    ensures eligible == EligibleSet(o, view, spent, |o.pins|)
    ensures Enclosed(ProblemOf(c, remaining, eligible, budget))
    ensures SearchOf(ProblemOf(c, remaining, eligible, budget)).Ok?
  {
    hide Current, Fresh, EligibleSet, Readable, IsTape, Agrees, Enclosed, SearchOf, Certified;
  }

  lemma FilledIsReady(
    o: Order, view: View, spent: Spent, c: Cache, tape: Option<ResidualTape>, built: seq<Curve>,
    remaining: nat, budget: nat, eligible: set<nat>, report: Report, e: nat, view': View)
    requires Solved(o, view, spent, c, tape, built, remaining, budget, eligible, report) && view.slot == o.slot
    requires e < |o.pins| && e in report.plan.mask && |report.plan.inputs| > e && report.plan.inputs[e] < remaining
    requires FillsAt(view, Call(e, report.plan.inputs[e]), view')
    ensures Ready(o, view', Executing(o, spent, e), c, tape, built, remaining - report.plan.inputs[e], budget - 1)
  {
    hide *;
    var call := Call(e, report.plan.inputs[e]);
    RestCanTake(o, view, spent, c, tape, built, remaining, budget, eligible, report, e, view');
    BoundStillFits(o, view, spent, c, tape, built, remaining, budget, eligible, report, call, view');
    SolvedAsks(o, view, spent, c, tape, built, remaining, budget, eligible, report);
    SolvedHolds(o, view, spent, c, tape, built, remaining, budget, eligible, report);
    FilledSlot(view, call, view');
    StillFresh(o, view, spent, c, call, view', built, tape.value);
    ReadyIntro(o, view', Executing(o, spent, e), c, tape, built, remaining - report.plan.inputs[e],
               report.plan.mask - {e}, budget - 1);
  }

  lemma FilledSlot(a: View, call: Call, b: View)
    requires FillsAt(a, call, b)
    ensures b.slot == a.slot
  {
  }

  lemma SolvedHolds(
    o: Order, view: View, spent: Spent, c: Cache, tape: Option<ResidualTape>, built: seq<Curve>,
    remaining: nat, budget: nat, eligible: set<nat>, report: Report)
    requires Solved(o, view, spent, c, tape, built, remaining, budget, eligible, report)
    ensures Fresh(o, view, c, eligible) && forall i :: 0 <= i < |o.pins| ==> Readable(o, view, i)
    ensures tape.Some? && IsTape(tape.value, built) && Agrees(tape.value, built, c.curves, eligible)
  {
    hide Current, Fresh, EligibleSet, Readable, IsTape, Agrees, Enclosed, SearchOf, Certified;
  }

  lemma ReadyIntro(
    o: Order, view: View, spent: Spent, c: Cache, tape: Option<ResidualTape>, built: seq<Curve>, remaining: nat,
    rest: set<nat>, budget: int)
    requires var eligible := EligibleSet(o, view, spent, |o.pins|);
             && Fresh(o, view, c, eligible) && CanTake(c, eligible, rest, remaining, budget)
             && tape.Some? && IsTape(tape.value, built) && Agrees(tape.value, built, c.curves, eligible)
             && BoundFits(c, remaining, eligible)
    requires view.slot == o.slot && forall i :: 0 <= i < |o.pins| ==> Readable(o, view, i)
    ensures Ready(o, view, spent, c, tape, built, remaining, budget)
  {
    hide EligibleSet, Readable, IsTape, Agrees, Fresh, CanTake, BoundFits;
  }

  /** Venue e has input, the most imminent expiry of all that have, and the lowest index
      among those with that expiry. */
  ghost predicate Urgent(snapshots: seq<Snapshot>, inputs: seq<nat>, e: nat)
    requires |snapshots| <= |inputs|
  {
    && e < |snapshots| && inputs[e] > 0
    && forall i :: 0 <= i < |snapshots| && inputs[i] > 0 ==>
         || snapshots[e].expiresAtSlot < snapshots[i].expiresAtSlot
         || (snapshots[e].expiresAtSlot == snapshots[i].expiresAtSlot && e <= i)
  }

  /** The most imminent expiry among the venues with input, the lowest index on a tie. */
  method ChooseEdge(snapshots: seq<Snapshot>, inputs: seq<nat>) returns (best: Option<nat>)
    requires |snapshots| <= |inputs|
    ensures best.None? ==> forall i :: 0 <= i < |snapshots| ==> inputs[i] == 0
    ensures best.Some? ==> Urgent(snapshots, inputs, best.value)
  {
    best := None;
    for n := 0 to |snapshots|
      invariant best.None? ==> forall i :: 0 <= i < n ==> inputs[i] == 0
      invariant best.Some? ==> best.value < n && inputs[best.value] > 0
      invariant best.Some? ==> forall i :: 0 <= i < n && inputs[i] > 0 ==>
                  || snapshots[best.value].expiresAtSlot < snapshots[i].expiresAtSlot
                  || (snapshots[best.value].expiresAtSlot == snapshots[i].expiresAtSlot && best.value <= i)
    {
      if inputs[n] > 0 && (best.None? || snapshots[n].expiresAtSlot < snapshots[best.value].expiresAtSlot) {
        best := Some(n);
      }
    }
  }

  /** What one observed invocation moved. */
  datatype Moved = Moved(spent: nat, received: nat, after: Balances)

  /** Invoke, read the balances and refuse every inconsistent movement. */
  method InvokeAndObserve(host: Host, edge: nat, request: nat, before: Balances, remaining: nat) returns (r: Result<Moved>)
    requires host.Now().balances == Ok(before) && 0 < request <= remaining
    modifies host
    ensures host.history == old(host.history) + [Call(edge, request)]
    ensures r.Ok? ==> host.Now().invoked.Ok? && host.Now().balances == Ok(r.value.after)
    ensures r.Ok? ==> && before.input == r.value.after.input + r.value.spent
                      && r.value.after.output == before.output + r.value.received
                      && r.value.spent <= request && (r.value.spent == 0 <==> r.value.received == 0)
    ensures FillsAt(old(host.Now()), Call(edge, request), host.Now()) ==> r.Ok? && r.value.spent == request
  {
    var done := host.Invoke(edge, request);
    if done.Err? {
      return Err(done.error);
    }
    var after := host.Now().balances;
    if after.Err? {
      return Err(after.error);
    }
    if before.input < after.value.input || after.value.output < before.output {
      return Err(BalanceInvariant);
    }
    var spent, received := before.input - after.value.input, after.value.output - before.output;
    if spent > request || spent > remaining || (spent == 0 && received != 0) || (spent > 0 && received == 0) {
      return Err(BalanceInvariant);
    }
    return Ok(Moved(spent, received, after.value));
  }

  // ---------------------------------------------------------------- the trace

  function SpentAfter(o: Order, trace: seq<LegTrace>): Spent {
    if |trace| == 0 then Spent({}, {})
    else
      var before, e := SpentAfter(o, trace[..|trace| - 1]), trace[|trace| - 1].edge;
      Spent(before.edges + {e}, before.resources + if e < |o.pins| then o.pins[e].writableResources else {})
  }

  function SpentTotal(trace: seq<LegTrace>): nat {
    if |trace| == 0 then 0 else SpentTotal(trace[..|trace| - 1]) + trace[|trace| - 1].spent
  }

  function ReceivedTotal(trace: seq<LegTrace>): nat {
    if |trace| == 0 then 0 else ReceivedTotal(trace[..|trace| - 1]) + trace[|trace| - 1].received
  }

  /** Leg k of a run, against what the host showed before and after it. */
  ghost predicate LegOk(o: Order, b: seq<Call> -> View, history: seq<Call>, trace: seq<LegTrace>, k: nat)
    requires k < |trace| == |history|
  {
    var leg, spent, before, after := trace[k], SpentAfter(o, trace[..k]), b(history[..k]), b(history[..k + 1]);
    && history[k] == Call(leg.edge, leg.requested)
    && leg.edge < |o.pins| && Eligible(o, before, spent, leg.edge) && before.slot == o.slot
    && leg.eligible == EligibleSet(o, before, spent, |o.pins|)
    && leg.edge in leg.chosen && leg.chosen <= leg.eligible
    && SpentTotal(trace[..k]) + leg.requested <= o.intent.amountIn
    && 0 < leg.requested && leg.spent <= leg.requested && (leg.spent == 0 <==> leg.received == 0)
    && after.invoked.Ok? && before.balances.Ok? && after.balances.Ok?
    && before.balances.value.input == after.balances.value.input + leg.spent
    && after.balances.value.output == before.balances.value.output + leg.received
    && leg.residual + SpentTotal(trace[..k + 1]) == o.intent.amountIn
  }

  /** Every invocation of the history is a leg of the trace, in order. */
  ghost predicate Executed(o: Order, b: seq<Call> -> View, history: seq<Call>, trace: seq<LegTrace>) {
    |history| == |trace| && forall k :: 0 <= k < |trace| ==> LegOk(o, b, history, trace, k)
  }

  /** Leg k executes the plan its own round solved: the search was asked about the venues
      eligible then, for what was left then and within the legs left then; the leg's
      request is the plan's share, and no other venue of the plan expires sooner. */
  ghost predicate Planned(
    o: Order, limits: Limits, b: seq<Call> -> View, history: seq<Call>, trace: seq<LegTrace>, k: nat, c: Cache,
    report: Report)
    requires k < |trace| == |history|
  {
    var leg, left := trace[k], o.intent.amountIn - SpentTotal(trace[..k]);
    && left > 0 && k < limits.maxLegs && k <= limits.maxReflows
    && Surveyed(o, b(history[..k]), SpentAfter(o, trace[..k]), c, leg.eligible)
    && SearchOf(ProblemOf(c, left, leg.eligible, LegBudget(limits, k, k))) == Ok(report)
    && Certified(ProblemOf(c, left, leg.eligible, LegBudget(limits, k, k)), report)
    && leg.chosen == report.plan.mask && leg.edge < |c.snapshots| <= |report.plan.inputs|
    && leg.requested == report.plan.inputs[leg.edge] && Urgent(c.snapshots, report.plan.inputs, leg.edge)
  }

  ghost predicate LegPlanned(
    o: Order, limits: Limits, b: seq<Call> -> View, history: seq<Call>, trace: seq<LegTrace>, k: nat)
    requires k < |trace| == |history|
  {
    exists c, report :: Planned(o, limits, b, history, trace, k, c, report)
  }

  ghost predicate Followed(
    o: Order, limits: Limits, b: seq<Call> -> View, history: seq<Call>, trace: seq<LegTrace>)
  {
    |history| == |trace| && forall k :: 0 <= k < |trace| ==> LegPlanned(o, limits, b, history, trace, k)
  }

  lemma PlannedPrefix(
    o: Order, limits: Limits, b: seq<Call> -> View, history: seq<Call>, trace: seq<LegTrace>, k: nat,
    history': seq<Call>, trace': seq<LegTrace>)
    requires k < |trace| == |history| && LegPlanned(o, limits, b, history, trace, k)
    requires |history'| == |trace'| >= |trace| && history'[..|history|] == history && trace'[..|trace|] == trace
    ensures LegPlanned(o, limits, b, history', trace', k)
  {
    hide *;
    assert history'[..k] == history[..k] && trace'[..k] == trace[..k];
    assert trace'[k] == trace'[..|trace|][k];
    var c, report := PlanOf(o, limits, b, history, trace, k);
    PlannedIntro(o, limits, b, history', trace', k, c, report);
  }

  /** The plan a leg executes. */
  lemma PlanOf(o: Order, limits: Limits, b: seq<Call> -> View, history: seq<Call>, trace: seq<LegTrace>, k: nat)
    returns (c: Cache, report: Report)
    requires k < |trace| == |history| && LegPlanned(o, limits, b, history, trace, k)
    ensures o.intent.amountIn - SpentTotal(trace[..k]) > 0 && k < limits.maxLegs && k <= limits.maxReflows
    ensures Surveyed(o, b(history[..k]), SpentAfter(o, trace[..k]), c, trace[k].eligible)
    ensures var q := ProblemOf(c, o.intent.amountIn - SpentTotal(trace[..k]), trace[k].eligible, LegBudget(limits, k, k));
            SearchOf(q) == Ok(report) && Certified(q, report)
    ensures trace[k].chosen == report.plan.mask && trace[k].edge < |c.snapshots| <= |report.plan.inputs|
    ensures trace[k].requested == report.plan.inputs[trace[k].edge]
    ensures Urgent(c.snapshots, report.plan.inputs, trace[k].edge)
  {
    hide Surveyed, SpentAfter, SpentTotal, Certified, SearchOf, Urgent, ProblemOf, LegBudget;
    c, report :| Planned(o, limits, b, history, trace, k, c, report);
  }

  lemma FollowedNext(
    o: Order, limits: Limits, b: seq<Call> -> View, history: seq<Call>, trace: seq<LegTrace>, call: Call, leg: LegTrace)
    requires Followed(o, limits, b, history, trace)
    requires LegPlanned(o, limits, b, history + [call], trace + [leg], |trace|)
    ensures Followed(o, limits, b, history + [call], trace + [leg])
  {
    hide LegPlanned;
    forall k | 0 <= k < |trace|
      ensures LegPlanned(o, limits, b, history + [call], trace + [leg], k)
    {
      PlannedPrefix(o, limits, b, history, trace, k, history + [call], trace + [leg]);
    }
  }

  lemma LegPrefix(
    o: Order, b: seq<Call> -> View, history: seq<Call>, trace: seq<LegTrace>, k: nat,
    history': seq<Call>, trace': seq<LegTrace>)
    requires k < |trace| == |history| && LegOk(o, b, history, trace, k)
    requires |history'| == |trace'| >= |trace| && history'[..|history|] == history && trace'[..|trace|] == trace
    ensures LegOk(o, b, history', trace', k)
  {
    assert history'[..k] == history[..k] && history'[..k + 1] == history[..k + 1];
    assert trace'[..k] == trace[..k] && trace'[..k + 1] == trace[..k + 1];
    assert history'[k] == history'[..|history|][k] && trace'[k] == trace'[..|trace|][k];
    hide Eligible, EligibleSet, SpentAfter, SpentTotal;
  }

  lemma ExecutedNext(
    o: Order, b: seq<Call> -> View, history: seq<Call>, trace: seq<LegTrace>, call: Call, leg: LegTrace)
    requires Executed(o, b, history, trace)
    requires LegOk(o, b, history + [call], trace + [leg], |trace|)
    ensures Executed(o, b, history + [call], trace + [leg])
  {
    hide LegOk;
    forall k | 0 <= k < |trace|
      ensures LegOk(o, b, history + [call], trace + [leg], k)
    {
      LegPrefix(o, b, history, trace, k, history + [call], trace + [leg]);
    }
  }

  lemma {:induction false} SpentCovers(o: Order, trace: seq<LegTrace>, i: nat, k: nat)
    requires i < k <= |trace| && trace[i].edge < |o.pins|
    ensures trace[i].edge in SpentAfter(o, trace[..k]).edges
    ensures o.pins[trace[i].edge].writableResources <= SpentAfter(o, trace[..k]).resources
  {
    assert trace[..k][..k - 1] == trace[..k - 1];
    if i < k - 1 {
      SpentCovers(o, trace, i, k - 1);
    }
  }

  /** No venue is invoked twice and no two executed venues write the same account. */
  lemma LegsDisjoint(o: Order, b: seq<Call> -> View, history: seq<Call>, trace: seq<LegTrace>, i: nat, k: nat)
    requires Executed(o, b, history, trace) && i < k < |trace|
    ensures trace[i].edge < |o.pins| && trace[k].edge < |o.pins| && trace[i].edge != trace[k].edge
    ensures o.pins[trace[i].edge].writableResources * o.pins[trace[k].edge].writableResources == {}
  {
    assert LegOk(o, b, history, trace, i) && LegOk(o, b, history, trace, k);
    SpentCovers(o, trace, i, k);
    var spent := SpentAfter(o, trace[..k]);
    assert spent.resources * o.pins[trace[k].edge].writableResources == {};
  }

  /** The host's balances moved by exactly the totals of the trace. */
  lemma {:induction false} BalancesTelescope(
    o: Order, b: seq<Call> -> View, history: seq<Call>, trace: seq<LegTrace>, k: nat)
    requires Executed(o, b, history, trace) && k <= |trace| && b([]).balances.Ok?
    ensures b(history[..k]).balances.Ok?
    ensures b([]).balances.value.input == b(history[..k]).balances.value.input + SpentTotal(trace[..k])
    ensures b(history[..k]).balances.value.output == b([]).balances.value.output + ReceivedTotal(trace[..k])
  {
    if k == 0 {
      assert history[..0] == [];
    } else {
      BalancesTelescope(o, b, history, trace, k - 1);
      assert LegOk(o, b, history, trace, k - 1);
      assert trace[..k][..k - 1] == trace[..k - 1];
      hide Eligible, EligibleSet, SpentAfter;
    }
  }

  // ---------------------------------------------------------------- one round

  /** The variables of the execution loop. */
  datatype State = State(
    remaining: nat, spent: Spent, before: Balances, cache: Cache, tape: Option<ResidualTape>,
    trace: seq<LegTrace>, reflows: nat, compiled: nat, builds: nat, initial: Report)

  /** The first solve's report is certified for the whole amount. */
  ghost predicate FirstSolve(o: Order, limits: Limits, b: seq<Call> -> View, report: Report) {
    exists c, eligible ::
      && Surveyed(o, b([]), Spent({}, {}), c, eligible)
      && Certified(ProblemOf(c, o.intent.amountIn, eligible, LegBudget(limits, 0, 0)), report)
  }

  ghost predicate Consistent(
    o: Order, limits: Limits, b: seq<Call> -> View, history: seq<Call>, st: State, built: seq<Curve>)
  {
    && Executed(o, b, history, st.trace) && Followed(o, limits, b, history, st.trace)
    && st.spent == SpentAfter(o, st.trace)
    && st.remaining + SpentTotal(st.trace) == o.intent.amountIn
    && b(history).balances == Ok(st.before)
    && Current(o, st.cache) && (st.tape.Some? ==> IsTape(st.tape.value, built))
    && |st.trace| <= limits.maxLegs && st.reflows <= limits.maxReflows
    && st.reflows == (if |st.trace| == 0 then 0 else |st.trace| - 1)
    && (|st.trace| > 0 ==> FirstSolve(o, limits, b, st.initial))
  }

  /** The budget the next round will have, before its reflow is counted. */
  function NextBudget(limits: Limits, st: State): int {
    Min(limits.maxLegs - |st.trace|, limits.maxReflows - st.reflows)
  }

  /** The leg budget of the first round. */
  function FirstBudget(limits: Limits): int {
    Min(limits.maxLegs, limits.maxReflows + 1)
  }

  /** The next solve is bound to succeed. */
  ghost predicate Waiting(o: Order, limits: Limits, view: View, st: State, built: seq<Curve>) {
    if |st.trace| == 0 then st.tape.None? && Opens(o, view, st.spent, st.remaining, FirstBudget(limits))
    else Ready(o, view, st.spent, st.cache, st.tape, built, st.remaining, NextBudget(limits, st))
  }

  lemma WaitingParts(o: Order, limits: Limits, view: View, st: State, built: seq<Curve>)
    requires Waiting(o, limits, view, st, built)
    ensures view.slot == o.slot
    ensures |st.trace| == 0 ==>
              FirstBudget(limits) > 0 && st.tape.None? && Opens(o, view, st.spent, st.remaining, FirstBudget(limits))
    ensures |st.trace| > 0 ==>
              NextBudget(limits, st) > 0
              && Ready(o, view, st.spent, st.cache, st.tape, built, st.remaining, NextBudget(limits, st))
  {
    hide EligibleSet, Readable, Fresh, IsTape, Agrees, Independent, MaskCapacity, Opens, BoundFits;
    if |st.trace| == 0 {
      OpensParts(o, view, st.spent, st.remaining, FirstBudget(limits));
      return;
    }
    var eligible := EligibleSet(o, view, st.spent, |o.pins|);
    var rest :| CanTake(st.cache, eligible, rest, st.remaining, NextBudget(limits, st));
    assert |rest| > 0;
  }

  /** A round's solve together with the venue it decided to execute. */
  datatype Decision = Decision(
    report: Report, eligible: set<nat>, edge: nat, cache: Cache, tape: Option<ResidualTape>, reflows: nat,
    compiled: nat, rebuilt: nat)

  ghost predicate Decided(
    o: Order, limits: Limits, view: View, st: State, built: seq<Curve>, d: Decision)
  {
    && |st.trace| < limits.maxLegs
    && d.reflows == |st.trace| <= limits.maxReflows
    && view.slot == o.slot
    && Solved(o, view, st.spent, d.cache, d.tape, built, st.remaining, LegBudget(limits, |st.trace|, d.reflows),
              d.eligible, d.report)
    && d.edge < |o.pins| && d.edge in d.report.plan.mask
    && |d.report.plan.inputs| > d.edge && 0 < d.report.plan.inputs[d.edge] <= st.remaining
    && |d.cache.snapshots| <= |d.report.plan.inputs| && Urgent(d.cache.snapshots, d.report.plan.inputs, d.edge)
  }

  method Decide(o: Order, limits: Limits, host: Host, st: State, ghost built: seq<Curve>, meter: WorkMeter)
    returns (r: Result<Decision>, ghost built': seq<Curve>)
    requires Checked(o) && Consistent(o, limits, host.behaviour, host.history, st, built) && st.remaining > 0
    requires limits.maxLegs <= MAX_LEGS
    modifies meter`used
    ensures old(meter.Within()) ==> meter.Within()
    ensures r.Ok? ==> Decided(o, limits, host.Now(), st, built', r.value)
    ensures Waiting(o, limits, host.Now(), st, built) && r.Err? ==>
              || (r.error.WorkLimit? && old(meter.used) + ROUND_WORK > meter.limit)
              || (r.error.Arithmetic? && |st.trace| == 0 && FirstBoundOverflows(o, host.Now(), st.spent, st.remaining))
    ensures old(meter.used) <= meter.used < old(meter.used) + ROUND_WORK
  {
    hide *;
    built' := built;
    ConsistentParts(o, limits, host.behaviour, host.history, st, built);
    ghost var waiting := Waiting(o, limits, host.Now(), st, built);
    if waiting {
      WaitingParts(o, limits, host.Now(), st, built);
    }
    BudgetFacts(limits, st);
    RoundWorkParts(o);
    var fault, reflows := CheckRound(o, limits, host, st);
    if fault.Some? {
      return Err(fault.value), built;
    }
    var budget := LegBudget(limits, |st.trace|, reflows);
    var solved, cache, tape, compiled, rebuilt;
    solved, cache, tape, built', compiled, rebuilt :=
      Solve(o, host, st.spent, st.cache, st.tape, built, st.remaining, budget, meter);
    if solved.Err? {
      return Err(solved.error), built';
    }
    var (report, eligible) := solved.value;
    PlanFacts(o, host.Now(), st.spent, cache, tape, built', st.remaining, budget, eligible, report);
    var edge := PickEdge(cache.snapshots, report.plan.inputs);
    UrgentHasInput(cache.snapshots, report.plan.inputs, edge);
    var d := Decision(report, eligible, edge, cache, tape, reflows, compiled, rebuilt);
    DecidedIntro(o, limits, host.Now(), st, built', d);
    return Ok(d), built';
  }

  /** The checks at the top of the loop; from the second leg on a reflow is counted. */
  method CheckRound(o: Order, limits: Limits, host: Host, st: State) returns (fault: Option<Error>, reflows: nat)
    requires |st.trace| <= limits.maxLegs && st.reflows <= limits.maxReflows
    requires st.reflows == if |st.trace| == 0 then 0 else |st.trace| - 1
    ensures fault.None? ==> |st.trace| < limits.maxLegs && reflows == |st.trace| <= limits.maxReflows
    ensures fault.None? ==> host.Now().slot == o.slot
    ensures |st.trace| < limits.maxLegs && (|st.trace| > 0 ==> st.reflows < limits.maxReflows)
            && host.Now().slot == o.slot ==>
              fault.None?
  {
    reflows := st.reflows;
    if |st.trace| >= limits.maxLegs {
      return Some(Error.Bounds), reflows;
    }
    if |st.trace| > 0 {
      if st.reflows >= limits.maxReflows {
        return Some(Error.Bounds), reflows;
      }
      reflows := st.reflows + 1;
    }
    if host.Now().slot != o.slot {
      return Some(Stale), reflows;
    }
    return None, reflows;
  }

  /** A plan with input somewhere always has a venue to execute. */
  method PickEdge(snapshots: seq<Snapshot>, inputs: seq<nat>) returns (edge: nat)
    requires |snapshots| <= |inputs| && exists i :: 0 <= i < |snapshots| && inputs[i] > 0
    ensures Urgent(snapshots, inputs, edge)
  {
    var best := ChooseEdge(snapshots, inputs);
    if best.None? {
      assert false;
    }
    return best.value;
  }

  lemma UrgentHasInput(snapshots: seq<Snapshot>, inputs: seq<nat>, e: nat)
    requires |snapshots| <= |inputs| && Urgent(snapshots, inputs, e)
    ensures e < |snapshots| && inputs[e] > 0
  {
  }

  lemma BudgetFacts(limits: Limits, st: State)
    requires |st.trace| <= limits.maxLegs <= MAX_LEGS && st.reflows <= limits.maxReflows
    requires st.reflows == if |st.trace| == 0 then 0 else |st.trace| - 1
    ensures NextBudget(limits, st) <= limits.maxLegs - |st.trace| && NextBudget(limits, st) <= limits.maxReflows - st.reflows
    ensures |st.trace| < limits.maxLegs && |st.trace| <= limits.maxReflows ==>
              0 < LegBudget(limits, |st.trace|, |st.trace|) <= MAX_LEGS
    ensures |st.trace| > 0 && |st.trace| <= limits.maxReflows ==>
              LegBudget(limits, |st.trace|, |st.trace|) == NextBudget(limits, st)
    ensures FirstBudget(limits) == LegBudget(limits, 0, 0) <= limits.maxLegs
  {
  }

  lemma DecidedIntro(o: Order, limits: Limits, view: View, st: State, built: seq<Curve>, d: Decision)
    requires |st.trace| < limits.maxLegs && d.reflows == |st.trace| <= limits.maxReflows && view.slot == o.slot
    requires Solved(o, view, st.spent, d.cache, d.tape, built, st.remaining, LegBudget(limits, |st.trace|, d.reflows),
                    d.eligible, d.report)
    requires d.edge < |o.pins| && d.edge in d.report.plan.mask
    requires |d.report.plan.inputs| > d.edge && 0 < d.report.plan.inputs[d.edge] <= st.remaining
    requires |d.cache.snapshots| <= |d.report.plan.inputs| && Urgent(d.cache.snapshots, d.report.plan.inputs, d.edge)
    ensures Decided(o, limits, view, st, built, d)
  {
    hide Solved;
  }

  lemma ConsistentParts(
    o: Order, limits: Limits, b: seq<Call> -> View, history: seq<Call>, st: State, built: seq<Curve>)
    requires Consistent(o, limits, b, history, st, built) && Checked(o)
    ensures Current(o, st.cache) && (st.tape.Some? ==> IsTape(st.tape.value, built))
    ensures |history| == |st.trace| <= limits.maxLegs && st.reflows <= limits.maxReflows
    ensures st.reflows == if |st.trace| == 0 then 0 else |st.trace| - 1
    ensures st.remaining <= o.intent.amountIn <= MAX_ATOMS
    ensures b(history).balances == Ok(st.before)
  {
  }

  /** A certified plan names at least one venue, and none takes more than is left. */
  lemma PlanFacts(
    o: Order, view: View, spent: Spent, c: Cache, tape: Option<ResidualTape>, built: seq<Curve>,
    remaining: nat, budget: nat, eligible: set<nat>, report: Report)
    requires Solved(o, view, spent, c, tape, built, remaining, budget, eligible, report) && 0 < remaining
    ensures |c.snapshots| == |o.pins| <= |report.plan.inputs|
    ensures exists i :: 0 <= i < |c.snapshots| && report.plan.inputs[i] > 0
    ensures forall i :: 0 <= i < |c.snapshots| ==> report.plan.inputs[i] <= remaining
    ensures forall i :: 0 <= i < |c.snapshots| && report.plan.inputs[i] > 0 ==> i in report.plan.mask
  {
    SolvedPlan(o, view, spent, c, tape, built, remaining, budget, eligible, report);
    hide Solved;
    var inputs, n := report.plan.inputs, |c.curves|;
    if forall i :: 0 <= i < n ==> inputs[i] == 0 {
      TotalNothing(inputs, n);
    }
    forall i | 0 <= i < n
      ensures inputs[i] <= remaining
    {
      TotalCovers(inputs, i, n);
    }
  }

  function LegOf(d: Decision, remaining: nat, m: Moved): LegTrace
    requires d.edge < |d.report.plan.inputs| && m.spent <= remaining
  {
    LegTrace(d.edge, d.report.plan.inputs[d.edge], m.spent, m.received, remaining - m.spent, d.eligible, d.report.plan.mask)
  }

  function After(o: Order, st: State, d: Decision, m: Moved): State
    requires d.edge < |d.report.plan.inputs| && m.spent <= st.remaining && d.edge < |o.pins|
  {
    State(st.remaining - m.spent, Executing(o, st.spent, d.edge), m.after, d.cache, d.tape,
          st.trace + [LegOf(d, st.remaining, m)], d.reflows, st.compiled + d.compiled, st.builds + d.rebuilt,
          if |st.trace| == 0 then d.report else st.initial)
  }

  lemma TraceNext(o: Order, trace: seq<LegTrace>, leg: LegTrace)
    requires leg.edge < |o.pins|
    ensures SpentAfter(o, trace + [leg]) == Executing(o, SpentAfter(o, trace), leg.edge)
    ensures SpentTotal(trace + [leg]) == SpentTotal(trace) + leg.spent
    ensures ReceivedTotal(trace + [leg]) == ReceivedTotal(trace) + leg.received
  {
    assert (trace + [leg])[..|trace|] == trace;
  }

  ghost predicate Observed(b: seq<Call> -> View, history: seq<Call>, call: Call, st: State, m: Moved) {
    && b(history).balances == Ok(st.before)
    && b(history + [call]).invoked.Ok? && b(history + [call]).balances == Ok(m.after)
    && st.before.input == m.after.input + m.spent && m.after.output == st.before.output + m.received
    && m.spent <= call.request <= st.remaining && (m.spent == 0 <==> m.received == 0)
  }

  /** A leg is sound when its own facts hold at the end of the history so far. */
  lemma LegIntro(
    o: Order, b: seq<Call> -> View, history: seq<Call>, trace: seq<LegTrace>, call: Call, leg: LegTrace)
    requires |history| == |trace| && call == Call(leg.edge, leg.requested)
    requires leg.edge < |o.pins| && Eligible(o, b(history), SpentAfter(o, trace), leg.edge) && b(history).slot == o.slot
    requires leg.eligible == EligibleSet(o, b(history), SpentAfter(o, trace), |o.pins|)
    requires leg.edge in leg.chosen && leg.chosen <= leg.eligible
    requires SpentTotal(trace) + leg.requested <= o.intent.amountIn
    requires 0 < leg.requested && leg.spent <= leg.requested && (leg.spent == 0 <==> leg.received == 0)
    requires b(history + [call]).invoked.Ok? && b(history).balances.Ok? && b(history + [call]).balances.Ok?
    requires b(history).balances.value.input == b(history + [call]).balances.value.input + leg.spent
    requires b(history + [call]).balances.value.output == b(history).balances.value.output + leg.received
    requires leg.residual + SpentTotal(trace + [leg]) == o.intent.amountIn
    ensures LegOk(o, b, history + [call], trace + [leg], |trace|)
  {
    var longer, more := history + [call], trace + [leg];
    assert longer[..|history|] == history && longer[..|history| + 1] == longer;
    assert more[..|trace|] == trace && more[..|trace| + 1] == more;
    hide Eligible, EligibleSet, SpentAfter, SpentTotal;
  }

  lemma SolvedEligible(
    o: Order, view: View, spent: Spent, c: Cache, tape: Option<ResidualTape>, built: seq<Curve>,
    remaining: nat, budget: nat, eligible: set<nat>, report: Report, e: nat)
    requires Solved(o, view, spent, c, tape, built, remaining, budget, eligible, report) && e in report.plan.mask
    ensures eligible == EligibleSet(o, view, spent, |o.pins|) && report.plan.mask <= eligible
    ensures e < |o.pins| && Eligible(o, view, spent, e)
  {
    SolvedPlan(o, view, spent, c, tape, built, remaining, budget, eligible, report);
    assert Surveyed(o, view, spent, c, eligible);
    hide Solved, Eligible, Current, Fresh;
    assert e in eligible;
  }

  lemma NewLegOk(
    o: Order, limits: Limits, b: seq<Call> -> View, history: seq<Call>, st: State, built: seq<Curve>, built': seq<Curve>,
    d: Decision, m: Moved)
    requires Consistent(o, limits, b, history, st, built) && Decided(o, limits, b(history), st, built', d)
    requires Observed(b, history, Call(d.edge, d.report.plan.inputs[d.edge]), st, m)
    ensures LegOk(o, b, history + [Call(d.edge, d.report.plan.inputs[d.edge])],
                  st.trace + [LegOf(d, st.remaining, m)], |st.trace|)
  {
    var leg, call := LegOf(d, st.remaining, m), Call(d.edge, d.report.plan.inputs[d.edge]);
    SolvedEligible(o, b(history), st.spent, d.cache, d.tape, built', st.remaining,
                   LegBudget(limits, |st.trace|, d.reflows), d.eligible, d.report, d.edge);
    TraceNext(o, st.trace, leg);
    hide Solved, Current, Eligible, EligibleSet, SpentAfter, SpentTotal, IsTape, FirstSolve, LegOk, LegBudget;
    LegIntro(o, b, history, st.trace, call, leg);
  }

  lemma NewLegPlanned(
    o: Order, limits: Limits, b: seq<Call> -> View, history: seq<Call>, st: State, built: seq<Curve>, built': seq<Curve>,
    d: Decision, m: Moved)
    requires Consistent(o, limits, b, history, st, built) && Decided(o, limits, b(history), st, built', d)
    requires m.spent <= st.remaining
    ensures |history| == |st.trace|
    ensures LegPlanned(o, limits, b, history + [Call(d.edge, d.report.plan.inputs[d.edge])],
                       st.trace + [LegOf(d, st.remaining, m)], |st.trace|)
  {
    hide *;
    ConsistentParts2(o, limits, b, history, st, built);
    ExecutedLength(o, b, history, st.trace);
    DecidedAsks(o, limits, b(history), st, built', d);
    var k, longer, more :=
      |history|, history + [Call(d.edge, d.report.plan.inputs[d.edge])], st.trace + [LegOf(d, st.remaining, m)];
    assert longer[..k] == history && more[..k] == st.trace;
    LegFields(d, st.remaining, m);
    PlannedIntro(o, limits, b, longer, more, k, d.cache, d.report);
  }

  lemma ExecutedLength(o: Order, b: seq<Call> -> View, history: seq<Call>, trace: seq<LegTrace>)
    requires Executed(o, b, history, trace)
    ensures |history| == |trace|
  {
  }

  lemma LegFields(d: Decision, remaining: nat, m: Moved)
    requires d.edge < |d.report.plan.inputs| && m.spent <= remaining
    ensures LegOf(d, remaining, m).edge == d.edge && LegOf(d, remaining, m).requested == d.report.plan.inputs[d.edge]
    ensures LegOf(d, remaining, m).eligible == d.eligible && LegOf(d, remaining, m).chosen == d.report.plan.mask
  {
  }

  lemma DecidedAsks(o: Order, limits: Limits, view: View, st: State, built: seq<Curve>, d: Decision)
    requires Decided(o, limits, view, st, built, d)
    ensures |st.trace| < limits.maxLegs && d.reflows == |st.trace| <= limits.maxReflows && st.remaining > 0
    ensures Surveyed(o, view, st.spent, d.cache, d.eligible)
    ensures var q := ProblemOf(d.cache, st.remaining, d.eligible, LegBudget(limits, |st.trace|, |st.trace|));
            SearchOf(q) == Ok(d.report) && Certified(q, d.report)
    ensures d.edge < |d.cache.snapshots| <= |d.report.plan.inputs| && Urgent(d.cache.snapshots, d.report.plan.inputs, d.edge)
  {
    hide Surveyed, SearchOf, Certified, IsTape, Agrees, Enclosed, Readable, LegBudget, ProblemOf;
  }

  lemma PlannedIntro(
    o: Order, limits: Limits, b: seq<Call> -> View, history: seq<Call>, trace: seq<LegTrace>, k: nat, c: Cache,
    report: Report)
    requires k < |trace| == |history|
    requires o.intent.amountIn - SpentTotal(trace[..k]) > 0 && k < limits.maxLegs && k <= limits.maxReflows
    requires Surveyed(o, b(history[..k]), SpentAfter(o, trace[..k]), c, trace[k].eligible)
    requires var q := ProblemOf(c, o.intent.amountIn - SpentTotal(trace[..k]), trace[k].eligible, LegBudget(limits, k, k));
             SearchOf(q) == Ok(report) && Certified(q, report)
    requires trace[k].chosen == report.plan.mask && trace[k].edge < |c.snapshots| <= |report.plan.inputs|
    requires trace[k].requested == report.plan.inputs[trace[k].edge]
    requires Urgent(c.snapshots, report.plan.inputs, trace[k].edge)
    ensures LegPlanned(o, limits, b, history, trace, k)
  {
    hide Surveyed, SpentAfter, SpentTotal, Certified, SearchOf, Urgent, ProblemOf, LegBudget;
    assert Planned(o, limits, b, history, trace, k, c, report);
  }

  lemma AfterConsistent(
    o: Order, limits: Limits, b: seq<Call> -> View, history: seq<Call>, st: State, built: seq<Curve>, built': seq<Curve>,
    d: Decision, m: Moved)
    requires Consistent(o, limits, b, history, st, built) && Decided(o, limits, b(history), st, built', d)
    requires Observed(b, history, Call(d.edge, d.report.plan.inputs[d.edge]), st, m)
    ensures Consistent(o, limits, b, history + [Call(d.edge, d.report.plan.inputs[d.edge])], After(o, st, d, m), built')
  {
    var leg, call := LegOf(d, st.remaining, m), Call(d.edge, d.report.plan.inputs[d.edge]);
    NewLegOk(o, limits, b, history, st, built, built', d, m);
    ConsistentParts2(o, limits, b, history, st, built);
    ExecutedNext(o, b, history, st.trace, call, leg);
    NewLegPlanned(o, limits, b, history, st, built, built', d, m);
    FollowedNext(o, limits, b, history, st.trace, call, leg);
    TraceNext(o, st.trace, leg);
    FirstReport(o, limits, b, history, st, built, built', d);
    DecidedParts(o, limits, b(history), st, built', d);
    AfterFields(o, st, d, m);
    assert b(history + [call]).balances == Ok(m.after);
    hide *;
    ConsistentIntro(o, limits, b, history + [call], After(o, st, d, m), built');
  }

  lemma ConsistentParts2(
    o: Order, limits: Limits, b: seq<Call> -> View, history: seq<Call>, st: State, built: seq<Curve>)
    requires Consistent(o, limits, b, history, st, built)
    ensures Executed(o, b, history, st.trace) && Followed(o, limits, b, history, st.trace)
    ensures st.spent == SpentAfter(o, st.trace)
    ensures st.remaining + SpentTotal(st.trace) == o.intent.amountIn
    ensures |st.trace| > 0 ==> FirstSolve(o, limits, b, st.initial)
  {
    hide Executed, SpentAfter, SpentTotal, Current, IsTape, FirstSolve;
  }

  lemma ConsistentIntro(
    o: Order, limits: Limits, b: seq<Call> -> View, history: seq<Call>, st: State, built: seq<Curve>)
    requires Executed(o, b, history, st.trace) && Followed(o, limits, b, history, st.trace)
    requires st.spent == SpentAfter(o, st.trace)
    requires st.remaining + SpentTotal(st.trace) == o.intent.amountIn
    requires b(history).balances == Ok(st.before)
    requires Current(o, st.cache) && (st.tape.Some? ==> IsTape(st.tape.value, built))
    requires |st.trace| <= limits.maxLegs && st.reflows <= limits.maxReflows
    requires st.reflows == if |st.trace| == 0 then 0 else |st.trace| - 1
    requires |st.trace| > 0 ==> FirstSolve(o, limits, b, st.initial)
    ensures Consistent(o, limits, b, history, st, built)
  {
    hide Executed, SpentAfter, SpentTotal, Current, IsTape, FirstSolve;
  }

  lemma AfterFields(o: Order, st: State, d: Decision, m: Moved)
    requires d.edge < |d.report.plan.inputs| && m.spent <= st.remaining && d.edge < |o.pins|
    ensures var next := After(o, st, d, m);
            && next.remaining == st.remaining - m.spent && next.spent == Executing(o, st.spent, d.edge)
            && next.before == m.after && next.cache == d.cache && next.tape == d.tape
            && next.trace == st.trace + [LegOf(d, st.remaining, m)] && next.reflows == d.reflows
            && next.initial == if |st.trace| == 0 then d.report else st.initial
    ensures LegOf(d, st.remaining, m).edge == d.edge && LegOf(d, st.remaining, m).spent == m.spent
  {
  }

  lemma DecidedParts(o: Order, limits: Limits, view: View, st: State, built: seq<Curve>, d: Decision)
    requires Decided(o, limits, view, st, built, d)
    ensures Current(o, d.cache) && d.tape.Some? && IsTape(d.tape.value, built)
    ensures |st.trace| < limits.maxLegs && d.reflows == |st.trace| <= limits.maxReflows
  {
    hide Current, IsTape, Enclosed, SearchOf, Certified;
  }

  lemma FirstReport(
    o: Order, limits: Limits, b: seq<Call> -> View, history: seq<Call>, st: State, built: seq<Curve>, built': seq<Curve>,
    d: Decision)
    requires Consistent(o, limits, b, history, st, built) && Decided(o, limits, b(history), st, built', d)
    ensures |st.trace| == 0 ==> FirstSolve(o, limits, b, d.report)
  {
    hide Current, IsTape, Enclosed, SearchOf, Certified, Fresh, Surveyed;
    if |st.trace| == 0 {
      assert history == [] && st.spent == Spent({}, {});
      assert Surveyed(o, b([]), Spent({}, {}), d.cache, d.eligible);
    }
  }

  lemma DecidedSolved(o: Order, limits: Limits, view: View, st: State, built: seq<Curve>, d: Decision)
    requires Decided(o, limits, view, st, built, d)
    ensures |st.trace| < limits.maxLegs && d.reflows == |st.trace| <= limits.maxReflows && view.slot == o.slot
    ensures 0 < LegBudget(limits, |st.trace|, d.reflows)
    ensures Solved(o, view, st.spent, d.cache, d.tape, built, st.remaining, LegBudget(limits, |st.trace|, d.reflows),
                   d.eligible, d.report)
    ensures d.edge < |o.pins| && d.edge in d.report.plan.mask && |d.report.plan.inputs| > d.edge
  {
    hide Solved;
  }

  lemma WaitingIntro(o: Order, limits: Limits, view: View, st: State, built: seq<Curve>)
    requires |st.trace| > 0
    requires Ready(o, view, st.spent, st.cache, st.tape, built, st.remaining, NextBudget(limits, st))
    ensures Waiting(o, limits, view, st, built)
  {
    hide Ready;
  }

  lemma AfterWaiting(
    o: Order, limits: Limits, view: View, st: State, built: seq<Curve>, d: Decision, m: Moved, view': View)
    requires Decided(o, limits, view, st, built, d)
    requires d.edge < |d.report.plan.inputs| && m.spent == d.report.plan.inputs[d.edge] < st.remaining
    requires FillsAt(view, Call(d.edge, d.report.plan.inputs[d.edge]), view')
    ensures d.edge < |o.pins|
    ensures Waiting(o, limits, view', After(o, st, d, m), built)
  {
    hide *;
    DecidedSolved(o, limits, view, st, built, d);
    AfterFields(o, st, d, m);
    NextIsOneLess(o, limits, st, d, m);
    var budget := LegBudget(limits, |st.trace|, d.reflows);
    FilledIsReady(o, view, st.spent, d.cache, d.tape, built, st.remaining, budget, d.eligible, d.report, d.edge, view');
    WaitingIntro(o, limits, view', After(o, st, d, m), built);
  }

  lemma NextIsOneLess(o: Order, limits: Limits, st: State, d: Decision, m: Moved)
    requires d.edge < |d.report.plan.inputs| && m.spent <= st.remaining && d.edge < |o.pins|
    requires |st.trace| < limits.maxLegs && d.reflows == |st.trace| <= limits.maxReflows
    ensures NextBudget(limits, After(o, st, d, m)) == LegBudget(limits, |st.trace|, d.reflows) - 1
  {
  }

  /** One pass of the loop. A host that fills the request cannot make the round fail
      after its solve, and leaves the next one ready. */
  method Round(o: Order, limits: Limits, host: Host, st: State, ghost built: seq<Curve>, meter: WorkMeter)
    returns (r: Result<State>, ghost built': seq<Curve>)
    requires Checked(o) && Consistent(o, limits, host.behaviour, host.history, st, built) && st.remaining > 0
    requires limits.maxLegs <= MAX_LEGS
    modifies host, meter`used
    ensures old(meter.Within()) ==> meter.Within()
    ensures host.history == old(host.history) ||
            (|host.history| == |old(host.history)| + 1 && host.history[..|old(host.history)|] == old(host.history))
    ensures r.Ok? ==> Consistent(o, limits, host.behaviour, host.history, r.value, built')
    ensures r.Ok? ==> |r.value.trace| == |st.trace| + 1
    ensures |host.history| <= limits.maxLegs
    ensures old(Waiting(o, limits, host.Now(), st, built)) && host.history == old(host.history) ==>
              r.Err? &&
              (|| (r.error.WorkLimit? && old(meter.used) + ROUND_WORK > meter.limit)
               || (r.error.Arithmetic? && |st.trace| == 0 && FirstBoundOverflows(o, old(host.Now()), st.spent, st.remaining)))
    ensures old(meter.used) <= meter.used <= old(meter.used) + ROUND_WORK
    ensures |host.history| > |old(host.history)|
            && FillsAt(old(host.Now()), host.history[|old(host.history)|], host.Now()) ==>
              r.Ok? && (r.value.remaining > 0 ==> Waiting(o, limits, host.Now(), r.value, built'))
  {
    ConsistentParts(o, limits, host.behaviour, host.history, st, built);
    hide *;
    ghost var before := host.history;
    var decision;
    decision, built' := Decide(o, limits, host, st, built, meter);
    if decision.Err? {
      return Err(decision.error), built';
    }
    var d := decision.value;
    DecidedEdge(o, limits, host.Now(), st, built', d);
    var ok := meter.Charge(1);
    if !ok {
      return Err(WorkLimit), built';
    }
    ghost var view := host.Now();
    var request := d.report.plan.inputs[d.edge];
    NowIs(host);
    var moved := InvokeAndObserve(host, d.edge, request, st.before, st.remaining);
    NowIs(host);
    if moved.Err? {
      return Err(moved.error), built';
    }
    var m := moved.value;
    ObservedIntro(host.behaviour, before, Call(d.edge, request), st, m);
    AfterConsistent(o, limits, host.behaviour, before, st, built, built', d, m);
    AfterShape(o, st, d, m);
    if FillsAt(view, Call(d.edge, request), host.Now()) && m.spent < st.remaining {
      AfterWaiting(o, limits, view, st, built', d, m, host.Now());
    }
    return Ok(After(o, st, d, m)), built';
  }

  lemma DecidedEdge(o: Order, limits: Limits, view: View, st: State, built: seq<Curve>, d: Decision)
    requires Decided(o, limits, view, st, built, d)
    ensures d.edge < |o.pins| && |d.report.plan.inputs| > d.edge && 0 < d.report.plan.inputs[d.edge] <= st.remaining
    ensures |st.trace| < limits.maxLegs
  {
    hide Solved;
  }

  lemma NowIs(host: Host)
    ensures host.Now() == host.behaviour(host.history)
  {
  }

  lemma ObservedIntro(b: seq<Call> -> View, history: seq<Call>, call: Call, st: State, m: Moved)
    requires b(history).balances == Ok(st.before)
    requires b(history + [call]).invoked.Ok? && b(history + [call]).balances == Ok(m.after)
    requires st.before.input == m.after.input + m.spent && m.after.output == st.before.output + m.received
    requires m.spent <= call.request <= st.remaining && (m.spent == 0 <==> m.received == 0)
    ensures Observed(b, history, call, st, m)
  {
  }

  lemma AfterShape(o: Order, st: State, d: Decision, m: Moved)
    requires d.edge < |d.report.plan.inputs| && m.spent <= st.remaining && d.edge < |o.pins|
    ensures After(o, st, d, m).remaining == st.remaining - m.spent
    ensures |After(o, st, d, m).trace| == |st.trace| + 1
  {
  }
}
