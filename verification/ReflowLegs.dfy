/** The legs of a run in terms of what the host showed: which venues count as eligible,
    and what every invoked venue looked like when it was invoked. */
module ReflowLegs {
  import opened Base
  import opened Venues
  import opened Greedy
  import opened SearchSpec
  import opened SearchTheorems
  import opened ReflowSurvey
  import opened ReflowSolve
  import opened ReflowRound
  import opened Reflow

  /** The venues and accounts a trace used up. */
  lemma {:induction false} SpentMeans(o: Order, trace: seq<LegTrace>, k: nat)
    requires k <= |trace|
    ensures forall e: nat :: e in SpentAfter(o, trace[..k]).edges <==> exists j :: 0 <= j < k && trace[j].edge == e
    ensures forall x: nat :: x in SpentAfter(o, trace[..k]).resources <==>
              exists j :: 0 <= j < k && trace[j].edge < |o.pins| && x in o.pins[trace[j].edge].writableResources
  {
    if k > 0 {
      SpentMeans(o, trace, k - 1);
      assert trace[..k][..k - 1] == trace[..k - 1];
      var before, after := SpentAfter(o, trace[..k - 1]), SpentAfter(o, trace[..k]);
      assert after.edges == before.edges + {trace[k - 1].edge};
      assert after.resources
             == before.resources + if trace[k - 1].edge < |o.pins| then o.pins[trace[k - 1].edge].writableResources else {};
      hide SpentAfter;
    }
  }

  /** Venue i can be used at this moment: it shows the identity it was pinned to, is
      enabled, atomic and not empty, has not expired, is no older than the intent
      allows and no older a generation than the pin asks for. */
  ghost predicate Usable(o: Order, view: View, i: nat)
    requires i < |o.pins|
  {
    && view.snapshot(i).Ok?
    && var s, pin := view.snapshot(i).value, o.pins[i];
       && s.market == pin.market && s.program == pin.program && s.liquidityId == pin.liquidityId
       && s.inputMint == o.intent.inputMint && s.outputMint == o.intent.outputMint
       && s.writableResources == pin.writableResources
       && s.enabled && s.atomic && s.capacity > 0
       && s.slot <= o.slot <= s.expiresAtSlot && o.slot - s.slot <= o.intent.maxSnapshotAge
       && s.generation >= pin.minGeneration
  }

  /** Neither venue i nor any account it writes was used by the first k legs. */
  ghost predicate Unused(o: Order, trace: seq<LegTrace>, k: nat, i: nat)
    requires i < |o.pins| && k <= |trace|
  {
    forall j :: 0 <= j < k ==>
      && trace[j].edge != i
      && (trace[j].edge < |o.pins| ==> o.pins[trace[j].edge].writableResources * o.pins[i].writableResources == {})
  }

  lemma EligibleMeans(o: Order, view: View, trace: seq<LegTrace>, k: nat, i: nat)
    requires i < |o.pins| && k <= |trace|
    ensures Eligible(o, view, SpentAfter(o, trace[..k]), i) <==> Usable(o, view, i) && Unused(o, trace, k, i)
  {
    SpentMeans(o, trace, k);
    var spent, mine := SpentAfter(o, trace[..k]), o.pins[i].writableResources;
    hide SpentAfter;
    if Usable(o, view, i) && Unused(o, trace, k, i) {
      forall x: nat | x in spent.resources
        ensures x !in mine
      {
        var j :| 0 <= j < k && trace[j].edge < |o.pins| && x in o.pins[trace[j].edge].writableResources;
        assert x !in o.pins[trace[j].edge].writableResources * mine;
      }
      assert spent.resources * mine == {};
    }
    if Eligible(o, view, spent, i) {
      forall j | 0 <= j < k
        ensures trace[j].edge != i
        ensures trace[j].edge < |o.pins| ==> o.pins[trace[j].edge].writableResources * mine == {}
      {
        assert trace[j].edge in spent.edges;
        if trace[j].edge < |o.pins| {
          assert o.pins[trace[j].edge].writableResources <= spent.resources;
        }
      }
    }
  }

  /** In every leg of every successful run, the venues taken into account are exactly
      those that the host showed to be usable at that moment and that neither were
      executed nor share an account with one that was. */
  lemma LegEligible(
    o: Order, limits: Limits, b: seq<Call> -> View, history: seq<Call>, receipt: Receipt, k: nat, i: nat)
    requires SafeRun(o, limits, b, history, receipt) && k < |receipt.trace|
    ensures |history| == |receipt.trace|
    ensures i in receipt.trace[k].eligible <==>
              i < |o.pins| && Usable(o, b(history[..k]), i) && Unused(o, receipt.trace, k, i)
  {
    hide Followed, FirstSolve, SpentTotal, ReceivedTotal, Usable, Unused, Eligible, SpentAfter;
    assert LegOk(o, b, history, receipt.trace, k);
    if i < |o.pins| {
      EligibleMeans(o, b(history[..k]), receipt.trace, k, i);
    }
  }

  /** Every venue a successful run invoked was usable and unused when it was invoked. */
  lemma InvokedIsUsable(
    o: Order, limits: Limits, b: seq<Call> -> View, history: seq<Call>, receipt: Receipt, k: nat)
    requires SafeRun(o, limits, b, history, receipt) && k < |history|
    ensures |history| == |receipt.trace| && history[k].edge < |o.pins| && b(history[..k]).slot == o.slot
    ensures Usable(o, b(history[..k]), history[k].edge) && Unused(o, receipt.trace, k, history[k].edge)
  {
    LegShape(o, b, history, receipt.trace, k);
    LegEligible(o, limits, b, history, receipt, k, history[k].edge);
  }

  lemma LegShape(o: Order, b: seq<Call> -> View, history: seq<Call>, trace: seq<LegTrace>, k: nat)
    requires Executed(o, b, history, trace) && k < |history|
    ensures |history| == |trace| && history[k] == Call(trace[k].edge, trace[k].requested)
    ensures trace[k].edge < |o.pins| && trace[k].edge in trace[k].eligible && b(history[..k]).slot == o.slot
  {
    assert LegOk(o, b, history, trace, k);
    hide Eligible, EligibleSet, SpentAfter, SpentTotal;
  }

  /** Every leg requests its venue's share of a plan that was certified for exactly what
      was left then, within the legs left then; the venue has the most imminent expiry
      of the venues with a share, and the lowest index among equals. */
  lemma LegExecutesPlan(
    o: Order, limits: Limits, b: seq<Call> -> View, history: seq<Call>, receipt: Receipt, k: nat)
    returns (c: Cache, report: Report)
    requires SafeRun(o, limits, b, history, receipt) && k < |history|
    ensures |history| == |receipt.trace| && k < limits.maxLegs && k <= limits.maxReflows
    ensures o.intent.amountIn > SpentTotal(receipt.trace[..k])
    ensures Certified(
              ProblemOf(c, o.intent.amountIn - SpentTotal(receipt.trace[..k]), receipt.trace[k].eligible,
                        Min(limits.maxLegs - k, limits.maxReflows - k + 1)), report)
    ensures |c.snapshots| == |o.pins| <= |report.plan.inputs| && history[k].edge < |o.pins|
    ensures forall i: nat :: i in receipt.trace[k].eligible ==>
              i < |o.pins| && b(history[..k]).snapshot(i) == Ok(c.snapshots[i])
    ensures history[k].request == report.plan.inputs[history[k].edge] > 0
    ensures forall i :: 0 <= i < |o.pins| && report.plan.inputs[i] > 0 ==>
              || c.snapshots[history[k].edge].expiresAtSlot < c.snapshots[i].expiresAtSlot
              || (c.snapshots[history[k].edge].expiresAtSlot == c.snapshots[i].expiresAtSlot && history[k].edge <= i)
  {
    hide *;
    SafeParts(o, limits, b, history, receipt);
    LegShape(o, b, history, receipt.trace, k);
    FollowedAt(o, limits, b, history, receipt.trace, k);
    c, report := PlanOf(o, limits, b, history, receipt.trace, k);
    SurveyedShows(o, b(history[..k]), SpentAfter(o, receipt.trace[..k]), c, receipt.trace[k].eligible);
    UrgentMeans(c.snapshots, report.plan.inputs, history[k].edge);
    BudgetIs(limits, k);
  }

  lemma SafeParts(o: Order, limits: Limits, b: seq<Call> -> View, history: seq<Call>, receipt: Receipt)
    requires SafeRun(o, limits, b, history, receipt)
    ensures Executed(o, b, history, receipt.trace) && Followed(o, limits, b, history, receipt.trace)
  {
    hide Executed, Followed, FirstSolve, SpentTotal, ReceivedTotal;
  }

  lemma FollowedAt(
    o: Order, limits: Limits, b: seq<Call> -> View, history: seq<Call>, trace: seq<LegTrace>, k: nat)
    requires Followed(o, limits, b, history, trace) && k < |trace|
    ensures |history| == |trace| && LegPlanned(o, limits, b, history, trace, k)
  {
    hide LegPlanned;
  }

  lemma SurveyedShows(o: Order, view: View, spent: Spent, c: Cache, eligible: set<nat>)
    requires Surveyed(o, view, spent, c, eligible)
    ensures |c.snapshots| == |o.pins|
    ensures forall i: nat :: i in eligible ==> i < |o.pins| && view.snapshot(i) == Ok(c.snapshots[i])
  {
    hide Current, Eligible;
  }

  lemma UrgentMeans(snapshots: seq<Snapshot>, inputs: seq<nat>, e: nat)
    requires |snapshots| <= |inputs| && Urgent(snapshots, inputs, e)
    ensures e < |snapshots| && inputs[e] > 0
    ensures forall i :: 0 <= i < |snapshots| && inputs[i] > 0 ==>
              || snapshots[e].expiresAtSlot < snapshots[i].expiresAtSlot
              || (snapshots[e].expiresAtSlot == snapshots[i].expiresAtSlot && e <= i)
  {
  }

  lemma BudgetIs(limits: Limits, k: nat)
    requires k <= limits.maxLegs && k <= limits.maxReflows
    ensures LegBudget(limits, k, k) == Min(limits.maxLegs - k, limits.maxReflows - k + 1)
  {
  }


  // ---------------------------------------------------------------- what a run starts from

  /** A run is accepted exactly with one to eight pinned venues, no two on the same market
      or liquidity, one to four legs, at most three reflows, a bounded positive amount
      of one token for another, before its deadline, and with that much in the balance. */
  lemma AcceptedExactly(o: Order, limits: Limits, view: View)
    ensures Acceptable(o, limits, view) <==>
              && 0 < |o.pins| <= 8 && 0 < limits.maxLegs <= 4 && limits.maxReflows <= 3
              && (forall i, j :: 0 <= i < j < |o.pins| ==>
                    o.pins[i].market != o.pins[j].market && o.pins[i].liquidityId != o.pins[j].liquidityId)
              && 0 < o.intent.amountIn <= 100_000_000_000_000 && o.intent.inputMint != o.intent.outputMint
              && view.slot == o.slot <= o.intent.expiresAtSlot
              && view.balances.Ok? && o.intent.amountIn <= view.balances.value.input
  {
  }
}
