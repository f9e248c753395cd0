/** What a search accepts, and what its report says about the venues themselves. */
module Plans {
  import opened Base
  import opened Curves
  import opened Venues
  import opened Greedy
  import opened Allocations
  import opened GreedyOptimality
  import opened TapeQuery
  import opened SearchSpec
  import opened SearchTheorems

  // ---------------------------------------------------------------- well-posed questions

  /** An enabled atomic venue between two different tokens whose curve promises no more
      room than the venue shows. */
  predicate SoundVenue(q: Problem, i: nat)
    requires i < |q.snapshots| == |q.curves|
  {
    var s := q.snapshots[i];
    s.inputMint != s.outputMint && s.atomic && s.enabled && q.curves[i].capacity <= s.capacity
  }

  /** Two venues of the same pair that are not the same liquidity. */
  predicate Compatible(s: Snapshot, t: Snapshot) {
    && s.inputMint == t.inputMint && s.outputMint == t.outputMint
    && s.market != t.market && s.liquidityId != t.liquidityId
  }

  lemma {:induction false} VenuesAccepted(q: Problem, n: nat)
    requires n <= |q.snapshots| == |q.curves|
    ensures EdgesFault(q, n).None? <==>
              && (forall i :: 0 <= i < n && i in q.eligible ==> SoundVenue(q, i))
              && forall i, j :: 0 <= i < j < n && i in q.eligible && j in q.eligible ==>
                   Compatible(q.snapshots[i], q.snapshots[j])
  {
    if n > 0 {
      VenuesAccepted(q, n - 1);
      VenueAccepted(q, n - 1);
      hide EdgeFault, SoundVenue, Compatible;
    }
  }

  lemma VenueAccepted(q: Problem, i: nat)
    requires i < |q.snapshots| == |q.curves|
    ensures EdgeFault(q, i).None? <==>
              (i in q.eligible ==>
                 SoundVenue(q, i) && forall j :: 0 <= j < i && j in q.eligible ==> Compatible(q.snapshots[j], q.snapshots[i]))
  {
  }

  /** A question is accepted exactly when it names one to eight venues with their curves,
      one to four legs and a bounded positive amount, and the eligible venues are sound
      and compatible. */
  lemma ProblemAccepted(q: Problem)
    ensures ProblemFault(q).None? <==>
              && 0 < |q.snapshots| <= 8 && |q.curves| == |q.snapshots| && 0 < q.maxLegs <= 4
              && 0 < q.amount <= MAX_ATOMS
              && (forall i :: 0 <= i < |q.snapshots| && i in q.eligible ==> SoundVenue(q, i))
              && forall i, j :: 0 <= i < j < |q.snapshots| && i in q.eligible && j in q.eligible ==>
                   Compatible(q.snapshots[i], q.snapshots[j])
  {
    hide EdgesFault, SoundVenue, Compatible;
    if |q.curves| == |q.snapshots| {
      VenuesAccepted(q, |q.snapshots|);
    }
  }

  // ---------------------------------------------------------------- the plan

  /** The reported plan can be executed as it stands: it uses at most the permitted number
      of eligible venues, no two of which write a common account, gives each no more
      than it shows, spends the whole amount, and its output is what they pay exactly. */
  lemma PlanExecutes(q: Problem, report: Report)
    requires Enclosed(q) && Certified(q, report)
    ensures |q.snapshots| == |q.curves| <= |report.plan.inputs|
    ensures var xs := report.plan.inputs;
            && (forall i :: 0 <= i < |xs| && xs[i] > 0 ==>
                  i in q.eligible && i < |q.snapshots| && xs[i] <= q.snapshots[i].capacity)
            && |set i | 0 <= i < |xs| && xs[i] > 0| <= q.maxLegs
            && (forall i, j :: 0 <= i < j < |q.snapshots| && xs[i] > 0 && xs[j] > 0 ==>
                  q.snapshots[i].writableResources * q.snapshots[j].writableResources == {})
            && Total(xs, |q.snapshots|) == q.amount
            && ExactSum(q.snapshots, xs, |q.snapshots|) == Ok(report.plan.output)
    ensures report.certificate.achieved == report.plan.output
    ensures report.certificate.upper == report.plan.output + report.certificate.gap
  {
    CertifiedParts(q, report);
    var plan := report.plan;
    assert plan.mask == set i | 0 <= i < |plan.inputs| && plan.inputs[i] > 0;
    hide Certified, Support, ExactSum;
    forall i | 0 <= i < |plan.inputs| && plan.inputs[i] > 0
      ensures i in q.eligible && i < |q.snapshots| && plan.inputs[i] <= q.snapshots[i].capacity
    {
      assert i in plan.mask;
      VenueHasRoom(q, i);
    }
  }

  lemma CertifiedParts(q: Problem, report: Report)
    requires Certified(q, report)
    ensures Executable(q, report.plan)
    ensures report.certificate.achieved == report.plan.output
    ensures report.certificate.upper == report.certificate.achieved + report.certificate.gap
  {
    hide Executable, ExactSum, QueryOf;
  }

  lemma VenueHasRoom(q: Problem, i: nat)
    requires Enclosed(q) && i in q.eligible && i < |q.curves| == |q.snapshots|
    ensures TotalCapacity(q.curves[i].segments) <= q.snapshots[i].capacity
  {
    ProblemAccepted(q);
    hide ProblemFault, Envelope, ValidBands;
    assert ValidCurve(q.curves[i]) && SoundVenue(q, i);
  }

  /** What each venue of a split is sure to pay. */
  ghost function SurePay(curves: seq<Curve>, inputs: seq<nat>): (xs: seq<nat>)
    requires |curves| <= |inputs|
    ensures |xs| == |curves|
  {
    seq(|curves|, i requires 0 <= i < |curves| =>
      var quote := Integral(curves[i].segments, inputs[i]) / SCALE;
      if inputs[i] > 0 && curves[i].lowerError < quote then quote - curves[i].lowerError else 0)
  }

  lemma {:induction false} LowerIsSurePay(curves: seq<Curve>, inputs: seq<nat>, n: nat)
    requires n <= |curves| <= |inputs|
    ensures LowerOutput(curves, inputs, n) == Total(SurePay(curves, inputs), n)
  {
    hide Integral;
    if n > 0 {
      LowerIsSurePay(curves, inputs, n - 1);
    }
  }

  /** The estimate of a subset: its best split by Q32 output, valued at what every venue
      of it is sure to pay. It exists exactly when the subset has room for the amount. */
  lemma EstimateMeans(q: Problem, mask: set<nat>)
    requires Enclosed(q) && Admissible(q, mask)
    ensures QueryOf(q, mask, true).Ok? <==> q.amount <= MaskCapacity(q.curves, mask, |q.curves|)
    ensures QueryOf(q, mask, true).Ok? ==>
              var p := QueryOf(q, mask, true).value;
              && |q.curves| <= |p.inputs| && IsSplit(q.curves, mask, q.amount, p.inputs)
              && p.output == Total(SurePay(q.curves, p.inputs), |q.curves|)
              && forall ys :: IsSplit(q.curves, mask, q.amount, ys) ==>
                   |q.curves| <= |ys| && Score(q.curves, ys, |q.curves|) <= Score(q.curves, p.inputs, |q.curves|)
  {
    AdmissibleNonEmpty(q, mask);
    assert mask <= q.eligible;
    hide *;
    QueryFills(q, mask, true);
    QueryFills(q, mask, false);
    if QueryOf(q, mask, true).Ok? {
      var p := QueryOf(q, mask, true).value;
      GreedyIsSplit(q.curves, mask, q.amount);
      SplitFits(q.curves, mask, q.amount, p.inputs);
      LowerIsSurePay(q.curves, p.inputs, |q.curves|);
      PlainQuery(q, mask);
      forall ys | IsSplit(q.curves, mask, q.amount, ys)
        ensures |q.curves| <= |ys| && Score(q.curves, ys, |q.curves|) <= Score(q.curves, p.inputs, |q.curves|)
      {
        SplitFits(q.curves, mask, q.amount, ys);
        GreedyIsOptimal(q.curves, q.amount, mask, ys);
      }
    }
  }

  lemma SplitFits(curves: seq<Curve>, mask: set<nat>, amount: nat, ys: seq<nat>)
    requires IsSplit(curves, mask, amount, ys)
    ensures |curves| <= |ys|
  {
  }

  lemma PlainQuery(q: Problem, mask: set<nat>)
    ensures QueryOf(q, mask, false) == WaterfillOf(q.curves, q.amount, mask)
  {
    hide WaterfillOf;
  }

  // ---------------------------------------------------------------- the finalists

  lemma {:induction false} BestIsFirst(q: Problem, finalists: seq<Allocation>, n: nat) returns (k: nat)
    requires Sums(q, finalists) && 0 < n <= |finalists|
    ensures k < n && BestOf(q, finalists, n) == Ok(Evaluated(q, finalists[k]))
    ensures forall j :: 0 <= j < n ==>
              ExactSum(q.snapshots, finalists[j].inputs, |q.snapshots|).value
              <= ExactSum(q.snapshots, finalists[k].inputs, |q.snapshots|).value
    ensures forall j :: 0 <= j < k ==>
              ExactSum(q.snapshots, finalists[j].inputs, |q.snapshots|).value
              < ExactSum(q.snapshots, finalists[k].inputs, |q.snapshots|).value
  {
    hide ExactSum;
    if n == 1 {
      k := 0;
      assert BestOf(q, finalists, 0) == Ok(NO_PLAN);
    } else {
      k := BestIsFirst(q, finalists, n - 1);
      if ExactSum(q.snapshots, finalists[n - 1].inputs, |q.snapshots|).value
         > ExactSum(q.snapshots, finalists[k].inputs, |q.snapshots|).value {
        k := n - 1;
      }
    }
  }

  /** How the plan was found. At most four different splits were compared exactly. Each
      is the estimate of some admissible subset; they come best estimate first; and any
      other admissible subset's split is among them, or there are four and none has a
      lower estimate. The plan is the first of them with the largest exact output. */
  lemma FinalistsCompete(q: Problem) returns (finalists: seq<Allocation>, best: nat)
    requires Enclosed(q) && SearchOf(q).Ok?
    ensures best < |finalists| <= 4
    ensures forall k :: 0 <= k < |finalists| ==> Estimates(q, finalists[k])
    ensures forall j, k :: 0 <= j < k < |finalists| ==>
              finalists[j].output >= finalists[k].output && finalists[j].inputs != finalists[k].inputs
    ensures forall p :: Estimates(q, p) ==>
              || (exists k :: 0 <= k < |finalists| && finalists[k].inputs == p.inputs)
              || (|finalists| == 4 && forall k :: 0 <= k < |finalists| ==> finalists[k].output >= p.output)
    ensures SearchOf(q).value.plan == finalists[best].(output := SearchOf(q).value.plan.output)
    ensures SearchOf(q).value.stats.simulations == |finalists|
    ensures forall k :: 0 <= k < |finalists| ==>
              && |q.snapshots| <= |finalists[k].inputs|
              && ExactSum(q.snapshots, finalists[k].inputs, |q.snapshots|).Ok?
              && ExactSum(q.snapshots, finalists[k].inputs, |q.snapshots|).value <= SearchOf(q).value.plan.output
              && (k < best ==>
                    ExactSum(q.snapshots, finalists[k].inputs, |q.snapshots|).value < SearchOf(q).value.plan.output)
  {
    hide *;
    var last := Pow2(|q.curves|);
    SearchShape(q);
    ScanIsShortlist(q, last);
    finalists := ScanMasks(q, last).value.finalists;
    ShortlistShape(q, finalists);
    FinalistsSum(q, finalists);
    best := BestIsFirst(q, finalists, |finalists|);
    SumsAre(q, finalists);
    EvaluatedIs(q, finalists[best]);
  }

  lemma SumsAre(q: Problem, finalists: seq<Allocation>)
    requires Sums(q, finalists)
    ensures forall k :: 0 <= k < |finalists| ==>
              |q.snapshots| <= |finalists[k].inputs| && ExactSum(q.snapshots, finalists[k].inputs, |q.snapshots|).Ok?
  {
    hide ExactSum;
  }

  lemma EvaluatedIs(q: Problem, p: Allocation)
    requires |q.snapshots| <= |p.inputs| && ExactSum(q.snapshots, p.inputs, |q.snapshots|).Ok?
    ensures Evaluated(q, p) == p.(output := ExactSum(q.snapshots, p.inputs, |q.snapshots|).value)
  {
    hide ExactSum;
  }

  lemma SearchShape(q: Problem)
    requires Enclosed(q) && SearchOf(q).Ok?
    ensures 1 <= Pow2(|q.curves|) && ScanMasks(q, Pow2(|q.curves|)).Ok?
    ensures QueryOf(q, q.eligible, false).Ok?
    ensures UpperOf(q, QueryOf(q, q.eligible, false).value.output, |q.curves|).Ok?
    ensures |q.snapshots| == |q.curves|
    ensures var finalists := ScanMasks(q, Pow2(|q.curves|)).value.finalists;
            && 0 < |finalists| && WellFormed(q, finalists)
            && SearchOf(q).value.stats.simulations == |finalists|
            && BestOf(q, finalists, |finalists|) == Ok(SearchOf(q).value.plan)
  {
    hide QueryOf, UpperOf, ScanMasks, BestOf, EdgesFault, Pow2, Envelope, ValidCurve;
    ScanWellFormed(q, Pow2(|q.curves|));
  }

  lemma FinalistsSum(q: Problem, finalists: seq<Allocation>)
    requires Enclosed(q) && WellFormed(q, finalists) && QueryOf(q, q.eligible, false).Ok?
    requires UpperOf(q, QueryOf(q, q.eligible, false).value.output, |q.curves|).Ok?
    requires forall k :: 0 <= k < |finalists| ==> Estimates(q, finalists[k])
    ensures Sums(q, finalists)
  {
    hide Enclosed, QueryOf, UpperOf, ExactSum, Estimates, IsSplit, Admissible, Support;
    EnclosedParts(q);
    forall k | 0 <= k < |finalists|
      ensures |q.snapshots| <= |finalists[k].inputs| && finalists[k].mask != {}
      ensures ExactSum(q.snapshots, finalists[k].inputs, |q.snapshots|).Ok?
    {
      ShortlistedPlan(q, finalists[k]);
      AdmissibleNonEmpty(q, finalists[k].mask);
    }
  }

  lemma ShortlistShape(q: Problem, finalists: seq<Allocation>)
    requires Enclosed(q) && Shortlist(q, finalists, Pow2(|q.curves|))
    ensures |finalists| <= 4
    ensures forall k :: 0 <= k < |finalists| ==> Estimates(q, finalists[k])
    ensures forall j, k :: 0 <= j < k < |finalists| ==>
              finalists[j].output >= finalists[k].output && finalists[j].inputs != finalists[k].inputs
    ensures forall p :: Estimates(q, p) ==>
              || (exists k :: 0 <= k < |finalists| && finalists[k].inputs == p.inputs)
              || (|finalists| == 4 && forall k :: 0 <= k < |finalists| ==> finalists[k].output >= p.output)
  {
    hide Enclosed, QueryOf, Admissible;
    forall p | Estimates(q, p)
      ensures || (exists k :: 0 <= k < |finalists| && finalists[k].inputs == p.inputs)
              || (|finalists| == 4 && forall k :: 0 <= k < |finalists| ==> finalists[k].output >= p.output)
    {
      hide Covered;
      var mask :| Admissible(q, mask) && QueryOf(q, mask, true) == Ok(p);
      assert Seen(q, mask, Pow2(|q.curves|));
      CoveredMeans(finalists, p);
    }
  }

  lemma CoveredMeans(finalists: seq<Allocation>, p: Allocation)
    requires Covered(finalists, p)
    ensures || (exists k :: 0 <= k < |finalists| && finalists[k].inputs == p.inputs)
            || (|finalists| == 4 && forall k :: 0 <= k < |finalists| ==> finalists[k].output >= p.output)
  {
  }
}
