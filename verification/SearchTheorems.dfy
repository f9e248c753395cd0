/** What a search report is worth: its plan is executable, it beats the conservative
    estimate of every admissible subset, and no split of the amount beats it by more
    than the reported gap. */
module SearchTheorems {
  import opened Base
  import opened Products
  import opened Curves
  import opened Venues
  import opened Greedy
  import opened Allocations
  import opened GreedyOptimality
  import opened TapeQuery
  import opened SearchSpec

  /** The eligible venues are described by valid curves that enclose them. */
  ghost predicate Enclosed(q: Problem) {
    && ProblemFault(q).None?
    && q.eligible != {} && ValidMask(q.curves, q.eligible)
    && forall i :: 0 <= i < |q.curves| && i in q.eligible ==> Envelope(q.snapshots[i], q.curves[i])
  }

  lemma EnclosedParts(q: Problem)
    requires Enclosed(q)
    ensures 0 < |q.snapshots| == |q.curves| <= MAX_EDGES && 0 < q.amount <= MAX_ATOMS
    ensures q.eligible != {} && forall i :: i in q.eligible ==> i < |q.curves|
    ensures ValidMask(q.curves, q.eligible)
  {
  }

  lemma EnclosedVenue(q: Problem, i: nat, x: nat)
    requires Enclosed(q) && i in q.eligible && x <= TotalCapacity(q.curves[i].segments)
    ensures |q.snapshots| == |q.curves|
    ensures var exact, output := ExactQuoteOf(q.snapshots[i], x), Integral(q.curves[i].segments, x) / SCALE;
            && exact.Ok?
            && SaturatingSub(output, q.curves[i].lowerError) <= exact.value <= output + q.curves[i].upperError
  {
    assert ValidCurve(q.curves[i]) && Envelope(q.snapshots[i], q.curves[i]);
  }

  // ---------------------------------------------------------------- queries

  lemma QueryFills(q: Problem, mask: set<nat>, lower: bool)
    requires Enclosed(q) && mask != {} && mask <= q.eligible
    ensures if MaskCapacity(q.curves, mask, |q.curves|) < q.amount then QueryOf(q, mask, lower) == Err(Error.Capacity)
            else && Fillable(q.curves, mask, q.amount)
                 && QueryOf(q, mask, lower).Ok?
                 && QueryOf(q, mask, lower).value.inputs == GreedyInputs(q.curves, mask, q.amount)
                 && QueryOf(q, mask, lower).value.mask == Support(GreedyInputs(q.curves, mask, q.amount))
                 && QueryOf(q, mask, lower).value.output ==
                    (if lower then LowerOutput(q.curves, GreedyInputs(q.curves, mask, q.amount), |q.curves|)
                     else Score(q.curves, GreedyInputs(q.curves, mask, q.amount), |q.curves|) / SCALE)
  {
    EnclosedParts(q);
    NoMaskFault(q.curves, mask, |q.curves|);
    hide Enclosed, GreedyInputs, LowerOutput, Score, MaskCapacity, ValidCurve;
  }

  // ---------------------------------------------------------------- the upper bound

  function UpperErrors(q: Problem, n: nat): nat
    requires n <= |q.curves|
  {
    if n == 0 then 0 else UpperErrors(q, n - 1) + if n - 1 in q.eligible then q.curves[n - 1].upperError else 0
  }

  lemma {:induction false} UpperIs(q: Problem, relaxed: nat, n: nat)
    requires n <= |q.curves|
    ensures UpperOf(q, relaxed, n).Ok? ==> UpperOf(q, relaxed, n).value == relaxed + UpperErrors(q, n)
    ensures relaxed <= U64_MAX && UpperOf(q, relaxed, n).Ok? ==> relaxed + UpperErrors(q, n) <= U64_MAX
    ensures UpperOf(q, relaxed, n).Err? ==> UpperOf(q, relaxed, n) == Err(Arithmetic)
  {
    if n > 0 {
      UpperIs(q, relaxed, n - 1);
    }
  }

  lemma {:induction false} UpperErrorsGrow(q: Problem, m: nat, n: nat)
    requires m <= n <= |q.curves|
    ensures UpperErrors(q, m) <= UpperErrors(q, n)
  {
    if m < n {
      UpperErrorsGrow(q, m, n - 1);
    }
  }

  lemma FloorsAdd(a: nat, b: nat)
    ensures a / SCALE + b / SCALE <= (a + b) / SCALE
  {
  }

  lemma FloorMonotone(a: nat, b: nat)
    requires a <= b
    ensures a / SCALE <= b / SCALE
  {
  }

  /** Exact outputs stay below the relaxed score plus the upper errors, so the
      64-bit sum cannot overflow either. */
  lemma {:induction false} ExactBelow(q: Problem, ys: seq<nat>, n: nat)
    requires Enclosed(q) && IsSplit(q.curves, q.eligible, q.amount, ys) && n <= |q.curves|
    requires Score(q.curves, ys, |q.curves|) / SCALE + UpperErrors(q, |q.curves|) <= U64_MAX
    ensures |q.snapshots| == |q.curves| <= |ys|
    ensures ExactSum(q.snapshots, ys, n).Ok?
    ensures ExactSum(q.snapshots, ys, n).value <= Score(q.curves, ys, n) / SCALE + UpperErrors(q, n)
  {
    EnclosedParts(q);
    if n > 0 {
      ExactBelow(q, ys, n - 1);
      var i := n - 1;
      FloorsAdd(Score(q.curves, ys, i), Integral(q.curves[i].segments, ys[i]));
      ScoreGrows(q.curves, ys, n, |q.curves|);
      FloorMonotone(Score(q.curves, ys, n), Score(q.curves, ys, |q.curves|));
      UpperErrorsGrow(q, n, |q.curves|);
      if ys[i] > 0 {
        assert i in q.eligible;
        EnclosedVenue(q, i, ys[i]);
      }
      hide Enclosed, ExactQuoteOf, Integral;
    }
  }

  /** Every split of the amount over the eligible venues, whatever its number of
      legs, has an exact output of at most the reported upper bound. */
  lemma SplitsBelowUpper(q: Problem, ys: seq<nat>)
    requires Enclosed(q) && QueryOf(q, q.eligible, false).Ok?
    requires UpperOf(q, QueryOf(q, q.eligible, false).value.output, |q.curves|).Ok?
    requires IsSplit(q.curves, q.eligible, q.amount, ys)
    ensures |q.snapshots| == |q.curves| <= |ys|
    ensures ExactSum(q.snapshots, ys, |q.snapshots|).Ok?
    ensures ExactSum(q.snapshots, ys, |q.snapshots|).value
            <= UpperOf(q, QueryOf(q, q.eligible, false).value.output, |q.curves|).value
  {
    var relaxed := QueryOf(q, q.eligible, false).value.output;
    EnclosedParts(q);
    RelaxedFits(q);
    UpperIs(q, relaxed, |q.curves|);
    GreedyIsOptimal(q.curves, q.amount, q.eligible, ys);
    hide Enclosed, WaterfillOf, UpperOf, ExactSum, Score;
    ExactBelow(q, ys, |q.curves|);
  }

  lemma RelaxedFits(q: Problem)
    requires Enclosed(q) && QueryOf(q, q.eligible, false).Ok?
    ensures QueryOf(q, q.eligible, false).value.output <= U64_MAX
  {
    EnclosedParts(q);
    QueryFills(q, q.eligible, false);
    hide Enclosed, WaterfillOf, Score, GreedyInputs;
    SplitScoreFits(q, q.eligible, GreedyInputs(q.curves, q.eligible, q.amount));
  }

  lemma SplitScoreFits(q: Problem, mask: set<nat>, ys: seq<nat>)
    requires Fillable(q.curves, mask, q.amount) && ys == GreedyInputs(q.curves, mask, q.amount)
    ensures Score(q.curves, ys, |q.curves|) / SCALE <= U64_MAX
  {
    GreedyIsSplit(q.curves, mask, q.amount);
    forall i, j | 0 <= i < |q.curves| && ys[i] > 0 && 0 <= j < |q.curves[i].segments|
      ensures q.curves[i].segments[j].marginal <= MAX_RATE
    {
      assert i in mask;
      assert ValidCurve(q.curves[i]);
    }
    ScoreBounded(q.curves, ys, |q.curves|);
    Mono(q.amount, MAX_ATOMS, MAX_RATE);
  }

  // ---------------------------------------------------------------- the lower bound

  /** Exact outputs are at least the conservative estimate. */
  lemma {:induction false} ExactAbove(q: Problem, mask: set<nat>, ys: seq<nat>, n: nat)
    requires Enclosed(q) && mask <= q.eligible && IsSplit(q.curves, mask, q.amount, ys) && n <= |q.curves|
    ensures |q.snapshots| == |q.curves| <= |ys|
    ensures ExactSum(q.snapshots, ys, n).Ok? ==> LowerOutput(q.curves, ys, n) <= ExactSum(q.snapshots, ys, n).value
  {
    EnclosedParts(q);
    if n > 0 {
      ExactAbove(q, mask, ys, n - 1);
      var i := n - 1;
      if ys[i] > 0 {
        assert i in mask;
        EnclosedVenue(q, i, ys[i]);
      }
      hide Enclosed, ExactQuoteOf, Integral;
    }
  }

  // ---------------------------------------------------------------- the shortlist

  /** Subset `mask` is admissible, fits the amount and has been visited. */
  ghost predicate Seen(q: Problem, mask: set<nat>, m: nat)
    requires 1 <= m <= Pow2(|q.curves|)
  {
    && Admissible(q, mask) && CodeOf(mask, |q.curves|) < m && QueryOf(q, mask, true).Ok?
  }

  ghost predicate Sorted(finalists: seq<Allocation>) {
    && (forall a, b :: 0 <= a < b < |finalists| ==> finalists[a].output >= finalists[b].output)
    && forall a, b :: 0 <= a < b < |finalists| ==> finalists[a].inputs != finalists[b].inputs
  }

  /** p is on the list, or the list is full of estimates at least as good. */
  ghost predicate Covered(finalists: seq<Allocation>, p: Allocation) {
    || Listed(finalists, p.inputs)
    || (|finalists| == MAX_FINALISTS && forall k :: 0 <= k < |finalists| ==> finalists[k].output >= p.output)
  }

  lemma PlacedSorted(finalists: seq<Allocation>, p: Allocation)
    requires Sorted(finalists) && !Listed(finalists, p.inputs)
    ensures var pos := Position(finalists, p.output);
            Sorted(finalists[..pos] + [p] + finalists[pos..])
  {
    var pos := Position(finalists, p.output);
    hide Position;
    var longer := finalists[..pos] + [p] + finalists[pos..];
    forall a, b | 0 <= a < b < |longer|
      ensures longer[a].output >= longer[b].output && longer[a].inputs != longer[b].inputs
    {
      assert longer[a] == if a < pos then finalists[a] else if a == pos then p else finalists[a - 1];
      assert longer[b] == if b < pos then finalists[b] else if b == pos then p else finalists[b - 1];
    }
  }

  lemma InsertKeepsSorted(finalists: seq<Allocation>, p: Allocation)
    requires Sorted(finalists) && |finalists| <= MAX_FINALISTS
    ensures Sorted(Insert(finalists, p))
  {
    if !Listed(finalists, p.inputs) {
      PlacedSorted(finalists, p);
      hide Listed, Position;
    }
  }

  lemma InsertCovers(finalists: seq<Allocation>, p: Allocation)
    requires Sorted(finalists) && |finalists| <= MAX_FINALISTS
    ensures Covered(Insert(finalists, p), p)
    ensures |Insert(finalists, p)| > 0
  {
    var r := Insert(finalists, p);
    if !Listed(finalists, p.inputs) {
      var pos := Position(finalists, p.output);
      if pos < MAX_FINALISTS {
        assert r[pos] == p;
      }
    }
  }

  lemma InsertMembers(finalists: seq<Allocation>, p: Allocation)
    requires |finalists| <= MAX_FINALISTS
    ensures forall k :: 0 <= k < |Insert(finalists, p)| ==> Insert(finalists, p)[k] in finalists || Insert(finalists, p)[k] == p
    ensures |Insert(finalists, p)| >= |finalists|
  {
  }

  lemma InsertAt(finalists: seq<Allocation>, p: Allocation)
    requires |finalists| <= MAX_FINALISTS && !Listed(finalists, p.inputs)
    ensures var r, pos := Insert(finalists, p), Position(finalists, p.output);
            if pos >= MAX_FINALISTS then r == finalists
            else && |r| == Min(|finalists| + 1, MAX_FINALISTS)
                 && pos < |r| && r[pos] == p
                 && (forall k :: 0 <= k < pos ==> r[k] == finalists[k])
                 && (forall k :: pos <= k < |r| - 1 ==> r[k + 1] == finalists[k])
  {
    hide Position, Listed;
  }

  /** Being covered survives later insertions: whoever is pushed off the list is
      no better than those who stay. */
  lemma InsertKeepsCovered(finalists: seq<Allocation>, p: Allocation, o: Allocation)
    requires Sorted(finalists) && |finalists| <= MAX_FINALISTS && Covered(finalists, o)
    requires forall k :: 0 <= k < |finalists| && finalists[k].inputs == o.inputs ==> finalists[k].output == o.output
    ensures Covered(Insert(finalists, p), o)
  {
    if !Listed(finalists, p.inputs) && Position(finalists, p.output) < MAX_FINALISTS {
      var r, pos := Insert(finalists, p), Position(finalists, p.output);
      InsertAt(finalists, p);
      hide Insert, Position;
      if k :| 0 <= k < |finalists| && finalists[k].inputs == o.inputs && (k < pos || k < |r| - 1) {
        assert r[if k < pos then k else k + 1] == finalists[k];
      } else {
        PushedOff(finalists, p, o);
      }
    }
  }

  lemma PushedOff(finalists: seq<Allocation>, p: Allocation, o: Allocation)
    requires Sorted(finalists) && |finalists| <= MAX_FINALISTS && Covered(finalists, o)
    requires !Listed(finalists, p.inputs) && Position(finalists, p.output) < MAX_FINALISTS
    requires forall k :: 0 <= k < |finalists| && finalists[k].inputs == o.inputs ==> finalists[k].output == o.output
    requires forall k :: 0 <= k < |finalists| && finalists[k].inputs == o.inputs ==>
               k >= Position(finalists, p.output) && k >= |Insert(finalists, p)| - 1
    ensures Covered(Insert(finalists, p), o)
  {
    var r, pos := Insert(finalists, p), Position(finalists, p.output);
    InsertAt(finalists, p);
    hide Insert;
    assert |finalists| == MAX_FINALISTS && |r| == MAX_FINALISTS;
    assert finalists[MAX_FINALISTS - 1].output >= o.output;
    forall k | 0 <= k < |r|
      ensures r[k].output >= o.output
    {
      if k > pos {
        assert r[(k - 1) + 1] == finalists[k - 1];
      }
    }
  }

  /** A shortlist entry: the estimate of some admissible subset. */
  ghost predicate Estimates(q: Problem, p: Allocation) {
    exists mask :: Admissible(q, mask) && QueryOf(q, mask, true) == Ok(p)
  }

  ghost predicate Shortlist(q: Problem, finalists: seq<Allocation>, m: nat)
    requires 1 <= m <= Pow2(|q.curves|)
  {
    && Sorted(finalists) && |finalists| <= MAX_FINALISTS
    && (forall k :: 0 <= k < |finalists| ==> Estimates(q, finalists[k]))
    && forall mask :: Seen(q, mask, m) ==> Covered(finalists, QueryOf(q, mask, true).value) && |finalists| > 0
  }

  /** Equal inputs carry equal estimates. */
  lemma SameInputs(q: Problem, a: Allocation, b: Allocation)
    requires Enclosed(q) && Estimates(q, a) && Estimates(q, b) && a.inputs == b.inputs
    ensures a.output == b.output
  {
    hide Enclosed, WaterfillOf, QueryOf, LowerOutput;
    var m :| Admissible(q, m) && QueryOf(q, m, true) == Ok(a);
    var n :| Admissible(q, n) && QueryOf(q, n, true) == Ok(b);
    QueryFills(q, m, true);
    QueryFills(q, n, true);
  }

  lemma {:induction false} CodeIsNew(mask: set<nat>, n: nat, m: nat)
    requires m < Pow2(n) && forall i :: i in mask ==> i < n
    ensures CodeOf(mask, n) == m ==> mask == MaskOf(m, n)
  {
    MaskOfCode(mask, n);
  }

  lemma {:induction false} CodeOfMask(m: nat, n: nat)
    requires m < Pow2(n)
    ensures CodeOf(MaskOf(m, n), n) == m
  {
    if n > 0 {
      if m >= Pow2(n - 1) {
        CodeOfMask(m - Pow2(n - 1), n - 1);
        CodeSame(MaskOf(m, n), MaskOf(m - Pow2(n - 1), n - 1), n - 1);
      } else {
        CodeOfMask(m, n - 1);
      }
    }
  }

  /** The scan visits every subset of the venues, and each of them only once. */
  lemma EachSubsetOnce(mask: set<nat>, n: nat)
    requires forall i :: i in mask ==> i < n
    ensures MaskOf(CodeOf(mask, n), n) == mask
    ensures forall m: nat :: m < Pow2(n) && MaskOf(m, n) == mask ==> m == CodeOf(mask, n)
  {
    MaskOfCode(mask, n);
    assert mask == set i | i in mask && i < n;
    forall m: nat | m < Pow2(n) && MaskOf(m, n) == mask
      ensures m == CodeOf(mask, n)
    {
      CodeOfMask(m, n);
    }
  }

  lemma {:induction false} CodeSame(a: set<nat>, b: set<nat>, n: nat)
    requires forall i :: 0 <= i < n ==> (i in a <==> i in b)
    ensures CodeOf(a, n) == CodeOf(b, n)
  {
    if n > 0 {
      CodeSame(a, b, n - 1);
    }
  }

  lemma SeenStep(q: Problem, mask: set<nat>, m: nat)
    requires 1 < m <= Pow2(|q.curves|) && Seen(q, mask, m) && |q.snapshots| == |q.curves|
    ensures Seen(q, mask, m - 1) || mask == MaskOf(m - 1, |q.curves|)
  {
    CodeIsNew(mask, |q.curves|, m - 1);
  }

  lemma VisitKeepsShortlist(q: Problem, finalists: seq<Allocation>, p: Allocation, mask: set<nat>, m: nat)
    requires Enclosed(q) && 1 < m <= Pow2(|q.curves|) && Shortlist(q, finalists, m - 1)
    requires mask == MaskOf(m - 1, |q.curves|) && Admissible(q, mask) && QueryOf(q, mask, true) == Ok(p)
    ensures Shortlist(q, Insert(finalists, p), m)
  {
    hide Enclosed, QueryOf, Admissible, MaskOf, Insert, Sorted, Covered, Pow2, CodeOf;
    EnclosedParts(q);
    InsertKeepsSorted(finalists, p);
    InsertCovers(finalists, p);
    InsertMembers(finalists, p);
    assert Estimates(q, p);
    forall other | Seen(q, other, m)
      ensures Covered(Insert(finalists, p), QueryOf(q, other, true).value)
    {
      SeenStep(q, other, m);
      if other != mask {
        var o := QueryOf(q, other, true).value;
        assert Estimates(q, o);
        forall k | 0 <= k < |finalists| && finalists[k].inputs == o.inputs
          ensures finalists[k].output == o.output
        {
          SameInputs(q, finalists[k], o);
        }
        InsertKeepsCovered(finalists, p, o);
      }
    }
  }

  lemma SkipKeepsShortlist(q: Problem, finalists: seq<Allocation>, m: nat)
    requires 1 < m <= Pow2(|q.curves|) && Shortlist(q, finalists, m - 1) && |q.snapshots| == |q.curves|
    requires !Admissible(q, MaskOf(m - 1, |q.curves|)) || QueryOf(q, MaskOf(m - 1, |q.curves|), true).Err?
    ensures Shortlist(q, finalists, m)
  {
    hide QueryOf, Admissible, MaskOf, Sorted, Covered;
    forall other | Seen(q, other, m)
      ensures Covered(finalists, QueryOf(q, other, true).value) && |finalists| > 0
    {
      SeenStep(q, other, m);
    }
  }

  /** The scan never fails and its list is a shortlist of everything visited. */
  lemma {:induction false} ScanIsShortlist(q: Problem, m: nat)
    requires Enclosed(q) && 1 <= m <= Pow2(|q.curves|)
    ensures ScanMasks(q, m).Ok? && Shortlist(q, ScanMasks(q, m).value.finalists, m)
  {
    if m == 1 {
      FirstShortlist(q);
    } else {
      ScanIsShortlist(q, m - 1);
      var mask := MaskOf(m - 1, |q.curves|);
      var scan := ScanMasks(q, m - 1).value;
      var finalists := scan.finalists;
      EnclosedParts(q);
      VisitMeaning(q, scan, mask);
      hide Enclosed, QueryOf, Shortlist, Insert, MaskOf, Admissible, Visit;
      if Admissible(q, mask) && QueryOf(q, mask, true).Ok? {
        VisitKeepsShortlist(q, finalists, QueryOf(q, mask, true).value, mask, m);
      } else {
        SkipKeepsShortlist(q, finalists, m);
      }
    }
  }

  /** A visit inserts the estimate of an admissible subset and ignores the rest. */
  lemma VisitMeaning(q: Problem, scan: Scan, mask: set<nat>)
    requires Enclosed(q) && |scan.finalists| <= MAX_FINALISTS && mask != {}
    ensures var r := Visit(q, scan, mask);
            && r.Ok?
            && r.value.finalists ==
               if Admissible(q, mask) && QueryOf(q, mask, true).Ok?
               then Insert(scan.finalists, QueryOf(q, mask, true).value) else scan.finalists
  {
    EnclosedParts(q);
    if mask <= q.eligible {
      QueryFills(q, mask, true);
    }
    hide Enclosed, QueryOf, Insert, Independent, MaskCapacity, GreedyInputs, LowerOutput, Fillable;
  }

  lemma FirstShortlist(q: Problem)
    requires Pow2(|q.curves|) >= 1 && Enclosed(q)
    ensures Shortlist(q, [], 1)
  {
    EnclosedParts(q);
    forall mask | Seen(q, mask, 1)
      ensures false
    {
      CodeIsNew(mask, |q.curves|, 0);
    }
  }

  // ---------------------------------------------------------------- the winner

  /** A plan that can be executed: it splits the whole amount over an admissible
      set of venues, and its output is what those venues pay exactly. */
  ghost predicate Executable(q: Problem, plan: Allocation) {
    && |q.snapshots| == |q.curves| <= |plan.inputs|
    && plan.mask == Support(plan.inputs)
    && Admissible(q, plan.mask)
    && IsSplit(q.curves, plan.mask, q.amount, plan.inputs)
    && ExactSum(q.snapshots, plan.inputs, |q.snapshots|) == Ok(plan.output)
  }

  lemma SmallerSet(a: set<nat>, b: set<nat>)
    requires a <= b
    ensures |a| <= |b|
  {
    assert b == a + (b - a);
  }

  lemma {:induction false} TotalNothing(inputs: seq<nat>, n: nat)
    requires n <= |inputs| && forall i :: 0 <= i < n ==> inputs[i] == 0
    ensures Total(inputs, n) == 0
  {
    if n > 0 {
      TotalNothing(inputs, n - 1);
    }
  }

  /** The venues a greedy split really uses are themselves admissible. */
  lemma SupportAdmissible(q: Problem, mask: set<nat>)
    requires Enclosed(q) && Admissible(q, mask) && Fillable(q.curves, mask, q.amount)
    ensures var inputs := GreedyInputs(q.curves, mask, q.amount);
            && Admissible(q, Support(inputs))
            && IsSplit(q.curves, Support(inputs), q.amount, inputs)
            && IsSplit(q.curves, mask, q.amount, inputs)
            && IsSplit(q.curves, q.eligible, q.amount, inputs)
  {
    EnclosedParts(q);
    GreedyIsSplit(q.curves, mask, q.amount);
    hide GreedyInputs, Enclosed;
    var inputs := GreedyInputs(q.curves, mask, q.amount);
    var used := Support(inputs);
    assert used <= mask by {
      NothingOutsideAtAll(q.curves, mask, q.amount);
    }
    SmallerSet(used, mask);
    if used == {} {
      assert forall i :: 0 <= i < |q.curves| ==> inputs[i] == 0 by {
        forall i | 0 <= i < |q.curves|
          ensures inputs[i] == 0
        {
          assert i !in used;
        }
      }
      TotalNothing(inputs, |q.curves|);
      assert false;
    }
  }

  /** Everything known about a shortlisted plan. */
  lemma ShortlistedPlan(q: Problem, p: Allocation)
    requires Enclosed(q) && QueryOf(q, q.eligible, false).Ok? && Estimates(q, p)
    requires UpperOf(q, QueryOf(q, q.eligible, false).value.output, |q.curves|).Ok?
    ensures |q.snapshots| == |q.curves| <= |p.inputs| == MAX_EDGES && p.mask == Support(p.inputs)
    ensures Admissible(q, p.mask) && IsSplit(q.curves, p.mask, q.amount, p.inputs)
    ensures var exact := ExactSum(q.snapshots, p.inputs, |q.snapshots|);
            && exact.Ok? && p.output <= exact.value
            && exact.value <= UpperOf(q, QueryOf(q, q.eligible, false).value.output, |q.curves|).value
  {
    EnclosedParts(q);
    hide Enclosed, QueryOf, UpperOf, GreedyInputs, ExactSum, LowerOutput, IsSplit, Support;
    var mask :| Admissible(q, mask) && QueryOf(q, mask, true) == Ok(p);
    QueryFills(q, mask, true);
    SupportAdmissible(q, mask);
    SplitsBelowUpper(q, p.inputs);
    ExactAbove(q, mask, p.inputs, |q.curves|);
  }

  ghost predicate Sums(q: Problem, finalists: seq<Allocation>) {
    forall k :: 0 <= k < |finalists| ==>
      && |q.snapshots| <= |finalists[k].inputs| && finalists[k].mask != {}
      && ExactSum(q.snapshots, finalists[k].inputs, |q.snapshots|).Ok?
  }

  /** A plan with its output measured exactly. */
  function Evaluated(q: Problem, p: Allocation): Allocation
    requires |q.snapshots| <= |p.inputs| && ExactSum(q.snapshots, p.inputs, |q.snapshots|).Ok?
  {
    p.(output := ExactSum(q.snapshots, p.inputs, |q.snapshots|).value)
  }

  /** The evaluation keeps a finalist whose exact output is largest. */
  lemma {:induction false} BestIsLargest(q: Problem, finalists: seq<Allocation>, n: nat)
    requires Sums(q, finalists) && n <= |finalists|
    ensures BestOf(q, finalists, n).Ok?
    ensures n > 0 ==>
              exists k :: 0 <= k < n && BestOf(q, finalists, n).value == Evaluated(q, finalists[k])
    ensures forall k :: 0 <= k < n ==>
              ExactSum(q.snapshots, finalists[k].inputs, |q.snapshots|).value <= BestOf(q, finalists, n).value.output
  {
    hide ExactSum;
    if n > 0 {
      BestIsLargest(q, finalists, n - 1);
      var best := BestOf(q, finalists, n).value;
      if n == 1 || best != BestOf(q, finalists, n - 1).value {
        assert best == Evaluated(q, finalists[n - 1]);
      }
    }
  }

  // ---------------------------------------------------------------- the certificate

  /** What a successful search promises. */
  ghost predicate Certified(q: Problem, report: Report) {
    && Executable(q, report.plan)
    && report.certificate.achieved == report.plan.output
    && report.certificate.upper == report.certificate.achieved + report.certificate.gap
    && (forall ys :: IsSplit(q.curves, q.eligible, q.amount, ys) ==>
          && ExactSum(q.snapshots, ys, |q.snapshots|).Ok?
          && ExactSum(q.snapshots, ys, |q.snapshots|).value <= report.certificate.achieved + report.certificate.gap)
    && forall mask :: Admissible(q, mask) && QueryOf(q, mask, true).Ok? ==>
         QueryOf(q, mask, true).value.output <= report.certificate.achieved
  }

  /** Some admissible set of venues can take the whole amount. */
  ghost predicate Feasible(q: Problem)
  {
    exists mask :: Admissible(q, mask) && QueryOf(q, mask, true).Ok?
  }

  /** The relaxed optimum plus the errors does not fit 64 bits. */
  ghost predicate BoundOverflows(q: Problem) {
    && QueryOf(q, q.eligible, false).Ok?
    && UpperOf(q, QueryOf(q, q.eligible, false).value.output, |q.curves|).Err?
  }

  lemma {:induction false} MoreVenuesMoreCapacity(curves: seq<Curve>, a: set<nat>, b: set<nat>, n: nat)
    requires a <= b && n <= |curves|
    ensures MaskCapacity(curves, a, n) <= MaskCapacity(curves, b, n)
  {
    if n > 0 {
      MoreVenuesMoreCapacity(curves, a, b, n - 1);
    }
  }

  lemma RelaxedOfFeasible(q: Problem)
    requires Enclosed(q)
    ensures QueryOf(q, q.eligible, false).Err? ==> QueryOf(q, q.eligible, false) == Err(Error.Capacity) && !Feasible(q)
  {
    EnclosedParts(q);
    QueryFills(q, q.eligible, false);
    hide Enclosed, QueryOf, MaskCapacity, GreedyInputs, LowerOutput, Score;
    if QueryOf(q, q.eligible, false).Err? && Feasible(q) {
      var mask :| Admissible(q, mask) && QueryOf(q, mask, true).Ok?;
      QueryFills(q, mask, true);
      MoreVenuesMoreCapacity(q.curves, mask, q.eligible, |q.curves|);
      assert false;
    }
  }

  lemma ShortlistWhenFeasible(q: Problem, finalists: seq<Allocation>)
    requires Enclosed(q) && Shortlist(q, finalists, Pow2(|q.curves|))
    ensures |finalists| > 0 <==> Feasible(q)
    ensures forall mask :: Admissible(q, mask) && QueryOf(q, mask, true).Ok? ==>
              |finalists| > 0 && QueryOf(q, mask, true).value.output <= finalists[0].output
  {
    EnclosedParts(q);
    hide Enclosed, QueryOf, Admissible;
    if |finalists| > 0 {
      assert Estimates(q, finalists[0]);
    }
    forall mask | Admissible(q, mask) && QueryOf(q, mask, true).Ok?
      ensures |finalists| > 0 && QueryOf(q, mask, true).value.output <= finalists[0].output
    {
      assert Seen(q, mask, Pow2(|q.curves|));
      var p := QueryOf(q, mask, true).value;
      assert Covered(finalists, p) && Estimates(q, p);
      if k :| 0 <= k < |finalists| && finalists[k].inputs == p.inputs {
        SameInputs(q, finalists[k], p);
      }
    }
  }

  /** The search, apart from its relaxed bound. */
  lemma SearchWinner(q: Problem, upper: nat)
    requires Enclosed(q) && QueryOf(q, q.eligible, false).Ok?
    requires UpperOf(q, QueryOf(q, q.eligible, false).value.output, |q.curves|) == Ok(upper)
    ensures !Feasible(q) ==> SearchOf(q) == Err(Error.Capacity)
    ensures Feasible(q) ==> SearchOf(q).Ok? && Certified(q, SearchOf(q).value)
  {
    EnclosedParts(q);
    var last := Pow2(|q.curves|);
    ScanIsShortlist(q, last);
    ScanWellFormed(q, last);
    var finalists := ScanMasks(q, last).value.finalists;
    ShortlistWhenFeasible(q, finalists);
    SplitsCertified(q, upper);
    SearchUnfolds(q, upper, finalists);
    hide *;
    if Feasible(q) {
      FinalistsEvaluated(q, upper, finalists);
      WinnerCertified(q, upper, finalists, SearchOf(q).value);
    }
  }

  lemma SplitsCertified(q: Problem, upper: nat)
    requires Enclosed(q) && QueryOf(q, q.eligible, false).Ok?
    requires UpperOf(q, QueryOf(q, q.eligible, false).value.output, |q.curves|) == Ok(upper)
    ensures |q.snapshots| == |q.curves|
    ensures forall ys :: IsSplit(q.curves, q.eligible, q.amount, ys) ==>
              && ExactSum(q.snapshots, ys, |q.snapshots|).Ok?
              && ExactSum(q.snapshots, ys, |q.snapshots|).value <= upper
  {
    EnclosedParts(q);
    hide *;
    forall ys | IsSplit(q.curves, q.eligible, q.amount, ys)
      ensures |q.curves| <= |ys|
      ensures ExactSum(q.snapshots, ys, |q.snapshots|).Ok?
      ensures ExactSum(q.snapshots, ys, |q.snapshots|).value <= upper
    {
      SplitsBelowUpper(q, ys);
    }
  }

  /** With a bound and a non-empty shortlist only the evaluation decides. */
  lemma SearchUnfolds(q: Problem, upper: nat, finalists: seq<Allocation>)
    requires Enclosed(q) && QueryOf(q, q.eligible, false).Ok?
    requires UpperOf(q, QueryOf(q, q.eligible, false).value.output, |q.curves|) == Ok(upper)
    requires ScanMasks(q, Pow2(|q.curves|)).Ok? && finalists == ScanMasks(q, Pow2(|q.curves|)).value.finalists
    requires WellFormed(q, finalists)
    ensures |finalists| == 0 ==> SearchOf(q) == Err(Error.Capacity)
    ensures |finalists| > 0 && BestOf(q, finalists, |finalists|).Ok?
            && BestOf(q, finalists, |finalists|).value.output <= upper ==>
              && SearchOf(q).Ok? && SearchOf(q).value.plan == BestOf(q, finalists, |finalists|).value
              && SearchOf(q).value.certificate.upper == upper
              && SearchOf(q).value.certificate.achieved == SearchOf(q).value.plan.output
              && SearchOf(q).value.certificate.gap == upper - SearchOf(q).value.plan.output
  {
    hide QueryOf, UpperOf, ScanMasks, BestOf, EdgesFault, Pow2;
  }

  lemma FinalistsEvaluated(q: Problem, upper: nat, finalists: seq<Allocation>)
    requires Enclosed(q) && QueryOf(q, q.eligible, false).Ok?
    requires UpperOf(q, QueryOf(q, q.eligible, false).value.output, |q.curves|) == Ok(upper)
    requires Shortlist(q, finalists, Pow2(|q.curves|)) && WellFormed(q, finalists) && |finalists| > 0
    ensures BestOf(q, finalists, |finalists|).Ok?
    ensures var best := BestOf(q, finalists, |finalists|).value;
            Executable(q, best) && finalists[0].output <= best.output <= upper
  {
    hide Enclosed, QueryOf, UpperOf, ExactSum, BestOf, Pow2, Sorted, Covered, Estimates, IsSplit, Admissible, Support;
    EnclosedParts(q);
    forall k | 0 <= k < |finalists|
      ensures finalists[k].mask != {} && ExactSum(q.snapshots, finalists[k].inputs, |q.snapshots|).Ok?
    {
      ShortlistedPlan(q, finalists[k]);
      AdmissibleNonEmpty(q, finalists[k].mask);
    }
    BestIsLargest(q, finalists, |finalists|);
    ShortlistedPlan(q, finalists[0]);
    var k :| 0 <= k < |finalists| && BestOf(q, finalists, |finalists|).value == Evaluated(q, finalists[k]);
    ShortlistedPlan(q, finalists[k]);
  }

  lemma AdmissibleNonEmpty(q: Problem, mask: set<nat>)
    requires Admissible(q, mask)
    ensures mask != {}
  {
  }

  lemma WinnerCertified(q: Problem, upper: nat, finalists: seq<Allocation>, report: Report)
    requires Executable(q, report.plan) && |finalists| > 0 && finalists[0].output <= report.plan.output <= upper
    requires report.certificate == Certificate(upper, report.plan.output, upper - report.plan.output)
    requires forall ys :: IsSplit(q.curves, q.eligible, q.amount, ys) ==>
               && ExactSum(q.snapshots, ys, |q.snapshots|).Ok?
               && ExactSum(q.snapshots, ys, |q.snapshots|).value <= upper
    requires forall mask :: Admissible(q, mask) && QueryOf(q, mask, true).Ok? ==>
               QueryOf(q, mask, true).value.output <= finalists[0].output
    ensures Certified(q, report)
  {
    hide QueryOf, ExactSum, Executable, Admissible;
  }

  /** The search over enclosed venues has three outcomes only: a certified report
      exactly when some admissible subset can take the amount, `Capacity` when none
      can, and `Arithmetic` when the bound itself does not fit. In particular the
      check of the winner against the bound never fires. */
  lemma SearchOutcome(q: Problem)
    requires Enclosed(q)
    ensures BoundOverflows(q) ==> SearchOf(q) == Err(Arithmetic)
    ensures !BoundOverflows(q) && !Feasible(q) ==> SearchOf(q) == Err(Error.Capacity)
    ensures !BoundOverflows(q) && Feasible(q) ==> SearchOf(q).Ok?
    ensures SearchOf(q).Ok? ==> Certified(q, SearchOf(q).value)
  {
    EnclosedParts(q);
    RelaxedOfFeasible(q);
    var relaxed := QueryOf(q, q.eligible, false);
    if relaxed.Ok? {
      UpperIs(q, relaxed.value.output, |q.curves|);
    }
    SearchBegins(q);
    hide *;
    if relaxed.Ok? && !BoundOverflows(q) {
      NoOverflow(q);
      SearchWinner(q, UpperOf(q, relaxed.value.output, |q.curves|).value);
    } else {
      OverflowMeans(q);
    }
  }

  lemma NoOverflow(q: Problem)
    requires !BoundOverflows(q) && QueryOf(q, q.eligible, false).Ok?
    ensures UpperOf(q, QueryOf(q, q.eligible, false).value.output, |q.curves|).Ok?
  {
  }

  lemma OverflowMeans(q: Problem)
    ensures BoundOverflows(q) ==> QueryOf(q, q.eligible, false).Ok?
  {
  }

  lemma SearchBegins(q: Problem)
    requires Enclosed(q)
    ensures QueryOf(q, q.eligible, false).Err? ==> SearchOf(q) == Err(QueryOf(q, q.eligible, false).error)
    ensures BoundOverflows(q) ==>
              SearchOf(q) == Err(UpperOf(q, QueryOf(q, q.eligible, false).value.output, |q.curves|).error)
  {
    hide QueryOf, UpperOf, ScanMasks, EdgesFault;
  }
}
