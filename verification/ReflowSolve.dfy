/** Solving one round: its question is always well posed, and it has an answer
    whenever the venues are unchanged and enough of the last plan is left. */
module ReflowSolve {
  import opened Base
  import opened Curves
  import opened Venues
  import opened Greedy
  import opened Allocations
  import opened GreedyOptimality
  import opened Tape
  import opened TapeBuild
  import opened TapeQuery
  import opened SearchSpec
  import opened SearchTheorems
  import opened Search
  import opened Compiler
  import opened ReflowSurvey
  import opened Relaxation

  // ---------------------------------------------------------------- the problem of a round

  /** What `execute` checks before its loop. */
  ghost predicate Checked(o: Order) {
    && 0 < |o.pins| <= MAX_EDGES
    && 0 < o.intent.amountIn <= MAX_ATOMS && o.intent.inputMint != o.intent.outputMint
    && forall i, j :: 0 <= i < j < |o.pins| ==>
         o.pins[i].market != o.pins[j].market && o.pins[i].liquidityId != o.pins[j].liquidityId
  }

  function ProblemOf(c: Cache, remaining: nat, eligible: set<nat>, budget: nat): Problem {
    Problem(c.snapshots, c.curves, remaining, eligible, budget)
  }

  /** A surveyed set of eligible venues. */
  ghost predicate Surveyed(o: Order, view: View, spent: Spent, c: Cache, eligible: set<nat>) {
    && Current(o, c) && Fresh(o, view, c, eligible)
    && eligible == EligibleSet(o, view, spent, |o.pins|)
  }

  lemma VenueOfRound(o: Order, view: View, spent: Spent, c: Cache, eligible: set<nat>, i: nat)
    requires Surveyed(o, view, spent, c, eligible) && i in eligible
    ensures i < |o.pins| == |c.snapshots| == |c.curves|
    ensures view.snapshot(i) == Ok(c.snapshots[i])
    ensures Pinned(c.snapshots[i], o.pins[i], o.intent) && Live(c.snapshots[i], o.pins[i], o.intent, o.slot)
    ensures ValidCurve(c.curves[i]) && Envelope(c.snapshots[i], c.curves[i])
    ensures c.curves[i].capacity <= c.snapshots[i].capacity
  {
    hide CompileFault, CompiledOf, ValidCurve, Envelope;
    CompiledIsSound(c.snapshots[i], o.intent.amountIn);
  }

  lemma {:induction false} NoEdgeFault(o: Order, view: View, spent: Spent, q: Problem, c: Cache, n: nat)
    requires Checked(o) && Surveyed(o, view, spent, c, q.eligible)
    requires q.snapshots == c.snapshots && q.curves == c.curves && n <= |c.snapshots| == |c.curves|
    ensures EdgesFault(q, n).None?
  {
    hide Surveyed, ValidCurve, Envelope;
    if n > 0 {
      NoEdgeFault(o, view, spent, q, c, n - 1);
      var i := n - 1;
      if i in q.eligible {
        VenueOfRound(o, view, spent, c, q.eligible, i);
        forall j | 0 <= j < i && j in q.eligible
          ensures Pair(q.snapshots[j]) == Pair(q.snapshots[i]) && !Aliased(q.snapshots[j], q.snapshots[i])
        {
          VenueOfRound(o, view, spent, c, q.eligible, j);
        }
      }
    }
  }

  /** Every round asks a well-posed question: its venues are enclosed by their curves. */
  lemma RoundEnclosed(
    o: Order, view: View, spent: Spent, c: Cache, eligible: set<nat>, remaining: nat, budget: nat)
    requires Checked(o) && Surveyed(o, view, spent, c, eligible) && eligible != {}
    requires 0 < remaining <= MAX_ATOMS && 0 < budget <= MAX_LEGS
    ensures Enclosed(ProblemOf(c, remaining, eligible, budget))
  {
    var q := ProblemOf(c, remaining, eligible, budget);
    NoEdgeFault(o, view, spent, q, c, |o.pins|);
    hide EdgesFault, ValidCurve, Envelope, Surveyed;
    forall i | 0 <= i < |q.curves| && i in eligible
      ensures ValidCurve(q.curves[i]) && Envelope(q.snapshots[i], q.curves[i])
    {
      VenueOfRound(o, view, spent, c, eligible, i);
    }
  }

  // ---------------------------------------------------------------- readiness

  /** The relaxed bound over these venues fits 64 bits. */
  ghost predicate BoundFits(c: Cache, remaining: nat, eligible: set<nat>) {
    !BoundOverflows(ProblemOf(c, remaining, eligible, 1))
  }

  lemma {:induction false} UpperSame(q: Problem, q': Problem, relaxed: nat, n: nat)
    requires q'.curves == q.curves && q'.eligible == q.eligible && n <= |q.curves|
    ensures UpperOf(q', relaxed, n) == UpperOf(q, relaxed, n)
  {
    if n > 0 {
      UpperSame(q, q', relaxed, n - 1);
    }
  }

  /** Neither the snapshots nor the leg budget matter for the relaxed bound. */
  lemma BoundFitsMeans(c: Cache, c': Cache, remaining: nat, eligible: set<nat>, budget: nat)
    requires c'.curves == c.curves
    ensures BoundFits(c, remaining, eligible) <==> !BoundOverflows(ProblemOf(c', remaining, eligible, budget))
  {
    hide WaterfillOf, UpperOf;
    var q, q' := ProblemOf(c, remaining, eligible, 1), ProblemOf(c', remaining, eligible, budget);
    if QueryOf(q, eligible, false).Ok? {
      UpperSame(q, q', QueryOf(q, eligible, false).value.output, |q.curves|);
    }
  }

  /** The bound over everything the host shows at first does not fit 64 bits. */
  ghost predicate FirstBoundOverflows(o: Order, view: View, spent: Spent, remaining: nat) {
    exists c :: Surveyed(o, view, spent, c, EligibleSet(o, view, spent, |o.pins|))
                && !BoundFits(c, remaining, EligibleSet(o, view, spent, |o.pins|))
  }

  /** What makes the next solve succeed: unchanged venues, a matching tape, a set of
      venues within the leg budget that can take the remaining amount, and a bound that
      fits. */
  ghost predicate Ready(
    o: Order, view: View, spent: Spent, c: Cache, tape: Option<ResidualTape>, built: seq<Curve>,
    remaining: nat, budget: int)
  {
    var eligible := EligibleSet(o, view, spent, |o.pins|);
    && view.slot == o.slot
    && (forall i :: 0 <= i < |o.pins| ==> Readable(o, view, i))
    && Fresh(o, view, c, eligible)
    && tape.Some? && IsTape(tape.value, built) && Agrees(tape.value, built, c.curves, eligible)
    && BoundFits(c, remaining, eligible)
    && exists rest :: CanTake(c, eligible, rest, remaining, budget)
  }

  ghost predicate CanTake(c: Cache, eligible: set<nat>, rest: set<nat>, remaining: nat, budget: int) {
    && rest != {} && rest <= eligible && |rest| <= budget && Independent(c.snapshots, rest)
    && MaskCapacity(c.curves, rest, |c.curves|) >= remaining
  }

  /** What makes the first solve succeed, in terms of what the host shows: every venue
      can be read and compiled, and some independent venues within the leg budget
      together have room for the whole amount. */
  ghost predicate Opens(o: Order, view: View, spent: Spent, remaining: nat, budget: int) {
    && view.slot == o.slot
    && (forall i :: 0 <= i < |o.pins| ==> Compilable(o, view, spent, i))
    && exists first :: CanStart(o, view, spent, first, remaining, budget)
  }

  ghost predicate CanStart(o: Order, view: View, spent: Spent, first: set<nat>, remaining: nat, budget: int) {
    && first != {} && first <= EligibleSet(o, view, spent, |o.pins|) && |first| <= budget
    && (forall i, j :: 0 <= i < j < |o.pins| && i in first && j in first ==>
          o.pins[i].writableResources * o.pins[j].writableResources == {})
    && RoomOf(o, view, first, |o.pins|) >= remaining
  }

  /** Room of the venues of a set among the first n, none counted beyond the amount. */
  ghost function RoomOf(o: Order, view: View, venues: set<nat>, n: nat): nat
    requires n <= |o.pins|
  {
    if n == 0 then 0
    else RoomOf(o, view, venues, n - 1) +
         if n - 1 in venues && view.snapshot(n - 1).Ok? then Min(view.snapshot(n - 1).value.capacity, o.intent.amountIn) else 0
  }

  lemma CompiledRoom(o: Order, view: View, spent: Spent, c: Cache, eligible: set<nat>, i: nat)
    requires Surveyed(o, view, spent, c, eligible) && i in eligible
    ensures i < |o.pins| == |c.curves| && view.snapshot(i).Ok?
    ensures TotalCapacity(c.curves[i].segments) == Min(view.snapshot(i).value.capacity, o.intent.amountIn)
  {
    VenueOfRound(o, view, spent, c, eligible, i);
    hide ValidBands, CompileFault, Envelope;
  }

  lemma {:induction false} RoomIsCapacity(
    o: Order, view: View, spent: Spent, c: Cache, eligible: set<nat>, venues: set<nat>, n: nat)
    requires Surveyed(o, view, spent, c, eligible) && venues <= eligible && n <= |o.pins| == |c.curves|
    ensures MaskCapacity(c.curves, venues, n) == RoomOf(o, view, venues, n)
  {
    hide Surveyed;
    if n > 0 {
      RoomIsCapacity(o, view, spent, c, eligible, venues, n - 1);
      if n - 1 in venues {
        CompiledRoom(o, view, spent, c, eligible, n - 1);
      }
    }
  }

  /** What the host offers at the start is what the compiled venues can take. */
  lemma StartCanTake(
    o: Order, view: View, spent: Spent, c: Cache, eligible: set<nat>, first: set<nat>, remaining: nat, budget: int)
    requires Surveyed(o, view, spent, c, eligible) && CanStart(o, view, spent, first, remaining, budget)
    ensures CanTake(c, eligible, first, remaining, budget)
  {
    assert eligible == EligibleSet(o, view, spent, |o.pins|);
    CurrentShape(o, c);
    RoomIsCapacity(o, view, spent, c, eligible, first, |o.pins|);
    hide Surveyed, ValidCurve, Envelope, Live, RoomOf, MaskCapacity, EligibleSet;
    forall i, j | 0 <= i < j < |c.snapshots| && i in first && j in first
      ensures c.snapshots[i].writableResources * c.snapshots[j].writableResources == {}
    {
      VenueOfRound(o, view, spent, c, eligible, i);
      VenueOfRound(o, view, spent, c, eligible, j);
    }
  }

  lemma OpensParts(o: Order, view: View, spent: Spent, remaining: nat, budget: int)
    requires Opens(o, view, spent, remaining, budget)
    ensures view.slot == o.slot && budget > 0 && EligibleSet(o, view, spent, |o.pins|) != {}
    ensures forall i :: 0 <= i < |o.pins| ==> Compilable(o, view, spent, i)
  {
    hide Compilable, EligibleSet, RoomOf;
    var first :| CanStart(o, view, spent, first, remaining, budget);
    assert |first| > 0;
  }

  lemma OpensFeasible(o: Order, view: View, spent: Spent, c: Cache, remaining: nat, budget: nat)
    requires Surveyed(o, view, spent, c, EligibleSet(o, view, spent, |o.pins|))
    requires Opens(o, view, spent, remaining, budget)
    requires Enclosed(ProblemOf(c, remaining, EligibleSet(o, view, spent, |o.pins|), budget))
    ensures Feasible(ProblemOf(c, remaining, EligibleSet(o, view, spent, |o.pins|), budget))
  {
    hide Surveyed, Enclosed, EligibleSet, Compilable, CanStart, Feasible, CanTake;
    var eligible := EligibleSet(o, view, spent, |o.pins|);
    var first :| CanStart(o, view, spent, first, remaining, budget);
    StartCanTake(o, view, spent, c, eligible, first, remaining, budget);
    ReadyIsFeasible(o, view, spent, c, first, remaining, budget);
  }

  ghost predicate Tapeable(curves: seq<Curve>, mask: set<nat>) {
    && 0 < |curves| <= MAX_EDGES && mask != {} && (forall i :: i in mask ==> i < |curves|)
    && MaskFault(curves, mask, |curves|).None?
  }

  /** The most work one tape, and one round, can take. */
  const TAPE_WORK: nat := 4 * (MAX_EDGES * MAX_SEGMENTS) + MAX_EDGES
  const ROUND_WORK: nat := MAX_EDGES * VENUE_WORK + TAPE_WORK + SEARCH_WORK + 1

  lemma RoundWorkParts(o: Order)
    requires Checked(o)
    ensures SurveyWork(|o.pins|) + TAPE_WORK + SEARCH_WORK + 1 <= ROUND_WORK
  {
    hide SEARCH_WORK, TAPE_WORK;
    SurveyWorkIs(|o.pins|);
  }

  lemma {:induction false} SurveyWorkIs(n: nat)
    ensures SurveyWork(n) == n * VENUE_WORK
  {
    if n > 0 {
      SurveyWorkIs(n - 1);
    }
  }

  /** The surveyed curves are fit for a tape. */
  lemma RoundCurves(o: Order, view: View, spent: Spent, c: Cache, eligible: set<nat>)
    requires Checked(o) && Surveyed(o, view, spent, c, eligible)
    ensures eligible != {} ==> Tapeable(c.curves, eligible)
    ensures BuildWork(c.curves, eligible) <= TAPE_WORK
  {
    hide Surveyed, Current, ValidCurve, MaskFault;
    RoundMask(o, view, spent, c, eligible);
    NoMaskFault(c.curves, eligible, |c.curves|);
    BandsAtMost(c.curves, eligible);
  }

  lemma RoundMask(o: Order, view: View, spent: Spent, c: Cache, eligible: set<nat>)
    requires Surveyed(o, view, spent, c, eligible)
    ensures |c.curves| == |o.pins| && ValidMask(c.curves, eligible)
  {
    CurrentShape(o, c);
    hide Surveyed, ValidCurve, Envelope;
    forall i | i in eligible
      ensures i < |c.curves| && ValidCurve(c.curves[i])
    {
      VenueOfRound(o, view, spent, c, eligible, i);
    }
  }

  lemma AgreesWithItself(tape: ResidualTape, curves: seq<Curve>, mask: set<nat>)
    requires mask <= tape.compiledMask
    ensures Agrees(tape, curves, curves, mask)
  {
  }

  lemma ReadyIsFeasible(o: Order, view: View, spent: Spent, c: Cache, rest: set<nat>, remaining: nat, budget: nat)
    requires Surveyed(o, view, spent, c, EligibleSet(o, view, spent, |o.pins|))
    requires CanTake(c, EligibleSet(o, view, spent, |o.pins|), rest, remaining, budget)
    requires Enclosed(ProblemOf(c, remaining, EligibleSet(o, view, spent, |o.pins|), budget))
    ensures Feasible(ProblemOf(c, remaining, EligibleSet(o, view, spent, |o.pins|), budget))
  {
    var q := ProblemOf(c, remaining, EligibleSet(o, view, spent, |o.pins|), budget);
    QueryFills(q, rest, true);
    hide Enclosed, Surveyed, Independent, MaskCapacity, QueryOf;
    assert Admissible(q, rest);
  }

  /** A cache that is fresh for the same venues carries the same waiting set. */
  lemma SameWaiting(
    o: Order, view: View, c: Cache, c': Cache, eligible: set<nat>, rest: set<nat>, remaining: nat, budget: int)
    requires Fresh(o, view, c, eligible) && Fresh(o, view, c', eligible) && c'.curves == c.curves
    requires CanTake(c, eligible, rest, remaining, budget)
    ensures CanTake(c', eligible, rest, remaining, budget)
  {
    hide MaskCapacity;
  }

  // ---------------------------------------------------------------- solving one round

  function LegBudget(limits: Limits, legs: nat, reflows: nat): nat
    requires legs <= limits.maxLegs && reflows <= limits.maxReflows
  {
    Min(limits.maxLegs - legs, limits.maxReflows - reflows + 1)
  }

  /** The outcome of a solve: the certified report of the round's problem. */
  ghost predicate Solved(
    o: Order, view: View, spent: Spent, c: Cache, tape: Option<ResidualTape>, built: seq<Curve>,
    remaining: nat, budget: nat, eligible: set<nat>, report: Report)
  {
    && Surveyed(o, view, spent, c, eligible)
    && (forall i :: 0 <= i < |o.pins| ==> Readable(o, view, i))
    && tape.Some? && IsTape(tape.value, built) && Agrees(tape.value, built, c.curves, eligible)
    && Enclosed(ProblemOf(c, remaining, eligible, budget))
    && SearchOf(ProblemOf(c, remaining, eligible, budget)) == Ok(report)
    && Certified(ProblemOf(c, remaining, eligible, budget), report)
  }

  /** Build the tape again when any curve changed. */
  method Retape(
    curves: seq<Curve>, eligible: set<nat>, tape: Option<ResidualTape>, ghost built: seq<Curve>, dirty: bool,
    meter: WorkMeter)
    returns (r: Result<ResidualTape>, ghost built': seq<Curve>)
    requires !dirty ==> tape.Some? && IsTape(tape.value, built)
    modifies meter`used
    ensures old(meter.Within()) ==> meter.Within()
    ensures r.Ok? ==> IsTape(r.value, built')
    ensures !dirty ==> r == Ok(tape.value) && built' == built
    ensures dirty && r.Ok? ==> built' == curves && r.value.compiledMask == eligible
    ensures Tapeable(curves, eligible) && r.Err? ==>
              r.error.WorkLimit? && old(meter.used) + BuildWork(curves, eligible) > meter.limit
    ensures old(meter.used) <= meter.used <= old(meter.used) + BuildWork(curves, eligible)
  {
    built' := built;
    if !dirty {
      return Ok(tape.value), built;
    }
    hide IsTape;
    r := BuildTape(curves, eligible, meter);
    built' := curves;
  }

  method Solve(
    o: Order, host: Host, spent: Spent, cache: Cache, tape: Option<ResidualTape>, ghost built: seq<Curve>,
    remaining: nat, budget: nat, meter: WorkMeter)
    returns (r: Result<(Report, set<nat>)>, c: Cache, tape': Option<ResidualTape>, ghost built': seq<Curve>,
             compiled: nat, rebuilt: nat)
    requires Checked(o) && Current(o, cache) && (tape.Some? ==> IsTape(tape.value, built))
    requires 0 < remaining <= MAX_ATOMS && 0 < budget <= MAX_LEGS
    modifies meter`used
    ensures old(meter.Within()) ==> meter.Within()
    ensures r.Ok? ==>
              Solved(o, host.Now(), spent, c, tape', built', remaining, budget, r.value.1, r.value.0)
    ensures Ready(o, host.Now(), spent, cache, tape, built, remaining, budget) && r.Err? ==>
              r.error.WorkLimit? && old(meter.used) + ROUND_WORK > meter.limit
    ensures tape.None? && Opens(o, host.Now(), spent, remaining, budget) && r.Err? ==>
              || (r.error.WorkLimit? && old(meter.used) + ROUND_WORK > meter.limit)
              || (r.error.Arithmetic? && FirstBoundOverflows(o, host.Now(), spent, remaining))
    ensures old(meter.used) <= meter.used < old(meter.used) + ROUND_WORK
  {
    hide *;
    ghost var view := host.Now();
    ghost var ready := Ready(o, view, spent, cache, tape, built, remaining, budget);
    ghost var opens := tape.None? && Opens(o, view, spent, remaining, budget);
    c, tape', built', compiled, rebuilt := cache, tape, built, 0, 0;
    ReadyParts(o, view, spent, cache, tape, built, remaining, budget);
    RoundWorkParts(o);
    if opens {
      OpensParts(o, view, spent, remaining, budget);
    }
    var survey;
    survey, c, compiled := Survey(o, host, spent, cache, meter);
    if survey.Err? {
      return Err(survey.error), c, tape', built', compiled, rebuilt;
    }
    var eligible := survey.value;
    SurveyedIntro(o, view, spent, c, eligible);
    if eligible == {} {
      return Err(Error.Capacity), c, tape', built', compiled, rebuilt;
    }
    RoundCurves(o, view, spent, c, eligible);
    var dirty := tape.None? || compiled > 0;
    var next;
    next, built' := Retape(c.curves, eligible, tape, built, dirty, meter);
    if next.Err? {
      return Err(next.error), c, tape', built', compiled, rebuilt;
    }
    tape', rebuilt := Some(next.value), if dirty then 1 else 0;
    var q := Problem(c.snapshots, c.curves, remaining, eligible, budget);
    RoundEnclosed(o, view, spent, c, eligible, remaining, budget);
    ProblemIs(c, remaining, eligible, budget);
    SearchOutcome(q);
    if ready {
      ReadySolves(o, view, spent, cache, c, tape, built, remaining, budget);
    }
    if opens {
      OpensFeasible(o, view, spent, c, remaining, budget);
      OverflowsIntro(o, view, spent, c, remaining, budget);
      AgreesWithItself(next.value, c.curves, eligible);
    }
    var report := SearchTape(next.value, built', q, meter);
    if report.Err? {
      return Err(report.error), c, tape', built', compiled, rebuilt;
    }
    SearchNotWorkLimit(q);
    SolvedIntro(o, view, spent, c, tape', built', remaining, budget, eligible, report.value);
    return Ok((report.value, eligible)), c, tape', built', compiled, rebuilt;
  }

  lemma ProblemIs(c: Cache, remaining: nat, eligible: set<nat>, budget: nat)
    ensures ProblemOf(c, remaining, eligible, budget) == Problem(c.snapshots, c.curves, remaining, eligible, budget)
  {
  }

  lemma OverflowsIntro(o: Order, view: View, spent: Spent, c: Cache, remaining: nat, budget: nat)
    requires Surveyed(o, view, spent, c, EligibleSet(o, view, spent, |o.pins|))
    ensures BoundOverflows(ProblemOf(c, remaining, EligibleSet(o, view, spent, |o.pins|), budget)) ==>
              FirstBoundOverflows(o, view, spent, remaining)
  {
    hide Surveyed, BoundFits, BoundOverflows, EligibleSet;
    BoundFitsMeans(c, c, remaining, EligibleSet(o, view, spent, |o.pins|), budget);
  }

  lemma SearchNotWorkLimit(q: Problem)
    ensures SearchOf(q).Ok? ==> ProblemFault(q).None?
  {
    hide ProblemFault, QueryOf, ScanMasks, BestOf, UpperOf;
  }

  lemma SurveyedIntro(o: Order, view: View, spent: Spent, c: Cache, eligible: set<nat>)
    requires Current(o, c) && Fresh(o, view, c, eligible) && eligible == EligibleSet(o, view, spent, |o.pins|)
    ensures Surveyed(o, view, spent, c, eligible)
  {
  }

  lemma SolvedIntro(
    o: Order, view: View, spent: Spent, c: Cache, tape: Option<ResidualTape>, built: seq<Curve>,
    remaining: nat, budget: nat, eligible: set<nat>, report: Report)
    requires Surveyed(o, view, spent, c, eligible)
    requires forall i :: 0 <= i < |o.pins| ==> Readable(o, view, i)
    requires tape.Some? && IsTape(tape.value, built) && Agrees(tape.value, built, c.curves, eligible)
    requires Enclosed(ProblemOf(c, remaining, eligible, budget))
    requires SearchOf(ProblemOf(c, remaining, eligible, budget)) == Ok(report)
    requires Certified(ProblemOf(c, remaining, eligible, budget), report)
    ensures Solved(o, view, spent, c, tape, built, remaining, budget, eligible, report)
  {
  }

  lemma ReadyParts(
    o: Order, view: View, spent: Spent, c: Cache, tape: Option<ResidualTape>, built: seq<Curve>,
    remaining: nat, budget: nat)
    ensures Ready(o, view, spent, c, tape, built, remaining, budget) ==>
              && (forall i :: 0 <= i < |o.pins| ==> Readable(o, view, i))
              && Fresh(o, view, c, EligibleSet(o, view, spent, |o.pins|))
              && EligibleSet(o, view, spent, |o.pins|) != {}
              && tape.Some?
              && Agrees(tape.value, built, c.curves, EligibleSet(o, view, spent, |o.pins|))
  {
    hide Fresh, Readable, IsTape, Agrees, EligibleSet, BoundFits;
  }

  lemma ReadySolves(
    o: Order, view: View, spent: Spent, cache: Cache, c: Cache, tape: Option<ResidualTape>, built: seq<Curve>,
    remaining: nat, budget: nat)
    requires Ready(o, view, spent, cache, tape, built, remaining, budget)
    requires Surveyed(o, view, spent, c, EligibleSet(o, view, spent, |o.pins|)) && c.curves == cache.curves
    requires Enclosed(ProblemOf(c, remaining, EligibleSet(o, view, spent, |o.pins|), budget))
    ensures Feasible(ProblemOf(c, remaining, EligibleSet(o, view, spent, |o.pins|), budget))
    ensures !BoundOverflows(ProblemOf(c, remaining, EligibleSet(o, view, spent, |o.pins|), budget))
  {
    var eligible := EligibleSet(o, view, spent, |o.pins|);
    hide EligibleSet, Readable, IsTape, Agrees, CanTake, Enclosed, Fresh, Current, Feasible, BoundFits, BoundOverflows;
    BoundFitsMeans(cache, c, remaining, eligible, budget);
    var rest :| CanTake(cache, eligible, rest, remaining, budget);
    SameWaiting(o, view, cache, c, eligible, rest, remaining, budget);
    ReadyIsFeasible(o, view, spent, c, rest, remaining, budget);
  }
}
