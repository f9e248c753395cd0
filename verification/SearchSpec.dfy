/** What the subset search must answer: every admissible venue subset is estimated
    from below, the best four estimates are evaluated exactly, and the winner is
    reported with an upper bound on every other split. */
module SearchSpec {
  import opened Base
  import opened Curves
  import opened Venues
  import opened Greedy
  import opened Allocations
  import opened TapeQuery

  const MAX_FINALISTS: nat := 4

  datatype Stats = Stats(considered: nat, feasible: nat, simulations: nat)

  datatype Certificate = Certificate(upper: nat, achieved: nat, gap: nat)

  datatype Report = Report(plan: Allocation, certificate: Certificate, stats: Stats)

  /** One question to the optimizer. */
  datatype Problem = Problem(
    snapshots: seq<Snapshot>, curves: seq<Curve>, amount: nat, eligible: set<nat>, maxLegs: nat)

  // ---------------------------------------------------------------- who may compete

  function Pair(s: Snapshot): (Key, Key) {
    (s.inputMint, s.outputMint)
  }

  /** What is wrong with eligible venue i, given the venues before it. */
  function EdgeFault(q: Problem, i: nat): Option<Error>
    requires i < |q.snapshots| == |q.curves|
  {
    var s := q.snapshots[i];
    if i !in q.eligible then None
    else if s.inputMint == s.outputMint || !s.atomic || !s.enabled then Some(Unsupported)
    else if exists j :: 0 <= j < i && j in q.eligible && Pair(q.snapshots[j]) != Pair(s) then Some(Identity)
    else if q.curves[i].capacity > s.capacity then Some(Error.Capacity)
    else if exists j :: 0 <= j < i && j in q.eligible && Aliased(q.snapshots[j], s) then Some(AliasedLiquidity)
    else None
  }

  predicate Aliased(s: Snapshot, t: Snapshot) {
    s.market == t.market || s.liquidityId == t.liquidityId
  }

  /** The first faulty venue among the first n decides. */
  function EdgesFault(q: Problem, n: nat): Option<Error>
    requires n <= |q.snapshots| == |q.curves|
  {
    if n == 0 then None
    else if EdgesFault(q, n - 1).Some? then EdgesFault(q, n - 1)
    else EdgeFault(q, n - 1)
  }

  function ProblemFault(q: Problem): Option<Error> {
    if |q.snapshots| != |q.curves| || |q.snapshots| == 0 || |q.snapshots| > MAX_EDGES
       || q.maxLegs == 0 || q.maxLegs > MAX_LEGS then Some(Error.Bounds)
    else if q.amount == 0 || q.amount > MAX_ATOMS then Some(InvalidAmount)
    else EdgesFault(q, |q.snapshots|)
  }

  /** No two selected venues write the same account. */
  ghost predicate Independent(snapshots: seq<Snapshot>, mask: set<nat>) {
    forall i, j :: 0 <= i < j < |snapshots| && i in mask && j in mask ==>
      snapshots[i].writableResources * snapshots[j].writableResources == {}
  }

  ghost predicate Admissible(q: Problem, mask: set<nat>) {
    && mask != {} && mask <= q.eligible && |mask| <= q.maxLegs && Independent(q.snapshots, mask)
    && forall i :: i in mask ==> i < |q.snapshots|
  }

  // ---------------------------------------------------------------- exact outputs

  /** Exact outputs of the first n venues, with 64-bit addition. */
  function ExactSum(snapshots: seq<Snapshot>, inputs: seq<nat>, n: nat): Result<nat>
    requires n <= |snapshots| && n <= |inputs|
  {
    if n == 0 then Ok(0)
    else
      var before := ExactSum(snapshots, inputs, n - 1);
      if before.Err? || inputs[n - 1] == 0 then before
      else
        var one := ExactQuoteOf(snapshots[n - 1], inputs[n - 1]);
        if one.Err? then one
        else if before.value + one.value > U64_MAX then Err(Arithmetic)
        else Ok(before.value + one.value)
  }

  // ---------------------------------------------------------------- subsets by number

  function Pow2(n: nat): (p: nat)
    ensures p > 0
  {
    if n == 0 then 1 else 2 * Pow2(n - 1)
  }

  /** The subset of {0, .., n - 1} whose bits make up m. */
  function MaskOf(m: nat, n: nat): (mask: set<nat>)
    requires m < Pow2(n)
    ensures forall i :: i in mask ==> i < n
    ensures mask == {} <==> m == 0
  {
    if n == 0 then {}
    else if m >= Pow2(n - 1) then MaskOf(m - Pow2(n - 1), n - 1) + {n - 1}
    else MaskOf(m, n - 1)
  }

  function CodeOf(mask: set<nat>, n: nat): (m: nat)
    ensures m < Pow2(n)
  {
    if n == 0 then 0 else CodeOf(mask, n - 1) + if n - 1 in mask then Pow2(n - 1) else 0
  }

  /** Every subset has its number, so counting visits every subset. */
  lemma {:induction false} MaskOfCode(mask: set<nat>, n: nat)
    ensures MaskOf(CodeOf(mask, n), n) == set i | i in mask && i < n
  {
    if n > 0 {
      MaskOfCode(mask, n - 1);
    }
  }

  // ---------------------------------------------------------------- the shortlist

  /** The position before the first strictly worse estimate. */
  function Position(finalists: seq<Allocation>, output: nat): (pos: nat)
    ensures pos <= |finalists|
    ensures forall k :: 0 <= k < pos ==> finalists[k].output >= output
    ensures pos < |finalists| ==> output > finalists[pos].output
  {
    if |finalists| == 0 || output > finalists[0].output then 0
    else 1 + Position(finalists[1..], output)
  }

  predicate Listed(finalists: seq<Allocation>, inputs: seq<nat>) {
    exists k :: 0 <= k < |finalists| && finalists[k].inputs == inputs
  }

  /** Insert by output, keep at most four, never the same inputs twice. */
  function Insert(finalists: seq<Allocation>, p: Allocation): (r: seq<Allocation>)
    requires |finalists| <= MAX_FINALISTS
    ensures |r| <= MAX_FINALISTS
  {
    if Listed(finalists, p.inputs) then finalists
    else
      var pos := Position(finalists, p.output);
      if pos >= MAX_FINALISTS then finalists
      else
        var longer := finalists[..pos] + [p] + finalists[pos..];
        if |longer| > MAX_FINALISTS then longer[..MAX_FINALISTS] else longer
  }

  // ---------------------------------------------------------------- the scan

  /** A waterfill query, or its conservative form. */
  ghost function QueryOf(q: Problem, mask: set<nat>, lower: bool): Result<Allocation> {
    var plan := WaterfillOf(q.curves, q.amount, mask);
    if lower then Lowered(q.curves, plan) else plan
  }

  datatype Scan = Scan(finalists: seq<Allocation>, considered: nat, feasible: nat)

  ghost function Visit(q: Problem, scan: Scan, mask: set<nat>): (r: Result<Scan>)
    requires |scan.finalists| <= MAX_FINALISTS
    ensures r.Ok? ==> |r.value.finalists| <= MAX_FINALISTS
  {
    if !(mask <= q.eligible) || |mask| > q.maxLegs then Ok(scan)
    else
      var seen := scan.(considered := scan.considered + 1);
      if !Independent(q.snapshots, mask) then Ok(seen)
      else
        var p := QueryOf(q, mask, true);
        if p.Ok? then Ok(seen.(finalists := Insert(scan.finalists, p.value), feasible := scan.feasible + 1))
        else if p.error.Capacity? then Ok(seen)
        else Err(p.error)
  }

  /** The state after visiting subsets 1, .., m - 1. */
  ghost function ScanMasks(q: Problem, m: nat): (r: Result<Scan>)
    requires 1 <= m <= Pow2(|q.curves|)
    ensures r.Ok? ==> |r.value.finalists| <= MAX_FINALISTS
  {
    if m == 1 then Ok(Scan([], 0, 0))
    else
      var before := ScanMasks(q, m - 1);
      if before.Err? then before else Visit(q, before.value, MaskOf(m - 1, |q.curves|))
  }

  const NO_PLAN: Allocation := Allocation([0, 0, 0, 0, 0, 0, 0, 0], 0, {})

  /** The best exact output among the first n finalists, the earliest on a tie. */
  function BestOf(q: Problem, finalists: seq<Allocation>, n: nat): Result<Allocation>
    requires n <= |finalists| && forall k :: 0 <= k < |finalists| ==> |q.snapshots| <= |finalists[k].inputs|
  {
    if n == 0 then Ok(NO_PLAN)
    else
      var before := BestOf(q, finalists, n - 1);
      if before.Err? then before
      else
        var exact := ExactSum(q.snapshots, finalists[n - 1].inputs, |q.snapshots|);
        if exact.Err? then Err(exact.error)
        else if before.value.mask == {} || exact.value > before.value.output
        then Ok(finalists[n - 1].(output := exact.value))
        else before
  }

  /** Adding the upper errors of the eligible venues, with 64-bit addition. */
  function UpperOf(q: Problem, relaxed: nat, n: nat): Result<nat>
    requires n <= |q.curves|
  {
    if n == 0 then Ok(relaxed)
    else
      var before := UpperOf(q, relaxed, n - 1);
      if before.Err? || n - 1 !in q.eligible then before
      else if before.value + q.curves[n - 1].upperError > U64_MAX then Err(Arithmetic)
      else Ok(before.value + q.curves[n - 1].upperError)
  }

  ghost predicate WellFormed(q: Problem, finalists: seq<Allocation>) {
    && |q.snapshots| == |q.curves| <= MAX_EDGES && |finalists| <= MAX_FINALISTS
    && forall k :: 0 <= k < |finalists| ==> |finalists[k].inputs| == MAX_EDGES
  }

  lemma {:induction false} ScanWellFormed(q: Problem, m: nat)
    requires ProblemFault(q).None? && 1 <= m <= Pow2(|q.curves|)
    ensures ScanMasks(q, m).Ok? ==> WellFormed(q, ScanMasks(q, m).value.finalists)
  {
    if m > 1 {
      ScanWellFormed(q, m - 1);
      QueryShape(q, MaskOf(m - 1, |q.curves|), true);
      hide QueryOf, MaskOf, Independent, EdgesFault, Pow2;
    }
  }

  lemma QueryShape(q: Problem, mask: set<nat>, lower: bool)
    ensures QueryOf(q, mask, lower).Ok? ==> |QueryOf(q, mask, lower).value.inputs| == MAX_EDGES >= |q.curves|
    ensures QueryOf(q, mask, lower) != Err(WorkLimit)
  {
    hide GreedyInputs, LowerOutput, AllocationOf, MaskCapacity, CurveFault;
    MaskErrors(q.curves, mask, |q.curves|);
    AllocationShape(q, mask);
  }

  lemma AllocationShape(q: Problem, mask: set<nat>)
    ensures var w := WaterfillOf(q.curves, q.amount, mask); w.Ok? ==> |w.value.inputs| == MAX_EDGES >= |q.curves|
  {
  }

  lemma {:induction false} MaskErrors(curves: seq<Curve>, mask: set<nat>, n: nat)
    requires n <= |curves|
    ensures MaskFault(curves, mask, n) != Some(WorkLimit)
  {
    if n > 0 {
      MaskErrors(curves, mask, n - 1);
      CurveErrors(curves[n - 1].segments, MAX_RATE, 0);
    }
  }

  lemma {:induction false} CurveErrors(bands: seq<Segment>, top: nat, capacity: nat)
    ensures ScanBands(bands, top, capacity) != Err(WorkLimit)
  {
    if |bands| > 0 {
      CurveErrors(bands[1..], bands[0].marginal, capacity + bands[0].inputCapacity);
    }
  }

  /** The answer once the shortlist is known. */
  function Chosen(q: Problem, upper: nat, scan: Scan): Result<Report>
    requires forall k :: 0 <= k < |scan.finalists| ==> |q.snapshots| <= |scan.finalists[k].inputs|
  {
    var best := BestOf(q, scan.finalists, |scan.finalists|);
    if best.Err? then Err(best.error)
    else if best.value.output > upper then Err(InvalidCurve)
    else Ok(Report(best.value,
                   Certificate(upper, best.value.output, upper - best.value.output),
                   Stats(scan.considered, scan.feasible, |scan.finalists|)))
  }

  /** The complete answer: first the problem's faults, then those of the relaxed bound,
      of the scan and of the evaluation. */
  ghost function SearchOf(q: Problem): Result<Report> {
    var fault := ProblemFault(q);
    if fault.Some? then Err(fault.value)
    else
      var relaxed := QueryOf(q, q.eligible, false);
      if relaxed.Err? then Err(relaxed.error)
      else
        var upper := UpperOf(q, relaxed.value.output, |q.curves|);
        if upper.Err? then Err(upper.error)
        else
          var scan := ScanMasks(q, Pow2(|q.curves|));
          if scan.Err? then Err(scan.error)
          else if |scan.value.finalists| == 0 then Err(Error.Capacity)
          else
            ScanWellFormed(q, Pow2(|q.curves|));
            Chosen(q, upper.value, scan.value)
  }
}
