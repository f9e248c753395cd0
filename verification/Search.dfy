/** The subset search itself, over either allocator: the residual tape and the
    streaming merge give the same report. */
module Search {
  import opened Base
  import opened Curves
  import opened Venues
  import opened Greedy
  import opened Allocations
  import opened Waterfill
  import opened Tape
  import opened TapeQuery
  import opened SearchSpec
  import GreedyOptimality
  import SearchTheorems

  /** The allocator behind a search. */
  datatype Engine = ByTape(tape: ResidualTape) | ByMerge

  // ---------------------------------------------------------------- matching a tape

  /** The tape was compiled for at least these venues and for the same bands. */
  ghost predicate Agrees(tape: ResidualTape, built: seq<Curve>, curves: seq<Curve>, mask: set<nat>) {
    && |curves| == |built| && mask <= tape.compiledMask
    && forall i :: 0 <= i < |curves| && i in mask ==>
         curves[i].segments == built[i].segments && curves[i].capacity == built[i].capacity
  }

  /** Two curves with the same bands and capacity, compared through the index. */
  method SameCurve(index: IndexedCurve, ghost b: Curve, c: Curve) returns (same: bool)
    requires index == Index(b) && ValidCurve(b)
    ensures same <==> c.segments == b.segments && c.capacity == b.capacity
  {
    IndexFacts(b);
    CapPrefixTotal(b.segments);
    hide Index, ValidBands;
    if |c.segments| != index.len || |c.segments| > MAX_SEGMENTS {
      return false;
    }
    var capacity: nat := 0;
    for j := 0 to |c.segments|
      invariant c.segments[..j] == b.segments[..j] && capacity == CapPrefix(b.segments, j)
    {
      CapPrefixMonotone(b.segments, j + 1, |b.segments|);
      capacity := capacity + c.segments[j].inputCapacity;
      if capacity > U64_MAX {
        return false;
      }
      if capacity != index.capacity[j + 1] || c.segments[j].marginal != index.rates[j] {
        return false;
      }
      assert c.segments[j] == b.segments[j];
      assert c.segments[..j + 1] == c.segments[..j] + [c.segments[j]];
      assert b.segments[..j + 1] == b.segments[..j] + [b.segments[j]];
    }
    assert c.segments == c.segments[..|c.segments|] && b.segments == b.segments[..|c.segments|];
    return capacity == c.capacity;
  }

  /** `matches` decides agreement, without ever reading a dropped tail. */
  method Matches(tape: ResidualTape, ghost built: seq<Curve>, curves: seq<Curve>, mask: set<nat>) returns (same: bool)
    requires IsTape(tape, built)
    ensures same <==> Agrees(tape, built, curves, mask)
  {
    if |curves| != tape.edges || !(mask <= tape.compiledMask) {
      return false;
    }
    TapeParts(tape, built, mask);
    hide IsTape, ValidCurve, Index;
    for i := 0 to |curves|
      invariant forall j :: 0 <= j < i && j in mask ==>
                  curves[j].segments == built[j].segments && curves[j].capacity == built[j].capacity
    {
      if i in mask {
        var one := SameCurve(tape.curves[i], built[i], curves[i]);
        if !one {
          return false;
        }
      }
    }
    return true;
  }

  // ---------------------------------------------------------------- one specification

  lemma {:induction false} FaultsSame(a: seq<Curve>, b: seq<Curve>, mask: set<nat>, n: nat)
    requires n <= |a| == |b|
    requires forall i :: 0 <= i < n && i in mask ==> a[i].segments == b[i].segments && a[i].capacity == b[i].capacity
    ensures MaskFault(a, mask, n) == MaskFault(b, mask, n) && MaskCapacity(a, mask, n) == MaskCapacity(b, mask, n)
  {
    if n > 0 {
      FaultsSame(a, b, mask, n - 1);
    }
  }

  lemma {:induction false} RanksSame(a: seq<Curve>, b: seq<Curve>, mask: set<nat>, picks: seq<nat>, n: nat)
    requires n <= |a| == |b| && InBounds(a, picks) && InBounds(b, picks)
    requires forall i :: 0 <= i < |a| && i in mask ==> a[i].segments == b[i].segments
    ensures Rank(a, mask, picks, n) == Rank(b, mask, picks, n)
  {
    if n > 0 {
      RanksSame(a, b, mask, picks, n - 1);
    }
  }

  lemma {:induction false} ScoresSame(a: seq<Curve>, b: seq<Curve>, inputs: seq<nat>, n: nat)
    requires n <= |a| == |b| && n <= |inputs|
    requires forall i :: 0 <= i < n ==> inputs[i] == 0 || a[i].segments == b[i].segments
    ensures Score(a, inputs, n) == Score(b, inputs, n)
  {
    if n > 0 {
      ScoresSame(a, b, inputs, n - 1);
      if inputs[n - 1] == 0 {
        IntegralDone(a[n - 1].segments, 0);
        IntegralDone(b[n - 1].segments, 0);
      }
    }
  }

  lemma StopsSame(a: seq<Curve>, b: seq<Curve>, amount: nat, mask: set<nat>, picks: seq<nat>)
    requires |a| == |b| && Stops(a, mask, amount, picks)
    requires forall i :: 0 <= i < |a| && i in mask ==> a[i].segments == b[i].segments
    ensures Stops(b, mask, amount, picks)
  {
    var before := picks[..|picks| - 1];
    PrefixInBounds(a, mask, picks, |picks| - 1);
    PicksCongruent(a, b, mask, picks);
    PrefixInBounds(b, mask, picks, |picks| - 1);
    hide Picks;
    RanksSame(a, b, mask, picks, |a|);
    RanksSame(a, b, mask, before, |a|);
  }

  lemma InputsSame(a: seq<Curve>, b: seq<Curve>, amount: nat, mask: set<nat>)
    requires |a| == |b| && Fillable(a, mask, amount) && Fillable(b, mask, amount)
    requires forall i :: 0 <= i < |a| && i in mask ==> a[i].segments == b[i].segments
    ensures GreedyInputs(a, mask, amount) == GreedyInputs(b, mask, amount)
  {
    var picks := GreedyPicks(a, mask, amount);
    StopsSame(a, b, amount, mask, picks);
    StopsUnique(b, mask, amount, picks, GreedyPicks(b, mask, amount));
    var before := picks[..|picks| - 1];
    PicksPrefix(a, mask, picks, |picks| - 1);
    PicksInRange(a, mask, before);
    RanksSame(a, b, mask, before, |a|);
    hide GreedyPicks, Picks, Rank, Fillable;
    var x, y := GreedyInputs(a, mask, amount), GreedyInputs(b, mask, amount);
    forall i | 0 <= i < |a|
      ensures x[i] == y[i]
    {
      if i !in mask {
        assert Count(before, i) == 0;
      }
    }
  }

  /** The allocator looks only at the bands and capacities of the selected venues. */
  lemma SpecSame(a: seq<Curve>, b: seq<Curve>, amount: nat, mask: set<nat>)
    requires |a| == |b|
    requires forall i :: 0 <= i < |a| && i in mask ==> a[i].segments == b[i].segments && a[i].capacity == b[i].capacity
    ensures WaterfillOf(a, amount, mask) == WaterfillOf(b, amount, mask)
  {
    FaultsSame(a, b, mask, |a|);
    NoMaskFault(a, mask, |a|);
    NoMaskFault(b, mask, |b|);
    hide GreedyInputs, MaskFault, MaskCapacity, ValidCurve;
    if WaterfillOf(a, amount, mask).Ok? {
      InputsSame(a, b, amount, mask);
      var inputs := GreedyInputs(a, mask, amount);
      NothingOutsideAtAll(a, mask, amount);
      ScoresSame(a, b, inputs, |a|);
    }
  }

  // ---------------------------------------------------------------- work

  const QUERY_WORK: nat := (MAX_EDGES * MAX_SEGMENTS + 2) * MAX_EDGES + MAX_SEGMENTS + 1

  lemma {:induction false} BandCountBound(curves: seq<Curve>, mask: set<nat>, n: nat)
    requires n <= |curves| && forall i :: 0 <= i < n && i in mask ==> |curves[i].segments| <= MAX_SEGMENTS
    ensures BandCount(curves, mask, n) <= n * MAX_SEGMENTS
  {
    if n > 0 {
      BandCountBound(curves, mask, n - 1);
    }
  }

  lemma BandsAtMost(curves: seq<Curve>, mask: set<nat>)
    requires ValidMask(curves, mask) && |curves| <= MAX_EDGES
    ensures BandCount(curves, mask, |curves|) <= MAX_EDGES * MAX_SEGMENTS
  {
    BandCountBound(curves, mask, |curves|);
  }

  lemma WorkBound(bands: nat, extra: nat, edges: nat)
    requires bands <= MAX_EDGES * MAX_SEGMENTS && extra <= 2 && edges <= MAX_EDGES
    ensures (bands + extra) * edges + MAX_SEGMENTS + 1 <= QUERY_WORK
  {
    assert (MAX_EDGES * MAX_SEGMENTS + 2 - (bands + extra)) * edges >= 0;
  }

  lemma FillWorkBound(curves: seq<Curve>, mask: set<nat>)
    requires ValidMask(curves, mask) && |curves| <= MAX_EDGES
    ensures FillWork(curves, mask) <= QUERY_WORK
  {
    BandsAtMost(curves, mask);
    WorkBound(BandCount(curves, mask, |curves|), 1, |curves|);
  }

  lemma TapeWorkBound(tape: ResidualTape, built: seq<Curve>)
    requires IsTape(tape, built)
    ensures QueryWork(tape) <= QUERY_WORK
  {
    BandsAtMost(built, tape.compiledMask);
    PicksBounded(built, tape.compiledMask, tape.owner[1..]);
    WorkBound(tape.bands, 2, tape.edges);
  }

  // ---------------------------------------------------------------- one query

  /** The allocator serves the problem's curves. */
  ghost predicate Serves(engine: Engine, built: seq<Curve>, q: Problem) {
    engine.ByTape? ==> IsTape(engine.tape, built) && Agrees(engine.tape, built, q.curves, q.eligible)
  }

  /** Conservative outputs of a split, quoted venue by venue. */
  method LowerSum(q: Problem, mask: set<nat>, plan: Allocation) returns (r: Result<nat>)
    requires WaterfillOf(q.curves, q.amount, mask) == Ok(plan) && |q.curves| <= |plan.inputs|
    ensures r == Ok(LowerOutput(q.curves, plan.inputs, |q.curves|))
  {
    hide WaterfillOf, QuoteOf, Integral;
    var sum: nat := 0;
    for i := 0 to |q.curves|
      invariant sum == LowerOutput(q.curves, plan.inputs, i)
    {
      if plan.inputs[i] > 0 {
        VenueQuotes(q, mask, plan, i);
        var one := LowerQuote(q.curves[i], plan.inputs[i]);
        sum := sum + one.value;
        LowerSumFits(q, mask, plan, i + 1);
        if sum > U64_MAX {
          return Err(Arithmetic);
        }
      }
    }
    return Ok(sum);
  }

  /** Every input of a greedy split can be quoted. */
  lemma VenueQuotes(q: Problem, mask: set<nat>, plan: Allocation, i: nat)
    requires WaterfillOf(q.curves, q.amount, mask) == Ok(plan) && i < |q.curves| <= |plan.inputs| && plan.inputs[i] > 0
    ensures QuoteOf(q.curves[i], plan.inputs[i]) == Ok(Integral(q.curves[i].segments, plan.inputs[i]) / SCALE)
  {
    NoMaskFault(q.curves, mask, |q.curves|);
    NothingOutsideAtAll(q.curves, mask, q.amount);
    GreedyOptimality.GreedyIsSplit(q.curves, mask, q.amount);
    hide GreedyInputs, MaskCapacity, MaskFault, Integral;
    FaultMeaning(q.curves[i]);
    assert i in mask;
  }

  lemma LowerSumFits(q: Problem, mask: set<nat>, plan: Allocation, n: nat)
    requires WaterfillOf(q.curves, q.amount, mask) == Ok(plan) && n <= |q.curves| <= |plan.inputs|
    ensures LowerOutput(q.curves, plan.inputs, n) <= U64_MAX
  {
    NoMaskFault(q.curves, mask, |q.curves|);
    LowerAtMostScore(q.curves, plan.inputs, n);
    ScoreGrows(q.curves, plan.inputs, n, |q.curves|);
    SearchTheorems.SplitScoreFits(q, mask, plan.inputs);
    hide GreedyInputs, MaskFault, LowerOutput, Score;
  }

  /** Both allocators answer the query of the specification. */
  method Query(engine: Engine, ghost built: seq<Curve>, q: Problem, mask: set<nat>, lower: bool, meter: WorkMeter)
    returns (r: Result<Allocation>)
    requires Serves(engine, built, q) && mask <= q.eligible && |q.curves| <= MAX_EDGES && 0 < q.amount <= MAX_ATOMS
    modifies meter`used
    ensures old(meter.Within()) ==> meter.Within()
    ensures r == QueryOf(q, mask, lower) || (r == Err(WorkLimit) && old(meter.used) + QUERY_WORK > meter.limit)
    ensures old(meter.used) <= meter.used <= old(meter.used) + QUERY_WORK
  {
    QueryShape(q, mask, false);
    match engine {
      case ByTape(tape) =>
        TapeWorkBound(tape, built);
        SpecSame(built, q.curves, q.amount, mask);
        hide IsTape, WaterfillOf, LowerOutput, QueryWork;
        r := Allocate(tape, built, q.curves, lower, q.amount, mask, meter);
      case ByMerge =>
        if ValidMask(q.curves, mask) {
          FillWorkBound(q.curves, mask);
        }
        hide ValidMask, WaterfillOf, LowerOutput, FillWork;
        var plan := ComputeWaterfill(q.curves, q.amount, mask, meter);
        if plan.Err? || !lower {
          return plan;
        }
        var estimate := LowerSum(q, mask, plan.value);
        return Ok(plan.value.(output := estimate.value));
    }
  }

  // ---------------------------------------------------------------- the prelude

  lemma {:induction false} EdgesFaultSticks(q: Problem, i: nat, n: nat)
    requires i <= n <= |q.snapshots| == |q.curves| && EdgesFault(q, i).Some?
    ensures EdgesFault(q, n) == EdgesFault(q, i)
  {
    if i < n {
      EdgesFaultSticks(q, i, n - 1);
    }
  }

  /** The pair of the eligible venues scanned so far. */
  ghost predicate CommonPair(q: Problem, i: nat, pair: Option<(Key, Key)>)
    requires i <= |q.snapshots|
  {
    && (forall j :: 0 <= j < i && j in q.eligible ==> pair == Some(Pair(q.snapshots[j])))
    && (pair.Some? ==> exists j :: 0 <= j < i && j in q.eligible && pair == Some(Pair(q.snapshots[j])))
  }

  /** The checks before any allocation. */
  method CheckEdges(q: Problem) returns (fault: Option<Error>)
    requires |q.snapshots| == |q.curves|
    ensures fault == EdgesFault(q, |q.snapshots|)
  {
    var pair: Option<(Key, Key)> := None;
    for i := 0 to |q.snapshots|
      invariant EdgesFault(q, i).None? && CommonPair(q, i, pair)
    {
      var one;
      one, pair := CheckEdge(q, i, pair);
      if one.Some? {
        EdgesFaultSticks(q, i + 1, |q.snapshots|);
        return one;
      }
    }
    return None;
  }

  method CheckEdge(q: Problem, i: nat, pair: Option<(Key, Key)>) returns (fault: Option<Error>, pair': Option<(Key, Key)>)
    requires i < |q.snapshots| == |q.curves| && CommonPair(q, i, pair)
    ensures fault == EdgeFault(q, i)
    ensures fault.None? ==> CommonPair(q, i + 1, pair')
  {
    var s := q.snapshots[i];
    pair' := pair;
    if i !in q.eligible {
      return None, pair;
    }
    if s.inputMint == s.outputMint || !s.atomic || !s.enabled {
      return Some(Unsupported), pair;
    }
    if pair.Some? && pair.value != Pair(s) {
      return Some(Identity), pair;
    }
    pair' := Some(Pair(s));
    if q.curves[i].capacity > s.capacity {
      return Some(Error.Capacity), pair';
    }
    for j := 0 to i
      invariant forall k :: 0 <= k < j && k in q.eligible ==> !Aliased(q.snapshots[k], s)
    {
      if j in q.eligible && Aliased(q.snapshots[j], s) {
        return Some(AliasedLiquidity), pair';
      }
    }
    return None, pair';
  }

  // ---------------------------------------------------------------- the small loops

  lemma {:induction false} ExactErrSticks(snapshots: seq<Snapshot>, inputs: seq<nat>, i: nat, n: nat)
    requires i <= n <= |snapshots| && n <= |inputs| && ExactSum(snapshots, inputs, i).Err?
    ensures ExactSum(snapshots, inputs, n) == ExactSum(snapshots, inputs, i)
  {
    if i < n {
      ExactErrSticks(snapshots, inputs, i, n - 1);
    }
  }

  /** `exact_output`: the original models, venue by venue. */
  method ExactOutput(snapshots: seq<Snapshot>, inputs: seq<nat>) returns (r: Result<nat>)
    requires |snapshots| <= |inputs|
    ensures r == ExactSum(snapshots, inputs, |snapshots|)
  {
    hide ExactQuoteOf;
    var sum: nat := 0;
    for i := 0 to |snapshots|
      invariant ExactSum(snapshots, inputs, i) == Ok(sum)
    {
      if inputs[i] == 0 {
        continue;
      }
      var one := ExactQuote(snapshots[i], inputs[i]);
      if one.Err? || sum + one.value > U64_MAX {
        ExactErrSticks(snapshots, inputs, i + 1, |snapshots|);
        return if one.Err? then Err(one.error) else Err(Arithmetic);
      }
      sum := sum + one.value;
    }
    return Ok(sum);
  }

  /** `independent`: accumulate the written accounts. */
  method IsIndependent(snapshots: seq<Snapshot>, mask: set<nat>) returns (free: bool)
    ensures free <==> Independent(snapshots, mask)
  {
    var resources: set<nat> := {};
    for i := 0 to |snapshots|
      invariant forall r :: r in resources <==>
                  exists j :: 0 <= j < i && j in mask && r in snapshots[j].writableResources
      invariant forall j, k :: 0 <= j < k < i && j in mask && k in mask ==>
                  snapshots[j].writableResources * snapshots[k].writableResources == {}
    {
      if i !in mask {
        continue;
      }
      var s := snapshots[i].writableResources;
      if resources * s != {} {
        Overlap(snapshots, mask, i, resources);
        return false;
      }
      forall j | 0 <= j < i && j in mask
        ensures snapshots[j].writableResources * s == {}
      {
        assert forall r :: r in snapshots[j].writableResources ==> r in resources;
      }
      resources := resources + s;
    }
    return true;
  }

  lemma Overlap(snapshots: seq<Snapshot>, mask: set<nat>, i: nat, resources: set<nat>)
    requires i < |snapshots| && i in mask && resources * snapshots[i].writableResources != {}
    requires forall r :: r in resources <==>
               exists j :: 0 <= j < i && j in mask && r in snapshots[j].writableResources
    ensures !Independent(snapshots, mask)
  {
    var r :| r in resources * snapshots[i].writableResources;
    var j :| 0 <= j < i && j in mask && r in snapshots[j].writableResources;
    assert r in snapshots[j].writableResources * snapshots[i].writableResources;
  }

  lemma {:induction false} UpperErrSticks(q: Problem, relaxed: nat, i: nat, n: nat)
    requires i <= n <= |q.curves| && UpperOf(q, relaxed, i).Err?
    ensures UpperOf(q, relaxed, n) == UpperOf(q, relaxed, i)
  {
    if i < n {
      UpperErrSticks(q, relaxed, i, n - 1);
    }
  }

  method AddErrors(q: Problem, relaxed: nat) returns (r: Result<nat>)
    ensures r == UpperOf(q, relaxed, |q.curves|)
  {
    var upper := relaxed;
    for i := 0 to |q.curves|
      invariant UpperOf(q, relaxed, i) == Ok(upper)
    {
      if i in q.eligible {
        if upper + q.curves[i].upperError > U64_MAX {
          UpperErrSticks(q, relaxed, i + 1, |q.curves|);
          return Err(Arithmetic);
        }
        upper := upper + q.curves[i].upperError;
      }
    }
    return Ok(upper);
  }

  // ---------------------------------------------------------------- the shortlist

  method IsListed(finalists: array<Allocation>, count: nat, inputs: seq<nat>) returns (found: bool)
    requires count <= finalists.Length
    ensures found <==> Listed(finalists[..count], inputs)
  {
    ghost var list := finalists[..count];
    for k := 0 to count
      invariant forall j :: 0 <= j < k ==> list[j].inputs != inputs
    {
      assert finalists[k] == list[k];
      if finalists[k].inputs == inputs {
        return true;
      }
    }
    return false;
  }

  /** Put p at pos and move the entries pos .. last - 1 one place back. */
  method PlaceAt(finalists: array<Allocation>, pos: nat, last: nat, p: Allocation)
    requires pos <= last < finalists.Length
    modifies finalists
    ensures finalists[pos] == p
    ensures forall k :: 0 <= k < pos ==> finalists[k] == old(finalists[k])
    ensures forall k :: pos < k <= last ==> finalists[k] == old(finalists[k - 1])
  {
    var j := last;
    while j > pos
      invariant pos <= j <= last
      invariant forall k :: 0 <= k <= j ==> finalists[k] == old(finalists[k])
      invariant forall k :: j < k <= last ==> finalists[k] == old(finalists[k - 1])
    {
      finalists[j] := finalists[j - 1];
      j := j - 1;
    }
    finalists[pos] := p;
  }

  /** Insert a plan into the array of finalists, moving the worse ones back. */
  method InsertFinalist(finalists: array<Allocation>, count: nat, p: Allocation) returns (count': nat)
    requires finalists.Length == MAX_FINALISTS && count <= MAX_FINALISTS
    modifies finalists
    ensures count' <= MAX_FINALISTS && finalists[..count'] == Insert(old(finalists[..count]), p)
  {
    ghost var before := finalists[..count];
    var same := IsListed(finalists, count, p.inputs);
    if same {
      return count;
    }
    var pos := FindPosition(finalists, count, p.output);
    SearchTheorems.InsertAt(before, p);
    if pos >= MAX_FINALISTS {
      return count;
    }
    hide Insert, Listed, Position;
    ghost var r := Insert(before, p);
    PlaceAt(finalists, pos, Min(count, MAX_FINALISTS - 1), p);
    count' := Min(count + 1, MAX_FINALISTS);
    forall k | 0 <= k < count'
      ensures finalists[k] == r[k]
    {
      if k > pos {
        assert r[(k - 1) + 1] == before[k - 1];
      }
    }
    assert finalists[..count'] == r;
  }

  method FindPosition(finalists: array<Allocation>, count: nat, output: nat) returns (pos: nat)
    requires count <= finalists.Length
    ensures pos == Position(finalists[..count], output)
  {
    ghost var list := finalists[..count];
    pos := 0;
    while pos < count
      invariant pos <= count && Position(list, output) == pos + Position(list[pos..], output)
    {
      assert list[pos..][0] == finalists[pos] && list[pos..][1..] == list[pos + 1..];
      if output > finalists[pos].output {
        return;
      }
      pos := pos + 1;
    }
  }

  lemma VisitCases(q: Problem, scan: Scan, mask: set<nat>)
    requires |scan.finalists| <= MAX_FINALISTS
    ensures var visit, seen, p := Visit(q, scan, mask), scan.(considered := scan.considered + 1), QueryOf(q, mask, true);
            if !(mask <= q.eligible) || |mask| > q.maxLegs then visit == Ok(scan)
            else if !Independent(q.snapshots, mask) || p == Err(Error.Capacity) then visit == Ok(seen)
            else if p.Err? then visit == Err(p.error)
            else visit == Ok(Scan(Insert(scan.finalists, p.value), seen.considered, scan.feasible + 1))
  {
    hide QueryOf, Insert, Independent;
  }

  lemma CheckedBounds(q: Problem)
    requires ProblemFault(q).None?
    ensures |q.curves| <= MAX_EDGES && 0 < q.amount <= MAX_ATOMS
  {
  }

  /** One subset of the scan. */
  method VisitOne(
    engine: Engine, ghost built: seq<Curve>, q: Problem, mask: set<nat>, finalists: array<Allocation>, count: nat,
    considered: nat, feasible: nat, meter: WorkMeter)
    returns (fault: Option<Error>, count': nat, considered': nat, feasible': nat)
    requires Serves(engine, built, q) && ProblemFault(q).None?
    requires finalists.Length == MAX_FINALISTS && count <= MAX_FINALISTS
    modifies finalists, meter`used
    ensures old(meter.Within()) ==> meter.Within()
    ensures count' <= MAX_FINALISTS
    ensures var visit := Visit(q, Scan(old(finalists[..count]), considered, feasible), mask);
            && (fault.None? ==> visit == Ok(Scan(finalists[..count'], considered', feasible')))
            && (fault.Some? ==> || visit == Err(fault.value)
                                || (fault.value.WorkLimit? && old(meter.used) + QUERY_WORK + 1 > meter.limit))
    ensures old(meter.used) <= meter.used <= old(meter.used) + QUERY_WORK + 1
  {
    hide Visit, QueryOf, Independent, Insert, Serves, ProblemFault, Pow2, MaskOf;
    VisitCases(q, Scan(finalists[..count], considered, feasible), mask);
    CheckedBounds(q);
    fault, count', considered', feasible' := None, count, considered, feasible;
    var ok := meter.Charge(1);
    if !ok {
      fault := Some(WorkLimit);
      return;
    }
    if !(mask <= q.eligible) || |mask| > q.maxLegs {
      return;
    }
    considered' := considered + 1;
    var free := IsIndependent(q.snapshots, mask);
    if !free {
      return;
    }
    var p := Query(engine, built, q, mask, true, meter);
    if p.Err? {
      fault := if p.error.Capacity? then None else Some(p.error);
      return;
    }
    feasible' := feasible + 1;
    count' := InsertFinalist(finalists, count, p.value);
  }

  lemma {:induction false} ScanErrSticks(q: Problem, m: nat, n: nat)
    requires 1 <= m <= n <= Pow2(|q.curves|) && ScanMasks(q, m).Err?
    ensures ScanMasks(q, n) == ScanMasks(q, m)
  {
    if m < n {
      ScanErrSticks(q, m, n - 1);
    }
  }

  /** The scan over all numbered subsets. */
  method ScanAll(engine: Engine, ghost built: seq<Curve>, q: Problem, finalists: array<Allocation>, meter: WorkMeter)
    returns (fault: Option<Error>, count: nat, considered: nat, feasible: nat)
    requires Serves(engine, built, q) && ProblemFault(q).None? && finalists.Length == MAX_FINALISTS
    modifies finalists, meter`used
    ensures old(meter.Within()) ==> meter.Within()
    ensures count <= MAX_FINALISTS
    ensures var scan := ScanMasks(q, Pow2(|q.curves|));
            && (fault.None? ==> scan == Ok(Scan(finalists[..count], considered, feasible)))
            && (fault.Some? ==> || scan == Err(fault.value)
                                || (fault.value.WorkLimit? && old(meter.used) + SCAN_WORK > meter.limit))
    ensures old(meter.used) <= meter.used <= old(meter.used) + SCAN_WORK
  {
    hide *;
    fault, count, considered, feasible := None, 0, 0, 0;
    assert finalists[..0] == [];
    ScanStart(q);
    ScanWorkLeft(1);
    var m := 1;
    while m < Pow2(|q.curves|)
      invariant old(meter.Within()) ==> meter.Within()
      invariant 1 <= m <= Pow2(|q.curves|) && count <= MAX_FINALISTS && fault.None?
      invariant ScanMasks(q, m) == Ok(Scan(finalists[..count], considered, feasible))
      invariant old(meter.used) <= meter.used <= old(meter.used) + (m - 1) * (QUERY_WORK + 1)
    {
      var mask := MaskOf(m, |q.curves|);
      ScanStep(q, m);
      ScanWorkLeft(m);
      fault, count, considered, feasible :=
        VisitOne(engine, built, q, mask, finalists, count, considered, feasible, meter);
      if fault.Some? {
        if ScanMasks(q, m + 1) == Err(fault.value) {
          ScanErrSticks(q, m + 1, Pow2(|q.curves|));
        }
        return;
      }
      m := m + 1;
    }
    if m > 1 {
      ScanWorkLeft(m - 1);
    }
  }

  lemma ScanWorkLeft(m: nat)
    requires 1 <= m <= 255
    ensures (m - 1) * (QUERY_WORK + 1) + QUERY_WORK + 1 == m * (QUERY_WORK + 1) <= SCAN_WORK
  {
  }

  lemma ScanStart(q: Problem)
    requires ProblemFault(q).None?
    ensures |q.curves| <= MAX_EDGES && 1 <= Pow2(|q.curves|) <= 256
    ensures ScanMasks(q, 1) == Ok(Scan([], 0, 0))
  {
    PowBound(|q.curves|);
  }

  lemma ScanStep(q: Problem, m: nat)
    requires 1 <= m < Pow2(|q.curves|) && ScanMasks(q, m).Ok?
    ensures ScanMasks(q, m + 1) == Visit(q, ScanMasks(q, m).value, MaskOf(m, |q.curves|))
  {
    hide Visit, MaskOf;
  }

  const SCAN_WORK: nat := 255 * (QUERY_WORK + 1)

  lemma PowBound(n: nat)
    requires n <= MAX_EDGES
    ensures 1 <= Pow2(n) <= 256
  {
    if n > 0 {
      PowBound(n - 1);
      if n == MAX_EDGES {
        assert Pow2(8) == 2 * Pow2(7) == 4 * Pow2(6) == 8 * Pow2(5) == 16 * Pow2(4) == 32 * Pow2(3);
      } else {
        PowTable(n);
      }
    }
  }

  lemma PowTable(n: nat)
    requires n < MAX_EDGES
    ensures Pow2(n) <= 128
  {
    assert Pow2(3) == 8;
    assert Pow2(5) == 4 * Pow2(3);
    assert Pow2(7) == 4 * Pow2(5);
  }

  lemma {:induction false} BestErrSticks(q: Problem, finalists: seq<Allocation>, i: nat, n: nat)
    requires i <= n <= |finalists| && forall k :: 0 <= k < |finalists| ==> |q.snapshots| <= |finalists[k].inputs|
    requires BestOf(q, finalists, i).Err?
    ensures BestOf(q, finalists, n) == BestOf(q, finalists, i)
  {
    if i < n {
      BestErrSticks(q, finalists, i, n - 1);
    }
  }

  /** Evaluate the finalists exactly. */
  method Evaluate(q: Problem, finalists: array<Allocation>, count: nat, meter: WorkMeter) returns (r: Result<Allocation>)
    requires count <= finalists.Length && count <= MAX_FINALISTS && |q.snapshots| <= MAX_EDGES
    requires forall k :: 0 <= k < count ==> |q.snapshots| <= |finalists[..count][k].inputs|
    modifies meter`used
    ensures old(meter.Within()) ==> meter.Within()
    ensures || r == BestOf(q, finalists[..count], count)
            || (r == Err(WorkLimit) && old(meter.used) + MAX_FINALISTS * MAX_EDGES > meter.limit)
    ensures old(meter.used) <= meter.used <= old(meter.used) + MAX_FINALISTS * MAX_EDGES
  {
    ghost var list := finalists[..count];
    hide ExactSum;
    var best := NO_PLAN;
    for i := 0 to count
      invariant old(meter.Within()) ==> meter.Within()
      invariant BestOf(q, list, i) == Ok(best)
      invariant old(meter.used) <= meter.used <= old(meter.used) + i * MAX_EDGES
    {
      var ok := meter.Charge(|q.snapshots|);
      if !ok {
        return Err(WorkLimit);
      }
      assert finalists[..count] == list && finalists[i] == list[i];
      var exact := ExactOutput(q.snapshots, finalists[i].inputs);
      if exact.Err? {
        BestErrSticks(q, list, i + 1, count);
        return Err(exact.error);
      }
      if best.mask == {} || exact.value > best.output {
        best := finalists[i].(output := exact.value);
      }
    }
    return Ok(best);
  }

  // ---------------------------------------------------------------- the search

  const SEARCH_WORK: nat := QUERY_WORK + SCAN_WORK + MAX_FINALISTS * MAX_EDGES

  lemma SearchCases(q: Problem)
    requires ProblemFault(q).None?
    ensures 0 < |q.snapshots| == |q.curves| <= MAX_EDGES && 0 < q.amount <= MAX_ATOMS
    ensures ScanMasks(q, Pow2(|q.curves|)).Ok? ==> WellFormed(q, ScanMasks(q, Pow2(|q.curves|)).value.finalists)
    ensures var relaxed, scan := QueryOf(q, q.eligible, false), ScanMasks(q, Pow2(|q.curves|));
            if relaxed.Err? then SearchOf(q) == Err(relaxed.error)
            else var upper := UpperOf(q, relaxed.value.output, |q.curves|);
                 if upper.Err? then SearchOf(q) == Err(upper.error)
                 else if scan.Err? then SearchOf(q) == Err(scan.error)
                 else if |scan.value.finalists| == 0 then SearchOf(q) == Err(Error.Capacity)
                 else SearchOf(q) == Chosen(q, upper.value, scan.value)
  {
    ScanWellFormed(q, Pow2(|q.curves|));
    hide QueryOf, UpperOf, ScanMasks, BestOf, EdgesFault, Pow2;
  }

  lemma WellFormedInputs(q: Problem, finalists: seq<Allocation>)
    requires WellFormed(q, finalists)
    ensures |q.snapshots| <= MAX_EDGES && |finalists| <= MAX_FINALISTS
    ensures forall k :: 0 <= k < |finalists| ==> |q.snapshots| <= |finalists[k].inputs|
  {
  }

  method EvaluateScan(
    q: Problem, upper: nat, finalists: array<Allocation>, count: nat, considered: nat, feasible: nat, meter: WorkMeter)
    returns (r: Result<Report>)
    requires count <= finalists.Length && WellFormed(q, finalists[..count])
    modifies meter`used
    ensures old(meter.Within()) ==> meter.Within()
    ensures forall k :: 0 <= k < count ==> |q.snapshots| <= |finalists[..count][k].inputs|
    ensures || r == Chosen(q, upper, Scan(finalists[..count], considered, feasible))
            || (r == Err(WorkLimit) && old(meter.used) + MAX_FINALISTS * MAX_EDGES > meter.limit)
    ensures old(meter.used) <= meter.used <= old(meter.used) + MAX_FINALISTS * MAX_EDGES
  {
    hide BestOf, WellFormed;
    WellFormedInputs(q, finalists[..count]);
    var best := Evaluate(q, finalists, count, meter);
    if best.Err? {
      return Err(best.error);
    }
    if best.value.output > upper {
      return Err(InvalidCurve);
    }
    return Ok(Report(best.value,
                     Certificate(upper, best.value.output, upper - best.value.output),
                     Stats(considered, feasible, count)));
  }

  /** The search over a problem that passed its checks. */
  method SearchChecked(engine: Engine, ghost built: seq<Curve>, q: Problem, meter: WorkMeter) returns (r: Result<Report>)
    requires Serves(engine, built, q) && ProblemFault(q).None?
    modifies meter`used
    ensures old(meter.Within()) ==> meter.Within()
    ensures r == SearchOf(q) || (r == Err(WorkLimit) && old(meter.used) + SEARCH_WORK > meter.limit)
    ensures old(meter.used) <= meter.used <= old(meter.used) + SEARCH_WORK
  {
    SearchCases(q);
    hide *;
    var relaxed := Query(engine, built, q, q.eligible, false, meter);
    if relaxed.Err? {
      return Err(relaxed.error);
    }
    var upper := AddErrors(q, relaxed.value.output);
    if upper.Err? {
      return Err(upper.error);
    }
    var finalists := new Allocation[MAX_FINALISTS](_ => NO_PLAN);
    var failed, count, considered, feasible := ScanAll(engine, built, q, finalists, meter);
    if failed.Some? {
      return Err(failed.value);
    }
    if count == 0 {
      return Err(Error.Capacity);
    }
    r := EvaluateScan(q, upper.value, finalists, count, considered, feasible, meter);
  }

  /** `search_with`: the report of the specification, whatever the allocator, unless
      a fixed amount of work is not available. */
  method SearchWith(engine: Engine, ghost built: seq<Curve>, q: Problem, meter: WorkMeter) returns (r: Result<Report>)
    requires Serves(engine, built, q)
    modifies meter`used
    ensures old(meter.Within()) ==> meter.Within()
    ensures r == SearchOf(q) || (r == Err(WorkLimit) && old(meter.used) + SEARCH_WORK > meter.limit)
    ensures old(meter.used) <= meter.used <= old(meter.used) + SEARCH_WORK
  {
    hide Serves, EdgesFault, QueryOf, UpperOf, ScanMasks, Pow2, BestOf;
    if |q.snapshots| != |q.curves| || |q.snapshots| == 0 || |q.snapshots| > MAX_EDGES
       || q.maxLegs == 0 || q.maxLegs > MAX_LEGS {
      return Err(Error.Bounds);
    }
    if q.amount == 0 || q.amount > MAX_ATOMS {
      return Err(InvalidAmount);
    }
    var fault := CheckEdges(q);
    if fault.Some? {
      return Err(fault.value);
    }
    r := SearchChecked(engine, built, q, meter);
  }

  /** `search_tape`: refuses a tape of other curves, and otherwise reports exactly
      what `search_reference` reports. */
  method SearchTape(tape: ResidualTape, ghost built: seq<Curve>, q: Problem, meter: WorkMeter) returns (r: Result<Report>)
    requires IsTape(tape, built)
    modifies meter`used
    ensures old(meter.Within()) ==> meter.Within()
    ensures !Agrees(tape, built, q.curves, q.eligible) ==> r == Err(Identity)
    ensures Agrees(tape, built, q.curves, q.eligible) ==>
              r == SearchOf(q) || (r == Err(WorkLimit) && old(meter.used) + SEARCH_WORK > meter.limit)
    ensures old(meter.used) <= meter.used <= old(meter.used) + SEARCH_WORK
  {
    var same := Matches(tape, built, q.curves, q.eligible);
    if !same {
      return Err(Identity);
    }
    hide IsTape, Agrees, SearchOf;
    r := SearchWith(ByTape(tape), built, q, meter);
  }

  method SearchReference(q: Problem, meter: WorkMeter) returns (r: Result<Report>)
    modifies meter`used
    ensures old(meter.Within()) ==> meter.Within()
    ensures r == SearchOf(q) || (r == Err(WorkLimit) && old(meter.used) + SEARCH_WORK > meter.limit)
    ensures old(meter.used) <= meter.used <= old(meter.used) + SEARCH_WORK
  {
    hide SearchOf;
    r := SearchWith(ByMerge, q.curves, q, meter);
  }
}
