/** The execution host, its venues, and the survey that opens every round: which
    venues are eligible, and the curves compiled for them. */
module ReflowSurvey {
  import opened Base
  import opened Curves
  import opened Venues
  import opened SearchSpec
  import opened Compiler

  datatype Balances = Balances(input: u64, output: u64)

  datatype EdgePin = EdgePin(
    market: Key, program: Key, liquidityId: Key, writableResources: set<nat>, minGeneration: u64)

  datatype Intent = Intent(
    inputMint: Key, outputMint: Key, amountIn: u64, minOut: u64, expiresAtSlot: u64, maxSnapshotAge: u64)

  datatype Limits = Limits(maxLegs: nat, maxReflows: nat, maxWork: u32)

  datatype LegTrace = LegTrace(
    edge: nat, requested: nat, spent: nat, received: nat, residual: nat, eligible: set<nat>, chosen: set<nat>)

  datatype Receipt = Receipt(
    initial: Report, inputSpent: nat, outputReceived: nat, legs: nat, reflows: nat, workUnits: nat,
    curvesCompiled: nat, tapeBuilds: nat, trace: seq<LegTrace>)

  // ---------------------------------------------------------------- the host

  datatype Call = Call(edge: nat, request: nat)

  /** Everything that can be read after a history of invocations, and how the last
      invocation ended. */
  datatype View = View(
    invoked: Result<()>, slot: u64, balances: Result<Balances>, snapshot: nat -> Result<Snapshot>)

  /** An arbitrary host: what it shows may depend on everything invoked so far. */
  class Host {
    const behaviour: seq<Call> -> View
    var history: seq<Call>

    constructor (behaviour: seq<Call> -> View)
      ensures this.behaviour == behaviour && history == []
    {
      this.behaviour := behaviour;
      history := [];
    }

    function Now(): View
      reads this
    {
      behaviour(history)
    }

    method Invoke(edge: nat, request: nat) returns (r: Result<()>)
      modifies this
      ensures history == old(history) + [Call(edge, request)] && r == Now().invoked
    {
      history := history + [Call(edge, request)];
      r := Now().invoked;
    }
  }

  // ---------------------------------------------------------------- eligibility

  predicate Pinned(s: Snapshot, pin: EdgePin, intent: Intent) {
    && s.market == pin.market && s.program == pin.program && s.liquidityId == pin.liquidityId
    && s.inputMint == intent.inputMint && s.outputMint == intent.outputMint
    && s.writableResources == pin.writableResources
  }

  predicate Live(s: Snapshot, pin: EdgePin, intent: Intent, slot: nat) {
    && s.enabled && s.atomic && s.capacity != 0
    && s.expiresAtSlot >= slot && s.slot <= slot && slot - s.slot <= intent.maxSnapshotAge
    && s.generation >= pin.minGeneration
  }

  /** What one run is asked to do, fixed from its start. */
  datatype Order = Order(pins: seq<EdgePin>, intent: Intent, slot: nat)

  /** The venues already executed and the accounts they wrote. */
  datatype Spent = Spent(edges: set<nat>, resources: set<nat>)

  predicate Readable(o: Order, view: View, i: nat)
    requires i < |o.pins|
  {
    view.snapshot(i).Ok? && Pinned(view.snapshot(i).value, o.pins[i], o.intent)
  }

  predicate Eligible(o: Order, view: View, spent: Spent, i: nat)
    requires i < |o.pins|
  {
    && Readable(o, view, i)
    && i !in spent.edges && spent.resources * view.snapshot(i).value.writableResources == {}
    && Live(view.snapshot(i).value, o.pins[i], o.intent, o.slot)
  }

  function EligibleSet(o: Order, view: View, spent: Spent, n: nat): (e: set<nat>)
    requires n <= |o.pins|
  {
    set i | 0 <= i < n && Eligible(o, view, spent, i)
  }

  // ---------------------------------------------------------------- the venue cache

  /** Snapshots last used and the curves compiled from them. */
  datatype Cache = Cache(snapshots: seq<Snapshot>, curves: seq<Curve>)

  const NO_CURVE: Curve := Curve([], 0, 0, 0)

  /** Every compiled curve belongs to the snapshot stored beside it. */
  ghost predicate Current(o: Order, c: Cache) {
    && |c.snapshots| == |c.curves| == |o.pins|
    && forall i :: 0 <= i < |c.curves| && |c.curves[i].segments| > 0 ==>
         && CompileFault(c.snapshots[i], o.intent.amountIn).None?
         && c.curves[i] == CompiledOf(c.snapshots[i], o.intent.amountIn)
  }

  /** The cache holds exactly what the host shows for these venues. */
  ghost predicate Fresh(o: Order, view: View, c: Cache, eligible: set<nat>) {
    && |c.snapshots| == |c.curves| == |o.pins|
    && forall i :: 0 <= i < |o.pins| && i in eligible ==>
         view.snapshot(i) == Ok(c.snapshots[i]) && |c.curves[i].segments| > 0
  }

  lemma CompiledNonEmpty(s: Snapshot, horizon: nat)
    requires CompileFault(s, horizon).None?
    ensures |CompiledOf(s, horizon).segments| > 0
  {
    CompiledIsSound(s, horizon);
  }

  /** The most work one compilation, and one venue of a survey, can take. */
  const COMPILE_WORK: nat := MAX_SEGMENTS * (MAX_SEGMENTS + 1)
  const VENUE_WORK: nat := COMPILE_WORK + 1

  /** Bring one venue's curve up to date; an unchanged snapshot keeps its curve. */
  method Refresh(o: Order, c: Cache, i: nat, s: Snapshot, meter: WorkMeter)
    returns (r: Result<Cache>, compiled: nat)
    requires Current(o, c) && i < |o.pins|
    modifies meter`used
    ensures old(meter.Within()) ==> meter.Within()
    ensures r.Ok? ==> Current(o, r.value) && |r.value.curves[i].segments| > 0 && r.value.snapshots == c.snapshots[i := s]
    ensures r.Ok? ==> forall j :: 0 <= j < |o.pins| && j != i ==> r.value.curves[j] == c.curves[j]
    ensures r.Ok? && compiled == 0 ==> r.value.curves == c.curves
    ensures |c.curves[i].segments| > 0 && c.snapshots[i] == s ==> r.Ok? && compiled == 0
    ensures CompileFault(s, o.intent.amountIn).None? && r.Err? ==>
              r.error.WorkLimit? && old(meter.used) + COMPILE_WORK > meter.limit
    ensures old(meter.used) <= meter.used <= old(meter.used) + COMPILE_WORK
  {
    if |c.curves[i].segments| != 0 && c.snapshots[i] == s {
      assert c.snapshots[i := s] == c.snapshots;
      return Ok(c), 0;
    }
    hide CompileFault, CompiledOf;
    var one := Compile(s, o.intent.amountIn, meter);
    if one.Err? {
      return Err(one.error), 0;
    }
    CompiledNonEmpty(s, o.intent.amountIn);
    return Ok(Cache(c.snapshots[i := s], c.curves[i := one.value])), 1;
  }

  lemma EligibleNext(o: Order, view: View, spent: Spent, i: nat)
    requires i < |o.pins|
    ensures EligibleSet(o, view, spent, i + 1)
            == EligibleSet(o, view, spent, i) + if Eligible(o, view, spent, i) then {i} else {}
  {
  }

  /** The cache already holds what the host shows for venue i, if it is eligible. */
  ghost predicate KnownAt(o: Order, view: View, spent: Spent, c: Cache, i: nat)
    requires |c.snapshots| == |c.curves| == |o.pins| && i < |o.pins|
  {
    && Readable(o, view, i)
    && (Eligible(o, view, spent, i) ==> view.snapshot(i) == Ok(c.snapshots[i]) && |c.curves[i].segments| > 0)
  }

  /** Venue i can be read and, if it is eligible, compiled. */
  ghost predicate Compilable(o: Order, view: View, spent: Spent, i: nat)
    requires i < |o.pins|
  {
    && Readable(o, view, i)
    && (Eligible(o, view, spent, i) ==> CompileFault(view.snapshot(i).value, o.intent.amountIn).None?)
  }

  /** One venue of the survey. */
  method SurveyOne(o: Order, host: Host, spent: Spent, cache: Cache, i: nat, meter: WorkMeter)
    returns (r: Result<bool>, c: Cache, compiled: nat)
    requires Current(o, cache) && i < |o.pins|
    modifies meter`used
    ensures old(meter.Within()) ==> meter.Within()
    ensures Current(o, c) && |c.snapshots| == |c.curves| == |o.pins| == |cache.snapshots| == |cache.curves|
    ensures forall j :: 0 <= j < |o.pins| && j != i ==> c.snapshots[j] == cache.snapshots[j] && c.curves[j] == cache.curves[j]
    ensures r.Ok? ==> KnownAt(o, host.Now(), spent, c, i) && r.value == Eligible(o, host.Now(), spent, i)
    ensures compiled == 0 ==> c.curves == cache.curves
    ensures KnownAt(o, host.Now(), spent, cache, i) ==> compiled == 0
    ensures KnownAt(o, host.Now(), spent, cache, i) || Compilable(o, host.Now(), spent, i) ==>
              (r.Err? ==> r.error.WorkLimit? && old(meter.used) + VENUE_WORK > meter.limit)
    ensures old(meter.used) <= meter.used <= old(meter.used) + VENUE_WORK
  {
    c, compiled := cache, 0;
    CurrentShape(o, c);
    hide Current, CompileFault, CompiledOf, Live, Pinned;
    var ok := meter.Charge(1);
    if !ok {
      return Err(WorkLimit), c, 0;
    }
    var read := host.Now().snapshot(i);
    if read.Err? {
      return Err(read.error), c, 0;
    }
    var s := read.value;
    if !Pinned(s, o.pins[i], o.intent) {
      return Err(Identity), c, 0;
    }
    if i in spent.edges || spent.resources * s.writableResources != {} || !Live(s, o.pins[i], o.intent, o.slot) {
      return Ok(false), c, 0;
    }
    var next, more := Refresh(o, c, i, s, meter);
    if next.Err? {
      return Err(next.error), c, 0;
    }
    CurrentShape(o, next.value);
    return Ok(true), next.value, more;
  }

  /** The per-venue loop of one round. A cache that already holds every eligible
      venue is not recompiled, and then only the work budget can stop the survey. */
  method Survey(o: Order, host: Host, spent: Spent, cache: Cache, meter: WorkMeter)
    returns (r: Result<set<nat>>, c: Cache, compiled: nat)
    requires Current(o, cache)
    modifies meter`used
    ensures old(meter.Within()) ==> meter.Within()
    ensures Current(o, c)
    ensures r.Ok? ==> r.value == EligibleSet(o, host.Now(), spent, |o.pins|) && Fresh(o, host.Now(), c, r.value)
    ensures r.Ok? ==> forall i :: 0 <= i < |o.pins| ==> Readable(o, host.Now(), i)
    ensures r.Ok? && compiled == 0 ==> c.curves == cache.curves
    ensures Fresh(o, host.Now(), cache, EligibleSet(o, host.Now(), spent, |o.pins|))
            && (forall i :: 0 <= i < |o.pins| ==> Readable(o, host.Now(), i)) ==>
              compiled == 0 && (r.Err? ==> r.error.WorkLimit? && old(meter.used) + SurveyWork(|o.pins|) > meter.limit)
    ensures (forall i :: 0 <= i < |o.pins| ==> Compilable(o, host.Now(), spent, i)) && r.Err? ==>
              r.error.WorkLimit? && old(meter.used) + SurveyWork(|o.pins|) > meter.limit
    ensures old(meter.used) <= meter.used <= old(meter.used) + SurveyWork(|o.pins|)
  {
    hide *;
    ghost var view := host.Now();
    var eligible: set<nat> := {};
    c, compiled := cache, 0;
    CurrentShape(o, c);
    NoneEligible(o, view, spent);
    ghost var known := Fresh(o, view, cache, EligibleSet(o, view, spent, |o.pins|))
                       && forall i :: 0 <= i < |o.pins| ==> Readable(o, view, i);
    if known {
      FreshMeansKnown(o, view, spent, cache);
    }
    assert forall j :: 0 <= j < |o.pins| ==> c.snapshots[j] == cache.snapshots[j] && c.curves[j] == cache.curves[j];
    SurveyWorkGrows(0, |o.pins|);
    for i := 0 to |o.pins|
      invariant Current(o, c) && |c.snapshots| == |c.curves| == |o.pins|
      invariant eligible == EligibleSet(o, view, spent, i)
      invariant forall j :: 0 <= j < i ==> KnownAt(o, view, spent, c, j)
      invariant forall j :: i <= j < |o.pins| ==> c.snapshots[j] == cache.snapshots[j] && c.curves[j] == cache.curves[j]
      invariant compiled == 0 ==> c.curves == cache.curves
      invariant known ==> compiled == 0
      invariant old(meter.Within()) ==> meter.Within()
      invariant old(meter.used) <= meter.used <= old(meter.used) + SurveyWork(i)
    {
      SurveyWorkGrows(i, |o.pins|);
      EligibleNext(o, view, spent, i);
      if known {
        KnownSame(o, view, spent, cache, c, i);
      }
      ghost var was := c;
      var one, more;
      one, c, more := SurveyOne(o, host, spent, c, i, meter);
      compiled := compiled + more;
      if one.Err? {
        return Err(one.error), c, compiled;
      }
      forall j | 0 <= j < i
        ensures KnownAt(o, view, spent, c, j)
      {
        KnownSame(o, view, spent, was, c, j);
      }
      if one.value {
        eligible := eligible + {i};
      }
    }
    KnownMeansFresh(o, view, spent, c);
    return Ok(eligible), c, compiled;
  }

  /** The most work a survey of n venues can take. */
  function SurveyWork(n: nat): nat {
    if n == 0 then 0 else SurveyWork(n - 1) + VENUE_WORK
  }

  lemma {:induction false} SurveyWorkGrows(i: nat, n: nat)
    requires i <= n
    ensures SurveyWork(i) + (if i < n then VENUE_WORK else 0) <= SurveyWork(n) && SurveyWork(0) == 0
    ensures SurveyWork(i + 1) == SurveyWork(i) + VENUE_WORK
  {
    if i < n {
      SurveyWorkGrows(i, n - 1);
    }
  }

  lemma KnownSame(o: Order, view: View, spent: Spent, c: Cache, c': Cache, i: nat)
    requires |c.snapshots| == |c.curves| == |o.pins| == |c'.snapshots| == |c'.curves| && i < |o.pins|
    requires KnownAt(o, view, spent, c, i) && c'.snapshots[i] == c.snapshots[i] && c'.curves[i] == c.curves[i]
    ensures KnownAt(o, view, spent, c', i)
  {
  }

  lemma FreshMeansKnown(o: Order, view: View, spent: Spent, c: Cache)
    requires Fresh(o, view, c, EligibleSet(o, view, spent, |o.pins|))
    requires forall i :: 0 <= i < |o.pins| ==> Readable(o, view, i)
    ensures |c.snapshots| == |c.curves| == |o.pins|
    ensures forall i :: 0 <= i < |o.pins| ==> KnownAt(o, view, spent, c, i)
  {
    hide Readable;
    forall i | 0 <= i < |o.pins|
      ensures KnownAt(o, view, spent, c, i)
    {
      if Eligible(o, view, spent, i) {
        assert i in EligibleSet(o, view, spent, |o.pins|);
      }
    }
  }

  lemma KnownMeansFresh(o: Order, view: View, spent: Spent, c: Cache)
    requires |c.snapshots| == |c.curves| == |o.pins|
    requires forall i :: 0 <= i < |o.pins| ==> KnownAt(o, view, spent, c, i)
    ensures Fresh(o, view, c, EligibleSet(o, view, spent, |o.pins|))
    ensures forall i :: 0 <= i < |o.pins| ==> Readable(o, view, i)
  {
    hide Readable;
    forall i | 0 <= i < |o.pins|
      ensures Readable(o, view, i)
      ensures i in EligibleSet(o, view, spent, |o.pins|) ==>
                view.snapshot(i) == Ok(c.snapshots[i]) && |c.curves[i].segments| > 0
    {
      assert KnownAt(o, view, spent, c, i);
    }
  }

  lemma CurrentShape(o: Order, c: Cache)
    requires Current(o, c)
    ensures |c.snapshots| == |c.curves| == |o.pins|
  {
  }

  lemma NoneEligible(o: Order, view: View, spent: Spent)
    ensures EligibleSet(o, view, spent, 0) == {}
  {
  }
}
