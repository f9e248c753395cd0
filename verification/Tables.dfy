/** What a coherent journal promises about the trades in it, in terms of their fields. */
module Tables {
  import opened Base
  import opened Entries
  import opened Investment
  import opened Log
  import opened Coherence
  import opened Journals

  // ---------------------------------------------------------------- phases

  /** The trade may still land on chain or still has to be settled. */
  predicate Open(e: Entry) {
    e.phase == Prepared || e.phase == Submitted || e.phase == Unknown || e.phase == Finalized
  }

  /** The lifecycle: an unanswered trade may be submitted, become uncertain, be finalized
      or fail; a finalized one may only be reconciled; nothing else ever moves. */
  lemma TransitionsExactly(entries: map<Key, Entry>, u: Update)
    ensures UpdateOk(entries, u) <==>
              && u.id in entries && (u.attempt ==> entries[u.id].attempts < U32_MAX)
              && var was := entries[u.id].phase;
                 || ((was == Prepared || was == Submitted || was == Unknown)
                     && (u.phase == Submitted || u.phase == Unknown || u.phase == Finalized || u.phase == Failed))
                 || (was == Finalized && u.phase == Reconciled)
  {
  }

  /** A batch of updates never touches a failed or reconciled trade, takes a finalized one
      at most to reconciled, and changes nothing but phases and attempts. */
  lemma BatchMoves(entries: map<Key, Entry>, updates: seq<Update>, id: Key)
    requires Keyed(entries) && UpdatesOk(entries, updates) && id in entries
    ensures forall i :: 0 <= i < |updates| ==> UpdateOk(entries, updates[i])
    ensures id in Apply(entries, UpdatedEntries(entries, updates))
    ensures var was, now := entries[id], Apply(entries, UpdatedEntries(entries, updates))[id];
            && now == was.(phase := now.phase, attempts := now.attempts)
            && was.attempts <= now.attempts <= was.attempts + 1
            && (was.phase == Failed || was.phase == Reconciled ==> now == was)
            && (was.phase == Finalized ==> now.phase == Finalized || now.phase == Reconciled)
            && (now.phase == Prepared ==> now == was)
  {
    var pending := UpdatedEntries(entries, updates);
    UpdatesListed(entries, updates);
    if i :| 0 <= i < |updates| && updates[i].id == id {
      ApplyAt(entries, pending, i);
    } else {
      ApplyOther(entries, pending, id);
    }
  }

  lemma UpdatesListed(entries: map<Key, Entry>, updates: seq<Update>)
    requires Keyed(entries) && (forall i :: 0 <= i < |updates| ==> UpdateOk(entries, updates[i]))
    requires forall i, j :: 0 <= i < j < |updates| ==> updates[i].id != updates[j].id
    ensures var pending := UpdatedEntries(entries, updates);
            && |pending| == |updates| && DistinctIds(pending)
            && forall i :: 0 <= i < |updates| ==>
                 pending[i] == UpdatedEntry(entries, updates[i]) && pending[i].id == updates[i].id
  {
  }

  // ---------------------------------------------------------------- accounts and signatures

  /** No two trades have the same signature, and no two open ones write a common account. */
  lemma TradesApart(entries: map<Key, Entry>, a: Key, b: Key)
    requires Coherent(entries) && a in entries && b in entries && a != b
    ensures entries[a].signature != entries[b].signature && entries[a].id == a
    ensures Open(entries[a]) && Open(entries[b]) ==>
              forall i, j :: 0 <= i < |entries[a].resources| && 0 <= j < |entries[b].resources| ==>
                entries[a].resources[i] != entries[b].resources[j]
  {
    hide AllLined, AllSensible;
    if Open(entries[a]) && Open(entries[b]) {
      forall i, j | 0 <= i < |entries[a].resources| && 0 <= j < |entries[b].resources|
        ensures entries[a].resources[i] != entries[b].resources[j]
      {
        assert Holds(entries[a], entries[a].resources[i]);
        assert Holds(entries[b], entries[b].resources[j]);
      }
    }
  }

  /** A new batch is acceptable exactly when its trades are new, prepared, untried and
      consistent, share no id, signature or account with each other, take no account of
      an open trade and no known signature, and continue their plans. */
  lemma InsertsExactly(entries: map<Key, Entry>, pending: seq<Entry>)
    ensures InsertableBatch(entries, pending) <==>
              && (forall i :: 0 <= i < |pending| ==>
                    var e := pending[i];
                    && e.id !in entries && Sensible(e) && e.phase == Prepared && e.attempts == 0
                    && (forall a, b :: 0 <= a < b < |e.resources| ==> e.resources[a] != e.resources[b])
                    && (forall id :: id in entries ==> entries[id].signature != e.signature)
                    && (forall id, r :: id in entries && r in e.resources && Open(entries[id]) ==>
                          r !in entries[id].resources)
                    && Admits(e, entries.Values + OthersOf(pending, e)))
              && (forall i, j :: 0 <= i < j < |pending| ==>
                    pending[i].id != pending[j].id && pending[i].signature != pending[j].signature)
              && forall i, j, r :: 0 <= i < j < |pending| && r in pending[i].resources ==> r !in pending[j].resources
  {
    hide Sensible, Admits, OthersOf;
    forall i | 0 <= i < |pending|
      ensures FreshEntry(entries, pending[i]) <==>
                var e := pending[i];
                && e.id !in entries && Sensible(e) && e.phase == Prepared && e.attempts == 0
                && (forall a, b :: 0 <= a < b < |e.resources| ==> e.resources[a] != e.resources[b])
                && (forall id :: id in entries ==> entries[id].signature != e.signature)
                && forall id, r :: id in entries && r in e.resources && Open(entries[id]) ==>
                     r !in entries[id].resources
    {
      forall id, r | id in entries
        ensures Holds(entries[id], r) <==> Open(entries[id]) && r in entries[id].resources
      {
      }
    }
    hide FreshEntry;
  }

  // ---------------------------------------------------------------- investment plans

  /** A basket purchase of some plan's tranche. */
  predicate Buys(e: Entry) {
    e.basket.Some? && e.basket.value.investment.Some?
  }

  function PlanOf(e: Entry): Plan
    requires Buys(e)
  {
    e.basket.value.investment.value.plan
  }

  /** A plan that may be bought: two to sixteen different stocks with positive inputs
      that together with the retained cash are the bounded total. */
  ghost predicate SoundPlan(p: Plan) {
    && p.spelled && 2 <= |p.allocations| <= 16 && 1 <= p.maxSlippageBps <= 100
    && 0 < p.totalInput <= 100_000_000_000_000
    && (forall i :: 0 <= i < |p.allocations| ==> p.allocations[i].inputAtoms > 0)
    && (forall i, j :: 0 <= i < j < |p.allocations| ==> p.allocations[i].instrument != p.allocations[j].instrument)
    && InputOf(p.allocations) + p.retainedCash == p.totalInput
  }

  /** Every recorded purchase buys one to three consecutive stocks of a sound plan, at
      exactly the plan's inputs, for the plan's owner and version, and keeps no cash. */
  lemma PurchaseIsPlanned(entries: map<Key, Entry>, id: Key) returns (start: nat)
    requires Coherent(entries) && id in entries && Buys(entries[id])
    ensures SoundPlan(PlanOf(entries[id]))
    ensures var b, p := entries[id].basket.value, PlanOf(entries[id]);
            && 1 <= |b.targets| <= 3 && start + |b.targets| <= |p.allocations|
            && b.targets == p.allocations[start..start + |b.targets|]
            && b.totalInput == InputOf(b.targets) && b.retainedCash == 0
            && b.owner == p.owner && b.strategyVersion == p.versionHash
  {
    var e := entries[id];
    var t := e.basket.value.investment.value;
    SensibleBuys(entries, id);
    RangeShape(t);
    hide RangeOf, InputOf;
    start := RangeOf(t).value.start;
  }

  lemma SensibleBuys(entries: map<Key, Entry>, id: Key)
    requires Coherent(entries) && id in entries && Buys(entries[id])
    ensures Bound(entries[id].basket.value, entries[id].basket.value.investment.value)
  {
    hide AllLined, SignaturesUnique, ReservationsDisjoint, Keyed, Bound;
    assert Sensible(entries[id]);
  }

  /** Two purchases of one plan that did not fail: they name the same plan, never buy the
      same stock, and at most one of them is not reconciled yet. */
  lemma NothingBoughtTwice(entries: map<Key, Entry>, a: Key, b: Key)
    requires Coherent(entries) && a in entries && b in entries && a != b
    requires Buys(entries[a]) && Buys(entries[b]) && PlanOf(entries[a]).id == PlanOf(entries[b]).id
    requires entries[a].phase != Failed && entries[b].phase != Failed
    ensures PlanOf(entries[a]) == PlanOf(entries[b])
    ensures entries[a].phase == Reconciled || entries[b].phase == Reconciled
    ensures forall i, j :: 0 <= i < |entries[a].basket.value.targets| && 0 <= j < |entries[b].basket.value.targets| ==>
              entries[a].basket.value.targets[i].instrument != entries[b].basket.value.targets[j].instrument
  {
    hide *;
    var p := PlanOf(entries[a]);
    BuysAgain(entries, a);
    BuysAgain(entries, b);
    var line := LineOfPlan(entries, a);
    LineIndex(p, entries, line, a);
    LineIndex(p, entries, line, b);
    var m, n := IndexOf(entries[a], p), IndexOf(entries[b], p);
    DifferentSteps(entries, a, b, line, m, n);
    var x, y := if m < n then a else b, if m < n then b else a;
    var k, l := if m < n then m else n, if m < n then n else m;
    StepsApart(p, entries, line, x, y, k, l);
  }

  lemma BuysAgain(entries: map<Key, Entry>, a: Key)
    requires a in entries && Buys(entries[a])
    ensures entries[a].basket.Some? && TrancheOf(entries[a]).Some?
  {
  }

  lemma LineOfPlan(entries: map<Key, Entry>, a: Key) returns (line: seq<Entry>)
    requires Coherent(entries) && a in entries && Buys(entries[a])
    ensures Line(PlanOf(entries[a]), entries.Values, line)
  {
    hide Line, Keyed, AllSensible, SignaturesUnique, ReservationsDisjoint;
    assert entries[a] in entries.Values && TrancheOf(entries[a]).Some?;
    line :| Line(TrancheOf(entries[a]).value.plan, entries.Values, line);
  }

  lemma LineIndex(p: Plan, entries: map<Key, Entry>, line: seq<Entry>, a: Key)
    requires Line(p, entries.Values, line) && a in entries && Buys(entries[a]) && PlanOf(entries[a]).id == p.id
    requires entries[a].phase != Failed
    ensures OfPlan(entries[a], p) && PlanOf(entries[a]) == p
    ensures IndexOf(entries[a], p) < |line| && line[IndexOf(entries[a], p)] == entries[a]
  {
    assert entries[a] in entries.Values && OfPlan(entries[a], p);
    assert Genuine(entries[a], p);
    hide Bound, ValidPlan, Chained;
  }

  lemma DifferentSteps(entries: map<Key, Entry>, a: Key, b: Key, line: seq<Entry>, m: nat, n: nat)
    requires Coherent(entries) && a in entries && b in entries && a != b
    requires m < |line| && n < |line| && line[m] == entries[a] && line[n] == entries[b]
    ensures m != n
  {
    hide AllLined, AllSensible, ReservationsDisjoint, SignaturesUnique;
    assert entries[a].id == a && entries[b].id == b;
  }

  lemma StepsApart(p: Plan, entries: map<Key, Entry>, line: seq<Entry>, a: Key, b: Key, m: nat, n: nat)
    requires Line(p, entries.Values, line) && m < n < |line|
    requires a in entries && b in entries && line[m] == entries[a] && line[n] == entries[b]
    requires Buys(entries[a]) && Buys(entries[b])
    ensures entries[a].phase == Reconciled
    ensures forall i, j :: 0 <= i < |entries[a].basket.value.targets| && 0 <= j < |entries[b].basket.value.targets| ==>
              entries[a].basket.value.targets[i].instrument != entries[b].basket.value.targets[j].instrument
  {
    hide *;
    LineDisjoint(p, entries.Values, line, m, n);
    LineEntry(p, entries.Values, line, m);
    LineEntry(p, entries.Values, line, n);
    StepBuys(line[m], p);
    StepBuys(line[n], p);
    LineParts(p, entries.Values, line, m);
    SlicesApart(p.allocations, StartOf(line[m]), EndOf(line[m]), StartOf(line[n]), EndOf(line[n]));
  }

  lemma LineParts(p: Plan, entries: set<Entry>, line: seq<Entry>, j: nat)
    requires Line(p, entries, line) && j < |line|
    ensures j < |line| - 1 ==> line[j].phase == Reconciled
    ensures forall i, k :: 0 <= i < k < |p.allocations| ==> p.allocations[i].instrument != p.allocations[k].instrument
  {
    hide StartOf, EndBefore, Members;
  }

  lemma SlicesApart(all: seq<Holding>, a: nat, b: nat, c: nat, d: nat)
    requires a <= b <= c <= d <= |all|
    requires forall i, k :: 0 <= i < k < |all| ==> all[i].instrument != all[k].instrument
    ensures forall i, j :: 0 <= i < b - a && 0 <= j < d - c ==> all[a..b][i].instrument != all[c..d][j].instrument
  {
  }

  lemma StepBuys(e: Entry, p: Plan)
    requires OfPlan(e, p) && Genuine(e, p)
    requires RangeOf(TrancheOf(e).value) == Done(StockRange(StartOf(e), EndOf(e)))
    ensures StartOf(e) <= EndOf(e) <= |p.allocations|
    ensures e.basket.value.targets == p.allocations[StartOf(e)..EndOf(e)]
  {
    hide RangeOf, StartOf, EndOf;
  }
}
