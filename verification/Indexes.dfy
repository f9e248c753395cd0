/** The two indexes the journal keeps beside its table, and how one record changes them. */
module Indexes {
  import opened Base
  import opened Entries
  import opened Investment
  import opened Log
  import opened Coherence

  /** Every signature leads to the one entry that carries it. */
  ghost predicate SignIndex(m: map<Key, Key>, entries: map<Key, Entry>) {
    && (forall id :: id in entries ==> entries[id].signature in m && m[entries[id].signature] == id)
    && forall s :: s in m ==> m[s] in entries && entries[m[s]].signature == s
  }

  /** Every reserved account leads to the one unfinished entry that holds it. */
  ghost predicate ReserveIndex(m: map<Key, Key>, entries: map<Key, Entry>) {
    && (forall id, r :: id in entries && Holds(entries[id], r) ==> r in m && m[r] == id)
    && forall r :: r in m ==> m[r] in entries && Holds(entries[m[r]], r)
  }

  /** The next record of a run: a new intent or a lifecycle step. */
  ghost predicate Step(entries: map<Key, Entry>, e: Entry) {
    Insertable(entries, e) || Updatable(entries, e)
  }

  ghost predicate Steps(entries: map<Key, Entry>, batch: seq<Entry>) {
    forall i :: 0 <= i < |batch| ==> Step(Apply(entries, batch[..i]), batch[i])
  }

  lemma InsertSteps(entries: map<Key, Entry>, pending: seq<Entry>)
    requires InsertableBatch(entries, pending)
    ensures Steps(entries, pending)
  {
    hide InsertableBatch, Insertable, Apply;
    forall i | 0 <= i < |pending|
      ensures Step(Apply(entries, pending[..i]), pending[i])
    {
      BatchInsertable(entries, pending, i);
    }
  }

  lemma UpdateSteps(entries: map<Key, Entry>, pending: seq<Entry>)
    requires UpdatableBatch(entries, pending)
    ensures Steps(entries, pending)
  {
    hide Updated, Mentions;
    forall i | 0 <= i < |pending|
      ensures Step(Apply(entries, pending[..i]), pending[i])
    {
      NotMentioned(pending, i);
      ApplyOther(entries, pending[..i], pending[i].id);
      assert Updatable(entries, pending[i]);
    }
  }

  lemma SignStep(m: map<Key, Key>, entries: map<Key, Entry>, e: Entry)
    requires SignIndex(m, entries) && Coherent(entries) && Step(entries, e)
    ensures SignIndex(m[e.signature := e.id], entries[e.id := e])
  {
    hide AllLined, Sensible, Admits;
  }

  /** How one record changes the reservations. */
  function Reserve(m: map<Key, Key>, e: Entry, resources: seq<Key>): map<Key, Key> {
    if Terminal(e.phase) then map r | r in m && !(r in resources && m[r] == e.id) :: m[r]
    else map r | r in m.Keys + (set x | x in resources) :: if r in resources then e.id else m[r]
  }

  method UpdateReservations(m: map<Key, Key>, e: Entry) returns (after: map<Key, Key>)
    ensures after == Reserve(m, e, e.resources)
  {
    hide Reserve;
    after := m;
    ReserveNone(m, e);
    for k := 0 to |e.resources|
      invariant after == Reserve(m, e, e.resources[..k])
    {
      var r := e.resources[k];
      assert e.resources[..k + 1] == e.resources[..k] + [r];
      ReserveSnoc(m, e, e.resources[..k], r);
      if Terminal(e.phase) {
        if r in after && after[r] == e.id {
          after := after - {r};
        }
      } else {
        after := after[r := e.id];
      }
    }
    assert e.resources[..|e.resources|] == e.resources;
  }

  lemma ReserveNone(m: map<Key, Key>, e: Entry)
    ensures Reserve(m, e, e.resources[..0]) == m
  {
    assert e.resources[..0] == [];
  }

  /** One account more. */
  lemma ReserveSnoc(m: map<Key, Key>, e: Entry, rs: seq<Key>, r: Key)
    ensures var before := Reserve(m, e, rs);
            Reserve(m, e, rs + [r]) ==
              if !Terminal(e.phase) then before[r := e.id]
              else if r in before && before[r] == e.id then before - {r} else before
  {
    var before, after := Reserve(m, e, rs), Reserve(m, e, rs + [r]);
    assert forall x :: x in rs + [r] <==> x in rs || x == r;
    if Terminal(e.phase) {
      assert after == if r in before && before[r] == e.id then before - {r} else before;
    } else {
      assert after == before[r := e.id];
    }
  }

  lemma DisjointAndKeyed(entries: map<Key, Entry>)
    requires Coherent(entries)
    ensures Keyed(entries) && ReservationsDisjoint(entries)
  {
  }

  lemma ReserveStep(m: map<Key, Key>, entries: map<Key, Entry>, e: Entry)
    requires ReserveIndex(m, entries) && Coherent(entries) && Step(entries, e)
    ensures ReserveIndex(Reserve(m, e, e.resources), entries[e.id := e])
  {
    hide *;
    DisjointAndKeyed(entries);
    StepHolds(entries, e);
    ReserveAfter(m, entries, e);
  }

  /** A new intent takes accounts nobody holds; a lifecycle step is one of an
      unfinished intent with the same accounts. */
  ghost predicate TakesFree(entries: map<Key, Entry>, e: Entry) {
    && (e.id !in entries ==>
          !Terminal(e.phase) && forall id, r :: id in entries && r in e.resources ==> !Holds(entries[id], r))
    && (e.id in entries ==> entries[e.id].resources == e.resources && !Terminal(entries[e.id].phase))
  }

  lemma StepHolds(entries: map<Key, Entry>, e: Entry)
    requires Step(entries, e)
    ensures TakesFree(entries, e)
  {
    hide Sensible, Admits, Holds;
  }

  lemma ReserveAfter(m: map<Key, Key>, entries: map<Key, Entry>, e: Entry)
    requires ReserveIndex(m, entries) && Keyed(entries) && ReservationsDisjoint(entries) && TakesFree(entries, e)
    ensures ReserveIndex(Reserve(m, e, e.resources), entries[e.id := e])
  {
    if e.id in entries {
      assert forall r :: r in e.resources ==> Holds(entries[e.id], r);
    }
  }

  // ---------------------------------------------------------------- rebuilding

  /** `list` holds the entries outside `remaining`, in the order of their ids, which
      all come before those of `remaining`. */
  ghost predicate ListedSoFar(entries: map<Key, Entry>, list: seq<Entry>, remaining: set<Key>) {
    && remaining <= entries.Keys && |list| + |remaining| == |entries|
    && (forall i :: 0 <= i < |list| ==> list[i].id in entries && entries[list[i].id] == list[i])
    && (forall id :: id in entries && id !in remaining ==> entries[id] in list)
    && (forall i, j :: 0 <= i < j < |list| ==> list[i].id < list[j].id)
    && (forall i, id :: 0 <= i < |list| && id in remaining ==> list[i].id < id)
  }

  lemma ListNext(entries: map<Key, Entry>, list: seq<Entry>, remaining: set<Key>, id: Key)
    requires Keyed(entries) && ListedSoFar(entries, list, remaining)
    requires id in remaining && forall x :: x in remaining ==> id <= x
    ensures id in entries && |remaining - {id}| == |remaining| - 1
    ensures ListedSoFar(entries, list + [entries[id]], remaining - {id})
  {
    var more := list + [entries[id]];
    forall x | x in entries && x !in remaining - {id}
      ensures entries[x] in more
    {
      if x == id {
        assert more[|list|] == entries[id];
      } else {
        assert entries[x] in list;
      }
    }
  }

  lemma ListDone(entries: map<Key, Entry>, list: seq<Entry>)
    requires Keyed(entries) && ListedSoFar(entries, list, {})
    ensures DistinctIds(list) && |list| == |entries|
    ensures forall x :: x in list <==> x in entries.Values
    ensures forall i, j :: 0 <= i < j < |list| ==> list[i].id < list[j].id
  {
  }

  /** The entries in the order of their ids. */
  method Listing(entries: map<Key, Entry>) returns (list: seq<Entry>)
    requires Keyed(entries)
    ensures DistinctIds(list) && |list| == |entries|
    ensures forall x :: x in list <==> x in entries.Values
    ensures forall i, j :: 0 <= i < j < |list| ==> list[i].id < list[j].id
  {
    list := [];
    var remaining := entries.Keys;
    assert ListedSoFar(entries, list, remaining);
    hide ListedSoFar, Keyed, DistinctIds;
    while remaining != {}
      invariant ListedSoFar(entries, list, remaining)
      decreases |remaining|
    {
      var id := Least(remaining);
      ListNext(entries, list, remaining, id);
      list := list + [entries[id]];
      remaining := remaining - {id};
    }
    ListDone(entries, list);
  }

  lemma ListingDistinct(list: seq<Entry>)
    requires DistinctIds(list)
    ensures NoRepeats(list)
  {
  }

  lemma ListingSet(list: seq<Entry>, entries: map<Key, Entry>)
    requires forall x :: x in list <==> x in entries.Values
    ensures SetOf(list) == entries.Values
  {
  }

  /** The plan of e is a line in the whole table. */
  ghost predicate HasLine(e: Entry, all: set<Entry>) {
    TrancheOf(e).Some? ==> exists line :: Line(TrancheOf(e).value.plan, all, line)
  }

  /** `plans` are the plans seen so far, and each of them is a line. */
  ghost predicate PlansSeen(seen: seq<Entry>, plans: map<Key, Entry>, all: set<Entry>) {
    && (forall e :: e in seen ==> HasLine(e, all) && (TrancheOf(e).Some? ==> TrancheOf(e).value.plan.id in plans))
    && forall id :: id in plans ==>
         plans[id] in seen && TrancheOf(plans[id]).Some? && TrancheOf(plans[id]).value.plan.id == id
  }

  lemma PlansSeenNext(seen: seq<Entry>, plans: map<Key, Entry>, all: set<Entry>, e: Entry)
    requires PlansSeen(seen, plans, all) && HasLine(e, all)
    ensures TrancheOf(e).Some? ==> PlansSeen(seen + [e], plans[TrancheOf(e).value.plan.id := e], all)
    ensures TrancheOf(e).None? || TrancheOf(e).value.plan.id in plans ==> PlansSeen(seen + [e], plans, all)
  {
    hide HasLine;
  }

  lemma NothingSeen(all: set<Entry>)
    ensures PlansSeen([], map[], all)
  {
  }

  lemma ListedIn(list: seq<Entry>, i: nat)
    requires i < |list|
    ensures list[i] in SetOf(list)
  {
  }

  /** The plan check of `open`: the first entry of every plan walks its tranches. */
  method PlansLined(list: seq<Entry>) returns (ok: bool)
    requires NoRepeats(list)
    ensures ok <==> AllLined(SetOf(list))
  {
    hide PlansSeen, HasLine, AllLined, SetOf;
    var plans: map<Key, Entry> := map[];
    ghost var all := SetOf(list);
    AllLinedMeans(all);
    NothingSeen(all);
    assert list[..0] == [];
    for i := 0 to |list|
      invariant PlansSeen(list[..i], plans, all)
    {
      var e := list[i];
      ListedIn(list, i);
      assert list[..i + 1] == list[..i] + [e];
      if TrancheOf(e).None? {
        NoPlanNoLine(e, all);
        PlansSeenNext(list[..i], plans, all, e);
        continue;
      }
      var p := TrancheOf(e).value.plan;
      if p.id in plans {
        SeenPlan(list, i, plans, all);
        PlansSeenNext(list[..i], plans, all, e);
        continue;
      }
      var cursor; ghost var line;
      cursor, line := Cursor(p, list);
      if cursor.Refused? {
        NoLine(e, all);
        return false;
      }
      WithLine(e, all, line);
      PlansSeenNext(list[..i], plans, all, e);
      plans := plans[p.id := e];
    }
    assert list[..|list|] == list;
    EveryLine(list, plans, all);
    return true;
  }

  lemma AllLinedMeans(all: set<Entry>)
    ensures AllLined(all) <==> forall e :: e in all ==> HasLine(e, all)
  {
    hide Line;
  }

  lemma NoPlanNoLine(e: Entry, all: set<Entry>)
    requires TrancheOf(e).None?
    ensures HasLine(e, all)
  {
  }

  lemma NoLine(e: Entry, all: set<Entry>)
    requires TrancheOf(e).Some? && forall line :: !Line(TrancheOf(e).value.plan, all, line)
    ensures !HasLine(e, all)
  {
    hide Line;
  }

  lemma WithLine(e: Entry, all: set<Entry>, line: seq<Entry>)
    requires TrancheOf(e).Some? && Line(TrancheOf(e).value.plan, all, line)
    ensures HasLine(e, all)
  {
    hide Line;
  }

  lemma EveryLine(list: seq<Entry>, plans: map<Key, Entry>, all: set<Entry>)
    requires PlansSeen(list, plans, all) && all == SetOf(list)
    ensures forall e :: e in all ==> HasLine(e, all)
  {
    hide HasLine;
  }

  lemma SeenPlan(list: seq<Entry>, i: nat, plans: map<Key, Entry>, all: set<Entry>)
    requires i < |list| && all == SetOf(list) && PlansSeen(list[..i], plans, all)
    requires TrancheOf(list[i]).Some? && TrancheOf(list[i]).value.plan.id in plans
    ensures HasLine(list[i], all)
  {
    var first := plans[TrancheOf(list[i]).value.plan.id];
    assert first in list[..i];
    assert HasLine(first, all);
    SamePlan(all, first, list[i]);
  }

  lemma SamePlan(all: set<Entry>, a: Entry, b: Entry)
    requires a in all && b in all && TrancheOf(a).Some? && TrancheOf(b).Some?
    requires TrancheOf(a).value.plan.id == TrancheOf(b).value.plan.id
    requires exists line :: Line(TrancheOf(a).value.plan, all, line)
    ensures exists line :: Line(TrancheOf(b).value.plan, all, line)
  {
    var p := TrancheOf(a).value.plan;
    var line :| Line(p, all, line);
    assert OfPlan(b, p);
    assert Genuine(b, p);
  }

  /** The index loop of `open`: it succeeds exactly on unique signatures and disjoint
      reservations, and then builds both indexes. */
  method Reindex(entries: map<Key, Entry>, list: seq<Entry>)
    returns (r: Outcome<(map<Key, Key>, map<Key, Key>)>)
    requires Keyed(entries) && DistinctIds(list) && forall x :: x in list <==> x in entries.Values
    ensures r.Done? ==> SignIndex(r.value.0, entries) && ReserveIndex(r.value.1, entries)
    ensures r.Done? <==> SignaturesUnique(entries) && ReservationsDisjoint(entries)
  {
    var signatures: map<Key, Key>, reservations: map<Key, Key> := map[], map[];
    assert Signed(signatures, []) && Reserved(reservations, []) && list[..0] == [];
    hide Signed, Reserved, Keyed, DistinctIds, SignaturesUnique, ReservationsDisjoint, SignIndex, ReserveIndex;
    for i := 0 to |list|
      invariant Signed(signatures, list[..i]) && Reserved(reservations, list[..i])
    {
      var e := list[i];
      assert list[..i + 1] == list[..i] + [e] && e in list;
      if e.signature in signatures {
        SignatureClash(entries, list, i, signatures);
        return Refused(SignatureReused);
      }
      SignedNext(signatures, list[..i], e);
      signatures := signatures[e.signature := e.id];
      if !Terminal(e.phase) {
        var clash;
        clash, reservations := ReserveAll(entries, list, i, reservations);
        if clash {
          return Refused(ReservationsOverlap);
        }
      } else {
        ReservedSkip(reservations, list[..i], e);
      }
    }
    assert list[..|list|] == list;
    IndexesDone(entries, list, signatures, reservations);
    return Done((signatures, reservations));
  }

  ghost predicate Signed(m: map<Key, Key>, list: seq<Entry>) {
    && (forall x :: x in list ==> x.signature in m && m[x.signature] == x.id)
    && forall s :: s in m ==> exists x :: x in list && x.signature == s && x.id == m[s]
  }

  ghost predicate Reserved(m: map<Key, Key>, list: seq<Entry>) {
    && (forall x, r :: x in list && Holds(x, r) ==> r in m && m[r] == x.id)
    && forall r :: r in m ==> exists x :: x in list && Holds(x, r) && x.id == m[r]
  }

  lemma SignedNext(m: map<Key, Key>, list: seq<Entry>, e: Entry)
    requires Signed(m, list) && e.signature !in m
    ensures Signed(m[e.signature := e.id], list + [e])
  {
    var after := m[e.signature := e.id];
    forall s | s in after
      ensures exists x :: x in list + [e] && x.signature == s && x.id == after[s]
    {
      if s == e.signature {
        assert e in list + [e];
      } else {
        var x :| x in list && x.signature == s && x.id == m[s];
        assert x in list + [e];
      }
    }
  }

  lemma ReservedSkip(m: map<Key, Key>, list: seq<Entry>, e: Entry)
    requires Reserved(m, list) && Terminal(e.phase)
    ensures Reserved(m, list + [e])
  {
    forall r | r in m
      ensures exists x :: x in list + [e] && Holds(x, r) && x.id == m[r]
    {
      var x :| x in list && Holds(x, r) && x.id == m[r];
      assert x in list + [e];
    }
  }

  lemma SignatureClash(entries: map<Key, Entry>, list: seq<Entry>, i: nat, m: map<Key, Key>)
    requires Keyed(entries) && DistinctIds(list) && i < |list| && (forall x :: x in list ==> x in entries.Values)
    requires Signed(m, list[..i]) && list[i].signature in m
    ensures !SignaturesUnique(entries)
  {
    var e := list[i];
    var x :| x in list[..i] && x.signature == e.signature && x.id == m[e.signature];
    var j :| 0 <= j < i && list[..i][j] == x;
    assert x == list[j] && x in entries.Values && e in entries.Values;
    assert entries[x.id] == x && entries[e.id] == e && x.id != e.id;
  }

  /** Reserve all accounts of entry i, unless another entry holds one. */
  method ReserveAll(entries: map<Key, Entry>, list: seq<Entry>, i: nat, m: map<Key, Key>)
    returns (clash: bool, after: map<Key, Key>)
    requires Keyed(entries) && DistinctIds(list) && i < |list| && (forall x :: x in list ==> x in entries.Values)
    requires Reserved(m, list[..i]) && !Terminal(list[i].phase)
    ensures clash ==> !ReservationsDisjoint(entries)
    ensures !clash ==> Reserved(after, list[..i + 1])
  {
    var e := list[i];
    after := m;
    for k := 0 to |e.resources|
      invariant forall r :: r in m ==> r in after && after[r] == m[r]
      invariant forall r :: r in after ==> r in m || (r in e.resources[..k] && after[r] == e.id)
      invariant forall r :: r in e.resources[..k] ==> r in after && after[r] == e.id
    {
      var r := e.resources[k];
      assert e.resources[..k + 1] == e.resources[..k] + [r];
      if r in after && after[r] != e.id {
        ReservationClash(entries, list, i, m, r);
        return true, after;
      }
      after := after[r := e.id];
    }
    assert e.resources[..|e.resources|] == e.resources;
    ReservedNext(m, list[..i], e, after);
    assert list[..i + 1] == list[..i] + [e];
    return false, after;
  }

  lemma ReservedNext(m: map<Key, Key>, list: seq<Entry>, e: Entry, after: map<Key, Key>)
    requires Reserved(m, list) && !Terminal(e.phase)
    requires forall r :: r in m ==> r in after && after[r] == m[r]
    requires forall r :: r in after ==> r in m || (r in e.resources && after[r] == e.id)
    requires forall r :: r in e.resources ==> r in after && after[r] == e.id
    ensures Reserved(after, list + [e])
  {
    forall r | r in after
      ensures exists x :: x in list + [e] && Holds(x, r) && x.id == after[r]
    {
      if r in m {
        var x :| x in list && Holds(x, r) && x.id == m[r];
        assert x in list + [e];
      } else {
        assert e in list + [e] && Holds(e, r);
      }
    }
  }

  lemma ReservationClash(entries: map<Key, Entry>, list: seq<Entry>, i: nat, m: map<Key, Key>, r: Key)
    requires Keyed(entries) && DistinctIds(list) && i < |list| && (forall x :: x in list ==> x in entries.Values)
    requires Reserved(m, list[..i]) && Holds(list[i], r) && r in m && m[r] != list[i].id
    ensures !ReservationsDisjoint(entries)
  {
    var e := list[i];
    var x :| x in list[..i] && Holds(x, r) && x.id == m[r];
    assert x in list;
    assert x in entries.Values && e in entries.Values;
    assert entries[x.id] == x && entries[e.id] == e;
  }

  lemma IndexesDone(entries: map<Key, Entry>, list: seq<Entry>, signatures: map<Key, Key>, reservations: map<Key, Key>)
    requires Keyed(entries) && (forall x :: x in list <==> x in entries.Values)
    requires Signed(signatures, list) && Reserved(reservations, list)
    ensures SignIndex(signatures, entries) && ReserveIndex(reservations, entries)
    ensures SignaturesUnique(entries) && ReservationsDisjoint(entries)
  {
    forall id | id in entries
      ensures entries[id] in list && entries[id].id == id
    {
    }
    forall s | s in signatures
      ensures signatures[s] in entries && entries[signatures[s]].signature == s
    {
      var x :| x in list && x.signature == s && x.id == signatures[s];
      assert x in entries.Values;
    }
    forall r | r in reservations
      ensures reservations[r] in entries && Holds(entries[reservations[r]], r)
    {
      var x :| x in list && Holds(x, r) && x.id == reservations[r];
      assert x in entries.Values;
    }
  }
}
