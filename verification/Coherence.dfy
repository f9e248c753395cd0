/** What the journal's table of entries must satisfy, and that every admitted batch
    keeps it record by record, so that any prefix of a batch is acceptable too. */
module Coherence {
  import opened Base
  import opened Entries
  import opened Investment
  import opened Log

  ghost predicate Keyed(entries: map<Key, Entry>) {
    forall id :: id in entries ==> entries[id].id == id
  }

  ghost predicate SignaturesUnique(entries: map<Key, Entry>) {
    forall a, b :: a in entries && b in entries && a != b ==> entries[a].signature != entries[b].signature
  }

  /** Entries that may still land do not share an account. */
  ghost predicate ReservationsDisjoint(entries: map<Key, Entry>) {
    forall a, b, r :: a in entries && b in entries && a != b && Holds(entries[a], r) ==> !Holds(entries[b], r)
  }

  predicate Holds(e: Entry, r: Key) {
    !Terminal(e.phase) && r in e.resources
  }

  ghost predicate AllSensible(entries: map<Key, Entry>) {
    forall id :: id in entries ==> Sensible(entries[id])
  }

  /** A table that `open` accepts. */
  ghost predicate Coherent(entries: map<Key, Entry>) {
    && Keyed(entries) && AllSensible(entries) && SignaturesUnique(entries) && ReservationsDisjoint(entries)
    && AllLined(entries.Values)
  }

  // ---------------------------------------------------------------- one record

  ghost predicate Insertable(entries: map<Key, Entry>, e: Entry) {
    && e.id !in entries && Sensible(e) && e.phase == Prepared
    && (forall id :: id in entries ==> entries[id].signature != e.signature)
    && (forall id, r :: id in entries && r in e.resources ==> !Holds(entries[id], r))
    && Admits(e, entries.Values)
  }

  ghost predicate Updatable(entries: map<Key, Entry>, e: Entry) {
    e.id in entries && Updated(entries[e.id], e)
  }

  lemma ValuesInsert(entries: map<Key, Entry>, e: Entry)
    requires e.id !in entries
    ensures entries[e.id := e].Values == entries.Values + {e}
  {
    var after := entries[e.id := e];
    forall x | x in entries.Values + {e}
      ensures x in after.Values
    {
      if x != e {
        var id :| id in entries && entries[id] == x;
        assert after[id] == x;
      } else {
        assert after[e.id] == e;
      }
    }
  }

  lemma ValuesUpdate(entries: map<Key, Entry>, e: Entry)
    requires Keyed(entries) && e.id in entries
    ensures entries[e.id := e].Values == entries.Values - {entries[e.id]} + {e}
  {
    var after := entries[e.id := e];
    forall x | x in entries.Values - {entries[e.id]} + {e}
      ensures x in after.Values
    {
      if x != e {
        var id :| id in entries && entries[id] == x;
        assert after[id] == x;
      } else {
        assert after[e.id] == e;
      }
    }
    forall x | x in after.Values
      ensures x in entries.Values - {entries[e.id]} + {e}
    {
      var id :| id in after && after[id] == x;
      if id != e.id {
        assert entries[id] == x && x.id == id;
      }
    }
  }

  /** Lines of all plans after a new tranche. */
  lemma LinedInsert(entries: set<Entry>, e: Entry)
    requires AllLined(entries) && Admits(e, entries) && e.phase == Prepared
    ensures AllLined(entries + {e})
  {
    var after := entries + {e};
    if TrancheOf(e).Some? {
      var t := TrancheOf(e).value;
      var line :| Line(t.plan, entries, line) && Next(t, line);
      LineExtends(e, entries, line);
    }
    hide Line, Next, Bound;
    forall x | x in after && TrancheOf(x).Some?
      ensures exists line :: Line(TrancheOf(x).value.plan, after, line)
    {
      LinedWith(entries, e, x);
    }
  }

  lemma LinedWith(entries: set<Entry>, e: Entry, x: Entry)
    requires AllLined(entries) && x in entries + {e} && TrancheOf(x).Some?
    requires TrancheOf(e).Some? ==> exists line :: Line(TrancheOf(e).value.plan, entries + {e}, line)
    ensures exists line :: Line(TrancheOf(x).value.plan, entries + {e}, line)
  {
    var p := TrancheOf(x).value.plan;
    if TrancheOf(e).Some? && TrancheOf(e).value.plan.id == p.id {
      var q := TrancheOf(e).value.plan;
      var line :| Line(q, entries + {e}, line);
      assert OfPlan(x, q);
      assert Genuine(x, q);
    } else {
      var line :| Line(p, entries, line);
      LineUntouched(p, entries, entries + {e}, line);
    }
  }

  lemma LinedUpdate(entries: set<Entry>, e: Entry, e': Entry)
    requires AllLined(entries) && e in entries && Updated(e, e')
    ensures AllLined(entries - {e} + {e'})
  {
    var after := entries - {e} + {e'};
    forall x | x in after && TrancheOf(x).Some?
      ensures exists line :: Line(TrancheOf(x).value.plan, after, line)
    {
      var p := TrancheOf(x).value.plan;
      var y := if x == e' then e else x;
      assert y in entries && TrancheOf(y) == TrancheOf(x);
      var line :| Line(p, entries, line);
      var next := LineUpdates(p, entries, line, e, e');
    }
  }

  /** Adding an insertable record keeps the table coherent. */
  lemma InsertCoherent(entries: map<Key, Entry>, e: Entry)
    requires Coherent(entries) && Insertable(entries, e)
    ensures Coherent(entries[e.id := e])
  {
    ValuesInsert(entries, e);
    LinedInsert(entries.Values, e);
    hide AllLined, Admits, Sensible;
  }

  /** A lifecycle record keeps the table coherent. */
  lemma UpdateCoherent(entries: map<Key, Entry>, e: Entry)
    requires Coherent(entries) && Updatable(entries, e)
    ensures Coherent(entries[e.id := e])
  {
    var was := entries[e.id];
    assert Sensible(was);
    assert Sensible(e);
    ValuesUpdate(entries, e);
    LinedUpdate(entries.Values, was, e);
    hide AllLined, Sensible;
    assert was.signature == e.signature && forall r :: Holds(e, r) ==> Holds(was, r);
  }

  // ---------------------------------------------------------------- batches of inserts

  /** The other new entries of a batch. */
  function OthersOf(pending: seq<Entry>, e: Entry): set<Entry> {
    set x | x in pending && x.id != e.id
  }

  /** What a batch of inserts must satisfy. */
  ghost predicate InsertableBatch(entries: map<Key, Entry>, pending: seq<Entry>) {
    && (forall i :: 0 <= i < |pending| ==> FreshEntry(entries, pending[i]))
    && (forall i, j :: 0 <= i < j < |pending| ==>
         pending[i].id != pending[j].id && pending[i].signature != pending[j].signature)
    && (forall i, j, r :: 0 <= i < j < |pending| && r in pending[i].resources ==> r !in pending[j].resources)
    && forall i :: 0 <= i < |pending| ==> Admits(pending[i], entries.Values + OthersOf(pending, pending[i]))
  }

  ghost predicate FreshEntry(entries: map<Key, Entry>, e: Entry) {
    && e.id !in entries && Sensible(e) && e.phase == Prepared && e.attempts == 0
    && (forall a, b :: 0 <= a < b < |e.resources| ==> e.resources[a] != e.resources[b])
    && (forall id :: id in entries ==> entries[id].signature != e.signature)
    && forall id, r :: id in entries && r in e.resources ==> !Holds(entries[id], r)
  }

  ghost predicate DistinctIds(pending: seq<Entry>) {
    forall i, j :: 0 <= i < j < |pending| ==> pending[i].id != pending[j].id
  }

  ghost predicate Mentions(pending: seq<Entry>, id: Key) {
    exists i :: 0 <= i < |pending| && pending[i].id == id
  }

  /** A batch leaves the entries alone that it does not mention. */
  lemma {:induction false} ApplyOther(entries: map<Key, Entry>, pending: seq<Entry>, id: Key)
    requires !Mentions(pending, id)
    ensures id in Apply(entries, pending) <==> id in entries
    ensures id in entries ==> Apply(entries, pending)[id] == entries[id]
  {
    if |pending| > 0 {
      var n := |pending| - 1;
      assert forall i :: 0 <= i < n ==> pending[..n][i] == pending[i];
      ApplyOther(entries, pending[..n], id);
      assert pending[n].id != id;
    }
  }

  lemma {:induction false} ApplyAt(entries: map<Key, Entry>, pending: seq<Entry>, i: nat)
    requires DistinctIds(pending) && i < |pending|
    ensures pending[i].id in Apply(entries, pending) && Apply(entries, pending)[pending[i].id] == pending[i]
  {
    var n := |pending| - 1;
    if i < n {
      assert DistinctIds(pending[..n]);
      ApplyAt(entries, pending[..n], i);
      assert pending[i].id != pending[n].id;
    }
  }

  lemma {:induction false} ApplySize(entries: map<Key, Entry>, pending: seq<Entry>)
    requires DistinctIds(pending) && forall i :: 0 <= i < |pending| ==> pending[i].id !in entries
    ensures |Apply(entries, pending)| == |entries| + |pending|
  {
    if |pending| > 0 {
      var n := |pending| - 1;
      assert DistinctIds(pending[..n]);
      ApplySize(entries, pending[..n]);
      NotMentioned(pending, n);
      ApplyOther(entries, pending[..n], pending[n].id);
      MoreByOne(Apply(entries, pending[..n]), pending[n]);
    }
  }

  lemma MoreByOne(entries: map<Key, Entry>, e: Entry)
    requires e.id !in entries
    ensures |entries[e.id := e]| == |entries| + 1
  {
    assert entries[e.id := e].Keys == entries.Keys + {e.id};
  }

  lemma ApplyMembers(entries: map<Key, Entry>, pending: seq<Entry>)
    requires DistinctIds(pending) && forall i :: 0 <= i < |pending| ==> pending[i].id !in entries
    ensures forall id: Key :: id in Apply(entries, pending) <==> id in entries || Mentions(pending, id)
    ensures forall id :: id in entries ==> Apply(entries, pending)[id] == entries[id]
    ensures forall i :: 0 <= i < |pending| ==>
              pending[i].id in Apply(entries, pending) && Apply(entries, pending)[pending[i].id] == pending[i]
  {
    hide Apply, Mentions;
    var after := Apply(entries, pending);
    forall id: Key
      ensures id in after <==> id in entries || Mentions(pending, id)
      ensures id in entries ==> after[id] == entries[id]
    {
      if Mentions(pending, id) {
        var i := MentionedAt(pending, id);
        ApplyAt(entries, pending, i);
      } else {
        ApplyOther(entries, pending, id);
      }
    }
    forall i | 0 <= i < |pending|
      ensures pending[i].id in after && after[pending[i].id] == pending[i]
    {
      ApplyAt(entries, pending, i);
    }
  }

  lemma MentionedAt(pending: seq<Entry>, id: Key) returns (i: nat)
    requires Mentions(pending, id)
    ensures i < |pending| && pending[i].id == id
  {
    i :| 0 <= i < |pending| && pending[i].id == id;
  }

  lemma LineHas(p: Plan, entries: set<Entry>, line: seq<Entry>, x: Entry)
    requires Line(p, entries, line) && x in entries && OfPlan(x, p) && x.phase != Failed
    ensures IndexOf(x, p) < |line| && line[IndexOf(x, p)] == x
  {
    hide Genuine, ValidPlan, Chained, OfPlan, IndexOf;
    assert Live(x, p);
  }

  lemma NextMeansReconciled(t: Tranche, entries: set<Entry>, line: seq<Entry>, j: nat)
    requires Line(t.plan, entries, line) && Next(t, line) && j < |line|
    ensures line[j].phase == Reconciled
  {
    hide Members, ValidPlan, StartOf, EndOf, EndBefore, RangeOf, Bought;
  }

  /** A step that is next is not in the journal yet: no other entry of its plan is new. */
  lemma NextIsAlone(t: Tranche, prior: set<Entry>, line: seq<Entry>, x: Entry)
    requires Line(t.plan, prior, line) && Next(t, line) && x in prior && OfPlan(x, t.plan)
    ensures x.phase == Failed || x.phase == Reconciled
  {
    hide *;
    if x.phase != Failed {
      LineHas(t.plan, prior, line, x);
      NextMeansReconciled(t, prior, line, IndexOf(x, t.plan));
    }
  }

  lemma LineShrinks(p: Plan, small: set<Entry>, big: set<Entry>, line: seq<Entry>)
    requires Line(p, big, line) && small <= big
    requires forall x :: x in big && x !in small ==> !OfPlan(x, p)
    ensures Line(p, small, line)
  {
    hide Genuine, ValidPlan, Chained;
  }

  /** Admission against all others is admission against some of them. */
  lemma AdmitsAmongFewer(e: Entry, small: set<Entry>, big: set<Entry>)
    requires Admits(e, big) && small <= big
    requires forall x :: x in big && x !in small ==> x.phase == Prepared
    ensures Admits(e, small)
  {
    if TrancheOf(e).Some? {
      var t := TrancheOf(e).value;
      var line :| Line(t.plan, big, line) && Next(t, line);
      hide Line, Next, Bound;
      forall x | x in big && x !in small
        ensures !OfPlan(x, t.plan)
      {
        if OfPlan(x, t.plan) {
          NextIsAlone(t, big, line, x);
        }
      }
      LineShrinks(t.plan, small, big, line);
    }
  }

  lemma BatchParts(entries: map<Key, Entry>, pending: seq<Entry>, m: nat)
    requires InsertableBatch(entries, pending) && m <= |pending|
    ensures DistinctIds(pending[..m]) && forall i :: 0 <= i < m ==> pending[..m][i].id !in entries
  {
    hide Admits, Sensible;
    forall i | 0 <= i < m
      ensures pending[..m][i].id !in entries
    {
      assert FreshEntry(entries, pending[i]);
    }
  }

  /** The records before m do not clash with record m. */
  lemma BatchApart(entries: map<Key, Entry>, pending: seq<Entry>, m: nat, id: Key)
    requires InsertableBatch(entries, pending) && m < |pending| && id in Apply(entries, pending[..m])
    ensures var other := Apply(entries, pending[..m])[id];
            && id != pending[m].id && other.signature != pending[m].signature
            && forall r :: r in pending[m].resources ==> !Holds(other, r)
  {
    var e := pending[m];
    BatchParts(entries, pending, m);
    assert FreshEntry(entries, e);
    hide Admits, Sensible, Apply, Mentions;
    if Mentions(pending[..m], id) {
      var i := MentionedAt(pending[..m], id);
      ApplyAt(entries, pending[..m], i);
      assert pending[..m][i] == pending[i];
    } else {
      ApplyOther(entries, pending[..m], id);
    }
  }

  lemma BatchValues(entries: map<Key, Entry>, pending: seq<Entry>, m: nat)
    requires InsertableBatch(entries, pending) && m < |pending|
    ensures var small, big := Apply(entries, pending[..m]).Values, entries.Values + OthersOf(pending, pending[m]);
            small <= big && forall x :: x in big && x !in small ==> x.phase == Prepared
  {
    BatchParts(entries, pending, m);
    ApplyValues(entries, pending[..m]);
    hide Apply;
    var e := pending[m];
    forall i | 0 <= i < m
      ensures pending[..m][i] in OthersOf(pending, e)
    {
      assert pending[..m][i] == pending[i];
    }
    forall x | x in OthersOf(pending, e)
      ensures x.phase == Prepared
    {
      var i :| 0 <= i < |pending| && pending[i] == x;
      assert FreshEntry(entries, pending[i]);
    }
  }

  /** Inside a batch every record is insertable after the ones before it. */
  lemma BatchInsertable(entries: map<Key, Entry>, pending: seq<Entry>, m: nat)
    requires InsertableBatch(entries, pending) && m < |pending|
    ensures Insertable(Apply(entries, pending[..m]), pending[m])
  {
    var e, before := pending[m], Apply(entries, pending[..m]);
    assert FreshEntry(entries, e);
    assert Admits(e, entries.Values + OthersOf(pending, e));
    BatchValues(entries, pending, m);
    AdmitsAmongFewer(e, before.Values, entries.Values + OthersOf(pending, e));
    hide Admits, Sensible, Apply, InsertableBatch, OthersOf;
    forall id | id in before
      ensures id != e.id && before[id].signature != e.signature
      ensures forall r :: r in e.resources ==> !Holds(before[id], r)
    {
      BatchApart(entries, pending, m, id);
    }
  }

  lemma ApplyValues(entries: map<Key, Entry>, pending: seq<Entry>)
    requires DistinctIds(pending) && forall i :: 0 <= i < |pending| ==> pending[i].id !in entries
    ensures forall x :: x in Apply(entries, pending).Values <==> x in entries.Values || x in pending
  {
    ApplyMembers(entries, pending);
    hide Apply;
    var after := Apply(entries, pending);
    forall x | x in entries.Values || x in pending
      ensures x in after.Values
    {
      if x in entries.Values {
        var id :| id in entries && entries[id] == x;
        assert after[id] == x;
      } else {
        var i :| 0 <= i < |pending| && pending[i] == x;
        assert after[pending[i].id] == x;
      }
    }
    forall x | x in after.Values
      ensures x in entries.Values || x in pending
    {
      var id :| id in after && after[id] == x;
      if id !in entries {
        var i := MentionedAt(pending, id);
        assert pending[i] == x;
      }
    }
  }

  /** Every prefix of an insert batch leaves a coherent table within capacity. */
  lemma {:induction false} InsertBatchCoherent(entries: map<Key, Entry>, pending: seq<Entry>, m: nat)
    requires Coherent(entries) && InsertableBatch(entries, pending) && m <= |pending|
    ensures Coherent(Apply(entries, pending[..m]))
    ensures |Apply(entries, pending[..m])| == |entries| + m
  {
    hide *;
    BatchParts(entries, pending, m);
    ApplySize(entries, pending[..m]);
    ApplyStep(entries, pending, m);
    if m > 0 {
      InsertBatchCoherent(entries, pending, m - 1);
      BatchInsertable(entries, pending, m - 1);
      InsertCoherent(Apply(entries, pending[..m - 1]), pending[m - 1]);
    }
  }

  lemma ApplyStep(entries: map<Key, Entry>, pending: seq<Entry>, m: nat)
    requires m <= |pending|
    ensures m == 0 ==> Apply(entries, pending[..m]) == entries
    ensures m > 0 ==> Apply(entries, pending[..m]) == Apply(entries, pending[..m - 1])[pending[m - 1].id := pending[m - 1]]
  {
    if m > 0 {
      assert pending[..m][..m - 1] == pending[..m - 1];
    }
  }

  // ---------------------------------------------------------------- batches of updates

  ghost predicate UpdatableBatch(entries: map<Key, Entry>, pending: seq<Entry>) {
    && (forall i :: 0 <= i < |pending| ==> Updatable(entries, pending[i]))
    && DistinctIds(pending)
  }

  lemma {:induction false} ApplyUpdates(entries: map<Key, Entry>, pending: seq<Entry>)
    requires forall i :: 0 <= i < |pending| ==> pending[i].id in entries
    ensures Apply(entries, pending).Keys == entries.Keys && |Apply(entries, pending)| == |entries|
  {
    if |pending| > 0 {
      var n := |pending| - 1;
      ApplyUpdates(entries, pending[..n]);
      assert Apply(entries, pending).Keys == entries.Keys;
      SameSize(Apply(entries, pending), entries);
    }
  }

  lemma SameSize(a: map<Key, Entry>, b: map<Key, Entry>)
    requires a.Keys == b.Keys
    ensures |a| == |b|
  {
    assert |a| == |a.Keys| && |b| == |b.Keys|;
  }

  lemma {:induction false} UpdateBatchCoherent(entries: map<Key, Entry>, pending: seq<Entry>, m: nat)
    requires Coherent(entries) && UpdatableBatch(entries, pending) && m <= |pending|
    ensures Coherent(Apply(entries, pending[..m])) && |Apply(entries, pending[..m])| == |entries|
  {
    ApplyUpdates(entries, pending[..m]);
    hide Coherent, Updated, Mentions;
    if m > 0 {
      var e := pending[m - 1];
      UpdateBatchCoherent(entries, pending, m - 1);
      assert pending[..m][..m - 1] == pending[..m - 1];
      NotMentioned(pending, m - 1);
      ApplyOther(entries, pending[..m - 1], e.id);
      UpdateCoherent(Apply(entries, pending[..m - 1]), e);
    }
  }

  lemma NotMentioned(pending: seq<Entry>, m: nat)
    requires m < |pending| && DistinctIds(pending)
    ensures !Mentions(pending[..m], pending[m].id)
  {
  }

  // ---------------------------------------------------------------- what can be replayed

  /** The batch keeps the table coherent and bounded after each of its records. */
  ghost predicate SafeBatch(entries: map<Key, Entry>, batch: seq<Entry>, capacity: nat) {
    && Replayable(entries, batch, capacity)
    && forall m :: 0 <= m <= |batch| ==> Coherent(Apply(entries, batch[..m]))
  }

  lemma InsertBatchSafe(entries: map<Key, Entry>, pending: seq<Entry>, capacity: nat)
    requires Coherent(entries) && InsertableBatch(entries, pending) && |entries| + |pending| <= capacity
    ensures SafeBatch(entries, pending, capacity)
  {
    hide Coherent, Apply, Sensible;
    forall m | 0 <= m <= |pending|
      ensures Coherent(Apply(entries, pending[..m])) && |Apply(entries, pending[..m])| <= capacity
    {
      InsertBatchCoherent(entries, pending, m);
    }
    forall i | 0 <= i < |pending|
      ensures Sensible(pending[i])
    {
      assert FreshEntry(entries, pending[i]);
    }
  }

  lemma UpdateBatchSafe(entries: map<Key, Entry>, pending: seq<Entry>, capacity: nat)
    requires Coherent(entries) && UpdatableBatch(entries, pending) && |entries| <= capacity
    ensures SafeBatch(entries, pending, capacity)
  {
    forall i | 0 <= i < |pending|
      ensures Sensible(pending[i])
    {
      assert Sensible(entries[pending[i].id]) && Updated(entries[pending[i].id], pending[i]);
    }
    hide Coherent, Apply, Sensible;
    forall m | 0 <= m <= |pending|
      ensures Coherent(Apply(entries, pending[..m])) && |Apply(entries, pending[..m])| <= capacity
    {
      UpdateBatchCoherent(entries, pending, m);
    }
  }
}
