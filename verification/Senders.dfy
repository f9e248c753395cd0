/** The sender: exact approved wires, one durable uncertainty record before every
    transmission, and a bounded number of attempts, against any RPC and any crash. */
module Senders {
  import opened Base
  import opened Entries
  import opened Log
  import opened Coherence
  import opened Journals

  // ---------------------------------------------------------------- the network

  datatype Confirmation = Processed | Confirmed | FinalizedStatus | Unrecognised

  /** One row of a signature status reply. */
  datatype Status = Absent | Reported(confirmation: Confirmation, failed: bool) | Malformed

  /** Everything the outside world answers during one batch: the RPC replies, which
      transmissions are acknowledged, and what the disk does on the two writes. */
  datatype Answers = Answers(
    genesis: bool, statuses: Option<seq<Status>>, height: Option<u64>, acknowledged: Key -> bool,
    firstWrite: Option<nat>, secondWrite: Option<nat>)

  predicate Active(e: Entry) {
    e.phase != Finalized && e.phase != Failed && e.phase != Reconciled
  }

  // ---------------------------------------------------------------- deciding

  /** The phase a reported status stands for. */
  function PhaseOf(s: Status): Option<Phase> {
    match s
    case Reported(FinalizedStatus, failed) => Some(if failed then Failed else Finalized)
    case Reported(Processed, _) => Some(Submitted)
    case Reported(Confirmed, _) => Some(Submitted)
    case _ => None
  }

  /** An absent signature may be sent again while its blockhash lives and attempts are left. */
  predicate MaySend(e: Entry, allowSend: bool, height: nat, maxAttempts: nat) {
    allowSend && height <= e.lastValidHeight && e.attempts < maxAttempts
  }

  /** The updates are legal, concern different active intents, and the intents to be
      sent are exactly those whose update counts an attempt. */
  ghost predicate Decided(
    table: map<Key, Entry>, ids: seq<Key>, updates: seq<Update>, sends: seq<Key>, maxAttempts: nat)
  {
    && (forall i :: 0 <= i < |updates| ==> UpdateOk(table, updates[i]) && updates[i].id in ids)
    && (forall i, j :: 0 <= i < j < |updates| ==> updates[i].id != updates[j].id)
    && (forall i :: 0 <= i < |updates| && updates[i].attempt ==>
          updates[i].phase == Unknown && table[updates[i].id].attempts < maxAttempts)
    && (forall i, j :: 0 <= i < j < |sends| ==> sends[i] != sends[j])
    && (forall k :: 0 <= k < |sends| ==> Attempted(updates, sends[k]))
  }

  ghost predicate Attempted(updates: seq<Update>, id: Key) {
    exists i :: 0 <= i < |updates| && updates[i] == Update(id, Unknown, true)
  }

  /** Nothing about this intent was decided yet. */
  ghost predicate Undecided(updates: seq<Update>, sends: seq<Key>, id: Key) {
    (forall i :: 0 <= i < |updates| ==> updates[i].id != id) && id !in sends
  }

  lemma DecidedMore(
    table: map<Key, Entry>, ids: seq<Key>, updates: seq<Update>, sends: seq<Key>, maxAttempts: nat,
    u: Update, send: bool)
    requires Decided(table, ids, updates, sends, maxAttempts) && Undecided(updates, sends, u.id)
    requires UpdateOk(table, u) && u.id in ids && send == u.attempt
    requires u.attempt ==> u.phase == Unknown && table[u.id].attempts < maxAttempts
    ensures Decided(table, ids, updates + [u], if send then sends + [u.id] else sends, maxAttempts)
  {
    hide UpdateOk;
    var more, out := updates + [u], if send then sends + [u.id] else sends;
    forall k | 0 <= k < |out|
      ensures Attempted(more, out[k])
    {
      if k < |sends| {
        assert Attempted(updates, sends[k]);
        var i :| 0 <= i < |updates| && updates[i] == Update(sends[k], Unknown, true);
        assert more[i] == Update(out[k], Unknown, true);
      } else {
        assert more[|updates|] == Update(out[k], Unknown, true);
      }
    }
  }

  lemma UndecidedMore(updates: seq<Update>, sends: seq<Key>, u: Update, send: bool, id: Key)
    requires Undecided(updates, sends, id) && u.id != id
    ensures Undecided(updates + [u], if send then sends + [u.id] else sends, id)
  {
  }

  ghost predicate Distinct(ids: seq<Key>) {
    forall i, j :: 0 <= i < j < |ids| ==> ids[i] != ids[j]
  }

  /** The intents of a batch, looked up once. */
  ghost predicate LookedUp(table: map<Key, Entry>, ids: seq<Key>, entries: seq<Entry>) {
    && |entries| == |ids|
    && (forall i :: 0 <= i < |ids| ==> ids[i] in table && entries[i] == table[ids[i]])
    && forall i, j :: 0 <= i < j < |ids| ==> ids[i] != ids[j]
  }

  /** Recording the updates turns intent id of the table into e. */
  ghost predicate Moves(table: map<Key, Entry>, updates: seq<Update>, id: Key, e: Entry) {
    || (id in table && e == table[id] && forall u :: 0 <= u < |updates| ==> updates[u].id != id)
    || (exists u :: 0 <= u < |updates| && updates[u].id == id
                    && UpdateOk(table, updates[u]) && e == UpdatedEntry(table, updates[u]))
  }

  /** Recording the updates turns the intents of the batch into `goal`. */
  ghost predicate Settling(table: map<Key, Entry>, ids: seq<Key>, updates: seq<Update>, goal: seq<Entry>) {
    |goal| == |ids| && forall i :: 0 <= i < |ids| ==> Moves(table, updates, ids[i], goal[i])
  }

  /** The phases of some entries. */
  ghost predicate Shows(goal: seq<Entry>, phases: seq<Phase>) {
    |phases| == |goal| && forall i :: 0 <= i < |goal| ==> phases[i] == goal[i].phase
  }

  lemma SettlingStart(table: map<Key, Entry>, ids: seq<Key>, entries: seq<Entry>)
    requires |entries| == |ids| && forall i :: 0 <= i < |ids| ==> ids[i] in table && entries[i] == table[ids[i]]
    ensures Settling(table, ids, [], entries)
  {
  }

  lemma MovesMore(table: map<Key, Entry>, updates: seq<Update>, id: Key, e: Entry, u: Update)
    requires Moves(table, updates, id, e) && u.id != id
    ensures Moves(table, updates + [u], id, e)
  {
    var more := updates + [u];
    if k :| 0 <= k < |updates| && updates[k].id == id && UpdateOk(table, updates[k]) && e == UpdatedEntry(table, updates[k]) {
      assert more[k] == updates[k];
    }
  }

  lemma SettlingMore(
    table: map<Key, Entry>, ids: seq<Key>, updates: seq<Update>, goal: seq<Entry>, i: nat, u: Update)
    requires Settling(table, ids, updates, goal) && Distinct(ids)
    requires i < |ids| && u.id == ids[i] && UpdateOk(table, u)
    ensures |goal| == |ids| && Settling(table, ids, updates + [u], goal[i := UpdatedEntry(table, u)])
  {
    var more, after := updates + [u], goal[i := UpdatedEntry(table, u)];
    assert more[|updates|] == u;
    assert Moves(table, more, ids[i], after[i]);
    hide Moves, UpdateOk, UpdatedEntry;
    forall j | 0 <= j < |ids| && j != i
      ensures Moves(table, more, ids[j], after[j])
    {
      MovesMore(table, updates, ids[j], goal[j], u);
    }
  }

  lemma SettlingLength(table: map<Key, Entry>, ids: seq<Key>, updates: seq<Update>, goal: seq<Entry>)
    requires Settling(table, ids, updates, goal)
    ensures |goal| == |ids|
  {
  }

  // ---------------------------------------------------------------- rows of the reply

  /** Unfinished intents among the first n. */
  function CountActive(entries: seq<Entry>, n: nat): (c: nat)
    requires n <= |entries|
    ensures c <= n
  {
    if n == 0 then 0 else CountActive(entries, n - 1) + if Active(entries[n - 1]) then 1 else 0
  }

  lemma {:induction false} CountGrows(entries: seq<Entry>, i: nat, n: nat)
    requires i < n <= |entries|
    ensures CountActive(entries, i) <= CountActive(entries, n)
    ensures Active(entries[i]) ==> CountActive(entries, i) < CountActive(entries, n)
  {
    if i < n - 1 {
      CountGrows(entries, i, n - 1);
    }
  }

  /** The reply has one row for every unfinished intent, in order. */
  function RowOf(entries: seq<Entry>, statuses: seq<Status>, i: nat): Status
    requires i < |entries|
  {
    if CountActive(entries, i) < |statuses| then statuses[CountActive(entries, i)] else Malformed
  }

  /** `active` lists the positions of the unfinished intents. */
  ghost predicate ListsActive(entries: seq<Entry>, active: seq<nat>) {
    && |active| == CountActive(entries, |entries|)
    && (forall k :: 0 <= k < |active| ==>
          active[k] < |entries| && Active(entries[active[k]]) && CountActive(entries, active[k]) == k)
    && forall i :: 0 <= i < |entries| && Active(entries[i]) ==>
         CountActive(entries, i) < |active| && active[CountActive(entries, i)] == i
  }

  /** Every row is null or names a known status. */
  ghost predicate Legible(statuses: seq<Status>) {
    forall k :: 0 <= k < |statuses| ==> statuses[k].Absent? || PhaseOf(statuses[k]).Some?
  }

  /** An entry in its reported phase; an absent one stays as it is for now. */
  function Reached(e: Entry, s: Status): Entry {
    if PhaseOf(s).Some? then e.(phase := PhaseOf(s).value) else e
  }

  /** One attempt more; attempts below a limit never reach the 32-bit bound. */
  function Bumped(attempts: u32): u32 {
    if attempts < U32_MAX then attempts + 1 else attempts
  }

  function Retried(e: Entry, attempt: bool): Entry {
    e.(phase := Unknown, attempts := if attempt then Bumped(e.attempts) else e.attempts)
  }

  /** What one answered batch makes of an intent: a finished one stays, a reported one
      takes its reported phase, an absent one becomes uncertain, and one that is sent
      again counts the attempt and is submitted only if that was acknowledged. */
  function Answered(e: Entry, row: Status, send: bool, acknowledged: bool): Entry {
    if !Active(e) then e
    else if !row.Absent? then Reached(e, row)
    else if send then e.(phase := if acknowledged then Submitted else Unknown, attempts := Bumped(e.attempts))
    else e.(phase := Unknown)
  }

  /** The rows before the k-th have been applied. */
  ghost predicate SortedTo(entries: seq<Entry>, statuses: seq<Status>, goal: seq<Entry>, k: nat) {
    && |goal| == |entries|
    && forall i :: 0 <= i < |entries| ==>
         goal[i] == if Active(entries[i]) && CountActive(entries, i) < k
                    then Reached(entries[i], RowOf(entries, statuses, i)) else entries[i]
  }

  /** The unfinished intents absent from the first k rows. */
  ghost predicate AbsentTo(entries: seq<Entry>, statuses: seq<Status>, absent: seq<nat>, k: nat) {
    forall i: nat :: i in absent <==>
      i < |entries| && Active(entries[i]) && CountActive(entries, i) < k && RowOf(entries, statuses, i).Absent?
  }

  lemma NothingSorted(entries: seq<Entry>, statuses: seq<Status>)
    ensures SortedTo(entries, statuses, entries, 0) && AbsentTo(entries, statuses, [], 0)
  {
  }

  /** Row k belongs to the k-th unfinished intent, and to no other. */
  lemma SortedNext(
    entries: seq<Entry>, active: seq<nat>, statuses: seq<Status>, goal: seq<Entry>, absent: seq<nat>, k: nat)
    requires ListsActive(entries, active) && |statuses| == |active| && k < |active|
    requires SortedTo(entries, statuses, goal, k) && AbsentTo(entries, statuses, absent, k)
    ensures var i := active[k];
            && i < |entries| == |goal| && goal[i] == entries[i]
            && SortedTo(entries, statuses, goal[i := Reached(entries[i], statuses[k])], k + 1)
            && AbsentTo(entries, statuses, if statuses[k].Absent? then absent + [i] else absent, k + 1)
  {
    hide Active, PhaseOf;
    var i := active[k];
    assert RowOf(entries, statuses, i) == statuses[k];
    forall j | 0 <= j < |entries| && Active(entries[j]) && CountActive(entries, j) == k
      ensures j == i
    {
    }
    var more := absent + [i];
    forall j: nat
      ensures j in more <==> j in absent || j == i
    {
      if j == i {
        assert more[|absent|] == i;
      }
    }
  }

  lemma NothingDecided(table: map<Key, Entry>, ids: seq<Key>, maxAttempts: nat)
    ensures Decided(table, ids, [], [], maxAttempts)
    ensures forall id :: Undecided([], [], id)
  {
  }

  /** Every reported phase is a legal move of an unfinished intent. */
  lemma ReportedIsLegal(table: map<Key, Entry>, id: Key, s: Status)
    requires id in table && Active(table[id]) && PhaseOf(s).Some?
    ensures UpdateOk(table, Update(id, PhaseOf(s).value, false))
    ensures UpdatedEntry(table, Update(id, PhaseOf(s).value, false)) == Reached(table[id], s)
  {
  }

  /** The batch positions still waiting for a decision. */
  ghost predicate Waiting(ids: seq<Key>, entries: seq<Entry>, updates: seq<Update>, sends: seq<Key>, at: seq<nat>) {
    && |entries| == |ids|
    && (forall k :: 0 <= k < |at| ==> at[k] < |ids| && Active(entries[at[k]]) && Undecided(updates, sends, ids[at[k]]))
    && forall a, b :: 0 <= a < b < |at| ==> at[a] < at[b]
  }

  lemma WaitingMore(
    ids: seq<Key>, entries: seq<Entry>, updates: seq<Update>, sends: seq<Key>, at: seq<nat>, i: nat, u: Update, send: bool)
    requires Waiting(ids, entries, updates, sends, at) && i < |ids| && u.id == ids[i] && i !in at && Distinct(ids)
    ensures Waiting(ids, entries, updates + [u], if send then sends + [u.id] else sends, at)
  {
    hide Undecided;
    forall k | 0 <= k < |at|
      ensures Undecided(updates + [u], if send then sends + [u.id] else sends, ids[at[k]])
    {
      assert at[k] in at;
      UndecidedMore(updates, sends, u, send, ids[at[k]]);
    }
  }

  lemma WaitingRest(ids: seq<Key>, entries: seq<Entry>, updates: seq<Update>, sends: seq<Key>, at: seq<nat>)
    requires Waiting(ids, entries, updates, sends, at) && |at| > 0
    ensures Waiting(ids, entries, updates, sends, at[1..]) && at[0] !in at[1..]
    ensures at[0] < |ids| && Active(entries[at[0]]) && Undecided(updates, sends, ids[at[0]])
  {
    hide Undecided;
    assert forall k :: 0 <= k < |at[1..]| ==> at[1..][k] == at[k + 1] && at[0] < at[k + 1];
  }

  /** Reported intents move to their phase; absent ones are set aside. */
  method Sort(
    ghost table: map<Key, Entry>, ids: seq<Key>, entries: seq<Entry>, active: seq<nat>, statuses: seq<Status>,
    start: seq<Phase>, maxAttempts: nat)
    returns (fault: Option<Fault>, updates: seq<Update>, absent: seq<nat>, phases: seq<Phase>, ghost goal: seq<Entry>)
    requires LookedUp(table, ids, entries) && |statuses| == |active| && Shows(entries, start)
    requires Waiting(ids, entries, [], [], active) && ListsActive(entries, active)
    ensures fault == if Legible(statuses) then None else Some(RpcInvalid)
    ensures fault.None? ==> Decided(table, ids, updates, [], maxAttempts) && Settling(table, ids, updates, goal)
    ensures fault.None? ==> Shows(goal, phases) && SortedTo(entries, statuses, goal, |active|)
    ensures fault.None? ==> Waiting(ids, entries, updates, [], absent) && AbsentTo(entries, statuses, absent, |active|)
  {
    hide *;
    updates, absent, phases, goal := [], [], start, entries;
    NothingDecided(table, ids, maxAttempts);
    SortStart(table, ids, entries, active, statuses, start, maxAttempts);
    for k := 0 to |active|
      invariant Sorting(table, ids, entries, active, statuses, maxAttempts, k, updates, absent, phases, goal)
    {
      SortAt(table, ids, entries, active, statuses, maxAttempts, k, updates, absent, phases, goal);
      var i := active[k];
      var phase := PhaseOf(statuses[k]);
      if statuses[k].Absent? {
        SortAbsent(table, ids, entries, active, statuses, maxAttempts, k, updates, absent, phases, goal);
        absent := absent + [i];
        continue;
      }
      if phase.None? {
        NotLegible(statuses, k);
        return Some(RpcInvalid), [], [], start, goal;
      }
      SortReported(table, ids, entries, active, statuses, maxAttempts, k, updates, absent, phases, goal);
      if phase.value != entries[i].phase {
        updates := updates + [Update(ids[i], phase.value, false)];
      }
      goal := goal[i := Reached(entries[i], statuses[k])];
      phases := phases[i := phase.value];
    }
    SortEnd(table, ids, entries, active, statuses, maxAttempts, updates, absent, phases, goal);
    fault := None;
  }

  /** The state of the sorting loop after k rows. */
  ghost predicate Sorting(
    table: map<Key, Entry>, ids: seq<Key>, entries: seq<Entry>, active: seq<nat>, statuses: seq<Status>, maxAttempts: nat,
    k: nat, updates: seq<Update>, absent: seq<nat>, phases: seq<Phase>, goal: seq<Entry>)
  {
    && LookedUp(table, ids, entries) && ListsActive(entries, active) && k <= |active| == |statuses|
    && Decided(table, ids, updates, [], maxAttempts) && Settling(table, ids, updates, goal)
    && |goal| == |ids| && Shows(goal, phases)
    && SortedTo(entries, statuses, goal, k) && AbsentTo(entries, statuses, absent, k)
    && Waiting(ids, entries, updates, [], absent + active[k..])
    && forall j :: 0 <= j < k ==> statuses[j].Absent? || PhaseOf(statuses[j]).Some?
  }

  lemma SortStart(
    table: map<Key, Entry>, ids: seq<Key>, entries: seq<Entry>, active: seq<nat>, statuses: seq<Status>,
    start: seq<Phase>, maxAttempts: nat)
    requires LookedUp(table, ids, entries) && |statuses| == |active| && Shows(entries, start)
    requires Waiting(ids, entries, [], [], active) && ListsActive(entries, active)
    ensures Sorting(table, ids, entries, active, statuses, maxAttempts, 0, [], [], start, entries)
  {
    hide Decided, Settling, Waiting, ListsActive, SortedTo, AbsentTo, Shows;
    NothingDecided(table, ids, maxAttempts);
    NothingSorted(entries, statuses);
    SettlingStart(table, ids, entries);
    assert [] + active[0..] == active;
  }

  lemma SortAt(
    table: map<Key, Entry>, ids: seq<Key>, entries: seq<Entry>, active: seq<nat>, statuses: seq<Status>, maxAttempts: nat,
    k: nat, updates: seq<Update>, absent: seq<nat>, phases: seq<Phase>, goal: seq<Entry>)
    requires Sorting(table, ids, entries, active, statuses, maxAttempts, k, updates, absent, phases, goal) && k < |active|
    ensures |statuses| == |active| && active[k] < |entries| == |ids| == |goal| == |phases|
  {
    hide Decided, Settling, Waiting, SortedTo, AbsentTo, PhaseOf, Active;
  }

  lemma NotLegible(statuses: seq<Status>, k: nat)
    requires k < |statuses| && !statuses[k].Absent? && PhaseOf(statuses[k]).None?
    ensures !Legible(statuses)
  {
  }

  lemma SortAbsent(
    table: map<Key, Entry>, ids: seq<Key>, entries: seq<Entry>, active: seq<nat>, statuses: seq<Status>, maxAttempts: nat,
    k: nat, updates: seq<Update>, absent: seq<nat>, phases: seq<Phase>, goal: seq<Entry>)
    requires Sorting(table, ids, entries, active, statuses, maxAttempts, k, updates, absent, phases, goal)
    requires k < |active| && statuses[k].Absent?
    ensures Sorting(table, ids, entries, active, statuses, maxAttempts, k + 1, updates, absent + [active[k]], phases, goal)
  {
    hide LookedUp, Decided, Settling, Waiting, ListsActive, SortedTo, AbsentTo, Shows, PhaseOf;
    SortedNext(entries, active, statuses, goal, absent, k);
    AbsentStays(statuses[k]);
    assert goal[active[k] := entries[active[k]]] == goal;
    assert absent + [active[k]] + active[k + 1..] == absent + active[k..];
  }

  lemma SortReported(
    table: map<Key, Entry>, ids: seq<Key>, entries: seq<Entry>, active: seq<nat>, statuses: seq<Status>, maxAttempts: nat,
    k: nat, updates: seq<Update>, absent: seq<nat>, phases: seq<Phase>, goal: seq<Entry>)
    requires Sorting(table, ids, entries, active, statuses, maxAttempts, k, updates, absent, phases, goal)
    requires k < |active| && !statuses[k].Absent? && PhaseOf(statuses[k]).Some?
    ensures |statuses| == |active| && active[k] < |entries| == |ids| == |goal| == |phases|
    ensures var i, phase := active[k], PhaseOf(statuses[k]).value;
            Sorting(table, ids, entries, active, statuses, maxAttempts, k + 1,
                    if phase != entries[i].phase then updates + [Update(ids[i], phase, false)] else updates,
                    absent, phases[i := phase], goal[i := Reached(entries[i], statuses[k])])
  {
    hide Decided, UpdateOk, Undecided, PhaseOf, Settling, Waiting, ListsActive, SortedTo, AbsentTo, UpdatedEntry, Active;
    hide LookedUp, Shows, UpdatedEntry;
    SortAt(table, ids, entries, active, statuses, maxAttempts, k, updates, absent, phases, goal);
    LookedParts(table, ids, entries);
    var i, phase := active[k], PhaseOf(statuses[k]).value;
    SortedNext(entries, active, statuses, goal, absent, k);
    WaitingWithout(ids, entries, updates, [], absent, active[k..]);
    assert active[k..][1..] == active[k + 1..];
    if phase != entries[i].phase {
      LookedAt(table, ids, entries, i);
      ReportedIsLegal(table, ids[i], statuses[k]);
      SettlingMore(table, ids, updates, goal, i, Update(ids[i], phase, false));
      DecidedMore(table, ids, updates, [], maxAttempts, Update(ids[i], phase, false), false);
      WaitingMore(ids, entries, updates, [], absent + active[k + 1..], i, Update(ids[i], phase, false), false);
    } else {
      assert goal[i := Reached(entries[i], statuses[k])] == goal;
    }
    ShowsNext(goal, phases, i, Reached(entries[i], statuses[k]), phase);
  }

  lemma LookedAt(table: map<Key, Entry>, ids: seq<Key>, entries: seq<Entry>, i: nat)
    requires LookedUp(table, ids, entries) && i < |ids|
    ensures |entries| == |ids| && ids[i] in table && entries[i] == table[ids[i]]
  {
  }

  lemma ShowsNext(goal: seq<Entry>, phases: seq<Phase>, i: nat, e: Entry, phase: Phase)
    requires Shows(goal, phases) && i < |goal| && e.phase == phase
    ensures |phases| == |goal| && Shows(goal[i := e], phases[i := phase])
  {
  }

  lemma SortEnd(
    table: map<Key, Entry>, ids: seq<Key>, entries: seq<Entry>, active: seq<nat>, statuses: seq<Status>, maxAttempts: nat,
    updates: seq<Update>, absent: seq<nat>, phases: seq<Phase>, goal: seq<Entry>)
    requires Sorting(table, ids, entries, active, statuses, maxAttempts, |active|, updates, absent, phases, goal)
    ensures Legible(statuses) && Decided(table, ids, updates, [], maxAttempts) && Settling(table, ids, updates, goal)
    ensures Shows(goal, phases) && SortedTo(entries, statuses, goal, |active|)
    ensures Waiting(ids, entries, updates, [], absent) && AbsentTo(entries, statuses, absent, |active|)
  {
    hide Decided, Settling, Waiting, SortedTo, AbsentTo, PhaseOf, Shows;
    assert absent + active[|active|..] == absent;
  }

  lemma AbsentStays(s: Status)
    ensures s.Absent? ==> PhaseOf(s).None?
  {
  }

  lemma WaitingWithout(
    ids: seq<Key>, entries: seq<Entry>, updates: seq<Update>, sends: seq<Key>, a: seq<nat>, b: seq<nat>)
    requires Waiting(ids, entries, updates, sends, a + b) && |b| > 0
    ensures Waiting(ids, entries, updates, sends, a + b[1..]) && b[0] !in a + b[1..]
    ensures b[0] < |ids| && Active(entries[b[0]]) && Undecided(updates, sends, ids[b[0]])
  {
    hide Undecided;
    var all, rest := a + b, a + b[1..];
    assert all[|a|] == b[0];
    forall k | 0 <= k < |rest|
      ensures rest[k] == all[if k < |a| then k else k + 1]
    {
    }
  }

  lemma AbsentIsLegal(table: map<Key, Entry>, id: Key, attempt: bool, maxAttempts: u32)
    requires id in table && Active(table[id]) && (attempt ==> table[id].attempts < maxAttempts)
    ensures UpdateOk(table, Update(id, Unknown, attempt))
    ensures UpdatedEntry(table, Update(id, Unknown, attempt)) == Retried(table[id], attempt)
  {
  }

  /** Of the first k absent intents exactly those that may be sent are sent. */
  ghost predicate SendsTo(
    ids: seq<Key>, entries: seq<Entry>, absent: seq<nat>, sends: seq<Key>, allowSend: bool, height: nat,
    maxAttempts: nat, k: nat)
    requires |entries| == |ids| && k <= |absent|
  {
    forall i :: 0 <= i < |ids| ==>
      (ids[i] in sends <==> i in absent[..k] && MaySend(entries[i], allowSend, height, maxAttempts))
  }

  /** The first k absent intents have become uncertain. */
  ghost predicate RetriedTo(
    entries: seq<Entry>, absent: seq<nat>, before: seq<Entry>, goal: seq<Entry>, allowSend: bool, height: nat,
    maxAttempts: nat, k: nat)
    requires k <= |absent|
  {
    && |goal| == |before| == |entries|
    && forall i :: 0 <= i < |entries| ==>
         goal[i] == if i in absent[..k] then Retried(entries[i], MaySend(entries[i], allowSend, height, maxAttempts))
                    else before[i]
  }

  lemma RetriedNext(
    ids: seq<Key>, entries: seq<Entry>, absent: seq<nat>, before: seq<Entry>, goal: seq<Entry>, sends: seq<Key>,
    allowSend: bool, height: nat, maxAttempts: nat, k: nat)
    requires |entries| == |ids| && Distinct(ids) && k < |absent| && absent[k] < |ids| && absent[k] !in absent[..k]
    requires RetriedTo(entries, absent, before, goal, allowSend, height, maxAttempts, k)
    requires SendsTo(ids, entries, absent, sends, allowSend, height, maxAttempts, k)
    ensures var i := absent[k]; var send := MaySend(entries[i], allowSend, height, maxAttempts);
            && |goal| == |ids| && goal[i] == before[i]
            && RetriedTo(entries, absent, before, goal[i := Retried(entries[i], send)], allowSend, height, maxAttempts, k + 1)
            && SendsTo(ids, entries, absent, if send then sends + [ids[i]] else sends, allowSend, height, maxAttempts, k + 1)
  {
    hide MaySend;
    var i := absent[k];
    assert absent[..k + 1] == absent[..k] + [i];
    assert forall j :: j in absent[..k + 1] <==> j in absent[..k] || j == i;
    assert forall id :: id in sends + [ids[i]] <==> id in sends || id == ids[i];
  }

  /** Absent intents become uncertain; those that may be sent also count an attempt. */
  method Retry(
    ghost table: map<Key, Entry>, ids: seq<Key>, entries: seq<Entry>, absent: seq<nat>, updates: seq<Update>,
    start: seq<Phase>, ghost before: seq<Entry>, allowSend: bool, height: nat, maxAttempts: u32)
    returns (updates': seq<Update>, sends: seq<Key>, phases: seq<Phase>, ghost goal: seq<Entry>)
    requires LookedUp(table, ids, entries) && Decided(table, ids, updates, [], maxAttempts)
    requires Settling(table, ids, updates, before) && Shows(before, start) && Waiting(ids, entries, updates, [], absent)
    requires forall i :: i in absent ==> i < |before| && i < |entries| && before[i] == entries[i]
    ensures Decided(table, ids, updates', sends, maxAttempts) && Settling(table, ids, updates', goal) && Shows(goal, phases)
    ensures RetriedTo(entries, absent, before, goal, allowSend, height, maxAttempts, |absent|)
    ensures SendsTo(ids, entries, absent, sends, allowSend, height, maxAttempts, |absent|)
  {
    hide Decided, UpdateOk, Undecided, Settling, MaySend, Waiting, RetriedTo, SendsTo, UpdatedEntry;
    updates', sends, phases, goal := updates, [], start, before;
    SettlingLength(table, ids, updates, before);
    NothingRetried(ids, entries, absent, before, allowSend, height, maxAttempts);
    assert absent[0..] == absent;
    for k := 0 to |absent|
      invariant Decided(table, ids, updates', sends, maxAttempts) && Settling(table, ids, updates', goal)
      invariant |goal| == |ids| && Shows(goal, phases) && Waiting(ids, entries, updates', sends, absent[k..])
      invariant RetriedTo(entries, absent, before, goal, allowSend, height, maxAttempts, k)
      invariant SendsTo(ids, entries, absent, sends, allowSend, height, maxAttempts, k)
    {
      var i := absent[k];
      WaitingRest(ids, entries, updates', sends, absent[k..]);
      AbsentOnce(ids, entries, updates, absent, k);
      assert absent[k..][0] == i && absent[k..][1..] == absent[k + 1..];
      RetriedNext(ids, entries, absent, before, goal, sends, allowSend, height, maxAttempts, k);
      var e := entries[i];
      var attempt := MaySend(e, allowSend, height, maxAttempts);
      if attempt {
        MaySendMeans(e, allowSend, height, maxAttempts);
      }
      if attempt || e.phase != Unknown {
        var u := Update(ids[i], Unknown, attempt);
        AbsentIsLegal(table, ids[i], attempt, maxAttempts);
        SettlingMore(table, ids, updates', goal, i, u);
        DecidedMore(table, ids, updates', sends, maxAttempts, u, attempt);
        WaitingMore(ids, entries, updates', sends, absent[k + 1..], i, u, attempt);
        updates' := updates' + [u];
        if attempt {
          sends := sends + [ids[i]];
        }
      } else {
        assert goal[i := Retried(e, attempt)] == goal;
      }
      goal := goal[i := Retried(e, attempt)];
      phases := phases[i := Unknown];
    }
  }

  lemma NothingRetried(
    ids: seq<Key>, entries: seq<Entry>, absent: seq<nat>, before: seq<Entry>, allowSend: bool, height: nat,
    maxAttempts: nat)
    requires |before| == |entries| == |ids|
    ensures RetriedTo(entries, absent, before, before, allowSend, height, maxAttempts, 0)
    ensures SendsTo(ids, entries, absent, [], allowSend, height, maxAttempts, 0)
  {
  }

  lemma AbsentOnce(ids: seq<Key>, entries: seq<Entry>, updates: seq<Update>, absent: seq<nat>, k: nat)
    requires Waiting(ids, entries, updates, [], absent) && k < |absent|
    ensures absent[k] !in absent[..k]
  {
    hide Undecided;
  }

  lemma MaySendMeans(e: Entry, allowSend: bool, height: nat, maxAttempts: nat)
    requires MaySend(e, allowSend, height, maxAttempts)
    ensures allowSend && e.attempts < maxAttempts
  {
  }

  // ---------------------------------------------------------------- attempts and transmissions

  /** Every transmission is covered by a durable attempt, and attempts stay bounded. */
  ghost predicate Covered(es: map<Key, Entry>, sent: multiset<Key>, maxAttempts: nat) {
    && (forall id :: id in es ==> sent[id] <= es[id].attempts <= maxAttempts)
    && forall id :: id in sent ==> id in es
  }

  /** Reopening the file would show at least one attempt for every transmission, and
      never more attempts than allowed. */
  ghost predicate CoveredBy(f: Format, disk: seq<byte>, capacity: nat, sent: multiset<Key>, maxAttempts: nat) {
    exists es :: Reopens(f, disk, capacity, es) && Covered(es, sent, maxAttempts)
  }

  lemma CoverIntro(f: Format, disk: seq<byte>, capacity: nat, sent: multiset<Key>, maxAttempts: nat, es: map<Key, Entry>)
    requires Reopens(f, disk, capacity, es) && Covered(es, sent, maxAttempts)
    ensures CoveredBy(f, disk, capacity, sent, maxAttempts)
  {
    hide Reopens, Covered;
  }

  /** Legal updates that count an attempt only below the limit. */
  ghost predicate SafeUpdates(table: map<Key, Entry>, updates: seq<Update>, maxAttempts: nat) {
    && (forall i :: 0 <= i < |updates| ==> UpdateOk(table, updates[i]))
    && (forall i, j :: 0 <= i < j < |updates| ==> updates[i].id != updates[j].id)
    && forall i :: 0 <= i < |updates| && updates[i].attempt ==> table[updates[i].id].attempts < maxAttempts
  }

  lemma UpdatesShape(table: map<Key, Entry>, updates: seq<Update>, maxAttempts: nat, m: nat)
    requires SafeUpdates(table, updates, maxAttempts) && Keyed(table) && m <= |updates|
    ensures var part := UpdatedEntries(table, updates)[..m];
            && DistinctIds(part)
            && (forall i :: 0 <= i < m ==> part[i].id == updates[i].id && part[i].id in table)
            && forall i :: 0 <= i < m ==>
                 table[part[i].id].attempts <= part[i].attempts
                 && (part[i].attempts <= maxAttempts || part[i].attempts == table[part[i].id].attempts)
  {
  }

  /** Applying any prefix of safe updates keeps every transmission covered. */
  lemma CoveredUpdates(
    table: map<Key, Entry>, updates: seq<Update>, sent: multiset<Key>, maxAttempts: nat, m: nat)
    requires SafeUpdates(table, updates, maxAttempts) && Covered(table, sent, maxAttempts) && m <= |updates|
    requires Keyed(table)
    ensures Covered(Apply(table, UpdatedEntries(table, updates)[..m]), sent, maxAttempts)
  {
    UpdatesShape(table, updates, maxAttempts, m);
    var part := UpdatedEntries(table, updates)[..m];
    hide SafeUpdates, Apply, Mentions, UpdatedEntries;
    ApplyUpdates(table, part);
    forall id | id in table
      ensures sent[id] <= Apply(table, part)[id].attempts <= maxAttempts
    {
      if Mentions(part, id) {
        var i := MentionedAt(part, id);
        ApplyAt(table, part, i);
      } else {
        ApplyOther(table, part, id);
      }
    }
  }

  /** After the batch, an updated intent is in its new state. */
  lemma UpdatedAt(table: map<Key, Entry>, updates: seq<Update>, i: nat)
    requires (forall j :: 0 <= j < |updates| ==> UpdateOk(table, updates[j])) && Keyed(table)
    requires (forall j, k :: 0 <= j < k < |updates| ==> updates[j].id != updates[k].id) && i < |updates|
    ensures updates[i].id in Apply(table, UpdatedEntries(table, updates))
    ensures Apply(table, UpdatedEntries(table, updates))[updates[i].id] == UpdatedEntry(table, updates[i])
  {
    var pending := UpdatedEntries(table, updates);
    assert pending[i] == UpdatedEntry(table, updates[i]) && pending[i].id == updates[i].id;
    ApplyAt(table, pending, i);
  }

  /** Overwrite the phase of one intent of the batch. */
  function Marked(ids: seq<Key>, phases: seq<Phase>, id: Key, p: Phase): (r: seq<Phase>)
    requires |ids| == |phases|
    ensures |r| == |ids|
  {
    seq(|ids|, i requires 0 <= i < |ids| => if ids[i] == id then p else phases[i])
  }

  /** The batch after the acknowledgements of some sent intents. */
  ghost function AfterAcks(ids: seq<Key>, start: seq<Entry>, sent: seq<Key>, acknowledged: Key -> bool): (r: seq<Entry>)
    requires |ids| == |start|
    ensures |r| == |ids|
  {
    seq(|ids|, i requires 0 <= i < |ids| =>
      if ids[i] in sent && acknowledged(ids[i]) then start[i].(phase := Submitted) else start[i])
  }

  /** Acknowledgements collected so far: safe updates of transmitted intents. */
  ghost predicate Acknowledging(
    table: map<Key, Entry>, ids: seq<Key>, sent: seq<Key>, updates: seq<Update>, goal: seq<Entry>, maxAttempts: nat)
  {
    && SafeUpdates(table, updates, maxAttempts) && Settling(table, ids, updates, goal)
    && forall u :: 0 <= u < |updates| ==> updates[u].id in sent
  }

  lemma AcknowledgingParts(
    table: map<Key, Entry>, ids: seq<Key>, sent: seq<Key>, updates: seq<Update>, goal: seq<Entry>, maxAttempts: nat)
    requires Acknowledging(table, ids, sent, updates, goal, maxAttempts)
    requires forall k :: 0 <= k < |sent| ==> sent[k] in ids
    ensures SafeUpdates(table, updates, maxAttempts) && Settling(table, ids, updates, goal)
    ensures forall u :: 0 <= u < |updates| ==> updates[u].id in ids
  {
    hide UpdateOk, Settling;
  }

  /** One acknowledgement more, or none. */
  lemma Acknowledged(
    table: map<Key, Entry>, ids: seq<Key>, start: seq<Entry>, sent: seq<Key>, updates: seq<Update>, phases: seq<Phase>,
    acknowledged: Key -> bool, maxAttempts: nat, id: Key)
    requires |start| == |ids| && Distinct(ids) && (forall i :: 0 <= i < |ids| ==> ids[i] in table && start[i] == table[ids[i]])
    requires Acknowledging(table, ids, sent, updates, AfterAcks(ids, start, sent, acknowledged), maxAttempts)
    requires Shows(AfterAcks(ids, start, sent, acknowledged), phases)
    requires id in ids && id !in sent && id in table && table[id].phase == Unknown
    ensures var more := if acknowledged(id) then updates + [Update(id, Submitted, false)] else updates;
            var shown := if acknowledged(id) then Marked(ids, phases, id, Submitted) else phases;
            var after := AfterAcks(ids, start, sent + [id], acknowledged);
            Acknowledging(table, ids, sent + [id], more, after, maxAttempts) && Shows(after, shown)
  {
    var u := Update(id, Submitted, false);
    var i :| 0 <= i < |ids| && ids[i] == id;
    var goal, after := AfterAcks(ids, start, sent, acknowledged), AfterAcks(ids, start, sent + [id], acknowledged);
    assert UpdateOk(table, u) && UpdatedEntry(table, u) == table[id].(phase := Submitted);
    assert forall x :: x in sent + [id] <==> x in sent || x == id;
    hide UpdateOk, UpdatedEntry, Settling;
    if acknowledged(id) {
      SettlingMore(table, ids, updates, goal, i, u);
      assert after == goal[i := table[id].(phase := Submitted)];
    } else {
      assert after == goal;
    }
  }

  /** `active` lists the unfinished intents among the first n. */
  ghost predicate ListedTo(entries: seq<Entry>, active: seq<nat>, n: nat)
    requires n <= |entries|
  {
    && |active| == CountActive(entries, n)
    && (forall k :: 0 <= k < |active| ==> active[k] < n && Active(entries[active[k]]) && CountActive(entries, active[k]) == k)
    && (forall a, b :: 0 <= a < b < |active| ==> active[a] < active[b])
    && forall i :: 0 <= i < n && Active(entries[i]) ==>
         CountActive(entries, i) < |active| && active[CountActive(entries, i)] == i
  }

  lemma ListedNone(entries: seq<Entry>)
    ensures ListedTo(entries, [], 0)
  {
  }

  lemma ListedNext(entries: seq<Entry>, active: seq<nat>, n: nat)
    requires n < |entries| && ListedTo(entries, active, n)
    ensures ListedTo(entries, if Active(entries[n]) then active + [n] else active, n + 1)
  {
    hide Active, CountActive;
    CountNext(entries, n);
    if Active(entries[n]) {
      var more := active + [n];
      assert more[|active|] == n && CountActive(entries, n) == |active|;
      assert forall k :: 0 <= k < |active| ==> more[k] == active[k];
      forall i | 0 <= i < n + 1 && Active(entries[i])
        ensures CountActive(entries, i) < |more| && more[CountActive(entries, i)] == i
      {
      }
    }
  }

  lemma CountNext(entries: seq<Entry>, n: nat)
    requires n < |entries|
    ensures CountActive(entries, n + 1) == CountActive(entries, n) + if Active(entries[n]) then 1 else 0
  {
  }

  lemma ListedAll(entries: seq<Entry>, ids: seq<Key>, active: seq<nat>)
    requires |entries| == |ids| && ListedTo(entries, active, |entries|)
    ensures ListsActive(entries, active) && Waiting(ids, entries, [], [], active)
  {
  }

  /** The unfinished intents of a batch, and all present phases. */
  method Unfinished(ghost table: map<Key, Entry>, ids: seq<Key>, entries: seq<Entry>)
    returns (active: seq<nat>, phases: seq<Phase>)
    requires LookedUp(table, ids, entries)
    ensures Waiting(ids, entries, [], [], active) && Shows(entries, phases) && ListsActive(entries, active)
  {
    hide *;
    LookedParts(table, ids, entries);
    active, phases := [], [];
    ListedNone(entries);
    for i := 0 to |entries|
      invariant |phases| == i && forall j :: 0 <= j < i ==> phases[j] == entries[j].phase
      invariant ListedTo(entries, active, i)
    {
      ListedNext(entries, active, i);
      phases := phases + [entries[i].phase];
      if Active(entries[i]) {
        active := active + [i];
      }
    }
    ListedAll(entries, ids, active);
    ShowsIntro(entries, phases);
  }

  lemma ShowsIntro(entries: seq<Entry>, phases: seq<Phase>)
    requires |phases| == |entries| && forall j :: 0 <= j < |entries| ==> phases[j] == entries[j].phase
    ensures Shows(entries, phases)
  {
  }

  function KeySet(xs: seq<Key>): (s: set<Key>)
    ensures forall x :: x in s <==> x in xs
  {
    if |xs| == 0 then {} else
      assert xs == xs[..|xs| - 1] + [xs[|xs| - 1]];
      KeySet(xs[..|xs| - 1]) + {xs[|xs| - 1]}
  }

  lemma {:induction false} KeySetSize(xs: seq<Key>)
    ensures |KeySet(xs)| <= |xs| && (Distinct(xs) ==> |KeySet(xs)| == |xs|)
  {
    if |xs| > 0 {
      var n := |xs| - 1;
      KeySetSize(xs[..n]);
      if Distinct(xs) {
        assert Distinct(xs[..n]) && xs[n] !in xs[..n];
      }
    }
  }

  lemma NoMoreThan(updates: seq<Update>, ids: seq<Key>)
    requires forall i, j :: 0 <= i < j < |updates| ==> updates[i].id != updates[j].id
    requires forall i :: 0 <= i < |updates| ==> updates[i].id in ids
    ensures |updates| <= |ids|
  {
    var xs := seq(|updates|, i requires 0 <= i < |updates| => updates[i].id);
    FewerKeys(xs, ids);
  }

  lemma DecidedParts(table: map<Key, Entry>, ids: seq<Key>, updates: seq<Update>, sends: seq<Key>, maxAttempts: nat)
    requires Decided(table, ids, updates, sends, maxAttempts)
    ensures SafeUpdates(table, updates, maxAttempts) && |updates| <= |ids| && Distinct(sends) && |sends| <= |ids|
    ensures forall k :: 0 <= k < |sends| ==> Attempted(updates, sends[k]) && sends[k] in ids
    ensures forall u :: 0 <= u < |updates| ==> updates[u].id in ids
  {
    hide UpdateOk;
    NoMoreThan(updates, ids);
    forall k | 0 <= k < |sends|
      ensures sends[k] in ids
    {
      assert Attempted(updates, sends[k]);
    }
    FewerKeys(sends, ids);
  }

  lemma FewerKeys(xs: seq<Key>, ys: seq<Key>)
    requires Distinct(xs) && forall i :: 0 <= i < |xs| ==> xs[i] in ys
    ensures |xs| <= |ys|
  {
    KeySetSize(xs);
    KeySetSize(ys);
    var a, b := KeySet(xs), KeySet(ys);
    assert a <= b;
    assert b == a + (b - a);
  }

  lemma LookedParts(table: map<Key, Entry>, ids: seq<Key>, entries: seq<Entry>)
    requires LookedUp(table, ids, entries)
    ensures Distinct(ids) && |entries| == |ids|
  {
  }

  lemma AttemptedSome(updates: seq<Update>, id: Key)
    requires Attempted(updates, id)
    ensures |updates| > 0
  {
  }

  lemma NothingToSend(updates: seq<Update>, sends: seq<Key>)
    requires |updates| == 0 && forall k :: 0 <= k < |sends| ==> Attempted(updates, sends[k])
    ensures sends == []
  {
    if |sends| > 0 {
      AttemptedSome(updates, sends[0]);
    }
  }

  /** Once the updates are recorded, the batch is what was foreseen, and nothing else moved. */
  lemma Settled(table: map<Key, Entry>, ids: seq<Key>, updates: seq<Update>, goal: seq<Entry>, maxAttempts: nat)
    requires Settling(table, ids, updates, goal) && SafeUpdates(table, updates, maxAttempts) && Keyed(table)
    requires forall u :: 0 <= u < |updates| ==> updates[u].id in ids
    ensures |goal| == |ids|
    ensures var after := Apply(table, UpdatedEntries(table, updates));
            && (forall i :: 0 <= i < |ids| ==> ids[i] in after && after[ids[i]] == goal[i])
            && SameElsewhere(table, after, ids)
  {
    var pending, after := UpdatedEntries(table, updates), Apply(table, UpdatedEntries(table, updates));
    UpdatesShape(table, updates, maxAttempts, |updates|);
    assert pending[..|updates|] == pending;
    hide Apply, UpdateOk, UpdatedEntry, UpdatedEntries;
    forall i | 0 <= i < |ids|
      ensures ids[i] in after && after[ids[i]] == goal[i]
    {
      assert Moves(table, updates, ids[i], goal[i]);
      if u :| 0 <= u < |updates| && updates[u].id == ids[i] {
        UpdatedAt(table, updates, u);
      } else {
        ApplyOther(table, pending, ids[i]);
      }
    }
    forall id: Key | id !in ids
      ensures id in after <==> id in table
      ensures id in table ==> after[id] == table[id]
    {
      ApplyOther(table, pending, id);
    }
  }

  ghost predicate SameElsewhere(table: map<Key, Entry>, after: map<Key, Entry>, ids: seq<Key>) {
    forall id: Key :: id !in ids ==> (id in after <==> id in table) && (id in table ==> after[id] == table[id])
  }

  lemma SameTwice(a: map<Key, Entry>, b: map<Key, Entry>, c: map<Key, Entry>, ids: seq<Key>)
    requires SameElsewhere(a, b, ids) && SameElsewhere(b, c, ids)
    ensures SameElsewhere(a, c, ids)
  {
  }

  // ---------------------------------------------------------------- what a batch must do

  ghost function EntriesOf(table: map<Key, Entry>, ids: seq<Key>): (r: seq<Entry>)
    requires forall i :: 0 <= i < |ids| ==> ids[i] in table
    ensures |r| == |ids| && forall i :: 0 <= i < |ids| ==> r[i] == table[ids[i]]
  {
    seq(|ids|, i requires 0 <= i < |ids| => table[ids[i]])
  }

  function Rows(answers: Answers): seq<Status> {
    if answers.statuses.Some? then answers.statuses.value else []
  }

  function HeightOf(answers: Answers): nat {
    if answers.height.Some? then answers.height.value else 0
  }

  ghost predicate Known(table: map<Key, Entry>, ids: seq<Key>) {
    0 < |ids| <= MAX_BATCH && Distinct(ids) && forall i :: 0 <= i < |ids| ==> ids[i] in table
  }

  /** Intent i of the batch is transmitted: unfinished, absent, and still allowed. */
  ghost predicate Transmits(
    entries: seq<Entry>, answers: Answers, allowSend: bool, maxAttempts: nat, i: nat)
    requires i < |entries|
  {
    && Active(entries[i]) && RowOf(entries, Rows(answers), i).Absent?
    && MaySend(entries[i], allowSend, HeightOf(answers), maxAttempts)
  }

  /** Everything a batch needs to be answered: known intents and, unless all are
      finished, verified wires and a complete, legible reply. */
  ghost predicate Answerable(
    table: map<Key, Entry>, ids: seq<Key>, verifies: Entry -> bool, answers: Answers, allowSend: bool)
  {
    && Known(table, ids)
    && var entries := EntriesOf(table, ids);
       CountActive(entries, |ids|) > 0 ==>
         && (forall i :: 0 <= i < |ids| && Active(entries[i]) ==> verifies(entries[i]))
         && answers.genesis && answers.statuses.Some? && |Rows(answers)| == CountActive(entries, |ids|)
         && Legible(Rows(answers))
         && (allowSend && answers.height.None? ==>
               forall i :: 0 <= i < |ids| && Active(entries[i]) ==> !RowOf(entries, Rows(answers), i).Absent?)
  }

  /** Every intent of the batch is what its row makes of it. */
  ghost predicate Progressed(
    table: map<Key, Entry>, ids: seq<Key>, answers: Answers, allowSend: bool, maxAttempts: nat, after: map<Key, Entry>)
    requires Known(table, ids)
  {
    var entries := EntriesOf(table, ids);
    && SameElsewhere(table, after, ids)
    && forall i :: 0 <= i < |ids| ==>
         && ids[i] in after
         && after[ids[i]] == Answered(entries[i], RowOf(entries, Rows(answers), i),
                                      MaySend(entries[i], allowSend, HeightOf(answers), maxAttempts),
                                      answers.acknowledged(ids[i]))
  }

  /** The phases reported for a batch are those of the table. */
  ghost predicate PhasesOf(table: map<Key, Entry>, ids: seq<Key>, phases: seq<Phase>) {
    |phases| == |ids| && forall i :: 0 <= i < |ids| ==> ids[i] in table && phases[i] == table[ids[i]].phase
  }

  /** Rows applied, absent intents retried, acknowledgements taken: the batch progressed. */
  lemma ProgressIs(
    ids: seq<Key>, entries: seq<Entry>, statuses: seq<Status>, active: seq<nat>, absent: seq<nat>,
    sorted: seq<Entry>, goal: seq<Entry>, sends: seq<Key>, acknowledged: Key -> bool,
    allowSend: bool, height: nat, maxAttempts: nat, i: nat)
    requires |entries| == |ids| && ListsActive(entries, active) && |statuses| == |active| && i < |ids|
    requires SortedTo(entries, statuses, sorted, |active|) && AbsentTo(entries, statuses, absent, |active|)
    requires RetriedTo(entries, absent, sorted, goal, allowSend, height, maxAttempts, |absent|)
    requires SendsTo(ids, entries, absent, sends, allowSend, height, maxAttempts, |absent|)
    ensures |goal| == |ids|
    ensures AfterAcks(ids, goal, sends, acknowledged)[i]
         == Answered(entries[i], RowOf(entries, statuses, i), MaySend(entries[i], allowSend, height, maxAttempts),
                     acknowledged(ids[i]))
    ensures ids[i] in sends <==>
              && Active(entries[i]) && RowOf(entries, statuses, i).Absent?
              && MaySend(entries[i], allowSend, height, maxAttempts)
  {
    hide PhaseOf, MaySend, CountActive, Active;
    assert absent[..|absent|] == absent;
    assert i in absent <==> Active(entries[i]) && RowOf(entries, statuses, i).Absent?;
    AbsentStays(RowOf(entries, statuses, i));
  }

  /** The batch transmits intent id. */
  ghost predicate Due(
    table: map<Key, Entry>, ids: seq<Key>, answers: Answers, allowSend: bool, maxAttempts: nat, id: Key)
    requires Known(table, ids)
  {
    exists i :: 0 <= i < |ids| && ids[i] == id && Transmits(EntriesOf(table, ids), answers, allowSend, maxAttempts, i)
  }

  lemma KnownWhen(table: map<Key, Entry>, ids: seq<Key>, verifies: Entry -> bool, answers: Answers, allowSend: bool)
    ensures Answerable(table, ids, verifies, answers, allowSend) ==>
              Known(table, ids) && forall i :: 0 <= i < |ids| ==> ids[i] in table
  {
  }

  lemma KnownParts(table: map<Key, Entry>, ids: seq<Key>)
    requires Known(table, ids)
    ensures 0 < |ids| <= MAX_BATCH
  {
  }

  lemma RefusalsDiffer()
    ensures !IoFault(PhaseRefused) && !IoFault(AttemptOverflow)
  {
  }

  /** Without permission to send, the height does not matter. */
  lemma HeightOnlyForSending(
    ids: seq<Key>, entries: seq<Entry>, absent: seq<nat>, sorted: seq<Entry>, goal: seq<Entry>, sends: seq<Key>,
    allowSend: bool, height: nat, answers: Answers, maxAttempts: nat)
    requires |entries| == |ids| && height == if allowSend then HeightOf(answers) else U64_MAX
    requires RetriedTo(entries, absent, sorted, goal, allowSend, height, maxAttempts, |absent|)
    requires SendsTo(ids, entries, absent, sends, allowSend, height, maxAttempts, |absent|)
    ensures RetriedTo(entries, absent, sorted, goal, allowSend, HeightOf(answers), maxAttempts, |absent|)
    ensures SendsTo(ids, entries, absent, sends, allowSend, HeightOf(answers), maxAttempts, |absent|)
  {
  }

  lemma PhasesShown(table: map<Key, Entry>, ids: seq<Key>, after: seq<Entry>, phases: seq<Phase>)
    requires |after| == |ids| && Shows(after, phases)
    requires forall i :: 0 <= i < |ids| ==> ids[i] in table && table[ids[i]] == after[i]
    ensures PhasesOf(table, ids, phases)
  {
  }

  lemma NotKnown(table: map<Key, Entry>, ids: seq<Key>, verifies: Entry -> bool, answers: Answers, allowSend: bool)
    requires |ids| == 0 || |ids| > MAX_BATCH || !Distinct(ids) || exists i :: 0 <= i < |ids| && ids[i] !in table
    ensures !Answerable(table, ids, verifies, answers, allowSend)
  {
  }

  lemma BatchKnown(table: map<Key, Entry>, ids: seq<Key>, entries: seq<Entry>, active: seq<nat>)
    requires LookedUp(table, ids, entries) && 0 < |ids| <= MAX_BATCH && ListsActive(entries, active)
    ensures Known(table, ids) && |entries| == |ids| && (forall i :: 0 <= i < |ids| ==> ids[i] in table)
    ensures entries == EntriesOf(table, ids) && |active| == CountActive(entries, |entries|)
  {
  }

  lemma NotVerified(
    table: map<Key, Entry>, ids: seq<Key>, entries: seq<Entry>, active: seq<nat>, verifies: Entry -> bool,
    answers: Answers, allowSend: bool)
    requires LookedUp(table, ids, entries) && ListsActive(entries, active) && |active| > 0
    requires !forall k :: 0 <= k < |active| ==> active[k] < |entries| && verifies(entries[active[k]])
    ensures !Answerable(table, ids, verifies, answers, allowSend)
  {
    if Known(table, ids) {
      assert entries == EntriesOf(table, ids);
    }
  }

  lemma NotComplete(
    table: map<Key, Entry>, ids: seq<Key>, entries: seq<Entry>, active: seq<nat>, verifies: Entry -> bool,
    answers: Answers, allowSend: bool)
    requires LookedUp(table, ids, entries) && ListsActive(entries, active) && |active| > 0
    requires !answers.genesis || answers.statuses.None? || |answers.statuses.value| != |active|
             || !Legible(answers.statuses.value)
    ensures !Answerable(table, ids, verifies, answers, allowSend)
  {
    if Known(table, ids) {
      assert entries == EntriesOf(table, ids);
    }
  }

  /** A complete reply makes the batch answerable, unless a needed height is missing. */
  lemma AbsentRows(
    table: map<Key, Entry>, ids: seq<Key>, entries: seq<Entry>, active: seq<nat>, verifies: Entry -> bool,
    answers: Answers, allowSend: bool, absent: seq<nat>, sorted: seq<Entry>)
    requires LookedUp(table, ids, entries) && 0 < |ids| <= MAX_BATCH && ListsActive(entries, active) && |active| > 0
    requires forall k :: 0 <= k < |active| ==> active[k] < |entries| && verifies(entries[active[k]])
    requires answers.genesis && answers.statuses.Some? && |answers.statuses.value| == |active|
    requires Legible(answers.statuses.value) && AbsentTo(entries, answers.statuses.value, absent, |active|)
    requires SortedTo(entries, answers.statuses.value, sorted, |active|)
    ensures |absent| > 0 && allowSend && answers.height.None? <==> !Answerable(table, ids, verifies, answers, allowSend)
    ensures forall i :: i in absent ==> i < |sorted| && i < |entries| && sorted[i] == entries[i]
  {
    hide Legible, Active;
    assert entries == EntriesOf(table, ids);
    if |absent| > 0 {
      assert absent[0] in absent;
    }
    forall i | i in absent
      ensures i < |sorted| && i < |entries| && sorted[i] == entries[i]
    {
      AbsentStays(RowOf(entries, answers.statuses.value, i));
    }
  }

  lemma AllFinished(
    table: map<Key, Entry>, ids: seq<Key>, entries: seq<Entry>, answers: Answers, allowSend: bool, maxAttempts: nat,
    verifies: Entry -> bool)
    requires LookedUp(table, ids, entries) && 0 < |ids| <= MAX_BATCH && CountActive(entries, |entries|) == 0
    ensures Known(table, ids) && (forall i :: 0 <= i < |ids| ==> ids[i] in table)
    ensures Answerable(table, ids, verifies, answers, allowSend)
    ensures Progressed(table, ids, answers, allowSend, maxAttempts, table)
    ensures forall id :: !Due(table, ids, answers, allowSend, maxAttempts, id)
  {
    assert entries == EntriesOf(table, ids);
    forall i | 0 <= i < |ids|
      ensures !Active(entries[i])
    {
      CountGrows(entries, i, |entries|);
    }
    hide Active, MaySend, Legible, RowOf, Rows;
  }

  lemma PhasesAre(table: map<Key, Entry>, ids: seq<Key>, entries: seq<Entry>, phases: seq<Phase>)
    requires LookedUp(table, ids, entries) && Shows(entries, phases)
    ensures PhasesOf(table, ids, phases)
  {
  }

  lemma NothingApplied(table: map<Key, Entry>, updates: seq<Update>)
    requires |updates| == 0
    ensures Apply(table, UpdatedEntries(table, updates)) == table
  {
  }

  lemma NobodySent(ids: seq<Key>, goal: seq<Entry>, acknowledged: Key -> bool)
    requires |goal| == |ids|
    ensures AfterAcks(ids, goal, [], acknowledged) == goal
  {
  }

  lemma NothingAcknowledged(
    table: map<Key, Entry>, ids: seq<Key>, goal: seq<Entry>, acknowledged: Key -> bool, maxAttempts: nat)
    requires |goal| == |ids| && forall i :: 0 <= i < |ids| ==> ids[i] in table && goal[i] == table[ids[i]]
    ensures Acknowledging(table, ids, [], [], AfterAcks(ids, goal, [], acknowledged), maxAttempts)
    ensures AfterAcks(ids, goal, [], acknowledged) == goal
  {
    NobodySent(ids, goal, acknowledged);
    SettlingStart(table, ids, goal);
  }

  lemma NobodyTransmits(table: map<Key, Entry>, ids: seq<Key>, answers: Answers, maxAttempts: nat)
    ensures Known(table, ids) ==> forall id :: !Due(table, ids, answers, false, maxAttempts, id)
  {
    hide Active, RowOf, Rows;
  }

  lemma RetriedLength(
    entries: seq<Entry>, absent: seq<nat>, before: seq<Entry>, goal: seq<Entry>, allowSend: bool, height: nat,
    maxAttempts: nat, k: nat)
    requires k <= |absent| && RetriedTo(entries, absent, before, goal, allowSend, height, maxAttempts, k)
    ensures |goal| == |entries|
  {
  }

  /** The pieces of a batch put together. */
  lemma BatchProgress(
    table: map<Key, Entry>, ids: seq<Key>, entries: seq<Entry>, active: seq<nat>, absent: seq<nat>,
    sorted: seq<Entry>, goal: seq<Entry>, sends: seq<Key>, answers: Answers, allowSend: bool, maxAttempts: nat)
    requires LookedUp(table, ids, entries) && ListsActive(entries, active) && Known(table, ids)
    requires answers.statuses.Some? && |answers.statuses.value| == |active|
    requires SortedTo(entries, answers.statuses.value, sorted, |active|)
    requires AbsentTo(entries, answers.statuses.value, absent, |active|)
    requires RetriedTo(entries, absent, sorted, goal, allowSend, HeightOf(answers), maxAttempts, |absent|)
    requires SendsTo(ids, entries, absent, sends, allowSend, HeightOf(answers), maxAttempts, |absent|)
    requires forall k :: 0 <= k < |sends| ==> sends[k] in ids
    ensures |goal| == |ids|
    ensures forall id :: id in sends <==> Due(table, ids, answers, allowSend, maxAttempts, id)
    ensures forall after: map<Key, Entry> ::
              SameElsewhere(table, after, ids)
              && (forall i :: 0 <= i < |ids| ==>
                    ids[i] in after && after[ids[i]] == AfterAcks(ids, goal, sends, answers.acknowledged)[i]) ==>
                Progressed(table, ids, answers, allowSend, maxAttempts, after)
  {
    hide SortedTo, AbsentTo, RetriedTo, SendsTo, ListsActive, SameElsewhere, MaySend, Active, RowOf, Answered, AfterAcks;
    RetriedLength(entries, absent, sorted, goal, allowSend, HeightOf(answers), maxAttempts, |absent|);
    assert entries == EntriesOf(table, ids);
    forall i | 0 <= i < |ids|
      ensures |goal| == |ids|
      ensures AfterAcks(ids, goal, sends, answers.acknowledged)[i]
           == Answered(entries[i], RowOf(entries, Rows(answers), i),
                       MaySend(entries[i], allowSend, HeightOf(answers), maxAttempts), answers.acknowledged(ids[i]))
      ensures ids[i] in sends <==> Transmits(entries, answers, allowSend, maxAttempts, i)
    {
      ProgressIs(ids, entries, answers.statuses.value, active, absent, sorted, goal, sends, answers.acknowledged,
                 allowSend, HeightOf(answers), maxAttempts, i);
    }
  }

  class Sender {
    var journal: Journal
    const maxAttempts: u32
    /** Whether an entry's persisted wire, hash and signature verify. */
    const verifies: Entry -> bool
    ghost var sent: multiset<Key>

    /** Whatever happened so far, the file on disk covers every transmission ever made. */
    ghost predicate Disciplined()
      reads this, journal
    {
      CoveredBy(journal.format, journal.disk, journal.capacity, sent, maxAttempts)
    }

    ghost predicate Valid()
      reads this, journal
    {
      && journal.Valid() && 0 < journal.capacity <= 4096 && 4096 <= journal.maxBytes <= MAX_JOURNAL
      && Disciplined()
    }

    constructor (journal: Journal, maxAttempts: u32, verifies: Entry -> bool)
      requires journal.Valid() && 0 < journal.capacity <= 4096 && 4096 <= journal.maxBytes <= MAX_JOURNAL
      requires !journal.poisoned && journal.entries == map[]
      ensures Valid() && this.journal == journal && sent == multiset{}
    {
      this.journal, this.maxAttempts, this.verifies := journal, maxAttempts, verifies;
      sent := multiset{};
      new;
      assert Reopens(journal.format, journal.disk, journal.capacity, journal.entries);
    }

    /** A healthy journal's memory is the reopened table. */
    lemma Healthy()
      requires Valid() && !journal.poisoned
      ensures Covered(journal.entries, sent, maxAttempts) && Keyed(journal.entries)
      ensures Reopens(journal.format, journal.disk, journal.capacity, journal.entries)
    {
    }

    lemma HealthyIf()
      requires Valid()
      ensures !journal.poisoned ==> Covered(journal.entries, sent, maxAttempts)
      ensures Keyed(journal.entries)
      ensures journal.Valid() && 0 < journal.capacity <= 4096 && 4096 <= journal.maxBytes <= MAX_JOURNAL
      ensures CoveredBy(journal.format, journal.disk, journal.capacity, sent, maxAttempts)
    {
    }

    /** Whatever the network answered and however often the process crashed, no intent
        was transmitted more often than allowed, nor more often than any reopening of
        the file shows attempts. */
    lemma SendsBounded(entries: map<Key, Entry>)
      requires Valid() && Reopens(journal.format, journal.disk, journal.capacity, entries)
      ensures forall id :: sent[id] <= maxAttempts && (id in entries ==> sent[id] <= entries[id].attempts)
      ensures forall id :: sent[id] > 0 ==> id in entries
    {
      hide Reopens, Journal.Valid;
      var es :| Reopens(journal.format, journal.disk, journal.capacity, es) && Covered(es, sent, maxAttempts);
      SameTable(journal.format, journal.disk, journal.capacity, es, entries);
      assert forall id :: id !in es ==> id !in sent;
    }

    /** Every attempt just recorded may be transmitted. */
    lemma Recorded(table: map<Key, Entry>, updates: seq<Update>, sends: seq<Key>)
      requires Covered(table, sent, maxAttempts) && Keyed(table) && SafeUpdates(table, updates, maxAttempts)
      requires journal.entries == Apply(table, UpdatedEntries(table, updates))
      requires forall k :: 0 <= k < |sends| ==> Attempted(updates, sends[k])
      ensures forall k :: 0 <= k < |sends| ==> Sendable(sends[k])
    {
      forall k | 0 <= k < |sends|
        ensures Sendable(sends[k])
      {
        hide Apply;
        assert Attempted(updates, sends[k]);
        var i :| 0 <= i < |updates| && updates[i] == Update(sends[k], Unknown, true);
        UpdatedAt(table, updates, i);
      }
    }

    /** Restart after any crash: the file always reopens, and the discipline holds. */
    method Restart() returns (r: Outcome<()>)
      requires Valid()
      modifies this`journal
      ensures r.Done? && Valid() && !journal.poisoned && fresh(journal)
      ensures Reopens(old(journal.format), old(journal.disk), old(journal.capacity), journal.entries)
    {
      hide Covered, Lawful, Reopens;
      var reopened := Journal.Open(journal.format, journal.disk, journal.capacity, journal.maxBytes);
      if reopened.Refused? {
        assert false;
      }
      ghost var es :| Reopens(journal.format, journal.disk, journal.capacity, es) && Covered(es, sent, maxAttempts);
      SameTable(journal.format, journal.disk, journal.capacity, es, reopened.value.entries);
      journal := reopened.value;
      KeptTable(journal);
      return Done(());
    }

    /** Record safe updates: complete, or torn at a prefix that is just as covered. */
    method Write(updates: seq<Update>, flush: Option<nat>) returns (r: Outcome<()>)
      requires Valid() && 0 < |updates| <= MAX_BATCH && SafeUpdates(journal.entries, updates, maxAttempts)
      modifies journal
      ensures Valid()
      ensures r.Done? ==> !old(journal.poisoned) && !journal.poisoned
                          && journal.entries == Apply(old(journal.entries), UpdatedEntries(old(journal.entries), updates))
      ensures r.Refused? ==> IoFault(r.fault) && journal.entries == old(journal.entries)
    {
      hide Valid, Disciplined, Covered, CoveredBy, Reopens, Apply, UpdateOk, TornAt, SafeUpdates, Lawful, UpdatesOk;
      hide Coherent, Keyed, Journal.Valid, UpdatedEntries, Frames, IoFault;
      ghost var table := journal.entries;
      HealthyIf();
      SafeAreOk(table, updates, maxAttempts);
      r := journal.UpdateBatch(updates, flush);
      if r.Done? {
        WholeIsCovered(journal, table, updates, sent, maxAttempts);
      } else if r.fault.WriteFailed? {
        TornIsCovered(journal.format, table, updates, journal.disk, journal.capacity, sent, maxAttempts);
      }
      ValidIntro();
    }

    lemma ValidIntro()
      requires journal.Valid() && 0 < journal.capacity <= 4096 && 4096 <= journal.maxBytes <= MAX_JOURNAL
      requires CoveredBy(journal.format, journal.disk, journal.capacity, sent, maxAttempts)
      ensures Valid()
    {
    }

    /** One transmission. It is only made for an intent whose uncertainty is durable and
        which has an attempt left over for it. */
    method Transmit(id: Key)
      requires Valid() && !journal.poisoned
      requires id in journal.entries && journal.entries[id].phase == Unknown && sent[id] < journal.entries[id].attempts
      modifies this`sent
      ensures Valid() && sent == old(sent)[id := old(sent)[id] + 1]
    {
      Healthy();
      ghost var more := sent[id := sent[id] + 1];
      assert Covered(journal.entries, more, maxAttempts);
      hide Covered, Reopens;
      sent := more;
    }

    /** Look every intent up once. */
    method LookUp(ids: seq<Key>) returns (fault: Option<Fault>, entries: seq<Entry>)
      ensures fault.None? ==> LookedUp(journal.entries, ids, entries)
      ensures fault.Some? ==> fault.value.DuplicateIntent? || fault.value.UnknownIntent?
      ensures fault.Some? ==> !Distinct(ids) || exists i :: 0 <= i < |ids| && ids[i] !in journal.entries
    {
      entries := [];
      for k := 0 to |ids|
        invariant |entries| == k && forall i :: 0 <= i < k ==> ids[i] in journal.entries && entries[i] == journal.entries[ids[i]]
        invariant forall i, j :: 0 <= i < j < k ==> ids[i] != ids[j]
      {
        if ids[k] in ids[..k] {
          assert exists j :: 0 <= j < k && ids[j] == ids[k];
          return Some(DuplicateIntent), [];
        }
        if ids[k] !in journal.entries {
          return Some(UnknownIntent), [];
        }
        entries := entries + [journal.entries[ids[k]]];
      }
      return None, entries;
    }

    /** An intent whose recorded attempt has not been transmitted yet. */
    ghost predicate Sendable(id: Key)
      reads this, journal
    {
      id in journal.entries && journal.entries[id].phase == Unknown && sent[id] < journal.entries[id].attempts
    }

    /** Transmit the recorded attempts and collect the acknowledgements. */
    method SendAll(ids: seq<Key>, sends: seq<Key>, start: seq<Phase>, ghost goal: seq<Entry>, acknowledged: Key -> bool)
      returns (updates: seq<Update>, phases: seq<Phase>)
      requires Valid() && !journal.poisoned && Distinct(ids) && Shows(goal, start) && |goal| == |ids|
      requires forall i :: 0 <= i < |ids| ==> ids[i] in journal.entries && goal[i] == journal.entries[ids[i]]
      requires Distinct(sends) && forall k :: 0 <= k < |sends| ==> sends[k] in ids && Sendable(sends[k])
      modifies this`sent
      ensures Valid() && SafeUpdates(journal.entries, updates, maxAttempts) && |updates| <= |sends|
      ensures forall u :: 0 <= u < |updates| ==> updates[u].id in ids
      ensures Settling(journal.entries, ids, updates, AfterAcks(ids, goal, sends, acknowledged))
      ensures Shows(AfterAcks(ids, goal, sends, acknowledged), phases)
      ensures forall id :: sent[id] == old(sent)[id] + if id in sends then 1 else 0
    {
      hide Valid, Covered, Reopens, UpdateOk, Settling, Acknowledging, AfterAcks, Marked;
      updates, phases := [], start;
      ghost var table := journal.entries;
      NothingAcknowledged(table, ids, goal, acknowledged, maxAttempts);
      assert AfterAcks(ids, goal, [], acknowledged) == goal;
      for k := 0 to |sends|
        invariant Valid() && |updates| <= k && |phases| == |ids|
        invariant Acknowledging(table, ids, sends[..k], updates, AfterAcks(ids, goal, sends[..k], acknowledged), maxAttempts)
        invariant Shows(AfterAcks(ids, goal, sends[..k], acknowledged), phases)
        invariant forall j :: k <= j < |sends| ==> sends[j] in ids && Sendable(sends[j])
        invariant forall id :: sent[id] == old(sent)[id] + if id in sends[..k] then 1 else 0
      {
        var id := sends[k];
        assert sends[..k + 1] == sends[..k] + [id] && id !in sends[..k];
        Transmit(id);
        Acknowledged(table, ids, goal, sends[..k], updates, phases, acknowledged, maxAttempts, id);
        if acknowledged(id) {
          updates, phases := updates + [Update(id, Submitted, false)], Marked(ids, phases, id, Submitted);
        }
      }
      assert sends[..|sends|] == sends;
      AcknowledgingParts(table, ids, sends, updates, AfterAcks(ids, goal, sends, acknowledged), maxAttempts);
    }

    /** `progress_batch`: observe the intents and, when allowed, send the absent ones
        that may still be sent. An answerable batch can only fail on the disk, any other
        is refused before anything happens. A finished batch leaves every intent as its
        row says, has transmitted exactly the intents it had to, and reports the
        journal's phases; the journal's transition table never refuses an update. */
    method ProgressBatch(ids: seq<Key>, allowSend: bool, answers: Answers) returns (r: Outcome<seq<Phase>>)
      requires Valid()
      modifies this`sent, journal
      ensures Valid()
      ensures !Answerable(old(journal.entries), ids, verifies, answers, allowSend) ==>
                r.Refused? && !r.fault.PhaseRefused? && !r.fault.AttemptOverflow?
                && journal.entries == old(journal.entries) && sent == old(sent)
      ensures Answerable(old(journal.entries), ids, verifies, answers, allowSend) ==>
                && (r.Refused? ==> IoFault(r.fault))
                && (forall id :: old(sent)[id] <= sent[id] <= old(sent)[id] +
                      if Due(old(journal.entries), ids, answers, allowSend, maxAttempts, id) then 1 else 0)
      ensures r.Done? ==>
                && PhasesOf(journal.entries, ids, r.value)
                && Progressed(old(journal.entries), ids, answers, allowSend, maxAttempts, journal.entries)
                && (forall id :: sent[id] == old(sent)[id] +
                      if Due(old(journal.entries), ids, answers, allowSend, maxAttempts, id) then 1 else 0)
    {
      hide *;
      ghost var table := journal.entries;
      KnownWhen(table, ids, verifies, answers, allowSend);
      RefusalsDiffer();
      if |ids| == 0 || |ids| > MAX_BATCH {
        NotKnown(table, ids, verifies, answers, allowSend);
        return Refused(BatchBounds);
      }
      var fault, entries := LookUp(ids);
      if fault.Some? {
        NotKnown(table, ids, verifies, answers, allowSend);
        return Refused(fault.value);
      }
      var active, phases := Unfinished(table, ids, entries);
      BatchKnown(table, ids, entries, active);
      if |active| == 0 {
        AllFinished(table, ids, entries, answers, allowSend, maxAttempts, verifies);
        PhasesAre(table, ids, entries, phases);
        return Done(phases);
      }
      var verified := VerifyAll(ids, entries, active);
      if !verified {
        NotVerified(table, ids, entries, active, verifies, answers, allowSend);
        return Refused(NotAuthorized);
      }
      if !answers.genesis || answers.statuses.None? || |answers.statuses.value| != |active| {
        NotComplete(table, ids, entries, active, verifies, answers, allowSend);
        return Refused(RpcInvalid);
      }
      r := Proceed(ids, entries, active, phases, allowSend, answers);
    }

    /** The batch after its rows have arrived. */
    method Proceed(
      ids: seq<Key>, entries: seq<Entry>, active: seq<nat>, start: seq<Phase>, allowSend: bool, answers: Answers)
      returns (r: Outcome<seq<Phase>>)
      requires Valid() && LookedUp(journal.entries, ids, entries) && Known(journal.entries, ids)
      requires Waiting(ids, entries, [], [], active) && ListsActive(entries, active) && |active| > 0 && Shows(entries, start)
      requires forall k :: 0 <= k < |active| ==> active[k] < |entries| && verifies(entries[active[k]])
      requires answers.genesis && answers.statuses.Some? && |answers.statuses.value| == |active|
      modifies this`sent, journal
      ensures Valid()
      ensures !Answerable(old(journal.entries), ids, verifies, answers, allowSend) ==>
                r.Refused? && r.fault.RpcInvalid? && journal.entries == old(journal.entries) && sent == old(sent)
      ensures Answerable(old(journal.entries), ids, verifies, answers, allowSend) ==>
                && (r.Refused? ==> IoFault(r.fault))
                && (forall id :: old(sent)[id] <= sent[id] <= old(sent)[id] +
                      if Due(old(journal.entries), ids, answers, allowSend, maxAttempts, id) then 1 else 0)
      ensures r.Done? ==>
                && PhasesOf(journal.entries, ids, r.value)
                && Progressed(old(journal.entries), ids, answers, allowSend, maxAttempts, journal.entries)
                && (forall id :: sent[id] == old(sent)[id] +
                      if Due(old(journal.entries), ids, answers, allowSend, maxAttempts, id) then 1 else 0)
    {
      hide *;
      ghost var table := journal.entries;
      KnownParts(table, ids);
      BatchKnown(table, ids, entries, active);
      var statuses := answers.statuses.value;
      var fault, updates, absent, sends, phases; ghost var sorted, goal;
      fault, updates, absent, phases, sorted := Sort(table, ids, entries, active, statuses, start, maxAttempts);
      if fault.Some? {
        NotComplete(table, ids, entries, active, verifies, answers, allowSend);
        return Refused(RpcInvalid);
      }
      AbsentRows(table, ids, entries, active, verifies, answers, allowSend, absent, sorted);
      if |absent| > 0 && allowSend && answers.height.None? {
        return Refused(RpcInvalid);
      }
      var height := if allowSend then HeightOf(answers) else U64_MAX;
      updates, sends, phases, goal :=
        Retry(table, ids, entries, absent, updates, phases, sorted, allowSend, height, maxAttempts);
      HeightOnlyForSending(ids, entries, absent, sorted, goal, sends, allowSend, height, answers, maxAttempts);
      DecidedParts(table, ids, updates, sends, maxAttempts);
      BatchProgress(table, ids, entries, active, absent, sorted, goal, sends, answers, allowSend, maxAttempts);
      r := RecordAndSend(ids, entries, updates, sends, phases, goal, answers);
      if r.Done? {
        PhasesShown(journal.entries, ids, AfterAcks(ids, goal, sends, answers.acknowledged), r.value);
      }
    }

    method VerifyAll(ids: seq<Key>, entries: seq<Entry>, active: seq<nat>) returns (ok: bool)
      requires Waiting(ids, entries, [], [], active)
      ensures ok <==> forall k :: 0 <= k < |active| ==> active[k] < |entries| && verifies(entries[active[k]])
    {
      for k := 0 to |active|
        invariant forall j :: 0 <= j < k ==> active[j] < |entries| && verifies(entries[active[j]])
      {
        if !verifies(entries[active[k]]) {
          return false;
        }
      }
      return true;
    }

    /** Record all uncertainty, then transmit, then record the acknowledgements. */
    method RecordAndSend(
      ids: seq<Key>, entries: seq<Entry>, updates: seq<Update>, sends: seq<Key>, start: seq<Phase>,
      ghost goal: seq<Entry>, answers: Answers)
      returns (r: Outcome<seq<Phase>>)
      requires Valid() && LookedUp(journal.entries, ids, entries) && |ids| <= MAX_BATCH
      requires Decided(journal.entries, ids, updates, sends, maxAttempts)
      requires Settling(journal.entries, ids, updates, goal) && Shows(goal, start)
      modifies this`sent, journal
      ensures Valid() && |goal| == |ids|
      ensures r.Refused? ==> IoFault(r.fault)
      ensures forall id :: old(sent)[id] <= sent[id] <= old(sent)[id] + if id in sends then 1 else 0
      ensures r.Done? ==>
                && (forall id :: id in sends ==> sent[id] == old(sent)[id] + 1)
                && SameElsewhere(old(journal.entries), journal.entries, ids)
                && Shows(AfterAcks(ids, goal, sends, answers.acknowledged), r.value)
                && forall i :: 0 <= i < |ids| ==>
                     ids[i] in journal.entries
                     && journal.entries[ids[i]] == AfterAcks(ids, goal, sends, answers.acknowledged)[i]
    {
      hide *;
      ghost var table := journal.entries;
      DecidedParts(table, ids, updates, sends, maxAttempts);
      LookedParts(table, ids, entries);
      HealthyIf();
      Settled(table, ids, updates, goal, maxAttempts);
      if |updates| == 0 {
        NothingToSend(updates, sends);
        NothingApplied(table, updates);
        NobodySent(ids, goal, answers.acknowledged);
        return Done(start);
      }
      var recorded := Write(updates, answers.firstWrite);
      if recorded.Refused? {
        return Refused(recorded.fault);
      }
      Recorded(table, updates, sends);
      ghost var before := journal.entries;
      var more, phases := SendAll(ids, sends, start, goal, answers.acknowledged);
      HealthyIf();
      Settled(before, ids, more, AfterAcks(ids, goal, sends, answers.acknowledged), maxAttempts);
      if |more| == 0 {
        NothingApplied(before, more);
      } else {
        var acknowledged := Write(more, answers.secondWrite);
        if acknowledged.Refused? {
          return Refused(acknowledged.fault);
        }
      }
      SameTwice(table, before, journal.entries, ids);
      return Done(phases);
    }

    /** `step_batch` and `observe_batch`; observation transmits nothing. */
    method StepBatch(ids: seq<Key>, answers: Answers) returns (r: Outcome<seq<Phase>>)
      requires Valid()
      modifies this`sent, journal
      ensures Valid()
      ensures forall id :: old(sent)[id] <= sent[id] <= old(sent)[id] + 1
      ensures Answerable(old(journal.entries), ids, verifies, answers, true) && r.Refused? ==> IoFault(r.fault)
      ensures r.Done? ==>
                && Known(old(journal.entries), ids)
                && Progressed(old(journal.entries), ids, answers, true, maxAttempts, journal.entries)
                && forall id :: sent[id] == old(sent)[id] +
                     if Due(old(journal.entries), ids, answers, true, maxAttempts, id) then 1 else 0
    {
      hide *;
      KnownWhen(journal.entries, ids, verifies, answers, true);
      r := ProgressBatch(ids, true, answers);
    }

    method ObserveBatch(ids: seq<Key>, answers: Answers) returns (r: Outcome<seq<Phase>>)
      requires Valid()
      modifies this`sent, journal
      ensures Valid() && sent == old(sent)
      ensures r.Done? ==> PhasesOf(journal.entries, ids, r.value)
      ensures r.Done? ==> Known(old(journal.entries), ids)
                          && Progressed(old(journal.entries), ids, answers, false, maxAttempts, journal.entries)
    {
      hide *;
      KnownWhen(journal.entries, ids, verifies, answers, false);
      NobodyTransmits(journal.entries, ids, answers, maxAttempts);
      r := ProgressBatch(ids, false, answers);
      assert forall id :: sent[id] == old(sent)[id];
    }

    /** New intents enter without attempts, so nothing transmitted is uncovered. */
    method Admit(pending: seq<Entry>, flush: Option<nat>) returns (r: Outcome<()>)
      requires Valid()
      modifies journal
      ensures Valid()
      ensures r.Done? ==> journal.entries == Apply(old(journal.entries), pending)
    {
      hide Valid, Disciplined, Covered, CoveredBy, Reopens, Apply, TornAt, Lawful, InsertableBatch;
      hide Coherent, Keyed, Journal.Valid, Frames, IoFault;
      ghost var table := journal.entries;
      HealthyIf();
      r := journal.InsertBatch(pending, flush);
      if r.Done? {
        InsertedIsCovered(journal, table, pending, sent, maxAttempts);
      } else if r.fault.WriteFailed? {
        TornInsertIsCovered(journal.format, table, pending, journal.disk, journal.capacity, sent, maxAttempts);
      }
      ValidIntro();
    }

    /** Compaction keeps the table, whichever file survives. */
    method Compact(swap: Swap) returns (r: Outcome<nat>)
      requires Valid()
      modifies journal
      ensures Valid() && journal.entries == old(journal.entries)
    {
      hide Valid, Disciplined, Covered, CoveredBy, Reopens, Lawful, Coherent, Keyed, Journal.Valid;
      HealthyIf();
      ghost var healthy := !journal.poisoned;
      r := journal.Compact(swap);
      if healthy {
        CoverIntro(journal.format, journal.disk, journal.capacity, sent, maxAttempts, journal.entries);
      }
      ValidIntro();
    }

    /** The three reconciliations: a finalized intent whose receipt checks out, of the
        right economic kind, releases its reservation; nothing else moves, and only the
        disk can prevent it. */
    method Reconcile(id: Key, kind: Kind, receipt: bool, flush: Option<nat>) returns (r: Outcome<()>)
      requires Valid()
      modifies journal
      ensures Valid()
      ensures r.Done? ==> Reconcilable(old(journal.entries), id, kind, receipt)
                          && journal.entries == old(journal.entries)[id := old(journal.entries)[id].(phase := Reconciled)]
      ensures r.Refused? ==> journal.entries == old(journal.entries) && !r.fault.PhaseRefused?
      ensures r.Refused? && Reconcilable(old(journal.entries), id, kind, receipt) ==> IoFault(r.fault)
    {
      if id !in journal.entries {
        return Refused(UnknownIntent);
      }
      var e := journal.entries[id];
      if (e.phase != Finalized && e.phase != Reconciled) || !Expects(e, kind) || !receipt {
        return Refused(RpcInvalid);
      }
      if e.phase == Reconciled {
        assert journal.entries[id := e] == journal.entries;
        return Done(());
      }
      ghost var table := journal.entries;
      HealthyIf();
      var u := Update(id, Reconciled, false);
      assert UpdateOk(table, u);
      hide *;
      ReconcileIsSafe(table, u, maxAttempts);
      RefusalsDiffer();
      r := Write([u], flush);
      OneUpdate(table, u);
    }
  }

  /** What a reconciliation needs. */
  predicate Reconcilable(table: map<Key, Entry>, id: Key, kind: Kind, receipt: bool) {
    && id in table && (table[id].phase == Finalized || table[id].phase == Reconciled)
    && Expects(table[id], kind) && receipt
  }

  lemma OneUpdate(table: map<Key, Entry>, u: Update)
    requires UpdateOk(table, u) && !u.attempt && Keyed(table)
    ensures forall k :: 0 <= k < |[u]| ==> UpdateOk(table, [u][k])
    ensures Apply(table, UpdatedEntries(table, [u])) == table[u.id := table[u.id].(phase := u.phase)]
  {
    var pending := UpdatedEntries(table, [u]);
    assert pending == [UpdatedEntry(table, u)] && pending[..0] == [];
    assert Apply(table, pending[..0]) == table;
  }

  lemma SameTable(f: Format, disk: seq<byte>, capacity: nat, a: map<Key, Entry>, b: map<Key, Entry>)
    requires Reopens(f, disk, capacity, a) && Reopens(f, disk, capacity, b)
    ensures a == b
  {
  }

  lemma KeptTable(j: Journal)
    requires j.Valid() && !j.poisoned
    ensures Reopens(j.format, j.disk, j.capacity, j.entries)
  {
  }

  lemma WholeIsCovered(
    j: Journal, table: map<Key, Entry>, updates: seq<Update>, sent: multiset<Key>, maxAttempts: nat)
    requires SafeUpdates(table, updates, maxAttempts) && Covered(table, sent, maxAttempts) && Keyed(table)
    requires j.Valid() && !j.poisoned && j.entries == Apply(table, UpdatedEntries(table, updates))
    ensures CoveredBy(j.format, j.disk, j.capacity, sent, maxAttempts)
  {
    hide Covered, Reopens, Apply, CoveredBy;
    WholeUpdates(table, updates);
    CoveredUpdates(table, updates, sent, maxAttempts, |updates|);
    KeptTable(j);
    CoverIntro(j.format, j.disk, j.capacity, sent, maxAttempts, j.entries);
  }

  lemma SafeAreOk(table: map<Key, Entry>, updates: seq<Update>, maxAttempts: nat)
    requires SafeUpdates(table, updates, maxAttempts) && 0 < |updates| <= MAX_BATCH
    ensures UpdatesOk(table, updates)
  {
  }

  /** A torn update batch reopens to a covered table. */
  lemma TornIsCovered(
    f: Format, table: map<Key, Entry>, updates: seq<Update>, disk: seq<byte>, capacity: nat,
    sent: multiset<Key>, maxAttempts: nat)
    requires SafeUpdates(table, updates, maxAttempts) && Covered(table, sent, maxAttempts) && Keyed(table)
    requires exists m :: TornAt(f, table, UpdatedEntries(table, updates), disk, capacity, m)
    ensures CoveredBy(f, disk, capacity, sent, maxAttempts)
  {
    hide Covered, Reopens, Apply;
    var m :| TornAt(f, table, UpdatedEntries(table, updates), disk, capacity, m);
    CoveredUpdates(table, updates, sent, maxAttempts, m);
  }

  lemma WholeUpdates(table: map<Key, Entry>, updates: seq<Update>)
    requires forall i :: 0 <= i < |updates| ==> UpdateOk(table, updates[i])
    ensures UpdatedEntries(table, updates)[..|updates|] == UpdatedEntries(table, updates)
  {
  }

  datatype Kind = ExposureKind | SwapKind | BasketKind

  /** The entry carries the expectation that is being reconciled. */
  predicate Expects(e: Entry, kind: Kind) {
    match kind
    case ExposureKind => e.exposure.Some?
    case SwapKind => e.swap.Some?
    case BasketKind => e.basket.Some? && e.exposure.None? && e.swap.None?
  }

  lemma ReconcileIsSafe(table: map<Key, Entry>, u: Update, maxAttempts: nat)
    requires UpdateOk(table, u) && !u.attempt
    ensures SafeUpdates(table, [u], maxAttempts)
  {
  }

  /** Inserting any prefix of a batch of new intents keeps transmissions covered. */
  lemma CoveredInserts(table: map<Key, Entry>, pending: seq<Entry>, sent: multiset<Key>, maxAttempts: nat, m: nat)
    requires InsertableBatch(table, pending) && Covered(table, sent, maxAttempts) && m <= |pending|
    ensures Covered(Apply(table, pending[..m]), sent, maxAttempts)
  {
    BatchParts(table, pending, m);
    ApplyMembers(table, pending[..m]);
    assert forall i :: 0 <= i < m ==> FreshEntry(table, pending[i]);
    hide Apply, Mentions, InsertableBatch;
    var after := Apply(table, pending[..m]);
    forall id | id in after
      ensures sent[id] <= after[id].attempts <= maxAttempts
    {
      if id !in table {
        var i := MentionedAt(pending[..m], id);
        assert pending[..m][i] == pending[i] && after[id] == pending[i];
        assert id !in sent;
      }
    }
  }

  lemma InsertedIsCovered(
    j: Journal, table: map<Key, Entry>, pending: seq<Entry>, sent: multiset<Key>, maxAttempts: nat)
    requires InsertableBatch(table, pending) && Covered(table, sent, maxAttempts)
    requires j.Valid() && !j.poisoned && j.entries == Apply(table, pending)
    ensures CoveredBy(j.format, j.disk, j.capacity, sent, maxAttempts)
  {
    hide Covered, Reopens, Apply, CoveredBy, InsertableBatch;
    assert pending[..|pending|] == pending;
    CoveredInserts(table, pending, sent, maxAttempts, |pending|);
    KeptTable(j);
    CoverIntro(j.format, j.disk, j.capacity, sent, maxAttempts, j.entries);
  }

  lemma TornInsertIsCovered(
    f: Format, table: map<Key, Entry>, pending: seq<Entry>, disk: seq<byte>, capacity: nat,
    sent: multiset<Key>, maxAttempts: nat)
    requires InsertableBatch(table, pending) && Covered(table, sent, maxAttempts)
    requires exists m :: TornAt(f, table, pending, disk, capacity, m)
    ensures CoveredBy(f, disk, capacity, sent, maxAttempts)
  {
    hide Covered, Reopens, Apply, InsertableBatch;
    var m :| TornAt(f, table, pending, disk, capacity, m);
    CoveredInserts(table, pending, sent, maxAttempts, m);
  }
}
