/** One answered batch, intent by intent, in the words of the reply: which row belongs to
    which intent, what each kind of row makes of it, and which intents are sent. */
module SenderRows {
  import opened Base
  import opened Entries
  import opened Senders

  /** Unfinished intents of the batch before position i. */
  ghost function WaitingBefore(table: map<Key, Entry>, ids: seq<Key>, i: nat): set<nat>
    requires forall j :: 0 <= j < |ids| ==> ids[j] in table
  {
    set j: nat | j < i && j < |ids|
                 && (var p := table[ids[j]].phase; p == Prepared || p == Submitted || p == Unknown)
  }

  lemma {:induction false} CountIsWaiting(table: map<Key, Entry>, ids: seq<Key>, i: nat)
    requires (forall j :: 0 <= j < |ids| ==> ids[j] in table) && i <= |ids|
    ensures CountActive(EntriesOf(table, ids), i) == |WaitingBefore(table, ids, i)|
  {
    hide WaitingBefore, Active, EntriesOf;
    if i == 0 {
      NoneWaiting(table, ids);
    } else {
      CountIsWaiting(table, ids, i - 1);
      WaitingNext(table, ids, i - 1);
      if Active(EntriesOf(table, ids)[i - 1]) {
        assert i - 1 !in WaitingBefore(table, ids, i - 1);
      }
    }
  }

  lemma NoneWaiting(table: map<Key, Entry>, ids: seq<Key>)
    requires forall j :: 0 <= j < |ids| ==> ids[j] in table
    ensures WaitingBefore(table, ids, 0) == {}
  {
  }

  lemma WaitingNext(table: map<Key, Entry>, ids: seq<Key>, i: nat)
    requires (forall j :: 0 <= j < |ids| ==> ids[j] in table) && i < |ids|
    ensures i !in WaitingBefore(table, ids, i)
    ensures WaitingBefore(table, ids, i + 1)
            == WaitingBefore(table, ids, i) + if Active(EntriesOf(table, ids)[i]) then {i} else {}
  {
  }

  /** The intent was waiting for an answer when the batch began. */
  predicate IsWaiting(e: Entry) {
    e.phase == Prepared || e.phase == Submitted || e.phase == Unknown
  }

  /** The row of an unfinished intent is the one after those of the unfinished intents
      before it. */
  lemma RowIs(
    table: map<Key, Entry>, ids: seq<Key>, verifies: Entry -> bool, answers: Answers, allowSend: bool, i: nat)
    requires Answerable(table, ids, verifies, answers, allowSend)
    requires i < |ids| && ids[i] in table && IsWaiting(table[ids[i]])
    ensures forall j :: 0 <= j < |ids| ==> ids[j] in table
    ensures answers.statuses.Some? && |WaitingBefore(table, ids, i)| < |answers.statuses.value|
    ensures RowOf(EntriesOf(table, ids), Rows(answers), i) == answers.statuses.value[|WaitingBefore(table, ids, i)|]
  {
    hide Legible;
    CountIsWaiting(table, ids, i);
    CountGrows(EntriesOf(table, ids), i, |ids|);
  }

  lemma PhaseKinds(s: Status)
    ensures PhaseOf(s) == Some(Finalized) <==> s == Reported(FinalizedStatus, false)
    ensures PhaseOf(s) == Some(Failed) <==> s == Reported(FinalizedStatus, true)
    ensures PhaseOf(s) == Some(Submitted) <==> s.Reported? && (s.confirmation.Processed? || s.confirmation.Confirmed?)
    ensures PhaseOf(s).None? <==> s.Absent? || s.Malformed? || s.confirmation.Unrecognised?
    ensures PhaseOf(s).Some? ==> PhaseOf(s).value == Finalized || PhaseOf(s).value == Failed || PhaseOf(s).value == Submitted
  {
  }

  /** What a finished batch makes of intent i, by the fields of its row. A finished
      intent stays. An unfinished one ends finalized exactly when its row is finalized
      without an error, failed exactly when it is finalized with an error, submitted
      when it is processed or confirmed; without a row it is sent exactly when that is
      allowed, its blockhash lives and attempts are left, and is submitted if that was
      acknowledged and uncertain otherwise. Nothing but phase and attempts changes. */
  lemma RowDecides(
    table: map<Key, Entry>, ids: seq<Key>, verifies: Entry -> bool, answers: Answers, allowSend: bool,
    maxAttempts: u32, after: map<Key, Entry>, i: nat)
    requires Answerable(table, ids, verifies, answers, allowSend)
    requires Progressed(table, ids, answers, allowSend, maxAttempts, after) && i < |ids|
    ensures (forall j :: 0 <= j < |ids| ==> ids[j] in table) && ids[i] in after
    ensures after[ids[i]] == table[ids[i]].(phase := after[ids[i]].phase, attempts := after[ids[i]].attempts)
    ensures !IsWaiting(table[ids[i]]) ==> after[ids[i]] == table[ids[i]]
    ensures IsWaiting(table[ids[i]]) ==>
              && answers.statuses.Some? && |WaitingBefore(table, ids, i)| < |answers.statuses.value|
              && var row := answers.statuses.value[|WaitingBefore(table, ids, i)|];
                 var was, now := table[ids[i]], after[ids[i]];
                 && (row.Absent? || (row.Reported? && !row.confirmation.Unrecognised?))
                 && (now.phase == Finalized <==> row.Reported? && row.confirmation.FinalizedStatus? && !row.failed)
                 && (now.phase == Failed <==> row.Reported? && row.confirmation.FinalizedStatus? && row.failed)
                 && (row.Reported? && !row.confirmation.FinalizedStatus? ==> now.phase == Submitted)
                 && (row.Reported? ==> now.attempts == was.attempts)
                 && (row.Absent? && allowSend ==> answers.height.Some?)
                 && (row.Absent? ==>
                       var sent := allowSend && answers.height.value <= was.lastValidHeight && was.attempts < maxAttempts;
                       && now.attempts == was.attempts + (if sent then 1 else 0)
                       && now.phase == if sent && answers.acknowledged(ids[i]) then Submitted else Unknown)
  {
    var entries := EntriesOf(table, ids);
    assert after[ids[i]] == Answered(entries[i], RowOf(entries, Rows(answers), i),
                                     MaySend(entries[i], allowSend, HeightOf(answers), maxAttempts),
                                     answers.acknowledged(ids[i]));
    if IsWaiting(table[ids[i]]) {
      RowIs(table, ids, verifies, answers, allowSend, i);
      LegibleRow(table, ids, verifies, answers, allowSend, i);
    }
    hide Answerable, Progressed, RowOf, WaitingBefore, PhaseOf, Answered, Known;
    AnsweredFields(entries[i], RowOf(entries, Rows(answers), i),
                   MaySend(entries[i], allowSend, HeightOf(answers), maxAttempts), answers.acknowledged(ids[i]));
  }

  /** The answer to one intent, by the fields of its row. */
  lemma AnsweredFields(e: Entry, row: Status, send: bool, acknowledged: bool)
    ensures var now := Answered(e, row, send, acknowledged);
            && now == e.(phase := now.phase, attempts := now.attempts)
            && (!IsWaiting(e) ==> now == e)
            && (IsWaiting(e) && (row.Absent? || (row.Reported? && !row.confirmation.Unrecognised?)) ==>
                  && (now.phase == Finalized <==> row.Reported? && row.confirmation.FinalizedStatus? && !row.failed)
                  && (now.phase == Failed <==> row.Reported? && row.confirmation.FinalizedStatus? && row.failed)
                  && (row.Reported? && !row.confirmation.FinalizedStatus? ==> now.phase == Submitted)
                  && (row.Reported? ==> now.attempts == e.attempts)
                  && (row.Absent? ==>
                        && now.attempts == (if send then Bumped(e.attempts) else e.attempts)
                        && now.phase == if send && acknowledged then Submitted else Unknown))
  {
    PhaseKinds(row);
  }

  lemma LegibleRow(
    table: map<Key, Entry>, ids: seq<Key>, verifies: Entry -> bool, answers: Answers, allowSend: bool, i: nat)
    requires Answerable(table, ids, verifies, answers, allowSend)
    requires i < |ids| && ids[i] in table && IsWaiting(table[ids[i]])
    requires forall j :: 0 <= j < |ids| ==> ids[j] in table
    ensures var row := RowOf(EntriesOf(table, ids), Rows(answers), i);
            && (row.Absent? || (row.Reported? && !row.confirmation.Unrecognised?))
            && (row.Absent? && allowSend ==> answers.height.Some?)
  {
    hide Legible;
    CountGrows(EntriesOf(table, ids), i, |ids|);
    LegibleRows(Rows(answers));
  }

  /** Which intents a batch transmits: the unfinished ones without a row, when sending is
      allowed, while their blockhash lives and attempts are left. */
  lemma DueExactly(
    table: map<Key, Entry>, ids: seq<Key>, verifies: Entry -> bool, answers: Answers, allowSend: bool,
    maxAttempts: u32, id: Key)
    requires Answerable(table, ids, verifies, answers, allowSend)
    ensures forall j :: 0 <= j < |ids| ==> ids[j] in table
    ensures Due(table, ids, answers, allowSend, maxAttempts, id) <==>
              exists i :: 0 <= i < |ids| && ids[i] == id && IsWaiting(table[id]) && allowSend && answers.statuses.Some?
                          && |WaitingBefore(table, ids, i)| < |answers.statuses.value|
                          && answers.statuses.value[|WaitingBefore(table, ids, i)|].Absent?
                          && answers.height.Some? && answers.height.value <= table[id].lastValidHeight
                          && table[id].attempts < maxAttempts
  {
    var entries := EntriesOf(table, ids);
    forall i | 0 <= i < |ids| && IsWaiting(table[ids[i]])
      ensures answers.statuses.Some? && |WaitingBefore(table, ids, i)| < |answers.statuses.value|
      ensures RowOf(entries, Rows(answers), i) == answers.statuses.value[|WaitingBefore(table, ids, i)|]
      ensures RowOf(entries, Rows(answers), i).Absent? && allowSend ==> answers.height.Some?
    {
      RowIs(table, ids, verifies, answers, allowSend, i);
      CountGrows(entries, i, |ids|);
    }
    hide RowOf, CountActive, Legible, WaitingBefore;
  }

  /** A batch is answerable exactly when it names between one and the largest number of
      different known intents and, unless all are finished, every unfinished one has a
      verified wire, the network is the right one, the reply has a legible row for
      each, and the height is known if an absent one might have to be sent. */
  lemma AnswerableExactly(
    table: map<Key, Entry>, ids: seq<Key>, verifies: Entry -> bool, answers: Answers, allowSend: bool)
    ensures Answerable(table, ids, verifies, answers, allowSend) <==>
              && 0 < |ids| <= 64 && (forall i, j :: 0 <= i < j < |ids| ==> ids[i] != ids[j])
              && (forall i :: 0 <= i < |ids| ==> ids[i] in table)
              && (|WaitingBefore(table, ids, |ids|)| > 0 ==>
                    && (forall i :: 0 <= i < |ids| && IsWaiting(table[ids[i]]) ==> verifies(table[ids[i]]))
                    && answers.genesis && answers.statuses.Some?
                    && |answers.statuses.value| == |WaitingBefore(table, ids, |ids|)|
                    && (forall k :: 0 <= k < |answers.statuses.value| ==>
                          var row := answers.statuses.value[k];
                          row.Absent? || (row.Reported? && !row.confirmation.Unrecognised?))
                    && (allowSend && answers.height.None? ==>
                          forall k :: 0 <= k < |answers.statuses.value| ==> !answers.statuses.value[k].Absent?))
  {
    if forall i :: 0 <= i < |ids| ==> ids[i] in table {
      CountIsWaiting(table, ids, |ids|);
      LegibleRows(Rows(answers));
      RowsBelong(table, ids, Rows(answers));
      hide RowOf, CountActive, Legible, WaitingBefore;
    }
  }

  lemma LegibleRows(rows: seq<Status>)
    ensures Legible(rows) <==>
              forall k :: 0 <= k < |rows| ==> rows[k].Absent? || (rows[k].Reported? && !rows[k].confirmation.Unrecognised?)
  {
    forall k | 0 <= k < |rows|
      ensures rows[k].Absent? || PhaseOf(rows[k]).Some? <==>
                rows[k].Absent? || (rows[k].Reported? && !rows[k].confirmation.Unrecognised?)
    {
      PhaseKinds(rows[k]);
    }
    hide PhaseOf;
  }

  /** Every row of a complete reply belongs to an unfinished intent. */
  lemma RowsBelong(table: map<Key, Entry>, ids: seq<Key>, rows: seq<Status>)
    requires forall j :: 0 <= j < |ids| ==> ids[j] in table
    ensures var entries := EntriesOf(table, ids);
            |rows| == CountActive(entries, |ids|) ==>
              ((forall i :: 0 <= i < |ids| && Active(entries[i]) ==> !RowOf(entries, rows, i).Absent?) <==>
               (forall k :: 0 <= k < |rows| ==> !rows[k].Absent?))
  {
    var entries := EntriesOf(table, ids);
    if |rows| == CountActive(entries, |ids|) {
      forall i | 0 <= i < |ids| && Active(entries[i])
        ensures CountActive(entries, i) < |rows| && RowOf(entries, rows, i) == rows[CountActive(entries, i)]
      {
        CountGrows(entries, i, |ids|);
      }
      if forall i :: 0 <= i < |ids| && Active(entries[i]) ==> !RowOf(entries, rows, i).Absent? {
        forall k | 0 <= k < |rows|
          ensures !rows[k].Absent?
        {
          var i := OwnerOf(entries, |ids|, k);
          assert RowOf(entries, rows, i) == rows[k];
        }
      }
    }
  }

  lemma {:induction false} OwnerOf(entries: seq<Entry>, n: nat, k: nat) returns (i: nat)
    requires n <= |entries| && k < CountActive(entries, n)
    ensures i < n && Active(entries[i]) && CountActive(entries, i) == k
  {
    if CountActive(entries, n - 1) == k {
      i := n - 1;
    } else {
      i := OwnerOf(entries, n - 1, k);
    }
  }
}
