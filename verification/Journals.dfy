/** The durable execution journal: an append-only file, a table, and two indexes that
    always agree with what reopening the file would rebuild. */
module Journals {
  import opened Base
  import opened Entries
  import opened Investment
  import opened Log
  import opened Coherence
  import opened Indexes

  const MAX_BATCH: nat := 64
  const MAX_JOURNAL: nat := 64 * 1024 * 1024

  datatype Update = Update(id: Key, phase: Phase, attempt: bool)

  /** Reopening a file with these bytes yields this table. */
  ghost predicate Reopens(f: Format, disk: seq<byte>, capacity: nat, entries: map<Key, Entry>) {
    && Replay(f, disk, EMPTY, capacity).Done? && Replay(f, disk, EMPTY, capacity).value.entries == entries
    && Coherent(entries)
  }

  /** An image within its capacity, and what its replay says about the capacity. */
  lemma {:induction false} ReplayCapacity(f: Format, data: seq<byte>, image: Image, capacity: nat)
    requires Replay(f, data, image, capacity).Done? && |image.entries| <= capacity
    ensures |Replay(f, data, image, capacity).value.entries| <= capacity
    decreases |data|
  {
    if |data| >= 8 && HasRecord(data) {
      ReplayCapacity(f, data[8 + FromLe32(data[..4])..], ReplayOne(f, data, image, capacity).value, capacity);
    }
  }

  /** A complete first record is replayed, whatever follows it. */
  lemma ReplayFirst(f: Format, first: seq<byte>, more: seq<byte>, image: Image, capacity: nat)
    requires HasRecord(first) && |first| == 8 + FromLe32(first[..4]) && FromLe32(first[..4]) <= MAX_RECORD
    requires ReplayOne(f, first, image, capacity).Done?
    ensures Replay(f, first + more, image, capacity)
         == Replay(f, more, ReplayOne(f, first, image, capacity).value, capacity)
    ensures ReplayOne(f, first, image, capacity).value.length == image.length + |first|
  {
    hide ReplayOne;
    ReplayOneOfPrefix(f, first, more, image, capacity);
    ReplayOneShape(f, first, image, capacity);
    assert (first + more)[|first|..] == more;
  }

  lemma NoRecord(f: Format, data: seq<byte>, image: Image, capacity: nat)
    requires !HasRecord(data) && Replay(f, data, image, capacity).Done?
    ensures Replay(f, data, image, capacity) == Replay(f, data[..0], image, capacity) == Done(image)
  {
  }

  /** A file that replays past its first record starts with a good one. */
  lemma FirstRecord(f: Format, data: seq<byte>, image: Image, capacity: nat)
    requires HasRecord(data) && Replay(f, data, image, capacity).Done?
    ensures |data| >= 8 + FromLe32(data[..4])
    ensures var first := data[..8 + FromLe32(data[..4])];
            && HasRecord(first) && |first| == 8 + FromLe32(first[..4]) && FromLe32(first[..4]) <= MAX_RECORD
            && ReplayOne(f, first, image, capacity).Done?
  {
    hide ReplayOne;
    var first := data[..8 + FromLe32(data[..4])];
    assert first[..4] == data[..4];
    ReplayOneOfPrefix(f, first, data[|first|..], image, capacity);
    assert first + data[|first|..] == data;
  }

  /** Cutting off the torn tail does not change the replay. */
  lemma {:induction false} ReplayCut(f: Format, data: seq<byte>, image: Image, capacity: nat)
    requires Replay(f, data, image, capacity).Done?
    ensures var done := Replay(f, data, image, capacity).value;
            && image.length <= done.length <= image.length + |data|
            && Replay(f, data[..done.length - image.length], image, capacity) == Done(done)
    decreases |data|
  {
    hide Replay, ReplayOne, HasRecord;
    if !HasRecord(data) {
      NoRecord(f, data, image, capacity);
    } else {
      FirstRecord(f, data, image, capacity);
      var first := data[..8 + FromLe32(data[..4])];
      var rest, next := data[|first|..], ReplayOne(f, first, image, capacity).value;
      assert first + rest == data;
      ReplayFirst(f, first, rest, image, capacity);
      ReplayCut(f, rest, next, capacity);
      var length := Replay(f, data, image, capacity).value.length;
      ReplayFirst(f, first, rest[..length - next.length], image, capacity);
      assert first + rest[..length - next.length] == data[..length - image.length];
    }
  }

  /** A file, the table it replays to, and the two indexes of that table. */
  ghost predicate KeptBy(
    f: Format, capacity: nat, disk: seq<byte>, image: Image, signatures: map<Key, Key>, reservations: map<Key, Key>)
  {
    && Replay(f, disk, EMPTY, capacity) == Done(image) && image.length == |disk|
    && Coherent(image.entries) && |image.entries| <= capacity
    && SignIndex(signatures, image.entries) && ReserveIndex(reservations, image.entries)
    && image.seqNo <= U64_MAX
  }

  lemma KeptReopens(
    f: Format, capacity: nat, disk: seq<byte>, image: Image, signatures: map<Key, Key>, reservations: map<Key, Key>)
    requires KeptBy(f, capacity, disk, image, signatures, reservations)
    ensures Reopens(f, disk, capacity, image.entries)
    ensures Coherent(image.entries) && |image.entries| <= capacity
    ensures SignIndex(signatures, image.entries) && ReserveIndex(reservations, image.entries)
  {
    hide SignIndex, ReserveIndex, Coherent, Replay;
  }

  class Journal {
    const format: Format
    const capacity: nat
    const maxBytes: nat
    var disk: seq<byte>
    var entries: map<Key, Entry>
    var signatures: map<Key, Key>
    var reservations: map<Key, Key>
    var seqNo: nat
    var bytes: nat
    var poisoned: bool

    /** The memory image is what reopening the file would give. */
    ghost predicate Kept()
      reads this
    {
      KeptBy(format, capacity, disk, Image(entries, seqNo, |disk|), signatures, reservations) && bytes == |disk|
    }

    /** The table in memory and its indexes. */
    ghost predicate Tabled()
      reads this
    {
      && Coherent(entries) && |entries| <= capacity
      && SignIndex(signatures, entries) && ReserveIndex(reservations, entries)
    }

    /** The file can always be reopened; while no write has failed it is exactly the
        table in memory. */
    ghost predicate Valid()
      reads this
    {
      && Lawful(format) && |disk| <= maxBytes && Tabled()
      && (exists es :: Reopens(format, disk, capacity, es))
      && (!poisoned ==> Kept())
    }

    constructor (format: Format, capacity: nat, maxBytes: nat, disk: seq<byte>, image: Image,
                 signatures: map<Key, Key>, reservations: map<Key, Key>)
      requires Lawful(format) && Replay(format, disk, EMPTY, capacity) == Done(image) && image.length == |disk| <= maxBytes
      requires Coherent(image.entries) && |image.entries| <= capacity && image.seqNo <= U64_MAX
      requires SignIndex(signatures, image.entries) && ReserveIndex(reservations, image.entries)
      ensures Valid() && !poisoned && this.disk == disk && entries == image.entries && seqNo == image.seqNo
      ensures this.format == format && this.capacity == capacity && this.maxBytes == maxBytes
    {
      this.format, this.capacity, this.maxBytes := format, capacity, maxBytes;
      this.disk, entries, seqNo, bytes := disk, image.entries, image.seqNo, |disk|;
      this.signatures, this.reservations, poisoned := signatures, reservations, false;
      new;
      assert Reopens(format, disk, capacity, entries);
    }

    /** `open`: replay, cut off a torn tail, check the plans and rebuild the indexes.
        It succeeds exactly on files that replay to a coherent table. */
    static method Open(format: Format, data: seq<byte>, capacity: nat, maxBytes: nat) returns (r: Outcome<Journal>)
      requires Lawful(format)
      ensures r.Done? ==> fresh(r.value) && r.value.Valid() && !r.value.poisoned
                          && r.value.format == format && r.value.capacity == capacity && r.value.maxBytes == maxBytes
      ensures r.Done? ==> r.value.disk <= data && Reopens(format, data, capacity, r.value.entries)
      ensures 0 < capacity <= 4096 && 4096 <= maxBytes <= MAX_JOURNAL && |data| <= maxBytes ==>
                (r.Done? <==> exists es :: Reopens(format, data, capacity, es))
    {
      hide Coherent, Replay, SignIndex, ReserveIndex;
      if capacity == 0 || capacity > 4096 || maxBytes < 4096 || maxBytes > MAX_JOURNAL {
        return Refused(JournalBounds);
      }
      if |data| > maxBytes {
        return Refused(DiskBudget);
      }
      var recovered := Recover(format, data, capacity);
      if recovered.Refused? {
        return Refused(recovered.fault);
      }
      var image := recovered.value;
      RecoveredParts(format, data, capacity, image);
      var list := Listing(image.entries);
      ListingDistinct(list);
      ListingSet(list, image.entries);
      CoherentSplit(image.entries);
      var lined := PlansLined(list);
      if !lined {
        return Refused(PredecessorUnresolved);
      }
      var indexes := Reindex(image.entries, list);
      if indexes.Refused? {
        return Refused(indexes.fault);
      }
      assert Reopens(format, data, capacity, image.entries);
      var journal := new Journal(format, capacity, maxBytes, data[..image.length], image, indexes.value.0, indexes.value.1);
      return Done(journal);
    }

    /** Nothing in memory or on disk moved. */
    twostate predicate Untouched()
      reads this
    {
      && disk == old(disk) && entries == old(entries) && signatures == old(signatures)
      && reservations == old(reservations) && seqNo == old(seqNo) && bytes == old(bytes) && poisoned == old(poisoned)
    }

    /** `append_batch`. `flush` is what the disk does: None is success, Some(k) a
        failure after k bytes. A success applies the whole batch; a failure leaves a
        file that reopens to the old table with some prefix of the batch. */
    method AppendBatch(pending: seq<Entry>, flush: Option<nat>) returns (r: Outcome<()>)
      requires Valid() && SafeBatch(entries, pending, capacity) && Steps(entries, pending)
      modifies this
      ensures Valid()
      ensures r.Done? ==> !old(poisoned) && !poisoned && entries == Apply(old(entries), pending)
                          && disk == old(disk) + Frames(format, pending, old(seqNo)) && seqNo == old(seqNo) + |pending|
      ensures r.Refused? ==> IoFault(r.fault) && entries == old(entries)
      ensures r.Refused? && !r.fault.WriteFailed? ==> Untouched()
      ensures r.Refused? && r.fault.WriteFailed? ==>
                && !old(poisoned) && poisoned && old(disk) <= disk <= old(disk) + Frames(format, pending, old(seqNo))
                && exists m :: TornAt(format, old(entries), pending, disk, capacity, m)
      ensures r.Done? <==> !old(poisoned) && flush.None? && Writable(format, pending, old(seqNo), |old(disk)|, maxBytes)
      ensures r.Refused? ==> (r.fault.Poisoned? <==> old(poisoned))
    {
      if poisoned {
        return Refused(Poisoned);
      }
      var bytesOk, record := Encode(format, pending, seqNo, bytes, maxBytes);
      if bytesOk.Some? {
        return Refused(bytesOk.value);
      }
      hide Kept, Coherent, Fits, SafeBatch, Steps, Apply, Frames, Writable;
      if flush.Some? {
        TearWrite(pending, record, Min(flush.value, |record|));
        return Refused(WriteFailed);
      }
      poisoned := true;
      WriteThrough(pending, record);
      return Done(());
    }

    /** A write that fails after k bytes poisons the journal. */
    method TearWrite(pending: seq<Entry>, record: seq<byte>, k: nat)
      requires Lawful(format) && Kept() && !poisoned && SafeBatch(entries, pending, capacity)
      requires Fits(format, pending, seqNo) && record == Frames(format, pending, seqNo)
      requires k <= |record| && |disk| + |record| <= maxBytes
      modifies this`disk, this`poisoned
      ensures Valid() && poisoned && disk == old(disk) + record[..k]
      ensures exists m :: TornAt(format, entries, pending, disk, capacity, m)
    {
      hide Fits, Lawful, Frames, Reopens, TornAt, SafeBatch, SignIndex, ReserveIndex, Coherent, Replay;
      TornFile(format, disk, Image(entries, seqNo, |disk|), pending, capacity, k);
      ghost var m :| TornAt(format, entries, pending, disk + record[..k], capacity, m);
      TornReopens(format, entries, pending, disk + record[..k], capacity, m);
      poisoned := true;
      disk := disk + record[..k];
      assert TornAt(format, entries, pending, disk, capacity, m);
    }

    /** A write that reaches the disk is followed by its index changes. */
    method WriteThrough(pending: seq<Entry>, record: seq<byte>)
      requires Lawful(format) && Kept() && SafeBatch(entries, pending, capacity) && Steps(entries, pending)
      requires Fits(format, pending, seqNo) && record == Frames(format, pending, seqNo)
      requires |disk| + |record| <= maxBytes && seqNo + |pending| <= U64_MAX
      modifies this
      ensures Valid() && !poisoned && disk == old(disk) + record
      ensures entries == Apply(old(entries), pending) && seqNo == old(seqNo) + |pending|
    {
      hide *;
      KeptFacts();
      ghost var image := Image(entries, seqNo, |disk|);
      var table, signs, reserves := Absorb(entries, signatures, reservations, pending, capacity);
      var after := disk + record;
      AppendedKept(format, capacity, disk, image, signatures, reservations, pending, table, signs, reserves, after);
      Store(after, seqNo + |pending|, table, signs, reserves);
    }

    lemma KeptFacts()
      requires Kept()
      ensures KeptBy(format, capacity, disk, Image(entries, seqNo, |disk|), signatures, reservations)
      ensures SignIndex(signatures, entries) && ReserveIndex(reservations, entries)
    {
      hide SignIndex, ReserveIndex, Coherent, Replay;
    }

    /** The memory image after a durable write. */
    method Store(
      disk: seq<byte>, seqNo: nat, entries: map<Key, Entry>, signatures: map<Key, Key>, reservations: map<Key, Key>)
      requires Lawful(format) && |disk| <= maxBytes
      requires KeptBy(format, capacity, disk, Image(entries, seqNo, |disk|), signatures, reservations)
      modifies this
      ensures Valid() && !poisoned && this.disk == disk && this.entries == entries && this.seqNo == seqNo
      ensures this.signatures == signatures && this.reservations == reservations
    {
      hide KeptBy, Reopens, Lawful, Coherent, SignIndex, ReserveIndex, Replay;
      KeptReopens(format, capacity, disk, Image(entries, seqNo, |disk|), signatures, reservations);
      this.disk, this.bytes, this.seqNo := disk, |disk|, seqNo;
      this.entries, this.signatures, this.reservations := entries, signatures, reservations;
      poisoned := false;
    }

    /** `insert_batch`: either the whole batch is new, prepared, unreserved and next in
        its plans, or it is refused and nothing changes. */
    method InsertBatch(pending: seq<Entry>, flush: Option<nat>) returns (r: Outcome<()>)
      requires Valid()
      modifies this
      ensures Valid()
      ensures r.Done? ==> MayInsert(old(entries), pending, capacity)
      ensures r.Done? ==> !old(poisoned) && !poisoned && entries == Apply(old(entries), pending)
                          && disk == old(disk) + Frames(format, pending, old(seqNo))
      ensures r.Refused? ==> entries == old(entries) && (r.fault.WriteFailed? || Untouched())
      ensures r.Refused? && r.fault.WriteFailed? ==>
                && !old(poisoned) && poisoned && MayInsert(old(entries), pending, capacity)
                && exists m :: TornAt(format, old(entries), pending, disk, capacity, m)
      ensures r.Refused? && MayInsert(old(entries), pending, capacity) ==> IoFault(r.fault)
      ensures r.Done? <==> MayInsert(old(entries), pending, capacity) && !old(poisoned) && flush.None?
                           && Writable(format, pending, old(seqNo), |old(disk)|, maxBytes)
    {
      if |pending| == 0 || |pending| > MAX_BATCH {
        return Refused(BatchBounds);
      }
      if |entries| + |pending| > capacity {
        return Refused(CapacityExceeded);
      }
      var fault := CheckInserts(entries, signatures, reservations, pending);
      if fault.Some? {
        return Refused(fault.value);
      }
      InsertBatchSafe(entries, pending, capacity);
      InsertSteps(entries, pending);
      hide InsertableBatch, SafeBatch, Steps, Kept, Writable;
      r := AppendBatch(pending, flush);
    }

    /** `update_batch`: either every update is a legal transition of a known intent, or
        the batch is refused and nothing changes. */
    method UpdateBatch(updates: seq<Update>, flush: Option<nat>) returns (r: Outcome<()>)
      requires Valid()
      modifies this
      ensures Valid()
      ensures r.Done? ==> UpdatesOk(old(entries), updates) && !old(poisoned) && !poisoned
                          && entries == Apply(old(entries), UpdatedEntries(old(entries), updates))
                          && disk == old(disk) + Frames(format, UpdatedEntries(old(entries), updates), old(seqNo))
      ensures r.Refused? ==> entries == old(entries) && (r.fault.WriteFailed? || Untouched())
      ensures r.Refused? && r.fault.WriteFailed? ==>
                && !old(poisoned) && poisoned && UpdatesOk(old(entries), updates)
                && exists m :: TornAt(format, old(entries), UpdatedEntries(old(entries), updates), disk, capacity, m)
      ensures r.Refused? && UpdatesOk(old(entries), updates) ==> IoFault(r.fault)
      ensures r.Done? <==>
                && UpdatesOk(old(entries), updates) && !old(poisoned) && flush.None?
                && Writable(format, UpdatedEntries(old(entries), updates), old(seqNo), |old(disk)|, maxBytes)
    {
      var checked := CheckUpdates(entries, updates);
      if checked.Refused? {
        return Refused(checked.fault);
      }
      UpdatesUpdatable(entries, updates);
      UpdateBatchSafe(entries, checked.value, capacity);
      UpdateSteps(entries, checked.value);
      hide UpdatableBatch, SafeBatch, Steps, Kept, UpdatesOk, Writable;
      r := AppendBatch(checked.value, flush);
    }

    /** `compact`: rewrite the table as one record per intent. Whatever happens to the
        replacement, the file reopens to the same table. */
    method Compact(swap: Swap) returns (r: Outcome<nat>)
      requires Valid()
      modifies this
      ensures Valid() && entries == old(entries) && signatures == old(signatures) && reservations == old(reservations)
      ensures r.Refused? ==> old(poisoned) || disk == old(disk) || (poisoned && Reopens(format, disk, capacity, entries))
      ensures r.Done? ==> !poisoned && r.value == SaturatingSub(|old(disk)|, |disk|) && seqNo == |entries|
      ensures old(poisoned) ==> r == Refused(Poisoned) && Untouched()
      ensures r.Done? ==> swap.Completed?
                          && exists list :: IsListing(entries, list) && disk == Frames(format, list, 0)
      ensures !old(poisoned) && swap.Completed? && r.Refused? ==>
                exists list :: IsListing(entries, list) && !Writable(format, list, 0, 0, maxBytes)
      ensures !old(poisoned) ==> Reopens(format, disk, capacity, entries)
    {
      if poisoned {
        return Refused(Poisoned);
      }
      hide Kept, Coherent, Replay, Writable, IsListing, Frames;
      r := CompactTable(swap);
    }

    /** The replacement file holds one record for every intent. */
    method CompactTable(swap: Swap) returns (r: Outcome<nat>)
      requires Valid() && !poisoned
      modifies this`disk, this`bytes, this`seqNo, this`poisoned
      ensures Valid() && Reopens(format, disk, capacity, entries)
      ensures r.Refused? ==> disk == old(disk) || poisoned
      ensures r.Done? ==> !poisoned && r.value == SaturatingSub(|old(disk)|, |disk|) && seqNo == |entries|
      ensures r.Done? ==> swap.Completed?
                          && exists list :: IsListing(entries, list) && disk == Frames(format, list, 0)
      ensures swap.Completed? && r.Refused? ==>
                exists list :: IsListing(entries, list) && !Writable(format, list, 0, 0, maxBytes)
    {
      hide *;
      TableListed();
      var list := Listing(entries);
      ListingIs(entries, list);
      var fault, file := Encode(format, list, 0, 0, maxBytes);
      assert IsListing(entries, list);
      if fault.Some? {
        return Refused(fault.value);
      }
      CompactFile(format, entries, list, capacity);
      if swap.NotWritten? {
        return Refused(WriteFailed);
      }
      if swap.NotRenamed? {
        Poison();
        return Refused(WriteFailed);
      }
      r := Replace(file, |list|, swap.Completed?);
    }

    method Poison()
      requires Valid() && !poisoned
      modifies this`poisoned
      ensures Valid() && poisoned
    {
      poisoned := true;
    }

    lemma TableListed()
      requires Valid() && !poisoned
      ensures Lawful(format) && Keyed(entries) && AllSensible(entries) && |entries| <= capacity
      ensures Reopens(format, disk, capacity, entries)
    {
    }

    /** Put the compacted file in place; until the directory is synced the journal is
        poisoned, but either file reopens to the same table. */
    method Replace(file: seq<byte>, records: nat, synced: bool) returns (r: Outcome<nat>)
      requires Valid() && !poisoned && |file| <= maxBytes && records == |entries| <= U64_MAX
      requires Replay(format, file, EMPTY, capacity) == Done(Image(entries, records, |file|))
      modifies this`disk, this`bytes, this`seqNo, this`poisoned
      ensures Valid() && disk == file && Reopens(format, disk, capacity, entries)
      ensures r == (if synced then Done(SaturatingSub(|old(disk)|, |disk|)) else Refused(WriteFailed))
      ensures poisoned == !synced && (synced ==> seqNo == |entries|)
    {
      hide Coherent, Replay, Lawful, SignIndex, ReserveIndex;
      poisoned := true;
      disk := file;
      assert Reopens(format, disk, capacity, entries);
      if !synced {
        return Refused(WriteFailed);
      }
      var saved := SaturatingSub(bytes, |file|);
      bytes := |file|;
      seqNo := records;
      poisoned := false;
      assert Reopens(format, disk, capacity, entries) && Tabled() && Kept();
      return Done(saved);
    }
  }

  lemma CoherentSplit(entries: map<Key, Entry>)
    ensures Coherent(entries) <==>
              && Keyed(entries) && AllSensible(entries) && AllLined(entries.Values)
              && SignaturesUnique(entries) && ReservationsDisjoint(entries)
  {
    hide Keyed, AllSensible, AllLined, SignaturesUnique, ReservationsDisjoint;
  }

  lemma RecoveredParts(f: Format, data: seq<byte>, capacity: nat, image: Image)
    requires Replay(f, data, EMPTY, capacity) == Done(image)
    ensures Keyed(image.entries) && AllSensible(image.entries) && |image.entries| <= capacity
    ensures image.length <= |data| && image.seqNo <= |data|
    ensures Replay(f, data[..image.length], EMPTY, capacity) == Done(image)
  {
    hide Replay;
    ReplayKeyed(f, data, EMPTY, capacity);
    ReplayCapacity(f, data, EMPTY, capacity);
    ReplayCut(f, data, EMPTY, capacity);
  }

  /** Replayed tables are keyed by id and hold sensible entries; sequence numbers
      count records. */
  lemma {:induction false} ReplayKeyed(f: Format, data: seq<byte>, image: Image, capacity: nat)
    requires Replay(f, data, image, capacity).Done? && Keyed(image.entries) && AllSensible(image.entries)
    ensures var done := Replay(f, data, image, capacity).value;
            Keyed(done.entries) && AllSensible(done.entries) && done.seqNo <= image.seqNo + |data|
    decreases |data|
  {
    hide Sensible;
    if |data| >= 8 && HasRecord(data) {
      var next := ReplayOne(f, data, image, capacity).value;
      ReplayKeyed(f, data[8 + FromLe32(data[..4])..], next, capacity);
    }
  }

  /** The whole condition on a batch of inserts. */
  ghost predicate MayInsert(entries: map<Key, Entry>, pending: seq<Entry>, capacity: nat) {
    InsertableBatch(entries, pending) && 0 < |pending| <= MAX_BATCH && |entries| + |pending| <= capacity
  }

  /** The entries of a table, one each, in the order of their ids. */
  ghost predicate IsListing(entries: map<Key, Entry>, list: seq<Entry>) {
    && (forall x :: x in list <==> x in entries.Values)
    && forall i, j :: 0 <= i < j < |list| ==> list[i].id < list[j].id
  }

  lemma ListingIs(entries: map<Key, Entry>, list: seq<Entry>)
    requires forall x :: x in list <==> x in entries.Values
    requires forall i, j :: 0 <= i < j < |list| ==> list[i].id < list[j].id
    ensures IsListing(entries, list)
  {
  }

  /** What the file system does with a compacted file. */
  datatype Swap = Completed | NotWritten | NotRenamed | NotSynced

  predicate IoFault(f: Fault) {
    f.Poisoned? || f.DiskBudget? || f.SequenceOverflow? || f.WriteFailed?
  }

  /** The file reopens to the table after exactly the first m records of the batch. */
  ghost predicate TornAt(
    f: Format, entries: map<Key, Entry>, batch: seq<Entry>, disk: seq<byte>, capacity: nat, m: nat)
  {
    m <= |batch| && Reopens(f, disk, capacity, Apply(entries, batch[..m]))
  }

  /** A batch within the record size, the file budget and the sequence numbers. */
  ghost predicate Writable(f: Format, batch: seq<Entry>, seqNo: nat, bytes: nat, maxBytes: nat) {
    && Fits(f, batch, seqNo)
    && (|batch| > 0 ==> bytes + |Frames(f, batch, seqNo)| <= maxBytes && seqNo + |batch| <= U64_MAX)
  }

  lemma {:induction false} FramesGrow(f: Format, batch: seq<Entry>, seqNo: nat, m: nat, n: nat)
    requires m <= n <= |batch|
    ensures |Frames(f, batch[..m], seqNo)| <= |Frames(f, batch[..n], seqNo)|
    ensures n == |batch| ==> batch[..n] == batch
  {
    if m < n {
      FramesGrow(f, batch, seqNo, m, n - 1);
      assert batch[..n][..n - 1] == batch[..n - 1];
      FramesSnoc(f, batch[..n], seqNo);
    }
  }

  /** Encode a batch record by record, within the record and file bounds. */
  method Encode(f: Format, batch: seq<Entry>, seqNo: nat, bytes: nat, maxBytes: nat)
    returns (fault: Option<Fault>, record: seq<byte>)
    ensures fault.None? ==> Fits(f, batch, seqNo) && record == Frames(f, batch, seqNo)
    ensures fault.None? && |batch| > 0 ==> bytes + |record| <= maxBytes && seqNo + |batch| <= U64_MAX
    ensures fault.None? && |batch| == 0 ==> record == []
    ensures fault.Some? ==> fault.value.DiskBudget? || fault.value.SequenceOverflow?
    ensures fault.None? <==> Writable(f, batch, seqNo, bytes, maxBytes)
  {
    hide Frames, Writable, Framed;
    record := [];
    EncodedNone(f, batch, seqNo, bytes, maxBytes);
    for i := 0 to |batch|
      invariant EncodedTo(f, batch, seqNo, bytes, maxBytes, i, record)
    {
      var body := f.encode(Record(seqNo + i + 1, batch[i]));
      EncodedNext(f, batch, seqNo, bytes, maxBytes, i, record);
      if seqNo + i + 1 > U64_MAX {
        return Some(SequenceOverflow), [];
      }
      if |body| > MAX_RECORD || bytes + |record| + 8 + |body| > maxBytes {
        return Some(DiskBudget), [];
      }
      record := record + Framed(f, body);
    }
    EncodedAll(f, batch, seqNo, bytes, maxBytes, record);
    return None, record;
  }

  /** The first i records of the batch are encoded in `record`. */
  ghost predicate EncodedTo(
    f: Format, batch: seq<Entry>, seqNo: nat, bytes: nat, maxBytes: nat, i: nat, record: seq<byte>)
  {
    i <= |batch| && record == Frames(f, batch[..i], seqNo) && Writable(f, batch[..i], seqNo, bytes, maxBytes)
  }

  lemma EncodedNone(f: Format, batch: seq<Entry>, seqNo: nat, bytes: nat, maxBytes: nat)
    ensures EncodedTo(f, batch, seqNo, bytes, maxBytes, 0, [])
  {
  }

  lemma EncodedAll(f: Format, batch: seq<Entry>, seqNo: nat, bytes: nat, maxBytes: nat, record: seq<byte>)
    requires EncodedTo(f, batch, seqNo, bytes, maxBytes, |batch|, record)
    ensures Writable(f, batch, seqNo, bytes, maxBytes) && Fits(f, batch, seqNo) && record == Frames(f, batch, seqNo)
    ensures |batch| > 0 ==> bytes + |record| <= maxBytes && seqNo + |batch| <= U64_MAX
    ensures |batch| == 0 ==> record == []
  {
    assert batch[..|batch|] == batch;
  }

  /** One record more: the checks pass exactly if the longer prefix is writable, and if
      it is not, neither is the whole batch. */
  lemma EncodedNext(
    f: Format, batch: seq<Entry>, seqNo: nat, bytes: nat, maxBytes: nat, i: nat, record: seq<byte>)
    requires i < |batch| && EncodedTo(f, batch, seqNo, bytes, maxBytes, i, record)
    ensures var body := f.encode(Record(seqNo + i + 1, batch[i]));
            if seqNo + i + 1 <= U64_MAX && |body| <= MAX_RECORD && bytes + |record| + 8 + |body| <= maxBytes
            then EncodedTo(f, batch, seqNo, bytes, maxBytes, i + 1, record + Framed(f, body))
            else !Writable(f, batch, seqNo, bytes, maxBytes)
  {
    var more, body := batch[..i + 1], f.encode(Record(seqNo + i + 1, batch[i]));
    assert more[..i] == batch[..i] && body == BodyAt(f, batch, seqNo, i) == BodyAt(f, more, seqNo, i);
    FramesSnoc(f, more, seqNo);
    FramesGrow(f, batch, seqNo, i + 1, |batch|);
    hide Frames, Framed;
    assert forall j :: 0 <= j < i ==> BodyAt(f, more, seqNo, j) == BodyAt(f, batch[..i], seqNo, j);
  }

  /** The index changes that follow a durable append. */
  method Absorb(
    entries: map<Key, Entry>, signatures: map<Key, Key>, reservations: map<Key, Key>, pending: seq<Entry>,
    ghost capacity: nat)
    returns (entries': map<Key, Entry>, signatures': map<Key, Key>, reservations': map<Key, Key>)
    requires SafeBatch(entries, pending, capacity) && Steps(entries, pending)
    requires SignIndex(signatures, entries) && ReserveIndex(reservations, entries)
    ensures entries' == Apply(entries, pending)
    ensures SignIndex(signatures', entries') && ReserveIndex(reservations', entries')
  {
    hide Coherent, SafeBatch, Steps, Step, SignIndex, ReserveIndex, Apply;
    entries', signatures', reservations' := entries, signatures, reservations;
    ApplyNothing(entries, pending);
    for i := 0 to |pending|
      invariant entries' == Apply(entries, pending[..i])
      invariant SignIndex(signatures', entries') && ReserveIndex(reservations', entries')
    {
      NextStep(entries, pending, i, capacity);
      var e := pending[i];
      SignStep(signatures', entries', e);
      ReserveStep(reservations', entries', e);
      reservations' := UpdateReservations(reservations', e);
      signatures' := signatures'[e.signature := e.id];
      entries' := entries'[e.id := e];
    }
    assert pending[..|pending|] == pending;
  }

  lemma ApplyNothing(entries: map<Key, Entry>, batch: seq<Entry>)
    ensures Apply(entries, batch[..0]) == entries
  {
  }

  lemma NextStep(entries: map<Key, Entry>, batch: seq<Entry>, i: nat, capacity: nat)
    requires SafeBatch(entries, batch, capacity) && Steps(entries, batch) && i < |batch|
    ensures Coherent(Apply(entries, batch[..i])) && Step(Apply(entries, batch[..i]), batch[i])
    ensures Apply(entries, batch[..i + 1]) == Apply(entries, batch[..i])[batch[i].id := batch[i]]
  {
    hide Coherent, Step, Replayable;
    assert batch[..i + 1][..i] == batch[..i];
  }

  /** Crash: the file left by a torn append reopens to a prefix of the batch. */
  lemma TornFile(f: Format, disk: seq<byte>, image: Image, batch: seq<Entry>, capacity: nat, k: nat)
    requires Lawful(f) && Replay(f, disk, EMPTY, capacity) == Done(image) && image.length == |disk|
    requires Fits(f, batch, image.seqNo) && SafeBatch(image.entries, batch, capacity)
    requires k <= |Frames(f, batch, image.seqNo)|
    ensures exists m :: TornAt(f, image.entries, batch, disk + Frames(f, batch, image.seqNo)[..k], capacity, m)
  {
    hide Replay, Fits, Frames, Coherent, Replayable, Lawful;
    var m := CrashPrefix(f, disk, image, batch, capacity, k);
    ImageEntries(f, image, batch[..m]);
    assert TornAt(f, image.entries, batch, disk + Frames(f, batch, image.seqNo)[..k], capacity, m);
  }

  lemma TornReopens(f: Format, entries: map<Key, Entry>, batch: seq<Entry>, disk: seq<byte>, capacity: nat, m: nat)
    requires TornAt(f, entries, batch, disk, capacity, m)
    ensures exists es :: Reopens(f, disk, capacity, es)
  {
    hide Reopens;
  }

  /** A complete append: the file replays to the whole batch applied. */
  lemma AppendedKept(
    f: Format, capacity: nat, disk: seq<byte>, image: Image, signed: map<Key, Key>, reserved: map<Key, Key>,
    batch: seq<Entry>, table: map<Key, Entry>, signatures: map<Key, Key>, reservations: map<Key, Key>, after: seq<byte>)
    requires Lawful(f) && KeptBy(f, capacity, disk, image, signed, reserved)
    requires Fits(f, batch, image.seqNo) && SafeBatch(image.entries, batch, capacity)
    requires image.seqNo + |batch| <= U64_MAX
    requires table == Apply(image.entries, batch) && after == disk + Frames(f, batch, image.seqNo)
    requires SignIndex(signatures, table) && ReserveIndex(reservations, table)
    ensures KeptBy(f, capacity, after, Image(table, image.seqNo + |batch|, |after|), signatures, reservations)
  {
    WholeBatch(image.entries, batch, capacity);
    AppendedReplay(f, disk, image, batch, capacity);
    hide SignIndex, ReserveIndex, Coherent, Replay, SafeBatch, Fits, Frames, Apply, Lawful, Replayable;
  }

  lemma AppendedReplay(f: Format, disk: seq<byte>, image: Image, batch: seq<Entry>, capacity: nat)
    requires Lawful(f) && Replay(f, disk, EMPTY, capacity) == Done(image) && image.length == |disk|
    requires Fits(f, batch, image.seqNo) && Replayable(image.entries, batch, capacity)
    ensures var after := disk + Frames(f, batch, image.seqNo);
            Replay(f, after, EMPTY, capacity) == Done(Image(Apply(image.entries, batch), image.seqNo + |batch|, |after|))
  {
    hide Lawful, Replay, Fits, Replayable, Apply, Frames;
    var all := Frames(f, batch, image.seqNo);
    ReplayAppend(f, disk, all, EMPTY, capacity);
    assert all + [] == all;
    ReplayBatch(f, batch, [], image, capacity);
    NothingLeft(f, ImageOf(f, image, batch), capacity);
  }

  lemma WholeBatch(entries: map<Key, Entry>, batch: seq<Entry>, capacity: nat)
    requires SafeBatch(entries, batch, capacity)
    ensures Replayable(entries, batch, capacity)
    ensures Coherent(Apply(entries, batch)) && |Apply(entries, batch)| <= capacity
  {
    hide Coherent, Apply, Sensible;
    assert batch[..|batch|] == batch;
    assert |Apply(entries, batch[..|batch|])| <= capacity;
  }

  /** The compacted file replays to the same table. */
  lemma CompactFile(f: Format, entries: map<Key, Entry>, list: seq<Entry>, capacity: nat)
    requires Lawful(f) && Fits(f, list, 0) && Keyed(entries) && AllSensible(entries) && |entries| <= capacity
    requires DistinctIds(list) && |list| == |entries| && forall x :: x in list <==> x in entries.Values
    ensures Replay(f, Frames(f, list, 0), EMPTY, capacity) == Done(Image(entries, |list|, |Frames(f, list, 0)|))
  {
    hide *;
    ListReplayable(entries, list, capacity);
    ListRebuilds(entries, list);
    EmptyImage(f, capacity);
    var none := Image(map[], 0, 0);
    AppendedReplay(f, [], none, list, capacity);
    assert [] + Frames(f, list, none.seqNo) == Frames(f, list, 0);
    assert Apply(none.entries, list) == entries;
  }

  lemma EmptyImage(f: Format, capacity: nat)
    ensures Replay(f, [], EMPTY, capacity) == Done(EMPTY) && EMPTY == Image(map[], 0, 0)
  {
  }

  lemma NothingLeft(f: Format, image: Image, capacity: nat)
    ensures Replay(f, [], image, capacity) == Done(image)
  {
  }

  lemma ListReplayable(entries: map<Key, Entry>, list: seq<Entry>, capacity: nat)
    requires AllSensible(entries) && |entries| <= capacity && DistinctIds(list) && |list| == |entries|
    requires forall x :: x in list ==> x in entries.Values
    ensures Replayable(map[], list, capacity)
  {
    hide Sensible, Apply;
    forall i | 0 <= i <= |list|
      ensures |Apply(map[], list[..i])| <= capacity
    {
      ApplySize(map[], list[..i]);
    }
    forall i | 0 <= i < |list|
      ensures Sensible(list[i])
    {
      assert list[i] in list;
      assert list[i] in entries.Values;
    }
  }

  lemma ListRebuilds(entries: map<Key, Entry>, list: seq<Entry>)
    requires Keyed(entries) && DistinctIds(list) && forall x :: x in list <==> x in entries.Values
    ensures Apply(map[], list) == entries
  {
    ApplyMembers(map[], list);
    hide Apply, Mentions;
    var after := Apply(map[], list);
    forall id: Key | id in after
      ensures id in entries && after[id] == entries[id]
    {
      var i := MentionedAt(list, id);
      assert list[i] in list;
      assert list[i] in entries.Values;
      assert after[list[i].id] == list[i];
    }
    forall id: Key | id in entries
      ensures id in after
    {
      assert entries[id] in list;
      var i :| 0 <= i < |list| && list[i] == entries[id];
      assert list[i].id in after;
    }
  }

  // ---------------------------------------------------------------- checking inserts

  ghost predicate InsertsChecked(entries: map<Key, Entry>, pending: seq<Entry>, n: nat)
    requires n <= |pending|
  {
    && (forall i :: 0 <= i < n ==> FreshEntry(entries, pending[i]))
    && (forall i, j :: 0 <= i < j < n ==>
         pending[i].id != pending[j].id && pending[i].signature != pending[j].signature)
    && (forall i, j, r :: 0 <= i < j < n && r in pending[i].resources ==> r !in pending[j].resources)
    && forall i :: 0 <= i < n ==> Admits(pending[i], entries.Values + OthersOf(pending, pending[i]))
  }

  /** The ids, signatures and accounts of the entries checked so far. */
  datatype Claimed = Claimed(ids: set<Key>, signatures: set<Key>, resources: set<Key>)

  ghost predicate Claims(c: Claimed, pending: seq<Entry>, n: nat)
    requires n <= |pending|
  {
    && (forall x :: x in c.ids <==> exists i :: 0 <= i < n && pending[i].id == x)
    && (forall x :: x in c.signatures <==> exists i :: 0 <= i < n && pending[i].signature == x)
    && forall x :: x in c.resources <==> exists i :: 0 <= i < n && x in pending[i].resources
  }

  method CheckInserts(
    entries: map<Key, Entry>, signatures: map<Key, Key>, reservations: map<Key, Key>, pending: seq<Entry>)
    returns (fault: Option<Fault>)
    requires Coherent(entries) && SignIndex(signatures, entries) && ReserveIndex(reservations, entries)
    ensures fault.None? <==> InsertableBatch(entries, pending)
    ensures fault.Some? ==> !IoFault(fault.value)
  {
    assert Keyed(entries);
    var claimed := Claimed({}, {}, {});
    hide Coherent, SignIndex, ReserveIndex, Admits, Sensible, Claims, InsertsChecked;
    NothingClaimed(entries, pending);
    for i := 0 to |pending|
      invariant InsertsChecked(entries, pending, i) && Claims(claimed, pending, i)
    {
      fault, claimed := CheckInsert(entries, signatures, reservations, pending, i, claimed);
      if fault.Some? {
        return;
      }
    }
    AllChecked(entries, pending);
    fault := None;
  }

  lemma NothingClaimed(entries: map<Key, Entry>, pending: seq<Entry>)
    ensures InsertsChecked(entries, pending, 0) && Claims(Claimed({}, {}, {}), pending, 0)
  {
  }

  lemma AllChecked(entries: map<Key, Entry>, pending: seq<Entry>)
    ensures InsertsChecked(entries, pending, |pending|) <==> InsertableBatch(entries, pending)
  {
    hide Admits, FreshEntry, OthersOf;
  }

  /** The entries of a batch with other ids. */
  function Excluding(pending: seq<Entry>, id: Key): seq<Entry> {
    if |pending| == 0 then []
    else
      var n := |pending| - 1;
      if pending[n].id == id then Excluding(pending[..n], id) else Excluding(pending[..n], id) + [pending[n]]
  }

  lemma {:induction false} ExcludingMembers(pending: seq<Entry>, id: Key)
    ensures forall x :: x in Excluding(pending, id) <==> x in pending && x.id != id
  {
    if |pending| > 0 {
      var n := |pending| - 1;
      ExcludingMembers(pending[..n], id);
      assert pending == pending[..n] + [pending[n]];
    }
  }

  lemma {:induction false} ExcludingDistinct(pending: seq<Entry>, id: Key)
    requires DistinctIds(pending)
    ensures DistinctIds(Excluding(pending, id))
  {
    if |pending| > 0 {
      var n := |pending| - 1;
      ExcludingDistinct(pending[..n], id);
      ExcludingMembers(pending[..n], id);
      var rest, all := Excluding(pending[..n], id), Excluding(pending, id);
      forall a | 0 <= a < |rest|
        ensures rest[a].id != pending[n].id
      {
        assert rest[a] in rest;
        assert rest[a] in pending[..n];
      }
    }
  }

  /** The entries another one is admitted against. */
  method PriorOf(entries: map<Key, Entry>, pending: seq<Entry>, e: Entry) returns (prior: seq<Entry>)
    requires Keyed(entries)
    ensures SetOf(prior) == entries.Values + OthersOf(pending, e)
    ensures DistinctIds(pending) && (forall i :: 0 <= i < |pending| ==> pending[i].id !in entries) ==> NoRepeats(prior)
  {
    prior := Listing(entries);
    ghost var table := prior;
    ListingSet(prior, entries);
    for i := 0 to |pending|
      invariant prior == table + Excluding(pending[..i], e.id)
    {
      assert pending[..i + 1][..i] == pending[..i];
      if pending[i].id != e.id {
        prior := prior + [pending[i]];
      }
    }
    assert pending[..|pending|] == pending;
    ExcludingMembers(pending, e.id);
    hide Excluding;
    assert SetOf(prior) == entries.Values + OthersOf(pending, e);
    if DistinctIds(pending) && forall i :: 0 <= i < |pending| ==> pending[i].id !in entries {
      ExcludingDistinct(pending, e.id);
      PriorDistinct(entries, pending, table, Excluding(pending, e.id));
    }
  }

  lemma PriorDistinct(entries: map<Key, Entry>, pending: seq<Entry>, table: seq<Entry>, others: seq<Entry>)
    requires Keyed(entries) && SetOf(table) == entries.Values && DistinctIds(table) && DistinctIds(others)
    requires forall i :: 0 <= i < |pending| ==> pending[i].id !in entries
    requires forall x :: x in others ==> x in pending
    ensures NoRepeats(table + others)
  {
    var all := table + others;
    forall a, b | 0 <= a < b < |all|
      ensures all[a] != all[b]
    {
      if a < |table| <= b {
        assert table[a] in SetOf(table);
        assert others[b - |table|] in others;
      }
    }
  }

  // ---------------------------------------------------------------- one insert

  /** None of the accounts is reserved or claimed, and none is named twice. */
  ghost predicate Free(resources: seq<Key>, reservations: map<Key, Key>, claimed: set<Key>) {
    && (forall r :: r in resources ==> r !in reservations && r !in claimed)
    && forall a, b :: 0 <= a < b < |resources| ==> resources[a] != resources[b]
  }

  method ClaimResources(resources: seq<Key>, reservations: map<Key, Key>, claimed: set<Key>)
    returns (free: bool, after: set<Key>)
    ensures free <==> Free(resources, reservations, claimed)
    ensures free ==> after == claimed + set x | x in resources
  {
    after := claimed;
    for k := 0 to |resources|
      invariant Free(resources[..k], reservations, claimed)
      invariant after == claimed + set x | x in resources[..k]
    {
      var r := resources[k];
      assert resources[..k + 1] == resources[..k] + [r] && r in resources;
      if r in reservations || r in after {
        return false, after;
      }
      after := after + {r};
    }
    assert resources[..|resources|] == resources;
    return true, after;
  }

  ghost predicate InsertOk(
    entries: map<Key, Entry>, signatures: map<Key, Key>, reservations: map<Key, Key>, pending: seq<Entry>, i: nat,
    c: Claimed)
    requires i < |pending|
  {
    var e := pending[i];
    && Sensible(e) && Admits(e, entries.Values + OthersOf(pending, e))
    && e.id !in entries && e.id !in c.ids && e.signature !in signatures && e.signature !in c.signatures
    && e.phase == Prepared && e.attempts == 0 && Free(e.resources, reservations, c.resources)
  }

  lemma FreshFree(entries: map<Key, Entry>, signatures: map<Key, Key>, reservations: map<Key, Key>, e: Entry)
    requires SignIndex(signatures, entries) && ReserveIndex(reservations, entries)
    ensures (forall id :: id in entries ==> entries[id].signature != e.signature) <==> e.signature !in signatures
    ensures (forall id, r :: id in entries && r in e.resources ==> !Holds(entries[id], r))
            <==> forall r :: r in e.resources ==> r !in reservations
  {
  }

  /** An insertable batch passes every check. */
  lemma InsertPasses(
    entries: map<Key, Entry>, signatures: map<Key, Key>, reservations: map<Key, Key>, pending: seq<Entry>, i: nat,
    c: Claimed)
    requires SignIndex(signatures, entries) && ReserveIndex(reservations, entries)
    requires i < |pending| && Claims(c, pending, i) && InsertableBatch(entries, pending)
    ensures InsertOk(entries, signatures, reservations, pending, i, c)
  {
    FreshFree(entries, signatures, reservations, pending[i]);
    assert FreshEntry(entries, pending[i]);
    hide SignIndex, ReserveIndex, Sensible, Admits, Holds, OthersOf;
  }

  lemma InsertIsFresh(
    entries: map<Key, Entry>, signatures: map<Key, Key>, reservations: map<Key, Key>, pending: seq<Entry>, i: nat,
    c: Claimed)
    requires SignIndex(signatures, entries) && ReserveIndex(reservations, entries)
    requires i < |pending| && InsertOk(entries, signatures, reservations, pending, i, c)
    ensures FreshEntry(entries, pending[i]) && Admits(pending[i], entries.Values + OthersOf(pending, pending[i]))
  {
    hide SignIndex, ReserveIndex, Sensible, Admits, Holds, OthersOf;
    FreshFree(entries, signatures, reservations, pending[i]);
  }

  lemma InsertApart(
    entries: map<Key, Entry>, signatures: map<Key, Key>, reservations: map<Key, Key>, pending: seq<Entry>, i: nat,
    c: Claimed, j: nat)
    requires j < i < |pending| && Claims(c, pending, i)
    requires InsertOk(entries, signatures, reservations, pending, i, c)
    ensures pending[j].id != pending[i].id && pending[j].signature != pending[i].signature
    ensures forall r :: r in pending[j].resources ==> r !in pending[i].resources
  {
    hide Sensible, Admits, OthersOf;
    assert pending[j].id in c.ids && pending[j].signature in c.signatures;
    assert forall r :: r in pending[j].resources ==> r in c.resources;
  }

  lemma InsertNext(
    entries: map<Key, Entry>, signatures: map<Key, Key>, reservations: map<Key, Key>, pending: seq<Entry>, i: nat,
    c: Claimed)
    requires SignIndex(signatures, entries) && ReserveIndex(reservations, entries)
    requires i < |pending| && Claims(c, pending, i) && InsertsChecked(entries, pending, i)
    requires InsertOk(entries, signatures, reservations, pending, i, c)
    ensures InsertsChecked(entries, pending, i + 1)
  {
    hide SignIndex, ReserveIndex, Admits, OthersOf, FreshEntry, Claims, InsertOk;
    InsertIsFresh(entries, signatures, reservations, pending, i, c);
    forall j | 0 <= j < i
      ensures pending[j].id != pending[i].id && pending[j].signature != pending[i].signature
      ensures forall r :: r in pending[j].resources ==> r !in pending[i].resources
    {
      InsertApart(entries, signatures, reservations, pending, i, c, j);
    }
  }

  lemma ClaimsNext(c: Claimed, pending: seq<Entry>, i: nat)
    requires i < |pending| && Claims(c, pending, i)
    ensures var e := pending[i];
            Claims(Claimed(c.ids + {e.id}, c.signatures + {e.signature}, c.resources + set x | x in e.resources),
                   pending, i + 1)
  {
    var e := pending[i];
    var ids, signatures, resources := c.ids + {e.id}, c.signatures + {e.signature}, c.resources + set x | x in e.resources;
    forall x: Key
      ensures x in ids <==> exists j :: 0 <= j < i + 1 && pending[j].id == x
      ensures x in signatures <==> exists j :: 0 <= j < i + 1 && pending[j].signature == x
      ensures x in resources <==> exists j :: 0 <= j < i + 1 && x in pending[j].resources
    {
      if x in c.ids {
        var j :| 0 <= j < i && pending[j].id == x;
      }
      if x in c.signatures {
        var j :| 0 <= j < i && pending[j].signature == x;
      }
      if x in c.resources {
        var j :| 0 <= j < i && x in pending[j].resources;
      }
    }
  }

  /** The checks of one new entry: its kind, its plan, its id, its signature, its phase
      and its accounts. */
  method CheckInsert(
    entries: map<Key, Entry>, signatures: map<Key, Key>, reservations: map<Key, Key>, pending: seq<Entry>, i: nat,
    c: Claimed)
    returns (fault: Option<Fault>, c': Claimed)
    requires Keyed(entries) && SignIndex(signatures, entries) && ReserveIndex(reservations, entries)
    requires i < |pending| && InsertsChecked(entries, pending, i) && Claims(c, pending, i)
    ensures fault.None? ==> InsertsChecked(entries, pending, i + 1) && Claims(c', pending, i + 1)
    ensures fault.Some? ==> !InsertableBatch(entries, pending) && !IoFault(fault.value)
  {
    var e := pending[i];
    c' := c;
    ghost var insertable := InsertableBatch(entries, pending);
    if insertable {
      InsertPasses(entries, signatures, reservations, pending, i, c);
      BatchParts(entries, pending, |pending|);
      assert pending[..|pending|] == pending;
    }
    hide SignIndex, ReserveIndex, Sensible, Admits, OthersOf, Claims, InsertsChecked, InsertableBatch, Free;
    var sensible := CheckSensible(e);
    if !sensible {
      return Some(AmbiguousEconomics), c;
    }
    var prior := PriorOf(entries, pending, e);
    var admitted := Admission(e, prior);
    if !admitted {
      return Some(AlreadyRecorded), c;
    }
    if e.id in entries || e.id in c.ids {
      return Some(DuplicateIntent), c;
    }
    if e.signature in signatures || e.signature in c.signatures {
      return Some(SignatureReused), c;
    }
    if e.phase != Prepared || e.attempts != 0 {
      return Some(NotPrepared), c;
    }
    var free, resources := ClaimResources(e.resources, reservations, c.resources);
    if !free {
      return Some(ReservationsOverlap), c;
    }
    InsertNext(entries, signatures, reservations, pending, i, c);
    ClaimsNext(c, pending, i);
    return None, Claimed(c.ids + {e.id}, c.signatures + {e.signature}, resources);
  }

  // ---------------------------------------------------------------- checking updates

  /** A legal transition of a known intent. */
  predicate UpdateOk(entries: map<Key, Entry>, u: Update) {
    u.id in entries && Allowed(entries[u.id].phase, u.phase) && (u.attempt ==> entries[u.id].attempts < U32_MAX)
  }

  function UpdatedEntry(entries: map<Key, Entry>, u: Update): Entry
    requires UpdateOk(entries, u)
  {
    var e := entries[u.id];
    e.(phase := u.phase, attempts := if u.attempt then e.attempts + 1 else e.attempts)
  }

  ghost predicate UpdatesOk(entries: map<Key, Entry>, updates: seq<Update>) {
    && 0 < |updates| <= MAX_BATCH
    && (forall i :: 0 <= i < |updates| ==> UpdateOk(entries, updates[i]))
    && forall i, j :: 0 <= i < j < |updates| ==> updates[i].id != updates[j].id
  }

  function UpdatedEntries(entries: map<Key, Entry>, updates: seq<Update>): seq<Entry>
    requires forall i :: 0 <= i < |updates| ==> UpdateOk(entries, updates[i])
  {
    seq(|updates|, i requires 0 <= i < |updates| => UpdatedEntry(entries, updates[i]))
  }

  lemma UpdatesUpdatable(entries: map<Key, Entry>, updates: seq<Update>)
    requires UpdatesOk(entries, updates) && Keyed(entries)
    ensures UpdatableBatch(entries, UpdatedEntries(entries, updates))
  {
  }

  /** The first n updates are legal and name different intents. */
  ghost predicate UpdatesChecked(entries: map<Key, Entry>, updates: seq<Update>, n: nat, ids: set<Key>)
    requires n <= |updates|
  {
    && (forall j :: 0 <= j < n ==> UpdateOk(entries, updates[j]))
    && (forall j, k :: 0 <= j < k < n ==> updates[j].id != updates[k].id)
    && forall x :: x in ids <==> exists j :: 0 <= j < n && updates[j].id == x
  }

  lemma UpdateChecked(entries: map<Key, Entry>, updates: seq<Update>, n: nat, ids: set<Key>)
    requires n < |updates| && UpdatesChecked(entries, updates, n, ids)
    requires UpdateOk(entries, updates[n]) && updates[n].id !in ids
    ensures UpdatesChecked(entries, updates, n + 1, ids + {updates[n].id})
  {
    hide UpdateOk;
    var more := ids + {updates[n].id};
    forall x: Key
      ensures x in more <==> exists j :: 0 <= j < n + 1 && updates[j].id == x
    {
      if x in ids {
        var j :| 0 <= j < n && updates[j].id == x;
      }
    }
  }

  lemma UpdateTwice(entries: map<Key, Entry>, updates: seq<Update>, n: nat, ids: set<Key>)
    requires n < |updates| && UpdatesChecked(entries, updates, n, ids) && updates[n].id in ids
    ensures !UpdatesOk(entries, updates)
  {
    var j :| 0 <= j < n && updates[j].id == updates[n].id;
  }

  method CheckUpdates(entries: map<Key, Entry>, updates: seq<Update>) returns (r: Outcome<seq<Entry>>)
    ensures r.Done? <==> UpdatesOk(entries, updates)
    ensures r.Done? ==> r.value == UpdatedEntries(entries, updates)
    ensures r.Refused? ==> !IoFault(r.fault)
  {
    if |updates| == 0 || |updates| > MAX_BATCH {
      return Refused(BatchBounds);
    }
    var ids: set<Key>, pending: seq<Entry> := {}, [];
    for i := 0 to |updates|
      invariant UpdatesChecked(entries, updates, i, ids)
      invariant |pending| == i && forall j :: 0 <= j < i ==> pending[j] == UpdatedEntry(entries, updates[j])
    {
      var u := updates[i];
      if u.id in ids {
        UpdateTwice(entries, updates, i, ids);
        return Refused(DuplicateIntent);
      }
      if u.id !in entries {
        return Refused(UnknownIntent);
      }
      if !Allowed(entries[u.id].phase, u.phase) {
        return Refused(PhaseRefused);
      }
      if u.attempt && entries[u.id].attempts >= U32_MAX {
        return Refused(AttemptOverflow);
      }
      UpdateChecked(entries, updates, i, ids);
      ids := ids + {u.id};
      pending := pending + [UpdatedEntry(entries, u)];
    }
    return Done(pending);
  }
}
