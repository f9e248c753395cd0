/** The append-only log: length-framed, checksummed records, and their replay. */
module Log {
  import opened Base
  import opened Entries

  type byte = n: nat | n < 256

  const MAX_RECORD: nat := 16 * 1024

  datatype Record = Record(seqNo: nat, entry: Entry)

  /** Serialization and checksum, as functions of this journal. */
  datatype Format = Format(encode: Record -> seq<byte>, decode: seq<byte> -> Option<Record>, crc: seq<byte> -> u32)

  /** What is assumed of them: a record can be read back. */
  ghost predicate Lawful(f: Format) {
    forall r :: f.decode(f.encode(r)) == Some(r)
  }

  // ---------------------------------------------------------------- framing

  /** Little-endian 32-bit numbers. */
  function Le32(n: u32): (s: seq<byte>)
    ensures |s| == 4
  {
    [n % 0x100, n / 0x100 % 0x100, n / 0x1_0000 % 0x100, n / 0x100_0000]
  }

  function FromLe32(s: seq<byte>): (n: u32)
    requires |s| == 4
  {
    var a: int, b: int, c: int, d: int := s[0], s[1], s[2], s[3];
    a + 0x100 * b + 0x1_0000 * c + 0x100_0000 * d
  }

  lemma Le32RoundTrip(n: u32)
    ensures FromLe32(Le32(n)) == n
  {
    var a, b := n / 0x100, n / 0x1_0000;
    assert n == n % 0x100 + 0x100 * a;
    assert a == a % 0x100 + 0x100 * (a / 0x100);
    assert a / 0x100 == b;
    assert b == b % 0x100 + 0x100 * (b / 0x100);
    assert b / 0x100 == n / 0x100_0000;
  }

  /** Length (cut to 32 bits), checksum and body. */
  function Framed(f: Format, body: seq<byte>): (s: seq<byte>)
    ensures |s| == 8 + |body|
  {
    Le32(|body| % 0x1_0000_0000) + Le32(f.crc(body)) + body
  }

  lemma FrameParts(f: Format, body: seq<byte>)
    requires |body| <= MAX_RECORD
    ensures var s := Framed(f, body);
            && FromLe32(s[..4]) == |body| && FromLe32(s[4..8]) == f.crc(body) && s[8..] == body
  {
    var s := Framed(f, body);
    assert s[..4] == Le32(|body|) && s[4..8] == Le32(f.crc(body));
    Le32RoundTrip(|body|);
    Le32RoundTrip(f.crc(body));
  }

  // ---------------------------------------------------------------- replay

  /** At most one economic expectation, and a basket bound to its tranche. */
  ghost predicate Sensible(e: Entry) {
    && (e.basket.Some? && e.basket.value.investment.Some? ==>
          Investment.Bound(e.basket.value, e.basket.value.investment.value))
    && !(e.exposure.Some? && e.swap.Some?) && !(e.exposure.Some? && e.basket.Some?) && !(e.swap.Some? && e.basket.Some?)
  }

  import Investment

  method CheckSensible(e: Entry) returns (ok: bool)
    ensures ok <==> Sensible(e)
  {
    if e.basket.Some? && e.basket.value.investment.Some? {
      var bound := Investment.CheckBinding(e.basket.value, e.basket.value.investment.value);
      if !bound {
        return false;
      }
    }
    return !(e.exposure.Some? && e.swap.Some?) && !(e.exposure.Some? && e.basket.Some?)
           && !(e.swap.Some? && e.basket.Some?);
  }

  /** The replayed state: the last record of every id, the last sequence number and
      the length of the complete records. */
  datatype Image = Image(entries: map<Key, Entry>, seqNo: nat, length: nat)

  /** A complete record starts the data. */
  predicate HasRecord(data: seq<byte>) {
    |data| >= 8 && FromLe32(data[..4]) <= |data| - 8
  }

  /** What one complete record does to the image, or why it is refused. */
  ghost function ReplayOne(f: Format, data: seq<byte>, image: Image, capacity: nat): Outcome<Image>
    requires HasRecord(data)
  {
    var n := FromLe32(data[..4]);
    var body := data[8..8 + n];
    if f.crc(body) != FromLe32(data[4..8]) then Refused(Checksum)
    else if f.decode(body).None? then Refused(Decoding)
    else
      var r := f.decode(body).value;
      if !Sensible(r.entry) then Refused(AmbiguousEconomics)
      else if r.seqNo != image.seqNo + 1 then Refused(SequenceCorrupt)
      else
        var entries := image.entries[r.entry.id := r.entry];
        if |entries| > capacity then Refused(CapacityExceeded)
        else Done(Image(entries, r.seqNo, image.length + 8 + n))
  }

  /** Replaying the data from an image; an incomplete last record ends it. */
  ghost function Replay(f: Format, data: seq<byte>, image: Image, capacity: nat): Outcome<Image>
    decreases |data|
  {
    if |data| < 8 then Done(image)
    else if FromLe32(data[..4]) > MAX_RECORD then Refused(RecordSize)
    else if !HasRecord(data) then Done(image)
    else
      var next := ReplayOne(f, data, image, capacity);
      if next.Refused? then next else Replay(f, data[8 + FromLe32(data[..4])..], next.value, capacity)
  }

  const EMPTY: Image := Image(map[], 0, 0)

  /** One complete record of the replay loop. */
  method RecoverOne(f: Format, rest: seq<byte>, image: Image, capacity: nat) returns (r: Outcome<Image>)
    requires HasRecord(rest)
    ensures r == ReplayOne(f, rest, image, capacity)
    ensures r.Done? ==> r.value.length == image.length + 8 + FromLe32(rest[..4])
  {
    var n := FromLe32(rest[..4]);
    var body := rest[8..8 + n];
    if f.crc(body) != FromLe32(rest[4..8]) {
      return Refused(Checksum);
    }
    var decoded := f.decode(body);
    if decoded.None? {
      return Refused(Decoding);
    }
    var record := decoded.value;
    var sensible := CheckSensible(record.entry);
    if !sensible {
      return Refused(AmbiguousEconomics);
    }
    if record.seqNo != image.seqNo + 1 {
      return Refused(SequenceCorrupt);
    }
    var entries := image.entries[record.entry.id := record.entry];
    if |entries| > capacity {
      return Refused(CapacityExceeded);
    }
    return Done(Image(entries, record.seqNo, image.length + 8 + n));
  }

  /** The replay loop of `open`. */
  method Recover(f: Format, data: seq<byte>, capacity: nat) returns (r: Outcome<Image>)
    ensures r == Replay(f, data, EMPTY, capacity)
  {
    hide ReplayOne;
    var p: nat, image := 0, EMPTY;
    assert data[0..] == data;
    while p < |data|
      invariant p <= |data| && image.length == p
      invariant Replay(f, data[p..], image, capacity) == Replay(f, data, EMPTY, capacity)
    {
      var rest := data[p..];
      if |rest| < 8 {
        break;
      }
      var n := FromLe32(rest[..4]);
      if n > MAX_RECORD {
        return Refused(RecordSize);
      }
      if |rest| - 8 < n {
        break;
      }
      var next := RecoverOne(f, rest, image, capacity);
      if next.Refused? {
        return next;
      }
      assert rest[8 + n..] == data[p + 8 + n..];
      image := next.value;
      p := p + 8 + n;
    }
    return Done(image);
  }

  // ---------------------------------------------------------------- composition

  lemma ReplayOneShape(f: Format, data: seq<byte>, image: Image, capacity: nat)
    requires HasRecord(data) && ReplayOne(f, data, image, capacity).Done?
    ensures ReplayOne(f, data, image, capacity).value.length == image.length + 8 + FromLe32(data[..4])
    ensures ReplayOne(f, data, image, capacity).value.seqNo == image.seqNo + 1
  {
  }

  /** Records already replayed do not depend on what follows them. */
  lemma ReplayOneOfPrefix(f: Format, data: seq<byte>, more: seq<byte>, image: Image, capacity: nat)
    requires HasRecord(data)
    ensures HasRecord(data + more) && FromLe32((data + more)[..4]) == FromLe32(data[..4])
    ensures ReplayOne(f, data + more, image, capacity) == ReplayOne(f, data, image, capacity)
  {
    var all, n := data + more, FromLe32(data[..4]);
    assert all[..4] == data[..4] && all[4..8] == data[4..8] && all[8..8 + n] == data[8..8 + n];
  }

  /** Replay of complete records followed by anything continues from their image. */
  lemma {:induction false} ReplayAppend(f: Format, data: seq<byte>, more: seq<byte>, image: Image, capacity: nat)
    requires Replay(f, data, image, capacity).Done?
    requires Replay(f, data, image, capacity).value.length == image.length + |data|
    ensures Replay(f, data + more, image, capacity) == Replay(f, more, Replay(f, data, image, capacity).value, capacity)
    decreases |data|
  {
    if |data| < 8 || !HasRecord(data) {
      assert |data| == 0;
      assert data + more == more;
    } else {
      var n := FromLe32(data[..4]);
      var next := ReplayOne(f, data, image, capacity);
      ReplayOneOfPrefix(f, data, more, image, capacity);
      ReplayOneShape(f, data, image, capacity);
      assert (data + more)[8 + n..] == data[8 + n..] + more;
      hide ReplayOne;
      ReplayAppend(f, data[8 + n..], more, next.value, capacity);
    }
  }

  /** A torn record leaves the image alone. */
  lemma ReplayTorn(f: Format, body: seq<byte>, k: nat, image: Image, capacity: nat)
    requires |body| <= MAX_RECORD && k < 8 + |body|
    ensures Replay(f, Framed(f, body)[..k], image, capacity) == Done(image)
  {
    var s := Framed(f, body);
    FrameParts(f, body);
    if k >= 8 {
      assert s[..k][..4] == s[..4];
    }
  }

  // ---------------------------------------------------------------- batches

  /** The body of the i-th record of a batch numbered after `seqNo`. */
  function BodyAt(f: Format, batch: seq<Entry>, seqNo: nat, i: nat): seq<byte>
    requires i < |batch|
  {
    f.encode(Record(seqNo + 1 + i, batch[i]))
  }

  /** The bytes of a batch. */
  function Frames(f: Format, batch: seq<Entry>, seqNo: nat): (s: seq<byte>) {
    if |batch| == 0 then []
    else Frames(f, batch[..|batch| - 1], seqNo) + Framed(f, BodyAt(f, batch, seqNo, |batch| - 1))
  }

  ghost predicate Fits(f: Format, batch: seq<Entry>, seqNo: nat) {
    forall i :: 0 <= i < |batch| ==> |BodyAt(f, batch, seqNo, i)| <= MAX_RECORD
  }

  function Apply(entries: map<Key, Entry>, batch: seq<Entry>): map<Key, Entry> {
    if |batch| == 0 then entries
    else Apply(entries, batch[..|batch| - 1])[batch[|batch| - 1].id := batch[|batch| - 1]]
  }

  /** Every entry of the batch may be replayed and the table never overflows. */
  ghost predicate Replayable(entries: map<Key, Entry>, batch: seq<Entry>, capacity: nat) {
    && (forall i :: 0 <= i < |batch| ==> Sensible(batch[i]))
    && forall i :: 0 <= i <= |batch| ==> |Apply(entries, batch[..i])| <= capacity
  }

  function ImageOf(f: Format, image: Image, batch: seq<Entry>): Image {
    Image(Apply(image.entries, batch), image.seqNo + |batch|, image.length + |Frames(f, batch, image.seqNo)|)
  }

  lemma ReplayFrame(f: Format, e: Entry, more: seq<byte>, image: Image, capacity: nat)
    requires Lawful(f) && Sensible(e) && |image.entries[e.id := e]| <= capacity
    requires |f.encode(Record(image.seqNo + 1, e))| <= MAX_RECORD
    ensures var body := f.encode(Record(image.seqNo + 1, e));
            Replay(f, Framed(f, body) + more, image, capacity)
            == Replay(f, more, Image(image.entries[e.id := e], image.seqNo + 1, image.length + 8 + |body|), capacity)
  {
    hide Sensible;
    var body := f.encode(Record(image.seqNo + 1, e));
    var s := Framed(f, body);
    FrameParts(f, body);
    var all := s + more;
    assert all[..4] == s[..4] && all[4..8] == s[4..8] && all[8..8 + |body|] == body && all[8 + |body|..] == more;
  }

  lemma BatchPrefix(f: Format, entries: map<Key, Entry>, batch: seq<Entry>, seqNo: nat, capacity: nat, m: nat)
    requires Fits(f, batch, seqNo) && Replayable(entries, batch, capacity) && m <= |batch|
    ensures Fits(f, batch[..m], seqNo) && Replayable(entries, batch[..m], capacity)
  {
    FitsPrefix(f, batch, seqNo, m);
    hide Sensible, Apply;
    forall i | 0 <= i <= m
      ensures |Apply(entries, batch[..m][..i])| <= capacity
    {
      assert batch[..m][..i] == batch[..i];
    }
  }

  lemma FitsPrefix(f: Format, batch: seq<Entry>, seqNo: nat, m: nat)
    requires Fits(f, batch, seqNo) && m <= |batch|
    ensures Fits(f, batch[..m], seqNo)
  {
    forall i | 0 <= i < m
      ensures |BodyAt(f, batch[..m], seqNo, i)| <= MAX_RECORD
    {
      assert |BodyAt(f, batch, seqNo, i)| <= MAX_RECORD;
    }
  }

  lemma FramesSnoc(f: Format, batch: seq<Entry>, seqNo: nat)
    requires |batch| > 0
    ensures Frames(f, batch, seqNo)
            == Frames(f, batch[..|batch| - 1], seqNo) + Framed(f, BodyAt(f, batch, seqNo, |batch| - 1))
  {
  }

  lemma ImageSnoc(f: Format, image: Image, batch: seq<Entry>)
    requires |batch| > 0
    ensures var n := |batch| - 1;
            var before, e, body := ImageOf(f, image, batch[..n]), batch[n], BodyAt(f, batch, image.seqNo, n);
            && body == f.encode(Record(before.seqNo + 1, e))
            && ImageOf(f, image, batch) == Image(before.entries[e.id := e], before.seqNo + 1, before.length + 8 + |body|)
  {
    hide Framed;
    FramesSnoc(f, batch, image.seqNo);
  }

  lemma LastReplayable(entries: map<Key, Entry>, batch: seq<Entry>, capacity: nat)
    requires Replayable(entries, batch, capacity) && |batch| > 0
    ensures var n := |batch| - 1;
            Sensible(batch[n]) && |Apply(entries, batch[..n])[batch[n].id := batch[n]]| <= capacity
  {
    hide Sensible;
    assert batch[..|batch|] == batch;
    assert |Apply(entries, batch[..|batch|])| <= capacity;
  }

  /** Replaying a whole batch applies it. */
  lemma {:induction false} ReplayBatch(f: Format, batch: seq<Entry>, more: seq<byte>, image: Image, capacity: nat)
    requires Lawful(f) && Fits(f, batch, image.seqNo) && Replayable(image.entries, batch, capacity)
    ensures Replay(f, Frames(f, batch, image.seqNo) + more, image, capacity)
            == Replay(f, more, ImageOf(f, image, batch), capacity)
  {
    hide Replay, Sensible, Framed, Lawful, Replayable;
    if |batch| == 0 {
      assert Frames(f, batch, image.seqNo) + more == more;
    } else {
      var m := |batch| - 1;
      var frame := Framed(f, BodyAt(f, batch, image.seqNo, m));
      BatchPrefix(f, image.entries, batch, image.seqNo, capacity, m);
      FramesSnoc(f, batch, image.seqNo);
      ImageSnoc(f, image, batch);
      LastReplayable(image.entries, batch, capacity);
      assert |BodyAt(f, batch, image.seqNo, m)| <= MAX_RECORD;
      hide *;
      assert Frames(f, batch, image.seqNo) + more == Frames(f, batch[..m], image.seqNo) + (frame + more);
      ReplayBatch(f, batch[..m], frame + more, image, capacity);
      ImageEntries(f, image, batch[..m]);
      ReplayFrame(f, batch[m], more, ImageOf(f, image, batch[..m]), capacity);
    }
  }

  lemma ImageEntries(f: Format, image: Image, batch: seq<Entry>)
    ensures ImageOf(f, image, batch).entries == Apply(image.entries, batch)
    ensures ImageOf(f, image, batch).length == image.length + |Frames(f, batch, image.seqNo)|
  {
  }

  /** The first k bytes of a batch: its first m records and a torn rest. */
  ghost predicate SplitAt(f: Format, batch: seq<Entry>, seqNo: nat, k: nat, m: nat, tail: seq<byte>) {
    && m <= |batch| && k <= |Frames(f, batch, seqNo)|
    && Frames(f, batch, seqNo)[..k] == Frames(f, batch[..m], seqNo) + tail
    && (m == |batch| ==> tail == [])
    && (m < |batch| ==>
          var frame := Framed(f, BodyAt(f, batch, seqNo, m));
          |tail| < |frame| && tail == frame[..|tail|])
    && (k == |Frames(f, batch, seqNo)| ==> m == |batch|)
  }

  lemma SplitLater(f: Format, batch: seq<Entry>, seqNo: nat, k: nat, m: nat, tail: seq<byte>)
    requires |batch| > 0 && k < |Frames(f, batch[..|batch| - 1], seqNo)|
    requires SplitAt(f, batch[..|batch| - 1], seqNo, k, m, tail)
    ensures SplitAt(f, batch, seqNo, k, m, tail)
  {
    FramesSnoc(f, batch, seqNo);
    var n := |batch| - 1;
    hide Frames, Framed;
    var before, all := Frames(f, batch[..n], seqNo), Frames(f, batch, seqNo);
    assert all[..k] == before[..k];
    assert batch[..n][..m] == batch[..m];
    assert |before[..k]| == |Frames(f, batch[..n][..m], seqNo)| + |tail|;
    assert m != n;
  }

  /** Every byte prefix of a batch is some of its records and a torn one. */
  lemma {:induction false} PrefixOfFrames(f: Format, batch: seq<Entry>, seqNo: nat, k: nat)
    returns (m: nat, tail: seq<byte>)
    requires k <= |Frames(f, batch, seqNo)|
    ensures SplitAt(f, batch, seqNo, k, m, tail)
  {
    var all := Frames(f, batch, seqNo);
    if k == |all| {
      m, tail := |batch|, [];
      assert batch[..m] == batch && all[..k] == all;
    } else {
      var n := |batch| - 1;
      FramesSnoc(f, batch, seqNo);
      var before := Frames(f, batch[..n], seqNo);
      hide Frames, Framed;
      if k >= |before| {
        m, tail := n, all[|before|..k];
        assert all[..k] == before + tail;
      } else {
        m, tail := PrefixOfFrames(f, batch[..n], seqNo, k);
        SplitLater(f, batch, seqNo, k, m, tail);
      }
    }
  }

  /** Crash safety of an append: whatever prefix of the batch's bytes reached the
      disk, replay succeeds with exactly a prefix of the batch applied. */
  lemma CrashPrefix(f: Format, disk: seq<byte>, image: Image, batch: seq<Entry>, capacity: nat, k: nat) returns (m: nat)
    requires Lawful(f) && Replay(f, disk, EMPTY, capacity) == Done(image) && image.length == |disk|
    requires Fits(f, batch, image.seqNo) && Replayable(image.entries, batch, capacity)
    requires k <= |Frames(f, batch, image.seqNo)|
    ensures m <= |batch|
    ensures Replay(f, disk + Frames(f, batch, image.seqNo)[..k], EMPTY, capacity) == Done(ImageOf(f, image, batch[..m]))
    ensures k == |Frames(f, batch, image.seqNo)| ==> m == |batch|
  {
    var tail;
    m, tail := PrefixOfFrames(f, batch, image.seqNo, k);
    BatchPrefix(f, image.entries, batch, image.seqNo, capacity, m);
    TornTail(f, batch, image, capacity, k, m, tail);
    assert EMPTY.length == 0;
    hide Replay, Sensible, Framed, Frames, ImageOf, Lawful, Fits, Replayable;
    ReplayAppend(f, disk, Frames(f, batch, image.seqNo)[..k], EMPTY, capacity);
    ReplayBatch(f, batch[..m], tail, image, capacity);
  }

  lemma TornTail(f: Format, batch: seq<Entry>, image: Image, capacity: nat, k: nat, m: nat, tail: seq<byte>)
    requires Fits(f, batch, image.seqNo) && SplitAt(f, batch, image.seqNo, k, m, tail)
    ensures Replay(f, tail, ImageOf(f, image, batch[..m]), capacity) == Done(ImageOf(f, image, batch[..m]))
  {
    if m < |batch| {
      assert |BodyAt(f, batch, image.seqNo, m)| <= MAX_RECORD;
      hide Replay, Framed, Frames, ImageOf, BodyAt;
      ReplayTorn(f, BodyAt(f, batch, image.seqNo, m), |tail|, ImageOf(f, image, batch[..m]), capacity);
    }
  }
}
