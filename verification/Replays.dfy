/** What an accepted log consists of, byte for byte. */
module Replays {
  import opened Base
  import opened Entries
  import opened Log

  /** The little-endian 32-bit number at position i. */
  function Number(s: seq<byte>, i: nat): nat
    requires i + 4 <= |s|
  {
    var a: int, b: int, c: int, d: int := s[i], s[i + 1], s[i + 2], s[i + 3];
    a + 0x100 * b + 0x1_0000 * c + 0x100_0000 * d
  }

  /** The bytes are the length, the checksum and the body of one record. */
  ghost predicate IsFrame(f: Format, s: seq<byte>, r: Record) {
    && 8 <= |s| <= 8 + 16 * 1024 && Number(s, 0) == |s| - 8
    && Number(s, 4) == f.crc(s[8..]) && f.decode(s[8..]) == Some(r) && Sensible(r.entry)
  }

  /** The bytes are exactly these records, one frame after the other, numbered on. */
  ghost predicate Logged(f: Format, data: seq<byte>, seqNo: nat, records: seq<Record>)
    decreases |records|
  {
    if |records| == 0 then |data| == 0
    else
      exists n: nat :: n <= |data| && Begins(f, data, seqNo, records, n)
  }

  ghost predicate Begins(f: Format, data: seq<byte>, seqNo: nat, records: seq<Record>, n: nat)
    requires |records| > 0 && n <= |data|
    decreases |records|, 0
  {
    && IsFrame(f, data[..n], records[0]) && records[0].seqNo == seqNo + 1
    && Logged(f, data[n..], seqNo + 1, records[1..])
  }

  /** The table after some records: the last one of every id counts. */
  ghost function TableAfter(entries: map<Key, Entry>, records: seq<Record>): map<Key, Entry>
    decreases |records|
  {
    if |records| == 0 then entries
    else TableAfter(entries[records[0].entry.id := records[0].entry], records[1..])
  }

  /** No complete record starts here. */
  ghost predicate Torn(rest: seq<byte>) {
    |rest| < 8 || Number(rest, 0) > |rest| - 8
  }

  lemma NumberIs(s: seq<byte>, i: nat)
    requires i + 4 <= |s|
    ensures FromLe32(s[i..i + 4]) == Number(s, i)
  {
  }

  lemma OneIsFrame(f: Format, data: seq<byte>, image: Image, capacity: nat)
    requires |data| >= 8 && FromLe32(data[..4]) <= MAX_RECORD && HasRecord(data)
    requires ReplayOne(f, data, image, capacity).Done?
    ensures var n, next := 8 + FromLe32(data[..4]), ReplayOne(f, data, image, capacity).value;
            && n <= |data| && f.decode(data[..n][8..]).Some?
            && var r := f.decode(data[..n][8..]).value;
               && IsFrame(f, data[..n], r) && r.seqNo == image.seqNo + 1
               && next == Image(image.entries[r.entry.id := r.entry], r.seqNo, image.length + n)
               && |next.entries| <= capacity
  {
    var n := 8 + FromLe32(data[..4]);
    var s := data[..n];
    NumberIs(s, 0);
    NumberIs(s, 4);
    assert s[..4] == data[..4] == s[0..4] && s[4..8] == data[4..8];
    assert s[8..] == data[8..8 + FromLe32(data[..4])];
    hide Sensible, FromLe32;
  }

  /** A log that is accepted consists of complete records with matching lengths and
      checksums, sensible and numbered without a gap, followed by at most a torn one;
      and its table holds the last record of every id. */
  lemma {:induction false} AcceptedLog(f: Format, data: seq<byte>, image: Image, capacity: nat) returns (records: seq<Record>)
    requires Replay(f, data, image, capacity).Done?
    ensures var result := Replay(f, data, image, capacity).value;
            && image.length <= result.length <= image.length + |data|
            && result.seqNo == image.seqNo + |records| && result.entries == TableAfter(image.entries, records)
            && Logged(f, data[..result.length - image.length], image.seqNo, records)
            && Torn(data[result.length - image.length..])
    decreases |data|
  {
    hide *;
    if |data| < 8 || !HasRecord(data) {
      records := [];
      ReplayEnds(f, data, image, capacity);
    } else {
      var n := 8 + FromLe32(data[..4]);
      ReplaySteps(f, data, image, capacity);
      OneIsFrame(f, data, image, capacity);
      var next, r := ReplayOne(f, data, image, capacity).value, f.decode(data[..n][8..]).value;
      var rest := AcceptedLog(f, data[n..], next, capacity);
      records := [r] + rest;
      MoreLogged(f, data, image, next, r, rest, n, Replay(f, data, image, capacity).value);
    }
  }

  lemma ReplayEnds(f: Format, data: seq<byte>, image: Image, capacity: nat)
    requires |data| < 8 || !HasRecord(data)
    requires Replay(f, data, image, capacity).Done?
    ensures Replay(f, data, image, capacity).value == image
    ensures Torn(data[0..]) && Logged(f, data[..0], image.seqNo, []) && TableAfter(image.entries, []) == image.entries
  {
    if |data| >= 8 {
      NumberIs(data, 0);
      assert data[0..4] == data[..4];
    }
    assert data[0..] == data;
    hide ReplayOne, FromLe32;
  }

  lemma ReplaySteps(f: Format, data: seq<byte>, image: Image, capacity: nat)
    requires |data| >= 8 && HasRecord(data) && Replay(f, data, image, capacity).Done?
    ensures FromLe32(data[..4]) <= MAX_RECORD && ReplayOne(f, data, image, capacity).Done?
    ensures Replay(f, data[8 + FromLe32(data[..4])..], ReplayOne(f, data, image, capacity).value, capacity)
            == Replay(f, data, image, capacity)
  {
    hide ReplayOne, FromLe32;
  }

  lemma MoreLogged(
    f: Format, data: seq<byte>, image: Image, next: Image, r: Record, rest: seq<Record>, n: nat, result: Image)
    requires n <= |data| && IsFrame(f, data[..n], r) && r.seqNo == image.seqNo + 1
    requires next.entries == image.entries[r.entry.id := r.entry] && next.seqNo == r.seqNo && next.length == image.length + n
    requires next.length <= result.length <= next.length + |data[n..]|
    requires result.entries == TableAfter(next.entries, rest)
    requires Logged(f, data[n..][..result.length - next.length], next.seqNo, rest)
    requires Torn(data[n..][result.length - next.length..])
    ensures image.length <= result.length <= image.length + |data|
    ensures result.entries == TableAfter(image.entries, [r] + rest)
    ensures Logged(f, data[..result.length - image.length], image.seqNo, [r] + rest)
    ensures Torn(data[result.length - image.length..])
  {
    hide IsFrame, Torn;
    var m, records := result.length - image.length, [r] + rest;
    assert data[..m][..n] == data[..n] && data[..m][n..] == data[n..][..m - n] && data[m..] == data[n..][m - n..];
    assert records[1..] == rest && records[0] == r;
    assert Begins(f, data[..m], image.seqNo, records, n);
  }
}
