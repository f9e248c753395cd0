/** The virtual ask book: executable venue slices, priced and ordered. */
module VirtualBook {
  import opened Base
  import opened Products

  const MAX_VIRTUAL_LEVELS: nat := 32
  const BPS: nat := 10_000

  datatype Slice = Slice(
    claim: Key, source: Key, stateHash: Key, input: u64, exposure: u64, conversionBps: nat, expiresAtSlot: u64)

  datatype Level = Level(
    claim: Key, source: Key, stateHash: Key, price: nat, exposure: nat, input: nat, conversionBps: nat,
    expiresAtSlot: nat)

  datatype Book = Book(levels: seq<Level>, total: nat, stateHash: Key)

  /** What a level is ordered by. */
  datatype Rank = Rank(price: nat, claim: Key, source: Key)

  function RankOf(l: Level): Rank {
    Rank(l.price, l.claim, l.source)
  }

  /** Lexicographic order, equal ranks included. */
  predicate AtMost(a: Rank, b: Rank) {
    if a.price != b.price then a.price < b.price
    else if a.claim != b.claim then a.claim < b.claim
    else a.source <= b.source
  }

  ghost predicate Sorted(levels: seq<Level>) {
    forall i, j :: 0 <= i < j < |levels| ==> AtMost(RankOf(levels[i]), RankOf(levels[j]))
  }

  /** The levels of one rank, in the order they stand. */
  function WithRank(levels: seq<Level>, rank: Rank): seq<Level> {
    if |levels| == 0 then []
    else
      var last := levels[|levels| - 1];
      WithRank(levels[..|levels| - 1], rank) + if RankOf(last) == rank then [last] else []
  }

  function TotalExposure(levels: seq<Level>): nat {
    if |levels| == 0 then 0 else TotalExposure(levels[..|levels| - 1]) + levels[|levels| - 1].exposure
  }

  // ---------------------------------------------------------------- pricing

  predicate Admissible(s: Slice, stateHash: Key, slot: nat) {
    && s.claim != 0 && s.source != 0 && s.stateHash == stateHash
    && 0 < s.input <= MAX_ATOMS && 0 < s.exposure <= MAX_ATOMS
    && s.conversionBps <= BPS && s.expiresAtSlot >= slot
  }

  /** The ask price, rounded against the taker. */
  function PriceOf(s: Slice): (p: nat)
    requires s.exposure > 0
    ensures p * s.exposure >= s.input * SCALE * SCALE
    ensures p > 0 ==> (p - 1) * s.exposure < s.input * SCALE * SCALE
  {
    CeilDiv(s.input * SCALE * SCALE, s.exposure)
  }

  function SliceFault(s: Slice, stateHash: Key, slot: nat): Option<Error> {
    if !Admissible(s, stateHash, slot) then Some(InvalidAmount)
    else if PriceOf(s) > U64_MAX then Some(Arithmetic)
    else None
  }

  /** Admit and price one slice: the products and the divisor never fail, only the
      64-bit price can. */
  method PriceSlice(s: Slice, stateHash: Key, slot: nat) returns (r: Result<Level>)
    ensures r == if SliceFault(s, stateHash, slot).Some? then Err(SliceFault(s, stateHash, slot).value) else Ok(LevelOf(s))
  {
    if !Admissible(s, stateHash, slot) {
      return Err(InvalidAmount);
    }
    NumeratorFits(s);
    hide CeilDiv;
    if s.input * SCALE > U128_MAX || s.input * SCALE * SCALE > U128_MAX {
      return Err(Arithmetic);
    }
    var price := CheckedCeilDiv(s.input * SCALE * SCALE, s.exposure);
    if price.Err? {
      assert false;
    }
    if price.value > U64_MAX {
      return Err(Arithmetic);
    }
    return Ok(Level(s.claim, s.source, s.stateHash, price.value, s.exposure, s.input, s.conversionBps, s.expiresAtSlot));
  }

  function SlicesFault(slices: seq<Slice>, stateHash: Key, slot: nat): Option<Error> {
    if |slices| == 0 then None
    else
      var earlier := SlicesFault(slices[..|slices| - 1], stateHash, slot);
      if earlier.Some? then earlier else SliceFault(slices[|slices| - 1], stateHash, slot)
  }

  function LevelOf(s: Slice): Level {
    Level(s.claim, s.source, s.stateHash, if s.exposure > 0 then PriceOf(s) else 0, s.exposure, s.input,
          s.conversionBps, s.expiresAtSlot)
  }

  function Priced(slices: seq<Slice>): (levels: seq<Level>)
    ensures |levels| == |slices|
    ensures forall i :: 0 <= i < |slices| ==> levels[i] == LevelOf(slices[i])
  {
    seq(|slices|, i requires 0 <= i < |slices| => LevelOf(slices[i]))
  }

  /** The exposure of slices within the bounds is far below 128 bits, and so is the
      numerator of the price. */
  lemma NumeratorFits(s: Slice)
    requires s.input <= MAX_ATOMS
    ensures s.input * SCALE <= U128_MAX && s.input * SCALE * SCALE <= U128_MAX
  {
    Mono(s.input, MAX_ATOMS, SCALE);
    Mono(s.input, MAX_ATOMS, SCALE * SCALE);
    assert s.input * SCALE * SCALE == s.input * (SCALE * SCALE);
  }

  lemma {:induction false} FaultSticks(slices: seq<Slice>, stateHash: Key, slot: nat, n: nat)
    requires n <= |slices| && SlicesFault(slices[..n], stateHash, slot).Some?
    ensures SlicesFault(slices, stateHash, slot) == SlicesFault(slices[..n], stateHash, slot)
    decreases |slices|
  {
    if n == |slices| {
      assert slices[..n] == slices;
    } else {
      assert slices[..|slices| - 1][..n] == slices[..n];
      FaultSticks(slices[..|slices| - 1], stateHash, slot, n);
    }
  }

  // ---------------------------------------------------------------- what is accepted

  /** A slice that can be offered: named, for this state, with bounded positive amounts
      and a tolerable conversion, still valid, and with a price that fits 64 bits. */
  ghost predicate Offered(s: Slice, stateHash: Key, slot: nat) {
    && s.claim != 0 && s.source != 0 && s.stateHash == stateHash
    && 0 < s.input <= MAX_ATOMS && 0 < s.exposure <= MAX_ATOMS
    && s.conversionBps <= 10_000 && slot <= s.expiresAtSlot
    && s.input * SCALE * SCALE <= U64_MAX * s.exposure
  }

  lemma SliceAccepted(s: Slice, stateHash: Key, slot: nat)
    ensures SliceFault(s, stateHash, slot).None? <==> Offered(s, stateHash, slot)
  {
    if Admissible(s, stateHash, slot) {
      var n := s.input * SCALE * SCALE;
      hide CeilDiv;
      if PriceOf(s) <= U64_MAX {
        Mono(PriceOf(s), U64_MAX, s.exposure);
      } else {
        Mono(U64_MAX, PriceOf(s) - 1, s.exposure);
      }
    }
  }

  /** Slices are accepted exactly when each can be offered. */
  lemma {:induction false} SlicesAccepted(slices: seq<Slice>, stateHash: Key, slot: nat)
    ensures SlicesFault(slices, stateHash, slot).None? <==>
              forall i :: 0 <= i < |slices| ==> Offered(slices[i], stateHash, slot)
  {
    hide SliceFault, Offered;
    if |slices| > 0 {
      var n := |slices| - 1;
      SlicesAccepted(slices[..n], stateHash, slot);
      SliceAccepted(slices[n], stateHash, slot);
    }
  }

  // ---------------------------------------------------------------- insertion

  lemma {:induction false} WithRankConcat(a: seq<Level>, b: seq<Level>, rank: Rank)
    ensures WithRank(a + b, rank) == WithRank(a, rank) + WithRank(b, rank)
  {
    if |b| == 0 {
      assert a + b == a;
    } else {
      var n := |b| - 1;
      assert (a + b)[..|a + b| - 1] == a + b[..n];
      WithRankConcat(a, b[..n], rank);
    }
  }

  lemma {:induction false} NoneWithRank(levels: seq<Level>, rank: Rank)
    requires forall i :: 0 <= i < |levels| ==> RankOf(levels[i]) != rank
    ensures WithRank(levels, rank) == []
  {
    if |levels| > 0 {
      NoneWithRank(levels[..|levels| - 1], rank);
    }
  }

  lemma {:induction false} TotalConcat(a: seq<Level>, b: seq<Level>)
    ensures TotalExposure(a + b) == TotalExposure(a) + TotalExposure(b)
  {
    if |b| == 0 {
      assert a + b == a;
    } else {
      var n := |b| - 1;
      assert (a + b)[..|a + b| - 1] == a + b[..n];
      TotalConcat(a, b[..n]);
    }
  }

  /** The book holds the levels of `priced`, sorted, ties in submission order. */
  ghost predicate Arranges(levels: seq<Level>, priced: seq<Level>) {
    && |levels| == |priced|
    && Sorted(levels)
    && TotalExposure(levels) == TotalExposure(priced)
    && forall rank: Rank :: WithRank(levels, rank) == WithRank(priced, rank)
  }

  ghost function Spliced(levels: seq<Level>, l: Level, k: nat): seq<Level>
    requires k <= |levels|
  {
    levels[..k] + [l] + levels[k..]
  }

  lemma SpliceSorts(levels: seq<Level>, l: Level, k: nat)
    requires Sorted(levels) && k <= |levels|
    requires forall i :: k <= i < |levels| ==> !AtMost(RankOf(levels[i]), RankOf(l))
    requires k > 0 ==> AtMost(RankOf(levels[k - 1]), RankOf(l))
    ensures Sorted(Spliced(levels, l, k))
  {
    var out := Spliced(levels, l, k);
    forall i, j | 0 <= i < j < |out|
      ensures AtMost(RankOf(out[i]), RankOf(out[j]))
    {
      if j < k {
      } else if j == k {
        if i < k - 1 {
          assert AtMost(RankOf(levels[i]), RankOf(levels[k - 1]));
        }
      } else if i == k {
        assert !AtMost(RankOf(levels[j - 1]), RankOf(l));
      }
    }
  }

  lemma OneWithRank(l: Level, rank: Rank)
    ensures WithRank([l], rank) == if RankOf(l) == rank then [l] else []
  {
    assert [l][..0] == [];
  }

  lemma LaterHasOtherRank(levels: seq<Level>, l: Level, k: nat)
    requires k <= |levels| && forall i :: k <= i < |levels| ==> !AtMost(RankOf(levels[i]), RankOf(l))
    ensures WithRank(levels[k..], RankOf(l)) == []
  {
    NoneWithRank(levels[k..], RankOf(l));
  }

  lemma SpliceKeepsRank(levels: seq<Level>, priced: seq<Level>, l: Level, k: nat, rank: Rank)
    requires k <= |levels| && WithRank(levels, rank) == WithRank(priced, rank)
    requires forall i :: k <= i < |levels| ==> !AtMost(RankOf(levels[i]), RankOf(l))
    ensures WithRank(Spliced(levels, l, k), rank) == WithRank(priced + [l], rank)
  {
    hide WithRank, AtMost, RankOf;
    WithRankConcat(levels[..k] + [l], levels[k..], rank);
    WithRankConcat(levels[..k], [l], rank);
    WithRankConcat(levels[..k], levels[k..], rank);
    WithRankConcat(priced, [l], rank);
    assert levels == levels[..k] + levels[k..];
    OneWithRank(l, rank);
    LaterHasOtherRank(levels, l, k);
  }

  lemma SpliceArranges(levels: seq<Level>, priced: seq<Level>, l: Level, k: nat)
    requires Arranges(levels, priced) && k <= |levels|
    requires forall i :: k <= i < |levels| ==> !AtMost(RankOf(levels[i]), RankOf(l))
    requires k > 0 ==> AtMost(RankOf(levels[k - 1]), RankOf(l))
    ensures Arranges(Spliced(levels, l, k), priced + [l])
  {
    hide Sorted, AtMost, RankOf, WithRank, TotalExposure, Spliced;
    SpliceSorts(levels, l, k);
    SpliceTotal(levels, priced, l, k);
    forall rank: Rank
      ensures WithRank(Spliced(levels, l, k), rank) == WithRank(priced + [l], rank)
    {
      SpliceKeepsRank(levels, priced, l, k, rank);
    }
  }

  lemma SpliceTotal(levels: seq<Level>, priced: seq<Level>, l: Level, k: nat)
    requires k <= |levels| && |levels| == |priced| && TotalExposure(levels) == TotalExposure(priced)
    ensures TotalExposure(Spliced(levels, l, k)) == TotalExposure(priced + [l])
    ensures |Spliced(levels, l, k)| == |priced + [l]|
  {
    TotalConcat(levels[..k] + [l], levels[k..]);
    TotalConcat(levels[..k], [l]);
    TotalConcat(levels[..k], levels[k..]);
    TotalConcat(priced, [l]);
    assert levels == levels[..k] + levels[k..];
  }

  /** Shifts the levels that rank after l one place up and puts l before them. */
  method Insert(book: array<Level>, count: nat, l: Level, ghost priced: seq<Level>)
    requires count < book.Length && Arranges(book[..count], priced)
    modifies book
    ensures Arranges(book[..count + 1], priced + [l])
  {
    ghost var was := book[..count];
    var position := count;
    while position > 0 && !AtMost(RankOf(book[position - 1]), RankOf(l))
      invariant position <= count
      invariant book[..position] == was[..position]
      invariant forall i :: position < i <= count ==> book[i] == was[i - 1]
      invariant forall i :: position <= i < count ==> !AtMost(RankOf(was[i]), RankOf(l))
    {
      assert book[position - 1] == was[position - 1];
      book[position] := book[position - 1];
      position := position - 1;
    }
    assert position > 0 ==> book[position - 1] == was[position - 1];
    book[position] := l;
    assert book[..count + 1] == Spliced(was, l, position);
    SpliceArranges(was, priced, l, position);
  }

  /** `compile_virtual_book`: the first fault in submission order, the work limit, or the
      book of every slice at its ceiling price. */
  method CompileVirtualBook(slices: seq<Slice>, slot: nat, meter: WorkMeter) returns (r: Result<Book>)
    modifies meter`used
    ensures old(meter.Within()) ==> meter.Within()
    ensures |slices| == 0 || |slices| > MAX_VIRTUAL_LEVELS ==> r == Err(Error.Bounds)
    ensures 0 < |slices| <= MAX_VIRTUAL_LEVELS ==>
              var hash := slices[0].stateHash;
              if hash == 0 then r == Err(Identity)
              else if r.Err? then
                || SlicesFault(slices, hash, slot) == Some(r.error)
                || (r.error.WorkLimit? && old(meter.used) + |slices| > meter.limit)
              else
                && SlicesFault(slices, hash, slot).None?
                && r.value.stateHash == hash
                && Arranges(r.value.levels, Priced(slices)) && r.value.total == TotalExposure(r.value.levels)
  {
    hide Arranges, Admissible, LevelOf, TotalExposure, PriceOf, SliceFault, SlicesFault, Sorted, WithRank, Priced;
    if |slices| == 0 || |slices| > MAX_VIRTUAL_LEVELS {
      return Err(Error.Bounds);
    }
    var hash := slices[0].stateHash;
    if hash == 0 {
      return Err(Identity);
    }
    var book := new Level[MAX_VIRTUAL_LEVELS](_ => Level(0, 0, 0, 0, 0, 0, 0, 0));
    var total := 0;
    EmptyBook(book[..0], slices[..0], hash, slot);
    for n := 0 to |slices|
      invariant book.Length == MAX_VIRTUAL_LEVELS
      invariant old(meter.Within()) ==> meter.Within()
      invariant meter.used == old(meter.used) + n
      invariant SlicesFault(slices[..n], hash, slot).None?
      invariant Arranges(book[..n], Priced(slices[..n]))
      invariant total == TotalExposure(Priced(slices[..n])) && total <= n * MAX_ATOMS
    {
      var ok := meter.Charge(1);
      if !ok {
        return Err(WorkLimit);
      }
      var level := PriceSlice(slices[n], hash, slot);
      NextFault(slices, hash, slot, n);
      if level.Err? {
        return Err(level.error);
      }
      AdmissibleParts(slices[n], hash, slot);
      PricedGrows(slices, n);
      Insert(book, n, level.value, Priced(slices[..n]));
      if total + slices[n].exposure > U128_MAX {
        return Err(Arithmetic);
      }
      total := total + slices[n].exposure;
    }
    assert slices[..|slices|] == slices;
    ArrangedTotal(book[..|slices|], Priced(slices));
    r := Ok(Book(book[..|slices|], total, hash));
  }

  lemma EmptyBook(levels: seq<Level>, slices: seq<Slice>, stateHash: Key, slot: nat)
    requires levels == [] && slices == []
    ensures Arranges(levels, Priced(slices)) && TotalExposure(Priced(slices)) == 0
    ensures SlicesFault(slices, stateHash, slot).None?
  {
  }

  lemma NextFault(slices: seq<Slice>, stateHash: Key, slot: nat, n: nat)
    requires n < |slices| && SlicesFault(slices[..n], stateHash, slot).None?
    ensures SlicesFault(slices[..n + 1], stateHash, slot) == SliceFault(slices[n], stateHash, slot)
    ensures SliceFault(slices[n], stateHash, slot).Some? ==>
              SlicesFault(slices, stateHash, slot) == SliceFault(slices[n], stateHash, slot)
  {
    assert slices[..n + 1][..n] == slices[..n];
    if SliceFault(slices[n], stateHash, slot).Some? {
      FaultSticks(slices, stateHash, slot, n + 1);
    }
  }

  lemma ArrangedTotal(levels: seq<Level>, priced: seq<Level>)
    requires Arranges(levels, priced)
    ensures TotalExposure(levels) == TotalExposure(priced)
  {
  }

  lemma AdmissibleParts(s: Slice, stateHash: Key, slot: nat)
    requires SliceFault(s, stateHash, slot).None?
    ensures 0 < s.exposure <= MAX_ATOMS
  {
  }

  lemma PricedGrows(slices: seq<Slice>, n: nat)
    requires n < |slices|
    ensures Priced(slices[..n + 1]) == Priced(slices[..n]) + [LevelOf(slices[n])]
    ensures TotalExposure(Priced(slices[..n + 1])) == TotalExposure(Priced(slices[..n])) + slices[n].exposure
  {
    var next := Priced(slices[..n + 1]);
    assert next[..n] == Priced(slices[..n]);
  }

  // ---------------------------------------------------------------- the book is determined

  lemma {:induction false} FirstWithRank(levels: seq<Level>, rank: Rank)
    ensures |WithRank(levels, rank)| > 0 ==> exists i :: 0 <= i < |levels| && levels[i] == WithRank(levels, rank)[0]
    ensures forall i :: 0 <= i < |levels| && RankOf(levels[i]) == rank ==> |WithRank(levels, rank)| > 0
    ensures forall i :: 0 <= i < |WithRank(levels, rank)| ==> RankOf(WithRank(levels, rank)[i]) == rank
  {
    if |levels| > 0 {
      var n := |levels| - 1;
      FirstWithRank(levels[..n], rank);
    }
  }

  lemma HeadRank(a: seq<Level>, b: seq<Level>)
    requires |a| > 0 && |b| > 0 && Sorted(a)
    requires forall rank: Rank :: WithRank(a, rank) == WithRank(b, rank)
    ensures AtMost(RankOf(a[0]), RankOf(b[0]))
  {
    var rank := RankOf(b[0]);
    FirstWithRank(b, rank);
    FirstWithRank(a, rank);
    var i :| 0 <= i < |a| && a[i] == WithRank(a, rank)[0];
    assert RankOf(a[i]) == rank;
  }

  /** Two sorted books with the same levels, ties in the same order, are the same book. */
  lemma {:induction false} BookIsDetermined(a: seq<Level>, b: seq<Level>)
    requires |a| == |b| && Sorted(a) && Sorted(b)
    requires forall rank: Rank :: WithRank(a, rank) == WithRank(b, rank)
    ensures a == b
  {
    if |a| > 0 {
      HeadRank(a, b);
      HeadRank(b, a);
      var rank := RankOf(a[0]);
      assert rank == RankOf(b[0]);
      assert a == [a[0]] + a[1..] && b == [b[0]] + b[1..];
      forall r: Rank
        ensures WithRank(a, r) == WithRank([a[0]], r) + WithRank(a[1..], r)
        ensures WithRank(b, r) == WithRank([b[0]], r) + WithRank(b[1..], r)
      {
        WithRankConcat([a[0]], a[1..], r);
        WithRankConcat([b[0]], b[1..], r);
      }
      assert WithRank([a[0]], rank) == [a[0]] && WithRank([b[0]], rank) == [b[0]];
      assert a[0] == WithRank(a, rank)[0] && b[0] == WithRank(b, rank)[0];
      forall r: Rank
        ensures WithRank(a[1..], r) == WithRank(b[1..], r)
      {
        assert a[0] == b[0];
        assert WithRank([a[0]], r) == WithRank([b[0]], r);
        var head := WithRank([a[0]], r);
        assert WithRank(a[1..], r) == WithRank(a, r)[|head|..];
        assert WithRank(b[1..], r) == WithRank(b, r)[|head|..];
      }
      BookIsDetermined(a[1..], b[1..]);
    }
  }

  // ---------------------------------------------------------------- what the book shows

  lemma {:induction false} RankHolds(levels: seq<Level>, l: Level)
    ensures multiset(WithRank(levels, RankOf(l)))[l] == multiset(levels)[l]
  {
    if |levels| > 0 {
      var n := |levels| - 1;
      RankHolds(levels[..n], l);
      assert levels == levels[..n] + [levels[n]];
    }
  }

  /** The book consists of the slices' levels and nothing else; prices never fall from
      one level to the next, equal prices go by claim and then by source. */
  lemma BookIsOrdered(levels: seq<Level>, slices: seq<Slice>)
    requires Arranges(levels, Priced(slices))
    ensures multiset(levels) == multiset(Priced(slices))
    ensures forall i, j :: 0 <= i < j < |levels| ==>
              var a, b := levels[i], levels[j];
              || a.price < b.price
              || (a.price == b.price && (a.claim < b.claim || (a.claim == b.claim && a.source <= b.source)))
  {
    hide WithRank, TotalExposure;
    forall l: Level
      ensures multiset(levels)[l] == multiset(Priced(slices))[l]
    {
      RankHolds(levels, l);
      RankHolds(Priced(slices), l);
    }
    hide Arranges, Priced;
    assert multiset(levels) == multiset(Priced(slices));
    OrderedByRank(levels);
  }

  lemma OrderedByRank(levels: seq<Level>)
    requires Sorted(levels)
    ensures forall i, j :: 0 <= i < j < |levels| ==>
              var a, b := levels[i], levels[j];
              || a.price < b.price
              || (a.price == b.price && (a.claim < b.claim || (a.claim == b.claim && a.source <= b.source)))
  {
    forall i, j | 0 <= i < j < |levels|
      ensures var a, b := levels[i], levels[j];
              || a.price < b.price
              || (a.price == b.price && (a.claim < b.claim || (a.claim == b.claim && a.source <= b.source)))
    {
      assert AtMost(RankOf(levels[i]), RankOf(levels[j]));
    }
  }

  /** What a slice is offered as: its own terms, at the least price that pays its input. */
  lemma LevelMeans(s: Slice)
    requires s.exposure > 0
    ensures var l := LevelOf(s);
            && l.claim == s.claim && l.source == s.source && l.stateHash == s.stateHash
            && l.exposure == s.exposure && l.input == s.input
            && l.conversionBps == s.conversionBps && l.expiresAtSlot == s.expiresAtSlot
            && l.price * s.exposure >= s.input * SCALE * SCALE
            && (l.price > 0 ==> (l.price - 1) * s.exposure < s.input * SCALE * SCALE)
  {
    hide PriceOf;
  }
}
