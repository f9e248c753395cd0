/** `compile`: a book is cut to the horizon, a constant-product pool becomes chords,
    and either way the curve encloses the venue's exact quotes. */
module Compiler {
  import opened Base
  import opened Products
  import opened Curves
  import opened Venues
  import opened ChordMath
  import opened Chords
  import opened AdaptiveChords

  // ---------------------------------------------------------------- books

  /** The first `left` atoms of a book. */
  function CutBands(levels: seq<Segment>, left: nat): seq<Segment> {
    if |levels| == 0 || left == 0 then []
    else
      var take := Min(left, levels[0].inputCapacity);
      [Segment(take, levels[0].marginal)] + CutBands(levels[1..], left - take)
  }

  /** Cutting a book does not change what its remaining input buys. */
  lemma {:induction false} CutKeepsOutput(levels: seq<Segment>, left: nat, x: nat)
    requires x <= left
    ensures Integral(CutBands(levels, left), x) == Integral(levels, x)
  {
    hide Yield;
    if |levels| > 0 && x > 0 {
      var take, cut := Min(left, levels[0].inputCapacity), CutBands(levels, left);
      assert cut[1..] == CutBands(levels[1..], left - take);
      CutKeepsOutput(levels[1..], left - take, x - Min(x, take));
      if x <= take {
        IntegralDone(levels[1..], 0);
      }
    }
  }

  lemma NoBands(top: nat)
    ensures ValidBands([], top)
  {
  }

  lemma TailValid(bands: seq<Segment>, top: nat)
    requires ValidBands(bands, top) && |bands| > 0
    ensures bands[0].inputCapacity > 0 && bands[0].marginal <= top && ValidBands(bands[1..], bands[0].marginal)
  {
    assert forall j :: 0 <= j < |bands[1..]| ==> bands[1..][j] == bands[j + 1];
  }

  lemma HeadValid(s: Segment, rest: seq<Segment>, top: nat)
    requires s.inputCapacity > 0 && s.marginal <= top && ValidBands(rest, s.marginal)
    ensures ValidBands([s] + rest, top)
  {
    assert forall j :: 0 < j < |[s] + rest| ==> ([s] + rest)[j] == rest[j - 1];
  }

  lemma {:induction false} CutShape(levels: seq<Segment>, left: nat, top: nat)
    requires ValidBands(levels, top)
    ensures ValidBands(CutBands(levels, left), top)
    ensures TotalCapacity(CutBands(levels, left)) == Min(left, TotalCapacity(levels))
    ensures |CutBands(levels, left)| <= |levels|
    ensures left > 0 && |levels| > 0 ==> |CutBands(levels, left)| > 0
  {
    hide ValidBands;
    var cut := CutBands(levels, left);
    if |levels| == 0 || left == 0 {
      NoBands(top);
    } else {
      TailValid(levels, top);
      var take := Min(left, levels[0].inputCapacity);
      CutShape(levels[1..], left - take, levels[0].marginal);
      HeadValid(Segment(take, levels[0].marginal), CutBands(levels[1..], left - take), top);
      assert cut[1..] == CutBands(levels[1..], left - take);
    }
  }

  /** Take levels in order until the capacity is used up. */
  method CutBook(levels: seq<Segment>, capacity: nat, meter: WorkMeter) returns (r: Result<seq<Segment>>)
    modifies meter`used
    ensures old(meter.Within()) ==> meter.Within()
    ensures r.Ok? ==> r.value == CutBands(levels, capacity)
    ensures r.Err? ==> r.error.WorkLimit? && old(meter.used) + |levels| > meter.limit
    ensures old(meter.used) <= meter.used <= old(meter.used) + |levels|
  {
    var cut: seq<Segment>, left: nat, j := [], capacity, 0;
    while j < |levels|
      invariant old(meter.Within()) ==> meter.Within()
      invariant j <= |levels| && meter.used == old(meter.used) + j
      invariant cut + CutBands(levels[j..], left) == CutBands(levels, capacity)
      invariant left <= capacity
    {
      var ok := meter.Charge(1);
      if !ok {
        return Err(WorkLimit);
      }
      if left == 0 {
        return Ok(cut);
      }
      assert levels[j..][0] == levels[j] && levels[j..][1..] == levels[j + 1..];
      var take := Min(left, levels[j].inputCapacity);
      cut := cut + [Segment(take, levels[j].marginal)];
      left := left - take;
      j := j + 1;
    }
    return Ok(cut);
  }

  // ---------------------------------------------------------------- what compile returns

  function PoolOf(r: nat, y: nat, fee: nat): Pool
    requires fee < PPM
  {
    Pool(r, y, PPM - fee)
  }

  /** The first reason to refuse a venue: its flags, its amounts, then its model. */
  function CompileFault(s: Snapshot, horizon: nat): Option<Error> {
    if !s.atomic then Some(Unsupported)
    else if !s.enabled then Some(VenueUnavailable)
    else if s.capacity == 0 || s.capacity > MAX_ATOMS || horizon == 0 || horizon > MAX_ATOMS then Some(InvalidAmount)
    else match s.model
      case Book(levels) =>
        var full := BookCurve(levels);
        if full.Err? then Some(full.error)
        else if CurveFault(full.value).Some? then CurveFault(full.value)
        else if s.capacity > full.value.capacity then Some(Error.Capacity)
        else None
      case ConstantProduct(r, y, fee) =>
        if !ValidPool(r, y, fee) then Some(InvalidCurve)
        else if DerivativeUpper(PoolOf(r, y, fee), 0) > MAX_RATE then Some(InvalidCurve)
        else None
  }

  /** The bands, with the two error bounds, over a list of boundaries. */
  function ChordCurve(p: Pool, bs: seq<nat>): (c: Curve)
    requires p.Valid() && Ascending(bs) && bs[|bs| - 1] <= MAX_ATOMS && DerivativeUpper(p, 0) <= MAX_RATE
    ensures c.capacity == bs[|bs| - 1]
  {
    var n := |bs| - 1;
    ErrorsFit(p, bs);
    Curve(Bands(p, bs, n), bs[n], CeilDiv(ErrorFp(p, bs, n, n), SCALE), CeilDiv(p.y, p.r) + 1)
  }

  /** The curve of an accepted venue. */
  function CompiledOf(s: Snapshot, horizon: nat): (c: Curve)
    requires CompileFault(s, horizon).None?
    ensures c.capacity == Min(s.capacity, horizon)
  {
    var capacity := Min(s.capacity, horizon);
    match s.model
    case Book(levels) => Curve(CutBands(levels, capacity), capacity, 0, 0)
    case ConstantProduct(r, y, fee) =>
      ChordCurve(PoolOf(r, y, fee), Refine(PoolOf(r, y, fee), [0, capacity]))
  }

  // ---------------------------------------------------------------- widths

  lemma {:induction false} GapFits(p: Pool, bs: seq<nat>, n: nat, k: nat)
    requires p.Valid() && Ascending(bs) && k <= n < |bs| && bs[|bs| - 1] <= MAX_ATOMS
    requires DerivativeUpper(p, 0) <= MAX_RATE
    ensures ErrorFp(p, bs, n, k) <= MAX_ATOMS * SCALE + 1 + MAX_ATOMS * MAX_RATE
  {
    if k > 0 {
      GapFits(p, bs, n, k - 1);
      TangentGapFits(p, bs, n, k - 1);
    }
  }

  lemma TangentGapFits(p: Pool, bs: seq<nat>, n: nat, i: nat)
    requires p.Valid() && Ascending(bs) && i < n < |bs| && bs[|bs| - 1] <= MAX_ATOMS
    requires DerivativeUpper(p, 0) <= MAX_RATE
    ensures TangentGap(p, bs, n, i) <= MAX_ATOMS * SCALE + 1 + MAX_ATOMS * MAX_RATE
  {
    Fits128(p, bs[i]);
    BandsShape(p, bs, n);
    DerivativeFalls(p, bs[i]);
    IntegralBelowValue(p, bs, n, i);
    assert bs[i + 1] <= MAX_ATOMS;
    var band := Bands(p, bs, n)[i];
    hide *;
    GapSize(CpFp(p, bs[i]), band.inputCapacity, DerivativeUpper(p, bs[i]), band.marginal);
    GapParts(p, bs, n, i);
  }

  lemma GapSize(v: nat, width: nat, tau: nat, slope: nat)
    requires v <= MAX_ATOMS * SCALE && width <= MAX_ATOMS && tau <= MAX_RATE
    ensures v + 1 + Yield(width, SaturatingSub(tau, slope)) <= MAX_ATOMS * SCALE + 1 + MAX_ATOMS * MAX_RATE
  {
    var steep := SaturatingSub(tau, slope);
    Mono(width, MAX_ATOMS, steep);
    Mono(steep, MAX_RATE, MAX_ATOMS);
  }

  /** Both error bounds of a pool's curve fit 64 bits, so `compile` cannot fail on them. */
  lemma ErrorsFit(p: Pool, bs: seq<nat>)
    requires p.Valid() && Ascending(bs) && bs[|bs| - 1] <= MAX_ATOMS && DerivativeUpper(p, 0) <= MAX_RATE
    ensures CeilDiv(ErrorFp(p, bs, |bs| - 1, |bs| - 1), SCALE) <= U64_MAX && CeilDiv(p.y, p.r) + 1 <= U64_MAX
  {
    var n := |bs| - 1;
    GapFits(p, bs, n, n);
    CeilDivBound(p.y, p.r);
    hide ErrorFp, DerivativeUpper, CeilDiv;
    ScaledFits(ErrorFp(p, bs, n, n));
  }

  lemma ScaledFits(e: nat)
    requires e <= MAX_ATOMS * SCALE + 1 + MAX_ATOMS * MAX_RATE
    ensures CeilDiv(e, SCALE) <= U64_MAX
  {
  }

  lemma CeilDivBound(y: nat, r: nat)
    requires y > 0 && r > 0
    ensures CeilDiv(y, r) <= y
  {
    var q := CeilDiv(y, r);
    if q > y {
      Mono(1, r, q - 1);
      assert false;
    }
  }

  // ---------------------------------------------------------------- what is accepted

  /** Between one and sixteen levels of positive size, none better than the one before
      it, with room for what the venue shows. */
  ghost predicate SoundLevels(levels: seq<Segment>, shown: nat) {
    && 0 < |levels| <= MAX_SEGMENTS
    && (forall j :: 0 <= j < |levels| ==> levels[j].inputCapacity > 0)
    && levels[0].marginal <= MAX_RATE && (forall j :: 0 < j < |levels| ==> levels[j].marginal <= levels[j - 1].marginal)
    && shown <= TotalCapacity(levels) <= MAX_ATOMS
  }

  /** `compile` accepts exactly the enabled atomic venues with sensible amounts and a
      sound book, or a pool whose slope at nothing stays below the cap. */
  lemma AcceptsExactly(s: Snapshot, horizon: nat)
    ensures CompileFault(s, horizon).None? <==>
              && s.atomic && s.enabled && 0 < s.capacity <= MAX_ATOMS && 0 < horizon <= MAX_ATOMS
              && match s.model
                 case Book(levels) => SoundLevels(levels, s.capacity)
                 case ConstantProduct(r, y, fee) =>
                   && 0 < r <= MAX_ATOMS && 0 < y <= MAX_ATOMS && fee < PPM
                   && DerivativeUpper(Pool(r, y, PPM - fee), 0) <= MAX_RATE
  {
    hide DerivativeUpper, CurveFault, SoundLevels, ValidCurve;
    match s.model
    case Book(levels) =>
      SoundLevelsMeans(levels, s.capacity);
      if TotalCapacity(levels) <= U64_MAX {
        FaultMeaning(BookCurve(levels).value);
      }
    case ConstantProduct(_, _, _) =>
  }

  lemma {:induction false} NeverRises(levels: seq<Segment>, i: nat, k: nat)
    requires forall j :: 0 < j < |levels| ==> levels[j].marginal <= levels[j - 1].marginal
    requires i <= k < |levels|
    ensures levels[k].marginal <= levels[i].marginal
  {
    if i < k {
      NeverRises(levels, i, k - 1);
    }
  }

  lemma SoundLevelsMeans(levels: seq<Segment>, shown: nat)
    ensures SoundLevels(levels, shown) <==>
              shown <= TotalCapacity(levels) <= U64_MAX && ValidCurve(Curve(levels, TotalCapacity(levels), 0, 0))
  {
    hide TotalCapacity;
    if SoundLevels(levels, shown) {
      forall i, k | 0 <= i <= k < |levels|
        ensures levels[k].marginal <= levels[i].marginal
      {
        NeverRises(levels, i, k);
      }
      assert forall k :: 0 <= k < |levels| ==> levels[k].marginal <= levels[0].marginal <= MAX_RATE;
    }
  }

  /** Each kind of refusal, in the order of the checks. */
  lemma RefusalKinds(s: Snapshot, horizon: nat)
    ensures CompileFault(s, horizon) == Some(Unsupported) <==> !s.atomic
    ensures CompileFault(s, horizon) == Some(VenueUnavailable) <==> s.atomic && !s.enabled
    ensures CompileFault(s, horizon) == Some(InvalidAmount) <==>
              s.atomic && s.enabled && (s.capacity == 0 || s.capacity > MAX_ATOMS || horizon == 0 || horizon > MAX_ATOMS)
    ensures CompileFault(s, horizon) == Some(Error.Capacity) ==>
              s.model.Book? && TotalCapacity(s.model.levels) < s.capacity
  {
    hide DerivativeUpper;
    if s.model.Book? {
      ScanKinds(s.model.levels, MAX_RATE, 0);
    }
  }

  lemma {:induction false} ScanKinds(bands: seq<Segment>, top: nat, capacity: nat)
    ensures var scan := ScanBands(bands, top, capacity);
            scan.Err? ==> scan.error.InvalidCurve? || scan.error.Arithmetic?
  {
    if |bands| > 0 {
      ScanKinds(bands[1..], bands[0].marginal, capacity + bands[0].inputCapacity);
    }
  }

  // ---------------------------------------------------------------- the method

  method CompilePool(p: Pool, capacity: nat, meter: WorkMeter) returns (r: Result<Curve>)
    requires p.Valid() && 0 < capacity <= MAX_ATOMS && DerivativeUpper(p, 0) <= MAX_RATE
    modifies meter`used
    ensures old(meter.Within()) ==> meter.Within()
    ensures r.Ok? ==> r.value == ChordCurve(p, Refine(p, [0, capacity])) && ValidCurve(r.value)
    ensures r.Err? ==> r.error.WorkLimit? && old(meter.used) + MAX_SEGMENTS * (MAX_SEGMENTS + 1) > meter.limit
    ensures old(meter.used) <= meter.used <= old(meter.used) + MAX_SEGMENTS * (MAX_SEGMENTS + 1)
  {
    hide CpFp, DerivativeUpper, Refine, Bands, ErrorFp, Cached, ValidBands, CeilDiv, ValidCurve, Ascending;
    var boundaries := new nat[MAX_SEGMENTS + 1](_ => 0);
    var values := new nat[MAX_SEGMENTS + 1](_ => 0);
    var tangents := new nat[MAX_SEGMENTS + 1](_ => 0);
    var gaps := new nat[MAX_SEGMENTS](_ => 0);
    var ok, n, bs := ChooseBoundaries(p, capacity, boundaries, values, tangents, gaps, meter);
    if !ok {
      return Err(WorkLimit);
    }
    var built := BuildCurve(p, bs, boundaries, values, tangents, gaps[..], n, meter);
    if built.Err? {
      return Err(built.error);
    }
    ErrorsFit(p, bs);
    ChordCurveValid(p, bs);
    CachedParts(p, bs, boundaries[..], values[..], tangents[..], gaps[..]);
    var upper, lower := CeilDiv(built.value.1, SCALE), CeilDiv(p.y, p.r) + 1;
    if upper > U64_MAX || lower > U64_MAX {
      return Err(Arithmetic);
    }
    var curve := Curve(built.value.0, capacity, upper, lower);
    FaultMeaning(curve);
    var valid := Validate(curve);
    if valid.Err? {
      assert false;
    }
    return Ok(curve);
  }

  lemma ChordCurveValid(p: Pool, bs: seq<nat>)
    requires p.Valid() && Ascending(bs) && bs[|bs| - 1] <= MAX_ATOMS && DerivativeUpper(p, 0) <= MAX_RATE
    requires |bs| <= MAX_SEGMENTS + 1
    ensures ValidCurve(ChordCurve(p, bs))
  {
    hide CpFp, DerivativeUpper, Bands, ErrorFp, ValidBands;
    var n := |bs| - 1;
    BandsShape(p, bs, n);
    CapAtBoundary(p, bs, n, n);
    CapPrefixTotal(Bands(p, bs, n));
  }

  /** `compile` refuses exactly the faulty venues, runs out of work only beyond a
      fixed budget, and otherwise returns the specified curve. */
  method Compile(s: Snapshot, horizon: nat, meter: WorkMeter) returns (r: Result<Curve>)
    modifies meter`used
    ensures old(meter.Within()) ==> meter.Within()
    ensures CompileFault(s, horizon).Some? ==> r == Err(CompileFault(s, horizon).value)
    ensures CompileFault(s, horizon).None? ==>
              || r == Ok(CompiledOf(s, horizon))
              || (r == Err(WorkLimit) && old(meter.used) + MAX_SEGMENTS * (MAX_SEGMENTS + 1) > meter.limit)
    ensures old(meter.used) <= meter.used <= old(meter.used) + MAX_SEGMENTS * (MAX_SEGMENTS + 1)
  {
    hide DerivativeUpper, Refine, CutBands, ChordCurve;
    if !s.atomic {
      return Err(Unsupported);
    }
    if !s.enabled {
      return Err(VenueUnavailable);
    }
    if s.capacity == 0 || s.capacity > MAX_ATOMS || horizon == 0 || horizon > MAX_ATOMS {
      return Err(InvalidAmount);
    }
    var capacity := Min(s.capacity, horizon);
    match s.model {
      case Book(levels) =>
        var full := SumLevels(levels);
        if full.Err? {
          return Err(full.error);
        }
        var valid := Validate(full.value);
        if valid.Err? {
          return Err(valid.error);
        }
        if s.capacity > full.value.capacity {
          return Err(Error.Capacity);
        }
        var cut := CutBook(levels, capacity, meter);
        if cut.Err? {
          return Err(cut.error);
        }
        return Ok(Curve(cut.value, capacity, 0, 0));
      case ConstantProduct(reserveIn, reserveOut, feePpm) =>
        if !ValidPool(reserveIn, reserveOut, feePpm) {
          return Err(InvalidCurve);
        }
        var p := PoolOf(reserveIn, reserveOut, feePpm);
        if DerivativeUpper(p, 0) > MAX_RATE {
          return Err(InvalidCurve);
        }
        r := CompilePool(p, capacity, meter);
    }
  }

  // ---------------------------------------------------------------- the pool's curve

  /** Band i spans interval i, at the largest rate within its rounded chord and the
      band before it. */
  ghost predicate TiledAt(p: Pool, bs: seq<nat>, bands: seq<Segment>, i: nat)
    requires p.Valid() && i < |bands| && |bs| == |bands| + 1
  {
    var rate, before := bands[i].marginal, if i == 0 then MAX_RATE else bands[i - 1].marginal;
    && bs[i + 1] == bs[i] + bands[i].inputCapacity
    && rate <= before && CpFp(p, bs[i]) + rate * bands[i].inputCapacity <= CpFp(p, bs[i + 1])
    && (rate < before ==> CpFp(p, bs[i + 1]) < CpFp(p, bs[i]) + (rate + 1) * bands[i].inputCapacity)
  }

  ghost predicate TiledBy(p: Pool, bs: seq<nat>, bands: seq<Segment>)
    requires p.Valid()
  {
    |bs| == |bands| + 1 && forall i: nat :: i < |bands| ==> TiledAt(p, bs, bands, i)
  }

  /** The tangent at boundary i rises, t atoms further on in its interval, at most this
      far above the bands. */
  ghost predicate CoveredAt(p: Pool, bs: seq<nat>, bands: seq<Segment>, atoms: nat, i: nat, t: nat)
    requires p.Valid()
  {
    i + 1 < |bs| && bs[i] + t <= bs[i + 1] ==>
      TangentAt(p, bs[i], t) <= Integral(bands, bs[i] + t) + atoms * SCALE
  }

  /** No tangent rises further above the bands than the error allows. */
  ghost predicate CoversTangents(p: Pool, bs: seq<nat>, bands: seq<Segment>, atoms: nat)
    requires p.Valid()
  {
    forall i: nat, t: nat :: CoveredAt(p, bs, bands, atoms, i, t)
  }

  lemma ChordCurveTiles(p: Pool, bs: seq<nat>)
    requires p.Valid() && Ascending(bs) && bs[|bs| - 1] <= MAX_ATOMS && DerivativeUpper(p, 0) <= MAX_RATE
    ensures TiledBy(p, bs, ChordCurve(p, bs).segments)
  {
    hide CpFp, DerivativeUpper, Bands, ErrorFp, CeilDiv, TiledAt, Ascending;
    CurveOfChords(p, bs);
    var bands := Bands(p, bs, |bs| - 1);
    forall i: nat | i < |bands|
      ensures TiledAt(p, bs, bands, i)
    {
      ChordTiles(p, bs, i);
    }
  }

  lemma ChordTiles(p: Pool, bs: seq<nat>, i: nat)
    requires p.Valid() && Ascending(bs) && i < |bs| - 1 && bs[|bs| - 1] <= MAX_ATOMS
    ensures TiledAt(p, bs, Bands(p, bs, |bs| - 1), i)
  {
    hide CpFp, Bands, Ascending;
    BandsShape(p, bs, |bs| - 1);
    BandRates(p, bs, |bs| - 1, i);
  }

  lemma CoverScale(error: nat)
    ensures error <= CeilDiv(error, SCALE) * SCALE
    ensures CeilDiv(error, SCALE) > 0 ==> (CeilDiv(error, SCALE) - 1) * SCALE < error
  {
  }

  lemma ChordCurveCovers(p: Pool, bs: seq<nat>)
    requires p.Valid() && Ascending(bs) && bs[|bs| - 1] <= MAX_ATOMS && DerivativeUpper(p, 0) <= MAX_RATE
    ensures CoversTangents(p, bs, ChordCurve(p, bs).segments, ChordCurve(p, bs).upperError)
    ensures forall atoms: nat :: atoms < ChordCurve(p, bs).upperError ==>
              !CoversTangents(p, bs, ChordCurve(p, bs).segments, atoms)
  {
    hide CpFp, DerivativeUpper, Bands, ErrorFp, CeilDiv, Integral, Ascending, TangentAt, IntPrefix;
    var n, c := |bs| - 1, ChordCurve(p, bs);
    CurveOfChords(p, bs);
    var error := ErrorFp(p, bs, n, n);
    CoverScale(error);
    forall i: nat, t: nat
      ensures CoveredAt(p, bs, c.segments, c.upperError, i, t)
    {
      if i < n && bs[i] + t <= bs[i + 1] {
        GapInside(p, bs, n, i, t);
        IntegralInside(p, bs, n, i, t);
      }
    }
    var i := ErrorIsTight(p, bs, n);
    var width: nat := bs[i + 1] - bs[i];
    assert bs[i] + width == bs[i + 1];
    forall atoms: nat | atoms < c.upperError
      ensures !CoversTangents(p, bs, c.segments, atoms)
    {
      Mono(atoms, c.upperError - 1, SCALE);
      assert !CoveredAt(p, bs, c.segments, atoms, i, width);
    }
  }

  lemma CurveOfChords(p: Pool, bs: seq<nat>)
    requires p.Valid() && Ascending(bs) && bs[|bs| - 1] <= MAX_ATOMS && DerivativeUpper(p, 0) <= MAX_RATE
    ensures |bs| >= 2 && ChordCurve(p, bs).segments == Bands(p, bs, |bs| - 1)
    ensures ChordCurve(p, bs).upperError == CeilDiv(ErrorFp(p, bs, |bs| - 1, |bs| - 1), SCALE)
    ensures ChordCurve(p, bs).lowerError == CeilDiv(p.y, p.r) + 1
  {
    hide CpFp, DerivativeUpper, Bands, ErrorFp, CeilDiv;
  }

  /** The curve of an accepted pool, end to end: starting from one interval the largest
      gap is halved until the bands run out or every interval is one atom; the bands
      are the rounded chords of these intervals; the upper error is the least number
      of atoms that covers every tangent; and the lower error is one atom more than
      the least number of atoms an input atom can cost. */
  lemma PoolCurveIsRefined(s: Snapshot, horizon: nat) returns (steps: seq<seq<nat>>)
    requires CompileFault(s, horizon).None? && s.model.ConstantProduct?
    ensures s.model.feePpm < PPM
    ensures var p := Pool(s.model.reserveIn, s.model.reserveOut, PPM - s.model.feePpm);
            var c := CompiledOf(s, horizon);
            && p.Valid() && IsRefinement(p, steps) && steps[0] == [0, Min(s.capacity, horizon)]
            && (var bs := steps[|steps| - 1];
                && (|bs| == MAX_SEGMENTS + 1 || AllSingle(bs))
                && TiledBy(p, bs, c.segments)
                && CoversTangents(p, bs, c.segments, c.upperError)
                && forall atoms: nat :: atoms < c.upperError ==> !CoversTangents(p, bs, c.segments, atoms))
            && c.lowerError >= 1 && (c.lowerError - 1) * s.model.reserveIn >= s.model.reserveOut
            && (c.lowerError > 1 ==> (c.lowerError - 2) * s.model.reserveIn < s.model.reserveOut)
  {
    var p := PoolOf(s.model.reserveIn, s.model.reserveOut, s.model.feePpm);
    var capacity := Min(s.capacity, horizon);
    hide Refine, DerivativeUpper, CpFp, Integral, Bands, ErrorFp, ChordCurve, CoversTangents, TiledBy, Halved, AllSingle;
    steps := RefineHalves(p, [0, capacity]);
    var bs := Refine(p, [0, capacity]);
    ChordCurveTiles(p, bs);
    ChordCurveCovers(p, bs);
    CurveOfChords(p, bs);
  }

  // ---------------------------------------------------------------- the envelope

  lemma BookSound(s: Snapshot, horizon: nat)
    requires CompileFault(s, horizon).None? && s.model.Book?
    ensures ValidCurve(CompiledOf(s, horizon)) && Envelope(s, CompiledOf(s, horizon))
    ensures forall x: nat :: x <= Min(s.capacity, horizon) ==>
              ExactQuoteOf(s, x) == Ok(Integral(CompiledOf(s, horizon).segments, x) / SCALE)
  {
    var levels, c := s.model.levels, CompiledOf(s, horizon);
    var full := BookCurve(levels).value;
    FaultMeaning(full);
    CutShape(levels, c.capacity, MAX_RATE);
    hide CutBands, Integral, ValidBands, CurveFault;
    forall x: nat | x <= c.capacity
      ensures ExactQuoteOf(s, x) == Ok(Integral(c.segments, x) / SCALE)
    {
      CutKeepsOutput(levels, c.capacity, x);
    }
  }

  lemma PoolSound(s: Snapshot, horizon: nat)
    requires CompileFault(s, horizon).None? && s.model.ConstantProduct?
    ensures ValidCurve(CompiledOf(s, horizon)) && Envelope(s, CompiledOf(s, horizon))
  {
    var p := PoolOf(s.model.reserveIn, s.model.reserveOut, s.model.feePpm);
    var c := CompiledOf(s, horizon);
    var bs := Refine(p, [0, c.capacity]);
    hide Refine, DerivativeUpper, CpFp, Integral, Bands, ErrorFp, PoolOutput, NetInput;
    ChordCurveValid(p, bs);
    forall x: nat | x <= c.capacity
      ensures ExactQuoteOf(s, x).Ok?
      ensures SaturatingSub(Integral(c.segments, x) / SCALE, c.lowerError) <= ExactQuoteOf(s, x).value
      ensures ExactQuoteOf(s, x).value <= Integral(c.segments, x) / SCALE + c.upperError
    {
      ChordsEnclose(p, s.model.feePpm, bs, x);
    }
  }

  /** Every accepted venue, at every horizon: the compiled curve is valid and encloses
      the exact quotes; for a book it is exact. */
  lemma CompiledIsSound(s: Snapshot, horizon: nat)
    requires CompileFault(s, horizon).None?
    ensures ValidCurve(CompiledOf(s, horizon)) && Envelope(s, CompiledOf(s, horizon))
  {
    hide *;
    match s.model {
      case Book(_) => BookSound(s, horizon);
      case ConstantProduct(_, _, _) => PoolSound(s, horizon);
    }
  }
}
