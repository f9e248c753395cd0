/** The chords of a constant-product curve over a list of boundaries: their
    clamped slopes, their error bound, and the envelope they guarantee. */
module Chords {
  import opened Base
  import opened Products
  import opened Curves
  import opened Venues
  import opened ChordMath

  ghost predicate Ascending(bs: seq<nat>) {
    |bs| >= 2 && bs[0] == 0 && forall i, j :: 0 <= i < j < |bs| ==> bs[i] < bs[j]
  }

  /** Rounded chord slope between two boundaries. */
  function SlopeOf(p: Pool, a: nat, b: nat): nat
    requires p.Valid() && a < b
  {
    CpFpMonotone(p, a, b - a);
    (CpFp(p, b) - CpFp(p, a)) / (b - a)
  }

  /** The bands over the first n intervals, each slope clamped by the one before. */
  function Bands(p: Pool, bs: seq<nat>, n: nat): (bands: seq<Segment>)
    requires p.Valid() && Ascending(bs) && n < |bs| && bs[|bs| - 1] <= MAX_ATOMS
    ensures |bands| == n && forall i :: 0 <= i < n ==> bands[i].marginal <= MAX_RATE
  {
    if n == 0 then []
    else
      var before := Bands(p, bs, n - 1);
      var top := if n == 1 then MAX_RATE else before[n - 2].marginal;
      assert bs[n - 1] < bs[n] && (n < |bs| - 1 ==> bs[n] < bs[|bs| - 1]);
      before + [Segment(bs[n] - bs[n - 1], Min(SlopeOf(p, bs[n - 1], bs[n]), top))]
  }

  lemma {:induction false} BandsPrefix(p: Pool, bs: seq<nat>, m: nat, n: nat)
    requires p.Valid() && Ascending(bs) && m <= n < |bs| && bs[|bs| - 1] <= MAX_ATOMS
    ensures Bands(p, bs, m) == Bands(p, bs, n)[..m]
  {
    if m < n {
      BandsPrefix(p, bs, m, n - 1);
    }
  }

  lemma ValidSnoc(bands: seq<Segment>, s: Segment, top: nat)
    requires ValidBands(bands, top) && s.inputCapacity > 0
    requires s.marginal <= if |bands| == 0 then top else bands[|bands| - 1].marginal
    ensures ValidBands(bands + [s], top)
  {
  }

  /** Bands tile the boundaries, their slopes never rise and never exceed the chord. */
  lemma {:induction false} BandsShape(p: Pool, bs: seq<nat>, n: nat)
    requires p.Valid() && Ascending(bs) && n < |bs| && bs[|bs| - 1] <= MAX_ATOMS
    ensures ValidBands(Bands(p, bs, n), MAX_RATE)
    ensures forall i :: 0 <= i < n ==> Bands(p, bs, n)[i].inputCapacity == bs[i + 1] - bs[i]
    ensures forall i :: 0 <= i < n ==> Bands(p, bs, n)[i].marginal <= SlopeOf(p, bs[i], bs[i + 1])
  {
    hide SlopeOf, ValidBands;
    if n > 0 {
      BandsShape(p, bs, n - 1);
      var before, bands := Bands(p, bs, n - 1), Bands(p, bs, n);
      ValidSnoc(before, bands[n - 1], MAX_RATE);
      assert bands == before + [bands[n - 1]];
    } else {
      NoBandsValid();
    }
  }

  lemma NoBandsValid()
    ensures ValidBands([], MAX_RATE)
  {
  }

  lemma {:induction false} CapAtBoundary(p: Pool, bs: seq<nat>, n: nat, i: nat)
    requires p.Valid() && Ascending(bs) && i <= n < |bs| && bs[|bs| - 1] <= MAX_ATOMS
    ensures CapPrefix(Bands(p, bs, n), i) == bs[i]
  {
    hide SlopeOf, Bands;
    if i > 0 {
      CapAtBoundary(p, bs, n, i - 1);
      BandsShape(p, bs, n);
    }
  }

  lemma SlopeRounds(p: Pool, a: nat, b: nat)
    requires p.Valid() && a < b
    ensures CpFp(p, a) + (b - a) * SlopeOf(p, a, b) <= CpFp(p, b)
  {
    CpFpMonotone(p, a, b - a);
    FloorBounds(CpFp(p, b) - CpFp(p, a), b - a);
  }

  /** Accumulated slopes never overtake the curve's rounded values. */
  lemma {:induction false} IntegralBelowValue(p: Pool, bs: seq<nat>, n: nat, i: nat)
    requires p.Valid() && Ascending(bs) && i <= n < |bs| && bs[|bs| - 1] <= MAX_ATOMS
    ensures IntPrefix(Bands(p, bs, n), i) <= CpFp(p, bs[i])
  {
    hide SlopeOf, Bands, CpFp;
    if i > 0 {
      IntegralBelowValue(p, bs, n, i - 1);
      BandsShape(p, bs, n);
      var band := Bands(p, bs, n)[i - 1];
      SlopeRounds(p, bs[i - 1], bs[i]);
      Mono(band.marginal, SlopeOf(p, bs[i - 1], bs[i]), band.inputCapacity);
    }
  }

  /** How far the curve can rise above the bands within interval i, in Q32. */
  function TangentGap(p: Pool, bs: seq<nat>, n: nat, i: nat): nat
    requires p.Valid() && Ascending(bs) && i < n < |bs| && bs[|bs| - 1] <= MAX_ATOMS
  {
    IntegralBelowValue(p, bs, n, i);
    var bands := Bands(p, bs, n);
    CpFp(p, bs[i]) + 1 - IntPrefix(bands, i)
      + Yield(bands[i].inputCapacity, SaturatingSub(DerivativeUpper(p, bs[i]), bands[i].marginal))
  }

  /** The largest gap over the first k intervals. */
  function ErrorFp(p: Pool, bs: seq<nat>, n: nat, k: nat): nat
    requires p.Valid() && Ascending(bs) && k <= n < |bs| && bs[|bs| - 1] <= MAX_ATOMS
  {
    if k == 0 then 0 else Max(ErrorFp(p, bs, n, k - 1), TangentGap(p, bs, n, k - 1))
  }

  lemma {:induction false} ErrorCovers(p: Pool, bs: seq<nat>, n: nat, k: nat, i: nat)
    requires p.Valid() && Ascending(bs) && i < k <= n < |bs| && bs[|bs| - 1] <= MAX_ATOMS
    ensures TangentGap(p, bs, n, i) <= ErrorFp(p, bs, n, k)
  {
    hide TangentGap;
    if i < k - 1 {
      ErrorCovers(p, bs, n, k - 1, i);
    }
  }

  /** Every input lies in some interval. */
  lemma {:induction false} IntervalOf(bs: seq<nat>, x: nat, n: nat) returns (i: nat)
    requires Ascending(bs) && 0 < n < |bs| && x <= bs[n]
    ensures i < n && bs[i] <= x <= bs[i + 1]
  {
    if n == 1 || bs[n - 1] <= x {
      i := n - 1;
    } else {
      i := IntervalOf(bs, x, n - 1);
    }
  }

  /** Q32 output inside interval i. */
  lemma IntegralInside(p: Pool, bs: seq<nat>, n: nat, i: nat, t: nat)
    requires p.Valid() && Ascending(bs) && i < n < |bs| && bs[|bs| - 1] <= MAX_ATOMS
    requires t <= bs[i + 1] - bs[i]
    ensures Integral(Bands(p, bs, n), bs[i] + t) == IntPrefix(Bands(p, bs, n), i) + Yield(t, Bands(p, bs, n)[i].marginal)
  {
    hide *;
    CapAtBoundary(p, bs, n, i);
    BandsShape(p, bs, n);
    BandsAreBands(Bands(p, bs, n), MAX_RATE);
    IntegralAt(Bands(p, bs, n), i, t);
    YieldZero(Bands(p, bs, n)[i].marginal);
  }

  lemma BandsAreBands(bands: seq<Segment>, top: nat)
    requires ValidBands(bands, top)
    ensures forall j :: 0 <= j < |bands| ==> bands[j].inputCapacity > 0
  {
  }

  lemma ReservePositive(p: Pool)
    requires p.Valid()
    ensures p.r > 0
  {
  }

  lemma YieldZero(rate: nat)
    ensures Yield(0, rate) == 0
  {
  }

  // ---------------------------------------------------------------- the envelope

  lemma GapAlgebra(v: nat, integral: nat, tau: nat, slope: nat, t: nat, width: nat, e: nat)
    requires integral <= v && t <= width
    requires v + 1 - integral + SaturatingSub(tau, slope) * width <= e
    ensures v + 1 + tau * t <= integral + slope * t + e
  {
    if tau >= slope {
      Mono(t, width, tau - slope);
      assert tau * t == slope * t + (tau - slope) * t;
    } else {
      Mono(tau, slope, t);
    }
  }

  /** Inside interval i the tangent stays within the error of the bands. */
  lemma GapInside(p: Pool, bs: seq<nat>, n: nat, i: nat, t: nat)
    requires p.Valid() && Ascending(bs) && i < n < |bs| && bs[|bs| - 1] <= MAX_ATOMS
    requires t <= bs[i + 1] - bs[i]
    ensures TangentAt(p, bs[i], t)
            <= IntPrefix(Bands(p, bs, n), i) + Yield(t, Bands(p, bs, n)[i].marginal) + ErrorFp(p, bs, n, n)
  {
    var bands := Bands(p, bs, n);
    BandsShape(p, bs, n);
    IntegralBelowValue(p, bs, n, i);
    ErrorCovers(p, bs, n, n, i);
    GapParts(p, bs, n, i);
    TangentParts(p, bs[i], t);
    hide *;
    YieldIs(t, bands[i].marginal);
    YieldIs(bands[i].inputCapacity, SaturatingSub(DerivativeUpper(p, bs[i]), bands[i].marginal));
    GapAlgebra(CpFp(p, bs[i]), IntPrefix(bands, i), DerivativeUpper(p, bs[i]), bands[i].marginal,
               t, bands[i].inputCapacity, ErrorFp(p, bs, n, n));
  }

  lemma {:induction false} ErrorReached(p: Pool, bs: seq<nat>, n: nat, k: nat) returns (i: nat)
    requires p.Valid() && Ascending(bs) && 0 < k <= n < |bs| && bs[|bs| - 1] <= MAX_ATOMS
    ensures i < k && TangentGap(p, bs, n, i) == ErrorFp(p, bs, n, k)
  {
    hide TangentGap;
    if k == 1 || ErrorFp(p, bs, n, k - 1) <= TangentGap(p, bs, n, k - 1) {
      i := k - 1;
      if k == 1 {
        assert ErrorFp(p, bs, n, 0) == 0;
      }
    } else {
      i := ErrorReached(p, bs, n, k - 1);
    }
  }

  /** A rounded chord is no steeper than the tangent bound at its left end. */
  lemma SlopeBelowTangent(p: Pool, a: nat, b: nat)
    requires p.Valid() && a < b
    ensures SlopeOf(p, a, b) <= DerivativeUpper(p, a)
  {
    ChordBelowTangent(p, a, b - a);
    CpFpMonotone(p, a, b - a);
    hide DerivativeUpper, CpFp;
    QuotientAtMost(CpFp(p, b) - CpFp(p, a), b - a, DerivativeUpper(p, a));
  }

  /** The error is no larger than needed: at the right end of some interval the tangent
      is exactly this far above the bands. */
  lemma ErrorIsTight(p: Pool, bs: seq<nat>, n: nat) returns (i: nat)
    requires p.Valid() && Ascending(bs) && 0 < n < |bs| && bs[|bs| - 1] <= MAX_ATOMS
    ensures i < n && bs[i] < bs[i + 1]
    ensures TangentAt(p, bs[i], bs[i + 1] - bs[i]) == Integral(Bands(p, bs, n), bs[i + 1]) + ErrorFp(p, bs, n, n)
  {
    hide *;
    i := ErrorReached(p, bs, n, n);
    Climbs(bs, i);
    var bands, width := Bands(p, bs, n), bs[i + 1] - bs[i];
    BandsShape(p, bs, n);
    IntegralBelowValue(p, bs, n, i);
    GapParts(p, bs, n, i);
    TangentParts(p, bs[i], width);
    IntegralInside(p, bs, n, i, width);
    SlopeBelowTangent(p, bs[i], bs[i + 1]);
    YieldIs(width, bands[i].marginal);
    TangentExcess(width, DerivativeUpper(p, bs[i]), bands[i].marginal);
  }

  lemma Climbs(bs: seq<nat>, i: nat)
    requires Ascending(bs) && i + 1 < |bs|
    ensures bs[i] < bs[i + 1]
  {
  }

  lemma GapParts(p: Pool, bs: seq<nat>, n: nat, i: nat)
    requires p.Valid() && Ascending(bs) && i < n < |bs| && bs[|bs| - 1] <= MAX_ATOMS
    ensures var bands := Bands(p, bs, n);
            TangentGap(p, bs, n, i) == CpFp(p, bs[i]) + 1 - IntPrefix(bands, i)
              + Yield(bands[i].inputCapacity, SaturatingSub(DerivativeUpper(p, bs[i]), bands[i].marginal))
  {
    hide CpFp, DerivativeUpper, Bands, IntPrefix, Yield, SaturatingSub;
    IntegralBelowValue(p, bs, n, i);
  }

  lemma TangentParts(p: Pool, w: nat, t: nat)
    requires p.Valid()
    ensures TangentAt(p, w, t) == CpFp(p, w) + 1 + DerivativeUpper(p, w) * t
  {
    hide CpFp, DerivativeUpper;
  }

  lemma TangentExcess(width: nat, tau: nat, slope: nat)
    requires slope <= tau
    ensures Yield(width, SaturatingSub(tau, slope)) + slope * width == tau * width
  {
    Distribute(tau - slope, slope, width);
  }

  /** Every band carries the largest rate that stays within its rounded chord and
      within the band before it. */
  lemma {:induction false} BandRates(p: Pool, bs: seq<nat>, n: nat, i: nat)
    requires p.Valid() && Ascending(bs) && i < n < |bs| && bs[|bs| - 1] <= MAX_ATOMS
    ensures bs[i] < bs[i + 1]
    ensures var rate, width := Bands(p, bs, n)[i].marginal, bs[i + 1] - bs[i];
            var before := if i == 0 then MAX_RATE else Bands(p, bs, n)[i - 1].marginal;
            && CpFp(p, bs[i]) + rate * width <= CpFp(p, bs[i + 1]) && rate <= before
            && (rate < before ==> CpFp(p, bs[i + 1]) < CpFp(p, bs[i]) + (rate + 1) * width)
  {
    hide CpFp, SlopeOf;
    if i < n - 1 {
      BandRates(p, bs, n - 1, i);
    } else {
      BandsPrefix(p, bs, i, n);
      SlopeFloors(p, bs[i], bs[i + 1]);
      Mono(Bands(p, bs, n)[i].marginal, SlopeOf(p, bs[i], bs[i + 1]), bs[i + 1] - bs[i]);
    }
  }

  lemma SlopeFloors(p: Pool, a: nat, b: nat)
    requires p.Valid() && a < b
    ensures CpFp(p, a) + SlopeOf(p, a, b) * (b - a) <= CpFp(p, b) < CpFp(p, a) + (SlopeOf(p, a, b) + 1) * (b - a)
  {
    CpFpMonotone(p, a, b - a);
    hide CpFp;
    FloorBounds(CpFp(p, b) - CpFp(p, a), b - a);
  }

  lemma BelowTop(e: nat, d: nat, n: nat, top: nat)
    requires d > 0 && e * d <= n && n * SCALE < top * d
    ensures e * SCALE < top
  {
    Mono(e * d, n, SCALE);
    Shuffle(e, d, SCALE);
    Cancel(e * SCALE, top, d);
  }

  lemma BelowBound(g: nat, d: nat, n: nat, bound: nat)
    requires d > 0 && g * d <= n * SCALE && n < bound * d
    ensures g < bound * SCALE
  {
    MonoStrict(n, bound * d, SCALE);
    Shuffle(bound, d, SCALE);
    Cancel(g, bound * SCALE, d);
  }

  lemma SlopeStep(v: nat, vb: nat, slope: nat, full: nat, width: nat)
    requires slope <= full && v + width * full <= vb
    ensures v + width * slope <= vb
  {
    Mono(slope, full, width);
  }

  /** Upper half: the exact output exceeds the bands by less than the error. */
  lemma UpperHalf(p: Pool, bs: seq<nat>, n: nat, i: nat, t: nat, net: nat)
    requires p.Valid() && Ascending(bs) && i < n < |bs| && bs[|bs| - 1] <= MAX_ATOMS
    requires t <= bs[i + 1] - bs[i] && net * PPM <= p.f * (bs[i] + t)
    ensures PoolOutput(p.r, p.y, net) * SCALE < Integral(Bands(p, bs, n), bs[i] + t) + ErrorFp(p, bs, n, n)
  {
    ReservePositive(p);
    hide *;
    var x := bs[i] + t;
    var bands, e := Bands(p, bs, n), PoolOutput(p.r, p.y, net);
    GapInside(p, bs, n, i, t);
    IntegralInside(p, bs, n, i, t);
    TangentAbove(p, bs[i], t);
    ExactBelowCurve(p, x, net);
    Positive(p, x);
    BelowTop(e, p.D(x), p.N(x), TangentAt(p, bs[i], t));
  }

  lemma YieldIs(x: nat, rate: nat)
    ensures Yield(x, rate) == rate * x
  {
  }

  lemma ChordWeights(v: nat, vb: nat, integral: nat, slope: nat, t: nat, width: nat)
    requires integral <= v && t <= width && v + width * slope <= vb
    ensures width * (integral + Yield(t, slope)) <= (width - t) * v + t * vb
  {
    hide Yield;
    YieldIs(t, slope);
    var rise := width * slope;
    Distribute(integral, slope * t, width);
    Associate(width, slope, t);
    Mono(integral, v, width);
    Distribute(width - t, t, v);
    Distribute(v, rise, t);
    Mono(v + rise, vb, t);
  }

  /** Inside interval i the bands stay below the chord of the rounded values. */
  lemma BandsBelowChord(p: Pool, bs: seq<nat>, n: nat, i: nat, t: nat)
    requires p.Valid() && Ascending(bs) && i < n < |bs| && bs[|bs| - 1] <= MAX_ATOMS
    requires bs[i] < bs[i + 1] && t <= bs[i + 1] - bs[i]
    ensures (bs[i + 1] - bs[i]) * Integral(Bands(p, bs, n), bs[i] + t)
            <= (bs[i + 1] - bs[i] - t) * CpFp(p, bs[i]) + t * CpFp(p, bs[i + 1])
  {
    hide *;
    var width, bands := bs[i + 1] - bs[i], Bands(p, bs, n);
    BandsShape(p, bs, n);
    IntegralBelowValue(p, bs, n, i);
    IntegralInside(p, bs, n, i, t);
    SlopeRounds(p, bs[i], bs[i + 1]);
    SlopeStep(CpFp(p, bs[i]), CpFp(p, bs[i + 1]), bands[i].marginal, SlopeOf(p, bs[i], bs[i + 1]), width);
    ChordWeights(CpFp(p, bs[i]), CpFp(p, bs[i + 1]), IntPrefix(bands, i), bands[i].marginal, t, width);
  }

  /** Lower half: the bands exceed the exact output by at most 1 + ceil(y / r). */
  lemma LowerHalf(p: Pool, bs: seq<nat>, n: nat, i: nat, t: nat, net: nat)
    requires p.Valid() && Ascending(bs) && i < n < |bs| && bs[|bs| - 1] <= MAX_ATOMS
    requires t <= bs[i + 1] - bs[i] && p.f * (bs[i] + t) < (net + 1) * PPM
    ensures Integral(Bands(p, bs, n), bs[i] + t) < (PoolOutput(p.r, p.y, net) + 1 + CeilDiv(p.y, p.r)) * SCALE
  {
    ReservePositive(p);
    assert bs[i] < bs[i + 1];
    hide *;
    var x := bs[i] + t;
    BandsBelowChord(p, bs, n, i, t);
    ExactAboveCurve(p, x, net);
    Positive(p, x);
    var g := Integral(Bands(p, bs, n), x);
    ChordBelow(p, bs[i], t, bs[i + 1] - bs[i], g);
    BelowBound(g, p.D(x), p.N(x), PoolOutput(p.r, p.y, net) + 1 + CeilDiv(p.y, p.r));
  }

  lemma NetInputBounds(x: nat, fee: nat)
    requires fee < PPM
    ensures NetInput(x, fee) * PPM <= (PPM - fee) * x < (NetInput(x, fee) + 1) * PPM
  {
    FloorBounds(x * (PPM - fee), PPM);
  }

  /** The envelope: over every boundary list, the exact output at every input is
      within the two error bounds of the bands. */
  lemma ChordsEnclose(p: Pool, fee: nat, bs: seq<nat>, x: nat)
    requires p.Valid() && fee < PPM && p.f == PPM - fee
    requires Ascending(bs) && bs[|bs| - 1] <= MAX_ATOMS && x <= bs[|bs| - 1]
    ensures var n := |bs| - 1;
            var exact := PoolOutput(p.r, p.y, NetInput(x, fee));
            var output := Integral(Bands(p, bs, n), x) / SCALE;
            && exact <= output + CeilDiv(ErrorFp(p, bs, n, n), SCALE)
            && output <= exact + CeilDiv(p.y, p.r)
  {
    var n, net := |bs| - 1, NetInput(x, fee);
    var i := IntervalOf(bs, x, n);
    NetInputBounds(x, fee);
    UpperHalf(p, bs, n, i, x - bs[i], net);
    LowerHalf(p, bs, n, i, x - bs[i], net);
    hide Bands, Integral, ErrorFp, PoolOutput, Pool.Valid, NetInput;
    var g, e, exact := Integral(Bands(p, bs, n), x), ErrorFp(p, bs, n, n), PoolOutput(p.r, p.y, net);
    assert CeilDiv(e, SCALE) * SCALE >= e;
  }
}
