/** Constant-product pools in the marginal-curve compiler: the pool is replaced by
    at most sixteen adaptively chosen chords. */
module AdaptiveChords {
  import opened Base
  import opened Products
  import opened Curves
  import opened Venues
  import opened ChordMath
  import opened Chords

  // ---------------------------------------------------------------- adaptive boundaries

  /** How badly interval (a, b) is approximated, by the tangent at a against its chord. */
  function GapOf(p: Pool, a: nat, b: nat): nat
    requires p.Valid() && a < b
  {
    Yield(b - a, SaturatingSub(DerivativeUpper(p, a), SlopeOf(p, a, b)))
  }

  /** The worst divisible interval among the first n, the leftmost on a tie. */
  function Worst(p: Pool, bs: seq<nat>, n: nat): (w: Option<nat>)
    requires p.Valid() && Ascending(bs) && n < |bs|
    ensures w.Some? ==> w.value < n && bs[w.value + 1] - bs[w.value] > 1
  {
    if n == 0 then None
    else
      var w := Worst(p, bs, n - 1);
      if bs[n] - bs[n - 1] <= 1 then w
      else if w.None? || GapOf(p, bs[n - 1], bs[n]) > GapOf(p, bs[w.value], bs[w.value + 1]) then Some(n - 1)
      else w
  }

  function Middle(a: nat, b: nat): nat
    requires a <= b
  {
    a + (b - a) / 2
  }

  function SplitAt(bs: seq<nat>, i: nat): (r: seq<nat>)
    requires i + 1 < |bs| && bs[i] <= bs[i + 1]
    ensures |r| == |bs| + 1
  {
    bs[..i + 1] + [Middle(bs[i], bs[i + 1])] + bs[i + 1..]
  }

  lemma SplitAscends(bs: seq<nat>, i: nat)
    requires Ascending(bs) && i + 1 < |bs| && bs[i + 1] - bs[i] > 1
    ensures Ascending(SplitAt(bs, i)) && SplitAt(bs, i)[|bs|] == bs[|bs| - 1]
  {
  }

  /** Split the worst interval until nothing is divisible or all bands are used:
      the definition recomputes every gap, the loop caches them. */
  function Refine(p: Pool, bs: seq<nat>): (r: seq<nat>)
    requires p.Valid() && Ascending(bs) && |bs| <= MAX_SEGMENTS + 1
    ensures Ascending(r) && |r| <= MAX_SEGMENTS + 1 && r[|r| - 1] == bs[|bs| - 1]
    decreases MAX_SEGMENTS + 1 - |bs|
  {
    if |bs| == MAX_SEGMENTS + 1 then bs
    else
      var w := Worst(p, bs, |bs| - 1);
      if w.None? then bs
      else
        SplitAscends(bs, w.value);
        Refine(p, SplitAt(bs, w.value))
  }

  // ---------------------------------------------------------------- what is refined

  /** Interval i can still be split. */
  predicate Divisible(bs: seq<nat>, i: nat) {
    i + 1 < |bs| && bs[i] + 1 < bs[i + 1]
  }

  function GapAt(p: Pool, bs: seq<nat>, i: nat): nat
    requires p.Valid() && Divisible(bs, i)
  {
    GapOf(p, bs[i], bs[i + 1])
  }

  /** Interval i has the largest gap of all that can be split, and is the leftmost
      with that gap. */
  ghost predicate LargestGap(p: Pool, bs: seq<nat>, i: nat)
    requires p.Valid()
  {
    && Divisible(bs, i)
    && forall j: nat :: Divisible(bs, j) ==>
         GapAt(p, bs, j) <= GapAt(p, bs, i) && (j < i ==> GapAt(p, bs, j) < GapAt(p, bs, i))
  }

  lemma {:induction false} WorstScanned(p: Pool, bs: seq<nat>, n: nat)
    requires p.Valid() && Ascending(bs) && n < |bs|
    ensures Worst(p, bs, n).None? ==> forall j: nat :: j < n ==> !Divisible(bs, j)
    ensures Worst(p, bs, n).Some? ==>
              && Divisible(bs, Worst(p, bs, n).value)
              && forall j: nat :: j < n && Divisible(bs, j) ==>
                   var w := Worst(p, bs, n).value;
                   GapAt(p, bs, j) <= GapAt(p, bs, w) && (j < w ==> GapAt(p, bs, j) < GapAt(p, bs, w))
  {
    hide GapOf, Ascending;
    if n > 0 {
      WorstScanned(p, bs, n - 1);
    }
  }

  /** The interval to split has the largest gap; there is none exactly when every
      interval is a single atom wide. */
  lemma WorstIsLargest(p: Pool, bs: seq<nat>)
    requires p.Valid() && Ascending(bs)
    ensures |bs| > 0 && (Worst(p, bs, |bs| - 1).Some? ==> LargestGap(p, bs, Worst(p, bs, |bs| - 1).value))
    ensures Worst(p, bs, |bs| - 1).None? <==> AllSingle(bs)
  {
    WorstNone(p, bs);
    WorstScanned(p, bs, |bs| - 1);
    hide GapAt, Worst, Ascending;
    forall j: nat | j + 1 < |bs|
      ensures bs[j] < bs[j + 1]
    {
      Rising(bs, j);
    }
    if Worst(p, bs, |bs| - 1).None? {
      forall j: nat | j + 1 < |bs|
        ensures bs[j + 1] == bs[j] + 1
      {
        assert !Divisible(bs, j);
      }
    }
  }

  /** Every interval is a single atom wide. */
  ghost predicate AllSingle(bs: seq<nat>) {
    forall j: nat :: j + 1 < |bs| ==> bs[j + 1] == bs[j] + 1
  }

  lemma GapSize(width: nat, rise: nat, tau: nat)
    requires width > 0 && rise <= tau * width
    ensures tau * width - rise <= Yield(width, SaturatingSub(tau, rise / width)) < tau * width - rise + width
    ensures Yield(width, SaturatingSub(tau, rise / width)) == tau * width - (rise / width) * width
  {
    FloorBounds(rise, width);
    QuotientAtMost(rise, width, tau);
    var slope := rise / width;
    Distribute(tau - slope, slope, width);
    Distribute(slope, 1, width);
  }

  /** What the gap measures: how far the tangent at the left end has risen above the
      curve's rounded value at the right end, up to the rounding of the slope. */
  lemma GapMeasures(p: Pool, a: nat, b: nat)
    requires p.Valid() && a < b
    ensures CpFp(p, a) + DerivativeUpper(p, a) * (b - a) <= CpFp(p, b) + GapOf(p, a, b)
    ensures CpFp(p, b) + GapOf(p, a, b) < CpFp(p, a) + DerivativeUpper(p, a) * (b - a) + (b - a)
  {
    ChordBelowTangent(p, a, b - a);
    CpFpMonotone(p, a, b - a);
    assert GapOf(p, a, b) == Yield(b - a, SaturatingSub(DerivativeUpper(p, a), (CpFp(p, b) - CpFp(p, a)) / (b - a)));
    hide *;
    GapSize(b - a, CpFp(p, b) - CpFp(p, a), DerivativeUpper(p, a));
  }

  /** Inside the interval the continuous curve rises above its rounded chord by at most
      the gap, and one Q32 unit. */
  lemma CurveWithinGap(p: Pool, a: nat, b: nat, t: nat)
    requires p.Valid() && a < b && t <= b - a && CpFp(p, a) <= CpFp(p, b)
    ensures p.N(a + t) * SCALE
            < (CpFp(p, a) + (CpFp(p, b) - CpFp(p, a)) / (b - a) * t + GapOf(p, a, b) + 1) * p.D(a + t)
  {
    var rise, tau, width := CpFp(p, b) - CpFp(p, a), DerivativeUpper(p, a), b - a;
    assert GapOf(p, a, b) == Yield(width, SaturatingSub(tau, rise / width));
    assert TangentAt(p, a, t) == CpFp(p, a) + 1 + tau * t;
    TangentAbove(p, a, t);
    hide *;
    YieldIs(width, SaturatingSub(tau, rise / width));
    GapAlgebra(0, 0, tau, rise / width, t, width, GapOf(p, a, b) + 1);
    Mono(TangentAt(p, a, t), CpFp(p, a) + rise / width * t + GapOf(p, a, b) + 1, p.D(a + t));
  }

  /** One split: the interval of the largest gap is halved, rounding down, and every
      other boundary stays. */
  ghost predicate Halves(p: Pool, bs: seq<nat>, cs: seq<nat>, i: nat)
    requires p.Valid()
  {
    && LargestGap(p, bs, i) && |cs| == |bs| + 1
    && cs[i + 1] == (bs[i] + bs[i + 1]) / 2
    && (forall k: nat :: k <= i ==> cs[k] == bs[k])
    && forall k: nat :: i + 1 < k < |cs| ==> cs[k] == bs[k - 1]
  }

  ghost predicate Halved(p: Pool, bs: seq<nat>, cs: seq<nat>)
    requires p.Valid()
  {
    exists i: nat :: Halves(p, bs, cs, i)
  }

  /** A refinement from its first boundaries to its last. */
  ghost predicate IsRefinement(p: Pool, steps: seq<seq<nat>>)
    requires p.Valid()
  {
    |steps| > 0 && forall k :: 0 < k < |steps| ==> Halved(p, steps[k - 1], steps[k])
  }

  lemma SplitHalves(p: Pool, bs: seq<nat>, i: nat)
    requires p.Valid() && Ascending(bs) && LargestGap(p, bs, i)
    ensures bs[i] <= bs[i + 1] && Halves(p, bs, SplitAt(bs, i), i)
  {
    hide LargestGap;
    assert Divisible(bs, i) by {
      LargestIsDivisible(p, bs, i);
    }
    CutAt(bs, i);
    assert bs[i] + (bs[i + 1] - bs[i]) / 2 == (bs[i] + bs[i + 1]) / 2;
  }

  lemma LargestIsDivisible(p: Pool, bs: seq<nat>, i: nat)
    requires p.Valid() && LargestGap(p, bs, i)
    ensures Divisible(bs, i)
  {
    hide GapOf;
  }

  /** The chosen boundaries are reached by halving the interval of the largest gap
      again and again, until all bands are used or every interval is a single atom. */
  lemma {:induction false} RefineHalves(p: Pool, bs: seq<nat>) returns (steps: seq<seq<nat>>)
    requires p.Valid() && Ascending(bs) && |bs| <= MAX_SEGMENTS + 1
    ensures IsRefinement(p, steps) && steps[0] == bs && steps[|steps| - 1] == Refine(p, bs)
    ensures |Refine(p, bs)| == MAX_SEGMENTS + 1 || AllSingle(Refine(p, bs))
    decreases MAX_SEGMENTS + 1 - |bs|
  {
    hide Worst, LargestGap, Halves, SplitAt, Ascending, Halved, AllSingle, Refine;
    WorstIsLargest(p, bs);
    if |bs| == MAX_SEGMENTS + 1 {
      RefineFull(p, bs);
      steps := [bs];
      return;
    }
    RefineStep(p, bs);
    var w := Worst(p, bs, |bs| - 1);
    if w.None? {
      steps := [bs];
      return;
    }
    SplitAscends(bs, w.value);
    SplitHalves(p, bs, w.value);
    var rest := RefineHalves(p, SplitAt(bs, w.value));
    HalvedBy(p, bs, rest[0], w.value);
    steps := [bs] + rest;
    forall k | 0 < k < |steps|
      ensures Halved(p, steps[k - 1], steps[k])
    {
      if k > 1 {
        assert Halved(p, rest[k - 2], rest[k - 1]);
      }
    }
  }

  lemma HalvedBy(p: Pool, bs: seq<nat>, cs: seq<nat>, i: nat)
    requires p.Valid() && Halves(p, bs, cs, i)
    ensures Halved(p, bs, cs)
  {
    hide Halves;
  }

  lemma HalvedUniquely(p: Pool, bs: seq<nat>, cs: seq<nat>, ds: seq<nat>)
    requires p.Valid() && Halved(p, bs, cs) && Halved(p, bs, ds)
    ensures cs == ds
  {
    hide LargestGap;
    var i: nat :| Halves(p, bs, cs, i);
    var j: nat :| Halves(p, bs, ds, j);
    LargestIsUnique(p, bs, i, j);
    forall k | 0 <= k < |cs|
      ensures cs[k] == ds[k]
    {
    }
  }

  /** There is only one such refinement, so the boundaries are determined by it. */
  lemma {:induction false} RefinementIsUnique(p: Pool, a: seq<seq<nat>>, b: seq<seq<nat>>, k: nat)
    requires p.Valid() && IsRefinement(p, a) && IsRefinement(p, b) && a[0] == b[0] && k < |a| && k < |b|
    ensures a[k] == b[k]
  {
    hide Halved;
    if k > 0 {
      RefinementIsUnique(p, a, b, k - 1);
      HalvedUniquely(p, a[k - 1], a[k], b[k]);
    }
  }

  lemma LargestIsUnique(p: Pool, bs: seq<nat>, i: nat, j: nat)
    requires p.Valid() && LargestGap(p, bs, i) && LargestGap(p, bs, j)
    ensures i == j
  {
    hide GapOf;
  }

  // ---------------------------------------------------------------- the cached arrays

  /** Boundaries, endpoint values, tangents and gaps agree with their definitions. */
  ghost predicate Cached(
    p: Pool, bs: seq<nat>, boundaries: seq<nat>, values: seq<nat>, tangents: seq<nat>, gaps: seq<nat>)
  {
    && p.Valid() && Ascending(bs) && |bs| <= MAX_SEGMENTS + 1 && bs[|bs| - 1] <= MAX_ATOMS
    && |boundaries| == |values| == |tangents| == MAX_SEGMENTS + 1 && |gaps| == MAX_SEGMENTS
    && (forall i :: 0 <= i < |bs| ==> boundaries[i] == bs[i] && values[i] == CpFp(p, bs[i]))
    && (forall i :: 0 <= i < |bs| - 1 ==> tangents[i] == DerivativeUpper(p, bs[i]))
    && forall i :: 0 <= i < |bs| - 1 ==> gaps[i] == GapOf(p, bs[i], bs[i + 1])
  }

  /** Move a[lo..hi) one place to the right, from the right end. */
  method ShiftRight(a: array<nat>, lo: nat, hi: nat)
    requires lo <= hi < a.Length
    modifies a
    ensures a[..] == old(a[..lo]) + [old(a[lo])] + old(a[lo..hi]) + old(a[hi + 1..])
  {
    ghost var before := a[..];
    var j := hi;
    while j > lo
      invariant lo <= j <= hi
      invariant a[..j + 1] == before[..j + 1]
      invariant forall k :: j < k <= hi ==> a[k] == before[k - 1]
      invariant forall k :: hi < k < a.Length ==> a[k] == before[k]
    {
      a[j] := a[j - 1];
      j := j - 1;
    }
    var after := before[..lo] + [before[lo]] + before[lo..hi] + before[hi + 1..];
    forall k | 0 <= k < a.Length
      ensures a[k] == after[k]
    {
      if k <= lo {
        assert a[..lo + 1][k] == before[..lo + 1][k];
      }
    }
    assert a[..] == after;
  }

  lemma CachedParts(
    p: Pool, bs: seq<nat>, boundaries: seq<nat>, values: seq<nat>, tangents: seq<nat>, gaps: seq<nat>)
    requires Cached(p, bs, boundaries, values, tangents, gaps)
    ensures p.Valid() && Ascending(bs) && |bs| <= MAX_SEGMENTS + 1 && bs[|bs| - 1] <= MAX_ATOMS
    ensures |boundaries| == |values| == |tangents| == MAX_SEGMENTS + 1 && |gaps| == MAX_SEGMENTS
    ensures forall i :: 0 <= i < |bs| ==> boundaries[i] == bs[i]
    ensures forall i :: 0 <= i < |bs| ==> values[i] == CpFp(p, bs[i])
    ensures forall i :: 0 <= i < |bs| - 1 ==> tangents[i] == DerivativeUpper(p, bs[i])
    ensures forall i :: 0 <= i < |bs| - 1 ==> gaps[i] == GapOf(p, bs[i], bs[i + 1])
  {
  }

  lemma WorstNone(p: Pool, bs: seq<nat>)
    requires p.Valid() && Ascending(bs)
    ensures |bs| > 0 && Worst(p, bs, 0).None?
  {
  }

  lemma Rising(bs: seq<nat>, i: nat)
    requires Ascending(bs) && i + 1 < |bs|
    ensures bs[i] < bs[i + 1]
  {
  }

  /** Scan the cached gaps for the interval to split. */
  method ChooseWorst(
    p: Pool, ghost bs: seq<nat>, boundaries: array<nat>, ghost values: seq<nat>, ghost tangents: seq<nat>,
    gaps: array<nat>, n: nat, meter: WorkMeter)
    returns (ok: bool, best: Option<nat>)
    requires Cached(p, bs, boundaries[..], values, tangents, gaps[..]) && n == |bs| - 1
    modifies meter`used
    ensures old(meter.Within()) ==> meter.Within()
    ensures p.Valid() && Ascending(bs) && n < |bs|
    ensures ok ==> best == Worst(p, bs, n)
    ensures ok ==> if best.Some? then LargestGap(p, bs, best.value) else AllSingle(bs)
    ensures old(meter.used) <= meter.used <= old(meter.used) + n
    ensures !ok ==> old(meter.used) + n > meter.limit
  {
    hide Cached, GapOf, SlopeOf, CpFp, DerivativeUpper, Ascending;
    ghost var bounds, widths := boundaries[..], gaps[..];
    CachedParts(p, bs, bounds, values, tangents, widths);
    WorstNone(p, bs);
    best := None;
    var worst: nat := 0;
    for i := 0 to n
      invariant old(meter.Within()) ==> meter.Within()
      invariant best == Worst(p, bs, i)
      invariant best.Some? ==> worst == GapOf(p, bs[best.value], bs[best.value + 1])
      invariant meter.used == old(meter.used) + i
    {
      ok := meter.Charge(1);
      if !ok {
        return;
      }
      assert boundaries[..] == bounds && gaps[..] == widths;
      Rising(bs, i);
      assert boundaries[i] == bs[i] && boundaries[i + 1] == bs[i + 1] && gaps[i] == GapOf(p, bs[i], bs[i + 1]);
      if boundaries[i + 1] - boundaries[i] <= 1 {
        continue;
      }
      if best.None? || gaps[i] > worst {
        best := Some(i);
        worst := gaps[i];
      }
    }
    WorstIsLargest(p, bs);
    ok := true;
  }

  /** An array whose tail from i + 1 on moved one place to the right. */
  ghost predicate Shifted(before: seq<nat>, after: seq<nat>, i: nat, n: nat) {
    && i + 1 <= n && |before| == |after| && n < |before|
    && (forall k :: 0 <= k <= i ==> after[k] == before[k])
    && forall k :: i + 2 <= k <= n ==> after[k] == before[k - 1]
  }

  /** Make room after position i and put v there. */
  method InsertShifted(a: array<nat>, i: nat, n: nat, v: nat)
    requires i + 1 <= n < a.Length
    modifies a
    ensures Shifted(old(a[..]), a[..], i, n) && a[i + 1] == v
  {
    ghost var before := a[..];
    ShiftRight(a, i + 1, n);
    a[i + 1] := v;
  }

  lemma CutAt(bs: seq<nat>, i: nat)
    requires i + 1 < |bs| && bs[i] <= bs[i + 1]
    ensures var cut := SplitAt(bs, i);
            && (forall k :: 0 <= k <= i ==> cut[k] == bs[k])
            && cut[i + 1] == Middle(bs[i], bs[i + 1])
            && forall k :: i + 2 <= k <= |bs| ==> cut[k] == bs[k - 1]
  {
  }

  lemma BoundariesOfSplit(bs: seq<nat>, i: nat, before: seq<nat>, after: seq<nat>)
    requires i + 1 < |bs| && bs[i] <= bs[i + 1] && |bs| < |before|
    requires forall k :: 0 <= k < |bs| ==> before[k] == bs[k]
    requires Shifted(before, after, i, |bs|) && after[i + 1] == Middle(bs[i], bs[i + 1])
    ensures forall k :: 0 <= k <= |bs| ==> after[k] == SplitAt(bs, i)[k]
  {
    CutAt(bs, i);
  }

  lemma ValuesOfSplit(p: Pool, bs: seq<nat>, i: nat, before: seq<nat>, after: seq<nat>)
    requires p.Valid() && i + 1 < |bs| && bs[i] <= bs[i + 1] && |bs| < |before|
    requires forall k :: 0 <= k < |bs| ==> before[k] == CpFp(p, bs[k])
    requires Shifted(before, after, i, |bs|) && after[i + 1] == CpFp(p, Middle(bs[i], bs[i + 1]))
    ensures forall k :: 0 <= k <= |bs| ==> after[k] == CpFp(p, SplitAt(bs, i)[k])
  {
    hide CpFp;
    CutAt(bs, i);
  }

  lemma TangentsOfSplit(p: Pool, bs: seq<nat>, i: nat, before: seq<nat>, after: seq<nat>)
    requires p.Valid() && i + 1 < |bs| && bs[i] <= bs[i + 1] && |bs| < |before|
    requires forall k :: 0 <= k < |bs| - 1 ==> before[k] == DerivativeUpper(p, bs[k])
    requires Shifted(before, after, i, |bs|) && after[i + 1] == DerivativeUpper(p, Middle(bs[i], bs[i + 1]))
    ensures forall k :: 0 <= k < |bs| ==> after[k] == DerivativeUpper(p, SplitAt(bs, i)[k])
  {
    hide DerivativeUpper;
    CutAt(bs, i);
  }

  lemma GapsOfSplit(p: Pool, bs: seq<nat>, i: nat, before: seq<nat>, after: seq<nat>)
    requires p.Valid() && Ascending(bs) && i + 1 < |bs| && bs[i + 1] - bs[i] > 1 && |bs| - 1 < |before|
    requires forall k :: 0 <= k < |bs| - 1 ==> before[k] == GapOf(p, bs[k], bs[k + 1])
    requires |after| == |before|
    requires forall k :: 0 <= k < i ==> after[k] == before[k]
    requires forall k :: i + 2 <= k < |bs| ==> after[k] == before[k - 1]
    requires bs[i] < Middle(bs[i], bs[i + 1]) < bs[i + 1]
    requires after[i] == GapOf(p, bs[i], Middle(bs[i], bs[i + 1]))
    requires after[i + 1] == GapOf(p, Middle(bs[i], bs[i + 1]), bs[i + 1])
    ensures Ascending(SplitAt(bs, i))
    ensures forall k :: 0 <= k < |bs| ==> after[k] == GapOf(p, SplitAt(bs, i)[k], SplitAt(bs, i)[k + 1])
  {
    SplitAscends(bs, i);
    hide GapOf, Middle;
    CutAt(bs, i);
    forall k | 0 <= k < |bs|
      ensures after[k] == GapOf(p, SplitAt(bs, i)[k], SplitAt(bs, i)[k + 1])
    {
      if k >= i + 2 {
        assert after[k] == before[k - 1];
      }
    }
  }

  /** What splitting interval i reads from the cache. */
  lemma CachedAround(
    p: Pool, bs: seq<nat>, boundaries: seq<nat>, values: seq<nat>, tangents: seq<nat>, gaps: seq<nat>, i: nat)
    requires Cached(p, bs, boundaries, values, tangents, gaps)
    requires i < |bs| - 1 < MAX_SEGMENTS && bs[i + 1] - bs[i] > 1
    ensures p.Valid() && |bs| < |boundaries| == |values| == |tangents| && |bs| <= |gaps|
    ensures boundaries[i] == bs[i] && boundaries[i + 1] == bs[i + 1]
    ensures values[i] == CpFp(p, bs[i]) && values[i + 1] == CpFp(p, bs[i + 1])
    ensures tangents[i] == DerivativeUpper(p, bs[i])
    ensures bs[i] < Middle(bs[i], bs[i + 1]) < bs[i + 1]
  {
  }

  /** Shifted caches with the new middle are the caches of the split boundaries. */
  lemma CachedSplit(
    p: Pool, bs: seq<nat>, i: nat, b0: seq<nat>, v0: seq<nat>, t0: seq<nat>, g0: seq<nat>,
    b1: seq<nat>, v1: seq<nat>, t1: seq<nat>, g1: seq<nat>, g2: seq<nat>)
    requires Cached(p, bs, b0, v0, t0, g0) && i < |bs| - 1 < MAX_SEGMENTS && bs[i + 1] - bs[i] > 1
    requires Shifted(b0, b1, i, |bs|) && Shifted(v0, v1, i, |bs|) && Shifted(t0, t1, i, |bs|)
    requires |b1| == |b0| && |v1| == |v0| && |t1| == |t0| && |g1| == |g0|
    requires Shifted(g0, g1, i, |bs| - 1) && |g2| == |g1| && forall k :: 0 <= k < |g1| && k != i ==> g2[k] == g1[k]
    requires p.Valid()
    requires var m := Middle(bs[i], bs[i + 1]);
             && b1[i + 1] == m && v1[i + 1] == CpFp(p, m) && t1[i + 1] == DerivativeUpper(p, m)
             && bs[i] < m < bs[i + 1] && g2[i] == GapOf(p, bs[i], m) && g1[i + 1] == GapOf(p, m, bs[i + 1])
    ensures Cached(p, SplitAt(bs, i), b1, v1, t1, g2)
  {
    hide *;
    CachedParts(p, bs, b0, v0, t0, g0);
    SplitAscends(bs, i);
    GapsShifted(g0, g1, g2, i, |bs| - 1);
    BoundariesOfSplit(bs, i, b0, b1);
    ValuesOfSplit(p, bs, i, v0, v1);
    TangentsOfSplit(p, bs, i, t0, t1);
    GapsOfSplit(p, bs, i, g0, g2);
    CachedIntro(p, SplitAt(bs, i), b1, v1, t1, g2);
  }

  /** Split interval i in place: shift the tails, fill in the middle, and redo
      only the two gaps that changed. */
  method SplitInPlace(
    p: Pool, ghost bs: seq<nat>, boundaries: array<nat>, values: array<nat>, tangents: array<nat>, gaps: array<nat>,
    n: nat, i: nat)
    requires boundaries != values && boundaries != tangents && boundaries != gaps
    requires values != tangents && values != gaps && tangents != gaps
    requires Cached(p, bs, boundaries[..], values[..], tangents[..], gaps[..]) && n == |bs| - 1 < MAX_SEGMENTS
    requires i < n && bs[i + 1] - bs[i] > 1
    modifies boundaries, values, tangents, gaps
    ensures Cached(p, SplitAt(bs, i), boundaries[..], values[..], tangents[..], gaps[..])
  {
    hide *;
    ghost var b0, v0, t0, g0 := boundaries[..], values[..], tangents[..], gaps[..];
    CachedAround(p, bs, b0, v0, t0, g0, i);
    var a, b := boundaries[i], boundaries[i + 1];
    var va, vb, ta := values[i], values[i + 1], tangents[i];
    var m := Middle(a, b);
    var vm, tm := CpFp(p, m), DerivativeUpper(p, m);
    InsertShifted(boundaries, i, n + 1, m);
    InsertShifted(values, i, n + 1, vm);
    InsertShifted(tangents, i, n + 1, tm);
    InsertShifted(gaps, i, n, CachedGap(p, m, b, vm, vb, tm));
    ghost var g1 := gaps[..];
    gaps[i] := CachedGap(p, a, m, va, vm, ta);
    CachedSplit(p, bs, i, b0, v0, t0, g0, boundaries[..], values[..], tangents[..], g1, gaps[..]);
  }

  lemma GapsShifted(g0: seq<nat>, g1: seq<nat>, g2: seq<nat>, i: nat, n: nat)
    requires Shifted(g0, g1, i, n) && |g2| == |g1| && forall k :: 0 <= k < |g1| && k != i ==> g2[k] == g1[k]
    ensures forall k :: 0 <= k < i ==> g2[k] == g0[k]
    ensures forall k :: i + 2 <= k <= n ==> g2[k] == g0[k - 1]
  {
  }

  lemma CachedIntro(
    p: Pool, bs: seq<nat>, boundaries: seq<nat>, values: seq<nat>, tangents: seq<nat>, gaps: seq<nat>)
    requires p.Valid() && Ascending(bs) && |bs| <= MAX_SEGMENTS + 1 && bs[|bs| - 1] <= MAX_ATOMS
    requires |boundaries| == |values| == |tangents| == MAX_SEGMENTS + 1 && |gaps| == MAX_SEGMENTS
    requires forall i :: 0 <= i < |bs| ==> boundaries[i] == bs[i]
    requires forall i :: 0 <= i < |bs| ==> values[i] == CpFp(p, bs[i])
    requires forall i :: 0 <= i < |bs| - 1 ==> tangents[i] == DerivativeUpper(p, bs[i])
    requires forall i :: 0 <= i < |bs| - 1 ==> gaps[i] == GapOf(p, bs[i], bs[i + 1])
    ensures Cached(p, bs, boundaries, values, tangents, gaps)
  {
  }

  /** The cached form of a gap: the endpoint values are looked up. */
  function CachedGap(p: Pool, a: nat, b: nat, va: nat, vb: nat, tangent: nat): (g: nat)
    requires p.Valid() && a < b && va == CpFp(p, a) && vb == CpFp(p, b) && tangent == DerivativeUpper(p, a)
    ensures g == GapOf(p, a, b)
  {
    CpFpMonotone(p, a, b - a);
    Yield(b - a, SaturatingSub(tangent, (vb - va) / (b - a)))
  }

  // ---------------------------------------------------------------- choosing the chords

  /** One interval spanning the whole capacity. */
  method StartWhole(
    p: Pool, capacity: nat, boundaries: array<nat>, values: array<nat>, tangents: array<nat>, gaps: array<nat>)
    requires p.Valid() && 0 < capacity <= MAX_ATOMS
    requires boundaries.Length == values.Length == tangents.Length == MAX_SEGMENTS + 1 && gaps.Length == MAX_SEGMENTS
    requires boundaries != values && boundaries != tangents && boundaries != gaps
    requires values != tangents && values != gaps && tangents != gaps
    requires boundaries[0] == 0 && values[0] == 0
    modifies boundaries, values, tangents, gaps
    ensures Cached(p, [0, capacity], boundaries[..], values[..], tangents[..], gaps[..])
  {
    CpFpZero(p);
    CpFpMonotone(p, 0, capacity);
    hide CpFp, DerivativeUpper;
    boundaries[1] := capacity;
    values[1] := CpFp(p, capacity);
    tangents[0] := DerivativeUpper(p, 0);
    gaps[0] := CachedGap(p, 0, capacity, values[0], values[1], tangents[0]);
    CachedIntro(p, [0, capacity], boundaries[..], values[..], tangents[..], gaps[..]);
  }

  lemma RefineStep(p: Pool, bs: seq<nat>)
    requires p.Valid() && Ascending(bs) && |bs| <= MAX_SEGMENTS
    ensures var w := Worst(p, bs, |bs| - 1);
            if w.None? then Refine(p, bs) == bs
            else && Ascending(SplitAt(bs, w.value))
                 && Refine(p, SplitAt(bs, w.value)) == Refine(p, bs)
  {
    var w := Worst(p, bs, |bs| - 1);
    if w.Some? {
      SplitAscends(bs, w.value);
    }
    hide Worst, SplitAt, Ascending;
  }

  /** The work of n rounds of refinement. */
  ghost function Rounds(n: nat): nat {
    n * MAX_SEGMENTS
  }

  lemma RoundsLeft(n: nat)
    requires 1 <= n < MAX_SEGMENTS
    ensures Rounds(n) == Rounds(n - 1) + MAX_SEGMENTS <= MAX_SEGMENTS * MAX_SEGMENTS
  {
  }

  lemma NoRounds()
    ensures 1 < MAX_SEGMENTS && Rounds(0) == 0
  {
  }

  lemma StartAscends(p: Pool, capacity: nat)
    requires 0 < capacity
    ensures Ascending([0, capacity])
  {
  }

  /** The refinement loop over the cached arrays reaches exactly the boundaries of
      the recomputing definition. */
  method ChooseBoundaries(
    p: Pool, capacity: nat, boundaries: array<nat>, values: array<nat>, tangents: array<nat>, gaps: array<nat>,
    meter: WorkMeter)
    returns (ok: bool, n: nat, ghost bs: seq<nat>)
    requires p.Valid() && 0 < capacity <= MAX_ATOMS
    requires boundaries.Length == values.Length == tangents.Length == MAX_SEGMENTS + 1 && gaps.Length == MAX_SEGMENTS
    requires boundaries != values && boundaries != tangents && boundaries != gaps
    requires values != tangents && values != gaps && tangents != gaps
    requires boundaries[0] == 0 && values[0] == 0
    modifies boundaries, values, tangents, gaps, meter`used
    ensures old(meter.Within()) ==> meter.Within()
    ensures ok ==> bs == Refine(p, [0, capacity]) && n == |bs| - 1
    ensures ok ==> Cached(p, bs, boundaries[..], values[..], tangents[..], gaps[..])
    ensures old(meter.used) <= meter.used <= old(meter.used) + MAX_SEGMENTS * MAX_SEGMENTS
    ensures !ok ==> old(meter.used) + MAX_SEGMENTS * MAX_SEGMENTS > meter.limit
  {
    hide *;
    bs := [0, capacity];
    n := 1;
    StartWhole(p, capacity, boundaries, values, tangents, gaps);
    StartAscends(p, capacity);
    NoRounds();
    ghost var goal := Refine(p, bs);
    while n < MAX_SEGMENTS
      invariant old(meter.Within()) ==> meter.Within()
      invariant 1 <= n <= MAX_SEGMENTS && n == |bs| - 1
      invariant Cached(p, bs, boundaries[..], values[..], tangents[..], gaps[..])
      invariant p.Valid() && Ascending(bs) && |bs| <= MAX_SEGMENTS + 1 && Refine(p, bs) == goal
      invariant old(meter.used) <= meter.used <= old(meter.used) + Rounds(n - 1)
      invariant Rounds(n - 1) <= MAX_SEGMENTS * MAX_SEGMENTS
      decreases MAX_SEGMENTS - n
    {
      RoundsLeft(n);
      ghost var b0, v0, t0, g0 := boundaries[..], values[..], tangents[..], gaps[..];
      RefineStep(p, bs);
      var best;
      ok, best := ChooseWorst(p, bs, boundaries, values[..], tangents[..], gaps, n, meter);
      if !ok {
        return;
      }
      assert boundaries[..] == b0 && values[..] == v0 && tangents[..] == t0 && gaps[..] == g0;
      if best.None? {
        return;
      }
      SplitInPlace(p, bs, boundaries, values, tangents, gaps, n, best.value);
      bs := SplitAt(bs, best.value);
      n := n + 1;
    }
    RefineFull(p, bs);
    ok := true;
  }

  lemma RefineFull(p: Pool, bs: seq<nat>)
    requires p.Valid() && Ascending(bs) && |bs| == MAX_SEGMENTS + 1
    ensures Refine(p, bs) == bs
  {
  }

  // ---------------------------------------------------------------- building the curve

  lemma SlopeAtMostRate(p: Pool, a: nat, b: nat)
    requires p.Valid() && a < b && DerivativeUpper(p, 0) <= MAX_RATE
    ensures SlopeOf(p, a, b) <= MAX_RATE
  {
    ChordBelowTangent(p, a, b - a);
    CpFpMonotone(p, a, b - a);
    DerivativeFalls(p, a);
    hide DerivativeUpper, CpFp;
    var w := b - a;
    Mono(DerivativeUpper(p, a), MAX_RATE, w);
    QuotientAtMost(CpFp(p, b) - CpFp(p, a), w, MAX_RATE);
  }

  lemma {:induction false} IntPrefixOfPrefix(bands: seq<Segment>, m: nat, i: nat)
    requires i <= m <= |bands|
    ensures IntPrefix(bands[..m], i) == IntPrefix(bands, i)
  {
    hide Yield;
    if i > 0 {
      IntPrefixOfPrefix(bands, m, i - 1);
    }
  }

  /** The state of the curve-building loop after i intervals. */
  ghost predicate Built(p: Pool, bs: seq<nat>, n: nat, i: nat, bands: seq<Segment>, integral: nat, error: nat, previous: nat)
    requires p.Valid() && Ascending(bs) && i <= n < |bs| && bs[|bs| - 1] <= MAX_ATOMS
  {
    && bands == Bands(p, bs, i)
    && integral == IntPrefix(bands, i) && integral <= CpFp(p, bs[i])
    && error == ErrorFp(p, bs, n, i)
    && previous == if i == 0 then MAX_RATE else bands[i - 1].marginal
  }

  lemma BandNext(p: Pool, bs: seq<nat>, i: nat)
    requires p.Valid() && Ascending(bs) && i + 1 < |bs| && bs[|bs| - 1] <= MAX_ATOMS
    ensures bs[i] < bs[i + 1] <= MAX_ATOMS
    ensures var before := Bands(p, bs, i);
            var previous := if i == 0 then MAX_RATE else before[i - 1].marginal;
            && bs[i + 1] - bs[i] <= U64_MAX
            && Bands(p, bs, i + 1) == before + [Segment(bs[i + 1] - bs[i], Min(SlopeOf(p, bs[i], bs[i + 1]), previous))]
  {
    assert i + 1 < |bs| - 1 ==> bs[i + 1] < bs[|bs| - 1];
    hide SlopeOf;
  }

  lemma IntPrefixSnoc(bands: seq<Segment>, s: Segment)
    ensures IntPrefix(bands + [s], |bands| + 1) == IntPrefix(bands, |bands|) + Yield(s.inputCapacity, s.marginal)
  {
    hide Yield;
    IntPrefixOfPrefix(bands + [s], |bands|, |bands|);
    assert (bands + [s])[..|bands|] == bands;
  }

  /** A tangent gap needs only the bands up to its own interval. */
  lemma GapNext(p: Pool, bs: seq<nat>, n: nat, i: nat)
    requires p.Valid() && Ascending(bs) && i < n < |bs| && bs[|bs| - 1] <= MAX_ATOMS
    ensures IntPrefix(Bands(p, bs, i), i) <= CpFp(p, bs[i])
    ensures var band := Bands(p, bs, i + 1)[i];
            TangentGap(p, bs, n, i) == CpFp(p, bs[i]) + 1 - IntPrefix(Bands(p, bs, i), i)
              + Yield(band.inputCapacity, SaturatingSub(DerivativeUpper(p, bs[i]), band.marginal))
  {
    hide Bands, CpFp, DerivativeUpper, Yield, SaturatingSub, IntPrefix, ErrorFp;
    BandsPrefix(p, bs, i, n);
    BandsPrefix(p, bs, i + 1, n);
    var all := Bands(p, bs, n);
    IntPrefixOfPrefix(all, i, i);
    IntegralBelowValue(p, bs, n, i);
    assert Bands(p, bs, i + 1)[i] == all[i];
  }

  lemma BuiltNext(
    p: Pool, bs: seq<nat>, n: nat, i: nat, bands: seq<Segment>, integral: nat, error: nat, previous: nat)
    requires p.Valid() && Ascending(bs) && i < n < |bs| && bs[|bs| - 1] <= MAX_ATOMS
    requires Built(p, bs, n, i, bands, integral, error, previous)
    requires previous <= MAX_RATE
    ensures bs[i] < bs[i + 1] <= MAX_ATOMS
    ensures var width, slope := bs[i + 1] - bs[i], Min(SlopeOf(p, bs[i], bs[i + 1]), previous);
            var gap := CpFp(p, bs[i]) + 1 - integral + Yield(width, SaturatingSub(DerivativeUpper(p, bs[i]), slope));
            && width <= U64_MAX
            && Built(p, bs, n, i + 1, bands + [Segment(width, slope)], integral + Yield(width, slope), Max(error, gap), slope)
  {
    hide Bands, SlopeOf, CpFp, DerivativeUpper, Yield, SaturatingSub, IntPrefix, TangentGap, Min, Ascending;
    BandNext(p, bs, i);
    GapNext(p, bs, n, i);
    IntegralBelowValue(p, bs, i + 1, i + 1);
    IntPrefixSnoc(bands, Bands(p, bs, i + 1)[i]);
  }

  lemma BuiltParts(p: Pool, bs: seq<nat>, n: nat, i: nat, bands: seq<Segment>, integral: nat, error: nat, previous: nat)
    requires p.Valid() && Ascending(bs) && i <= n < |bs| && bs[|bs| - 1] <= MAX_ATOMS
    requires Built(p, bs, n, i, bands, integral, error, previous)
    ensures integral <= CpFp(p, bs[i]) && previous <= MAX_RATE && |bands| == i
  {
  }

  /** The final loop: clamped slopes, running integral and the worst tangent gap. */
  method BuildCurve(
    p: Pool, ghost bs: seq<nat>, boundaries: array<nat>, values: array<nat>, tangents: array<nat>,
    ghost gaps: seq<nat>, n: nat, meter: WorkMeter)
    returns (r: Result<(seq<Segment>, nat)>)
    requires Cached(p, bs, boundaries[..], values[..], tangents[..], gaps) && n == |bs| - 1
    requires p.Valid() && DerivativeUpper(p, 0) <= MAX_RATE
    modifies meter`used
    ensures old(meter.Within()) ==> meter.Within()
    ensures Ascending(bs) && bs[|bs| - 1] <= MAX_ATOMS
    ensures r.Ok? ==> r.value.0 == Bands(p, bs, n) && r.value.1 == ErrorFp(p, bs, n, n)
    ensures r.Err? ==> r.error.WorkLimit? && old(meter.used) + n > meter.limit
    ensures old(meter.used) <= meter.used <= old(meter.used) + n
  {
    hide Cached, Built, SlopeOf, CpFp, DerivativeUpper, Yield, Bands, ErrorFp, Ascending;
    ghost var b0, v0, t0 := boundaries[..], values[..], tangents[..];
    CachedParts(p, bs, b0, v0, t0, gaps);
    var bands: seq<Segment>, integral: nat, error: nat, previous: nat := [], 0, 0, MAX_RATE;
    BuiltNone(p, bs, n);
    for i := 0 to n
      invariant old(meter.Within()) ==> meter.Within()
      invariant Built(p, bs, n, i, bands, integral, error, previous)
      invariant meter.used == old(meter.used) + i
    {
      var ok := meter.Charge(1);
      if !ok {
        return Err(WorkLimit);
      }
      assert boundaries[..] == b0 && values[..] == v0 && tangents[..] == t0;
      BuiltParts(p, bs, n, i, bands, integral, error, previous);
      BuiltNext(p, bs, n, i, bands, integral, error, previous);
      SlopeAtMostRate(p, bs[i], bs[i + 1]);
      assert boundaries[i] == bs[i] && boundaries[i + 1] == bs[i + 1];
      assert values[i] == CpFp(p, bs[i]) && values[i + 1] == CpFp(p, bs[i + 1]) && tangents[i] == DerivativeUpper(p, bs[i]);
      var width := boundaries[i + 1] - boundaries[i];
      var chord := ChordSlope(p, boundaries[i], boundaries[i + 1], values[i], values[i + 1]);
      if chord > U64_MAX {
        return Err(Arithmetic);
      }
      var slope := Min(chord, previous);
      var gap := values[i] + 1 - integral + Yield(width, SaturatingSub(tangents[i], slope));
      bands := bands + [Segment(width, slope)];
      error := Max(error, gap);
      integral := integral + Yield(width, slope);
      previous := slope;
    }
    BuiltDone(p, bs, n, bands, integral, error, previous);
    return Ok((bands, error));
  }

  function ChordSlope(p: Pool, a: nat, b: nat, va: nat, vb: nat): (slope: nat)
    requires p.Valid() && a < b && va == CpFp(p, a) && vb == CpFp(p, b)
    ensures slope == SlopeOf(p, a, b)
  {
    CpFpMonotone(p, a, b - a);
    (vb - va) / (b - a)
  }

  lemma BuiltNone(p: Pool, bs: seq<nat>, n: nat)
    requires p.Valid() && Ascending(bs) && n < |bs| && bs[|bs| - 1] <= MAX_ATOMS
    ensures Built(p, bs, n, 0, [], 0, 0, MAX_RATE)
  {
  }

  lemma BuiltDone(p: Pool, bs: seq<nat>, n: nat, bands: seq<Segment>, integral: nat, error: nat, previous: nat)
    requires p.Valid() && Ascending(bs) && n < |bs| && bs[|bs| - 1] <= MAX_ATOMS
    requires Built(p, bs, n, n, bands, integral, error, previous)
    ensures bands == Bands(p, bs, n) && error == ErrorFp(p, bs, n, n)
  {
  }
}
