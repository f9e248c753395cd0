/** Interval consensus under a fault budget: the band is the region of prices that
    enough independent sources support, or nothing. */
module Fair {
  import opened Base
  import opened Products

  const MAX_GROUPS: nat := 16

  datatype Interval = Interval(group: nat, low: u64, high: u64)

  datatype Band = Band(low: u64, high: u64, groups: nat, quorum: nat)

  // ---------------------------------------------------------------- support

  predicate Spans(x: Interval, from: nat, to: nat) {
    x.low <= from && x.high >= to
  }

  /** How many of the first n intervals span from .. to. */
  function Support(xs: seq<Interval>, from: nat, to: nat, n: nat): (c: nat)
    requires n <= |xs|
    ensures c <= n
  {
    if n == 0 then 0 else Support(xs, from, to, n - 1) + if Spans(xs[n - 1], from, to) then 1 else 0
  }

  /** A price is supported when at least quorum intervals contain it. */
  predicate Supported(xs: seq<Interval>, quorum: nat, p: nat) {
    Support(xs, p, p, |xs|) >= quorum
  }

  /** Neighbouring prices are joined when at least quorum intervals contain both. */
  predicate Joined(xs: seq<Interval>, quorum: nat, p: nat) {
    Support(xs, p, p + 1, |xs|) >= quorum
  }

  lemma {:induction false} WiderSupportsLess(xs: seq<Interval>, a: nat, b: nat, c: nat, d: nat, n: nat)
    requires n <= |xs| && a <= c && d <= b
    ensures Support(xs, a, b, n) <= Support(xs, c, d, n)
  {
    if n > 0 {
      WiderSupportsLess(xs, a, b, c, d, n - 1);
    }
  }

  lemma JoinedIsSupported(xs: seq<Interval>, quorum: nat, p: nat)
    requires Joined(xs, quorum, p)
    ensures Supported(xs, quorum, p) && Supported(xs, quorum, p + 1)
  {
    WiderSupportsLess(xs, p, p + 1, p, p, |xs|);
    WiderSupportsLess(xs, p, p + 1, p + 1, p + 1, |xs|);
  }

  /** The intervals, among the first n, that contain the whole stretch. */
  ghost function Containing(xs: seq<Interval>, from: nat, to: nat, n: nat): set<nat>
    requires n <= |xs|
  {
    set i | 0 <= i < n && xs[i].low <= from && to <= xs[i].high
  }

  lemma ContainingNext(xs: seq<Interval>, from: nat, to: nat, n: nat)
    requires n < |xs|
    ensures n !in Containing(xs, from, to, n)
    ensures Containing(xs, from, to, n + 1) == Containing(xs, from, to, n) + if Spans(xs[n], from, to) then {n} else {}
  {
  }

  /** Support is how many intervals contain the stretch. */
  lemma {:induction false} SupportCounts(xs: seq<Interval>, from: nat, to: nat, n: nat)
    requires n <= |xs|
    ensures Support(xs, from, to, n) == |Containing(xs, from, to, n)|
  {
    hide Containing, Spans;
    if n > 0 {
      ContainingNext(xs, from, to, n - 1);
      SupportCounts(xs, from, to, n - 1);
    } else {
      NoneContain(xs, from, to);
    }
  }

  lemma NoneContain(xs: seq<Interval>, from: nat, to: nat)
    ensures Containing(xs, from, to, 0) == {}
  {
  }

  /** No interval begins or ends strictly between p and right. */
  ghost predicate Gap(xs: seq<Interval>, p: nat, right: nat) {
    forall i :: 0 <= i < |xs| ==> (xs[i].low <= p || xs[i].low >= right) && (xs[i].high <= p || xs[i].high >= right)
  }

  /** Across a gap nothing changes: the intervals through it support and join all of it. */
  lemma {:induction false} GapIsUniform(xs: seq<Interval>, p: nat, right: nat, a: nat, b: nat, n: nat)
    requires Gap(xs, p, right) && n <= |xs| && p <= a <= b <= right && p < b && a < right
    ensures Support(xs, a, b, n) == Support(xs, p, right, n)
  {
    if n > 0 {
      GapIsUniform(xs, p, right, a, b, n - 1);
    }
  }

  // ---------------------------------------------------------------- the answer

  /** [low, high] is exactly the supported region, and it hangs together. */
  ghost predicate IsRegion(xs: seq<Interval>, quorum: nat, low: nat, high: nat) {
    && low <= high
    && (forall p: nat :: Supported(xs, quorum, p) <==> low <= p <= high)
    && forall p: nat :: low <= p < high ==> Joined(xs, quorum, p)
  }

  ghost predicate NothingSupported(xs: seq<Interval>, quorum: nat) {
    forall p: nat :: !Supported(xs, quorum, p)
  }

  lemma RegionUnique(xs: seq<Interval>, quorum: nat, low: nat, high: nat, low': nat, high': nat)
    requires IsRegion(xs, quorum, low, high) && IsRegion(xs, quorum, low', high')
    ensures low == low' && high == high'
  {
    assert Supported(xs, quorum, low) && Supported(xs, quorum, high);
    assert Supported(xs, quorum, low') && Supported(xs, quorum, high');
  }

  ghost predicate WellPosed(xs: seq<Interval>, faults: nat, maxWidthBps: nat) {
    && 3 <= |xs| <= MAX_GROUPS && 0 < faults && |xs| > 2 * faults && 0 < maxWidthBps <= 2000
  }

  ghost predicate Sources(xs: seq<Interval>) {
    && (forall i :: 0 <= i < |xs| ==> 0 < xs[i].low <= xs[i].high)
    && forall i, j :: 0 <= i < j < |xs| ==> xs[i].group != xs[j].group
  }

  predicate Narrow(low: nat, high: nat, maxWidthBps: nat) {
    low <= high && (high - low) * 10_000 <= low * maxWidthBps
  }

  /** A band is narrow when its upper end exceeds its lower end by no more than the
      permitted fraction of the latter. */
  lemma NarrowMeans(low: nat, high: nat, maxWidthBps: nat)
    ensures Narrow(low, high, maxWidthBps) <==> low <= high && high * 10_000 <= low * (10_000 + maxWidthBps)
  {
    Distribute(10_000, maxWidthBps, low);
  }

  // ---------------------------------------------------------------- the endpoints

  ghost predicate Ordered(ps: seq<nat>) {
    forall i, j :: 0 <= i < j < |ps| ==> ps[i] <= ps[j]
  }

  lemma InsertOrdered(ps: seq<nat>, p: nat, k: nat)
    requires Ordered(ps) && k <= |ps| && (k > 0 ==> ps[k - 1] <= p) && (k < |ps| ==> ps[k] > p)
    ensures Ordered(ps[..k] + [p] + ps[k..])
  {
    var r := ps[..k] + [p] + ps[k..];
    forall i, j | 0 <= i < j < |r|
      ensures r[i] <= r[j]
    {
      assert r[i] == if i < k then ps[i] else if i == k then p else ps[i - 1];
      assert r[j] == if j < k then ps[j] else if j == k then p else ps[j - 1];
    }
  }

  lemma InsertedPoints(ps: seq<nat>, p: nat, k: nat)
    requires k <= |ps|
    ensures multiset(ps[..k] + [p] + ps[k..]) == multiset(ps) + multiset{p}
  {
    assert ps == ps[..k] + ps[k..];
  }

  method SortPoints(points: seq<nat>) returns (ps: seq<nat>)
    ensures Ordered(ps) && multiset(ps) == multiset(points)
    ensures |ps| == |points| && forall x :: x in ps <==> x in points
  {
    ps := [];
    for i := 0 to |points|
      invariant Ordered(ps) && |ps| == i && multiset(ps) == multiset(points[..i])
    {
      var p := points[i];
      var k := i;
      while k > 0 && ps[k - 1] > p
        invariant k <= i && (k < i ==> ps[k] > p)
      {
        k := k - 1;
      }
      assert points[..i + 1] == points[..i] + [p];
      InsertOrdered(ps, p, k);
      InsertedPoints(ps, p, k);
      ps := ps[..k] + [p] + ps[k..];
    }
    assert points[..|points|] == points;
    assert forall x :: x in ps <==> x in multiset(ps);
  }

  /** The sorted endpoints of all intervals. */
  ghost predicate Endpoints(xs: seq<Interval>, ps: seq<nat>) {
    && Ordered(ps) && |ps| == 2 * |xs|
    && (forall i :: 0 <= i < |xs| ==> xs[i].low in ps && xs[i].high in ps)
  }

  lemma BetweenPoints(xs: seq<Interval>, ps: seq<nat>, i: nat)
    requires Endpoints(xs, ps) && i + 1 < |ps|
    ensures Gap(xs, ps[i], ps[i + 1])
  {
    forall k | 0 <= k < |xs|
      ensures xs[k].low <= ps[i] || xs[k].low >= ps[i + 1]
      ensures xs[k].high <= ps[i] || xs[k].high >= ps[i + 1]
    {
      var a :| 0 <= a < |ps| && ps[a] == xs[k].low;
      var b :| 0 <= b < |ps| && ps[b] == xs[k].high;
    }
  }

  lemma {:induction false} NoSupportOutside(xs: seq<Interval>, p: nat, n: nat)
    requires n <= |xs| && forall i :: 0 <= i < |xs| ==> xs[i].low > p || xs[i].high < p
    ensures Support(xs, p, p, n) == 0
  {
    if n > 0 {
      NoSupportOutside(xs, p, n - 1);
    }
  }

  /** Below the first and above the last endpoint nothing is supported. */
  lemma OutsidePoints(xs: seq<Interval>, ps: seq<nat>, quorum: nat, p: nat)
    requires Endpoints(xs, ps) && |ps| > 0 && quorum > 0 && (p < ps[0] || p > ps[|ps| - 1])
    ensures !Supported(xs, quorum, p)
  {
    forall i | 0 <= i < |xs|
      ensures xs[i].low > p || xs[i].high < p
    {
      var a :| 0 <= a < |ps| && ps[a] == xs[i].low;
      var b :| 0 <= b < |ps| && ps[b] == xs[i].high;
    }
    NoSupportOutside(xs, p, |xs|);
  }

  // ---------------------------------------------------------------- the scan

  /** The scan has decided every price below `bound`. */
  datatype ScanState = ScanState(low: Option<nat>, high: nat, ended: bool)

  ghost predicate Scanned(xs: seq<Interval>, quorum: nat, s: ScanState, bound: nat) {
    if s.low.None? then !s.ended && forall p: nat :: p < bound ==> !Supported(xs, quorum, p)
    else
      var low := s.low.value;
      && low <= s.high && low < bound && s.high < bound
      && (forall p: nat :: p < low ==> !Supported(xs, quorum, p))
      && (forall p: nat :: low <= p <= s.high ==> Supported(xs, quorum, p))
      && (forall p: nat :: low <= p < s.high ==> Joined(xs, quorum, p))
      && (if s.ended then
            && (forall p: nat :: s.high < p < bound ==> !Supported(xs, quorum, p))
            && exists w: nat :: low <= w < bound && !Joined(xs, quorum, w)
          else
            forall p: nat :: low <= p < bound ==> Supported(xs, quorum, p) && Joined(xs, quorum, p))
  }

  /** What an endpoint does to the scan, ... */
  function PointStep(s: ScanState, supported: bool, p: nat): ScanState {
    if supported then ScanState(Some(if s.low.Some? then s.low.value else p), p, s.ended)
    else if s.low.Some? then ScanState(s.low, s.high, true)
    else s
  }

  /** ... and what the gap behind it does. */
  function LinkStep(s: ScanState, through: bool): ScanState {
    if s.low.Some? && !through then s.(ended := true) else s
  }

  /** All of a gap is like its first neighbours. */
  ghost predicate Uniform(xs: seq<Interval>, quorum: nat, p: nat, right: nat, through: bool) {
    && (forall q: nat :: p <= q < right ==> Joined(xs, quorum, q) == through)
    && (forall q: nat :: p < q < right ==> Supported(xs, quorum, q) == through)
    && (through ==> Supported(xs, quorum, p))
  }

  lemma GapUniform(xs: seq<Interval>, quorum: nat, p: nat, right: nat)
    requires p < right && Gap(xs, p, right)
    ensures Uniform(xs, quorum, p, right, Support(xs, p, right, |xs|) >= quorum)
  {
    forall q: nat | p <= q < right
      ensures Joined(xs, quorum, q) == (Support(xs, p, right, |xs|) >= quorum)
      ensures q > p ==> Supported(xs, quorum, q) == (Support(xs, p, right, |xs|) >= quorum)
    {
      GapIsUniform(xs, p, right, q, q + 1, |xs|);
      if q > p {
        GapIsUniform(xs, p, right, q, q, |xs|);
      }
    }
    WiderSupportsLess(xs, p, right, p, p, |xs|);
  }

  lemma StepSupported(xs: seq<Interval>, quorum: nat, s: ScanState, p: nat, right: nat, through: bool)
    requires Scanned(xs, quorum, s, p) && p < right && Uniform(xs, quorum, p, right, through)
    requires Supported(xs, quorum, p) && !s.ended
    ensures Scanned(xs, quorum, LinkStep(PointStep(s, true, p), through), right)
  {
    hide Supported, Joined;
    assert !through ==> !Joined(xs, quorum, p);
  }

  lemma StepUnsupported(xs: seq<Interval>, quorum: nat, s: ScanState, p: nat, right: nat, through: bool)
    requires Scanned(xs, quorum, s, p) && p < right && Uniform(xs, quorum, p, right, through)
    requires !Supported(xs, quorum, p)
    ensures Scanned(xs, quorum, LinkStep(PointStep(s, false, p), through), right)
  {
    if p > 0 && Joined(xs, quorum, p - 1) {
      JoinedIsSupported(xs, quorum, p - 1);
    }
    hide Supported, Joined;
  }

  /** The first endpoint of a gap decides the whole gap. */
  lemma ScanStep(xs: seq<Interval>, quorum: nat, s: ScanState, p: nat, right: nat)
    requires Scanned(xs, quorum, s, p) && p < right && Gap(xs, p, right)
    requires Supported(xs, quorum, p) ==> !s.ended
    ensures Scanned(xs, quorum,
                    LinkStep(PointStep(s, Supported(xs, quorum, p), p), Support(xs, p, right, |xs|) >= quorum), right)
  {
    hide *;
    var through := Support(xs, p, right, |xs|) >= quorum;
    GapUniform(xs, quorum, p, right);
    if Supported(xs, quorum, p) {
      StepSupported(xs, quorum, s, p, right, through);
    } else {
      StepUnsupported(xs, quorum, s, p, right, through);
    }
  }

  // ---------------------------------------------------------------- consensus

  method CountSpanning(xs: seq<Interval>, from: nat, to: nat) returns (c: nat)
    ensures c == Support(xs, from, to, |xs|)
  {
    c := 0;
    for i := 0 to |xs|
      invariant c == Support(xs, from, to, i)
    {
      if Spans(xs[i], from, to) {
        c := c + 1;
      }
    }
  }

  /** After the last endpoint the scan knows the region, or that there is none. */
  ghost predicate Final(xs: seq<Interval>, quorum: nat, s: ScanState) {
    if s.low.None? then NothingSupported(xs, quorum)
    else IsRegion(xs, quorum, s.low.value, s.high)
  }

  lemma ScanEnds(xs: seq<Interval>, quorum: nat, ps: seq<nat>, s: ScanState)
    requires Endpoints(xs, ps) && |ps| > 0 && quorum > 0
    requires Scanned(xs, quorum, s, ps[|ps| - 1])
    requires Supported(xs, quorum, ps[|ps| - 1]) ==> !s.ended
    ensures Final(xs, quorum, PointStep(s, Supported(xs, quorum, ps[|ps| - 1]), ps[|ps| - 1]))
  {
    var p := ps[|ps| - 1];
    forall q: nat | q > p
      ensures !Supported(xs, quorum, q)
    {
      OutsidePoints(xs, ps, quorum, q);
    }
    if p > 0 && Joined(xs, quorum, p - 1) {
      JoinedIsSupported(xs, quorum, p - 1);
    }
    hide Supported, Joined, Endpoints;
  }

  /** A supported price after the region ended: the region is split. */
  lemma SplitRegion(xs: seq<Interval>, quorum: nat, s: ScanState, p: nat)
    requires Scanned(xs, quorum, s, p) && s.ended && Supported(xs, quorum, p)
    ensures forall low: nat, high: nat :: !IsRegion(xs, quorum, low, high)
  {
    hide Supported, Joined;
    var first := s.low.value;
    assert Supported(xs, quorum, first);
    var w: nat :| first <= w < p && !Joined(xs, quorum, w);
    forall low: nat, high: nat
      ensures !IsRegion(xs, quorum, low, high)
    {
    }
  }

  lemma SupportedIs(xs: seq<Interval>, quorum: nat, p: nat)
    ensures Supported(xs, quorum, p) <==> Support(xs, p, p, |xs|) >= quorum
  {
  }

  lemma PointsAscend(xs: seq<Interval>, ps: seq<nat>, i: nat)
    requires Endpoints(xs, ps) && i + 1 < |ps|
    ensures ps[i] <= ps[i + 1]
  {
  }

  /** Between equal endpoints the scan has applied the endpoint already. */
  ghost predicate AtPoint(xs: seq<Interval>, quorum: nat, s0: ScanState, s: ScanState, p: nat) {
    && Scanned(xs, quorum, s0, p)
    && (s == s0 || (s == PointStep(s0, Supported(xs, quorum, p), p) && (Supported(xs, quorum, p) ==> !s0.ended)))
  }

  /** The scan over the sorted endpoints. */
  method Scan(xs: seq<Interval>, ps: seq<nat>, quorum: nat) returns (ok: bool, s: ScanState)
    requires Endpoints(xs, ps) && |ps| > 0 && quorum > 0
    ensures ok ==> Final(xs, quorum, s)
    ensures !ok ==> !NothingSupported(xs, quorum) && forall low: nat, high: nat :: !IsRegion(xs, quorum, low, high)
  {
    s := ScanState(None, 0, false);
    forall q: nat | q < ps[0]
      ensures !Supported(xs, quorum, q)
    {
      OutsidePoints(xs, ps, quorum, q);
    }
    ghost var s0 := s;
    hide Supported, Joined, Endpoints, Final;
    var n := |ps|;
    for i := 0 to n
      invariant i < n ==> AtPoint(xs, quorum, s0, s, ps[i])
      invariant i == n ==> Final(xs, quorum, s)
    {
      hide Scanned;
      var p := ps[i];
      var covered := CountSpanning(xs, p, p);
      SupportedIs(xs, quorum, p);
      if covered >= quorum && s.ended {
        SplitRegion(xs, quorum, s0, p);
        return false, s;
      }
      s := PointStep(s, covered >= quorum, p);
      if i + 1 == n {
        ScanEnds(xs, quorum, ps, s0);
      } else {
        BetweenPoints(xs, ps, i);
        PointsAscend(xs, ps, i);
        if ps[i + 1] > p {
          if s.low.Some? {
            var through := CountSpanning(xs, p, ps[i + 1]);
            s := LinkStep(s, through >= quorum);
          }
          ScanStep(xs, quorum, s0, p, ps[i + 1]);
          s0 := s;
        }
      }
    }
    return true, s;
  }

  /** `consensus`: well-posed sources have a band exactly when their supported prices
      form one region that is narrow enough, and the band is that region. */
  method Consensus(xs: seq<Interval>, faults: nat, maxWidthBps: nat) returns (r: Result<Band>)
    ensures !WellPosed(xs, faults, maxWidthBps) ==> r == Err(Error.Bounds)
    ensures WellPosed(xs, faults, maxWidthBps) && !Sources(xs) ==> r == Err(InvalidCurve)
    ensures WellPosed(xs, faults, maxWidthBps) && Sources(xs) ==>
              (r.Ok? <==> exists low: nat, high: nat ::
                            IsRegion(xs, |xs| - faults, low, high) && Narrow(low, high, maxWidthBps))
    ensures r.Ok? ==> && IsRegion(xs, |xs| - faults, r.value.low, r.value.high)
                      && Narrow(r.value.low, r.value.high, maxWidthBps)
                      && r.value.groups == |xs| && r.value.quorum == |xs| - faults
    ensures WellPosed(xs, faults, maxWidthBps) && Sources(xs) ==>
              (r == Err(VenueUnavailable) <==> NothingSupported(xs, |xs| - faults))
  {
    var n := |xs|;
    if n < 3 || n > MAX_GROUPS || faults == 0 || faults >= n || n <= 2 * faults || maxWidthBps == 0 || maxWidthBps > 2000 {
      return Err(Error.Bounds);
    }
    hide Support, Supported, Joined, IsRegion, Endpoints;
    var ok, points := Collect(xs);
    if !ok {
      return Err(InvalidCurve);
    }
    var ps := SortPoints(points);
    SortedEndpoints(xs, points, ps);
    var quorum := n - faults;
    var s;
    ok, s := Scan(xs, ps, quorum);
    if !ok {
      return Err(InvalidCurve);
    }
    if s.low.None? {
      NoRegion(xs, quorum);
      return Err(VenueUnavailable);
    }
    var low, high := s.low.value, s.high;
    RegionBounds(xs, quorum, low, high);
    if NothingSupported(xs, quorum) {
      NoRegion(xs, quorum);
      assert false;
    }
    forall l: nat, h: nat | IsRegion(xs, quorum, l, h)
      ensures l == low && h == high
    {
      RegionUnique(xs, quorum, low, high, l, h);
    }
    if (high - low) * 10_000 > low * maxWidthBps {
      return Err(InvalidCurve);
    }
    assert Narrow(low, high, maxWidthBps);
    return Ok(Band(low, high, n, quorum));
  }

  /** Three sources, one of which may fail: the prices 100 to 106 are exactly the
      supported ones, and a band that narrow would be allowed, yet no quorum contains
      both 105 and 106, so there is no band. */
  lemma AdjacentButSplit()
    ensures var xs := [Interval(0, 100, 105), Interval(1, 100, 106), Interval(2, 106, 109)];
            && WellPosed(xs, 1, 2000) && Sources(xs) && Narrow(100, 106, 2000)
            && (forall p: nat :: Supported(xs, 2, p) <==> 100 <= p <= 106)
            && forall low: nat, high: nat :: !IsRegion(xs, 2, low, high)
  {
    var xs := [Interval(0, 100, 105), Interval(1, 100, 106), Interval(2, 106, 109)];
    forall p: nat, q: nat
      ensures Support(xs, p, q, 3) == (if Spans(xs[0], p, q) then 1 else 0) + (if Spans(xs[1], p, q) then 1 else 0)
                                      + (if Spans(xs[2], p, q) then 1 else 0)
    {
      assert Support(xs, p, q, 3) == Support(xs, p, q, 2) + if Spans(xs[2], p, q) then 1 else 0;
      assert Support(xs, p, q, 2) == Support(xs, p, q, 1) + if Spans(xs[1], p, q) then 1 else 0;
      assert Support(xs, p, q, 1) == Support(xs, p, q, 0) + if Spans(xs[0], p, q) then 1 else 0;
    }
    assert !Joined(xs, 2, 105);
    forall low: nat, high: nat
      ensures !IsRegion(xs, 2, low, high)
    {
      assert Supported(xs, 2, 105) && Supported(xs, 2, 106);
    }
  }

  lemma NoRegion(xs: seq<Interval>, quorum: nat)
    requires NothingSupported(xs, quorum)
    ensures forall low: nat, high: nat :: !IsRegion(xs, quorum, low, high)
  {
    hide Supported, Joined;
    forall low: nat, high: nat
      ensures !IsRegion(xs, quorum, low, high)
    {
      assert !Supported(xs, quorum, low);
    }
  }

  /** Supported prices lie inside some interval, so they fit 64 bits. */
  lemma RegionBounds(xs: seq<Interval>, quorum: nat, low: nat, high: nat)
    requires IsRegion(xs, quorum, low, high) && quorum > 0
    ensures low <= high <= U64_MAX
  {
    assert Supported(xs, quorum, high);
    if high > U64_MAX {
      NoSupportOutside(xs, high, |xs|);
      assert false;
    }
  }

  /** Validate the sources and collect their endpoints. */
  method Collect(xs: seq<Interval>) returns (ok: bool, points: seq<nat>)
    ensures ok <==> Sources(xs)
    ensures ok ==> |points| == 2 * |xs| && forall i :: 0 <= i < |xs| ==> points[2 * i] == xs[i].low && points[2 * i + 1] == xs[i].high
  {
    points := [];
    for i := 0 to |xs|
      invariant |points| == 2 * i
      invariant forall j :: 0 <= j < i ==> points[2 * j] == xs[j].low && points[2 * j + 1] == xs[j].high
      invariant forall j :: 0 <= j < i ==> 0 < xs[j].low <= xs[j].high
      invariant forall j, k :: 0 <= j < k < i ==> xs[j].group != xs[k].group
    {
      var x := xs[i];
      if x.low == 0 || x.high < x.low || exists j :: 0 <= j < i && xs[j].group == x.group {
        return false, [];
      }
      points := points + [x.low, x.high];
    }
    return true, points;
  }

  lemma SortedEndpoints(xs: seq<Interval>, points: seq<nat>, ps: seq<nat>)
    requires |points| == 2 * |xs|
    requires forall i :: 0 <= i < |xs| ==> points[2 * i] == xs[i].low && points[2 * i + 1] == xs[i].high
    requires Ordered(ps) && |ps| == |points| && forall x :: x in ps <==> x in points
    ensures Endpoints(xs, ps)
  {
    forall i | 0 <= i < |xs|
      ensures xs[i].low in ps && xs[i].high in ps
    {
      assert points[2 * i] in points && points[2 * i + 1] in points;
    }
  }

  // ---------------------------------------------------------------- byzantine sources

  /** How many of the first n intervals from honest sources contain p. */
  ghost function HonestSupport(xs: seq<Interval>, honest: set<nat>, p: nat, n: nat): nat
    requires n <= |xs|
  {
    if n == 0 then 0
    else HonestSupport(xs, honest, p, n - 1) + if n - 1 in honest && Spans(xs[n - 1], p, p) then 1 else 0
  }

  ghost function Dishonest(honest: set<nat>, n: nat): nat {
    if n == 0 then 0 else Dishonest(honest, n - 1) + if n - 1 in honest then 0 else 1
  }

  lemma {:induction false} SupportSplits(xs: seq<Interval>, honest: set<nat>, p: nat, n: nat)
    requires n <= |xs|
    ensures Support(xs, p, p, n) <= HonestSupport(xs, honest, p, n) + Dishonest(honest, n)
    ensures HonestSupport(xs, honest, p, n) <= Support(xs, p, p, n)
  {
    if n > 0 {
      SupportSplits(xs, honest, p, n - 1);
    }
  }

  lemma {:induction false} AllHonestSupport(xs: seq<Interval>, honest: set<nat>, p: nat, n: nat)
    requires n <= |xs| && forall i :: 0 <= i < n && i in honest ==> Spans(xs[i], p, p)
    ensures HonestSupport(xs, honest, p, n) + Dishonest(honest, n) == n
  {
    if n > 0 {
      AllHonestSupport(xs, honest, p, n - 1);
    }
  }

  /** With at most `faults` dishonest sources: if all honest intervals contain the true
      price, so does the band; and every price of the band is vouched for by at least
      n - 2 f, hence at least one, honest interval. */
  lemma ByzantineBand(xs: seq<Interval>, faults: nat, band: Band, honest: set<nat>, p: nat)
    requires |xs| > 2 * faults && IsRegion(xs, |xs| - faults, band.low, band.high)
    requires Dishonest(honest, |xs|) <= faults
    ensures (forall i :: 0 <= i < |xs| && i in honest ==> Spans(xs[i], p, p)) ==> band.low <= p <= band.high
    ensures band.low <= p <= band.high ==> HonestSupport(xs, honest, p, |xs|) >= |xs| - 2 * faults > 0
  {
    SupportSplits(xs, honest, p, |xs|);
    assert Supported(xs, |xs| - faults, p) <==> band.low <= p <= band.high;
    if forall i :: 0 <= i < |xs| && i in honest ==> Spans(xs[i], p, p) {
      AllHonestSupport(xs, honest, p, |xs|);
    }
  }

  // ---------------------------------------------------------------- crossing at the midpoint

  datatype Crossing = Crossing(base: u64, quote: u64, buyerResidual: u64, sellerResidual: u64, price: u64)

  function Midpoint(band: Band): (p: nat)
    requires band.low <= band.high
    ensures band.low <= p <= band.high
    ensures p - band.low <= band.high - p <= p - band.low + 1
  {
    band.low + (band.high - band.low) / 2
  }

  /** A price inside the band and inside both signed limits. */
  predicate Agreeable(band: Band, buyQuote: nat, buyMinBase: nat, sellBase: nat, sellMinQuote: nat, base: nat, quote: nat) {
    && base * band.low <= quote * SCALE <= base * band.high
    && quote * buyMinBase <= base * buyQuote
    && base * sellMinQuote <= quote * sellBase
  }

  /** What both owners signed, and the band. */
  ghost predicate FairTrade(band: Band, buyQuote: nat, buyMinBase: nat, sellBase: nat, sellMinQuote: nat, c: Crossing) {
    && 0 < c.base <= sellBase && 0 < c.quote <= buyQuote
    && c.buyerResidual == buyQuote - c.quote && c.sellerResidual == sellBase - c.base
    && Agreeable(band, buyQuote, buyMinBase, sellBase, sellMinQuote, c.base, c.quote)
  }

  /** The most base the buyer's quote affords at price p. */
  function Affordable(buyQuote: nat, p: nat): nat
    requires p > 0
  {
    buyQuote * SCALE / p
  }

  lemma AffordableBounds(buyQuote: nat, p: nat)
    requires p > 0
    ensures Affordable(buyQuote, p) * p <= buyQuote * SCALE < (Affordable(buyQuote, p) + 1) * p
  {
    FloorBounds(buyQuote * SCALE, p);
  }

  /** As much base as the seller has and the buyer's quote affords at price p, and the
      least quote that pays for it. */
  ghost predicate Settles(p: nat, buyQuote: nat, sellBase: nat, base: nat, quote: nat) {
    && base <= sellBase && base * p <= buyQuote * SCALE
    && (base < sellBase ==> (base + 1) * p > buyQuote * SCALE)
    && base * p <= quote * SCALE && (quote > 0 ==> (quote - 1) * SCALE < base * p)
  }

  lemma SettlesOnce(p: nat, buyQuote: nat, sellBase: nat, base: nat, quote: nat, base': nat, quote': nat)
    requires Settles(p, buyQuote, sellBase, base, quote) && Settles(p, buyQuote, sellBase, base', quote')
    ensures base == base' && quote == quote'
  {
    if base < base' {
      Mono(base + 1, base', p);
    } else if base' < base {
      Mono(base' + 1, base, p);
    }
  }

  /** The least quote that pays for some base at price p. */
  function Cost(base: nat, p: nat): nat {
    CeilDiv(base * p, SCALE)
  }

  lemma SettlesAt(p: nat, buyQuote: nat, sellBase: nat)
    requires p > 0
    ensures var base := Min(sellBase, Affordable(buyQuote, p));
            && base >= 0 && Settles(p, buyQuote, sellBase, base, Cost(base, p))
            && (base > 0 ==> Cost(base, p) > 0)
  {
    var base := Min(sellBase, Affordable(buyQuote, p));
    AffordableBounds(buyQuote, p);
    Mono(base, Affordable(buyQuote, p), p);
    if base > 0 {
      MulPos(base, p);
    }
  }

  lemma TooMuch(buyQuote: nat, p: nat)
    requires p > 0
    ensures Affordable(buyQuote, p) > U64_MAX <==> (U64_MAX + 1) * p <= buyQuote * SCALE
  {
    AffordableBounds(buyQuote, p);
    if Affordable(buyQuote, p) > U64_MAX {
      Mono(U64_MAX + 1, Affordable(buyQuote, p), p);
    } else {
      Mono(Affordable(buyQuote, p) + 1, U64_MAX + 1, p);
    }
  }

  lemma MidpointPositive(band: Band)
    requires 0 < band.low <= band.high
    ensures Midpoint(band) > 0
  {
  }

  /** `cross`: the trade at the band's midpoint, as large as the seller's base and the
      buyer's quote allow, if it is inside the band and inside both limits. */
  method Cross(band: Band, buyQuote: u64, buyMinBase: u64, sellBase: u64, sellMinQuote: u64) returns (r: Result<Crossing>)
    ensures r == Err(Error.Bounds) <==>
              buyQuote == 0 || buyMinBase == 0 || sellBase == 0 || sellMinQuote == 0 || band.low == 0 || band.high < band.low
    ensures r.Ok? ==> FairTrade(band, buyQuote, buyMinBase, sellBase, sellMinQuote, r.value)
    ensures r.Ok? ==> r.value.price == Midpoint(band)
                      && Settles(Midpoint(band), buyQuote, sellBase, r.value.base, r.value.quote)
    ensures r == Err(Arithmetic) <==>
              && buyQuote != 0 && buyMinBase != 0 && sellBase != 0 && sellMinQuote != 0 && 0 < band.low <= band.high
              && (U64_MAX + 1) * Midpoint(band) <= buyQuote * SCALE
    ensures r.Err? && r.error != Error.Bounds ==> r.error.Arithmetic? || r.error.MinOut?
    ensures r.Err? && r.error.MinOut? ==> forall base: nat, quote: nat ::
              Settles(Midpoint(band), buyQuote, sellBase, base, quote) ==>
                base == 0 || !Agreeable(band, buyQuote, buyMinBase, sellBase, sellMinQuote, base, quote)
  {
    hide Agreeable, Affordable, Midpoint, Cost, Settles;
    if buyQuote == 0 || buyMinBase == 0 || sellBase == 0 || sellMinQuote == 0 || band.low == 0 || band.high < band.low {
      return Err(Error.Bounds);
    }
    var p := Midpoint(band);
    MidpointPositive(band);
    TooMuch(buyQuote, p);
    var affordable := Affordable(buyQuote, p);
    if affordable > U64_MAX {
      return Err(Arithmetic);
    }
    var base := Min(sellBase, affordable);
    var quote := Cost(base, p);
    CrossAffordable(band.low, p, base, buyQuote);
    SettlesAt(p, buyQuote, sellBase);
    if quote > U64_MAX {
      assert false;
    }
    if base == 0 || quote == 0 || quote > buyQuote
       || !Agreeable(band, buyQuote, buyMinBase, sellBase, sellMinQuote, base, quote) {
      forall b: nat, q: nat | Settles(p, buyQuote, sellBase, b, q)
        ensures b == base && q == quote
      {
        SettlesOnce(p, buyQuote, sellBase, b, q, base, quote);
      }
      return Err(MinOut);
    }
    return Ok(Crossing(base, quote, buyQuote - quote, sellBase - base, p));
  }

  /** The quote is what the midpoint costs, rounded up, and always affordable: the
      check against the buyer's quote and the check against the band's floor never fire. */
  lemma CrossAffordable(low: nat, p: nat, base: nat, buyQuote: nat)
    requires 0 < low <= p && base <= Affordable(buyQuote, p)
    ensures Cost(base, p) <= buyQuote
    ensures Cost(base, p) * SCALE >= base * low
  {
    AffordableBounds(buyQuote, p);
    Mono(base, Affordable(buyQuote, p), p);
    Mono(low, p, base);
    var q := CeilDiv(base * p, SCALE);
    if q > 0 {
      Cancel(q - 1, buyQuote, SCALE);
    }
  }

  /** What a crossing guarantees: within the band, and for each owner at least the rate
      that was signed. */
  lemma CrossingIsFair(
    band: Band, buyQuote: nat, buyMinBase: nat, sellBase: nat, sellMinQuote: nat, c: Crossing)
    ensures FairTrade(band, buyQuote, buyMinBase, sellBase, sellMinQuote, c) <==>
              && 0 < c.base && c.base + c.sellerResidual == sellBase
              && 0 < c.quote && c.quote + c.buyerResidual == buyQuote
              && c.base * band.low <= c.quote * SCALE && c.quote * SCALE <= c.base * band.high
              && c.base * buyQuote >= c.quote * buyMinBase
              && c.quote * sellBase >= c.base * sellMinQuote
  {
  }

  // ---------------------------------------------------------------- the signed floor

  datatype Side = BuyBase | SellBase

  /** The output a trade at the worst price of the band must still deliver. */
  predicate AtWorst(band: Band, input: nat, side: Side, output: nat) {
    match side
    case BuyBase => output * band.high >= input * SCALE
    case SellBase => output * SCALE >= input * band.low
  }

  /** What is at the worst price is fair at some price of the band, and conversely. */
  lemma WorstIsSomewhere(band: Band, input: nat, side: Side, output: nat)
    requires band.low <= band.high
    ensures AtWorst(band, input, side, output) <==>
              exists p: nat {:trigger FairAt(p, input, side, output)} ::
                band.low <= p <= band.high && FairAt(p, input, side, output)
  {
    if AtWorst(band, input, side, output) {
      assert FairAt(if side.BuyBase? then band.high else band.low, input, side, output);
    }
    if p: nat :| band.low <= p <= band.high && FairAt(p, input, side, output) {
      Mono(p, band.high, output);
      Mono(band.low, p, input);
    }
  }

  /** At price p the output is worth the input: base bought with quote, or quote for base. */
  predicate FairAt(p: nat, input: nat, side: Side, output: nat) {
    match side
    case BuyBase => output * p >= input * SCALE
    case SellBase => output * SCALE >= input * p
  }

  /** `min_output` tightens the user's floor to the band's worst price, and no further. */
  method MinOutput(band: Band, input: u64, side: Side, userFloor: u64) returns (r: Result<nat>)
    ensures r.Ok? ==> r.value >= userFloor && AtWorst(band, input, side, r.value)
    ensures r.Ok? ==> r.value == userFloor || (r.value > 0 && !AtWorst(band, input, side, r.value - 1))
    ensures r == Err(Error.Bounds) <==> input == 0 || userFloor == 0 || band.low == 0 || band.high < band.low
    ensures r.Err? && r.error != Error.Bounds ==> r == Err(Arithmetic) && forall v: u64 :: !AtWorst(band, input, side, v)
  {
    if input == 0 || userFloor == 0 || band.low == 0 || band.high < band.low {
      return Err(Error.Bounds);
    }
    var model := match side case BuyBase => CeilDiv(input * SCALE, band.high) case SellBase => CeilDiv(input * band.low, SCALE);
    if model > U64_MAX {
      forall v: u64
        ensures !AtWorst(band, input, side, v)
      {
        Mono(v, model - 1, band.high);
        Mono(v, model - 1, SCALE);
      }
      return Err(Arithmetic);
    }
    if model < userFloor {
      Mono(model, userFloor, band.high);
      Mono(model, userFloor, SCALE);
    }
    return Ok(Max(userFloor, model));
  }
}
