/** Marginal curves: bands of input capacity with a non-increasing Q32 rate. */
module Curves {
  import opened Base
  import opened Products

  datatype Segment = Segment(inputCapacity: u64, marginal: u64)

  /** The live bands `segments[..len]` of a curve, with its error envelope. */
  datatype Curve = Curve(segments: seq<Segment>, capacity: u64, upperError: u64, lowerError: u64)

  function TotalCapacity(bands: seq<Segment>): nat {
    if |bands| == 0 then 0 else bands[0].inputCapacity + TotalCapacity(bands[1..])
  }

  /** Q32 output of x atoms at one rate. */
  function Yield(x: nat, rate: nat): nat {
    x * rate
  }

  /** Q32 output of the first x atoms of input, best band first. */
  function Integral(bands: seq<Segment>, x: nat): nat {
    if |bands| == 0 || x == 0 then 0
    else
      var take := Min(x, bands[0].inputCapacity);
      Yield(take, bands[0].marginal) + Integral(bands[1..], x - take)
  }

  ghost predicate NonIncreasing(bands: seq<Segment>, top: nat) {
    && (forall j :: 0 <= j < |bands| ==> bands[j].marginal <= top)
    && (forall j, k :: 0 <= j < k < |bands| ==> bands[k].marginal <= bands[j].marginal)
  }

  ghost predicate ValidBands(bands: seq<Segment>, top: nat) {
    && NonIncreasing(bands, top)
    && forall j :: 0 <= j < |bands| ==> bands[j].inputCapacity > 0
  }

  ghost predicate ValidCurve(c: Curve) {
    && 0 < |c.segments| <= MAX_SEGMENTS
    && ValidBands(c.segments, MAX_RATE)
    && TotalCapacity(c.segments) == c.capacity <= MAX_ATOMS
  }

  /** Scan the bands in order; the first defect decides the error. */
  function ScanBands(bands: seq<Segment>, top: nat, capacity: nat): Result<nat> {
    if |bands| == 0 then Ok(capacity)
    else if bands[0].inputCapacity == 0 || bands[0].marginal > top then Err(InvalidCurve)
    else if capacity + bands[0].inputCapacity > U64_MAX then Err(Arithmetic)
    else ScanBands(bands[1..], bands[0].marginal, capacity + bands[0].inputCapacity)
  }

  function CurveFault(c: Curve): Option<Error> {
    if |c.segments| == 0 || |c.segments| > MAX_SEGMENTS then Some(InvalidCurve)
    else
      var scan := ScanBands(c.segments, MAX_RATE, 0);
      if scan.Err? then Some(scan.error)
      else if scan.value != c.capacity || scan.value > MAX_ATOMS then Some(InvalidCurve)
      else None
  }

  lemma {:induction false} ScanMeaning(bands: seq<Segment>, top: nat, capacity: nat)
    ensures ScanBands(bands, top, capacity).Ok? ==>
              ValidBands(bands, top) && ScanBands(bands, top, capacity).value == capacity + TotalCapacity(bands)
    ensures ValidBands(bands, top) && capacity + TotalCapacity(bands) <= U64_MAX ==>
              ScanBands(bands, top, capacity).Ok?
  {
    if |bands| > 0 {
      var rest := bands[1..];
      ScanMeaning(rest, bands[0].marginal, capacity + bands[0].inputCapacity);
      if ValidBands(rest, bands[0].marginal) && bands[0].marginal <= top && bands[0].inputCapacity > 0 {
        assert forall j :: 0 < j < |bands| ==> bands[j] == rest[j - 1];
      }
      if ValidBands(bands, top) {
        assert forall j :: 0 <= j < |rest| ==> rest[j] == bands[j + 1];
      }
    }
  }

  /** `validate` accepts exactly the valid curves. */
  lemma FaultMeaning(c: Curve)
    ensures CurveFault(c).None? <==> ValidCurve(c)
  {
    ScanMeaning(c.segments, MAX_RATE, 0);
  }

  /** Check the bands from the first to the last, adding up their capacity. */
  method Validate(c: Curve) returns (r: Result<()>)
    ensures r == if CurveFault(c).None? then Ok(()) else Err(CurveFault(c).value)
  {
    if |c.segments| == 0 || |c.segments| > MAX_SEGMENTS {
      return Err(InvalidCurve);
    }
    var capacity: nat, prev: nat := 0, MAX_RATE;
    for j := 0 to |c.segments|
      invariant ScanBands(c.segments, MAX_RATE, 0) == ScanBands(c.segments[j..], prev, capacity)
    {
      var s := c.segments[j];
      assert c.segments[j..][0] == s && c.segments[j..][1..] == c.segments[j + 1..];
      if s.inputCapacity == 0 || s.marginal > prev {
        return Err(InvalidCurve);
      }
      prev := s.marginal;
      if capacity + s.inputCapacity > U64_MAX {
        return Err(Arithmetic);
      }
      capacity := capacity + s.inputCapacity;
    }
    if capacity != c.capacity || capacity > MAX_ATOMS {
      return Err(InvalidCurve);
    }
    return Ok(());
  }

  function QuoteOf(c: Curve, x: nat): Result<nat> {
    if CurveFault(c).Some? then Err(CurveFault(c).value)
    else if x > c.capacity then Err(Error.Capacity)
    else Ok(Integral(c.segments, x) / SCALE)
  }

  lemma {:induction false} IntegralBounded(bands: seq<Segment>, x: nat)
    requires forall j :: 0 <= j < |bands| ==> bands[j].marginal <= MAX_RATE
    ensures Integral(bands, x) <= x * MAX_RATE
  {
    if |bands| > 0 && x > 0 {
      var take := Min(x, bands[0].inputCapacity);
      IntegralBounded(bands[1..], x - take);
      Mono(bands[0].marginal, MAX_RATE, take);
      assert take * MAX_RATE + (x - take) * MAX_RATE == x * MAX_RATE;
    }
  }

  /** Within the domain bound every quote fits 64 bits. */
  lemma QuoteFits(bands: seq<Segment>, x: nat)
    requires forall j :: 0 <= j < |bands| ==> bands[j].marginal <= MAX_RATE
    requires x <= MAX_ATOMS
    ensures Integral(bands, x) <= MAX_ATOMS * MAX_RATE <= U128_MAX
    ensures Integral(bands, x) / SCALE <= U64_MAX
  {
    IntegralBounded(bands, x);
    Mono(x, MAX_ATOMS, MAX_RATE);
  }

  lemma IntegralHead(bands: seq<Segment>, x: nat)
    requires |bands| > 0
    ensures var take := Min(x, bands[0].inputCapacity);
            Integral(bands, x) == Yield(take, bands[0].marginal) + Integral(bands[1..], x - take)
  {
    assert Yield(0, bands[0].marginal) == 0;
  }

  lemma IntegralDone(bands: seq<Segment>, x: nat)
    requires |bands| == 0 || x == 0
    ensures Integral(bands, x) == 0
  {
  }

  lemma ValidQuoteFits(c: Curve, x: nat)
    requires ValidCurve(c) && x <= c.capacity
    ensures Integral(c.segments, x) / SCALE <= U64_MAX
  {
    QuoteFits(c.segments, x);
  }

  /** Fill bands in order until the input is used up; the final 64-bit check never fails. */
  method Quote(c: Curve, input: nat) returns (r: Result<nat>)
    ensures r == QuoteOf(c, input)
  {
    hide Integral, CurveFault, Yield, ValidCurve;
    var valid := Validate(c);
    if valid.Err? {
      return Err(valid.error);
    }
    if input > c.capacity {
      return Err(Error.Capacity);
    }
    FaultMeaning(c);
    ValidQuoteFits(c, input);
    var output: nat, left: nat := 0, input;
    var j := 0;
    while j < |c.segments|
      invariant j <= |c.segments|
      invariant output + Integral(c.segments[j..], left) == Integral(c.segments, input)
      invariant j == 0 ==> left == input
    {
      var s := c.segments[j];
      IntegralHead(c.segments[j..], left);
      assert c.segments[j..][0] == s && c.segments[j..][1..] == c.segments[j + 1..];
      var take := Min(left, s.inputCapacity);
      output := output + Yield(take, s.marginal);
      left := left - take;
      j := j + 1;
      if left == 0 {
        break;
      }
    }
    IntegralDone(c.segments[j..], left);
    if output / SCALE > U64_MAX {
      return Err(Arithmetic);
    }
    return Ok(output / SCALE);
  }

  method LowerQuote(c: Curve, input: nat) returns (r: Result<nat>)
    ensures r == if QuoteOf(c, input).Err? then QuoteOf(c, input)
                 else Ok(SaturatingSub(QuoteOf(c, input).value, c.lowerError))
  {
    r := Quote(c, input);
    if r.Ok? {
      r := Ok(SaturatingSub(r.value, c.lowerError));
    }
  }

  // ---------------------------------------------------------------- whole bands

  /** Capacity and Q32 output of the first n bands. */
  function CapPrefix(bands: seq<Segment>, n: nat): nat
    requires n <= |bands|
  {
    if n == 0 then 0 else CapPrefix(bands, n - 1) + bands[n - 1].inputCapacity
  }

  function IntPrefix(bands: seq<Segment>, n: nat): nat
    requires n <= |bands|
  {
    if n == 0 then 0 else IntPrefix(bands, n - 1) + Yield(bands[n - 1].inputCapacity, bands[n - 1].marginal)
  }

  lemma {:induction false} CapPrefixHead(bands: seq<Segment>, n: nat)
    requires 0 < n <= |bands|
    ensures CapPrefix(bands, n) == bands[0].inputCapacity + CapPrefix(bands[1..], n - 1)
    ensures IntPrefix(bands, n) == Yield(bands[0].inputCapacity, bands[0].marginal) + IntPrefix(bands[1..], n - 1)
  {
    hide Yield;
    if n > 1 {
      CapPrefixHead(bands, n - 1);
    }
  }

  lemma {:induction false} CapPrefixTotal(bands: seq<Segment>)
    ensures CapPrefix(bands, |bands|) == TotalCapacity(bands)
  {
    if |bands| > 0 {
      CapPrefixHead(bands, |bands|);
      CapPrefixTotal(bands[1..]);
    }
  }

  lemma {:induction false} CapPrefixMonotone(bands: seq<Segment>, m: nat, n: nat)
    requires m <= n <= |bands|
    ensures CapPrefix(bands, m) <= CapPrefix(bands, n)
  {
    if m < n {
      CapPrefixMonotone(bands, m, n - 1);
    }
  }

  /** Filling n whole bands and t atoms of the next one. */
  lemma {:induction false} IntegralAt(bands: seq<Segment>, n: nat, t: nat)
    requires n <= |bands| && (t > 0 ==> n < |bands| && t <= bands[n].inputCapacity)
    requires forall j :: 0 <= j < |bands| ==> bands[j].inputCapacity > 0
    ensures Integral(bands, CapPrefix(bands, n) + t) ==
            IntPrefix(bands, n) + if t > 0 then Yield(t, bands[n].marginal) else 0
  {
    hide Yield;
    if n > 0 {
      CapPrefixHead(bands, n);
      IntegralAt(bands[1..], n - 1, t);
    }
  }
}
