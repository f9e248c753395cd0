/** Venue snapshots and their exact integer quotes. */
module Venues {
  import opened Base
  import opened Products
  import opened Curves

  const PPM: nat := 1_000_000

  datatype Model =
    | Book(levels: seq<Segment>)
    | ConstantProduct(reserveIn: u64, reserveOut: u64, feePpm: u32)

  datatype Snapshot = Snapshot(
    market: Key, program: Key, inputMint: Key, outputMint: Key, liquidityId: Key,
    writableResources: set<nat>, slot: u64, generation: u64, expiresAtSlot: u64, capacity: u64,
    atomic: bool, enabled: bool, model: Model)

  predicate ValidPool(r: nat, y: nat, fee: nat) {
    0 < r <= MAX_ATOMS && 0 < y <= MAX_ATOMS && fee < PPM
  }

  /** Input after the proportional fee, rounded against the trader. */
  function NetInput(x: nat, fee: nat): nat
    requires fee < PPM
  {
    x * (PPM - fee) / PPM
  }

  /** Constant-product output for a net input. */
  function PoolOutput(r: nat, y: nat, net: nat): nat
    requires r > 0
  {
    y * net / (r + net)
  }

  /** The whole book as a curve without errors. */
  function BookCurve(levels: seq<Segment>): Result<Curve> {
    if TotalCapacity(levels) > U64_MAX then Err(Arithmetic)
    else Ok(Curve(levels, TotalCapacity(levels), 0, 0))
  }

  function ExactQuoteOf(s: Snapshot, x: nat): Result<nat> {
    if x > s.capacity || x > MAX_ATOMS then Err(Error.Capacity)
    else match s.model
      case Book(levels) =>
        var full := BookCurve(levels);
        if full.Err? then Err(full.error) else QuoteOf(full.value, x)
      case ConstantProduct(r, y, fee) =>
        if !ValidPool(r, y, fee) then Err(InvalidCurve)
        else Ok(PoolOutput(r, y, NetInput(x, fee)))
  }

  lemma {:induction false} TotalTail(levels: seq<Segment>, j: nat)
    requires j < |levels|
    ensures TotalCapacity(levels[j..]) == levels[j].inputCapacity + TotalCapacity(levels[j + 1..])
  {
    assert levels[j..][1..] == levels[j + 1..];
  }

  /** Summing capacities with a 64-bit check at every step. */
  method SumLevels(levels: seq<Segment>) returns (r: Result<Curve>)
    ensures r == BookCurve(levels)
  {
    var capacity: nat := 0;
    for j := 0 to |levels|
      invariant capacity + TotalCapacity(levels[j..]) == TotalCapacity(levels) && capacity <= U64_MAX
    {
      TotalTail(levels, j);
      capacity := capacity + levels[j].inputCapacity;
      if capacity > U64_MAX {
        return Err(Arithmetic);
      }
    }
    return Ok(Curve(levels, capacity, 0, 0));
  }

  /** A pool never pays out more than it holds, so quotes fit 64 bits. */
  lemma PoolOutputBounded(r: nat, y: nat, net: nat)
    requires r > 0
    ensures PoolOutput(r, y, net) <= y
    ensures PoolOutput(r, y, net) * (r + net) <= y * net < (PoolOutput(r, y, net) + 1) * (r + net)
  {
    FloorBounds(y * net, r + net);
    Mono(net, r + net, y);
    QuotientAtMost(y * net, r + net, y);
  }

  method ExactQuote(s: Snapshot, input: nat) returns (r: Result<nat>)
    ensures r == ExactQuoteOf(s, input)
  {
    if input > s.capacity || input > MAX_ATOMS {
      return Err(Error.Capacity);
    }
    match s.model {
      case Book(levels) =>
        var full := SumLevels(levels);
        if full.Err? {
          return Err(full.error);
        }
        r := Quote(full.value, input);
      case ConstantProduct(reserveIn, reserveOut, feePpm) =>
        if !ValidPool(reserveIn, reserveOut, feePpm) {
          return Err(InvalidCurve);
        }
        var net := NetInput(input, feePpm);
        var output := PoolOutput(reserveIn, reserveOut, net);
        PoolOutputBounded(reserveIn, reserveOut, net);
        if output > U64_MAX {
          return Err(Arithmetic);
        }
        return Ok(output);
    }
  }

  /** What a curve promises about its venue: for every input within the curve's
      capacity the exact output lies in the error band around the curve's output. */
  ghost predicate Envelope(s: Snapshot, c: Curve) {
    forall x: nat :: x <= c.capacity ==>
      && ExactQuoteOf(s, x).Ok?
      && SaturatingSub(Integral(c.segments, x) / SCALE, c.lowerError) <= ExactQuoteOf(s, x).value
      && ExactQuoteOf(s, x).value <= Integral(c.segments, x) / SCALE + c.upperError
  }
}
