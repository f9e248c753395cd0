/** Shared vocabulary of the engine: integer widths, errors, results and the
    deterministic work budget. */
module Base {

  const U32_MAX: nat := 0xFFFF_FFFF
  const U64_MAX: nat := 0xFFFF_FFFF_FFFF_FFFF
  const U128_MAX: nat := 0xFFFF_FFFF_FFFF_FFFF_FFFF_FFFF_FFFF_FFFF

  type u32 = n: nat | n <= U32_MAX
  type u64 = n: nat | n <= U64_MAX
  type u128 = n: nat | n <= U128_MAX

  /** A 32-byte key, read as a big-endian number: byte-wise comparison of two
      keys is comparison of these numbers, and the all-zero key is 0. */
  type Key = nat

  const MAX_EDGES: nat := 8
  const MAX_SEGMENTS: nat := 16
  const MAX_LEGS: nat := 4
  const MAX_REFLOWS: nat := 3
  const SCALE: nat := 0x1_0000_0000
  const MAX_ATOMS: nat := 100_000_000_000_000
  const MAX_RATE: nat := 0x1_0000_0000_0000

  datatype Error =
    | InvalidAmount
    | InvalidCurve
    | Arithmetic
    | Capacity
    | Bounds
    | WorkLimit
    | Stale
    | Expired
    | Identity
    | AliasedLiquidity
    | Unsupported
    | VenueUnavailable
    | FatalCpi
    | BalanceInvariant
    | MinOut
    | QueueFull
    | Duplicate
    | OwnerLimit
    | InvalidTicket

  datatype Option<+T> = None | Some(value: T)

  datatype Result<+T> = Ok(value: T) | Err(error: Error)

  /** The operation budget threaded through every bounded loop. */
  class WorkMeter {
    var used: u32
    const limit: u32

    constructor (limit: u32)
      ensures this.used == 0 && this.limit == limit
    {
      this.used := 0;
      this.limit := limit;
    }

    predicate Within()
      reads this
    {
      used <= limit
    }

    /** Charging fails, and changes nothing, exactly when the limit would be passed. */
    method Charge(units: u32) returns (ok: bool)
      modifies this`used
      ensures ok <==> old(used) + units <= limit
      ensures used == if ok then old(used) + units else old(used)
    {
      ok := used + units <= limit;
      if ok {
        used := used + units;
      }
    }
  }

  /** `ceil_div`: the least q with q * d >= n. */
  function CeilDiv(n: nat, d: nat): (q: nat)
    requires d > 0
    ensures q * d >= n
    ensures q > 0 ==> (q - 1) * d < n
  {
    n / d + if n % d != 0 then 1 else 0
  }

  /** `ceil_div` with its error: nothing can be divided by zero. */
  function CheckedCeilDiv(n: nat, d: nat): (r: Result<nat>)
    ensures r.Err? <==> d == 0
    ensures r.Err? ==> r.error.Arithmetic?
    ensures r.Ok? ==> r.value * d >= n && (r.value > 0 ==> (r.value - 1) * d < n)
  {
    if d == 0 then Err(Arithmetic) else Ok(CeilDiv(n, d))
  }

  function Min(a: int, b: int): int {
    if a <= b then a else b
  }

  function Max(a: int, b: int): int {
    if a >= b then a else b
  }

  /** Subtraction of unsigned numbers that stops at zero. */
  function SaturatingSub(a: nat, b: nat): nat {
    if a >= b then a - b else 0
  }

  ghost predicate IsLeast(s: set<nat>, m: nat) {
    m in s && forall x :: x in s ==> m <= x
  }

  lemma LeastExists(s: set<nat>)
    requires s != {}
    ensures exists m :: IsLeast(s, m)
  {
    var x :| x in s;
    if s == {x} {
      assert IsLeast(s, x);
    } else {
      assert |s - {x}| < |s|;
      var rest := s - {x};
      LeastExists(rest);
      var m :| IsLeast(rest, m);
      assert forall y :: y in s ==> y == x || y in rest;
      assert IsLeast(s, if x < m then x else m);
    }
  }

  /** `trailing_zeros` of a non-empty bit mask: its lowest member. */
  function Least(s: set<nat>): (m: nat)
    requires s != {}
    ensures m in s && forall x :: x in s ==> m <= x
  {
    LeastExists(s);
    assert exists m :: m in s && forall x :: x in s ==> m <= x by {
      var m :| IsLeast(s, m);
    }
    var m :| m in s && forall x :: x in s ==> m <= x;
    m
  }
}
