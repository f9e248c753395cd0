/** Greatest common divisors and least common multiples, as used to find the
    smallest value quantum that every price divides. */
module Multiples {
  import opened Base
  import opened Products

  function Gcd(a: nat, b: nat): (g: nat)
    ensures g > 0 <==> a > 0 || b > 0
    decreases b
  {
    if b == 0 then a else Gcd(b, a % b)
  }

  /** Replace the pair by the smaller number and the remainder until none is left. */
  method ComputeGcd(a: nat, b: nat) returns (g: nat)
    ensures g == Gcd(a, b)
  {
    var x, y := a, b;
    while y != 0
      invariant Gcd(x, y) == Gcd(a, b)
      decreases y
    {
      x, y := y, x % y;
    }
    g := x;
  }

  lemma MulAtLeast(d: nat, z: int)
    ensures z >= 1 ==> d * z >= d
    ensures z <= -1 ==> d * z <= -(d as int)
    ensures z == 0 ==> d * z == 0
  {
    if z >= 1 {
      assert d * (z - 1) >= 0;
    } else if z <= -1 {
      assert d * (-1 - z) >= 0;
    }
  }

  lemma MultipleOf(d: nat, k: int)
    requires d > 0
    ensures (d * k) % d == 0 && (d * k) / d == k
  {
    var q, r := (d * k) / d, (d * k) % d;
    assert d * k == d * q + r;
    assert d * (k - q) == r;
    MulAtLeast(d, k - q);
  }

  lemma Recombine(g: nat, u: nat, v: nat, k: nat)
    ensures g * (u * k + v) == (g * u) * k + g * v
  {
    assert g * (u * k + v) == g * (u * k) + g * v;
    assert g * (u * k) == (g * u) * k;
  }

  lemma Division(a: nat, b: nat)
    requires b > 0
    ensures a == b * (a / b) + a % b
  {
  }

  /** The greatest common divisor divides both arguments. */
  lemma {:induction false} GcdDivides(a: nat, b: nat) returns (p: nat, q: nat)
    ensures a == Gcd(a, b) * p && b == Gcd(a, b) * q
    decreases b
  {
    if b == 0 {
      p, q := 1, 0;
    } else {
      var u, v := GcdDivides(b, a % b);
      Division(a, b);
      Recombine(Gcd(b, a % b), u, v, a / b);
      p, q := u * (a / b) + v, u;
    }
  }

  /** The greatest common divisor is an integer combination of its arguments. */
  lemma {:induction false} Bezout(a: nat, b: nat) returns (x: int, y: int)
    ensures Gcd(a, b) == x * a + y * b
    decreases b
  {
    if b == 0 {
      x, y := 1, 0;
    } else {
      var u, v := Bezout(b, a % b);
      x, y := v, u - (a / b) * v;
      assert a == b * (a / b) + a % b;
      assert u * b + v * (a % b) == u * b + v * a - v * (b * (a / b));
      assert v * (b * (a / b)) == (a / b) * v * b;
      assert (u - (a / b) * v) * b == u * b - (a / b) * v * b;
    }
  }

  function Lcm(a: nat, b: nat): nat {
    if a == 0 || b == 0 then 0 else (a / Gcd(a, b)) * b
  }

  /** Lcm(a, b) is a positive multiple of both. */
  lemma LcmIsCommonMultiple(a: nat, b: nat) returns (p: nat, q: nat)
    requires a > 0 && b > 0
    ensures a == Gcd(a, b) * p && Lcm(a, b) == p * b == q * a
    ensures Lcm(a, b) > 0
  {
    p, q := GcdDivides(a, b);
    var g := Gcd(a, b);
    MultipleOf(g, p);
    assert p * (g * q) == q * (g * p);
    MulAtLeast(g, p);
    MulAtLeast(b, p);
  }

  lemma CommonMultiple(g: int, x: int, y: int, a: int, b: int, p: int, m: int, s: int, t: int)
    requires g == x * a + y * b && a == g * p && m == a * s && m == b * t
    ensures g * m == g * ((p * b) * (x * t + y * s))
  {
    var k := x * t + y * s;
    calc {
      g * m;
      x * a * m + y * b * m;
      { assert x * a * m == x * a * (b * t); assert y * b * m == y * b * (a * s); }
      x * a * (b * t) + y * b * (a * s);
      { assert x * a * (b * t) == (a * b) * (x * t); assert y * b * (a * s) == (a * b) * (y * s); }
      (a * b) * (x * t) + (a * b) * (y * s);
      (a * b) * k;
      { assert a * b == g * (p * b); }
      (g * (p * b)) * k;
      g * ((p * b) * k);
    }
  }

  /** Every common multiple is a multiple of Lcm(a, b). */
  lemma LcmDividesMultiples(a: nat, b: nat, m: nat, s: nat, t: nat) returns (k: int)
    requires a > 0 && b > 0 && m == a * s && m == b * t
    ensures m == Lcm(a, b) * k
  {
    var g := Gcd(a, b);
    var p, q := LcmIsCommonMultiple(a, b);
    var x, y := Bezout(a, b);
    k := x * t + y * s;
    CommonMultiple(g, x, y, a, b, p, m, s, t);
    CancelFactor(g, m, (p * b) * k);
  }

  lemma CancelFactor(g: int, p: int, q: int)
    requires g > 0 && g * p == g * q
    ensures p == q
  {
    assert g * (p - q) == 0;
    MulAtLeast(g, p - q);
  }

  /** The least common multiple of a list. */
  function LcmAll(ps: seq<nat>): nat {
    if |ps| == 0 then 1 else Lcm(LcmAll(ps[..|ps| - 1]), ps[|ps| - 1])
  }

  ghost predicate AllPositive(ps: seq<nat>) {
    forall i :: 0 <= i < |ps| ==> ps[i] > 0
  }

  lemma {:induction false} LcmAllPositive(ps: seq<nat>)
    requires AllPositive(ps)
    ensures LcmAll(ps) > 0
  {
    if |ps| > 0 {
      LcmAllPositive(ps[..|ps| - 1]);
      var p, q := LcmIsCommonMultiple(LcmAll(ps[..|ps| - 1]), ps[|ps| - 1]);
    }
  }

  lemma LcmAllStep(ps: seq<nat>)
    requires |ps| > 0 && AllPositive(ps)
    ensures LcmAll(ps) == Lcm(LcmAll(ps[..|ps| - 1]), ps[|ps| - 1])
    ensures AllPositive(ps[..|ps| - 1]) && ps[|ps| - 1] > 0
  {
    hide Lcm;
  }

  /** Every member divides it ... */
  lemma {:induction false} LcmAllIsCommonMultiple(ps: seq<nat>, i: nat) returns (k: nat)
    requires AllPositive(ps) && i < |ps|
    ensures LcmAll(ps) == ps[i] * k && k > 0
  {
    hide *;
    var n := |ps| - 1;
    LcmAllStep(ps);
    LcmAllPositive(ps);
    LcmAllPositive(ps[..n]);
    var p, q := LcmIsCommonMultiple(LcmAll(ps[..n]), ps[n]);
    if i < n {
      var k' := LcmAllIsCommonMultiple(ps[..n], i);
      k := q * k';
      Shuffle(ps[i], k', q);
      Associate(ps[i], q, k');
    } else {
      k := p;
    }
    MulAtLeast(ps[i], k);
  }

  /** ... and it divides every number that all members divide. */
  lemma {:induction false} LcmAllIsLeast(ps: seq<nat>, m: nat, cofactors: seq<nat>) returns (k: int)
    requires AllPositive(ps) && |cofactors| == |ps|
    requires forall i :: 0 <= i < |ps| ==> m == ps[i] * cofactors[i]
    ensures m == LcmAll(ps) * k
    ensures m > 0 ==> LcmAll(ps) <= m
  {
    LcmAllPositive(ps);
    if |ps| == 0 {
      k := m;
    } else {
      var n := |ps| - 1;
      LcmAllPositive(ps[..n]);
      var j := LcmAllIsLeast(ps[..n], m, cofactors[..n]);
      if j < 0 {
        MulAtLeast(LcmAll(ps[..n]), j);
      }
      k := LcmDividesMultiples(LcmAll(ps[..n]), ps[n], m, j, cofactors[n]);
    }
    MulAtLeast(LcmAll(ps), k);
  }
}
