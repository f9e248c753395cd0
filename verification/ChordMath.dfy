/** Fixed-point facts about the fee-adjusted constant product
    F(x) = a x / (b + f x) with a = y f and b = r 10^6: its floor in Q32, its tangent
    from above and its chords from below, all by cross-multiplication. */
module ChordMath {
  import opened Base
  import opened Products
  import opened Curves
  import opened Venues

  /** A pool's fixed parameters: 0 < r, 0 < y and 0 < f <= 10^6. */
  datatype Pool = Pool(r: nat, y: nat, f: nat) {
    ghost predicate Valid() {
      0 < r <= MAX_ATOMS && 0 < y <= MAX_ATOMS && 0 < f <= PPM
    }

    function A(): nat { y * f }

    function B(): nat { r * PPM }

    function N(x: nat): nat { A() * x }

    function D(x: nat): nat { B() + f * x }
  }

  lemma Positive(p: Pool, x: nat)
    requires p.Valid()
    ensures p.A() > 0 && p.B() > 0 && p.D(x) >= p.B() > 0
  {
    assert p.f * x >= 0;
    MulPos(p.y, p.f);
  }

  // ---------------------------------------------------------------- floors

  /** The two-step floor of n 2^32 / d avoids the oversized product. */
  function SplitFloor(n: nat, d: nat): nat
    requires d > 0
  {
    (n / d) * SCALE + (n % d) * SCALE / d
  }

  lemma SplitFloorBounds(n: nat, d: nat)
    requires d > 0
    ensures SplitFloor(n, d) * d <= n * SCALE < (SplitFloor(n, d) + 1) * d
  {
    var q, m := n / d, n % d;
    var h := m * SCALE / d;
    FloorBounds(m * SCALE, d);
    assert n == d * q + m;
    assert n * SCALE == (q * SCALE) * d + m * SCALE by {
      assert (d * q + m) * SCALE == (d * q) * SCALE + m * SCALE;
      assert (d * q) * SCALE == (q * SCALE) * d;
    }
    assert (q * SCALE + h) * d == (q * SCALE) * d + h * d;
    assert (q * SCALE + h + 1) * d == (q * SCALE) * d + (h + 1) * d;
  }

  /** `cp_fp`: F(x) in Q32, rounded down. */
  function CpFp(p: Pool, x: nat): nat
    requires p.Valid()
  {
    Positive(p, x);
    SplitFloor(p.N(x), p.D(x))
  }

  /** `derivative_upper`: F'(x) in Q32, rounded up twice. */
  function DerivativeUpper(p: Pool, x: nat): nat
    requires p.Valid()
  {
    Positive(p, x);
    CeilDiv(CeilDiv(p.A() * SCALE, p.D(x)) * p.B(), p.D(x))
  }

  lemma CpFpBounds(p: Pool, x: nat)
    requires p.Valid()
    ensures CpFp(p, x) * p.D(x) <= p.N(x) * SCALE < (CpFp(p, x) + 1) * p.D(x)
  {
    Positive(p, x);
    SplitFloorBounds(p.N(x), p.D(x));
  }

  /** The tangent bound dominates a b / D^2. */
  lemma DerivativeBound(p: Pool, x: nat)
    requires p.Valid()
    ensures p.A() * SCALE * p.B() <= DerivativeUpper(p, x) * p.D(x) * p.D(x)
  {
    hide *;
    DerivativeSteps(p, x);
    TwiceRounded(p.A() * SCALE, p.B(), p.D(x), CeilDiv(p.A() * SCALE, p.D(x)), DerivativeUpper(p, x));
  }

  /** Each of the two roundings adds less than one unit. */
  lemma DerivativeTight(p: Pool, x: nat)
    requires p.Valid() && DerivativeUpper(p, x) > 0
    ensures (DerivativeUpper(p, x) - 1) * p.D(x) * p.D(x) < (p.A() * SCALE + p.D(x)) * p.B()
  {
    hide CeilDiv, Pool.A, Pool.B, Pool.D;
    Positive(p, x);
    var n, b, d := p.A() * SCALE, p.B(), p.D(x);
    var first := CeilDiv(n, d);
    assert DerivativeUpper(p, x) == CeilDiv(first * b, d);
    CeilTight(n, d);
    CeilTight(first * b, d);
    MonoStrict((DerivativeUpper(p, x) - 1) * d, first * b, d);
    Shuffle(first, b, d);
    Mono(first * d, n + d, b);
  }

  lemma CeilTight(n: nat, d: nat)
    requires d > 0
    ensures CeilDiv(n, d) * d < n + d && (CeilDiv(n, d) > 0 ==> (CeilDiv(n, d) - 1) * d < n)
  {
    var q := CeilDiv(n, d);
    if q > 0 {
      Distribute(q - 1, 1, d);
    }
  }

  /** Each of the two ceilings covers its dividend. */
  lemma DerivativeSteps(p: Pool, x: nat)
    requires p.Valid()
    ensures p.D(x) > 0
    ensures var first := CeilDiv(p.A() * SCALE, p.D(x));
            p.A() * SCALE <= first * p.D(x) && first * p.B() <= DerivativeUpper(p, x) * p.D(x)
  {
    hide CeilDiv, Pool.A, Pool.B, Pool.D;
    Positive(p, x);
  }

  lemma TwiceRounded(a: nat, b: nat, d: nat, first: nat, t: nat)
    requires a <= first * d && first * b <= t * d
    ensures a * b <= t * d * d
  {
    Mono(a, first * d, b);
    Mono(first * b, t * d, d);
    Shuffle(first, d, b);
  }

  // ---------------------------------------------------------------- the curve itself

  /** F(x) - F(w) = a b (x - w) / (D(x) D(w)), cross-multiplied. */
  lemma Difference(p: Pool, w: nat, t: nat)
    ensures p.N(w + t) * p.D(w) == p.N(w) * p.D(w + t) + p.A() * p.B() * t
  {
    var a, b, f := p.A(), p.B(), p.f;
    var x := w + t;
    assert a * x * (b + f * w) == a * w * (b + f * x) + a * b * t by {
      assert a * x * (b + f * w) == a * x * b + a * x * (f * w);
      assert a * w * (b + f * x) == a * w * b + a * w * (f * x);
      assert a * x * (f * w) == a * w * (f * x);
      assert a * x * b == a * w * b + a * t * b;
    }
  }

  lemma DGrows(p: Pool, w: nat, t: nat)
    ensures p.D(w) <= p.D(w + t)
  {
    Mono(w, w + t, p.f);
  }

  // ---------------------------------------------------------------- upper bound

  lemma NetBelow(r: nat, y: nat, net: nat, fx: nat)
    requires net * PPM <= fx
    ensures y * net * (r * PPM + fx) <= y * fx * (r + net)
  {
    Mono(net * PPM, fx, y * r);
    assert y * net * (r * PPM) == (y * r) * (net * PPM);
    assert y * fx * r == (y * r) * fx;
    Shuffle(y, net, fx);
    assert y * net * (r * PPM + fx) == y * net * (r * PPM) + y * net * fx;
    assert y * fx * (r + net) == y * fx * r + y * fx * net;
  }

  lemma QuotientBelow(e: nat, s: nat, n: nat, d: nat, top: nat)
    requires s > 0 && e * s <= n && n * d <= top * s
    ensures e * d <= top
  {
    Mono(e * s, n, d);
    Shuffle(e, s, d);
    Cancel(e * d, top, s);
  }

  lemma Shape(p: Pool, x: nat)
    ensures p.N(x) == p.y * (p.f * x) && p.D(x) == p.r * PPM + p.f * x
  {
  }

  /** Exact output never exceeds the continuous curve. */
  lemma ExactBelowCurve(p: Pool, x: nat, net: nat)
    requires p.Valid() && net * PPM <= p.f * x
    ensures PoolOutput(p.r, p.y, net) * p.D(x) <= p.N(x)
  {
    var e, s := PoolOutput(p.r, p.y, net), p.r + net;
    PoolOutputBounded(p.r, p.y, net);
    Shape(p, x);
    hide PoolOutput, Pool.N, Pool.D;
    NetBelow(p.r, p.y, net, p.f * x);
    QuotientBelow(e, s, p.y * net, p.r * PPM + p.f * x, p.y * (p.f * x));
  }

  lemma TangentAlgebra(x: nat, w: nat, d: nat, dx: nat, k: nat, v: nat, tau: nat, t: nat)
    requires 0 < d <= dx
    requires x * d == w * dx + k * t && w < v * d && k <= tau * d * d
    ensures x < (v + tau * t) * dx
  {
    MonoStrict(w, v * d, dx);
    Shuffle(v, d, dx);
    Mono(k, tau * d * d, t);
    Mono(d, dx, tau * t * d);
    TangentOrder(tau, t, d, dx);
    AddOut(v, tau * t, dx);
    AddOut(v * dx, tau * t * dx, d);
    Cancel(x, (v + tau * t) * dx, d);
  }

  lemma TangentOrder(tau: nat, t: nat, d: nat, dx: nat)
    ensures tau * d * d * t == tau * t * d * d
    ensures tau * t * d * dx == tau * t * dx * d
  {
    Shuffle(tau * d, d, t);
    Shuffle(tau, d, t);
    Shuffle(tau * t, d, dx);
  }

  lemma AddOut(p: nat, q: nat, r: nat)
    ensures (p + q) * r == p * r + q * r
  {
  }

  /** The tangent through the rounded value at w, t atoms further on. */
  function TangentAt(p: Pool, w: nat, t: nat): nat
    requires p.Valid()
  {
    CpFp(p, w) + 1 + DerivativeUpper(p, w) * t
  }

  /** From a point w on, the tangent at w lies above the curve, in Q32. */
  lemma TangentAbove(p: Pool, w: nat, t: nat)
    requires p.Valid()
    ensures p.N(w + t) * SCALE < TangentAt(p, w, t) * p.D(w + t)
  {
    var x, v, d, dx, tau := w + t, CpFp(p, w), p.D(w), p.D(w + t), DerivativeUpper(p, w);
    Positive(p, w);
    CpFpBounds(p, w);
    DerivativeBound(p, w);
    DGrows(p, w, t);
    Difference(p, w, t);
    assert TangentAt(p, w, t) == v + 1 + tau * t;
    hide *;
    TangentSplit(p.N(x), p.N(w), d, dx, p.A(), p.B(), t);
    TangentAlgebra(p.N(x) * SCALE, p.N(w) * SCALE, d, dx, p.A() * SCALE * p.B(), v + 1, tau, t);
  }

  lemma TangentSplit(nx: nat, nw: nat, d: nat, dx: nat, a: nat, b: nat, t: nat)
    requires nx * d == nw * dx + a * b * t
    ensures (nx * SCALE) * d == (nw * SCALE) * dx + (a * SCALE * b) * t
  {
    Shuffle(nx, SCALE, d);
    Shuffle(nw, SCALE, dx);
    Shuffle(a, SCALE, b);
    Shuffle(a * b, SCALE, t);
  }

  // ---------------------------------------------------------------- lower bound

  lemma ChordCancel(e: nat, g: nat, width: nat, dx: nat, top: nat, dd: nat)
    requires width > 0 && dd > 0 && width * g <= e && e * dx * dd <= width * top * dd
    ensures g * dx <= top
  {
    Cancel(e * dx, width * top, dd);
    Mono(width * g, e, dx);
    Shuffle(width, g, dx);
    assert width * g * dx == (g * dx) * width && width * top == top * width;
    Cancel(g * dx, top, width);
  }

  /** A chord between two rounded values lies below the curve, in Q32. */
  lemma ChordBelow(p: Pool, w: nat, t: nat, width: nat, g: nat)
    requires p.Valid() && t <= width && width > 0
    requires width * g <= (width - t) * CpFp(p, w) + t * CpFp(p, w + width)
    ensures g * p.D(w + t) <= p.N(w + t) * SCALE
  {
    var x, b := w + t, w + width;
    var va, vb := CpFp(p, w), CpFp(p, b);
    var da, db, dx := p.D(w), p.D(b), p.D(x);
    Positive(p, w);
    Positive(p, b);
    CpFpBounds(p, w);
    CpFpBounds(p, b);
    Difference(p, w, t);
    Difference(p, w, width);
    DGrows(p, x, width - t);
    hide *;
    ChordAlgebra(p.N(w), p.N(b), p.N(x), da, db, dx, p.A() * p.B(), t, width);
    ChordScale(va, vb, p.N(w), p.N(b), p.N(x), da, db, dx, t, width);
    MulPos(da, db);
    ChordCancel((width - t) * va + t * vb, g, width, dx, p.N(x) * SCALE, da * db);
  }

  /** Both ends of the chord carry m, the right end `rise` more and the curve in
      between `gain` more. */
  lemma Weigh(m: nat, right: nat, mid: nat, rise: nat, gain: nat, t: nat, width: nat)
    requires t <= width && right == m + rise && mid == m + gain && t * rise <= width * gain
    ensures (width - t) * m + t * right <= width * mid
  {
    Distribute(m, rise, t);
    Distribute(m, gain, width);
    Distribute(width - t, t, m);
  }

  lemma ScaleSum(x: nat, y: nat, z: nat, c: nat)
    requires x == y + z
    ensures x * c == y * c + z * c
  {
    Distribute(y, z, c);
  }

  lemma SlopeTerms(ab: nat, t: nat, width: nat, dx: nat, db: nat)
    requires dx <= db
    ensures t * ((ab * width) * dx) <= width * ((ab * t) * db)
  {
    var k := t * ab * width;
    assert t * ((ab * width) * dx) == k * dx;
    assert width * ((ab * t) * db) == k * db;
    Mono(dx, db, k);
  }

  /** Concavity: the weighted end values stay below the value in between. */
  lemma ChordAlgebra(na: nat, nb: nat, nx: nat, da: nat, db: nat, dx: nat, ab: nat, t: nat, width: nat)
    requires t <= width && dx <= db
    requires nx * da == na * dx + ab * t && nb * da == na * db + ab * width
    ensures (width - t) * (na * db * dx) + t * (nb * da * dx) <= width * (nx * da * db)
  {
    ScaleSum(nb * da, na * db, ab * width, dx);
    ScaleSum(nx * da, na * dx, ab * t, db);
    Shuffle(na, dx, db);
    SlopeTerms(ab, t, width, dx, db);
    Weigh(na * db * dx, nb * da * dx, nx * da * db, (ab * width) * dx, (ab * t) * db, t, width);
  }

  lemma Regroup(u: nat, v: nat, dx: nat, own: nat, other: nat)
    ensures (u * v) * dx * (own * other) == (v * own) * (u * other * dx)
  {
    calc {
      (u * v) * dx * (own * other);
      { assert (u * v) * dx == v * (u * dx); }
      v * (u * dx) * (own * other);
      { Shuffle(v, u * dx, own * other); }
      v * (own * other) * (u * dx);
      { assert v * (own * other) == v * own * other; }
      (v * own) * other * (u * dx);
      { assert (v * own) * other * (u * dx) == (v * own) * (other * (u * dx)); }
      (v * own) * (other * (u * dx));
      { assert other * (u * dx) == u * other * dx; }
      (v * own) * (u * other * dx);
    }
  }

  lemma Regroup2(n: nat, u: nat, other: nat, dx: nat)
    ensures n * (u * other * dx) == u * (n * other * dx)
  {
    assert u * other * dx == u * (other * dx);
    assert n * other * dx == n * (other * dx);
    assert n * (u * (other * dx)) == u * (n * (other * dx));
  }

  lemma TermScale(v: nat, n: nat, own: nat, other: nat, dx: nat, u: nat)
    requires v * own <= n * SCALE
    ensures (u * v) * dx * (own * other) <= (u * (n * other * dx)) * SCALE
  {
    var rest := u * other * dx;
    Mono(v * own, n * SCALE, rest);
    Regroup(u, v, dx, own, other);
    Shuffle(n, SCALE, rest);
    Regroup2(n, u, other, dx);
  }

  /** The same with rounded values: v d <= N S at both ends. */
  lemma ChordScale(
    va: nat, vb: nat, na: nat, nb: nat, nx: nat, da: nat, db: nat, dx: nat, t: nat, width: nat)
    requires t <= width
    requires va * da <= na * SCALE && vb * db <= nb * SCALE
    requires (width - t) * (na * db * dx) + t * (nb * da * dx) <= width * (nx * da * db)
    ensures ((width - t) * va + t * vb) * dx * (da * db) <= width * (nx * SCALE) * (da * db)
  {
    var u := width - t;
    TermScale(va, na, da, db, dx, u);
    TermScale(vb, nb, db, da, dx, t);
    var l1, l2 := (u * va) * dx, (t * vb) * dx;
    AddOut(u * va, t * vb, dx);
    AddOut(l1, l2, da * db);
    assert db * da == da * db;
    var r1, r2 := u * (na * db * dx), t * (nb * da * dx);
    AddOut(r1, r2, SCALE);
    Mono(r1 + r2, width * (nx * da * db), SCALE);
    assert (width * (nx * da * db)) * SCALE == width * (nx * SCALE) * (da * db) by {
      assert nx * da * db == nx * (da * db);
      assert width * (nx * (da * db)) == width * nx * (da * db);
      Shuffle(width * nx, da * db, SCALE);
      assert width * (nx * SCALE) == width * nx * SCALE;
    }
  }

  lemma PoolParts(p: Pool)
    requires p.Valid()
    ensures p.r > 0 && p.y > 0
  {
  }

  /** Flooring the net input and the output together loses less than
      1 + ceil(y / r) atoms against the continuous curve. */
  lemma ExactAboveCurve(p: Pool, x: nat, net: nat)
    requires p.Valid() && p.f * x < (net + 1) * PPM
    ensures p.N(x) < (PoolOutput(p.r, p.y, net) + 1 + CeilDiv(p.y, p.r)) * p.D(x)
  {
    hide *;
    PoolParts(p);
    var e, c, s := PoolOutput(p.r, p.y, net), CeilDiv(p.y, p.r), p.r + net;
    PoolOutputBounded(p.r, p.y, net);
    Shape(p, x);
    Mono(p.r, s, c);
    AddOut(e + 1, c, s);
    assert p.y * (net + 1) == p.y * net + p.y;
    assert (e + 1 + c) * (s + 1) == (e + 1 + c) * s + (e + 1 + c);
    EndGame(p.r, p.y, net + 1, p.f * x, e + 1 + c);
  }

  lemma EndGame(r: nat, y: nat, m: nat, fx: nat, bound: nat)
    requires r > 0 && bound > 0 && fx < m * PPM && bound * (r + m) > y * m
    ensures y * fx < bound * (r * PPM + fx)
  {
    assert bound * (r * PPM + fx) == bound * (r * PPM) + bound * fx;
    if y <= bound {
      Mono(y, bound, fx);
      MulPos(bound, r * PPM);
    } else {
      var k := y - bound;
      assert y * fx == bound * fx + k * fx;
      Mono(fx, m * PPM, k);
      assert bound * (r + m) == bound * r + bound * m && y * m == bound * m + k * m;
      assert k * m < bound * r;
      assert k * (m * PPM) == (k * m) * PPM && bound * (r * PPM) == (bound * r) * PPM;
      MonoStrict(k * m, bound * r, PPM);
    }
  }

  // ---------------------------------------------------------------- consequences

  lemma CpFpZero(p: Pool)
    requires p.Valid()
    ensures CpFp(p, 0) == 0
  {
    Positive(p, 0);
    assert p.N(0) == 0;
    assert (0 as nat) / p.D(0) == 0 && (0 as nat) % p.D(0) == 0;
  }

  /** More input never rounds to less output. */
  lemma CpFpMonotone(p: Pool, w: nat, t: nat)
    requires p.Valid()
    ensures CpFp(p, w) <= CpFp(p, w + t)
  {
    hide *;
    var x := w + t;
    Positive(p, w);
    Positive(p, x);
    CpFpBounds(p, w);
    CpFpBounds(p, x);
    Difference(p, w, t);
    Mono(0, p.A() * p.B(), t);
    MonotoneFloor(CpFp(p, w), CpFp(p, x), p.N(w), p.N(x), p.D(w), p.D(x));
  }

  lemma MonotoneFloor(v: nat, vx: nat, n: nat, nx: nat, d: nat, dx: nat)
    requires d > 0 && dx > 0 && n * dx <= nx * d
    requires v * d <= n * SCALE && nx * SCALE < (vx + 1) * dx
    ensures v <= vx
  {
    Mono(v * d, n * SCALE, dx);
    Mono(n * dx, nx * d, SCALE);
    MonoStrict(nx * SCALE, (vx + 1) * dx, d);
    Shuffle(n, SCALE, dx);
    Shuffle(nx, SCALE, d);
    Shuffle(v, d, dx);
    Shuffle(vx + 1, dx, d);
    assert v * dx * d < (vx + 1) * dx * d;
    Cancel(v * dx, (vx + 1) * dx, d);
    Cancel(v, vx + 1, dx);
  }

  /** No chord is steeper than the tangent bound at its left end. */
  lemma ChordBelowTangent(p: Pool, w: nat, width: nat)
    requires p.Valid()
    ensures CpFp(p, w + width) <= CpFp(p, w) + DerivativeUpper(p, w) * width
  {
    TangentAbove(p, w, width);
    CpFpBounds(p, w + width);
    Positive(p, w + width);
    assert TangentAt(p, w, width) == CpFp(p, w) + 1 + DerivativeUpper(p, w) * width;
    hide *;
    Cancel(CpFp(p, w + width), TangentAt(p, w, width), p.D(w + width));
  }

  lemma CeilDivMonotone(n: nat, d: nat, n': nat, d': nat)
    requires n <= n' && 0 < d' <= d
    ensures CeilDiv(n, d) <= CeilDiv(n', d')
  {
    var q, q' := CeilDiv(n, d), CeilDiv(n', d');
    Mono(d', d, q');
    if q > 0 {
      Cancel(q - 1, q', d);
    }
  }

  /** The tangent bound only falls. */
  lemma DerivativeFalls(p: Pool, x: nat)
    requires p.Valid()
    ensures DerivativeUpper(p, x) <= DerivativeUpper(p, 0)
  {
    Positive(p, 0);
    Positive(p, x);
    DGrows(p, 0, x);
    var first, first0 := CeilDiv(p.A() * SCALE, p.D(x)), CeilDiv(p.A() * SCALE, p.D(0));
    CeilDivMonotone(p.A() * SCALE, p.D(x), p.A() * SCALE, p.D(0));
    Mono(first, first0, p.B());
    CeilDivMonotone(first * p.B(), p.D(x), first0 * p.B(), p.D(0));
  }

  // ---------------------------------------------------------------- 128 bits

  /** Within the domain bounds no intermediate of `cp_fp` or `derivative_upper`
      leaves 128 bits, and values stay below y in Q32. */
  lemma Fits128(p: Pool, x: nat)
    requires p.Valid() && x <= MAX_ATOMS
    ensures p.N(x) <= U128_MAX && p.D(x) * SCALE <= U128_MAX
    ensures CpFp(p, x) <= MAX_ATOMS * SCALE
    ensures p.A() * SCALE <= U128_MAX
    ensures CeilDiv(p.A() * SCALE, p.D(x)) * p.B() <= U128_MAX
  {
    Positive(p, x);
    assert p.A() <= MAX_ATOMS * PPM by {
      Mono(p.y, MAX_ATOMS, p.f);
      Mono(p.f, PPM, MAX_ATOMS);
    }
    Mono(p.A(), MAX_ATOMS * PPM, x);
    Mono(x, MAX_ATOMS, MAX_ATOMS * PPM);
    assert p.D(x) <= 2 * MAX_ATOMS * PPM by {
      Mono(p.r, MAX_ATOMS, PPM);
      Mono(p.f, PPM, x);
      Mono(x, MAX_ATOMS, PPM);
    }
    ValueBelowReserve(p, x);
    FirstFits(p.A() * SCALE, p.D(x), p.B());
  }

  lemma ValueBelowReserve(p: Pool, x: nat)
    requires p.Valid()
    ensures CpFp(p, x) <= p.y * SCALE
  {
    Positive(p, x);
    CpFpBounds(p, x);
    Shape(p, x);
    hide CpFp;
    Mono(p.f * x, p.D(x), p.y);
    Mono(p.N(x), p.y * p.D(x), SCALE);
    Shuffle(p.y, p.D(x), SCALE);
    Cancel(CpFp(p, x), p.y * SCALE, p.D(x));
  }

  lemma FirstFits(a: nat, d: nat, b: nat)
    requires 0 < b <= d
    ensures CeilDiv(a, d) * b <= a + b
  {
    var q := CeilDiv(a, d);
    if q > 0 {
      Mono(b, d, q - 1);
      assert q * b == (q - 1) * b + b;
    }
  }
}
