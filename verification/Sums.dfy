/** Finite sums over sequences: plain totals, totals of one key ("per asset"),
    and totals weighted by a vector indexed by key. */
module Sums {

  function Sum(xs: seq<int>): int {
    if |xs| == 0 then 0 else Sum(xs[..|xs| - 1]) + xs[|xs| - 1]
  }

  /** The total of those xs[i] whose key is a. */
  function Tally(keys: seq<nat>, xs: seq<int>, a: nat): int
    requires |keys| == |xs|
  {
    if |xs| == 0 then 0
    else
      var n := |xs| - 1;
      Tally(keys[..n], xs[..n], a) + if keys[n] == a then xs[n] else 0
  }

  /** The total of xs[i] weighted by w at the i-th key. */
  ghost function Dot(keys: seq<nat>, xs: seq<int>, w: seq<int>): int
    requires |keys| == |xs|
    requires forall i :: 0 <= i < |keys| ==> keys[i] < |w|
  {
    if |xs| == 0 then 0
    else
      var n := |xs| - 1;
      Dot(keys[..n], xs[..n], w) + xs[n] * w[keys[n]]
  }

  lemma {:induction false} SumSnoc(xs: seq<int>, x: int)
    ensures Sum(xs + [x]) == Sum(xs) + x
  {
    assert (xs + [x])[..|xs|] == xs;
  }

  lemma {:induction false} SumTake(xs: seq<int>, i: nat)
    requires i < |xs|
    ensures Sum(xs[..i + 1]) == Sum(xs[..i]) + xs[i]
  {
    assert xs[..i + 1][..i] == xs[..i];
  }

  lemma {:induction false} SumUpdate(xs: seq<int>, i: nat, v: int)
    requires i < |xs|
    ensures Sum(xs[i := v]) == Sum(xs) + v - xs[i]
  {
    var n := |xs| - 1;
    if i == n {
      assert xs[i := v][..n] == xs[..n];
    } else {
      SumUpdate(xs[..n], i, v);
      assert xs[i := v][..n] == xs[..n][i := v];
    }
  }

  lemma {:induction false} SumConcat(xs: seq<int>, ys: seq<int>)
    ensures Sum(xs + ys) == Sum(xs) + Sum(ys)
  {
    if |ys| == 0 {
      assert xs + ys == xs;
    } else {
      var n := |ys| - 1;
      SumConcat(xs, ys[..n]);
      assert (xs + ys)[..|xs| + n] == xs + ys[..n];
    }
  }

  lemma {:induction false} SumNonNegative(xs: seq<int>)
    requires forall i :: 0 <= i < |xs| ==> xs[i] >= 0
    ensures Sum(xs) >= 0
    ensures forall i :: 0 <= i < |xs| ==> xs[i] <= Sum(xs)
  {
    if |xs| > 0 {
      SumNonNegative(xs[..|xs| - 1]);
    }
  }

  lemma {:induction false} SumScale(xs: seq<int>, ys: seq<int>, c: int)
    requires |xs| == |ys|
    requires forall i :: 0 <= i < |xs| ==> ys[i] == c * xs[i]
    ensures Sum(ys) == c * Sum(xs)
  {
    if |xs| > 0 {
      var n := |xs| - 1;
      SumScale(xs[..n], ys[..n], c);
      assert c * (Sum(xs[..n]) + xs[n]) == c * Sum(xs[..n]) + c * xs[n];
    }
  }

  /** Sums add up position by position. */
  lemma {:induction false} SumAdd(xs: seq<int>, ys: seq<int>, zs: seq<int>)
    requires |xs| == |ys| == |zs|
    requires forall i :: 0 <= i < |xs| ==> zs[i] == xs[i] + ys[i]
    ensures Sum(zs) == Sum(xs) + Sum(ys)
  {
    if |xs| > 0 {
      var n := |xs| - 1;
      SumAdd(xs[..n], ys[..n], zs[..n]);
    }
  }

  lemma {:induction false} TallyTake(keys: seq<nat>, xs: seq<int>, i: nat, a: nat)
    requires |keys| == |xs| && i < |xs|
    ensures Tally(keys[..i + 1], xs[..i + 1], a) ==
            Tally(keys[..i], xs[..i], a) + if keys[i] == a then xs[i] else 0
  {
    assert keys[..i + 1][..i] == keys[..i] && xs[..i + 1][..i] == xs[..i];
  }

  lemma {:induction false} TallyUpdate(keys: seq<nat>, xs: seq<int>, i: nat, v: int, a: nat)
    requires |keys| == |xs| && i < |xs|
    ensures Tally(keys, xs[i := v], a) == Tally(keys, xs, a) + if keys[i] == a then v - xs[i] else 0
  {
    var n := |xs| - 1;
    if i == n {
      assert xs[i := v][..n] == xs[..n];
    } else {
      TallyUpdate(keys[..n], xs[..n], i, v, a);
      assert xs[i := v][..n] == xs[..n][i := v];
    }
  }

  lemma {:induction false} TallyScale(keys: seq<nat>, xs: seq<int>, ys: seq<int>, a: nat, c: int)
    requires |keys| == |xs| == |ys|
    requires forall i :: 0 <= i < |xs| && keys[i] == a ==> ys[i] == c * xs[i]
    ensures Tally(keys, ys, a) == c * Tally(keys, xs, a)
  {
    if |xs| > 0 {
      var n := |xs| - 1;
      TallyScale(keys[..n], xs[..n], ys[..n], a, c);
    }
  }

  lemma {:induction false} TallyAdd(keys: seq<nat>, xs: seq<int>, ys: seq<int>, zs: seq<int>, a: nat)
    requires |keys| == |xs| == |ys| == |zs|
    requires forall i :: 0 <= i < |xs| ==> zs[i] == xs[i] + ys[i]
    ensures Tally(keys, zs, a) == Tally(keys, xs, a) + Tally(keys, ys, a)
  {
    if |xs| > 0 {
      var n := |xs| - 1;
      TallyAdd(keys[..n], xs[..n], ys[..n], zs[..n], a);
    }
  }

  lemma {:induction false} TallyNonNegative(keys: seq<nat>, xs: seq<int>, a: nat)
    requires |keys| == |xs|
    requires forall i :: 0 <= i < |xs| ==> xs[i] >= 0
    ensures Tally(keys, xs, a) >= 0
    ensures forall i :: 0 <= i < |xs| && keys[i] == a ==> xs[i] <= Tally(keys, xs, a)
  {
    if |xs| > 0 {
      var n := |xs| - 1;
      TallyNonNegative(keys[..n], xs[..n], a);
    }
  }

  lemma {:induction false} TallyBounded(keys: seq<nat>, xs: seq<int>, a: nat, bound: nat)
    requires |keys| == |xs|
    requires forall i :: 0 <= i < |xs| ==> xs[i] <= bound
    ensures Tally(keys, xs, a) <= |xs| * bound
  {
    if |xs| > 0 {
      var n := |xs| - 1;
      TallyBounded(keys[..n], xs[..n], a, bound);
    }
  }

  /** Grouping by key: a weighted total is the weighted total of the tallies. */
  ghost function ByKey(keys: seq<nat>, xs: seq<int>, w: seq<int>, m: nat): int
    requires |keys| == |xs| && m <= |w|
  {
    if m == 0 then 0 else ByKey(keys, xs, w, m - 1) + Tally(keys, xs, m - 1) * w[m - 1]
  }

  lemma {:induction false} ByKeySnoc(keys: seq<nat>, xs: seq<int>, w: seq<int>, m: nat)
    requires |keys| == |xs| && m <= |w| && |xs| > 0
    ensures var n := |xs| - 1;
            ByKey(keys, xs, w, m) ==
            ByKey(keys[..n], xs[..n], w, m) + if keys[n] < m then xs[n] * w[keys[n]] else 0
  {
    if m > 0 {
      ByKeySnoc(keys, xs, w, m - 1);
      var n := |xs| - 1;
      var t := Tally(keys[..n], xs[..n], m - 1);
      if keys[n] == m - 1 {
        assert (t + xs[n]) * w[m - 1] == t * w[m - 1] + xs[n] * w[m - 1];
      }
    }
  }

  lemma {:induction false} ByKeyEmpty(w: seq<int>, m: nat)
    requires m <= |w|
    ensures ByKey([], [], w, m) == 0
  {
    if m > 0 {
      ByKeyEmpty(w, m - 1);
    }
  }

  lemma {:induction false} DotByKey(keys: seq<nat>, xs: seq<int>, w: seq<int>)
    requires |keys| == |xs|
    requires forall i :: 0 <= i < |keys| ==> keys[i] < |w|
    ensures Dot(keys, xs, w) == ByKey(keys, xs, w, |w|)
  {
    if |xs| == 0 {
      ByKeyEmpty(w, |w|);
    } else {
      var n := |xs| - 1;
      DotByKey(keys[..n], xs[..n], w);
      ByKeySnoc(keys, xs, w, |w|);
    }
  }

  lemma {:induction false} ByKeyEqual(k1: seq<nat>, k2: seq<nat>, xs: seq<int>, w: seq<int>, m: nat)
    requires |k1| == |xs| == |k2| && m <= |w|
    requires forall a :: 0 <= a < m ==> Tally(k1, xs, a) == Tally(k2, xs, a)
    ensures ByKey(k1, xs, w, m) == ByKey(k2, xs, w, m)
  {
    if m > 0 {
      ByKeyEqual(k1, k2, xs, w, m - 1);
    }
  }

  /** If every key receives as much through k1 as through k2, any weighting agrees. */
  lemma {:induction false} DotBalanced(k1: seq<nat>, k2: seq<nat>, xs: seq<int>, w: seq<int>)
    requires |k1| == |xs| == |k2|
    requires forall i :: 0 <= i < |k1| ==> k1[i] < |w| && k2[i] < |w|
    requires forall a :: 0 <= a < |w| ==> Tally(k1, xs, a) == Tally(k2, xs, a)
    ensures Dot(k1, xs, w) == Dot(k2, xs, w)
  {
    DotByKey(k1, xs, w);
    DotByKey(k2, xs, w);
    ByKeyEqual(k1, k2, xs, w, |w|);
  }
}
