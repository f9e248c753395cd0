/** Sums do not depend on the order in which their terms are submitted. */
module Permutations {
  import opened Sums

  /** p lists every index below |p| exactly once. */
  ghost predicate IsPermutation(p: seq<nat>) {
    && (forall k :: 0 <= k < |p| ==> p[k] < |p|)
    && (forall j, k :: 0 <= j < k < |p| ==> p[j] != p[k])
  }

  ghost predicate Permutes<T(!new)>(p: seq<nat>, xs: seq<T>, ys: seq<T>) {
    && |p| == |xs| == |ys| && IsPermutation(p)
    && forall k :: 0 <= k < |p| ==> ys[k] == xs[p[k]]
  }

  ghost function Without<T>(xs: seq<T>, i: nat): seq<T>
    requires i < |xs|
  {
    xs[..i] + xs[i + 1..]
  }

  lemma SumWithout(xs: seq<int>, i: nat)
    requires i < |xs|
    ensures Sum(xs) == Sum(Without(xs, i)) + xs[i]
  {
    hide Sum;
    assert xs == xs[..i + 1] + xs[i + 1..];
    SumConcat(xs[..i], xs[i + 1..]);
    SumConcat(xs[..i + 1], xs[i + 1..]);
    SumTake(xs, i);
  }

  /** Dropping the last target leaves a permutation of the remaining ones. */
  ghost function Shrink(p: seq<nat>): (q: seq<nat>)
    requires |p| > 0 && IsPermutation(p)
    ensures |q| == |p| - 1
  {
    var last := p[|p| - 1];
    seq(|p| - 1, k requires 0 <= k < |p| - 1 => if p[k] > last then (p[k] - 1) as nat else p[k])
  }

  lemma ShrinkPermutes(p: seq<nat>, xs: seq<int>, ys: seq<int>)
    requires |p| > 0 && Permutes(p, xs, ys)
    ensures Permutes(Shrink(p), Without(xs, p[|p| - 1]), ys[..|p| - 1])
  {
  }

  lemma {:induction false} SumPermuted(p: seq<nat>, xs: seq<int>, ys: seq<int>)
    requires Permutes(p, xs, ys)
    ensures Sum(ys) == Sum(xs)
    decreases |p|
  {
    if |p| > 0 {
      var n := |p| - 1;
      ShrinkPermutes(p, xs, ys);
      SumPermuted(Shrink(p), Without(xs, p[n]), ys[..n]);
      SumWithout(xs, p[n]);
    }
  }

  ghost function Masked(keys: seq<nat>, xs: seq<int>, a: nat): (ms: seq<int>)
    requires |keys| == |xs|
    ensures |ms| == |xs|
  {
    seq(|xs|, i requires 0 <= i < |xs| => if keys[i] == a then xs[i] else 0)
  }

  lemma {:induction false} TallyIsMaskedSum(keys: seq<nat>, xs: seq<int>, a: nat)
    requires |keys| == |xs|
    ensures Tally(keys, xs, a) == Sum(Masked(keys, xs, a))
  {
    if |xs| > 0 {
      var n := |xs| - 1;
      TallyIsMaskedSum(keys[..n], xs[..n], a);
      assert Masked(keys, xs, a)[..n] == Masked(keys[..n], xs[..n], a);
    }
  }
}
