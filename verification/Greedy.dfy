/** The greedy merge of several marginal curves, as a list of picks: each pick
    takes the whole next band of the venue whose next rate is highest, the
    lowest venue index on a tie. Both allocators refine this one definition. */
module Greedy {
  import opened Base
  import opened Curves

  /** How many bands of venue i were picked. */
  function Count(picks: seq<nat>, i: nat): nat {
    if |picks| == 0 then 0
    else Count(picks[..|picks| - 1], i) + if picks[|picks| - 1] == i then 1 else 0
  }

  function Counts(picks: seq<nat>, n: nat): (cursor: seq<nat>)
    ensures |cursor| == n
  {
    seq(n, i requires 0 <= i < n => Count(picks, i))
  }

  predicate Open(curves: seq<Curve>, mask: set<nat>, cursor: seq<nat>, i: nat)
    requires |cursor| == |curves|
  {
    i < |curves| && i in mask && cursor[i] < |curves[i].segments|
  }

  function Rate(curves: seq<Curve>, cursor: seq<nat>, i: nat): nat
    requires |cursor| == |curves| && i < |curves| && cursor[i] < |curves[i].segments|
  {
    curves[i].segments[cursor[i]].marginal
  }

  /** The best open venue among the first n, scanning upwards. */
  function Best(curves: seq<Curve>, mask: set<nat>, cursor: seq<nat>, n: nat): (b: Option<nat>)
    requires |cursor| == |curves| && n <= |curves|
    ensures b.Some? ==> b.value < n && Open(curves, mask, cursor, b.value)
    ensures b.None? ==> forall i :: 0 <= i < n ==> !Open(curves, mask, cursor, i)
    ensures b.Some? ==> forall i :: 0 <= i < n && Open(curves, mask, cursor, i) ==>
                          && Rate(curves, cursor, i) <= Rate(curves, cursor, b.value)
                          && (i < b.value ==> Rate(curves, cursor, i) < Rate(curves, cursor, b.value))
  {
    if n == 0 then None
    else
      var b := Best(curves, mask, cursor, n - 1);
      if Open(curves, mask, cursor, n - 1)
         && (b.None? || Rate(curves, cursor, n - 1) > Rate(curves, cursor, b.value))
      then Some(n - 1) else b
  }

  ghost predicate IsPick(curves: seq<Curve>, mask: set<nat>, picks: seq<nat>, k: nat)
    requires k < |picks|
  {
    Best(curves, mask, Counts(picks[..k], |curves|), |curves|) == Some(picks[k])
  }

  /** Every element of the list is the greedy choice at its turn. */
  ghost predicate Picks(curves: seq<Curve>, mask: set<nat>, picks: seq<nat>) {
    forall k :: 0 <= k < |picks| ==> IsPick(curves, mask, picks, k)
  }

  ghost predicate Exhausted(curves: seq<Curve>, mask: set<nat>, picks: seq<nat>) {
    Best(curves, mask, Counts(picks, |curves|), |curves|).None?
  }

  // ---------------------------------------------------------------- lists of picks

  lemma CountSnoc(picks: seq<nat>, p: nat, i: nat)
    ensures Count(picks + [p], i) == Count(picks, i) + if p == i then 1 else 0
  {
    assert (picks + [p])[..|picks|] == picks;
  }

  lemma PicksPrefix(curves: seq<Curve>, mask: set<nat>, picks: seq<nat>, n: nat)
    requires Picks(curves, mask, picks) && n <= |picks|
    ensures Picks(curves, mask, picks[..n])
  {
    hide Best;
    forall k | 0 <= k < n
      ensures IsPick(curves, mask, picks[..n], k)
    {
      assert picks[..n][..k] == picks[..k];
      assert IsPick(curves, mask, picks, k);
    }
  }

  lemma PicksSnoc(curves: seq<Curve>, mask: set<nat>, picks: seq<nat>, p: nat)
    requires Picks(curves, mask, picks)
    requires Best(curves, mask, Counts(picks, |curves|), |curves|) == Some(p)
    ensures Picks(curves, mask, picks + [p])
  {
    hide Best;
    var longer := picks + [p];
    forall k | 0 <= k < |longer|
      ensures IsPick(curves, mask, longer, k)
    {
      assert longer[..k] == picks[..k];
      assert picks[..|picks|] == picks;
      if k < |picks| {
        assert IsPick(curves, mask, picks, k);
      }
    }
  }

  /** Picks stay within the mask and within each venue's bands. */
  lemma {:induction false} PicksInRange(curves: seq<Curve>, mask: set<nat>, picks: seq<nat>)
    requires Picks(curves, mask, picks)
    ensures forall k :: 0 <= k < |picks| ==> picks[k] < |curves| && picks[k] in mask
    ensures forall i :: 0 <= i < |curves| ==> Count(picks, i) <= |curves[i].segments|
    ensures forall i :: i !in mask ==> Count(picks, i) == 0
  {
    if |picks| > 0 {
      var k := |picks| - 1;
      PicksPrefix(curves, mask, picks, k);
      PicksInRange(curves, mask, picks[..k]);
      assert IsPick(curves, mask, picks, k);
    }
  }

  /** The greedy order is unique: of two pick lists, one starts with the other. */
  lemma {:induction false} PicksAgree(curves: seq<Curve>, mask: set<nat>, a: seq<nat>, b: seq<nat>)
    requires Picks(curves, mask, a) && Picks(curves, mask, b) && |a| <= |b|
    ensures a == b[..|a|]
  {
    hide Best;
    if |a| > 0 {
      var k := |a| - 1;
      PicksPrefix(curves, mask, a, k);
      PicksAgree(curves, mask, a[..k], b);
      assert IsPick(curves, mask, a, k) && IsPick(curves, mask, b, k);
      assert a[..k] == b[..k];
      assert b[..k + 1] == b[..k] + [b[k]] && a == a[..k] + [a[k]];
    }
  }

  /** The merge looks only at the venues of the mask. */
  lemma {:induction false} BestCongruent(
    curves: seq<Curve>, curves': seq<Curve>, mask: set<nat>, cursor: seq<nat>, cursor': seq<nat>, n: nat)
    requires |curves| == |curves'| == |cursor| == |cursor'| && n <= |curves|
    requires forall i :: 0 <= i < |curves| && i in mask ==>
               curves[i].segments == curves'[i].segments && cursor[i] == cursor'[i]
    ensures Best(curves, mask, cursor, n) == Best(curves', mask, cursor', n)
  {
    if n > 0 {
      BestCongruent(curves, curves', mask, cursor, cursor', n - 1);
    }
  }

  lemma PicksCongruent(curves: seq<Curve>, curves': seq<Curve>, mask: set<nat>, picks: seq<nat>)
    requires |curves| == |curves'|
    requires forall i :: 0 <= i < |curves| && i in mask ==> curves[i].segments == curves'[i].segments
    requires Picks(curves, mask, picks)
    ensures Picks(curves', mask, picks)
  {
    hide Best;
    forall k | 0 <= k < |picks|
      ensures IsPick(curves', mask, picks, k)
    {
      assert IsPick(curves, mask, picks, k);
      var cursor := Counts(picks[..k], |curves|);
      BestCongruent(curves, curves', mask, cursor, cursor, |curves|);
    }
  }

  // ---------------------------------------------------------------- deleting venues

  /** The picks of the venues in m. */
  function Filter(picks: seq<nat>, m: set<nat>): seq<nat> {
    if |picks| == 0 then []
    else
      var k := |picks| - 1;
      if picks[k] in m then Filter(picks[..k], m) + [picks[k]] else Filter(picks[..k], m)
  }

  lemma {:induction false} FilterCount(picks: seq<nat>, m: set<nat>, i: nat)
    requires i in m
    ensures Count(Filter(picks, m), i) == Count(picks, i)
  {
    if |picks| > 0 {
      var k := |picks| - 1;
      FilterCount(picks[..k], m, i);
      if picks[k] in m {
        CountSnoc(Filter(picks[..k], m), picks[k], i);
      }
    }
  }

  /** If the best venue of the larger mask is in the smaller one, it is best there. */
  lemma BestOfSubset(curves: seq<Curve>, mask: set<nat>, m: set<nat>, cursor: seq<nat>, cursor': seq<nat>)
    requires |cursor| == |cursor'| == |curves| && m <= mask
    requires forall i :: 0 <= i < |curves| && i in m ==> cursor[i] == cursor'[i]
    ensures var b := Best(curves, mask, cursor, |curves|);
            b.Some? && b.value in m ==> Best(curves, m, cursor', |curves|) == b
    ensures Best(curves, mask, cursor, |curves|).None? ==> Best(curves, m, cursor', |curves|).None?
  {
    var b, b' := Best(curves, mask, cursor, |curves|), Best(curves, m, cursor', |curves|);
    if b.Some? && b.value in m {
      assert Open(curves, m, cursor', b.value);
      assert b'.Some?;
      assert Open(curves, mask, cursor, b'.value);
    }
    if b.None? && b'.Some? {
      assert Open(curves, mask, cursor, b'.value);
    }
  }

  /** Deleting venues preserves the greedy order of the others. */
  lemma {:induction false} FilterPicks(curves: seq<Curve>, mask: set<nat>, m: set<nat>, picks: seq<nat>)
    requires Picks(curves, mask, picks) && m <= mask
    ensures Picks(curves, m, Filter(picks, m))
  {
    hide Best;
    if |picks| > 0 {
      var k := |picks| - 1;
      PicksPrefix(curves, mask, picks, k);
      FilterPicks(curves, mask, m, picks[..k]);
      if picks[k] in m {
        var before := Filter(picks[..k], m);
        forall i | 0 <= i < |curves| && i in m
          ensures Counts(picks[..k], |curves|)[i] == Counts(before, |curves|)[i]
        {
          FilterCount(picks[..k], m, i);
        }
        BestOfSubset(curves, mask, m, Counts(picks[..k], |curves|), Counts(before, |curves|));
        assert IsPick(curves, mask, picks, k);
        PicksSnoc(curves, m, before, picks[k]);
      }
    }
  }

  // ---------------------------------------------------------------- ranks

  /** Capacity of the bands picked from venue i. */
  function Filled(curves: seq<Curve>, picks: seq<nat>, i: nat): nat
    requires i < |curves| && Count(picks, i) <= |curves[i].segments|
  {
    CapPrefix(curves[i].segments, Count(picks, i))
  }

  ghost predicate InBounds(curves: seq<Curve>, picks: seq<nat>) {
    forall i :: 0 <= i < |curves| ==> Count(picks, i) <= |curves[i].segments|
  }

  /** Total capacity of the picked bands of the venues in m among the first n. */
  ghost function Rank(curves: seq<Curve>, m: set<nat>, picks: seq<nat>, n: nat): nat
    requires InBounds(curves, picks) && n <= |curves|
  {
    if n == 0 then 0
    else Rank(curves, m, picks, n - 1) + if n - 1 in m then Filled(curves, picks, n - 1) else 0
  }

  lemma {:induction false} RankSame(curves: seq<Curve>, m: set<nat>, picks: seq<nat>, picks': seq<nat>, n: nat)
    requires InBounds(curves, picks) && InBounds(curves, picks') && n <= |curves|
    requires forall i :: 0 <= i < n && i in m ==> Count(picks, i) == Count(picks', i)
    ensures Rank(curves, m, picks, n) == Rank(curves, m, picks', n)
  {
    if n > 0 {
      RankSame(curves, m, picks, picks', n - 1);
    }
  }

  /** One more pick adds the capacity of its band, if its venue counts. */
  lemma {:induction false} RankSnoc(curves: seq<Curve>, m: set<nat>, picks: seq<nat>, p: nat, n: nat)
    requires InBounds(curves, picks) && n <= |curves| && p < |curves|
    requires Count(picks, p) < |curves[p].segments|
    ensures InBounds(curves, picks + [p])
    ensures Rank(curves, m, picks + [p], n) ==
            Rank(curves, m, picks, n)
            + if p < n && p in m then curves[p].segments[Count(picks, p)].inputCapacity else 0
  {
    forall i | 0 <= i < |curves|
      ensures Count(picks + [p], i) <= |curves[i].segments|
    {
      CountSnoc(picks, p, i);
    }
    if n > 0 {
      RankSnoc(curves, m, picks, p, n - 1);
      CountSnoc(picks, p, n - 1);
    }
  }

  lemma {:induction false} RankNone(curves: seq<Curve>, m: set<nat>, n: nat)
    requires n <= |curves|
    ensures InBounds(curves, []) && Rank(curves, m, [], n) == 0
  {
    if n > 0 {
      RankNone(curves, m, n - 1);
    }
  }

  /** The capacity of all venues in m among the first n. */
  function MaskCapacity(curves: seq<Curve>, m: set<nat>, n: nat): nat
    requires n <= |curves|
  {
    if n == 0 then 0
    else MaskCapacity(curves, m, n - 1) + if n - 1 in m then TotalCapacity(curves[n - 1].segments) else 0
  }

  lemma {:induction false} RankAtMost(curves: seq<Curve>, m: set<nat>, picks: seq<nat>, n: nat)
    requires InBounds(curves, picks) && n <= |curves|
    ensures Rank(curves, m, picks, n) <= MaskCapacity(curves, m, n)
  {
    if n > 0 {
      RankAtMost(curves, m, picks, n - 1);
      CapPrefixTotal(curves[n - 1].segments);
      CapPrefixMonotone(curves[n - 1].segments, Count(picks, n - 1), |curves[n - 1].segments|);
    }
  }

  lemma {:induction false} RankWhenExhausted(curves: seq<Curve>, m: set<nat>, picks: seq<nat>, n: nat)
    requires InBounds(curves, picks) && Exhausted(curves, m, picks) && n <= |curves|
    ensures Rank(curves, m, picks, n) == MaskCapacity(curves, m, n)
  {
    if n > 0 {
      RankWhenExhausted(curves, m, picks, n - 1);
      CapPrefixTotal(curves[n - 1].segments);
      assert n - 1 in m ==> !Open(curves, m, Counts(picks, |curves|), n - 1);
    }
  }
}
