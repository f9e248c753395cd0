/** Continuous price-time matching over economic exposure. */
module OneBook {
  import opened Base
  import opened Products

  const MAX_BOOK_ORDERS: nat := 16
  const MAX_CLAIMS: nat := 8
  const MAX_MATCHES: nat := 32
  const BPS: nat := 10_000

  datatype Side = Buy | Sell

  datatype Order = Order(
    owner: Key, nonce: u64, instrument: Key, side: Side, exposure: u64, limitPrice: u64, claims: seq<Key>,
    deliveredClaim: Key, maxConversionBps: nat, expiresAtSlot: u64, arrival: u64)

  datatype Fill = Fill(buyer: nat, seller: nat, claim: Key, exposure: nat, price: nat)

  datatype MatchReport = MatchReport(fills: seq<Fill>, filled: seq<nat>, residual: seq<nat>)

  // ---------------------------------------------------------------- validation

  function OrderFault(o: Order, slot: nat): Option<Error> {
    if o.owner == 0 || o.instrument == 0 || o.exposure == 0 || o.exposure > MAX_ATOMS || o.limitPrice == 0
       || |o.claims| == 0 || |o.claims| > MAX_CLAIMS || o.maxConversionBps > BPS || o.expiresAtSlot < slot
    then Some(InvalidAmount)
    else if exists i :: 0 <= i < |o.claims| && (o.claims[i] == 0 || o.claims[i] in o.claims[..i]) then Some(Duplicate)
    else if o.side.Buy? && o.deliveredClaim != 0 then Some(Identity)
    else if o.side.Sell? && (o.deliveredClaim == 0 || o.deliveredClaim !in o.claims) then Some(Identity)
    else None
  }

  function BookFault(orders: seq<Order>, slot: nat, n: nat): Option<Error>
    requires n <= |orders|
  {
    if n == 0 then None
    else if BookFault(orders, slot, n - 1).Some? then BookFault(orders, slot, n - 1)
    else
      var o := orders[n - 1];
      if OrderFault(o, slot).Some? then OrderFault(o, slot)
      else if exists j :: 0 <= j < n - 1 && orders[j].owner == o.owner && orders[j].nonce == o.nonce then Some(Duplicate)
      else if orders[0].instrument != o.instrument then Some(Identity)
      else None
  }

  lemma {:induction false} BookFaultSticks(orders: seq<Order>, slot: nat, i: nat, n: nat)
    requires i <= n <= |orders| && BookFault(orders, slot, i).Some?
    ensures BookFault(orders, slot, n) == BookFault(orders, slot, i)
  {
    if i < n {
      BookFaultSticks(orders, slot, i, n - 1);
    }
  }

  lemma {:induction false} BookFaultNone(orders: seq<Order>, slot: nat, n: nat, i: nat)
    requires i < n <= |orders| && BookFault(orders, slot, n).None?
    ensures OrderFault(orders[i], slot).None?
  {
    if i < n - 1 {
      BookFaultNone(orders, slot, n - 1, i);
    }
  }

  /** An order that can be matched at this slot. */
  ghost predicate SoundOrder(o: Order, slot: nat) {
    && o.owner != 0 && o.instrument != 0 && 0 < o.exposure <= MAX_ATOMS && o.limitPrice > 0
    && 0 < |o.claims| <= MAX_CLAIMS && o.maxConversionBps <= 10_000 && slot <= o.expiresAtSlot
    && (forall i :: 0 <= i < |o.claims| ==> o.claims[i] != 0)
    && (forall i, j :: 0 <= i < j < |o.claims| ==> o.claims[i] != o.claims[j])
    && if o.side.Buy? then o.deliveredClaim == 0 else o.deliveredClaim in o.claims
  }

  lemma OrderAccepted(o: Order, slot: nat)
    ensures OrderFault(o, slot).None? <==> SoundOrder(o, slot)
  {
    if forall i :: 0 <= i < |o.claims| ==> o.claims[i] != 0 && o.claims[i] !in o.claims[..i] {
      forall i, j | 0 <= i < j < |o.claims|
        ensures o.claims[i] != o.claims[j]
      {
        assert o.claims[j] !in o.claims[..j];
        assert o.claims[..j][i] == o.claims[i];
      }
    }
  }

  /** A book is accepted exactly when all its orders are sound, for one instrument, and
      no two share owner and nonce. */
  lemma {:induction false} BookAccepted(orders: seq<Order>, slot: nat, n: nat)
    requires n <= |orders|
    ensures BookFault(orders, slot, n).None? <==>
              && (forall i :: 0 <= i < n ==> SoundOrder(orders[i], slot) && orders[i].instrument == orders[0].instrument)
              && forall i, j :: 0 <= i < j < n ==> orders[i].owner != orders[j].owner || orders[i].nonce != orders[j].nonce
  {
    hide OrderFault, SoundOrder;
    if n > 0 {
      BookAccepted(orders, slot, n - 1);
      OrderAccepted(orders[n - 1], slot);
    }
  }

  method CheckBook(orders: seq<Order>, slot: nat) returns (fault: Option<Error>)
    ensures fault == BookFault(orders, slot, |orders|)
  {
    for i := 0 to |orders|
      invariant BookFault(orders, slot, i).None?
    {
      var o := orders[i];
      fault := OrderFault(o, slot);
      if fault.None? && exists j :: 0 <= j < i && orders[j].owner == o.owner && orders[j].nonce == o.nonce {
        fault := Some(Duplicate);
      }
      if fault.None? && orders[0].instrument != o.instrument {
        fault := Some(Identity);
      }
      if fault.Some? {
        BookFaultSticks(orders, slot, i + 1, |orders|);
        return;
      }
    }
    fault := None;
  }

  // ---------------------------------------------------------------- crossing

  /** The ask, marked up by the buyer's tolerated conversion, is within the bid, and
      the buyer accepts the claim the seller delivers. */
  predicate Crosses(buyer: Order, seller: Order) {
    && seller.deliveredClaim in buyer.claims
    && seller.limitPrice * (BPS + buyer.maxConversionBps) <= buyer.limitPrice * BPS
  }

  /** The 128-bit products of `crosses` cannot overflow. */
  lemma CrossesFits(buyer: Order, seller: Order)
    requires buyer.maxConversionBps <= BPS
    ensures seller.limitPrice * (BPS + buyer.maxConversionBps) <= U128_MAX && buyer.limitPrice * BPS <= U128_MAX
  {
    Mono(seller.limitPrice, U64_MAX, BPS + buyer.maxConversionBps);
    Mono(BPS + buyer.maxConversionBps, 2 * BPS, U64_MAX);
    Mono(buyer.limitPrice, U64_MAX, BPS);
  }

  /** `crosses`: neither of its checked products can overflow. */
  method CheckCross(buyer: Order, seller: Order) returns (r: Result<bool>)
    requires buyer.maxConversionBps <= BPS
    ensures r == Ok(Crosses(buyer, seller))
  {
    CrossesFits(buyer, seller);
    var ask := seller.limitPrice * (BPS + buyer.maxConversionBps);
    if ask > U128_MAX {
      return Err(Arithmetic);
    }
    if seller.deliveredClaim !in buyer.claims {
      return Ok(false);
    }
    var bid := buyer.limitPrice * BPS;
    if bid > U128_MAX {
      return Err(Arithmetic);
    }
    return Ok(ask <= bid);
  }

  // ---------------------------------------------------------------- priority

  /** Best bid first, then its arrival, the best ask, its arrival, and the indices. */
  predicate Before(orders: seq<Order>, b: nat, s: nat, b': nat, s': nat)
    requires b < |orders| && s < |orders| && b' < |orders| && s' < |orders|
  {
    var x, y, x', y' := orders[b], orders[s], orders[b'], orders[s'];
    if x.limitPrice != x'.limitPrice then x.limitPrice > x'.limitPrice
    else if x.arrival != x'.arrival then x.arrival < x'.arrival
    else if y.limitPrice != y'.limitPrice then y.limitPrice < y'.limitPrice
    else if y.arrival != y'.arrival then y.arrival < y'.arrival
    else if b != b' then b < b'
    else s < s'
  }

  predicate Candidate(orders: seq<Order>, residual: seq<nat>, b: nat, s: nat)
    requires |residual| == |orders|
  {
    && b < |orders| && s < |orders|
    && orders[b].side.Buy? && residual[b] > 0 && orders[s].side.Sell? && residual[s] > 0
    && Crosses(orders[b], orders[s])
  }

  /** The pair the engine must fill next. */
  ghost predicate IsBest(orders: seq<Order>, residual: seq<nat>, b: nat, s: nat)
    requires |residual| == |orders|
  {
    && Candidate(orders, residual, b, s)
    && forall b': nat, s': nat :: Candidate(orders, residual, b', s') ==> (b' == b && s' == s) || Before(orders, b, s, b', s')
  }

  /** Pairs already compared: whole buyers before b, and sellers before s of buyer b. */
  predicate Seen(b: nat, s: nat, b': nat, s': nat) {
    b' < b || (b' == b && s' < s)
  }

  ghost predicate BestSoFar(orders: seq<Order>, residual: seq<nat>, b: nat, s: nat, best: Option<(nat, nat)>)
    requires |residual| == |orders|
  {
    && (best.None? ==> forall b': nat, s': nat :: Seen(b, s, b', s') ==> !Candidate(orders, residual, b', s'))
    && (best.Some? ==>
          && Candidate(orders, residual, best.value.0, best.value.1)
          && forall b': nat, s': nat :: Seen(b, s, b', s') && Candidate(orders, residual, b', s') ==>
               (b' == best.value.0 && s' == best.value.1) || Before(orders, best.value.0, best.value.1, b', s'))
  }

  lemma BestSkip(orders: seq<Order>, residual: seq<nat>, b: nat, s: nat, best: Option<(nat, nat)>)
    requires |residual| == |orders| && BestSoFar(orders, residual, b, s, best)
    requires !Candidate(orders, residual, b, s)
    ensures BestSoFar(orders, residual, b, s + 1, best)
  {
    hide Candidate, Before;
  }

  lemma BeforeTotal(orders: seq<Order>, b: nat, s: nat, b': nat, s': nat)
    requires b < |orders| && s < |orders| && b' < |orders| && s' < |orders|
    ensures Before(orders, b, s, b', s') || (b == b' && s == s') || Before(orders, b', s', b, s)
  {
  }

  lemma BestKeep(orders: seq<Order>, residual: seq<nat>, b: nat, s: nat, best: (nat, nat))
    requires |residual| == |orders| && BestSoFar(orders, residual, b, s, Some(best))
    requires Candidate(orders, residual, b, s) && b < |orders| && s < |orders| && best.0 < |orders| && best.1 < |orders|
    requires !Before(orders, b, s, best.0, best.1)
    ensures BestSoFar(orders, residual, b, s + 1, Some(best))
  {
    hide Candidate, Before;
    BeforeTotal(orders, b, s, best.0, best.1);
  }

  lemma BestReplace(orders: seq<Order>, residual: seq<nat>, b: nat, s: nat, best: Option<(nat, nat)>)
    requires |residual| == |orders| && BestSoFar(orders, residual, b, s, best)
    requires Candidate(orders, residual, b, s)
    requires best.Some? ==> best.value.0 < |orders| && best.value.1 < |orders| && Before(orders, b, s, best.value.0, best.value.1)
    ensures BestSoFar(orders, residual, b, s + 1, Some((b, s)))
  {
    forall b': nat, s': nat | Seen(b, s, b', s') && Candidate(orders, residual, b', s')
      ensures Before(orders, b, s, b', s')
    {
      if best.Some? && (b' != best.value.0 || s' != best.value.1) {
        BeforeTransitive(orders, b, s, best.value.0, best.value.1, b', s');
      }
    }
    hide Candidate, Before;
  }

  lemma BeforeTransitive(orders: seq<Order>, a: nat, b: nat, c: nat, d: nat, e: nat, f: nat)
    requires a < |orders| && b < |orders| && c < |orders| && d < |orders| && e < |orders| && f < |orders|
    requires Before(orders, a, b, c, d) && Before(orders, c, d, e, f)
    ensures Before(orders, a, b, e, f)
  {
  }

  lemma NextBuyer(orders: seq<Order>, residual: seq<nat>, b: nat, s: nat, best: Option<(nat, nat)>)
    requires |residual| == |orders| && BestSoFar(orders, residual, b, s, best)
    requires s >= |orders| || b >= |orders| || !orders[b].side.Buy? || residual[b] == 0
    ensures BestSoFar(orders, residual, b + 1, 0, best)
  {
    hide Before, Crosses;
  }

  /** The double scan for the best pair. */
  method FindBest(orders: seq<Order>, residual: array<nat>, meter: WorkMeter)
    returns (ok: bool, best: Option<(nat, nat)>)
    requires residual.Length == |orders| && forall i :: 0 <= i < |orders| ==> orders[i].maxConversionBps <= BPS
    modifies meter`used
    ensures old(meter.Within()) ==> meter.Within()
    ensures old(meter.used) <= meter.used <= old(meter.used) + |orders| * |orders|
    ensures !ok ==> old(meter.used) + |orders| * |orders| > meter.limit
    ensures ok && best.Some? ==> IsBest(orders, residual[..], best.value.0, best.value.1)
    ensures ok && best.None? ==> forall b: nat, s: nat :: !Candidate(orders, residual[..], b, s)
  {
    ghost var left := residual[..];
    best := None;
    assert BestSoFar(orders, left, 0, 0, None);
    hide BestSoFar, Before, Crosses;
    for b := 0 to |orders|
      invariant BestSoFar(orders, left, b, 0, best) && residual[..] == left
      invariant old(meter.Within()) ==> meter.Within()
      invariant old(meter.used) <= meter.used <= old(meter.used) + b * |orders|
    {
      OneMoreRound(b, |orders|, |orders|);
      ghost var row := meter.used;
      assert residual[b] == left[b];
      if !orders[b].side.Buy? || residual[b] == 0 {
        NextBuyer(orders, left, b, 0, best);
        continue;
      }
      for s := 0 to |orders|
        invariant BestSoFar(orders, left, b, s, best) && residual[..] == left
        invariant old(meter.Within()) ==> meter.Within()
        invariant meter.used == row + s
      {
        ok := meter.Charge(1);
        if !ok {
          return;
        }
        assert residual[s] == left[s];
        var crossing := Ok(false);
        if orders[s].side.Sell? && residual[s] > 0 {
          crossing := CheckCross(orders[b], orders[s]);
        }
        if !crossing.value {
          BestSkip(orders, left, b, s, best);
          continue;
        }
        BestIsPair(orders, left, b, s, best);
        if best.None? || Before(orders, b, s, best.value.0, best.value.1) {
          BestReplace(orders, left, b, s, best);
          best := Some((b, s));
        } else {
          BestKeep(orders, left, b, s, best.value);
        }
      }
      NextBuyer(orders, left, b, |orders|, best);
    }
    ok := true;
    AllSeen(orders, left, best);
  }

  lemma BestIsPair(orders: seq<Order>, residual: seq<nat>, b: nat, s: nat, best: Option<(nat, nat)>)
    requires |residual| == |orders| && BestSoFar(orders, residual, b, s, best)
    ensures best.Some? ==> best.value.0 < |orders| && best.value.1 < |orders|
  {
  }

  lemma AllSeen(orders: seq<Order>, residual: seq<nat>, best: Option<(nat, nat)>)
    requires |residual| == |orders| && BestSoFar(orders, residual, |orders|, 0, best)
    ensures best.Some? ==> IsBest(orders, residual, best.value.0, best.value.1)
    ensures best.None? ==> forall b: nat, s: nat :: !Candidate(orders, residual, b, s)
  {
    hide Before, Crosses;
    forall b: nat, s: nat | Candidate(orders, residual, b, s)
      ensures Seen(|orders|, 0, b, s)
    {
    }
  }

  // ---------------------------------------------------------------- the ledger of fills

  /** What the fills give order i. */
  function FilledOf(fills: seq<Fill>, i: nat): nat {
    if |fills| == 0 then 0
    else
      var f := fills[|fills| - 1];
      FilledOf(fills[..|fills| - 1], i) + (if f.buyer == i then f.exposure else 0) + (if f.seller == i then f.exposure else 0)
  }

  /** A fill within both limits, on a claim the buyer accepts. */
  ghost predicate Honoured(orders: seq<Order>, f: Fill) {
    && f.buyer < |orders| && f.seller < |orders|
    && orders[f.buyer].side.Buy? && orders[f.seller].side.Sell?
    && f.exposure > 0 && f.price == orders[f.seller].limitPrice && f.claim == orders[f.seller].deliveredClaim
    && f.claim in orders[f.buyer].claims
    && f.price * (BPS + orders[f.buyer].maxConversionBps) <= orders[f.buyer].limitPrice * BPS
  }

  function Exhausted(residual: seq<nat>): nat {
    if |residual| == 0 then 0
    else Exhausted(residual[..|residual| - 1]) + if residual[|residual| - 1] == 0 then 1 else 0
  }

  lemma {:induction false} ExhaustedBound(residual: seq<nat>)
    ensures Exhausted(residual) <= |residual|
  {
    if |residual| > 0 {
      ExhaustedBound(residual[..|residual| - 1]);
    }
  }

  lemma {:induction false} ExhaustedGrows(a: seq<nat>, b: seq<nat>)
    requires |a| == |b| && forall i :: 0 <= i < |a| ==> a[i] == 0 ==> b[i] == 0
    ensures Exhausted(a) <= Exhausted(b)
    ensures (exists i :: 0 <= i < |a| && a[i] > 0 && b[i] == 0) ==> Exhausted(a) < Exhausted(b)
  {
    if |a| > 0 {
      var n := |a| - 1;
      ExhaustedGrows(a[..n], b[..n]);
      if i :| 0 <= i < |a| && a[i] > 0 && b[i] == 0 {
        if i < n {
          assert a[..n][i] > 0 && b[..n][i] == 0;
        }
      }
    }
  }

  /** The state of the matching loop. */
  ghost predicate Matching(orders: seq<Order>, fills: seq<Fill>, filled: seq<nat>, residual: seq<nat>) {
    && |filled| == |residual| == |orders|
    && (forall i :: 0 <= i < |orders| ==> filled[i] == FilledOf(fills, i) && filled[i] + residual[i] == orders[i].exposure)
    && (forall k :: 0 <= k < |fills| ==> Honoured(orders, fills[k]))
    && (forall k :: 0 < k < |fills| ==> InOrder(orders, fills[k - 1], fills[k]))
    && |fills| <= Exhausted(residual)
  }

  /** What order i still wants after some fills. */
  function LeftOf(o: Order, fills: seq<Fill>, i: nat): nat {
    SaturatingSub(o.exposure, FilledOf(fills, i))
  }

  function Left(orders: seq<Order>, fills: seq<Fill>): (left: seq<nat>)
    ensures |left| == |orders|
  {
    seq(|orders|, i requires 0 <= i < |orders| => LeftOf(orders[i], fills, i))
  }

  /** The k-th fill is the best pair of what the earlier fills left, filled as far as
      the smaller side goes. */
  ghost predicate ChosenAt(orders: seq<Order>, fills: seq<Fill>, k: nat)
    requires k < |fills|
  {
    var f, left := fills[k], Left(orders, fills[..k]);
    IsBest(orders, left, f.buyer, f.seller) && f == FillOf(orders, left, f.buyer, f.seller)
  }

  ghost predicate AllChosen(orders: seq<Order>, fills: seq<Fill>) {
    forall k: nat :: k < |fills| ==> ChosenAt(orders, fills, k)
  }

  lemma LeftIsResidual(orders: seq<Order>, fills: seq<Fill>, filled: seq<nat>, residual: seq<nat>)
    requires Matching(orders, fills, filled, residual)
    ensures |residual| == |orders| && Left(orders, fills) == residual
  {
    hide Honoured, InOrder, FilledOf, Exhausted;
  }

  lemma NextChosen(orders: seq<Order>, fills: seq<Fill>, filled: seq<nat>, residual: seq<nat>, b: nat, s: nat)
    requires Matching(orders, fills, filled, residual) && IsBest(orders, residual, b, s) && AllChosen(orders, fills)
    ensures b < |residual| == |orders| && s < |residual|
    ensures AllChosen(orders, fills + [FillOf(orders, residual, b, s)])
  {
    hide Honoured, InOrder, FilledOf, Exhausted, Matching, Left, Before, Crosses, Take;
    LeftIsResidual(orders, fills, filled, residual);
    var more := fills + [FillOf(orders, residual, b, s)];
    forall k: nat | k < |more|
      ensures ChosenAt(orders, more, k)
    {
      assert more[..k] == fills[..k];
      if k < |fills| {
        assert ChosenAt(orders, fills, k);
      } else {
        assert more[..k] == fills;
      }
    }
  }

  ghost predicate InOrder(orders: seq<Order>, f: Fill, g: Fill) {
    && f.buyer < |orders| && f.seller < |orders| && g.buyer < |orders| && g.seller < |orders|
    && Before(orders, f.buyer, f.seller, g.buyer, g.seller)
  }

  /** The last fill precedes every pair that can still be filled. */
  ghost predicate Ahead(orders: seq<Order>, fills: seq<Fill>, residual: seq<nat>)
    requires |residual| == |orders|
  {
    |fills| > 0 ==>
      var f := fills[|fills| - 1];
      && f.buyer < |orders| && f.seller < |orders|
      && forall b: nat, s: nat :: Candidate(orders, residual, b, s) ==> Before(orders, f.buyer, f.seller, b, s)
  }

  function Take(residual: seq<nat>, b: nat, s: nat): nat
    requires b < |residual| && s < |residual|
  {
    Min(residual[b], residual[s])
  }

  function FillOf(orders: seq<Order>, residual: seq<nat>, b: nat, s: nat): Fill
    requires b < |residual| == |orders| && s < |residual|
  {
    Fill(b, s, orders[s].deliveredClaim, Take(residual, b, s), orders[s].limitPrice)
  }

  lemma NextAhead(orders: seq<Order>, fills: seq<Fill>, residual: seq<nat>, b: nat, s: nat, after: seq<nat>)
    requires |residual| == |orders| == |after| && IsBest(orders, residual, b, s) && b != s
    requires after == residual[b := residual[b] - Take(residual, b, s)][s := residual[s] - Take(residual, b, s)]
    ensures Ahead(orders, fills + [FillOf(orders, residual, b, s)], after)
  {
    forall b': nat, s': nat | Candidate(orders, after, b', s')
      ensures Before(orders, b, s, b', s')
    {
      assert after[b'] <= residual[b'] && after[s'] <= residual[s'];
      assert Candidate(orders, residual, b', s');
    }
  }

  /** Filling the best pair moves exposure from residual to filled on both sides, in
      strict priority order, and exhausts one of them. */
  lemma NextFill(
    orders: seq<Order>, fills: seq<Fill>, filled: seq<nat>, residual: seq<nat>, b: nat, s: nat,
    filled': seq<nat>, residual': seq<nat>)
    requires Matching(orders, fills, filled, residual) && IsBest(orders, residual, b, s)
    requires Ahead(orders, fills, residual)
    requires |filled'| == |residual'| == |orders|
    requires var t := Take(residual, b, s);
             && residual' == residual[b := residual[b] - t][s := residual[s] - t]
             && filled' == filled[b := filled[b] + t][s := filled[s] + t]
    ensures Matching(orders, fills + [FillOf(orders, residual, b, s)], filled', residual')
    ensures Ahead(orders, fills + [FillOf(orders, residual, b, s)], residual')
  {
    hide Honoured, Before, Ahead, InOrder, Exhausted, FilledOf, Crosses;
    assert b != s;
    NextAhead(orders, fills, residual, b, s, residual');
    var f := FillOf(orders, residual, b, s);
    var more := fills + [f];
    FillHonoured(orders, residual, b, s);
    OneMoreExhausted(residual, residual', b, s);
    FollowsLast(orders, fills, residual, b, s);
    forall i | 0 <= i < |orders|
      ensures filled'[i] == FilledOf(more, i) && filled'[i] + residual'[i] == orders[i].exposure
    {
      FilledMore(fills, f, i);
    }
    forall k | 0 < k < |more|
      ensures InOrder(orders, more[k - 1], more[k])
    {
      if k < |fills| {
        assert InOrder(orders, fills[k - 1], fills[k]);
      }
    }
  }

  lemma FilledMore(fills: seq<Fill>, f: Fill, i: nat)
    ensures FilledOf(fills + [f], i) == FilledOf(fills, i) + (if f.buyer == i then f.exposure else 0)
                                        + (if f.seller == i then f.exposure else 0)
  {
    assert (fills + [f])[..|fills|] == fills;
  }

  lemma FillHonoured(orders: seq<Order>, residual: seq<nat>, b: nat, s: nat)
    requires |residual| == |orders| && Candidate(orders, residual, b, s)
    ensures Honoured(orders, FillOf(orders, residual, b, s))
  {
  }

  lemma OneMoreExhausted(residual: seq<nat>, residual': seq<nat>, b: nat, s: nat)
    requires b < |residual| && s < |residual| && b != s && residual[b] > 0 && residual[s] > 0
    requires var t := Take(residual, b, s); residual' == residual[b := residual[b] - t][s := residual[s] - t]
    ensures Exhausted(residual) < Exhausted(residual')
  {
    ExhaustedGrows(residual, residual');
    assert residual'[b] == 0 || residual'[s] == 0;
  }

  lemma FollowsLast(orders: seq<Order>, fills: seq<Fill>, residual: seq<nat>, b: nat, s: nat)
    requires |residual| == |orders| && Ahead(orders, fills, residual) && Candidate(orders, residual, b, s)
    ensures |fills| > 0 ==> InOrder(orders, fills[|fills| - 1], FillOf(orders, residual, b, s))
  {
    hide Before, Crosses;
  }

  /** The matching loop between two iterations. */
  ghost predicate Midway(orders: seq<Order>, fills: seq<Fill>, filled: seq<nat>, residual: seq<nat>) {
    && Matching(orders, fills, filled, residual)
    && Ahead(orders, fills, residual)
    && AllChosen(orders, fills)
  }

  /** What a finished match guarantees. */
  ghost predicate Matched(orders: seq<Order>, r: MatchReport) {
    && Matching(orders, r.fills, r.filled, r.residual)
    && AllChosen(orders, r.fills)
    && (forall b: nat, s: nat :: !Candidate(orders, r.residual, b, s))
  }

  lemma StartMatching(orders: seq<Order>, filled: seq<nat>, residual: seq<nat>)
    requires |filled| == |residual| == |orders|
    requires forall i :: 0 <= i < |orders| ==> filled[i] == 0 && residual[i] == orders[i].exposure
    ensures Midway(orders, [], filled, residual)
  {
  }

  /** Filling the best pair; neither the match limit nor the 64-bit additions can fail. */
  method FillPair(orders: seq<Order>, fills: seq<Fill>, filled: array<nat>, residual: array<nat>, b: nat, s: nat)
    returns (r: Result<Fill>)
    requires |orders| <= MAX_BOOK_ORDERS && filled != residual
    requires Midway(orders, fills, filled[..], residual[..]) && IsBest(orders, residual[..], b, s)
    modifies filled, residual
    ensures r.Ok? && |fills| < |orders|
    ensures Midway(orders, fills + [r.value], filled[..], residual[..])
  {
    hide BookFault, IsBest, Matching, Ahead, AllChosen, Before, Candidate, Left, Honoured;
    ghost var f0, r0 := filled[..], residual[..];
    PairFits(orders, fills, f0, r0, b, s);
    var exposure := Min(residual[b], residual[s]);
    FillsBounded(orders, fills, f0, r0);
    if |fills| >= MAX_MATCHES {
      return Err(Error.Bounds);
    }
    var next := Fill(b, s, orders[s].deliveredClaim, exposure, orders[s].limitPrice);
    residual[b] := residual[b] - exposure;
    residual[s] := residual[s] - exposure;
    if filled[b] + exposure > U64_MAX || filled[s] + exposure > U64_MAX {
      return Err(Arithmetic);
    }
    filled[b] := filled[b] + exposure;
    filled[s] := filled[s] + exposure;
    assert residual[..] == r0[b := r0[b] - exposure][s := r0[s] - exposure];
    assert filled[..] == f0[b := f0[b] + exposure][s := f0[s] + exposure];
    NextFill(orders, fills, f0, r0, b, s, filled[..], residual[..]);
    NextChosen(orders, fills, f0, r0, b, s);
    FillsBounded(orders, fills + [next], filled[..], residual[..]);
    r := Ok(next);
  }

  /** What a match may cost: at most one scan per order, and the last one. */
  function MatchWork(orders: nat): nat {
    (orders + 1) * (orders * orders)
  }

  lemma BookConversions(orders: seq<Order>, slot: nat)
    requires BookFault(orders, slot, |orders|).None?
    ensures forall i :: 0 <= i < |orders| ==> orders[i].maxConversionBps <= BPS
  {
    forall i | 0 <= i < |orders|
      ensures orders[i].maxConversionBps <= BPS
    {
      BookFaultNone(orders, slot, |orders|, i);
    }
  }

  /** `match_continuous`: the book's faults in order, the work limit, or a complete match. */
  method MatchContinuous(orders: seq<Order>, slot: nat, meter: WorkMeter) returns (r: Result<MatchReport>)
    modifies meter`used
    ensures old(meter.Within()) ==> meter.Within()
    ensures |orders| < 2 || |orders| > MAX_BOOK_ORDERS ==> r == Err(Error.Bounds)
    ensures 2 <= |orders| <= MAX_BOOK_ORDERS && BookFault(orders, slot, |orders|).Some? ==>
              r == Err(BookFault(orders, slot, |orders|).value)
    ensures 2 <= |orders| <= MAX_BOOK_ORDERS && BookFault(orders, slot, |orders|).None? ==>
              if r.Ok? then Matched(orders, r.value)
              else r.error.WorkLimit? && old(meter.used) + MatchWork(|orders|) > meter.limit
    ensures old(meter.used) <= meter.used <= old(meter.used) + MatchWork(|orders|)
  {
    hide BookFault, IsBest, Matching, Ahead, AllChosen, Before, Candidate;
    ghost var n := |orders|;
    Mono(0, n + 1, n * n);
    if |orders| < 2 || |orders| > MAX_BOOK_ORDERS {
      return Err(Error.Bounds);
    }
    var fault := CheckBook(orders, slot);
    if fault.Some? {
      return Err(fault.value);
    }
    BookConversions(orders, slot);
    var residual := new nat[|orders|](i requires 0 <= i < |orders| => orders[i].exposure);
    var filled := new nat[|orders|](_ => 0);
    var fills: seq<Fill> := [];
    StartMatching(orders, filled[..], residual[..]);
    while true
      invariant Midway(orders, fills, filled[..], residual[..]) && |fills| <= |orders|
      invariant old(meter.Within()) ==> meter.Within()
      invariant old(meter.used) <= meter.used <= old(meter.used) + |fills| * (n * n)
      decreases |orders| - |fills|
    {
      OneMoreRound(|fills|, n + 1, n * n);
      var ok, best := FindBest(orders, residual, meter);
      if !ok {
        return Err(WorkLimit);
      }
      if best.None? {
        break;
      }
      var next := FillPair(orders, fills, filled, residual, best.value.0, best.value.1);
      if next.Err? {
        assert false;
      }
      fills := fills + [next.value];
    }
    return Ok(MatchReport(fills, filled[..], residual[..]));
  }

  lemma PairFits(orders: seq<Order>, fills: seq<Fill>, filled: seq<nat>, residual: seq<nat>, b: nat, s: nat)
    requires Matching(orders, fills, filled, residual) && IsBest(orders, residual, b, s)
    ensures b < |orders| && s < |orders| && b != s && |filled| == |residual| == |orders|
    ensures filled[b] + Take(residual, b, s) <= U64_MAX && filled[s] + Take(residual, b, s) <= U64_MAX
  {
    hide Honoured, InOrder, FilledOf, Exhausted, Before, Crosses;
    assert filled[b] + residual[b] == orders[b].exposure && filled[s] + residual[s] == orders[s].exposure;
  }

  lemma FillsBounded(orders: seq<Order>, fills: seq<Fill>, filled: seq<nat>, residual: seq<nat>)
    requires Matching(orders, fills, filled, residual)
    ensures |fills| <= |orders|
  {
    ExhaustedBound(residual);
  }

  /** Fills never go backwards in priority: any earlier fill comes before any later one. */
  lemma {:induction false} FillsInPriority(orders: seq<Order>, r: MatchReport, i: nat, k: nat)
    requires Matched(orders, r) && i < k < |r.fills|
    ensures InOrder(orders, r.fills[i], r.fills[k])
    decreases k
  {
    hide Honoured, Candidate, FilledOf, Exhausted;
    assert InOrder(orders, r.fills[k - 1], r.fills[k]);
    if i < k - 1 {
      FillsInPriority(orders, r, i, k - 1);
      var f, g, h := r.fills[i], r.fills[k - 1], r.fills[k];
      BeforeTransitive(orders, f.buyer, f.seller, g.buyer, g.seller, h.buyer, h.seller);
    }
  }

  /** Bids never rise from one fill to a later one, and equal bids come in order of
      arrival; the sellers of one buyer come by ask and arrival. */
  lemma PricesInOrder(orders: seq<Order>, r: MatchReport, i: nat, k: nat)
    requires Matched(orders, r) && i < k < |r.fills|
    ensures r.fills[i].buyer < |orders| && r.fills[i].seller < |orders|
    ensures r.fills[k].buyer < |orders| && r.fills[k].seller < |orders|
    ensures var b, b' := orders[r.fills[i].buyer], orders[r.fills[k].buyer];
            b.limitPrice >= b'.limitPrice && (b.limitPrice == b'.limitPrice ==> b.arrival <= b'.arrival)
    ensures r.fills[i].buyer == r.fills[k].buyer ==>
              var s, s' := orders[r.fills[i].seller], orders[r.fills[k].seller];
              s.limitPrice <= s'.limitPrice && (s.limitPrice == s'.limitPrice ==> s.arrival <= s'.arrival)
  {
    FillsInPriority(orders, r, i, k);
    hide Matched;
  }

  lemma {:induction false} FilledGrows(fills: seq<Fill>, k: nat, n: nat, i: nat)
    requires k <= n <= |fills|
    ensures FilledOf(fills[..k], i) <= FilledOf(fills[..n], i)
  {
    if k < n {
      FilledGrows(fills, k, n - 1, i);
      FilledMore(fills[..n - 1], fills[n - 1], i);
      assert fills[..n] == fills[..n - 1] + [fills[n - 1]];
    }
  }

  /** Whenever a pair is filled, every other pair that could have been filled at that
      moment comes later: a lower bid, or the same bid and a later arrival of the buyer,
      or then a higher ask, or then a later arrival of the seller, or then a later
      position in the book. */
  lemma PassedOver(orders: seq<Order>, r: MatchReport, k: nat, b: nat, s: nat)
    requires Matched(orders, r) && k < |r.fills| && b < |orders| && s < |orders|
    requires orders[b].side.Buy? && FilledOf(r.fills[..k], b) < orders[b].exposure
    requires orders[s].side.Sell? && FilledOf(r.fills[..k], s) < orders[s].exposure
    requires orders[s].deliveredClaim in orders[b].claims
    requires orders[s].limitPrice * (10_000 + orders[b].maxConversionBps) <= orders[b].limitPrice * 10_000
    ensures r.fills[k].buyer < |orders| && r.fills[k].seller < |orders|
    ensures var f, buyer, seller := r.fills[k], orders[r.fills[k].buyer], orders[r.fills[k].seller];
            buyer.limitPrice > orders[b].limitPrice || (buyer.limitPrice == orders[b].limitPrice &&
              (buyer.arrival < orders[b].arrival || (buyer.arrival == orders[b].arrival &&
                (seller.limitPrice < orders[s].limitPrice || (seller.limitPrice == orders[s].limitPrice &&
                  (seller.arrival < orders[s].arrival || (seller.arrival == orders[s].arrival &&
                    (f.buyer < b || (f.buyer == b && f.seller <= s)))))))))
  {
    hide Matching, FilledOf;
    assert ChosenAt(orders, r.fills, k);
    var left := Left(orders, r.fills[..k]);
    assert Candidate(orders, left, b, s);
  }

  lemma LeftInEnd(orders: seq<Order>, r: MatchReport, k: nat, i: nat)
    requires Matched(orders, r) && k <= |r.fills| && i < |orders|
    ensures |r.residual| == |orders|
    ensures r.residual[i] > 0 ==> FilledOf(r.fills[..k], i) < orders[i].exposure
    ensures k < |r.fills| ==>
              && r.fills[k].buyer < |orders| && r.fills[k].seller < |orders|
              && FilledOf(r.fills[..k], r.fills[k].buyer) < orders[r.fills[k].buyer].exposure
              && FilledOf(r.fills[..k], r.fills[k].seller) < orders[r.fills[k].seller].exposure
              && orders[r.fills[k].buyer].side.Buy? && orders[r.fills[k].seller].side.Sell?
  {
    hide Honoured, InOrder, Exhausted, Before, Crosses;
    assert r.fills[..|r.fills|] == r.fills;
    FilledGrows(r.fills, k, |r.fills|, i);
    if k < |r.fills| {
      assert ChosenAt(orders, r.fills, k);
      hide FilledOf;
      var f, left := r.fills[k], Left(orders, r.fills[..k]);
      assert left[f.buyer] > 0 && left[f.seller] > 0;
    }
  }

  /** Every fill gives its buyer or its seller all that was still wanted. */
  lemma FillExhausts(orders: seq<Order>, r: MatchReport, k: nat)
    requires Matched(orders, r) && k < |r.fills|
    ensures r.fills[k].buyer < |orders| && r.fills[k].seller < |orders|
    ensures var b, s := r.fills[k].buyer, r.fills[k].seller;
            || FilledOf(r.fills[..k + 1], b) == orders[b].exposure
            || FilledOf(r.fills[..k + 1], s) == orders[s].exposure
  {
    LeftInEnd(orders, r, k, 0);
    var f := r.fills[k];
    assert ChosenAt(orders, r.fills, k);
    assert r.fills[..k + 1] == r.fills[..k] + [f];
    hide Matched, IsBest, FilledOf;
    FilledMore(r.fills[..k], f, f.buyer);
    FilledMore(r.fills[..k], f, f.seller);
  }

  /** Nobody who bids more, or as much and arrived earlier, is left wanting what
      somebody else bought. */
  lemma NoBuyerPassedOver(orders: seq<Order>, r: MatchReport, k: nat, b: nat)
    requires Matched(orders, r) && k < |r.fills| && r.fills[k].seller < |orders|
    requires b < |orders| == |r.residual| && orders[b].side.Buy? && r.residual[b] > 0
    requires orders[r.fills[k].seller].deliveredClaim in orders[b].claims
    requires orders[r.fills[k].seller].limitPrice * (10_000 + orders[b].maxConversionBps) <= orders[b].limitPrice * 10_000
    ensures r.fills[k].buyer < |orders|
    ensures var buyer := orders[r.fills[k].buyer];
            buyer.limitPrice >= orders[b].limitPrice
            && (buyer.limitPrice == orders[b].limitPrice ==> buyer.arrival <= orders[b].arrival)
  {
    hide Matched;
    LeftInEnd(orders, r, k, b);
    PassedOver(orders, r, k, b, r.fills[k].seller);
  }

  /** Nobody who asks less, or as much and arrived earlier, is left with what a buyer
      took from somebody else. */
  lemma NoSellerPassedOver(orders: seq<Order>, r: MatchReport, k: nat, s: nat)
    requires Matched(orders, r) && k < |r.fills| && r.fills[k].buyer < |orders|
    requires s < |orders| == |r.residual| && orders[s].side.Sell? && r.residual[s] > 0
    requires orders[s].deliveredClaim in orders[r.fills[k].buyer].claims
    requires orders[s].limitPrice * (10_000 + orders[r.fills[k].buyer].maxConversionBps)
             <= orders[r.fills[k].buyer].limitPrice * 10_000
    ensures r.fills[k].seller < |orders|
    ensures var seller := orders[r.fills[k].seller];
            seller.limitPrice <= orders[s].limitPrice
            && (seller.limitPrice == orders[s].limitPrice ==> seller.arrival <= orders[s].arrival)
  {
    hide Matched;
    LeftInEnd(orders, r, k, s);
    PassedOver(orders, r, k, r.fills[k].buyer, s);
  }

  /** In the end no buyer and seller are left that could still trade. */
  lemma NothingCrosses(orders: seq<Order>, r: MatchReport, b: nat, s: nat)
    requires Matched(orders, r) && b < |orders| == |r.residual| && s < |orders|
    requires orders[b].side.Buy? && r.residual[b] > 0 && orders[s].side.Sell? && r.residual[s] > 0
    ensures || orders[s].deliveredClaim !in orders[b].claims
            || orders[s].limitPrice * (10_000 + orders[b].maxConversionBps) > orders[b].limitPrice * 10_000
  {
    hide Matching, AllChosen;
    assert !Candidate(orders, r.residual, b, s);
  }

  lemma BestIsUnique(orders: seq<Order>, residual: seq<nat>, b: nat, s: nat, b': nat, s': nat)
    requires |residual| == |orders| && IsBest(orders, residual, b, s) && IsBest(orders, residual, b', s')
    ensures b == b' && s == s'
  {
    hide Crosses;
  }

  lemma {:induction false} PrefixesAgree(orders: seq<Order>, f: seq<Fill>, g: seq<Fill>, k: nat)
    requires AllChosen(orders, f) && AllChosen(orders, g) && k <= |f| && k <= |g|
    ensures f[..k] == g[..k]
  {
    hide IsBest, Left, Take;
    if k > 0 {
      PrefixesAgree(orders, f, g, k - 1);
      assert ChosenAt(orders, f, k - 1) && ChosenAt(orders, g, k - 1);
      BestIsUnique(orders, Left(orders, f[..k - 1]), f[k - 1].buyer, f[k - 1].seller, g[k - 1].buyer, g[k - 1].seller);
      assert f[..k] == f[..k - 1] + [f[k - 1]] && g[..k] == g[..k - 1] + [g[k - 1]];
    }
  }

  lemma NoShorterMatch(orders: seq<Order>, r: MatchReport, g: seq<Fill>)
    requires Matched(orders, r) && AllChosen(orders, g)
    ensures |g| <= |r.fills|
  {
    hide Left, Take, Before, Candidate, Honoured, FilledOf, Exhausted, InOrder;
    var k := |r.fills|;
    if k < |g| {
      PrefixesAgree(orders, r.fills, g, k);
      LeftIsResidual(orders, r.fills, r.filled, r.residual);
      assert g[..k] == r.fills;
      ChosenIsCandidate(orders, g, k);
    }
  }

  lemma ChosenIsCandidate(orders: seq<Order>, g: seq<Fill>, k: nat)
    requires AllChosen(orders, g) && k < |g|
    ensures Candidate(orders, Left(orders, g[..k]), g[k].buyer, g[k].seller)
  {
    assert ChosenAt(orders, g, k);
  }

  /** A finished match is determined by its book: there is exactly one. */
  lemma MatchIsDetermined(orders: seq<Order>, r: MatchReport, q: MatchReport)
    requires Matched(orders, r) && Matched(orders, q)
    ensures r == q
  {
    hide Left, Take, Before, Candidate, Honoured, FilledOf, Exhausted, InOrder, IsBest;
    NoShorterMatch(orders, r, q.fills);
    NoShorterMatch(orders, q, r.fills);
    PrefixesAgree(orders, r.fills, q.fills, |r.fills|);
    assert r.fills[..|r.fills|] == r.fills && q.fills[..|q.fills|] == q.fills;
    LeftIsResidual(orders, r.fills, r.filled, r.residual);
    LeftIsResidual(orders, q.fills, q.filled, q.residual);
    assert r.residual == q.residual;
    assert r.filled == q.filled;
  }

  /** Exposure bought equals exposure sold. */
  lemma {:induction false} BothSidesEqual(fills: seq<Fill>, n: nat)
    requires forall k :: 0 <= k < |fills| ==> fills[k].buyer < n && fills[k].seller < n
    ensures FilledTotal(fills, n) == 2 * Traded(fills)
  {
    if |fills| == 0 {
      NothingFilled(n);
    } else {
      BothSidesEqual(fills[..|fills| - 1], n);
      TotalSnoc(fills, n);
    }
  }

  function Traded(fills: seq<Fill>): nat {
    if |fills| == 0 then 0 else Traded(fills[..|fills| - 1]) + fills[|fills| - 1].exposure
  }

  function FilledTotal(fills: seq<Fill>, n: nat): nat {
    if n == 0 then 0 else FilledTotal(fills, n - 1) + FilledOf(fills, n - 1)
  }

  lemma {:induction false} NothingFilled(n: nat)
    ensures FilledTotal([], n) == 0
  {
    if n > 0 {
      NothingFilled(n - 1);
    }
  }

  lemma {:induction false} TotalSnoc(fills: seq<Fill>, n: nat)
    requires |fills| > 0
    ensures var f := fills[|fills| - 1];
            FilledTotal(fills, n) == FilledTotal(fills[..|fills| - 1], n)
              + (if f.buyer < n then f.exposure else 0) + (if f.seller < n then f.exposure else 0)
  {
    if n > 0 {
      TotalSnoc(fills, n - 1);
    }
  }
}
