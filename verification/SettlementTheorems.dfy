/** Whole-settlement results: what distribution and the final balance check
    promise together, for any number of groups and any submission order. */
module SettlementTheorems {
  import opened Base
  import opened Sums
  import opened Permutations
  import opened ResidualGraph
  import opened Circulation
  import opened Lots
  import opened Fold
  import opened Settlement

  const I128_MAX: int := 0x7FFF_FFFF_FFFF_FFFF_FFFF_FFFF_FFFF_FFFF

  // ---------------------------------------------------------------- the final check

  /** Every order paid in full and at least its minimum received; with the
      external movements, every token nets to zero. */
  ghost predicate Settled(orders: seq<FlowIntent>, debits: seq<nat>, credits: seq<nat>, external: seq<int>) {
    && |debits| == |credits| == |orders| && |external| == MAX_ASSETS
    && KnownAssets(orders)
    && (forall i :: 0 <= i < |orders| ==> debits[i] == orders[i].amount && credits[i] >= orders[i].minOut)
    && forall a :: 0 <= a < MAX_ASSETS ==>
         external[a] + Tally(Sells(orders), debits, a) - Tally(Buys(orders), credits, a) == 0
  }

  /** The net of an asset after the external movement and the first n orders. */
  ghost function NetOf(
    orders: seq<FlowIntent>, debits: seq<nat>, credits: seq<nat>, external: seq<int>, n: nat, a: nat): int
    requires |debits| == |credits| == |orders| && |external| == MAX_ASSETS && n <= |orders| && a < MAX_ASSETS
  {
    external[a] + Tally(Sells(orders)[..n], debits[..n], a) - Tally(Buys(orders)[..n], credits[..n], a)
  }

  ghost predicate Netted(orders: seq<FlowIntent>, debits: seq<nat>, credits: seq<nat>, external: seq<int>, n: nat, net: seq<int>)
    requires |debits| == |credits| == |orders| && |external| == MAX_ASSETS && n <= |orders|
  {
    && |net| == MAX_ASSETS
    && forall a :: 0 <= a < MAX_ASSETS ==> net[a] == NetOf(orders, debits, credits, external, n, a)
  }

  predicate EndpointsOk(o: FlowIntent) {
    o.sell < MAX_ASSETS && o.buy < MAX_ASSETS && o.sell != o.buy
  }

  /** What is wrong with posting order i: its books, its limit, or a net beyond 128 bits. */
  ghost function PostingFault(
    orders: seq<FlowIntent>, debits: seq<nat>, credits: seq<nat>, external: seq<int>, i: nat): Option<Error>
    requires |debits| == |credits| == |orders| && |external| == MAX_ASSETS && i < |orders|
  {
    var o := orders[i];
    if !EndpointsOk(o) || debits[i] != o.amount then Some(BalanceInvariant)
    else if credits[i] < o.minOut then Some(MinOut)
    else if || NetOf(orders, debits, credits, external, i, o.sell) + debits[i] > I128_MAX
            || NetOf(orders, debits, credits, external, i, o.buy) - credits[i] < -I128_MAX - 1 then Some(Arithmetic)
    else None
  }

  /** The first faulty posting decides. */
  ghost function FirstPostingFault(
    orders: seq<FlowIntent>, debits: seq<nat>, credits: seq<nat>, external: seq<int>, n: nat): Option<Error>
    requires |debits| == |credits| == |orders| && |external| == MAX_ASSETS && n <= |orders|
  {
    if n == 0 then None
    else
      var before := FirstPostingFault(orders, debits, credits, external, n - 1);
      if before.Some? then before else PostingFault(orders, debits, credits, external, n - 1)
  }

  lemma {:induction false} FirstPostingSticks(
    orders: seq<FlowIntent>, debits: seq<nat>, credits: seq<nat>, external: seq<int>, i: nat, n: nat)
    requires |debits| == |credits| == |orders| && |external| == MAX_ASSETS && i <= n <= |orders|
    requires FirstPostingFault(orders, debits, credits, external, i).Some?
    ensures FirstPostingFault(orders, debits, credits, external, n) == FirstPostingFault(orders, debits, credits, external, i)
  {
    hide PostingFault;
    if i < n {
      FirstPostingSticks(orders, debits, credits, external, i, n - 1);
    }
  }

  /** What is wrong with the books as a whole. */
  ghost function BooksFault(orders: seq<FlowIntent>, debits: seq<nat>, credits: seq<nat>, external: seq<int>): Option<Error>
    requires |external| == MAX_ASSETS
  {
    if |orders| > MAX_INTENTS || |orders| != |debits| || |orders| != |credits| then Some(Bounds)
    else
      var posting := FirstPostingFault(orders, debits, credits, external, |orders|);
      if posting.Some? then posting
      else if exists a :: 0 <= a < MAX_ASSETS && NetOf(orders, debits, credits, external, |orders|, a) != 0 then
        Some(BalanceInvariant)
      else None
  }

  /** Post one order to the net column. */
  lemma NetOne(
    orders: seq<FlowIntent>, debits: seq<nat>, credits: seq<nat>, external: seq<int>, n: nat, net: seq<int>, net': seq<int>)
    requires |debits| == |credits| == |orders| && |external| == MAX_ASSETS && n < |orders|
    requires Netted(orders, debits, credits, external, n, net)
    requires orders[n].sell < MAX_ASSETS && orders[n].buy < MAX_ASSETS && orders[n].sell != orders[n].buy
    requires net' == net[orders[n].sell := net[orders[n].sell] + debits[n]]
                        [orders[n].buy := net[orders[n].buy] - credits[n]]
    ensures Netted(orders, debits, credits, external, n + 1, net')
  {
    hide Tally;
    forall a: nat | a < MAX_ASSETS
      ensures net'[a] == external[a] + Tally(Sells(orders)[..n + 1], debits[..n + 1], a)
                         - Tally(Buys(orders)[..n + 1], credits[..n + 1], a)
    {
      TallyTake(Sells(orders), debits, n, a);
      TallyTake(Buys(orders), credits, n, a);
    }
  }

  /** If the books balance in the end, no intermediate net can leave 128 bits. */
  lemma BalancedNetFits(
    orders: seq<FlowIntent>, debits: seq<u64>, credits: seq<u64>, external: seq<int>, n: nat, net: seq<int>)
    requires |orders| <= MAX_INTENTS && Settled(orders, debits, credits, external) && n <= |orders|
    requires Netted(orders, debits, credits, external, n, net)
    ensures forall a :: 0 <= a < MAX_ASSETS ==> -I128_MAX + U64_MAX <= net[a] <= I128_MAX - U64_MAX
  {
    forall a: nat | a < MAX_ASSETS
      ensures -I128_MAX + U64_MAX <= net[a] <= I128_MAX - U64_MAX
    {
      hide Tally;
      TallyBounded(Sells(orders), debits, a, U64_MAX);
      TallyBounded(Buys(orders), credits, a, U64_MAX);
      TallyBounded(Sells(orders)[..n], debits[..n], a, U64_MAX);
      TallyBounded(Buys(orders)[..n], credits[..n], a, U64_MAX);
      TallyNonNegative(Sells(orders), debits, a);
      TallyNonNegative(Buys(orders), credits, a);
      TallyNonNegative(Sells(orders)[..n], debits[..n], a);
      TallyNonNegative(Buys(orders)[..n], credits[..n], a);
      assert external[a] + Tally(Sells(orders), debits, a) - Tally(Buys(orders), credits, a) == 0;
    }
  }

  /** Post one order in place, or report what is wrong with it. */
  method Post(
    orders: seq<FlowIntent>, debits: seq<u64>, credits: seq<u64>, external: seq<int>, i: nat, net: array<int>)
    returns (fault: Option<Error>)
    requires |debits| == |credits| == |orders| && |external| == MAX_ASSETS && i < |orders|
    requires net.Length == MAX_ASSETS && Netted(orders, debits, credits, external, i, net[..])
    modifies net
    ensures fault == PostingFault(orders, debits, credits, external, i)
    ensures fault.None? ==> Netted(orders, debits, credits, external, i + 1, net[..])
  {
    var o := orders[i];
    if o.sell >= MAX_ASSETS || o.buy >= MAX_ASSETS || o.sell == o.buy || debits[i] != o.amount {
      return Some(BalanceInvariant);
    }
    if credits[i] < o.minOut {
      return Some(MinOut);
    }
    assert net[..][o.sell] == NetOf(orders, debits, credits, external, i, o.sell);
    assert net[..][o.buy] == NetOf(orders, debits, credits, external, i, o.buy);
    hide NetOf, Netted;
    if net[o.sell] + debits[i] > I128_MAX || net[o.buy] - credits[i] < -I128_MAX - 1 {
      return Some(Arithmetic);
    }
    ghost var before := net[..];
    net[o.sell] := net[o.sell] + debits[i];
    net[o.buy] := net[o.buy] - credits[i];
    NetOne(orders, debits, credits, external, i, before, net[..]);
    return None;
  }

  /** `verify_settlement` accepts exactly the settled books and otherwise reports the
      first fault. */
  method VerifySettlement(orders: seq<FlowIntent>, debits: seq<u64>, credits: seq<u64>, external: seq<int>)
    returns (r: Result<()>)
    requires |external| == MAX_ASSETS
    ensures r.Ok? <==> |orders| <= MAX_INTENTS && Settled(orders, debits, credits, external)
    ensures r.Err? ==> BooksFault(orders, debits, credits, external) == Some(r.error)
  {
    hide Settled, Netted, NetOf, PostingFault;
    SettledMeans(orders, debits, credits, external);
    if |orders| > MAX_INTENTS || |orders| != |debits| || |orders| != |credits| {
      return Err(Bounds);
    }
    var net := new int[MAX_ASSETS](a requires 0 <= a < MAX_ASSETS => external[a]);
    assert net[..] == external;
    NettedStart(orders, debits, credits, external);
    for i := 0 to |orders|
      invariant FirstPostingFault(orders, debits, credits, external, i).None?
      invariant Netted(orders, debits, credits, external, i, net[..])
    {
      if FirstPostingFault(orders, debits, credits, external, i + 1).Some? {
        FirstPostingSticks(orders, debits, credits, external, i + 1, |orders|);
      }
      var fault := Post(orders, debits, credits, external, i, net);
      if fault.Some? {
        return Err(fault.value);
      }
    }
    NettedEnd(orders, debits, credits, external, net[..]);
    if net[..] != seq(MAX_ASSETS, _ => 0) {
      return Err(BalanceInvariant);
    }
    return Ok(());
  }

  /** Books are without fault exactly when they are settled. */
  lemma SettledMeans(orders: seq<FlowIntent>, debits: seq<u64>, credits: seq<u64>, external: seq<int>)
    requires |external| == MAX_ASSETS
    ensures BooksFault(orders, debits, credits, external).None?
            <==> |orders| <= MAX_INTENTS && Settled(orders, debits, credits, external)
  {
    if |orders| <= MAX_INTENTS && |orders| == |debits| == |credits| {
      hide Settled, PostingFault;
      NoPostingFault(orders, debits, credits, external, |orders|);
      SettledParts(orders, debits, credits, external);
      if Settled(orders, debits, credits, external) {
        forall i | 0 <= i < |orders|
          ensures PostingFault(orders, debits, credits, external, i).None?
        {
          SettledPosts(orders, debits, credits, external, i);
        }
      }
    }
  }

  lemma {:induction false} NoPostingFault(
    orders: seq<FlowIntent>, debits: seq<nat>, credits: seq<nat>, external: seq<int>, n: nat)
    requires |debits| == |credits| == |orders| && |external| == MAX_ASSETS && n <= |orders|
    ensures FirstPostingFault(orders, debits, credits, external, n).None? <==>
              forall i :: 0 <= i < n ==> PostingFault(orders, debits, credits, external, i).None?
  {
    hide PostingFault;
    if n > 0 {
      NoPostingFault(orders, debits, credits, external, n - 1);
    }
  }

  /** Settled books have no net left, and books without faulty postings and without a
      net are settled. */
  lemma SettledParts(orders: seq<FlowIntent>, debits: seq<nat>, credits: seq<nat>, external: seq<int>)
    requires |debits| == |credits| == |orders| && |external| == MAX_ASSETS
    ensures (forall i :: 0 <= i < |orders| ==> PostingFault(orders, debits, credits, external, i).None?)
            && (forall a :: 0 <= a < MAX_ASSETS ==> NetOf(orders, debits, credits, external, |orders|, a) == 0) ==>
              Settled(orders, debits, credits, external)
    ensures Settled(orders, debits, credits, external) ==>
              forall a :: 0 <= a < MAX_ASSETS ==> NetOf(orders, debits, credits, external, |orders|, a) == 0
  {
    hide Tally;
    var n := |orders|;
    assert Sells(orders)[..n] == Sells(orders) && Buys(orders)[..n] == Buys(orders);
    assert debits[..n] == debits && credits[..n] == credits;
    forall a: nat | a < MAX_ASSETS
      ensures NetOf(orders, debits, credits, external, n, a)
              == external[a] + Tally(Sells(orders), debits, a) - Tally(Buys(orders), credits, a)
    {
    }
    hide NetOf;
    if forall i :: 0 <= i < n ==> PostingFault(orders, debits, credits, external, i).None? {
      forall i | 0 <= i < n
        ensures EndpointsOk(orders[i]) && debits[i] == orders[i].amount && credits[i] >= orders[i].minOut
      {
        assert PostingFault(orders, debits, credits, external, i).None?;
      }
    }
  }

  lemma SettledPosts(orders: seq<FlowIntent>, debits: seq<u64>, credits: seq<u64>, external: seq<int>, i: nat)
    requires |orders| <= MAX_INTENTS && Settled(orders, debits, credits, external) && |external| == MAX_ASSETS
    requires i < |orders| == |debits| == |credits|
    ensures PostingFault(orders, debits, credits, external, i).None?
  {
    hide NetOf;
    var net := seq(MAX_ASSETS, a requires 0 <= a < MAX_ASSETS => NetOf(orders, debits, credits, external, i, a));
    BalancedNetFits(orders, debits, credits, external, i, net);
    var o := orders[i];
    assert net[o.sell] == NetOf(orders, debits, credits, external, i, o.sell);
    assert net[o.buy] == NetOf(orders, debits, credits, external, i, o.buy);
  }

  lemma NettedStart(orders: seq<FlowIntent>, debits: seq<nat>, credits: seq<nat>, external: seq<int>)
    requires |debits| == |credits| == |orders| && |external| == MAX_ASSETS
    ensures Netted(orders, debits, credits, external, 0, external)
  {
  }

  lemma NettedEnd(orders: seq<FlowIntent>, debits: seq<nat>, credits: seq<nat>, external: seq<int>, net: seq<int>)
    requires |debits| == |credits| == |orders| && |external| == MAX_ASSETS
    requires Netted(orders, debits, credits, external, |orders|, net)
    ensures net == seq(MAX_ASSETS, _ => 0) <==>
              forall a :: 0 <= a < MAX_ASSETS ==> NetOf(orders, debits, credits, external, |orders|, a) == 0
  {
    hide NetOf;
    var zero := seq(MAX_ASSETS, _ => 0);
    assert net == zero <==> forall a :: 0 <= a < MAX_ASSETS ==> net[a] == zero[a];
  }

  // ---------------------------------------------------------------- layers

  /** Position-wise total of the first n layers. */
  ghost function Stack(layers: seq<seq<nat>>, width: nat, n: nat): (xs: seq<nat>)
    requires n <= |layers| && forall k :: 0 <= k < |layers| ==> |layers[k]| == width
    ensures |xs| == width
  {
    if n == 0 then seq(width, _ => 0)
    else
      var below := Stack(layers, width, n - 1);
      seq(width, i requires 0 <= i < width => below[i] + layers[n - 1][i])
  }

  lemma {:induction false} StackAt(layers: seq<seq<nat>>, width: nat, n: nat, i: nat, k: nat)
    requires n <= |layers| && forall k :: 0 <= k < |layers| ==> |layers[k]| == width
    requires i < width && k < |layers|
    requires forall j :: 0 <= j < n && j != k ==> layers[j][i] == 0
    ensures Stack(layers, width, n)[i] == if k < n then layers[k][i] else 0
  {
    if n > 0 {
      StackAt(layers, width, n - 1, i, k);
    }
  }

  lemma {:induction false} StackEmptyAt(layers: seq<seq<nat>>, width: nat, n: nat, i: nat)
    requires n <= |layers| && forall k :: 0 <= k < |layers| ==> |layers[k]| == width
    requires i < width
    requires forall j :: 0 <= j < n ==> layers[j][i] == 0
    ensures Stack(layers, width, n)[i] == 0
  {
    if n > 0 {
      StackEmptyAt(layers, width, n - 1, i);
    }
  }

  /** A layer that touches one key only adds its total to that key. */
  lemma {:induction false} TallyOfLayer(keys: seq<nat>, xs: seq<int>, key: nat, a: nat)
    requires |keys| == |xs|
    requires forall i :: 0 <= i < |xs| && xs[i] != 0 ==> keys[i] == key
    ensures Tally(keys, xs, a) == if a == key then Sum(xs) else 0
  {
    if |xs| > 0 {
      TallyOfLayer(keys[..|xs| - 1], xs[..|xs| - 1], key, a);
    }
  }

  ghost predicate Layered(keys: seq<nat>, layers: seq<seq<nat>>, layerKeys: seq<nat>, totals: seq<nat>) {
    && |layers| == |layerKeys| == |totals|
    && forall k :: 0 <= k < |layers| ==>
         && |layers[k]| == |keys|
         && Sum(layers[k]) == totals[k]
         && forall i :: 0 <= i < |keys| && layers[k][i] != 0 ==> keys[i] == layerKeys[k]
  }

  /** Per-key totals of a stack are per-key totals of its layers. */
  lemma {:induction false} TallyOfStack(
    keys: seq<nat>, layers: seq<seq<nat>>, layerKeys: seq<nat>, totals: seq<nat>, n: nat, a: nat)
    requires Layered(keys, layers, layerKeys, totals) && n <= |layers|
    ensures Tally(keys, Stack(layers, |keys|, n), a) == Tally(layerKeys[..n], totals[..n], a)
  {
    hide Tally, Sum;
    if n == 0 {
      var zero := Stack(layers, |keys|, 0);
      TallyScale(keys, zero, zero, a, 0);
      TallyOfNothing(a);
    } else {
      TallyOfStack(keys, layers, layerKeys, totals, n - 1, a);
      TallyAdd(keys, Stack(layers, |keys|, n - 1), layers[n - 1], Stack(layers, |keys|, n), a);
      TallyOfLayer(keys, layers[n - 1], layerKeys[n - 1], a);
      TallyTake(layerKeys, totals, n - 1, a);
    }
  }

  lemma TallyOfNothing(a: nat)
    ensures Tally([], [], a) == 0
  {
  }

  // ---------------------------------------------------------------- settlement composes

  /** Valid fills, their groups, and one observed output per group that meets the
      group's floor. */
  ghost predicate Observed(orders: seq<FlowIntent>, fills: seq<FoldFill>, groups: seq<ResidualGroup>, observed: seq<nat>) {
    && |fills| == MAX_INTENTS && ResidualsOf(orders, fills) == Ok(groups)
    && |observed| == |groups|
    && forall k :: 0 <= k < |groups| ==> groups[k].minOut <= observed[k]
  }

  lemma ObservedGroups(orders: seq<FlowIntent>, fills: seq<FoldFill>, groups: seq<ResidualGroup>, observed: seq<nat>)
    requires Observed(orders, fills, groups, observed)
    ensures |orders| <= |fills| && KnownAssets(orders) && Partitions(orders, fills, |orders|, groups)
    ensures Conserves(orders, fills[..|orders|])
    ensures forall k :: 0 <= k < |groups| ==> IsGroup(orders, fills, groups[k]) && groups[k].amountIn > 0
  {
    hide Conserves, MeetsLimit, Tally, MembersOf;
    GroupsPartition(orders, fills, |orders|);
  }

  /** What each group pays to each order. */
  ghost function Payouts(orders: seq<FlowIntent>, fills: seq<FoldFill>, groups: seq<ResidualGroup>, observed: seq<nat>): (ps: seq<seq<nat>>)
    requires Observed(orders, fills, groups, observed)
    ensures |ps| == |groups| && forall k :: 0 <= k < |ps| ==> |ps[k]| == |orders|
  {
    ObservedGroups(orders, fills, groups, observed);
    seq(|groups|, k requires 0 <= k < |groups| => Payout(orders, fills, groups[k], observed[k]))
  }

  ghost function Payout(orders: seq<FlowIntent>, fills: seq<FoldFill>, g: ResidualGroup, observed: nat): (xs: seq<nat>)
    requires |orders| <= |fills| && IsGroup(orders, fills, g) && g.amountIn > 0 && observed >= g.minOut
    ensures |xs| == |orders| && xs == Distribution(orders, fills, g, observed)
  {
    DistributionIsExact(orders, fills, g, observed);
    var xs := Distribution(orders, fills, g, observed);
    assert forall i :: 0 <= i < |xs| ==> xs[i] >= 0;
    seq(|xs|, i requires 0 <= i < |xs| => xs[i] as nat)
  }

  /** Each owner's credit: the internal fill plus every group's payout. */
  ghost function Credits(orders: seq<FlowIntent>, fills: seq<FoldFill>, groups: seq<ResidualGroup>, observed: seq<nat>): (xs: seq<nat>)
    requires Observed(orders, fills, groups, observed)
    ensures |xs| == |orders|
  {
    ObservedGroups(orders, fills, groups, observed);
    var stack := Stack(Payouts(orders, fills, groups, observed), |orders|, |groups|);
    seq(|orders|, i requires 0 <= i < |orders| => fills[i].output + stack[i])
  }

  ghost function Debits(orders: seq<FlowIntent>): (xs: seq<nat>)
    ensures |xs| == |orders|
  {
    seq(|orders|, i requires 0 <= i < |orders| => orders[i].amount)
  }

  ghost function GroupSells(groups: seq<ResidualGroup>): (keys: seq<nat>)
    ensures |keys| == |groups|
  {
    seq(|groups|, k requires 0 <= k < |groups| => groups[k].sell)
  }

  ghost function GroupBuys(groups: seq<ResidualGroup>): (keys: seq<nat>)
    ensures |keys| == |groups|
  {
    seq(|groups|, k requires 0 <= k < |groups| => groups[k].buy)
  }

  ghost function GroupInputs(groups: seq<ResidualGroup>): (xs: seq<nat>)
    ensures |xs| == |groups|
  {
    seq(|groups|, k requires 0 <= k < |groups| => groups[k].amountIn)
  }

  /** The external movement of each token: bought outputs come in, group inputs go out. */
  ghost function ExternalDelta(groups: seq<ResidualGroup>, observed: seq<nat>): (xs: seq<int>)
    requires |observed| == |groups|
    ensures |xs| == MAX_ASSETS
  {
    seq(MAX_ASSETS, a requires 0 <= a < MAX_ASSETS =>
      Tally(GroupBuys(groups), observed, a) - Tally(GroupSells(groups), GroupInputs(groups), a))
  }

  /** External output reaches the buyers of its token, and nobody else. */
  lemma PayoutsByToken(
    orders: seq<FlowIntent>, fills: seq<FoldFill>, groups: seq<ResidualGroup>, observed: seq<nat>, a: nat)
    requires Observed(orders, fills, groups, observed)
    ensures Tally(Buys(orders), Stack(Payouts(orders, fills, groups, observed), |orders|, |groups|), a)
            == Tally(GroupBuys(groups), observed, a)
  {
    hide Tally, Sum, Distribution, Stack, Partitions;
    ObservedGroups(orders, fills, groups, observed);
    var layers := Payouts(orders, fills, groups, observed);
    forall k | 0 <= k < |groups|
      ensures Sum(layers[k]) == observed[k]
      ensures forall i :: 0 <= i < |orders| && layers[k][i] != 0 ==> Buys(orders)[i] == GroupBuys(groups)[k]
    {
      LayerFacts(orders, fills, groups[k], observed[k]);
    }
    TallyOfStack(Buys(orders), layers, GroupBuys(groups), observed, |groups|, a);
    assert GroupBuys(groups)[..|groups|] == GroupBuys(groups) && observed[..|groups|] == observed;
  }

  lemma LayerFacts(orders: seq<FlowIntent>, fills: seq<FoldFill>, g: ResidualGroup, observed: nat)
    requires |orders| <= |fills| && IsGroup(orders, fills, g) && g.amountIn > 0 && observed >= g.minOut
    ensures Sum(Payout(orders, fills, g, observed)) == observed
    ensures forall i :: 0 <= i < |orders| && Payout(orders, fills, g, observed)[i] != 0 ==> orders[i].buy == g.buy
  {
    hide Sum, Distribution, Summarises;
    DistributionIsExact(orders, fills, g, observed);
    SummarisedPositive(orders, fills, g);
  }

  ghost function MemberLayers(orders: seq<FlowIntent>, fills: seq<FoldFill>, groups: seq<ResidualGroup>): (ls: seq<seq<nat>>)
    requires |orders| <= |fills|
    ensures |ls| == |groups| && forall k :: 0 <= k < |ls| ==> |ls[k]| == |orders|
  {
    seq(|groups|, k requires 0 <= k < |groups| => MemberResiduals(orders, fills, groups[k]))
  }

  /** Exactly one group holds an unfilled order, so the groups' members stack up
      to all residual inputs. */
  lemma ResidualsStackUp(
    orders: seq<FlowIntent>, fills: seq<FoldFill>, groups: seq<ResidualGroup>, observed: seq<nat>)
    requires Observed(orders, fills, groups, observed)
    ensures |orders| <= |fills|
    ensures Stack(MemberLayers(orders, fills, groups), |orders|, |groups|) == ResidualInputs(orders, fills)
  {
    hide Tally, Stack, Summarises, Conserves;
    ObservedGroups(orders, fills, groups, observed);
    var layers, n := MemberLayers(orders, fills, groups), |groups|;
    forall i | 0 <= i < |orders|
      ensures Stack(layers, |orders|, n)[i] == ResidualInputs(orders, fills)[i]
    {
      forall k | 0 <= k < n
        ensures Member(groups[k], i) <==> Belongs(orders, fills, i, groups[k].sell, groups[k].buy)
      {
        SummarisedPositive(orders, fills, groups[k]);
      }
      if Residual(orders[i], fills[i]) == 0 {
        StackEmptyAt(layers, |orders|, n, i);
      } else {
        var k :| 0 <= k < n && groups[k].sell == orders[i].sell && groups[k].buy == orders[i].buy;
        StackAt(layers, |orders|, n, i, k);
      }
    }
  }

  /** Residual inputs leave through the groups that sell their token. */
  lemma ResidualsByToken(
    orders: seq<FlowIntent>, fills: seq<FoldFill>, groups: seq<ResidualGroup>, observed: seq<nat>, a: nat)
    requires Observed(orders, fills, groups, observed)
    ensures |orders| <= |fills|
    ensures Tally(Sells(orders), ResidualInputs(orders, fills), a)
            == Tally(GroupSells(groups), GroupInputs(groups), a)
  {
    hide Tally, Sum, Stack, Summarises, Partitions;
    ObservedGroups(orders, fills, groups, observed);
    ResidualsStackUp(orders, fills, groups, observed);
    var layers := MemberLayers(orders, fills, groups);
    forall k | 0 <= k < |groups|
      ensures Sum(layers[k]) == GroupInputs(groups)[k]
      ensures forall i :: 0 <= i < |orders| && layers[k][i] != 0 ==> Sells(orders)[i] == GroupSells(groups)[k]
    {
      GroupTotals(orders, fills, groups[k]);
      SummarisedPositive(orders, fills, groups[k]);
    }
    TallyOfStack(Sells(orders), layers, GroupSells(groups), GroupInputs(groups), |groups|, a);
    assert GroupSells(groups)[..|groups|] == GroupSells(groups) && GroupInputs(groups)[..|groups|] == GroupInputs(groups);
  }

  /** Every owner receives at least the signed minimum. */
  lemma CreditsCoverMinimum(
    orders: seq<FlowIntent>, fills: seq<FoldFill>, groups: seq<ResidualGroup>, observed: seq<nat>, i: nat)
    requires Observed(orders, fills, groups, observed) && i < |orders|
    ensures Credits(orders, fills, groups, observed)[i] >= orders[i].minOut
  {
    hide Tally, Stack, Summarises, Conserves, Distribution;
    ObservedGroups(orders, fills, groups, observed);
    var layers, n := Payouts(orders, fills, groups, observed), |groups|;
    if Residual(orders[i], fills[i]) > 0 {
      var k :| 0 <= k < n && groups[k].sell == orders[i].sell && groups[k].buy == orders[i].buy;
      forall j | 0 <= j < n
        ensures layers[j][i] >= if j == k then Shortfall(orders[i], fills[i]) else 0
        ensures j != k ==> layers[j][i] == 0
      {
        DistributionIsExact(orders, fills, groups[j], observed[j]);
        SummarisedPositive(orders, fills, groups[j]);
      }
      StackAt(layers, |orders|, n, i, k);
    }
  }

  /** Settlement composes: fold, group, execute outside, distribute, and the final
      check accepts the books. */
  lemma SettlementComposes(
    orders: seq<FlowIntent>, fills: seq<FoldFill>, groups: seq<ResidualGroup>, observed: seq<nat>)
    requires Observed(orders, fills, groups, observed)
    ensures Settled(orders, Debits(orders), Credits(orders, fills, groups, observed), ExternalDelta(groups, observed))
  {
    hide Tally, Stack, Partitions, IsGroup;
    ObservedGroups(orders, fills, groups, observed);
    var debits, credits := Debits(orders), Credits(orders, fills, groups, observed);
    var own := fills[..|orders|];
    forall i | 0 <= i < |orders|
      ensures credits[i] >= orders[i].minOut
    {
      CreditsCoverMinimum(orders, fills, groups, observed, i);
    }
    forall a: nat | a < MAX_ASSETS
      ensures ExternalDelta(groups, observed)[a] + Tally(Sells(orders), debits, a) - Tally(Buys(orders), credits, a) == 0
    {
      PayoutsByToken(orders, fills, groups, observed, a);
      ResidualsByToken(orders, fills, groups, observed, a);
      DebitsSplit(orders, fills);
      TallyAdd(Sells(orders), Inputs(own), ResidualInputs(orders, fills), debits, a);
      TallyAdd(Buys(orders), Outputs(own), Stack(Payouts(orders, fills, groups, observed), |orders|, |groups|), credits, a);
      assert Tally(Sells(orders), Inputs(own), a) == Tally(Buys(orders), Outputs(own), a);
    }
  }

  lemma DebitsSplit(orders: seq<FlowIntent>, fills: seq<FoldFill>)
    requires |orders| <= |fills| && ValidFold(orders, fills)
    ensures forall i :: 0 <= i < |orders| ==>
              Debits(orders)[i] == Inputs(fills[..|orders|])[i] + ResidualInputs(orders, fills)[i]
  {
  }

  // ---------------------------------------------------------------- submission order

  ghost predicate UniqueIds(orders: seq<FlowIntent>) {
    forall i, j :: 0 <= i < j < |orders| ==> !(orders[i].owner == orders[j].owner && orders[i].nonce == orders[j].nonce)
  }

  /** The same orders with the same fills, submitted in another order; g and g'
      are the groups of one pair in the two submissions. */
  ghost predicate Reordered(
    p: seq<nat>, orders: seq<FlowIntent>, fills: seq<FoldFill>, g: ResidualGroup,
    orders': seq<FlowIntent>, fills': seq<FoldFill>, g': ResidualGroup)
  {
    && |orders| <= |fills| && |orders'| <= |fills'|
    && Permutes(p, orders, orders') && Permutes(p, fills[..|orders|], fills'[..|orders'|])
    && IsGroup(orders, fills, g) && IsGroup(orders', fills', g')
    && g.sell == g'.sell && g.buy == g'.buy
  }

  lemma ReorderedTotals(
    p: seq<nat>, orders: seq<FlowIntent>, fills: seq<FoldFill>, g: ResidualGroup,
    orders': seq<FlowIntent>, fills': seq<FoldFill>, g': ResidualGroup)
    requires Reordered(p, orders, fills, g, orders', fills', g')
    ensures g.amountIn == g'.amountIn && g.minOut == g'.minOut
    ensures forall k :: 0 <= k < |p| ==> (Member(g', k) <==> Member(g, p[k]))
    ensures forall k :: 0 <= k < |p| ==> orders'[k] == orders[p[k]] && fills'[k] == fills[p[k]]
  {
    hide Sum, Summarises;
    forall k | 0 <= k < |p|
      ensures fills'[k] == fills[p[k]]
    {
      assert fills'[k] == fills'[..|orders'|][k] == fills[..|orders|][p[k]];
    }
    SummarisedPositive(orders, fills, g);
    SummarisedPositive(orders', fills', g');
    GroupTotals(orders, fills, g);
    GroupTotals(orders', fills', g');
    SumPermuted(p, MemberResiduals(orders, fills, g), MemberResiduals(orders', fills', g'));
    SumPermuted(p, MemberShortfalls(orders, fills, g), MemberShortfalls(orders', fills', g'));
  }

  lemma ReorderedLowest(
    p: seq<nat>, orders: seq<FlowIntent>, g: ResidualGroup, orders': seq<FlowIntent>, g': ResidualGroup, k: nat)
    requires |p| == |orders| == |orders'| && IsPermutation(p) && UniqueIds(orders)
    requires forall k :: 0 <= k < |p| ==> orders'[k] == orders[p[k]] && (Member(g', k) <==> Member(g, p[k]))
    requires k < |p| && Lowest(orders, g, |orders|) == Some(p[k])
    ensures Lowest(orders', g', |orders'|).Some?
    ensures p[Lowest(orders', g', |orders'|).value] == Lowest(orders, g, |orders|).value
  {
    hide Lowest;
    assert Member(g', k);
    var low, low' := p[k], Lowest(orders', g', |orders'|).value;
    assert !Before(orders'[k], orders'[low']);
    assert Member(g, p[low']);
    assert !Before(orders[p[low']], orders[low]);
  }

  lemma {:induction false} PermutationIsOnto(p: seq<nat>, i: nat) returns (k: nat)
    requires IsPermutation(p) && i < |p|
    ensures k < |p| && p[k] == i
    decreases |p|
  {
    var n := |p| - 1;
    if p[n] == i {
      k := n;
    } else {
      k := PermutationIsOnto(Shrink(p), if i > p[n] then i - 1 else i);
    }
  }

  /** Distribution is blind to the submission order: with unique (owner, nonce),
      permuting the orders permutes the payouts and changes nothing else. */
  lemma DistributionIsEquivariant(
    p: seq<nat>, orders: seq<FlowIntent>, fills: seq<FoldFill>, g: ResidualGroup,
    orders': seq<FlowIntent>, fills': seq<FoldFill>, g': ResidualGroup, observed: nat)
    requires Reordered(p, orders, fills, g, orders', fills', g') && UniqueIds(orders)
    requires g.amountIn > 0 && g'.amountIn > 0 && observed >= g.minOut && observed >= g'.minOut
    ensures Permutes(p, Distribution(orders, fills, g, observed), Distribution(orders', fills', g', observed))
  {
    hide Sum, Summarises, BaseShare, Lowest;
    ReorderedTotals(p, orders, fills, g, orders', fills', g');
    SummarisedPositive(orders, fills, g);
    SummarisedPositive(orders', fills', g');
    var k := PermutationIsOnto(p, Lowest(orders, g, |orders|).value);
    ReorderedLowest(p, orders, g, orders', g', k);
    var surplus := observed - g.minOut;
    var base, base' := BaseShares(orders, fills, g, surplus), BaseShares(orders', fills', g', surplus);
    forall k | 0 <= k < |p|
      ensures base'[k] == base[p[k]]
    {
      SameShare(orders[p[k]], fills[p[k]], g, g', surplus);
    }
    SumPermuted(p, base, base');
  }

  lemma SameShare(o: FlowIntent, f: FoldFill, g: ResidualGroup, g': ResidualGroup, surplus: nat)
    requires g.amountIn == g'.amountIn > 0
    ensures BaseShare(o, f, g, surplus) == BaseShare(o, f, g', surplus)
  {
  }
}
