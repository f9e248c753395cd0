/** What happens after a fold: unfilled orders are grouped by pair, each group's
    observed external output is distributed back, and the final balances are checked. */
module Settlement {
  import opened Base
  import opened Products
  import opened Sums
  import opened Permutations
  import opened ResidualGraph
  import opened Circulation
  import opened Multiples
  import opened Lots
  import opened Fold

  datatype ResidualGroup = ResidualGroup(sell: nat, buy: nat, amountIn: nat, minOut: nat, members: set<nat>)

  // ---------------------------------------------------------------- grouping

  /** The index of the group of a pair, or the number of groups. */
  function Position(groups: seq<ResidualGroup>, sell: nat, buy: nat): (j: nat)
    ensures j <= |groups|
    ensures j < |groups| ==> groups[j].sell == sell && groups[j].buy == buy
    ensures forall k :: 0 <= k < j ==> !(groups[k].sell == sell && groups[k].buy == buy)
  {
    if |groups| == 0 then 0
    else if groups[0].sell == sell && groups[0].buy == buy then 0
    else 1 + Position(groups[1..], sell, buy)
  }

  /** Input the order still wants to spend. */
  function Residual(o: FlowIntent, f: FoldFill): nat {
    SaturatingSub(o.amount, f.input)
  }

  /** Output it is still owed. */
  function Shortfall(o: FlowIntent, f: FoldFill): nat {
    SaturatingSub(o.minOut, f.output)
  }

  /** Take order i into the groups formed so far. */
  function Join(groups: seq<ResidualGroup>, o: FlowIntent, f: FoldFill, i: nat): Result<seq<ResidualGroup>> {
    if f.input > o.amount then Err(BalanceInvariant)
    else if o.amount == f.input then
      if f.output < o.minOut then Err(MinOut) else Ok(groups)
    else
      var j := Position(groups, o.sell, o.buy);
      if j == |groups| && |groups| == MAX_EDGES then Err(Bounds)
      else
        var grown := if j == |groups| then groups + [ResidualGroup(o.sell, o.buy, 0, 0, {})] else groups;
        var g := grown[j];
        var amountIn, minOut := g.amountIn + Residual(o, f), g.minOut + Shortfall(o, f);
        if amountIn > U64_MAX then Err(Arithmetic)
        else if amountIn > MAX_ATOMS then Err(InvalidAmount)
        else if minOut > U64_MAX then Err(Arithmetic)
        else Ok(grown[j := ResidualGroup(g.sell, g.buy, amountIn, minOut, g.members + {i})])
  }

  function GroupsOf(orders: seq<FlowIntent>, fills: seq<FoldFill>, n: nat): Result<seq<ResidualGroup>>
    requires n <= |orders| && n <= |fills|
  {
    if n == 0 then Ok([])
    else
      var before := GroupsOf(orders, fills, n - 1);
      if before.Err? then before else Join(before.value, orders[n - 1], fills[n - 1], n - 1)
  }

  lemma {:induction false} GroupingErrorSticks(orders: seq<FlowIntent>, fills: seq<FoldFill>, i: nat, n: nat)
    requires i <= n <= |orders| && n <= |fills| && GroupsOf(orders, fills, i).Err?
    ensures GroupsOf(orders, fills, n) == GroupsOf(orders, fills, i)
  {
    if i < n {
      GroupingErrorSticks(orders, fills, i, n - 1);
    }
  }

  /** Find the group of a pair. */
  method FindGroup(groups: seq<ResidualGroup>, sell: nat, buy: nat) returns (j: nat)
    ensures j == Position(groups, sell, buy)
  {
    j := 0;
    while j < |groups| && !(groups[j].sell == sell && groups[j].buy == buy)
      invariant j <= |groups|
      invariant forall k :: 0 <= k < j ==> !(groups[k].sell == sell && groups[k].buy == buy)
    {
      j := j + 1;
    }
  }

  /** Add one order to its group, opening the group if need be. */
  method JoinGroup(groups: seq<ResidualGroup>, o: FlowIntent, f: FoldFill, i: nat) returns (r: Result<seq<ResidualGroup>>)
    ensures r == Join(groups, o, f, i)
  {
    if o.amount < f.input {
      return Err(BalanceInvariant);
    }
    var amount := o.amount - f.input;
    if amount == 0 {
      return if f.output < o.minOut then Err(MinOut) else Ok(groups);
    }
    var j := FindGroup(groups, o.sell, o.buy);
    var grown := groups;
    if j == |groups| {
      if |groups| == MAX_EDGES {
        return Err(Bounds);
      }
      grown := groups + [ResidualGroup(o.sell, o.buy, 0, 0, {})];
    }
    var g := grown[j];
    if g.amountIn + amount > U64_MAX {
      return Err(Arithmetic);
    }
    if g.amountIn + amount > MAX_ATOMS {
      return Err(InvalidAmount);
    }
    if g.minOut + SaturatingSub(o.minOut, f.output) > U64_MAX {
      return Err(Arithmetic);
    }
    return Ok(grown[j := ResidualGroup(g.sell, g.buy, g.amountIn + amount,
                                       g.minOut + SaturatingSub(o.minOut, f.output), g.members + {i})]);
  }

  /** The grouping loop. */
  method BuildResiduals(orders: seq<FlowIntent>, fills: seq<FoldFill>) returns (r: Result<seq<ResidualGroup>>)
    requires |orders| <= |fills|
    ensures r == GroupsOf(orders, fills, |orders|)
  {
    hide Join;
    var groups: seq<ResidualGroup> := [];
    for i := 0 to |orders|
      invariant GroupsOf(orders, fills, i) == Ok(groups)
    {
      var next := JoinGroup(groups, orders[i], fills[i], i);
      if next.Err? {
        GroupingErrorSticks(orders, fills, i + 1, |orders|);
        return next;
      }
      groups := next.value;
    }
    return Ok(groups);
  }

  /** `residuals`: only a valid fold is grouped. */
  method Residuals(orders: seq<FlowIntent>, fills: seq<FoldFill>) returns (r: Result<seq<ResidualGroup>>)
    requires |fills| == MAX_INTENTS
    ensures r == ResidualsOf(orders, fills)
  {
    if |orders| > MAX_INTENTS {
      return Err(Bounds);
    }
    var valid := ValidateFold(orders, fills);
    if valid.Err? {
      return Err(valid.error);
    }
    r := BuildResiduals(orders, fills);
  }

  ghost function ResidualsOf(orders: seq<FlowIntent>, fills: seq<FoldFill>): Result<seq<ResidualGroup>>
    requires |fills| == MAX_INTENTS
  {
    if |orders| > MAX_INTENTS then Err(Bounds)
    else if !ValidFold(orders, fills) then Err(BalanceInvariant)
    else GroupsOf(orders, fills, |orders|)
  }

  // ---------------------------------------------------------------- what the groups are

  function PairKey(sell: nat, buy: nat): nat {
    MAX_ASSETS * sell + buy
  }

  function PairKeys(orders: seq<FlowIntent>): (keys: seq<nat>)
    ensures |keys| == |orders|
  {
    seq(|orders|, i requires 0 <= i < |orders| => PairKey(orders[i].sell, orders[i].buy))
  }

  function ResidualInputs(orders: seq<FlowIntent>, fills: seq<FoldFill>): (xs: seq<nat>)
    requires |orders| <= |fills|
    ensures |xs| == |orders|
  {
    seq(|orders|, i requires 0 <= i < |orders| => Residual(orders[i], fills[i]))
  }

  function Shortfalls(orders: seq<FlowIntent>, fills: seq<FoldFill>): (xs: seq<nat>)
    requires |orders| <= |fills|
    ensures |xs| == |orders|
  {
    seq(|orders|, i requires 0 <= i < |orders| => Shortfall(orders[i], fills[i]))
  }

  /** Order i has something left to trade in pair (sell, buy). */
  predicate Belongs(orders: seq<FlowIntent>, fills: seq<FoldFill>, i: nat, sell: nat, buy: nat)
    requires |orders| <= |fills|
  {
    i < |orders| && Residual(orders[i], fills[i]) > 0 && orders[i].sell == sell && orders[i].buy == buy
  }

  function MembersOf(orders: seq<FlowIntent>, fills: seq<FoldFill>, sell: nat, buy: nat, n: nat): set<nat>
    requires |orders| <= |fills| && n <= |orders|
  {
    set i | 0 <= i < n && Belongs(orders, fills, i, sell, buy)
  }

  /** A group sums up exactly the unfilled orders of its pair among the first n. */
  ghost predicate Summarises(orders: seq<FlowIntent>, fills: seq<FoldFill>, n: nat, g: ResidualGroup)
    requires |orders| <= |fills| && n <= |orders|
  {
    && g.sell < MAX_ASSETS && g.buy < MAX_ASSETS
    && g.members == MembersOf(orders, fills, g.sell, g.buy, n)
    && g.members != {}
    && 0 < g.amountIn <= MAX_ATOMS
    && g.amountIn == Tally(PairKeys(orders)[..n], ResidualInputs(orders, fills)[..n], PairKey(g.sell, g.buy))
    && g.minOut == Tally(PairKeys(orders)[..n], Shortfalls(orders, fills)[..n], PairKey(g.sell, g.buy))
  }

  ghost predicate Partitions(orders: seq<FlowIntent>, fills: seq<FoldFill>, n: nat, groups: seq<ResidualGroup>)
    requires |orders| <= |fills| && n <= |orders|
  {
    && |groups| <= MAX_EDGES
    && (forall k :: 0 <= k < |groups| ==> Summarises(orders, fills, n, groups[k]))
    && (forall j, k :: 0 <= j < k < |groups| ==> !(groups[j].sell == groups[k].sell && groups[j].buy == groups[k].buy))
    && (forall i :: 0 <= i < n && Residual(orders[i], fills[i]) > 0 ==>
          exists k :: 0 <= k < |groups| && groups[k].sell == orders[i].sell && groups[k].buy == orders[i].buy)
    && (forall i :: 0 <= i < n ==> fills[i].input <= orders[i].amount)
    && (forall i :: 0 <= i < n && Residual(orders[i], fills[i]) == 0 ==> Shortfall(orders[i], fills[i]) == 0)
  }

  ghost predicate KnownAssets(orders: seq<FlowIntent>) {
    forall i :: 0 <= i < |orders| ==>
      orders[i].sell < MAX_ASSETS && orders[i].buy < MAX_ASSETS && orders[i].sell != orders[i].buy
  }

  lemma PairKeyInjective(s: nat, b: nat, s': nat, b': nat)
    requires b < MAX_ASSETS && b' < MAX_ASSETS
    ensures PairKey(s, b) == PairKey(s', b') <==> s == s' && b == b'
  {
  }

  /** A group other than order i's own is not affected by it. */
  lemma OtherGroup(orders: seq<FlowIntent>, fills: seq<FoldFill>, i: nat, g: ResidualGroup)
    requires |orders| <= |fills| && i < |orders| && KnownAssets(orders)
    requires Summarises(orders, fills, i, g)
    requires Residual(orders[i], fills[i]) > 0 ==> !(g.sell == orders[i].sell && g.buy == orders[i].buy)
    requires Residual(orders[i], fills[i]) == 0 ==> Shortfall(orders[i], fills[i]) == 0
    ensures Summarises(orders, fills, i + 1, g)
  {
    hide Tally;
    PairKeyInjective(g.sell, g.buy, orders[i].sell, orders[i].buy);
    TallyTake(PairKeys(orders), ResidualInputs(orders, fills), i, PairKey(g.sell, g.buy));
    TallyTake(PairKeys(orders), Shortfalls(orders, fills), i, PairKey(g.sell, g.buy));
    assert MembersOf(orders, fills, g.sell, g.buy, i + 1) == MembersOf(orders, fills, g.sell, g.buy, i);
  }

  /** Order i's own group grows by its residual and its shortfall. */
  lemma OwnGroup(orders: seq<FlowIntent>, fills: seq<FoldFill>, i: nat, g: ResidualGroup, g': ResidualGroup)
    requires |orders| <= |fills| && i < |orders| && KnownAssets(orders)
    requires Summarises(orders, fills, i, g) && g.sell == orders[i].sell && g.buy == orders[i].buy
    requires Residual(orders[i], fills[i]) > 0
    requires g' == ResidualGroup(g.sell, g.buy, g.amountIn + Residual(orders[i], fills[i]),
                                 g.minOut + Shortfall(orders[i], fills[i]), g.members + {i})
    requires g'.amountIn <= MAX_ATOMS
    ensures Summarises(orders, fills, i + 1, g')
  {
    hide Tally;
    TallyTake(PairKeys(orders), ResidualInputs(orders, fills), i, PairKey(g.sell, g.buy));
    TallyTake(PairKeys(orders), Shortfalls(orders, fills), i, PairKey(g.sell, g.buy));
    assert MembersOf(orders, fills, g.sell, g.buy, i + 1) == MembersOf(orders, fills, g.sell, g.buy, i) + {i};
  }

  /** The first unfilled order of a pair opens its group. */
  lemma NewGroup(orders: seq<FlowIntent>, fills: seq<FoldFill>, i: nat, g: ResidualGroup)
    requires |orders| <= |fills| && i < |orders| && KnownAssets(orders)
    requires forall j :: 0 <= j < i && orders[j].sell == orders[i].sell && orders[j].buy == orders[i].buy ==>
               Residual(orders[j], fills[j]) == 0 && Shortfall(orders[j], fills[j]) == 0
    requires 0 < Residual(orders[i], fills[i]) <= MAX_ATOMS
    requires g == ResidualGroup(orders[i].sell, orders[i].buy, Residual(orders[i], fills[i]),
                                Shortfall(orders[i], fills[i]), {i})
    ensures Summarises(orders, fills, i + 1, g)
  {
    hide Tally;
    var keys, key := PairKeys(orders), PairKey(g.sell, g.buy);
    forall j | 0 <= j < i
      ensures keys[j] == key ==> ResidualInputs(orders, fills)[j] == 0 && Shortfalls(orders, fills)[j] == 0
    {
      PairKeyInjective(g.sell, g.buy, orders[j].sell, orders[j].buy);
    }
    TallyScale(keys[..i], ResidualInputs(orders, fills)[..i], ResidualInputs(orders, fills)[..i], key, 0);
    TallyScale(keys[..i], Shortfalls(orders, fills)[..i], Shortfalls(orders, fills)[..i], key, 0);
    TallyTake(keys, ResidualInputs(orders, fills), i, key);
    TallyTake(keys, Shortfalls(orders, fills), i, key);
    assert MembersOf(orders, fills, g.sell, g.buy, i + 1) == {i};
  }

  /** Joining keeps the partition. */
  lemma JoinPartitions(orders: seq<FlowIntent>, fills: seq<FoldFill>, i: nat, groups: seq<ResidualGroup>)
    requires |orders| <= |fills| && i < |orders| && KnownAssets(orders)
    requires Partitions(orders, fills, i, groups)
    requires Join(groups, orders[i], fills[i], i).Ok?
    ensures Partitions(orders, fills, i + 1, Join(groups, orders[i], fills[i], i).value)
  {
    hide Summarises, PairKey;
    var o, f := orders[i], fills[i];
    var groups' := Join(groups, o, f, i).value;
    if Residual(o, f) == 0 {
      forall k | 0 <= k < |groups|
        ensures Summarises(orders, fills, i + 1, groups[k])
      {
        OtherGroup(orders, fills, i, groups[k]);
      }
    } else {
      var j := Position(groups, o.sell, o.buy);
      forall k | 0 <= k < |groups'|
        ensures Summarises(orders, fills, i + 1, groups'[k])
      {
        if k == j < |groups| {
          OwnGroup(orders, fills, i, groups[k], groups'[k]);
        } else if k == j {
          NewGroup(orders, fills, i, groups'[k]);
        } else {
          OtherGroup(orders, fills, i, groups[k]);
        }
      }
      assert groups'[j].sell == o.sell && groups'[j].buy == o.buy;
      assert forall k :: 0 <= k < |groups| ==> groups'[k].sell == groups[k].sell && groups'[k].buy == groups[k].buy;
    }
  }

  /** The groups partition the unfilled orders by pair and add up their
      residual inputs and owed outputs. */
  lemma {:induction false} GroupsPartition(orders: seq<FlowIntent>, fills: seq<FoldFill>, n: nat)
    requires |orders| <= |fills| && n <= |orders| && KnownAssets(orders)
    requires GroupsOf(orders, fills, n).Ok?
    ensures Partitions(orders, fills, n, GroupsOf(orders, fills, n).value)
  {
    hide *;
    if n == 0 {
      NothingPartitioned(orders, fills);
    } else {
      GroupsStep(orders, fills, n);
      GroupsPartition(orders, fills, n - 1);
      JoinPartitions(orders, fills, n - 1, GroupsOf(orders, fills, n - 1).value);
    }
  }

  lemma NothingPartitioned(orders: seq<FlowIntent>, fills: seq<FoldFill>)
    requires |orders| <= |fills|
    ensures GroupsOf(orders, fills, 0) == Ok([]) && Partitions(orders, fills, 0, [])
  {
  }

  lemma GroupsStep(orders: seq<FlowIntent>, fills: seq<FoldFill>, n: nat)
    requires 0 < n <= |orders| <= |fills| && GroupsOf(orders, fills, n).Ok?
    ensures GroupsOf(orders, fills, n - 1).Ok?
    ensures GroupsOf(orders, fills, n)
         == Join(GroupsOf(orders, fills, n - 1).value, orders[n - 1], fills[n - 1], n - 1)
  {
    hide Join;
  }

  // ---------------------------------------------------------------- distribution

  /** Dust goes to the member with the lowest (owner, nonce). */
  predicate Before(a: FlowIntent, b: FlowIntent) {
    a.owner < b.owner || (a.owner == b.owner && a.nonce < b.nonce)
  }

  predicate Member(g: ResidualGroup, i: nat) {
    i in g.members
  }

  /** What member i gets before dust: its owed output and its share of the surplus. */
  function BaseShare(o: FlowIntent, f: FoldFill, g: ResidualGroup, surplus: nat): (share: nat)
    requires g.amountIn > 0
    ensures share >= Shortfall(o, f)
  {
    Shortfall(o, f) + surplus * Residual(o, f) / g.amountIn
  }

  function BaseShares(orders: seq<FlowIntent>, fills: seq<FoldFill>, g: ResidualGroup, surplus: nat): (xs: seq<nat>)
    requires |orders| <= |fills| && g.amountIn > 0
    ensures |xs| == |orders|
  {
    seq(|orders|, i requires 0 <= i < |orders| => if Member(g, i) then BaseShare(orders[i], fills[i], g, surplus) else 0)
  }

  /** The lowest member among the first n orders, the earliest one on a tie. */
  function Lowest(orders: seq<FlowIntent>, g: ResidualGroup, n: nat): (r: Option<nat>)
    requires n <= |orders|
    ensures r.Some? ==> r.value < n && Member(g, r.value)
    ensures r.None? ==> forall i :: 0 <= i < n ==> !Member(g, i)
    ensures r.Some? ==> forall i :: 0 <= i < n && Member(g, i) ==> !Before(orders[i], orders[r.value])
  {
    if n == 0 then None
    else
      var r := Lowest(orders, g, n - 1);
      if Member(g, n - 1) && (r.None? || Before(orders[n - 1], orders[r.value])) then Some(n - 1) else r
  }

  /** What was not handed out yet goes to one position. */
  ghost function WithDust(base: seq<int>, i: nat, observed: int): (xs: seq<int>)
    requires i < |base|
    ensures |xs| == |base|
  {
    base[i := base[i] + observed - Sum(base)]
  }

  /** Everything a group receives, order by order. */
  ghost function Distribution(orders: seq<FlowIntent>, fills: seq<FoldFill>, g: ResidualGroup, observed: nat): (xs: seq<int>)
    requires |orders| <= |fills| && g.amountIn > 0 && observed >= g.minOut
    ensures |xs| == |orders|
  {
    var base := BaseShares(orders, fills, g, observed - g.minOut);
    var first := Lowest(orders, g, |orders|);
    if first.None? then base else WithDust(base, first.value, observed)
  }

  lemma FloorShare(surplus: nat, residual: nat, total: nat)
    requires total > 0
    ensures total * (surplus * residual / total) <= surplus * residual
    ensures residual <= total ==> surplus * residual / total <= surplus
  {
    var q := surplus * residual / total;
    assert surplus * residual == total * q + surplus * residual % total;
    if residual <= total && q > surplus {
      Mono(residual, total, surplus);
      Mono(surplus + 1, q, total);
      assert false;
    }
  }

  /** Flooring every share never hands out more than the surplus. */
  lemma {:induction false} SharesFit(
    residuals: seq<nat>, shortfalls: seq<nat>, shares: seq<nat>, surplus: nat, total: nat)
    requires |residuals| == |shortfalls| == |shares| && total > 0
    requires forall i :: 0 <= i < |shares| ==> shares[i] == shortfalls[i] + surplus * residuals[i] / total
    ensures total * (Sum(shares) - Sum(shortfalls)) <= surplus * Sum(residuals)
  {
    if |shares| > 0 {
      var n := |shares| - 1;
      SharesFit(residuals[..n], shortfalls[..n], shares[..n], surplus, total);
      FloorShare(surplus, residuals[n], total);
      var share := surplus * residuals[n] / total;
      assert total * (Sum(shares[..n]) - Sum(shortfalls[..n]) + share)
             == total * (Sum(shares[..n]) - Sum(shortfalls[..n])) + total * share;
      assert surplus * (Sum(residuals[..n]) + residuals[n])
             == surplus * Sum(residuals[..n]) + surplus * residuals[n];
    }
  }

  /** What the members have left, as a list over all orders. */
  ghost function MemberResiduals(orders: seq<FlowIntent>, fills: seq<FoldFill>, g: ResidualGroup): (xs: seq<nat>)
    requires |orders| <= |fills|
    ensures |xs| == |orders|
  {
    seq(|orders|, i requires 0 <= i < |orders| => if Member(g, i) then Residual(orders[i], fills[i]) else 0)
  }

  ghost function MemberShortfalls(orders: seq<FlowIntent>, fills: seq<FoldFill>, g: ResidualGroup): (xs: seq<nat>)
    requires |orders| <= |fills|
    ensures |xs| == |orders|
  {
    seq(|orders|, i requires 0 <= i < |orders| => if Member(g, i) then Shortfall(orders[i], fills[i]) else 0)
  }

  ghost predicate IsGroup(orders: seq<FlowIntent>, fills: seq<FoldFill>, g: ResidualGroup)
    requires |orders| <= |fills|
  {
    && KnownAssets(orders)
    && Summarises(orders, fills, |orders|, g)
    && (forall i :: 0 <= i < |orders| ==> fills[i].input <= orders[i].amount)
    && (forall i :: 0 <= i < |orders| && Residual(orders[i], fills[i]) == 0 ==> Shortfall(orders[i], fills[i]) == 0)
  }

  /** Group totals are the sums over its members. */
  lemma GroupTotals(orders: seq<FlowIntent>, fills: seq<FoldFill>, g: ResidualGroup)
    requires |orders| <= |fills| && IsGroup(orders, fills, g)
    ensures Sum(MemberResiduals(orders, fills, g)) == g.amountIn
    ensures Sum(MemberShortfalls(orders, fills, g)) == g.minOut
  {
    hide Tally, Sum;
    var n, keys, key := |orders|, PairKeys(orders), PairKey(g.sell, g.buy);
    assert keys[..n] == keys && ResidualInputs(orders, fills)[..n] == ResidualInputs(orders, fills);
    assert Shortfalls(orders, fills)[..n] == Shortfalls(orders, fills);
    TallyIsMaskedSum(keys, ResidualInputs(orders, fills), key);
    TallyIsMaskedSum(keys, Shortfalls(orders, fills), key);
    forall i | 0 <= i < n
      ensures Masked(keys, ResidualInputs(orders, fills), key)[i] == MemberResiduals(orders, fills, g)[i]
      ensures Masked(keys, Shortfalls(orders, fills), key)[i] == MemberShortfalls(orders, fills, g)[i]
    {
      PairKeyInjective(g.sell, g.buy, orders[i].sell, orders[i].buy);
    }
    assert Masked(keys, ResidualInputs(orders, fills), key) == MemberResiduals(orders, fills, g);
    assert Masked(keys, Shortfalls(orders, fills), key) == MemberShortfalls(orders, fills, g);
  }

  /** Before dust, at most the observed output is handed out. */
  lemma BaseSharesFit(orders: seq<FlowIntent>, fills: seq<FoldFill>, g: ResidualGroup, observed: nat)
    requires |orders| <= |fills| && IsGroup(orders, fills, g) && observed >= g.minOut
    ensures Sum(BaseShares(orders, fills, g, observed - g.minOut)) <= observed
  {
    hide Sum, Summarises;
    var surplus := observed - g.minOut;
    SummarisedPositive(orders, fills, g);
    GroupTotals(orders, fills, g);
    var rs, ss, xs :=
      MemberResiduals(orders, fills, g), MemberShortfalls(orders, fills, g), BaseShares(orders, fills, g, surplus);
    assert forall i :: 0 <= i < |xs| && !Member(g, i) ==> surplus * rs[i] / g.amountIn == 0;
    SharesFit(rs, ss, xs, surplus, g.amountIn);
    assert g.amountIn * (Sum(xs) - g.minOut) <= g.amountIn * surplus;
    Cancel(Sum(xs) - g.minOut, surplus, g.amountIn);
  }

  lemma SummarisedPositive(orders: seq<FlowIntent>, fills: seq<FoldFill>, g: ResidualGroup)
    requires |orders| <= |fills| && IsGroup(orders, fills, g)
    ensures g.amountIn > 0 && g.sell < MAX_ASSETS && g.buy < MAX_ASSETS
    ensures exists i :: 0 <= i < |orders| && Member(g, i)
    ensures forall i :: Member(g, i) <==> Belongs(orders, fills, i, g.sell, g.buy)
  {
    var i :| i in g.members;
    assert Member(g, i);
  }

  lemma DustCompletes(base: seq<int>, i: nat, observed: int)
    requires i < |base| && Sum(base) <= observed
    ensures Sum(WithDust(base, i, observed)) == observed
    ensures forall j :: 0 <= j < |base| ==> WithDust(base, i, observed)[j] >= base[j]
    ensures forall j :: 0 <= j < |base| && j != i ==> WithDust(base, i, observed)[j] == base[j]
  {
    SumUpdate(base, i, base[i] + observed - Sum(base));
  }

  /** A group's distribution adds up exactly to what was observed, covers every
      member's owed output and gives nothing to anybody else. */
  lemma DistributionIsExact(orders: seq<FlowIntent>, fills: seq<FoldFill>, g: ResidualGroup, observed: nat)
    requires |orders| <= |fills| && IsGroup(orders, fills, g) && g.amountIn > 0 && observed >= g.minOut
    ensures Sum(Distribution(orders, fills, g, observed)) == observed
    ensures forall i :: 0 <= i < |orders| ==>
              Distribution(orders, fills, g, observed)[i] >= (if Member(g, i) then Shortfall(orders[i], fills[i]) else 0)
    ensures forall i :: 0 <= i < |orders| && !Member(g, i) ==> Distribution(orders, fills, g, observed)[i] == 0
  {
    hide Sum, Summarises, WithDust, Shortfall, BaseShare;
    SummarisedPositive(orders, fills, g);
    BaseSharesFit(orders, fills, g, observed);
    var base := BaseShares(orders, fills, g, observed - g.minOut);
    DustCompletes(base, Lowest(orders, g, |orders|).value, observed);
  }

  // ---------------------------------------------------------------- pro rata

  /** Order i comes before order j: by owner, then by nonce, then by position. */
  predicate Precedes(orders: seq<FlowIntent>, i: nat, j: nat)
    requires i < |orders| && j < |orders|
  {
    || orders[i].owner < orders[j].owner
    || (orders[i].owner == orders[j].owner && orders[i].nonce < orders[j].nonce)
    || (orders[i].owner == orders[j].owner && orders[i].nonce == orders[j].nonce && i < j)
  }

  /** The first member in that order. */
  ghost predicate TakesDust(orders: seq<FlowIntent>, members: set<nat>, i: nat)
    requires forall j :: j in members ==> j < |orders|
  {
    i in members && forall j :: j in members && j != i ==> Precedes(orders, i, j)
  }

  lemma {:induction false} LowestFirst(orders: seq<FlowIntent>, g: ResidualGroup, n: nat)
    requires n <= |orders| && Lowest(orders, g, n).Some?
    ensures forall j :: 0 <= j < n && j in g.members && j != Lowest(orders, g, n).value ==>
              Precedes(orders, Lowest(orders, g, n).value, j)
  {
    var r := Lowest(orders, g, n - 1);
    if r.Some? {
      LowestFirst(orders, g, n - 1);
    }
    forall j | 0 <= j < n && j in g.members && j != Lowest(orders, g, n).value
      ensures Precedes(orders, Lowest(orders, g, n).value, j)
    {
      assert Member(g, j);
      if j < n - 1 && j != r.value {
        assert Precedes(orders, r.value, j);
      }
    }
  }

  /** Flooring every share loses less than one atom a member. */
  lemma {:induction false} SharesTight(
    residuals: seq<nat>, shortfalls: seq<nat>, shares: seq<nat>, members: set<nat>, surplus: nat, total: nat)
    requires |residuals| == |shortfalls| == |shares| && total > 0
    requires forall i :: 0 <= i < |shares| ==> shares[i] == shortfalls[i] + surplus * residuals[i] / total
    requires forall i :: 0 <= i < |shares| && i !in members ==> residuals[i] == 0
    requires forall i :: i in members ==> i < |shares|
    ensures surplus * Sum(residuals) <= total * (Sum(shares) - Sum(shortfalls)) + (total - 1) * |members|
    decreases |shares|
  {
    if |shares| == 0 {
      assert members == {};
    } else {
      var n := |shares| - 1;
      var handed := Sum(shares[..n]) - Sum(shortfalls[..n]);
      SharesTight(residuals[..n], shortfalls[..n], shares[..n], members - {n}, surplus, total);
      FloorBounds(surplus * residuals[n], total);
      if n in members {
        assert |members| == |members - {n}| + 1;
      } else {
        assert members == members - {n};
      }
      var one := |members| - |members - {n}|;
      OneMoreShare(surplus, total, Sum(residuals[..n]), residuals[n], handed, shares[n] - shortfalls[n], |members - {n}|, one);
      hide *;
      SumLast(residuals);
      SumLast(shares);
      SumLast(shortfalls);
    }
  }

  lemma SumLast(xs: seq<int>)
    requires |xs| > 0
    ensures Sum(xs) == Sum(xs[..|xs| - 1]) + xs[|xs| - 1]
  {
  }

  lemma OneMoreShare(surplus: nat, total: nat, before: int, residual: nat, handed: int, share: nat, members: nat, one: nat)
    requires total > 0 && surplus * before <= total * handed + (total - 1) * members
    requires surplus * residual < (share + 1) * total && (one == 1 || (one == 0 && residual == 0))
    ensures surplus * (before + residual) <= total * (handed + share) + (total - 1) * (members + one)
  {
    Distribute(before, residual, surplus);
    Distribute(handed, share, total);
    Distribute(members, one, total - 1);
    Distribute(share, 1, total);
    if one == 0 {
      assert surplus * residual == 0;
      Mono(0, share, total);
    }
  }

  lemma DustArithmetic(surplus: nat, total: nat, handed: int, members: nat)
    requires total > 0 && members > 0 && surplus * total <= total * handed + (total - 1) * members
    ensures surplus < handed + members
  {
    Distribute(handed, members, total);
    Distribute(total - 1, 1, members);
    Cancel(surplus, handed + members, total);
  }

  /** What the members are owed, have left and get before dust. */
  lemma SharesParts(orders: seq<FlowIntent>, fills: seq<FoldFill>, g: ResidualGroup, surplus: nat)
    requires |orders| <= |fills| && g.amountIn > 0
    ensures var rs, ss, xs :=
              MemberResiduals(orders, fills, g), MemberShortfalls(orders, fills, g), BaseShares(orders, fills, g, surplus);
            && (forall i :: 0 <= i < |xs| ==> xs[i] == ss[i] + surplus * rs[i] / g.amountIn)
            && forall i :: 0 <= i < |xs| && i !in g.members ==> rs[i] == 0
  {
    hide Residual, Shortfall;
  }

  /** The dust is less than one atom a member. */
  lemma DustIsSmall(orders: seq<FlowIntent>, fills: seq<FoldFill>, g: ResidualGroup, observed: nat)
    requires |orders| <= |fills| && IsGroup(orders, fills, g) && g.amountIn > 0 && observed >= g.minOut
    ensures observed - Sum(BaseShares(orders, fills, g, observed - g.minOut)) < |g.members|
  {
    hide *;
    var surplus := observed - g.minOut;
    GroupTotals(orders, fills, g);
    MembersPresent(orders, fills, g);
    SharesParts(orders, fills, g, surplus);
    var rs, ss, xs :=
      MemberResiduals(orders, fills, g), MemberShortfalls(orders, fills, g), BaseShares(orders, fills, g, surplus);
    SharesTight(rs, ss, xs, g.members, surplus, g.amountIn);
    DustArithmetic(surplus, g.amountIn, Sum(xs) - g.minOut, |g.members|);
  }

  lemma MembersPresent(orders: seq<FlowIntent>, fills: seq<FoldFill>, g: ResidualGroup)
    requires |orders| <= |fills| && IsGroup(orders, fills, g)
    ensures |g.members| > 0 && forall i :: i in g.members ==> i < |orders|
  {
    SummarisedPositive(orders, fills, g);
    var i :| 0 <= i < |orders| && Member(g, i);
    assert i in g.members;
    hide Belongs, Member;
  }

  /** The surplus over the group's floor is shared in proportion to residual input.
      Beyond its owed output every member gets its share rounded down; the member with
      the lowest owner and nonce gets the dust, too, less than one atom a member. */
  lemma DistributionIsProRata(orders: seq<FlowIntent>, fills: seq<FoldFill>, g: ResidualGroup, observed: nat, i: nat)
    requires |orders| <= |fills| && IsGroup(orders, fills, g) && g.amountIn > 0 && observed >= g.minOut
    requires i in g.members
    ensures i < |orders| && fills[i].input < orders[i].amount && forall j :: j in g.members ==> j < |orders|
    ensures var surplus, left := observed - g.minOut, orders[i].amount - fills[i].input;
            var owed := if fills[i].output < orders[i].minOut then orders[i].minOut - fills[i].output else 0;
            var extra := Distribution(orders, fills, g, observed)[i] - owed;
            && extra * g.amountIn <= surplus * left + (if TakesDust(orders, g.members, i) then |g.members| - 1 else 0) * g.amountIn
            && surplus * left < (extra + 1) * g.amountIn
  {
    hide Sum, Summarises, WithDust;
    SummarisedPositive(orders, fills, g);
    MembersPresent(orders, fills, g);
    assert Member(g, i);
    BaseSharesFit(orders, fills, g, observed);
    DustIsSmall(orders, fills, g, observed);
    var surplus := observed - g.minOut;
    var base, first := BaseShares(orders, fills, g, surplus), Lowest(orders, g, |orders|);
    DustCompletes(base, first.value, observed);
    DustAt(base, first.value, observed);
    LowestFirst(orders, g, |orders|);
    var share := surplus * Residual(orders[i], fills[i]) / g.amountIn;
    FloorBounds(surplus * Residual(orders[i], fills[i]), g.amountIn);
    if i == first.value {
      assert TakesDust(orders, g.members, i);
      var dust := observed - Sum(base);
      Distribute(share, dust, g.amountIn);
      Mono(dust, |g.members| - 1, g.amountIn);
      Mono(share + 1, share + dust + 1, g.amountIn);
    } else {
      assert !TakesDust(orders, g.members, i);
    }
  }

  lemma DustAt(base: seq<int>, i: nat, observed: int)
    requires i < |base|
    ensures WithDust(base, i, observed)[i] == base[i] + observed - Sum(base)
  {
    hide Sum;
  }

  lemma BaseSharesBounded(orders: seq<FlowIntent>, fills: seq<FoldFill>, g: ResidualGroup, observed: nat, i: nat)
    requires |orders| <= |fills| && IsGroup(orders, fills, g) && g.amountIn > 0 && observed >= g.minOut
    requires i < |orders|
    ensures var xs := BaseShares(orders, fills, g, observed - g.minOut);
            xs[i] <= observed && Sum(xs[..i]) + xs[i] <= observed
    ensures Member(g, i) ==> (observed - g.minOut) * Residual(orders[i], fills[i]) / g.amountIn <= observed
  {
    hide Summarises;
    var xs := BaseShares(orders, fills, g, observed - g.minOut);
    BaseSharesFit(orders, fills, g, observed);
    SumConcat(xs[..i + 1], xs[i + 1..]);
    assert xs == xs[..i + 1] + xs[i + 1..];
    SumNonNegative(xs[i + 1..]);
    SumTake(xs, i);
    SumNonNegative(xs[..i]);
  }

  /** The loop of `distribute`: shares before dust, their total and the lowest member. */
  method ShareOut(orders: seq<FlowIntent>, fills: seq<FoldFill>, g: ResidualGroup, observed: nat)
    returns (r: Result<(seq<nat>, nat, Option<nat>)>)
    requires |orders| <= |fills| && IsGroup(orders, fills, g) && g.amountIn > 0
    requires g.minOut <= observed <= U64_MAX
    ensures r.Ok? && r.value.0 == BaseShares(orders, fills, g, observed - g.minOut)
    ensures r.value.1 == Sum(r.value.0) && r.value.2 == Lowest(orders, g, |orders|)
  {
    hide IsGroup, Residual, Shortfall, Sum;
    var surplus := observed - g.minOut;
    ghost var shares := BaseShares(orders, fills, g, surplus);
    var out: seq<nat>, handedOut: nat, first := [], 0, None;
    SumOfNothing();
    for i := 0 to |orders|
      invariant out == shares[..i] && handedOut == Sum(shares[..i])
      invariant first == Lowest(orders, g, i)
    {
      var o := orders[i];
      BaseSharesBounded(orders, fills, g, observed, i);
      SumTake(shares, i);
      if i !in g.members {
        out := out + [0];
        continue;
      }
      assert Member(g, i);
      var share := surplus * Residual(o, fills[i]) / g.amountIn;
      if share > U64_MAX || Shortfall(o, fills[i]) + share > U64_MAX {
        return Err(Arithmetic);
      }
      out := out + [Shortfall(o, fills[i]) + share];
      handedOut := handedOut + Shortfall(o, fills[i]) + share;
      if handedOut > U64_MAX {
        return Err(Arithmetic);
      }
      if first.None? || Before(o, orders[first.value]) {
        first := Some(i);
      }
    }
    assert shares[..|orders|] == shares;
    return Ok((out, handedOut, first));
  }

  lemma SumOfNothing()
    ensures Sum([]) == 0
  {
  }

  lemma GroupsAreGroups(orders: seq<FlowIntent>, fills: seq<FoldFill>, k: nat)
    requires |fills| == MAX_INTENTS && ResidualsOf(orders, fills).Ok?
    requires k < |ResidualsOf(orders, fills).value|
    ensures IsGroup(orders, fills, ResidualsOf(orders, fills).value[k])
  {
    hide Summarises, Conserves, MeetsLimit;
    GroupsPartition(orders, fills, |orders|);
  }

  /** The unfilled input of some orders, and the output they are still owed. */
  ghost function UnfilledIn(orders: seq<FlowIntent>, fills: seq<FoldFill>, members: set<nat>): (xs: seq<nat>)
    requires |orders| <= |fills|
    ensures |xs| == |orders|
  {
    seq(|orders|, i requires 0 <= i < |orders| =>
      if i in members && fills[i].input < orders[i].amount then orders[i].amount - fills[i].input else 0)
  }

  ghost function OwedIn(orders: seq<FlowIntent>, fills: seq<FoldFill>, members: set<nat>): (xs: seq<nat>)
    requires |orders| <= |fills|
    ensures |xs| == |orders|
  {
    seq(|orders|, i requires 0 <= i < |orders| =>
      if i in members && fills[i].output < orders[i].minOut then orders[i].minOut - fills[i].output else 0)
  }

  /** A group is exactly the unfilled orders of its pair, with their unfilled input and
      the output still owed to them. */
  lemma GroupsExactly(orders: seq<FlowIntent>, fills: seq<FoldFill>, k: nat)
    requires |fills| == MAX_INTENTS && ResidualsOf(orders, fills).Ok?
    requires k < |ResidualsOf(orders, fills).value|
    ensures |orders| <= |fills|
    ensures var g := ResidualsOf(orders, fills).value[k];
            && (forall i: nat :: i in g.members <==>
                  && i < |orders| && fills[i].input < orders[i].amount
                  && orders[i].sell == g.sell && orders[i].buy == g.buy)
            && g.amountIn == Sum(UnfilledIn(orders, fills, g.members)) && g.amountIn > 0
            && g.minOut == Sum(OwedIn(orders, fills, g.members))
  {
    hide *;
    var g := ResidualsOf(orders, fills).value[k];
    GroupedInRange(orders, fills);
    GroupsAreGroups(orders, fills, k);
    SummarisedPositive(orders, fills, g);
    GroupTotals(orders, fills, g);
    GroupSet(orders, fills, g);
    GroupMembers(orders, fills, g);
    GroupColumns(orders, fills, g);
  }

  lemma GroupedInRange(orders: seq<FlowIntent>, fills: seq<FoldFill>)
    requires |fills| == MAX_INTENTS && ResidualsOf(orders, fills).Ok?
    ensures |orders| <= |fills|
  {
    hide ValidFold, GroupsOf;
  }

  lemma GroupSet(orders: seq<FlowIntent>, fills: seq<FoldFill>, g: ResidualGroup)
    requires |orders| <= |fills| && IsGroup(orders, fills, g)
    ensures g.members == MembersOf(orders, fills, g.sell, g.buy, |orders|)
  {
    hide Tally;
  }

  lemma GroupMembers(orders: seq<FlowIntent>, fills: seq<FoldFill>, g: ResidualGroup)
    requires |orders| <= |fills| && g.members == MembersOf(orders, fills, g.sell, g.buy, |orders|)
    ensures forall i: nat :: i in g.members <==>
              && i < |orders| && fills[i].input < orders[i].amount
              && orders[i].sell == g.sell && orders[i].buy == g.buy
  {
  }

  lemma GroupColumns(orders: seq<FlowIntent>, fills: seq<FoldFill>, g: ResidualGroup)
    requires |orders| <= |fills|
    ensures UnfilledIn(orders, fills, g.members) == MemberResiduals(orders, fills, g)
    ensures OwedIn(orders, fills, g.members) == MemberShortfalls(orders, fills, g)
  {
  }

  /** Every order with something left is in exactly one group. */
  lemma EveryOrderGrouped(orders: seq<FlowIntent>, fills: seq<FoldFill>, i: nat)
    requires |fills| == MAX_INTENTS && ResidualsOf(orders, fills).Ok? && i < |orders| <= |fills|
    requires fills[i].input < orders[i].amount
    ensures exists k :: 0 <= k < |ResidualsOf(orders, fills).value| && i in ResidualsOf(orders, fills).value[k].members
    ensures forall j, k :: 0 <= j < k < |ResidualsOf(orders, fills).value| ==>
              !(i in ResidualsOf(orders, fills).value[j].members && i in ResidualsOf(orders, fills).value[k].members)
  {
    var groups := ResidualsOf(orders, fills).value;
    hide Summarises, Conserves, MeetsLimit;
    GroupsPartition(orders, fills, |orders|);
    assert Residual(orders[i], fills[i]) > 0;
    var k :| 0 <= k < |groups| && groups[k].sell == orders[i].sell && groups[k].buy == orders[i].buy;
    hide ResidualsOf;
    forall j | 0 <= j < |groups|
      ensures i in groups[j].members <==> groups[j].sell == orders[i].sell && groups[j].buy == orders[i].buy
    {
      GroupsExactly(orders, fills, j);
    }
    assert i in groups[k].members;
  }

  /** `distribute`: it refuses foreign groups and outputs below the group's floor,
      and otherwise returns the distribution; its arithmetic errors cannot occur. */
  method ComputeDistribution(orders: seq<FlowIntent>, fills: seq<FoldFill>, g: ResidualGroup, observed: u64)
    returns (r: Result<seq<nat>>)
    requires |fills| == MAX_INTENTS
    ensures ResidualsOf(orders, fills).Err? ==> r == Err(ResidualsOf(orders, fills).error)
    ensures ResidualsOf(orders, fills).Ok? && g !in ResidualsOf(orders, fills).value ==> r == Err(Identity)
    ensures ResidualsOf(orders, fills).Ok? && g in ResidualsOf(orders, fills).value && observed < g.minOut ==>
              r == Err(MinOut)
    ensures ResidualsOf(orders, fills).Ok? && g in ResidualsOf(orders, fills).value && observed >= g.minOut ==>
              r.Ok? && IsGroup(orders, fills, g) && g.amountIn > 0 && r.value == Distribution(orders, fills, g, observed)
  {
    hide GroupsOf, IsGroup, ValidFold, BaseShare;
    var expected := Residuals(orders, fills);
    if expected.Err? {
      return Err(expected.error);
    }
    if g !in expected.value {
      return Err(Identity);
    }
    if observed < g.minOut {
      return Err(MinOut);
    }
    ghost var k :| 0 <= k < |expected.value| && expected.value[k] == g;
    GroupsAreGroups(orders, fills, k);
    FewOrders(orders, fills);
    SummarisedPositive(orders, fills, g);
    var shared := ShareOut(orders, fills, g, observed);
    var (out, handedOut, first) := shared.value;
    BaseSharesFit(orders, fills, g, observed);
    if observed < handedOut {
      return Err(BalanceInvariant);
    }
    if first.None? {
      return Err(Bounds);
    }
    out := out[first.value := out[first.value] + (observed - handedOut)];
    return Ok(out);
  }

  lemma FewOrders(orders: seq<FlowIntent>, fills: seq<FoldFill>)
    requires |fills| == MAX_INTENTS && ResidualsOf(orders, fills).Ok?
    ensures |orders| <= MAX_INTENTS
  {
  }
}
