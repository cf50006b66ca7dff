/**
 How far an order gets, told from the side it meets alone: what it can take before its limit or its
 own account stops it. The sweep's remainder and its self-match verdict follow from that in closed form.
 */
module Reach {
  import opened Orders
  import opened Matching
  import opened Ladders
  import opened MatchTheorems

  /** The account has an order in this queue. */
  predicate HasOwn(queue: seq<OrderState>, account: AccountId) {
    queue != [] && (queue[0].account == account || HasOwn(queue[1..], account))
  }

  /** What the orders ahead of the account's first one show. */
  function ShownAhead(queue: seq<OrderState>, account: AccountId): nat {
    if queue == [] || queue[0].account == account then 0
    else queue[0].Visible() + ShownAhead(queue[1..], account)
  }

  /** What one level yields: one tranche of each order ahead of the account's own, or else everything. */
  function LevelReach(queue: seq<OrderState>, account: AccountId): nat {
    if HasOwn(queue, account) then ShownAhead(queue, account) else QueueSum(queue, Remaining)
  }

  /** What the order can take from the side at most. */
  function Reachable(ladder: Ladder, a: OrderState): nat {
    if ladder == [] || !a.Crosses(ladder[0].price) then 0
    else if HasOwn(ladder[0].queue, a.account) then LevelReach(ladder[0].queue, a.account)
    else LevelReach(ladder[0].queue, a.account) + Reachable(ladder[1..], a)
  }

  /** Its own account stands somewhere its limit reaches. */
  predicate MeetsOwn(ladder: Ladder, a: OrderState) {
    && ladder != [] && a.Crosses(ladder[0].price)
    && (HasOwn(ladder[0].queue, a.account) || MeetsOwn(ladder[1..], a))
  }

  lemma {:induction false} OwnAtBack(queue: seq<OrderState>, o: OrderState, account: AccountId)
    requires o.account != account
    ensures HasOwn(queue + [o], account) == HasOwn(queue, account)
    ensures HasOwn(queue, account) ==> ShownAhead(queue + [o], account) == ShownAhead(queue, account)
  {
    if queue == [] {
      assert queue + [o] == [o] && [o][1..] == [];
    } else {
      assert (queue + [o])[1..] == queue[1..] + [o];
      OwnAtBack(queue[1..], o, account);
    }
  }

  /** A trade with the head takes its quantity off what the level yields, and the account's order stays. */
  lemma LevelReachAfterTrade(queue: seq<OrderState>, account: AccountId, qty: Quantity)
    requires queue != [] && queue[0].Healthy() && qty <= queue[0].Visible() && queue[0].account != account
    ensures HasOwn(AfterTrade(queue, qty), account) == HasOwn(queue, account)
    ensures LevelReach(AfterTrade(queue, qty), account) + qty == LevelReach(queue, account)
  {
    var head := queue[0].Filled(qty);
    TradeSum(queue, qty);
    OwnAtBack(queue[1..], head.Replenished(), account);
    assert ([head] + queue[1..])[1..] == queue[1..];
  }

  lemma ReachAfterTrade(ladder: Ladder, a: OrderState, available: Quantity)
    requires Trades(ladder, a, available) && ladder[0].queue[0].Healthy()
    ensures var qty := Min(available, ladder[0].queue[0].Visible());
      && Reachable(Traded(ladder, qty), a) + qty == Reachable(ladder, a)
      && MeetsOwn(Traded(ladder, qty), a) == MeetsOwn(ladder, a)
  {
    var qty := Min(available, ladder[0].queue[0].Visible());
    LevelReachAfterTrade(ladder[0].queue, a.account, qty);
    assert Traded(ladder, qty)[1..] == ladder[1..];
  }

  /** Past the limit there is nothing: prices only get worse. */
  lemma SpentLevel(side: Side, ladder: Ladder, a: OrderState)
    requires Kept(side, ladder, a) && a.side == side.Opposite() && ladder != [] && ladder[0].queue == []
    ensures Reachable(ladder, a) == Reachable(ladder[1..], a) && MeetsOwn(ladder, a) == MeetsOwn(ladder[1..], a)
  {
  }

  /** What the sweep leaves and whether it was blocked, from what the order could reach. */
  ghost predicate StopsAsReached(m: MatchResult, available: Quantity, reachable: nat, meetsOwn: bool) {
    && m.left == available - Min(available, reachable)
    && (m.blocked <==> meetsOwn && available > reachable)
  }

  lemma NothingReached(ladder: Ladder, a: OrderState, available: Quantity)
    requires HealthyFor(ladder, a) && !(ladder != [] && ladder[0].queue == []) && !Trades(ladder, a, available)
    ensures StopsAsReached(Match(ladder, a, available), available, Reachable(ladder, a), MeetsOwn(ladder, a))
  {
    if ladder != [] && a.Crosses(ladder[0].price) {
      assert ladder[0].queue[0].Healthy();
    }
  }

  /** Closed form of every sweep, blocked ones included. */
  lemma {:induction false} SweepReach(side: Side, ladder: Ladder, a: OrderState, available: Quantity)
    requires Kept(side, ladder, a) && a.side == side.Opposite()
    ensures StopsAsReached(Match(ladder, a, available), available, Reachable(ladder, a), MeetsOwn(ladder, a))
    decreases available, |ladder|
  {
    if ladder != [] && ladder[0].queue == [] {
      SpentLevel(side, ladder, a);
      SweepReach(side, ladder[1..], a, available);
    } else if Trades(ladder, a, available) {
      var qty := Min(available, ladder[0].queue[0].Visible());
      assert ladder[0].queue[0].Healthy();
      ReachAfterTrade(ladder, a, available);
      TradedKept(side, ladder, a, qty);
      SweepReach(side, Traded(ladder, qty), a, available - qty);
    } else {
      NothingReached(ladder, a, available);
    }
  }
}
