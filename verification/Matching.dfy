/**
 The reference matcher: repeatedly trade the head of the best level, then pop or rotate
 it. No plan, no handles, no cached totals. The planner and the two-phase commit of
 Book.dfy are proved to compute exactly this.
 */
module Matching {
  import opened Orders

  datatype LevelState = LevelState(price: Price, queue: seq<OrderState>)

  /** The levels of a side, best first. */
  type Ladder = seq<LevelState>

  datatype Fill = Fill(
    aggressorId: OrderId, restingId: OrderId, price: Price, quantity: Quantity,
    aggressorAccount: AccountId, restingAccount: AccountId, aggressorSide: Side)

  datatype MatchResult = MatchResult(fills: seq<Fill>, ladder: Ladder, left: Quantity, blocked: bool)

  /** The queue after its head traded `qty`: popped, rotated with a fresh tranche, or reduced. */
  function AfterTrade(queue: seq<OrderState>, qty: Quantity): seq<OrderState>
    requires queue != []
  {
    var head := queue[0].Filled(qty);
    if head.remaining == 0 then queue[1..]
    else if head.Visible() == 0 then queue[1..] + [head.Replenished()]
    else [head] + queue[1..]
  }

  function MakeFill(aggressor: OrderState, resting: OrderState, price: Price, qty: Quantity): Fill {
    Fill(aggressor.id, resting.id, price, qty, aggressor.account, resting.account, aggressor.side)
  }

  /** The best level offers the aggressor a counterparty other than itself. */
  predicate Trades(ladder: Ladder, aggressor: OrderState, available: Quantity) {
    && Reaches(ladder, aggressor, available)
    && ladder[0].queue[0].account != aggressor.account
    && ladder[0].queue[0].Visible() > 0
  }

  /** The aggressor has quantity left and its limit admits the best order of the side. */
  predicate Reaches(ladder: Ladder, aggressor: OrderState, available: Quantity) {
    ladder != [] && ladder[0].queue != [] && available > 0 && aggressor.Crosses(ladder[0].price)
  }

  /** The ladder after the head of its best level traded `qty`. */
  function Traded(ladder: Ladder, qty: Quantity): Ladder
    requires ladder != [] && ladder[0].queue != []
  {
    [LevelState(ladder[0].price, AfterTrade(ladder[0].queue, qty))] + ladder[1..]
  }

  /** Self-match prevention stops at the aggressor's own resting order. */
  function Match(ladder: Ladder, aggressor: OrderState, available: Quantity): (m: MatchResult)
    ensures m.left <= available
    decreases available, |ladder|
  {
    if ladder != [] && ladder[0].queue == [] then
      Match(ladder[1..], aggressor, available)
    else if !Trades(ladder, aggressor, available) then
      MatchResult([], ladder, available,
                  Reaches(ladder, aggressor, available) && ladder[0].queue[0].account == aggressor.account)
    else
      var head := ladder[0].queue[0];
      var qty := Min(available, head.Visible());
      var next := Match(Traded(ladder, qty), aggressor, available - qty);
      next.(fills := [MakeFill(aggressor, head, ladder[0].price, qty)] + next.fills)
  }
}
