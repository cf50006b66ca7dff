/**
 Committing: applying a plan to the side it was made against, by handle. The plan is shown
 to predict every step exactly, so each handle and quantity is valid when it is used.
 */
module Committing {
  import opened Orders
  import opened Matching
  import opened Ladders
  import opened MatchTheorems
  import opened PriceLevels
  import opened OrderBooks
  import opened Planner
  import opened BookModel

  // ----- One fill at a time -----

  /** The next fill of a sweep is against the head of the first level that still holds orders. */
  ghost predicate HeadsUp(ladder: Ladder, a: OrderState, available: Quantity, k: nat, qty: Quantity) {
    && k < |ladder| && ladder[k].queue != [] && a.Crosses(ladder[k].price)
    && 0 < qty <= ladder[k].queue[0].Visible() && qty <= available
    && var m := Match(ladder, a, available);
    && m.fills != [] && m.fills[0] == MakeFill(a, ladder[k].queue[0], ladder[k].price, qty)
    && Match(ladder[k := LevelState(ladder[k].price, AfterTrade(ladder[k].queue, qty))], a, available - qty) ==
         m.(fills := m.fills[1..])
  }

  lemma {:induction false} NextHead(ladder: Ladder, a: OrderState, available: Quantity) returns (k: nat, qty: Quantity)
    requires Match(ladder, a, available).fills != []
    ensures HeadsUp(ladder, a, available, k, qty)
  {
    if ladder[0].queue == [] {
      k, qty := NextHead(ladder[1..], a, available);
      k := k + 1;
      var level := LevelState(ladder[k].price, AfterTrade(ladder[k].queue, qty));
      assert ladder[k := level][1..] == ladder[1..][k - 1 := level];
    } else {
      k, qty := 0, Min(available, ladder[0].queue[0].Visible());
      assert ladder[0 := LevelState(ladder[0].price, AfterTrade(ladder[0].queue, qty))] == Traded(ladder, qty);
    }
  }

  /** A sweep with nothing left to do leaves the ladder as it is, but for spent levels in front. */
  lemma {:induction false} SweepDone(ladder: Ladder, a: OrderState, available: Quantity)
    requires Match(ladder, a, available).fills == []
    ensures Match(ladder, a, available).ladder == DropEmptyFront(ladder)
  {
    if ladder != [] && ladder[0].queue == [] {
      SweepDone(ladder[1..], a, available);
    }
  }

  lemma {:induction false} TradeAtKept(side: Side, ladder: Ladder, a: OrderState, k: nat, qty: Quantity)
    requires Kept(side, ladder, a) && k < |ladder| && ladder[k].queue != [] && qty <= ladder[k].queue[0].Visible()
    requires a.Crosses(ladder[k].price)
    ensures Kept(side, ladder[k := LevelState(ladder[k].price, AfterTrade(ladder[k].queue, qty))], a)
    ensures ladder[k].queue[0].Healthy()
  {
    var level := LevelState(ladder[k].price, AfterTrade(ladder[k].queue, qty));
    if k == 0 {
      TradedKept(side, ladder, a, qty);
      assert ladder[0 := level] == Traded(ladder, qty);
      assert ladder[0].queue[0] in ladder[0].queue;
    } else {
      TradeAtKept(side, ladder[1..], a, k - 1, qty);
      assert ladder[k := level][1..] == ladder[1..][k - 1 := level];
      assert ladder[k := level][0] == ladder[0];
    }
  }

  // ----- Handles -----

  /** Every node now in a level was in it when the plan was made, with the same id and handle. */
  ghost predicate Lineage(before: Roster, now: Roster) {
    && |now| == |before|
    && forall k, j :: 0 <= k < |now| && 0 <= j < |now[k]| ==> Names(before[k], now[k][j].handle, now[k][j].order.id)
  }

  lemma LineageStarts(roster: Roster)
    ensures Lineage(roster, roster)
  {
  }

  lemma LineageAfterTrade(before: Roster, now: Roster, k: nat, qty: Quantity)
    requires Lineage(before, now) && k < |now| && now[k] != []
    ensures Lineage(before, now[k := TradedNodes(now[k], qty)])
  {
    var nodes := TradedNodes(now[k], qty);
    forall j | 0 <= j < |nodes| ensures Names(before[k], nodes[j].handle, nodes[j].order.id) {
      assert exists i :: 0 <= i < |now[k]| && now[k][i].handle == nodes[j].handle && now[k][i].order.id == nodes[j].order.id by {
        var head := now[k][0].order.Filled(qty);
        if head.remaining == 0 {
          assert nodes[j] == now[k][j + 1];
        } else if head.Visible() == 0 {
          assert j < |nodes| - 1 ==> nodes[j] == now[k][j + 1];
        } else {
          assert j > 0 ==> nodes[j] == now[k][j];
        }
      }
    }
  }

  /** A planned handle that names the head's id is the head's handle, and its level the head's level. */
  lemma HandleIsHead(side: Side, levels: seq<PriceLevel>, before: Roster, index: map<OrderId, Locator>,
                     now: Roster, f: PlannedFill, k: nat)
    requires Exact(side, levels, before, index) && Lineage(before, now) && HandleValid(levels, before, f)
    requires k < |now| && now[k] != [] && f.price == levels[k].price && f.restingId == now[k][0].order.id
    ensures f.level == levels[k] && f.resting == now[k][0].handle
  {
    var k' :| 0 <= k' < |levels| && f.level == levels[k'] && f.price == levels[k'].price &&
              Names(before[k'], f.resting, f.restingId);
    assert k' == k;
    var i :| 0 <= i < |before[k]| && before[k][i].handle == f.resting && before[k][i].order.id == f.restingId;
    assert Names(before[k], now[k][0].handle, now[k][0].order.id);
    var j :| 0 <= j < |before[k]| && before[k][j].handle == now[k][0].handle && before[k][j].order.id == now[k][0].order.id;
    StandsOnce(side, levels, before, index, k, i, k, j);
  }

  // ----- Applying the plan -----

  /** What is left of the plan is exactly the sweep still to come from the side as it now is. */
  ghost predicate InStep(side: Side, ladder: Ladder, a: OrderState, left: Quantity,
                         todo: seq<PlannedFill>, final: Ladder) {
    && Kept(side, ladder, a)
    && Match(ladder, a, left).fills == AsFills(a, todo)
    && Match(ladder, a, left).ladder == final
  }

  /** One step of the plan, said of values: the head it trades with, and the step it leaves us in. */
  lemma StepAhead(side: Side, ladder: Ladder, a: OrderState, left: Quantity, todo: seq<PlannedFill>, final: Ladder)
    returns (k: nat)
    requires InStep(side, ladder, a, left, todo, final) && todo != []
    ensures k < |ladder| && ladder[k].queue != [] && todo[0].quantity <= left
    ensures todo[0].price == ladder[k].price && todo[0].restingId == ladder[k].queue[0].id
    ensures todo[0].quantity <= ladder[k].queue[0].Visible() <= ladder[k].queue[0].remaining
    ensures InStep(side, ladder[k := LevelState(ladder[k].price, AfterTrade(ladder[k].queue, todo[0].quantity))],
                   a, left - todo[0].quantity, todo[1..], final)
  {
    var qty;
    k, qty := NextHead(ladder, a, left);
    assert AsFill(a, todo[0]) == Match(ladder, a, left).fills[0];
    assert AsFills(a, todo)[1..] == AsFills(a, todo[1..]);
    TradeAtKept(side, ladder, a, k, qty);
  }

  /** Applies the first planned fill of `todo` through its handle. */
  method CommitOne(opposite: OrderBook, f: PlannedFill, ghost a: OrderState, ghost left: Quantity,
                   ghost todo: seq<PlannedFill>, ghost final: Ladder,
                   ghost before: Roster, ghost index: map<OrderId, Locator>)
    requires opposite.Valid() && todo != [] && todo[0] == f
    requires InStep(opposite.side, opposite.State(), a, left, todo, final)
    requires Exact(opposite.side, opposite.levels, before, index) && Lineage(before, opposite.roster)
    requires HandleValid(opposite.levels, before, f)
    modifies opposite`index, opposite`roster, opposite.levels
    ensures opposite.Valid() && f.quantity <= left
    ensures InStep(opposite.side, opposite.State(), a, left - f.quantity, todo[1..], final)
    ensures Lineage(before, opposite.roster)
  {
    ghost var k := StepAhead(opposite.side, opposite.State(), a, left, todo, final);
    HandleIsHead(opposite.side, opposite.levels, before, index, opposite.roster, f, k);
    LineageAfterTrade(before, opposite.roster, k, f.quantity);
    assert opposite.levels[k] in opposite.levels;
    opposite.Execute(f.level, f.resting, f.quantity, k);
  }

  lemma {:induction false} ConsumedAppend(o: OrderState, fills: seq<Fill>, f: Fill)
    ensures ConsumedBy(o, fills + [f]) == ConsumedBy(o, fills).Filled(f.quantity)
    decreases |fills|
  {
    if fills == [] {
      assert [f][1..] == [] && fills + [f] == [f];
      assert ConsumedBy(o.Filled(f.quantity), []) == o.Filled(f.quantity);
    } else {
      assert (fills + [f])[1..] == fills[1..] + [f];
      ConsumedAppend(o.Filled(fills[0].quantity), fills[1..], f);
    }
  }

  /** The fills reported and the aggressor reached after the first `i` planned fills. */
  ghost predicate Recorded(a: OrderState, plan: seq<PlannedFill>, i: nat, start: OrderState,
                           after: OrderState, made: seq<Fill>) {
    i <= |plan| && made == AsFills(a, plan[..i]) && after == ConsumedBy(start, made)
  }

  lemma RecordedStep(a: OrderState, plan: seq<PlannedFill>, i: nat, start: OrderState,
                     after: OrderState, made: seq<Fill>)
    requires Recorded(a, plan, i, start, after, made) && i < |plan|
    ensures Recorded(a, plan, i + 1, start, after.Filled(plan[i].quantity), made + [AsFill(a, plan[i])])
  {
    assert AsFills(a, plan[..i + 1]) == AsFills(a, plan[..i]) + [AsFill(a, plan[i])];
    ConsumedAppend(start, made, AsFill(a, plan[i]));
  }

  /** The plan so far: `i` fills are applied and recorded, and the rest of the sweep is still ahead. */
  ghost predicate Midway(opposite: OrderBook, a: OrderState, plan: seq<PlannedFill>, i: nat, left: Quantity,
                         final: Ladder, before: Roster)
    requires |opposite.levels| == |opposite.roster|
    reads opposite
  {
    && i <= |plan| && Lineage(before, opposite.roster)
    && InStep(opposite.side, opposite.State(), a, left, plan[i..], final)
  }

  /** Applies planned fill `i` and reports it. */
  method CommitNext(opposite: OrderBook, aggressor: OrderState, plan: seq<PlannedFill>, i: nat,
                    after: OrderState, made: seq<Fill>, ghost a: OrderState, ghost left: Quantity,
                    ghost final: Ladder, ghost before: Roster, ghost index: map<OrderId, Locator>)
    returns (after': OrderState, made': seq<Fill>, ghost left': Quantity)
    requires opposite.Valid() && i < |plan| && Midway(opposite, a, plan, i, left, final, before)
    requires Exact(opposite.side, opposite.levels, before, index) && HandlesValid(opposite.levels, before, plan)
    requires aggressor.id == a.id && aggressor.account == a.account && aggressor.side == a.side
    requires Recorded(a, plan, i, aggressor, after, made)
    modifies opposite`index, opposite`roster, opposite.levels
    ensures opposite.Valid() && Midway(opposite, a, plan, i + 1, left', final, before)
    ensures Recorded(a, plan, i + 1, aggressor, after', made')
  {
    var f := plan[i];
    CommitOne(opposite, f, a, left, plan[i..], final, before, index);
    assert plan[i..][1..] == plan[i + 1..];
    RecordedStep(a, plan, i, aggressor, after, made);
    after' := after.Filled(f.quantity);
    made' := made + [Fill(aggressor.id, f.restingId, f.price, f.quantity,
                          aggressor.account, f.restingAccount, aggressor.side)];
    left' := left - f.quantity;
  }

  /** Applies every planned fill, one after another. */
  method ApplyPlan(opposite: OrderBook, aggressor: OrderState, plan: seq<PlannedFill>,
                   ghost a: OrderState, ghost wanted: Quantity, ghost final: Ladder)
    returns (after: OrderState, made: seq<Fill>, ghost left: Quantity)
    requires opposite.Valid() && Midway(opposite, a, plan, 0, wanted, final, opposite.roster)
    requires HandlesValid(opposite.levels, opposite.roster, plan)
    requires aggressor.id == a.id && aggressor.account == a.account && aggressor.side == a.side
    modifies opposite`index, opposite`roster, opposite.levels
    ensures opposite.Valid() && Midway(opposite, a, plan, |plan|, left, final, old(opposite.roster))
    ensures Recorded(a, plan, |plan|, aggressor, after, made)
  {
    ghost var before, index := opposite.roster, opposite.index;
    after, made, left := aggressor, [], wanted;
    for i := 0 to |plan|
      invariant opposite.Valid() && Midway(opposite, a, plan, i, left, final, before)
      invariant Recorded(a, plan, i, aggressor, after, made)
    {
      after, made, left := CommitNext(opposite, aggressor, plan, i, after, made, a, left, final, before, index);
    }
  }

  /** Applies every planned fill, then discards the levels that emptied. */
  method CommitFills(opposite: OrderBook, aggressor: OrderState, plan: seq<PlannedFill>,
                     ghost a: OrderState, ghost wanted: Quantity, ghost final: Ladder)
    returns (after: OrderState, made: seq<Fill>)
    requires opposite.Valid() && InStep(opposite.side, opposite.State(), a, wanted, plan, final)
    requires HandlesValid(opposite.levels, opposite.roster, plan)
    requires aggressor.id == a.id && aggressor.account == a.account && aggressor.side == a.side
    modifies opposite, opposite.levels
    ensures opposite.Valid() && opposite.State() == final
    ensures forall l :: l in opposite.levels ==> l in old(opposite.levels)
    ensures made == AsFills(a, plan) && after == ConsumedBy(aggressor, AsFills(a, plan))
  {
    ghost var left;
    LineageStarts(opposite.roster);
    assert plan[0..] == plan && plan[|plan|..] == [];
    after, made, left := ApplyPlan(opposite, aggressor, plan, a, wanted, final);
    assert plan[..|plan|] == plan;
    SweepDone(opposite.State(), a, left);
    opposite.DropEmptyLevelsFromFront();
  }
}
