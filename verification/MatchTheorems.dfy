/**
 What one sweep of the reference matcher does, for every ladder and every aggressor.
 */
module MatchTheorems {
  import opened Orders
  import opened Matching
  import opened Ladders

  // ----- One trade -----

  lemma TradeKeepsHealth(queue: seq<OrderState>, qty: Quantity)
    requires queue != [] && HealthyQueue(queue) && qty <= queue[0].Visible()
    ensures HealthyQueue(AfterTrade(queue, qty))
  {
    assert queue[0].Healthy();
  }

  lemma TradeSum(queue: seq<OrderState>, qty: Quantity)
    requires queue != [] && queue[0].Healthy() && qty <= queue[0].Visible()
    ensures QueueSum(AfterTrade(queue, qty), Remaining) + qty == QueueSum(queue, Remaining)
  {
    QueueSumAppend(queue[1..], [queue[0].Filled(qty).Replenished()], Remaining);
    QueueSumAppend([queue[0].Filled(qty)], queue[1..], Remaining);
  }

  lemma TradeCount(queue: seq<OrderState>, qty: Quantity, m: Amount)
    requires queue != [] && (m.WithId? || m.WithSequence?)
    ensures QueueSum(AfterTrade(queue, qty), m) <= QueueSum(queue, m)
  {
    var head := queue[0].Filled(qty);
    assert AmountOf(head, m) == AmountOf(head.Replenished(), m) == AmountOf(queue[0], m);
    QueueSumAppend(queue[1..], [head.Replenished()], m);
    QueueSumAppend([head], queue[1..], m);
  }

  // ----- Shape over a whole sweep -----

  /** A side as a sweep needs it: in shape, and showing quantity wherever the aggressor may trade. */
  ghost predicate Kept(side: Side, ladder: Ladder, a: OrderState) {
    Shaped(side, ladder) && HealthyFor(ladder, a)
  }

  lemma TradeKeepsTimeOrder(queue: seq<OrderState>, qty: Quantity)
    requires queue != [] && queue[0].Healthy() && qty <= queue[0].Visible()
    requires InTimeOrder(queue)
    ensures InTimeOrder(AfterTrade(queue, qty))
  {
    var after := AfterTrade(queue, qty);
    var head := queue[0].Filled(qty);
    assert forall i :: 0 <= i < |queue| - 1 ==> queue[1..][i] == queue[i + 1];
  }

  lemma TradedKept(side: Side, ladder: Ladder, a: OrderState, qty: Quantity)
    requires ladder != [] && ladder[0].queue != [] && qty <= ladder[0].queue[0].Visible()
    requires Kept(side, ladder, a) && a.Crosses(ladder[0].price)
    ensures Kept(side, Traded(ladder, qty), a)
  {
    var queue := ladder[0].queue;
    var traded := Traded(ladder, qty);
    assert queue[0].Healthy();
    assert traded[1..] == ladder[1..];
    TradeKeepsHealth(queue, qty);
    TradeKeepsTimeOrder(queue, qty);
    var head := queue[0].Filled(qty);
    forall o | o in traded[0].queue ensures o.side == side && o.RestingPrice() == Some(traded[0].price) {
      assert o in queue || o == head || o == head.Replenished();
    }
  }

  /** A sweep keeps the side sorted, seated, in time order, and showing quantity where it did. */
  lemma {:induction false} SweepKeepsShape(side: Side, ladder: Ladder, a: OrderState, available: Quantity)
    requires Kept(side, ladder, a)
    ensures Kept(side, Match(ladder, a, available).ladder, a)
    decreases available, |ladder|
  {
    if ladder != [] && ladder[0].queue == [] {
      SweepKeepsShape(side, ladder[1..], a, available);
    } else if Trades(ladder, a, available) {
      var qty := Min(available, ladder[0].queue[0].Visible());
      TradedKept(side, ladder, a, qty);
      SweepKeepsShape(side, Traded(ladder, qty), a, available - qty);
    }
  }

  lemma {:induction false} SweepKeepsHealth(ladder: Ladder, a: OrderState, available: Quantity)
    requires Healthy(ladder)
    ensures Healthy(Match(ladder, a, available).ladder)
    decreases available, |ladder|
  {
    if ladder != [] && ladder[0].queue == [] {
      SweepKeepsHealth(ladder[1..], a, available);
    } else if Trades(ladder, a, available) {
      var qty := Min(available, ladder[0].queue[0].Visible());
      TradeKeepsHealth(ladder[0].queue, qty);
      assert Traded(ladder, qty)[1..] == ladder[1..];
      SweepKeepsHealth(Traded(ladder, qty), a, available - qty);
    }
  }

  ghost predicate EmptyOnlyInFront(ladder: Ladder) {
    ladder == [] || NoEmptyLevel(ladder[1..])
  }

  /** Dropping levels only from the front is enough: no empty level survives a sweep. */
  lemma {:induction false} SweepLeavesNoEmptyLevel(ladder: Ladder, a: OrderState, available: Quantity)
    requires EmptyOnlyInFront(ladder)
    ensures NoEmptyLevel(Match(ladder, a, available).ladder)
    decreases available, |ladder|
  {
    if ladder != [] && ladder[0].queue == [] {
      SweepLeavesNoEmptyLevel(ladder[1..], a, available);
    } else if Trades(ladder, a, available) {
      var qty := Min(available, ladder[0].queue[0].Visible());
      assert Traded(ladder, qty)[1..] == ladder[1..];
      SweepLeavesNoEmptyLevel(Traded(ladder, qty), a, available - qty);
    }
  }

  /** A sweep brings no order into the side it trades against. */
  lemma {:induction false} SweepAddsNoOrder(ladder: Ladder, a: OrderState, available: Quantity, m: Amount)
    requires m.WithId? || m.WithSequence?
    ensures LadderSum(Match(ladder, a, available).ladder, m) <= LadderSum(ladder, m)
    decreases available, |ladder|
  {
    if ladder != [] && ladder[0].queue == [] {
      SweepAddsNoOrder(ladder[1..], a, available, m);
    } else if Trades(ladder, a, available) {
      var qty := Min(available, ladder[0].queue[0].Visible());
      TradeCount(ladder[0].queue, qty, m);
      assert Traded(ladder, qty)[1..] == ladder[1..];
      SweepAddsNoOrder(Traded(ladder, qty), a, available - qty, m);
    }
  }

  // ----- Quantity -----

  function FillSum(fills: seq<Fill>): nat {
    if fills == [] then 0 else fills[0].quantity + FillSum(fills[1..])
  }

  /** The remaining quantity, hidden size included, of every level up to the price `worst`. */
  function QtyThrough(side: Side, ladder: Ladder, worst: Price): nat {
    if ladder == [] || Better(side, worst, ladder[0].price) then 0
    else QueueSum(ladder[0].queue, Remaining) + QtyThrough(side, ladder[1..], worst)
  }

  /** What a side can offer an aggressor: everything to a market order, else what its limit admits. */
  function Offered(side: Side, ladder: Ladder, a: OrderState): nat {
    if a.terms.Market? then LadderSum(ladder, Remaining) else QtyThrough(side, ladder, a.terms.limit)
  }

  lemma OfferedAfterTrade(side: Side, ladder: Ladder, a: OrderState, available: Quantity)
    requires Kept(side, ladder, a) && Trades(ladder, a, available) && a.side == side.Opposite()
    ensures var qty := Min(available, ladder[0].queue[0].Visible());
      && Offered(side, Traded(ladder, qty), a) + qty == Offered(side, ladder, a)
      && LadderSum(Traded(ladder, qty), Remaining) + qty == LadderSum(ladder, Remaining)
  {
    var qty := Min(available, ladder[0].queue[0].Visible());
    assert ladder[0].queue[0].Healthy();
    TradeSum(ladder[0].queue, qty);
    assert Traded(ladder, qty)[1..] == ladder[1..];
  }

  /** Fills and remainder add up to what was wanted, fills and the ladder left to the ladder before. */
  ghost predicate Conserved(ladder: Ladder, available: Quantity, m: MatchResult) {
    && FillSum(m.fills) + m.left == available
    && FillSum(m.fills) + LadderSum(m.ladder, Remaining) == LadderSum(ladder, Remaining)
  }

  lemma TradeConserves(side: Side, ladder: Ladder, a: OrderState, available: Quantity)
    requires Kept(side, ladder, a) && a.side == side.Opposite() && Trades(ladder, a, available)
    requires var qty := Min(available, ladder[0].queue[0].Visible());
      Conserved(Traded(ladder, qty), available - qty, Match(Traded(ladder, qty), a, available - qty))
    ensures Conserved(ladder, available, Match(ladder, a, available))
  {
    var qty := Min(available, ladder[0].queue[0].Visible());
    OfferedAfterTrade(side, ladder, a, available);
    assert Match(ladder, a, available).fills[1..] == Match(Traded(ladder, qty), a, available - qty).fills;
  }

  /** No quantity is created or lost by a sweep. */
  lemma {:induction false} SweepConserves(side: Side, ladder: Ladder, a: OrderState, available: Quantity)
    requires Kept(side, ladder, a) && a.side == side.Opposite()
    ensures Conserved(ladder, available, Match(ladder, a, available))
    decreases available, |ladder|
  {
    if ladder != [] && ladder[0].queue == [] {
      SweepConserves(side, ladder[1..], a, available);
    } else if Trades(ladder, a, available) {
      var qty := Min(available, ladder[0].queue[0].Visible());
      TradedKept(side, ladder, a, qty);
      SweepConserves(side, Traded(ladder, qty), a, available - qty);
      TradeConserves(side, ladder, a, available);
    }
  }

  /** Unblocked, the sweep left what was not offered; blocked, it left more. */
  ghost predicate TakesOffered(m: MatchResult, available: Quantity, offered: nat) {
    && (!m.blocked ==> m.left == available - Min(available, offered))
    && (m.blocked ==> available - Min(available, offered) < m.left <= available)
  }

  /**
   Closed form of a sweep: unless the aggressor runs into its own order it takes the smaller
   of what it wants and what the opposite side offers at its limit; blocked, it stops short of both.
   */
  lemma {:induction false} SweepClosedForm(side: Side, ladder: Ladder, a: OrderState, available: Quantity)
    requires Kept(side, ladder, a) && a.side == side.Opposite()
    ensures TakesOffered(Match(ladder, a, available), available, Offered(side, ladder, a))
    decreases available, |ladder|
  {
    if ladder != [] && ladder[0].queue == [] {
      SweepClosedForm(side, ladder[1..], a, available);
    } else if Trades(ladder, a, available) {
      var qty := Min(available, ladder[0].queue[0].Visible());
      OfferedAfterTrade(side, ladder, a, available);
      TradedKept(side, ladder, a, qty);
      SweepClosedForm(side, Traded(ladder, qty), a, available - qty);
    } else {
      NothingTraded(side, ladder, a, available);
    }
  }

  lemma NothingTraded(side: Side, ladder: Ladder, a: OrderState, available: Quantity)
    requires Kept(side, ladder, a) && a.side == side.Opposite()
    requires !(ladder != [] && ladder[0].queue == []) && !Trades(ladder, a, available)
    ensures TakesOffered(Match(ladder, a, available), available, Offered(side, ladder, a))
  {
    if ladder != [] && a.Crosses(ladder[0].price) {
      assert ladder[0].queue[0].Healthy();
      assert QueueSum(ladder[0].queue, Remaining) >= ladder[0].queue[0].remaining > 0;
    }
  }

  /** An unblocked aggressor with quantity left has taken every level its limit admits. */
  lemma {:induction false} SweepExhausts(side: Side, ladder: Ladder, a: OrderState, available: Quantity)
    requires Kept(side, ladder, a)
    ensures var m := Match(ladder, a, available);
      m.left > 0 && !m.blocked && m.ladder != [] ==> !a.Crosses(m.ladder[0].price)
    decreases available, |ladder|
  {
    if ladder != [] && ladder[0].queue == [] {
      SweepExhausts(side, ladder[1..], a, available);
    } else if Trades(ladder, a, available) {
      var qty := Min(available, ladder[0].queue[0].Visible());
      TradedKept(side, ladder, a, qty);
      SweepExhausts(side, Traded(ladder, qty), a, available - qty);
    } else if ladder != [] && a.Crosses(ladder[0].price) {
      assert ladder[0].queue[0].Healthy();
    }
  }

  // ----- Prices and parties -----

  ghost predicate NoBetterThanFront(side: Side, ladder: Ladder, price: Price) {
    ladder != [] && !Better(side, price, ladder[0].price)
  }

  /** Every fill is at a price the aggressor accepts, against another account, and prices never improve. */
  ghost predicate FairlyPriced(side: Side, a: OrderState, fills: seq<Fill>) {
    && (forall f :: f in fills ==> a.Crosses(f.price) && f.restingAccount != a.account && f.quantity > 0)
    && (forall i, j :: 0 <= i < j < |fills| ==> !Better(side, fills[j].price, fills[i].price))
  }

  lemma {:induction false} SweepPrices(side: Side, ladder: Ladder, a: OrderState, available: Quantity)
    requires Kept(side, ladder, a)
    ensures FairlyPriced(side, a, Match(ladder, a, available).fills)
    ensures forall f :: f in Match(ladder, a, available).fills ==> NoBetterThanFront(side, ladder, f.price)
    decreases available, |ladder|
  {
    if ladder != [] && ladder[0].queue == [] {
      SweepPrices(side, ladder[1..], a, available);
    } else if Trades(ladder, a, available) {
      var qty := Min(available, ladder[0].queue[0].Visible());
      TradedKept(side, ladder, a, qty);
      SweepPrices(side, Traded(ladder, qty), a, available - qty);
      TradePrices(side, ladder, a, available);
    }
  }

  lemma TradePrices(side: Side, ladder: Ladder, a: OrderState, available: Quantity)
    requires Kept(side, ladder, a) && Trades(ladder, a, available)
    requires var qty := Min(available, ladder[0].queue[0].Visible());
      var later := Match(Traded(ladder, qty), a, available - qty).fills;
      FairlyPriced(side, a, later) && forall f :: f in later ==> NoBetterThanFront(side, Traded(ladder, qty), f.price)
    ensures FairlyPriced(side, a, Match(ladder, a, available).fills)
    ensures forall f :: f in Match(ladder, a, available).fills ==> NoBetterThanFront(side, ladder, f.price)
  {
    var qty := Min(available, ladder[0].queue[0].Visible());
    var head := ladder[0].queue[0];
    assert head in ladder[0].queue && head.Healthy();
    PricedFirst(side, a, MakeFill(a, head, ladder[0].price, qty), Match(Traded(ladder, qty), a, available - qty).fills);
  }

  /** A fill in front of others at prices no better than its own. */
  lemma PricedFirst(side: Side, a: OrderState, fill: Fill, later: seq<Fill>)
    requires FairlyPriced(side, a, later) && FairlyPriced(side, a, [fill])
    requires forall f :: f in later ==> !Better(side, f.price, fill.price)
    ensures FairlyPriced(side, a, [fill] + later)
  {
    var fills := [fill] + later;
    assert fill in [fill];
    forall i, j | 0 <= i < j < |fills| ensures !Better(side, fills[j].price, fills[i].price) {
      assert fills[j] == later[j - 1] && (i > 0 ==> fills[i] == later[i - 1]);
    }
  }

  // ----- Fairness among the orders of a level -----

  /** The ladder just before fill number `n` of the sweep, spent levels dropped. */
  function LadderBefore(ladder: Ladder, a: OrderState, available: Quantity, n: nat): Ladder
    decreases available, |ladder|
  {
    if ladder != [] && ladder[0].queue == [] then LadderBefore(ladder[1..], a, available, n)
    else if n == 0 || !Trades(ladder, a, available) then ladder
    else
      var qty := Min(available, ladder[0].queue[0].Visible());
      LadderBefore(Traded(ladder, qty), a, available - qty, n - 1)
  }

  /** Only orders that rest on the ladder are filled. */
  lemma {:induction false} FilledOrderRests(ladder: Ladder, a: OrderState, available: Quantity, k: nat)
    requires k < |Match(ladder, a, available).fills|
    ensures LadderSum(ladder, WithId(Match(ladder, a, available).fills[k].restingId)) > 0
    decreases available, |ladder|
  {
    if ladder[0].queue == [] {
      FilledOrderRests(ladder[1..], a, available, k);
    } else if k > 0 {
      var qty := Min(available, ladder[0].queue[0].Visible());
      FilledOrderRests(Traded(ladder, qty), a, available - qty, k - 1);
      TradeCount(ladder[0].queue, qty, WithId(Match(ladder, a, available).fills[k].restingId));
      assert Traded(ladder, qty)[1..] == ladder[1..];
    }
  }

  /** Fill `j` is the first of the resting order `id`. */
  ghost predicate FirstFillOf(fills: seq<Fill>, j: nat, id: OrderId) {
    j < |fills| && fills[j].restingId == id && forall k :: 0 <= k < j ==> fills[k].restingId != id
  }

  /** The first `p` fills went to the first `p` orders of the queue, in order. */
  ghost predicate FilledUpTo(fills: seq<Fill>, queue: seq<OrderState>, p: nat) {
    p <= |fills| && p <= |queue| && forall k :: 0 <= k < p ==> fills[k].restingId == queue[k].id
  }

  ghost predicate FirstInQueue(queue: seq<OrderState>, p: nat) {
    p < |queue| && forall i :: 0 <= i < p ==> queue[i].id != queue[p].id
  }

  /** Taking the head of the queue and the first fill away together changes nothing for those behind. */
  lemma WithoutTheHead(fills: seq<Fill>, queue: seq<OrderState>, next: seq<OrderState>, p: nat, j: nat)
    requires 0 < p < |queue| && FirstInQueue(queue, p) && FirstFillOf(fills, j, queue[p].id)
    requires fills[0].restingId == queue[0].id
    requires p <= |next| && forall i :: 0 <= i < p ==> next[i] == queue[i + 1]
    ensures 0 < j && FirstInQueue(next, p - 1) && FirstFillOf(fills[1..], j - 1, next[p - 1].id)
    ensures FilledUpTo(fills[1..], next, p - 1) ==> FilledUpTo(fills, queue, p)
  {
    assert forall k :: 0 < k < |fills| ==> fills[k] == fills[1..][k - 1];
    if FilledUpTo(fills[1..], next, p - 1) {
      forall k | 0 <= k < p ensures fills[k].restingId == queue[k].id {
        if k > 0 {
          assert fills[1..][k - 1].restingId == next[k - 1].id;
        }
      }
    }
  }

  /** An order waits for exactly the orders ahead of it: they trade once each, in queue order. */
  lemma {:induction false} WaitsForThoseAhead(
    side: Side, ladder: Ladder, a: OrderState, available: Quantity, p: nat, j: nat)
    requires Kept(side, ladder, a) && ladder != [] && FirstInQueue(ladder[0].queue, p)
    requires FirstFillOf(Match(ladder, a, available).fills, j, ladder[0].queue[p].id)
    ensures j == p && FilledUpTo(Match(ladder, a, available).fills, ladder[0].queue, p)
    decreases p
  {
    if p == 0 {
      HeadDoesNotWait(ladder, a, available, j);
    } else {
      var next, left := BehindTheHead(side, ladder, a, available, p, j);
      WaitsForThoseAhead(side, next, a, left, p - 1, j - 1);
    }
  }

  lemma HeadDoesNotWait(ladder: Ladder, a: OrderState, available: Quantity, j: nat)
    requires ladder != [] && ladder[0].queue != []
    requires FirstFillOf(Match(ladder, a, available).fills, j, ladder[0].queue[0].id)
    ensures j == 0
  {
    HeadFirst(ladder, a, available);
  }

  /** One step of waiting: the same question about the ladder the head leaves, and what its answer says. */
  lemma BehindTheHead(side: Side, ladder: Ladder, a: OrderState, available: Quantity, p: nat, j: nat)
    returns (next: Ladder, left: Quantity)
    requires Kept(side, ladder, a) && ladder != [] && p > 0 && FirstInQueue(ladder[0].queue, p)
    requires FirstFillOf(Match(ladder, a, available).fills, j, ladder[0].queue[p].id)
    ensures j > 0 && Kept(side, next, a) && next != [] && FirstInQueue(next[0].queue, p - 1)
    ensures FirstFillOf(Match(next, a, left).fills, j - 1, next[0].queue[p - 1].id)
    ensures FilledUpTo(Match(next, a, left).fills, next[0].queue, p - 1) ==>
              FilledUpTo(Match(ladder, a, available).fills, ladder[0].queue, p)
  {
    var qty := Min(available, ladder[0].queue[0].Visible());
    next, left := Traded(ladder, qty), available - qty;
    HeadFirst(ladder, a, available);
    OneAheadFewer(side, ladder, a, available, p, j);
    TradedKept(side, ladder, a, qty);
    var fills, queue := Match(ladder, a, available).fills, next[0].queue;
    WithoutTheHead(fills, ladder[0].queue, queue, p, j);
    assert fills[1..] == Match(next, a, left).fills;
  }

  /** The first fill goes to the head of the front queue. */
  lemma HeadFirst(ladder: Ladder, a: OrderState, available: Quantity)
    requires ladder != [] && ladder[0].queue != [] && Match(ladder, a, available).fills != []
    ensures Match(ladder, a, available).fills[0].restingId == ladder[0].queue[0].id
  {
  }

  /** Once the head has traded, everyone behind it has one order fewer ahead. */
  lemma OneAheadFewer(side: Side, ladder: Ladder, a: OrderState, available: Quantity, p: nat, j: nat)
    requires Kept(side, ladder, a) && ladder != [] && 0 < p < |ladder[0].queue|
    requires FirstFillOf(Match(ladder, a, available).fills, j, ladder[0].queue[p].id)
    requires ladder[0].queue[0].id != ladder[0].queue[p].id
    ensures Trades(ladder, a, available)
    ensures var qty := Min(available, ladder[0].queue[0].Visible());
      var next := Traded(ladder, qty);
      && Match(ladder, a, available).fills[1..] == Match(next, a, available - qty).fills
      && p <= |next[0].queue| && forall i :: 0 <= i < p ==> next[0].queue[i] == ladder[0].queue[i + 1]
  {
    var qty := Min(available, ladder[0].queue[0].Visible());
    HeadFirst(ladder, a, available);
    HeadLeavesFront(side, ladder, a, available);
    assert Match(ladder, a, available).fills[1..] == Match(Traded(ladder, qty), a, available - qty).fills;
  }

  /** A sweep that goes on has spent the head's tranche, so the head left or went to the back. */
  lemma HeadLeavesFront(side: Side, ladder: Ladder, a: OrderState, available: Quantity)
    requires Kept(side, ladder, a) && Trades(ladder, a, available)
    requires |Match(ladder, a, available).fills| > 1
    ensures var qty := ladder[0].queue[0].Visible();
      var head := ladder[0].queue[0].Filled(qty);
      && Min(available, qty) == qty
      && AfterTrade(ladder[0].queue, qty) ==
           ladder[0].queue[1..] + if head.remaining == 0 then [] else [head.Replenished()]
  {
    var qty := Min(available, ladder[0].queue[0].Visible());
    assert ladder[0].queue[0].Healthy();
    assert Match(ladder, a, available).fills[1..] == Match(Traded(ladder, qty), a, available - qty).fills;
  }

  /** The first fill's order, filled again later, went to the back of the queue it was in. */
  lemma FilledAgainRotated(side: Side, ladder: Ladder, a: OrderState, available: Quantity, j: nat)
    requires Kept(side, ladder, a) && Trades(ladder, a, available)
    requires 0 < j < |Match(ladder, a, available).fills|
    requires Match(ladder, a, available).fills[j].restingId == ladder[0].queue[0].id
    requires LadderSum(ladder, WithId(ladder[0].queue[0].id)) <= 1
    ensures var qty := Min(available, ladder[0].queue[0].Visible());
      var queue := Traded(ladder, qty)[0].queue;
      && |queue| == |ladder[0].queue|
      && queue[|queue| - 1].id == ladder[0].queue[0].id
      && QueueSum(queue, WithId(ladder[0].queue[0].id)) <= 1
  {
    var queue := ladder[0].queue;
    var qty := Min(available, queue[0].Visible());
    HeadLeavesFront(side, ladder, a, available);
    TradeCount(queue, qty, WithId(queue[0].id));
    SpentIsNotFilledAgain(ladder, a, available, j);
  }

  /** An order of which nothing is left is not filled again. */
  lemma SpentIsNotFilledAgain(ladder: Ladder, a: OrderState, available: Quantity, j: nat)
    requires Trades(ladder, a, available) && 0 < j < |Match(ladder, a, available).fills|
    requires Match(ladder, a, available).fills[j].restingId == ladder[0].queue[0].id
    requires LadderSum(ladder, WithId(ladder[0].queue[0].id)) <= 1
    ensures ladder[0].queue[0].Filled(Min(available, ladder[0].queue[0].Visible())).remaining != 0
  {
    var qty := Min(available, ladder[0].queue[0].Visible());
    var next := Traded(ladder, qty);
    assert next[1..] == ladder[1..];
    assert Match(ladder, a, available).fills[j] == Match(next, a, available - qty).fills[j - 1];
    FilledOrderRests(next, a, available - qty, j - 1);
  }

  /** Fills `i + 1` to `j` went to the orders of `queue`, once each and in queue order. */
  ghost predicate FilledInTurn(fills: seq<Fill>, i: nat, j: nat, queue: seq<OrderState>)
    requires i < j < |fills|
  {
    |queue| == j - i && forall k :: 0 <= k < j - i ==> fills[i + 1 + k].restingId == queue[k].id
  }

  /** Fills `i` and `j` are consecutive fills of one resting order. */
  ghost predicate ConsecutiveFills(fills: seq<Fill>, i: nat, j: nat) {
    && i < j < |fills|
    && fills[j].restingId == fills[i].restingId
    && forall k :: i < k < j ==> fills[k].restingId != fills[i].restingId
  }

  lemma ShiftFills(fills: seq<Fill>, i: nat, j: nat, queue: seq<OrderState>)
    requires ConsecutiveFills(fills, i, j)
    ensures ConsecutiveFills(fills[i..], 0, j - i) && fills[i..][0] == fills[i]
    ensures FilledInTurn(fills[i..], 0, j - i, queue) ==> FilledInTurn(fills, i, j, queue)
  {
    var later := fills[i..];
    assert forall k :: 0 <= k < |later| ==> later[k] == fills[i + k];
    if FilledInTurn(later, 0, j - i, queue) {
      forall k | 0 <= k < j - i ensures fills[i + 1 + k].restingId == queue[k].id {
        assert later[0 + 1 + k].restingId == queue[k].id;
      }
    }
  }

  lemma ShiftFirstFill(fills: seq<Fill>, later: seq<Fill>, j: nat)
    requires fills != [] && fills[1..] == later && ConsecutiveFills(fills, 0, j)
    ensures FirstFillOf(later, j - 1, fills[0].restingId)
    ensures forall queue :: |queue| == j && FilledUpTo(later, queue, j) ==> FilledInTurn(fills, 0, j, queue)
  {
    assert forall k :: 0 <= k < |later| ==> later[k] == fills[k + 1];
    assert forall k :: 0 <= k < |later| ==> fills[1 + k] == later[k];
  }

  lemma FairnessFromHead(side: Side, ladder: Ladder, a: OrderState, available: Quantity, j: nat)
    requires Kept(side, ladder, a) && Trades(ladder, a, available)
    requires ConsecutiveFills(Match(ladder, a, available).fills, 0, j)
    requires LadderSum(ladder, WithId(ladder[0].queue[0].id)) <= 1
    ensures var next := Traded(ladder, Min(available, ladder[0].queue[0].Visible()));
      next[0].queue != [] && FilledInTurn(Match(ladder, a, available).fills, 0, j, next[0].queue)
  {
    var qty := Min(available, ladder[0].queue[0].Visible());
    var next, left := Traded(ladder, qty), available - qty;
    ShiftFirstFill(Match(ladder, a, available).fills, Match(next, a, left).fills, j);
    FilledAgainRotated(side, ladder, a, available, j);
    TradedKept(side, ladder, a, qty);
    WholeQueueFirst(side, next, a, left, j);
  }

  /** The order at the back of the front queue is filled once all the others of that queue were. */
  lemma WholeQueueFirst(side: Side, ladder: Ladder, a: OrderState, available: Quantity, j: nat)
    requires Kept(side, ladder, a) && ladder != [] && ladder[0].queue != []
    requires var queue, fills := ladder[0].queue, Match(ladder, a, available).fills;
      var id := queue[|queue| - 1].id;
      && QueueSum(queue, WithId(id)) <= 1
      && j > 0 && FirstFillOf(fills, j - 1, id)
    ensures |ladder[0].queue| == j && FilledUpTo(Match(ladder, a, available).fills, ladder[0].queue, j)
  {
    var queue := ladder[0].queue;
    var last := |queue| - 1;
    OnceMeansElsewhereNot(queue, last, queue[last].id);
    WaitsForThoseAhead(side, ladder, a, available, last, j - 1);
  }

  lemma SomethingTrades(ladder: Ladder, a: OrderState, available: Quantity)
    requires Match(ladder, a, available).fills != []
    ensures ladder != [] && (ladder[0].queue != [] ==> Trades(ladder, a, available))
  {
  }

  /** The sweep after its first fill is a sweep of what that fill left. */
  lemma OneFillOn(side: Side, ladder: Ladder, a: OrderState, available: Quantity, n: nat, id: OrderId)
    returns (next: Ladder, left: Quantity)
    requires Kept(side, ladder, a) && Trades(ladder, a, available)
    requires 0 < n < |Match(ladder, a, available).fills|
    ensures left < available && Kept(side, next, a) && n - 1 < |Match(next, a, left).fills|
    ensures Match(next, a, left).fills[n - 1..] == Match(ladder, a, available).fills[n..]
    ensures LadderBefore(ladder, a, available, n + 1) == LadderBefore(next, a, left, n)
    ensures LadderSum(next, WithId(id)) <= LadderSum(ladder, WithId(id))
  {
    var qty := Min(available, ladder[0].queue[0].Visible());
    next, left := Traded(ladder, qty), available - qty;
    TradedKept(side, ladder, a, qty);
    BehindFirst(MakeFill(a, ladder[0].queue[0], ladder[0].price, qty), Match(next, a, left).fills, n);
    TradedCount(ladder, qty, id);
  }

  lemma BehindFirst<T>(first: T, rest: seq<T>, n: nat)
    requires 0 < n <= |rest|
    ensures ([first] + rest)[n..] == rest[n - 1..]
  {
  }

  lemma {:induction false} TradedCount(ladder: Ladder, qty: Quantity, id: OrderId)
    requires ladder != [] && ladder[0].queue != []
    ensures LadderSum(Traded(ladder, qty), WithId(id)) <= LadderSum(ladder, WithId(id))
  {
    TradeCount(ladder[0].queue, qty, WithId(id));
    assert Traded(ladder, qty)[1..] == ladder[1..];
  }

  /** From fill number `n` on, the sweep is a sweep of the side as it stands then. */
  lemma {:induction false} SweepFrom(
    side: Side, ladder: Ladder, a: OrderState, available: Quantity, n: nat, id: OrderId)
    returns (now: Ladder, left: Quantity)
    requires Kept(side, ladder, a) && n < |Match(ladder, a, available).fills|
    ensures Kept(side, now, a) && Trades(now, a, left)
    ensures Match(now, a, left).fills == Match(ladder, a, available).fills[n..]
    ensures LadderBefore(ladder, a, available, n + 1) == LadderBefore(now, a, left, 1)
    ensures LadderSum(now, WithId(id)) <= LadderSum(ladder, WithId(id))
    decreases available, |ladder|
  {
    SomethingTrades(ladder, a, available);
    if ladder[0].queue == [] {
      now, left := SweepFrom(side, ladder[1..], a, available, n, id);
    } else if n == 0 {
      now, left := ladder, available;
      assert Match(now, a, left).fills[0..] == Match(now, a, left).fills;
    } else {
      var next, rest := OneFillOn(side, ladder, a, available, n, id);
      now, left := SweepFrom(side, next, a, rest, n - 1, id);
    }
  }

  /**
   Iceberg fairness. Between two consecutive fills of one resting order, the sweep fills every
   other order then in that level's queue, once each and in queue order, and nothing else.
   */
  lemma IcebergFairness(
    side: Side, ladder: Ladder, a: OrderState, available: Quantity, i: nat, j: nat)
    requires Kept(side, ladder, a)
    requires ConsecutiveFills(Match(ladder, a, available).fills, i, j)
    requires LadderSum(ladder, WithId(Match(ladder, a, available).fills[i].restingId)) <= 1
    ensures var now := LadderBefore(ladder, a, available, i + 1);
      now != [] && FilledInTurn(Match(ladder, a, available).fills, i, j, now[0].queue)
  {
    var fills := Match(ladder, a, available).fills;
    var now, left := SweepFrom(side, ladder, a, available, i, fills[i].restingId);
    var next := LadderBefore(now, a, left, 1);
    ShiftFills(fills, i, j, []);
    FairnessFromHead(side, now, a, left, j - i);
    ShiftFills(fills, i, j, next[0].queue);
  }
}
