/**
 Planning: what an incoming order would trade, worked out on a copy of each level's queue
 without touching the book.
 */
module Planner {
  import opened Orders
  import opened Matching
  import opened Ladders
  import opened MatchTheorems
  import opened PriceLevels
  import opened OrderBooks

  /** One intended execution, carrying the handle the commit will use. */
  datatype PlannedFill = PlannedFill(
    level: PriceLevel, resting: Handle, price: Price, quantity: Quantity,
    restingId: OrderId, restingAccount: AccountId)

  /** The planner's own copy of what it needs of one node of a level. */
  datatype Pending = Pending(
    position: Handle, account: AccountId, id: OrderId,
    remaining: Quantity, visible: Quantity, display: Quantity)

  function AsFill(aggressor: OrderState, p: PlannedFill): Fill {
    Fill(aggressor.id, p.restingId, p.price, p.quantity, aggressor.account, p.restingAccount, aggressor.side)
  }

  function AsFills(aggressor: OrderState, fills: seq<PlannedFill>): (r: seq<Fill>)
    ensures |r| == |fills|
    ensures forall i :: 0 <= i < |fills| ==> r[i] == AsFill(aggressor, fills[i])
  {
    seq(|fills|, i requires 0 <= i < |fills| => AsFill(aggressor, fills[i]))
  }

  /** The simulated queue mirrors a queue of orders. */
  ghost predicate Mirrors(p: Pending, o: OrderState) {
    && p.account == o.account && p.id == o.id && p.remaining == o.remaining && p.visible == o.Visible()
    && (o.terms.Iceberg? ==> p.display == o.terms.display)
  }

  ghost predicate Mirror(queue: seq<Pending>, sim: seq<OrderState>) {
    |queue| == |sim| && forall i :: 0 <= i < |queue| ==> Mirrors(queue[i], sim[i])
  }

  /** A handle and the id of the order it named when planning began. */
  ghost predicate Names(nodes: seq<Node>, handle: Handle, id: OrderId) {
    exists j :: 0 <= j < |nodes| && nodes[j].handle == handle && nodes[j].order.id == id
  }

  function AsPending(n: Node): Pending {
    Pending(n.handle, n.order.account, n.order.id, n.order.remaining, n.order.Visible(), n.order.Display())
  }

  /** The simulated queue after its head gives up `qty`, as the planner computes it. */
  function AfterPending(queue: seq<Pending>, qty: Quantity): seq<Pending>
    requires queue != [] && qty <= queue[0].visible && qty <= queue[0].remaining
  {
    var front := queue[0].(remaining := queue[0].remaining - qty, visible := queue[0].visible - qty);
    if front.remaining == 0 then queue[1..]
    else if front.visible == 0 then queue[1..] + [front.(visible := Min(front.display, front.remaining))]
    else queue[0 := front]
  }

  lemma MirrorAfter(queue: seq<Pending>, sim: seq<OrderState>, qty: Quantity)
    requires Mirror(queue, sim) && HealthyQueue(sim) && sim != [] && 0 < qty <= queue[0].visible
    ensures sim[0].Healthy() && qty <= queue[0].remaining
    ensures Mirror(AfterPending(queue, qty), AfterTrade(sim, qty)) && HealthyQueue(AfterTrade(sim, qty))
  {
    assert sim[0] in sim && Mirrors(queue[0], sim[0]);
    TradeKeepsHealth(sim, qty);
    var head := sim[0].Filled(qty);
    var tail := sim[1..];
    assert Mirror(queue[1..], tail);
    if head.remaining == 0 {
    } else if head.Visible() == 0 {
      assert AfterTrade(sim, qty) == tail + [head.Replenished()];
    } else {
      assert AfterTrade(sim, qty) == [head] + tail;
    }
  }

  /** One level on its own: what the rest of the ladder adds is a separate sweep. */
  function OnLevel(price: Price, queue: seq<OrderState>, a: OrderState, available: Quantity): MatchResult {
    Match([LevelState(price, queue)], a, available)
  }

  lemma OnLevelStep(price: Price, queue: seq<OrderState>, a: OrderState, available: Quantity)
    requires queue != [] && queue[0].Visible() > 0 && available > 0 && a.Crosses(price) && queue[0].account != a.account
    ensures var qty := Min(available, queue[0].Visible());
      var next := OnLevel(price, AfterTrade(queue, qty), a, available - qty);
      OnLevel(price, queue, a, available) == next.(fills := [MakeFill(a, queue[0], price, qty)] + next.fills)
  {
    var ladder := [LevelState(price, queue)];
    var qty := Min(available, queue[0].Visible());
    assert Traded(ladder, qty) == [LevelState(price, AfterTrade(queue, qty))];
  }

  lemma OnLevelStops(price: Price, queue: seq<OrderState>, a: OrderState, available: Quantity)
    requires queue == [] || available == 0
    ensures OnLevel(price, queue, a, available).fills == [] && !OnLevel(price, queue, a, available).blocked
  {
    var ladder := [LevelState(price, queue)];
    if queue == [] {
      assert ladder[1..] == [];
      assert Match(ladder, a, available) == Match(ladder[1..], a, available);
    }
  }

  /** Every simulated order still carries the handle and id of a node of the level. */
  ghost predicate Queued(nodes: seq<Node>, queue: seq<Pending>) {
    forall i :: 0 <= i < |queue| ==> Names(nodes, queue[i].position, queue[i].id)
  }

  /** Every planned fill is at this level and carries the handle of the order it names. */
  ghost predicate Handled(nodes: seq<Node>, level: PriceLevel, fills: seq<PlannedFill>) {
    forall i :: 0 <= i < |fills| ==>
      fills[i].level == level && fills[i].price == level.price && Names(nodes, fills[i].resting, fills[i].restingId)
  }

  lemma QueuedAfter(nodes: seq<Node>, queue: seq<Pending>, qty: Quantity)
    requires Queued(nodes, queue) && queue != [] && qty <= queue[0].visible && qty <= queue[0].remaining
    ensures Queued(nodes, AfterPending(queue, qty))
  {
    assert Names(nodes, queue[0].position, queue[0].id);
  }

  /** The simulated queue as planning finds it. */
  function PendingOf(nodes: seq<Node>): (queue: seq<Pending>)
    ensures |queue| == |nodes| && forall i :: 0 <= i < |nodes| ==> queue[i] == AsPending(nodes[i])
  {
    seq(|nodes|, i requires 0 <= i < |nodes| => AsPending(nodes[i]))
  }

  lemma StartQueued(nodes: seq<Node>)
    ensures Queued(nodes, PendingOf(nodes)) && Mirror(PendingOf(nodes), States(nodes))
  {
  }

  /** What is planned so far, and the sweep still to come, make up the sweep of the level. */
  ghost predicate OnCourse(price: Price, sim: seq<OrderState>, a: OrderState, available: Quantity,
                           fills: seq<PlannedFill>, m: MatchResult) {
    var rest := OnLevel(price, sim, a, available);
    AsFills(a, fills) + rest.fills == m.fills && rest.blocked == m.blocked
  }

  lemma CourseStep(price: Price, sim: seq<OrderState>, a: OrderState, available: Quantity,
                   fills: seq<PlannedFill>, m: MatchResult, planned: PlannedFill)
    requires OnCourse(price, sim, a, available, fills, m) && a.Crosses(price) && available > 0
    requires sim != [] && sim[0].Visible() > 0 && sim[0].account != a.account
    requires AsFill(a, planned) == MakeFill(a, sim[0], price, Min(available, sim[0].Visible()))
    ensures OnCourse(price, AfterTrade(sim, planned.quantity), a, available - planned.quantity, fills + [planned], m)
  {
    OnLevelStep(price, sim, a, available);
    assert AsFills(a, fills + [planned]) == AsFills(a, fills) + [AsFill(a, planned)];
  }

  /** The planner's loop: its queue, what it has planned, and the sweep all this belongs to. */
  ghost predicate Simulating(
    nodes: seq<Node>, level: PriceLevel, queue: seq<Pending>, sim: seq<OrderState>, a: OrderState,
    available: Quantity, fills: seq<PlannedFill>, m: MatchResult)
  {
    && Mirror(queue, sim) && HealthyQueue(sim) && Queued(nodes, queue) && Handled(nodes, level, fills)
    && OnCourse(level.price, sim, a, available, fills, m)
  }

  function PlanFill(level: PriceLevel, front: Pending, available: Quantity): PlannedFill {
    PlannedFill(level, front.position, level.price, Min(available, front.visible), front.id, front.account)
  }

  lemma SimulationStarts(nodes: seq<Node>, level: PriceLevel, a: OrderState, wanted: Quantity, m: MatchResult)
    requires HealthyQueue(States(nodes)) && m == OnLevel(level.price, States(nodes), a, wanted)
    ensures Simulating(nodes, level, PendingOf(nodes), States(nodes), a, wanted, [], m)
  {
    StartQueued(nodes);
    assert AsFills(a, []) + m.fills == m.fills;
  }

  lemma SimulationStep(
    nodes: seq<Node>, level: PriceLevel, queue: seq<Pending>, sim: seq<OrderState>, a: OrderState,
    available: Quantity, fills: seq<PlannedFill>, m: MatchResult)
    requires Simulating(nodes, level, queue, sim, a, available, fills, m) && a.Crosses(level.price)
    requires queue != [] && available > 0 && queue[0].account != a.account
    ensures var planned := PlanFill(level, queue[0], available);
      var qty := planned.quantity;
      && 0 < qty <= queue[0].visible && qty <= queue[0].remaining && sim != []
      && Simulating(nodes, level, AfterPending(queue, qty), AfterTrade(sim, qty), a, available - qty, fills + [planned], m)
  {
    var planned := PlanFill(level, queue[0], available);
    assert Mirrors(queue[0], sim[0]) && sim[0] in sim && Names(nodes, queue[0].position, queue[0].id);
    MirrorAfter(queue, sim, planned.quantity);
    QueuedAfter(nodes, queue, planned.quantity);
    CourseStep(level.price, sim, a, available, fills, m, planned);
  }

  lemma SimulationBlocked(
    nodes: seq<Node>, level: PriceLevel, queue: seq<Pending>, sim: seq<OrderState>, a: OrderState,
    available: Quantity, fills: seq<PlannedFill>, m: MatchResult)
    requires Simulating(nodes, level, queue, sim, a, available, fills, m) && a.Crosses(level.price)
    requires queue != [] && available > 0 && queue[0].account == a.account
    ensures AsFills(a, fills) == m.fills && m.blocked && Handled(nodes, level, fills)
  {
    assert Mirrors(queue[0], sim[0]) && sim[0] in sim;
  }

  lemma SimulationEnds(
    nodes: seq<Node>, level: PriceLevel, queue: seq<Pending>, sim: seq<OrderState>, a: OrderState,
    available: Quantity, fills: seq<PlannedFill>, m: MatchResult)
    requires Simulating(nodes, level, queue, sim, a, available, fills, m) && (queue == [] || available == 0)
    ensures AsFills(a, fills) == m.fills && !m.blocked && Handled(nodes, level, fills)
  {
    OnLevelStops(level.price, sim, a, available);
  }

  /** The strategy: price-time within one level the aggressor is known to cross. */
  method PlanLevel(aggressor: OrderState, wanted: Quantity, level: PriceLevel)
    returns (fills: seq<PlannedFill>, selfMatchBlocked: bool)
    requires HealthyQueue(States(level.orders)) && aggressor.Crosses(level.price)
    ensures var m := OnLevel(level.price, States(level.orders), aggressor, wanted);
      AsFills(aggressor, fills) == m.fills && selfMatchBlocked == m.blocked
    ensures Handled(level.orders, level, fills)
  {
    ghost var sim := States(level.orders);
    ghost var m := OnLevel(level.price, sim, aggressor, wanted);
    SimulationStarts(level.orders, level, aggressor, wanted, m);
    fills, selfMatchBlocked := Simulate(aggressor, wanted, level, PendingOf(level.orders), level.orders, sim, m);
  }

  /** The loop over the simulated queue. */
  method Simulate(aggressor: OrderState, wanted: Quantity, level: PriceLevel, start: seq<Pending>,
                  ghost nodes: seq<Node>, ghost started: seq<OrderState>, ghost m: MatchResult)
    returns (fills: seq<PlannedFill>, selfMatchBlocked: bool)
    requires Simulating(nodes, level, start, started, aggressor, wanted, [], m) && aggressor.Crosses(level.price)
    ensures AsFills(aggressor, fills) == m.fills && selfMatchBlocked == m.blocked && Handled(nodes, level, fills)
  {
    var queue, available := start, wanted;
    ghost var sim := started;
    fills, selfMatchBlocked := [], false;
    while available > 0 && queue != []
      invariant 0 <= available && Simulating(nodes, level, queue, sim, aggressor, available, fills, m)
      decreases available
    {
      if queue[0].account == aggressor.account {
        SimulationBlocked(nodes, level, queue, sim, aggressor, available, fills, m);
        selfMatchBlocked := true;
        return;
      }
      var planned := PlanFill(level, queue[0], available);
      SimulationStep(nodes, level, queue, sim, aggressor, available, fills, m);
      fills := fills + [planned];
      available := available - planned.quantity;
      sim := AfterTrade(sim, planned.quantity);
      queue := TakeFront(queue, planned.quantity);
    }
    SimulationEnds(nodes, level, queue, sim, aggressor, available, fills, m);
  }

  /** The head of the simulated queue gives up `qty`: it leaves, goes to the back, or stays. */
  method TakeFront(queue: seq<Pending>, qty: Quantity) returns (after: seq<Pending>)
    requires queue != [] && qty <= queue[0].visible && qty <= queue[0].remaining
    ensures after == AfterPending(queue, qty)
  {
    var front := queue[0].(remaining := queue[0].remaining - qty, visible := queue[0].visible - qty);
    if front.remaining == 0 {
      after := queue[1..];
    } else if front.visible == 0 {
      after := queue[1..] + [front.(visible := Min(front.display, front.remaining))];
    } else {
      after := queue[0 := front];
    }
  }

  // ----- The whole side -----

  /** Sweeping a side is sweeping its best level, then the rest if that level was used up. */
  ghost predicate LevelThenRest(level: LevelState, rest: Ladder, a: OrderState, available: Quantity) {
    var m, all := OnLevel(level.price, level.queue, a, available), Match([level] + rest, a, available);
    if m.ladder == [] then
      var later := Match(rest, a, m.left);
      all == later.(fills := m.fills + later.fills)
    else all == m.(ladder := m.ladder + rest)
  }

  lemma {:induction false} SweepByLevel(level: LevelState, rest: Ladder, a: OrderState, available: Quantity)
    ensures LevelThenRest(level, rest, a, available)
    decreases available
  {
    if level.queue != [] && Trades([level] + rest, a, available) {
      var qty := Min(available, level.queue[0].Visible());
      SweepByLevel(LevelState(level.price, AfterTrade(level.queue, qty)), rest, a, available - qty);
      TradeThenRest(level, rest, a, available);
    } else {
      NoTradeThenRest(level, rest, a, available);
    }
  }

  lemma NoTradeThenRest(level: LevelState, rest: Ladder, a: OrderState, available: Quantity)
    requires level.queue == [] || !Trades([level] + rest, a, available)
    ensures LevelThenRest(level, rest, a, available)
  {
    var ladder, alone := [level] + rest, [LevelState(level.price, level.queue)];
    assert alone == [level] && ladder[1..] == rest && alone[1..] == [];
    if level.queue == [] {
      assert Match(alone, a, available) == Match(alone[1..], a, available);
    }
  }

  lemma TradeThenRest(level: LevelState, rest: Ladder, a: OrderState, available: Quantity)
    requires level.queue != [] && Trades([level] + rest, a, available)
    requires var qty := Min(available, level.queue[0].Visible());
      LevelThenRest(LevelState(level.price, AfterTrade(level.queue, qty)), rest, a, available - qty)
    ensures LevelThenRest(level, rest, a, available)
  {
    var ladder, alone := [level] + rest, [LevelState(level.price, level.queue)];
    var qty := Min(available, level.queue[0].Visible());
    var next := LevelState(level.price, AfterTrade(level.queue, qty));
    assert alone == [level] && Traded(ladder, qty) == [next] + rest && Traded(alone, qty) == [next];
    var fill := MakeFill(a, level.queue[0], level.price, qty);
    var m', all' := OnLevel(level.price, next.queue, a, available - qty), Match([next] + rest, a, available - qty);
    assert OnLevel(level.price, level.queue, a, available) == m'.(fills := [fill] + m'.fills);
    assert Match(ladder, a, available) == all'.(fills := [fill] + all'.fills);
    if m'.ladder == [] {
      Joined([fill], m'.fills, Match(rest, a, m'.left).fills);
    }
  }

  lemma Joined<T>(a: seq<T>, b: seq<T>, c: seq<T>)
    ensures a + (b + c) == a + b + c
  {
  }

  lemma {:induction false} NothingWanted(ladder: Ladder, a: OrderState)
    ensures Match(ladder, a, 0).fills == [] && !Match(ladder, a, 0).blocked
  {
    if ladder != [] && ladder[0].queue == [] {
      NothingWanted(ladder[1..], a);
    }
  }

  lemma {:induction false} BlockedStands(ladder: Ladder, a: OrderState, available: Quantity)
    ensures Match(ladder, a, available).blocked ==> Match(ladder, a, available).ladder != []
    decreases available, |ladder|
  {
    if ladder != [] && ladder[0].queue == [] {
      BlockedStands(ladder[1..], a, available);
    } else if Trades(ladder, a, available) {
      var qty := Min(available, ladder[0].queue[0].Visible());
      BlockedStands(Traded(ladder, qty), a, available - qty);
    }
  }

  /** One level has one price, whatever is left of it. */
  lemma {:induction false} OneLevelLeft(level: LevelState, a: OrderState, available: Quantity)
    ensures forall l :: l in Match([level], a, available).ladder ==> l.price == level.price
    decreases available
  {
    var ladder := [level];
    if level.queue == [] {
      assert ladder[1..] == [];
    } else if Trades(ladder, a, available) {
      var qty := Min(available, level.queue[0].Visible());
      var next := LevelState(level.price, AfterTrade(level.queue, qty));
      assert Traded(ladder, qty) == [next];
      OneLevelLeft(next, a, available - qty);
    }
  }

  /**
   What the planner relies on when it takes one crossing level at a time: an unblocked level
   yields something, and the next level is reached only when this one is used up.
   */
  lemma LevelPlanned(side: Side, level: LevelState, rest: Ladder, a: OrderState, available: Quantity)
    requires Kept(side, [level] + rest, a) && level.queue != [] && a.Crosses(level.price) && available > 0
    requires a.side == side.Opposite()
    ensures var m := OnLevel(level.price, level.queue, a, available);
      var all := Match([level] + rest, a, available);
      var later := Match(rest, a, m.left);
      && FillSum(m.fills) + m.left == available
      && (!m.blocked ==> FillSum(m.fills) > 0)
      && (m.blocked ==> all.fills == m.fills && all.blocked && all.left == m.left)
      && (!m.blocked ==> all.fills == m.fills + later.fills && all.blocked == later.blocked && all.left == later.left)
  {
    var m := OnLevel(level.price, level.queue, a, available);
    var ladder := [level];
    assert ([level] + rest)[0] == level && ([level] + rest)[1..] == rest;
    assert ladder[0] == level && ladder[1..] == [];
    assert HealthyFor([level] + rest, a) && HealthyQueue(level.queue);
    assert HealthyFor(ladder[1..], a) && Shaped(side, ladder[1..]);
    assert Kept(side, ladder, a);
    SweepConserves(side, ladder, a, available);
    SweepExhausts(side, ladder, a, available);
    SweepByLevel(level, rest, a, available);
    BlockedStands(ladder, a, available);
    OneLevelLeft(level, a, available);
    NothingWanted(rest, a);
    assert level.queue[0].Healthy();
  }

  function PlannedSum(fills: seq<PlannedFill>): nat {
    if fills == [] then 0 else PlannedSum(fills[..|fills| - 1]) + fills[|fills| - 1].quantity
  }

  lemma {:induction false} FillSumAppend(a: seq<Fill>, b: seq<Fill>)
    ensures FillSum(a + b) == FillSum(a) + FillSum(b)
  {
    if a == [] {
      assert a + b == b;
    } else {
      assert (a + b)[1..] == a[1..] + b;
      FillSumAppend(a[1..], b);
    }
  }

  lemma {:induction false} PlannedSumIs(a: OrderState, fills: seq<PlannedFill>)
    ensures PlannedSum(fills) == FillSum(AsFills(a, fills))
  {
    if fills != [] {
      var n := |fills| - 1;
      PlannedSumIs(a, fills[..n]);
      assert AsFills(a, fills) == AsFills(a, fills[..n]) + [AsFill(a, fills[n])];
      FillSumAppend(AsFills(a, fills[..n]), [AsFill(a, fills[n])]);
      assert [AsFill(a, fills[n])][1..] == [];
    }
  }

  /** A sweep as planned: its fills, their sum, and whether it ends at the aggressor's own order. */
  datatype MatchPlan = MatchPlan(fills: seq<PlannedFill>, aggressorFilled: Quantity, selfMatchBlocked: bool)

  /** The handle of a planned fill is valid: it names the order it was planned for, in its level. */
  ghost predicate HandleValid(levels: seq<PriceLevel>, roster: Roster, f: PlannedFill)
    requires |levels| == |roster|
  {
    exists k :: 0 <= k < |levels| && f.level == levels[k] && f.price == levels[k].price &&
                Names(roster[k], f.resting, f.restingId)
  }

  ghost predicate HandlesValid(levels: seq<PriceLevel>, roster: Roster, fills: seq<PlannedFill>)
    requires |levels| == |roster|
  {
    forall i :: 0 <= i < |fills| ==> HandleValid(levels, roster, fills[i])
  }

  lemma LevelHandlesValid(
    levels: seq<PriceLevel>, roster: Roster, k: nat, fills: seq<PlannedFill>, more: seq<PlannedFill>)
    requires |levels| == |roster| && k < |levels| && HandlesValid(levels, roster, fills)
    requires Handled(roster[k], levels[k], more)
    ensures HandlesValid(levels, roster, fills + more)
  {
    forall i | 0 <= i < |fills + more| ensures HandleValid(levels, roster, (fills + more)[i]) {
      if i < |fills| {
        assert (fills + more)[i] == fills[i];
      } else {
        assert (fills + more)[i] == more[i - |fills|];
      }
    }
  }

  /** What is planned so far, and the sweep of the levels still ahead, make up the whole sweep. */
  ghost predicate OnTrack(ahead: Ladder, a: OrderState, available: Quantity, fills: seq<PlannedFill>, m: MatchResult) {
    var rest := Match(ahead, a, available);
    AsFills(a, fills) + rest.fills == m.fills && rest.blocked == m.blocked && rest.left == m.left
  }

  /** Everything the sweep does is planned. */
  ghost predicate Complete(a: OrderState, available: Quantity, fills: seq<PlannedFill>, blocked: bool, m: MatchResult) {
    AsFills(a, fills) == m.fills && blocked == m.blocked && available == m.left
  }

  lemma TrackEnds(ahead: Ladder, a: OrderState, available: Quantity, fills: seq<PlannedFill>, m: MatchResult)
    requires OnTrack(ahead, a, available, fills, m) && NoEmptyLevel(ahead)
    requires ahead == [] || available == 0 || !a.Crosses(ahead[0].price)
    ensures Complete(a, available, fills, false, m)
  {
  }

  lemma AsFillsAppend(a: OrderState, f: seq<PlannedFill>, g: seq<PlannedFill>)
    ensures AsFills(a, f + g) == AsFills(a, f) + AsFills(a, g)
  {
  }

  lemma TrackStep(side: Side, level: LevelState, rest: Ladder, a: OrderState, available: Quantity,
                  fills: seq<PlannedFill>, m: MatchResult, more: seq<PlannedFill>, blocked: bool)
    requires Kept(side, [level] + rest, a) && level.queue != [] && a.side == side.Opposite()
    requires a.Crosses(level.price) && available > 0 && OnTrack([level] + rest, a, available, fills, m)
    requires var here := OnLevel(level.price, level.queue, a, available);
      AsFills(a, more) == here.fills && blocked == here.blocked
    ensures PlannedSum(more) <= available
    ensures blocked ==> Complete(a, available - PlannedSum(more), fills + more, true, m)
    ensures !blocked ==> PlannedSum(more) > 0 && OnTrack(rest, a, available - PlannedSum(more), fills + more, m)
  {
    var here := OnLevel(level.price, level.queue, a, available);
    LevelPlanned(side, level, rest, a, available);
    PlannedSumIs(a, more);
    assert here.left == available - PlannedSum(more);
    AsFillsAppend(a, fills, more);
    Joined(AsFills(a, fills), here.fills, Match(rest, a, here.left).fills);
  }

  ghost predicate Planned(a: OrderState, plan: MatchPlan, m: MatchResult) {
    && AsFills(a, plan.fills) == m.fills
    && plan.selfMatchBlocked == m.blocked
    && plan.aggressorFilled == Minus(a.remaining, m.left)
  }

  lemma {:induction false} TailKept(side: Side, ladder: Ladder, a: OrderState, i: nat)
    requires i <= |ladder| && Kept(side, ladder, a) && NoEmptyLevel(ladder)
    ensures Kept(side, ladder[i..], a) && NoEmptyLevel(ladder[i..])
  {
    if i > 0 {
      TailKept(side, ladder[1..], a, i - 1);
      assert ladder[1..][i - 1..] == ladder[i..];
    }
  }

  /** Adds up what one level contributed. */
  method Contributed(fills: seq<PlannedFill>) returns (planned: Quantity)
    ensures planned == PlannedSum(fills)
  {
    planned := 0;
    for i := 0 to |fills|
      invariant planned == PlannedSum(fills[..i])
    {
      assert fills[..i + 1][..i] == fills[..i];
      planned := planned + fills[i].quantity;
    }
    assert fills[..|fills|] == fills;
  }

  ghost predicate KeptFrom(side: Side, ladder: Ladder, a: OrderState, i: nat)
    requires i <= |ladder|
  {
    Kept(side, ladder[i..], a) && NoEmptyLevel(ladder[i..])
  }

  /** From every level on, the side is kept: said level by level, for a walk along it. */
  ghost predicate KeptThroughout(side: Side, ladder: Ladder, a: OrderState) {
    forall i :: 0 <= i <= |ladder| ==> KeptFrom(side, ladder, a, i)
  }

  lemma AllTailsKept(side: Side, ladder: Ladder, a: OrderState)
    requires Kept(side, ladder, a) && NoEmptyLevel(ladder)
    ensures KeptThroughout(side, ladder, a)
  {
    forall i | 0 <= i <= |ladder| ensures KeptFrom(side, ladder, a, i) {
      TailKept(side, ladder, a, i);
    }
  }

  lemma NextLevel(side: Side, ladder: Ladder, a: OrderState, i: nat)
    requires i < |ladder| && KeptFrom(side, ladder, a, i) && a.Crosses(ladder[i].price)
    ensures ladder[i..] == [ladder[i]] + ladder[i + 1..] && Kept(side, [ladder[i]] + ladder[i + 1..], a)
    ensures HealthyQueue(ladder[i].queue) && ladder[i].queue != []
  {
    assert ladder[i..] == [ladder[i]] + ladder[i + 1..];
    assert HealthyFor(ladder[i..], a) && NoEmptyLevel(ladder[i..]) && ladder[i..][0] == ladder[i];
  }

  /** A side fit to be planned against. */
  ghost predicate Plannable(opposite: OrderBook, aggressor: OrderState)
    reads opposite, opposite.levels
  {
    && opposite.Valid() && opposite.side == aggressor.side.Opposite()
    && KeptThroughout(opposite.side, opposite.State(), aggressor)
  }

  /** Level `i`, once it is known to cross: what it adds to the plan, and what is left to do after it. */
  method PlanNext(opposite: OrderBook, aggressor: OrderState, i: nat, available: Quantity,
                  ghost fills: seq<PlannedFill>, ghost m: MatchResult)
    returns (more: seq<PlannedFill>, planned: Quantity, blocked: bool)
    requires Plannable(opposite, aggressor) && i < |opposite.levels| && available > 0
    requires aggressor.Crosses(opposite.levels[i].price)
    requires OnTrack(opposite.State()[i..], aggressor, available, fills, m)
    requires HandlesValid(opposite.levels, opposite.roster, fills)
    ensures planned <= available
    ensures blocked ==> Complete(aggressor, available - planned, fills + more, true, m)
    ensures !blocked ==> planned > 0 && OnTrack(opposite.State()[i + 1..], aggressor, available - planned, fills + more, m)
    ensures HandlesValid(opposite.levels, opposite.roster, fills + more)
  {
    ghost var here, rest := opposite.State()[i], opposite.State()[i + 1..];
    assert KeptFrom(opposite.side, opposite.State(), aggressor, i);
    NextLevel(opposite.side, opposite.State(), aggressor, i);
    more, blocked := PlanLevel(aggressor, available, opposite.levels[i]);
    planned := Contributed(more);
    TrackStep(opposite.side, here, rest, aggressor, available, fills, m, more, blocked);
    LevelHandlesValid(opposite.levels, opposite.roster, i, fills, more);
  }

  lemma StopsHere(side: Side, ladder: Ladder, i: nat, a: OrderState, available: Quantity,
                  fills: seq<PlannedFill>, m: MatchResult)
    requires i <= |ladder| && KeptThroughout(side, ladder, a)
    requires OnTrack(ladder[i..], a, available, fills, m)
    requires i == |ladder| || available == 0 || !a.Crosses(ladder[i].price)
    ensures Complete(a, available, fills, false, m)
  {
    assert KeptFrom(side, ladder, a, i);
    TrackEnds(ladder[i..], a, available, fills, m);
  }

  /** The loop over the levels: it plans one after the other while they cross, and modifies nothing. */
  method PlanAgainst(opposite: OrderBook, aggressor: OrderState) returns (plan: MatchPlan)
    requires Plannable(opposite, aggressor)
    ensures Planned(aggressor, plan, Match(opposite.State(), aggressor, aggressor.remaining))
    ensures HandlesValid(opposite.levels, opposite.roster, plan.fills)
  {
    ghost var ladder := opposite.State();
    ghost var m := Match(ladder, aggressor, aggressor.remaining);
    var available: Quantity := aggressor.remaining;
    var fills, blocked := [], false;
    var i := 0;
    assert ladder[0..] == ladder;
    while i < |opposite.levels| && available > 0
      invariant i <= |ladder| && available <= aggressor.remaining && !blocked
      invariant OnTrack(ladder[i..], aggressor, available, fills, m)
      invariant HandlesValid(opposite.levels, opposite.roster, fills)
    {
      if !aggressor.Crosses(opposite.levels[i].price) {
        break;
      }
      var more, planned, stop := PlanNext(opposite, aggressor, i, available, fills, m);
      fills, available, blocked := fills + more, available - planned, stop;
      if blocked {
        break;
      }
      if planned == 0 {
        assert false;  // a crossing level always yields something, or blocks
        break;
      }
      i := i + 1;
    }
    if !blocked {
      StopsHere(opposite.side, ladder, i, aggressor, available, fills, m);
    }
    plan := MatchPlan(fills, aggressor.remaining - available, blocked);
  }
}
