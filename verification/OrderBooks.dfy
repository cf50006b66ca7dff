/**
 The object behind a ladder: levels best first, an index from order id to price and handle, and a
 ghost roster of who stands where.
 */
module OrderBooks {
  import opened Orders
  import opened Matching
  import opened Ladders
  import opened LadderTheorems
  import opened PriceLevels

  datatype Locator = Locator(price: Price, position: Handle)

  /** Who stands where: for each level, its nodes from the front of the queue. */
  type Roster = seq<seq<Node>>

  /** The side as a value. */
  function LadderOf(levels: seq<PriceLevel>, roster: Roster): (ladder: Ladder)
    requires |levels| == |roster|
    ensures |ladder| == |levels|
    ensures forall i :: 0 <= i < |levels| ==> ladder[i] == LevelState(levels[i].price, States(roster[i]))
  {
    seq(|levels|, i requires 0 <= i < |levels| => LevelState(levels[i].price, States(roster[i])))
  }

  predicate SortedLevels(side: Side, levels: seq<PriceLevel>) {
    forall i, j :: 0 <= i < j < |levels| ==> Better(side, levels[i].price, levels[j].price)
  }

  /** How many levels are strictly better than `price`: where its level is, or would go. */
  function Slot(side: Side, levels: seq<PriceLevel>, price: Price): (k: nat)
    ensures k <= |levels|
    ensures forall i :: 0 <= i < k ==> Better(side, levels[i].price, price)
    ensures k < |levels| ==> !Better(side, levels[k].price, price)
  {
    if levels == [] || !Better(side, levels[0].price, price) then 0 else 1 + Slot(side, levels[1..], price)
  }

  predicate DistinctHandles(nodes: seq<Node>) {
    forall i, j :: 0 <= i < j < |nodes| ==> nodes[i].handle != nodes[j].handle
  }

  /** Every standing order is indexed, under its own id, at its level's price and by its handle. */
  ghost predicate AllIndexed(levels: seq<PriceLevel>, roster: Roster, index: map<OrderId, Locator>)
    requires |levels| == |roster|
  {
    forall i, j :: 0 <= i < |roster| && 0 <= j < |roster[i]| ==>
      roster[i][j].order.id in index &&
      index[roster[i][j].order.id] == Locator(levels[i].price, roster[i][j].handle)
  }

  ghost predicate AllDistinct(roster: Roster) {
    forall i :: 0 <= i < |roster| ==> DistinctHandles(roster[i])
  }

  /** Only ids that stand on the side are indexed. */
  ghost predicate OnlyStandingIndexed(ladder: Ladder, index: map<OrderId, Locator>) {
    forall id :: id in index ==> LadderSum(ladder, WithId(id)) > 0
  }

  /** The index is exactly the map from id to position of the orders that stand on the side. */
  ghost predicate Exact(side: Side, levels: seq<PriceLevel>, roster: Roster, index: map<OrderId, Locator>) {
    && |levels| == |roster|
    && SortedLevels(side, levels)
    && AllDistinct(roster)
    && AllIndexed(levels, roster, index)
    && OnlyStandingIndexed(LadderOf(levels, roster), index)
  }

  /** No two standing orders share an id. */
  lemma StandsOnce(
    side: Side, levels: seq<PriceLevel>, roster: Roster, index: map<OrderId, Locator>, i: nat, j: nat, i': nat, j': nat)
    requires |levels| == |roster| && SortedLevels(side, levels) && AllDistinct(roster)
    requires AllIndexed(levels, roster, index)
    requires i < |roster| && j < |roster[i]| && i' < |roster| && j' < |roster[i']|
    ensures roster[i][j].order.id == roster[i'][j'].order.id ==> i == i' && j == j'
  {
  }

  /** An indexed id leads to its order: the level exists and the handle is valid. */
  lemma Locate(side: Side, levels: seq<PriceLevel>, roster: Roster, index: map<OrderId, Locator>, id: OrderId)
    returns (i: nat, j: nat)
    requires Exact(side, levels, roster, index) && id in index
    ensures i < |roster| && j < |roster[i]| && roster[i][j].order.id == id
    ensures index[id] == Locator(levels[i].price, roster[i][j].handle)
    ensures Slot(side, levels, index[id].price) == i && At(roster[i], index[id].position) == j
  {
    assert LadderSum(LadderOf(levels, roster), WithId(id)) > 0;
    i, j := StandsSomewhere(LadderOf(levels, roster), id);
  }

  /** An id that is not indexed does not stand on the side. */
  lemma NotIndexed(side: Side, levels: seq<PriceLevel>, roster: Roster, index: map<OrderId, Locator>, id: OrderId)
    requires Exact(side, levels, roster, index) && id !in index
    ensures Find(LadderOf(levels, roster), id) == None && LadderSum(LadderOf(levels, roster), WithId(id)) == 0
  {
    var ladder := LadderOf(levels, roster);
    FindIffCounted(ladder, id);
    if LadderSum(ladder, WithId(id)) > 0 {
      var i, j := StandsSomewhere(ladder, id);
    }
  }

  lemma IndexedWithout(
    side: Side, levels: seq<PriceLevel>, roster: Roster, index: map<OrderId, Locator>, i: nat, j: nat)
    requires |levels| == |roster| && SortedLevels(side, levels) && AllDistinct(roster)
    requires AllIndexed(levels, roster, index) && i < |roster| && j < |roster[i]|
    ensures AllDistinct(roster[i := Unlinked(roster[i], j)])
    ensures AllIndexed(levels, roster[i := Unlinked(roster[i], j)], index - {roster[i][j].order.id})
  {
    var id := roster[i][j].order.id;
    var queue := Unlinked(roster[i], j);
    var roster': Roster := roster[i := queue];
    forall m | 0 <= m < |queue| ensures queue[m] == roster[i][if m < j then m else m + 1] {
    }
    forall i', j' | 0 <= i' < |roster'| && 0 <= j' < |roster'[i']| ensures roster'[i'][j'].order.id != id {
      StandsOnce(side, levels, roster, index, i, j, i', if i' == i && j' >= j then j' + 1 else j');
    }
  }

  /** Same nodes in another order, or with the same ids: the index need not change. */
  lemma IndexedAfterShuffle(
    levels: seq<PriceLevel>, roster: Roster, index: map<OrderId, Locator>, i: nat, queue: seq<Node>, from: seq<nat>)
    requires |levels| == |roster| && AllDistinct(roster) && AllIndexed(levels, roster, index) && i < |roster|
    requires |from| == |queue|
    requires forall m :: 0 <= m < |queue| ==>
               && from[m] < |roster[i]| && queue[m].handle == roster[i][from[m]].handle
               && queue[m].order.id == roster[i][from[m]].order.id
    requires forall m, n :: 0 <= m < n < |from| ==> from[m] != from[n]
    ensures AllDistinct(roster[i := queue]) && AllIndexed(levels, roster[i := queue], index)
  {
  }

  // ----- Exactness through each edit -----

  lemma {:induction false} LevelUpdateSum(ladder: Ladder, k: nat, level: LevelState, m: Amount)
    requires k < |ladder|
    ensures LadderSum(ladder[k := level], m) + QueueSum(ladder[k].queue, m) ==
            LadderSum(ladder, m) + QueueSum(level.queue, m)
  {
    if k == 0 {
      assert ladder[0 := level][1..] == ladder[1..];
    } else {
      assert ladder[k := level][1..] == ladder[1..][k - 1 := level];
      LevelUpdateSum(ladder[1..], k - 1, level, m);
    }
  }

  lemma TradeCountExact(queue: seq<OrderState>, qty: Quantity, id: OrderId)
    requires queue != []
    ensures QueueSum(AfterTrade(queue, qty), WithId(id)) +
            (if queue[0].Filled(qty).remaining == 0 && queue[0].id == id then 1 else 0) == QueueSum(queue, WithId(id))
  {
    var head := queue[0].Filled(qty);
    QueueSumAppend(queue[1..], [head.Replenished()], WithId(id));
    QueueSumAppend([head], queue[1..], WithId(id));
  }

  /** The index the book keeps once the head of a level has traded `qty`. */
  function IndexAfterTrade(index: map<OrderId, Locator>, nodes: seq<Node>, qty: Quantity): map<OrderId, Locator>
    requires nodes != []
  {
    if nodes[0].order.Filled(qty).remaining == 0 then index - {nodes[0].order.id} else index
  }

  lemma IndexedAfterTrade(
    side: Side, levels: seq<PriceLevel>, roster: Roster, index: map<OrderId, Locator>, k: nat, qty: Quantity)
    requires |levels| == |roster| && SortedLevels(side, levels) && AllDistinct(roster)
    requires AllIndexed(levels, roster, index) && k < |roster| && roster[k] != []
    ensures var nodes := TradedNodes(roster[k], qty);
      && AllDistinct(roster[k := nodes])
      && AllIndexed(levels, roster[k := nodes], IndexAfterTrade(index, roster[k], qty))
  {
    var nodes := TradedNodes(roster[k], qty);
    var head := roster[k][0].order.Filled(qty);
    if head.remaining == 0 {
      IndexedWithout(side, levels, roster, index, k, 0);
      assert Unlinked(roster[k], 0) == nodes;
    } else if head.Visible() == 0 {
      var last := |nodes| - 1;
      IndexedAfterShuffle(levels, roster, index, k, nodes, seq(|nodes|, m => if m == last then 0 else m + 1));
    } else {
      IndexedAfterShuffle(levels, roster, index, k, nodes, seq(|nodes|, m => m));
    }
  }

  lemma ExactAfterTrade(
    side: Side, levels: seq<PriceLevel>, roster: Roster, index: map<OrderId, Locator>, k: nat, qty: Quantity)
    requires Exact(side, levels, roster, index) && k < |roster| && roster[k] != []
    ensures var roster' := roster[k := TradedNodes(roster[k], qty)];
      && Exact(side, levels, roster', IndexAfterTrade(index, roster[k], qty))
      && LadderOf(levels, roster') ==
           LadderOf(levels, roster)[k := LevelState(levels[k].price, AfterTrade(States(roster[k]), qty))]
  {
    var ladder := LadderOf(levels, roster);
    var roster' := roster[k := TradedNodes(roster[k], qty)];
    var level := LevelState(levels[k].price, AfterTrade(States(roster[k]), qty));
    IndexedAfterTrade(side, levels, roster, index, k, qty);
    TradedStates(roster[k], qty);
    assert LadderOf(levels, roster') == ladder[k := level];
    forall id | id in IndexAfterTrade(index, roster[k], qty) ensures LadderSum(ladder[k := level], WithId(id)) > 0 {
      assert LadderSum(ladder, WithId(id)) > 0;
      LevelUpdateSum(ladder, k, level, WithId(id));
      TradeCountExact(States(roster[k]), qty, id);
    }
  }

  lemma ExactWithoutFirst(side: Side, levels: seq<PriceLevel>, roster: Roster, index: map<OrderId, Locator>)
    requires Exact(side, levels, roster, index) && roster != [] && roster[0] == []
    ensures Exact(side, levels[1..], roster[1..], index)
    ensures LadderOf(levels[1..], roster[1..]) == LadderOf(levels, roster)[1..]
  {
    var ladder := LadderOf(levels, roster);
    assert LadderOf(levels[1..], roster[1..]) == ladder[1..];
    forall id | id in index ensures LadderSum(ladder[1..], WithId(id)) > 0 {
      assert LadderSum(ladder, WithId(id)) > 0;
    }
  }

  /** Index and roster stay exact when one order leaves both; its level may be left empty. */
  lemma ExactWithout(
    side: Side, levels: seq<PriceLevel>, roster: Roster, index: map<OrderId, Locator>, i: nat, j: nat)
    requires Exact(side, levels, roster, index) && i < |roster| && j < |roster[i]|
    ensures var roster' := roster[i := Unlinked(roster[i], j)];
      && Exact(side, levels, roster', index - {roster[i][j].order.id})
      && LadderOf(levels, roster') ==
           LadderOf(levels, roster)[i := LevelState(levels[i].price, Without(States(roster[i]), j))]
  {
    var ladder := LadderOf(levels, roster);
    var roster' := roster[i := Unlinked(roster[i], j)];
    var level := LevelState(levels[i].price, Without(States(roster[i]), j));
    IndexedWithout(side, levels, roster, index, i, j);
    assert States(Unlinked(roster[i], j)) == level.queue;
    assert LadderOf(levels, roster') == ladder[i := level];
    forall id | id in index - {roster[i][j].order.id} ensures LadderSum(ladder[i := level], WithId(id)) > 0 {
      assert LadderSum(ladder, WithId(id)) > 0;
      LevelUpdateSum(ladder, i, level, WithId(id));
      WithoutSum(States(roster[i]), j, WithId(id));
    }
  }

  lemma {:induction false} DropLevelSum(ladder: Ladder, i: nat, m: Amount)
    requires i < |ladder|
    ensures LadderSum(ladder[..i] + ladder[i + 1..], m) + QueueSum(ladder[i].queue, m) == LadderSum(ladder, m)
  {
    if i == 0 {
      assert ladder[..0] + ladder[1..] == ladder[1..];
    } else {
      assert (ladder[..i] + ladder[i + 1..])[1..] == ladder[1..][..i - 1] + ladder[1..][i..];
      DropLevelSum(ladder[1..], i - 1, m);
    }
  }

  /** An empty level may be dropped wherever it stands. */
  lemma ExactWithoutLevel(side: Side, levels: seq<PriceLevel>, roster: Roster, index: map<OrderId, Locator>, i: nat)
    requires Exact(side, levels, roster, index) && i < |roster| && roster[i] == []
    ensures var levels', roster' := levels[..i] + levels[i + 1..], roster[..i] + roster[i + 1..];
      && Exact(side, levels', roster', index)
      && LadderOf(levels', roster') == LadderOf(levels, roster)[..i] + LadderOf(levels, roster)[i + 1..]
  {
    var ladder := LadderOf(levels, roster);
    var levels', roster' := levels[..i] + levels[i + 1..], roster[..i] + roster[i + 1..];
    assert LadderOf(levels', roster') == ladder[..i] + ladder[i + 1..];
    forall id | id in index ensures LadderSum(ladder[..i] + ladder[i + 1..], WithId(id)) > 0 {
      assert LadderSum(ladder, WithId(id)) > 0;
      DropLevelSum(ladder, i, WithId(id));
    }
  }

  lemma IndexedWithLevel(
    side: Side, levels: seq<PriceLevel>, roster: Roster, index: map<OrderId, Locator>, k: nat, node: PriceLevel)
    requires |levels| == |roster| && SortedLevels(side, levels) && AllDistinct(roster)
    requires AllIndexed(levels, roster, index) && k == Slot(side, levels, node.price)
    requires k == |levels| || levels[k].price != node.price
    ensures SortedLevels(side, Inserted(levels, k, node))
    ensures AllDistinct(Inserted(roster, k, [])) && AllIndexed(Inserted(levels, k, node), Inserted(roster, k, []), index)
  {
  }

  /** Room for an order that is not there yet: an empty level, when its price has none. */
  lemma ExactWithLevel(
    side: Side, levels: seq<PriceLevel>, roster: Roster, index: map<OrderId, Locator>, k: nat, node: PriceLevel)
    requires Exact(side, levels, roster, index) && k == Slot(side, levels, node.price)
    requires k == |levels| || levels[k].price != node.price
    ensures var levels', roster' := Inserted(levels, k, node), Inserted(roster, k, []);
      && Exact(side, levels', roster', index)
      && LadderOf(levels', roster') == Inserted(LadderOf(levels, roster), k, LevelState(node.price, []))
  {
    IndexedWithLevel(side, levels, roster, index, k, node);
    LadderWithLevel(levels, roster, k, node);
    StandingWithLevel(LadderOf(levels, roster), k, node.price, index);
  }

  lemma LadderWithLevel(levels: seq<PriceLevel>, roster: Roster, k: nat, node: PriceLevel)
    requires |levels| == |roster| && k <= |levels|
    ensures LadderOf(Inserted(levels, k, node), Inserted(roster, k, []))
            == Inserted(LadderOf(levels, roster), k, LevelState(node.price, []))
  {
  }

  lemma StandingWithLevel(ladder: Ladder, k: nat, price: Price, index: map<OrderId, Locator>)
    requires k <= |ladder| && OnlyStandingIndexed(ladder, index)
    ensures OnlyStandingIndexed(Inserted(ladder, k, LevelState(price, [])), index)
  {
    var ladder' := Inserted(ladder, k, LevelState(price, []));
    assert ladder'[..k] + ladder'[k + 1..] == ladder;
    forall id | id in index ensures LadderSum(ladder', WithId(id)) > 0 {
      assert LadderSum(ladder, WithId(id)) > 0;
      DropLevelSum(ladder', k, WithId(id));
    }
  }

  /** A newcomer with an unused id and handle, at the back of level `k`. */
  lemma ExactWithNewcomer(
    side: Side, levels: seq<PriceLevel>, roster: Roster, index: map<OrderId, Locator>, k: nat, n: Node)
    requires Exact(side, levels, roster, index) && k < |roster| && n.order.id !in index
    requires forall j :: 0 <= j < |roster[k]| ==> roster[k][j].handle != n.handle
    ensures var roster' := roster[k := roster[k] + [n]];
      && Exact(side, levels, roster', index[n.order.id := Locator(levels[k].price, n.handle)])
      && LadderOf(levels, roster') ==
           LadderOf(levels, roster)[k := LevelState(levels[k].price, States(roster[k]) + [n.order])]
  {
    var ladder := LadderOf(levels, roster);
    var roster' := roster[k := roster[k] + [n]];
    var level := LevelState(levels[k].price, States(roster[k]) + [n.order]);
    assert States(roster[k] + [n]) == level.queue;
    assert LadderOf(levels, roster') == ladder[k := level];
    forall id | id in index || id == n.order.id ensures LadderSum(ladder[k := level], WithId(id)) > 0 {
      assert id in index ==> LadderSum(ladder, WithId(id)) > 0;
      LevelUpdateSum(ladder, k, level, WithId(id));
      QueueSumAppend(States(roster[k]), [n.order], WithId(id));
    }
  }

  /** Index and roster stay exact when an order shrinks where it stands. */
  lemma ExactWithReduced(
    side: Side, levels: seq<PriceLevel>, roster: Roster, index: map<OrderId, Locator>, i: nat, j: nat, qty: Quantity)
    requires Exact(side, levels, roster, index) && i < |roster| && j < |roster[i]|
    ensures var o := roster[i][j].order.Reduced(qty);
      var roster' := roster[i := roster[i][j := Node(roster[i][j].handle, o)]];
      && Exact(side, levels, roster', index)
      && LadderOf(levels, roster') ==
           LadderOf(levels, roster)[i := LevelState(levels[i].price, States(roster[i])[j := o])]
  {
    var ladder := LadderOf(levels, roster);
    var o := roster[i][j].order.Reduced(qty);
    var nodes := roster[i][j := Node(roster[i][j].handle, o)];
    var level := LevelState(levels[i].price, States(roster[i])[j := o]);
    IndexedAfterShuffle(levels, roster, index, i, nodes, seq(|nodes|, m => m));
    assert States(nodes) == level.queue;
    assert LadderOf(levels, roster[i := nodes]) == ladder[i := level];
    forall id | id in index ensures LadderSum(ladder[i := level], WithId(id)) > 0 {
      assert LadderSum(ladder, WithId(id)) > 0;
      LevelUpdateSum(ladder, i, level, WithId(id));
      UpdateSum(States(roster[i]), j, o, WithId(id));
    }
  }

  /** A handle no live node of any of these levels has. */
  function HandleAboveAll(levels: seq<PriceLevel>): (h: Handle)
    reads levels
    ensures forall i :: 0 <= i < |levels| ==> forall j :: 0 <= j < |levels[i].orders| ==> levels[i].orders[j].handle < h
  {
    if levels == [] then 0
    else
      var h, h' := HandleAbove(levels[0].orders), HandleAboveAll(levels[1..]);
      if h < h' then h' else h
  }

  ghost predicate NoHandle(roster: Roster, h: Handle) {
    forall i, j :: 0 <= i < |roster| && 0 <= j < |roster[i]| ==> roster[i][j].handle != h
  }

  lemma NoHandleWithLevel(roster: Roster, k: nat)
    requires k <= |roster|
    ensures forall h :: NoHandle(roster, h) ==> NoHandle(Inserted(roster, k, []), h)
  {
  }

  lemma NoHandleWithoutLevel(roster: Roster, k: nat)
    requires k < |roster|
    ensures forall h :: NoHandle(roster, h) ==> NoHandle(roster[..k] + roster[k + 1..], h)
  {
  }

  lemma InsertedMembers<T>(s: seq<T>, k: nat, x: T)
    requires k <= |s|
    ensures forall y :: y in Inserted(s, k, x) ==> y in s || y == x
  {
  }

  class OrderBook {
    const side: Side
    var levels: seq<PriceLevel>
    var index: map<OrderId, Locator>
    ghost var roster: Roster

    constructor (side: Side)
      ensures Valid() && levels == [] && index == map[] && this.side == side
    {
      this.side, levels, index, roster := side, [], map[], [];
    }

    ghost predicate Valid()
      reads this, levels
    {
      && Exact(side, levels, roster, index)
      && (forall i :: 0 <= i < |levels| ==>
            levels[i].orders == roster[i] && levels[i].side == side && levels[i].Valid())
    }

    /** The side as a value. */
    ghost function State(): Ladder
      requires |levels| == |roster|
      reads this
    {
      LadderOf(levels, roster)
    }

    /** No live node of this side has this handle. */
    ghost predicate Unused(h: Handle)
      reads this
    {
      NoHandle(roster, h)
    }

    /** Executes one planned fill against the head of its level, keeping the index in step. */
    method Execute(level: PriceLevel, position: Handle, qty: Quantity, ghost k: nat)
      requires Valid() && k < |levels| && levels[k] == level
      requires level.orders != [] && position == level.orders[0].handle
      requires qty <= level.orders[0].order.Visible() <= level.orders[0].order.remaining
      modifies this`index, this`roster, level
      ensures Valid()
      ensures roster == old(roster)[k := TradedNodes(old(roster[k]), qty)]
      ensures State() == old(State())[k := LevelState(level.price, AfterTrade(old(State())[k].queue, qty))]
    {
      ExactAfterTrade(side, levels, roster, index, k, qty);
      var id := level.orders[0].order.id;
      var gone := level.TradeHead(position, qty);
      if gone {
        index := index - {id};
      }
      roster := roster[k := level.orders];
    }

    /** DropEmptyFront on the objects. */
    method DropEmptyLevelsFromFront()
      requires Valid()
      modifies this`levels, this`roster
      ensures Valid()
      ensures State() == DropEmptyFront(old(State()))
      ensures forall l :: l in levels ==> l in old(levels)
    {
      while levels != [] && levels[0].orders == []
        invariant Valid()
        invariant forall l :: l in levels ==> l in old(levels)
        invariant DropEmptyFront(State()) == DropEmptyFront(old(State()))
        decreases |levels|
      {
        ExactWithoutFirst(side, levels, roster, index);
        levels, roster := levels[1..], roster[1..];
      }
    }

    /** Takes an order out of the index and out of its level, which may be left empty. */
    method Unlink(id: OrderId, k: nat, position: Handle, ghost j: nat) returns (order: OrderState)
      requires Valid() && k < |levels| && j < |roster[k]| && At(roster[k], position) == j
      requires id == roster[k][j].order.id
      modifies this`index, this`roster, levels[k]
      ensures Valid()
      ensures order == old(State())[k].queue[j]
      ensures State() == old(State())[k := LevelState(levels[k].price, Without(old(State())[k].queue, j))]
      ensures forall h :: old(Unused(h)) ==> Unused(h)
    {
      ExactWithout(side, levels, roster, index, k, j);
      index := index - {id};
      order := levels[k].Extract(position);
      roster := roster[k := levels[k].orders];
    }

    /** Drops level `k` when nothing is left in it. */
    method EraseIfEmpty(k: nat)
      requires Valid() && k < |levels|
      modifies this`levels, this`roster
      ensures Valid()
      ensures State() == WithQueue(old(State()), k, old(State())[k].queue)
      ensures forall l :: l in levels ==> l in old(levels)
      ensures forall h :: old(Unused(h)) ==> Unused(h)
    {
      if levels[k].orders == [] {
        EraseLevel(k);
      }
    }

    method EraseLevel(k: nat)
      requires Valid() && k < |levels| && levels[k].orders == []
      modifies this`levels, this`roster
      ensures Valid() && levels == old(levels[..k] + levels[k + 1..])
      ensures State() == old(State()[..k] + State()[k + 1..])
      ensures forall h :: old(Unused(h)) ==> Unused(h)
    {
      ExactWithoutLevel(side, levels, roster, index, k);
      NoHandleWithoutLevel(roster, k);
      levels, roster := levels[..k] + levels[k + 1..], roster[..k] + roster[k + 1..];
    }

    /** Remove on the objects, through the index. */
    method Cancel(id: OrderId) returns (order: Option<OrderState>)
      requires Valid() && LadderSum(State(), WithId(id)) <= 1
      modifies this, levels
      ensures Valid()
      ensures order == Find(old(State()), id)
      ensures State() == if order.Some? then Remove(old(State()), id) else old(State())
      ensures forall l :: l in levels ==> l in old(levels)
      ensures forall h :: old(Unused(h)) ==> Unused(h)
    {
      if id !in index {
        NotIndexed(side, levels, roster, index, id);
        return None;
      }
      var locator := index[id];
      ghost var i, j := Locate(side, levels, roster, index, id);
      FindAt(State(), i, j);
      RemoveAt(State(), i, j);
      var k := Slot(side, levels, locator.price);
      var removed := Unlink(id, k, locator.position, j);
      EraseIfEmpty(k);
      order := Some(removed);
    }

    /** Reduce on the objects, through the index. */
    method ReduceInPlace(id: OrderId, newQty: Quantity)
      requires Valid() && LadderSum(State(), WithId(id)) <= 1
      requires Find(State(), id).Some? && newQty <= Find(State(), id).value.remaining
      modifies this`roster, levels
      ensures Valid()
      ensures State() == Reduce(old(State()), id, newQty)
    {
      FindIffCounted(State(), id);
      ghost var i, j := StandsSomewhere(State(), id);
      assert roster[i][j].order.id == id;
      FindAt(State(), i, j);
      ReduceAt(State(), i, j, newQty);
      var locator := index[id];
      ReduceLevel(Slot(side, levels, locator.price), locator.position, newQty, j);
    }

    /** Shrinks the order behind one handle of level `k`. */
    method ReduceLevel(k: nat, position: Handle, newQty: Quantity, ghost j: nat)
      requires Valid() && k < |levels| && j < |roster[k]| && At(roster[k], position) == j
      requires newQty <= roster[k][j].order.remaining
      modifies this`roster, levels[k]
      ensures Valid()
      ensures State() == old(State())[k := LevelState(levels[k].price,
                           old(State())[k].queue[j := old(State())[k].queue[j].Reduced(newQty)])]
    {
      ExactWithReduced(side, levels, roster, index, k, j, newQty);
      levels[k].ReduceQuantity(position, newQty);
      roster := roster[k := levels[k].orders];
    }

    /** WithLevel on the objects: `node` is used only where its price has no level yet. */
    method InstallLevel(node: PriceLevel) returns (k: nat)
      requires Valid() && node.Valid() && node.orders == [] && node.side == side
      modifies this`levels, this`roster
      ensures Valid()
      ensures k <= |old(State())| && k < |levels| && levels[k].price == node.price
      ensures forall i :: 0 <= i < k ==> Better(side, old(State())[i].price, node.price)
      ensures k < |old(State())| ==> !Better(side, old(State())[k].price, node.price)
      ensures forall l :: l in levels ==> l in old(levels) || l == node
      ensures forall h :: old(Unused(h)) ==> Unused(h)
      ensures State() == WithLevel(old(State()), node.price, k)
    {
      k := Slot(side, levels, node.price);
      if k == |levels| || levels[k].price != node.price {
        InsertLevel(node, k);
        InsertedMembers(old(levels), k, node);
      }
    }

    /** Puts a level whose price has none yet into slot `k`. */
    method InsertLevel(node: PriceLevel, k: nat)
      requires Valid() && node.Valid() && node.orders == [] && node.side == side
      requires k == Slot(side, levels, node.price) && (k == |levels| || levels[k].price != node.price)
      modifies this`levels, this`roster
      ensures Valid() && levels == Inserted(old(levels), k, node)
      ensures forall h :: old(Unused(h)) ==> Unused(h)
      ensures State() == Inserted(old(State()), k, LevelState(node.price, []))
    {
      ExactWithLevel(side, levels, roster, index, k, node);
      NoHandleWithLevel(roster, k);
      levels, roster := Inserted(levels, k, node), Inserted(roster, k, []);
    }

    /** Points the index at a newcomer and links it at the back of level `k`. */
    method AdoptAt(k: nat, n: Node)
      requires Valid() && k < |levels| && n.order.id !in index && Unused(n.handle)
      modifies this`index, this`roster, levels[k]
      ensures Valid()
      ensures State() == old(State())[k := LevelState(levels[k].price, old(State())[k].queue + [n.order])]
    {
      ExactWithNewcomer(side, levels, roster, index, k, n);
      index := index[n.order.id := Locator(levels[k].price, n.handle)];
      levels[k].Adopt(n);
      roster := roster[k := levels[k].orders];
    }

    /** Rest on the objects, with `node` in hand for a price that has no level. */
    method RestOrder(node: PriceLevel, n: Node)
      requires Valid() && node.Valid() && node.orders == [] && node.side == side
      requires n.order.id !in index && Unused(n.handle)
      modifies this, levels, node
      ensures Valid()
      ensures State() == Rest(side, old(State()), node.price, n.order)
      ensures forall l :: l in levels ==> l in old(levels) || l == node
    {
      ghost var before := State();
      var k := InstallLevel(node);
      assert levels[k] in levels;
      RestInSteps(side, before, node.price, n.order, k);
      AdoptAt(k, n);
    }

    /** The index answers exactly which ids rest on this side. */
    lemma IndexAnswers(id: OrderId)
      requires Valid()
      ensures id in index <==> Find(State(), id).Some?
      ensures id in index <==> LadderSum(State(), WithId(id)) > 0
    {
      FindIffCounted(State(), id);
      if id !in index {
        NotIndexed(side, levels, roster, index, id);
      }
    }

    /** The resting order with this id, reached through the index. */
    method Lookup(id: OrderId) returns (order: Option<OrderState>)
      requires Valid() && LadderSum(State(), WithId(id)) <= 1
      ensures order == Find(State(), id)
    {
      IndexAnswers(id);
      if id !in index {
        return None;
      }
      ghost var i, j := Locate(side, levels, roster, index, id);
      FindAt(State(), i, j);
      var level := levels[Slot(side, levels, index[id].price)];
      order := Some(level.orders[At(level.orders, index[id].position)].order);
    }
  }
}
