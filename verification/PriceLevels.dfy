/**
 A price level as an object updated in place. Each list node owns one order and is named by
 a handle, which plays the part of the list iterator: it stays with its node wherever the
 node stands in the queue.
 */
module PriceLevels {
  import opened Orders
  import opened Matching
  import opened Ladders
  import opened LadderTheorems

  type Handle = nat

  datatype Node = Node(handle: Handle, order: OrderState)

  function States(nodes: seq<Node>): (states: seq<OrderState>)
    ensures |states| == |nodes|
    ensures forall i :: 0 <= i < |nodes| ==> states[i] == nodes[i].order
  {
    seq(|nodes|, i requires 0 <= i < |nodes| => nodes[i].order)
  }

  /** Where the node named by a handle stands, or |nodes| when there is none. */
  function At(nodes: seq<Node>, handle: Handle): (k: nat)
    ensures k <= |nodes|
    ensures k < |nodes| ==> nodes[k].handle == handle
    ensures forall i :: 0 <= i < k ==> nodes[i].handle != handle
  {
    if nodes == [] || nodes[0].handle == handle then 0 else 1 + At(nodes[1..], handle)
  }

  /** A handle no live node has, as a fresh allocation gives. */
  function HandleAbove(nodes: seq<Node>): (h: Handle)
    ensures forall i :: 0 <= i < |nodes| ==> nodes[i].handle < h
  {
    if nodes == [] then 0
    else
      var h := HandleAbove(nodes[1..]);
      if nodes[0].handle < h then h else nodes[0].handle + 1
  }

  function Unlinked(nodes: seq<Node>, k: nat): seq<Node>
    requires k < |nodes|
  {
    nodes[..k] + nodes[k + 1..]
  }

  /** The nodes after the head traded `qty`: unlinked, spliced to the back refreshed, or reduced. */
  function TradedNodes(nodes: seq<Node>, qty: Quantity): seq<Node>
    requires nodes != []
  {
    var head := nodes[0].order.Filled(qty);
    if head.remaining == 0 then nodes[1..]
    else if head.Visible() == 0 then nodes[1..] + [Node(nodes[0].handle, head.Replenished())]
    else [Node(nodes[0].handle, head)] + nodes[1..]
  }

  lemma TradedStates(nodes: seq<Node>, qty: Quantity)
    requires nodes != []
    ensures States(TradedNodes(nodes, qty)) == AfterTrade(States(nodes), qty)
  {
    assert States(nodes)[1..] == States(nodes[1..]);
  }

  lemma HeadIsFirst(nodes: seq<Node>)
    requires nodes != []
    ensures At(nodes, nodes[0].handle) == 0 && Unlinked(nodes, 0) == nodes[1..] && nodes == [nodes[0]] + nodes[1..]
  {
  }

  /** The object behind a LevelState: its nodes from the front, and two totals kept beside them. */
  class PriceLevel {
    const price: Price
    ghost const side: Side  // which side of the book the level was made for
    var orders: seq<Node>
    var totalQty: Quantity
    var visibleQty: Quantity

    constructor (ghost side: Side, price: Price)
      ensures Valid() && orders == [] && this.price == price && this.side == side
    {
      this.side, this.price := side, price;
      orders, totalQty, visibleQty := [], 0, 0;
    }

    /** The cached totals are the sums over the queue. */
    ghost predicate Valid()
      reads this
    {
      && totalQty == QueueSum(States(orders), Remaining)
      && visibleQty == QueueSum(States(orders), Shown)
    }

    method ApplyFill(position: Handle, qty: Quantity)
      requires Valid() && At(orders, position) < |orders|
      requires qty <= orders[At(orders, position)].order.Visible() <= orders[At(orders, position)].order.remaining
      modifies this
      ensures Valid()
      ensures var k := At(old(orders), position);
        orders == old(orders)[k := Node(position, old(orders)[k].order.Filled(qty))]
    {
      var k := At(orders, position);
      var filled := orders[k].order.Filled(qty);
      UpdateSum(States(orders), k, filled, Remaining);
      UpdateSum(States(orders), k, filled, Shown);
      assert States(orders[k := Node(position, filled)]) == States(orders)[k := filled];
      orders := orders[k := Node(position, filled)];
      totalQty := totalQty - qty;
      visibleQty := visibleQty - qty;
    }

    method Extract(position: Handle) returns (order: OrderState)
      requires Valid() && At(orders, position) < |orders|
      modifies this
      ensures Valid()
      ensures var k := At(old(orders), position);
        order == old(orders)[k].order && orders == Unlinked(old(orders), k)
    {
      var k := At(orders, position);
      order := orders[k].order;
      WithoutSum(States(orders), k, Remaining);
      WithoutSum(States(orders), k, Shown);
      assert States(Unlinked(orders, k)) == Without(States(orders), k);
      orders := Unlinked(orders, k);
      totalQty := totalQty - order.remaining;
      visibleQty := visibleQty - order.Visible();
    }

    method ReplenishAndRequeue(position: Handle)
      requires Valid() && At(orders, position) < |orders|
      requires orders[At(orders, position)].order.Visible() == 0
      modifies this
      ensures Valid()
      ensures var k := At(old(orders), position);
        orders == Unlinked(old(orders), k) + [Node(position, old(orders)[k].order.Replenished())]
    {
      var k := At(orders, position);
      var refreshed := orders[k].order.Replenished();
      RequeueSum(States(orders), k, refreshed);
      assert States(Unlinked(orders, k) + [Node(position, refreshed)]) == Without(States(orders), k) + [refreshed];
      visibleQty := visibleQty + refreshed.Visible();
      orders := Unlinked(orders, k) + [Node(position, refreshed)];
    }

    /** One execution against the head, and the surgery on the queue it calls for. */
    method TradeHead(position: Handle, qty: Quantity) returns (gone: bool)
      requires Valid() && orders != [] && position == orders[0].handle
      requires qty <= orders[0].order.Visible() <= orders[0].order.remaining
      modifies this
      ensures Valid()
      ensures orders == TradedNodes(old(orders), qty)
      ensures gone <==> old(orders)[0].order.Filled(qty).remaining == 0
    {
      HeadIsFirst(orders);
      var resting := orders[0].order.Filled(qty);
      ApplyFill(position, qty);
      HeadIsFirst(orders);
      gone := resting.remaining == 0;
      if gone {
        var consumed := Extract(position);
      } else if resting.Visible() == 0 {
        ReplenishAndRequeue(position);
      }
    }

    method ReduceQuantity(position: Handle, newQty: Quantity)
      requires Valid() && At(orders, position) < |orders|
      requires newQty <= orders[At(orders, position)].order.remaining
      modifies this
      ensures Valid()
      ensures var k := At(old(orders), position);
        orders == old(orders)[k := Node(position, old(orders)[k].order.Reduced(newQty))]
    {
      var k := At(orders, position);
      var before := orders[k].order;
      var after := before.Reduced(newQty);
      UpdateSum(States(orders), k, after, Remaining);
      UpdateSum(States(orders), k, after, Shown);
      assert States(orders[k := Node(position, after)]) == States(orders)[k := after];
      orders := orders[k := Node(position, after)];
      totalQty := totalQty - before.remaining + after.remaining;
      visibleQty := visibleQty - before.Visible() + after.Visible();
    }

    method Adopt(node: Node)
      requires Valid()
      modifies this
      ensures Valid()
      ensures orders == old(orders) + [node]
    {
      QueueSumAppend(States(orders), [node.order], Remaining);
      QueueSumAppend(States(orders), [node.order], Shown);
      assert States(orders + [node]) == States(orders) + [node.order];
      totalQty := totalQty + node.order.remaining;
      visibleQty := visibleQty + node.order.Visible();
      orders := orders + [node];
    }
  }

  /** Moving an order to the back with a fresh tranche changes only what is on display. */
  lemma RequeueSum(queue: seq<OrderState>, k: nat, refreshed: OrderState)
    requires k < |queue| && refreshed.remaining == queue[k].remaining && queue[k].Visible() == 0
    ensures QueueSum(Without(queue, k) + [refreshed], Remaining) == QueueSum(queue, Remaining)
    ensures QueueSum(Without(queue, k) + [refreshed], Shown) == QueueSum(queue, Shown) + refreshed.Visible()
  {
    WithoutSum(queue, k, Remaining);
    WithoutSum(queue, k, Shown);
    QueueSumAppend(Without(queue, k), [refreshed], Remaining);
    QueueSumAppend(Without(queue, k), [refreshed], Shown);
    assert [refreshed][1..] == [];
  }
}
