/**
 Ladders, the sides of a book as values: the shape they keep, the sums and identities
 carried by its orders, and the edits (rest, remove, reduce) other than matching.
 */
module Ladders {
  import opened Orders
  import opened Matching

  // ----- Sums over a side -----

  /** What a sum over orders adds up: a quantity, or one for each order carrying a number. */
  datatype Amount = Remaining | Shown | WithId(id: OrderId) | WithSequence(sequence: Sequence)

  function AmountOf(o: OrderState, a: Amount): nat {
    match a
    case Remaining => o.remaining
    case Shown => o.Visible()
    case WithId(n) => if o.id == n then 1 else 0
    case WithSequence(n) => if o.sequence == n then 1 else 0
  }

  function QueueSum(queue: seq<OrderState>, a: Amount): nat {
    if queue == [] then 0 else AmountOf(queue[0], a) + QueueSum(queue[1..], a)
  }

  function LadderSum(ladder: Ladder, a: Amount): nat {
    if ladder == [] then 0 else QueueSum(ladder[0].queue, a) + LadderSum(ladder[1..], a)
  }

  lemma {:induction false} QueueSumAppend(a: seq<OrderState>, b: seq<OrderState>, m: Amount)
    ensures QueueSum(a + b, m) == QueueSum(a, m) + QueueSum(b, m)
  {
    if a == [] {
      assert a + b == b;
    } else {
      assert (a + b)[1..] == a[1..] + b;
      QueueSumAppend(a[1..], b, m);
    }
  }

  lemma {:induction false} QueueSumPositive(queue: seq<OrderState>, m: Amount)
    ensures QueueSum(queue, m) > 0 <==> exists o :: o in queue && AmountOf(o, m) > 0
  {
    if queue != [] {
      QueueSumPositive(queue[1..], m);
      assert queue == [queue[0]] + queue[1..];
    }
  }

  lemma {:induction false} LadderSumPositive(ladder: Ladder, m: Amount)
    ensures LadderSum(ladder, m) > 0 <==>
            exists level, o :: level in ladder && o in level.queue && AmountOf(o, m) > 0
  {
    if ladder != [] {
      QueueSumPositive(ladder[0].queue, m);
      LadderSumPositive(ladder[1..], m);
      assert ladder == [ladder[0]] + ladder[1..];
    }
  }

  lemma OnceMeansElsewhereNot(queue: seq<OrderState>, k: nat, id: OrderId)
    requires k < |queue| && queue[k].id == id && QueueSum(queue, WithId(id)) <= 1
    ensures QueueSum(queue[..k], WithId(id)) == 0
    ensures forall i :: 0 <= i < k ==> queue[i].id != id
  {
    assert queue == queue[..k] + queue[k..];
    QueueSumAppend(queue[..k], queue[k..], WithId(id));
    QueueSumPositive(queue[..k], WithId(id));
    forall i | 0 <= i < k ensures queue[i].id != id {
      assert queue[i] == queue[..k][i] && queue[i] in queue[..k];
    }
  }

  // ----- Shape -----

  ghost predicate HealthyQueue(queue: seq<OrderState>) {
    forall o :: o in queue ==> o.Healthy()
  }

  /** Every order of a level belongs to this side and rests at its own limit. */
  ghost predicate Seated(side: Side, level: LevelState) {
    forall o :: o in level.queue ==> o.side == side && o.RestingPrice() == Some(level.price)
  }

  /** Plain orders stand in the order they were accepted; an iceberg gives up its place on refresh. */
  ghost predicate InTimeOrder(queue: seq<OrderState>) {
    forall i, j :: 0 <= i < j < |queue| && !queue[i].terms.Iceberg? && !queue[j].terms.Iceberg? ==>
      queue[i].sequence < queue[j].sequence
  }

  /** Strictly best price first, every order in its seat, plain orders in time order. */
  ghost predicate Shaped(side: Side, ladder: Ladder) {
    ladder == [] ||
    (&& Seated(side, ladder[0])
     && InTimeOrder(ladder[0].queue)
     && (|ladder| > 1 ==> Better(side, ladder[0].price, ladder[1].price))
     && Shaped(side, ladder[1..]))
  }

  /** Every resting order shows quantity, and no more than it has. */
  ghost predicate Healthy(ladder: Ladder) {
    ladder == [] || (HealthyQueue(ladder[0].queue) && Healthy(ladder[1..]))
  }

  /** Every order at a price the aggressor accepts shows quantity, and no more than it has. */
  ghost predicate HealthyFor(ladder: Ladder, a: OrderState) {
    ladder == [] || ((a.Crosses(ladder[0].price) ==> HealthyQueue(ladder[0].queue)) && HealthyFor(ladder[1..], a))
  }

  lemma {:induction false} HealthyForAll(ladder: Ladder, a: OrderState)
    requires Healthy(ladder)
    ensures HealthyFor(ladder, a)
  {
    if ladder != [] {
      HealthyForAll(ladder[1..], a);
    }
  }

  ghost predicate NoEmptyLevel(ladder: Ladder) {
    ladder == [] || (ladder[0].queue != [] && NoEmptyLevel(ladder[1..]))
  }

  function DropEmptyFront(ladder: Ladder): Ladder {
    if ladder != [] && ladder[0].queue == [] then DropEmptyFront(ladder[1..]) else ladder
  }

  // ----- Edits -----

  function Inserted<T>(s: seq<T>, k: nat, x: T): (r: seq<T>)
    requires k <= |s|
    ensures |r| == |s| + 1 && r[k] == x
    ensures forall i :: 0 <= i < k ==> r[i] == s[i]
    ensures forall i :: k < i < |r| ==> r[i] == s[i - 1]
  {
    s[..k] + [x] + s[k..]
  }

  /** The ladder with `o` last in the queue at `price`, in a level of its own if there was none. */
  function Rest(side: Side, ladder: Ladder, price: Price, o: OrderState): Ladder {
    if ladder == [] || Better(side, price, ladder[0].price) then
      [LevelState(price, [o])] + ladder
    else if ladder[0].price == price then
      [LevelState(price, ladder[0].queue + [o])] + ladder[1..]
    else
      [ladder[0]] + Rest(side, ladder[1..], price, o)
  }

  /** Index of the order with this id, or |queue|. */
  function Position(queue: seq<OrderState>, id: OrderId): (k: nat)
    ensures k <= |queue|
    ensures k < |queue| ==> queue[k].id == id
    ensures forall i :: 0 <= i < k ==> queue[i].id != id
  {
    if queue == [] || queue[0].id == id then 0 else 1 + Position(queue[1..], id)
  }

  function Without(queue: seq<OrderState>, k: nat): seq<OrderState>
    requires k < |queue|
  {
    queue[..k] + queue[k + 1..]
  }

  function Find(ladder: Ladder, id: OrderId): Option<OrderState> {
    if ladder == [] then None
    else
      var k := Position(ladder[0].queue, id);
      if k < |ladder[0].queue| then Some(ladder[0].queue[k]) else Find(ladder[1..], id)
  }

  /** Removes the order with this id, and its level when that empties it. */
  function Remove(ladder: Ladder, id: OrderId): Ladder {
    if ladder == [] then []
    else
      var k := Position(ladder[0].queue, id);
      if k == |ladder[0].queue| then [ladder[0]] + Remove(ladder[1..], id)
      else
        var queue := Without(ladder[0].queue, k);
        if queue == [] then ladder[1..] else [LevelState(ladder[0].price, queue)] + ladder[1..]
  }

  /** Shrinks the order with this id where it stands. */
  function Reduce(ladder: Ladder, id: OrderId, qty: Quantity): Ladder {
    if ladder == [] then []
    else
      var queue := ladder[0].queue;
      var k := Position(queue, id);
      if k == |queue| then [ladder[0]] + Reduce(ladder[1..], id, qty)
      else [LevelState(ladder[0].price, queue[k := queue[k].Reduced(qty)])] + ladder[1..]
  }
}
