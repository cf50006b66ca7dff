/**
 What resting, removing and reducing an order do to a ladder.
 */
module LadderTheorems {
  import opened Orders
  import opened Matching
  import opened Ladders

  /** The front of a side has not improved: it is gone, unchanged or further from the touch. */
  ghost predicate FrontNoBetter(side: Side, before: Ladder, after: Ladder) {
    after == [] || (before != [] && !Better(side, after[0].price, before[0].price))
  }

  // ----- Rest -----

  lemma {:induction false} RestSum(side: Side, ladder: Ladder, price: Price, o: OrderState, m: Amount)
    ensures LadderSum(Rest(side, ladder, price, o), m) == LadderSum(ladder, m) + AmountOf(o, m)
  {
    if ladder == [] || Better(side, price, ladder[0].price) {
      assert QueueSum([o], m) == AmountOf(o, m);
      assert Rest(side, ladder, price, o)[1..] == ladder;
    } else if ladder[0].price == price {
      QueueSumAppend(ladder[0].queue, [o], m);
      assert Rest(side, ladder, price, o)[1..] == ladder[1..];
    } else {
      RestSum(side, ladder[1..], price, o, m);
      assert Rest(side, ladder, price, o)[1..] == Rest(side, ladder[1..], price, o);
    }
  }

  ghost predicate SequencedBefore(ladder: Ladder, bound: Sequence) {
    forall n: Sequence :: n >= bound ==> LadderSum(ladder, WithSequence(n)) == 0
  }

  lemma SequencedTail(ladder: Ladder, bound: Sequence)
    requires ladder != [] && SequencedBefore(ladder, bound)
    ensures SequencedBefore(ladder[1..], bound)
    ensures forall o :: o in ladder[0].queue ==> o.sequence < bound
  {
    assert forall n: Sequence :: n >= bound ==> LadderSum(ladder, WithSequence(n)) == 0;
    forall o | o in ladder[0].queue ensures o.sequence < bound {
      assert AmountOf(o, WithSequence(o.sequence)) > 0;
      QueueSumPositive(ladder[0].queue, WithSequence(o.sequence));
      assert LadderSum(ladder, WithSequence(o.sequence)) > 0;
    }
  }

  lemma {:induction false} RestShaped(side: Side, ladder: Ladder, price: Price, o: OrderState)
    requires Shaped(side, ladder) && SequencedBefore(ladder, o.sequence)
    requires o.side == side && o.RestingPrice() == Some(price)
    ensures Shaped(side, Rest(side, ladder, price, o))
    ensures ladder != [] && !Better(side, price, ladder[0].price) ==>
              Rest(side, ladder, price, o)[0].price == ladder[0].price
    ensures ladder == [] || Better(side, price, ladder[0].price) ==> Rest(side, ladder, price, o)[0].price == price
  {
    var rested := Rest(side, ladder, price, o);
    if ladder == [] || Better(side, price, ladder[0].price) {
      assert rested[1..] == ladder;
    } else {
      SequencedTail(ladder, o.sequence);
      if ladder[0].price == price {
        assert rested[1..] == ladder[1..];
      } else {
        RestShaped(side, ladder[1..], price, o);
        assert rested[1..] == Rest(side, ladder[1..], price, o);
      }
    }
  }

  /** The side stays healthy exactly when the newcomer is. */
  lemma {:induction false} RestHealthy(side: Side, ladder: Ladder, price: Price, o: OrderState)
    requires Healthy(ladder)
    ensures Healthy(Rest(side, ladder, price, o)) <==> o.Healthy()
  {
    var rested := Rest(side, ladder, price, o);
    if ladder == [] || Better(side, price, ladder[0].price) {
      assert rested[1..] == ladder;
      assert o in rested[0].queue;
    } else if ladder[0].price == price {
      assert rested[1..] == ladder[1..];
      assert o in rested[0].queue;
    } else {
      RestHealthy(side, ladder[1..], price, o);
      assert rested[1..] == Rest(side, ladder[1..], price, o);
    }
  }

  lemma {:induction false} RestNoEmptyLevel(side: Side, ladder: Ladder, price: Price, o: OrderState)
    requires NoEmptyLevel(ladder)
    ensures NoEmptyLevel(Rest(side, ladder, price, o))
  {
    var rested := Rest(side, ladder, price, o);
    if ladder == [] || Better(side, price, ladder[0].price) {
      assert rested[1..] == ladder;
    } else if ladder[0].price == price {
      assert rested[1..] == ladder[1..];
    } else {
      RestNoEmptyLevel(side, ladder[1..], price, o);
      assert rested[1..] == Rest(side, ladder[1..], price, o);
    }
  }

  // ----- Find and Remove -----

  lemma {:induction false} FindIffCounted(ladder: Ladder, id: OrderId)
    ensures Find(ladder, id).Some? <==> LadderSum(ladder, WithId(id)) > 0
    ensures Find(ladder, id).Some? ==> Find(ladder, id).value.id == id
  {
    if ladder != [] {
      var queue := ladder[0].queue;
      QueueSumPositive(queue, WithId(id));
      var k := Position(queue, id);
      assert k < |queue| ==> queue[k] in queue && AmountOf(queue[k], WithId(id)) > 0;
      FindIffCounted(ladder[1..], id);
    }
  }

  lemma WithoutSum(queue: seq<OrderState>, k: nat, m: Amount)
    requires k < |queue|
    ensures QueueSum(Without(queue, k), m) + AmountOf(queue[k], m) == QueueSum(queue, m)
  {
    assert queue == queue[..k] + queue[k..];
    QueueSumAppend(queue[..k], queue[k..], m);
    QueueSumAppend(queue[..k], queue[k + 1..], m);
    assert queue[k..][1..] == queue[k + 1..];
  }

  lemma {:induction false} RemoveSum(ladder: Ladder, id: OrderId, m: Amount)
    requires Find(ladder, id).Some?
    ensures LadderSum(Remove(ladder, id), m) + AmountOf(Find(ladder, id).value, m) == LadderSum(ladder, m)
  {
    var queue := ladder[0].queue;
    var k := Position(queue, id);
    if k < |queue| {
      WithoutSum(queue, k, m);
      assert Without(queue, k) != [] ==> Remove(ladder, id)[1..] == ladder[1..];
    } else {
      RemoveSum(ladder[1..], id, m);
      assert Remove(ladder, id)[1..] == Remove(ladder[1..], id);
    }
  }

  lemma WithoutKeepsQueue(side: Side, level: LevelState, k: nat)
    requires k < |level.queue|
    ensures Seated(side, level) ==> Seated(side, LevelState(level.price, Without(level.queue, k)))
    ensures InTimeOrder(level.queue) ==> InTimeOrder(Without(level.queue, k))
    ensures HealthyQueue(level.queue) ==> HealthyQueue(Without(level.queue, k))
  {
    var queue := Without(level.queue, k);
    assert forall o :: o in queue ==> o in level.queue;
    assert forall i :: 0 <= i < |queue| ==> queue[i] == level.queue[if i < k then i else i + 1];
  }

  lemma {:induction false} RemoveKeepsShape(side: Side, ladder: Ladder, id: OrderId)
    requires Shaped(side, ladder)
    ensures Shaped(side, Remove(ladder, id))
    ensures FrontNoBetter(side, ladder, Remove(ladder, id))
  {
    if ladder != [] {
      var queue := ladder[0].queue;
      var k := Position(queue, id);
      if k < |queue| {
        WithoutKeepsQueue(side, ladder[0], k);
        assert Without(queue, k) != [] ==> Remove(ladder, id)[1..] == ladder[1..];
      } else {
        RemoveKeepsShape(side, ladder[1..], id);
        assert Remove(ladder, id)[1..] == Remove(ladder[1..], id);
      }
    }
  }

  lemma {:induction false} RemoveKeepsHealth(ladder: Ladder, id: OrderId)
    ensures Healthy(ladder) ==> Healthy(Remove(ladder, id))
    ensures NoEmptyLevel(ladder) ==> NoEmptyLevel(Remove(ladder, id))
  {
    if ladder != [] {
      var queue := ladder[0].queue;
      var k := Position(queue, id);
      if k < |queue| {
        WithoutKeepsQueue(Buy, ladder[0], k);
        assert Without(queue, k) != [] ==> Remove(ladder, id)[1..] == ladder[1..];
      } else {
        RemoveKeepsHealth(ladder[1..], id);
        assert Remove(ladder, id)[1..] == Remove(ladder[1..], id);
      }
    }
  }

  // ----- Reduce -----

  lemma UpdateSum(queue: seq<OrderState>, k: nat, o: OrderState, m: Amount)
    requires k < |queue|
    ensures QueueSum(queue[k := o], m) + AmountOf(queue[k], m) == QueueSum(queue, m) + AmountOf(o, m)
  {
    assert queue == queue[..k] + ([queue[k]] + queue[k + 1..]);
    assert queue[k := o] == queue[..k] + ([o] + queue[k + 1..]);
    QueueSumAppend(queue[..k], [queue[k]] + queue[k + 1..], m);
    QueueSumAppend(queue[..k], [o] + queue[k + 1..], m);
    QueueSumAppend([queue[k]], queue[k + 1..], m);
    QueueSumAppend([o], queue[k + 1..], m);
    assert QueueSum([o], m) == AmountOf(o, m) && QueueSum([queue[k]], m) == AmountOf(queue[k], m);
  }

  lemma {:induction false} ReduceSum(ladder: Ladder, id: OrderId, qty: Quantity, m: Amount)
    requires Find(ladder, id).Some?
    ensures LadderSum(Reduce(ladder, id, qty), m) + AmountOf(Find(ladder, id).value, m) ==
            LadderSum(ladder, m) + AmountOf(Find(ladder, id).value.Reduced(qty), m)
  {
    var queue := ladder[0].queue;
    var k := Position(queue, id);
    if k < |queue| {
      UpdateSum(queue, k, queue[k].Reduced(qty), m);
      assert Reduce(ladder, id, qty)[1..] == ladder[1..];
    } else {
      ReduceSum(ladder[1..], id, qty, m);
      assert Reduce(ladder, id, qty)[1..] == Reduce(ladder[1..], id, qty);
    }
  }

  /**
   An in-place reduction moves nobody: the levels, the queue order and every other order stay
   as they were, and no size of the reduced order rises: not what remains, not what it shows.
   */
  ghost predicate OnlyShrinks(before: Ladder, after: Ladder, id: OrderId) {
    && |before| == |after|
    && forall i :: 0 <= i < |before| ==>
         && before[i].price == after[i].price
         && |before[i].queue| == |after[i].queue|
         && forall j :: 0 <= j < |before[i].queue| ==> Shrunk(before[i].queue[j], after[i].queue[j], id)
  }

  ghost predicate Shrunk(o: OrderState, o': OrderState, id: OrderId) {
    && (o.id != id ==> o' == o)
    && o'.id == o.id && o'.sequence == o.sequence && o'.account == o.account && o'.side == o.side
    && o'.RestingPrice() == o.RestingPrice() && o'.terms.Iceberg? == o.terms.Iceberg?
    && o'.Visible() <= o.Visible() && o'.Display() <= o.Display() && o'.remaining <= o.remaining
  }

  lemma {:induction false} ReduceOnlyShrinks(ladder: Ladder, id: OrderId, qty: Quantity)
    requires Find(ladder, id).Some? ==> qty <= Find(ladder, id).value.remaining
    ensures OnlyShrinks(ladder, Reduce(ladder, id, qty), id)
  {
    if ladder != [] {
      var queue := ladder[0].queue;
      var k := Position(queue, id);
      if k == |queue| {
        ReduceOnlyShrinks(ladder[1..], id, qty);
      }
    }
  }

  lemma {:induction false} ReduceKeepsShape(side: Side, ladder: Ladder, id: OrderId, qty: Quantity)
    requires Shaped(side, ladder)
    ensures Shaped(side, Reduce(ladder, id, qty))
    ensures FrontNoBetter(side, ladder, Reduce(ladder, id, qty))
    ensures NoEmptyLevel(ladder) ==> NoEmptyLevel(Reduce(ladder, id, qty))
  {
    if ladder != [] {
      var queue := ladder[0].queue;
      var k := Position(queue, id);
      if k < |queue| {
        assert forall o :: o in queue[k := queue[k].Reduced(qty)] ==> o in queue || o == queue[k].Reduced(qty);
        assert Reduce(ladder, id, qty)[1..] == ladder[1..];
      } else {
        ReduceKeepsShape(side, ladder[1..], id, qty);
        assert Reduce(ladder, id, qty)[1..] == Reduce(ladder[1..], id, qty);
      }
    }
  }

  lemma {:induction false} ReduceKeepsHealth(ladder: Ladder, id: OrderId, qty: Quantity)
    requires Healthy(ladder) && qty > 0
    requires Find(ladder, id).Some? ==> qty <= Find(ladder, id).value.remaining
    ensures Healthy(Reduce(ladder, id, qty))
  {
    if ladder != [] {
      var queue := ladder[0].queue;
      var k := Position(queue, id);
      if k < |queue| {
        assert forall o :: o in queue[k := queue[k].Reduced(qty)] ==> o in queue || o == queue[k].Reduced(qty);
        assert queue[k].Healthy();
        assert Reduce(ladder, id, qty)[1..] == ladder[1..];
      } else {
        ReduceKeepsHealth(ladder[1..], id, qty);
        assert Reduce(ladder, id, qty)[1..] == Reduce(ladder[1..], id, qty);
      }
    }
  }

  // ----- Editing by position -----

  /** An id that is counted stands somewhere. */
  lemma {:induction false} StandsSomewhere(ladder: Ladder, id: OrderId) returns (i: nat, j: nat)
    requires LadderSum(ladder, WithId(id)) > 0
    ensures i < |ladder| && j < |ladder[i].queue| && ladder[i].queue[j].id == id
  {
    var k := Position(ladder[0].queue, id);
    if k < |ladder[0].queue| {
      i, j := 0, k;
    } else {
      QueueSumPositive(ladder[0].queue, WithId(id));
      i, j := StandsSomewhere(ladder[1..], id);
      i := i + 1;
    }
  }

  lemma {:induction false} SumUpTo(ladder: Ladder, i: nat, m: Amount)
    requires i < |ladder|
    ensures QueueSum(ladder[i].queue, m) <= LadderSum(ladder, m)
  {
    if i > 0 {
      SumUpTo(ladder[1..], i - 1, m);
    }
  }

  /** A unique order that stands in a later level does not stand in the first. */
  lemma NotInFirstLevel(ladder: Ladder, i: nat, j: nat)
    requires 0 < i < |ladder| && j < |ladder[i].queue|
    requires LadderSum(ladder, WithId(ladder[i].queue[j].id)) <= 1
    ensures Position(ladder[0].queue, ladder[i].queue[j].id) == |ladder[0].queue|
    ensures LadderSum(ladder[1..], WithId(ladder[i].queue[j].id)) <= 1
  {
    var id := ladder[i].queue[j].id;
    SumUpTo(ladder[1..], i - 1, WithId(id));
    QueueSumPositive(ladder[i].queue, WithId(id));
    assert ladder[i].queue[j] in ladder[i].queue && AmountOf(ladder[i].queue[j], WithId(id)) > 0;
    QueueSumPositive(ladder[0].queue, WithId(id));
    var k := Position(ladder[0].queue, id);
    assert k < |ladder[0].queue| ==> ladder[0].queue[k] in ladder[0].queue &&
                                     AmountOf(ladder[0].queue[k], WithId(id)) > 0;
  }

  lemma {:induction false} FindAt(ladder: Ladder, i: nat, j: nat)
    requires i < |ladder| && j < |ladder[i].queue|
    requires LadderSum(ladder, WithId(ladder[i].queue[j].id)) <= 1
    ensures Find(ladder, ladder[i].queue[j].id) == Some(ladder[i].queue[j])
  {
    if i == 0 {
      OnceMeansElsewhereNot(ladder[0].queue, j, ladder[0].queue[j].id);
    } else {
      NotInFirstLevel(ladder, i, j);
      FindAt(ladder[1..], i - 1, j);
    }
  }

  lemma {:induction false} ReduceAt(ladder: Ladder, i: nat, j: nat, qty: Quantity)
    requires i < |ladder| && j < |ladder[i].queue|
    requires LadderSum(ladder, WithId(ladder[i].queue[j].id)) <= 1
    ensures var queue := ladder[i].queue;
      Reduce(ladder, queue[j].id, qty) ==
      ladder[i := LevelState(ladder[i].price, queue[j := queue[j].Reduced(qty)])]
  {
    if i == 0 {
      OnceMeansElsewhereNot(ladder[0].queue, j, ladder[0].queue[j].id);
    } else {
      NotInFirstLevel(ladder, i, j);
      ReduceAt(ladder[1..], i - 1, j, qty);
      UpdatedTail(ladder, i, LevelState(ladder[i].price, ladder[i].queue[j := ladder[i].queue[j].Reduced(qty)]));
    }
  }

  /** A ladder without its level `i`, or with that level's queue replaced when anything is left of it. */
  function WithQueue(ladder: Ladder, i: nat, queue: seq<OrderState>): Ladder
    requires i < |ladder|
  {
    if queue == [] then ladder[..i] + ladder[i + 1..] else ladder[i := LevelState(ladder[i].price, queue)]
  }

  lemma WithQueueOfTail(ladder: Ladder, i: nat, queue: seq<OrderState>)
    requires 0 < i < |ladder|
    ensures WithQueue(ladder, i, queue) == [ladder[0]] + WithQueue(ladder[1..], i - 1, queue)
  {
  }

  lemma {:induction false} RemoveAt(ladder: Ladder, i: nat, j: nat)
    requires i < |ladder| && j < |ladder[i].queue|
    requires LadderSum(ladder, WithId(ladder[i].queue[j].id)) <= 1
    ensures Remove(ladder, ladder[i].queue[j].id) == WithQueue(ladder, i, Without(ladder[i].queue, j))
  {
    if i == 0 {
      OnceMeansElsewhereNot(ladder[0].queue, j, ladder[0].queue[j].id);
    } else {
      NotInFirstLevel(ladder, i, j);
      RemoveAt(ladder[1..], i - 1, j);
      WithQueueOfTail(ladder, i, Without(ladder[i].queue, j));
    }
  }

  lemma InsertedTail<T>(s: seq<T>, k: nat, x: T)
    requires 0 < k <= |s|
    ensures Inserted(s, k, x) == [s[0]] + Inserted(s[1..], k - 1, x)
  {
  }

  lemma UpdatedTail<T>(s: seq<T>, k: nat, x: T)
    requires 0 < k < |s|
    ensures s[k := x] == [s[0]] + s[1..][k - 1 := x]
  {
  }

  /** Resting an order, said by the position of its level. */
  lemma {:induction false} RestAt(side: Side, ladder: Ladder, price: Price, o: OrderState, k: nat)
    requires k <= |ladder| && forall i :: 0 <= i < k ==> Better(side, ladder[i].price, price)
    ensures k < |ladder| && ladder[k].price == price ==>
              Rest(side, ladder, price, o) == ladder[k := LevelState(price, ladder[k].queue + [o])]
    ensures k == |ladder| || Better(side, price, ladder[k].price) ==>
              Rest(side, ladder, price, o) == Inserted(ladder, k, LevelState(price, [o]))
  {
    if k > 0 {
      assert Better(side, ladder[0].price, price);
      RestAt(side, ladder[1..], price, o, k - 1);
      InsertedTail(ladder, k, LevelState(price, [o]));
      if k < |ladder| {
        UpdatedTail(ladder, k, LevelState(price, ladder[k].queue + [o]));
      }
    }
  }

  /** The ladder with a level for `price` at position `k`, empty when the price had none. */
  function WithLevel(ladder: Ladder, price: Price, k: nat): Ladder
    requires k <= |ladder|
  {
    if k < |ladder| && ladder[k].price == price then ladder else Inserted(ladder, k, LevelState(price, []))
  }

  /** Installing a level and then appending to it is resting. */
  lemma RestInSteps(side: Side, ladder: Ladder, price: Price, o: OrderState, k: nat)
    requires k <= |ladder| && forall i :: 0 <= i < k ==> Better(side, ladder[i].price, price)
    requires k < |ladder| ==> !Better(side, ladder[k].price, price)
    ensures var with := WithLevel(ladder, price, k);
      with[k := LevelState(price, with[k].queue + [o])] == Rest(side, ladder, price, o)
  {
    RestAt(side, ladder, price, o, k);
    if !(k < |ladder| && ladder[k].price == price) {
      assert [] + [o] == [o];
      assert Inserted(ladder, k, LevelState(price, []))[k := LevelState(price, [o])] ==
             Inserted(ladder, k, LevelState(price, [o]));
    }
  }

  /** A lookup answers with an order of that id, on its own side. */
  lemma {:induction false} FindIsSeated(side: Side, ladder: Ladder, id: OrderId)
    requires Shaped(side, ladder) && Find(ladder, id).Some?
    ensures var o := Find(ladder, id).value; o.id == id && o.side == side && !o.terms.Market?
  {
    var k := Position(ladder[0].queue, id);
    if k < |ladder[0].queue| {
      assert ladder[0].queue[k] in ladder[0].queue;
    } else {
      FindIsSeated(side, ladder[1..], id);
    }
  }
}
