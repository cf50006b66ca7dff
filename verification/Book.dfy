/**
 The book object: two `OrderBook` sides and a sequence counter. Each method is proved to do to these
 objects what the function of the same name in BookModel.dfy does to a value.
 */
module Book {
  import opened Orders
  import opened Matching
  import opened Ladders
  import opened MatchTheorems
  import opened LadderTheorems
  import opened BookModel
  import opened BookTheorems
  import opened PriceLevels
  import opened OrderBooks
  import opened Planner
  import opened Committing

  /** What Prepare hands to Commit: the order, a fresh handle, its plan, and a level node if it will rest. */
  datatype Prepared = Prepared(
    order: OrderState, position: Handle, plan: MatchPlan,
    willRest: bool, levelNode: Option<PriceLevel>)

  /** The two sides an order meets: its own, and the one it trades against. */
  ghost predicate Facing(own: OrderBook, opposite: OrderBook, order: OrderState)
    reads own, opposite, own.levels, opposite.levels
  {
    && own.Valid() && opposite.Valid() && own != opposite
    && own.side == order.side && opposite.side == order.side.Opposite()
    && Shaped(own.side, own.State()) && NoEmptyLevel(own.State())
    && Kept(opposite.side, opposite.State(), order) && NoEmptyLevel(opposite.State())
  }

  /** The plan of a prepared submit is the right one for the side it trades against. */
  ghost predicate PlannedFor(p: Prepared, opposite: OrderBook)
    requires opposite.Valid()
    reads opposite, opposite.levels
  {
    var m := Match(opposite.State(), p.order, p.order.remaining);
    && Planned(p.order, p.plan, m)
    && HandlesValid(opposite.levels, opposite.roster, p.plan.fills)
    && p.willRest == WillRest(p.order, m)
  }

  /** The resources of a prepared submit are the right ones for the side it may rest on. */
  ghost predicate ProvidedFor(p: Prepared, own: OrderBook, opposite: OrderBook)
    reads own, opposite, if p.levelNode.Some? then {p.levelNode.value} else {}
  {
    && own.Unused(p.position)
    && p.willRest == p.levelNode.Some?
    && (p.willRest ==>
          var node := p.levelNode.value;
          && node.Valid() && node.orders == [] && node.side == own.side
          && p.order.RestingPrice() == Some(node.price) && node !in own.levels && node !in opposite.levels)
  }

  ghost predicate PreparedFor(p: Prepared, own: OrderBook, opposite: OrderBook)
    requires opposite.Valid()
    reads own, opposite, opposite.levels, if p.levelNode.Some? then {p.levelNode.value} else {}
  {
    PlannedFor(p, opposite) && ProvidedFor(p, own, opposite)
  }

  /** Plans against `opposite` and provisions for `own`; it has no modifies clause, so it can fail anywhere. */
  method Prepare(own: OrderBook, opposite: OrderBook, order: OrderState) returns (p: Prepared)
    requires Facing(own, opposite, order)
    ensures p.order == order && PreparedFor(p, own, opposite)
    ensures p.levelNode.Some? ==> fresh(p.levelNode.value)
  {
    var position := HandleAboveAll(own.levels);
    AllTailsKept(opposite.side, opposite.State(), order);
    var plan := PlanAgainst(opposite, order);
    var restingQty := Minus(order.remaining, plan.aggressorFilled);
    var willRest := restingQty > 0 && !plan.selfMatchBlocked && order.RestingPrice().Some?;
    if willRest {
      var node := new PriceLevel(own.side, order.RestingPrice().value);
      p := Prepared(order, position, plan, willRest, Some(node));
    } else {
      p := Prepared(order, position, plan, willRest, None);
    }
  }

  lemma {:induction false} ConsumedRemaining(o: OrderState, fills: seq<Fill>)
    requires FillSum(fills) <= o.remaining
    ensures ConsumedBy(o, fills).remaining == o.remaining - FillSum(fills)
    decreases |fills|
  {
    if fills != [] {
      ConsumedRemaining(o.Filled(fills[0].quantity), fills[1..]);
    }
  }

  /** What is reported of a submit, from the sweep it made. */
  function ResultOf(o: OrderState, m: MatchResult): SubmitResult {
    SubmitResult(StatusOf(o, m), m.fills, Minus(o.remaining, m.left), if WillRest(o, m) then m.left else 0)
  }

  /** The own side after an order made its sweep. */
  function OwnAfter(own: Ladder, o: OrderState, stamp: Sequence, m: MatchResult): Ladder {
    if WillRest(o, m) then Rest(o.side, own, o.RestingPrice().value, ConsumedBy(o.Stamped(stamp), m.fills)) else own
  }

  lemma LeftOver(side: Side, ladder: Ladder, o: OrderState, stamp: Sequence)
    requires Kept(side, ladder, o) && o.side == side.Opposite()
    ensures var m := Match(ladder, o, o.remaining);
      ConsumedBy(o.Stamped(stamp), m.fills).remaining == m.left
  {
    SweepConserves(side, ladder, o, o.remaining);
    ConsumedRemaining(o.Stamped(stamp), Match(ladder, o, o.remaining).fills);
  }

  /** The report as the commit assembles it. */
  function Report(p: Prepared, after: OrderState, fills: seq<Fill>): SubmitResult {
    if p.willRest then
      SubmitResult(if fills == [] then Resting else PartiallyFilledResting, fills, p.plan.aggressorFilled, after.remaining)
    else
      SubmitResult(if after.remaining == 0 then Filled
                   else if p.plan.selfMatchBlocked then SelfMatchBlocked
                   else CancelledRemainder,
                   fills, p.plan.aggressorFilled, 0)
  }

  lemma ReportIsResult(p: Prepared, after: OrderState, m: MatchResult)
    requires Planned(p.order, p.plan, m) && p.willRest == WillRest(p.order, m) && after.remaining == m.left
    ensures Report(p, after, m.fills) == ResultOf(p.order, m)
  {
  }

  /** No level belongs to both sides. */
  lemma SidesApart(own: OrderBook, opposite: OrderBook)
    requires own.Valid() && opposite.Valid() && own.side != opposite.side
    ensures forall l :: l in own.levels ==> l !in opposite.levels
  {
  }

  /** The trading half of a commit. It leaves the order's own side alone. */
  method Trade(own: OrderBook, opposite: OrderBook, p: Prepared, aggressor: OrderState)
    returns (after: OrderState, fills: seq<Fill>)
    requires Facing(own, opposite, p.order) && PreparedFor(p, own, opposite)
    requires aggressor == p.order.Stamped(aggressor.sequence)
    modifies opposite, opposite.levels
    ensures opposite.Valid() && own.Valid() && own.State() == old(own.State()) && own.index == old(own.index)
    ensures own.Unused(p.position)
    ensures forall l :: l in opposite.levels ==> l in old(opposite.levels)
    ensures p.levelNode.Some? ==> p.levelNode.value.Valid() && p.levelNode.value.orders == []
    ensures var m := Match(old(opposite.State()), p.order, p.order.remaining);
      && opposite.State() == m.ladder && fills == m.fills
      && after == ConsumedBy(aggressor, m.fills) && after.id == p.order.id
      && p.willRest == WillRest(p.order, m) && Report(p, after, fills) == ResultOf(p.order, m)
  {
    SidesApart(own, opposite);
    ghost var m := Match(opposite.State(), p.order, p.order.remaining);
    LeftOver(opposite.side, opposite.State(), p.order, aggressor.sequence);
    ConsumedKeepsIdentity(aggressor, m.fills);
    after, fills := CommitFills(opposite, aggressor, p.plan.fills, p.order, p.order.remaining, m.ladder);
    ReportIsResult(p, after, m);
  }

  /** The resting half of a commit. It leaves the opposite side alone. */
  method RestRemainder(own: OrderBook, opposite: OrderBook, node: PriceLevel, n: Node)
    requires own.Valid() && opposite.Valid() && own != opposite && own.side != opposite.side
    requires node.Valid() && node.orders == [] && node.side == own.side && node !in opposite.levels
    requires n.order.id !in own.index && own.Unused(n.handle)
    modifies own, own.levels, node
    ensures own.Valid() && own.State() == Rest(own.side, old(own.State()), node.price, n.order)
    ensures opposite.Valid() && opposite.State() == old(opposite.State())
    ensures forall l :: l in own.levels ==> l in old(own.levels) || l == node
  {
    SidesApart(own, opposite);
    own.RestOrder(node, n);
  }

  /** Applies a prepared submit, stamping the order with its place in time. */
  method Commit(own: OrderBook, opposite: OrderBook, p: Prepared, stamp: Sequence) returns (result: SubmitResult)
    requires Facing(own, opposite, p.order) && PreparedFor(p, own, opposite) && p.order.id !in own.index
    modifies own, opposite, own.levels, opposite.levels, if p.levelNode.Some? then {p.levelNode.value} else {}
    ensures own.Valid() && opposite.Valid()
    ensures var m := Match(old(opposite.State()), p.order, p.order.remaining);
      && result == ResultOf(p.order, m)
      && opposite.State() == m.ladder
      && own.State() == OwnAfter(old(own.State()), p.order, stamp, m)
    ensures forall i :: 0 <= i < |opposite.levels| ==> opposite.levels[i] in old(opposite.levels)
    ensures forall i :: 0 <= i < |own.levels| ==> own.levels[i] in old(own.levels) || Some(own.levels[i]) == p.levelNode
  {
    var after, fills := Trade(own, opposite, p, p.order.Stamped(stamp));
    if p.willRest {
      RestRemainder(own, opposite, p.levelNode.value, Node(p.position, after));
    }
    result := Report(p, after, fills);
  }

  /** Plans and provisions against both sides as they are, then commits. */
  method Process(own: OrderBook, opposite: OrderBook, order: OrderState, stamp: Sequence) returns (result: SubmitResult)
    requires Facing(own, opposite, order) && order.id !in own.index
    modifies own, opposite, own.levels, opposite.levels
    ensures own.Valid() && opposite.Valid()
    ensures SweptInto(order, stamp, old(own.State()), old(opposite.State()), own.State(), opposite.State(), result)
    ensures forall i :: 0 <= i < |opposite.levels| ==> opposite.levels[i] in old(opposite.levels)
    ensures forall i :: 0 <= i < |own.levels| ==> own.levels[i] in old(own.levels) || fresh(own.levels[i])
  {
    var prepared := Prepare(own, opposite, order);
    result := Commit(own, opposite, prepared, stamp);
  }

  /** Cancels on one side. The other side stays as it is. */
  method CancelOn(own: OrderBook, other: OrderBook, id: OrderId) returns (order: Option<OrderState>)
    requires own.Valid() && other.Valid() && own != other && own.side != other.side
    requires LadderSum(own.State(), WithId(id)) <= 1
    modifies own, own.levels
    ensures own.Valid() && other.Valid() && other.State() == old(other.State())
    ensures order == Find(old(own.State()), id)
    ensures own.State() == if order.Some? then Remove(old(own.State()), id) else old(own.State())
    ensures forall l :: l in own.levels ==> l in old(own.levels)
    ensures forall h :: old(own.Unused(h)) ==> own.Unused(h)
  {
    SidesApart(own, other);
    order := own.Cancel(id);
  }

  /** Shrinks an order on one side. The other side stays as it is. */
  method ReduceOn(own: OrderBook, other: OrderBook, id: OrderId, newQty: Quantity)
    requires own.Valid() && other.Valid() && own != other && own.side != other.side
    requires LadderSum(own.State(), WithId(id)) <= 1
    requires Find(own.State(), id).Some? && newQty <= Find(own.State(), id).value.remaining
    modifies own, own.levels
    ensures own.Valid() && other.Valid() && other.State() == old(other.State())
    ensures own.State() == Reduce(old(own.State()), id, newQty)
    ensures own.levels == old(own.levels)
  {
    SidesApart(own, other);
    own.ReduceInPlace(id, newQty);
  }

  lemma WithdrawnShape(side: Side, ladder: Ladder, id: OrderId)
    requires Shaped(side, ladder) && NoEmptyLevel(ladder) && LadderSum(ladder, WithId(id)) == 1
    ensures Find(ladder, id).Some? && Shaped(side, Remove(ladder, id)) && NoEmptyLevel(Remove(ladder, id))
    ensures LadderSum(Remove(ladder, id), WithId(id)) == 0
  {
    FindIffCounted(ladder, id);
    RemoveKeepsShape(side, ladder, id);
    RemoveKeepsHealth(ladder, id);
    RemoveSum(ladder, id, WithId(id));
  }

  /** Withdraws an order from its side. A submit prepared against the other side stays good. */
  method Withdraw(own: OrderBook, opposite: OrderBook, p: Prepared)
    requires Facing(own, opposite, p.order) && PreparedFor(p, own, opposite)
    requires LadderSum(own.State(), WithId(p.order.id)) == 1
    modifies own, own.levels
    ensures Facing(own, opposite, p.order) && PreparedFor(p, own, opposite) && p.order.id !in own.index
    ensures own.State() == Remove(old(own.State()), p.order.id) && opposite.State() == old(opposite.State())
    ensures forall l :: l in own.levels ==> l in old(own.levels)
  {
    SidesApart(own, opposite);
    WithdrawOwn(own, opposite, p.order);
  }

  method WithdrawOwn(own: OrderBook, opposite: OrderBook, order: OrderState)
    requires Facing(own, opposite, order) && LadderSum(own.State(), WithId(order.id)) == 1
    modifies own, own.levels
    ensures Facing(own, opposite, order) && order.id !in own.index
    ensures own.State() == Remove(old(own.State()), order.id) && opposite.State() == old(opposite.State())
    ensures forall l :: l in own.levels ==> l in old(own.levels)
    ensures forall h :: old(own.Unused(h)) ==> own.Unused(h)
  {
    WithdrawnShape(own.side, own.State(), order.id);
    var withdrawn := CancelOn(own, opposite, order.id);
    assert withdrawn.Some?;
    own.IndexAnswers(order.id);
  }

  lemma StaysWithin(now: seq<PriceLevel>, mid: seq<PriceLevel>, before: seq<PriceLevel>, node: Option<PriceLevel>)
    requires forall i :: 0 <= i < |now| ==> now[i] in mid || Some(now[i]) == node
    requires forall i :: 0 <= i < |mid| ==> mid[i] in before
    ensures forall i :: 0 <= i < |now| ==> now[i] in before || Some(now[i]) == node
  {
  }

  /** Plans and provisions a replacement while the original still rests, then withdraws it and commits. */
  method Replace(own: OrderBook, opposite: OrderBook, order: OrderState, stamp: Sequence) returns (result: SubmitResult)
    requires Facing(own, opposite, order) && LadderSum(own.State(), WithId(order.id)) == 1
    modifies own, opposite, own.levels, opposite.levels
    ensures own.Valid() && opposite.Valid()
    ensures SweptInto(order, stamp, Remove(old(own.State()), order.id), old(opposite.State()),
                      own.State(), opposite.State(), result)
    ensures forall i :: 0 <= i < |opposite.levels| ==> opposite.levels[i] in old(opposite.levels)
    ensures forall i :: 0 <= i < |own.levels| ==> own.levels[i] in old(own.levels) || fresh(own.levels[i])
  {
    var prepared := PrepareThenWithdraw(own, opposite, order);
    ghost var kept := own.levels;
    result := Commit(own, opposite, prepared, stamp);
    StaysWithin(own.levels, kept, old(own.levels), prepared.levelNode);
  }

  method PrepareThenWithdraw(own: OrderBook, opposite: OrderBook, order: OrderState) returns (p: Prepared)
    requires Facing(own, opposite, order) && LadderSum(own.State(), WithId(order.id)) == 1
    modifies own, own.levels
    ensures p.order == order && Facing(own, opposite, order) && PreparedFor(p, own, opposite)
    ensures order.id !in own.index && own.State() == Remove(old(own.State()), order.id)
    ensures opposite.State() == old(opposite.State()) && opposite.levels == old(opposite.levels)
    ensures forall i :: 0 <= i < |own.levels| ==> own.levels[i] in old(own.levels)
    ensures p.levelNode.Some? ==> fresh(p.levelNode.value)
  {
    p := Prepare(own, opposite, order);
    Withdraw(own, opposite, p);
  }

  /** The two sides and the report after an order was taken in. */
  ghost predicate SweptInto(o: OrderState, stamp: Sequence, own: Ladder, opposite: Ladder,
                            own': Ladder, opposite': Ladder, result: SubmitResult) {
    var m := Match(opposite, o, o.remaining);
    result == ResultOf(o, m) && opposite' == m.ladder && own' == OwnAfter(own, o, stamp, m)
  }

  lemma SweptIsAccepted(b: BookState, o: OrderState, b': BookState, result: SubmitResult)
    requires b'.nextSequence == b.nextSequence + 1
    requires SweptInto(o, b.nextSequence, b.On(o.side), b.On(o.side.Opposite()),
                       b'.On(o.side), b'.On(o.side.Opposite()), result)
    ensures Submitted(b', result) == Accept(b, o)
  {
  }

  lemma CancelAs(b: BookState, side: Side, id: OrderId)
    requires side == if Find(b.bids, id).Some? then Buy else Sell
    ensures var found := Find(b.On(side), id);
      BookModel.Cancel(b, id) == Cancelled(b.Put(side, if found.Some? then Remove(b.On(side), id) else b.On(side)), found)
  {
  }

  /** Replacing an order is cancelling it and submitting its replacement. */
  lemma ReplacedIsRequeued(b: BookState, side: Side, o: OrderState, qty: Quantity, price: Price,
                           b': BookState, result: SubmitResult)
    requires Find(b.On(side), o.id) == Some(o) && (side == Sell ==> Find(b.bids, o.id).None?)
    requires o.side == side && b'.nextSequence == b.nextSequence + 1
    requires SweptInto(o.Amended(qty, price), b.nextSequence, Remove(b.On(side), o.id), b.On(side.Opposite()),
                       b'.On(side), b'.On(side.Opposite()), result)
    ensures Submitted(b', result) == BookModel.Requeue(b, o, qty, price)
  {
    var clone := o.Amended(qty, price);
    var cancelled := BookModel.Cancel(b, o.id).book;
    CancelAs(b, side, o.id);
    assert clone.side == side && cancelled == b.Put(side, Remove(b.On(side), o.id));
    SweptIsAccepted(cancelled, clone, b', result);
  }

  /** What an amendment amounts to, once the order is found on its side. */
  lemma ModifyAs(b: BookState, side: Side, o: OrderState, qty: Quantity, price: Option<Price>)
    requires Find(b.On(side), o.id) == Some(o) && (side == Sell ==> Find(b.bids, o.id).None?) && qty > 0
    ensures var s := BookModel.Requeue(b, o, qty, TargetPrice(o, price));
      BookModel.Modify(b, o.id, qty, price) ==
      if KeepsPlace(o, qty, price)
      then Modified(b.Put(side, Reduce(b.On(side), o.id, qty)), ModifyResult(AmendedInPlace, [], qty))
      else Modified(s.book, ModifyResult(Requeued, s.result.fills, s.result.restingQty))
  {
  }

  class Book {
    const bids: OrderBook
    const asks: OrderBook
    var nextSequence: Sequence

    constructor ()
      ensures Valid() && HealthyBook(State()) && State() == EmptyBook
    {
      bids := new OrderBook(Buy);
      asks := new OrderBook(Sell);
      nextSequence := 1;
    }

    ghost function State(): BookState
      requires |bids.levels| == |bids.roster| && |asks.levels| == |asks.roster|
      reads this, bids, asks
    {
      BookState(bids.State(), asks.State(), nextSequence)
    }

    /** Both sides are what their ghost state says, with exact indexes and totals. */
    ghost predicate Intact()
      reads this, bids, asks, bids.levels, asks.levels
    {
      bids.Valid() && asks.Valid() && bids.side == Buy && asks.side == Sell
    }

    ghost predicate Valid()
      reads this, bids, asks, bids.levels, asks.levels
    {
      Intact() && Structured(State())
    }

    /** Every level of the book was there before or has been made since. */
    twostate predicate OnlyNewLevels()
      reads bids, asks
    {
      && (forall i :: 0 <= i < |bids.levels| ==> bids.levels[i] in old(bids.levels) || fresh(bids.levels[i]))
      && (forall i :: 0 <= i < |asks.levels| ==> asks.levels[i] in old(asks.levels) || fresh(asks.levels[i]))
    }

    /** Issues the next place in time. */
    method Advance() returns (stamp: Sequence)
      requires Intact()
      modifies this`nextSequence
      ensures Intact() && stamp == old(nextSequence)
      ensures State() == old(State()).(nextSequence := stamp + 1)
    {
      stamp := nextSequence;
      nextSequence := nextSequence + 1;
    }

    /** Takes an admissible order in: `own` is the side it may rest on. */
    method Enter(own: OrderBook, opposite: OrderBook, order: OrderState) returns (result: SubmitResult)
      requires own == (if order.side == Buy then bids else asks)
      requires opposite == (if order.side == Buy then asks else bids)
      requires Intact() && Facing(own, opposite, order) && order.id !in own.index
      modifies this`nextSequence, bids, asks, bids.levels, asks.levels
      ensures Intact() && Submitted(State(), result) == Accept(old(State()), order)
      ensures OnlyNewLevels()
    {
      ghost var before := State();
      result := Process(own, opposite, order, nextSequence);
      var stamp := Advance();
      SweptIsAccepted(before, order, State(), result);
    }

    /** Validation, then entry. A refused order leaves the book as it was. */
    method Submit(order: OrderState) returns (result: Option<SubmitResult>)
      requires Valid() && Serviceable(State(), SubmitCommand(order))
      modifies this`nextSequence, bids, asks, bids.levels, asks.levels
      ensures Valid()
      ensures result.Some? <==> Admissible(old(State()), order)
      ensures result.None? ==> State() == old(State())
      ensures result.Some? ==> Submitted(State(), result.value) == Accept(old(State()), order)
      ensures OnlyNewLevels()
    {
      bids.IndexAnswers(order.id);
      asks.IndexAnswers(order.id);
      if order.remaining == 0 || order.id in bids.index || order.id in asks.index {
        return None;
      }
      AcceptKeepsStructure(State(), order);
      var submitted;
      if order.side == Buy {
        submitted := Enter(bids, asks, order);
      } else {
        submitted := Enter(asks, bids, order);
      }
      assert !State().Crossed();
      result := Some(submitted);
    }

    /** Cancels on the side named. */
    method CancelSide(own: OrderBook, other: OrderBook, side: Side, id: OrderId) returns (order: Option<OrderState>)
      requires own == (if side == Buy then bids else asks) && other == (if side == Buy then asks else bids)
      requires Intact() && own.Valid() && LadderSum(own.State(), WithId(id)) <= 1
      modifies bids, asks, bids.levels, asks.levels
      ensures Intact() && order == Find(old(State()).On(side), id)
      ensures State() == old(State()).Put(side, if order.Some? then Remove(old(State()).On(side), id) else old(State()).On(side))
      ensures OnlyNewLevels()
    {
      order := CancelOn(own, other, id);
    }

    /** BookModel.Cancel on the objects, found on the bid side first. */
    method Cancel(id: OrderId) returns (order: Option<OrderState>)
      requires Valid()
      modifies bids, asks, bids.levels, asks.levels
      ensures Valid()
      ensures Cancelled(State(), order) == BookModel.Cancel(old(State()), id)
      ensures OnlyNewLevels()
    {
      CancelKeepsStructure(State(), id);
      assert State().Sum(WithId(id)) <= 1;
      bids.IndexAnswers(id);
      if id in bids.index {
        CancelAs(State(), Buy, id);
        order := CancelSide(bids, asks, Buy, id);
      } else {
        CancelAs(State(), Sell, id);
        order := CancelSide(asks, bids, Sell, id);
      }
    }

    /** Swaps a resting order for its replacement, on the side named. */
    method Swap(own: OrderBook, opposite: OrderBook, ghost side: Side, order: OrderState) returns (result: SubmitResult)
      requires own == (if side == Buy then bids else asks) && opposite == (if side == Buy then asks else bids)
      requires Intact() && Facing(own, opposite, order) && order.side == side
      requires LadderSum(own.State(), WithId(order.id)) == 1
      modifies this`nextSequence, bids, asks, bids.levels, asks.levels
      ensures Intact() && nextSequence == old(nextSequence) + 1
      ensures SweptInto(order, old(nextSequence), Remove(old(State()).On(side), order.id), old(State()).On(side.Opposite()),
                        State().On(side), State().On(side.Opposite()), result)
      ensures OnlyNewLevels()
    {
      result := ReplaceOn(own, opposite, side, order);
      var stamp := Advance();
    }

    method ReplaceOn(own: OrderBook, opposite: OrderBook, ghost side: Side, order: OrderState)
      returns (result: SubmitResult)
      requires own == (if side == Buy then bids else asks) && opposite == (if side == Buy then asks else bids)
      requires Intact() && Facing(own, opposite, order) && order.side == side
      requires LadderSum(own.State(), WithId(order.id)) == 1
      modifies bids, asks, bids.levels, asks.levels
      ensures Intact() && OnlyNewLevels()
      ensures SweptInto(order, nextSequence, Remove(old(State()).On(side), order.id), old(State()).On(side.Opposite()),
                        State().On(side), State().On(side.Opposite()), result)
    {
      result := Replace(own, opposite, order, nextSequence);
    }

    /** BookModel.Requeue on the objects: `o` is replaced by its amended clone. */
    method Requeue(own: OrderBook, opposite: OrderBook, ghost side: Side, o: OrderState, newQty: Quantity, target: Price)
      returns (result: SubmitResult)
      requires own == (if side == Buy then bids else asks) && opposite == (if side == Buy then asks else bids)
      requires Valid() && HealthyFor(State().On(side.Opposite()), o.Amended(newQty, target))
      requires Find(State().On(side), o.id) == Some(o) && (side == Sell ==> Find(State().bids, o.id).None?)
      modifies this`nextSequence, bids, asks, bids.levels, asks.levels
      ensures Intact() && Submitted(State(), result) == BookModel.Requeue(old(State()), o, newQty, target)
      ensures OnlyNewLevels()
    {
      ghost var before := State();
      FindIsSeated(side, before.On(side), o.id);
      FindIffCounted(before.On(side), o.id);
      assert before.Sum(WithId(o.id)) <= 1;
      result := Swap(own, opposite, side, o.Amended(newQty, target));
      ReplacedIsRequeued(before, side, o, newQty, target, State(), result);
    }

    /** Shrinks a resting order where it stands, on the side named. */
    method ReduceSide(own: OrderBook, other: OrderBook, ghost side: Side, id: OrderId, newQty: Quantity)
      requires own == (if side == Buy then bids else asks) && other == (if side == Buy then asks else bids)
      requires Intact() && own.Valid() && LadderSum(own.State(), WithId(id)) <= 1
      requires Find(own.State(), id).Some? && newQty <= Find(own.State(), id).value.remaining
      modifies bids, asks, bids.levels, asks.levels
      ensures Intact() && State() == old(State()).Put(side, Reduce(old(State()).On(side), id, newQty))
      ensures OnlyNewLevels()
    {
      ReduceOn(own, other, id, newQty);
    }

    /** Amends a resting order that was found on the side named. */
    method Amend(own: OrderBook, other: OrderBook, ghost side: Side, o: OrderState, newQty: Quantity, newPrice: Option<Price>)
      returns (result: ModifyResult)
      requires own == (if side == Buy then bids else asks) && other == (if side == Buy then asks else bids)
      requires Valid() && newQty > 0
      requires KeepsPlace(o, newQty, newPrice) ||
               HealthyFor(State().On(side.Opposite()), o.Amended(newQty, TargetPrice(o, newPrice)))
      requires Find(State().On(side), o.id) == Some(o) && (side == Sell ==> Find(State().bids, o.id).None?)
      modifies this`nextSequence, bids, asks, bids.levels, asks.levels
      ensures Intact() && Modified(State(), result) == BookModel.Modify(old(State()), o.id, newQty, newPrice)
      ensures OnlyNewLevels()
    {
      FindIsSeated(side, State().On(side), o.id);
      ModifyAs(State(), side, o, newQty, newPrice);
      var priceMoves := newPrice.Some? && newPrice != o.RestingPrice();
      var sizeGrows := newQty > o.remaining;
      if !priceMoves && !sizeGrows {
        assert State().Sum(WithId(o.id)) <= 1;
        ReduceSide(own, other, side, o.id, newQty);
        result := ModifyResult(AmendedInPlace, [], newQty);
      } else {
        var target := if newPrice.Some? then newPrice.value else o.terms.limit;
        var submitted := Requeue(own, other, side, o, newQty, target);
        result := ModifyResult(Requeued, submitted.fills, submitted.restingQty);
      }
    }

    /** Looks an order up, on the bid side first. */
    method FindResting(id: OrderId) returns (onBid: bool, resting: Option<OrderState>)
      requires Valid()
      ensures resting == State().Lookup(id) && (onBid <==> Find(State().bids, id).Some?)
      ensures resting.Some? ==> resting.value.id == id && resting.value.side == if onBid then Buy else Sell
    {
      assert State().Sum(WithId(id)) <= 1;
      resting := bids.Lookup(id);
      onBid := resting.Some?;
      if onBid {
        FindIsSeated(Buy, State().bids, id);
        return;
      }
      resting := asks.Lookup(id);
      if resting.Some? {
        FindIsSeated(Sell, State().asks, id);
      }
    }

    /** BookModel.Modify on the objects. */
    method Modify(id: OrderId, newQty: Quantity, newPrice: Option<Price>) returns (result: ModifyResult)
      requires Valid() && Serviceable(State(), ModifyCommand(id, newQty, newPrice))
      modifies this`nextSequence, bids, asks, bids.levels, asks.levels
      ensures Valid()
      ensures Modified(State(), result) == BookModel.Modify(old(State()), id, newQty, newPrice)
      ensures OnlyNewLevels()
    {
      ModifyKeepsStructure(State(), id, newQty, newPrice);
      result := ModifyObjects(id, newQty, newPrice);
    }

    method ModifyObjects(id: OrderId, newQty: Quantity, newPrice: Option<Price>) returns (result: ModifyResult)
      requires Valid() && Serviceable(State(), ModifyCommand(id, newQty, newPrice))
      modifies this`nextSequence, bids, asks, bids.levels, asks.levels
      ensures Intact() && Modified(State(), result) == BookModel.Modify(old(State()), id, newQty, newPrice)
      ensures OnlyNewLevels()
    {
      if newQty == 0 {
        return ModifyResult(Rejected, [], 0);
      }
      var onBid, resting := FindResting(id);
      if resting.None? {
        return ModifyResult(NotFound, [], 0);
      }
      result := AmendFound(onBid, resting.value, newQty, newPrice);
    }

    method AmendFound(onBid: bool, o: OrderState, newQty: Quantity, newPrice: Option<Price>)
      returns (result: ModifyResult)
      requires Valid() && newQty > 0 && State().Lookup(o.id) == Some(o) && (onBid <==> Find(State().bids, o.id).Some?)
      requires o.side == (if onBid then Buy else Sell) && 
                 (KeepsPlace(o, newQty, newPrice) || MeetsHealthy(State(), o.Amended(newQty, TargetPrice(o, newPrice))))
      modifies this`nextSequence, bids, asks, bids.levels, asks.levels
      ensures Intact() && Modified(State(), result) == BookModel.Modify(old(State()), o.id, newQty, newPrice)
      ensures OnlyNewLevels()
    {
      if onBid {
        result := Amend(bids, asks, Buy, o, newQty, newPrice);
      } else {
        result := Amend(asks, bids, Sell, o, newQty, newPrice);
      }
    }

    /** ApplyCommand on the objects. */
    method Apply(c: Command) returns (outcome: Outcome)
      requires Valid() && Serviceable(State(), c)
      modifies this`nextSequence, bids, asks, bids.levels, asks.levels
      ensures Valid()
      ensures Applied(State(), outcome) == ApplyCommand(old(State()), c)
      ensures OnlyNewLevels()
    {
      match c
      case SubmitCommand(order) =>
        var submitted := Submit(order);
        outcome := if submitted.Some? then Outcome(submitted.value.fills, true, submitted.value.restingQty) else Refused;
      case CancelCommand(id) =>
        var removed := Cancel(id);
        outcome := Outcome([], removed.Some?, 0);
      case ModifyCommand(id, qty, price) =>
        var modified := Modify(id, qty, price);
        outcome := Outcome(modified.fills, modified.status != NotFound && modified.status != Rejected, modified.restingQty);
    }
  }
}
