/**
 What every book reachable by submit, cancel and modify satisfies.
 */
module BookTheorems {
  import opened Orders
  import opened Matching
  import opened Ladders
  import opened MatchTheorems
  import opened Reach
  import opened LadderTheorems
  import opened BookModel

  /** Best own price strictly on its own side of the best opposite price. */
  ghost predicate Apart(side: Side, own: Ladder, opposite: Ladder) {
    own != [] && opposite != [] ==> Better(side.Opposite(), own[0].price, opposite[0].price)
  }

  /**
   The structure every reachable book keeps: sorted non-empty levels with every order in its
   seat, plain orders in time order, ids and sequence numbers unique across both sides,
   sequence numbers below the next one to be issued, and the sides not crossed.
   */
  ghost predicate Structured(b: BookState) {
    && Shaped(Buy, b.bids) && Shaped(Sell, b.asks)
    && NoEmptyLevel(b.bids) && NoEmptyLevel(b.asks)
    && (forall n: OrderId :: b.Sum(WithId(n)) <= 1)
    && (forall n: Sequence :: b.Sum(WithSequence(n)) <= 1)
    && (forall n: Sequence :: n >= b.nextSequence ==> b.Sum(WithSequence(n)) == 0)
    && !b.Crossed()
  }

  /** Every resting order shows quantity, and no more than it has. */
  ghost predicate HealthyBook(b: BookState) {
    Healthy(b.bids) && Healthy(b.asks)
  }

  /** Every order this one may trade against, at a price it accepts, shows quantity, as the planner asks. */
  ghost predicate MeetsHealthy(b: BookState, o: OrderState) {
    HealthyFor(b.On(o.side.Opposite()), o)
  }

  /** An amendment that gives up its place. */
  predicate Requeues(b: BookState, id: OrderId, qty: Quantity, price: Option<Price>) {
    qty > 0 && b.Lookup(id).Some? && !KeepsPlace(b.Lookup(id).value, qty, price)
  }

  /** The order that re-enters. */
  function Replacement(b: BookState, id: OrderId, qty: Quantity, price: Option<Price>): OrderState
    requires b.Lookup(id).Some?
  {
    var o := b.Lookup(id).value;
    o.Amended(qty, TargetPrice(o, price))
  }

  /** What the code demands of the book a command finds: where it may trade, quantity is shown. */
  ghost predicate Serviceable(b: BookState, c: Command) {
    match c
    case SubmitCommand(o) => Admissible(b, o) ==> MeetsHealthy(b, o)
    case CancelCommand(_) => true
    case ModifyCommand(id, qty, price) => Requeues(b, id, qty, price) ==> MeetsHealthy(b, Replacement(b, id, qty, price))
  }

  /** A book that shows quantity everywhere can take any command. */
  lemma HealthyServes(b: BookState, c: Command)
    requires HealthyBook(b)
    ensures Serviceable(b, c)
  {
    match c
    case SubmitCommand(o) =>
      HealthyForAll(b.On(o.side.Opposite()), o);
    case CancelCommand(_) =>
    case ModifyCommand(id, qty, price) =>
      if b.Lookup(id).Some? {
        var r := Replacement(b, id, qty, price);
        HealthyForAll(b.On(r.side.Opposite()), r);
      }
  }

  // ----- Submit -----

  lemma {:induction false} ConsumedKeepsIdentity(o: OrderState, fills: seq<Fill>)
    ensures var c := ConsumedBy(o, fills);
      c.id == o.id && c.side == o.side && c.sequence == o.sequence && c.account == o.account &&
      c.RestingPrice() == o.RestingPrice() && c.terms.Iceberg? == o.terms.Iceberg?
    decreases |fills|
  {
    if fills != [] {
      ConsumedKeepsIdentity(o.Filled(fills[0].quantity), fills[1..]);
    }
  }

  lemma {:induction false} SweepFrontNoBetter(side: Side, ladder: Ladder, a: OrderState, available: Quantity)
    requires Kept(side, ladder, a)
    ensures FrontNoBetter(side, ladder, Match(ladder, a, available).ladder)
    decreases available, |ladder|
  {
    if ladder != [] && ladder[0].queue == [] {
      SweepFrontNoBetter(side, ladder[1..], a, available);
    } else if Trades(ladder, a, available) {
      var qty := Min(available, ladder[0].queue[0].Visible());
      TradedKept(side, ladder, a, qty);
      SweepFrontNoBetter(side, Traded(ladder, qty), a, available - qty);
    }
  }

  /** The side an order trades against. */
  lemma SweptSide(b: BookState, o: OrderState)
    requires Structured(b) && MeetsHealthy(b, o)
    ensures var s := o.side.Opposite();
      var swept := Sweep(b, o).ladder;
      && Kept(s, swept, o) && NoEmptyLevel(swept) && FrontNoBetter(s, b.On(s), swept)
      && (forall n: OrderId :: LadderSum(swept, WithId(n)) <= LadderSum(b.On(s), WithId(n)))
      && (forall n: Sequence :: LadderSum(swept, WithSequence(n)) <= LadderSum(b.On(s), WithSequence(n)))
  {
    var s := o.side.Opposite();
    var ladder := b.On(s);
    SweepKeepsShape(s, ladder, o, o.remaining);
    SweepLeavesNoEmptyLevel(ladder, o, o.remaining);
    SweepFrontNoBetter(s, ladder, o, o.remaining);
    forall n: OrderId ensures LadderSum(Sweep(b, o).ladder, WithId(n)) <= LadderSum(ladder, WithId(n)) {
      SweepAddsNoOrder(ladder, o, o.remaining, WithId(n));
    }
    forall n: Sequence
      ensures LadderSum(Sweep(b, o).ladder, WithSequence(n)) <= LadderSum(ladder, WithSequence(n))
    {
      SweepAddsNoOrder(ladder, o, o.remaining, WithSequence(n));
    }
  }

  /** The side an order rests on, when it rests. */
  lemma RestedSide(b: BookState, o: OrderState)
    requires Structured(b) && o.RestingPrice().Some?
    ensures var own := b.On(o.side);
      var rested := ConsumedBy(o.Stamped(b.nextSequence), Sweep(b, o).fills);
      var after := Rest(o.side, own, o.RestingPrice().value, rested);
      && Shaped(o.side, after) && NoEmptyLevel(after) && after != []
      && (after[0].price == o.RestingPrice().value || (own != [] && after[0].price == own[0].price))
      && (forall n: OrderId :: LadderSum(after, WithId(n)) ==
                              LadderSum(own, WithId(n)) + if n == o.id then 1 else 0)
      && (forall n: Sequence :: LadderSum(after, WithSequence(n)) ==
                               LadderSum(own, WithSequence(n)) + if n == b.nextSequence then 1 else 0)
  {
    var own := b.On(o.side);
    var price := o.RestingPrice().value;
    var rested := ConsumedBy(o.Stamped(b.nextSequence), Sweep(b, o).fills);
    ConsumedKeepsIdentity(o.Stamped(b.nextSequence), Sweep(b, o).fills);
    assert SequencedBefore(own, b.nextSequence) by {
      forall n: Sequence | n >= b.nextSequence ensures LadderSum(own, WithSequence(n)) == 0 {
        assert b.Sum(WithSequence(n)) == 0;
      }
    }
    RestShaped(o.side, own, price, rested);
    RestNoEmptyLevel(o.side, own, price, rested);
    forall n: OrderId
      ensures LadderSum(Rest(o.side, own, price, rested), WithId(n)) ==
              LadderSum(own, WithId(n)) + if n == o.id then 1 else 0
    {
      RestSum(o.side, own, price, rested, WithId(n));
    }
    forall n: Sequence
      ensures LadderSum(Rest(o.side, own, price, rested), WithSequence(n)) ==
              LadderSum(own, WithSequence(n)) + if n == b.nextSequence then 1 else 0
    {
      RestSum(o.side, own, price, rested, WithSequence(n));
    }
  }

  lemma AcceptSums(b: BookState, o: OrderState, m: Amount)
    requires Structured(b) && MeetsHealthy(b, o) && (m.WithId? || m.WithSequence?)
    ensures Accept(b, o).book.Sum(m) <=
            b.Sum(m) + if m == WithId(o.id) || m == WithSequence(b.nextSequence) then 1 else 0
  {
    SweptSide(b, o);
    if WillRest(o, Sweep(b, o)) {
      RestedSide(b, o);
    }
  }

  lemma AcceptStaysApart(b: BookState, o: OrderState)
    requires Structured(b) && MeetsHealthy(b, o)
    ensures !Accept(b, o).book.Crossed()
  {
    var s := o.side.Opposite();
    assert Apart(o.side, b.On(o.side), b.On(s));
    SweptSide(b, o);
    SweepExhausts(s, b.On(s), o, o.remaining);
    if WillRest(o, Sweep(b, o)) {
      RestedSide(b, o);
    }
    var after := Accept(b, o).book;
    assert Apart(o.side, after.On(o.side), after.On(s));
  }

  /** Submitting keeps the structure, whatever the order and even when it is self-match blocked. */
  lemma AcceptKeepsStructure(b: BookState, o: OrderState)
    requires Structured(b) && MeetsHealthy(b, o) && b.Sum(WithId(o.id)) == 0
    ensures Structured(Accept(b, o).book)
  {
    var after := Accept(b, o).book;
    SweptSide(b, o);
    if WillRest(o, Sweep(b, o)) {
      RestedSide(b, o);
    }
    AcceptStaysApart(b, o);
    forall n: OrderId ensures after.Sum(WithId(n)) <= 1 {
      AcceptSums(b, o, WithId(n));
    }
    forall n: Sequence ensures after.Sum(WithSequence(n)) <= if n >= after.nextSequence then 0 else 1 {
      AcceptSums(b, o, WithSequence(n));
      assert n >= b.nextSequence ==> b.Sum(WithSequence(n)) == 0;
    }
  }

  // ----- The boundary for iceberg aggressors -----

  /** Every execution of the aggressor meets the precondition `qty <= visibleQty()`. */
  ghost predicate EveryFillFits(o: OrderState, fills: seq<Fill>)
    decreases |fills|
  {
    fills == [] || (fills[0].quantity <= o.Visible() && EveryFillFits(o.Filled(fills[0].quantity), fills[1..]))
  }

  lemma {:induction false} FillsFitIffTrancheCovers(o: OrderState, fills: seq<Fill>)
    requires FillSum(fills) <= o.remaining
    ensures EveryFillFits(o, fills) <==> FillSum(fills) <= o.Visible()
    decreases |fills|
  {
    if fills != [] && fills[0].quantity <= o.Visible() {
      FillsFitIffTrancheCovers(o.Filled(fills[0].quantity), fills[1..]);
    }
  }

  /** Executions one at a time add up, wrap-around included. */
  lemma {:induction false} ConsumedClosedForm(o: OrderState, fills: seq<Fill>)
    requires FillSum(fills) <= o.remaining
    requires o.terms.Iceberg? ==> FillSum(fills) <= o.terms.visible + TWO_TO_THE_64
    ensures ConsumedBy(o, fills) == o.Filled(FillSum(fills))
    decreases |fills|
  {
    if fills != [] {
      ConsumedClosedForm(o.Filled(fills[0].quantity), fills[1..]);
    }
  }

  /** An order as it may be handed to the book: a tranche within the order, in 64 bits. */
  predicate WellFormed(o: OrderState) {
    && o.Visible() <= o.remaining < TWO_TO_THE_64
    && (o.remaining > 0 ==> o.Visible() > 0 && o.Display() > 0)
  }

  /** What an order can take at most, told from the side it meets. */
  function ReachOf(b: BookState, o: OrderState): nat {
    Reachable(b.On(o.side.Opposite()), o)
  }

  /** Its own account stands within its reach. */
  predicate OwnInReach(b: BookState, o: OrderState) {
    MeetsOwn(b.On(o.side.Opposite()), o)
  }

  /** Part of the order will come to rest: it has a price to wait at, and more than it can take. */
  predicate ComesToRest(b: BookState, o: OrderState) {
    o.RestingPrice().Some? && !OwnInReach(b, o) && ReachOf(b, o) < o.remaining
  }

  /** An order that comes to rest can take less than the tranche it shows. */
  predicate StaysShowing(b: BookState, o: OrderState) {
    ComesToRest(b, o) ==> ReachOf(b, o) < o.Visible()
  }

  /** What a submit fills, whether it is blocked and whether it rests, all known before it. */
  lemma SubmitForetold(b: BookState, o: OrderState)
    requires Structured(b) && MeetsHealthy(b, o)
    ensures var m := Sweep(b, o);
      && FillSum(m.fills) == Min(o.remaining, ReachOf(b, o))
      && (m.blocked <==> OwnInReach(b, o) && ReachOf(b, o) < o.remaining)
      && (WillRest(o, m) <==> ComesToRest(b, o))
  {
    var s := o.side.Opposite();
    SweepConserves(s, b.On(s), o, o.remaining);
    SweepReach(s, b.On(s), o, o.remaining);
  }

  /**
   What a submit reports, told beforehand: the fills add up to what the order can take, each status
   has its own case, and the book gains just what rests and loses just what was filled.
   */
  lemma SubmitReport(b: BookState, o: OrderState)
    requires Structured(b) && MeetsHealthy(b, o) && WellFormed(o) && o.remaining > 0
    ensures var s, reach := Accept(b, o), ReachOf(b, o);
      var r := s.result;
      && r.filledQty == FillSum(r.fills) == Min(o.remaining, reach)
      && r.restingQty == (if ComesToRest(b, o) then o.remaining - reach else 0)
      && (r.status == Filled <==> o.remaining <= reach)
      && (r.status == Resting <==> ComesToRest(b, o) && reach == 0)
      && (r.status == PartiallyFilledResting <==> ComesToRest(b, o) && reach > 0)
      && (r.status == SelfMatchBlocked <==> OwnInReach(b, o) && reach < o.remaining)
      && (r.status == CancelledRemainder <==> o.RestingPrice().None? && !OwnInReach(b, o) && reach < o.remaining)
      && s.book.Sum(Remaining) + r.filledQty == b.Sum(Remaining) + r.restingQty
  {
    var m, opposite := Sweep(b, o), o.side.Opposite();
    SubmitForetold(b, o);
    SweepConserves(opposite, b.On(opposite), o, o.remaining);
    SomethingFilled(opposite, b.On(opposite), o, o.remaining);
    if WillRest(o, m) {
      var stamped := o.Stamped(b.nextSequence);
      ConsumedClosedForm(stamped, m.fills);
      RestSum(o.side, b.On(o.side), o.RestingPrice().value, ConsumedBy(stamped, m.fills), Remaining);
    }
  }

  lemma SomethingFilled(side: Side, ladder: Ladder, a: OrderState, available: Quantity)
    requires Kept(side, ladder, a)
    ensures var fills := Match(ladder, a, available).fills; fills == [] <==> FillSum(fills) == 0
  {
    SweepPrices(side, ladder, a, available);
    var fills := Match(ladder, a, available).fills;
    if fills != [] {
      assert fills[0] in fills;
    }
  }

  /** The remainder of an order still shows quantity exactly when its tranche was not used up. */
  lemma RestedHealthyIff(o: OrderState, fills: seq<Fill>)
    requires WellFormed(o) && FillSum(fills) < o.remaining
    ensures ConsumedBy(o, fills).Healthy() <==> FillSum(fills) < o.Visible()
  {
    ConsumedClosedForm(o, fills);
  }

  /**
   Exact boundary for iceberg aggressors, over all books and orders, from what the book holds before
   the submit: every commit-time fill meets its precondition iff what the order can take is within
   its tranche, and the book stays healthy iff an order that comes to rest can take less than its
   tranche. A limit or market order always satisfies both.
   */
  lemma AggressorBoundary(b: BookState, o: OrderState)
    requires Structured(b) && MeetsHealthy(b, o) && WellFormed(o)
    ensures EveryFillFits(o, Sweep(b, o).fills) <==> Min(o.remaining, ReachOf(b, o)) <= o.Visible()
    ensures HealthyBook(b) ==> (HealthyBook(Accept(b, o).book) <==> StaysShowing(b, o))
    ensures !o.terms.Iceberg? ==> EveryFillFits(o, Sweep(b, o).fills) && StaysShowing(b, o)
  {
    var m := Sweep(b, o);
    SubmitForetold(b, o);
    FillsFitIffTrancheCovers(o, m.fills);
    SweptSide(b, o);
    if HealthyBook(b) {
      SweepKeepsHealth(b.On(o.side.Opposite()), o, o.remaining);
    }
    if HealthyBook(b) && WillRest(o, m) {
      var stamped := o.Stamped(b.nextSequence);
      RestedHealthyIff(stamped, m.fills);
      RestHealthy(o.side, b.On(o.side), o.RestingPrice().value, ConsumedBy(stamped, m.fills));
    }
  }

  // ----- Cancel -----

  /** Replacing one side by a shaped one that adds no order and improves no price keeps the structure. */
  lemma EditKeepsStructure(b: BookState, side: Side, ladder: Ladder)
    requires Structured(b)
    requires Shaped(side, ladder) && NoEmptyLevel(ladder) && FrontNoBetter(side, b.On(side), ladder)
    requires forall n: OrderId :: LadderSum(ladder, WithId(n)) <= LadderSum(b.On(side), WithId(n))
    requires forall n: Sequence :: LadderSum(ladder, WithSequence(n)) <= LadderSum(b.On(side), WithSequence(n))
    ensures Structured(b.Put(side, ladder))
  {
    var after := b.Put(side, ladder);
    forall n: OrderId ensures after.Sum(WithId(n)) <= 1 {
      assert b.Sum(WithId(n)) <= 1;
    }
    forall n: Sequence ensures after.Sum(WithSequence(n)) <= b.Sum(WithSequence(n)) {
      assert LadderSum(ladder, WithSequence(n)) <= LadderSum(b.On(side), WithSequence(n));
    }
  }

  lemma RemoveKeepsStructure(b: BookState, side: Side, id: OrderId)
    requires Structured(b) && Find(b.On(side), id).Some?
    ensures Structured(b.Put(side, Remove(b.On(side), id)))
    ensures Healthy(b.On(side)) ==> Healthy(Remove(b.On(side), id))
    ensures b.Put(side, Remove(b.On(side), id)).Sum(WithId(id)) == 0
  {
    var ladder := b.On(side);
    RemoveKeepsShape(side, ladder, id);
    RemoveKeepsHealth(ladder, id);
    forall n: OrderId ensures LadderSum(Remove(ladder, id), WithId(n)) <= LadderSum(ladder, WithId(n)) {
      RemoveSum(ladder, id, WithId(n));
    }
    forall n: Sequence
      ensures LadderSum(Remove(ladder, id), WithSequence(n)) <= LadderSum(ladder, WithSequence(n))
    {
      RemoveSum(ladder, id, WithSequence(n));
    }
    EditKeepsStructure(b, side, Remove(ladder, id));
    FindIffCounted(ladder, id);
    RemoveSum(ladder, id, WithId(id));
    assert b.Sum(WithId(id)) <= 1;
  }

  /** Cancelling removes the order, keeps the structure, and touches nothing else's health. */
  lemma CancelKeepsStructure(b: BookState, id: OrderId)
    requires Structured(b)
    ensures var c := Cancel(b, id);
      && Structured(c.book) && c.book.Sum(WithId(id)) == 0
      && (Healthy(b.bids) ==> Healthy(c.book.bids)) && (Healthy(b.asks) ==> Healthy(c.book.asks))
  {
    FindIffCounted(b.bids, id);
    FindIffCounted(b.asks, id);
    if Find(b.bids, id).Some? {
      RemoveKeepsStructure(b, Buy, id);
    } else if Find(b.asks, id).Some? {
      RemoveKeepsStructure(b, Sell, id);
    }
  }

  /** Lookup finds exactly the ids the book holds. */
  lemma LookupIffCounted(b: BookState, id: OrderId)
    ensures b.Lookup(id).Some? <==> b.Sum(WithId(id)) > 0
    ensures b.Lookup(id).Some? ==> b.Lookup(id).value.id == id
  {
    FindIffCounted(b.bids, id);
    FindIffCounted(b.asks, id);
  }

  lemma NewcomerIsLast(queue: seq<OrderState>, o: OrderState)
    requires QueueSum(queue, WithId(o.id)) == 0
    ensures Position(queue, o.id) == |queue|
    ensures Position(queue + [o], o.id) == |queue| && Without(queue + [o], |queue|) == queue
  {
    QueueSumPositive(queue, WithId(o.id));
    forall i | 0 <= i < |queue| ensures queue[i].id != o.id {
      assert queue[i] in queue && AmountOf(queue[i], WithId(o.id)) == 0;
    }
    var all := queue + [o];
    assert all[|queue|] == o;
    assert forall i :: 0 <= i < |queue| ==> all[i] == queue[i];
  }

  lemma {:induction false} RemoveUndoesRest(side: Side, ladder: Ladder, price: Price, o: OrderState)
    requires NoEmptyLevel(ladder) && LadderSum(ladder, WithId(o.id)) == 0
    ensures Remove(Rest(side, ladder, price, o), o.id) == ladder
  {
    var rested := Rest(side, ladder, price, o);
    if ladder == [] || Better(side, price, ladder[0].price) {
      assert Position([o], o.id) == 0 && Without([o], 0) == [];
      assert rested[1..] == ladder;
    } else {
      NewcomerIsLast(ladder[0].queue, o);
      if ladder[0].price == price {
        assert rested[1..] == ladder[1..];
      } else {
        assert rested[1..] == Rest(side, ladder[1..], price, o);
        RemoveUndoesRest(side, ladder[1..], price, o);
      }
    }
  }

  lemma NoFillNoChange(ladder: Ladder, a: OrderState, available: Quantity)
    requires NoEmptyLevel(ladder) && Match(ladder, a, available).fills == []
    ensures Match(ladder, a, available).ladder == ladder
  {
  }

  /** Cancelling an order that rested without trading restores the book, but for the sequence it took. */
  lemma CancelUndoesSubmit(b: BookState, o: OrderState)
    requires Structured(b) && MeetsHealthy(b, o) && b.Sum(WithId(o.id)) == 0
    requires ComesToRest(b, o) && ReachOf(b, o) == 0
    ensures Cancel(Accept(b, o).book, o.id).book == b.(nextSequence := b.nextSequence + 1)
  {
    var s := o.side.Opposite();
    SubmitForetold(b, o);
    SomethingFilled(s, b.On(s), o, o.remaining);
    NoFillNoChange(b.On(s), o, o.remaining);
    assert Sweep(b, o).ladder == b.On(s);
    RemoveUndoesRest(o.side, b.On(o.side), o.RestingPrice().value, o.Stamped(b.nextSequence));
    RestedSide(b, o);
    var after := Accept(b, o).book;
    FindIffCounted(after.bids, o.id);
    FindIffCounted(after.asks, o.id);
  }

  // ----- Modify -----

  /** The in-place half of an amendment. */
  lemma ReduceKeepsStructure(b: BookState, id: OrderId, qty: Quantity, price: Option<Price>)
    requires Structured(b) && b.Lookup(id).Some? && qty > 0
    requires KeepsPlace(b.Lookup(id).value, qty, price)
    ensures var after := Modify(b, id, qty, price).book;
      Structured(after) && (HealthyBook(b) ==> HealthyBook(after))
  {
    var side := if Find(b.bids, id).Some? then Buy else Sell;
    var ladder := b.On(side);
    ReduceKeepsShape(side, ladder, id, qty);
    if HealthyBook(b) {
      ReduceKeepsHealth(ladder, id, qty);
    }
    forall n: OrderId ensures LadderSum(Reduce(ladder, id, qty), WithId(n)) <= LadderSum(ladder, WithId(n)) {
      ReduceSum(ladder, id, qty, WithId(n));
    }
    forall n: Sequence
      ensures LadderSum(Reduce(ladder, id, qty), WithSequence(n)) <= LadderSum(ladder, WithSequence(n))
    {
      ReduceSum(ladder, id, qty, WithSequence(n));
    }
    EditKeepsStructure(b, side, Reduce(ladder, id, qty));
  }

  /** The condition, on the book a command finds, under which every resting order goes on showing quantity. */
  predicate KeepsHealth(b: BookState, c: Command) {
    match c
    case SubmitCommand(o) => WellFormed(o) && (Admissible(b, o) ==> StaysShowing(b, o))
    case CancelCommand(id) => true
    case ModifyCommand(id, qty, price) =>
      && qty < TWO_TO_THE_64
      && (Requeues(b, id, qty, price) ==>
            StaysShowing(b, Replacement(b, id, qty, price)))
  }

  /** Withdrawing an order leaves the side it trades against alone. */
  lemma CancelLeavesOpposite(b: BookState, id: OrderId)
    requires Structured(b) && b.Lookup(id).Some?
    ensures var o := b.Lookup(id).value;
      o.id == id && Cancel(b, id).book.On(o.side.Opposite()) == b.On(o.side.Opposite())
  {
    if Find(b.bids, id).Some? {
      FindIsSeated(Buy, b.bids, id);
    } else {
      FindIsSeated(Sell, b.asks, id);
    }
  }

  /** A requeueing amendment re-enters through the submit path and keeps the structure. */
  lemma RequeueKeepsStructure(b: BookState, id: OrderId, qty: Quantity, price: Price)
    requires Structured(b) && b.Lookup(id).Some? && MeetsHealthy(b, b.Lookup(id).value.Amended(qty, price))
    ensures Structured(Requeue(b, b.Lookup(id).value, qty, price).book)
  {
    CancelLeavesOpposite(b, id);
    CancelKeepsStructure(b, id);
    AcceptKeepsStructure(Cancel(b, id).book, b.Lookup(id).value.Amended(qty, price));
  }

  /** An amendment of any kind keeps the structure. */
  lemma ModifyKeepsStructure(b: BookState, id: OrderId, qty: Quantity, price: Option<Price>)
    requires Structured(b) && Serviceable(b, ModifyCommand(id, qty, price))
    ensures Structured(Modify(b, id, qty, price).book)
  {
    var status := Modify(b, id, qty, price).result.status;
    if status == Requeued {
      RequeueKeepsStructure(b, id, qty, TargetPrice(b.Lookup(id).value, price));
    } else if status == AmendedInPlace {
      ReduceKeepsStructure(b, id, qty, price);
    }
  }

  /** It keeps every resting order showing quantity exactly under the condition for submits. */
  lemma RequeueKeepsHealthIff(b: BookState, id: OrderId, qty: Quantity, price: Price)
    requires Structured(b) && HealthyBook(b) && b.Lookup(id).Some? && 0 < qty < TWO_TO_THE_64
    ensures var o := b.Lookup(id).value;
      HealthyBook(Requeue(b, o, qty, price).book) <==> StaysShowing(b, o.Amended(qty, price))
  {
    var o := b.Lookup(id).value;
    LookupIsHealthy(b, id);
    CancelLeavesOpposite(b, id);
    CancelKeepsStructure(b, id);
    HealthyForAll(b.On(o.side.Opposite()), o.Amended(qty, price));
    AggressorBoundary(Cancel(b, id).book, o.Amended(qty, price));
  }

  lemma {:induction false} FindIsHealthy(ladder: Ladder, id: OrderId)
    requires Healthy(ladder) && Find(ladder, id).Some?
    ensures Find(ladder, id).value.Healthy()
  {
    var k := Position(ladder[0].queue, id);
    if k < |ladder[0].queue| {
      assert ladder[0].queue[k] in ladder[0].queue;
    } else {
      FindIsHealthy(ladder[1..], id);
    }
  }

  lemma LookupIsHealthy(b: BookState, id: OrderId)
    requires HealthyBook(b) && b.Lookup(id).Some?
    ensures b.Lookup(id).value.Healthy()
  {
    if Find(b.bids, id).Some? {
      FindIsHealthy(b.bids, id);
    } else {
      FindIsHealthy(b.asks, id);
    }
  }

  // ----- Whole runs -----

  /** Quantities as the code can hold them. */
  predicate WellFormedCommand(c: Command) {
    match c
    case SubmitCommand(o) => WellFormed(o)
    case CancelCommand(_) => true
    case ModifyCommand(_, qty, _) => qty < TWO_TO_THE_64
  }

  /** One command of any kind keeps the structure, so the book is never crossed. */
  lemma CommandKeepsStructure(b: BookState, c: Command)
    requires Structured(b) && Serviceable(b, c)
    ensures Structured(ApplyCommand(b, c).book)
  {
    match c
    case SubmitCommand(o) =>
      LookupIffCounted(b, o.id);
      if Admissible(b, o) {
        AcceptKeepsStructure(b, o);
      }
    case CancelCommand(id) =>
      CancelKeepsStructure(b, id);
    case ModifyCommand(id, qty, price) =>
      ModifyKeepsStructure(b, id, qty, price);
  }

  /** It keeps every resting order showing quantity exactly under the stated condition. */
  lemma CommandKeepsHealthIff(b: BookState, c: Command)
    requires Structured(b) && HealthyBook(b) && WellFormedCommand(c)
    ensures Serviceable(b, c) && (HealthyBook(ApplyCommand(b, c).book) <==> KeepsHealth(b, c))
  {
    HealthyServes(b, c);
    match c
    case SubmitCommand(o) =>
      if Admissible(b, o) {
        AggressorBoundary(b, o);
      }
    case CancelCommand(id) =>
      CancelKeepsStructure(b, id);
    case ModifyCommand(id, qty, price) =>
      var status := Modify(b, id, qty, price).result.status;
      if status == Requeued {
        RequeueKeepsHealthIff(b, id, qty, TargetPrice(b.Lookup(id).value, price));
      } else if status == AmendedInPlace {
        ReduceKeepsStructure(b, id, qty, price);
      }
  }

  ghost predicate KeepsHealthAt(b: BookState, commands: seq<Command>, k: nat)
    requires k < |commands|
  {
    KeepsHealth(ApplyAll(b, commands[..k]), commands[k])
  }

  /** Every command of a run from `b` meets the condition in the book it finds. */
  ghost predicate HealthyRun(b: BookState, commands: seq<Command>) {
    forall k :: 0 <= k < |commands| ==> KeepsHealthAt(b, commands, k)
  }

  lemma HealthyFront(b: BookState, commands: seq<Command>, n: nat)
    requires HealthyRun(b, commands) && n <= |commands|
    ensures HealthyRun(b, commands[..n])
  {
    forall k | 0 <= k < n ensures KeepsHealthAt(b, commands[..n], k) {
      assert KeepsHealthAt(b, commands, k);
      assert commands[..n][..k] == commands[..k];
    }
  }

  /** A run of commands that each meet the condition keeps the structure and the health of the book. */
  lemma {:induction false} RunKeepsBook(b: BookState, commands: seq<Command>)
    requires Structured(b) && HealthyBook(b) && HealthyRun(b, commands)
    ensures var after := ApplyAll(b, commands); Structured(after) && HealthyBook(after)
  {
    if commands != [] {
      var n := |commands| - 1;
      assert KeepsHealthAt(b, commands, n);
      HealthyFront(b, commands, n);
      RunKeepsBook(b, commands[..n]);
      CommandKeepsHealthIff(ApplyAll(b, commands[..n]), commands[n]);
      CommandKeepsStructure(ApplyAll(b, commands[..n]), commands[n]);
    }
  }

  /** Every reachable book keeps the full invariant; in particular it is never crossed. */
  lemma ReachableBooks(commands: seq<Command>)
    requires HealthyRun(EmptyBook, commands)
    ensures var b := ApplyAll(EmptyBook, commands); Structured(b) && HealthyBook(b) && !b.Crossed()
  {
    RunKeepsBook(EmptyBook, commands);
  }

  // ----- The boundary is real -----

  /** A resting sell of 20 at 100, the only order of the book. */
  const OneSell := BookState([], [LevelState(100, [NewLimit(1, Sell, 1, 20, 100).Stamped(1)])], 2)

  /** A buy of 100 at 100 showing `display`. */
  function BuyIceberg(display: Quantity): OrderState {
    NewIceberg(2, Buy, 2, 100, 100, display)
  }

  lemma OneSellHolds()
    ensures Structured(OneSell) && HealthyBook(OneSell)
  {
    var maker := NewLimit(1, Sell, 1, 20, 100);
    assert Accept(EmptyBook, maker).book == OneSell;
    AcceptKeepsStructure(EmptyBook, maker);
    AggressorBoundary(EmptyBook, maker);
  }

  lemma OneSellReached(display: Quantity)
    requires 0 < display < 100
    ensures ReachOf(OneSell, BuyIceberg(display)) == 20 && !OwnInReach(OneSell, BuyIceberg(display))
  {
    var o, asks := BuyIceberg(display), OneSell.asks;
    var queue := asks[0].queue;
    assert queue[1..] == [] && asks[1..] == [] && o.Crosses(asks[0].price) && o.side.Opposite() == Sell;
    assert !HasOwn(queue, o.account) && QueueSum(queue, Remaining) == 20;
    assert Reachable(asks, o) == LevelReach(queue, o.account) + Reachable(asks[1..], o);
    assert !MeetsOwn(asks[1..], o);
  }

  /**
   Neither half of the boundary is vacuous: an iceberg showing less than it takes trips the fill
   precondition, and one showing exactly what it takes comes to rest with nothing on display.
   */
  lemma BoundaryIsReal()
    ensures var o := BuyIceberg(10);
      !EveryFillFits(o, Sweep(OneSell, o).fills) && !HealthyBook(Accept(OneSell, o).book)
    ensures var o := BuyIceberg(20);
      EveryFillFits(o, Sweep(OneSell, o).fills) && !HealthyBook(Accept(OneSell, o).book)
  {
    OneSellHolds();
    OneSellReached(10);
    AggressorBoundary(OneSell, BuyIceberg(10));
    OneSellReached(20);
    AggressorBoundary(OneSell, BuyIceberg(20));
  }
}
