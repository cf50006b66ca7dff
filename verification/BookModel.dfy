/**
 The whole book as a value, and each operation as a function of it. Submitting is the
 reference matcher followed by resting; a requeueing amendment is a cancel followed by a
 submit. Book.dfy proves the plan-then-commit implementation against these functions.
 */
module BookModel {
  import opened Orders
  import opened Matching
  import opened Ladders

  datatype BookState = BookState(bids: Ladder, asks: Ladder, nextSequence: Sequence) {
    function On(side: Side): Ladder {
      if side == Buy then bids else asks
    }

    function Put(side: Side, ladder: Ladder): BookState {
      if side == Buy then this.(bids := ladder) else this.(asks := ladder)
    }

    function Lookup(id: OrderId): Option<OrderState> {
      var bid := Find(bids, id);
      if bid.Some? then bid else Find(asks, id)
    }

    /** How much of an amount both sides hold together. */
    function Sum(m: Amount): nat {
      LadderSum(bids, m) + LadderSum(asks, m)
    }

    predicate Crossed() {
      bids != [] && asks != [] && bids[0].price >= asks[0].price
    }
  }

  const EmptyBook := BookState([], [], 1)

  // ----- Submit -----

  datatype SubmitStatus = Resting | PartiallyFilledResting | Filled | CancelledRemainder | SelfMatchBlocked

  datatype SubmitResult = SubmitResult(
    status: SubmitStatus, fills: seq<Fill>, filledQty: Quantity, restingQty: Quantity)

  datatype Submitted = Submitted(book: BookState, result: SubmitResult)

  /** An order after a sequence of executions, one at a time. */
  function ConsumedBy(o: OrderState, fills: seq<Fill>): OrderState
    decreases |fills|
  {
    if fills == [] then o else ConsumedBy(o.Filled(fills[0].quantity), fills[1..])
  }

  function Sweep(b: BookState, o: OrderState): MatchResult {
    Match(b.On(o.side.Opposite()), o, o.remaining)
  }

  predicate WillRest(o: OrderState, m: MatchResult) {
    m.left > 0 && !m.blocked && o.RestingPrice().Some?
  }

  function StatusOf(o: OrderState, m: MatchResult): SubmitStatus {
    if WillRest(o, m) then (if m.fills == [] then Resting else PartiallyFilledResting)
    else if m.left == 0 then Filled
    else if m.blocked then SelfMatchBlocked
    else CancelledRemainder
  }

  /** Admits an order that passed validation: match, then rest what is entitled to rest. */
  function Accept(b: BookState, o: OrderState): Submitted {
    var m := Sweep(b, o);
    var swept := b.Put(o.side.Opposite(), m.ladder).(nextSequence := b.nextSequence + 1);
    var rested := ConsumedBy(o.Stamped(b.nextSequence), m.fills);
    var book :=
      if WillRest(o, m)
      then swept.Put(o.side, Rest(o.side, b.On(o.side), o.RestingPrice().value, rested))
      else swept;
    Submitted(book, SubmitResult(StatusOf(o, m), m.fills, Minus(o.remaining, m.left),
                                 if WillRest(o, m) then m.left else 0))
  }

  /** Validation: a zero quantity or an id already resting is refused. */
  predicate Admissible(b: BookState, o: OrderState) {
    o.remaining > 0 && b.Lookup(o.id).None?
  }

  // ----- Cancel -----

  datatype Cancelled = Cancelled(book: BookState, order: Option<OrderState>)

  function Cancel(b: BookState, id: OrderId): Cancelled {
    var bid, ask := Find(b.bids, id), Find(b.asks, id);
    if bid.Some? then Cancelled(b.(bids := Remove(b.bids, id)), bid)
    else if ask.Some? then Cancelled(b.(asks := Remove(b.asks, id)), ask)
    else Cancelled(b, None)
  }

  // ----- Modify -----

  datatype ModifyStatus = NotFound | Rejected | AmendedInPlace | Requeued

  datatype ModifyResult = ModifyResult(status: ModifyStatus, fills: seq<Fill>, restingQty: Quantity)

  datatype Modified = Modified(book: BookState, result: ModifyResult)

  /** The amendment asks for no other price and no more quantity, so it is made where the order stands. */
  predicate KeepsPlace(o: OrderState, qty: Quantity, price: Option<Price>) {
    (price.None? || o.RestingPrice() == price) && qty <= o.remaining
  }

  function TargetPrice(o: OrderState, price: Option<Price>): Price {
    if price.Some? then price.value else if o.terms.Market? then 0 else o.terms.limit
  }

  /** Withdraw, then submit the replacement as a fresh order. */
  function Requeue(b: BookState, o: OrderState, qty: Quantity, price: Price): Submitted {
    Accept(Cancel(b, o.id).book, o.Amended(qty, price))
  }

  function Modify(b: BookState, id: OrderId, qty: Quantity, price: Option<Price>): Modified {
    var found := b.Lookup(id);
    if qty == 0 then Modified(b, ModifyResult(Rejected, [], 0))
    else if found.None? then Modified(b, ModifyResult(NotFound, [], 0))
    else
      var o := found.value;
      if KeepsPlace(o, qty, price) then
        Modified(if Find(b.bids, id).Some? then b.(bids := Reduce(b.bids, id, qty))
                 else b.(asks := Reduce(b.asks, id, qty)),
                 ModifyResult(AmendedInPlace, [], qty))
      else
        var s := Requeue(b, o, qty, TargetPrice(o, price));
        Modified(s.book, ModifyResult(Requeued, s.result.fills, s.result.restingQty))
  }

  // ----- Commands -----

  datatype Command =
    | SubmitCommand(order: OrderState)
    | CancelCommand(id: OrderId)
    | ModifyCommand(id: OrderId, quantity: Quantity, price: Option<Price>)

  /** The result of ApplyCommand; `Refused` stands for InvalidOrderError. */
  datatype Outcome =
    | Outcome(fills: seq<Fill>, accepted: bool, restingQty: Quantity)
    | Refused

  datatype Applied = Applied(book: BookState, outcome: Outcome)

  function ApplyCommand(b: BookState, c: Command): Applied {
    match c
    case SubmitCommand(o) =>
      if Admissible(b, o) then
        var s := Accept(b, o);
        Applied(s.book, Outcome(s.result.fills, true, s.result.restingQty))
      else Applied(b, Refused)
    case CancelCommand(id) =>
      var r := Cancel(b, id);
      Applied(r.book, Outcome([], r.order.Some?, 0))
    case ModifyCommand(id, qty, price) =>
      var r := Modify(b, id, qty, price);
      Applied(r.book, Outcome(r.result.fills, r.result.status != NotFound && r.result.status != Rejected,
                              r.result.restingQty))
  }

  /** The book after a sequence of commands. */
  function ApplyAll(b: BookState, commands: seq<Command>): BookState {
    if commands == [] then b
    else ApplyCommand(ApplyAll(b, commands[..|commands| - 1]), commands[|commands| - 1]).book
  }
}
