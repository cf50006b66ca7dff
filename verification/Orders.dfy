/**
 Orders as values: what one order is, and what each operation of the order hierarchy
 (limit, market, iceberg) does to it. A price level owns its orders and updates them with
 these functions.
 */
module Orders {

  datatype Option<+T> = None | Some(value: T)

  type OrderId = nat
  type AccountId = nat
  type Quantity = nat
  type Sequence = nat
  type Price = int

  const TWO_TO_THE_64: nat := 0x1_0000_0000_0000_0000

  datatype Side = Buy | Sell {
    function Opposite(): Side {
      if this == Buy then Sell else Buy
    }
  }

  /** The ordering of a side's price levels: best price first. */
  predicate Better(side: Side, p: Price, q: Price) {
    if side == Buy then p > q else p < q
  }

  function Min(a: nat, b: nat): nat {
    if a <= b then a else b
  }

  /** Unsigned 64-bit subtraction: exact when it does not underflow, wrapping when it does. */
  function Minus(a: nat, b: nat): (d: nat) {
    if b <= a then a - b else if b <= a + TWO_TO_THE_64 then a + TWO_TO_THE_64 - b else 0
  }

  datatype Terms =
    | Limit(limit: Price)
    | Market
    | Iceberg(limit: Price, display: Quantity, visible: Quantity)

  datatype OrderState = OrderState(
    id: OrderId, side: Side, account: AccountId,
    remaining: Quantity, sequence: Sequence, terms: Terms)
  {
    /** Quantity exposed to the market right now. */
    function Visible(): Quantity {
      if terms.Iceberg? then terms.visible else remaining
    }

    /** Quantity put back on display when the tranche is spent. */
    function Display(): Quantity {
      if terms.Iceberg? then terms.display else remaining
    }

    function RestingPrice(): Option<Price> {
      if terms.Market? then None else Some(terms.limit)
    }

    /** The order accepts the price `best`. */
    predicate Crosses(best: Price) {
      terms.Market? || (if side == Buy then terms.limit >= best else terms.limit <= best)
    }

    function Filled(qty: Quantity): OrderState {
      var left := Minus(remaining, qty);
      if terms.Iceberg?
      then this.(remaining := left, terms := terms.(visible := Minus(terms.visible, qty)))
      else this.(remaining := left)
    }

    function Replenished(): OrderState {
      if terms.Iceberg?
      then this.(terms := terms.(visible := Min(terms.display, remaining)))
      else this
    }

    /** The order with its quantity lowered to `qty`, and its tranche and display size cut to fit. */
    function Reduced(qty: Quantity): OrderState {
      if terms.Iceberg?
      then this.(remaining := qty,
                 terms := terms.(visible := Min(terms.visible, qty), display := Min(terms.display, qty)))
      else this.(remaining := qty)
    }

    /** A detached order carrying new terms, keeping identity, side, account and kind. */
    function Amended(qty: Quantity, price: Price): OrderState {
      match terms
      case Limit(_) => NewLimit(id, side, account, qty, price)
      case Market => NewMarket(id, side, account, qty)
      case Iceberg(_, display, _) => NewIceberg(id, side, account, qty, price, display)
    }

    function Stamped(seqno: Sequence): OrderState {
      this.(sequence := seqno)
    }

    /** What every resting order must satisfy for the planner's arithmetic to be exact. */
    predicate Healthy() {
      0 < Visible() <= remaining && 0 < Display()
    }

    /** The state a constructor leaves an order in. */
    predicate Fresh() {
      && sequence == 0
      && (terms.Iceberg? ==>
            && terms.visible == terms.display <= remaining
            && (terms.display == 0 ==> remaining == 0))
    }
  }

  function NewLimit(id: OrderId, side: Side, account: AccountId, qty: Quantity, limit: Price): OrderState {
    OrderState(id, side, account, qty, 0, Limit(limit))
  }

  function NewMarket(id: OrderId, side: Side, account: AccountId, qty: Quantity): OrderState {
    OrderState(id, side, account, qty, 0, Market)
  }

  /** The display size must be positive and within the order; any other shows the whole order. */
  function NewIceberg(id: OrderId, side: Side, account: AccountId, qty: Quantity, limit: Price, displaySize: Quantity)
    : OrderState
  {
    var display := if displaySize == 0 then qty else Min(displaySize, qty);
    OrderState(id, side, account, qty, 0, Iceberg(limit, display, display))
  }
}
