/** Orders and their execution accounting (src/core/order.rs, and apply_fill of
    src/core/orderbook.rs). Decimals are `real`, counters are unbounded. */
module Orders {

  datatype Option<+T> = None | Some(value: T)

  datatype Side = Buy | Sell

  datatype OrderType = Market | Limit

  datatype OrderState = New | Booked | PartialFill | Filled | Cancelled | Expired | Rejected
  {
    /** Not ended yet. */
    predicate IsActive(): (r: bool)
      ensures r <==> !this.Filled? && !this.Cancelled? && !this.Expired? && !this.Rejected?
    {
      this.New? || this.Booked? || this.PartialFill?
    }
  }

  /** The source's exchange_id strings: decimal numbers for orders, a text built from
      the side and the instrument for quote legs. */
  datatype ExchangeId = Unassigned | Number(n: nat) | QuoteLeg(side: Side, instrument: InstrumentId)

  /** Prices and price-level keys. The engine refuses negative prices at its boundary. */
  type Price = p: real | 0.0 <= p

  type OrderId = nat
  type InstrumentId = nat

  /** (session, client order id): the identity used by every index of the source. */
  type Key = (string, OrderId)

  datatype Order = Order(
    session: string,
    id: OrderId,
    exchange: ExchangeId,
    instrument: InstrumentId,
    side: Side,
    orderType: OrderType,
    price: Price,
    quantity: real,
    remaining: real,
    cum: real,
    avg: real,
    state: OrderState,
    arrival: nat)
  {
    function Key(): Key { (session, id) }

    /** The level an order is filed under while the matcher runs. */
    function EffectivePrice(): Price {
      match orderType
      case Limit => price
      case Market => if side.Buy? then MARKET_BUY_PRICE else 0.0
    }
  }

  const MARKET_BUY_PRICE: Price := 9999999999999.0
  const QUOTE_ORDER_ID: OrderId := 0

  function LimitOrder(session: string, id: OrderId, instrument: InstrumentId, side: Side, price: Price, quantity: real,
                      arrival: nat): Order
  {
    Order(session, id, Unassigned, instrument, side, Limit, price, quantity, quantity, 0.0, 0.0, New, arrival)
  }

  function MarketOrder(session: string, id: OrderId, instrument: InstrumentId, side: Side, quantity: real,
                       arrival: nat): Order
  {
    LimitOrder(session, id, instrument, side, 0.0, quantity, arrival).(orderType := Market)
  }

  function Opposite(side: Side): Side {
    if side.Buy? then Sell else Buy
  }

  function MinReal(a: real, b: real): real {
    if a < b then a else b
  }

  /** One fill of `quantity` at `price`, folded into the order's cumulative quantity and average. */
  function ApplyFill(o: Order, quantity: real, price: real): Order {
    var cum := o.cum + quantity;
    var avg := if cum == 0.0 then 0.0 else (o.avg * o.cum + price * quantity) / cum;
    var remaining := o.remaining - quantity;
    o.(cum := cum, avg := avg, remaining := remaining,
       state := if remaining == 0.0 then Filled else PartialFill)
  }

  /** Equal up to execution progress: fills change nothing else. */
  predicate SameOrder(a: Order, b: Order) {
    a == b.(remaining := a.remaining, cum := a.cum, avg := a.avg, state := a.state)
  }

  /** Total notional executed so far. */
  function Notional(o: Order): real {
    o.avg * o.cum
  }

  /** quantity = remaining + cum, with no figure negative. */
  predicate Balanced(o: Order) {
    o.remaining >= 0.0 && o.cum >= 0.0 && o.avg >= 0.0 && o.quantity == o.remaining + o.cum
  }

  lemma ProductNotNegative(x: real, y: real)
    requires x >= 0.0 && y >= 0.0
    ensures x * y >= 0.0
  {
  }

  lemma QuotientNotNegative(x: real, y: real)
    requires x >= 0.0 && y > 0.0
    ensures x / y >= 0.0
  {
  }

  lemma DivideBack(x: real, y: real)
    requires y != 0.0
    ensures (x / y) * y == x
  {
  }

  /** A fill conserves quantity and notional: nothing is lost in the running average. */
  lemma FillConserves(o: Order, quantity: real, price: real)
    requires Balanced(o) && 0.0 < quantity <= o.remaining && price >= 0.0
    ensures var f := ApplyFill(o, quantity, price);
            && Balanced(f)
            && f.cum == o.cum + quantity
            && Notional(f) == Notional(o) + price * quantity
            && (if f.remaining > 0.0 then f.state.PartialFill? else f.state.Filled?)
            && SameOrder(f, o)
  {
    var spent := o.avg * o.cum + price * quantity;
    DivideBack(spent, o.cum + quantity);
    ProductNotNegative(o.avg, o.cum);
    ProductNotNegative(price, quantity);
    QuotientNotNegative(spent, o.cum + quantity);
  }
}
