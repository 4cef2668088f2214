/** What the public operations of the engine do to the ledger (src/core/exchange/mod.rs). */
module Operations {
  import opened Orders
  import opened Ladders
  import opened Matching
  import opened Filing
  import opened Mirrors
  import opened Fills
  import opened Steps
  import opened Ledgers
  import opened Quoting
  import Trading
  import TierPlans

  datatype NewOrder = NewOrder(id: int, instrument: int, side: Side, orderType: OrderType, price: real, quantity: real)

  const TIERED_MARKET_PRICE: Price := 66.88

  function StatusExecType(state: OrderState): ExecType {
    match state
    case Cancelled => ExecCancelled
    case Rejected => ExecRejected
    case _ => ExecNew
  }

  /** The state after a new order o was accepted. */
  ghost function Created(was: Ledger, o: Order, today: int): (now: Option<Ledger>) {
    if o.session !in was.sessions then None else
    var entered := EnterLedger(was, o, today);
    if was.rules.policy.Real? then
      if !Matchable(entered, o) then None else
      var added := Trading.Add(BookOf(entered.books, o.instrument), o);
      var now := Added(entered, o);
      Some(if added.trades == [] || (added.final.state.Cancelled? && o.orderType.Market?)
           then StatusLedger(now, added.final, added.final.id, StatusExecType(added.final.state), None) else now)
    else if !TierPlans.TierPlan(o.quantity).Plan? then None else
      var rested := RestLedger(entered, o);
      var acked := StatusLedger(rested, RestedState(o), o.id, ExecNew, None);
      Some(FillLedger(acked, RestedState(o), TierPlans.TierPlan(o.quantity).chunks))
  }

  /** The state after `entry` was replaced by o. */
  ghost function Modified(was: Ledger, entry: Order, o: Order, today: int): Option<Ledger> {
    if !(entry.session in was.sessions && o.session == entry.session && entry.exchange.Number?) then None else
    var replaced := ReplaceLedger(was.(books := Taken(was.books, entry)), entry, o, today);
    var orig := Some(entry.id);
    if o.remaining == 0.0 then Some(StatusLedger(replaced, o, o.id, ExecReplaced, orig))
    else if was.rules.policy.Real? then
      var acked := StatusLedger(replaced, o, o.id, ExecReplaced, orig);
      if Matchable(acked, o) then Some(Added(acked, o)) else None
    else if !TierPlans.TierPlan(o.remaining).Plan? then None else
      var acked := StatusLedger(RestLedger(replaced, o), o, o.id, ExecReplaced, orig);
      Some(FillLedger(acked, RestedState(o), TierPlans.TierPlan(o.remaining).chunks))
  }

  /** The ledger after a session's quote on an instrument was withdrawn. */
  ghost function Withdrawn(l: Ledger, s: string, i: InstrumentId): Ledger
    requires s in l.sessions
  {
    l.(books := WithoutQuote(l.books, i, QuoteOf(l.sessions, s, i)), sessions := DropQuote(l.sessions, s, i))
  }

  /** The ledger after both legs of a quote. */
  ghost function Quoted(l: Ledger, s: string, i: InstrumentId, pair: QuotePair): Option<Ledger> {
    var first := PlacedLeg(l, s, i, QuotePair(pair.bid, None), pair.bid);
    if first.None? then None else PlacedLeg(first.value, s, i, pair, pair.ask)
  }

  /** An order as a request makes it. */
  ghost predicate NewlyMade(o: Order) {
    && o.id != QUOTE_ORDER_ID && o.state.New? && o.cum == 0.0 && o.avg == 0.0
    && o.quantity > 0.0 && o.remaining == o.quantity
    && (o.orderType.Limit? ==> o.price > 0.0)
  }

  lemma SoundMatchable(l: Ledger, o: Order)
    requires Sound(l, {o.Key()}) && l.rules.policy.Real? && Addable(l.rules, o)
    ensures Uncrossed(BookOf(l.books, o.instrument)) && o.remaining > 0.0
    ensures Find(SideOf(l.books, o.instrument, o.side), o.EffectivePrice(), o.Key()).None?
    ensures Live(SideOf(l.books, o.instrument, Opposite(o.side)))
    ensures var added := Trading.Add(BookOf(l.books, o.instrument), o);
            Trading.Returned(o, added) == added.final && Presentable(added.final)
  {
    BookUncrossed(l.rules, l.books, o.instrument);
    Trading.UncrossedLive(BookOf(l.books, o.instrument));
    NowhereExempt(l.books, l.sessions, {o.Key()}, o.Key(), o.instrument, Opposite(o.side));
    Trading.ReturnedOwn(BookOf(l.books, o.instrument), o);
    FinalPresents(l.books, o);
    NowhereExempt(l.books, l.sessions, {o.Key()}, o.Key(), o.instrument, o.side);
    FindAbsent(SideOf(l.books, o.instrument, o.side), o.EffectivePrice(), o.Key());
  }
}
