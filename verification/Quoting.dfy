/** Quotes and departures: the ledger changes of quote, session_disconnect and
    expire_day_orders_at (src/core/exchange/mod.rs). */
module Quoting {
  import opened Orders
  import opened Collections
  import opened Ladders
  import opened Matching
  import opened Filing
  import opened Mirrors
  import opened Fills
  import opened Steps
  import opened MarketData
  import opened Ledgers
  import Books
  import Trading

  // ---------------------------------------------------------------- withdrawing a quote

  /** Take one recorded leg off the book, if anything of it is left there. */
  function WithoutLeg(books: BookMap, i: InstrumentId, leg: Option<Order>): BookMap {
    match leg
    case None => books
    case Some(o) =>
      match Books.Remove(BookOf(books, i), o.Key(), o.side, o.price)
      case Done(book, _) => books[i := book]
      case Refused(_) => books
  }

  const NO_QUOTE := QuotePair(None, None)

  function QuoteOf(sessions: Sessions, s: string, i: InstrumentId): QuotePair
    requires s in sessions
  {
    if i in sessions[s].quotes then sessions[s].quotes[i] else NO_QUOTE
  }

  function WithoutQuote(books: BookMap, i: InstrumentId, pair: QuotePair): BookMap {
    WithoutLeg(WithoutLeg(books, i, pair.bid), i, pair.ask)
  }

  lemma WithoutLegSides(books: BookMap, i: InstrumentId, s: string, side: Side, leg: Option<Order>)
    requires leg.Some? ==> LegOk(s, i, side, leg.value)
    ensures SideOf(WithoutLeg(books, i, leg), i, side)
         == if leg.Some? then Without(SideOf(books, i, side), leg.value.price, (s, QUOTE_ORDER_ID))
            else SideOf(books, i, side)
    ensures SideOf(WithoutLeg(books, i, leg), i, Opposite(side)) == SideOf(books, i, Opposite(side))
  {
    if leg.Some? {
      var was := SideOf(books, i, side);
      if Find(was, leg.value.price, (s, QUOTE_ORDER_ID)).None? {
        WithoutMiss(was, leg.value.price, (s, QUOTE_ORDER_ID));
      }
    }
  }

  lemma SoundWithoutLeg(l: Ledger, i: InstrumentId, s: string, side: Side, leg: Option<Order>)
    requires Sound(l, {}) && i in l.instruments && (leg.Some? ==> LegOk(s, i, side, leg.value))
    ensures Sound(l.(books := WithoutLeg(l.books, i, leg)), {})
  {
    if leg.Some? {
      var o := leg.value;
      var was := SideOf(l.books, i, side);
      if Find(was, o.price, o.Key()).Some? {
        Found(was, o.price, o.Key());
        MirrorQuoteRemove(l.rules, l.books, l.sessions, i, side, o.price, o.Key());
        WithoutOk(l.rules, l.books, i, side, o.price, o.Key());
        assert WithoutLeg(l.books, i, leg) == PutSide(l.books, i, side, Without(was, o.price, o.Key()));
      }
    }
  }

  /** After withdrawal nothing of the quote rests, and its record can go. */
  lemma SoundWithdraw(l: Ledger, s: string, i: InstrumentId)
    requires Sound(l, {}) && s in l.sessions && i in l.instruments
    ensures var books := WithoutQuote(l.books, i, QuoteOf(l.sessions, s, i));
            && (forall side :: Absent(SideOf(books, i, side), (s, QUOTE_ORDER_ID)))
            && Sound(l.(books := books, sessions := DropQuote(l.sessions, s, i)), {})
  {
    var pair := QuoteOf(l.sessions, s, i);
    assert i in l.sessions[s].quotes ==> PairOk(s, i, pair);
    assert pair.Leg(Buy) == pair.bid && pair.Leg(Sell) == pair.ask;
    hide Sound, Absent;
    SoundWithoutLeg(l, i, s, Buy, pair.bid);
    var l1 := l.(books := WithoutLeg(l.books, i, pair.bid));
    SoundWithoutLeg(l1, i, s, Sell, pair.ask);
    var l2 := l1.(books := WithoutLeg(l1.books, i, pair.ask));
    WithoutLegSides(l.books, i, s, Buy, pair.bid);
    WithoutLegSides(l1.books, i, s, Sell, pair.ask);
    LegGoneSide(l, s, i, Buy);
    LegGoneSide(l, s, i, Sell);
    SoundDropQuote(l2, s, i);
  }

  lemma LegGoneSide(l: Ledger, s: string, i: InstrumentId, side: Side)
    requires Sound(l, {}) && s in l.sessions
    ensures var leg, was := QuoteOf(l.sessions, s, i).Leg(side), SideOf(l.books, i, side);
            Absent(if leg.Some? then Without(was, leg.value.price, (s, QUOTE_ORDER_ID)) else was, (s, QUOTE_ORDER_ID))
  {
    LegsFit(l.rules, l.books, l.sessions, s, i, side);
    SideOfOk(l.rules, l.books, i, side);
    assert forall e :: e in SideOf(l.books, i, side) ==> EntryOk(l.rules, i, side, e);
    LegGone(SideOf(l.books, i, side), (s, QUOTE_ORDER_ID), QuoteOf(l.sessions, s, i).Leg(side));
  }

  lemma SoundDropQuote(l: Ledger, s: string, i: InstrumentId)
    requires Sound(l, {}) && s in l.sessions
    requires Absent(SideOf(l.books, i, Buy), (s, QUOTE_ORDER_ID))
    requires Absent(SideOf(l.books, i, Sell), (s, QUOTE_ORDER_ID))
    ensures Sound(l.(sessions := DropQuote(l.sessions, s, i)), {})
  {
    MirrorQuoteDrop(l.rules, l.books, l.sessions, s, i);
    var after := DropQuote(l.sessions, s, i);
    SameRecords(l, after);
    forall u, j | u in after && j in after[u].quotes ensures j in l.instruments && PairOk(u, j, after[u].quotes[j]) {
      assert j in l.sessions[u].quotes;
    }
  }

  /** Sessions with the same records keep what is said about records. */
  lemma SameRecords(l: Ledger, after: Sessions)
    requires Sound(l, {}) && after.Keys == l.sessions.Keys
    requires forall u :: u in after ==> after[u].orders == l.sessions[u].orders
    ensures Accounting(after, l.owner, l.log) && Dated(after, l.dates)
    ensures forall u, id :: u in after && id in after[u].orders ==> after[u].orders[id].instrument in l.instruments
  {
    forall u, id | u in after && id in after[u].orders
      ensures var r := after[u].orders[id];
              && Accounted(r, l.log) && r.exchange.n in l.owner && l.owner[r.exchange.n] == (u, id)
              && r.instrument in l.instruments
    {
      assert id in l.sessions[u].orders;
    }
  }

  // ---------------------------------------------------------------- placing a quote

  lemma SoundPutQuote(l: Ledger, s: string, i: InstrumentId, pair: QuotePair)
    requires Sound(l, {}) && s in l.sessions && i in l.instruments && PairOk(s, i, pair) && l.rules.policy.Real?
    requires LegFits(SideOf(l.books, i, Buy), (s, QUOTE_ORDER_ID), pair.bid)
    requires LegFits(SideOf(l.books, i, Sell), (s, QUOTE_ORDER_ID), pair.ask)
    ensures Sound(l.(sessions := PutQuote(l.sessions, s, i, pair)), {})
  {
    MirrorQuotePut(l.rules, l.books, l.sessions, s, i, pair);
    var after := PutQuote(l.sessions, s, i, pair);
    SameRecords(l, after);
    forall u, j | u in after && j in after[u].quotes ensures j in l.instruments && PairOk(u, j, after[u].quotes[j]) {
      assert (u == s && j == i) || j in l.sessions[u].quotes;
    }
  }

  /** New numbers and arrivals for a leg. */
  function Stamped(l: Ledger): Ledger {
    l.(rules := l.rules.(arrivals := l.rules.arrivals + 1), number := l.number + 1)
  }

  lemma SoundStamped(l: Ledger)
    requires Sound(l, {})
    ensures Sound(Stamped(l), {})
    ensures forall i, side, e :: e in SideOf(l.books, i, side) ==> e.order.arrival <= l.rules.arrivals
  {
    ArrivalsGrow(l.rules, l.books, l.rules.arrivals + 1);
    forall i, side, e | e in SideOf(l.books, i, side) ensures e.order.arrival <= l.rules.arrivals {
      SideOfOk(l.rules, l.books, i, side);
      assert EntryOk(l.rules, i, side, e);
    }
  }

  /** A leg of a quote just recorded goes through the matcher. */
  lemma SoundAddLeg(l: Ledger, o: Order)
    requires Sound(l, {}) && l.rules.policy.Real? && o.instrument in l.instruments
    requires Addable(l.rules, o) && o.id == QUOTE_ORDER_ID && Mirrored(o, l.sessions)
    requires Absent(SideOf(l.books, o.instrument, o.side), o.Key()) && Latest(o, l.books)
    ensures Live(SideOf(l.books, o.instrument, Opposite(o.side))) && o.session in l.sessions
    ensures Sound(Added(l, o), {})
    ensures forall t :: t in Trading.Add(BookOf(l.books, o.instrument), o).trades ==> Sided(t, o.instrument)
  {
    AddQuoteLeg(l.rules, l.books, l.sessions, l.owner, l.log, o, |l.log|);
    SoundAddRest(l, {}, o);
  }

  /** Folding the reports of two legs is folding all of them, whatever quote is recorded meanwhile. */
  lemma TwoLegs(sessions: Sessions, s: string, i: InstrumentId, first: QuotePair, both: QuotePair, a: seq<Trade>,
                b: seq<Trade>)
    requires s in sessions
    ensures var one := RecordAll(PutQuote(sessions, s, i, first), a);
            && s in one
            && RecordAll(PutQuote(one, s, i, both), b) == RecordAll(PutQuote(sessions, s, i, both), a + b)
  {
    RecordAllPutQuote(sessions, a, s, i, first);
    RecordAllPutQuote(sessions, a, s, i, both);
    RecordAllAppend(PutQuote(sessions, s, i, both), a, b);
    var x := RecordAll(sessions, a);
    assert x[s].quotes[i := first][i := both] == x[s].quotes[i := both];
    assert PutQuote(PutQuote(x, s, i, first), s, i, both) == PutQuote(x, s, i, both);
  }

  // ---------------------------------------------------------------- departures

  /** An ended order rests nowhere, so its record can go. */
  lemma SoundDropEnded(l: Ledger, r: Order)
    requires Sound(l, {}) && RecordAt(l.sessions, r.Key()) == Some(r) && !r.state.IsActive()
    ensures Find(SideOf(l.books, r.instrument, r.side), r.price, r.Key()).None?
    ensures Sound(l.(sessions := DropRecord(l.sessions, r.Key())), {})
  {
    assert RecordOk((r.session, r.id), l.sessions[r.session].orders[r.id], l.books);
    forall i, side, e | i in l.books && e in l.books[i].On(side) ensures e.Key() != r.Key() {
      assert Mirrored(e.order, l.sessions);
      SideOfOk(l.rules, l.books, i, side);
      assert e in SideOf(l.books, i, side) && EntryOk(l.rules, i, side, e);
    }
    assert Absent(SideOf(l.books, r.instrument, r.side), r.Key());
    FindAbsent(SideOf(l.books, r.instrument, r.side), r.price, r.Key());
    assert Mirror(l.books, l.sessions, {r.Key()});
    SoundForget(l, r.Key());
  }

  /** A session with nothing left can go, and takes its dates along. */
  lemma SoundLeave(l: Ledger, s: string, dates: Dates)
    requires Sound(l, {}) && s in l.sessions && l.sessions[s] == Session(map[], map[])
    requires forall k :: k in l.dates && k.0 != s ==> k in dates
    ensures Sound(l.(sessions := l.sessions - {s}, dates := dates), {})
    ensures forall i, side, e :: e in SideOf(l.books, i, side) ==> e.order.session != s
  {
    var after := l.sessions - {s};
    forall i, side, e | e in SideOf(l.books, i, side) ensures e.order.session != s && Mirrored(e.order, after) {
      assert i in l.books && e in l.books[i].On(side);
      assert Mirrored(e.order, l.sessions);
    }
    forall i, side, e | i in l.books && e in l.books[i].On(side) ensures Mirrored(e.order, after) {
      assert e in SideOf(l.books, i, side);
    }
    forall u, id | u in after && id in after[u].orders
      ensures var r := after[u].orders[id];
              && RecordOk((u, id), r, l.books) && Accounted(r, l.log) && r.instrument in l.instruments
              && r.exchange.n in l.owner && l.owner[r.exchange.n] == (u, id)
              && (r.state.IsActive() ==> (u, id) in dates)
    {
      assert u in l.sessions && id in l.sessions[u].orders;
    }
  }

  /** A session registered anew starts with nothing. */
  lemma SoundRegister(l: Ledger, s: string)
    requires Sound(l, {}) && s !in l.sessions
    ensures Sound(l.(sessions := l.sessions[s := Session(map[], map[])]), {})
  {
    var after := l.sessions[s := Session(map[], map[])];
    forall i, side, e | i in l.books && e in l.books[i].On(side) ensures Mirrored(e.order, after) {
      assert Mirrored(e.order, l.sessions);
    }
    forall u, id | u in after && id in after[u].orders
      ensures var r := after[u].orders[id];
              && RecordOk((u, id), r, l.books) && Accounted(r, l.log) && r.instrument in l.instruments
              && r.exchange.n in l.owner && l.owner[r.exchange.n] == (u, id)
              && (r.state.IsActive() ==> (u, id) in l.dates)
    {
      assert u in l.sessions && id in l.sessions[u].orders;
    }
    forall u, j | u in after && j in after[u].quotes ensures j in l.instruments && PairOk(u, j, after[u].quotes[j]) {
      assert u in l.sessions && j in l.sessions[u].quotes;
    }
  }

  /** A date nobody active needs can go. */
  lemma SoundUndate(l: Ledger, key: Key)
    requires Sound(l, {}) && (RecordAt(l.sessions, key).Some? ==> !RecordAt(l.sessions, key).value.state.IsActive())
    ensures Sound(l.(dates := l.dates - {key}), {})
  {
    forall u, id | u in l.sessions && id in l.sessions[u].orders && l.sessions[u].orders[id].state.IsActive()
      ensures (u, id) in l.dates - {key}
    {
    }
  }

  /** The orders of everybody else, in their order. */
  function Others(s: seq<Resting>, session: string): seq<Resting> {
    if s == [] then []
    else if s[0].order.session == session then Others(s[1..], session)
    else [s[0]] + Others(s[1..], session)
  }

  /** Everybody else's orders and nobody else's. */
  lemma {:induction false} OthersMeans(s: seq<Resting>, session: string)
    ensures forall e :: e in Others(s, session) <==> e in s && e.order.session != session
  {
    if s != [] {
      OthersMeans(s[1..], session);
      assert s == [s[0]] + s[1..];
    }
  }

  lemma {:induction false} OthersWithout(s: seq<Resting>, session: string, price: Price, key: Key)
    requires key.0 == session
    ensures Others(Without(s, price, key), session) == Others(s, session)
  {
    if s != [] && !s[0].At(price, key) {
      OthersWithout(s[1..], session, price, key);
    }
  }

  lemma {:induction false} OthersAll(s: seq<Resting>, session: string)
    requires forall e :: e in s ==> e.order.session != session
    ensures Others(s, session) == s
  {
    if s != [] {
      assert s[0] in s;
      OthersAll(s[1..], session);
    }
  }

  /** A side without a recorded leg holds nothing of the quote. */
  lemma NoLegNothing(l: Ledger, s: string, i: InstrumentId, side: Side)
    requires Sound(l, {}) && s in l.sessions && QuoteOf(l.sessions, s, i).Leg(side).None?
    ensures Absent(SideOf(l.books, i, side), (s, QUOTE_ORDER_ID))
  {
    LegsFit(l.rules, l.books, l.sessions, s, i, side);
  }

  /** A leg is never completed against the session's own opposite leg in the wrong direction: the bid
      is placed before there is an ask. So the state add reports for it is its own. */
  lemma LegReturned(l: Ledger, o: Order)
    requires Sound(l, {}) && o.session in l.sessions && o.id == QUOTE_ORDER_ID && o.remaining > 0.0
    requires Live(SideOf(l.books, o.instrument, Opposite(o.side)))
    requires o.side.Sell? || QuoteOf(l.sessions, o.session, o.instrument).Leg(Sell).None?
    ensures var added := Trading.Add(BookOf(l.books, o.instrument), o); Trading.Returned(o, added) == added.final
  {
    if o.side.Buy? {
      NoLegNothing(l, o.session, o.instrument, Sell);
    }
    Trading.ReturnedOwn(BookOf(l.books, o.instrument), o);
  }

  /** The matcher can be run on the ledger's book. */
  ghost predicate Matchable(l: Ledger, o: Order) {
    o.remaining >= 0.0 && Live(SideOf(l.books, o.instrument, Opposite(o.side))) && o.session in l.sessions
  }

  /** Record the quote, then run its new leg through the matcher. */
  ghost function PlacedLeg(l: Ledger, s: string, i: InstrumentId, pair: QuotePair, leg: Option<Order>): Option<Ledger> {
    if s !in l.sessions then None else
    var sessions := PutQuote(l.sessions, s, i, pair);
    match leg
    case None => Some(l.(sessions := sessions))
    case Some(o) =>
      var ready := Stamped(l).(sessions := sessions);
      if Matchable(ready, o) then Some(Added(ready, o)) else None
  }

  /** A leg as a quote request makes it. */
  ghost predicate LegMade(l: Ledger, s: string, i: InstrumentId, side: Side, o: Order) {
    && LegOk(s, i, side, o) && o.orderType.Limit? && o.exchange == QuoteLeg(side, i)
    && o.price > 0.0 && o.quantity > 0.0 && o.remaining == o.quantity && o.cum == 0.0 && o.avg == 0.0
    && o.arrival == l.rules.arrivals + 1
  }

  /** Replacing the recorded quote by one that keeps the other leg. */
  lemma SoundExtendQuote(l: Ledger, s: string, i: InstrumentId, side: Side, pair: QuotePair)
    requires Sound(l, {}) && l.rules.policy.Real? && s in l.sessions && i in l.instruments && PairOk(s, i, pair)
    requires QuoteOf(l.sessions, s, i).Leg(side).None?
    requires pair.Leg(Opposite(side)) == QuoteOf(l.sessions, s, i).Leg(Opposite(side))
    ensures Sound(l.(sessions := PutQuote(l.sessions, s, i, pair)), {})
    ensures Absent(SideOf(l.books, i, side), (s, QUOTE_ORDER_ID))
  {
    NoLegNothing(l, s, i, side);
    LegsFit(l.rules, l.books, l.sessions, s, i, Opposite(side));
    hide Sound;
    SoundPutQuote(l, s, i, pair);
  }

  /** What OrderBook.Add asks for. */
  ghost predicate AddReady(books: BookMap, o: Order) {
    && Uncrossed(BookOf(books, o.instrument)) && o.remaining > 0.0
    && Latest(o, books)
    && Find(SideOf(books, o.instrument, o.side), o.EffectivePrice(), o.Key()).None?
    && Live(SideOf(books, o.instrument, Opposite(o.side)))
  }

  lemma SoundPlacedLeg(l: Ledger, s: string, i: InstrumentId, side: Side, pair: QuotePair,
                       o: Order) returns (now: Ledger)
    requires Sound(l, {}) && l.rules.policy.Real? && s in l.sessions && i in l.instruments && PairOk(s, i, pair)
    requires QuoteOf(l.sessions, s, i).Leg(side).None? && pair.Leg(side) == Some(o) && LegMade(l, s, i, side, o)
    requires pair.Leg(Opposite(side)) == QuoteOf(l.sessions, s, i).Leg(Opposite(side))
    ensures AddReady(l.books, o) && PlacedLeg(l, s, i, pair, Some(o)) == Some(now)
    ensures Sound(now, {}) && s in now.sessions && QuoteOf(now.sessions, s, i) == pair
    ensures forall t :: t in Trading.Add(BookOf(l.books, i), o).trades ==> Sided(t, i)
  {
    SoundStamped(l);
    BookUncrossed(l.rules, l.books, i);
    var stamped := Stamped(l);
    var ready := stamped.(sessions := PutQuote(l.sessions, s, i, pair));
    hide Sound, Uncrossed;
    SoundExtendQuote(stamped, s, i, side, pair);
    SoundAddLeg(ready, o);
    RecordAllQuotes(ready.sessions, Trading.Add(BookOf(l.books, i), o).trades);
    FindAbsent(SideOf(l.books, i, side), o.EffectivePrice(), o.Key());
    now := Added(ready, o);
  }

  function WithLeg(pair: QuotePair, side: Side, leg: Option<Order>): QuotePair {
    if side.Buy? then pair.(bid := leg) else pair.(ask := leg)
  }

  /** A ledger whose quote has a new leg on one side: what the leg's trades changed. */
  ghost predicate LegStep(l: Ledger, s: string, i: InstrumentId, side: Side, leg: Option<Order>, trades: seq<Trade>,
                          now: Ledger) {
    && s in l.sessions && s in now.sessions
    && var pair := WithLeg(QuoteOf(l.sessions, s, i), side, leg);
       && PlacedLeg(l, s, i, pair, leg) == Some(now) && QuoteOf(now.sessions, s, i) == pair
       && now.sessions == RecordAll(PutQuote(l.sessions, s, i, pair), trades)
       && now.log == l.log + Reports(trades, |l.log|)
       && now.owner == l.owner && now.dates == l.dates && now.instruments == l.instruments
  }

  lemma LegStepSkipped(l: Ledger, s: string, i: InstrumentId, side: Side) returns (now: Ledger)
    requires Sound(l, {}) && l.rules.policy.Real? && s in l.sessions && i in l.instruments
    requires QuoteOf(l.sessions, s, i).Leg(side).None?
    ensures LegStep(l, s, i, side, None, [], now) && Sound(now, {})
    ensures now.books == l.books && now.rules == l.rules && now.number == l.number
  {
    var pair := QuoteOf(l.sessions, s, i);
    assert PairOk(s, i, pair);
    hide Sound;
    SoundExtendQuote(l, s, i, side, pair);
    now := l.(sessions := PutQuote(l.sessions, s, i, pair));
    assert l.log + [] == l.log;
  }

  lemma LegStepPlaced(l: Ledger, s: string, i: InstrumentId, side: Side, o: Order, now: Ledger)
    requires s in l.sessions && QuoteOf(l.sessions, s, i).Leg(side).None? && o.id == QUOTE_ORDER_ID && o.instrument == i
    requires var pair := WithLeg(QuoteOf(l.sessions, s, i), side, Some(o));
             && PlacedLeg(l, s, i, pair, Some(o)) == Some(now)
             && s in now.sessions && QuoteOf(now.sessions, s, i) == pair
    ensures Live(SideOf(l.books, i, Opposite(o.side))) && o.remaining >= 0.0
    ensures LegStep(l, s, i, side, Some(o), Trading.Add(BookOf(l.books, i), o).trades, now)
    ensures now.rules == Stamped(l).rules && now.number == l.number + 1
  {
  }

  lemma PairWith(l: Ledger, s: string, i: InstrumentId, side: Side, o: Order)
    requires Sound(l, {}) && s in l.sessions && LegOk(s, i, side, o)
    ensures PairOk(s, i, WithLeg(QuoteOf(l.sessions, s, i), side, Some(o)))
  {
    var pair := QuoteOf(l.sessions, s, i);
    assert PairOk(s, i, pair) by {
      assert Known(l.instruments, l.sessions);
      if i in l.sessions[s].quotes {
        assert i in l.instruments;
        assert PairOk(s, i, l.sessions[s].quotes[i]);
      }
    }
    var extended := WithLeg(pair, side, Some(o));
    assert extended.Leg(side) == Some(o) && extended.Leg(Opposite(side)) == pair.Leg(Opposite(side));
    forall d | extended.Leg(d).Some? ensures LegOk(s, i, d, extended.Leg(d).value) {
      if d != side {
        assert d == Opposite(side);
      }
    }
  }

  /** Two legs together: what the engine holds once the quote is recorded and all fills reported. */
  lemma BothLegs(l: Ledger, s: string, i: InstrumentId, bid: Option<Order>, a: seq<Trade>, l1: Ledger,
                 ask: Option<Order>, b: seq<Trade>, l2: Ledger)
    requires s in l.sessions && QuoteOf(l.sessions, s, i) == NO_QUOTE
    requires LegStep(l, s, i, Buy, bid, a, l1) && LegStep(l1, s, i, Sell, ask, b, l2)
    ensures l2.sessions == RecordAll(PutQuote(l.sessions, s, i, QuotePair(bid, ask)), a + b)
    ensures l2.log == l.log + Reports(a + b, |l.log|)
  {
    hide PlacedLeg, RecordAll, Reports;
    TwoLegs(l.sessions, s, i, QuotePair(bid, None), QuotePair(bid, ask), a, b);
    ReportsShape(a, |l.log|);
    ReportsAppend(a, b, |l.log|);
    Assoc(l.log, Reports(a, |l.log|), Reports(b, |l1.log|));
  }

  // ---------------------------------------------------------------- disconnecting

  /** The ledger with only part of one session's orders and quotes left. */
  ghost function Shrunk(l: Ledger, books: BookMap, s: string, orders: map<OrderId, Order>,
                        quotes: map<InstrumentId, QuotePair>)
    : Ledger
  {
    l.(books := books, sessions := l.sessions[s := Session(orders, quotes)])
  }

  /** Everybody else's orders are where they were. */
  ghost predicate OthersKept(was: BookMap, now: BookMap, session: string) {
    forall i, side :: Others(SideOf(now, i, side), session) == Others(SideOf(was, i, side), session)
  }

  function AfterRemove(books: BookMap, o: Order): BookMap {
    match Books.Remove(BookOf(books, o.instrument), o.Key(), o.side, o.price)
    case Done(book, _) => books[o.instrument := book]
    case Refused(_) => books
  }

  lemma OthersRemove(books: BookMap, o: Order)
    ensures OthersKept(books, AfterRemove(books, o), o.session)
  {
    forall i, side
      ensures Others(SideOf(AfterRemove(books, o), i, side), o.session) == Others(SideOf(books, i, side), o.session)
    {
      if i == o.instrument && side == o.side {
        OthersWithout(SideOf(books, i, side), o.session, o.price, o.Key());
      }
    }
  }

  lemma OthersTrans(a: BookMap, b: BookMap, c: BookMap, session: string)
    requires OthersKept(a, b, session) && OthersKept(b, c, session)
    ensures OthersKept(a, c, session)
  {
  }

  /** Dropping one order of the departing session. */
  lemma SoundShrinkOrder(l: Ledger, books: BookMap, s: string, orders: map<OrderId, Order>,
                         quotes: map<InstrumentId, QuotePair>, id: OrderId)
    requires Sound(Shrunk(l, books, s, orders, quotes), {}) && id in orders
    ensures orders[id].instrument in l.instruments && orders[id].Key() == (s, id)
    ensures Sound(Shrunk(l, AfterRemove(books, orders[id]), s, orders - {id}, quotes), {})
    ensures OthersKept(books, AfterRemove(books, orders[id]), s)
  {
    var now, r := Shrunk(l, books, s, orders, quotes), orders[id];
    SoundRecord(now, {}, (s, id));
    OthersRemove(books, r);
    hide Sound;
    assert DropRecord(now.sessions, r.Key()) == l.sessions[s := Session(orders - {id}, quotes)];
    if r.state.IsActive() {
      SoundTake(now, r);
      assert AfterRemove(books, r) == Taken(books, r);
      SoundForget(now.(books := Taken(books, r)), r.Key());
    } else {
      SoundDropEnded(now, r);
    }
  }

  lemma OthersWithdraw(books: BookMap, i: InstrumentId, s: string, pair: QuotePair)
    requires PairOk(s, i, pair)
    ensures OthersKept(books, WithoutQuote(books, i, pair), s)
  {
    assert pair.Leg(Buy) == pair.bid && pair.Leg(Sell) == pair.ask;
    var middle := WithoutLeg(books, i, pair.bid);
    if pair.bid.Some? {
      OthersRemove(books, pair.bid.value);
    }
    if pair.ask.Some? {
      OthersRemove(middle, pair.ask.value);
    }
    OthersTrans(books, middle, WithoutQuote(books, i, pair), s);
  }

  /** Dropping one quote of the departing session. */
  lemma SoundShrinkQuote(l: Ledger, books: BookMap, s: string, orders: map<OrderId, Order>,
                         quotes: map<InstrumentId, QuotePair>, i: InstrumentId)
    requires Sound(Shrunk(l, books, s, orders, quotes), {}) && i in quotes
    ensures i in l.instruments
    ensures Sound(Shrunk(l, WithoutQuote(books, i, quotes[i]), s, orders, quotes - {i}), {})
    ensures OthersKept(books, WithoutQuote(books, i, quotes[i]), s)
  {
    var now := Shrunk(l, books, s, orders, quotes);
    assert i in now.sessions[s].quotes && i in now.instruments;
    assert PairOk(s, i, now.sessions[s].quotes[i]);
    OthersWithdraw(books, i, s, quotes[i]);
    hide Sound;
    SoundWithdraw(now, s, i);
    assert DropQuote(now.sessions, s, i) == l.sessions[s := Session(orders, quotes - {i})];
  }

  /** The dates of everybody else's orders. */
  function DatesWithout(dates: Dates, session: string): Dates {
    map k | k in dates && k.0 != session :: dates[k]
  }

  lemma DatesKept(dates: Dates, session: string)
    ensures forall k ::
              && (k in DatesWithout(dates, session) <==> k in dates && k.0 != session)
              && (k in DatesWithout(dates, session) ==> DatesWithout(dates, session)[k] == dates[k])
  {
  }

  /** A session with nothing left on the books is gone. */
  lemma SoundLeft(l: Ledger, books: BookMap, s: string)
    requires Sound(Shrunk(l, books, s, map[], map[]), {})
    ensures Sound(l.(books := books, sessions := l.sessions - {s}, dates := DatesWithout(l.dates, s)), {})
    ensures forall i, side, e :: e in SideOf(books, i, side) ==> e.order.session != s
  {
    hide Sound;
    SoundLeave(Shrunk(l, books, s, map[], map[]), s, DatesWithout(l.dates, s));
    assert l.sessions[s := Session(map[], map[])] - {s} == l.sessions - {s};
  }

  /** A booked regular order is dated, so once nothing is overdue no booked order is. */
  lemma BookedDated(l: Ledger, i: InstrumentId, side: Side, e: Resting)
    requires Sound(l, {}) && e in SideOf(l.books, i, side) && e.order.id != QUOTE_ORDER_ID
    ensures e.Key() in l.dates
  {
    SweptDated(l.rules, l.books, l.sessions, l.dates, {}, i, side, e);
  }
}
