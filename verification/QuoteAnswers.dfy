/** What an accepted quote leaves behind, in the request's own terms (quote of
    src/core/exchange/mod.rs). */
module QuoteAnswers {
  import opened Orders
  import opened Ladders
  import opened Matching
  import opened Filing
  import opened Mirrors
  import opened Fills
  import opened Steps
  import opened Ledgers
  import opened Quoting
  import opened Operations
  import opened Expiry
  import opened Answers
  import Trading

  /** One leg as the request describes it: absent exactly at price zero. */
  predicate LegFor(leg: Option<Order>, s: string, i: InstrumentId, side: Side, price: real, quantity: real,
                   arrival: nat) {
    && (leg.None? <==> price == 0.0)
    && (leg.Some? ==>
          && leg.value.session == s && leg.value.id == 0 && leg.value.instrument == i && leg.value.side == side
          && leg.value.orderType.Limit? && leg.value.price == price && leg.value.quantity == quantity
          && leg.value.remaining == quantity && leg.value.cum == 0.0 && leg.value.avg == 0.0
          && leg.value.exchange == QuoteLeg(side, i) && leg.value.arrival == arrival)
  }

  /** The book of an instrument without the old quote of a session. */
  ghost function WithoutOld(book: Book, s: string): Book {
    Book(Spared(book.bids, {(s, 0)}), Spared(book.asks, {(s, 0)}))
  }

  /** One leg through the matcher; an absent leg changes nothing. */
  ghost predicate LegTraded(was: Book, now: Book, leg: Option<Order>, trades: seq<Trade>) {
    match leg
    case None => now == was && trades == []
    case Some(o) =>
      && o.remaining >= 0.0 && Live(was.On(Opposite(o.side)))
      && now == Trading.Add(was, o).book && trades == Trading.Add(was, o).trades
  }

  /** Both legs, the bid first, on the book without the old quote; a and b are their trades. */
  ghost predicate BothTraded(was: Book, now: Book, s: string, pair: QuotePair, a: seq<Trade>, b: seq<Trade>) {
    exists middle ::
      && LegTraded(WithoutOld(was, s), middle, pair.bid, a)
      && LegTraded(middle, now, pair.ask, b)
  }

  function Count(leg: Option<Order>): nat {
    if leg.Some? then 1 else 0
  }

  /** The quote was replaced: the new pair is recorded and traded, nothing else changes hands. */
  ghost predicate QuoteSet(was: Ledger, now: Ledger, s: string, i: InstrumentId, pair: QuotePair) {
    && s in was.sessions && now.sessions.Keys == was.sessions.Keys
    && now.sessions[s].quotes == was.sessions[s].quotes[i := pair]
    && (forall u :: u in was.sessions && u != s ==> now.sessions[u].quotes == was.sessions[u].quotes)
    && OthersContinue(was.sessions, now.sessions, {})
    && (forall j :: j != i ==> BookOf(now.books, j) == BookOf(was.books, j))
    && (exists a, b ::
          && BothTraded(BookOf(was.books, i), BookOf(now.books, i), s, pair, a, b)
          && now.log == was.log + Reports(a + b, |was.log|))
    && now.dates == was.dates && now.number == was.number + Count(pair.bid) + Count(pair.ask)
    && now.rules.arrivals == was.rules.arrivals + Count(pair.bid) + Count(pair.ask)
  }

  /** What placing one leg does. */
  ghost predicate LegSet(l: Ledger, now: Ledger, s: string, i: InstrumentId, pair: QuotePair, leg: Option<Order>,
                         trades: seq<Trade>) {
    && s in l.sessions && now.sessions == RecordAll(PutQuote(l.sessions, s, i, pair), trades)
    && (forall j :: j != i ==> BookOf(now.books, j) == BookOf(l.books, j))
    && LegTraded(BookOf(l.books, i), BookOf(now.books, i), leg, trades)
    && now.log == l.log + Reports(trades, |l.log|)
    && now.dates == l.dates && now.number == l.number + Count(leg)
    && now.rules.arrivals == l.rules.arrivals + Count(leg)
  }

  lemma PlacedMeans(l: Ledger, s: string, i: InstrumentId, pair: QuotePair, leg: Option<Order>)
    returns (trades: seq<Trade>)
    requires PlacedLeg(l, s, i, pair, leg).Some?
    requires leg.Some? ==> leg.value.instrument == i && leg.value.id == QUOTE_ORDER_ID
    ensures LegSet(l, PlacedLeg(l, s, i, pair, leg).value, s, i, pair, leg, trades)
  {
    match leg
    case None =>
      trades := [];
      assert l.log + [] == l.log;
    case Some(o) =>
      trades := Trading.Add(BookOf(l.books, i), o).trades;
      hide Trading.Add, RecordAll, Reports, Live;
  }

  /** The quotes recorded by two legs in a row, with nobody's terms changed. */
  lemma QuotesRecorded(was: Sessions, middle: Sessions, now: Sessions, s: string, i: InstrumentId, first: QuotePair,
                       pair: QuotePair, a: seq<Trade>, b: seq<Trade>)
    requires s in was && middle == RecordAll(PutQuote(DropQuote(was, s, i), s, i, first), a) && s in middle
    requires now == RecordAll(PutQuote(middle, s, i, pair), b)
    ensures now.Keys == was.Keys && now[s].quotes == was[s].quotes[i := pair]
    ensures forall u :: u in was && u != s ==> now[u].quotes == was[u].quotes
    ensures OthersContinue(was, now, {})
  {
    hide RecordAll, OthersContinue, OthersRest, RecordAt;
    var dropped := DropQuote(was, s, i);
    var start, again := PutQuote(dropped, s, i, first), PutQuote(middle, s, i, pair);
    QuoteOnly(was, s, i, first);
    FillsContinue(start, a);
    QuoteOnly(middle, s, i, pair);
    FillsContinue(again, b);
    assert (was[s].quotes - {i})[i := first][i := pair] == was[s].quotes[i := pair];
    ContinueTwice(was, start, middle, again, now);
  }

  lemma ContinueTwice(a: Sessions, b: Sessions, c: Sessions, d: Sessions, e: Sessions)
    requires OthersRest(a, b, {}) && OthersContinue(b, c, {}) && OthersRest(c, d, {}) && OthersContinue(d, e, {})
    ensures OthersContinue(a, e, {})
  {
    hide RecordAt;
  }

  /** Recording or dropping a quote touches no order. */
  lemma QuoteOnly(sessions: Sessions, s: string, i: InstrumentId, pair: QuotePair)
    requires s in sessions
    ensures OthersRest(sessions, PutQuote(sessions, s, i, pair), {})
    ensures OthersRest(sessions, PutQuote(DropQuote(sessions, s, i), s, i, pair), {})
  {
  }

  /** Withdrawing takes exactly the quote's entries off the book. */
  lemma WithdrawnBook(l: Ledger, s: string, i: InstrumentId)
    requires Sound(l, {}) && s in l.sessions && i in l.instruments
    ensures var now := Withdrawn(l, s, i);
            && BookOf(now.books, i) == WithoutOld(BookOf(l.books, i), s)
            && (forall j :: j != i ==> BookOf(now.books, j) == BookOf(l.books, j))
  {
    var pair := QuoteOf(l.sessions, s, i);
    assert i in l.sessions[s].quotes ==> PairOk(s, i, pair);
    assert pair.Leg(Buy) == pair.bid && pair.Leg(Sell) == pair.ask;
    SideGone(l, s, i, Buy);
    SideGone(l, s, i, Sell);
    hide Sound, Spared, Without;
    WithoutLegSides(l.books, i, s, Buy, pair.bid);
    WithoutLegSides(WithoutLeg(l.books, i, pair.bid), i, s, Sell, pair.ask);
  }

  lemma SideGone(l: Ledger, s: string, i: InstrumentId, side: Side)
    requires Sound(l, {}) && s in l.sessions
    ensures var leg, was := QuoteOf(l.sessions, s, i).Leg(side), SideOf(l.books, i, side);
            (if leg.Some? then Without(was, leg.value.price, (s, QUOTE_ORDER_ID)) else was) == Spared(was, {(s, 0)})
  {
    var leg, was := QuoteOf(l.sessions, s, i).Leg(side), SideOf(l.books, i, side);
    LegGoneSide(l, s, i, side);
    SideOfOk(l.rules, l.books, i, side);
    hide Sound;
    if leg.Some? && Find(was, leg.value.price, (s, QUOTE_ORDER_ID)).Some? {
      WithoutSpares(was, leg.value.price, (s, QUOTE_ORDER_ID));
    } else {
      if leg.Some? {
        WithoutMiss(was, leg.value.price, (s, QUOTE_ORDER_ID));
      }
      SparedNone(was, {(s, 0)});
    }
  }

  /** The whole effect of a quote. */
  lemma QuotedMeans(was: Ledger, s: string, i: InstrumentId, pair: QuotePair)
    requires Sound(was, {}) && s in was.sessions && i in was.instruments
    requires Quoted(Withdrawn(was, s, i), s, i, pair).Some?
    requires pair.bid.Some? ==> pair.bid.value.instrument == i && pair.bid.value.id == QUOTE_ORDER_ID
    requires pair.ask.Some? ==> pair.ask.value.instrument == i && pair.ask.value.id == QUOTE_ORDER_ID
    ensures QuoteSet(was, Quoted(Withdrawn(was, s, i), s, i, pair).value, s, i, pair)
  {
    hide Sound, PlacedLeg, RecordAll, Reports, LegTraded;
    var w, first := Withdrawn(was, s, i), QuotePair(pair.bid, None);
    WithdrawnBook(was, s, i);
    var a := PlacedMeans(w, s, i, first, pair.bid);
    var middle := PlacedLeg(w, s, i, first, pair.bid).value;
    var b := PlacedMeans(middle, s, i, pair, pair.ask);
    var now := Quoted(w, s, i, pair).value;
    QuotesRecorded(was.sessions, middle.sessions, now.sessions, s, i, first, pair, a, b);
    ReportsJoin(was.log, a, b);
    assert BothTraded(BookOf(was.books, i), BookOf(now.books, i), s, pair, a, b);
    hide BothTraded, OthersContinue;
  }

  lemma ReportsJoin(log: seq<Report>, a: seq<Trade>, b: seq<Trade>)
    ensures var first := log + Reports(a, |log|);
            first + Reports(b, |first|) == log + Reports(a + b, |log|)
  {
    ReportsShape(a, |log|);
    ReportsAppend(a, b, |log|);
    hide Reports;
  }

  /** A quote request was accepted: its two legs are the session's quote on the instrument, the bid the
      earlier one, and were traded in that order. */
  ghost predicate QuoteStands(was: Ledger, now: Ledger, s: string, i: InstrumentId, bidPrice: real, bidQuantity: real,
                              askPrice: real, askQuantity: real) {
    && s in now.sessions && i in now.sessions[s].quotes
    && var pair, last := now.sessions[s].quotes[i], was.rules.arrivals;
       && LegFor(pair.bid, s, i, Buy, bidPrice, bidQuantity, last + 1)
       && LegFor(pair.ask, s, i, Sell, askPrice, askQuantity, last + 1 + Count(pair.bid))
       && QuoteSet(was, now, s, i, pair)
  }
}
