/** Side conditions the engine keeps about its sessions: instruments are registered, active orders
    are dated, tiered sessions hold no quotes, and report ids count up (src/core/exchange/mod.rs). */
module Ledgers {
  import opened Orders
  import opened Ladders
  import opened Matching
  import opened Filing
  import opened Mirrors
  import opened Fills
  import opened Steps
  import opened MarketData
  import Books
  import TierPlans
  import Trading

  type Dates = map<Key, int>

  // ---------------------------------------------------------------- registered instruments

  ghost predicate Known(instruments: set<InstrumentId>, sessions: Sessions) {
    && (forall s, id :: s in sessions && id in sessions[s].orders ==> sessions[s].orders[id].instrument in instruments)
    && (forall s, i :: s in sessions && i in sessions[s].quotes ==>
          i in instruments && PairOk(s, i, sessions[s].quotes[i]))
  }

  /** The legs of a recorded quote are on their own sides, under the quote id of their session. */
  ghost predicate PairOk(s: string, i: InstrumentId, pair: QuotePair) {
    forall side :: pair.Leg(side).Some? ==> LegOk(s, i, side, pair.Leg(side).value)
  }

  predicate LegOk(s: string, i: InstrumentId, side: Side, o: Order) {
    o.Key() == (s, QUOTE_ORDER_ID) && o.side == side && o.instrument == i
  }

  lemma KnownPut(instruments: set<InstrumentId>, sessions: Sessions, key: Key, o: Order)
    requires Known(instruments, sessions) && key.0 in sessions && o.instrument in instruments
    ensures Known(instruments, PutAt(sessions, key, o))
  {
    var after := PutAt(sessions, key, o);
    forall s, id | s in after && id in after[s].orders ensures after[s].orders[id].instrument in instruments {
      if (s, id) != key {
        assert s in sessions && id in sessions[s].orders && after[s].orders[id] == sessions[s].orders[id];
      }
    }
    forall s, i | s in after && i in after[s].quotes
      ensures i in instruments && PairOk(s, i, after[s].quotes[i])
    {
      assert s in sessions && i in sessions[s].quotes;
    }
  }

  lemma KnownDrop(instruments: set<InstrumentId>, sessions: Sessions, key: Key)
    requires Known(instruments, sessions) && key.0 in sessions
    ensures Known(instruments, DropRecord(sessions, key))
  {
    var after := DropRecord(sessions, key);
    forall s, id | s in after && id in after[s].orders ensures after[s].orders[id].instrument in instruments {
      assert s in sessions && id in sessions[s].orders && after[s].orders[id] == sessions[s].orders[id];
    }
    forall s, i | s in after && i in after[s].quotes
      ensures i in instruments && PairOk(s, i, after[s].quotes[i])
    {
      assert s in sessions && i in sessions[s].quotes;
    }
  }

  lemma KnownFill(instruments: set<InstrumentId>, sessions: Sessions, f: Order)
    requires Known(instruments, sessions)
    ensures Known(instruments, RecordFill(sessions, f))
  {
    var r := RecordAt(sessions, f.Key());
    if r.Some? {
      assert r.value == sessions[f.session].orders[f.id];
      KnownPut(instruments, sessions, f.Key(), Carry(r.value, f));
    }
  }

  lemma {:induction false} KnownAll(instruments: set<InstrumentId>, sessions: Sessions, trades: seq<Trade>)
    requires Known(instruments, sessions)
    ensures Known(instruments, RecordAll(sessions, trades))
  {
    if trades != [] {
      var shorter, t := trades[..|trades| - 1], trades[|trades| - 1];
      KnownAll(instruments, sessions, shorter);
      KnownFill(instruments, RecordAll(sessions, shorter), t.buyer);
      KnownFill(instruments, RecordFill(RecordAll(sessions, shorter), t.buyer), t.seller);
    }
  }

  // ---------------------------------------------------------------- dated orders

  /** Every active order has a date, so expiry will see it. */
  ghost predicate Dated(sessions: Sessions, dates: Dates) {
    forall s, id :: s in sessions && id in sessions[s].orders && sessions[s].orders[id].state.IsActive() ==>
      (s, id) in dates
  }

  lemma DatedPut(sessions: Sessions, dates: Dates, key: Key, o: Order)
    requires Dated(sessions, dates) && key.0 in sessions && (key in dates || !o.state.IsActive())
    ensures Dated(PutAt(sessions, key, o), dates)
  {
    var after := PutAt(sessions, key, o);
    forall s, id | s in after && id in after[s].orders && after[s].orders[id].state.IsActive()
      ensures (s, id) in dates
    {
      if (s, id) != key {
        assert s in sessions && id in sessions[s].orders && after[s].orders[id] == sessions[s].orders[id];
      }
    }
  }

  lemma DatedDrop(sessions: Sessions, dates: Dates, key: Key)
    requires Dated(sessions, dates) && key.0 in sessions
    ensures Dated(DropRecord(sessions, key), dates - {key})
  {
    var after := DropRecord(sessions, key);
    forall s, id | s in after && id in after[s].orders && after[s].orders[id].state.IsActive()
      ensures (s, id) in dates - {key}
    {
      assert s in sessions && id in sessions[s].orders && after[s].orders[id] == sessions[s].orders[id];
    }
  }

  ghost predicate FillsDated(trades: seq<Trade>, dates: Dates) {
    forall k :: 0 <= k < |trades| ==>
      && (trades[k].buyer.Key() in dates || trades[k].buyer.id == QUOTE_ORDER_ID)
      && (trades[k].seller.Key() in dates || trades[k].seller.id == QUOTE_ORDER_ID)
  }

  lemma DatedFill(sessions: Sessions, dates: Dates, f: Order)
    requires Dated(sessions, dates) && (f.Key() in dates || f.id == QUOTE_ORDER_ID)
    ensures Dated(RecordFill(sessions, f), dates)
  {
    var r := RecordAt(sessions, f.Key());
    if r.Some? && f.id != QUOTE_ORDER_ID {
      DatedPut(sessions, dates, f.Key(), Carry(r.value, f));
    }
  }

  lemma {:induction false} DatedAll(sessions: Sessions, dates: Dates, trades: seq<Trade>)
    requires Dated(sessions, dates) && FillsDated(trades, dates)
    ensures Dated(RecordAll(sessions, trades), dates)
  {
    if trades != [] {
      var shorter, t := trades[..|trades| - 1], trades[|trades| - 1];
      DatedAll(sessions, dates, shorter);
      DatedFill(RecordAll(sessions, shorter), dates, t.buyer);
      DatedFill(RecordFill(RecordAll(sessions, shorter), t.buyer), dates, t.seller);
    }
  }

  /** The orders a sweep trades with rest in the book, so they are active and dated. */
  lemma SweptDated(rules: Rules, books: BookMap, sessions: Sessions, dates: Dates, exempt: set<Key>, i: InstrumentId,
                   side: Side, e: Resting)
    requires BooksOk(rules, books) && Mirror(books, sessions, exempt) && Dated(sessions, dates)
    requires e in SideOf(books, i, side)
    ensures e.Key() in dates || e.order.id == QUOTE_ORDER_ID
  {
    assert i in books && e in books[i].On(side);
    SideOfOk(rules, books, i, side);
    assert EntryOk(rules, i, side, e) && Mirrored(e.order, sessions);
  }

  /** Trades of an order added to a consistent book: sides, instruments and dates of both parties. */
  lemma AddedTrades(rules: Rules, books: BookMap, sessions: Sessions, dates: Dates, exempt: set<Key>, o: Order)
    requires BooksOk(rules, books) && Mirror(books, sessions, exempt) && Dated(sessions, dates)
    requires o.remaining > 0.0 && (o.Key() in dates || o.id == QUOTE_ORDER_ID)
    requires Live(SideOf(books, o.instrument, Opposite(o.side)))
    ensures var trades := Trading.Add(BookOf(books, o.instrument), o).trades;
            && FillsDated(trades, dates)
            && (forall k :: 0 <= k < |trades| ==> Sided(trades[k], o.instrument))
  {
    var booked, opposite := o.(state := Booked), SideOf(books, o.instrument, Opposite(o.side));
    Trading.SweepShape(booked, opposite);
    var trades := Sweep(booked, opposite).trades;
    Trading.MineKeepsIdentity(booked, opposite, trades);
    SideOfOk(rules, books, o.instrument, Opposite(o.side));
    hide Sweep, BooksOk, Mirror, Dated;
    forall k | 0 <= k < |trades|
      ensures Sided(trades[k], o.instrument)
      ensures trades[k].buyer.Key() in dates || trades[k].buyer.id == QUOTE_ORDER_ID
      ensures trades[k].seller.Key() in dates || trades[k].seller.id == QUOTE_ORDER_ID
    {
      assert Trading.TradeFits(booked, opposite, trades, k);
      assert opposite[k] in opposite && EntryOk(rules, o.instrument, Opposite(o.side), opposite[k]);
      SweptDated(rules, books, sessions, dates, exempt, o.instrument, Opposite(o.side), opposite[k]);
      assert SameOrder(Trading.Before(booked, trades, k), booked);
    }
  }

  // ---------------------------------------------------------------- no quotes, report ids

  ghost predicate NoQuotes(sessions: Sessions) {
    forall s :: s in sessions ==> sessions[s].quotes == map[]
  }

  /** Report k carries ExecID k + 1: fresh and unique over the engine's life. */
  ghost predicate ExecIds(log: seq<Report>, last: nat) {
    last == |log| && forall k :: 0 <= k < |log| ==> log[k].execId == k + 1
  }

  lemma {:induction false} ReportsShape(trades: seq<Trade>, exec: nat)
    ensures |Reports(trades, exec)| == 2 * |trades|
    ensures forall k :: 0 <= k < |Reports(trades, exec)| ==>
              Reports(trades, exec)[k].Fill? && Reports(trades, exec)[k].execId == exec + k + 1
  {
    if trades != [] {
      ReportsShape(trades[..|trades| - 1], exec);
    }
  }

  lemma ExecIdsAll(log: seq<Report>, last: nat, trades: seq<Trade>)
    requires ExecIds(log, last)
    ensures ExecIds(log + Reports(trades, last), last + 2 * |trades|)
  {
    ReportsShape(trades, last);
  }

  // ---------------------------------------------------------------- reports make sense

  predicate TradeOk(t: Trade) {
    t.price > 0.0 && t.quantity > 0.0 && Presentable(t.buyer) && Presentable(t.seller)
  }

  lemma {:induction false} ReportedAll(trades: seq<Trade>, exec: nat)
    requires forall k :: 0 <= k < |trades| ==> TradeOk(trades[k])
    ensures AllReported(Reports(trades, exec))
  {
    if trades != [] {
      ReportedAll(trades[..|trades| - 1], exec);
    }
  }

  lemma {:induction false} MineBalanced(o: Order, opposite: seq<Resting>, trades: seq<Trade>, k: nat)
    requires Trading.TradesFit(o, opposite, trades) && k <= |trades| && Balanced(o)
    ensures Balanced(Trading.Before(o, trades, k))
  {
    if k > 0 {
      MineBalanced(o, opposite, trades, k - 1);
      assert Trading.TradeFits(o, opposite, trades, k - 1);
      FillConserves(Trading.Before(o, trades, k - 1), trades[k - 1].quantity, trades[k - 1].price);
    }
  }

  /** Both parties of every trade of an added order are presentable, at a positive price. */
  lemma AddedReported(rules: Rules, books: BookMap, o: Order)
    requires BooksOk(rules, books) && o.remaining > 0.0 && Balanced(o) && !o.exchange.Unassigned?
    requires Live(SideOf(books, o.instrument, Opposite(o.side)))
    ensures var trades := Trading.Add(BookOf(books, o.instrument), o).trades;
            forall k :: 0 <= k < |trades| ==> TradeOk(trades[k])
  {
    var booked, opposite := o.(state := Booked), SideOf(books, o.instrument, Opposite(o.side));
    Trading.SweepShape(booked, opposite);
    var trades := Sweep(booked, opposite).trades;
    Trading.MineKeepsIdentity(booked, opposite, trades);
    SideOfOk(rules, books, o.instrument, Opposite(o.side));
    hide Sweep, BooksOk, ApplyFill, Balanced;
    forall k | 0 <= k < |trades| ensures TradeOk(trades[k]) {
      assert Trading.TradeFits(booked, opposite, trades, k);
      assert opposite[k] in opposite && EntryOk(rules, o.instrument, Opposite(o.side), opposite[k]);
      MineBalanced(booked, opposite, trades, k + 1);
      FillConserves(opposite[k].order, trades[k].quantity, trades[k].price);
      assert SameOrder(Trading.Before(booked, trades, k + 1), booked);
      FillIdentity(opposite[k].order, trades[k].quantity, trades[k].price);
      BalancedPresents(Trading.Mine(o.side, trades[k]));
      BalancedPresents(Trading.Theirs(o.side, trades[k]));
    }
  }

  lemma BalancedPresents(o: Order)
    requires Balanced(o) && !o.exchange.Unassigned?
    ensures Presentable(o)
  {
  }

  // ---------------------------------------------------------------- exchange numbers in the log

  predicate NumberedBy(o: Order, last: nat) {
    o.exchange.Number? ==> o.exchange.n <= last
  }

  lemma NumberedPush(owner: Owners, log: seq<Report>, last: nat, r: Report)
    requires Numbered(owner, log, last) && (r.Fill? ==> NumberedBy(r.order, last))
    ensures Numbered(owner, log + [r], last)
  {
  }

  lemma {:induction false} NumberedAll(owner: Owners, log: seq<Report>, last: nat, trades: seq<Trade>, exec: nat)
    requires Numbered(owner, log, last)
    requires forall k :: 0 <= k < |trades| ==> NumberedBy(trades[k].buyer, last) && NumberedBy(trades[k].seller, last)
    ensures Numbered(owner, log + Reports(trades, exec), last)
  {
    if trades == [] {
      assert log + [] == log;
    } else {
      var n := |trades| - 1;
      NumberedAll(owner, log, last, trades[..n], exec);
      var log', two := log + Reports(trades[..n], exec), TradeReports(trades[n], exec + 2 * n);
      NumberedPush(owner, log', last, two[0]);
      NumberedPush(owner, log' + [two[0]], last, two[1]);
      assert log' + [two[0]] + [two[1]] == log + Reports(trades, exec);
    }
  }

  /** A resting order's number has been issued. */
  lemma RestingNumbered(rules: Rules, books: BookMap, sessions: Sessions, owner: Owners, log: seq<Report>, last: nat,
                        exempt: set<Key>, i: InstrumentId, side: Side, e: Resting)
    requires Consistent(rules, books, sessions, owner, log, exempt) && Numbered(owner, log, last)
    requires e in SideOf(books, i, side)
    ensures NumberedBy(e.order, last)
  {
    assert i in books && e in books[i].On(side);
    SideOfOk(rules, books, i, side);
    assert EntryOk(rules, i, side, e) && Mirrored(e.order, sessions);
    if e.order.id != QUOTE_ORDER_ID {
      assert sessions[e.order.session].orders[e.order.id] == e.order;
    }
  }

  lemma AddedNumbered(rules: Rules, books: BookMap, sessions: Sessions, owner: Owners, log: seq<Report>, last: nat,
                      exempt: set<Key>, o: Order)
    requires Consistent(rules, books, sessions, owner, log, exempt) && Numbered(owner, log, last)
    requires o.remaining > 0.0 && NumberedBy(o, last)
    requires Live(SideOf(books, o.instrument, Opposite(o.side)))
    ensures var trades := Trading.Add(BookOf(books, o.instrument), o).trades;
            forall k :: 0 <= k < |trades| ==> NumberedBy(trades[k].buyer, last) && NumberedBy(trades[k].seller, last)
  {
    var booked, opposite := o.(state := Booked), SideOf(books, o.instrument, Opposite(o.side));
    Trading.SweepShape(booked, opposite);
    var trades := Sweep(booked, opposite).trades;
    Trading.MineKeepsIdentity(booked, opposite, trades);
    hide Sweep, Consistent, Numbered;
    forall k | 0 <= k < |trades| ensures NumberedBy(trades[k].buyer, last) && NumberedBy(trades[k].seller, last) {
      assert Trading.TradeFits(booked, opposite, trades, k);
      assert opposite[k] in opposite;
      RestingNumbered(rules, books, sessions, owner, log, last, exempt, o.instrument, Opposite(o.side), opposite[k]);
      assert SameOrder(Trading.Before(booked, trades, k), booked);
    }
  }

  // ---------------------------------------------------------------- the ledger

  /** Everything about orders an engine holds. */
  datatype Ledger = Ledger(
    rules: Rules,
    instruments: set<InstrumentId>,
    books: BookMap,
    sessions: Sessions,
    owner: Owners,
    dates: Dates,
    log: seq<Report>,
    number: nat)

  /** Books, records, reports and numbers agree; orders of `exempt` are between books. */
  ghost predicate Sound(l: Ledger, exempt: set<Key>) {
    && Consistent(l.rules, l.books, l.sessions, l.owner, l.log, exempt)
    && Numbered(l.owner, l.log, l.number)
    && l.books.Keys <= l.instruments && Known(l.instruments, l.sessions) && Dated(l.sessions, l.dates)
    && (l.rules.policy.Tiered? ==> NoQuotes(l.sessions))
    && ExecIds(l.log, |l.log|) && AllReported(l.log)
  }

  /** A status report keeps the ledger sound. */
  lemma SoundStatus(l: Ledger, exempt: set<Key>, r: Report)
    requires Sound(l, exempt) && r.Status? && r.execId == |l.log| + 1 && ReportOk(r)
    ensures Sound(l.(log := l.log + [r]), exempt)
  {
    AccountStatus(l.sessions, l.owner, l.log, r);
    NumberedPush(l.owner, l.log, l.number, r);
  }

  lemma SoundRecord(l: Ledger, exempt: set<Key>, key: Key)
    requires Sound(l, exempt) && RecordAt(l.sessions, key).Some? && key !in exempt
    ensures RecordAt(l.sessions, key).value.Key() == key && RecordAt(l.sessions, key).value.instrument in l.instruments
  {
    assert RecordOk((key.0, key.1), l.sessions[key.0].orders[key.1], l.books);
  }

  function Taken(books: BookMap, o: Order): BookMap {
    PutSide(books, o.instrument, o.side, Without(SideOf(books, o.instrument, o.side), o.price, o.Key()))
  }

  /** An active order is found at its own price in its book, and can be taken out. */
  lemma SoundTake(l: Ledger, r: Order)
    requires Sound(l, {}) && RecordAt(l.sessions, r.Key()) == Some(r) && r.state.IsActive()
    ensures r.id != QUOTE_ORDER_ID && r.instrument in l.books && r.instrument in l.instruments
    ensures Find(SideOf(l.books, r.instrument, r.side), r.price, r.Key()) == Some(r)
    ensures EntryOk(l.rules, r.instrument, r.side, Resting(r.price, r)) && r.exchange.Number?
    ensures NumberedBy(r, l.number)
    ensures Sound(l.(books := Taken(l.books, r)), {r.Key()})
  {
    TakeOut(l.rules, l.books, l.sessions, l.owner, l.log, r);
    assert Accounted(l.sessions[r.session].orders[r.id], l.log);
  }

  /** An order out of the book ends. */
  lemma SoundEnd(l: Ledger, o: Order)
    requires Sound(l, {o.Key()}) && RecordAt(l.sessions, o.Key()).Some? && o.id != QUOTE_ORDER_ID && !o.state.IsActive()
    requires var r := RecordAt(l.sessions, o.Key()).value;
             o.exchange == r.exchange && o.cum == r.cum && o.avg == r.avg
    requires o.instrument in l.instruments && (!o.state.Expired? ==> Balanced(o))
    ensures Sound(l.(sessions := PutRecord(l.sessions, o)), {})
  {
    EndOrder(l.rules, l.books, l.sessions, l.owner, l.log, o);
    KnownPut(l.instruments, l.sessions, o.Key(), o);
    DatedPut(l.sessions, l.dates, o.Key(), o);
  }

  /** An order out of the book is forgotten. */
  lemma SoundForget(l: Ledger, key: Key)
    requires Sound(l, {key}) && key.0 in l.sessions && key.1 != QUOTE_ORDER_ID
    ensures Sound(l.(sessions := DropRecord(l.sessions, key)), {})
  {
    ForgetOrder(l.rules, l.books, l.sessions, l.owner, l.log, key);
    KnownDrop(l.instruments, l.sessions, key);
    DatedDrop(l.sessions, l.dates, key);
  }

  /** Later arrivals only. */
  lemma SoundArrival(l: Ledger, exempt: set<Key>, o: Order)
    requires Sound(l, exempt) && o.arrival == l.rules.arrivals + 1
    ensures Sound(l.(rules := l.rules.(arrivals := o.arrival)), exempt)
    ensures Latest(o, l.books)
  {
    ArrivalsGrow(l.rules, l.books, o.arrival);
    ArrivalsLater(l.rules, l.books, o, o.instrument, Buy);
    ArrivalsLater(l.rules, l.books, o, o.instrument, Sell);
  }

  /** A new order is entered under the next exchange number. */
  lemma SoundOpen(l: Ledger, o: Order, date: int)
    requires Sound(l, {}) && o.session in l.sessions && RecordAt(l.sessions, o.Key()).None? && o.id != QUOTE_ORDER_ID
    requires o.exchange == Number(l.number + 1) && o.cum == 0.0 && Balanced(o) && !o.state.Expired?
    requires o.instrument in l.instruments
    ensures Sound(l.(sessions := PutRecord(l.sessions, o), owner := l.owner[l.number + 1 := o.Key()],
                     dates := l.dates[o.Key() := date], number := l.number + 1), {o.Key()})
  {
    OpenOrder(l.rules, l.books, l.sessions, l.owner, l.log, l.number, o);
    KnownPut(l.instruments, l.sessions, o.Key(), o);
    DatedPut(l.sessions, l.dates[o.Key() := date], o.Key(), o);
  }

  /** A replacement is entered in place of the order it replaces. */
  lemma SoundReplace(l: Ledger, r: Order, o: Order, date: int)
    requires Sound(l, {r.Key()}) && RecordAt(l.sessions, r.Key()) == Some(r)
    requires r.id != QUOTE_ORDER_ID && o.id != QUOTE_ORDER_ID && o.instrument in l.instruments
    requires o.session == r.session && o.exchange == r.exchange && o.cum == r.cum && o.avg == r.avg
    requires Balanced(o) && !o.state.Expired? && (o.id == r.id || RecordAt(l.sessions, o.Key()).None?)
    ensures r.exchange.Number?
    ensures Sound(l.(sessions := PutRecord(DropRecord(l.sessions, r.Key()), o),
                     owner := l.owner[r.exchange.n := o.Key()],
                     dates := (l.dates - {r.Key()})[o.Key() := date]), {o.Key()})
  {
    ReplaceOrder(l.rules, l.books, l.sessions, l.owner, l.log, r, o);
    assert Accounted(l.sessions[r.session].orders[r.id], l.log);
    var dropped := DropRecord(l.sessions, r.Key());
    KnownDrop(l.instruments, l.sessions, r.Key());
    KnownPut(l.instruments, dropped, o.Key(), o);
    DatedDrop(l.sessions, l.dates, r.Key());
    DatedPut(dropped, (l.dates - {r.Key()})[o.Key() := date], o.Key(), o);
  }

  /** The ledger after an order went through the matcher and all its fills were reported. */
  function Added(l: Ledger, o: Order): Ledger
    requires o.remaining >= 0.0 && Live(SideOf(l.books, o.instrument, Opposite(o.side)))
    requires o.session in l.sessions
  {
    var added := Trading.Add(BookOf(l.books, o.instrument), o);
    RecordAllQuotes(l.sessions, added.trades);
    var sessions := RecordAll(l.sessions, added.trades);
    assert added.final.session == o.session by { AddFinalSession(l.books, o); }
    l.(books := l.books[o.instrument := added.book],
       sessions := if o.id == QUOTE_ORDER_ID then sessions else PutRecord(sessions, added.final),
       log := l.log + Reports(added.trades, |l.log|))
  }

  lemma AddFinalSession(books: BookMap, o: Order)
    requires o.remaining >= 0.0 && Live(SideOf(books, o.instrument, Opposite(o.side)))
    ensures SameOrder(Trading.Add(BookOf(books, o.instrument), o).final, o)
  {
    var booked, opposite := o.(state := Booked), SideOf(books, o.instrument, Opposite(o.side));
    Trading.SweepShape(booked, opposite);
    Trading.MineKeepsIdentity(booked, opposite, Sweep(booked, opposite).trades);
  }

  /** What is left of an order after the matcher can be reported. */
  lemma FinalPresents(books: BookMap, o: Order)
    requires o.remaining > 0.0 && Live(SideOf(books, o.instrument, Opposite(o.side)))
    requires Balanced(o) && !o.exchange.Unassigned?
    ensures var final := Trading.Add(BookOf(books, o.instrument), o).final; Presentable(final) && Balanced(final)
  {
    var booked, opposite := o.(state := Booked), SideOf(books, o.instrument, Opposite(o.side));
    Trading.SweepShape(booked, opposite);
    var trades := Sweep(booked, opposite).trades;
    Trading.MineKeepsIdentity(booked, opposite, trades);
    MineBalanced(booked, opposite, trades, |trades|);
    hide Sweep;
  }

  /** A regular order through the matcher. */
  lemma SoundAdd(l: Ledger, o: Order)
    requires Sound(l, {o.Key()}) && l.rules.policy.Real? && o.instrument in l.instruments
    requires Addable(l.rules, o) && o.id != QUOTE_ORDER_ID && Incoming(l.sessions, {o.Key()}, o)
    requires NumberedBy(o, l.number) && o.Key() in l.dates && Latest(o, l.books)
    ensures Live(SideOf(l.books, o.instrument, Opposite(o.side))) && o.session in l.sessions
    ensures RecordAt(RecordAll(l.sessions, Trading.Add(BookOf(l.books, o.instrument), o).trades), o.Key()).Some?
    ensures Sound(Added(l, o), {})
    ensures forall t :: t in Trading.Add(BookOf(l.books, o.instrument), o).trades ==> Sided(t, o.instrument)
  {
    AddRegular(l.rules, l.books, l.sessions, l.owner, l.log, o, |l.log|);
    SoundAddRest(l, {o.Key()}, o);
    var added := Trading.Add(BookOf(l.books, o.instrument), o);
    var sessions := RecordAll(l.sessions, added.trades);
    AddFinalSession(l.books, o);
    hide Consistent, Trading.Add, Reports, RecordAll, Known, Dated, Numbered, ExecIds;
    KnownPut(l.instruments, sessions, o.Key(), added.final);
    DatedPut(sessions, l.dates, o.Key(), added.final);
  }

  /** What trades do to the rest of the ledger. */
  lemma SoundAddRest(l: Ledger, exempt: set<Key>, o: Order)
    requires Sound(l, exempt) && o.remaining > 0.0 && Live(SideOf(l.books, o.instrument, Opposite(o.side)))
    requires NumberedBy(o, l.number) && (o.Key() in l.dates || o.id == QUOTE_ORDER_ID)
    requires Balanced(o) && !o.exchange.Unassigned?
    ensures var trades := Trading.Add(BookOf(l.books, o.instrument), o).trades;
            var sessions, log := RecordAll(l.sessions, trades), l.log + Reports(trades, |l.log|);
            && Known(l.instruments, sessions) && Dated(sessions, l.dates)
            && Numbered(l.owner, log, l.number) && ExecIds(log, |log|) && AllReported(log)
            && forall t :: t in trades ==> Sided(t, o.instrument)
  {
    var trades := Trading.Add(BookOf(l.books, o.instrument), o).trades;
    AddedTrades(l.rules, l.books, l.sessions, l.dates, exempt, o);
    AddedNumbered(l.rules, l.books, l.sessions, l.owner, l.log, l.number, exempt, o);
    AddedReported(l.rules, l.books, o);
    ReportedAll(trades, |l.log|);
    hide Trading.Add, Reports, RecordAll, Known, Dated, Numbered, Consistent;
    KnownAll(l.instruments, l.sessions, trades);
    DatedAll(l.sessions, l.dates, trades);
    NumberedAll(l.owner, l.log, l.number, trades, |l.log|);
    ReportsShape(trades, |l.log|);
    ExecIdsAll(l.log, |l.log|, trades);
  }

  // ---------------------------------------------------------------- tiered steps

  function RestedState(o: Order): Order {
    o.(state := if o.cum == 0.0 then Booked else PartialFill)
  }

  /** An order may rest without matching. */
  ghost predicate Restable(rules: Rules, o: Order) {
    && rules.policy.Tiered? && o.remaining > 0.0 && Balanced(o) && o.price > 0.0
    && o.id != QUOTE_ORDER_ID && o.arrival <= rules.arrivals && !o.exchange.Unassigned?
  }

  /** Resting a recorded order without matching always succeeds. */
  lemma SoundRest(l: Ledger, o: Order)
    requires Sound(l, {o.Key()}) && Restable(l.rules, o) && o.instrument in l.instruments && o.Key() in l.dates
    requires RecordAt(l.sessions, o.Key()).Some? && SameFigures(RecordAt(l.sessions, o.Key()).value, o)
    requires Latest(o, l.books)
    ensures var outcome := Books.InsertOnly(BookOf(l.books, o.instrument), o);
            && outcome.Done? && outcome.order == RestedState(o)
            && Sound(l.(books := l.books[o.instrument := outcome.book],
                        sessions := PutRecord(l.sessions, RestedState(o))), {})
  {
    NowhereExempt(l.books, l.sessions, {o.Key()}, o.Key(), o.instrument, o.side);
    FindAbsent(SideOf(l.books, o.instrument, o.side), o.price, o.Key());
    RestOrder(l.rules, l.books, l.sessions, l.owner, l.log, RestedState(o));
    KnownPut(l.instruments, l.sessions, o.Key(), RestedState(o));
    DatedPut(l.sessions, l.dates, o.Key(), RestedState(o));
  }

  /** Executing a fill that fits an active order, at its own price, always succeeds. */
  lemma SoundExecute(l: Ledger, r: Order, quantity: real)
    requires Sound(l, {}) && RecordAt(l.sessions, r.Key()) == Some(r) && r.state.IsActive()
    requires 0.0 < quantity <= r.remaining
    ensures var outcome := Books.Execute(BookOf(l.books, r.instrument), r.Key(), r.side, r.price, quantity, r.price);
            var f := ApplyFill(r, quantity, r.price);
            && r.instrument in l.instruments && outcome.Done? && outcome.order == f
            && RecordFill(l.sessions, f) == PutRecord(l.sessions, f)
            && Sound(l.(books := l.books[r.instrument := outcome.book], sessions := PutRecord(l.sessions, f),
                        log := l.log + [Fill(f, r.price, quantity, |l.log| + 1)]), {})
  {
    ExecuteOutcome(l, r, quantity);
    hide Books.Execute, Books.Settle, Balanced, Find;
    var i, e := r.instrument, Resting(r.price, r);
    FillResting(l.rules, l.books, l.sessions, l.owner, l.log, {}, i, r.side, e, quantity, r.price, |l.log| + 1);
    RestingNumbered(l.rules, l.books, l.sessions, l.owner, l.log, l.number, {}, i, r.side, e);
    SweptDated(l.rules, l.books, l.sessions, l.dates, {}, i, r.side, e);
    ExecutePresents(l, r, quantity);
    SoundExecuteRest(l, r, ApplyFill(r, quantity, r.price), quantity);
  }

  lemma ExecutePresents(l: Ledger, r: Order, quantity: real)
    requires Sound(l, {}) && RecordAt(l.sessions, r.Key()) == Some(r) && r.state.IsActive()
    requires 0.0 < quantity <= r.remaining
    ensures r.price > 0.0 && Presentable(ApplyFill(r, quantity, r.price))
  {
    SoundTake(l, r);
    FillConserves(r, quantity, r.price);
  }

  lemma ExecuteOutcome(l: Ledger, r: Order, quantity: real)
    requires Sound(l, {}) && RecordAt(l.sessions, r.Key()) == Some(r) && r.state.IsActive()
    requires 0.0 < quantity <= r.remaining
    ensures var i, f := r.instrument, ApplyFill(r, quantity, r.price);
            var outcome := Books.Execute(BookOf(l.books, i), r.Key(), r.side, r.price, quantity, r.price);
            && i in l.instruments && r.id != QUOTE_ORDER_ID && outcome.Done? && outcome.order == f
            && Resting(r.price, r) in SideOf(l.books, i, r.side)
            && l.books[i := outcome.book]
               == PutSide(l.books, i, r.side, Books.Settle(SideOf(l.books, i, r.side), r.price, f))
  {
    SoundTake(l, r);
    hide Sound, Books.Settle;
    Found(SideOf(l.books, r.instrument, r.side), r.price, r.Key());
  }

  lemma SoundExecuteRest(l: Ledger, r: Order, f: Order, quantity: real)
    requires Sound(l, {}) && SameOrder(f, r) && r.Key() in l.dates && NumberedBy(r, l.number)
    requires r.price > 0.0 && quantity > 0.0 && Presentable(f)
    ensures var sessions, log := RecordFill(l.sessions, f), l.log + [Fill(f, r.price, quantity, |l.log| + 1)];
            && Known(l.instruments, sessions) && Dated(sessions, l.dates)
            && Numbered(l.owner, log, l.number) && ExecIds(log, |log|) && AllReported(log)
            && (l.rules.policy.Tiered? ==> NoQuotes(sessions))
  {
    hide Consistent, Known, Dated;
    KnownFill(l.instruments, l.sessions, f);
    DatedFill(l.sessions, l.dates, f);
    NumberedPush(l.owner, l.log, l.number, Fill(f, r.price, quantity, |l.log| + 1));
  }

  lemma FillIdentity(o: Order, quantity: real, price: Price)
    ensures SameOrder(ApplyFill(o, quantity, price), o)
  {
  }

  /** An order after a list of fills at one price. */
  function FillAll(o: Order, chunks: seq<real>, price: Price): Order {
    if chunks == [] then o
    else ApplyFill(FillAll(o, chunks[..|chunks| - 1], price), chunks[|chunks| - 1], price)
  }

  function EnterLedger(l: Ledger, o: Order, date: int): Ledger
    requires o.session in l.sessions
  {
    l.(rules := l.rules.(arrivals := l.rules.arrivals + 1), sessions := PutRecord(l.sessions, o),
       owner := l.owner[l.number + 1 := o.Key()], dates := l.dates[o.Key() := date], number := l.number + 1)
  }

  function StatusLedger(l: Ledger, o: Order, clOrdId: OrderId, execType: ExecType, orig: Option<OrderId>): Ledger {
    l.(log := l.log + [Status(o, clOrdId, execType, orig, |l.log| + 1)])
  }

  function RestLedger(l: Ledger, o: Order): Ledger
    requires o.session in l.sessions
  {
    match Books.InsertOnly(BookOf(l.books, o.instrument), o)
    case Done(book, rested) =>
      l.(books := l.books[o.instrument := book], sessions := PutAt(l.sessions, o.Key(), rested))
    case Refused(_) => l
  }

  /** One synthetic fill of the recorded order r, at its own price. */
  function ExecuteLedger(l: Ledger, r: Order, quantity: real): Ledger {
    match Books.Execute(BookOf(l.books, r.instrument), r.Key(), r.side, r.price, quantity, r.price)
    case Done(book, f) =>
      l.(books := l.books[r.instrument := book], sessions := RecordFill(l.sessions, f),
         log := l.log + [Fill(f, r.price, quantity, |l.log| + 1)])
    case Refused(_) => l
  }

  function FillLedger(l: Ledger, r: Order, chunks: seq<real>): Ledger {
    if chunks == [] then l else
    var n := |chunks| - 1;
    ExecuteLedger(FillLedger(l, r, chunks[..n]), FillAll(r, chunks[..n], r.price), chunks[n])
  }

  lemma {:induction false} FillAllRemaining(o: Order, chunks: seq<real>, price: Price)
    ensures FillAll(o, chunks, price).remaining == o.remaining - TierPlans.Sum(chunks)
    ensures FillAll(o, chunks, price).cum == o.cum + TierPlans.Sum(chunks)
    ensures SameOrder(FillAll(o, chunks, price), o)
    ensures FillAll(o, chunks, price).state == if chunks == [] then o.state
              else if FillAll(o, chunks, price).remaining == 0.0 then Filled else PartialFill
    ensures chunks != [] ==>
      (FillAll(o, chunks, price).state.IsActive() <==> FillAll(o, chunks, price).remaining != 0.0)
  {
    if chunks != [] {
      FillAllRemaining(o, chunks[..|chunks| - 1], price);
    }
  }

  // ---------------------------------------------------------------- replacing

  /** An order that ended and is in no book needs no exemption. */
  lemma SoundClose(l: Ledger, o: Order)
    requires Sound(l, {o.Key()}) && RecordAt(l.sessions, o.Key()) == Some(o)
    requires o.id != QUOTE_ORDER_ID && !o.state.IsActive()
    ensures Sound(l, {})
  {
    MirrorClose(l.books, l.sessions, o);
  }

  function ReplaceLedger(l: Ledger, r: Order, o: Order, date: int): Ledger
    requires r.session in l.sessions && o.session == r.session && r.exchange.Number?
  {
    l.(rules := l.rules.(arrivals := l.rules.arrivals + 1),
       sessions := PutRecord(DropRecord(l.sessions, r.Key()), o),
       owner := l.owner[r.exchange.n := o.Key()],
       dates := (l.dates - {r.Key()})[o.Key() := date])
  }
}
