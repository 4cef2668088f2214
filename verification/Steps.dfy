/** The state changes engine operations are made of, each shown to keep books, records and report
    log consistent (src/core/exchange/mod.rs). */
module Steps {
  import opened Orders
  import opened Collections
  import opened Ladders
  import opened Matching
  import opened Filing
  import opened Mirrors
  import opened Fills
  import Trading

  // ---------------------------------------------------------------- numbers

  /** Exchange numbers in use have been issued. */
  ghost predicate Numbered(owner: Owners, log: seq<Report>, last: nat) {
    && (forall n :: n in owner ==> n <= last)
    && (forall k :: 0 <= k < |log| && log[k].Fill? && log[k].order.exchange.Number? ==>
          log[k].order.exchange.n <= last)
  }

  lemma {:induction false} ExecutedFresh(owner: Owners, log: seq<Report>, last: nat, n: nat)
    requires Numbered(owner, log, last) && n > last
    ensures Executed(log, n) == 0.0 && Spent(log, n) == 0.0
  {
    if log != [] {
      ExecutedFresh(owner, log[..|log| - 1], last, n);
    }
  }

  // ---------------------------------------------------------------- accounting of record changes

  /** No record carries exchange number n. */
  ghost predicate Unused(sessions: Sessions, n: nat) {
    forall s, id :: s in sessions && id in sessions[s].orders ==> sessions[s].orders[id].exchange != Number(n)
  }

  lemma AccountEnter(sessions: Sessions, owner: Owners, log: seq<Report>, o: Order)
    requires Accounting(sessions, owner, log) && Accounted(o, log) && Unused(sessions, o.exchange.n)
    requires o.session in sessions && RecordAt(sessions, o.Key()).None?
    ensures Accounting(PutRecord(sessions, o), owner[o.exchange.n := o.Key()], log)
  {
    var after := PutRecord(sessions, o);
    forall s, id | s in after && id in after[s].orders && (s, id) != o.Key()
      ensures s in sessions && id in sessions[s].orders && after[s].orders[id] == sessions[s].orders[id]
    {
    }
  }

  /** A new order under a new number has nothing filled yet. */
  lemma AccountOpen(sessions: Sessions, owner: Owners, log: seq<Report>, last: nat, o: Order)
    requires Accounting(sessions, owner, log) && Numbered(owner, log, last)
    requires o.session in sessions && RecordAt(sessions, o.Key()).None?
    requires o.exchange == Number(last + 1) && o.cum == 0.0 && Balanced(o) && !o.state.Expired?
    ensures Accounting(PutRecord(sessions, o), owner[last + 1 := o.Key()], log)
  {
    ExecutedFresh(owner, log, last, last + 1);
    AccountEnter(sessions, owner, log, o);
  }

  /** A record rewritten with the same execution figures. */
  lemma AccountPut(sessions: Sessions, owner: Owners, log: seq<Report>, o: Order)
    requires Accounting(sessions, owner, log) && RecordAt(sessions, o.Key()).Some?
    requires var r := RecordAt(sessions, o.Key()).value;
             o.exchange == r.exchange && o.cum == r.cum && o.avg == r.avg
    requires !o.state.Expired? ==> Balanced(o)
    ensures Accounting(PutRecord(sessions, o), owner, log)
  {
    var after := PutRecord(sessions, o);
    assert Accounted(sessions[o.session].orders[o.id], log);
    forall s, id | s in after && id in after[s].orders && (s, id) != o.Key()
      ensures s in sessions && id in sessions[s].orders && after[s].orders[id] == sessions[s].orders[id]
    {
    }
  }

  lemma AccountDrop(sessions: Sessions, owner: Owners, log: seq<Report>, key: Key)
    requires Accounting(sessions, owner, log) && key.0 in sessions
    ensures Accounting(DropRecord(sessions, key), owner, log)
  {
    var after := DropRecord(sessions, key);
    forall s, id | s in after && id in after[s].orders
      ensures s in sessions && id in sessions[s].orders && after[s].orders[id] == sessions[s].orders[id]
    {
    }
  }

  /** A replacement takes over the number, and with it the fills, of the order it replaces. */
  lemma AccountMove(sessions: Sessions, owner: Owners, log: seq<Report>, r: Order, o: Order)
    requires Accounting(sessions, owner, log) && RecordAt(sessions, r.Key()) == Some(r)
    requires o.session == r.session && o.exchange == r.exchange && o.cum == r.cum && o.avg == r.avg
    requires Balanced(o) && !o.state.Expired?
    requires o.id == r.id || RecordAt(sessions, o.Key()).None?
    ensures r.exchange.Number?
    ensures Accounting(PutRecord(DropRecord(sessions, r.Key()), o), owner[r.exchange.n := o.Key()], log)
  {
    assert Accounted(sessions[r.session].orders[r.id], log) && owner[r.exchange.n] == r.Key();
    var dropped := DropRecord(sessions, r.Key());
    AccountDrop(sessions, owner, log, r.Key());
    forall s, id | s in dropped && id in dropped[s].orders
      ensures dropped[s].orders[id].exchange != r.exchange
    {
      assert (s, id) != r.Key();
      assert owner[dropped[s].orders[id].exchange.n] == (s, id);
    }
    hide Accounting, Accounted, Balanced;
    assert Accounted(o, log) by { AccountSame(r, o, log); }
    AccountEnter(dropped, owner, log, o);
  }

  lemma AccountSame(r: Order, o: Order, log: seq<Report>)
    requires Accounted(r, log) && o.exchange == r.exchange && o.cum == r.cum && o.avg == r.avg && Balanced(o)
    ensures Accounted(o, log)
  {
  }

  // ---------------------------------------------------------------- consistent steps

  lemma ArrivalsGrow(rules: Rules, books: BookMap, arrivals: nat)
    requires BooksOk(rules, books) && rules.arrivals <= arrivals
    ensures BooksOk(rules.(arrivals := arrivals), books)
  {
    var later := rules.(arrivals := arrivals);
    forall i | i in books ensures BookOk(later, i, books[i]) {
      assert BookOk(rules, i, books[i]);
      forall e | e in books[i].bids ensures EntryOk(later, i, Buy, e) { assert EntryOk(rules, i, Buy, e); }
      forall e | e in books[i].asks ensures EntryOk(later, i, Sell, e) { assert EntryOk(rules, i, Sell, e); }
    }
  }

  /** Enter a new order in its session's records, not yet in any book. */
  lemma OpenOrder(rules: Rules, books: BookMap, sessions: Sessions, owner: Owners, log: seq<Report>, last: nat,
                  o: Order)
    requires Consistent(rules, books, sessions, owner, log, {}) && Numbered(owner, log, last)
    requires o.session in sessions && RecordAt(sessions, o.Key()).None? && o.id != QUOTE_ORDER_ID
    requires o.exchange == Number(last + 1) && o.cum == 0.0 && Balanced(o) && !o.state.Expired?
    ensures Consistent(rules, books, PutRecord(sessions, o), owner[last + 1 := o.Key()], log, {o.Key()})
    ensures Numbered(owner[last + 1 := o.Key()], log, last + 1)
  {
    AccountOpen(sessions, owner, log, last, o);
    MirrorOpen(books, sessions, o.Key());
    MirrorRecord(books, sessions, o);
  }

  lemma WithoutOk(rules: Rules, books: BookMap, i: InstrumentId, side: Side, price: Price, key: Key)
    requires BooksOk(rules, books)
    ensures BooksOk(rules, PutSide(books, i, side, Without(SideOf(books, i, side), price, key)))
  {
    var was := SideOf(books, i, side);
    SideOfOk(rules, books, i, side);
    WithoutPrioritised(side, was, price, key);
    if Find(was, price, key).Some? {
      WithoutMembers(was, price, key);
    } else {
      WithoutMiss(was, price, key);
    }
    PutSideOk(rules, books, i, side, Without(was, price, key));
  }

  /** Take an active order off its book. It is always there. */
  lemma TakeOut(rules: Rules, books: BookMap, sessions: Sessions, owner: Owners, log: seq<Report>, r: Order)
    requires Consistent(rules, books, sessions, owner, log, {})
    requires RecordAt(sessions, r.Key()) == Some(r) && r.state.IsActive()
    ensures var i := r.instrument;
            && r.id != QUOTE_ORDER_ID
            && Find(SideOf(books, i, r.side), r.price, r.Key()) == Some(r)
            && i in books && EntryOk(rules, i, r.side, Resting(r.price, r))
            && Consistent(rules, PutSide(books, i, r.side, Without(SideOf(books, i, r.side), r.price, r.Key())),
                          sessions, owner, log, {r.Key()})
  {
    MirrorRemove(rules, books, sessions, r);
    WithoutOk(rules, books, r.instrument, r.side, r.price, r.Key());
    Found(SideOf(books, r.instrument, r.side), r.price, r.Key());
    SideOfOk(rules, books, r.instrument, r.side);
  }

  /** An order taken out of the book ends: its record becomes inactive. */
  lemma EndOrder(rules: Rules, books: BookMap, sessions: Sessions, owner: Owners, log: seq<Report>, o: Order)
    requires Consistent(rules, books, sessions, owner, log, {o.Key()})
    requires RecordAt(sessions, o.Key()).Some? && o.id != QUOTE_ORDER_ID && !o.state.IsActive()
    requires var r := RecordAt(sessions, o.Key()).value;
             o.exchange == r.exchange && o.cum == r.cum && o.avg == r.avg
    requires !o.state.Expired? ==> Balanced(o)
    ensures Consistent(rules, books, PutRecord(sessions, o), owner, log, {})
  {
    AccountPut(sessions, owner, log, o);
    MirrorRecord(books, sessions, o);
    MirrorClose(books, PutRecord(sessions, o), o);
  }

  /** An order taken out of the book is forgotten. */
  lemma ForgetOrder(rules: Rules, books: BookMap, sessions: Sessions, owner: Owners, log: seq<Report>, key: Key)
    requires Consistent(rules, books, sessions, owner, log, {key}) && key.0 in sessions && key.1 != QUOTE_ORDER_ID
    ensures Consistent(rules, books, DropRecord(sessions, key), owner, log, {})
  {
    AccountDrop(sessions, owner, log, key);
    MirrorForget(books, sessions, key);
  }

  /** The replacement of an order taken out of the book is entered under its own id. */
  lemma ReplaceOrder(rules: Rules, books: BookMap, sessions: Sessions, owner: Owners, log: seq<Report>, r: Order,
                     o: Order)
    requires Consistent(rules, books, sessions, owner, log, {r.Key()}) && RecordAt(sessions, r.Key()) == Some(r)
    requires r.id != QUOTE_ORDER_ID && o.id != QUOTE_ORDER_ID
    requires o.session == r.session && o.exchange == r.exchange && o.cum == r.cum && o.avg == r.avg
    requires Balanced(o) && !o.state.Expired?
    requires o.id == r.id || RecordAt(sessions, o.Key()).None?
    ensures r.exchange.Number?
    ensures Consistent(rules, books, PutRecord(DropRecord(sessions, r.Key()), o), owner[r.exchange.n := o.Key()], log,
                       {o.Key()})
  {
    AccountMove(sessions, owner, log, r, o);
    MirrorForget(books, sessions, r.Key());
    var dropped := DropRecord(sessions, r.Key());
    MirrorOpen(books, dropped, o.Key());
    MirrorRecord(books, dropped, o);
  }

  // ---------------------------------------------------------------- resting an order

  lemma EnqueueOk(rules: Rules, i: InstrumentId, side: Side, s: seq<Resting>, e: Resting)
    requires SideOk(rules, i, side, s) && EntryOk(rules, i, side, e) && Absent(s, e.Key()) && LaterThan(e.order, s)
    ensures SideOk(rules, i, side, Enqueue(side, s, e))
  {
    Trading.EnqueuePrioritised(side, s, e);
    EnqueueDistinct(side, s, e);
    EnqueueMembers(side, s, e);
  }

  /** An order entered in the records is rested in the book (no crossing is looked for). */
  lemma RestOrder(rules: Rules, books: BookMap, sessions: Sessions, owner: Owners, log: seq<Report>, o: Order)
    requires Consistent(rules, books, sessions, owner, log, {o.Key()}) && RecordAt(sessions, o.Key()).Some?
    requires var r := RecordAt(sessions, o.Key()).value;
             o.exchange == r.exchange && o.cum == r.cum && o.avg == r.avg
    requires o.id != QUOTE_ORDER_ID && EntryOk(rules, o.instrument, o.side, Resting(o.price, o))
    requires LaterThan(o, SideOf(books, o.instrument, o.side))
    requires var s := Enqueue(o.side, SideOf(books, o.instrument, o.side), Resting(o.price, o));
             rules.policy.Real? ==> Apart(BookOf(books, o.instrument).With(o.side, s).bids,
                                          BookOf(books, o.instrument).With(o.side, s).asks)
    ensures var s := Enqueue(o.side, SideOf(books, o.instrument, o.side), Resting(o.price, o));
            Consistent(rules, PutSide(books, o.instrument, o.side, s), PutRecord(sessions, o), owner, log, {})
  {
    var i, side := o.instrument, o.side;
    AccountPut(sessions, owner, log, o);
    MirrorRecord(books, sessions, o);
    MirrorInsert(rules, books, PutRecord(sessions, o), o);
    NowhereExempt(books, sessions, {o.Key()}, o.Key(), i, side);
    SideOfOk(rules, books, i, side);
    SideOfOk(rules, books, i, Opposite(side));
    EnqueueOk(rules, i, side, SideOf(books, i, side), Resting(o.price, o));
  }

  // ---------------------------------------------------------------- adding with matching

  lemma BookUncrossed(rules: Rules, books: BookMap, i: InstrumentId)
    requires BooksOk(rules, books) && rules.policy.Real?
    ensures Uncrossed(BookOf(books, i))
  {
    SideOfOk(rules, books, i, Buy);
    SideOfOk(rules, books, i, Sell);
    var b := BookOf(books, i);
    assert forall e :: e in b.bids ==> EntryOk(rules, i, Buy, e);
    assert forall e :: e in b.asks ==> EntryOk(rules, i, Sell, e);
  }

  lemma ArrivalsLater(rules: Rules, books: BookMap, o: Order, i: InstrumentId, side: Side)
    requires BooksOk(rules, books) && rules.arrivals < o.arrival
    ensures LaterThan(o, SideOf(books, i, side))
  {
    SideOfOk(rules, books, i, side);
    forall e | e in SideOf(books, i, side) ensures e.order.arrival < o.arrival {
      assert EntryOk(rules, i, side, e);
    }
  }

  /** How a sweep ends, as an order. */
  lemma SweepEnds(o: Order, opposite: seq<Resting>)
    requires o.remaining > 0.0 && o.state.Booked? && Live(opposite)
    ensures var left := Sweep(o, opposite).incoming;
            && left.remaining >= 0.0 && SameOrder(left, o)
            && (left.remaining == 0.0 ==> left.state.Filled?)
            && (left.remaining > 0.0 ==> left.state.Booked? || left.state.PartialFill?)
  {
    Trading.SweepShape(o, opposite);
    var trades := Sweep(o, opposite).trades;
    hide Sweep;
    Trading.MineKeepsIdentity(o, opposite, trades);
    if trades != [] {
      assert Trading.TradeFits(o, opposite, trades, |trades| - 1);
    }
  }

  /** The trades of an added order, reported and recorded; the swept side holds the leftover. */
  lemma AddSwept(rules: Rules, books: BookMap, sessions: Sessions, owner: Owners, log: seq<Report>, exempt: set<Key>,
                 o: Order, exec: nat)
    requires Consistent(rules, books, sessions, owner, log, exempt) && rules.policy.Real?
    requires o.remaining > 0.0 && Incoming(sessions, exempt, o)
    ensures var opposite := SideOf(books, o.instrument, Opposite(o.side));
            && Live(opposite)
            && var swept := Sweep(o.(state := Booked), opposite);
               && Consistent(rules, PutSide(books, o.instrument, Opposite(o.side), swept.opposite),
                             RecordAll(sessions, swept.trades), owner, log + Reports(swept.trades, exec), exempt)
               && Incoming(RecordAll(sessions, swept.trades), exempt, swept.incoming)
  {
    var booked, opposite := o.(state := Booked), SideOf(books, o.instrument, Opposite(o.side));
    BookUncrossed(rules, books, o.instrument);
    Trading.UncrossedLive(BookOf(books, o.instrument));
    Trading.SweepShape(booked, opposite);
    SweepFills(rules, books, sessions, owner, log, exempt, booked, Sweep(booked, opposite).trades, exec);
  }

  /** The own side after Add, in one PutSide on top of the swept side. */
  lemma AddAsSides(books: BookMap, o: Order)
    requires o.remaining >= 0.0 && Live(SideOf(books, o.instrument, Opposite(o.side)))
    ensures var i, side := o.instrument, o.side;
            var swept := Sweep(o.(state := Booked), SideOf(books, i, Opposite(side)));
            var books' := PutSide(books, i, Opposite(side), swept.opposite);
            var added := Trading.Add(BookOf(books, i), o);
            && SideOf(books', i, side) == SideOf(books, i, side)
            && added.trades == swept.trades
            && books[i := added.book] == Rested(books', o, swept.incoming)
            && added.final == Finished(o, swept.incoming)
  {
    hide Sweep, Enqueue;
  }

  ghost predicate Addable(rules: Rules, o: Order) {
    && o.remaining > 0.0 && Balanced(o) && o.arrival <= rules.arrivals
    && (o.orderType.Limit? ==> o.price > 0.0)
    && (o.id == QUOTE_ORDER_ID ==> o.orderType.Limit? && o.exchange.QuoteLeg?) && !o.exchange.Unassigned?
  }

  lemma RemainderOk(rules: Rules, o: Order, left: Order)
    requires Addable(rules, o) && o.orderType.Limit? && SameOrder(left, o) && Balanced(left) && left.remaining > 0.0
    requires left.state.Booked? || left.state.PartialFill?
    ensures EntryOk(rules, o.instrument, o.side, Resting(o.price, left))
  {
  }

  function Finished(o: Order, left: Order): Order {
    if left.remaining != 0.0 && o.orderType.Market? then left.(state := Cancelled) else left
  }

  function Rested(books: BookMap, o: Order, left: Order): BookMap {
    if left.remaining == 0.0 || o.orderType.Market? then books
    else PutSide(books, o.instrument, o.side,
                 Enqueue(o.side, SideOf(books, o.instrument, o.side), Resting(o.price, left)))
  }

  /** After its trades, an order is rested, cancelled or done. */
  lemma FinishRegular(rules: Rules, books: BookMap, sessions: Sessions, owner: Owners, log: seq<Report>, o: Order,
                      left: Order)
    requires Consistent(rules, books, sessions, owner, log, {o.Key()})
    requires Addable(rules, o) && o.id != QUOTE_ORDER_ID && Incoming(sessions, {o.Key()}, left)
    requires left.remaining >= 0.0 && SameOrder(left, o) && (left.remaining == 0.0 ==> left.state.Filled?)
    requires left.remaining > 0.0 ==> left.state.Booked? || left.state.PartialFill?
    requires LaterThan(o, SideOf(books, o.instrument, o.side))
    requires var s := Enqueue(o.side, SideOf(books, o.instrument, o.side), Resting(o.price, left));
             o.orderType.Limit? && left.remaining != 0.0 ==>
               Apart(BookOf(books, o.instrument).With(o.side, s).bids, BookOf(books, o.instrument).With(o.side, s).asks)
    ensures RecordAt(sessions, o.Key()).Some?
    ensures Consistent(rules, Rested(books, o, left), PutRecord(sessions, Finished(o, left)), owner, log, {})
  {
    hide Enqueue, Consistent, PutSide, Apart, EntryOk;
    if left.remaining == 0.0 || o.orderType.Market? {
      EndOrder(rules, books, sessions, owner, log, Finished(o, left));
    } else {
      RemainderOk(rules, o, left);
      RestOrder(rules, books, sessions, owner, log, left);
    }
  }

  /** A regular order goes through the matcher: trades, records, reports and book end consistent. */
  lemma AddRegular(rules: Rules, books: BookMap, sessions: Sessions, owner: Owners, log: seq<Report>, o: Order,
                   exec: nat)
    requires Consistent(rules, books, sessions, owner, log, {o.Key()}) && rules.policy.Real?
    requires Addable(rules, o) && o.id != QUOTE_ORDER_ID && Incoming(sessions, {o.Key()}, o)
    requires LaterThan(o, SideOf(books, o.instrument, o.side))
    ensures Live(SideOf(books, o.instrument, Opposite(o.side)))
    ensures var added := Trading.Add(BookOf(books, o.instrument), o);
            var sessions' := RecordAll(sessions, added.trades);
            && RecordAt(sessions', o.Key()).Some? && added.final.Key() == o.Key()
            && Consistent(rules, books[o.instrument := added.book], PutRecord(sessions', added.final), owner,
                          log + Reports(added.trades, exec), {})
  {
    var i, side := o.instrument, o.side;
    AddSwept(rules, books, sessions, owner, log, {o.Key()}, o, exec);
    AddAsSides(books, o);
    AddApart(rules, books, o);
    var swept := Sweep(o.(state := Booked), SideOf(books, i, Opposite(side)));
    SweepEnds(o.(state := Booked), SideOf(books, i, Opposite(side)));
    hide Sweep, Enqueue, Reports, RecordAll, Consistent, Incoming, Trading.Add, PutSide, SideOf, Live, Apart;
    FinishRegular(rules, PutSide(books, i, Opposite(side), swept.opposite), RecordAll(sessions, swept.trades), owner,
                  log + Reports(swept.trades, exec), o, swept.incoming);
  }

  /** Whatever remains of the incoming order does not cross what remains of the other side. */
  lemma AddApart(rules: Rules, books: BookMap, o: Order)
    requires BooksOk(rules, books) && rules.policy.Real? && o.remaining > 0.0
    requires LaterThan(o, SideOf(books, o.instrument, o.side))
    ensures Live(SideOf(books, o.instrument, Opposite(o.side)))
    ensures var i, side := o.instrument, o.side;
            var swept := Sweep(o.(state := Booked), SideOf(books, i, Opposite(side)));
            var books' := PutSide(books, i, Opposite(side), swept.opposite);
            var s := Enqueue(side, SideOf(books', i, side), Resting(o.price, swept.incoming));
            o.orderType.Limit? && swept.incoming.remaining != 0.0 ==>
              Apart(BookOf(books', i).With(side, s).bids, BookOf(books', i).With(side, s).asks)
  {
    BookUncrossed(rules, books, o.instrument);
    Trading.UncrossedLive(BookOf(books, o.instrument));
    Trading.AddKeepsUncrossed(BookOf(books, o.instrument), o);
    UncrossedApart(Trading.Add(BookOf(books, o.instrument), o).book);
    hide Sweep, Enqueue, Uncrossed, Apart;
  }

  lemma UncrossedApart(book: Book)
    requires Uncrossed(book)
    ensures Apart(book.bids, book.asks)
  {
  }

  // ---------------------------------------------------------------- quotes

  /** Fill reports touch no quote. */
  lemma {:induction false} RecordAllQuotes(sessions: Sessions, trades: seq<Trade>)
    ensures RecordAll(sessions, trades).Keys == sessions.Keys
    ensures forall s :: s in sessions ==> RecordAll(sessions, trades)[s].quotes == sessions[s].quotes
  {
    if trades != [] {
      RecordAllQuotes(sessions, trades[..|trades| - 1]);
    }
  }

  /** A quote leg known to its session goes through the matcher. */
  lemma AddQuoteLeg(rules: Rules, books: BookMap, sessions: Sessions, owner: Owners, log: seq<Report>, o: Order,
                    exec: nat)
    requires Consistent(rules, books, sessions, owner, log, {}) && rules.policy.Real?
    requires Addable(rules, o) && o.id == QUOTE_ORDER_ID && Mirrored(o, sessions)
    requires Absent(SideOf(books, o.instrument, o.side), o.Key()) && LaterThan(o, SideOf(books, o.instrument, o.side))
    ensures Live(SideOf(books, o.instrument, Opposite(o.side)))
    ensures var added := Trading.Add(BookOf(books, o.instrument), o);
            Consistent(rules, books[o.instrument := added.book], RecordAll(sessions, added.trades), owner,
                       log + Reports(added.trades, exec), {})
  {
    var i, side := o.instrument, o.side;
    AddSwept(rules, books, sessions, owner, log, {}, o, exec);
    AddAsSides(books, o);
    AddApart(rules, books, o);
    var swept := Sweep(o.(state := Booked), SideOf(books, i, Opposite(side)));
    SweepEnds(o.(state := Booked), SideOf(books, i, Opposite(side)));
    RecordAllQuotes(sessions, swept.trades);
    hide Sweep, Enqueue, Reports, RecordAll, Consistent, Trading.Add, PutSide, SideOf, Live, Apart, Absent;
    FinishQuote(rules, PutSide(books, i, Opposite(side), swept.opposite), RecordAll(sessions, swept.trades), owner,
                log + Reports(swept.trades, exec), o, swept.incoming);
  }

  lemma FinishQuote(rules: Rules, books: BookMap, sessions: Sessions, owner: Owners, log: seq<Report>, o: Order,
                    left: Order)
    requires Consistent(rules, books, sessions, owner, log, {}) && Addable(rules, o) && o.id == QUOTE_ORDER_ID
    requires Mirrored(left, sessions) && SameOrder(left, o) && Balanced(left)
    requires left.remaining > 0.0 ==> left.state.Booked? || left.state.PartialFill?
    requires Absent(SideOf(books, o.instrument, o.side), o.Key()) && LaterThan(o, SideOf(books, o.instrument, o.side))
    requires var s := Enqueue(o.side, SideOf(books, o.instrument, o.side), Resting(o.price, left));
             left.remaining != 0.0 ==>
               Apart(BookOf(books, o.instrument).With(o.side, s).bids, BookOf(books, o.instrument).With(o.side, s).asks)
    ensures Consistent(rules, Rested(books, o, left), sessions, owner, log, {})
  {
    if left.remaining != 0.0 {
      RemainderOk(rules, o, left);
      MirrorQuoteInsert(books, sessions, left);
      SideOfOk(rules, books, o.instrument, o.side);
      SideOfOk(rules, books, o.instrument, Opposite(o.side));
      EnqueueOk(rules, o.instrument, o.side, SideOf(books, o.instrument, o.side), Resting(o.price, left));
    }
  }

  lemma QuotePutStep(rules: Rules, books: BookMap, sessions: Sessions, owner: Owners, log: seq<Report>, s: string,
                     i: InstrumentId, pair: QuotePair)
    requires Consistent(rules, books, sessions, owner, log, {}) && s in sessions
    requires LegFits(SideOf(books, i, Buy), (s, QUOTE_ORDER_ID), pair.bid)
    requires LegFits(SideOf(books, i, Sell), (s, QUOTE_ORDER_ID), pair.ask)
    ensures Consistent(rules, books, PutQuote(sessions, s, i, pair), owner, log, {})
  {
    MirrorQuotePut(rules, books, sessions, s, i, pair);
    var after := PutQuote(sessions, s, i, pair);
    forall u, id | u in after && id in after[u].orders
      ensures u in sessions && after[u].orders[id] == sessions[u].orders[id]
    {
    }
  }

  /** What the book holds of a quote key are legs of the recorded quote. */
  lemma LegsFit(rules: Rules, books: BookMap, sessions: Sessions, s: string, i: InstrumentId, side: Side)
    requires BooksOk(rules, books) && Mirror(books, sessions, {}) && s in sessions
    ensures LegFits(SideOf(books, i, side), (s, QUOTE_ORDER_ID),
                    if i in sessions[s].quotes then sessions[s].quotes[i].Leg(side) else None)
  {
    SideOfOk(rules, books, i, side);
    forall e | e in SideOf(books, i, side) && e.Key() == (s, QUOTE_ORDER_ID)
      ensures i in sessions[s].quotes && sessions[s].quotes[i].Leg(side).Some?
      ensures SameOrder(e.order, sessions[s].quotes[i].Leg(side).value)
    {
      assert i in books && e in books[i].On(side);
      assert EntryOk(rules, i, side, e);
    }
  }

  /** Taking the recorded leg out leaves nothing of the quote on that side. */
  lemma LegGone(s: seq<Resting>, key: Key, leg: Option<Order>)
    requires Distinct(s) && LegFits(s, key, leg)
    requires forall e :: e in s ==> e.level == e.order.price
    ensures Absent(if leg.Some? then Without(s, leg.value.price, key) else s, key)
  {
    if leg.Some? {
      var t := Without(s, leg.value.price, key);
      if Find(s, leg.value.price, key).Some? {
        WithoutMembers(s, leg.value.price, key);
      } else {
        WithoutMiss(s, leg.value.price, key);
        forall e | e in s ensures e.Key() != key {
          if e.Key() == key {
            FindMember(s, e);
          }
        }
      }
    }
  }

  // ---------------------------------------------------------------- folding over reports

  lemma {:induction false} RecordAllAppend(sessions: Sessions, a: seq<Trade>, b: seq<Trade>)
    ensures RecordAll(sessions, a + b) == RecordAll(RecordAll(sessions, a), b)
  {
    if b == [] {
      assert a + b == a;
    } else {
      var n := |b| - 1;
      assert (a + b)[..|a + b| - 1] == a + b[..n];
      RecordAllAppend(sessions, a, b[..n]);
    }
  }

  lemma {:induction false} ReportsAppend(a: seq<Trade>, b: seq<Trade>, exec: nat)
    ensures Reports(a + b, exec) == Reports(a, exec) + Reports(b, exec + 2 * |a|)
  {
    if b == [] {
      assert a + b == a;
    } else {
      var n := |b| - 1;
      assert (a + b)[..|a + b| - 1] == a + b[..n];
      ReportsAppend(a, b[..n], exec);
      assert 2 * (|a + b| - 1) == 2 * |a| + 2 * n;
      Assoc(Reports(a, exec), Reports(b[..n], exec + 2 * |a|), TradeReports(b[n], exec + 2 * |a| + 2 * n));
    }
  }

  lemma {:induction false} RecordAllPutQuote(sessions: Sessions, trades: seq<Trade>, s: string, i: InstrumentId,
                                             pair: QuotePair)
    requires s in sessions
    ensures RecordAll(sessions, trades).Keys == sessions.Keys
    ensures RecordAll(PutQuote(sessions, s, i, pair), trades) == PutQuote(RecordAll(sessions, trades), s, i, pair)
  {
    if trades != [] {
      var shorter, t := trades[..|trades| - 1], trades[|trades| - 1];
      RecordAllPutQuote(sessions, shorter, s, i, pair);
      RecordFillPutQuote(RecordAll(sessions, shorter), t.buyer, s, i, pair);
      RecordFillPutQuote(RecordFill(RecordAll(sessions, shorter), t.buyer), t.seller, s, i, pair);
    }
  }

  lemma RecordFillPutQuote(sessions: Sessions, f: Order, s: string, i: InstrumentId, pair: QuotePair)
    requires s in sessions
    ensures RecordFill(sessions, f).Keys == sessions.Keys
    ensures RecordFill(PutQuote(sessions, s, i, pair), f) == PutQuote(RecordFill(sessions, f), s, i, pair)
  {
  }
}
