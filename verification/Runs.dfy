/** Whole runs of the exchange: every sequence of public calls from the empty engine
    (src/core/exchange/mod.rs). */
module Runs {
  import opened Orders
  import opened Ladders
  import opened Matching
  import opened Mirrors
  import opened Fills
  import opened Ledgers
  import opened MarketData
  import opened Displays
  import opened Engines
  import Operations
  import Steps
  import opened Quoting
  import Filing

  datatype Command =
    | Register(session: string)
    | Disconnect(session: string)
    | Create(session: string, order: Operations.NewOrder, today: int)
    | Modify(session: string, origId: int, newId: int, orderType: OrderType, price: real, quantity: real, today: int)
    | Cancel(session: string, origId: int, clOrdId: int)
    | PlaceQuote(session: string, instrument: int, bidPrice: real, bidQuantity: real, askPrice: real, askQuantity: real)
    | Expire(today: int)

  /** Apply one public call. A live session id is not registered again: the acceptor reserves it. */
  method Apply(e: Engine, c: Command) returns (r: Result)
    requires e.Inv() && e.pending == map[]
    modifies e
    ensures e.Inv() && e.pending == map[] && r != Err(BookInvariantViolation)
    ensures Advanced(old(e.slots), e.slots)
  {
    hide Sound, Published, VolumesMatch, CancelEffect, ExpiredBy;
    hide Operations.Created, Operations.Modified, Operations.Quoted;
    r := Ok;
    match c {
      case Register(session) =>
        if session !in e.sessions {
          e.RegisterSession(session);
        }
      case Disconnect(session) =>
        e.SessionDisconnect(session);
      case Create(session, order, today) =>
        r := e.CreateOrder(session, order, today);
      case Modify(session, origId, newId, orderType, price, quantity, today) =>
        r := e.ModifyOrderWithType(session, origId, newId, orderType, price, quantity, today);
      case Cancel(session, origId, clOrdId) =>
        r := e.CancelOrderWithId(session, origId, clOrdId);
      case PlaceQuote(session, instrument, bidPrice, bidQuantity, askPrice, askQuantity) =>
        r := e.Quote(session, instrument, bidPrice, bidQuantity, askPrice, askQuantity);
      case Expire(today) =>
        e.ExpireDayOrdersAt(today);
    }
  }

  /** In a Real book nothing crosses and no market order rests. */
  ghost predicate AllUncrossed(policy: FillPolicy, books: BookMap) {
    policy.Real? ==> forall i :: i in books ==> Uncrossed(books[i])
  }

  ghost predicate AllAccounted(sessions: Sessions, log: seq<Report>) {
    forall s, id :: s in sessions && id in sessions[s].orders ==> Accounted(sessions[s].orders[id], log)
  }

  ghost predicate AllShown(instruments: set<InstrumentId>, books: BookMap, slots: map<InstrumentId, Snapshot>,
                           stats: map<InstrumentId, Stats>)
  {
    slots.Keys == instruments && forall i :: i in instruments ==> Shows(slots[i], BookOf(books, i), stats, i)
  }

  /** A client order is in a book if and only if its record is active, then only there: at the level of
      its recorded price, on its own side and instrument, with equal fields. */
  ghost predicate BookedIffActive(books: BookMap, sessions: Sessions) {
    forall s, id :: s in sessions && id in sessions[s].orders ==> BookedAs((s, id), sessions[s].orders[id], books)
  }

  ghost predicate BookedAs(key: Key, r: Order, books: BookMap) {
    && (r.state.IsActive() <==> Resting(r.price, r) in SideOf(books, r.instrument, r.side))
    && (forall i, side, e :: e in SideOf(books, i, side) && e.Key() == key ==>
          e == Resting(r.price, r) && i == r.instrument && side == r.side)
  }

  /** What a run leaves behind, besides its results. */
  datatype Outcome = Outcome(
    arrivals: nat, books: BookMap, sessions: Sessions, log: seq<Report>,
    slots: map<InstrumentId, Snapshot>, stats: map<InstrumentId, Stats>)

  /** Everything that holds after any run: every book is in price-time priority with active, balanced
      orders on their own side, instrument and level, each identity once per side; books and records
      agree both ways; Real books are uncrossed; every record's fills are exactly those reported;
      every snapshot shows its book; volumes and extremes are those of the fills; reports are numbered
      without a gap and make sense. */
  ghost predicate Sane(policy: FillPolicy, instruments: set<InstrumentId>, o: Outcome) {
    && BooksOk(Rules(policy, o.arrivals), o.books)
    && Mirror(o.books, o.sessions, {}) && BookedIffActive(o.books, o.sessions)
    && AllUncrossed(policy, o.books) && AllAccounted(o.sessions, o.log)
    && AllShown(instruments, o.books, o.slots, o.stats) && VolumesMatch(policy, o.stats, o.log)
    && ExecIds(o.log, |o.log|) && AllReported(o.log)
    && AllTrue(instruments, o.books, o.slots)
  }

  /** Every snapshot lists exactly the prices somebody rests at, best first, with all that is open there,
      and names the best price and quantity of either side. */
  ghost predicate AllTrue(instruments: set<InstrumentId>, books: BookMap, slots: map<InstrumentId, Snapshot>) {
    slots.Keys == instruments && forall i :: i in instruments ==> Displayed(slots[i], BookOf(books, i))
  }

  lemma TrueIn(l: Ledger, slots: map<InstrumentId, Snapshot>, stats: map<InstrumentId, Stats>, sequence: nat)
    requires Sound(l, {}) && Published(l.instruments, l.books, slots, stats, map[], sequence, {})
    ensures AllTrue(l.instruments, l.books, slots)
  {
    forall i | i in l.instruments ensures TidyBook(BookOf(l.books, i)) {
      BookTidy(l, i);
    }
    hide Sound, Published, TidyBook;
    AllDisplayed(l.instruments, l.books, slots, stats, sequence);
  }

  lemma BookTidy(l: Ledger, i: InstrumentId)
    requires Sound(l, {})
    ensures TidyBook(BookOf(l.books, i))
  {
    forall side ensures Tidy(side, SideOf(l.books, i, side)) {
      SideOfOk(l.rules, l.books, i, side);
      forall e | e in SideOf(l.books, i, side) ensures e.level > 0.0 && e.order.remaining > 0.0 {
        assert EntryOk(l.rules, i, side, e);
      }
    }
    assert Tidy(Buy, SideOf(l.books, i, Buy)) && Tidy(Sell, SideOf(l.books, i, Sell));
  }

  ghost function Left(e: Engine): Outcome
    reads e
  {
    Outcome(e.nextArrival, e.books, e.sessions, e.log, e.slots, e.stats)
  }

  /** The invariant every operation keeps says all of it. */
  lemma InvMeans(e: Engine)
    requires e.Inv() && e.pending == map[]
    ensures Sane(e.policy, e.instruments, Left(e))
  {
    var l := e.Now();
    assert Sound(l, {});
    BookedIn(l);
    AccountedIn(l);
    TrueIn(l, e.slots, e.stats, e.sequence);
    if e.policy.Real? {
      forall i | i in e.books ensures Uncrossed(e.books[i]) {
        BookUncrossedIn(l, i);
      }
    }
  }

  lemma AccountedIn(l: Ledger)
    requires Sound(l, {})
    ensures AllAccounted(l.sessions, l.log)
  {
    forall s, id | s in l.sessions && id in l.sessions[s].orders ensures Accounted(l.sessions[s].orders[id], l.log) {
    }
  }

  lemma BookedIn(l: Ledger)
    requires Sound(l, {})
    ensures BookedIffActive(l.books, l.sessions)
  {
    forall s, id | s in l.sessions && id in l.sessions[s].orders
      ensures BookedAs((s, id), l.sessions[s].orders[id], l.books)
    {
      RecordBooked(l, l.sessions[s].orders[id], (s, id));
    }
  }

  lemma RecordBooked(l: Ledger, r: Order, key: Key)
    requires Sound(l, {}) && RecordAt(l.sessions, key) == Some(r)
    ensures BookedAs(key, r, l.books)
  {
    assert RecordOk((key.0, key.1), l.sessions[key.0].orders[key.1], l.books);
    if r.state.IsActive() {
      SoundTake(l, r);
      Filing.Found(SideOf(l.books, r.instrument, r.side), r.price, key);
    }
    forall i, side, e | e in SideOf(l.books, i, side) && e.Key() == key
      ensures e == Resting(r.price, r) && i == r.instrument && side == r.side && r.state.IsActive()
    {
      EntryRecorded(l, i, side, e);
    }
  }

  lemma EntryRecorded(l: Ledger, i: InstrumentId, side: Side, e: Resting)
    requires Sound(l, {}) && e in SideOf(l.books, i, side) && e.order.id != QUOTE_ORDER_ID
    ensures RecordAt(l.sessions, e.Key()) == Some(e.order) && e.level == e.order.price && e.order.state.IsActive()
    ensures e.order.instrument == i && e.order.side == side
  {
    assert i in l.books && e in l.books[i].On(side);
    SideOfOk(l.rules, l.books, i, side);
    assert EntryOk(l.rules, i, side, e) && Mirrored(e.order, l.sessions);
  }

  lemma BookUncrossedIn(l: Ledger, i: InstrumentId)
    requires Sound(l, {}) && l.rules.policy.Real? && i in l.books
    ensures Uncrossed(l.books[i])
  {
    Steps.BookUncrossed(l.rules, l.books, i);
  }

  /** After any sequence of public calls, under either policy, the engine is sane, and no call ever
      reported a book fault. */
  method Run(policy: FillPolicy, instruments: set<InstrumentId>, commands: seq<Command>)
    returns (results: seq<Result>, left: Outcome)
    ensures |results| == |commands|
    ensures forall k :: 0 <= k < |results| ==> results[k] != Err(BookInvariantViolation)
    ensures Sane(policy, instruments, left)
  {
    hide Sound, Published, VolumesMatch, Sane;
    var e;
    e, results := Drive(policy, instruments, commands);
    InvMeans(e);
    left := Outcome(e.nextArrival, e.books, e.sessions, e.log, e.slots, e.stats);
  }

  /** Build an engine and apply the commands one by one. */
  method Drive(policy: FillPolicy, instruments: set<InstrumentId>, commands: seq<Command>)
    returns (e: Engine, results: seq<Result>)
    ensures fresh(e) && e.Inv() && e.pending == map[] && e.policy == policy && e.instruments == instruments
    ensures |results| == |commands| && forall k :: 0 <= k < |results| ==> results[k] != Err(BookInvariantViolation)
  {
    hide Sound, Published, VolumesMatch;
    e := new Engine(policy, instruments);
    results := [];
    for k := 0 to |commands|
      invariant e.Inv() && e.pending == map[] && fresh(e) && e.policy == policy && e.instruments == instruments
      invariant |results| == k && forall j :: 0 <= j < k ==> results[j] != Err(BookInvariantViolation)
    {
      var r := Apply(e, commands[k]);
      results := results + [r];
    }
  }

  // ---------------------------------------------------------------- removal

  /** No client order on the books is dated before `today`. */
  ghost predicate NoneOverdue(books: BookMap, dates: Dates, today: int) {
    forall i, side, entry :: entry in SideOf(books, i, side) && entry.order.id != QUOTE_ORDER_ID ==>
      entry.Key() in dates && dates[entry.Key()] >= today
  }

  lemma BookedNotOverdue(l: Ledger, today: int)
    requires Sound(l, {}) && OverdueKeys(l.dates, today) == {}
    ensures NoneOverdue(l.books, l.dates, today)
  {
    hide Sound;
    forall i, side, entry | entry in SideOf(l.books, i, side) && entry.order.id != QUOTE_ORDER_ID
      ensures entry.Key() in l.dates && l.dates[entry.Key()] >= today
    {
      BookedDated(l, i, side, entry);
      assert entry.Key() !in OverdueKeys(l.dates, today);
    }
  }

  /** After any run, expiry at a date leaves no older order on the books, and expiring again at the
      same date reports nothing and changes nothing. */
  method RunThenExpire(policy: FillPolicy, instruments: set<InstrumentId>, commands: seq<Command>, today: int)
    returns (books: BookMap, dates: Dates, log: seq<Report>, booksAgain: BookMap, logAgain: seq<Report>)
    ensures NoneOverdue(books, dates, today)
    ensures booksAgain == books && logAgain == log
  {
    hide Sound, Published, VolumesMatch, NoneOverdue;
    var e, results := Drive(policy, instruments, commands);
    e.ExpireDayOrdersAt(today);
    books, dates, log := e.books, e.orderDates, e.log;
    BookedNotOverdue(e.Now(), today);
    e.ExpireDayOrdersAt(today);
    booksAgain, logAgain := e.books, e.log;
  }

  /** After any run, disconnecting a live session takes exactly its orders and quote legs off every
      book and leaves everybody else's, in their order. */
  method RunThenDisconnect(policy: FillPolicy, instruments: set<InstrumentId>, commands: seq<Command>, session: string)
    returns (live: bool, before: BookMap, after: BookMap)
    ensures live ==> forall i, side :: SideOf(after, i, side) == Others(SideOf(before, i, side), session)
    ensures live ==> forall i, side, entry :: entry in SideOf(after, i, side) <==>
              entry in SideOf(before, i, side) && entry.order.session != session
    ensures !live ==> after == before
  {
    hide Sound, Published, VolumesMatch, SideOf, Others, DatesWithout;
    var e, results := Drive(policy, instruments, commands);
    live, before := session in e.sessions, e.books;
    e.SessionDisconnect(session);
    after := e.books;
    if live {
      forall i, side, entry ensures entry in SideOf(after, i, side) <==>
              entry in SideOf(before, i, side) && entry.order.session != session
      {
        OthersMeans(SideOf(before, i, side), session);
      }
    }
  }
}
