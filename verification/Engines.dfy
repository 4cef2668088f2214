/** The exchange engine (src/core/exchange/mod.rs): books, per-session records, published market
    data and generated reports, updated in place by every public operation. */
module Engines {
  import opened Orders
  import opened Ladders
  import opened Matching
  import opened Mirrors
  import opened Fills
  import opened Steps
  import opened Ledgers
  import opened MarketData
  import opened Quoting
  import opened Expiry
  import opened Operations
  import opened Answers
  import opened QuoteAnswers
  import opened Displays
  import Books
  import Trading
  import TierPlans

  datatype EngineError =
    | OrderNotFound
    | OrderIsNotActive
    | DuplicateOrderId(id: int)
    | InvalidOrderId(id: int)
    | InvalidQuantity
    | InvalidPrice
    | QuantityBelowCumulated
    | UnknownSymbol(instrument: int)
    | TooManyTierFills
    | QuoteNotSupportedInTiered
    | BookInvariantViolation

  datatype Result = Ok | Err(error: EngineError)

  class Engine {
    const policy: FillPolicy
    const instruments: set<InstrumentId>
    var books: BookMap
    var sessions: Sessions
    var nextExchangeId: nat
    var nextTradeId: nat
    var nextExecId: nat
    var nextArrival: nat
    var sequence: nat
    var slots: map<InstrumentId, Snapshot>
    var pending: map<InstrumentId, nat>
    var stats: map<InstrumentId, Stats>
    var orderDates: Dates
    /** Every report handed to a session so far. */
    var log: seq<Report>
    /** Which live order an exchange number belongs to. */
    ghost var owner: Owners

    ghost function Now(): Ledger
      reads this
    {
      Ledger(Rules(policy, nextArrival), instruments, books, sessions, owner, orderDates, log, nextExchangeId)
    }

    /** Books, records, reports and numbers agree. */
    ghost predicate Coherent(exempt: set<Key>)
      reads this
    {
      Sound(Now(), exempt) && nextExecId == |log|
    }

    ghost function View(): EngineView
      reads this
    {
      EngineView(books, sessions, orderDates, log)
    }

    ghost predicate Fresh(dirty: set<InstrumentId>)
      reads this
    {
      Published(instruments, books, slots, stats, pending, sequence, dirty)
    }

    /** What every public operation keeps. */
    ghost predicate Inv()
      reads this
    {
      Coherent({}) && Fresh({}) && VolumesMatch(policy, stats, log)
    }

    constructor (policy: FillPolicy, instruments: set<InstrumentId>)
      ensures Inv() && pending == map[] && log == [] && sessions == map[]
      ensures this.policy == policy && this.instruments == instruments
    {
      this.policy := policy;
      this.instruments := instruments;
      books, sessions, owner := map[], map[], map[];
      nextExchangeId, nextTradeId, nextExecId, nextArrival, sequence := 0, 0, 0, 0, 0;
      slots := map i | i in instruments :: NO_SNAPSHOT;
      pending, stats, orderDates, log := map[], map[], map[], [];
    }

    // -------------------------------------------------------------- reports

    /** Report an order's status; nothing but the log changes. */
    method SendStatusFor(o: Order, clOrdId: OrderId, execType: ExecType, orig: Option<OrderId>, ghost exempt: set<Key>)
      requires Coherent(exempt) && Presentable(o) && (execType.ExecReplaced? ==> orig.Some?)
      modifies this`log, this`nextExecId
      ensures Coherent(exempt)
      ensures nextExecId == old(nextExecId) + 1
      ensures Now() == StatusLedger(old(Now()), o, clOrdId, execType, orig)
      ensures old(VolumesMatch(policy, stats, log)) ==> VolumesMatch(policy, stats, log)
    {
      hide Sound, VolumesMatch;
      nextExecId := nextExecId + 1;
      var report := Status(o, clOrdId, execType, orig, nextExecId);
      SoundStatus(Now(), exempt, report);
      log := log + [report];
      if old(VolumesMatch(policy, stats, log)) {
        VolumesStatus(policy, stats, old(log), report);
      }
    }

    /** Report one fill and carry it into the record of a regular order. */
    method SendFill(f: Order, price: Price, quantity: real)
      modifies this`sessions, this`log, this`nextExecId
      ensures nextExecId == old(nextExecId) + 1
      ensures sessions == RecordFill(old(sessions), f)
      ensures log == old(log) + [Fill(f, price, quantity, nextExecId)]
    {
      if f.id != QUOTE_ORDER_ID && f.session in sessions && f.id in sessions[f.session].orders {
        var record := sessions[f.session].orders[f.id];
        record := record.(remaining := f.remaining, cum := f.cum, avg := f.avg, state := f.state);
        var session := sessions[f.session];
        sessions := sessions[f.session := session.(orders := session.orders[f.id := record])];
      }
      nextExecId := nextExecId + 1;
      log := log + [Fill(f, price, quantity, nextExecId)];
    }

    /** Report both sides of every trade of a batch. */
    method SendTradeReports(trades: seq<Trade>)
      modifies this`sessions, this`log, this`nextExecId, this`nextTradeId
      ensures nextExecId == old(nextExecId) + 2 * |trades|
      ensures sessions == RecordAll(old(sessions), trades)
      ensures log == old(log) + Reports(trades, old(nextExecId))
      ensures nextTradeId == old(nextTradeId) + if trades == [] then 0 else 1
    {
      if trades == [] {
        assert log + [] == log;
        return;
      }
      nextTradeId := nextTradeId + 1;
      assert log + [] == log;
      for k := 0 to |trades|
        invariant nextExecId == old(nextExecId) + 2 * k && nextTradeId == old(nextTradeId) + 1
        invariant sessions == RecordAll(old(sessions), trades[..k])
        invariant log == old(log) + Reports(trades[..k], old(nextExecId))
      {
        hide RecordFill;
        var t := trades[k];
        assert trades[..k + 1][..k] == trades[..k];
        SendFill(t.buyer, t.price, t.quantity);
        SendFill(t.seller, t.price, t.quantity);
        assert log == old(log) + (Reports(trades[..k], old(nextExecId)) + TradeReports(t, old(nextExecId) + 2 * k));
      }
      assert trades[..|trades|] == trades;
    }

    /** Keep the record of a regular order at the engine's final state. */
    method SyncRecord(o: Order)
      modifies this`sessions
      ensures sessions == if o.id != QUOTE_ORDER_ID && RecordAt(old(sessions), o.Key()).Some?
                          then PutRecord(old(sessions), o) else old(sessions)
    {
      if o.id == QUOTE_ORDER_ID {
        return;
      }
      if o.session in sessions && o.id in sessions[o.session].orders {
        var session := sessions[o.session];
        sessions := sessions[o.session := session.(orders := session.orders[o.id := o])];
      }
    }

    // -------------------------------------------------------------- market data

    /** Advance the sequence for one instrument and fold its trades into the statistics. */
    method RecordMarketData(i: InstrumentId, trades: seq<Trade>)
      requires Fresh({i}) && i in instruments
      modifies this`sequence, this`pending, this`stats
      ensures sequence == old(sequence) + 1 && pending == old(pending)[i := sequence]
      ensures stats == old(stats)[i := StatsTrades(StatsOf(old(stats), i), trades)]
      ensures Fresh({})
    {
      hide Published;
      sequence := sequence + 1;
      pending := pending[i := sequence];
      var s := StatsOf(stats, i);
      for k := 0 to |trades|
        invariant s == StatsTrades(StatsOf(old(stats), i), trades[..k])
        invariant stats == old(stats)
      {
        var t := trades[k];
        s := s.(volume := s.volume + t.quantity);
        if !s.hasHighLow {
          s := s.(high := t.price, low := t.price, hasHighLow := true);
        } else {
          if t.price > s.high {
            s := s.(high := t.price);
          }
          if t.price < s.low {
            s := s.(low := t.price);
          }
        }
        assert trades[..k + 1][..k] == trades[..k];
      }
      assert trades[..|trades|] == trades;
      stats := stats[i := s];
      PublishedPending(instruments, books, slots, old(stats), old(pending), old(sequence), i, s);
    }

    /** Publish the last version of every changed instrument. */
    method PublishMarketData()
      requires Fresh({})
      modifies this`slots, this`stats, this`pending
      ensures Advanced(old(slots), slots)
      ensures Fresh({}) && pending == map[]
      ensures Newer(old(slots), slots, old(pending))
      ensures forall i: InstrumentId :: SameVolumes(StatsOf(stats, i), StatsOf(old(stats), i))
      ensures forall i :: i in instruments && TidyBook(BookOf(books, i)) ==> Displayed(slots[i], BookOf(books, i))
    {
      hide Depth, WithBest, Published, Shows, NewerSoFar;
      NewerNow(slots, pending);
      PublishedKeys(instruments, books, slots, stats, pending, sequence);
      while pending != map[]
        invariant Fresh({}) && slots.Keys == instruments && pending.Keys <= old(pending).Keys
        invariant NewerSoFar(old(slots), slots, old(pending), pending)
        invariant forall i: InstrumentId :: SameVolumes(StatsOf(stats, i), StatsOf(old(stats), i))
        decreases |pending|
      {
        var i :| i in pending;
        var book := BookOf(books, i);
        PublishedOne(instruments, books, slots, stats, pending, sequence, i);
        var s := WithBest(stats[i], book);
        NewerStep(old(slots), slots, old(pending), pending, i,
                  Snapshot(Depth(book.bids), Depth(book.asks), s, pending[i]));
        stats := stats[i := s];
        slots := slots[i := Snapshot(Depth(book.bids), Depth(book.asks), s, pending[i])];
        pending := pending - {i};
      }
      NewerAdvances(old(slots), slots, old(pending));
      AllDisplayed(instruments, books, slots, stats, sequence);
    }

    // -------------------------------------------------------------- cancel

    /** Take an order off the book of its instrument, if both are there. */
    method RemoveFromBook(key: Key, side: Side, price: Price, i: InstrumentId) returns (r: Option<Order>)
      modifies this`books
      ensures var outcome := Books.Remove(BookOf(old(books), i), key, side, price);
              if outcome.Done? then books == old(books)[i := outcome.book] && r == Some(outcome.order)
              else books == old(books) && r == None
    {
      if i !in books {
        return None;
      }
      match Books.Remove(books[i], key, side, price) {
        case Done(book, o) =>
          books := books[i := book];
          r := Some(o);
        case Refused(_) =>
          r := None;
      }
    }

    function RecordOf(session: string, id: int): Option<Order>
      reads this
    {
      if id >= 0 then RecordAt(sessions, (session, id)) else None
    }

    /** Why a cancel is refused, in the order the checks are made. */
    function CancelError(session: string, origId: int, clOrdId: int): Option<EngineError>
      reads this
    {
      if clOrdId <= 0 then Some(InvalidOrderId(clOrdId))
      else if RecordOf(session, origId).None? then Some(OrderNotFound)
      else if clOrdId != origId && RecordOf(session, clOrdId).Some? then Some(DuplicateOrderId(clOrdId))
      else if !RecordOf(session, origId).value.state.IsActive() then Some(OrderIsNotActive)
      else None
    }

    /** A request to cancel that is accepted. */
    predicate MayCancel(session: string, origId: int, clOrdId: int)
      reads this
    {
      && RecordOf(session, origId).Some? && RecordOf(session, origId).value.state.IsActive()
      && clOrdId > 0 && (clOrdId == origId || RecordOf(session, clOrdId).None?)
    }

    /** Each refusal of a cancel says what is wrong with it, and the first wrong thing is named. */
    lemma CancelRefusals(session: string, origId: int, clOrdId: int)
      ensures CancelError(session, origId, clOrdId).None? <==> MayCancel(session, origId, clOrdId)
      ensures var e := CancelError(session, origId, clOrdId);
              var known := RecordOf(session, origId).Some?;
              var used := clOrdId != origId && RecordOf(session, clOrdId).Some?;
              && (e == Some(InvalidOrderId(clOrdId)) <==> clOrdId <= 0)
              && (e == Some(OrderNotFound) <==> clOrdId > 0 && !known)
              && (e == Some(DuplicateOrderId(clOrdId)) <==> clOrdId > 0 && known && used)
              && (e == Some(OrderIsNotActive) <==>
                    clOrdId > 0 && known && !used && !RecordOf(session, origId).value.state.IsActive())
    {
    }

    /** Take an active order off its book. It is always found there. */
    method TakeActive(entry: Order) returns (removed: Option<Order>)
      requires Coherent({}) && Fresh({})
      requires RecordAt(sessions, entry.Key()) == Some(entry) && entry.state.IsActive()
      modifies this`books
      ensures Coherent({entry.Key()}) && Fresh({entry.instrument}) && entry.instrument in instruments
      ensures books == Taken(old(books), entry) && removed == Some(entry.(state := Cancelled))
      ensures entry.id != QUOTE_ORDER_ID && Balanced(entry) && entry.exchange.Number?
      ensures NumberedBy(entry, nextExchangeId)
    {
      hide Sound, Published, Without, Find;
      SoundTake(Now(), entry);
      removed := RemoveFromBook(entry.Key(), entry.side, entry.price, entry.instrument);
      PublishedDirty(instruments, old(books), slots, stats, pending, sequence, {}, entry.instrument,
                     books[entry.instrument]);
    }

    /** Set the record of an order that is in no book to its ended state. */
    method EndRecord(o: Order)
      requires Coherent({o.Key()}) && RecordAt(sessions, o.Key()).Some? && o.id != QUOTE_ORDER_ID && !o.state.IsActive()
      requires var r := RecordAt(sessions, o.Key()).value;
               o.exchange == r.exchange && o.cum == r.cum && o.avg == r.avg
      requires o.instrument in instruments && (!o.state.Expired? ==> Balanced(o))
      modifies this`sessions
      ensures Coherent({}) && sessions == PutRecord(old(sessions), o)
    {
      hide Sound;
      SoundEnd(Now(), o);
      sessions := PutRecord(sessions, o);
    }

    /** Publish whatever is pending. */
    method PublishPending()
      requires Coherent({}) && Fresh({}) && VolumesMatch(policy, stats, log)
      modifies this`slots, this`stats, this`pending
      ensures Advanced(old(slots), slots)
      ensures Inv() && pending == map[] && Newer(old(slots), slots, old(pending))
    {
      hide Sound, Published, VolumesMatch, Newer;
      PublishMarketData();
      VolumesSame(policy, old(stats), stats, log);
    }

    /** Record and publish a change of one book that made no trade. */
    method PublishChange(i: InstrumentId)
      requires Fresh({i}) && i in instruments && VolumesMatch(policy, stats, log)
      modifies this`sequence, this`pending, this`stats, this`slots
      ensures Advanced(old(slots), slots)
      ensures Fresh({}) && pending == map[] && VolumesMatch(policy, stats, log)
    {
      hide VolumesMatch, Published;
      RecordMarketData(i, []);
      PublishMarketData();
      VolumesSame(policy, old(stats), stats, log);
    }

    /** Cancel an active order: out of its book, recorded, published and reported. */
    method CancelActive(entry: Order, clOrdId: OrderId) returns (r: Result)
      requires Inv() && pending == map[]
      requires RecordAt(sessions, entry.Key()) == Some(entry) && entry.state.IsActive()
      modifies this`books, this`sessions, this`sequence, this`pending, this`stats, this`slots, this`log, this`nextExecId
      ensures Advanced(old(slots), slots)
      ensures Inv() && pending == map[]
      ensures r == Ok && CancelEffect(entry, clOrdId, old(View()), View())
    {
      hide Sound, Published, VolumesMatch, Taken;
      var removed := TakeActive(entry);
      if removed.None? {
        return Err(OrderNotFound);
      }
      var cancelled := removed.value;
      if cancelled.state.IsActive() {
        cancelled := cancelled.(state := Cancelled);
      }
      EndRecord(cancelled);
      PublishChange(cancelled.instrument);
      SendStatusFor(cancelled, clOrdId, ExecCancelled, Some(entry.id), {});
      r := Ok;
    }

    /** Cancel an order under a fresh request id. */
    method CancelOrderWithId(session: string, origId: int, clOrdId: int) returns (r: Result)
      requires Inv() && pending == map[]
      modifies this`books, this`sessions, this`sequence, this`pending, this`stats, this`slots, this`log, this`nextExecId
      ensures Advanced(old(slots), slots)
      ensures Inv() && pending == map[]
      ensures match old(CancelError(session, origId, clOrdId))
              case Some(e) => r == Err(e) && unchanged(this)
              case None => r == Ok && CancelEffect(old(RecordOf(session, origId)).value, clOrdId, old(View()), View())
      ensures r == Ok <==> old(MayCancel(session, origId, clOrdId))
      ensures r == Ok ==>
                && RecordOf(session, origId) == Some(old(RecordOf(session, origId)).value.(state := Cancelled))
                && |log| == |old(log)| + 1 && log[|old(log)|].Status? && log[|old(log)|].clOrdId == clOrdId
                && log[|old(log)|].orig == Some(origId) && log[|old(log)|].execType.ExecCancelled?
                && log[|old(log)|].order == RecordOf(session, origId).value
    {
      if clOrdId <= 0 {
        return Err(InvalidOrderId(clOrdId));
      }
      var found := RecordOf(session, origId);
      if found.None? {
        return Err(OrderNotFound);
      }
      if clOrdId != origId && RecordOf(session, clOrdId).Some? {
        return Err(DuplicateOrderId(clOrdId));
      }
      if !found.value.state.IsActive() {
        return Err(OrderIsNotActive);
      }
      hide Sound, Published, VolumesMatch, CancelEffect;
      SoundRecord(Now(), {}, (session, origId));
      r := CancelActive(found.value, clOrdId);
    }

    // -------------------------------------------------------------- create

    static function InputError(id: int, orderType: OrderType, price: real, quantity: real): Option<EngineError> {
      if id <= 0 then Some(InvalidOrderId(id))
      else if quantity <= 0.0 then Some(InvalidQuantity)
      else if price < 0.0 || (orderType.Limit? && price <= 0.0) then Some(InvalidPrice)
      else None
    }

    /** Why a new order is refused, in the order the checks are made. */
    function CreateError(session: string, new': NewOrder): Option<EngineError>
      reads this
    {
      if !(new'.instrument >= 0 && new'.instrument in instruments) then Some(UnknownSymbol(new'.instrument))
      else if InputError(new'.id, new'.orderType, new'.price, new'.quantity).Some? then
        InputError(new'.id, new'.orderType, new'.price, new'.quantity)
      else if session !in sessions then Some(OrderNotFound)
      else if new'.id in sessions[session].orders then Some(DuplicateOrderId(new'.id))
      else if policy.Tiered? && new'.quantity > TierPlans.MAX_REMAINING then Some(TooManyTierFills)
      else None
    }

    /** A request for a new order that is accepted. */
    predicate MayCreate(session: string, new': NewOrder)
      reads this
    {
      && new'.instrument >= 0 && new'.instrument in instruments && session in sessions
      && new'.id > 0 && new'.id !in sessions[session].orders
      && new'.quantity > 0.0 && (policy.Tiered? ==> new'.quantity <= 25600.0)
      && (if new'.orderType.Limit? then new'.price > 0.0 else new'.price >= 0.0)
    }

    /** Each refusal of a new order says what is wrong with it, and the first wrong thing is named. */
    lemma CreateRefusals(session: string, new': NewOrder)
      ensures CreateError(session, new').None? <==> MayCreate(session, new')
      ensures var e := CreateError(session, new');
              var listed := new'.instrument >= 0 && new'.instrument in instruments;
              var priced := if new'.orderType.Limit? then new'.price > 0.0 else new'.price >= 0.0;
              var sized, known := new'.quantity > 0.0, session in sessions;
              var used := known && new'.id in sessions[session].orders;
              && (e == Some(UnknownSymbol(new'.instrument)) <==> !listed)
              && (e == Some(InvalidOrderId(new'.id)) <==> listed && new'.id <= 0)
              && (e == Some(InvalidQuantity) <==> listed && new'.id > 0 && !sized)
              && (e == Some(InvalidPrice) <==> listed && new'.id > 0 && sized && !priced)
              && (e == Some(OrderNotFound) <==> listed && new'.id > 0 && sized && priced && !known)
              && (e == Some(DuplicateOrderId(new'.id)) <==> listed && new'.id > 0 && sized && priced && used)
              && (e == Some(TooManyTierFills) <==>
                    && listed && new'.id > 0 && sized && priced && known && !used
                    && policy.Tiered? && new'.quantity > 25600.0)
    {
    }

    /** The order a request stands for. Tiered market orders carry their fixed fill price. */
    function Requested(session: string, new': NewOrder): Order
      requires new'.id >= 0 && new'.instrument >= 0 && new'.price >= 0.0
      reads this
    {
      var o := if new'.orderType.Limit?
               then LimitOrder(session, new'.id, new'.instrument, new'.side, new'.price, new'.quantity, nextArrival + 1)
               else MarketOrder(session, new'.id, new'.instrument, new'.side, new'.quantity, nextArrival + 1);
      var numbered := o.(exchange := Number(nextExchangeId + 1));
      if policy.Tiered? && o.orderType.Market? then numbered.(price := TIERED_MARKET_PRICE) else numbered
    }

    /** Enter a new order in its session's records. */
    method Enter(o: Order, today: int)
      requires Coherent({}) && o.session in sessions && RecordAt(sessions, o.Key()).None? && o.id != QUOTE_ORDER_ID
      requires o.exchange == Number(nextExchangeId + 1) && o.arrival == nextArrival + 1
      requires o.cum == 0.0 && Balanced(o) && o.state.New? && o.instrument in instruments
      modifies this`nextExchangeId, this`nextArrival, this`sessions, this`orderDates, this`owner
      ensures Coherent({o.Key()})
      ensures Now() == EnterLedger(old(Now()), o, today)
      ensures Latest(o, books)
    {
      hide Sound, Balanced, Latest;
      SoundArrival(Now(), {}, o);
      nextExchangeId := nextExchangeId + 1;
      nextArrival := nextArrival + 1;
      SoundOpen(old(Now()).(rules := Rules(policy, nextArrival)), o, today);
      sessions := PutRecord(sessions, o);
      orderDates := orderDates[o.Key() := today];
      owner := owner[nextExchangeId := o.Key()];
    }

    /** The matcher on one book. Its requirements are those of OrderBook.Add. */
    method AddToBook(o: Order) returns (trades: seq<Trade>, final: Order)
      requires Uncrossed(BookOf(books, o.instrument)) && o.remaining > 0.0
      requires Latest(o, books)
      requires Find(SideOf(books, o.instrument, o.side), o.EffectivePrice(), o.Key()).None?
      requires Live(SideOf(books, o.instrument, Opposite(o.side)))
      modifies this`books
      ensures var added := Trading.Add(BookOf(old(books), o.instrument), o);
              && books == old(books)[o.instrument := added.book]
              && trades == added.trades && final == Trading.Returned(o, added)
    {
      var added := Trading.Add(BookOf(books, o.instrument), o);
      books := books[o.instrument := added.book];
      trades, final := added.trades, Trading.Returned(o, added);
    }

    /** Publish a book that traded and report both sides of every trade. */
    method PublishTrades(i: InstrumentId, trades: seq<Trade>)
      requires Fresh({i}) && i in instruments && VolumesMatch(policy, stats, log) && policy.Real? && nextExecId == |log|
      requires forall t :: t in trades ==> Sided(t, i)
      modifies this`sequence, this`pending, this`stats, this`slots, this`sessions, this`log, this`nextExecId,
               this`nextTradeId
      ensures Advanced(old(slots), slots)
      ensures Fresh({}) && pending == map[] && VolumesMatch(policy, stats, log) && nextExecId == |log|
      ensures sessions == RecordAll(old(sessions), trades) && log == old(log) + Reports(trades, |old(log)|)
    {
      hide Published, VolumesMatch, Reports, RecordAll;
      RecordMarketData(i, trades);
      VolumesTrades(policy, old(stats), log, trades, i, |log|);
      ghost var recorded := stats;
      PublishMarketData();
      SendTradeReports(trades);
      VolumesSame(policy, recorded, stats, log);
      ReportsShape(trades, |old(log)|);
    }

    /** Match a recorded order, publish the book, report every fill and settle its record. */
    method MatchRecorded(o: Order) returns (trades: seq<Trade>, final: Order)
      requires Coherent({o.Key()}) && Fresh({}) && VolumesMatch(policy, stats, log) && policy.Real?
      requires o.instrument in instruments && Addable(Rules(policy, nextArrival), o) && o.id != QUOTE_ORDER_ID
      requires Incoming(sessions, {o.Key()}, o) && NumberedBy(o, nextExchangeId) && o.Key() in orderDates
      requires Latest(o, books)
      modifies this`books, this`sessions, this`sequence, this`pending, this`stats, this`slots, this`log,
               this`nextExecId,
               this`nextTradeId
      ensures Advanced(old(slots), slots)
      ensures Coherent({}) && Fresh({}) && pending == map[] && VolumesMatch(policy, stats, log)
      ensures Matchable(old(Now()), o) && Now() == Added(old(Now()), o)
      ensures trades == Trading.Add(BookOf(old(books), o.instrument), o).trades
      ensures final == Trading.Add(BookOf(old(books), o.instrument), o).final && Presentable(final)
    {
      hide Sound, Published, VolumesMatch, Trading.Add, Latest, Advanced, Incoming, Addable, Reports, RecordAll;
      hide Uncrossed, Find, Live;
      SoundAdd(Now(), o);
      SoundMatchable(Now(), o);
      ghost var was := Now();
      trades, final := AddToBook(o);
      PublishedDirty(instruments, was.books, slots, stats, pending, sequence, {}, o.instrument, books[o.instrument]);
      PublishTrades(o.instrument, trades);
      AddFinalSession(was.books, o);
      SyncRecord(final);
    }

    /** Rest a recorded order without matching. */
    method TieredInsert(o: Order) returns (r: Option<Order>)
      requires Coherent({o.Key()}) && Fresh({}) && o.instrument in instruments && o.Key() in orderDates
      requires Restable(Rules(policy, nextArrival), o) && Latest(o, books)
      requires RecordAt(sessions, o.Key()).Some? && SameFigures(RecordAt(sessions, o.Key()).value, o)
      modifies this`books, this`sessions
      ensures Coherent({}) && Fresh({o.instrument}) && r == Some(RestedState(o))
      ensures o.session in old(sessions) && Now() == RestLedger(old(Now()), o)
      ensures RecordAt(sessions, o.Key()) == Some(RestedState(o))
    {
      hide Sound, Published, Balanced, Books.InsertOnly;
      SoundRest(Now(), o);
      match Books.InsertOnly(BookOf(books, o.instrument), o) {
        case Refused(_) =>
          return None;
        case Done(book, snapshot) =>
          PublishedDirty(instruments, books, slots, stats, pending, sequence, {}, o.instrument, book);
          books := books[o.instrument := book];
          SyncRecord(snapshot);
          r := Some(snapshot);
      }
    }

    /** One synthetic fill, at the order's own price. */
    method TieredExecute(r: Order, quantity: real) returns (ok: bool)
      requires Coherent({}) && Fresh({r.instrument}) && policy.Tiered? && VolumesMatch(policy, stats, log)
      requires RecordAt(sessions, r.Key()) == Some(r) && r.state.IsActive() && 0.0 < quantity <= r.remaining
      modifies this`books, this`sessions, this`log, this`nextExecId
      ensures Coherent({}) && Fresh({r.instrument}) && VolumesMatch(policy, stats, log)
      ensures ok && Now() == ExecuteLedger(old(Now()), r, quantity)
      ensures RecordAt(sessions, r.Key()) == Some(ApplyFill(r, quantity, r.price))
    {
      hide Sound, Published, VolumesMatch, Books.Execute, ApplyFill;
      SoundExecute(Now(), r, quantity);
      FillIdentity(r, quantity, r.price);
      match Books.Execute(BookOf(books, r.instrument), r.Key(), r.side, r.price, quantity, r.price) {
        case Refused(_) =>
          return false;
        case Done(book, filled) =>
          PublishedDirty(instruments, books, slots, stats, pending, sequence, {r.instrument}, r.instrument, book);
          VolumesStatus(policy, stats, log, Fill(filled, r.price, quantity, nextExecId + 1));
          books := books[r.instrument := book];
          SendFill(filled, r.price, quantity);
          ok := true;
      }
    }

    /** Apply a plan to a resting order, chunk by chunk. Every chunk finds its order and fits. */
    method TieredFillExisting(o: Order, plan: seq<real>) returns (ok: bool)
      requires Coherent({}) && Fresh({o.instrument}) && policy.Tiered? && VolumesMatch(policy, stats, log)
      requires RecordAt(sessions, o.Key()) == Some(o) && o.state.IsActive() && TierPlans.Fits(plan, o.remaining)
      modifies this`books, this`sessions, this`log, this`nextExecId
      ensures Coherent({}) && Fresh({o.instrument}) && VolumesMatch(policy, stats, log)
      ensures ok && Now() == FillLedger(old(Now()), o, plan)
      ensures RecordAt(sessions, o.Key()) == Some(FillAll(o, plan, o.price))
    {
      hide Sound, Published, VolumesMatch, ExecuteLedger, ApplyFill, TierPlans.Fits;
      ghost var cur := o;
      for k := 0 to |plan|
        invariant Coherent({}) && Fresh({o.instrument}) && VolumesMatch(policy, stats, log)
        invariant cur == FillAll(o, plan[..k], o.price) && RecordAt(sessions, o.Key()) == Some(cur)
        invariant Now() == FillLedger(old(Now()), o, plan[..k])
      {
        TierPlans.FitsStep(plan, o.remaining, k);
        FillAllRemaining(o, plan[..k], o.price);
        FillIdentity(cur, plan[k], o.price);
        assert plan[..k + 1][..k] == plan[..k];
        var record := sessions[o.session].orders[o.id];
        var done := TieredExecute(record, plan[k]);
        if !done {
          return false;
        }
        cur := ApplyFill(cur, plan[k], o.price);
      }
      assert plan[..|plan|] == plan;
      ok := true;
    }

    /** Apply a plan, then publish the book once. */
    method TieredFillAndPublish(o: Order, plan: seq<real>) returns (ok: bool)
      requires Coherent({}) && Fresh({o.instrument}) && policy.Tiered? && VolumesMatch(policy, stats, log)
      requires RecordAt(sessions, o.Key()) == Some(o) && o.state.IsActive() && TierPlans.Fits(plan, o.remaining)
      requires o.instrument in instruments
      modifies this`books, this`sessions, this`log, this`nextExecId, this`sequence, this`pending, this`stats, this`slots
      ensures Advanced(old(slots), slots)
      ensures Inv() && pending == map[] && ok && Now() == FillLedger(old(Now()), o, plan)
    {
      hide Sound, Published, VolumesMatch, FillLedger, TierPlans.Fits;
      ok := TieredFillExisting(o, plan);
      PublishChange(o.instrument);
    }

    /** Real: enter, match, report. */
    method CreateReal(o: Order, today: int)
      requires Inv() && pending == map[] && policy.Real?
      requires o.session in sessions && RecordAt(sessions, o.Key()).None? && NewlyMade(o)
      requires o.exchange == Number(nextExchangeId + 1) && o.arrival == nextArrival + 1 && o.instrument in instruments
      modifies this
      ensures Advanced(old(slots), slots)
      ensures Inv() && pending == map[] && Created(old(Now()), o, today) == Some(Now())
    {
      hide Sound, Published, VolumesMatch, Trading.Add, Latest, Added;
      Enter(o, today);
      var trades, final := MatchRecorded(o);
      var remainderCancelled := final.state.Cancelled? && o.orderType.Market?;
      if trades == [] || remainderCancelled {
        SendStatusFor(final, final.id, StatusExecType(final.state), None, {});
      }
    }

    /** Rest a recorded order and acknowledge it. */
    method RestAndAcknowledge(o: Order) returns (snapshot: Option<Order>)
      requires Coherent({o.Key()}) && Fresh({}) && o.instrument in instruments && o.Key() in orderDates
      requires Restable(Rules(policy, nextArrival), o) && Latest(o, books) && VolumesMatch(policy, stats, log)
      requires RecordAt(sessions, o.Key()).Some? && SameFigures(RecordAt(sessions, o.Key()).value, o)
      modifies this`books, this`sessions, this`log, this`nextExecId
      ensures Coherent({}) && Fresh({o.instrument}) && snapshot == Some(RestedState(o))
      ensures VolumesMatch(policy, stats, log)
      ensures o.session in old(sessions)
      ensures Now() == StatusLedger(RestLedger(old(Now()), o), RestedState(o), o.id, ExecNew, None)
      ensures RecordAt(sessions, o.Key()) == Some(RestedState(o))
    {
      hide Sound, Published, VolumesMatch, Latest, RestLedger, RecordAt;
      snapshot := TieredInsert(o);
      if snapshot.None? {
        return;
      }
      SendStatusFor(snapshot.value, snapshot.value.id, StatusExecType(snapshot.value.state), None, {});
    }

    /** Tiered: enter, rest, acknowledge, then apply the plan. */
    method CreateTiered(o: Order, plan: seq<real>, today: int) returns (r: Result)
      requires Inv() && pending == map[] && policy.Tiered?
      requires o.session in sessions && RecordAt(sessions, o.Key()).None? && NewlyMade(o) && o.price > 0.0
      requires o.exchange == Number(nextExchangeId + 1) && o.arrival == nextArrival + 1 && o.instrument in instruments
      requires TierPlans.TierPlan(o.quantity) == TierPlans.Plan(plan)
      modifies this
      ensures Advanced(old(slots), slots)
      ensures Inv() && pending == map[] && r == Ok && Created(old(Now()), o, today) == Some(Now())
    {
      hide Sound, Published, VolumesMatch, Latest, RestLedger, FillLedger, TierPlans.TierPlan, TierPlans.Fits, Advanced;
      TierPlans.PlanPromises(o.quantity);
      Enter(o, today);
      var snapshot := RestAndAcknowledge(o);
      if snapshot.None? {
        return Err(BookInvariantViolation);
      }
      var ok := TieredFillAndPublish(snapshot.value, plan);
      r := if ok then Ok else Err(BookInvariantViolation);
    }

    /** Create an order. Refusals change nothing; an accepted order never meets a book fault. */
    method CreateOrder(session: string, new': NewOrder, today: int) returns (r: Result)
      requires Inv() && pending == map[]
      modifies this
      ensures Advanced(old(slots), slots)
      ensures Inv() && pending == map[]
      ensures match old(CreateError(session, new'))
              case Some(e) => r == Err(e) && unchanged(this)
              case None => r == Ok && new'.id >= 0 && new'.instrument >= 0 && new'.price >= 0.0
                           && Created(old(Now()), old(Requested(session, new')), today) == Some(Now())
                           && Entered(old(Now()), Now(), session, new', today)
      ensures r == Ok <==> old(MayCreate(session, new'))
    {
      hide MayCreate;
      CreateRefusals(session, new');
      if !(new'.instrument >= 0 && new'.instrument in instruments) {
        return Err(UnknownSymbol(new'.instrument));
      }
      var bad := InputError(new'.id, new'.orderType, new'.price, new'.quantity);
      if bad.Some? {
        return Err(bad.value);
      }
      if session !in sessions {
        return Err(OrderNotFound);
      }
      if new'.id in sessions[session].orders {
        return Err(DuplicateOrderId(new'.id));
      }
      hide Sound, Published, VolumesMatch, Created, Advanced, Entered;
      r := CreateValid(session, new', today);
    }

    /** Create an order from a valid request; only the tier limit can still refuse it. */
    method CreateValid(session: string, new': NewOrder, today: int) returns (r: Result)
      requires Inv() && pending == map[] && new'.instrument >= 0 && new'.instrument in instruments
      requires session in sessions
      requires InputError(new'.id, new'.orderType, new'.price, new'.quantity).None?
      requires new'.id !in sessions[session].orders
      modifies this
      ensures Advanced(old(slots), slots)
      ensures Inv() && pending == map[]
      ensures if policy.Tiered? && new'.quantity > TierPlans.MAX_REMAINING
              then r == Err(TooManyTierFills) && unchanged(this)
              else r == Ok && Created(old(Now()), old(Requested(session, new')), today) == Some(Now())
                   && Entered(old(Now()), Now(), session, new', today)
    {
      hide Sound, Published, VolumesMatch, Created, TierPlans.TierPlan, Entered;
      if policy.Tiered? {
        var plan := TierPlans.TierFillPlan(new'.quantity);
        TierPlans.PlanPromises(new'.quantity);
        if !plan.Plan? {
          return Err(TooManyTierFills);
        }
        RequestEntered(session, new', today);
        r := CreateTiered(Requested(session, new'), plan.chunks, today);
      } else {
        RequestEntered(session, new', today);
        CreateReal(Requested(session, new'), today);
        r := Ok;
      }
    }

    /** What entering a valid request comes to. */
    lemma RequestEntered(session: string, new': NewOrder, today: int)
      requires Inv() && new'.instrument >= 0 && new'.instrument in instruments && session in sessions
      requires InputError(new'.id, new'.orderType, new'.price, new'.quantity).None?
      requires new'.id !in sessions[session].orders
      requires policy.Tiered? ==> TierPlans.TierPlan(new'.quantity).Plan?
      ensures var now := Created(Now(), Requested(session, new'), today);
              now.Some? && Entered(Now(), now.value, session, new', today)
    {
      hide Sound, Created, Entered, Opened, TierPlans.TierPlan, Published, VolumesMatch;
      var o := Requested(session, new');
      assert Enterable(Now(), o);
      if policy.Real? {
        CreatedReal(Now(), o, today);
      } else {
        CreatedTiered(Now(), o, today);
      }
      EnteredBy(Now(), Created(Now(), o, today).value, session, new', o, today);
    }

    // -------------------------------------------------------------- replace

    /** Why a replace is refused, in the order the checks are made. */
    function ModifyError(session: string, origId: int, newId: int, orderType: OrderType, price: real, quantity: real)
      : Option<EngineError>
      reads this
    {
      var entry := RecordOf(session, origId);
      if entry.None? then Some(OrderNotFound)
      else if !entry.value.state.IsActive() then Some(OrderIsNotActive)
      else if InputError(newId, orderType, price, quantity).Some? then InputError(newId, orderType, price, quantity)
      else if quantity < entry.value.cum then Some(QuantityBelowCumulated)
      else if newId != origId && RecordOf(session, newId).Some? then Some(DuplicateOrderId(newId))
      else if policy.Tiered? && quantity - entry.value.cum > TierPlans.MAX_REMAINING then Some(TooManyTierFills)
      else None
    }

    /** A request to replace an order that is accepted. */
    predicate MayModify(session: string, origId: int, newId: int, orderType: OrderType, price: real, quantity: real)
      reads this
    {
      && RecordOf(session, origId).Some?
      && (var entry := RecordOf(session, origId).value;
          && entry.state.IsActive() && quantity >= entry.cum
          && (policy.Tiered? ==> quantity - entry.cum <= 25600.0))
      && newId > 0 && (newId == origId || RecordOf(session, newId).None?)
      && quantity > 0.0 && (if orderType.Limit? then price > 0.0 else price >= 0.0)
    }

    /** Each refusal of a replacement says what is wrong with it, and the first wrong thing is named. */
    lemma ModifyRefusals(session: string, origId: int, newId: int, orderType: OrderType, price: real, quantity: real)
      ensures ModifyError(session, origId, newId, orderType, price, quantity).None?
         <==> MayModify(session, origId, newId, orderType, price, quantity)
      ensures var e := ModifyError(session, origId, newId, orderType, price, quantity);
              var known := RecordOf(session, origId).Some?;
              var active := known && RecordOf(session, origId).value.state.IsActive();
              var cum := if known then RecordOf(session, origId).value.cum else 0.0;
              var priced := if orderType.Limit? then price > 0.0 else price >= 0.0;
              var used := newId != origId && RecordOf(session, newId).Some?;
              var valid := active && newId > 0 && quantity > 0.0 && priced;
              && (e == Some(OrderNotFound) <==> !known)
              && (e == Some(OrderIsNotActive) <==> known && !active)
              && (e == Some(InvalidOrderId(newId)) <==> active && newId <= 0)
              && (e == Some(InvalidQuantity) <==> active && newId > 0 && quantity <= 0.0)
              && (e == Some(InvalidPrice) <==> active && newId > 0 && quantity > 0.0 && !priced)
              && (e == Some(QuantityBelowCumulated) <==> valid && quantity < cum)
              && (e == Some(DuplicateOrderId(newId)) <==> valid && quantity >= cum && used)
              && (e == Some(TooManyTierFills) <==>
                    valid && quantity >= cum && !used && policy.Tiered? && quantity - cum > 25600.0)
    {
    }

    /** The replacement of an order: new terms, new arrival, same exchange number, same fills. */
    function Replacement(entry: Order, newId: OrderId, orderType: OrderType, price: Price, quantity: real): Order
      reads this
    {
      var remaining := quantity - entry.cum;
      entry.(id := newId, orderType := orderType, quantity := quantity, remaining := remaining,
             price := if policy.Tiered? && orderType.Market? then TIERED_MARKET_PRICE else price,
             state := if remaining == 0.0 then Filled else if entry.cum != 0.0 then PartialFill else Booked,
             arrival := nextArrival + 1)
    }

    /** Enter the replacement of an order just taken off its book. */
    method Replace(entry: Order, o: Order, today: int)
      requires Coherent({entry.Key()}) && RecordAt(sessions, entry.Key()) == Some(entry)
      requires entry.id != QUOTE_ORDER_ID && o.id != QUOTE_ORDER_ID && o.instrument in instruments
      requires o.session == entry.session && o.exchange == entry.exchange && o.cum == entry.cum && o.avg == entry.avg
      requires Balanced(o) && !o.state.Expired? && (o.id == entry.id || RecordAt(sessions, o.Key()).None?)
      requires entry.exchange.Number? && o.arrival == nextArrival + 1
      modifies this`nextArrival, this`sessions, this`orderDates, this`owner
      ensures Coherent({o.Key()}) && Now() == ReplaceLedger(old(Now()), entry, o, today)
      ensures Latest(o, books)
    {
      hide Sound, Balanced, Latest;
      SoundArrival(Now(), {entry.Key()}, o);
      nextArrival := nextArrival + 1;
      SoundReplace(old(Now()).(rules := Rules(policy, nextArrival)), entry, o, today);
      sessions := DropRecord(sessions, entry.Key());
      sessions := PutRecord(sessions, o);
      orderDates := orderDates - {entry.Key()};
      orderDates := orderDates[o.Key() := today];
      owner := owner[entry.exchange.n := o.Key()];
    }

    /** Terms under which `entry` may be replaced by o. */
    ghost predicate Replaceable(entry: Order, o: Order)
      reads this
    {
      && RecordAt(sessions, entry.Key()) == Some(entry) && entry.state.IsActive()
      && SameOrder(o, entry.(id := o.id, orderType := o.orderType, price := o.price, quantity := o.quantity,
                             arrival := o.arrival))
      && o.cum == entry.cum && o.avg == entry.avg && Balanced(o)
      && (o.remaining == 0.0 <==> o.state.Filled?) && (o.state.Filled? || o.state.PartialFill? || o.state.Booked?)
      && o.id != QUOTE_ORDER_ID && (o.id == entry.id || RecordAt(sessions, o.Key()).None?)
      && (o.orderType.Limit? || policy.Tiered? ==> o.price > 0.0) && o.arrival == nextArrival + 1
      && !o.exchange.Unassigned?
    }

    /** Take out and re-enter, up to the point where the replacement rests nowhere. */
    method Reenter(entry: Order, o: Order, today: int)
      requires Inv() && pending == map[] && Replaceable(entry, o)
      modifies this`books, this`sequence, this`pending, this`stats, this`nextArrival, this`sessions, this`orderDates,
               this`owner
      ensures Coherent({o.Key()}) && Fresh({}) && VolumesMatch(policy, stats, log)
      ensures entry.session in old(sessions) && o.session == entry.session && entry.exchange.Number?
      ensures Now() == ReplaceLedger(old(Now()).(books := Taken(old(books), entry)), entry, o, today)
      ensures Latest(o, books) && o.instrument in instruments
      ensures NumberedBy(o, nextExchangeId) && RecordAt(sessions, o.Key()) == Some(o) && Balanced(o)
    {
      hide Sound, Published, VolumesMatch, Latest, Taken;
      var removed := TakeActive(entry);
      RecordMarketData(entry.instrument, []);
      VolumesSame(policy, old(stats), stats, log);
      Replace(entry, o, today);
    }

    /** A replacement whose quantity is already filled only needs its report. */
    method ModifyFilled(entry: Order, o: Order, today: int)
      requires Inv() && pending == map[] && Replaceable(entry, o) && o.remaining == 0.0
      modifies this
      ensures Advanced(old(slots), slots)
      ensures Inv() && pending == map[] && Modified(old(Now()), entry, o, today) == Some(Now())
    {
      hide Sound, Published, VolumesMatch, Latest, Taken, ReplaceLedger;
      Reenter(entry, o, today);
      SoundClose(Now(), o);
      SendStatusFor(o, o.id, ExecReplaced, Some(entry.id), {});
      PublishPending();
    }

    method ModifyReal(entry: Order, o: Order, today: int)
      requires Inv() && pending == map[] && Replaceable(entry, o) && o.remaining > 0.0 && policy.Real?
      modifies this
      ensures Advanced(old(slots), slots)
      ensures Inv() && pending == map[] && Modified(old(Now()), entry, o, today) == Some(Now())
    {
      hide Sound, Published, VolumesMatch, Latest, Taken, Added;
      Reenter(entry, o, today);
      SendStatusFor(o, o.id, ExecReplaced, Some(entry.id), {o.Key()});
      var trades, final := MatchRecorded(o);
    }

    method ModifyTiered(entry: Order, o: Order, plan: seq<real>, today: int) returns (r: Result)
      requires Inv() && pending == map[] && Replaceable(entry, o) && o.remaining > 0.0 && policy.Tiered?
      requires TierPlans.TierPlan(o.remaining) == TierPlans.Plan(plan)
      modifies this
      ensures Advanced(old(slots), slots)
      ensures Inv() && pending == map[] && r == Ok && Modified(old(Now()), entry, o, today) == Some(Now())
    {
      hide Sound, Published, VolumesMatch, Latest, Taken, RestLedger, FillLedger, TierPlans.TierPlan, TierPlans.Fits;
      hide Advanced;
      TierPlans.PlanPromises(o.remaining);
      hide Replaceable, Restable;
      ReplaceableRests(entry, o);
      Reenter(entry, o, today);
      var snapshot := TieredInsert(o);
      if snapshot.None? {
        return Err(BookInvariantViolation);
      }
      SendStatusFor(o, o.id, ExecReplaced, Some(entry.id), {});
      var ok := TieredFillAndPublish(snapshot.value, plan);
      r := if ok then Ok else Err(BookInvariantViolation);
    }

    lemma ReplaceableRests(entry: Order, o: Order)
      requires Replaceable(entry, o) && o.remaining > 0.0 && policy.Tiered?
      ensures Restable(Rules(policy, nextArrival + 1), o)
    {
    }

    lemma ReplacementFits(entry: Order, newId: OrderId, orderType: OrderType, price: Price, quantity: real)
      requires Coherent({}) && RecordAt(sessions, entry.Key()) == Some(entry) && entry.state.IsActive()
      requires newId > 0 && (orderType.Limit? ==> price > 0.0) && entry.cum <= quantity
      requires newId == entry.id || RecordAt(sessions, (entry.session, newId)).None?
      ensures Replaceable(entry, Replacement(entry, newId, orderType, price, quantity))
    {
      assert Accounted(sessions[entry.session].orders[entry.id], log);
    }

    /** What replacing an order on valid terms comes to. */
    lemma ReplacementEntered(entry: Order, newId: OrderId, orderType: OrderType, price: Price, quantity: real,
                             today: int)
      requires Inv() && RecordAt(sessions, entry.Key()) == Some(entry) && entry.state.IsActive()
      requires newId > 0 && (orderType.Limit? ==> price > 0.0) && entry.cum <= quantity
      requires newId == entry.id || RecordAt(sessions, (entry.session, newId)).None?
      requires policy.Tiered? ==> TierPlans.TierPlan(quantity - entry.cum).Plan?
      ensures var now := Modified(Now(), entry, Replacement(entry, newId, orderType, price, quantity), today);
              now.Some? && Replaced(Now(), now.value, entry, newId, orderType, price, quantity, today)
    {
      hide Sound, Modified, Answers.Replaced, Swapped, TierPlans.TierPlan, Published, VolumesMatch;
      var o := Replacement(entry, newId, orderType, price, quantity);
      ReplacementFits(entry, newId, orderType, price, quantity);
      assert Swappable(Now(), entry, o);
      if o.remaining == 0.0 {
        ModifiedFilled(Now(), entry, o, today);
      } else if policy.Real? {
        ModifiedReal(Now(), entry, o, today);
      } else {
        ModifiedTiered(Now(), entry, o, today);
      }
      ReplacedBy(Now(), Modified(Now(), entry, o, today).value, entry, newId, orderType, price, quantity, o, today);
    }

    /** Cancel/replace an active order, optionally changing its type. */
    method ModifyOrderWithType(session: string, origId: int, newId: int, orderType: OrderType, price: real,
                               quantity: real, today: int) returns (r: Result)
      requires Inv() && pending == map[]
      modifies this
      ensures Advanced(old(slots), slots)
      ensures Inv() && pending == map[]
      ensures match old(ModifyError(session, origId, newId, orderType, price, quantity))
              case Some(e) => r == Err(e) && unchanged(this)
              case None => r == Ok && newId >= 0 && price >= 0.0 && old(RecordOf(session, origId)).Some?
                           && var entry := old(RecordOf(session, origId)).value;
                              && Modified(old(Now()), entry,
                                          old(Replacement(entry, newId, orderType, price, quantity)), today)
                                 == Some(Now())
                              && Replaced(old(Now()), Now(), entry, newId, orderType, price, quantity, today)
      ensures r == Ok <==> old(MayModify(session, origId, newId, orderType, price, quantity))
    {
      hide MayModify;
      ModifyRefusals(session, origId, newId, orderType, price, quantity);
      var error := ModifyError(session, origId, newId, orderType, price, quantity);
      if error.Some? {
        return Err(error.value);
      }
      hide Sound, Published, VolumesMatch, Modified, TierPlans.TierPlan, Answers.Replaced;
      SoundRecord(Now(), {}, (session, origId));
      r := ModifyActive(RecordOf(session, origId).value, newId, orderType, price, quantity, today);
    }

    /** Replace an active order with valid new terms; only the tier limit can still refuse it. */
    method ModifyActive(entry: Order, newId: OrderId, orderType: OrderType, price: Price, quantity: real, today: int)
      returns (r: Result)
      requires Inv() && pending == map[]
      requires RecordAt(sessions, entry.Key()) == Some(entry) && entry.state.IsActive()
      requires newId > 0 && (orderType.Limit? ==> price > 0.0) && entry.cum <= quantity
      requires newId == entry.id || RecordAt(sessions, (entry.session, newId)).None?
      modifies this
      ensures Advanced(old(slots), slots)
      ensures Inv() && pending == map[]
      ensures if policy.Tiered? && quantity - entry.cum > TierPlans.MAX_REMAINING
              then r == Err(TooManyTierFills) && unchanged(this)
              else && r == Ok
                   && Modified(old(Now()), entry, old(Replacement(entry, newId, orderType, price, quantity)), today)
                      == Some(Now())
                   && Replaced(old(Now()), Now(), entry, newId, orderType, price, quantity, today)
    {
      hide Sound, Published, VolumesMatch, Modified, Replaceable, TierPlans.TierPlan, Answers.Replaced;
      var o := Replacement(entry, newId, orderType, price, quantity);
      ReplacementFits(entry, newId, orderType, price, quantity);
      var plan := TierPlans.Plan([]);
      if policy.Tiered? {
        plan := TierPlans.TierFillPlan(quantity - entry.cum);
        TierPlans.PlanPromises(quantity - entry.cum);
        if !plan.Plan? {
          return Err(TooManyTierFills);
        }
      }
      ReplacementEntered(entry, newId, orderType, price, quantity, today);
      r := Ok;
      if o.remaining == 0.0 {
        ModifyFilled(entry, o, today);
      } else if policy.Real? {
        ModifyReal(entry, o, today);
      } else {
        r := ModifyTiered(entry, o, plan.chunks, today);
      }
    }

    // -------------------------------------------------------------- quotes

    /** Why a quote is refused, in the order the checks are made. */
    function QuoteError(session: string, i: int, bidPrice: real, bidQuantity: real, askPrice: real, askQuantity: real)
      : Option<EngineError>
      reads this
    {
      if policy.Tiered? then Some(QuoteNotSupportedInTiered)
      else if !(i >= 0 && i in instruments) then Some(UnknownSymbol(i))
      else if bidPrice != 0.0 && bidQuantity <= 0.0 then Some(InvalidQuantity)
      else if askPrice != 0.0 && askQuantity <= 0.0 then Some(InvalidQuantity)
      else if bidPrice < 0.0 || askPrice < 0.0 then Some(InvalidPrice)
      else if session !in sessions then Some(OrderNotFound)
      else None
    }

    /** A quote that is accepted. */
    predicate MayQuote(session: string, i: int, bidPrice: real, bidQuantity: real, askPrice: real, askQuantity: real)
      reads this
    {
      && policy.Real? && i >= 0 && i in instruments && session in sessions && bidPrice >= 0.0 && askPrice >= 0.0
      && (bidPrice > 0.0 ==> bidQuantity > 0.0) && (askPrice > 0.0 ==> askQuantity > 0.0)
    }

    /** Each refusal of a quote says what is wrong with it, and the first wrong thing is named. */
    lemma QuoteRefusals(session: string, i: int, bidPrice: real, bidQuantity: real, askPrice: real, askQuantity: real)
      ensures QuoteError(session, i, bidPrice, bidQuantity, askPrice, askQuantity).None?
         <==> MayQuote(session, i, bidPrice, bidQuantity, askPrice, askQuantity)
      ensures var e := QuoteError(session, i, bidPrice, bidQuantity, askPrice, askQuantity);
              var listed := i >= 0 && i in instruments;
              var sized := (bidPrice == 0.0 || bidQuantity > 0.0) && (askPrice == 0.0 || askQuantity > 0.0);
              var priced := bidPrice >= 0.0 && askPrice >= 0.0;
              && (e == Some(QuoteNotSupportedInTiered) <==> policy.Tiered?)
              && (e == Some(UnknownSymbol(i)) <==> policy.Real? && !listed)
              && (e == Some(InvalidQuantity) <==> policy.Real? && listed && !sized)
              && (e == Some(InvalidPrice) <==> policy.Real? && listed && sized && !priced)
              && (e == Some(OrderNotFound) <==> policy.Real? && listed && sized && priced && session !in sessions)
    {
    }

    /** Withdraw the old quote of a session on an instrument. */
    method Withdraw(session: string, i: InstrumentId)
      requires Coherent({}) && Fresh({}) && session in sessions && i in instruments
      modifies this`books, this`sessions
      ensures Coherent({}) && Fresh({i}) && Now() == Withdrawn(old(Now()), session, i)
    {
      hide Sound, Published;
      SoundWithdraw(Now(), session, i);
      var pair := QuoteOf(sessions, session, i);
      sessions := DropQuote(sessions, session, i);
      PublishedAny(instruments, books, WithoutQuote(books, i, pair), slots, stats, pending, sequence, i);
      books := WithoutQuote(books, i, pair);
    }

    /** Add one new leg to the book. The records and the quote follow when both legs are in. */
    method AddLeg(o: Order, ghost l: Ledger, ghost pair: QuotePair)
      returns (trades: seq<Trade>, final: Order, ghost now: Ledger)
      requires Sound(l, {}) && policy.Real? && o.session in l.sessions && o.instrument in instruments
      requires l.books == books && l.rules == Rules(policy, nextArrival) && l.number == nextExchangeId
      requires l.instruments == instruments && PairOk(o.session, o.instrument, pair)
      requires LegMade(l, o.session, o.instrument, o.side, o)
      requires QuoteOf(l.sessions, o.session, o.instrument).Leg(o.side).None? && pair.Leg(o.side) == Some(o)
      requires pair.Leg(Opposite(o.side)) == QuoteOf(l.sessions, o.session, o.instrument).Leg(Opposite(o.side))
      requires o.side.Sell? || QuoteOf(l.sessions, o.session, o.instrument).Leg(Sell).None?
      modifies this`books, this`nextExchangeId, this`nextArrival
      ensures nextExchangeId == old(nextExchangeId) + 1 && nextArrival == old(nextArrival) + 1
      ensures PlacedLeg(l, o.session, o.instrument, pair, Some(o)) == Some(now) && Sound(now, {}) && books == now.books
      ensures o.session in now.sessions && QuoteOf(now.sessions, o.session, o.instrument) == pair
      ensures AddReady(l.books, o) && trades == Trading.Add(BookOf(l.books, o.instrument), o).trades
      ensures final == Trading.Add(BookOf(l.books, o.instrument), o).final
      ensures forall t :: t in trades ==> Sided(t, o.instrument)
      ensures forall j :: j != o.instrument ==> BookOf(books, j) == BookOf(old(books), j)
    {
      hide Sound, Uncrossed, Latest, Find, Live, LegMade, Trading.Add;
      now := SoundPlacedLeg(l, o.session, o.instrument, o.side, pair, o);
      LegReturned(l, o);
      nextExchangeId := nextExchangeId + 1;
      nextArrival := nextArrival + 1;
      trades, final := AddToBook(o);
    }

    /** A quote leg as the request describes it; a zero price skips the side. */
    static function MadeLeg(session: string, i: InstrumentId, side: Side, price: Price, quantity: real, arrival: nat)
      : Option<Order>
    {
      if price == 0.0 then None
      else Some(LimitOrder(session, QUOTE_ORDER_ID, i, side, price, quantity, arrival).(exchange := QuoteLeg(side, i)))
    }

    /** The legs of a quote, the bid arriving first. */
    function MadePair(session: string, i: InstrumentId, bidPrice: Price, bidQuantity: real, askPrice: Price,
                      askQuantity: real)
      : QuotePair
      reads this
    {
      QuotePair(MadeLeg(session, i, Buy, bidPrice, bidQuantity, nextArrival + 1),
                MadeLeg(session, i, Sell, askPrice, askQuantity, nextArrival + if bidPrice == 0.0 then 1 else 2))
    }

    /** Place one side of a quote, or skip it. */
    method PlaceLeg(session: string, i: InstrumentId, side: Side, price: Price, quantity: real, ghost l: Ledger)
      returns (leg: Option<Order>, trades: seq<Trade>, ghost now: Ledger)
      requires Sound(l, {}) && policy.Real? && session in l.sessions && i in instruments && l.instruments == instruments
      requires l.books == books && l.rules == Rules(policy, nextArrival) && l.number == nextExchangeId
      requires QuoteOf(l.sessions, session, i).Leg(side).None? && (price != 0.0 ==> quantity > 0.0)
      requires side.Sell? || QuoteOf(l.sessions, session, i).Leg(Sell).None?
      modifies this`books, this`nextExchangeId, this`nextArrival
      ensures leg == MadeLeg(session, i, side, price, quantity, old(nextArrival) + 1)
      ensures nextArrival == old(nextArrival) + if price == 0.0 then 0 else 1
      ensures LegStep(l, session, i, side, leg, trades, now)
      ensures Sound(now, {}) && books == now.books && now.rules == Rules(policy, nextArrival)
      ensures now.number == nextExchangeId
      ensures forall t :: t in trades ==> Sided(t, i)
      ensures forall j :: j != i ==> BookOf(books, j) == BookOf(old(books), j)
    {
      hide Sound, AddReady, Trading.Add, Added, LegStep;
      leg := MadeLeg(session, i, side, price, quantity, nextArrival + 1);
      if leg.None? {
        now := LegStepSkipped(l, session, i, side);
        return None, [], now;
      }
      var o := leg.value;
      PairWith(l, session, i, side, o);
      var final;
      trades, final, now := AddLeg(o, l, WithLeg(QuoteOf(l.sessions, session, i), side, leg));
      LegStepPlaced(l, session, i, side, o, now);
    }

    /** Both sides of a quote through the book, and the trades they made. */
    method PlaceBoth(session: string, i: InstrumentId, bidPrice: Price, bidQuantity: real, askPrice: Price,
                     askQuantity: real)
      returns (pair: QuotePair, trades: seq<Trade>, ghost l2: Ledger)
      requires Coherent({}) && policy.Real? && session in sessions && i in instruments
      requires QuoteOf(sessions, session, i) == NO_QUOTE
      requires (bidPrice != 0.0 ==> bidQuantity > 0.0) && (askPrice != 0.0 ==> askQuantity > 0.0)
      modifies this`books, this`nextExchangeId, this`nextArrival
      ensures Sound(l2, {}) && books == l2.books && l2.rules == Rules(policy, nextArrival)
      ensures l2.number == nextExchangeId
      ensures l2.sessions == RecordAll(PutQuote(sessions, session, i, pair), trades)
      ensures l2.log == log + Reports(trades, |log|)
      ensures l2.owner == owner && l2.dates == orderDates && l2.instruments == instruments
      ensures Quoted(old(Now()), session, i, pair) == Some(l2)
      ensures pair == old(MadePair(session, i, bidPrice, bidQuantity, askPrice, askQuantity))
      ensures forall t :: t in trades ==> Sided(t, i)
      ensures forall j :: j != i ==> BookOf(books, j) == BookOf(old(books), j)
    {
      hide Sound, PlacedLeg, Reports, RecordAll;
      ghost var l0 := Now();
      var bid, a, l1 := PlaceLeg(session, i, Buy, bidPrice, bidQuantity, l0);
      var ask, b;
      ask, b, l2 := PlaceLeg(session, i, Sell, askPrice, askQuantity, l1);
      BothLegs(l0, session, i, bid, a, l1, ask, b, l2);
      pair, trades := QuotePair(bid, ask), a + b;
    }

    /** Record a placed quote, publish its book and report its fills: the engine is where l2 says. */
    method SettleQuote(session: string, i: InstrumentId, pair: QuotePair, trades: seq<Trade>, ghost l2: Ledger)
      requires Fresh({i}) && VolumesMatch(policy, stats, log) && policy.Real? && nextExecId == |log|
      requires session in sessions && i in instruments && (forall t :: t in trades ==> Sided(t, i))
      requires Sound(l2, {}) && l2.books == books && l2.rules == Rules(policy, nextArrival)
      requires l2.number == nextExchangeId
      requires l2.sessions == RecordAll(PutQuote(sessions, session, i, pair), trades)
      requires l2.log == log + Reports(trades, |log|)
      requires l2.owner == owner && l2.dates == orderDates && l2.instruments == instruments
      modifies this`sessions, this`sequence, this`pending, this`stats, this`slots, this`log, this`nextExecId,
               this`nextTradeId
      ensures Advanced(old(slots), slots)
      ensures Inv() && pending == map[] && Now() == l2
    {
      hide Sound, Published, VolumesMatch, Reports, RecordAll, Advanced;
      sessions := PutQuote(sessions, session, i, pair);
      PublishTrades(i, trades);
    }

    /** Withdraw the old quote, place the new one, record it and report every fill. */
    method QuoteAccepted(session: string, i: InstrumentId, bidPrice: Price, bidQuantity: real, askPrice: Price,
                         askQuantity: real)
      requires Inv() && pending == map[] && policy.Real? && session in sessions && i in instruments
      requires (bidPrice != 0.0 ==> bidQuantity > 0.0) && (askPrice != 0.0 ==> askQuantity > 0.0)
      modifies this
      ensures Advanced(old(slots), slots)
      ensures Inv() && pending == map[]
      ensures Quoted(Withdrawn(old(Now()), session, i), session, i,
                     old(MadePair(session, i, bidPrice, bidQuantity, askPrice, askQuantity))) == Some(Now())
    {
      hide Sound, Published, VolumesMatch, Quoted, Reports, RecordAll, Advanced;
      Withdraw(session, i);
      ghost var before := books;
      var pair, trades, l2 := PlaceBoth(session, i, bidPrice, bidQuantity, askPrice, askQuantity);
      PublishedAny(instruments, before, books, slots, stats, pending, sequence, i);
      SettleQuote(session, i, pair, trades, l2);
    }

    /** What a quote comes to, once its legs are placed. */
    lemma QuoteMeans(session: string, i: InstrumentId, bidPrice: Price, bidQuantity: real, askPrice: Price,
                     askQuantity: real)
      requires Inv() && session in sessions && i in instruments
      ensures var pair := MadePair(session, i, bidPrice, bidQuantity, askPrice, askQuantity);
              var now := Quoted(Withdrawn(Now(), session, i), session, i, pair);
              now.Some? ==> QuoteStands(Now(), now.value, session, i, bidPrice, bidQuantity, askPrice, askQuantity)
    {
      hide Sound, Published, VolumesMatch, Quoted, Withdrawn;
      var pair := MadePair(session, i, bidPrice, bidQuantity, askPrice, askQuantity);
      if Quoted(Withdrawn(Now(), session, i), session, i, pair).Some? {
        QuotedMeans(Now(), session, i, pair);
      }
    }

    /** A bid/ask pair per session and instrument, replacing the previous one; a zero price skips or
        withdraws that side. */
    method Quote(session: string, i: int, bidPrice: real, bidQuantity: real, askPrice: real, askQuantity: real)
      returns (r: Result)
      requires Inv() && pending == map[]
      modifies this
      ensures Advanced(old(slots), slots)
      ensures Inv() && pending == map[]
      ensures match old(QuoteError(session, i, bidPrice, bidQuantity, askPrice, askQuantity))
              case Some(e) => r == Err(e) && unchanged(this)
              case None => r == Ok && i >= 0 && session in old(sessions) && bidPrice >= 0.0 && askPrice >= 0.0
                           && Quoted(Withdrawn(old(Now()), session, i), session, i,
                                     old(MadePair(session, i, bidPrice, bidQuantity, askPrice, askQuantity)))
                              == Some(Now())
                           && QuoteStands(old(Now()), Now(), session, i, bidPrice, bidQuantity, askPrice, askQuantity)
      ensures r == Ok <==> old(MayQuote(session, i, bidPrice, bidQuantity, askPrice, askQuantity))
    {
      hide MayQuote;
      QuoteRefusals(session, i, bidPrice, bidQuantity, askPrice, askQuantity);
      var error := QuoteError(session, i, bidPrice, bidQuantity, askPrice, askQuantity);
      if error.Some? {
        return Err(error.value);
      }
      hide Sound, Published, VolumesMatch, Quoted, QuoteStands, Withdrawn;
      QuoteMeans(session, i, bidPrice, bidQuantity, askPrice, askQuantity);
      QuoteAccepted(session, i, bidPrice, bidQuantity, askPrice, askQuantity);
      r := Ok;
    }

    // -------------------------------------------------------------- sessions

    /** Register a session that is not live. */
    method RegisterSession(session: string)
      requires Inv() && pending == map[] && session !in sessions
      modifies this`sessions
      ensures Inv() && pending == map[] && sessions == old(sessions)[session := Session(map[], map[])]
    {
      hide Sound, Published, VolumesMatch;
      SoundRegister(Now(), session);
      sessions := sessions[session := Session(map[], map[])];
    }

    // -------------------------------------------------------------- expiry

    /** Take an active order off its book and record it as expired, without a date. */
    method EndExpired(order: Order)
      requires Coherent({}) && Fresh({})
      requires RecordAt(sessions, order.Key()) == Some(order) && order.state.IsActive()
      modifies this`books, this`sessions, this`orderDates
      ensures Coherent({}) && Fresh({order.instrument}) && order.instrument in instruments
      ensures orderDates == old(orderDates) - {order.Key()}
      ensures order.session in old(sessions) && sessions == PutRecord(old(sessions), ExpiredOrder(order))
      ensures Departed(old(books), books, {order.Key()}) && Presentable(ExpiredOrder(order))
    {
      hide Sound, Published, Departed, Taken;
      TakenDeparts(Now(), order);
      var removed := TakeActive(order);
      EndRecord(ExpiredOrder(order));
      SoundUndate(Now(), order.Key());
      orderDates := orderDates - {order.Key()};
    }

    /** Expire an active order and report it. */
    method ExpireActive(order: Order)
      requires Inv() && RecordAt(sessions, order.Key()) == Some(order) && order.state.IsActive()
      modifies this`books, this`sessions, this`sequence, this`pending, this`stats, this`log, this`nextExecId,
               this`orderDates
      ensures Inv() && orderDates == old(orderDates) - {order.Key()}
      ensures order.session in old(sessions) && sessions == PutRecord(old(sessions), ExpiredOrder(order))
      ensures Departed(old(books), books, {order.Key()})
      ensures log == old(log) + [Status(ExpiredOrder(order), order.id, ExecExpired, None, |old(log)| + 1)]
    {
      hide Sound, Published, VolumesMatch, Departed, RecordAt;
      EndExpired(order);
      RecordMarketData(order.instrument, []);
      VolumesSame(policy, old(stats), stats, log);
      SendStatusFor(ExpiredOrder(order), order.id, ExecExpired, None, {});
    }

    /** Expire one dated order, if it is still active. */
    method ExpireOne(key: Key)
      requires Inv() && key in orderDates
      modifies this`books, this`sessions, this`sequence, this`pending, this`stats, this`log, this`nextExecId,
               this`orderDates
      ensures Inv() && ExpiredOnce(old(View()), View(), key)
    {
      hide Sound, Published, VolumesMatch, Departed;
      var found := RecordAt(sessions, key);
      if found.None? || !found.value.state.IsActive() {
        SoundUndate(Now(), key);
        DepartedNone(books);
        orderDates := orderDates - {key};
        return;
      }
      SoundRecord(Now(), {}, key);
      ExpireActive(found.value);
    }

    method ExpireKeys(all: set<Key>)
      requires Inv() && all <= orderDates.Keys
      modifies this`books, this`sessions, this`sequence, this`pending, this`stats, this`log, this`nextExecId,
               this`orderDates
      ensures Inv() && ExpiredBy(old(View()), View(), all)
      ensures all == {} ==> unchanged(this)
    {
      hide Sound, Published, VolumesMatch, ExpiredBy, ExpiredOnce, Departed, RecordAt, ExpiredRecord, ExpiryReport;
      var todo := all;
      ghost var done: set<Key> := {};
      NothingExpired(View());
      while todo != {}
        invariant Inv() && todo == all - done && done <= all && ExpiredBy(old(View()), View(), done)
        invariant all == {} ==> unchanged(this)
        decreases todo
      {
        var key :| key in todo;
        ghost var was := View();
        RecordKeyed(Now(), key);
        ExpiredDates(old(View()), was, done, key);
        ExpireOne(key);
        ExpiredOneMore(old(View()), was, View(), key, done);
        todo := todo - {key};
        done := done + {key};
      }
      assert done == all;
    }

    /** Expire every active order dated before today: exactly those leave the books, everybody else
        stays in place, and each of them is reported once. */
    method ExpireDayOrdersAt(today: int)
      requires Inv() && pending == map[]
      modifies this`books, this`sessions, this`sequence, this`pending, this`stats, this`slots, this`log,
               this`nextExecId,
               this`orderDates
      ensures Advanced(old(slots), slots)
      ensures Inv() && pending == map[]
      ensures ExpiredBy(old(View()), View(), OverdueKeys(old(orderDates), today))
      ensures OverdueKeys(old(orderDates), today) == {} ==>
                books == old(books) && sessions == old(sessions) && log == old(log) && slots == old(slots)
      ensures OverdueKeys(orderDates, today) == {}
      ensures forall k :: k in old(orderDates) ==>
                if old(orderDates)[k] >= today
                then k in orderDates && orderDates[k] == old(orderDates)[k]
                     && RecordAt(sessions, k) == RecordAt(old(sessions), k)
                else k !in orderDates && RecordAt(sessions, k) == Lapsed(RecordAt(old(sessions), k))
      ensures forall n :: |old(log)| <= n < |log| ==>
                && log[n].Status? && log[n].execType.ExecExpired? && log[n].orig == None
                && log[n].clOrdId == log[n].order.id && log[n].order.state.Expired? && log[n].order.remaining == 0.0
    {
      hide Sound, Published, VolumesMatch, ExpiredBy;
      ExpireKeys(OverdueKeys(orderDates, today));
      ExpiredKeysGone(old(View()), View(), today);
      ghost var was, todo := slots, pending;
      PublishPending();
      if todo == map[] {
        NothingNewer(was, slots);
      }
    }

    // -------------------------------------------------------------- disconnect

    /** Take the orders of a departed session off the books. */
    method DropOrders(session: string, orders: map<OrderId, Order>, ghost l: Ledger)
      requires Fresh({}) && VolumesMatch(policy, stats, log) && session in l.sessions && l.instruments == instruments
      requires l.sessions[session].orders == orders && l.books == books && Sound(l, {})
      modifies this`books, this`sequence, this`pending, this`stats
      ensures Fresh({}) && VolumesMatch(policy, stats, log)
      ensures Sound(Shrunk(l, books, session, map[], l.sessions[session].quotes), {})
      ensures OthersKept(old(books), books, session)
    {
      hide Sound, Published, VolumesMatch, OthersKept;
      OthersSame(books, session);
      var rest := orders;
      ghost var quotes := l.sessions[session].quotes;
      assert Shrunk(l, books, session, rest, quotes) == l;
      while rest != map[]
        invariant Fresh({}) && VolumesMatch(policy, stats, log) && OthersKept(old(books), books, session)
        invariant Sound(Shrunk(l, books, session, rest, quotes), {})
        decreases |rest|
      {
        var id :| id in rest;
        var entry := rest[id];
        ghost var before, was := books, stats;
        SoundShrinkOrder(l, books, session, rest, quotes, id);
        OthersTrans(old(books), books, AfterRemove(books, entry), session);
        var removed := RemoveFromBook((session, id), entry.side, entry.price, entry.instrument);
        PublishedAny(instruments, before, books, slots, stats, pending, sequence, entry.instrument);
        RecordMarketData(entry.instrument, []);
        VolumesSame(policy, was, stats, log);
        rest := rest - {id};
      }
    }

    /** Take the quotes of a departed session off the books. */
    method DropQuotes(session: string, quotes: map<InstrumentId, QuotePair>, ghost l: Ledger)
      requires Fresh({}) && VolumesMatch(policy, stats, log) && session in l.sessions && l.instruments == instruments
      requires l.sessions[session] == Session(map[], quotes) && l.books == books && Sound(l, {})
      modifies this`books, this`sequence, this`pending, this`stats
      ensures Fresh({}) && VolumesMatch(policy, stats, log)
      ensures Sound(Shrunk(l, books, session, map[], map[]), {})
      ensures OthersKept(old(books), books, session)
    {
      hide Sound, Published, VolumesMatch, OthersKept;
      OthersSame(books, session);
      var rest := quotes;
      assert Shrunk(l, books, session, map[], rest) == l;
      while rest != map[]
        invariant Fresh({}) && VolumesMatch(policy, stats, log) && OthersKept(old(books), books, session)
        invariant Sound(Shrunk(l, books, session, map[], rest), {})
        decreases |rest|
      {
        var i :| i in rest;
        ghost var before, was := books, stats;
        SoundShrinkQuote(l, books, session, map[], rest, i);
        OthersTrans(old(books), books, WithoutQuote(books, i, rest[i]), session);
        books := WithoutQuote(books, i, rest[i]);
        PublishedAny(instruments, before, books, slots, stats, pending, sequence, i);
        RecordMarketData(i, []);
        VolumesSame(policy, was, stats, log);
        rest := rest - {i};
      }
    }

    /** Take everything of a departed session off the books. */
    method DropAll(session: string, gone: Session, ghost l: Ledger)
      requires Fresh({}) && VolumesMatch(policy, stats, log) && session in l.sessions && l.instruments == instruments
      requires l.sessions[session] == gone && l.books == books && Sound(l, {})
      modifies this`books, this`sequence, this`pending, this`stats
      ensures Fresh({}) && VolumesMatch(policy, stats, log)
      ensures Sound(Shrunk(l, books, session, map[], map[]), {})
      ensures OthersKept(old(books), books, session)
    {
      hide Sound, Published, VolumesMatch, OthersKept;
      DropOrders(session, gone.orders, l);
      ghost var middle := books;
      ghost var l1 := Shrunk(l, books, session, map[], gone.quotes);
      DropQuotes(session, gone.quotes, l1);
      assert l1.sessions[session := Session(map[], map[])] == l.sessions[session := Session(map[], map[])];
      OthersTrans(old(books), middle, books, session);
    }

    /** Remove a live session with all its orders and quotes. */
    method Depart(session: string)
      requires Inv() && pending == map[] && session in sessions
      modifies this`books, this`sessions, this`sequence, this`pending, this`stats, this`slots, this`orderDates
      ensures Advanced(old(slots), slots)
      ensures Inv() && pending == map[] && sessions == old(sessions) - {session}
      ensures orderDates == DatesWithout(old(orderDates), session)
      ensures forall i, side :: SideOf(books, i, side) == Others(SideOf(old(books), i, side), session)
    {
      hide Sound, Published, VolumesMatch, OthersKept, Others, DatesWithout;
      ghost var l := Now();
      var gone := sessions[session];
      sessions := sessions - {session};
      orderDates := DatesWithout(orderDates, session);
      DropAll(session, gone, l);
      SoundLeft(l, books, session);
      OthersGone(old(books), books, session);
      PublishPending();
    }

    /** Remove a session with all its orders and quotes; an unknown session is ignored. */
    method SessionDisconnect(session: string)
      requires Inv() && pending == map[]
      modifies this`books, this`sessions, this`sequence, this`pending, this`stats, this`slots, this`orderDates
      ensures Advanced(old(slots), slots)
      ensures Inv() && pending == map[] && sessions == old(sessions) - {session}
      ensures session !in old(sessions) ==> unchanged(this)
      ensures session in old(sessions) ==>
                && orderDates == DatesWithout(old(orderDates), session)
                && forall i, side :: SideOf(books, i, side) == Others(SideOf(old(books), i, side), session)
      ensures session in old(sessions) ==> forall k ::
                && (k in orderDates <==> k in old(orderDates) && k.0 != session)
                && (k in orderDates ==> orderDates[k] == old(orderDates)[k])
    {
      hide Sound, Published, VolumesMatch, OthersKept, Others, DatesWithout;
      DatesKept(orderDates, session);
      if session in sessions {
        Depart(session);
      } else {
        assert sessions - {session} == sessions;
      }
    }
  }

  lemma OthersSame(books: BookMap, session: string)
    ensures OthersKept(books, books, session)
  {
  }

  /** When nothing of a session is left, what is left is exactly everybody else's. */
  lemma OthersGone(was: BookMap, now: BookMap, session: string)
    requires OthersKept(was, now, session)
    requires forall i, side, e :: e in SideOf(now, i, side) ==> e.order.session != session
    ensures forall i, side :: SideOf(now, i, side) == Others(SideOf(was, i, side), session)
  {
    forall i, side ensures SideOf(now, i, side) == Others(SideOf(was, i, side), session) {
      OthersAll(SideOf(now, i, side), session);
    }
  }

  /** The orders dated before today. */
  function OverdueKeys(dates: Dates, today: int): set<Key> {
    set k | k in dates && dates[k] < today
  }

  /** An active order expires: nothing stays open, its fills are kept. */
  function ExpiredRecord(r: Option<Order>): Option<Order> {
    if r.Some? && r.value.state.IsActive() then Some(ExpiredOrder(r.value)) else r
  }

  /** The record of an order after its day: an active one is Expired with nothing open and its fills kept. */
  ghost function Lapsed(r: Option<Order>): Option<Order> {
    if r.None? || r.value.state.Filled? || r.value.state.Cancelled? || r.value.state.Expired? || r.value.state.Rejected?
    then r else Some(r.value.(state := Expired, remaining := 0.0))
  }

  /** Exactly the given orders expired, those of them that were active. */
  ghost predicate Expirations(was: Sessions, now: Sessions, keys: set<Key>) {
    forall k :: RecordAt(now, k) == if k in keys then ExpiredRecord(RecordAt(was, k)) else RecordAt(was, k)
  }

  /** The effect of expiring some orders: their dates go, the active ones among them leave the books
      and become Expired, everything else stays in place, and each is reported once. */
  ghost predicate ExpiredBy(was: EngineView, now: EngineView, keys: set<Key>) {
    var gone := ActiveAmong(was.sessions, keys);
    && now.dates == was.dates - keys && Expirations(was.sessions, now.sessions, keys)
    && Departed(was.books, now.books, gone) && ExpiryReports(was.sessions, was.log, now.log, gone)
  }

  /** The effect of one expiry. */
  ghost predicate ExpiredOnce(was: EngineView, now: EngineView, key: Key) {
    && now.dates == was.dates - {key}
    && RecordAt(now.sessions, key) == ExpiredRecord(RecordAt(was.sessions, key))
    && (forall k :: k != key ==> RecordAt(now.sessions, k) == RecordAt(was.sessions, k))
    && Departed(was.books, now.books, if ActiveAt(was.sessions, key) then {key} else {})
    && now.log == was.log + ExpiryReport(was.sessions, key, |was.log|)
  }

  lemma NothingExpired(v: EngineView)
    ensures ExpiredBy(v, v, {})
  {
    DepartedNone(v.books);
    assert ActiveAmong(v.sessions, {}) == {};
  }

  lemma ExpiredDates(was: EngineView, now: EngineView, done: set<Key>, key: Key)
    requires ExpiredBy(was, now, done) && key in was.dates && key !in done
    ensures key in now.dates
  {
  }

  lemma ExpiredKeysGone(was: EngineView, now: EngineView, today: int)
    requires ExpiredBy(was, now, OverdueKeys(was.dates, today))
    ensures OverdueKeys(now.dates, today) == {}
    ensures forall k :: k in was.dates ==>
              if was.dates[k] >= today
              then k in now.dates && now.dates[k] == was.dates[k]
                   && RecordAt(now.sessions, k) == RecordAt(was.sessions, k)
              else k !in now.dates && RecordAt(now.sessions, k) == Lapsed(RecordAt(was.sessions, k))
    ensures forall n :: |was.log| <= n < |now.log| ==>
              && now.log[n].Status? && now.log[n].execType.ExecExpired? && now.log[n].orig == None
              && now.log[n].clOrdId == now.log[n].order.id && now.log[n].order.state.Expired?
              && now.log[n].order.remaining == 0.0
  {
  }

  lemma RecordKeyed(l: Ledger, key: Key)
    requires Sound(l, {})
    ensures RecordAt(l.sessions, key).Some? ==> RecordAt(l.sessions, key).value.Key() == key
  {
    if RecordAt(l.sessions, key).Some? {
      SoundRecord(l, {}, key);
    }
  }

  lemma ExpiredOneMore(v0: EngineView, v1: EngineView, v2: EngineView, key: Key, done: set<Key>)
    requires ExpiredBy(v0, v1, done) && ExpiredOnce(v1, v2, key) && key !in done
    requires RecordAt(v1.sessions, key).Some? ==> RecordAt(v1.sessions, key).value.Key() == key
    ensures ExpiredBy(v0, v2, done + {key})
  {
    ActiveGrows(v0.sessions, done, key);
    var gone := ActiveAmong(v0.sessions, done);
    ExpirationsStep(v0.sessions, v1.sessions, v2.sessions, key, done);
    DatesStep(v0.dates, done, key);
    hide ActiveAmong, Departed, ExpiryReports, ExpiryReport, RecordAt, Expirations;
    ExpiryReportsStep(v0.sessions, v0.log, v1.log, gone, v1.sessions, key);
    DepartedTwice(v0.books, v1.books, v2.books, gone, if ActiveAt(v1.sessions, key) then {key} else {});
    assert gone + {} == gone;
  }

  lemma DatesStep(dates: Dates, done: set<Key>, key: Key)
    ensures dates - done - {key} == dates - (done + {key})
  {
  }

  lemma ExpirationsStep(a: Sessions, b: Sessions, c: Sessions, key: Key, done: set<Key>)
    requires Expirations(a, b, done) && key !in done
    requires RecordAt(c, key) == ExpiredRecord(RecordAt(b, key))
    requires forall k :: k != key ==> RecordAt(c, k) == RecordAt(b, k)
    ensures Expirations(a, c, done + {key}) && RecordAt(b, key) == RecordAt(a, key)
    ensures ActiveAt(b, key) == ActiveAt(a, key)
  {
    hide ExpiredRecord;
  }

  lemma NothingNewer(was: map<InstrumentId, Snapshot>, now: map<InstrumentId, Snapshot>)
    requires Newer(was, now, map[])
    ensures was == now
  {
  }

  /** The parts of the engine a session can observe. */
  datatype EngineView = EngineView(books: BookMap, sessions: Sessions, dates: Dates, log: seq<Report>)

  /** The order, and nothing else, left its book; its record says Cancelled with its fills kept; one
      report went out. */
  ghost predicate CancelEffect(entry: Order, clOrdId: OrderId, was: EngineView, now: EngineView) {
    var cancelled := entry.(state := Cancelled);
    && entry.session in was.sessions
    && now.books == Taken(was.books, entry)
    && now.sessions == PutRecord(was.sessions, cancelled) && now.dates == was.dates
    && now.log == was.log + [Status(cancelled, clOrdId, ExecCancelled, Some(entry.id), |was.log| + 1)]
  }

  /** Exactly the pending instruments got a new version, the pending one, above the old. */
  ghost predicate Newer(was: map<InstrumentId, Snapshot>, now: map<InstrumentId, Snapshot>,
                        pending: map<InstrumentId, nat>) {
    NewerSoFar(was, now, pending, map[])
  }

  ghost predicate NewerSoFar(was: map<InstrumentId, Snapshot>, now: map<InstrumentId, Snapshot>,
                             pending: map<InstrumentId, nat>, left: map<InstrumentId, nat>)
  {
    && was.Keys == now.Keys
    && (forall i :: i in left ==> i in pending && left[i] == pending[i])
    && (forall i :: i in now ==>
          if i in pending && i !in left then now[i].version == pending[i] > was[i].version else now[i] == was[i])
  }

  /** No version goes back, and a snapshot changes only with its version. */
  ghost predicate Advanced(was: map<InstrumentId, Snapshot>, now: map<InstrumentId, Snapshot>) {
    && was.Keys == now.Keys
    && forall i :: i in now ==>
         was[i].version <= now[i].version && (was[i].version == now[i].version ==> now[i] == was[i])
  }

  lemma NewerAdvances(was: map<InstrumentId, Snapshot>, now: map<InstrumentId, Snapshot>,
                      pending: map<InstrumentId, nat>)
    requires Newer(was, now, pending)
    ensures Advanced(was, now)
  {
  }

  lemma NewerNow(slots: map<InstrumentId, Snapshot>, pending: map<InstrumentId, nat>)
    ensures NewerSoFar(slots, slots, pending, pending)
  {
  }

  lemma NewerStep(was: map<InstrumentId, Snapshot>, now: map<InstrumentId, Snapshot>,
                  pending: map<InstrumentId, nat>, left: map<InstrumentId, nat>, i: InstrumentId, snap: Snapshot)
    requires NewerSoFar(was, now, pending, left) && i in left && i in now
    requires snap.version == left[i] && now[i].version < left[i]
    ensures NewerSoFar(was, now[i := snap], pending, left - {i})
  {
  }
}
