/** Books and the sessions' own records of the orders in them (Session and Engine of
    src/core/exchange/mod.rs): the agreement every engine operation keeps. */
module Mirrors {
  import opened Orders
  import opened Ladders
  import opened Matching
  import opened Filing
  import Books

  datatype FillPolicy = Real | Tiered

  /** What a resting order is checked against: the fill policy and the last arrival number. */
  datatype Rules = Rules(policy: FillPolicy, arrivals: nat)

  /** The current quote of one session on one instrument. */
  datatype QuotePair = QuotePair(bid: Option<Order>, ask: Option<Order>)
  {
    function Leg(side: Side): Option<Order> {
      if side.Buy? then bid else ask
    }
  }

  datatype Session = Session(orders: map<OrderId, Order>, quotes: map<InstrumentId, QuotePair>)

  type BookMap = map<InstrumentId, Book>
  type Sessions = map<string, Session>

  const EMPTY_BOOK: Book := Book([], [])

  function BookOf(books: BookMap, i: InstrumentId): Book {
    if i in books then books[i] else EMPTY_BOOK
  }

  function RecordAt(sessions: Sessions, key: Key): Option<Order> {
    if key.0 in sessions && key.1 in sessions[key.0].orders then Some(sessions[key.0].orders[key.1]) else None
  }

  function PutAt(sessions: Sessions, key: Key, o: Order): Sessions
    requires key.0 in sessions
  {
    var session := sessions[key.0];
    sessions[key.0 := session.(orders := session.orders[key.1 := o])]
  }

  function PutRecord(sessions: Sessions, o: Order): Sessions
    requires o.session in sessions
  {
    PutAt(sessions, o.Key(), o)
  }

  function DropRecord(sessions: Sessions, key: Key): Sessions
    requires key.0 in sessions
  {
    var session := sessions[key.0];
    sessions[key.0 := session.(orders := session.orders - {key.1})]
  }

  // ---------------------------------------------------------------- one book

  /** An order as it may rest in the book of instrument i. */
  ghost predicate EntryOk(rules: Rules, i: InstrumentId, side: Side, e: Resting) {
    && e.order.instrument == i && e.order.side == side
    && e.level == e.order.price && e.order.price > 0.0
    && e.order.remaining > 0.0 && Balanced(e.order)
    && (e.order.state.Booked? || e.order.state.PartialFill?)
    && (rules.policy.Real? ==> e.order.orderType.Limit?)
    && (e.order.id == QUOTE_ORDER_ID ==> e.order.exchange.QuoteLeg?) && !e.order.exchange.Unassigned?
    && e.order.arrival <= rules.arrivals
  }

  ghost predicate EntriesOk(rules: Rules, i: InstrumentId, side: Side, s: seq<Resting>) {
    forall e :: e in s ==> EntryOk(rules, i, side, e)
  }

  ghost predicate SideOk(rules: Rules, i: InstrumentId, side: Side, s: seq<Resting>) {
    Prioritised(side, s) && Distinct(s) && EntriesOk(rules, i, side, s)
  }

  ghost predicate BookOk(rules: Rules, i: InstrumentId, book: Book) {
    && SideOk(rules, i, Buy, book.bids) && SideOk(rules, i, Sell, book.asks)
    && (rules.policy.Real? ==> Apart(book.bids, book.asks))
  }

  ghost predicate BooksOk(rules: Rules, books: BookMap) {
    forall i :: i in books ==> BookOk(rules, i, books[i])
  }

  // ---------------------------------------------------------------- agreement

  /** The session of a resting order knows it: a regular order by an equal record, a quote leg by
      the session's current quote on that instrument and side. */
  ghost predicate Mirrored(o: Order, sessions: Sessions) {
    && o.session in sessions
    && (if o.id == QUOTE_ORDER_ID then
          && o.instrument in sessions[o.session].quotes
          && var leg := sessions[o.session].quotes[o.instrument].Leg(o.side);
             leg.Some? && SameOrder(o, leg.value)
        else
          RecordAt(sessions, o.Key()) == Some(o))
  }

  /** A record carries its own key; an active one is found in its book, at its own price. */
  ghost predicate RecordOk(key: Key, r: Order, books: BookMap) {
    && r.Key() == key && r.id != QUOTE_ORDER_ID
    && (r.state.IsActive() ==> Find(BookOf(books, r.instrument).On(r.side), r.price, key) == Some(r))
  }

  ghost predicate EntriesMirrored(books: BookMap, sessions: Sessions, exempt: set<Key>) {
    forall i, side, e :: i in books && e in books[i].On(side) ==>
      Mirrored(e.order, sessions) && e.Key() !in exempt
  }

  ghost predicate RecordsMirrored(books: BookMap, sessions: Sessions, exempt: set<Key>) {
    forall s, id :: s in sessions && id in sessions[s].orders && (s, id) !in exempt ==>
      RecordOk((s, id), sessions[s].orders[id], books)
  }

  /** Books and records agree, except for orders of `exempt`, which rest nowhere for the moment. */
  ghost predicate Mirror(books: BookMap, sessions: Sessions, exempt: set<Key>) {
    EntriesMirrored(books, sessions, exempt) && RecordsMirrored(books, sessions, exempt)
  }

  /** One side of one book replaced. */
  function PutSide(books: BookMap, i: InstrumentId, side: Side, s: seq<Resting>): BookMap {
    books[i := BookOf(books, i).With(side, s)]
  }

  function SideOf(books: BookMap, i: InstrumentId, side: Side): seq<Resting> {
    BookOf(books, i).On(side)
  }

  /** An order that arrived after everything on its instrument's book. */
  ghost predicate Latest(o: Order, books: BookMap) {
    LaterThan(o, SideOf(books, o.instrument, Buy)) && LaterThan(o, SideOf(books, o.instrument, Sell))
  }

  lemma SideOfOk(rules: Rules, books: BookMap, i: InstrumentId, side: Side)
    requires BooksOk(rules, books)
    ensures SideOk(rules, i, side, SideOf(books, i, side))
  {
  }

  /** A regular key can only rest where its record says. */
  lemma OnlyThere(rules: Rules, books: BookMap, sessions: Sessions, exempt: set<Key>, r: Order,
                  i: InstrumentId, side: Side)
    requires BooksOk(rules, books) && EntriesMirrored(books, sessions, exempt)
    requires RecordAt(sessions, r.Key()) == Some(r) && r.id != QUOTE_ORDER_ID
    requires (i, side) != (r.instrument, r.side)
    ensures Absent(SideOf(books, i, side), r.Key())
  {
    forall e | e in SideOf(books, i, side) ensures e.Key() != r.Key() {
      assert i in books && e in books[i].On(side);
      SideOfOk(rules, books, i, side);
      assert EntryOk(rules, i, side, e);
    }
  }

  /** An exempt key rests nowhere. */
  lemma NowhereExempt(books: BookMap, sessions: Sessions, exempt: set<Key>, key: Key, i: InstrumentId, side: Side)
    requires EntriesMirrored(books, sessions, exempt) && key in exempt
    ensures Absent(SideOf(books, i, side), key)
  {
    forall e | e in SideOf(books, i, side) ensures e.Key() != key {
      assert i in books && e in books[i].On(side);
    }
  }

  /** A key with no record and no quote rests nowhere. */
  lemma NowhereUnknown(books: BookMap, sessions: Sessions, exempt: set<Key>, key: Key, i: InstrumentId, side: Side)
    requires EntriesMirrored(books, sessions, exempt)
    requires RecordAt(sessions, key).None? && key.1 != QUOTE_ORDER_ID
    ensures Absent(SideOf(books, i, side), key)
  {
    forall e | e in SideOf(books, i, side) ensures e.Key() != key {
      assert i in books && e in books[i].On(side);
    }
  }

  // ---------------------------------------------------------------- elementary changes

  /** A new key may be opened for a new order. */
  lemma MirrorOpen(books: BookMap, sessions: Sessions, key: Key)
    requires Mirror(books, sessions, {}) && RecordAt(sessions, key).None? && key.1 != QUOTE_ORDER_ID
    ensures Mirror(books, sessions, {key})
  {
    forall i, side, e | i in books && e in books[i].On(side) ensures e.Key() !in {key} {
      NowhereUnknown(books, sessions, {}, key, i, side);
    }
  }

  /** The record of an exempt order may be set freely. */
  lemma MirrorRecord(books: BookMap, sessions: Sessions, o: Order)
    requires Mirror(books, sessions, {o.Key()}) && o.session in sessions && o.id != QUOTE_ORDER_ID
    ensures Mirror(books, PutRecord(sessions, o), {o.Key()})
  {
    var after := PutRecord(sessions, o);
    forall i, side, e | i in books && e in books[i].On(side) ensures Mirrored(e.order, after) {
      assert Mirrored(e.order, sessions) && e.Key() !in {o.Key()};
    }
  }

  /** ... or forgotten. */
  lemma MirrorForget(books: BookMap, sessions: Sessions, key: Key)
    requires Mirror(books, sessions, {key}) && key.0 in sessions && key.1 != QUOTE_ORDER_ID
    ensures Mirror(books, DropRecord(sessions, key), {}) && Mirror(books, DropRecord(sessions, key), {key})
  {
    var after := DropRecord(sessions, key);
    forall i, side, e | i in books && e in books[i].On(side) ensures Mirrored(e.order, after) {
      assert Mirrored(e.order, sessions) && e.Key() !in {key};
    }
  }

  /** An exempt order that ended needs no book entry. */
  lemma MirrorClose(books: BookMap, sessions: Sessions, r: Order)
    requires Mirror(books, sessions, {r.Key()})
    requires RecordAt(sessions, r.Key()) == Some(r) && r.id != QUOTE_ORDER_ID && !r.state.IsActive()
    ensures Mirror(books, sessions, {})
  {
  }

  /** Changing one side of one book keeps every record whose lookup keeps its answer. */
  lemma RecordsKept(books: BookMap, sessions: Sessions, exempt: set<Key>, exempt': set<Key>,
                    i: InstrumentId, side: Side, s: seq<Resting>, key: Key)
    requires RecordsMirrored(books, sessions, exempt)
    requires exempt <= exempt' + {key}
    requires forall p, k :: k != key ==> Find(s, p, k) == Find(SideOf(books, i, side), p, k)
    requires key in exempt' || RecordAt(sessions, key).None?
             || RecordOk(key, RecordAt(sessions, key).value, PutSide(books, i, side, s))
    ensures RecordsMirrored(PutSide(books, i, side, s), sessions, exempt')
  {
    var after := PutSide(books, i, side, s);
    forall u, id | u in sessions && id in sessions[u].orders && (u, id) !in exempt'
      ensures RecordOk((u, id), sessions[u].orders[id], after)
    {
      if (u, id) != key {
        assert RecordOk((u, id), sessions[u].orders[id], books);
      }
    }
  }

  /** Take an active order off its book. */
  lemma MirrorRemove(rules: Rules, books: BookMap, sessions: Sessions, r: Order)
    requires BooksOk(rules, books) && Mirror(books, sessions, {})
    requires RecordAt(sessions, r.Key()) == Some(r) && r.state.IsActive()
    ensures r.id != QUOTE_ORDER_ID && Find(SideOf(books, r.instrument, r.side), r.price, r.Key()) == Some(r)
    ensures var s := Without(SideOf(books, r.instrument, r.side), r.price, r.Key());
            Mirror(PutSide(books, r.instrument, r.side, s), sessions, {r.Key()})
  {
    var key, i, side := r.Key(), r.instrument, r.side;
    assert RecordOk(key, r, books);
    var was := SideOf(books, i, side);
    var s := Without(was, r.price, key);
    SideOfOk(rules, books, i, side);
    WithoutMembers(was, r.price, key);
    forall p, k | k != key ensures Find(s, p, k) == Find(was, p, k) {
      WithoutFinds(was, r.price, key, p, k);
    }
    RecordsKept(books, sessions, {}, {key}, i, side, s, key);
    RemoveEntries(rules, books, sessions, r, s);
  }

  lemma RemoveEntries(rules: Rules, books: BookMap, sessions: Sessions, r: Order, s: seq<Resting>)
    requires BooksOk(rules, books) && EntriesMirrored(books, sessions, {})
    requires RecordAt(sessions, r.Key()) == Some(r) && r.id != QUOTE_ORDER_ID
    requires forall e :: e in s <==> e in SideOf(books, r.instrument, r.side) && e.Key() != r.Key()
    ensures EntriesMirrored(PutSide(books, r.instrument, r.side, s), sessions, {r.Key()})
  {
    var after := PutSide(books, r.instrument, r.side, s);
    forall j, d, e | j in after && e in after[j].On(d)
      ensures Mirrored(e.order, sessions) && e.Key() !in {r.Key()}
    {
      assert e in SideOf(books, j, d);
      assert j in books && e in books[j].On(d);
      if (j, d) != (r.instrument, r.side) {
        OnlyThere(rules, books, sessions, {}, r, j, d);
      }
    }
  }

  /** File an exempt order whose record is already up to date. */
  lemma MirrorInsert(rules: Rules, books: BookMap, sessions: Sessions, o: Order)
    requires BooksOk(rules, books) && Mirror(books, sessions, {o.Key()})
    requires RecordAt(sessions, o.Key()) == Some(o) && o.id != QUOTE_ORDER_ID
    ensures var s := Enqueue(o.side, SideOf(books, o.instrument, o.side), Resting(o.price, o));
            Mirror(PutSide(books, o.instrument, o.side, s), sessions, {})
  {
    var key, i, side := o.Key(), o.instrument, o.side;
    var was, e' := SideOf(books, i, side), Resting(o.price, o);
    var s := Enqueue(side, was, e');
    NowhereExempt(books, sessions, {key}, key, i, side);
    EnqueueMembers(side, was, e');
    forall p, k ensures Find(s, p, k) == if e'.At(p, k) then Some(o) else Find(was, p, k) {
      EnqueueFinds(side, was, e', p, k);
    }
    RecordsKept(books, sessions, {key}, {}, i, side, s, key);
    var after := PutSide(books, i, side, s);
    forall j, d, e | j in after && e in after[j].On(d) ensures Mirrored(e.order, sessions) {
      if e != e' {
        assert e in SideOf(books, j, d);
        assert j in books && e in books[j].On(d);
      }
    }
  }

  /** Carry a fill into both the book and the record. */
  lemma MirrorSettle(rules: Rules, books: BookMap, sessions: Sessions, exempt: set<Key>, r: Order, f: Order)
    requires BooksOk(rules, books) && Mirror(books, sessions, exempt) && r.Key() !in exempt
    requires RecordAt(sessions, r.Key()) == Some(r) && r.state.IsActive()
    requires SameOrder(f, r) && (f.remaining == 0.0 <==> !f.state.IsActive())
    ensures var s := Books.Settle(SideOf(books, r.instrument, r.side), r.price, f);
            Mirror(PutSide(books, r.instrument, r.side, s), PutRecord(sessions, f), exempt)
  {
    var key, i, side := r.Key(), r.instrument, r.side;
    assert RecordOk(key, r, books);
    var was := SideOf(books, i, side);
    var s := Books.Settle(was, r.price, f);
    SideOfOk(rules, books, i, side);
    SettleEffect(was, r.price, f);
    SettleRecords(books, sessions, exempt, r, f, s);
    SettleEntries(rules, books, sessions, exempt, r, f, s);
  }

  /** Settling one order: every other order keeps its entry and its lookup. */
  lemma SettleEffect(s: seq<Resting>, price: Price, f: Order)
    requires Distinct(s) && Find(s, price, f.Key()).Some?
    ensures var t := Books.Settle(s, price, f);
            && Distinct(t)
            && (forall e :: e in t <==>
                  (e in s && e.Key() != f.Key()) || (f.remaining != 0.0 && e == Resting(price, f)))
            && (forall p, k :: k != f.Key() ==> Find(t, p, k) == Find(s, p, k))
            && (f.remaining != 0.0 ==> Find(t, price, f.Key()) == Some(f))
  {
    var key := f.Key();
    if f.remaining == 0.0 {
      WithoutMembers(s, price, key);
      forall p, k | k != key ensures Find(Without(s, price, key), p, k) == Find(s, p, k) {
        WithoutFinds(s, price, key, p, k);
      }
    } else {
      StoreMembers(s, price, key, f);
      forall p, k ensures k != key ==> Find(Store(s, price, key, f), p, k) == Find(s, p, k) {
        StoreFinds(s, price, key, f, p, k);
      }
      StoreFinds(s, price, key, f, price, key);
    }
  }

  lemma SettleRecords(books: BookMap, sessions: Sessions, exempt: set<Key>, r: Order, f: Order, s: seq<Resting>)
    requires RecordsMirrored(books, sessions, exempt)
    requires RecordAt(sessions, r.Key()) == Some(r) && r.id != QUOTE_ORDER_ID
    requires SameOrder(f, r) && (f.remaining == 0.0 <==> !f.state.IsActive())
    requires forall p, k :: k != r.Key() ==> Find(s, p, k) == Find(SideOf(books, r.instrument, r.side), p, k)
    requires f.remaining != 0.0 ==> Find(s, r.price, r.Key()) == Some(f)
    ensures RecordsMirrored(PutSide(books, r.instrument, r.side, s), PutRecord(sessions, f), exempt)
  {
    var after, sessions' := PutSide(books, r.instrument, r.side, s), PutRecord(sessions, f);
    forall u, id | u in sessions' && id in sessions'[u].orders && (u, id) !in exempt
      ensures RecordOk((u, id), sessions'[u].orders[id], after)
    {
      if (u, id) != r.Key() {
        assert u in sessions && id in sessions[u].orders && sessions'[u].orders[id] == sessions[u].orders[id];
        assert RecordOk((u, id), sessions[u].orders[id], books);
      }
    }
  }

  lemma SettleEntries(rules: Rules, books: BookMap, sessions: Sessions, exempt: set<Key>, r: Order, f: Order,
                      s: seq<Resting>)
    requires BooksOk(rules, books) && EntriesMirrored(books, sessions, exempt) && r.Key() !in exempt
    requires RecordAt(sessions, r.Key()) == Some(r) && r.id != QUOTE_ORDER_ID && SameOrder(f, r)
    requires forall e :: e in s <==>
      || (e in SideOf(books, r.instrument, r.side) && e.Key() != r.Key())
      || (f.remaining != 0.0 && e == Resting(r.price, f))
    ensures EntriesMirrored(PutSide(books, r.instrument, r.side, s), PutRecord(sessions, f), exempt)
  {
    var after, sessions' := PutSide(books, r.instrument, r.side, s), PutRecord(sessions, f);
    forall j, d, e | j in after && e in after[j].On(d)
      ensures Mirrored(e.order, sessions') && e.Key() !in exempt
    {
      if e.Key() == r.Key() {
        if (j, d) != (r.instrument, r.side) {
          OnlyThere(rules, books, sessions, exempt, r, j, d);
          assert false;
        }
      } else {
        assert e in SideOf(books, j, d);
        assert j in books && e in books[j].On(d);
        assert Mirrored(e.order, sessions);
      }
    }
  }

  // ---------------------------------------------------------------- quote legs

  function PutQuote(sessions: Sessions, s: string, i: InstrumentId, pair: QuotePair): Sessions
    requires s in sessions
  {
    sessions[s := sessions[s].(quotes := sessions[s].quotes[i := pair])]
  }

  function DropQuote(sessions: Sessions, s: string, i: InstrumentId): Sessions
    requires s in sessions
  {
    sessions[s := sessions[s].(quotes := sessions[s].quotes - {i})]
  }

  /** Changing how a quote key rests on one side of one book. */
  lemma MirrorQuoteSide(books: BookMap, sessions: Sessions, exempt: set<Key>, i: InstrumentId, side: Side,
                        key: Key, s: seq<Resting>)
    requires Mirror(books, sessions, exempt) && key.1 == QUOTE_ORDER_ID
    requires forall p, k :: k != key ==> Find(s, p, k) == Find(SideOf(books, i, side), p, k)
    requires forall e :: e in s ==>
      e in SideOf(books, i, side) || (Mirrored(e.order, sessions) && e.Key() !in exempt)
    ensures Mirror(PutSide(books, i, side, s), sessions, exempt)
  {
    var after := PutSide(books, i, side, s);
    forall u, id | u in sessions && id in sessions[u].orders && (u, id) !in exempt
      ensures RecordOk((u, id), sessions[u].orders[id], after)
    {
      assert RecordOk((u, id), sessions[u].orders[id], books);
    }
    forall j, d, e | j in after && e in after[j].On(d) ensures Mirrored(e.order, sessions) && e.Key() !in exempt {
      if e in SideOf(books, j, d) {
        assert j in books && e in books[j].On(d);
      }
    }
  }

  /** A quote leg filled in place. */
  lemma MirrorQuoteSettle(rules: Rules, books: BookMap, sessions: Sessions, exempt: set<Key>,
                          i: InstrumentId, side: Side, e: Resting, f: Order)
    requires BooksOk(rules, books) && Mirror(books, sessions, exempt)
    requires e in SideOf(books, i, side) && e.order.id == QUOTE_ORDER_ID && SameOrder(f, e.order)
    ensures Mirror(PutSide(books, i, side, Books.Settle(SideOf(books, i, side), e.level, f)), sessions, exempt)
  {
    var was := SideOf(books, i, side);
    SideOfOk(rules, books, i, side);
    FindMember(was, e);
    assert i in books && e in books[i].On(side);
    SettleEffect(was, e.level, f);
    MirrorQuoteSide(books, sessions, exempt, i, side, f.Key(), Books.Settle(was, e.level, f));
  }

  /** Withdraw a quote leg from the book, whether or not anything of it is left there. */
  lemma MirrorQuoteRemove(rules: Rules, books: BookMap, sessions: Sessions, i: InstrumentId, side: Side,
                          price: Price, key: Key)
    requires BooksOk(rules, books) && Mirror(books, sessions, {}) && key.1 == QUOTE_ORDER_ID
    ensures Mirror(PutSide(books, i, side, Without(SideOf(books, i, side), price, key)), sessions, {})
  {
    var was := SideOf(books, i, side);
    SideOfOk(rules, books, i, side);
    WithoutPrioritised(side, was, price, key);
    forall p, k | k != key ensures Find(Without(was, price, key), p, k) == Find(was, p, k) {
      WithoutFinds(was, price, key, p, k);
    }
    MirrorQuoteSide(books, sessions, {}, i, side, key, Without(was, price, key));
  }

  /** The remainder of a new quote leg goes into the book. */
  lemma MirrorQuoteInsert(books: BookMap, sessions: Sessions, o: Order)
    requires Mirror(books, sessions, {}) && o.id == QUOTE_ORDER_ID && Mirrored(o, sessions)
    requires Absent(SideOf(books, o.instrument, o.side), o.Key())
    ensures Mirror(PutSide(books, o.instrument, o.side,
                     Enqueue(o.side, SideOf(books, o.instrument, o.side), Resting(o.price, o))), sessions, {})
  {
    var was, e := SideOf(books, o.instrument, o.side), Resting(o.price, o);
    var s := Enqueue(o.side, was, e);
    EnqueueMembers(o.side, was, e);
    forall p, k ensures Find(s, p, k) == if e.At(p, k) then Some(o) else Find(was, p, k) {
      EnqueueFinds(o.side, was, e, p, k);
    }
    MirrorQuoteSide(books, sessions, {}, o.instrument, o.side, o.Key(), s);
  }

  /** The entries of a quote key on one side are legs of this pair. */
  ghost predicate LegFits(s: seq<Resting>, key: Key, leg: Option<Order>) {
    forall e :: e in s && e.Key() == key ==> leg.Some? && SameOrder(e.order, leg.value)
  }

  /** Replacing the recorded quote, when the book holds only legs of the new one. */
  lemma MirrorQuotePut(rules: Rules, books: BookMap, sessions: Sessions, s: string, i: InstrumentId, pair: QuotePair)
    requires BooksOk(rules, books) && Mirror(books, sessions, {}) && s in sessions
    requires LegFits(SideOf(books, i, Buy), (s, QUOTE_ORDER_ID), pair.bid)
    requires LegFits(SideOf(books, i, Sell), (s, QUOTE_ORDER_ID), pair.ask)
    ensures Mirror(books, PutQuote(sessions, s, i, pair), {})
  {
    var after := PutQuote(sessions, s, i, pair);
    forall j, d, e | j in books && e in books[j].On(d) ensures Mirrored(e.order, after) {
      assert Mirrored(e.order, sessions);
      SideOfOk(rules, books, j, d);
      assert EntryOk(rules, j, d, e);
      if j == i && e.Key() == (s, QUOTE_ORDER_ID) {
        assert e in SideOf(books, i, d);
      }
    }
    forall u, id | u in after && id in after[u].orders ensures RecordOk((u, id), after[u].orders[id], books) {
      assert id in sessions[u].orders;
    }
  }

  lemma MirrorQuoteDrop(rules: Rules, books: BookMap, sessions: Sessions, s: string, i: InstrumentId)
    requires BooksOk(rules, books) && Mirror(books, sessions, {}) && s in sessions
    requires Absent(SideOf(books, i, Buy), (s, QUOTE_ORDER_ID))
    requires Absent(SideOf(books, i, Sell), (s, QUOTE_ORDER_ID))
    ensures Mirror(books, DropQuote(sessions, s, i), {})
  {
    var after := DropQuote(sessions, s, i);
    forall j, d, e | j in books && e in books[j].On(d) ensures Mirrored(e.order, after) {
      assert Mirrored(e.order, sessions);
      SideOfOk(rules, books, j, d);
      assert EntryOk(rules, j, d, e);
      assert e in SideOf(books, j, d);
    }
    forall u, id | u in after && id in after[u].orders ensures RecordOk((u, id), after[u].orders[id], books) {
      assert id in sessions[u].orders;
    }
  }
}
