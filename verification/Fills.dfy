/** Fill reports and the records they update (send_fill and send_trade_reports of
    src/core/exchange/mod.rs): the accounting that every fill keeps, and the agreement of books and
    records across a whole sweep. */
module Fills {
  import opened Orders
  import opened Collections
  import opened Ladders
  import opened Matching
  import opened Filing
  import opened Mirrors
  import Books
  import Trading

  datatype ExecType = ExecNew | ExecCancelled | ExecExpired | ExecReplaced | ExecRejected

  /** A report handed to a session, with its ExecID number. */
  datatype Report =
    | Fill(order: Order, price: Price, quantity: real, execId: nat)
    | Status(order: Order, clOrdId: OrderId, execType: ExecType, orig: Option<OrderId>, execId: nat)

  /** Figures of an order as it may be reported: assigned, not negative. */
  predicate Presentable(o: Order) {
    !o.exchange.Unassigned? && o.cum >= 0.0 && o.avg >= 0.0 && (o.state.IsActive() ==> o.remaining >= 0.0)
  }

  /** A report that makes sense: a fill of something at some price, a replacement of a named order. */
  predicate ReportOk(r: Report) {
    && Presentable(r.order)
    && (r.Fill? ==> r.price > 0.0 && r.quantity > 0.0)
    && (r.Status? && r.execType.ExecReplaced? ==> r.orig.Some?)
  }

  ghost predicate AllReported(log: seq<Report>) {
    forall k :: 0 <= k < |log| ==> ReportOk(log[k])
  }

  // ---------------------------------------------------------------- sums over the report log

  predicate IsFillOf(r: Report, n: nat) {
    r.Fill? && r.order.exchange == Number(n)
  }

  /** Quantity reported filled for exchange order n. */
  function Executed(log: seq<Report>, n: nat): real {
    if log == [] then 0.0 else
    var last := log[|log| - 1];
    Executed(log[..|log| - 1], n) + if IsFillOf(last, n) then last.quantity else 0.0
  }

  /** Notional reported filled for exchange order n. */
  function Spent(log: seq<Report>, n: nat): real {
    if log == [] then 0.0 else
    var last := log[|log| - 1];
    Spent(log[..|log| - 1], n) + if IsFillOf(last, n) then last.price * last.quantity else 0.0
  }

  lemma ExecutedAppend(log: seq<Report>, r: Report, n: nat)
    ensures Executed(log + [r], n) == Executed(log, n) + if IsFillOf(r, n) then r.quantity else 0.0
    ensures Spent(log + [r], n) == Spent(log, n) + if IsFillOf(r, n) then r.price * r.quantity else 0.0
  {
    assert (log + [r])[..|log|] == log;
  }

  // ---------------------------------------------------------------- accounting of the records

  type Owners = map<nat, Key>

  /** An order's cumulative quantity and notional are exactly what was reported for it, and its
      quantity is split between filled and open (an expired order has given up the open part). */
  ghost predicate Accounted(r: Order, log: seq<Report>) {
    && r.exchange.Number?
    && r.cum == Executed(log, r.exchange.n) && Notional(r) == Spent(log, r.exchange.n)
    && r.cum >= 0.0 && (!r.state.Expired? ==> Balanced(r))
  }

  /** Every live record is accounted for, and its exchange number belongs to it alone. */
  ghost predicate Accounting(sessions: Sessions, owner: Owners, log: seq<Report>) {
    forall s, id :: s in sessions && id in sessions[s].orders ==>
      var r := sessions[s].orders[id];
      Accounted(r, log) && r.exchange.n in owner && owner[r.exchange.n] == (s, id)
  }

  /** Carry the execution fields of a fill snapshot into a record. */
  function Carry(r: Order, f: Order): Order {
    r.(remaining := f.remaining, cum := f.cum, avg := f.avg, state := f.state)
  }

  /** The record update of one fill report; quote legs are not tracked. */
  function RecordFill(sessions: Sessions, f: Order): Sessions {
    var r := RecordAt(sessions, f.Key());
    if f.id != QUOTE_ORDER_ID && r.Some? then PutAt(sessions, f.Key(), Carry(r.value, f))
    else sessions
  }

  /** A fill snapshot that continues a record by one fill. */
  ghost predicate Continues(r: Order, f: Order, price: Price, quantity: real) {
    && f.Key() == r.Key() && f.exchange == r.exchange && f.quantity == r.quantity
    && f.cum == r.cum + quantity && Notional(f) == Notional(r) + price * quantity
    && Balanced(f) && !f.state.Expired?
  }

  lemma AccountFill(sessions: Sessions, owner: Owners, log: seq<Report>, f: Order, price: Price, quantity: real,
                    execId: nat)
    requires Accounting(sessions, owner, log)
    requires f.id == QUOTE_ORDER_ID ==> f.exchange.QuoteLeg?
    requires f.id != QUOTE_ORDER_ID ==>
      RecordAt(sessions, f.Key()).Some? && Continues(RecordAt(sessions, f.Key()).value, f, price, quantity)
    ensures Accounting(RecordFill(sessions, f), owner, log + [Fill(f, price, quantity, execId)])
  {
    var log' := log + [Fill(f, price, quantity, execId)];
    var after := RecordFill(sessions, f);
    forall s, id | s in after && id in after[s].orders
      ensures var r := after[s].orders[id];
              Accounted(r, log') && r.exchange.n in owner && owner[r.exchange.n] == (s, id)
    {
      assert s in sessions && id in sessions[s].orders;
      var was := sessions[s].orders[id];
      assert Accounted(was, log) && owner[was.exchange.n] == (s, id);
      ExecutedAppend(log, Fill(f, price, quantity, execId), was.exchange.n);
      if f.id != QUOTE_ORDER_ID {
        var r := RecordAt(sessions, f.Key()).value;
        assert r == sessions[f.session].orders[f.id];
        assert owner[r.exchange.n] == f.Key();
      }
    }
  }

  /** A status report changes no account. */
  lemma AccountStatus(sessions: Sessions, owner: Owners, log: seq<Report>, r: Report)
    requires Accounting(sessions, owner, log) && r.Status?
    ensures Accounting(sessions, owner, log + [r])
  {
    forall s, id | s in sessions && id in sessions[s].orders ensures Accounted(sessions[s].orders[id], log + [r]) {
      ExecutedAppend(log, r, sessions[s].orders[id].exchange.n);
    }
  }

  // ---------------------------------------------------------------- settling keeps books in order

  lemma SettleOk(rules: Rules, i: InstrumentId, side: Side, s: seq<Resting>, e: Resting, quantity: real, price: Price)
    requires SideOk(rules, i, side, s) && e in s && 0.0 < quantity <= e.order.remaining
    ensures SideOk(rules, i, side, Books.Settle(s, e.level, ApplyFill(e.order, quantity, price)))
  {
    var f := ApplyFill(e.order, quantity, price);
    FindMember(s, e);
    SettleEffect(s, e.level, f);
    assert EntryOk(rules, i, side, e);
    FillConserves(e.order, quantity, price);
    if f.remaining == 0.0 {
      WithoutPrioritised(side, s, e.level, f.Key());
    } else {
      StorePrioritised(side, s, e.level, f.Key(), f);
      assert EntryOk(rules, i, side, Resting(e.level, f));
    }
  }

  /** Replacing one side by orders of levels it already had keeps a book in order. */
  lemma PutSideOk(rules: Rules, books: BookMap, i: InstrumentId, side: Side, s: seq<Resting>)
    requires BooksOk(rules, books) && SideOk(rules, i, side, s)
    requires Trading.Levels(s, SideOf(books, i, side))
    ensures BooksOk(rules, PutSide(books, i, side, s))
  {
    SideOfOk(rules, books, i, Opposite(side));
    SideOfOk(rules, books, i, side);
  }

  lemma SettleBookOk(rules: Rules, books: BookMap, i: InstrumentId, side: Side, e: Resting, quantity: real,
                     price: Price)
    requires BooksOk(rules, books) && e in SideOf(books, i, side) && 0.0 < quantity <= e.order.remaining
    ensures var s := Books.Settle(SideOf(books, i, side), e.level, ApplyFill(e.order, quantity, price));
            BooksOk(rules, PutSide(books, i, side, s))
  {
    var was := SideOf(books, i, side);
    var f := ApplyFill(e.order, quantity, price);
    SideOfOk(rules, books, i, side);
    SettleOk(rules, i, side, was, e, quantity, price);
    FindMember(was, e);
    SettleEffect(was, e.level, f);
    var s := Books.Settle(was, e.level, f);
    forall x | x in s ensures exists q :: q in was && q.level == x.level {
      if x !in was {
        assert e.level == x.level;
      }
    }
    PutSideOk(rules, books, i, side, s);
  }

  // ---------------------------------------------------------------- one fill of a resting order

  ghost predicate Consistent(rules: Rules, books: BookMap, sessions: Sessions, owner: Owners, log: seq<Report>,
                             exempt: set<Key>)
  {
    BooksOk(rules, books) && Mirror(books, sessions, exempt) && Accounting(sessions, owner, log)
  }

  /** A resting order is filled in its book, its record follows and the fill is reported. */
  lemma FillResting(rules: Rules, books: BookMap, sessions: Sessions, owner: Owners, log: seq<Report>,
                    exempt: set<Key>, i: InstrumentId, side: Side, e: Resting, quantity: real, price: Price,
                    execId: nat)
    requires Consistent(rules, books, sessions, owner, log, exempt)
    requires e in SideOf(books, i, side) && 0.0 < quantity <= e.order.remaining
    ensures var f := ApplyFill(e.order, quantity, price);
            var s := Books.Settle(SideOf(books, i, side), e.level, f);
            && Consistent(rules, PutSide(books, i, side, s), RecordFill(sessions, f), owner,
                          log + [Fill(f, price, quantity, execId)], exempt)
            && (e.order.id != QUOTE_ORDER_ID ==> RecordFill(sessions, f) == PutRecord(sessions, f))
  {
    var f := ApplyFill(e.order, quantity, price);
    SettleBookOk(rules, books, i, side, e, quantity, price);
    assert i in books && e in books[i].On(side);
    SideOfOk(rules, books, i, side);
    assert EntryOk(rules, i, side, e) && Mirrored(e.order, sessions);
    FillConserves(e.order, quantity, price);
    hide Books.Settle, Balanced, BooksOk, Mirror, Accounting;
    if e.order.id == QUOTE_ORDER_ID {
      MirrorQuoteSettle(rules, books, sessions, exempt, i, side, e, f);
    } else {
      assert Carry(e.order, f) == f;
      MirrorSettle(rules, books, sessions, exempt, e.order, f);
    }
    AccountFill(sessions, owner, log, f, price, quantity, execId);
  }

  // ---------------------------------------------------------------- one fill of the incoming order

  /** How the incoming order of a sweep is recorded: a quote leg not at all, a regular order by a
      record with the same execution figures, which no book entry depends on. */
  ghost predicate Incoming(sessions: Sessions, exempt: set<Key>, o: Order) {
    && Balanced(o)
    && if o.id == QUOTE_ORDER_ID then exempt == {} && o.exchange.QuoteLeg?
       else
         && exempt == {o.Key()} && RecordAt(sessions, o.Key()).Some?
         && SameFigures(RecordAt(sessions, o.Key()).value, o)
  }

  lemma FillIncoming(rules: Rules, books: BookMap, sessions: Sessions, owner: Owners, log: seq<Report>,
                     exempt: set<Key>, o: Order, quantity: real, price: Price, execId: nat)
    requires Consistent(rules, books, sessions, owner, log, exempt) && Incoming(sessions, exempt, o)
    requires 0.0 < quantity <= o.remaining
    ensures var m := ApplyFill(o, quantity, price);
            && Consistent(rules, books, RecordFill(sessions, m), owner, log + [Fill(m, price, quantity, execId)],
                          exempt)
            && Incoming(RecordFill(sessions, m), exempt, m)
  {
    var m := ApplyFill(o, quantity, price);
    ContinuesFill(o, quantity, price);
    hide Balanced, BooksOk, Mirror, Accounting, ApplyFill, Notional;
    if o.id != QUOTE_ORDER_ID {
      MirrorRecord(books, sessions, Carry(RecordAt(sessions, o.Key()).value, m));
    }
    AccountFill(sessions, owner, log, m, price, quantity, execId);
  }

  /** Same execution figures, whatever the state says. */
  predicate SameFigures(r: Order, o: Order) {
    && r.Key() == o.Key() && r.exchange == o.exchange
    && r.quantity == o.quantity && r.cum == o.cum && r.avg == o.avg
  }

  lemma ContinuesFill(o: Order, quantity: real, price: Price)
    requires Balanced(o) && 0.0 < quantity <= o.remaining
    ensures var m := ApplyFill(o, quantity, price);
            && Balanced(m) && SameOrder(m, o)
            && (forall r :: SameFigures(r, o) ==> Continues(r, m, price, quantity))
  {
    FillConserves(o, quantity, price);
  }

  // ---------------------------------------------------------------- a whole sweep

  /** Both fills of one trade, in the order they are reported. */
  function RecordTrade(sessions: Sessions, t: Trade): Sessions {
    RecordFill(RecordFill(sessions, t.buyer), t.seller)
  }

  function RecordAll(sessions: Sessions, trades: seq<Trade>): Sessions {
    if trades == [] then sessions
    else RecordTrade(RecordAll(sessions, trades[..|trades| - 1]), trades[|trades| - 1])
  }

  function TradeReports(t: Trade, exec: nat): seq<Report> {
    [Fill(t.buyer, t.price, t.quantity, exec + 1), Fill(t.seller, t.price, t.quantity, exec + 2)]
  }

  function Reports(trades: seq<Trade>, exec: nat): seq<Report> {
    if trades == [] then []
    else Reports(trades[..|trades| - 1], exec) + TradeReports(trades[|trades| - 1], exec + 2 * (|trades| - 1))
  }

  lemma OtherRecordKept(sessions: Sessions, exempt: set<Key>, o: Order, f: Order)
    requires Incoming(sessions, exempt, o) && f.Key() !in exempt
    ensures Incoming(RecordFill(sessions, f), exempt, o)
  {
  }

  lemma FillTrade(rules: Rules, books: BookMap, sessions: Sessions, owner: Owners, log: seq<Report>,
                  exempt: set<Key>, o: Order, e: Resting, t: Trade, exec: nat)
    requires Consistent(rules, books, sessions, owner, log, exempt) && Incoming(sessions, exempt, o)
    requires e in SideOf(books, o.instrument, Opposite(o.side))
    requires 0.0 < t.quantity <= o.remaining && t.quantity <= e.order.remaining
    requires t == TradeWith(o, e.order, t.quantity, t.price)
    ensures var side := Opposite(o.side);
            var s := Books.Settle(SideOf(books, o.instrument, side), e.level, Trading.Theirs(o.side, t));
            && Consistent(rules, PutSide(books, o.instrument, side, s), RecordTrade(sessions, t), owner,
                          log + TradeReports(t, exec), exempt)
            && Incoming(RecordTrade(sessions, t), exempt, Trading.Mine(o.side, t))
  {
    var i, side := o.instrument, Opposite(o.side);
    var q, p := t.quantity, t.price;
    var mine, theirs := ApplyFill(o, q, p), ApplyFill(e.order, q, p);
    assert i in books && e in books[i].On(side);
    assert theirs.Key() !in exempt;
    hide Consistent, Incoming, RecordFill, ApplyFill, Books.Settle, SideOf, PutSide;
    var first := Fill(t.buyer, p, q, exec + 1);
    var second := Fill(t.seller, p, q, exec + 2);
    if o.side.Buy? {
      FillIncoming(rules, books, sessions, owner, log, exempt, o, q, p, exec + 1);
      var sessions1 := RecordFill(sessions, mine);
      FillResting(rules, books, sessions1, owner, log + [first], exempt, i, side, e, q, p, exec + 2);
      OtherRecordKept(sessions1, exempt, mine, theirs);
    } else {
      FillResting(rules, books, sessions, owner, log, exempt, i, side, e, q, p, exec + 1);
      OtherRecordKept(sessions, exempt, o, theirs);
      FillIncoming(rules, PutSide(books, i, side, Books.Settle(SideOf(books, i, side), e.level, theirs)),
                   RecordFill(sessions, theirs), owner, log + [first], exempt, o, q, p, exec + 2);
    }
    assert log + [first] + [second] == log + TradeReports(t, exec);
  }

  /** Opening an empty book changes nothing. */
  lemma PutSideSame(rules: Rules, books: BookMap, sessions: Sessions, exempt: set<Key>,
                    i: InstrumentId, side: Side)
    requires BooksOk(rules, books) && Mirror(books, sessions, exempt)
    ensures var after := PutSide(books, i, side, SideOf(books, i, side));
            BooksOk(rules, after) && Mirror(after, sessions, exempt)
  {
    var after := PutSide(books, i, side, SideOf(books, i, side));
    assert forall j :: BookOf(after, j) == BookOf(books, j);
    forall u, id | u in sessions && id in sessions[u].orders && (u, id) !in exempt
      ensures RecordOk((u, id), sessions[u].orders[id], after)
    {
      assert RecordOk((u, id), sessions[u].orders[id], books);
    }
    forall j, d, e | j in after && e in after[j].On(d) ensures Mirrored(e.order, sessions) && e.Key() !in exempt {
      assert j in books && e in books[j].On(d);
    }
  }

  lemma PutSideFacts(books: BookMap, i: InstrumentId, side: Side, s: seq<Resting>, t: seq<Resting>)
    ensures SideOf(PutSide(books, i, side, s), i, side) == s
    ensures SideOf(PutSide(books, i, side, s), i, Opposite(side)) == SideOf(books, i, Opposite(side))
    ensures PutSide(PutSide(books, i, side, s), i, side, t) == PutSide(books, i, side, t)
  {
  }

  /** All trades but the last, of a sweep in closed form. */
  lemma ShorterFits(o: Order, opposite: seq<Resting>, trades: seq<Trade>)
    requires trades != [] && |trades| <= |opposite| && Trading.TradesFit(o, opposite, trades)
    ensures var n := |trades| - 1;
            var shorter, o' := trades[..n], Trading.Before(o, trades, n);
            && Trading.TradesFit(o, opposite, shorter)
            && Trading.Leftover(o.side, opposite, shorter) == opposite[n..]
            && Trading.Before(o, shorter, n) == o' && SameOrder(o', o)
            && trades[n] == TradeWith(o', opposite[n].order, trades[n].quantity, trades[n].price)
            && 0.0 < trades[n].quantity <= o'.remaining && trades[n].quantity <= opposite[n].order.remaining
  {
    var n := |trades| - 1;
    var shorter := trades[..n];
    forall k | 0 <= k < n ensures Trading.TradeFits(o, opposite, shorter, k) {
      assert Trading.TradeFits(o, opposite, trades, k);
      assert Trading.Before(o, shorter, k) == Trading.Before(o, trades, k);
    }
    if n > 0 {
      assert Trading.TradeFits(o, opposite, trades, n - 1);
    }
    assert Trading.TradeFits(o, opposite, trades, n);
    Trading.MineKeepsIdentity(o, opposite, trades);
  }

  lemma SettleHead(s: seq<Resting>, f: Order)
    requires s != [] && f.Key() == s[0].Key()
    ensures Books.Settle(s, s[0].level, f)
         == if f.remaining == 0.0 then s[1..] else [Resting(s[0].level, f)] + s[1..]
  {
  }

  lemma LeftoverStep(o: Order, opposite: seq<Resting>, trades: seq<Trade>)
    requires trades != [] && |trades| <= |opposite| && Trading.TradesFit(o, opposite, trades)
    ensures var n := |trades| - 1;
            Books.Settle(opposite[n..], opposite[n].level, Trading.Theirs(o.side, trades[n]))
            == Trading.Leftover(o.side, opposite, trades)
  {
    var n := |trades| - 1;
    assert Trading.TradeFits(o, opposite, trades, n);
    SettleHead(opposite[n..], Trading.Theirs(o.side, trades[n]));
    assert opposite[n..][1..] == opposite[n + 1..];
  }

  /** Books and records agree again after all the trades of one incoming order, every fill
      accounted for, the swept side holding exactly the leftover. */
  lemma {:induction false} SweepFills(rules: Rules, books: BookMap, sessions: Sessions, owner: Owners,
                                      log: seq<Report>, exempt: set<Key>, o: Order, trades: seq<Trade>, exec: nat)
    requires Consistent(rules, books, sessions, owner, log, exempt) && Incoming(sessions, exempt, o)
    requires |trades| <= |SideOf(books, o.instrument, Opposite(o.side))|
    requires Trading.TradesFit(o, SideOf(books, o.instrument, Opposite(o.side)), trades)
    ensures var side := Opposite(o.side);
            var left := Trading.Leftover(o.side, SideOf(books, o.instrument, side), trades);
            && Consistent(rules, PutSide(books, o.instrument, side, left), RecordAll(sessions, trades), owner,
                          log + Reports(trades, exec), exempt)
            && Incoming(RecordAll(sessions, trades), exempt, Trading.Before(o, trades, |trades|))
    decreases |trades|, 1
  {
    var i, side := o.instrument, Opposite(o.side);
    var opposite := SideOf(books, i, side);
    if trades == [] {
      PutSideSame(rules, books, sessions, exempt, i, side);
      assert opposite[0..] == opposite && log + [] == log;
    } else {
      SweepFillsStep(rules, books, sessions, owner, log, exempt, o, trades, exec);
    }
  }

  lemma {:induction false} SweepFillsStep(rules: Rules, books: BookMap, sessions: Sessions, owner: Owners,
                                          log: seq<Report>, exempt: set<Key>, o: Order, trades: seq<Trade>, exec: nat)
    requires Consistent(rules, books, sessions, owner, log, exempt) && Incoming(sessions, exempt, o)
    requires trades != [] && |trades| <= |SideOf(books, o.instrument, Opposite(o.side))|
    requires Trading.TradesFit(o, SideOf(books, o.instrument, Opposite(o.side)), trades)
    ensures var side := Opposite(o.side);
            var left := Trading.Leftover(o.side, SideOf(books, o.instrument, side), trades);
            && Consistent(rules, PutSide(books, o.instrument, side, left), RecordAll(sessions, trades), owner,
                          log + Reports(trades, exec), exempt)
            && Incoming(RecordAll(sessions, trades), exempt, Trading.Before(o, trades, |trades|))
    decreases |trades|, 0
  {
    hide Consistent, Incoming, RecordTrade, TradeReports, Trading.TradesFit, Trading.Leftover, SideOf, PutSide;
    var i, side := o.instrument, Opposite(o.side);
    var opposite := SideOf(books, i, side);
    var n := |trades| - 1;
    var shorter, t, tail := trades[..n], trades[n], opposite[n..];
    ShorterFits(o, opposite, trades);
    SweepFills(rules, books, sessions, owner, log, exempt, o, shorter, exec);
    var books' := PutSide(books, i, side, tail);
    PutSideFacts(books, i, side, tail, Trading.Leftover(o.side, opposite, trades));
    assert tail[0] == opposite[n];
    FillTrade(rules, books', RecordAll(sessions, shorter), owner, log + Reports(shorter, exec), exempt,
              Trading.Before(o, trades, n), opposite[n], t, exec + 2 * n);
    LeftoverStep(o, opposite, trades);
    Assoc(log, Reports(shorter, exec), TradeReports(t, exec + 2 * n));
  }
}
