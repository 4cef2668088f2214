/** What an accepted request leaves behind and what its client is told, in the request's own terms
    (create_order and modify_order_with_type of src/core/exchange/mod.rs). */
module Answers {
  import opened Orders
  import opened Ladders
  import opened Matching
  import opened Mirrors
  import opened Fills
  import opened Steps
  import opened Ledgers
  import opened Quoting
  import opened Operations
  import Accepting
  import Books
  import Filing
  import Trading
  import TierPlans

  // ---------------------------------------------------------------- records

  /** The same orders but for `keys`, each with its terms unchanged. */
  ghost predicate OthersContinue(was: Sessions, now: Sessions, keys: set<Key>) {
    forall k :: k !in keys ==>
      && (RecordAt(now, k).Some? <==> RecordAt(was, k).Some?)
      && (RecordAt(was, k).Some? ==> SameOrder(RecordAt(now, k).value, RecordAt(was, k).value))
  }

  /** The same orders but for `keys`, untouched. */
  ghost predicate OthersRest(was: Sessions, now: Sessions, keys: set<Key>) {
    forall k :: k !in keys ==> RecordAt(now, k) == RecordAt(was, k)
  }

  /** The same sessions with the same quotes. */
  ghost predicate SameQuotes(was: Sessions, now: Sessions) {
    was.Keys == now.Keys && forall s :: s in was ==> now[s].quotes == was[s].quotes
  }

  lemma PutRecords(sessions: Sessions, key: Key, o: Order)
    requires key.0 in sessions
    ensures RecordAt(PutAt(sessions, key, o), key) == Some(o)
    ensures OthersRest(sessions, PutAt(sessions, key, o), {key}) && SameQuotes(sessions, PutAt(sessions, key, o))
  {
  }

  lemma DropRecords(sessions: Sessions, key: Key)
    requires key.0 in sessions
    ensures RecordAt(DropRecord(sessions, key), key) == None
    ensures OthersRest(sessions, DropRecord(sessions, key), {key}) && SameQuotes(sessions, DropRecord(sessions, key))
  {
  }

  lemma FillContinues(sessions: Sessions, f: Order)
    ensures OthersContinue(sessions, RecordFill(sessions, f), {}) && SameQuotes(sessions, RecordFill(sessions, f))
  {
    var r := RecordAt(sessions, f.Key());
    if r.Some? {
      PutRecords(sessions, f.Key(), Carry(r.value, f));
    }
  }

  lemma {:induction false} FillsContinue(sessions: Sessions, trades: seq<Trade>)
    ensures OthersContinue(sessions, RecordAll(sessions, trades), {})
    ensures SameQuotes(sessions, RecordAll(sessions, trades))
  {
    if trades != [] {
      var shorter, t := trades[..|trades| - 1], trades[|trades| - 1];
      FillsContinue(sessions, shorter);
      hide RecordFill;
      FillContinues(RecordAll(sessions, shorter), t.buyer);
      FillContinues(RecordFill(RecordAll(sessions, shorter), t.buyer), t.seller);
    }
  }

  // ---------------------------------------------------------------- reports

  /** Every report since `was` about this identity carries these terms. */
  ghost predicate TermsReported(was: seq<Report>, now: seq<Report>, o: Order) {
    forall n :: |was| <= n < |now| && now[n].order.Key() == o.Key() ==> SameOrder(now[n].order, o)
  }

  /** From report n on there are only fills. */
  ghost predicate OnlyFills(log: seq<Report>, from: nat, to: nat) {
    forall n :: from <= n < to && n < |log| ==> log[n].Fill?
  }

  lemma {:induction false} ReportAt(trades: seq<Trade>, exec: nat, n: nat)
    requires n < 2 * |trades|
    ensures |Reports(trades, exec)| == 2 * |trades|
    ensures var t := trades[n / 2];
            var party := if n % 2 == 0 then t.buyer else t.seller;
            Reports(trades, exec)[n] == Fill(party, t.price, t.quantity, exec + n + 1)
  {
    var last := |trades| - 1;
    ReportsShape(trades, exec);
    ReportsShape(trades[..last], exec);
    if n < 2 * last {
      ReportAt(trades[..last], exec, n);
    }
  }

  /** The fills of a sweep are reported with the terms the parties came with. */
  lemma PartiesReported(o: Order, opposite: seq<Resting>, exec: nat, n: nat)
    requires o.remaining >= 0.0 && Live(opposite) && Filing.Absent(opposite, o.Key())
    requires n < |Reports(Sweep(o, opposite).trades, exec)|
    ensures var r := Reports(Sweep(o, opposite).trades, exec)[n];
            r.Fill? && (r.order.Key() == o.Key() ==> SameOrder(r.order, o))
  {
    var trades := Sweep(o, opposite).trades;
    Trading.SweepShape(o, opposite);
    Trading.MineKeepsIdentity(o, opposite, trades);
    hide Sweep;
    ReportsShape(trades, exec);
    ReportAt(trades, exec, n);
    var k := n / 2;
    assert Trading.TradeFits(o, opposite, trades, k) && opposite[k] in opposite;
    assert SameOrder(Trading.Before(o, trades, k + 1), o);
  }

  // ---------------------------------------------------------------- the matcher

  /** An order with terms o went through the matcher and ended as r: everybody else keeps his terms, and
      only fills are reported. */
  ghost predicate AddedOn(l: Ledger, now: Ledger, o: Order, r: Order) {
    && RecordAt(now.sessions, o.Key()) == Some(r) && SameOrder(r, o)
    && OthersContinue(l.sessions, now.sessions, {o.Key()}) && SameQuotes(l.sessions, now.sessions)
    && l.log <= now.log && TermsReported(l.log, now.log, o) && OnlyFills(now.log, |l.log|, |now.log|)
    && (forall j :: j != o.instrument ==> BookOf(now.books, j) == BookOf(l.books, j))
    && now.dates == l.dates && now.number == l.number && now.rules == l.rules
  }

  lemma AddedRecords(l: Ledger, o: Order)
    requires Matchable(l, o) && o.id != QUOTE_ORDER_ID
    ensures var now, final := Added(l, o), Trading.Add(BookOf(l.books, o.instrument), o).final;
            && RecordAt(now.sessions, o.Key()) == Some(final) && SameOrder(final, o)
            && OthersContinue(l.sessions, now.sessions, {o.Key()}) && SameQuotes(l.sessions, now.sessions)
            && (forall j :: j != o.instrument ==> BookOf(now.books, j) == BookOf(l.books, j))
            && now.dates == l.dates && now.number == l.number && now.rules == l.rules
  {
    AddFinalSession(l.books, o);
    var added := Trading.Add(BookOf(l.books, o.instrument), o);
    hide Trading.Add, RecordAll, Live;
    FillsContinue(l.sessions, added.trades);
    PutRecords(RecordAll(l.sessions, added.trades), o.Key(), added.final);
  }

  lemma AddedReports(l: Ledger, o: Order)
    requires Matchable(l, o) && Filing.Absent(SideOf(l.books, o.instrument, Opposite(o.side)), o.Key())
    ensures var now := Added(l, o);
            l.log <= now.log && TermsReported(l.log, now.log, o) && OnlyFills(now.log, |l.log|, |now.log|)
  {
    var trades := Trading.Add(BookOf(l.books, o.instrument), o).trades;
    var booked, opposite := o.(state := Booked), SideOf(l.books, o.instrument, Opposite(o.side));
    hide Sweep, RecordAll, Reports;
    forall n | 0 <= n < |Reports(trades, |l.log|)|
      ensures var r := Reports(trades, |l.log|)[n];
              r.Fill? && (r.order.Key() == o.Key() ==> SameOrder(r.order, o))
    {
      PartiesReported(booked, opposite, |l.log|, n);
    }
  }

  /** One order through the matcher: it ends as Trading.Add says. */
  lemma AddedMeans(l: Ledger, o: Order)
    requires Sound(l, {o.Key()}) && Matchable(l, o) && o.id != QUOTE_ORDER_ID
    ensures AddedOn(l, Added(l, o), o, Trading.Add(BookOf(l.books, o.instrument), o).final)
  {
    NowhereExempt(l.books, l.sessions, {o.Key()}, o.Key(), o.instrument, Opposite(o.side));
    hide Sound, Added, Trading.Add;
    AddedRecords(l, o);
    AddedReports(l, o);
  }

  // ---------------------------------------------------------------- the tier plan

  /** One fill per chunk, in order, at the order's own price and with its terms. */
  ghost predicate PlanReported(was: seq<Report>, now: seq<Report>, r: Order, chunks: seq<real>) {
    && was <= now && |now| == |was| + |chunks|
    && (forall k :: 0 <= k < |chunks| ==> ChunkReport(now[|was| + k], r, chunks[k]))
  }

  predicate ChunkReport(report: Report, r: Order, quantity: real) {
    report.Fill? && SameOrder(report.order, r) && report.price == r.price && report.quantity == quantity
  }

  /** Everything but one order's record, and but the book of its instrument, is as it was. */
  ghost predicate OneTouched(was: Ledger, now: Ledger, key: Key, i: InstrumentId) {
    && OthersRest(was.sessions, now.sessions, {key}) && SameQuotes(was.sessions, now.sessions)
    && (forall j :: j != i ==> BookOf(now.books, j) == BookOf(was.books, j))
    && now.dates == was.dates && now.number == was.number && now.rules == was.rules
  }

  lemma PlanReportedStep(was: seq<Report>, now: seq<Report>, r: Order, chunks: seq<real>, report: Report,
                         quantity: real)
    requires PlanReported(was, now, r, chunks) && ChunkReport(report, r, quantity)
    ensures PlanReported(was, now + [report], r, chunks + [quantity])
  {
    hide ChunkReport;
    var after, all := now + [report], chunks + [quantity];
    forall k | 0 <= k < |all| ensures ChunkReport(after[|was| + k], r, all[k]) {
    }
  }

  /** Some chunks of a plan have been applied to the order r, which stands at `cur`. */
  ghost predicate PlanDone(l: Ledger, now: Ledger, r: Order, cur: Order, chunks: seq<real>) {
    && Sound(now, {}) && RecordAt(now.sessions, r.Key()) == Some(cur)
    && OneTouched(l, now, r.Key(), r.instrument) && PlanReported(l.log, now.log, r, chunks)
  }

  lemma PlanNext(l: Ledger, was: Ledger, r: Order, cur: Order, chunks: seq<real>, quantity: real)
    requires PlanDone(l, was, r, cur, chunks) && SameOrder(cur, r) && cur.state.IsActive()
    requires 0.0 < quantity <= cur.remaining
    ensures PlanDone(l, ExecuteLedger(was, cur, quantity), r, ApplyFill(cur, quantity, r.price), chunks + [quantity])
  {
    FillIdentity(cur, quantity, r.price);
    hide Sound, ApplyFill, PlanReported, OneTouched, ExecuteLedger, RecordAt;
    ExecuteMeans(was, cur, quantity);
    PlanReportedStep(l.log, was.log, r, chunks,
                     Fill(ApplyFill(cur, quantity, r.price), r.price, quantity, |was.log| + 1), quantity);
    TouchedTwice(l, was, ExecuteLedger(was, cur, quantity), r.Key(), r.instrument);
  }

  lemma PlanOneMore(l: Ledger, r: Order, chunks: seq<real>, n: nat)
    requires r.state.IsActive() && TierPlans.Fits(chunks, r.remaining) && n < |chunks|
    requires PlanDone(l, FillLedger(l, r, chunks[..n]), r, FillAll(r, chunks[..n], r.price), chunks[..n])
    ensures PlanDone(l, FillLedger(l, r, chunks[..n + 1]), r, FillAll(r, chunks[..n + 1], r.price), chunks[..n + 1])
  {
    hide FillLedger, FillAll, PlanDone, ExecuteLedger, ApplyFill, TierPlans.Fits, TierPlans.Sum;
    TierPlans.FitsStep(chunks, r.remaining, n);
    FillAllRemaining(r, chunks[..n], r.price);
    PlanUnfolds(l, r, chunks, n + 1);
    PlanNext(l, FillLedger(l, r, chunks[..n]), r, FillAll(r, chunks[..n], r.price), chunks[..n], chunks[n]);
    assert chunks[..n + 1] == chunks[..n] + [chunks[n]];
  }

  lemma {:induction false} PlanMeans(l: Ledger, r: Order, chunks: seq<real>, n: nat)
    requires Sound(l, {}) && RecordAt(l.sessions, r.Key()) == Some(r) && r.state.IsActive()
    requires TierPlans.Fits(chunks, r.remaining) && n <= |chunks|
    ensures PlanDone(l, FillLedger(l, r, chunks[..n]), r, FillAll(r, chunks[..n], r.price), chunks[..n])
  {
    hide Sound;
    if n == 0 {
      assert chunks[..0] == [];
    } else {
      hide PlanDone, FillLedger, FillAll, TierPlans.Fits;
      PlanMeans(l, r, chunks, n - 1);
      PlanOneMore(l, r, chunks, n - 1);
    }
  }

  lemma PlanUnfolds(l: Ledger, r: Order, chunks: seq<real>, n: nat)
    requires 0 < n <= |chunks|
    ensures FillLedger(l, r, chunks[..n])
         == ExecuteLedger(FillLedger(l, r, chunks[..n - 1]), FillAll(r, chunks[..n - 1], r.price), chunks[n - 1])
    ensures FillAll(r, chunks[..n], r.price) == ApplyFill(FillAll(r, chunks[..n - 1], r.price), chunks[n - 1], r.price)
  {
    assert chunks[..n][..n - 1] == chunks[..n - 1];
  }

  lemma TouchedTwice(a: Ledger, b: Ledger, c: Ledger, key: Key, i: InstrumentId)
    requires OneTouched(a, b, key, i) && OneTouched(b, c, key, i)
    ensures OneTouched(a, c, key, i)
  {
  }

  /** One chunk: the order's record is filled by it and the fill reported. */
  lemma ExecuteMeans(l: Ledger, r: Order, quantity: real)
    requires Sound(l, {}) && RecordAt(l.sessions, r.Key()) == Some(r) && r.state.IsActive()
    requires 0.0 < quantity <= r.remaining
    ensures var now, f := ExecuteLedger(l, r, quantity), ApplyFill(r, quantity, r.price);
            && Sound(now, {}) && RecordAt(now.sessions, r.Key()) == Some(f)
            && OneTouched(l, now, r.Key(), r.instrument)
            && now.log == l.log + [Fill(f, r.price, quantity, |l.log| + 1)]
  {
    var f := ApplyFill(r, quantity, r.price);
    SoundExecute(l, r, quantity);
    FillIdentity(r, quantity, r.price);
    var book := Books.Execute(BookOf(l.books, r.instrument), r.Key(), r.side, r.price, quantity, r.price).book;
    TouchedBy(l, f, book, l.log + [Fill(f, r.price, quantity, |l.log| + 1)]);
    hide Sound, Books.Execute, ApplyFill, RecordFill, OneTouched, RecordAt, PutAt;
  }

  lemma TouchedBy(l: Ledger, o: Order, book: Book, log: seq<Report>)
    requires o.session in l.sessions
    ensures var now := l.(books := l.books[o.instrument := book], sessions := PutRecord(l.sessions, o), log := log);
            OneTouched(l, now, o.Key(), o.instrument) && RecordAt(now.sessions, o.Key()) == Some(o)
  {
    PutRecords(l.sessions, o.Key(), o);
  }

  // ---------------------------------------------------------------- new orders

  /** The state of an order after it was entered or replaced with `before` already filled. */
  predicate Settled(policy: FillPolicy, o: Order, before: real) {
    && o.quantity == o.remaining + o.cum && before <= o.cum
    && o.state == if o.remaining == 0.0 then Filled
                  else if policy.Real? && o.orderType.Market? then Cancelled
                  else if o.cum == (if policy.Real? then before else 0.0) then Booked
                  else PartialFill
  }

  /** The acknowledgement of an order that nothing was filled of. */
  predicate Acknowledges(report: Report, r: Order) {
    && report.Status? && report.clOrdId == r.id && report.execType.ExecNew? && report.orig == None
    && SameOrder(report.order, r) && report.order.state.Booked?
    && report.order.cum == 0.0 && report.order.remaining == r.quantity
  }

  /** What is reported about a new order. Real: an order that rests untraded is acknowledged, the rest of
      a market order is reported cancelled last, and everything else is fills. Tiered: an acknowledgement
      and then the fills of its plan. */
  ghost predicate Told(policy: FillPolicy, was: seq<Report>, now: seq<Report>, r: Order) {
    && was <= now && TermsReported(was, now, r)
    && (if policy.Tiered? then
          && |now| > |was| && Acknowledges(now[|was|], r)
          && TierPlans.TierPlan(r.quantity).Plan?
          && PlanReported(now[..|was| + 1], now, r, TierPlans.TierPlan(r.quantity).chunks)
        else if r.state.Booked? then now == was + [Status(r, r.id, ExecNew, None, |was| + 1)]
        else if r.state.Cancelled? then
          && |now| > |was| && now[|now| - 1] == Status(r, r.id, ExecCancelled, None, |now|)
          && OnlyFills(now, |was|, |now| - 1)
        else now != was && OnlyFills(now, |was|, |now|))
  }

  /** What the plan fills of a quantity: nothing up to 100, half of it between 1000 and 2000, else all. */
  predicate TierFilled(quantity: real, filled: real) {
    filled == if quantity <= 100.0 then 0.0 else if 1000.0 < quantity <= 2000.0 then quantity / 2.0 else quantity
  }

  /** A new order was entered on the terms of o. */
  ghost predicate Opened(was: Ledger, now: Ledger, o: Order, today: int) {
    && RecordAt(now.sessions, o.Key()).Some?
    && (var r := RecordAt(now.sessions, o.Key()).value;
        && SameOrder(r, o) && Settled(was.rules.policy, r, 0.0) && Told(was.rules.policy, was.log, now.log, r)
        && (was.rules.policy.Tiered? ==> TierFilled(r.quantity, r.cum)))
    && OthersContinue(was.sessions, now.sessions, {o.Key()}) && SameQuotes(was.sessions, now.sessions)
    && (was.rules.policy.Tiered? ==> OthersRest(was.sessions, now.sessions, {o.Key()}))
    && (forall j :: j != o.instrument ==> BookOf(now.books, j) == BookOf(was.books, j))
    && now.dates == was.dates[o.Key() := today] && now.number == was.number + 1
    && now.rules == was.rules.(arrivals := was.rules.arrivals + 1)
  }

  /** A new order may be entered. */
  ghost predicate Enterable(was: Ledger, o: Order) {
    && Sound(was, {}) && o.session in was.sessions && RecordAt(was.sessions, o.Key()).None? && NewlyMade(o)
    && o.exchange == Number(was.number + 1) && o.arrival == was.rules.arrivals + 1 && o.instrument in was.instruments
  }

  /** The ledger l is the ledger `was` with one more record. */
  ghost predicate EnteredOn(was: Ledger, l: Ledger, o: Order, today: int) {
    && RecordAt(l.sessions, o.Key()) == Some(o)
    && OthersRest(was.sessions, l.sessions, {o.Key()}) && SameQuotes(was.sessions, l.sessions)
    && l.books == was.books && l.log == was.log && l.dates == was.dates[o.Key() := today]
    && l.number == was.number + 1 && l.rules == was.rules.(arrivals := was.rules.arrivals + 1)
  }

  lemma EnterMeans(was: Ledger, o: Order, today: int)
    requires Enterable(was, o)
    ensures var l := EnterLedger(was, o, today);
            Sound(l, {o.Key()}) && Latest(o, l.books) && EnteredOn(was, l, o, today)
  {
    hide Sound, Latest;
    SoundArrival(was, {}, o);
    SoundOpen(was.(rules := was.rules.(arrivals := o.arrival)), o, today);
    PutRecords(was.sessions, o.Key(), o);
  }

  /** The matcher's final state, in terms of what was filled. */
  lemma AddSettles(l: Ledger, o: Order)
    requires Sound(l, {o.Key()}) && l.rules.policy.Real? && Addable(l.rules, o) && Matchable(l, o)
    ensures var added := Trading.Add(BookOf(l.books, o.instrument), o);
            && Settled(Real, added.final, o.cum) && (added.trades == [] <==> added.final.cum == o.cum)
  {
    SoundMatchable(l, o);
    hide Sound, Uncrossed, Live;
    Accepting.AddOutcome(BookOf(l.books, o.instrument), o);
    FinalPresents(l.books, o);
    hide Trading.Add, Accepting.Within, Trading.Volume, Accepting.Accepts, Addable, Matchable;
    assert Balanced(o) by { AddableBalanced(l.rules, o); }
    var final := Trading.Add(BookOf(l.books, o.instrument), o).final;
    assert final.quantity == o.quantity && final.orderType == o.orderType;
  }

  lemma AddableBalanced(rules: Rules, o: Order)
    requires Addable(rules, o)
    ensures Balanced(o)
  {
  }

  /** The reports about a new order that went through the matcher. */
  lemma ToldReal(was: seq<Report>, log: seq<Report>, r: Order)
    requires was <= log && TermsReported(was, log, r) && OnlyFills(log, |was|, |log|) && Settled(Real, r, 0.0)
    requires (log == was <==> r.cum == 0.0) && r.quantity > 0.0
    ensures var cancelled := r.state.Cancelled? && r.orderType.Market?;
            Told(Real, was, if log == was || cancelled
                            then log + [Status(r, r.id, StatusExecType(r.state), None, |log| + 1)] else log, r)
  {
  }

  /** Created under the Real policy, as two steps and a status report when one is due. */
  lemma CreatedIs(was: Ledger, o: Order, today: int)
    requires was.rules.policy.Real? && o.session in was.sessions && Matchable(EnterLedger(was, o, today), o)
    ensures var l := EnterLedger(was, o, today);
            var next, added := Added(l, o), Trading.Add(BookOf(l.books, o.instrument), o);
            var r, cancelled := added.final, added.final.state.Cancelled? && o.orderType.Market?;
            Created(was, o, today) == Some(next.(log :=
              if next.log == l.log || cancelled
              then next.log + [Status(r, r.id, StatusExecType(r.state), None, |next.log| + 1)] else next.log))
  {
    var l := EnterLedger(was, o, today);
    AddedCount(l, o);
    hide Trading.Add, Added, EnterLedger, StatusExecType, Matchable;
    var next := Added(l, o);
    assert next.(log := next.log) == next;
  }

  lemma EnterMatches(was: Ledger, o: Order, today: int)
    requires Enterable(was, o) && was.rules.policy.Real?
    ensures o.session in was.sessions && o.id != QUOTE_ORDER_ID && o.cum == 0.0 && o.quantity > 0.0
    ensures var l := EnterLedger(was, o, today); Addable(l.rules, o) && l.rules.policy.Real? && Matchable(l, o)
  {
    EnterMeans(was, o, today);
    hide Sound, Latest, Find, Uncrossed;
    SoundMatchable(EnterLedger(was, o, today), o);
  }

  /** Through the matcher, seen from the ledger. */
  lemma AddedWhole(l: Ledger, o: Order)
    requires Sound(l, {o.Key()}) && l.rules.policy.Real? && Addable(l.rules, o) && Matchable(l, o)
    requires o.id != QUOTE_ORDER_ID
    ensures var now, r := Added(l, o), Trading.Add(BookOf(l.books, o.instrument), o).final;
            AddedOn(l, now, o, r) && Settled(Real, r, o.cum) && (now.log == l.log <==> r.cum == o.cum)
  {
    hide Sound, Added, Trading.Add, Live, AddedOn, Settled;
    AddedMeans(l, o);
    AddSettles(l, o);
    AddedCount(l, o);
  }

  /** Entered, traded and reported: the whole effect of a new order. */
  lemma OpenedReal(was: Ledger, l: Ledger, next: Ledger, o: Order, r: Order, today: int)
    requires EnteredOn(was, l, o, today) && AddedOn(l, next, o, r) && was.rules.policy.Real?
    requires Settled(Real, r, 0.0) && r.quantity > 0.0 && (next.log == l.log <==> r.cum == 0.0)
    ensures var cancelled := r.state.Cancelled? && o.orderType.Market?;
            Opened(was, next.(log := if next.log == l.log || cancelled
                                     then next.log + [Status(r, r.id, StatusExecType(r.state), None, |next.log| + 1)]
                                     else next.log), o, today)
  {
    TermsSame(was.log, next.log, o, r);
    ToldReal(was.log, next.log, r);
    hide Told, TermsReported, OnlyFills, RecordAt, StatusExecType, Settled;
  }

  /** A new order under the Real policy. */
  lemma CreatedReal(was: Ledger, o: Order, today: int)
    requires Enterable(was, o) && was.rules.policy.Real?
    ensures Created(was, o, today).Some? && Opened(was, Created(was, o, today).value, o, today)
  {
    hide Sound, Latest, EnterLedger, Created, Opened, Added, Trading.Add, Addable, Enterable, Live, AddedOn, EnteredOn;
    EnterMatches(was, o, today);
    var l := EnterLedger(was, o, today);
    EnterMeans(was, o, today);
    AddedWhole(l, o);
    CreatedIs(was, o, today);
    AddFinalSession(l.books, o);
    OpenedReal(was, l, Added(l, o), o, Trading.Add(BookOf(l.books, o.instrument), o).final, today);
  }

  lemma TermsSame(was: seq<Report>, now: seq<Report>, o: Order, r: Order)
    requires TermsReported(was, now, o) && SameOrder(r, o)
    ensures TermsReported(was, now, r)
  {
  }

  lemma AddedCount(l: Ledger, o: Order)
    requires Matchable(l, o)
    ensures Added(l, o).log == l.log <==> Trading.Add(BookOf(l.books, o.instrument), o).trades == []
  {
    var trades := Trading.Add(BookOf(l.books, o.instrument), o).trades;
    hide Trading.Add;
    ReportsShape(trades, |l.log|);
    assert |Added(l, o).log| == |l.log| + 2 * |trades|;
    assert l.log + [] == l.log;
  }

  /** Resting without matching touches nobody else. */
  lemma RestMeans(l: Ledger, o: Order)
    requires Sound(l, {o.Key()}) && Restable(l.rules, o) && o.instrument in l.instruments && o.Key() in l.dates
    requires RecordAt(l.sessions, o.Key()).Some? && SameFigures(RecordAt(l.sessions, o.Key()).value, o)
    requires Latest(o, l.books)
    ensures var now := RestLedger(l, o);
            && Sound(now, {}) && RecordAt(now.sessions, o.Key()) == Some(RestedState(o))
            && OneTouched(l, now, o.Key(), o.instrument) && now.log == l.log
  {
    SoundRest(l, o);
    var book := Books.InsertOnly(BookOf(l.books, o.instrument), o).book;
    TouchedBy(l, RestedState(o), book, l.log);
    hide Sound, Books.InsertOnly, OneTouched, Restable, Latest;
  }

  /** What a plan leaves of an order that has just been rested. */
  lemma PlanSettles(o: Order, chunks: seq<real>)
    requires Balanced(o) && o.remaining > 0.0 && TierPlans.TierPlan(o.remaining) == TierPlans.Plan(chunks)
    ensures var r := FillAll(RestedState(o), chunks, o.price);
            && Settled(Tiered, r, o.cum) && SameOrder(r, o) && TierFilled(o.remaining, r.cum - o.cum)
            && TierPlans.Fits(chunks, o.remaining)
  {
    TierPlans.PlanPromises(o.remaining);
    hide TierPlans.TierPlan;
    FillAllRemaining(RestedState(o), chunks, o.price);
    PlanSum(chunks);
  }

  lemma {:induction false} PlanSum(chunks: seq<real>)
    requires forall k :: 0 <= k < |chunks| ==> chunks[k] > 0.0
    ensures TierPlans.Sum(chunks) >= 0.0 && (chunks != [] ==> TierPlans.Sum(chunks) > 0.0)
  {
    if chunks != [] {
      PlanSum(chunks[..|chunks| - 1]);
    }
  }

  /** A recorded order can rest: what RestLedger asks for. */
  ghost predicate ReadyToRest(l: Ledger, o: Order) {
    && Sound(l, {o.Key()}) && Restable(l.rules, o) && o.instrument in l.instruments && o.Key() in l.dates
    && RecordAt(l.sessions, o.Key()).Some? && SameFigures(RecordAt(l.sessions, o.Key()).value, o)
    && Latest(o, l.books) && o.session in l.sessions
  }

  /** Rest and report. */
  lemma RestedReported(l: Ledger, o: Order, report: Report)
    requires ReadyToRest(l, o) && report.Status? && report.execId == |l.log| + 1 && ReportOk(report)
    ensures var rested := RestLedger(l, o);
            var acked := rested.(log := rested.log + [report]);
            && Sound(acked, {}) && RecordAt(acked.sessions, o.Key()) == Some(RestedState(o))
            && OneTouched(l, acked, o.Key(), o.instrument) && rested.log == l.log
  {
    RestMeans(l, o);
    var rested := RestLedger(l, o);
    hide Sound, RestLedger, ReadyToRest, RecordAt, BookOf, OthersRest, SameQuotes;
    SoundStatus(rested, {}, report);
  }

  /** Rest, report, apply the plan: the steps after an order was entered. */
  lemma RestedAndFilled(l: Ledger, o: Order, report: Report, chunks: seq<real>)
    requires ReadyToRest(l, o) && TierPlans.TierPlan(o.remaining) == TierPlans.Plan(chunks)
    requires report.Status? && report.execId == |l.log| + 1 && ReportOk(report)
    ensures var rested := RestLedger(l, o);
            var now := FillLedger(rested.(log := rested.log + [report]), RestedState(o), chunks);
            && rested.log == l.log && RecordAt(now.sessions, o.Key()) == Some(FillAll(RestedState(o), chunks, o.price))
            && OneTouched(l, now, o.Key(), o.instrument)
            && PlanReported(l.log + [report], now.log, o, chunks)
  {
    assert Balanced(o) && o.remaining > 0.0;
    var rested := RestLedger(l, o);
    var acked, r := rested.(log := rested.log + [report]), RestedState(o);
    hide ReadyToRest, Sound, RestLedger, FillLedger, FillAll, TierPlans.TierPlan, TierPlans.Fits, RecordAt;
    RestedReported(l, o, report);
    PlanSettles(o, chunks);
    assert chunks[..|chunks|] == chunks;
    PlanMeans(acked, r, chunks, |chunks|);
    hide OneTouched, PlanReported;
    TouchedTwice(l, acked, FillLedger(acked, r, chunks), o.Key(), o.instrument);
    PlanSame(acked.log, FillLedger(acked, r, chunks).log, r, o, chunks);
  }

  lemma PlanSame(was: seq<Report>, now: seq<Report>, r: Order, o: Order, chunks: seq<real>)
    requires PlanReported(was, now, r, chunks) && SameOrder(r, o)
    ensures PlanReported(was, now, o, chunks)
  {
    forall k | 0 <= k < |chunks| ensures ChunkReport(now[|was| + k], o, chunks[k]) {
      assert ChunkReport(now[|was| + k], r, chunks[k]);
    }
  }

  lemma EnterRests(was: Ledger, o: Order, today: int)
    requires Enterable(was, o) && was.rules.policy.Tiered? && o.price > 0.0
    ensures o.session in was.sessions && Balanced(o) && o.remaining == o.quantity > 0.0
    ensures ReadyToRest(EnterLedger(was, o, today), o)
  {
    EnterMeans(was, o, today);
    hide Sound, Latest;
  }

  /** A new order under the Tiered policy. */
  lemma CreatedTiered(was: Ledger, o: Order, today: int)
    requires Enterable(was, o) && was.rules.policy.Tiered? && o.price > 0.0
    requires TierPlans.TierPlan(o.quantity).Plan?
    ensures Created(was, o, today).Some? && Opened(was, Created(was, o, today).value, o, today)
  {
    EnterRests(was, o, today);
    var chunks := TierPlans.TierPlan(o.quantity).chunks;
    var report := Status(RestedState(o), o.id, ExecNew, None, |was.log| + 1);
    EnterMeans(was, o, today);
    hide Sound, Enterable, ReadyToRest, FillLedger, RestLedger, TierPlans.TierPlan, TierPlans.Fits, FillAll;
    var l := EnterLedger(was, o, today);
    RestedAndFilled(l, o, report, chunks);
    var now := FillLedger(RestLedger(l, o).(log := l.log + [report]), RestedState(o), chunks);
    assert Created(was, o, today) == Some(now);
    hide Created, EnterLedger, Latest;
    OpenedTiered(was, l, now, o, report, chunks, today);
  }

  lemma OpenedTiered(was: Ledger, l: Ledger, now: Ledger, o: Order, report: Report, chunks: seq<real>, today: int)
    requires EnteredOn(was, l, o, today) && was.rules.policy.Tiered?
    requires Balanced(o) && o.remaining == o.quantity > 0.0 && TierPlans.TierPlan(o.quantity) == TierPlans.Plan(chunks)
    requires report == Status(RestedState(o), o.id, ExecNew, None, |was.log| + 1)
    requires RecordAt(now.sessions, o.Key()) == Some(FillAll(RestedState(o), chunks, o.price))
    requires OneTouched(l, now, o.Key(), o.instrument) && PlanReported(l.log + [report], now.log, o, chunks)
    ensures Opened(was, now, o, today)
  {
    PlanSettles(o, chunks);
    hide TierPlans.TierPlan, TierPlans.Fits, FillAll;
    ToldTiered(was.log, now.log, o, FillAll(RestedState(o), chunks, o.price), report, chunks);
    hide Told, PlanReported, Settled, RestedState;
  }

  lemma ToldTiered(was: seq<Report>, now: seq<Report>, o: Order, r: Order, report: Report, chunks: seq<real>)
    requires PlanReported(was + [report], now, o, chunks) && SameOrder(r, o) && Acknowledges(report, r)
    requires TierPlans.TierPlan(r.quantity) == TierPlans.Plan(chunks)
    ensures Told(Tiered, was, now, r)
  {
    hide TierPlans.TierPlan;
    PlanSame(was + [report], now, o, r, chunks);
    assert now[..|was| + 1] == was + [report] && now[|was|] == report;
    forall n | |was| <= n < |now| ensures SameOrder(now[n].order, r) {
      if n > |was| {
        assert ChunkReport(now[|was + [report]| + (n - |was| - 1)], r, chunks[n - |was| - 1]);
      }
    }
  }

  // ---------------------------------------------------------------- replacements

  /** The report that confirms a replacement: under the new id, naming the old one, with the fills so far. */
  predicate Confirms(report: Report, entry: Order, r: Order) {
    && report.Status? && report.clOrdId == r.id && report.execType.ExecReplaced? && report.orig == Some(entry.id)
    && SameOrder(report.order, r) && report.order.cum == entry.cum && report.order.avg == entry.avg
    && report.order.remaining == r.quantity - entry.cum
    && report.order.state == if report.order.remaining == 0.0 then Filled
                             else if entry.cum != 0.0 then PartialFill else Booked
  }

  /** The order `entry` was replaced on the terms of o. */
  ghost predicate Swapped(was: Ledger, now: Ledger, entry: Order, o: Order, today: int) {
    && RecordAt(now.sessions, o.Key()).Some? && (o.id != entry.id ==> RecordAt(now.sessions, entry.Key()).None?)
    && (var r := RecordAt(now.sessions, o.Key()).value;
        && SameOrder(r, o) && Settled(was.rules.policy, r, entry.cum)
        && was.log < now.log && Confirms(now.log[|was.log|], entry, r)
        && OnlyFills(now.log, |was.log| + 1, |now.log|) && TermsReported(was.log, now.log, r)
        && (was.rules.policy.Tiered? ==> TierFilled(r.quantity - entry.cum, r.cum - entry.cum)))
    && OthersContinue(was.sessions, now.sessions, {o.Key(), entry.Key()}) && SameQuotes(was.sessions, now.sessions)
    && (was.rules.policy.Tiered? ==> OthersRest(was.sessions, now.sessions, {o.Key(), entry.Key()}))
    && (forall j :: j != entry.instrument ==> BookOf(now.books, j) == BookOf(was.books, j))
    && now.dates == (was.dates - {entry.Key()})[o.Key() := today] && now.number == was.number
    && now.rules == was.rules.(arrivals := was.rules.arrivals + 1)
  }

  /** An active order may be replaced by o. */
  ghost predicate Swappable(was: Ledger, entry: Order, o: Order) {
    && Sound(was, {}) && RecordAt(was.sessions, entry.Key()) == Some(entry) && entry.state.IsActive()
    && SameOrder(o, entry.(id := o.id, orderType := o.orderType, price := o.price, quantity := o.quantity,
                           arrival := o.arrival))
    && o.cum == entry.cum && o.avg == entry.avg && Balanced(o)
    && o.state == (if o.remaining == 0.0 then Filled else if o.cum != 0.0 then PartialFill else Booked)
    && o.id != QUOTE_ORDER_ID && (o.id == entry.id || RecordAt(was.sessions, o.Key()).None?)
    && (o.orderType.Limit? || was.rules.policy.Tiered? ==> o.price > 0.0) && o.arrival == was.rules.arrivals + 1
  }

  /** The replacement stands in the records in place of the original, which is off its book. */
  ghost predicate ReplacedOn(was: Ledger, l: Ledger, entry: Order, o: Order, today: int) {
    && RecordAt(l.sessions, o.Key()) == Some(o) && (o.id != entry.id ==> RecordAt(l.sessions, entry.Key()).None?)
    && OthersRest(was.sessions, l.sessions, {o.Key(), entry.Key()}) && SameQuotes(was.sessions, l.sessions)
    && (forall j :: j != entry.instrument ==> BookOf(l.books, j) == BookOf(was.books, j))
    && l.log == was.log && l.dates == (was.dates - {entry.Key()})[o.Key() := today] && l.number == was.number
    && l.rules == was.rules.(arrivals := was.rules.arrivals + 1)
  }

  function ReplaceStart(was: Ledger, entry: Order, o: Order, today: int): Ledger
    requires entry.session in was.sessions && o.session == entry.session && entry.exchange.Number?
  {
    ReplaceLedger(was.(books := Taken(was.books, entry)), entry, o, today)
  }

  lemma ReplaceRecords(was: Ledger, entry: Order, o: Order, today: int)
    requires entry.session in was.sessions && o.session == entry.session && entry.exchange.Number?
    ensures ReplacedOn(was, ReplaceStart(was, entry, o, today), entry, o, today)
  {
    DropRecords(was.sessions, entry.Key());
    PutRecords(DropRecord(was.sessions, entry.Key()), o.Key(), o);
  }

  lemma ReplaceMeans(was: Ledger, entry: Order, o: Order, today: int)
    requires Swappable(was, entry, o)
    ensures entry.session in was.sessions && o.session == entry.session && entry.exchange.Number?
    ensures o.instrument == entry.instrument && o.exchange == entry.exchange && o.cum == entry.cum && Balanced(o)
    ensures var l := ReplaceStart(was, entry, o, today);
            && Sound(l, {o.Key()}) && Latest(o, l.books) && o.instrument in l.instruments
            && NumberedBy(o, l.number)
  {
    hide Sound, Latest, Taken;
    SoundTake(was, entry);
    var taken := was.(books := Taken(was.books, entry));
    SoundArrival(taken, {entry.Key()}, o);
    SoundReplace(taken.(rules := taken.rules.(arrivals := o.arrival)), entry, o, today);
  }

  /** The confirmation, and the replacement still off its book. */
  lemma ReplaceConfirmed(was: Ledger, entry: Order, o: Order, today: int)
    requires Swappable(was, entry, o)
    ensures entry.session in was.sessions && o.session == entry.session && entry.exchange.Number?
    ensures var l := ReplaceStart(was, entry, o, today);
            var report := Status(o, o.id, ExecReplaced, Some(entry.id), |l.log| + 1);
            ReportOk(report) && Confirms(report, entry, o) && Sound(l.(log := l.log + [report]), {o.Key()})
  {
    hide Sound, Latest;
    ReplaceMeans(was, entry, o, today);
    var l := ReplaceStart(was, entry, o, today);
    hide ReplaceStart;
    var report := Status(o, o.id, ExecReplaced, Some(entry.id), |l.log| + 1);
    SoundStatus(l, {o.Key()}, report);
  }

  /** What Modified is, step by step. */
  lemma ModifiedIs(was: Ledger, entry: Order, o: Order, today: int)
    requires entry.session in was.sessions && o.session == entry.session && entry.exchange.Number?
    ensures var l := ReplaceStart(was, entry, o, today);
            var acked := l.(log := l.log + [Status(o, o.id, ExecReplaced, Some(entry.id), |l.log| + 1)]);
            && (o.remaining == 0.0 ==> Modified(was, entry, o, today) == Some(acked))
            && (o.remaining != 0.0 && was.rules.policy.Real? && Matchable(acked, o) ==>
                  Modified(was, entry, o, today) == Some(Added(acked, o)))
  {
    hide ReplaceLedger, Added, RestLedger, FillLedger, Matchable, TierPlans.TierPlan, Taken;
  }

  /** Only fills after the confirmation. */
  lemma SwappedBy(was: Ledger, l: Ledger, next: Ledger, entry: Order, o: Order, r: Order, report: Report, today: int)
    requires ReplacedOn(was, l, entry, o, today) && o.session == entry.session && o.instrument == entry.instrument
    requires AddedOn(l.(log := l.log + [report]), next, o, r) && was.rules.policy.Real?
    requires Settled(Real, r, entry.cum) && Confirms(report, entry, o)
    ensures Swapped(was, next, entry, o, today)
  {
    assert next.log[|was.log|] == report;
    assert Confirms(report, entry, r);
    hide RecordAt, Confirms, Settled, BookOf;
  }

  lemma SwapMatches(was: Ledger, l: Ledger, entry: Order, o: Order)
    requires Swappable(was, entry, o) && was.rules.policy.Real? && o.remaining > 0.0
    requires Sound(l, {o.Key()}) && l.rules == was.rules.(arrivals := was.rules.arrivals + 1)
    requires o.session in l.sessions && !o.exchange.Unassigned?
    ensures Addable(l.rules, o) && Matchable(l, o)
  {
    hide Sound, Find, Uncrossed;
    SoundMatchable(l, o);
  }

  lemma ModifiedReal(was: Ledger, entry: Order, o: Order, today: int)
    requires Swappable(was, entry, o) && was.rules.policy.Real? && o.remaining > 0.0
    ensures Modified(was, entry, o, today).Some? && Swapped(was, Modified(was, entry, o, today).value, entry, o, today)
  {
    hide Sound, Latest, Added, Trading.Add, Live, AddedOn, Settled, Modified, Swapped, ReplaceStart, Confirms, Addable;
    hide ReplacedOn, ReportOk;
    ReplaceMeans(was, entry, o, today);
    ReplaceConfirmed(was, entry, o, today);
    ReplaceRecords(was, entry, o, today);
    var l := ReplaceStart(was, entry, o, today);
    var report := Status(o, o.id, ExecReplaced, Some(entry.id), |l.log| + 1);
    var acked := l.(log := l.log + [report]);
    ReplacedRules(was, l, entry, o, today);
    SwapMatches(was, acked, entry, o);
    AddedWhole(acked, o);
    ModifiedIs(was, entry, o, today);
    var r := Trading.Add(BookOf(acked.books, o.instrument), o).final;
    SwappedBy(was, l, Added(acked, o), entry, o, r, report, today);
  }

  lemma ReplacedRules(was: Ledger, l: Ledger, entry: Order, o: Order, today: int)
    requires ReplacedOn(was, l, entry, o, today)
    ensures l.rules == was.rules.(arrivals := was.rules.arrivals + 1) && o.session in l.sessions && l.log == was.log
  {
  }

  lemma ModifiedFilled(was: Ledger, entry: Order, o: Order, today: int)
    requires Swappable(was, entry, o) && o.remaining == 0.0
    ensures Modified(was, entry, o, today).Some? && Swapped(was, Modified(was, entry, o, today).value, entry, o, today)
  {
    hide Sound, Latest, Modified, ReplaceStart, ReportOk, Swapped, ReplacedOn, Confirms;
    ReplaceMeans(was, entry, o, today);
    ReplaceConfirmed(was, entry, o, today);
    ReplaceRecords(was, entry, o, today);
    ModifiedIs(was, entry, o, today);
    var l := ReplaceStart(was, entry, o, today);
    SwappedFilled(was, l, entry, o, Status(o, o.id, ExecReplaced, Some(entry.id), |l.log| + 1), today);
  }

  lemma SwappedFilled(was: Ledger, l: Ledger, entry: Order, o: Order, report: Report, today: int)
    requires ReplacedOn(was, l, entry, o, today) && o.state.Filled? && o.remaining == 0.0 && Balanced(o)
    requires Confirms(report, entry, o) && o.cum == entry.cum
    ensures Swapped(was, l.(log := l.log + [report]), entry, o, today)
  {
    assert SameOrder(report.order, o);
    hide RecordAt, Confirms, BookOf;
  }

  /** Rested, confirmed and filled by its plan. */
  lemma SwappedTiered(was: Ledger, l: Ledger, now: Ledger, entry: Order, o: Order, report: Report, chunks: seq<real>,
                      today: int)
    requires ReplacedOn(was, l, entry, o, today) && o.session == entry.session && o.instrument == entry.instrument
    requires was.rules.policy.Tiered? && Confirms(report, entry, o) && o.cum == entry.cum
    requires Balanced(o) && o.remaining > 0.0 && TierPlans.TierPlan(o.remaining) == TierPlans.Plan(chunks)
    requires RecordAt(now.sessions, o.Key()) == Some(FillAll(RestedState(o), chunks, o.price))
    requires OneTouched(l, now, o.Key(), o.instrument) && PlanReported(l.log + [report], now.log, o, chunks)
    ensures Swapped(was, now, entry, o, today)
  {
    PlanSettles(o, chunks);
    hide TierPlans.TierPlan, TierPlans.Fits, FillAll;
    var r := FillAll(RestedState(o), chunks, o.price);
    assert Confirms(report, entry, r);
    assert now.log[|was.log|] == report;
    PlanFills(was.log, now.log, o, r, report, chunks);
    hide PlanReported, Settled, RestedState, Confirms, RecordAt;
  }

  lemma PlanFills(was: seq<Report>, now: seq<Report>, o: Order, r: Order, report: Report, chunks: seq<real>)
    requires PlanReported(was + [report], now, o, chunks) && SameOrder(r, o) && SameOrder(report.order, r)
    ensures was < now && TermsReported(was, now, r) && OnlyFills(now, |was| + 1, |now|)
  {
    assert now[|was|] == report;
    forall n | |was| < n < |now| ensures now[n].Fill? && SameOrder(now[n].order, r) {
      assert ChunkReport(now[|was + [report]| + (n - |was| - 1)], o, chunks[n - |was| - 1]);
    }
  }

  lemma SwapRests(was: Ledger, entry: Order, o: Order, today: int)
    requires Swappable(was, entry, o) && was.rules.policy.Tiered? && o.remaining > 0.0
    ensures entry.session in was.sessions && o.session == entry.session && entry.exchange.Number?
    ensures ReadyToRest(ReplaceStart(was, entry, o, today), o)
  {
    hide Sound, Latest, ReplaceStart;
    ReplaceMeans(was, entry, o, today);
    ReplaceRecords(was, entry, o, today);
  }

  lemma ModifiedTiered(was: Ledger, entry: Order, o: Order, today: int)
    requires Swappable(was, entry, o) && was.rules.policy.Tiered? && o.remaining > 0.0
    requires TierPlans.TierPlan(o.remaining).Plan?
    ensures Modified(was, entry, o, today).Some? && Swapped(was, Modified(was, entry, o, today).value, entry, o, today)
  {
    hide Sound, Latest, Swapped, Confirms, FillLedger, RestLedger, TierPlans.TierPlan, ReportOk, ReadyToRest, FillAll;
    hide Swappable, ReplaceLedger, Taken;
    SwapRests(was, entry, o, today);
    ReplaceMeans(was, entry, o, today);
    ReplaceConfirmed(was, entry, o, today);
    ReplaceRecords(was, entry, o, today);
    var l, chunks := ReplaceStart(was, entry, o, today), TierPlans.TierPlan(o.remaining).chunks;
    var report := Status(o, o.id, ExecReplaced, Some(entry.id), |l.log| + 1);
    RestedAndFilled(l, o, report, chunks);
    var now := FillLedger(RestLedger(l, o).(log := l.log + [report]), RestedState(o), chunks);
    assert Modified(was, entry, o, today) == Some(now);
    hide Modified, ReplacedOn, OneTouched, PlanReported, RecordAt;
    SwappedTiered(was, l, now, entry, o, report, chunks, today);
  }

  // ---------------------------------------------------------------- in the request's terms

  /** The terms of a new order are those of its request: a limit order at the requested price, a market
      order without one, or at 66.88 under the Tiered policy. */
  predicate StandsFor(r: Order, session: string, new': NewOrder, policy: FillPolicy) {
    && r.session == session && r.id == new'.id && r.instrument == new'.instrument
    && r.side == new'.side && r.orderType == new'.orderType && r.quantity == new'.quantity
    && r.price == (if new'.orderType.Limit? then new'.price else if policy.Tiered? then 66.88 else 0.0)
  }

  /** The order arrived after everything on any book. */
  ghost predicate Last(o: Order, books: BookMap) {
    forall i, side, e :: e in SideOf(books, i, side) ==> e.order.arrival < o.arrival
  }

  /** A request was accepted: its order is entered, under a new exchange number and date, last in time,
      and reported. */
  ghost predicate Entered(was: Ledger, now: Ledger, session: string, new': NewOrder, today: int) {
    && new'.id >= 0 && RecordAt(now.sessions, (session, new'.id)).Some?
    && var r := RecordAt(now.sessions, (session, new'.id)).value;
       && StandsFor(r, session, new', was.rules.policy) && Opened(was, now, r, today)
       && r.exchange == Number(was.number + 1) && Last(r, was.books)
  }

  /** The terms of a replacement: the requested id, type, price and quantity, everything else inherited. */
  predicate Inherits(r: Order, entry: Order, newId: int, orderType: OrderType, price: real, quantity: real,
                     policy: FillPolicy) {
    && r.session == entry.session && r.instrument == entry.instrument && r.side == entry.side
    && r.exchange == entry.exchange
    && r.id == newId && r.orderType == orderType && r.quantity == quantity
    && r.price == (if policy.Tiered? && orderType.Market? then 66.88 else price)
  }

  /** A replace request was accepted. */
  ghost predicate Replaced(was: Ledger, now: Ledger, entry: Order, newId: int, orderType: OrderType, price: real,
                           quantity: real, today: int) {
    && newId >= 0 && RecordAt(now.sessions, (entry.session, newId)).Some?
    && var r := RecordAt(now.sessions, (entry.session, newId)).value;
       && Inherits(r, entry, newId, orderType, price, quantity, was.rules.policy)
       && Swapped(was, now, entry, r, today) && Last(r, was.books)
  }

  lemma NewestArrival(l: Ledger, o: Order)
    requires Sound(l, {}) && o.arrival == l.rules.arrivals + 1
    ensures Last(o, l.books)
  {
    forall i, side, e | e in SideOf(l.books, i, side) ensures e.order.arrival < o.arrival {
      SideOfOk(l.rules, l.books, i, side);
      assert EntryOk(l.rules, i, side, e);
    }
  }

  lemma EnteredBy(was: Ledger, now: Ledger, session: string, new': NewOrder, o: Order, today: int)
    requires Sound(was, {}) && Opened(was, now, o, today) && new'.id >= 0
    requires StandsFor(o, session, new', was.rules.policy)
    requires o.exchange == Number(was.number + 1) && o.arrival == was.rules.arrivals + 1
    ensures Entered(was, now, session, new', today)
  {
    NewestArrival(was, o);
    hide Sound, Told, Settled, OthersContinue, OthersRest, SameQuotes, RecordAt;
  }

  lemma ReplacedBy(was: Ledger, now: Ledger, entry: Order, newId: int, orderType: OrderType, price: real,
                   quantity: real, o: Order, today: int)
    requires Sound(was, {}) && Swapped(was, now, entry, o, today) && newId >= 0
    requires Inherits(o, entry, newId, orderType, price, quantity, was.rules.policy)
    requires o.arrival == was.rules.arrivals + 1
    ensures Replaced(was, now, entry, newId, orderType, price, quantity, today)
  {
    NewestArrival(was, o);
    hide Sound, Confirms, Settled, OthersContinue, OthersRest, SameQuotes, RecordAt, TermsReported, OnlyFills;
  }
}
