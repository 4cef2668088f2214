/** Published market data (record_market_data and publish_market_data of src/core/exchange/mod.rs,
    src/market_data.rs, src/core/stats.rs): snapshots and statistics as functions of the books and
    of the report log. */
module MarketData {
  import opened Orders
  import opened Collections
  import opened Ladders
  import opened Matching
  import opened Mirrors
  import opened Fills

  datatype Stats = Stats(
    bidQty: real, bidPrice: Price, askQty: real, askPrice: Price,
    volume: real, high: Price, low: Price, hasHighLow: bool)

  const NO_STATS := Stats(0.0, 0.0, 0.0, 0.0, 0.0, 0.0, 0.0, false)

  /** One atomic snapshot slot. Version 0 means no market activity yet. */
  datatype Snapshot = Snapshot(bids: seq<BookLevel>, asks: seq<BookLevel>, stats: Stats, version: nat)

  const NO_SNAPSHOT := Snapshot([], [], NO_STATS, 0)

  // ---------------------------------------------------------------- statistics

  function StatsTrade(s: Stats, t: Trade): Stats {
    var v := s.(volume := s.volume + t.quantity);
    if !v.hasHighLow then v.(high := t.price, low := t.price, hasHighLow := true)
    else v.(high := if t.price > v.high then t.price else v.high, low := if t.price < v.low then t.price else v.low)
  }

  function StatsTrades(s: Stats, trades: seq<Trade>): Stats {
    if trades == [] then s else StatsTrade(StatsTrades(s, trades[..|trades| - 1]), trades[|trades| - 1])
  }

  predicate IsFillAt(r: Report, i: InstrumentId, side: Side) {
    r.Fill? && r.order.instrument == i && r.order.side == side
  }

  /** Quantity bought (or sold) on an instrument in all generated fills. */
  function Traded(log: seq<Report>, i: InstrumentId, side: Side): real {
    if log == [] then 0.0 else
    var last := log[|log| - 1];
    Traded(log[..|log| - 1], i, side) + if IsFillAt(last, i, side) then last.quantity else 0.0
  }

  /** The prices of an instrument's generated fills. */
  function FillPrices(log: seq<Report>, i: InstrumentId): set<Price> {
    set k | 0 <= k < |log| && log[k].Fill? && log[k].order.instrument == i :: log[k].price
  }

  /** Statistics agree with the fills: volume is what was bought and what was sold, high and low
      are the extreme fill prices. */
  ghost predicate StatsMatch(s: Stats, log: seq<Report>, i: InstrumentId) {
    s.volume == Traded(log, i, Buy) == Traded(log, i, Sell) && Extremes(s, FillPrices(log, i))
  }

  /** High and low are the extremes of a set of prices, and are absent when it is empty. */
  ghost predicate Extremes(s: Stats, prices: set<Price>) {
    && (s.hasHighLow <==> prices != {})
    && (if s.hasHighLow then s.high in prices && s.low in prices else s.high == 0.0 && s.low == 0.0)
    && (forall p :: p in prices ==> s.low <= p <= s.high)
  }

  lemma ExtremesStep(s: Stats, prices: set<Price>, t: Trade)
    requires Extremes(s, prices)
    ensures Extremes(StatsTrade(s, t), prices + {t.price})
  {
    assert t.price in prices + {t.price};
  }

  lemma TradeReported(log: seq<Report>, t: Trade, i: InstrumentId, exec: nat)
    requires Sided(t, i)
    ensures var after := log + TradeReports(t, exec);
            && Traded(after, i, Buy) == Traded(log, i, Buy) + t.quantity
            && Traded(after, i, Sell) == Traded(log, i, Sell) + t.quantity
            && FillPrices(after, i) == FillPrices(log, i) + {t.price}
  {
    var a, b := Fill(t.buyer, t.price, t.quantity, exec + 1), Fill(t.seller, t.price, t.quantity, exec + 2);
    TradedAppend(log, a, i, Buy);
    TradedAppend(log, a, i, Sell);
    TradedAppend(log + [a], b, i, Buy);
    TradedAppend(log + [a], b, i, Sell);
    hide Traded, FillPrices;
    assert log + [a] + [b] == log + TradeReports(t, exec);
  }

  function StatsOf(stats: map<InstrumentId, Stats>, i: InstrumentId): Stats {
    if i in stats then stats[i] else NO_STATS
  }

  /** Real: the statistics of every instrument match the log. Tiered: synthetic fills are no trades. */
  ghost predicate VolumesMatch(policy: FillPolicy, stats: map<InstrumentId, Stats>, log: seq<Report>) {
    forall i: InstrumentId ::
      if policy.Real? then StatsMatch(StatsOf(stats, i), log, i)
      else Untraded(StatsOf(stats, i))
  }

  /** No volume and no range. */
  predicate Untraded(s: Stats) {
    s.volume == 0.0 && !s.hasHighLow && s.high == 0.0 && s.low == 0.0
  }

  lemma TradedAppend(log: seq<Report>, r: Report, i: InstrumentId, side: Side)
    ensures Traded(log + [r], i, side) == Traded(log, i, side) + if IsFillAt(r, i, side) then r.quantity else 0.0
    ensures FillPrices(log + [r], i)
         == FillPrices(log, i) + if r.Fill? && r.order.instrument == i then {r.price} else {}
  {
    var after := log + [r];
    assert after[..|log|] == log;
    forall p ensures p in FillPrices(after, i)
                <==> p in FillPrices(log, i) || (r.Fill? && r.order.instrument == i && p == r.price)
    {
      if p in FillPrices(log, i) {
        var k :| 0 <= k < |log| && log[k].Fill? && log[k].order.instrument == i && log[k].price == p;
        assert after[k] == log[k];
      }
      if r.Fill? && r.order.instrument == i && p == r.price {
        assert after[|log|] == r;
      }
    }
  }

  /** A status report, or a fill of another instrument, changes no statistics. */
  lemma StatsOther(s: Stats, log: seq<Report>, r: Report, i: InstrumentId)
    requires StatsMatch(s, log, i) && (r.Fill? ==> r.order.instrument != i)
    ensures StatsMatch(s, log + [r], i)
  {
    TradedAppend(log, r, i, Buy);
    TradedAppend(log, r, i, Sell);
  }

  /** The two sides of a trade are a buy and a sell of the same instrument. */
  ghost predicate Sided(t: Trade, i: InstrumentId) {
    t.buyer.side.Buy? && t.seller.side.Sell? && t.buyer.instrument == i == t.seller.instrument
  }

  lemma StatsOneTrade(s: Stats, log: seq<Report>, t: Trade, i: InstrumentId, exec: nat)
    requires StatsMatch(s, log, i) && Sided(t, i)
    ensures StatsMatch(StatsTrade(s, t), log + TradeReports(t, exec), i)
  {
    TradeReported(log, t, i, exec);
    ExtremesStep(s, FillPrices(log, i), t);
    hide Traded, FillPrices, Extremes;
  }

  lemma {:induction false} StatsAllTrades(s: Stats, log: seq<Report>, trades: seq<Trade>, i: InstrumentId, exec: nat)
    requires StatsMatch(s, log, i) && forall k :: 0 <= k < |trades| ==> Sided(trades[k], i)
    ensures StatsMatch(StatsTrades(s, trades), log + Reports(trades, exec), i)
  {
    if trades == [] {
      assert log + [] == log;
    } else {
      hide StatsMatch;
      var n := |trades| - 1;
      StatsAllTrades(s, log, trades[..n], i, exec);
      StatsOneTrade(StatsTrades(s, trades[..n]), log + Reports(trades[..n], exec), trades[n], i, exec + 2 * n);
      Assoc(log, Reports(trades[..n], exec), TradeReports(trades[n], exec + 2 * n));
    }
  }

  lemma {:induction false} StatsOtherTrades(s: Stats, log: seq<Report>, trades: seq<Trade>,
                                            i: InstrumentId, j: InstrumentId, exec: nat)
    requires StatsMatch(s, log, j) && i != j && forall k :: 0 <= k < |trades| ==> Sided(trades[k], i)
    ensures StatsMatch(s, log + Reports(trades, exec), j)
  {
    if trades == [] {
      assert log + [] == log;
    } else {
      var n := |trades| - 1;
      StatsOtherTrades(s, log, trades[..n], i, j, exec);
      var t, log' := trades[n], log + Reports(trades[..n], exec);
      var a := Fill(t.buyer, t.price, t.quantity, exec + 2 * n + 1);
      var b := Fill(t.seller, t.price, t.quantity, exec + 2 * n + 2);
      StatsOther(s, log', a, j);
      StatsOther(s, log' + [a], b, j);
      assert log' + [a] + [b] == log + Reports(trades, exec);
    }
  }

  /** Recording the trades of one instrument and reporting them keeps statistics and log matched. */
  lemma VolumesTrades(policy: FillPolicy, stats: map<InstrumentId, Stats>, log: seq<Report>, trades: seq<Trade>,
                      i: InstrumentId, exec: nat)
    requires VolumesMatch(policy, stats, log) && policy.Real?
    requires forall k :: 0 <= k < |trades| ==> Sided(trades[k], i)
    ensures VolumesMatch(policy, stats[i := StatsTrades(StatsOf(stats, i), trades)], log + Reports(trades, exec))
  {
    var after := stats[i := StatsTrades(StatsOf(stats, i), trades)];
    forall j: InstrumentId ensures StatsMatch(StatsOf(after, j), log + Reports(trades, exec), j) {
      assert StatsMatch(StatsOf(stats, j), log, j);
      if i == j {
        StatsAllTrades(StatsOf(stats, i), log, trades, i, exec);
      } else {
        StatsOtherTrades(StatsOf(stats, j), log, trades, i, j, exec);
      }
    }
  }

  lemma VolumesStatus(policy: FillPolicy, stats: map<InstrumentId, Stats>, log: seq<Report>, r: Report)
    requires VolumesMatch(policy, stats, log) && (policy.Real? ==> r.Status?)
    ensures VolumesMatch(policy, stats, log + [r])
  {
    forall i: InstrumentId
      ensures if policy.Real? then StatsMatch(StatsOf(stats, i), log + [r], i)
              else Untraded(StatsOf(stats, i))
    {
      if policy.Real? {
        assert StatsMatch(StatsOf(stats, i), log, i);
        StatsOther(StatsOf(stats, i), log, r, i);
      }
    }
  }

  /** Same volume and range, whatever the best prices say. */
  predicate SameVolumes(a: Stats, b: Stats) {
    a.volume == b.volume && a.high == b.high && a.low == b.low && a.hasHighLow == b.hasHighLow
  }

  lemma VolumesSame(policy: FillPolicy, stats: map<InstrumentId, Stats>, stats': map<InstrumentId, Stats>,
                    log: seq<Report>)
    requires VolumesMatch(policy, stats, log)
    requires forall i: InstrumentId :: SameVolumes(StatsOf(stats', i), StatsOf(stats, i))
    ensures VolumesMatch(policy, stats', log)
  {
    forall i: InstrumentId
      ensures if policy.Real? then StatsMatch(StatsOf(stats', i), log, i)
              else Untraded(StatsOf(stats', i))
    {
      assert SameVolumes(StatsOf(stats', i), StatsOf(stats, i));
      assert policy.Real? ==> StatsMatch(StatsOf(stats, i), log, i);
    }
  }

  // ---------------------------------------------------------------- snapshots

  function BestPrice(depth: seq<BookLevel>): Price {
    if depth == [] then 0.0 else depth[0].price
  }

  function BestQuantity(depth: seq<BookLevel>): real {
    if depth == [] then 0.0 else depth[0].quantity
  }

  /** Statistics with the best prices of a book. */
  function WithBest(s: Stats, book: Book): Stats {
    var b, a := Depth(book.bids), Depth(book.asks);
    s.(bidPrice := BestPrice(b), bidQty := BestQuantity(b), askPrice := BestPrice(a), askQty := BestQuantity(a))
  }

  /** A slot shows the book as it is now: depth recomputed order by order, and the statistics. */
  ghost predicate Shows(snap: Snapshot, book: Book, stats: map<InstrumentId, Stats>, i: InstrumentId) {
    && snap.bids == Depth(book.bids) && snap.asks == Depth(book.asks)
    && (if i in stats then snap.version > 0 && snap.stats == stats[i] == WithBest(stats[i], book)
        else snap.version == 0 && snap.stats == NO_STATS)
  }

  /** Every slot shows its book, or a newer version is pending, or the instrument is `dirty`. */
  ghost predicate Published(instruments: set<InstrumentId>, books: BookMap, slots: map<InstrumentId, Snapshot>,
                            stats: map<InstrumentId, Stats>, pending: map<InstrumentId, nat>, sequence: nat,
                            dirty: set<InstrumentId>)
  {
    && slots.Keys == instruments && pending.Keys <= instruments
    && (forall i :: i in instruments ==>
          && slots[i].version <= sequence
          && (if i in pending then slots[i].version < pending[i] <= sequence && i in stats
              else i in dirty || Shows(slots[i], BookOf(books, i), stats, i)))
  }

  /** Changing the book of one instrument makes that instrument dirty. */
  lemma PublishedDirty(instruments: set<InstrumentId>, books: BookMap, slots: map<InstrumentId, Snapshot>,
                       stats: map<InstrumentId, Stats>, pending: map<InstrumentId, nat>, sequence: nat,
                       dirty: set<InstrumentId>, i: InstrumentId, book: Book)
    requires Published(instruments, books, slots, stats, pending, sequence, dirty) && dirty <= {i}
    ensures Published(instruments, books[i := book], slots, stats, pending, sequence, {i})
  {
  }

  /** A dirty instrument's book may change further. */
  lemma PublishedAny(instruments: set<InstrumentId>, books: BookMap, books': BookMap,
                     slots: map<InstrumentId, Snapshot>, stats: map<InstrumentId, Stats>,
                     pending: map<InstrumentId, nat>, sequence: nat, i: InstrumentId)
    requires || Published(instruments, books, slots, stats, pending, sequence, {})
             || Published(instruments, books, slots, stats, pending, sequence, {i})
    requires forall j :: j != i ==> BookOf(books', j) == BookOf(books, j)
    ensures Published(instruments, books', slots, stats, pending, sequence, {i})
  {
    forall j | j in instruments && j !in pending && j != i ensures Shows(slots[j], BookOf(books', j), stats, j) {
      assert Shows(slots[j], BookOf(books, j), stats, j);
    }
  }

  /** Recording it makes it pending, with a version above everything published. */
  lemma PublishedPending(instruments: set<InstrumentId>, books: BookMap, slots: map<InstrumentId, Snapshot>,
                         stats: map<InstrumentId, Stats>, pending: map<InstrumentId, nat>, sequence: nat,
                         i: InstrumentId, s: Stats)
    requires Published(instruments, books, slots, stats, pending, sequence, {i}) && i in instruments
    ensures Published(instruments, books, slots, stats[i := s], pending[i := sequence + 1], sequence + 1, {})
  {
  }

  /** Publishing one pending instrument. */
  lemma PublishedOne(instruments: set<InstrumentId>, books: BookMap, slots: map<InstrumentId, Snapshot>,
                     stats: map<InstrumentId, Stats>, pending: map<InstrumentId, nat>, sequence: nat, i: InstrumentId)
    requires Published(instruments, books, slots, stats, pending, sequence, {}) && i in pending
    ensures i in stats && i in slots && slots[i].version < pending[i]
    ensures SameVolumes(WithBest(stats[i], BookOf(books, i)), stats[i])
    ensures var book := BookOf(books, i);
            var s := WithBest(stats[i], book);
            Published(instruments, books, slots[i := Snapshot(Depth(book.bids), Depth(book.asks), s, pending[i])],
                      stats[i := s], pending - {i}, sequence, {})
  {
  }

  lemma PublishedKeys(instruments: set<InstrumentId>, books: BookMap, slots: map<InstrumentId, Snapshot>,
                      stats: map<InstrumentId, Stats>, pending: map<InstrumentId, nat>, sequence: nat)
    requires Published(instruments, books, slots, stats, pending, sequence, {})
    ensures slots.Keys == instruments
  {
  }
}
