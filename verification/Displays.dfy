/** What a published snapshot tells its reader, in terms of the orders on the book
    (publish_market_data of src/core/exchange/mod.rs, build_book of src/core/orderbook.rs). */
module Displays {
  import opened Orders
  import opened Ladders
  import opened Matching
  import opened MarketData
  import Mirrors

  /** The open quantity of the orders filed at one price. */
  function OpenAt(s: seq<Resting>, price: Price): real {
    if s == [] then 0.0
    else (if s[0].level == price then s[0].order.remaining else 0.0) + OpenAt(s[1..], price)
  }

  ghost predicate HasLevel(s: seq<Resting>, price: Price) {
    exists r :: r in s && r.level == price
  }

  ghost predicate Lists(depth: seq<BookLevel>, price: Price) {
    exists k :: 0 <= k < |depth| && depth[k].price == price
  }

  /** The first price ranks before the second: bids from the highest down, asks from the lowest up. */
  predicate Better(side: Side, a: Price, b: Price) {
    if side.Buy? then a > b else a < b
  }

  /** A depth list shows a side: exactly the prices somebody rests at, best first, each once and with
      everything open there. */
  ghost predicate ShowsLevels(side: Side, s: seq<Resting>, depth: seq<BookLevel>) {
    && (forall k :: 0 <= k < |depth| ==>
          HasLevel(s, depth[k].price) && depth[k].quantity == OpenAt(s, depth[k].price))
    && (forall r :: r in s ==> Lists(depth, r.level))
    && (forall j, k :: 0 <= j < k < |depth| ==> Better(side, depth[j].price, depth[k].price))
  }

  /** The best price of a side and all that is open there; both are zero exactly for an empty side. */
  ghost predicate BestOf(side: Side, s: seq<Resting>, price: Price, quantity: real) {
    if s == [] then price == 0.0 && quantity == 0.0
    else
      && HasLevel(s, price) && (forall r :: r in s ==> !Better(side, r.level, price))
      && quantity == OpenAt(s, price) && price > 0.0 && quantity > 0.0
  }

  /** A side as the engine keeps it: in priority order, nothing free or empty on it. */
  ghost predicate Tidy(side: Side, s: seq<Resting>) {
    Prioritised(side, s) && Live(s) && forall r :: r in s ==> r.level > 0.0
  }

  /** Before the first trade or change there is nothing to see. */
  const NOTHING := Stats(0.0, 0.0, 0.0, 0.0, 0.0, 0.0, 0.0, false)

  /** The snapshot of an instrument shows its book: all levels and, once there was any activity, the
      best prices of both sides. */
  ghost predicate Displayed(snap: Snapshot, book: Book) {
    && ShowsLevels(Buy, book.bids, snap.bids) && ShowsLevels(Sell, book.asks, snap.asks)
    && (if snap.version > 0 then
          && BestOf(Buy, book.bids, snap.stats.bidPrice, snap.stats.bidQty)
          && BestOf(Sell, book.asks, snap.stats.askPrice, snap.stats.askQty)
        else snap.stats == NOTHING)
  }

  lemma {:induction false} OpenAtNothing(s: seq<Resting>, price: Price)
    requires !HasLevel(s, price)
    ensures OpenAt(s, price) == 0.0
  {
    if s != [] {
      assert s[0] in s;
      OpenAtNothing(s[1..], price);
    }
  }

  lemma {:induction false} OpenAtPositive(s: seq<Resting>, price: Price)
    requires Live(s)
    ensures OpenAt(s, price) >= 0.0 && (HasLevel(s, price) ==> OpenAt(s, price) > 0.0)
  {
    if s != [] {
      OpenAtPositive(s[1..], price);
      assert s[0] in s;
      if HasLevel(s, price) && s[0].level != price {
        var r :| r in s && r.level == price;
        assert r in s[1..];
      }
    }
  }

  /** Nobody behind stands at a better price, and equal prices stand together. */
  lemma TailLevels(side: Side, s: seq<Resting>)
    requires Prioritised(side, s) && s != []
    ensures Prioritised(side, s[1..])
    ensures forall r :: r in s[1..] ==> r.level == s[0].level || Better(side, s[0].level, r.level)
    ensures |s| > 1 && s[1].level != s[0].level ==> !HasLevel(s[1..], s[0].level)
  {
    forall r | r in s[1..]
      ensures r.level == s[0].level || Better(side, s[0].level, r.level)
      ensures s[1].level != s[0].level ==> r.level != s[0].level
    {
      var i :| 0 <= i < |s[1..]| && s[1..][i] == r;
      assert Ahead(side, s[0], s[1 + i]);
      assert i == 0 || Ahead(side, s[1], s[1 + i]);
      assert Ahead(side, s[0], s[1]);
    }
  }

  lemma DepthOneMore(side: Side, s: seq<Resting>)
    requires s != [] && Prioritised(side, s) && ShowsLevels(side, s[1..], Depth(s[1..]))
    ensures ShowsLevels(side, s, Depth(s))
  {
    hide Prioritised, ShowsLevels, Depth, HasLevel, OpenAt;
    TailLevels(side, s);
    DepthHead(s[1..]);
    DepthStep(s);
    var deeper := Depth(s[1..]);
    if deeper != [] && deeper[0].price == s[0].level {
      DepthJoins(side, s, deeper);
    } else {
      NoLevels(s[1..], s[0].level);
      DepthStarts(side, s, deeper);
    }
  }

  lemma NothingShows(side: Side)
    ensures ShowsLevels(side, [], Depth([]))
  {
  }

  /** The depth added up order by order shows the side. */
  lemma {:induction false} DepthShows(side: Side, s: seq<Resting>)
    requires Prioritised(side, s)
    ensures ShowsLevels(side, s, Depth(s))
  {
    hide Prioritised, ShowsLevels, Depth;
    if s == [] {
      NothingShows(side);
    } else {
      TailLevels(side, s);
      DepthShows(side, s[1..]);
      DepthOneMore(side, s);
    }
  }

  lemma NoLevels(s: seq<Resting>, price: Price)
    ensures s == [] ==> !HasLevel(s, price)
  {
  }

  lemma {:induction false} DepthStep(s: seq<Resting>)
    requires s != []
    ensures var deeper := Depth(s[1..]);
            Depth(s) == if deeper != [] && deeper[0].price == s[0].level
                        then [BookLevel(s[0].level, s[0].order.remaining + deeper[0].quantity)] + deeper[1..]
                        else [BookLevel(s[0].level, s[0].order.remaining)] + deeper
  {
  }

  /** A newcomer at the best listed price is added to it. */
  lemma DepthJoins(side: Side, s: seq<Resting>, deeper: seq<BookLevel>)
    requires s != [] && deeper != [] && deeper[0].price == s[0].level && ShowsLevels(side, s[1..], deeper)
    ensures ShowsLevels(side, s, [BookLevel(s[0].level, s[0].order.remaining + deeper[0].quantity)] + deeper[1..])
  {
    var depth := [BookLevel(s[0].level, s[0].order.remaining + deeper[0].quantity)] + deeper[1..];
    assert SamePrices(depth, deeper);
    ListsSame(depth, deeper);
    forall k | 0 <= k < |depth| ensures HasLevel(s, depth[k].price) && depth[k].quantity == OpenAt(s, depth[k].price) {
      LevelStays(s, deeper[k].price);
      assert k == 0 || Better(side, deeper[0].price, deeper[k].price);
    }
    forall r | r in s ensures Lists(depth, r.level) {
      if r !in s[1..] {
        assert depth[0].price == r.level;
      }
    }
  }

  ghost predicate SamePrices(a: seq<BookLevel>, b: seq<BookLevel>) {
    |a| == |b| && forall k :: 0 <= k < |a| ==> a[k].price == b[k].price
  }

  lemma ListsSame(a: seq<BookLevel>, b: seq<BookLevel>)
    requires SamePrices(a, b)
    ensures forall p :: Lists(b, p) ==> Lists(a, p)
  {
    forall p | Lists(b, p) ensures Lists(a, p) {
      var k :| 0 <= k < |b| && b[k].price == p;
      assert a[k].price == p;
    }
  }

  /** A newcomer at a better price than all listed opens a level in front. */
  lemma DepthStarts(side: Side, s: seq<Resting>, deeper: seq<BookLevel>)
    requires s != [] && ShowsLevels(side, s[1..], deeper) && !HasLevel(s[1..], s[0].level)
    requires forall r :: r in s[1..] ==> Better(side, s[0].level, r.level) || r.level == s[0].level
    ensures ShowsLevels(side, s, [BookLevel(s[0].level, s[0].order.remaining)] + deeper)
  {
    var depth := [BookLevel(s[0].level, s[0].order.remaining)] + deeper;
    OpenAtNothing(s[1..], s[0].level);
    assert s[0] in s;
    forall k | 0 <= k < |depth| ensures HasLevel(s, depth[k].price) && depth[k].quantity == OpenAt(s, depth[k].price) {
      if k > 0 {
        LevelStays(s, deeper[k - 1].price);
      }
    }
    forall j, k | 0 <= j < k < |depth| ensures Better(side, depth[j].price, depth[k].price) {
      assert HasLevel(s[1..], deeper[k - 1].price);
      assert j == 0 || Better(side, deeper[j - 1].price, deeper[k - 1].price);
    }
    forall r | r in s ensures Lists(depth, r.level) {
      if r in s[1..] {
        var k :| 0 <= k < |deeper| && deeper[k].price == r.level;
        assert depth[k + 1].price == r.level;
      } else {
        assert depth[0].price == r.level;
      }
    }
  }

  lemma LevelStays(s: seq<Resting>, price: Price)
    requires s != [] && HasLevel(s[1..], price)
    ensures HasLevel(s, price)
  {
    var r :| r in s[1..] && r.level == price;
    assert r in s;
  }

  lemma BestShows(side: Side, s: seq<Resting>)
    requires Tidy(side, s)
    ensures BestOf(side, s, BestPrice(Depth(s)), BestQuantity(Depth(s)))
  {
    DepthShows(side, s);
    DepthHead(s);
    if s != [] {
      TailLevels(side, s);
      assert s[0] in s;
      assert HasLevel(s, s[0].level);
      OpenAtPositive(s, s[0].level);
    }
  }

  /** A slot that shows its book tells the truth about it. */
  lemma ShowsDisplays(snap: Snapshot, book: Book, stats: map<InstrumentId, Stats>, i: InstrumentId)
    requires Shows(snap, book, stats, i) && Tidy(Buy, book.bids) && Tidy(Sell, book.asks)
    ensures Displayed(snap, book)
  {
    DepthShows(Buy, book.bids);
    DepthShows(Sell, book.asks);
    BestShows(Buy, book.bids);
    BestShows(Sell, book.asks);
    hide Depth, ShowsLevels, BestOf, Tidy;
  }

  ghost predicate TidyBook(book: Book) {
    Tidy(Buy, book.bids) && Tidy(Sell, book.asks)
  }

  /** With nothing pending every snapshot of a tidy book tells the truth about it. */
  lemma AllDisplayed(instruments: set<InstrumentId>, books: Mirrors.BookMap, slots: map<InstrumentId, Snapshot>,
                     stats: map<InstrumentId, Stats>, sequence: nat)
    requires Published(instruments, books, slots, stats, map[], sequence, {})
    ensures slots.Keys == instruments
    ensures forall i :: i in instruments && TidyBook(Mirrors.BookOf(books, i)) ==>
              Displayed(slots[i], Mirrors.BookOf(books, i))
  {
    forall i | i in instruments && TidyBook(Mirrors.BookOf(books, i))
      ensures Displayed(slots[i], Mirrors.BookOf(books, i))
    {
      ShowsDisplays(slots[i], Mirrors.BookOf(books, i), stats, i);
    }
  }
}
