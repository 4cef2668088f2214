/** Continuous matching (OrderBook::add and match_trades of src/core/orderbook.rs) on priority
    sequences, and its meaning: one greedy price-time sweep of the incoming order. */
module Matching {
  import opened Orders
  import opened Ladders

  /** A trade with the post-fill snapshots of both parties. */
  datatype Trade = Trade(buyer: Order, seller: Order, price: Price, quantity: real)

  datatype Book = Book(bids: seq<Resting>, asks: seq<Resting>)
  {
    function On(side: Side): seq<Resting> {
      if side.Buy? then bids else asks
    }

    function With(side: Side, s: seq<Resting>): Book {
      if side.Buy? then Book(s, asks) else Book(bids, s)
    }
  }

  ghost predicate Live(s: seq<Resting>) {
    forall r :: r in s ==> r.order.remaining > 0.0
  }

  /** Put the post-fill order back at the front, or drop it when nothing remains. */
  function Refill(s: seq<Resting>, filled: Order): seq<Resting>
    requires s != []
  {
    if filled.remaining == 0.0 then s[1..] else [Resting(s[0].level, filled)] + s[1..]
  }

  // ---------------------------------------------------------------- the matching loop

  /** The trade the loop makes between two tops: at the earlier order's price. */
  function TradeTops(bid: Order, ask: Order): Trade {
    var price := if bid.arrival < ask.arrival then bid.price else ask.price;
    var quantity := MinReal(bid.remaining, ask.remaining);
    Trade(ApplyFill(bid, quantity, price), ApplyFill(ask, quantity, price), price, quantity)
  }

  predicate TopsCross(book: Book) {
    book.bids != [] && book.asks != []
    && book.bids[0].order.EffectivePrice() >= book.asks[0].order.EffectivePrice()
  }

  function AfterTops(book: Book): (after: Book)
    requires TopsCross(book) && Live(book.bids) && Live(book.asks)
    ensures Live(after.bids) && Live(after.asks)
    ensures |after.bids| + |after.asks| < |book.bids| + |book.asks|
  {
    var t := TradeTops(book.bids[0].order, book.asks[0].order);
    assert book.bids[0] in book.bids && book.asks[0] in book.asks;
    Book(Refill(book.bids, t.buyer), Refill(book.asks, t.seller))
  }

  datatype MatchResult = MatchResult(trades: seq<Trade>, book: Book)

  /** The whole loop. Every pass removes at least one order. */
  function Match(book: Book): MatchResult
    requires Live(book.bids) && Live(book.asks)
    decreases |book.bids| + |book.asks|
  {
    if !TopsCross(book) then MatchResult([], book) else
    var rest := Match(AfterTops(book));
    MatchResult([TradeTops(book.bids[0].order, book.asks[0].order)] + rest.trades, rest.book)
  }

  // ---------------------------------------------------------------- the reference: a greedy sweep

  /** The incoming order is willing to trade at `price`. */
  predicate Crosses(o: Order, price: Price) {
    Rank(Opposite(o.side), price) <= Rank(Opposite(o.side), o.EffectivePrice())
  }

  function TradeWith(incoming: Order, resting: Order, quantity: real, price: Price): Trade {
    var i, r := ApplyFill(incoming, quantity, price), ApplyFill(resting, quantity, price);
    if incoming.side.Buy? then Trade(i, r, price, quantity) else Trade(r, i, price, quantity)
  }

  datatype SweepResult = SweepResult(trades: seq<Trade>, incoming: Order, opposite: seq<Resting>)

  /** Take the best opposite order, as much of it as needed, at its own price; repeat while the
      incoming order has quantity left and its limit allows. */
  function Sweep(o: Order, opposite: seq<Resting>): SweepResult
    requires o.remaining >= 0.0 && Live(opposite)
    decreases |opposite|, o.remaining != 0.0
  {
    if o.remaining == 0.0 || opposite == [] || !Crosses(o, opposite[0].level) then
      SweepResult([], o, opposite)
    else
      assert opposite[0] in opposite;
      var resting := opposite[0].order;
      var quantity := MinReal(o.remaining, resting.remaining);
      var t := TradeWith(o, resting, quantity, resting.price);
      var rest := Sweep(ApplyFill(o, quantity, resting.price),
                        Refill(opposite, ApplyFill(resting, quantity, resting.price)));
      SweepResult([t] + rest.trades, rest.incoming, rest.opposite)
  }

  // ---------------------------------------------------------------- well-formed books

  /** Price first, then time of arrival. */
  ghost predicate Ahead(side: Side, a: Resting, b: Resting) {
    || Rank(side, a.level) < Rank(side, b.level)
    || (a.level == b.level && a.order.arrival < b.order.arrival)
  }

  /** Price-time priority: every entry stands ahead of all behind it. */
  ghost predicate Prioritised(side: Side, s: seq<Resting>) {
    forall i, j :: 0 <= i < j < |s| ==> Ahead(side, s[i], s[j])
  }

  /** Every order is filed under its effective price: the keys of a matching (Real) book. */
  ghost predicate KeyedByEffectivePrice(s: seq<Resting>) {
    forall r :: r in s ==> r.level == r.order.EffectivePrice()
  }

  /** Only limit orders rest. */
  ghost predicate LimitsOnly(s: seq<Resting>) {
    forall r :: r in s ==> r.order.orderType.Limit? && r.level == r.order.price
  }

  ghost predicate Apart(bids: seq<Resting>, asks: seq<Resting>) {
    forall b, a :: b in bids && a in asks ==> b.level < a.level
  }

  /** A resting Real book: in price-time priority, live, limit orders only, not crossed. */
  ghost predicate Uncrossed(book: Book) {
    && Prioritised(Buy, book.bids) && Prioritised(Sell, book.asks)
    && Live(book.bids) && Live(book.asks)
    && LimitsOnly(book.bids) && LimitsOnly(book.asks)
    && Apart(book.bids, book.asks)
  }

  ghost predicate LaterThan(o: Order, s: seq<Resting>) {
    forall r :: r in s ==> r.order.arrival < o.arrival
  }

  // ---------------------------------------------------------------- the loop is the sweep

  /** The opposite side of `own` does not trade with any order of `own`. */
  ghost predicate Quiet(side: Side, own: seq<Resting>, opposite: seq<Resting>) {
    forall x, y :: x in own && y in opposite ==> Rank(side, y.level) < Rank(side, x.level)
  }

  /** With nothing of its own side willing to trade, the loop stops at once. */
  lemma QuietStops(side: Side, own: seq<Resting>, opposite: seq<Resting>)
    requires Quiet(side, own, opposite)
    requires KeyedByEffectivePrice(own) && KeyedByEffectivePrice(opposite)
    ensures !TopsCross(Book([], []).With(side, own).With(Opposite(side), opposite))
  {
    if own != [] && opposite != [] {
      assert own[0] in own && opposite[0] in opposite;
    }
  }

  function Sides(side: Side, own: seq<Resting>, opposite: seq<Resting>): Book {
    if side.Buy? then Book(own, opposite) else Book(opposite, own)
  }

  /** One pass of the loop with the incoming order on top is one step of the sweep. */
  lemma TopsStep(o: Order, own: seq<Resting>, opposite: seq<Resting>)
    requires o.remaining > 0.0 && Live(own) && Live(opposite)
    requires opposite != [] && KeyedByEffectivePrice(opposite) && LaterThan(o, opposite)
    requires Crosses(o, opposite[0].level)
    ensures var book := Sides(o.side, [Resting(o.EffectivePrice(), o)] + own, opposite);
            var resting := opposite[0].order;
            var quantity := MinReal(o.remaining, resting.remaining);
            var o' := ApplyFill(o, quantity, resting.price);
            && Live(book.bids) && Live(book.asks) && TopsCross(book)
            && TradeTops(book.bids[0].order, book.asks[0].order) == TradeWith(o, resting, quantity, resting.price)
            && AfterTops(book) == Sides(o.side,
                 if o'.remaining == 0.0 then own else [Resting(o.EffectivePrice(), o')] + own,
                 Refill(opposite, ApplyFill(resting, quantity, resting.price)))
  {
    assert opposite[0] in opposite;
    var mine := [Resting(o.EffectivePrice(), o)] + own;
    assert mine[1..] == own;
  }

  lemma RefillKeeps(side: Side, o: Order, own: seq<Resting>, opposite: seq<Resting>, filled: Order)
    requires opposite != [] && filled.EffectivePrice() == opposite[0].order.EffectivePrice()
    requires filled.arrival == opposite[0].order.arrival && filled.remaining >= 0.0
    requires Live(opposite) && KeyedByEffectivePrice(opposite) && LaterThan(o, opposite)
    requires Quiet(side, own, opposite)
    ensures var s := Refill(opposite, filled);
            Live(s) && KeyedByEffectivePrice(s) && LaterThan(o, s) && Quiet(side, own, s)
  {
    assert opposite[0] in opposite;
    assert forall r :: r in opposite[1..] ==> r in opposite;
  }

  lemma {:induction false} TopIsSwept(o: Order, own: seq<Resting>, opposite: seq<Resting>)
    requires o.remaining > 0.0 && Live(own) && Live(opposite)
    requires KeyedByEffectivePrice(own) && KeyedByEffectivePrice(opposite)
    requires LaterThan(o, opposite) && Quiet(o.side, own, opposite)
    ensures var book := Sides(o.side, [Resting(o.EffectivePrice(), o)] + own, opposite);
            var swept := Sweep(o, opposite);
            && Live(book.bids) && Live(book.asks)
            && Match(book) == MatchResult(swept.trades, Sides(o.side,
                 if swept.incoming.remaining == 0.0 then own
                 else [Resting(o.EffectivePrice(), swept.incoming)] + own, swept.opposite))
    decreases |opposite|
  {
    var book := Sides(o.side, [Resting(o.EffectivePrice(), o)] + own, opposite);
    if opposite == [] || !Crosses(o, opposite[0].level) {
      assert opposite != [] ==> opposite[0] in opposite;
      assert !TopsCross(book);
    } else {
      TopsStep(o, own, opposite);
      SweepStep(o, opposite);
      var resting := opposite[0].order;
      var quantity := MinReal(o.remaining, resting.remaining);
      var o', left := ApplyFill(o, quantity, resting.price),
                      Refill(opposite, ApplyFill(resting, quantity, resting.price));
      assert opposite[0] in opposite;
      RefillKeeps(o.side, o, own, opposite, ApplyFill(resting, quantity, resting.price));
      if o'.remaining == 0.0 {
        QuietStops(o.side, own, left);
      } else {
        TopIsSwept(o', own, left);
      }
    }
  }

  lemma SweepStep(o: Order, opposite: seq<Resting>)
    requires o.remaining > 0.0 && Live(opposite) && opposite != [] && Crosses(o, opposite[0].level)
    ensures var resting := opposite[0].order;
            var quantity := MinReal(o.remaining, resting.remaining);
            var o' := ApplyFill(o, quantity, resting.price);
            var left := Refill(opposite, ApplyFill(resting, quantity, resting.price));
            && 0.0 < quantity && o'.remaining >= 0.0 && Live(left)
            && (o'.remaining == 0.0 || |left| < |opposite|)
            && Sweep(o, opposite) == SweepResult(
                 [TradeWith(o, resting, quantity, resting.price)] + Sweep(o', left).trades,
                 Sweep(o', left).incoming, Sweep(o', left).opposite)
  {
    assert opposite[0] in opposite;
  }

  /** Match after insertion equals the sweep, for any uncrossed book and any later-arriving order:
      same trades in the same order, same opposite side, and the own side changed only by the
      unfilled remainder. */
  lemma MatchIsSweep(book: Book, o: Order)
    requires Uncrossed(book) && o.remaining > 0.0
    requires LaterThan(o, book.On(Opposite(o.side)))
    ensures var own, opposite := book.On(o.side), book.On(Opposite(o.side));
            var inserted := Sides(o.side, Enqueue(o.side, own, Resting(o.EffectivePrice(), o)), opposite);
            var swept := Sweep(o, opposite);
            && Live(inserted.bids) && Live(inserted.asks)
            && Match(inserted) == MatchResult(swept.trades, Sides(o.side,
                 if swept.incoming.remaining == 0.0 then own
                 else Enqueue(o.side, own, Resting(o.EffectivePrice(), swept.incoming)), swept.opposite))
  {
    var own, opposite := book.On(o.side), book.On(Opposite(o.side));
    var r := Resting(o.EffectivePrice(), o);
    EnqueueMembers(o.side, own, r);
    if opposite != [] && Crosses(o, opposite[0].level) {
      assert opposite[0] in opposite;
      EnqueueFront(o.side, own, o.EffectivePrice());
      TopIsSwept(o, own, opposite);
    } else {
      NoCrossQuiet(o, opposite);
      QuietStops(o.side, Enqueue(o.side, own, r), opposite);
    }
  }

  lemma NoCrossQuiet(o: Order, opposite: seq<Resting>)
    requires Prioritised(Opposite(o.side), opposite)
    requires opposite == [] || !Crosses(o, opposite[0].level)
    ensures forall y :: y in opposite ==> !Crosses(o, y.level)
  {
    forall y | y in opposite ensures !Crosses(o, y.level) {
      var i :| 0 <= i < |opposite| && opposite[i] == y;
      assert i == 0 || Ahead(Opposite(o.side), opposite[0], opposite[i]);
    }
  }

  lemma EnqueueFront(side: Side, own: seq<Resting>, level: Price)
    requires forall x :: x in own ==> Rank(side, level) < Rank(side, x.level)
    ensures forall o :: Enqueue(side, own, Resting(level, o)) == [Resting(level, o)] + own
  {
    assert own != [] ==> own[0] in own;
  }

  lemma {:induction false} EnqueueMembers(side: Side, s: seq<Resting>, r: Resting)
    ensures |Enqueue(side, s, r)| == |s| + 1
    ensures forall x :: x in Enqueue(side, s, r) <==> x == r || x in s
  {
    if s != [] && Rank(side, s[0].level) <= Rank(side, r.level) {
      EnqueueMembers(side, s[1..], r);
      assert s == [s[0]] + s[1..];
    }
  }
}
