/** What adding an order to a book does, in prices and quantities alone (add and match_trades of
    src/core/orderbook.rs, effective_price of src/core/order.rs): how much trades, at which prices,
    what is left on either side and in which state the order ends. */
module Accepting {
  import opened Orders
  import opened Ladders
  import opened Matching
  import opened Trading

  /** The prices an order trades at: a limit order not beyond its limit; a market order any bid when
      it sells, and any ask up to 9999999999999 when it buys. */
  predicate Accepts(o: Order, price: Price) {
    match o.orderType
    case Limit => if o.side.Buy? then price <= o.price else o.price <= price
    case Market => o.side.Sell? || price <= 9999999999999.0
  }

  lemma CrossesAccepts(o: Order, price: Price)
    ensures Crosses(o, price) <==> Accepts(o, price)
  {
  }

  /** The quantity resting at prices an order accepts. */
  function Within(o: Order, s: seq<Resting>): real {
    if s == [] then 0.0
    else (if Accepts(o, s[0].order.price) then s[0].order.remaining else 0.0) + Within(o, s[1..])
  }

  lemma {:induction false} WithinSame(a: Order, b: Order, s: seq<Resting>)
    requires SameOrder(a, b)
    ensures Within(a, s) == Within(b, s)
  {
    if s != [] {
      WithinSame(a, b, s[1..]);
    }
  }

  lemma {:induction false} WithinPositive(o: Order, s: seq<Resting>)
    requires Live(s)
    ensures Within(o, s) >= 0.0
  {
    if s != [] {
      assert s[0] in s;
      WithinPositive(o, s[1..]);
    }
  }

  lemma {:induction false} WithinNothing(o: Order, s: seq<Resting>)
    requires forall r :: r in s ==> !Accepts(o, r.order.price)
    ensures Within(o, s) == 0.0
  {
    if s != [] {
      assert s[0] in s;
      WithinNothing(o, s[1..]);
    }
  }

  /** The sweep trades all it wants or all there is at accepted prices, whichever is less. */
  lemma {:induction false} TradesAllItCan(o: Order, opposite: seq<Resting>)
    requires o.remaining >= 0.0 && Orderly(Opposite(o.side), opposite)
    ensures var left := Sweep(o, opposite).incoming.remaining;
            if o.remaining <= Within(o, opposite) then left == 0.0 else left == o.remaining - Within(o, opposite)
    decreases |opposite|
  {
    WithinPositive(o, opposite);
    if o.remaining == 0.0 {
    } else if opposite == [] || !Crosses(o, opposite[0].level) {
      NothingAccepted(o, opposite);
    } else {
      SweepStep(o, opposite);
      var resting, rest := opposite[0].order, opposite[1..];
      var quantity := MinReal(o.remaining, resting.remaining);
      var o' := ApplyFill(o, quantity, resting.price);
      assert opposite[0] in opposite;
      CrossesAccepts(o, resting.price);
      WithinPositive(o, rest);
      SuffixKeeps(Opposite(o.side), opposite, 1);
      WithinSame(o', o, rest);
      if o.remaining > resting.remaining {
        TradesAllItCan(o', rest);
      }
    }
  }

  lemma NothingAccepted(o: Order, opposite: seq<Resting>)
    requires Orderly(Opposite(o.side), opposite) && (opposite == [] || !Crosses(o, opposite[0].level))
    ensures Within(o, opposite) == 0.0 && forall r :: r in opposite ==> !Accepts(o, r.order.price)
  {
    NoCrossQuiet(o, opposite);
    forall r | r in opposite ensures !Accepts(o, r.order.price) {
      CrossesAccepts(o, r.level);
    }
    WithinNothing(o, opposite);
  }

  /** Nothing an unfinished order accepts is left on the other side. */
  lemma NothingLeft(o: Order, opposite: seq<Resting>)
    requires o.remaining >= 0.0 && Orderly(Opposite(o.side), opposite)
    ensures var s := Sweep(o, opposite);
            s.incoming.remaining > 0.0 ==> forall r :: r in s.opposite ==> !Accepts(o, r.order.price)
  {
    SweepExhausts(o, opposite);
    LeftoverKeeps(o, opposite);
    hide Sweep, Orderly;
    var s := Sweep(o, opposite);
    if s.incoming.remaining > 0.0 {
      NothingAccepted(o, s.opposite);
    }
  }

  /** The state an incoming order ends in. */
  predicate EndsAs(o: Order, final: Order, traded: bool) {
    if final.remaining == 0.0 then final.state.Filled?
    else if o.orderType.Market? then final.state.Cancelled?
    else if traded then final.state.PartialFill?
    else final.state.Booked?
  }

  lemma SweepState(o: Order, opposite: seq<Resting>)
    requires o.remaining > 0.0 && o.state.Booked? && Live(opposite)
    ensures var s := Sweep(o, opposite);
            s.incoming.state == if s.trades == [] then Booked else if s.incoming.remaining == 0.0 then Filled
                                else PartialFill
  {
    SweepShape(o, opposite);
    var s := Sweep(o, opposite);
    hide Sweep;
    if s.trades != [] {
      assert TradeFits(o, opposite, s.trades, |s.trades| - 1);
    }
  }

  lemma {:induction false} VolumeTraded(trades: seq<Trade>)
    requires forall k :: 0 <= k < |trades| ==> trades[k].quantity > 0.0
    ensures Volume(trades) >= 0.0 && (Volume(trades) > 0.0 <==> trades != [])
  {
    if trades != [] {
      VolumeTraded(trades[1..]);
    }
  }

  /** How much the sweep trades and at which prices. */
  lemma SweepOutcome(o: Order, opposite: seq<Resting>)
    requires o.remaining > 0.0 && o.state.Booked? && Orderly(Opposite(o.side), opposite)
    ensures var s := Sweep(o, opposite);
            && SameOrder(s.incoming, o) && 0.0 <= s.incoming.remaining <= o.remaining
            && Volume(s.trades) == o.remaining - s.incoming.remaining
            && (s.trades == [] <==> s.incoming.remaining == o.remaining)
            && (forall k :: 0 <= k < |s.trades| ==> Accepts(o, s.trades[k].price))
  {
    SweepConserves(o, opposite);
    SweepShape(o, opposite);
    TradesAreSafe(o, opposite);
    var s := Sweep(o, opposite);
    MineKeepsIdentity(o, opposite, s.trades);
    VolumeTraded(s.trades);
    hide Sweep, Orderly, Volume;
    forall k | 0 <= k < |s.trades| ensures Accepts(o, s.trades[k].price) {
      CrossesAccepts(o, s.trades[k].price);
    }
  }

  /** All of it: the order trades exactly what it wants or what the book offers at prices it accepts,
      every trade at such a price; it keeps its terms and ends Filled, resting, or Cancelled when it
      is a market order; and what an unfinished order accepts is gone from the other side. */
  lemma AddOutcome(book: Book, o: Order)
    requires Uncrossed(book) && o.remaining > 0.0
    ensures Live(book.On(Opposite(o.side)))
    ensures var added, offered := Add(book, o), Within(o, book.On(Opposite(o.side)));
            && SameOrder(added.final, o) && 0.0 <= added.final.remaining <= o.remaining
            && (if o.remaining <= offered then added.final.remaining == 0.0
                else added.final.remaining == o.remaining - offered)
            && Volume(added.trades) == o.remaining - added.final.remaining
            && (added.trades == [] <==> added.final.remaining == o.remaining)
            && EndsAs(o, added.final, added.trades != [])
            && (forall k :: 0 <= k < |added.trades| ==> Accepts(o, added.trades[k].price))
            && (added.final.remaining > 0.0 ==>
                  forall r :: r in added.book.On(Opposite(o.side)) ==> !Accepts(o, r.order.price))
  {
    UncrossedBySide(book, o.side);
    var booked, opposite := o.(state := Booked), book.On(Opposite(o.side));
    WithinSame(booked, o, opposite);
    TradesAllItCan(booked, opposite);
    SweepState(booked, opposite);
    NothingLeft(booked, opposite);
    SweepOutcome(booked, opposite);
    hide Sweep, Uncrossed, Orderly, Within, Volume;
    assert forall p :: Accepts(booked, p) <==> Accepts(o, p);
    hide Accepts;
  }

  /** The incoming order's own side changes only by what a limit order leaves resting at its limit,
      behind everything of that price or a better one. */
  lemma OwnSideAfter(book: Book, o: Order)
    requires Uncrossed(book) && o.remaining > 0.0 && LaterThan(o, book.On(o.side))
    ensures Live(book.On(Opposite(o.side)))
    ensures var added, own := Add(book, o), book.On(o.side);
            if added.final.remaining == 0.0 || o.orderType.Market? then added.book.On(o.side) == own
            else exists n: nat :: n <= |own| && Placed(o.side, own, n, o.price)
                   && added.book.On(o.side) == own[..n] + [Resting(o.price, added.final)] + own[n..]
  {
    UncrossedLive(book);
    var own, added := book.On(o.side), Add(book, o);
    if added.final.remaining != 0.0 && o.orderType.Limit? {
      var n := EnqueueAt(o.side, own, Resting(o.price, added.final));
    }
  }

  /** Place n of a side is right for a newcomer at a price: everything before is as good or better,
      everything behind is worse. */
  ghost predicate Placed(side: Side, s: seq<Resting>, n: nat, price: Price) {
    && (forall i :: 0 <= i < n && i < |s| ==> if side.Buy? then s[i].level >= price else s[i].level <= price)
    && (forall i :: n <= i < |s| ==> if side.Buy? then s[i].level < price else s[i].level > price)
  }

  lemma {:induction false} EnqueueAt(side: Side, s: seq<Resting>, r: Resting) returns (n: nat)
    requires Prioritised(side, s)
    ensures n <= |s| && Placed(side, s, n, r.level) && Enqueue(side, s, r) == s[..n] + [r] + s[n..]
  {
    if s == [] || Rank(side, r.level) < Rank(side, s[0].level) {
      n := 0;
      forall i | 0 <= i < |s| ensures if side.Buy? then s[i].level < r.level else s[i].level > r.level {
        assert i == 0 || Ahead(side, s[0], s[i]);
      }
    } else {
      var m := EnqueueAt(side, s[1..], r);
      n := m + 1;
      assert s[..n] == [s[0]] + s[1..][..m] && s[n..] == s[1..][m..];
      assert forall i :: 1 <= i < |s| ==> s[i] == s[1..][i - 1];
    }
  }

  /** A market order that ends with quantity left emptied the bids when it sells, and took every ask
      up to 9999999999999 when it buys. */
  lemma MarketTakesAll(book: Book, o: Order)
    requires Uncrossed(book) && o.remaining > 0.0 && o.orderType.Market?
    ensures Live(book.On(Opposite(o.side)))
    ensures var added := Add(book, o);
            added.final.remaining > 0.0 ==>
              if o.side.Sell? then added.book.bids == []
              else forall r :: r in added.book.asks ==> r.order.price > 9999999999999.0
  {
    AddOutcome(book, o);
    hide Add;
    var bids := Add(book, o).book.bids;
    assert bids != [] ==> bids[0] in bids;
  }
}
