/** The order book as the program keeps it (src/core/orderbook.rs): price levels with an identity
    index and an incremental total, two maps of levels, and the operations that update them in
    place, each proved to compute its priority-sequence meaning. */
module OrderBooks {
  import opened Orders
  import opened Collections
  import opened Ladders
  import opened LevelQueues
  import opened Matching
  import Books
  import Filing
  import Trading

  /** The identity index is exactly the inverse of the slots. */
  ghost predicate Indexed(orders: Slots, index: map<Key, nat>, next: nat) {
    && (forall k :: k in orders ==> k < next && orders[k].Key() in index && index[orders[k].Key()] == k)
    && (forall key :: key in index ==> index[key] in orders && orders[index[key]].Key() == key)
  }

  lemma IndexedPush(orders: Slots, index: map<Key, nat>, next: nat, o: Order)
    requires Indexed(orders, index, next) && o.Key() !in index
    ensures Indexed(orders[next := o], index[o.Key() := next], next + 1)
    ensures forall k :: k in orders ==> k < next
  {
  }

  lemma IndexedDrop(orders: Slots, index: map<Key, nat>, next: nat, key: Key)
    requires Indexed(orders, index, next) && key in index
    ensures index[key] in orders && orders[index[key]].Key() == key
    ensures Indexed(orders - {index[key]}, index - {key}, next)
  {
  }

  lemma IndexedStore(orders: Slots, index: map<Key, nat>, next: nat, o: Order)
    requires Indexed(orders, index, next) && o.Key() in index
    ensures index[o.Key()] in orders && Indexed(orders[index[o.Key()] := o], index, next)
  {
  }

  /** A key is in the index exactly when the queue holds an order with that key, and then the
      index leads to its position. */
  lemma IndexedQueue(orders: Slots, index: map<Key, nat>, next: nat, key: Key)
    requires Indexed(orders, index, next)
    ensures DistinctKeys(InOrder(orders)) && |InOrder(orders)| == |orders|
    ensures key !in index ==> forall o :: o in InOrder(orders) ==> o.Key() != key
    ensures key in index ==>
              var at := Position(orders, index[key]);
              && index[key] in orders && at < |InOrder(orders)|
              && InOrder(orders)[at] == orders[index[key]] && InOrder(orders)[at].Key() == key
  {
    InOrderDistinct(orders);
    InOrderMembers(orders);
    if key in index {
      InOrderAccess(orders, index[key], orders[index[key]]);
    }
  }

  lemma OnlyPosition(queue: seq<Order>, i: nat, j: nat)
    requires DistinctKeys(queue) && i < |queue| && j < |queue| && queue[i].Key() == queue[j].Key()
    ensures i == j
  {
  }

  class PriceLevel {
    const price: Price
    var orders: Slots
    var index: map<Key, nat>
    var total: real
    var next: nat

    ghost function Queue(): seq<Order>
      reads this
    {
      InOrder(orders)
    }

    /** The index is consistent with the slots, and the running total is exact. */
    ghost predicate Valid()
      reads this
    {
      Indexed(orders, index, next) && total == Total(InOrder(orders))
    }

    constructor (price: Price)
      ensures Valid() && Queue() == [] && this.price == price && index == map[]
    {
      this.price := price;
      orders, index, total, next := map[], map[], 0.0, 0;
    }

    method Top() returns (o: Order)
      requires Valid() && Queue() != []
      ensures o == Queue()[0]
    {
      o := orders[First(orders.Keys)];
    }

    method PushBack(o: Order)
      requires Valid() && o.Key() !in index
      modifies this
      ensures Valid() && Queue() == old(Queue()) + [o]
    {
      hide InOrder, Indexed;
      var key := next;
      next := next + 1;
      IndexedPush(orders, index, key, o);
      InOrderPush(orders, key, o);
      TotalAppend(InOrder(orders), [o]);
      total := total + o.remaining;
      index := index[o.Key() := key];
      orders := orders[key := o];
    }

    method Locate(key: Key) returns (r: Option<Order>, ghost at: nat)
      requires Valid()
      ensures r.Some? <==> key in index
      ensures r.Some? ==> at < |Queue()| && Queue()[at] == r.value && r.value.Key() == key
    {
      hide InOrder, Indexed, Total;
      IndexedQueue(orders, index, next, key);
      if key in index {
        r, at := Some(orders[index[key]]), Position(orders, index[key]);
      } else {
        r, at := None, 0;
      }
    }

    method Remove(key: Key) returns (r: Option<Order>, ghost at: nat)
      requires Valid()
      modifies this
      ensures Valid()
      ensures r.Some? <==> key in old(index)
      ensures r.None? ==> Queue() == old(Queue())
      ensures r.Some? ==>
                && at < |old(Queue())| && old(Queue())[at] == r.value && r.value.Key() == key
                && Queue() == Drop(old(Queue()), at)
    {
      hide InOrder, Indexed, Total, Position, Drop, DistinctKeys;
      IndexedQueue(orders, index, next, key);
      if key !in index {
        return None, 0;
      }
      var k := index[key];
      var o := orders[k];
      r, at := Some(o), Position(orders, k);
      IndexedDrop(orders, index, next, key);
      InOrderAccess(orders, k, o);
      TotalAccess(InOrder(orders), at, o);
      index := index - {key};
      orders := orders - {k};
      total := total - o.remaining;
    }

    /** Change the state of an order in place. */
    method SetState(key: Key, state: OrderState, ghost at: nat)
      requires Valid() && at < |Queue()| && Queue()[at].Key() == key
      modifies this
      ensures Valid() && Queue() == old(Queue())[at := old(Queue())[at].(state := state)]
    {
      hide InOrder, Indexed, Total, Position, Drop, DistinctKeys;
      IndexedQueue(orders, index, next, key);
      assert Queue()[at] in Queue();
      var k := index[key];
      OnlyPosition(Queue(), at, Position(orders, k));
      var o := orders[k].(state := state);
      IndexedStore(orders, index, next, o);
      InOrderAccess(orders, k, o);
      TotalAccess(InOrder(orders), at, o);
      orders := orders[k := o];
    }

    /** Store the post-fill snapshot of an order of this level, or remove it when filled. */
    method UpdateFill(o: Order, quantity: real, ghost at: nat)
      requires Valid() && at < |Queue()| && Queue()[at].Key() == o.Key()
      requires o.remaining == Queue()[at].remaining - quantity
      modifies this
      ensures Valid()
      ensures Queue() == if o.remaining == 0.0 then Drop(old(Queue()), at) else old(Queue())[at := o]
    {
      hide InOrder, Indexed, Total, Position, Drop, DistinctKeys;
      var key := o.Key();
      IndexedQueue(orders, index, next, key);
      assert Queue()[at] in Queue();
      var k := index[key];
      OnlyPosition(Queue(), at, Position(orders, k));
      if o.remaining == 0.0 {
        var r, i := Remove(key);
        assert r.Some?;
        OnlyPosition(old(Queue()), at, i);
      } else {
        IndexedStore(orders, index, next, o);
        InOrderAccess(orders, k, o);
        TotalAccess(InOrder(orders), at, o);
        total := total - quantity;
        orders := orders[k := o];
      }
    }
  }

  // ---------------------------------------------------------------- one side of the book

  /** One of the two level maps of an order book. */
  class Levels {
    const side: Side
    var levels: map<Price, PriceLevel>
    ghost var Repr: set<object>

    /** Levels are filed under their own price and are never empty. */
    ghost predicate Valid()
      reads this, Repr
      ensures Valid() ==> this in Repr
    {
      && this in Repr
      && (forall p :: p in levels ==>
            && levels[p] in Repr && levels[p].price == p
            && levels[p].Valid() && levels[p].Queue() != [])
    }

    ghost function Rungs(): Ladder
      requires Valid()
      reads this, Repr
    {
      map p | p in levels :: levels[p].Queue()
    }

    /** The side as a priority sequence. */
    ghost function View(): seq<Resting>
      requires Valid()
      reads this, Repr
    {
      Flatten(side, Rungs())
    }

    lemma RungsAre(ladder: Ladder)
      requires Valid() && ladder.Keys == levels.Keys
      requires forall p :: p in levels ==> levels[p].Queue() == ladder[p]
      ensures Rungs() == ladder
    {
      hide InOrder, Indexed, Total;
      assert Rungs().Keys == levels.Keys;
    }

    constructor (side: Side)
      ensures Valid() && View() == [] && this.side == side && fresh(Repr) && this in Repr
    {
      this.side := side;
      levels := map[];
      Repr := {this};
    }

    /** Looking a key up at its level is looking it up in the sequence. */
    lemma Lookup(price: Price, key: Key)
      requires Valid()
      ensures var found := Find(View(), price, key);
              && (found.None? <==> (price in levels ==> key !in levels[price].index))
              && (found.Some? ==>
                    exists at :: 0 <= at < |levels[price].Queue()| && levels[price].Queue()[at] == found.value
                      && found.value.Key() == key)
    {
      hide InOrder, Indexed, Total, Flatten, Find;
      var ladder := Rungs();
      if price in levels && key in levels[price].index {
        var level := levels[price];
        IndexedQueue(level.orders, level.index, level.next, key);
        FlattenDrop(side, ladder, price, Position(level.orders, level.index[key]));
      } else {
        if price in levels {
          IndexedQueue(levels[price].orders, levels[price].index, levels[price].next, key);
        }
        FlattenMiss(side, ladder, price, key);
      }
    }

    /** File an order behind the others of its level, opening the level if needed. */
    method Push(price: Price, o: Order)
      requires Valid() && Find(View(), price, o.Key()).None?
      modifies Repr
      ensures Valid() && fresh(Repr - old(Repr))
      ensures View() == Enqueue(side, old(View()), Resting(price, o))
    {
      hide InOrder, Indexed, Total, Flatten, Find, Enqueue;
      ghost var was := Rungs();
      Lookup(price, o.Key());
      FlattenPush(side, was, price, o);
      if price !in levels {
        var added := new PriceLevel(price);
        levels, Repr := levels[price := added], Repr + {added};
      }
      levels[price].PushBack(o);
      RungsAre(was[price := QueueAt(was, price) + [o]]);
    }

    /** What the sequence says about a key it finds: its level and its place in the queue. */
    lemma Found(price: Price, key: Key) returns (at: nat)
      requires Valid() && Find(View(), price, key).Some?
      ensures price in levels && at < |levels[price].Queue()|
      ensures levels[price].Queue()[at] == Find(View(), price, key).value
      ensures levels[price].Queue()[at].Key() == key && DistinctKeys(levels[price].Queue())
    {
      Lookup(price, key);
      hide InOrder, Indexed, Total, Flatten, Find;
      var level := levels[price];
      at :| 0 <= at < |level.Queue()| && level.Queue()[at] == Find(View(), price, key).value
        && level.Queue()[at].Key() == key;
      IndexedQueue(level.orders, level.index, level.next, key);
    }

    method Locate(price: Price, key: Key) returns (r: Option<Order>)
      requires Valid()
      ensures r == Find(View(), price, key)
    {
      hide InOrder, Indexed, Total, Flatten, Find;
      Lookup(price, key);
      if price !in levels {
        return None;
      }
      ghost var at;
      r, at := levels[price].Locate(key);
      if r.Some? {
        ghost var i := Found(price, key);
        OnlyPosition(levels[price].Queue(), at, i);
      }
    }

    /** Settle a filled order of this side, and drop its level when it empties. */
    method Settle(price: Price, filled: Order, quantity: real)
      requires Valid() && Find(View(), price, filled.Key()).Some?
      requires filled.remaining == Find(View(), price, filled.Key()).value.remaining - quantity
      modifies Repr
      ensures Valid() && fresh(Repr - old(Repr))
      ensures View() == Books.Settle(old(View()), price, filled)
    {
      hide InOrder, Indexed, Total, Flatten, Find, Store, Without;
      ghost var was := Rungs();
      ghost var at := Found(price, filled.Key());
      FlattenDrop(side, was, price, at);
      FlattenStore(side, was, price, at, filled);
      var level := levels[price];
      level.UpdateFill(filled, quantity, at);
      DropIfEmpty(price, was, if filled.remaining == 0.0 then Drop(was[price], at) else was[price][at := filled]);
    }

    /** Drop a level that holds no order any more. */
    method DropIfEmpty(price: Price, ghost was: Ladder, ghost queue: seq<Order>)
      requires this in Repr && price in levels && was.Keys == levels.Keys
      requires forall p :: p in levels ==>
        && levels[p] in Repr && levels[p].price == p && levels[p].Valid()
        && levels[p].Queue() == (if p == price then queue else was[p])
      requires forall p :: p in was && p != price ==> was[p] != []
      modifies this
      ensures Valid() && Repr == old(Repr)
      ensures View() == Flatten(side, SetQueue(was, price, queue))
    {
      hide InOrder, Indexed, Total, Flatten;
      InOrderEmpty(levels[price].orders);
      if levels[price].orders == map[] {
        levels := levels - {price};
      }
      RungsAre(SetQueue(was, price, queue));
    }

    /** Take an order of this side off the book. */
    method Remove(price: Price, key: Key) returns (r: Option<Order>)
      requires Valid()
      modifies Repr
      ensures Valid() && fresh(Repr - old(Repr))
      ensures r == Find(old(View()), price, key)
      ensures View() == Without(old(View()), price, key)
    {
      hide InOrder, Indexed, Total, Flatten, Find, Without;
      ghost var was := Rungs();
      Lookup(price, key);
      if price !in levels {
        FlattenMiss(side, was, price, key);
        return None;
      }
      var level := levels[price];
      ghost var at;
      LevelMiss(price, key);
      ghost var i: nat := 0;
      if key in level.index {
        i := Found(price, key);
        FlattenDrop(side, was, price, i);
      }
      r, at := level.Remove(key);
      if r.Some? {
        OnlyPosition(was[price], at, i);
        DropIfEmpty(price, was, Drop(was[price], at));
      } else {
        RungsAre(was);
      }
    }

    lemma LevelMiss(price: Price, key: Key)
      requires Valid() && price in levels
      ensures key !in levels[price].index ==> Without(View(), price, key) == View()
    {
      hide Indexed, InOrder;
      if key !in levels[price].index {
        IndexedQueue(levels[price].orders, levels[price].index, levels[price].next, key);
        FlattenMiss(side, Rungs(), price, key);
      }
    }

    /** The best level and the order at its front, if the side holds any order. */
    method Top() returns (r: Option<Order>)
      requires Valid()
      ensures r.None? <==> View() == []
      ensures r.Some? ==> View() != [] && View()[0].order == r.value
    {
      hide InOrder, Indexed, Total;
      if levels == map[] {
        assert Rungs() == map[];
        return None;
      }
      var best := Best(side, levels.Keys);
      assert Rungs().Keys == levels.Keys;
      FlattenStep(side, Rungs(), best);
      var o := levels[best].Top();
      r := Some(o);
    }

    method SetState(price: Price, key: Key, state: OrderState)
      requires Valid() && Find(View(), price, key).Some?
      modifies Repr
      ensures Valid() && fresh(Repr - old(Repr))
      ensures View() == Store(old(View()), price, key, Find(old(View()), price, key).value.(state := state))
    {
      hide InOrder, Indexed, Total, Flatten, Find, Store, Without;
      ghost var was := Rungs();
      ghost var at := Found(price, key);
      ghost var found: Order := was[price][at];
      ghost var o := found.(state := state);
      FlattenStore(side, was, price, at, o);
      levels[price].SetState(key, state, at);
      RungsAre(was[price := was[price][at := o]]);
    }

    /** Aggregated depth, read off the levels' running totals in price order. */
    method Depth() returns (depth: seq<BookLevel>)
      requires Valid()
      ensures depth == Ladders.Depth(View())
    {
      hide InOrder, Indexed, Flatten, Ladders.Depth, Total;
      depth := [];
      var rest := levels;
      ghost var ladder := Rungs();
      assert ladder.Keys == levels.Keys;
      assert depth + Ladders.Depth(Flatten(side, ladder)) == Ladders.Depth(View());
      while rest != map[]
        invariant rest.Keys == ladder.Keys
        invariant forall p :: p in rest ==>
          p in levels && rest[p] == levels[p] && ladder[p] == levels[p].Queue() && ladder[p] != []
        invariant depth + Ladders.Depth(Flatten(side, ladder)) == Ladders.Depth(View())
        decreases |rest|
      {
        var best := Best(side, rest.Keys);
        DepthStep(side, ladder, best);
        Assoc(depth, [BookLevel(best, rest[best].total)], Ladders.Depth(Flatten(side, ladder - {best})));
        depth := depth + [BookLevel(best, rest[best].total)];
        rest, ladder := rest - {best}, ladder - {best};
      }
      DepthEmpty(side, ladder);
    }
  }

  lemma DepthEmpty(side: Side, ladder: Ladder)
    requires ladder.Keys == {}
    ensures Ladders.Depth(Flatten(side, ladder)) == []
  {
    assert ladder == map[];
  }

  lemma DepthStep(side: Side, ladder: Ladder, best: Price)
    requires IsBest(side, ladder.Keys, best) && ladder[best] != []
    ensures Ladders.Depth(Flatten(side, ladder))
         == [BookLevel(best, Total(ladder[best]))] + Ladders.Depth(Flatten(side, ladder - {best}))
  {
    FlattenStep(side, ladder, best);
    FlattenMembers(side, ladder - {best});
    DepthOfLevel(best, ladder[best], Flatten(side, ladder - {best}));
  }

  // ---------------------------------------------------------------- the order book

  ghost predicate Matchable(book: Book) {
    && Live(book.bids) && Live(book.asks)
    && KeyedByEffectivePrice(book.bids) && KeyedByEffectivePrice(book.asks)
  }

  /** One pass of the loop, as the two settlements it performs. */
  lemma MatchStep(book: Book, trades: seq<Trade>)
    requires Matchable(book) && TopsCross(book)
    ensures var bid, ask := book.bids[0].order, book.asks[0].order;
            var t := TradeTops(bid, ask);
            var after := Book(Books.Settle(book.bids, t.buyer.EffectivePrice(), t.buyer),
                              Books.Settle(book.asks, t.seller.EffectivePrice(), t.seller));
            && Find(book.bids, bid.EffectivePrice(), bid.Key()) == Some(bid)
            && Find(book.asks, ask.EffectivePrice(), ask.Key()) == Some(ask)
            && Matchable(after) && |after.bids| + |after.asks| < |book.bids| + |book.asks|
            && trades + Match(book).trades == (trades + [t]) + Match(after).trades
            && Match(book).book == Match(after).book
  {
    var bid, ask := book.bids[0].order, book.asks[0].order;
    assert book.bids[0] in book.bids && book.asks[0] in book.asks;
    var t := TradeTops(bid, ask);
    var after := AfterTops(book);
    assert forall r :: r in book.bids[1..] ==> r in book.bids;
    assert forall r :: r in book.asks[1..] ==> r in book.asks;
    assert after.bids == Books.Settle(book.bids, t.buyer.EffectivePrice(), t.buyer);
    assert after.asks == Books.Settle(book.asks, t.seller.EffectivePrice(), t.seller);
    Assoc(trades, [t], Match(after).trades);
  }

  datatype Reply = Ok(order: Order) | Err(error: Books.BookError)

  class OrderBook {
    const instrument: InstrumentId
    const bids: Levels
    const asks: Levels

    ghost predicate Valid()
      reads this, bids, bids.Repr, asks, asks.Repr
    {
      && bids in bids.Repr && asks in asks.Repr && bids.Repr !! asks.Repr
      && bids.Valid() && bids.side == Buy
      && asks.Valid() && asks.side == Sell
    }

    /** The book as two priority sequences. */
    ghost function View(): Book
      requires Valid()
      reads this, bids, bids.Repr, asks, asks.Repr
    {
      Book(bids.View(), asks.View())
    }

    constructor (instrument: InstrumentId)
      ensures Valid() && View() == Book([], []) && this.instrument == instrument
      ensures fresh(bids.Repr) && fresh(asks.Repr)
    {
      hide Flatten, InOrder, Indexed, Total, Levels.View;
      this.instrument := instrument;
      bids := new Levels(Buy);
      asks := new Levels(Sell);
    }

    /** The level map an order of this side lives in. */
    function On(side: Side): Levels {
      if side.Buy? then bids else asks
    }

    /** Trade two resting orders with each other and settle both. */
    method TradeBoth(bid: Order, ask: Order) returns (t: Trade)
      requires Valid()
      requires Find(View().bids, bid.EffectivePrice(), bid.Key()) == Some(bid)
      requires Find(View().asks, ask.EffectivePrice(), ask.Key()) == Some(ask)
      modifies bids.Repr, asks.Repr
      ensures Valid() && fresh(bids.Repr - old(bids.Repr)) && fresh(asks.Repr - old(asks.Repr))
      ensures t == TradeTops(bid, ask)
      ensures View() == Book(Books.Settle(old(View()).bids, t.buyer.EffectivePrice(), t.buyer),
                             Books.Settle(old(View()).asks, t.seller.EffectivePrice(), t.seller))
    {
      hide Levels.Valid, Levels.View, Books.Settle, Find;
      var price := if bid.arrival < ask.arrival then bid.price else ask.price;
      var quantity := MinReal(bid.remaining, ask.remaining);
      var buyer := ApplyFill(bid, quantity, price);
      var seller := ApplyFill(ask, quantity, price);
      bids.Settle(buyer.EffectivePrice(), buyer, quantity);
      asks.Settle(seller.EffectivePrice(), seller, quantity);
      t := Trade(buyer, seller, price, quantity);
    }

    /** While the best bid crosses the best ask, trade the two tops at the earlier one's price. */
    method MatchTrades() returns (trades: seq<Trade>)
      requires Valid() && Matchable(View())
      modifies bids.Repr, asks.Repr
      ensures Valid() && fresh(bids.Repr - old(bids.Repr)) && fresh(asks.Repr - old(asks.Repr))
      ensures Matchable(View())
      ensures MatchResult(trades, View()) == Match(old(View()))
    {
      hide Match, Levels.Valid, Levels.View, Books.Settle, Find, ApplyFill, TradeTops;
      trades := [];
      assert trades + Match(View()).trades == Match(View()).trades;
      while true
        invariant Valid() && fresh(bids.Repr - old(bids.Repr)) && fresh(asks.Repr - old(asks.Repr))
        invariant Matchable(View())
        invariant Match(old(View())).trades == trades + Match(View()).trades
        invariant Match(old(View())).book == Match(View()).book
        decreases |View().bids| + |View().asks|
      {
        var b := bids.Top();
        var a := asks.Top();
        if b.None? || a.None? || b.value.EffectivePrice() < a.value.EffectivePrice() {
          MatchStops(View());
          break;
        }
        MatchStep(View(), trades);
        var t := TradeBoth(b.value, a.value);
        trades := trades + [t];
      }
    }

    /** File an order under its effective price. */
    method Insert(o: Order)
      requires Valid() && Find(View().On(o.side), o.EffectivePrice(), o.Key()).None?
      modifies bids.Repr, asks.Repr
      ensures Valid() && fresh(bids.Repr - old(bids.Repr)) && fresh(asks.Repr - old(asks.Repr))
      ensures View() == Sides(o.side,
                Enqueue(o.side, old(View()).On(o.side), Resting(o.EffectivePrice(), o)),
                old(View()).On(Opposite(o.side)))
    {
      hide Levels.Valid, Levels.View, Enqueue, Find;
      On(o.side).Push(o.EffectivePrice(), o);
    }

    /** Recover the last snapshot that carries an identity from a list of trades. */
    static method Recover(trades: seq<Trade>, key: Key) returns (final: Option<Order>)
      ensures final == Trading.LastNamed(trades, key)
    {
      final := None;
      for i := 0 to |trades|
        invariant final == Trading.LastNamed(trades[..i], key)
      {
        assert trades[..i + 1][..i] == trades[..i];
        if trades[i].buyer.Key() == key {
          final := Some(trades[i].buyer);
        }
        if trades[i].seller.Key() == key {
          final := Some(trades[i].seller);
        }
      }
      assert trades[..|trades|] == trades;
    }

    /** Take an order off the book; an active order comes back Cancelled. */
    method Remove(key: Key, side: Side, price: Price) returns (r: Option<Order>)
      requires Valid()
      modifies bids.Repr, asks.Repr
      ensures Valid() && fresh(bids.Repr - old(bids.Repr)) && fresh(asks.Repr - old(asks.Repr))
      ensures match Books.Remove(old(View()), key, side, price)
              case Done(book, o) => View() == book && r == Some(o)
              case Refused(_) => View() == old(View()) && r == None
    {
      hide Levels.Valid, Levels.View, Find, Without;
      ghost var s := On(side).View();
      var removed := On(side).Remove(price, key);
      if removed.None? {
        Filing.WithoutMiss(s, price, key);
        return None;
      }
      var o := removed.value;
      r := Some(if o.state.IsActive() then o.(state := Cancelled) else o);
    }

    /** Insert, match, cancel what is left of a market order, and report the order's final state. */
    method Add(o: Order) returns (trades: seq<Trade>, final: Option<Order>)
      requires Valid() && Uncrossed(View()) && o.remaining > 0.0
      requires LaterThan(o, View().On(Opposite(o.side)))
      requires Find(View().On(o.side), o.EffectivePrice(), o.Key()).None?
      modifies bids.Repr, asks.Repr
      ensures Valid() && fresh(bids.Repr - old(bids.Repr)) && fresh(asks.Repr - old(asks.Repr))
      ensures Live(old(View()).On(Opposite(o.side)))
      ensures View() == Trading.Add(old(View()), o).book
      ensures trades == Trading.Add(old(View()), o).trades
      ensures final == Some(Trading.Returned(o, Trading.Add(old(View()), o)))
    {
      hide Levels.Valid, Levels.View, Enqueue, Find, Match, Uncrossed, Sweep, Store, Without, Live, LaterThan;
      hide Trading.Add, Matchable;
      var booked := o.(state := Booked);
      AddMeans(View(), o);
      AddTradesFit(View(), o);
      Insert(booked);
      trades := MatchTrades();
      final := Conclude(o, trades, Trading.Add(old(View()), o));
    }

    /** After matching: cancel the remainder of a market order, and find the order's final state in
        the book or, when it is no longer there, in the trades. */
    method Conclude(o: Order, trades: seq<Trade>, ghost added: Trading.AddResult) returns (final: Option<Order>)
      requires Valid() && AddEnds(o, MatchResult(trades, View()), added)
      requires trades == added.trades
      requires added.final.remaining == 0.0 ==>
                 trades != [] && Trading.Mine(o.side, trades[|trades| - 1]).Key() == o.Key()
      modifies bids.Repr, asks.Repr
      ensures Valid() && fresh(bids.Repr - old(bids.Repr)) && fresh(asks.Repr - old(asks.Repr))
      ensures View() == added.book && final == Some(Trading.Returned(o, added))
    {
      hide Levels.Valid, Levels.View, Find, Store, Without;
      var price, key := o.EffectivePrice(), o.Key();
      var located := On(o.side).Locate(price, key);
      match located {
        case Some(resting) =>
          var state := resting.state;
          if o.orderType.Market? && resting.remaining > 0.0 {
            On(o.side).SetState(price, key, Cancelled);
            state := Cancelled;
          }
          if state == Cancelled {
            final := Remove(key, o.side, price);
          } else {
            final := located;
          }
        case None =>
          final := Recover(trades, key);
      }
    }

    /** Rest an order at its plain price without matching. */
    method InsertOnly(o: Order) returns (r: Reply)
      requires Valid()
      modifies bids.Repr, asks.Repr
      ensures Valid() && fresh(bids.Repr - old(bids.Repr)) && fresh(asks.Repr - old(asks.Repr))
      ensures match Books.InsertOnly(old(View()), o)
              case Done(book, order) => View() == book && r == Ok(order)
              case Refused(error) => View() == old(View()) && r == Err(error)
    {
      hide Levels.Valid, Levels.View, Find, Enqueue;
      if o.remaining <= 0.0 {
        return Err(Books.InvalidExecution);
      }
      var rested := o.(state := if o.cum == 0.0 then Booked else PartialFill);
      var present := On(o.side).Locate(o.price, o.Key());
      if present.Some? {
        return Err(Books.DuplicateOrder);
      }
      On(o.side).Push(o.price, rested);
      r := Ok(rested);
    }

    /** Apply one fill to an order resting at `price`. */
    method Execute(key: Key, side: Side, price: Price, quantity: real, fillPrice: Price) returns (r: Reply)
      requires Valid()
      modifies bids.Repr, asks.Repr
      ensures Valid() && fresh(bids.Repr - old(bids.Repr)) && fresh(asks.Repr - old(asks.Repr))
      ensures match Books.Execute(old(View()), key, side, price, quantity, fillPrice)
              case Done(book, order) => View() == book && r == Ok(order)
              case Refused(error) => View() == old(View()) && r == Err(error)
    {
      hide Levels.Valid, Levels.View, Books.Settle;
      if quantity <= 0.0 || fillPrice <= 0.0 {
        return Err(Books.InvalidExecution);
      }
      var located := On(side).Locate(price, key);
      if located.None? {
        return Err(Books.OrderNotFound);
      }
      if !located.value.state.IsActive() || quantity > located.value.remaining {
        return Err(Books.InvalidExecution);
      }
      var filled := ApplyFill(located.value, quantity, fillPrice);
      Filing.Found(On(side).View(), price, key);
      On(side).Settle(price, filled, quantity);
      r := Ok(filled);
    }

    /** The aggregated depth of both sides. */
    method BuildBook() returns (bidDepth: seq<BookLevel>, askDepth: seq<BookLevel>)
      requires Valid()
      ensures bidDepth == Depth(View().bids) && askDepth == Depth(View().asks)
    {
      hide Levels.Valid, Levels.View, Depth;
      bidDepth := bids.Depth();
      askDepth := asks.Depth();
    }
  }

  /** An order just filed is found where it was filed, and taking it out undoes the filing. */
  lemma {:induction false} EnqueueAccess(side: Side, s: seq<Resting>, r: Resting, o: Order)
    requires Find(s, r.level, r.Key()).None? && o.Key() == r.Key()
    ensures var t := Enqueue(side, s, r);
            && Find(t, r.level, r.Key()) == Some(r.order)
            && Find(Store(t, r.level, r.Key(), o), r.level, r.Key()) == Some(o)
            && Without(Store(t, r.level, r.Key(), o), r.level, r.Key()) == s
  {
    if s != [] && Rank(side, s[0].level) <= Rank(side, r.level) {
      EnqueueAccess(side, s[1..], r, o);
      var t := Enqueue(side, s[1..], r);
      assert Enqueue(side, s, r)[1..] == t;
      var u := Store(t, r.level, r.Key(), o);
      assert ([s[0]] + u)[1..] == u;
    } else {
      var u := [Resting(r.level, o)] + s;
      assert u[1..] == s;
    }
  }

  ghost function Inserted(book: Book, o: Order): Book {
    Sides(o.side, Enqueue(o.side, book.On(o.side), Resting(o.EffectivePrice(), o)), book.On(Opposite(o.side)))
  }

  /** The fate of the incoming order, read off the book after matching. */
  ghost predicate AddEnds(o: Order, matched: MatchResult, added: Trading.AddResult) {
    var price, key, own := o.EffectivePrice(), o.Key(), matched.book.On(o.side);
    match Find(own, price, key)
    case None => matched.book == added.book && added.final.remaining == 0.0
    case Some(resting) =>
      added.final.remaining != 0.0 &&
      if o.orderType.Limit? then
        resting.state != Cancelled && matched.book == added.book && resting == added.final
      else
        var cancelled := Store(own, price, key, resting.(state := Cancelled));
        && resting.remaining > 0.0
        && Find(cancelled, price, key) == Some(added.final) && added.final.state == Cancelled
        && added.book == matched.book.With(o.side, Without(cancelled, price, key))
  }

  ghost predicate AddTrades(o: Order, opposite: seq<Resting>, added: Trading.AddResult) {
    && |added.trades| <= |opposite|
    && (forall k :: 0 <= k < |added.trades| ==>
          && Trading.Mine(o.side, added.trades[k]).Key() == o.Key()
          && Trading.Theirs(o.side, added.trades[k]).Key() == opposite[k].Key())
  }

  lemma AddTradesFit(book: Book, o: Order)
    requires o.remaining > 0.0 && Live(book.On(Opposite(o.side)))
    ensures var added := Trading.Add(book, o);
            && AddTrades(o, book.On(Opposite(o.side)), added)
            && (added.final.remaining == 0.0 ==>
                  && added.trades != []
                  && added.final == Trading.Mine(o.side, added.trades[|added.trades| - 1]))
    ensures var swept := Sweep(o.(state := Booked), book.On(Opposite(o.side)));
            && swept.incoming.remaining >= 0.0 && swept.incoming.Key() == o.Key()
            && (swept.incoming.remaining > 0.0 ==> swept.incoming.state.IsActive())
  {
    var booked, opposite := o.(state := Booked), book.On(Opposite(o.side));
    Trading.SweepShape(booked, opposite);
    hide Sweep;
    var trades := Sweep(booked, opposite).trades;
    Trading.MineKeepsIdentity(booked, opposite, trades);
    forall k | 0 <= k < |trades|
      ensures Trading.Mine(o.side, trades[k]).Key() == o.Key()
      ensures Trading.Theirs(o.side, trades[k]).Key() == opposite[k].Key()
    {
      assert Trading.TradeFits(booked, opposite, trades, k);
      assert SameOrder(Trading.Before(booked, trades, k + 1), booked);
    }
    if trades != [] {
      assert Trading.TradeFits(booked, opposite, trades, |trades| - 1);
    }
  }

  /** What the steps of add amount to: the loop on the inserted order, then the fate of the
      remainder. */
  lemma AddMeans(book: Book, o: Order)
    requires Uncrossed(book) && o.remaining > 0.0
    requires LaterThan(o, book.On(Opposite(o.side)))
    requires Find(book.On(o.side), o.EffectivePrice(), o.Key()).None?
    ensures Live(book.On(Opposite(o.side))) && Matchable(Inserted(book, o.(state := Booked)))
    ensures var booked := o.(state := Booked);
            var matched, added := Match(Inserted(book, booked)), Trading.Add(book, o);
            matched.trades == added.trades && AddEnds(o, matched, added)
  {
    hide Sweep, Match, Find, Enqueue, AddEnds, Trading.Add;
    var booked := o.(state := Booked);
    InsertedMatchable(book, booked);
    MatchIsSweep(book, booked);
    AddTradesFit(book, o);
    AddEndsSwept(book, o, Match(Inserted(book, booked)));
  }

  lemma AddEndsSwept(book: Book, o: Order, matched: MatchResult)
    requires o.remaining > 0.0 && Live(book.On(Opposite(o.side)))
    requires Find(book.On(o.side), o.EffectivePrice(), o.Key()).None?
    requires var swept := Sweep(o.(state := Booked), book.On(Opposite(o.side)));
             && (swept.incoming.remaining > 0.0 ==> swept.incoming.state.IsActive())
             && swept.incoming.remaining >= 0.0 && swept.incoming.Key() == o.Key()
             && matched == MatchResult(swept.trades, Sides(o.side,
                  if swept.incoming.remaining == 0.0 then book.On(o.side)
                  else Enqueue(o.side, book.On(o.side), Resting(o.EffectivePrice(), swept.incoming)),
                  swept.opposite))
    ensures matched.trades == Trading.Add(book, o).trades && AddEnds(o, matched, Trading.Add(book, o))
  {
    hide Sweep, Find, Enqueue, Store, Without, Live;
    var left := Sweep(o.(state := Booked), book.On(Opposite(o.side))).incoming;
    if left.remaining > 0.0 {
      EnqueueAccess(o.side, book.On(o.side), Resting(o.EffectivePrice(), left), left.(state := Cancelled));
    }
  }

  lemma InsertedMatchable(book: Book, o: Order)
    requires Uncrossed(book) && o.remaining > 0.0
    ensures Matchable(Inserted(book, o))
  {
    EnqueueMembers(o.side, book.On(o.side), Resting(o.EffectivePrice(), o));
  }

  lemma MatchStops(book: Book)
    requires Live(book.bids) && Live(book.asks) && !TopsCross(book)
    ensures Match(book) == MatchResult([], book)
  {
  }
}
