/** What adding an order to an uncrossed book does (OrderBook::add of src/core/orderbook.rs),
    stated through the sweep, and the guarantees a trading participant relies on. */
module Trading {
  import opened Orders
  import opened Ladders
  import opened Matching

  datatype AddResult = AddResult(book: Book, trades: seq<Trade>, final: Order)

  /** Sweep, then rest what is left of a limit order and cancel what is left of a market order. */
  function Add(book: Book, o: Order): AddResult
    requires o.remaining >= 0.0 && Live(book.On(Opposite(o.side)))
  {
    var swept := Sweep(o.(state := Booked), book.On(Opposite(o.side)));
    var after := book.With(Opposite(o.side), swept.opposite);
    if swept.incoming.remaining == 0.0 then
      AddResult(after, swept.trades, swept.incoming)
    else if o.orderType.Market? then
      AddResult(after, swept.trades, swept.incoming.(state := Cancelled))
    else
      AddResult(after.With(o.side, Enqueue(o.side, book.On(o.side), Resting(o.price, swept.incoming))),
                swept.trades, swept.incoming)
  }

  // ---------------------------------------------------------------- shape of a sweep

  function Mine(side: Side, t: Trade): Order {
    if side.Buy? then t.buyer else t.seller
  }

  function Theirs(side: Side, t: Trade): Order {
    if side.Buy? then t.seller else t.buyer
  }

  /** The incoming order just before trade k. */
  function Before(o: Order, trades: seq<Trade>, k: nat): Order
    requires k <= |trades|
  {
    if k == 0 then o else Mine(o.side, trades[k - 1])
  }

  /** Trade k takes the k-th opposite order in priority, at that order's own limit price, and
      carries the incoming order one fill further. */
  ghost predicate TradeFits(o: Order, opposite: seq<Resting>, trades: seq<Trade>, k: nat)
    requires k < |trades|
  {
    var t := trades[k];
    && k < |opposite|
    && t.price == opposite[k].order.price
    && 0.0 < t.quantity <= opposite[k].order.remaining
    && t.quantity <= Before(o, trades, k).remaining
    && Theirs(o.side, t) == ApplyFill(opposite[k].order, t.quantity, t.price)
    && Mine(o.side, t) == ApplyFill(Before(o, trades, k), t.quantity, t.price)
    && Crosses(o, opposite[k].level)
    && (k + 1 < |trades| ==> Theirs(o.side, t).remaining == 0.0)
  }

  ghost predicate TradesFit(o: Order, opposite: seq<Resting>, trades: seq<Trade>) {
    forall k :: 0 <= k < |trades| ==> TradeFits(o, opposite, trades, k)
  }

  /** What is left of the opposite side after n trades: the orders behind the n-th, preceded by
      the n-th itself when it was only partly filled. */
  function Leftover(side: Side, opposite: seq<Resting>, trades: seq<Trade>): seq<Resting>
    requires |trades| <= |opposite|
  {
    var n := |trades|;
    if n == 0 || Theirs(side, trades[n - 1]).remaining == 0.0 then opposite[n..]
    else [Resting(opposite[n - 1].level, Theirs(side, trades[n - 1]))] + opposite[n..]
  }

  /** The sweep in closed form. */
  lemma {:induction false} SweepShape(o: Order, opposite: seq<Resting>)
    requires o.remaining >= 0.0 && Live(opposite)
    ensures var s := Sweep(o, opposite);
            && |s.trades| <= |opposite|
            && TradesFit(o, opposite, s.trades)
            && s.incoming == Before(o, s.trades, |s.trades|)
            && s.opposite == Leftover(o.side, opposite, s.trades)
            && s.incoming.remaining >= 0.0
    decreases |opposite|, o.remaining != 0.0
  {
    if o.remaining == 0.0 || opposite == [] || !Crosses(o, opposite[0].level) {
    } else {
      SweepStep(o, opposite);
      var resting := opposite[0].order;
      var quantity := MinReal(o.remaining, resting.remaining);
      var t := TradeWith(o, resting, quantity, resting.price);
      var o', r' := ApplyFill(o, quantity, resting.price), ApplyFill(resting, quantity, resting.price);
      var left := Refill(opposite, r');
      var deeper := Sweep(o', left).trades;
      assert opposite[0] in opposite;
      if r'.remaining == 0.0 {
        SweepShape(o', left);
        ShapeShifts(o, opposite, t, deeper);
      } else {
        assert o'.remaining == 0.0 && deeper == [];
        assert TradeFits(o, opposite, [t], 0);
      }
    }
  }

  lemma ShapeShifts(o: Order, opposite: seq<Resting>, t: Trade, deeper: seq<Trade>)
    requires opposite != [] && TradeFits(o, opposite, [t], 0) && Theirs(o.side, t).remaining == 0.0
    requires |deeper| <= |opposite[1..]| && TradesFit(Mine(o.side, t), opposite[1..], deeper)
    ensures var trades := [t] + deeper;
            && TradesFit(o, opposite, trades)
            && Before(o, trades, |trades|) == Before(Mine(o.side, t), deeper, |deeper|)
            && Leftover(o.side, opposite, trades) == Leftover(o.side, opposite[1..], deeper)
  {
    var trades := [t] + deeper;
    forall k | 0 <= k < |trades| ensures TradeFits(o, opposite, trades, k) {
      if k > 0 {
        assert TradeFits(Mine(o.side, t), opposite[1..], deeper, k - 1);
        assert Before(o, trades, k) == Before(Mine(o.side, t), deeper, k - 1);
      }
    }
  }

  // ---------------------------------------------------------------- trading safety

  /** Prices, limits and progress of every trade of one incoming order: always the incoming order,
      always at a resting limit the incoming order accepts, never better later than earlier. */
  lemma TradesAreSafe(o: Order, opposite: seq<Resting>)
    requires o.remaining >= 0.0 && Live(opposite) && LimitsOnly(opposite)
    requires Prioritised(Opposite(o.side), opposite)
    ensures var trades := Sweep(o, opposite).trades;
            && (forall k :: 0 <= k < |trades| ==>
                 && Mine(o.side, trades[k]).Key() == o.Key()
                 && trades[k].quantity > 0.0
                 && Crosses(o, trades[k].price)
                 && trades[k].price == Theirs(o.side, trades[k]).price)
            && (forall j, k :: 0 <= j < k < |trades| ==>
                 Rank(Opposite(o.side), trades[j].price) <= Rank(Opposite(o.side), trades[k].price))
  {
    hide Sweep, ApplyFill, Live;
    SweepShape(o, opposite);
    var trades := Sweep(o, opposite).trades;
    MineKeepsIdentity(o, opposite, trades);
    forall k | 0 <= k < |trades|
      ensures Mine(o.side, trades[k]).Key() == o.Key() && Crosses(o, trades[k].price) && trades[k].quantity > 0.0
      ensures trades[k].price == opposite[k].level == Theirs(o.side, trades[k]).price
    {
      TradeIsSafe(o, opposite, trades, k);
    }
  }

  /** The counterparty of a trade, where it rested. */
  function Party(side: Side, t: Trade): Resting {
    Resting(t.price, Theirs(side, t))
  }

  /** Price-time priority in execution: counterparties come in strict priority order, and nothing
      left on the book had priority over any of them. */
  lemma TradesByPriority(o: Order, opposite: seq<Resting>)
    requires o.remaining >= 0.0 && Live(opposite) && LimitsOnly(opposite)
    requires Prioritised(Opposite(o.side), opposite)
    ensures var s := Sweep(o, opposite);
            && (forall j, k :: 0 <= j < k < |s.trades| ==>
                 Ahead(Opposite(o.side), Party(o.side, s.trades[j]), Party(o.side, s.trades[k])))
            && (forall r, k :: r in s.opposite && 0 <= k < |s.trades| ==>
                 !Ahead(Opposite(o.side), r, Party(o.side, s.trades[k])))
  {
    SweepShape(o, opposite);
    var side, trades, left := Opposite(o.side), Sweep(o, opposite).trades, Sweep(o, opposite).opposite;
    hide Sweep, Live;
    forall k | 0 <= k < |trades| ensures Places(Party(o.side, trades[k]), opposite[k]) {
      assert TradeFits(o, opposite, trades, k) && opposite[k] in opposite;
    }
    forall j, k | 0 <= j < k < |trades| ensures Ahead(side, Party(o.side, trades[j]), Party(o.side, trades[k])) {
      assert Ahead(side, opposite[j], opposite[k]);
    }
    forall r, k | r in left && 0 <= k < |trades| ensures !Ahead(side, r, Party(o.side, trades[k])) {
      var i := LeftoverPlace(o, opposite, trades, r);
      assert k == i || Ahead(side, opposite[k], opposite[i]);
    }
  }

  /** Same place in the queue: level and arrival. */
  predicate Places(a: Resting, b: Resting) {
    a.level == b.level && a.order.arrival == b.order.arrival
  }

  /** Where an order left on the book stood: at the last trade or behind it. */
  lemma LeftoverPlace(o: Order, opposite: seq<Resting>, trades: seq<Trade>, r: Resting) returns (i: nat)
    requires |trades| <= |opposite| && TradesFit(o, opposite, trades) && LimitsOnly(opposite)
    requires r in Leftover(o.side, opposite, trades)
    ensures |trades| <= i + 1 && i < |opposite| && Places(r, opposite[i])
  {
    var n, left := |trades|, Leftover(o.side, opposite, trades);
    var j :| 0 <= j < |left| && left[j] == r;
    if n == 0 || Theirs(o.side, trades[n - 1]).remaining == 0.0 {
      i := n + j;
    } else {
      assert TradeFits(o, opposite, trades, n - 1);
      i := n - 1 + j;
    }
  }

  lemma TradeIsSafe(o: Order, opposite: seq<Resting>, trades: seq<Trade>, k: nat)
    requires k < |trades| && TradeFits(o, opposite, trades, k) && LimitsOnly(opposite)
    requires SameOrder(Before(o, trades, k), o)
    ensures Mine(o.side, trades[k]).Key() == o.Key() && Crosses(o, trades[k].price) && trades[k].quantity > 0.0
    ensures trades[k].price == opposite[k].level == Theirs(o.side, trades[k]).price
  {
    assert opposite[k] in opposite;
  }

  lemma {:induction false} MineKeepsIdentity(o: Order, opposite: seq<Resting>, trades: seq<Trade>)
    requires TradesFit(o, opposite, trades)
    ensures forall k :: 0 <= k <= |trades| ==> SameOrder(Before(o, trades, k), o)
  {
    if trades != [] {
      var n := |trades| - 1;
      var shorter := trades[..n];
      forall k | 0 <= k < n ensures TradeFits(o, opposite, shorter, k) {
        assert TradeFits(o, opposite, trades, k);
        assert Before(o, shorter, k) == Before(o, trades, k);
      }
      MineKeepsIdentity(o, opposite, shorter);
      assert TradeFits(o, opposite, trades, n);
      forall k | 0 <= k <= |trades| ensures SameOrder(Before(o, trades, k), o) {
        assert Before(o, shorter, n) == Before(o, trades, n);
        if k <= n {
          assert Before(o, shorter, k) == Before(o, trades, k);
        }
      }
    }
  }

  // ---------------------------------------------------------------- the reported final state

  /** The last snapshot that carries an identity in a list of trades; within one trade the seller's
      is looked at last. */
  function LastNamed(trades: seq<Trade>, key: Key): Option<Order> {
    if trades == [] then None else
    var last := trades[|trades| - 1];
    if last.seller.Key() == key then Some(last.seller)
    else if last.buyer.Key() == key then Some(last.buyer)
    else LastNamed(trades[..|trades| - 1], key)
  }

  /** The last trade filled a buy order against a sell order of the same identity. */
  predicate AgainstItself(side: Side, trades: seq<Trade>, key: Key) {
    side.Buy? && trades != [] && trades[|trades| - 1].seller.Key() == key
  }

  /** Searching the trades finds the incoming order's last snapshot if and only if the last trade
      was not a purchase from its own identity. */
  lemma LastNamedExact(side: Side, trades: seq<Trade>, key: Key)
    requires trades != []
    requires var last := trades[|trades| - 1];
             Mine(side, last).Key() == key && Mine(side, last).side != Theirs(side, last).side
    ensures LastNamed(trades, key) == Some(Mine(side, trades[|trades| - 1])) <==> !AgainstItself(side, trades, key)
  {
  }

  /** The final state add reports for the incoming order. */
  function Returned(o: Order, added: AddResult): Order {
    var named := LastNamed(added.trades, o.Key());
    if added.final.remaining == 0.0 && named.Some? then named.value
    else added.final
  }

  /** Known before the call: the opposite order n is the one that completes the incoming order. */
  ghost predicate CompletedAt(o: Order, opposite: seq<Resting>, n: nat) {
    && n < |opposite| && Open(opposite[..n]) < o.remaining <= Open(opposite[..n + 1])
    && forall i :: 0 <= i <= n ==> Crosses(o, opposite[i].level)
  }

  /** The sweep completes the order at its trade n exactly then. */
  lemma {:induction false} CompletedExact(o: Order, opposite: seq<Resting>, n: nat)
    requires o.remaining > 0.0 && Live(opposite)
    ensures var s := Sweep(o, opposite);
            CompletedAt(o, opposite, n) <==> s.incoming.remaining == 0.0 && |s.trades| == n + 1
    decreases |opposite|
  {
    if opposite != [] && Crosses(o, opposite[0].level) {
      SweepStep(o, opposite);
      var resting, rest := opposite[0].order, opposite[1..];
      var quantity := MinReal(o.remaining, resting.remaining);
      var o', r' := ApplyFill(o, quantity, resting.price), ApplyFill(resting, quantity, resting.price);
      assert opposite[0] in opposite;
      CompletedFirst(o, opposite, n);
      hide CompletedAt;
      if o.remaining > resting.remaining {
        assert Refill(opposite, r') == rest && Live(rest);
        CompletedBehind(o, o', opposite, n);
        if n > 0 {
          CompletedExact(o', rest, n - 1);
        } else {
          assert o'.remaining > 0.0;
          SomethingTraded(o', rest);
        }
      }
    }
  }

  lemma SomethingTraded(o: Order, opposite: seq<Resting>)
    requires o.remaining > 0.0 && Live(opposite)
    ensures Sweep(o, opposite).incoming.remaining == 0.0 ==> Sweep(o, opposite).trades != []
  {
  }

  lemma CompletedFirst(o: Order, opposite: seq<Resting>, n: nat)
    requires o.remaining > 0.0 && Live(opposite) && opposite != [] && Crosses(o, opposite[0].level)
    ensures o.remaining <= opposite[0].order.remaining ==> (CompletedAt(o, opposite, n) <==> n == 0)
  {
    assert Open(opposite[..0]) == 0.0;
    if n < |opposite| {
      OpenSplit(opposite[..n + 1]);
      OpenPositive(opposite[..n + 1][1..]);
      if n > 0 {
        OpenSplit(opposite[..n]);
        OpenPositive(opposite[..n][1..]);
      }
    }
  }

  lemma CompletedBehind(o: Order, after: Order, opposite: seq<Resting>, n: nat)
    requires Live(opposite) && opposite != [] && Crosses(o, opposite[0].level)
    requires o.remaining > opposite[0].order.remaining && SameOrder(after, o)
    requires after.remaining == o.remaining - opposite[0].order.remaining
    ensures CompletedAt(o, opposite, n) <==> n > 0 && CompletedAt(after, opposite[1..], n - 1)
  {
    if n < |opposite| {
      OpenSplit(opposite[..n + 1]);
      if n > 0 {
        OpenSplit(opposite[..n]);
        assert opposite[..n][1..] == opposite[1..][..n - 1] && opposite[..n + 1][1..] == opposite[1..][..n];
        assert forall i :: 1 <= i <= n ==> opposite[i] == opposite[1..][i - 1];
        assert forall i :: 0 <= i <= n - 1 ==> opposite[1..][i] == opposite[i + 1];
      } else {
        assert opposite[..1][1..] == [];
      }
    }
  }

  lemma OpenSplit(s: seq<Resting>)
    requires s != []
    ensures Open(s) == s[0].order.remaining + Open(s[1..])
  {
  }

  lemma {:induction false} OpenPositive(s: seq<Resting>)
    requires Live(s)
    ensures Open(s) >= 0.0
  {
    if s != [] {
      OpenPositive(s[1..]);
      assert s[0] in s;
    }
  }

  /** A buy order that its own identity, resting opposite, will complete. */
  ghost predicate CompletedByItself(o: Order, opposite: seq<Resting>) {
    o.side.Buy? && exists n: nat :: CompletedAt(o, opposite, n) && opposite[n].Key() == o.Key()
  }

  /** The reported state is the sweep's final state if and only if the order, as the book stands
      before the call, will not be completed by its own identity. */
  lemma ReturnedExact(book: Book, o: Order)
    requires o.remaining > 0.0 && Live(book.On(Opposite(o.side)))
    requires forall r :: r in book.On(Opposite(o.side)) ==> r.order.side == Opposite(o.side)
    ensures var added := Add(book, o);
            Returned(o, added) == added.final <==> !CompletedByItself(o, book.On(Opposite(o.side)))
  {
    hide Sweep, CompletedByItself;
    var booked, opposite := o.(state := Booked), book.On(Opposite(o.side));
    SweepShape(booked, opposite);
    var added, trades := Add(book, o), Sweep(booked, opposite).trades;
    MineKeepsIdentity(booked, opposite, trades);
    ItselfForeseen(booked, opposite);
    ItselfSame(o, opposite);
    if added.final.remaining == 0.0 {
      var n := |trades| - 1;
      assert TradeFits(booked, opposite, trades, n) && opposite[n] in opposite;
      assert SameOrder(Before(booked, trades, n + 1), booked);
      LastNamedExact(o.side, trades, o.Key());
    }
  }

  lemma ItselfSame(o: Order, opposite: seq<Resting>)
    ensures CompletedByItself(o.(state := Booked), opposite) <==> CompletedByItself(o, opposite)
  {
    assert forall n: nat :: CompletedAt(o.(state := Booked), opposite, n) <==> CompletedAt(o, opposite, n);
  }

  /** Foreseeing it is right. */
  lemma ItselfForeseen(o: Order, opposite: seq<Resting>)
    requires o.remaining > 0.0 && Live(opposite)
    ensures var s := Sweep(o, opposite);
            CompletedByItself(o, opposite) <==> s.incoming.remaining == 0.0 && AgainstItself(o.side, s.trades, o.Key())
  {
    SweepShape(o, opposite);
    var s := Sweep(o, opposite);
    hide Sweep, CompletedAt, Live;
    if s.trades != [] {
      var last := |s.trades| - 1;
      assert TradeFits(o, opposite, s.trades, last);
      CompletedExact(o, opposite, last);
    }
    forall n: nat | CompletedAt(o, opposite, n) ensures s.incoming.remaining == 0.0 && |s.trades| == n + 1 {
      CompletedExact(o, opposite, n);
    }
  }

  /** In particular when nothing opposite carries the order's identity, and for every sell order. */
  lemma ReturnedOwn(book: Book, o: Order)
    requires o.remaining > 0.0 && Live(book.On(Opposite(o.side)))
    requires o.side.Sell? || forall r :: r in book.On(Opposite(o.side)) ==> r.Key() != o.Key()
    ensures Returned(o, Add(book, o)) == Add(book, o).final
  {
    var booked, opposite := o.(state := Booked), book.On(Opposite(o.side));
    SweepShape(booked, opposite);
    var added, trades := Add(book, o), Sweep(booked, opposite).trades;
    MineKeepsIdentity(booked, opposite, trades);
    hide Sweep;
    if added.final.remaining == 0.0 {
      var n := |trades| - 1;
      assert TradeFits(booked, opposite, trades, n) && opposite[n] in opposite;
      assert SameOrder(Before(booked, trades, n + 1), booked);
    }
  }

  /** Such a purchase: a buy order completed against a resting sell order of the same identity. */
  function SelfBid(): Order {
    LimitOrder("S", QUOTE_ORDER_ID, 1, Buy, 10.0, 5.0, 2)
  }

  function SelfBook(): Book {
    Book([], [Resting(10.0, LimitOrder("S", QUOTE_ORDER_ID, 1, Sell, 10.0, 5.0, 1).(state := Booked))])
  }

  /** There the reported state is the seller's, not the incoming order's. */
  lemma SelfTradeReported()
    ensures Uncrossed(SelfBook()) && LaterThan(SelfBid(), SelfBook().asks) && Live(SelfBook().asks)
    ensures var added := Add(SelfBook(), SelfBid());
            && Returned(SelfBid(), added).side.Sell? && added.final.side.Buy?
            && Returned(SelfBid(), added) != added.final
  {
    var o, asks := SelfBid().(state := Booked), SelfBook().asks;
    var ask := asks[0].order;
    SweepStep(o, asks);
    assert ApplyFill(ask, 5.0, 10.0).remaining == 0.0 && ApplyFill(o, 5.0, 10.0).remaining == 0.0;
    assert Sweep(o, asks).trades == [TradeWith(o, ask, 5.0, 10.0)];
  }

  // ---------------------------------------------------------------- quantity is conserved

  function Volume(trades: seq<Trade>): real {
    if trades == [] then 0.0 else trades[0].quantity + Volume(trades[1..])
  }

  function Open(s: seq<Resting>): real {
    if s == [] then 0.0 else s[0].order.remaining + Open(s[1..])
  }

  /** What the incoming order gains, the opposite side loses. */
  lemma {:induction false} SweepConserves(o: Order, opposite: seq<Resting>)
    requires o.remaining >= 0.0 && Live(opposite)
    ensures var s := Sweep(o, opposite);
            && Volume(s.trades) == o.remaining - s.incoming.remaining
            && Volume(s.trades) == Open(opposite) - Open(s.opposite)
    decreases |opposite|, o.remaining != 0.0
  {
    if o.remaining == 0.0 || opposite == [] || !Crosses(o, opposite[0].level) {
    } else {
      SweepStep(o, opposite);
      var resting := opposite[0].order;
      var quantity := MinReal(o.remaining, resting.remaining);
      assert opposite[0] in opposite;
      SweepConserves(ApplyFill(o, quantity, resting.price),
                     Refill(opposite, ApplyFill(resting, quantity, resting.price)));
    }
  }

  // ---------------------------------------------------------------- the book stays uncrossed

  /** A later arrival goes behind its equals and keeps the priority of everybody. */
  lemma {:induction false} EnqueuePrioritised(side: Side, s: seq<Resting>, r: Resting)
    requires Prioritised(side, s) && LaterThan(r.order, s)
    ensures Prioritised(side, Enqueue(side, s, r))
  {
    if s != [] && Rank(side, s[0].level) <= Rank(side, r.level) {
      EnqueuePrioritised(side, s[1..], r);
      EnqueueMembers(side, s[1..], r);
      var tail := Enqueue(side, s[1..], r);
      forall j | 0 <= j < |tail| ensures Ahead(side, s[0], tail[j]) {
        assert tail[j] in tail && s[0] in s;
        if tail[j] != r {
          var i :| 0 <= i < |s[1..]| && s[1..][i] == tail[j];
          assert s[1 + i] == tail[j];
        }
      }
    } else if s != [] {
      forall j | 0 <= j < |s| ensures Ahead(side, r, s[j]) {
        assert j == 0 || Ahead(side, s[0], s[j]);
      }
    }
  }

  ghost predicate Levels(s: seq<Resting>, opposite: seq<Resting>) {
    forall r :: r in s ==> exists q :: q in opposite && q.level == r.level
  }

  ghost predicate Orderly(side: Side, s: seq<Resting>) {
    Live(s) && LimitsOnly(s) && Prioritised(side, s)
  }

  lemma SuffixKeeps(side: Side, s: seq<Resting>, n: nat)
    requires Orderly(side, s) && n <= |s|
    ensures Orderly(side, s[n..]) && Levels(s[n..], s)
  {
    assert forall r :: r in s[n..] ==> r in s;
  }

  lemma ReheadKeeps(side: Side, s: seq<Resting>, n: nat, o: Order)
    requires Orderly(side, s) && n < |s|
    requires o.remaining > 0.0 && o.orderType == s[n].order.orderType && o.price == s[n].order.price
    requires o.arrival == s[n].order.arrival
    ensures var t := [Resting(s[n].level, o)] + s[n + 1..]; Orderly(side, t) && Levels(t, s)
  {
    SuffixKeeps(side, s, n + 1);
    assert s[n] in s;
    var t := [Resting(s[n].level, o)] + s[n + 1..];
    forall r | r in t ensures exists q :: q in s && q.level == r.level {
      if r == t[0] {
        assert s[n].level == r.level;
      }
    }
  }

  lemma LeftoverKeeps(o: Order, opposite: seq<Resting>)
    requires o.remaining >= 0.0 && Orderly(Opposite(o.side), opposite)
    ensures var s := Sweep(o, opposite).opposite; Orderly(Opposite(o.side), s) && Levels(s, opposite)
  {
    SweepShape(o, opposite);
    hide Sweep, Prioritised, Levels, LimitsOnly;
    var trades, s := Sweep(o, opposite).trades, Sweep(o, opposite).opposite;
    var n := |trades|;
    if n == 0 || Theirs(o.side, trades[n - 1]).remaining == 0.0 {
      SuffixKeeps(Opposite(o.side), opposite, n);
    } else {
      assert TradeFits(o, opposite, trades, n - 1);
      ReheadKeeps(Opposite(o.side), opposite, n - 1, Theirs(o.side, trades[n - 1]));
    }
  }

  /** When the incoming order still has quantity, nothing it accepts is left on the other side. */
  lemma {:induction false} SweepExhausts(o: Order, opposite: seq<Resting>)
    requires o.remaining >= 0.0 && Live(opposite)
    ensures var s := Sweep(o, opposite);
            s.incoming.remaining > 0.0 && s.opposite != [] ==> !Crosses(o, s.opposite[0].level)
    decreases |opposite|, o.remaining != 0.0
  {
    if o.remaining == 0.0 || opposite == [] || !Crosses(o, opposite[0].level) {
    } else {
      SweepStep(o, opposite);
      var resting := opposite[0].order;
      var quantity := MinReal(o.remaining, resting.remaining);
      SweepExhausts(ApplyFill(o, quantity, resting.price),
                    Refill(opposite, ApplyFill(resting, quantity, resting.price)));
    }
  }

  lemma RemainderKeeps(o: Order, own: seq<Resting>, left: Order)
    requires Orderly(o.side, own) && SameOrder(left, o) && left.remaining > 0.0 && o.orderType.Limit?
    requires LaterThan(o, own)
    ensures Orderly(o.side, Enqueue(o.side, own, Resting(o.price, left)))
  {
    EnqueuePrioritised(o.side, own, Resting(o.price, left));
    EnqueueMembers(o.side, own, Resting(o.price, left));
  }

  lemma LevelsApart(side: Side, own: seq<Resting>, opposite: seq<Resting>, s: seq<Resting>)
    requires Quiet(side, own, opposite) && Levels(s, opposite)
    ensures Quiet(side, own, s)
  {
  }

  lemma RemainderApart(o: Order, own: seq<Resting>, s: seq<Resting>, left: Order)
    requires Quiet(o.side, own, s) && Prioritised(Opposite(o.side), s) && o.orderType.Limit?
    requires s == [] || !Crosses(o, s[0].level)
    ensures Quiet(o.side, Enqueue(o.side, own, Resting(o.price, left)), s)
  {
    NoCrossQuiet(o, s);
    EnqueueMembers(o.side, own, Resting(o.price, left));
  }

  /** Uncrossed, said side by side. */
  lemma UncrossedBySide(book: Book, side: Side)
    ensures Uncrossed(book) <==>
            && Orderly(side, book.On(side)) && Orderly(Opposite(side), book.On(Opposite(side)))
            && Quiet(side, book.On(side), book.On(Opposite(side)))
  {
  }

  /** A later-arriving order, limit or market, leaves an uncrossed book of limit orders in
      price-time priority behind it. */
  lemma AddKeepsUncrossed(book: Book, o: Order)
    requires Uncrossed(book) && o.remaining >= 0.0 && LaterThan(o, book.On(o.side))
    ensures Uncrossed(Add(book, o).book)
  {
    hide Uncrossed, Orderly, Quiet, Sweep, Enqueue, Levels, Prioritised, LimitsOnly;
    assert Live(book.On(Opposite(o.side))) by { UncrossedLive(book); }
    var own, opposite := book.On(o.side), book.On(Opposite(o.side));
    var b := o.(state := Booked);
    var swept := Sweep(b, opposite);
    UncrossedBySide(book, o.side);
    UncrossedBySide(Add(book, o).book, o.side);
    LeftoverKeeps(b, opposite);
    LevelsApart(o.side, own, opposite, swept.opposite);
    SweepShape(b, opposite);
    if swept.incoming.remaining > 0.0 && o.orderType.Limit? {
      SweepExhausts(b, opposite);
      MineKeepsIdentity(b, opposite, swept.trades);
      RemainderKeeps(b, own, swept.incoming);
      RestingPrioritised(Opposite(o.side), swept.opposite);
      RemainderApart(b, own, swept.opposite, swept.incoming);
    }
  }

  lemma UncrossedLive(book: Book)
    requires Uncrossed(book)
    ensures Live(book.bids) && Live(book.asks)
  {
  }

  lemma RestingPrioritised(side: Side, s: seq<Resting>)
    requires Orderly(side, s)
    ensures Prioritised(side, s)
  {
  }
}
