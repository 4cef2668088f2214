/** One side of an order book, seen two ways: as a ladder (a map from price to the FIFO queue at
    that price, the shape of the BTreeMap of price levels in src/core/orderbook.rs) and as the
    plain sequence of resting orders in price-time priority that the ladder stands for. */
module Ladders {
  import opened Orders
  import opened Collections

  /** A resting order together with the price of the level it is filed under. */
  datatype Resting = Resting(level: Price, order: Order)
  {
    function Key(): Key { order.Key() }
    predicate At(price: Price, key: Key) { level == price && order.Key() == key }
  }

  type Ladder = map<Price, seq<Order>>

  /** Smaller rank is better priority: bids descend, asks ascend. */
  function Rank(side: Side, price: Price): real {
    if side.Buy? then 0.0 - price else price
  }

  // ---------------------------------------------------------------- best price of a level map

  ghost predicate IsBest(side: Side, prices: set<Price>, best: Price) {
    best in prices && forall p :: p in prices ==> Rank(side, best) <= Rank(side, p)
  }

  lemma {:induction false} BestExists(side: Side, prices: set<Price>)
    requires prices != {}
    ensures exists b :: IsBest(side, prices, b)
  {
    var p :| p in prices;
    if prices == {p} {
      assert IsBest(side, prices, p);
    } else {
      var others := prices - {p};
      assert prices == others + {p};
      assert others != {};
      BestExists(side, others);
      var q :| IsBest(side, others, q);
      assert IsBest(side, prices, if Rank(side, p) <= Rank(side, q) then p else q);
    }
  }

  /** first_key_value of the asks, last_key_value of the bids. */
  function Best(side: Side, prices: set<Price>): (best: Price)
    requires prices != {}
    ensures IsBest(side, prices, best)
  {
    BestExists(side, prices);
    var best :| best in prices && forall p :: p in prices ==> Rank(side, best) <= Rank(side, p);
    best
  }

  // ---------------------------------------------------------------- ladder to priority sequence

  function Tag(level: Price, queue: seq<Order>): (tagged: seq<Resting>)
    ensures |tagged| == |queue|
    ensures forall i :: 0 <= i < |queue| ==> tagged[i] == Resting(level, queue[i])
  {
    seq(|queue|, i requires 0 <= i < |queue| => Resting(level, queue[i]))
  }

  ghost function Flatten(side: Side, ladder: Ladder): seq<Resting>
    decreases |ladder|
  {
    if ladder == map[] then [] else
    var best := Best(side, ladder.Keys);
    Tag(best, ladder[best]) + Flatten(side, ladder - {best})
  }

  /** Every entry of the flattened ladder comes from its own level, and every level is covered. */
  lemma {:induction false} FlattenMembers(side: Side, ladder: Ladder)
    ensures forall r :: r in Flatten(side, ladder) <==> r.level in ladder && r.order in ladder[r.level]
    decreases |ladder|
  {
    if ladder != map[] {
      var best := Best(side, ladder.Keys);
      FlattenMembers(side, ladder - {best});
      var head, tail := Tag(best, ladder[best]), Flatten(side, ladder - {best});
      assert forall r :: r in head <==> r.level == best && r.order in ladder[best] by {
        forall r: Resting | r.level == best && r.order in ladder[best] ensures r in head {
          var i :| 0 <= i < |ladder[best]| && ladder[best][i] == r.order;
          assert head[i] == r;
        }
      }
    }
  }

  // ---------------------------------------------------------------- operations on the sequence

  /** Price-time insertion: behind every order of better or equal price. */
  function Enqueue(side: Side, s: seq<Resting>, r: Resting): seq<Resting> {
    if s == [] || Rank(side, r.level) < Rank(side, s[0].level) then [r] + s
    else [s[0]] + Enqueue(side, s[1..], r)
  }

  function Find(s: seq<Resting>, price: Price, key: Key): Option<Order> {
    if s == [] then None
    else if s[0].At(price, key) then Some(s[0].order)
    else Find(s[1..], price, key)
  }

  function Without(s: seq<Resting>, price: Price, key: Key): seq<Resting> {
    if s == [] then []
    else if s[0].At(price, key) then s[1..]
    else [s[0]] + Without(s[1..], price, key)
  }

  /** Overwrite in place: the order keeps its place in the queue. */
  function Store(s: seq<Resting>, price: Price, key: Key, o: Order): seq<Resting> {
    if s == [] then []
    else if s[0].At(price, key) then [Resting(price, o)] + s[1..]
    else [s[0]] + Store(s[1..], price, key, o)
  }

  // ---------------------------------------------------------------- refinement of the operations

  /** The best level is unique, so the ladder may be opened at any price known to be best. */
  lemma FlattenStep(side: Side, ladder: Ladder, best: Price)
    requires IsBest(side, ladder.Keys, best)
    ensures Flatten(side, ladder) == Tag(best, ladder[best]) + Flatten(side, ladder - {best})
  {
    assert Best(side, ladder.Keys) == best;
  }

  ghost predicate Precedes(side: Side, a: Ladder, b: Ladder) {
    forall p, q :: p in a && q in b ==> Rank(side, p) < Rank(side, q)
  }

  /** Two ladders, one entirely better than the other, flatten one after the other. */
  lemma {:induction false} FlattenConcat(side: Side, a: Ladder, b: Ladder)
    requires Precedes(side, a, b)
    ensures Flatten(side, a + b) == Flatten(side, a) + Flatten(side, b)
    decreases |a|, 1
  {
    if a == map[] {
      assert a + b == b;
      assert [] + Flatten(side, b) == Flatten(side, b);
    } else {
      FlattenConcatStep(side, a, b, Best(side, a.Keys));
    }
  }

  lemma {:induction false} FlattenConcatStep(side: Side, a: Ladder, b: Ladder, best: Price)
    requires Precedes(side, a, b) && IsBest(side, a.Keys, best)
    ensures Flatten(side, a + b) == Flatten(side, a) + Flatten(side, b)
    decreases |a|, 0
  {
    hide Flatten, Tag;
    assert IsBest(side, (a + b).Keys, best) && best !in b;
    assert (a + b)[best] == a[best];
    var rest := a - {best};
    assert (a + b) - {best} == rest + b;
    FlattenStep(side, a + b, best);
    FlattenStep(side, a, best);
    FlattenConcat(side, rest, b);
    Assoc(Tag(best, a[best]), Flatten(side, rest), Flatten(side, b));
  }

  ghost function BetterPart(side: Side, ladder: Ladder, price: Price): Ladder {
    map p | p in ladder && Rank(side, p) < Rank(side, price) :: ladder[p]
  }

  ghost function WorsePart(side: Side, ladder: Ladder, price: Price): Ladder {
    map p | p in ladder && Rank(side, price) < Rank(side, p) :: ladder[p]
  }

  lemma FlattenOne(side: Side, price: Price, queue: seq<Order>)
    ensures Flatten(side, map[price := queue]) == Tag(price, queue)
  {
    var one: Ladder := map[price := queue];
    assert one.Keys == {price};
    FlattenStep(side, one, price);
    assert one - {price} == map[];
  }

  /** Whatever queue stands at `price`, the rest of the ladder flattens to the same two parts
      around it: the better levels before, the worse levels after. */
  lemma FlattenAround(side: Side, ladder: Ladder, price: Price, queue: seq<Order>)
    ensures Flatten(side, ladder[price := queue])
         == Flatten(side, BetterPart(side, ladder, price)) + Tag(price, queue)
          + Flatten(side, WorsePart(side, ladder, price))
  {
    var a, b := BetterPart(side, ladder, price), WorsePart(side, ladder, price);
    var one: Ladder := map[price := queue];
    assert ladder[price := queue] == a + (one + b);
    FlattenConcat(side, a, one + b);
    FlattenConcat(side, one, b);
    FlattenOne(side, price, queue);
    Assoc(Flatten(side, a), Tag(price, queue), Flatten(side, b));
  }

  lemma FlattenCut(side: Side, ladder: Ladder, price: Price)
    ensures Flatten(side, ladder - {price})
         == Flatten(side, BetterPart(side, ladder, price)) + Flatten(side, WorsePart(side, ladder, price))
  {
    var a, b := BetterPart(side, ladder, price), WorsePart(side, ladder, price);
    assert ladder - {price} == a + b;
    FlattenConcat(side, a, b);
  }

  ghost predicate AllBetter(side: Side, s: seq<Resting>, price: Price) {
    forall r :: r in s ==> Rank(side, r.level) < Rank(side, price)
  }

  ghost predicate AllWorse(side: Side, s: seq<Resting>, price: Price) {
    forall r :: r in s ==> Rank(side, price) < Rank(side, r.level)
  }

  lemma PartsApart(side: Side, ladder: Ladder, price: Price)
    ensures AllBetter(side, Flatten(side, BetterPart(side, ladder, price)), price)
    ensures AllWorse(side, Flatten(side, WorsePart(side, ladder, price)), price)
  {
    FlattenMembers(side, BetterPart(side, ladder, price));
    FlattenMembers(side, WorsePart(side, ladder, price));
  }

  lemma {:induction false} EnqueueBetween(side: Side, a: seq<Resting>, b: seq<Resting>, r: Resting)
    requires forall x :: x in a ==> Rank(side, x.level) <= Rank(side, r.level)
    requires AllWorse(side, b, r.level)
    ensures Enqueue(side, a + b, r) == a + [r] + b
  {
    if a == [] {
      assert a + b == b;
      assert a + [r] + b == [r] + b;
      assert b != [] ==> b[0] in b;
    } else {
      EnqueueBetween(side, a[1..], b, r);
      assert (a + b)[1..] == a[1..] + b;
      assert a + [r] + b == [a[0]] + (a[1..] + [r] + b);
    }
  }

  function QueueAt(ladder: Ladder, price: Price): seq<Order> {
    if price in ladder then ladder[price] else []
  }

  lemma FlattenHere(side: Side, ladder: Ladder, price: Price)
    ensures Flatten(side, ladder)
         == Flatten(side, BetterPart(side, ladder, price)) + Tag(price, QueueAt(ladder, price))
          + Flatten(side, WorsePart(side, ladder, price))
  {
    if price in ladder {
      assert ladder[price := ladder[price]] == ladder;
      FlattenAround(side, ladder, price, ladder[price]);
    } else {
      assert ladder - {price} == ladder;
      FlattenCut(side, ladder, price);
      var x := Flatten(side, BetterPart(side, ladder, price));
      assert x + Tag(price, []) == x;
    }
  }

  /** Appending to the queue of its level (opening the level if needed) is price-time insertion. */
  lemma FlattenPush(side: Side, ladder: Ladder, price: Price, o: Order)
    ensures Flatten(side, ladder[price := QueueAt(ladder, price) + [o]])
         == Enqueue(side, Flatten(side, ladder), Resting(price, o))
  {
    hide Flatten, Enqueue, BetterPart, WorsePart;
    var queue := QueueAt(ladder, price);
    FlattenAround(side, ladder, price, queue + [o]);
    FlattenHere(side, ladder, price);
    PartsApart(side, ladder, price);
    var before, after := Flatten(side, BetterPart(side, ladder, price)), Flatten(side, WorsePart(side, ladder, price));
    var head := before + Tag(price, queue);
    EnqueueBetween(side, head, after, Resting(price, o));
    assert before + Tag(price, queue + [o]) + after == head + [Resting(price, o)] + after;
  }

  ghost predicate DistinctKeys(queue: seq<Order>) {
    forall i, j :: 0 <= i < j < |queue| ==> queue[i].Key() != queue[j].Key()
  }

  function Drop<T>(s: seq<T>, i: nat): seq<T>
    requires i < |s|
  {
    s[..i] + s[i + 1..]
  }

  /** Put a new queue at a level; a level whose queue is empty is removed from the ladder. */
  function SetQueue(ladder: Ladder, price: Price, queue: seq<Order>): Ladder {
    if queue == [] then ladder - {price} else ladder[price := queue]
  }

  ghost predicate NoneAt(s: seq<Resting>, price: Price, key: Key) {
    forall r :: r in s ==> !r.At(price, key)
  }

  /** The three accesses by key, on a sequence split at the first entry they select. */
  lemma {:induction false} AccessSplit(a: seq<Resting>, r: Resting, b: seq<Resting>, o: Order)
    requires NoneAt(a, r.level, r.Key())
    ensures Find(a + [r] + b, r.level, r.Key()) == Some(r.order)
    ensures Without(a + [r] + b, r.level, r.Key()) == a + b
    ensures Store(a + [r] + b, r.level, r.Key(), o) == a + [Resting(r.level, o)] + b
  {
    if a == [] {
      assert a + [r] + b == [r] + b;
      assert a + b == b;
      assert a + [Resting(r.level, o)] + b == [Resting(r.level, o)] + b;
    } else {
      AccessSplit(a[1..], r, b, o);
      assert (a + [r] + b)[1..] == a[1..] + [r] + b;
      assert a + b == [a[0]] + (a[1..] + b);
      assert a + [Resting(r.level, o)] + b == [a[0]] + (a[1..] + [Resting(r.level, o)] + b);
    }
  }

  lemma {:induction false} AccessMiss(s: seq<Resting>, price: Price, key: Key)
    requires NoneAt(s, price, key)
    ensures Find(s, price, key) == None
    ensures Without(s, price, key) == s
  {
    if s != [] {
      AccessMiss(s[1..], price, key);
    }
  }

  lemma TagParts(price: Price, queue: seq<Order>, i: nat, o: Order)
    requires i < |queue|
    ensures var a, b := Tag(price, queue[..i]), Tag(price, queue[i + 1..]);
            && Tag(price, queue) == a + [Resting(price, queue[i])] + b
            && Tag(price, queue[i := o]) == a + [Resting(price, o)] + b
            && Tag(price, Drop(queue, i)) == a + [] + b
  {
  }

  lemma Regroup<T>(x: seq<T>, a: seq<T>, m: seq<T>, b: seq<T>, z: seq<T>)
    ensures x + (a + m + b) + z == (x + a) + m + (b + z)
  {
  }

  /** The entry at position i of a level splits the flattened ladder, with no match before it. */
  lemma FlattenSplit(side: Side, ladder: Ladder, price: Price, i: nat)
    returns (a: seq<Resting>, b: seq<Resting>)
    requires price in ladder && i < |ladder[price]| && DistinctKeys(ladder[price])
    ensures NoneAt(a, price, ladder[price][i].Key())
    ensures Flatten(side, ladder) == a + [Resting(price, ladder[price][i])] + b
    ensures Flatten(side, SetQueue(ladder, price, Drop(ladder[price], i))) == a + b
  {
    hide Flatten, BetterPart, WorsePart;
    var queue := ladder[price];
    var before, after := Flatten(side, BetterPart(side, ladder, price)), Flatten(side, WorsePart(side, ladder, price));
    FlattenHere(side, ladder, price);
    PartsApart(side, ladder, price);
    var x, y := Tag(price, queue[..i]), Tag(price, queue[i + 1..]);
    a, b := before + x, y + after;
    TagParts(price, queue, i, queue[i]);
    Regroup(before, x, [Resting(price, queue[i])], y, after);
    Regroup(before, x, [], y, after);
    assert a + [] == a;
    if Drop(queue, i) == [] {
      FlattenCut(side, ladder, price);
      assert before + Tag(price, []) == before;
    } else {
      FlattenAround(side, ladder, price, Drop(queue, i));
    }
  }

  /** Finding and deleting one order of one level, on the flattened sequence. */
  lemma FlattenDrop(side: Side, ladder: Ladder, price: Price, i: nat)
    requires price in ladder && i < |ladder[price]| && DistinctKeys(ladder[price])
    ensures var s, key := Flatten(side, ladder), ladder[price][i].Key();
            && Find(s, price, key) == Some(ladder[price][i])
            && Without(s, price, key) == Flatten(side, SetQueue(ladder, price, Drop(ladder[price], i)))
  {
    var a, b := FlattenSplit(side, ladder, price, i);
    AccessSplit(a, Resting(price, ladder[price][i]), b, ladder[price][i]);
  }

  /** Overwriting one order of one level, on the flattened sequence. */
  lemma FlattenStore(side: Side, ladder: Ladder, price: Price, i: nat, o: Order)
    requires price in ladder && i < |ladder[price]| && DistinctKeys(ladder[price])
    ensures Store(Flatten(side, ladder), price, ladder[price][i].Key(), o)
         == Flatten(side, ladder[price := ladder[price][i := o]])
  {
    hide Flatten, BetterPart, WorsePart;
    var queue := ladder[price];
    var before, after := Flatten(side, BetterPart(side, ladder, price)), Flatten(side, WorsePart(side, ladder, price));
    FlattenHere(side, ladder, price);
    FlattenAround(side, ladder, price, queue[i := o]);
    PartsApart(side, ladder, price);
    var x, y := Tag(price, queue[..i]), Tag(price, queue[i + 1..]);
    TagParts(price, queue, i, o);
    Regroup(before, x, [Resting(price, queue[i])], y, after);
    Regroup(before, x, [Resting(price, o)], y, after);
    AccessSplit(before + x, Resting(price, queue[i]), y + after, o);
  }

  /** A miss at the level is a miss in the sequence. */
  lemma FlattenMiss(side: Side, ladder: Ladder, price: Price, key: Key)
    requires forall o :: o in QueueAt(ladder, price) ==> o.Key() != key
    ensures NoneAt(Flatten(side, ladder), price, key)
    ensures Find(Flatten(side, ladder), price, key) == None
    ensures Without(Flatten(side, ladder), price, key) == Flatten(side, ladder)
  {
    FlattenMembers(side, ladder);
    AccessMiss(Flatten(side, ladder), price, key);
  }

  // ---------------------------------------------------------------- aggregated depth

  datatype BookLevel = BookLevel(price: Price, quantity: real)

  function Total(queue: seq<Order>): real {
    if queue == [] then 0.0 else queue[0].remaining + Total(queue[1..])
  }

  /** Depth recomputed order by order: consecutive orders of one level are added up. */
  function Depth(s: seq<Resting>): seq<BookLevel> {
    if s == [] then [] else
    var deeper := Depth(s[1..]);
    if deeper != [] && deeper[0].price == s[0].level
    then [BookLevel(s[0].level, s[0].order.remaining + deeper[0].quantity)] + deeper[1..]
    else [BookLevel(s[0].level, s[0].order.remaining)] + deeper
  }

  lemma {:induction false} DepthHead(s: seq<Resting>)
    ensures s == [] <==> Depth(s) == []
    ensures s != [] ==> Depth(s)[0].price == s[0].level
  {
  }

  lemma {:induction false} DepthOfLevel(price: Price, queue: seq<Order>, rest: seq<Resting>)
    requires queue != [] && forall r :: r in rest ==> r.level != price
    ensures Depth(Tag(price, queue) + rest) == [BookLevel(price, Total(queue))] + Depth(rest)
  {
    var s := Tag(price, queue) + rest;
    assert s[1..] == Tag(price, queue[1..]) + rest;
    if |queue| == 1 {
      assert s[1..] == rest;
      DepthHead(rest);
    } else {
      DepthOfLevel(price, queue[1..], rest);
    }
  }

  lemma {:induction false} TotalAppend(a: seq<Order>, b: seq<Order>)
    ensures Total(a + b) == Total(a) + Total(b)
  {
    if a == [] {
      assert a + b == b;
    } else {
      TotalAppend(a[1..], b);
      assert (a + b)[1..] == a[1..] + b;
    }
  }

  lemma TotalAround(a: seq<Order>, o: Order, b: seq<Order>)
    ensures Total(a + [o] + b) == Total(a) + o.remaining + Total(b)
  {
    TotalAppend(a + [o], b);
    TotalAppend(a, [o]);
    assert [o][1..] == [];
  }

  lemma TotalAccess(queue: seq<Order>, i: nat, o: Order)
    requires i < |queue|
    ensures Total(Drop(queue, i)) == Total(queue) - queue[i].remaining
    ensures Total(queue[i := o]) == Total(queue) - queue[i].remaining + o.remaining
  {
    assert queue == queue[..i] + [queue[i]] + queue[i + 1..];
    TotalAround(queue[..i], queue[i], queue[i + 1..]);
    TotalAppend(queue[..i], queue[i + 1..]);
    assert queue[i := o] == queue[..i] + [o] + queue[i + 1..];
    TotalAround(queue[..i], o, queue[i + 1..]);
  }
}
