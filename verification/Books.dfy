/** The non-matching write paths of a book (insert_only, execute and remove of
    src/core/orderbook.rs) on priority sequences. */
module Books {
  import opened Orders
  import opened Ladders
  import opened Matching
  import opened Filing

  datatype BookError = OrderNotFound | DuplicateOrder | InvalidExecution

  datatype Outcome = Done(book: Book, order: Order) | Refused(error: BookError)

  /** Settle a filled order in place: drop it when nothing remains, overwrite it otherwise. */
  function Settle(s: seq<Resting>, price: Price, filled: Order): seq<Resting> {
    if filled.remaining == 0.0 then Without(s, price, filled.Key())
    else Store(s, price, filled.Key(), filled)
  }

  /** Rest an order at its plain price without matching; its state follows its fills so far. */
  function InsertOnly(book: Book, o: Order): Outcome {
    if o.remaining <= 0.0 then Refused(InvalidExecution) else
    var rested := o.(state := if o.cum == 0.0 then Booked else PartialFill);
    var s := book.On(o.side);
    if Find(s, o.price, o.Key()).Some? then Refused(DuplicateOrder)
    else Done(book.With(o.side, Enqueue(o.side, s, Resting(o.price, rested))), rested)
  }

  /** Apply one fill to an order resting at `price`. */
  function Execute(book: Book, key: Key, side: Side, price: Price, quantity: real, fillPrice: Price): Outcome {
    if quantity <= 0.0 || fillPrice <= 0.0 then Refused(InvalidExecution) else
    var s := book.On(side);
    match Find(s, price, key)
    case None => Refused(OrderNotFound)
    case Some(o) =>
      if !o.state.IsActive() || quantity > o.remaining then Refused(InvalidExecution) else
      var filled := ApplyFill(o, quantity, fillPrice);
      Done(book.With(side, Settle(s, price, filled)), filled)
  }

  /** Take an order off the book; an active order comes back Cancelled. */
  function Remove(book: Book, key: Key, side: Side, price: Price): Outcome {
    match Find(book.On(side), price, key)
    case None => Refused(OrderNotFound)
    case Some(o) =>
      Done(book.With(side, Without(book.On(side), price, key)),
           if o.state.IsActive() then o.(state := Cancelled) else o)
  }

  // ---------------------------------------------------------------- what they do, entry by entry

  lemma {:induction false} FoundIff(s: seq<Resting>, price: Price, key: Key)
    ensures Find(s, price, key).Some? <==> exists e :: e in s && e.level == price && e.Key() == key
  {
    if Find(s, price, key).Some? {
      Found(s, price, key);
    } else {
      forall e | e in s && e.Key() == key ensures e.level != price {
        NotThere(s, price, key, e);
      }
    }
  }

  lemma {:induction false} NotThere(s: seq<Resting>, price: Price, key: Key, e: Resting)
    requires Find(s, price, key).None? && e in s
    ensures !e.At(price, key)
  {
    if s[0] != e {
      NotThere(s[1..], price, key, e);
    }
  }

  /** An order rests exactly when something of it is open and it does not rest at that price already;
      its state then tells whether anything was filled before. */
  lemma InsertOutcome(book: Book, o: Order)
    ensures var r, s := InsertOnly(book, o), book.On(o.side);
            && (r.Done? <==> o.remaining > 0.0 && !exists e :: e in s && e.level == o.price && e.Key() == o.Key())
            && (r.Done? ==>
                  && r.order == o.(state := if o.cum != 0.0 then PartialFill else Booked)
                  && r.book.On(Opposite(o.side)) == book.On(Opposite(o.side))
                  && forall e :: e in r.book.On(o.side) <==> e == Resting(o.price, r.order) || e in s)
  {
    FoundIff(book.On(o.side), o.price, o.Key());
    var r := InsertOnly(book, o);
    if r.Done? {
      EnqueueMembers(o.side, book.On(o.side), Resting(o.price, r.order));
    }
  }

  /** A fill is applied exactly when an active order with that identity rests at that price with enough
      open; it stays, with less open, unless nothing is left of it. */
  lemma ExecuteOutcome(book: Book, key: Key, side: Side, price: Price, quantity: real, fillPrice: Price, e: Resting)
    requires Distinct(book.On(side)) && e in book.On(side) && e.level == price && e.Key() == key
    ensures var r, s := Execute(book, key, side, price, quantity, fillPrice), book.On(side);
            && (r.Done? <==> 0.0 < quantity <= e.order.remaining && fillPrice > 0.0 && e.order.state.IsActive())
            && (r.Done? ==>
                  && SameOrder(r.order, e.order) && r.order.remaining == e.order.remaining - quantity
                  && r.order.cum == e.order.cum + quantity
                  && r.book.On(Opposite(side)) == book.On(Opposite(side))
                  && forall x :: x in r.book.On(side) <==>
                       (x in s && x != e) || (x == Resting(price, r.order) && r.order.remaining > 0.0))
  {
    FindMember(book.On(side), e);
    var r := Execute(book, key, side, price, quantity, fillPrice);
    if r.Done? {
      Alone(book.On(side), e);
      if r.order.remaining == 0.0 {
        WithoutMembers(book.On(side), price, key);
      } else {
        StoreMembers(book.On(side), price, key, r.order);
      }
    }
  }

  lemma Alone(s: seq<Resting>, e: Resting)
    requires Distinct(s) && e in s
    ensures forall x :: x in s ==> (x == e <==> x.Key() == e.Key())
  {
    var i :| 0 <= i < |s| && s[i] == e;
    forall x | x in s ensures x == e <==> x.Key() == e.Key() {
      var j :| 0 <= j < |s| && s[j] == x;
      if i < j {
        assert s[i].Key() != s[j].Key();
      } else if j < i {
        assert s[j].Key() != s[i].Key();
      }
    }
  }

  /** Nothing is filled of an order that does not rest at that price. */
  lemma ExecuteMiss(book: Book, key: Key, side: Side, price: Price, quantity: real, fillPrice: Price)
    requires forall e :: e in book.On(side) ==> !e.At(price, key)
    ensures Execute(book, key, side, price, quantity, fillPrice).Refused?
  {
    FoundIff(book.On(side), price, key);
  }

  /** Exactly the order with that identity at that price leaves, and says Cancelled unless it had ended. */
  lemma RemoveOutcome(book: Book, key: Key, side: Side, price: Price)
    requires Distinct(book.On(side))
    ensures var r, s := Remove(book, key, side, price), book.On(side);
            && (r.Done? <==> exists e :: e in s && e.level == price && e.Key() == key)
            && (r.Done? ==>
                  && r.book.On(Opposite(side)) == book.On(Opposite(side))
                  && (forall x :: x in r.book.On(side) <==> x in s && x.Key() != key)
                  && exists e :: e in s && e.level == price && e.Key() == key
                       && r.order == e.order.(state := if e.order.state.IsActive() then Cancelled else e.order.state))
  {
    FoundIff(book.On(side), price, key);
    if Remove(book, key, side, price).Done? {
      Found(book.On(side), price, key);
      WithoutMembers(book.On(side), price, key);
      assert Resting(price, Find(book.On(side), price, key).value) in book.On(side);
    }
  }
}
