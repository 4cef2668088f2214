/** What expiring orders does to books and reports (expire_day_orders_at of
    src/core/exchange/mod.rs). */
module Expiry {
  import opened Orders
  import opened Ladders
  import opened Matching
  import opened Filing
  import opened Mirrors
  import opened Fills
  import opened Ledgers

  // ---------------------------------------------------------------- books without some orders

  /** What is left of a side without some identities, in order. */
  function Spared(s: seq<Resting>, gone: set<Key>): seq<Resting> {
    if s == [] then []
    else if s[0].Key() in gone then Spared(s[1..], gone)
    else [s[0]] + Spared(s[1..], gone)
  }

  /** Everything but the identities in `gone`, where it was. */
  ghost predicate Departed(was: BookMap, now: BookMap, gone: set<Key>) {
    forall i, side :: SideOf(now, i, side) == Spared(SideOf(was, i, side), gone)
  }

  lemma {:induction false} SparedNone(s: seq<Resting>, gone: set<Key>)
    requires forall e :: e in s ==> e.Key() !in gone
    ensures Spared(s, gone) == s
  {
    if s != [] {
      assert s[0] in s;
      SparedNone(s[1..], gone);
    }
  }

  lemma {:induction false} SparedTwice(s: seq<Resting>, a: set<Key>, b: set<Key>)
    ensures Spared(Spared(s, a), b) == Spared(s, a + b)
  {
    if s != [] {
      SparedTwice(s[1..], a, b);
      var t := Spared(s[1..], a);
      assert ([s[0]] + t)[1..] == t;
    }
  }

  /** Exactly the entries outside `gone` are left. */
  lemma {:induction false} SparedMeans(s: seq<Resting>, gone: set<Key>)
    ensures forall e :: e in Spared(s, gone) <==> e in s && e.Key() !in gone
  {
    if s != [] {
      SparedMeans(s[1..], gone);
      assert s == [s[0]] + s[1..];
    }
  }

  lemma DepartedNone(books: BookMap)
    ensures Departed(books, books, {})
  {
    forall i, side ensures SideOf(books, i, side) == Spared(SideOf(books, i, side), {}) {
      SparedNone(SideOf(books, i, side), {});
    }
  }

  lemma DepartedTwice(a: BookMap, b: BookMap, c: BookMap, first: set<Key>, second: set<Key>)
    requires Departed(a, b, first) && Departed(b, c, second)
    ensures Departed(a, c, first + second)
  {
    forall i, side ensures SideOf(c, i, side) == Spared(SideOf(a, i, side), first + second) {
      SparedTwice(SideOf(a, i, side), first, second);
    }
  }

  lemma {:induction false} WithoutSpares(s: seq<Resting>, price: Price, key: Key)
    requires Distinct(s) && Find(s, price, key).Some?
    ensures Without(s, price, key) == Spared(s, {key})
  {
    if s[0].At(price, key) {
      forall e | e in s[1..] ensures e.Key() !in {key} {
        var i :| 0 <= i < |s[1..]| && s[1..][i] == e;
        assert s[0].Key() != s[1 + i].Key();
      }
      SparedNone(s[1..], {key});
    } else {
      Found(s[1..], price, key);
      var i :| 0 <= i < |s[1..]| && s[1..][i].Key() == key;
      assert s[0].Key() != s[1 + i].Key();
      WithoutSpares(s[1..], price, key);
    }
  }

  /** Taking an active order off its book takes its identity off all books, and nothing else. */
  lemma TakenDeparts(l: Ledger, r: Order)
    requires Sound(l, {}) && RecordAt(l.sessions, r.Key()) == Some(r) && r.state.IsActive()
    ensures Departed(l.books, Taken(l.books, r), {r.Key()})
  {
    SoundTake(l, r);
    assert BooksOk(l.rules, l.books) && EntriesMirrored(l.books, l.sessions, {});
    hide Sound, BooksOk, EntriesMirrored, EntryOk, Without, Find, Spared;
    forall i: InstrumentId, side
      ensures SideOf(Taken(l.books, r), i, side) == Spared(SideOf(l.books, i, side), {r.Key()})
    {
      SideOfOk(l.rules, l.books, i, side);
      if i == r.instrument && side == r.side {
        WithoutSpares(SideOf(l.books, i, side), r.price, r.Key());
      } else {
        OnlyThere(l.rules, l.books, l.sessions, {}, r, i, side);
        SparedNone(SideOf(l.books, i, side), {r.Key()});
      }
    }
  }

  // ---------------------------------------------------------------- reports

  function ExpiredOrder(r: Order): Order {
    r.(state := Expired, remaining := 0.0)
  }

  predicate ActiveAt(sessions: Sessions, key: Key) {
    RecordAt(sessions, key).Some? && RecordAt(sessions, key).value.state.IsActive()
  }

  /** The orders of a list of keys that are still active. */
  function ActiveAmong(sessions: Sessions, keys: set<Key>): set<Key> {
    set k | k in keys && ActiveAt(sessions, k)
  }

  /** The report of one expiry; an order that already ended gets none. */
  function ExpiryReport(sessions: Sessions, key: Key, sent: nat): seq<Report> {
    if ActiveAt(sessions, key)
    then [Status(ExpiredOrder(RecordAt(sessions, key).value), key.1, ExecExpired, None, sent + 1)]
    else []
  }

  /** One report for each order of `gone`, saying it expired with its fills kept, and no other. */
  ghost predicate ExpiryReports(was: Sessions, before: seq<Report>, after: seq<Report>, gone: set<Key>) {
    && before <= after && |after| == |before| + |gone|
    && (forall n :: |before| <= n < |after| ==>
          var k := after[n].order.Key();
          k in gone && RecordAt(was, k).Some?
          && after[n] == Status(ExpiredOrder(RecordAt(was, k).value), k.1, ExecExpired, None, n + 1))
    && (forall n, m :: |before| <= n < m < |after| ==> after[n].order.Key() != after[m].order.Key())
  }

  lemma ExpiryReportsStep(was: Sessions, before: seq<Report>, log: seq<Report>, gone: set<Key>, now: Sessions, key: Key)
    requires ExpiryReports(was, before, log, gone) && key !in gone
    requires RecordAt(now, key) == RecordAt(was, key)
    requires RecordAt(now, key).Some? ==> RecordAt(now, key).value.Key() == key
    ensures ExpiryReports(was, before, log + ExpiryReport(now, key, |log|),
                          if ActiveAt(was, key) then gone + {key} else gone)
  {
    if ActiveAt(was, key) {
      var after := log + ExpiryReport(now, key, |log|);
      assert after[|log|].order.Key() == key;
      assert forall n :: |before| <= n < |log| ==> after[n] == log[n];
    } else {
      assert log + [] == log;
    }
  }

  lemma ActiveGrows(was: Sessions, done: set<Key>, key: Key)
    requires key !in done
    ensures ActiveAmong(was, done + {key})
         == if ActiveAt(was, key) then ActiveAmong(was, done) + {key} else ActiveAmong(was, done)
    ensures key !in ActiveAmong(was, done)
  {
  }
}
