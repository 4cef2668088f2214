/** Order identities on one side of a book: what filing, settling and taking out one order does to
    all the others. */
module Filing {
  import opened Orders
  import opened Ladders
  import opened Matching

  /** No identity rests twice on one side. */
  ghost predicate Distinct(s: seq<Resting>) {
    forall i, j :: 0 <= i < j < |s| ==> s[i].Key() != s[j].Key()
  }

  ghost predicate Absent(s: seq<Resting>, key: Key) {
    forall e :: e in s ==> e.Key() != key
  }

  lemma {:induction false} FindMember(s: seq<Resting>, e: Resting)
    requires Distinct(s) && e in s
    ensures Find(s, e.level, e.Key()) == Some(e.order)
  {
    if s[0] != e {
      var i :| 0 <= i < |s| && s[i] == e;
      assert s[0].Key() != s[i].Key();
      assert s[1..][i - 1] == e;
      FindMember(s[1..], e);
    }
  }

  lemma {:induction false} FindAbsent(s: seq<Resting>, price: Price, key: Key)
    requires Absent(s, key)
    ensures Find(s, price, key).None?
  {
    if s != [] {
      assert s[0] in s;
      FindAbsent(s[1..], price, key);
    }
  }

  lemma {:induction false} Found(s: seq<Resting>, price: Price, key: Key)
    requires Find(s, price, key).Some?
    ensures Resting(price, Find(s, price, key).value) in s && Find(s, price, key).value.Key() == key
  {
    if !s[0].At(price, key) {
      Found(s[1..], price, key);
    }
  }

  lemma {:induction false} WithoutMiss(s: seq<Resting>, price: Price, key: Key)
    requires Find(s, price, key).None?
    ensures Without(s, price, key) == s
  {
    if s != [] {
      WithoutMiss(s[1..], price, key);
    }
  }

  // ---------------------------------------------------------------- filing

  lemma {:induction false} EnqueueFinds(side: Side, s: seq<Resting>, r: Resting, price: Price, key: Key)
    requires Absent(s, r.Key())
    ensures Find(Enqueue(side, s, r), price, key)
         == if r.At(price, key) then Some(r.order) else Find(s, price, key)
  {
    if s != [] && Rank(side, s[0].level) <= Rank(side, r.level) {
      EnqueueFinds(side, s[1..], r, price, key);
      assert s[0] in s;
    }
    FindAbsent(s, r.level, r.Key());
  }

  lemma {:induction false} EnqueueDistinct(side: Side, s: seq<Resting>, r: Resting)
    requires Distinct(s) && Absent(s, r.Key())
    ensures Distinct(Enqueue(side, s, r))
  {
    if s != [] && Rank(side, s[0].level) <= Rank(side, r.level) {
      EnqueueDistinct(side, s[1..], r);
      EnqueueMembers(side, s[1..], r);
      var tail := Enqueue(side, s[1..], r);
      forall j | 0 <= j < |tail| ensures tail[j].Key() != s[0].Key() {
        assert tail[j] in tail;
        if tail[j] in s[1..] {
          var i :| 0 <= i < |s[1..]| && s[1..][i] == tail[j];
          assert s[1 + i] == tail[j];
        } else {
          assert s[0] in s;
        }
      }
    } else {
      forall j | 0 <= j < |s| ensures s[j].Key() != r.Key() {
        assert s[j] in s;
      }
    }
  }

  // ---------------------------------------------------------------- taking out

  lemma {:induction false} WithoutMembers(s: seq<Resting>, price: Price, key: Key)
    requires Distinct(s) && Find(s, price, key).Some?
    ensures forall e :: e in Without(s, price, key) <==> e in s && e.Key() != key
    ensures Distinct(Without(s, price, key))
  {
    if s[0].At(price, key) {
      forall e | e in s[1..] ensures e.Key() != key {
        var i :| 0 <= i < |s[1..]| && s[1..][i] == e;
        assert s[0].Key() != s[1 + i].Key();
      }
    } else {
      WithoutMembers(s[1..], price, key);
      Found(s[1..], price, key);
      var tail := Without(s[1..], price, key);
      assert s[0].Key() != key by {
        var i :| 0 <= i < |s[1..]| && s[1..][i].Key() == key;
        assert s[0].Key() != s[1 + i].Key();
      }
      forall j | 0 <= j < |tail| ensures tail[j].Key() != s[0].Key() {
        assert tail[j] in tail;
        var i :| 0 <= i < |s[1..]| && s[1..][i] == tail[j];
        assert s[0].Key() != s[1 + i].Key();
      }
    }
  }

  lemma {:induction false} WithoutFinds(s: seq<Resting>, price: Price, key: Key, price': Price, key': Key)
    requires key' != key
    ensures Find(Without(s, price, key), price', key') == Find(s, price', key')
  {
    if s != [] && !s[0].At(price, key) {
      WithoutFinds(s[1..], price, key, price', key');
    }
  }

  lemma {:induction false} WithoutPrioritised(side: Side, s: seq<Resting>, price: Price, key: Key)
    requires Prioritised(side, s)
    ensures Prioritised(side, Without(s, price, key)) && |Without(s, price, key)| <= |s|
    ensures forall e :: e in Without(s, price, key) ==> e in s
  {
    if s != [] && !s[0].At(price, key) {
      WithoutPrioritised(side, s[1..], price, key);
      var tail := Without(s[1..], price, key);
      forall j | 0 <= j < |tail| ensures Ahead(side, s[0], tail[j]) {
        assert tail[j] in tail;
        var i :| 0 <= i < |s[1..]| && s[1..][i] == tail[j];
        assert s[1 + i] == tail[j];
      }
    }
  }

  // ---------------------------------------------------------------- overwriting

  /** Store at a found entry is a sequence update. */
  lemma {:induction false} StoreIsUpdate(s: seq<Resting>, price: Price, key: Key, o: Order) returns (i: nat)
    requires Find(s, price, key).Some?
    ensures i < |s| && s[i] == Resting(price, Find(s, price, key).value) && s[i].Key() == key
    ensures Store(s, price, key, o) == s[i := Resting(price, o)]
  {
    if s[0].At(price, key) {
      i := 0;
    } else {
      var j := StoreIsUpdate(s[1..], price, key, o);
      i := j + 1;
    }
  }

  lemma StoreMembers(s: seq<Resting>, price: Price, key: Key, o: Order)
    requires Distinct(s) && Find(s, price, key).Some? && o.Key() == key
    ensures forall e :: e in Store(s, price, key, o) <==> e == Resting(price, o) || (e in s && e.Key() != key)
    ensures Distinct(Store(s, price, key, o))
  {
    var i := StoreIsUpdate(s, price, key, o);
    hide Store, Find;
    var t := s[i := Resting(price, o)];
    forall e ensures e in t <==> e == Resting(price, o) || (e in s && e.Key() != key) {
      if e in t {
        var j :| 0 <= j < |t| && t[j] == e;
        if j < i {
          assert s[j].Key() != s[i].Key();
        } else if i < j {
          assert s[i].Key() != s[j].Key();
        }
      }
      if e == Resting(price, o) {
        assert t[i] == e;
      } else if e in s && e.Key() != key {
        var j :| 0 <= j < |s| && s[j] == e;
        assert t[j] == e;
      }
    }
  }

  lemma StorePrioritised(side: Side, s: seq<Resting>, price: Price, key: Key, o: Order)
    requires Prioritised(side, s) && Find(s, price, key).Some? && o.arrival == Find(s, price, key).value.arrival
    ensures Prioritised(side, Store(s, price, key, o))
  {
    var i := StoreIsUpdate(s, price, key, o);
  }

  lemma {:induction false} StoreFinds(s: seq<Resting>, price: Price, key: Key, o: Order, price': Price, key': Key)
    requires o.Key() == key
    ensures key' != key ==> Find(Store(s, price, key, o), price', key') == Find(s, price', key')
    ensures Find(s, price, key).Some? ==> Find(Store(s, price, key, o), price, key) == Some(o)
  {
    if s != [] && !s[0].At(price, key) {
      StoreFinds(s[1..], price, key, o, price', key');
    }
  }
}
