/** The FIFO queue kept by a price level: a map from an ever-growing priority number to the order
    (the BTreeMap inside PriceLevel of src/core/orderbook.rs), read in ascending key order. */
module LevelQueues {
  import opened Orders
  import opened Collections
  import opened Ladders

  type Slots = map<nat, Order>

  ghost predicate IsFirst(keys: set<nat>, k: nat) {
    k in keys && forall j :: j in keys ==> k <= j
  }

  lemma {:induction false} FirstExists(keys: set<nat>)
    requires keys != {}
    ensures exists k :: IsFirst(keys, k)
  {
    var k :| k in keys;
    var others := keys - {k};
    if others == {} {
      assert keys == {k};
      assert IsFirst(keys, k);
    } else {
      assert keys == others + {k};
      FirstExists(others);
      var j :| IsFirst(others, j);
      assert IsFirst(keys, if k <= j then k else j);
    }
  }

  /** first_key_value of a BTreeMap. */
  function First(keys: set<nat>): (k: nat)
    requires keys != {}
    ensures IsFirst(keys, k)
  {
    FirstExists(keys);
    var k :| k in keys && forall j :: j in keys ==> k <= j;
    k
  }

  ghost function InOrder(slots: Slots): seq<Order>
    decreases |slots|
  {
    if slots == map[] then [] else
    var k := First(slots.Keys);
    [slots[k]] + InOrder(slots - {k})
  }

  lemma InOrderStep(slots: Slots, k: nat)
    requires IsFirst(slots.Keys, k)
    ensures InOrder(slots) == [slots[k]] + InOrder(slots - {k})
  {
    assert First(slots.Keys) == k;
  }

  lemma InOrderEmpty(slots: Slots)
    ensures InOrder(slots) == [] <==> slots == map[]
  {
  }

  ghost predicate Earlier(a: Slots, b: Slots) {
    forall j, k :: j in a && k in b ==> j < k
  }

  lemma {:induction false} InOrderConcat(a: Slots, b: Slots)
    requires Earlier(a, b)
    ensures InOrder(a + b) == InOrder(a) + InOrder(b)
    decreases |a|, 1
  {
    if a == map[] {
      assert a + b == b;
      assert [] + InOrder(b) == InOrder(b);
    } else {
      InOrderConcatStep(a, b, First(a.Keys));
    }
  }

  lemma {:induction false} InOrderConcatStep(a: Slots, b: Slots, k: nat)
    requires Earlier(a, b) && IsFirst(a.Keys, k)
    ensures InOrder(a + b) == InOrder(a) + InOrder(b)
    decreases |a|, 0
  {
    hide InOrder;
    assert k !in b && IsFirst((a + b).Keys, k);
    assert (a + b)[k] == a[k];
    var rest := a - {k};
    assert (a + b) - {k} == rest + b;
    InOrderStep(a + b, k);
    InOrderStep(a, k);
    InOrderConcat(rest, b);
    Assoc([a[k]], InOrder(rest), InOrder(b));
  }

  lemma InOrderOne(k: nat, o: Order)
    ensures InOrder(map[k := o]) == [o]
  {
    var one: Slots := map[k := o];
    assert one.Keys == {k};
    InOrderStep(one, k);
    assert one - {k} == map[];
  }

  /** A number above all others goes to the back of the queue. */
  lemma InOrderPush(slots: Slots, k: nat, o: Order)
    requires forall j :: j in slots ==> j < k
    ensures InOrder(slots[k := o]) == InOrder(slots) + [o]
  {
    var one: Slots := map[k := o];
    assert slots[k := o] == slots + one;
    InOrderConcat(slots, one);
    InOrderOne(k, o);
  }

  ghost function Below(slots: Slots, k: nat): Slots {
    map j | j in slots && j < k :: slots[j]
  }

  ghost function Above(slots: Slots, k: nat): Slots {
    map j | j in slots && k < j :: slots[j]
  }

  /** Position in the queue of the order under number k. */
  ghost function Position(slots: Slots, k: nat): nat {
    |InOrder(Below(slots, k))|
  }

  lemma InOrderAround(slots: Slots, k: nat, o: Order)
    ensures InOrder(slots[k := o]) == InOrder(Below(slots, k)) + [o] + InOrder(Above(slots, k))
  {
    var a, b := Below(slots, k), Above(slots, k);
    var one: Slots := map[k := o];
    assert slots[k := o] == a + (one + b);
    InOrderConcat(a, one + b);
    InOrderConcat(one, b);
    InOrderOne(k, o);
    Assoc(InOrder(a), [o], InOrder(b));
  }

  lemma InOrderCut(slots: Slots, k: nat)
    ensures InOrder(slots - {k}) == InOrder(Below(slots, k)) + InOrder(Above(slots, k))
  {
    assert slots - {k} == Below(slots, k) + Above(slots, k);
    InOrderConcat(Below(slots, k), Above(slots, k));
  }

  lemma SplitAccess<T>(a: seq<T>, x: T, b: seq<T>, y: T)
    ensures var s := a + [x] + b;
            s[|a|] == x && Drop(s, |a|) == a + b && s[|a| := y] == a + [y] + b
  {
  }

  /** Reading, deleting and overwriting by number are accesses at one queue position. */
  lemma InOrderAccess(slots: Slots, k: nat, o: Order)
    requires k in slots
    ensures var i, queue := Position(slots, k), InOrder(slots);
            && i < |queue| && queue[i] == slots[k]
            && InOrder(slots - {k}) == Drop(queue, i)
            && InOrder(slots[k := o]) == queue[i := o]
  {
    hide InOrder, Below, Above;
    assert slots[k := slots[k]] == slots;
    InOrderAround(slots, k, slots[k]);
    InOrderAround(slots, k, o);
    InOrderCut(slots, k);
    SplitAccess(InOrder(Below(slots, k)), slots[k], InOrder(Above(slots, k)), o);
  }

  lemma {:induction false} InOrderMembers(slots: Slots)
    ensures |InOrder(slots)| == |slots|
    ensures forall o :: o in InOrder(slots) <==> exists k :: k in slots && slots[k] == o
    decreases |slots|
  {
    if slots != map[] {
      var k := First(slots.Keys);
      InOrderMembers(slots - {k});
      forall o ensures o in InOrder(slots) <==> exists j :: j in slots && slots[j] == o {
        if j :| j in slots && slots[j] == o {
          assert j == k || j in slots - {k};
        }
      }
    }
  }

  ghost predicate Injective(slots: Slots) {
    forall j, k :: j in slots && k in slots && slots[j].Key() == slots[k].Key() ==> j == k
  }

  lemma {:induction false} InOrderDistinct(slots: Slots)
    requires Injective(slots)
    ensures DistinctKeys(InOrder(slots))
    decreases |slots|
  {
    if slots != map[] {
      var k := First(slots.Keys);
      var rest := slots - {k};
      InOrderDistinct(rest);
      InOrderMembers(rest);
      var tail := InOrder(rest);
      forall i | 0 <= i < |tail| ensures tail[i].Key() != slots[k].Key() {
        assert tail[i] in tail;
      }
    }
  }
}
