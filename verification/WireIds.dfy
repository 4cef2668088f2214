/** ClOrdID strings and the engine's 32-bit order ids (WireIdMap, fresh_id and the id a report is
    written with, in src/fix/session.rs). */
module WireIds {
  import opened Orders
  import opened Bytes
  import Collections

  const MAX_ID: nat := 0x7FFF_FFFF

  datatype IdError = EmptyId | TooMany | DuplicateId

  datatype IdResult = Ok(value: nat) | Err(error: IdError)

  // ---------------------------------------------------------------- reading a string as an i32

  /** The numeric value of a string, when it can serve as an order id. */
  function Preferred(wire: Text): Option<nat> {
    match ParseSigned(wire, MAX_ID)
    case Some(v) => if v > 0 then Some(v) else None
    case None => None
  }

  /** Different strings can denote the same number: 7, 007 and +7. */
  lemma SameNumber()
    ensures Preferred([55]) == Some(7) && Preferred([48, 48, 55]) == Some(7) && Preferred([PLUS, 55]) == Some(7)
  {
    assert [55][..0] == [] && Value([55]) == 7;
    assert [48, 48, 55][..2] == [48, 48] && [48, 48][..1] == [48] && [48][..0] == [];
    assert Value([48]) == 0 && Value([48, 48]) == 0 && Value([48, 48, 55]) == 7;
    assert [PLUS, 55][1..] == [55];
  }

  /** The plain numeral of every positive 32-bit number is read as that number. */
  lemma PrintedPreferred(n: nat)
    requires 1 <= n <= 0x7FFF_FFFF
    ensures Preferred(Digits(n)) == Some(n)
  {
    DigitsValue(n);
    var s := Digits(n);
    assert IsDigit(s[0]);
  }

  // ---------------------------------------------------------------- the two maps

  /** Each map undoes the other; ids are positive 32-bit numbers. */
  ghost predicate Inverse(ids: map<Text, nat>, wires: map<nat, Text>) {
    && (forall w :: w in ids ==> ids[w] in wires && wires[ids[w]] == w)
    && (forall k :: k in wires ==> 1 <= k <= MAX_ID && wires[k] != [] && wires[k] in ids && ids[wires[k]] == k)
  }

  class WireIdMap {
    var wireToInternal: map<Text, nat>
    var internalToWire: map<nat, Text>
    var nextInternal: nat

    ghost predicate Valid()
      reads this
    {
      && Inverse(wireToInternal, internalToWire)
      && 1 <= nextInternal <= MAX_ID
      && (forall k :: 1 <= k < nextInternal ==> k in internalToWire)
    }

    constructor ()
      ensures Valid() && wireToInternal == map[] && internalToWire == map[]
    {
      wireToInternal, internalToWire, nextInternal := map[], map[], 1;
    }

    /** The id of a ClOrdID, old or new. A string seen before keeps its id; a new one gets an id no
        other string has, its own number when that is free; it is refused only when every positive
        32-bit id is taken. */
    method Intern(wire: Text) returns (r: IdResult)
      requires Valid()
      modifies this
      ensures Valid()
      ensures r != Err(DuplicateId) && (wire == [] <==> r == Err(EmptyId))
      ensures wire in old(wireToInternal) && wire != [] ==> r == Ok(old(wireToInternal)[wire])
      ensures r == Err(TooMany) <==> (
          wire != [] && wire !in old(wireToInternal) && (forall k :: 1 <= k <= MAX_ID ==> k in old(internalToWire)))
      ensures r.Ok? && wire !in old(wireToInternal) ==> (
          && r.value !in old(internalToWire)
          && wireToInternal == old(wireToInternal)[wire := r.value]
          && internalToWire == old(internalToWire)[r.value := wire]
          && (Preferred(wire).Some? && Preferred(wire).value !in old(internalToWire) ==>
                r.value == Preferred(wire).value))
      ensures r.Err? || wire in old(wireToInternal) ==> (
          wireToInternal == old(wireToInternal) && internalToWire == old(internalToWire))
    {
      if wire == [] {
        return Err(EmptyId);
      }
      if wire in wireToInternal {
        return Ok(wireToInternal[wire]);
      }
      var preferred := Preferred(wire);
      var id;
      if preferred.Some? && preferred.value !in internalToWire {
        id := preferred.value;
      } else {
        var free := FirstFree();
        if free.None? {
          return Err(TooMany);
        }
        id := free.value;
        nextInternal := if id < MAX_ID then id + 1 else id;
      }
      wireToInternal := wireToInternal[wire := id];
      internalToWire := internalToWire[id := wire];
      r := Ok(id);
    }

    /** The first free id from the cursor on. */
    method FirstFree() returns (r: Option<nat>)
      requires Valid()
      ensures r.Some? ==> r.value !in internalToWire && nextInternal <= r.value <= MAX_ID
      ensures r.Some? ==> forall k :: 1 <= k < r.value ==> k in internalToWire
      ensures r.None? ==> forall k :: 1 <= k <= MAX_ID ==> k in internalToWire
    {
      var candidate := nextInternal;
      while candidate in internalToWire
        invariant nextInternal <= candidate <= MAX_ID
        invariant forall k :: 1 <= k < candidate ==> k in internalToWire
        decreases MAX_ID - candidate
      {
        if candidate == MAX_ID {
          return None;
        }
        candidate := candidate + 1;
      }
      r := Some(candidate);
    }

    /** The id of a request, which must be new to the session. */
    method FreshId(wire: Text) returns (r: IdResult)
      requires Valid()
      modifies this
      ensures Valid()
      ensures wire in old(wireToInternal) <==> r == Err(DuplicateId)
      ensures r.Ok? ==> wire !in old(wireToInternal) && r.value !in old(internalToWire)
      ensures r.Ok? ==> wireToInternal == old(wireToInternal)[wire := r.value]
      ensures r.Ok? ==> internalToWire == old(internalToWire)[r.value := wire]
      ensures r.Err? ==> wireToInternal == old(wireToInternal) && internalToWire == old(internalToWire)
    {
      if wire in wireToInternal {
        return Err(DuplicateId);
      }
      r := Intern(wire);
    }
  }

  /** A whole connection's requests. Two accepted requests share an id exactly when they carry the
      same string, and a report for an id is written with the string the client sent. */
  method InternAll(wires: seq<Text>) returns (ids: seq<IdResult>, written: map<nat, Text>)
    ensures |ids| == |wires|
    ensures forall i :: 0 <= i < |ids| && ids[i].Ok? ==> (
        1 <= ids[i].value <= MAX_ID && ids[i].value in written && written[ids[i].value] == wires[i])
    ensures forall i, j :: 0 <= i < |ids| && 0 <= j < |ids| && ids[i].Ok? && ids[j].Ok? ==> (
        ids[i] == ids[j] <==> wires[i] == wires[j])
    ensures forall i :: 0 <= i < |ids| && ids[i].Err? ==> wires[i] == [] || |written| == MAX_ID
  {
    hide Inverse, Known;
    var m := new WireIdMap();
    ids := [];
    for n := 0 to |wires|
      invariant m.Valid() && fresh(m) && Answered(wires[..n], ids, m.wireToInternal, m.internalToWire)
    {
      ghost var ids0, wires0 := m.wireToInternal, m.internalToWire;
      var r := m.Intern(wires[n]);
      assert r.Err? && wires[n] != [] ==> r.error.TooMany?;
      AnsweredNext(wires[..n], ids, ids0, wires0, wires[n], r, m.wireToInternal, m.internalToWire);
      assert wires[..n + 1] == wires[..n] + [wires[n]];
      ids := ids + [r];
    }
    assert wires[..|wires|] == wires;
    written := m.internalToWire;
    AnsweredMeans(wires, ids, m.wireToInternal, m.internalToWire);
  }

  /** Every answer so far still stands in the maps. */
  ghost predicate Answered(asked: seq<Text>, answers: seq<IdResult>, ids: map<Text, nat>, wires: map<nat, Text>) {
    && |answers| == |asked|
    && (forall i :: 0 <= i < |asked| && answers[i].Ok? ==> Known(asked[i], answers[i].value, ids, wires))
    && (forall i :: 0 <= i < |asked| && answers[i].Err? ==> asked[i] == [] || |wires| == MAX_ID)
  }

  lemma AnsweredMeans(asked: seq<Text>, answers: seq<IdResult>, ids: map<Text, nat>, wires: map<nat, Text>)
    requires Answered(asked, answers, ids, wires)
    ensures forall i :: 0 <= i < |answers| && answers[i].Ok? ==> (
        1 <= answers[i].value <= MAX_ID && answers[i].value in wires && wires[answers[i].value] == asked[i])
    ensures forall i, j :: 0 <= i < |answers| && 0 <= j < |answers| && answers[i].Ok? && answers[j].Ok? ==> (
        answers[i] == answers[j] <==> asked[i] == asked[j])
  {
  }

  /** What Intern promises, as a relation on the maps before and after. */
  ghost predicate Interned(ids0: map<Text, nat>, wires0: map<nat, Text>, wire: Text, r: IdResult,
                           ids: map<Text, nat>, wires: map<nat, Text>)
  {
    match r
    case Err(e) =>
      && ids == ids0 && wires == wires0
      && (wire == [] || forall k :: 1 <= k <= MAX_ID ==> k in wires0)
    case Ok(id) =>
      if wire in ids0 then ids == ids0 && wires == wires0 && id == ids0[wire]
      else id !in wires0 && ids == ids0[wire := id] && wires == wires0[id := wire]
  }

  lemma AnsweredNext(asked: seq<Text>, answers: seq<IdResult>, ids0: map<Text, nat>, wires0: map<nat, Text>,
                     wire: Text, r: IdResult, ids: map<Text, nat>, wires: map<nat, Text>)
    requires Answered(asked, answers, ids0, wires0) && Inverse(ids0, wires0) && Inverse(ids, wires)
    requires Interned(ids0, wires0, wire, r, ids, wires)
    ensures Answered(asked + [wire], answers + [r], ids, wires)
  {
    if r.Err? && wire != [] {
      Collections.WholeRange(wires0.Keys, MAX_ID);
      assert |wires0.Keys| == |wires0|;
    }
    if |wires0| == MAX_ID {
      FullStays(wires0.Keys, wires.Keys);
      assert |wires.Keys| == |wires|;
    }
    var asked', answers' := asked + [wire], answers + [r];
    forall i | 0 <= i < |asked'| && answers'[i].Ok? ensures Known(asked'[i], answers'[i].value, ids, wires) {
      if i < |asked| {
        assert Known(asked[i], answers[i].value, ids0, wires0);
      } else {
        assert ids[wire] == r.value && wires[r.value] == wire;
      }
    }
    forall i | 0 <= i < |asked'| && answers'[i].Err? ensures asked'[i] == [] || |wires| == MAX_ID {
      if i < |asked| {
        assert answers'[i] == answers[i] && asked'[i] == asked[i];
      }
    }
  }

  ghost predicate Known(wire: Text, id: nat, ids: map<Text, nat>, wires: map<nat, Text>) {
    wire in ids && ids[wire] == id && id in wires && wires[id] == wire && 1 <= id <= MAX_ID
  }

  /** Once all ids are taken no other can be added. */
  lemma FullStays(before: set<nat>, after: set<nat>)
    requires before <= after && |before| == MAX_ID && forall k :: k in after ==> 1 <= k <= MAX_ID
    ensures |after| == MAX_ID
  {
    Collections.RangeSize(after, 1, MAX_ID + 1);
    Collections.SubsetSize(before, after);
  }
}
