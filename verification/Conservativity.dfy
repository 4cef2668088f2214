/** What user-defined fields and field order can and cannot change about a decoded message
    (src/fix/codec.rs). */
module Conservativity {
  import opened Orders
  import opened Bytes
  import opened Frames
  import opened Dictionaries
  import opened Codec
  import opened Inbounds

  // ---------------------------------------------------------------- the walk, piecewise

  lemma {:induction false} WalkConcat(kind: Text, s: ScopeState, a: seq<Field>, b: seq<Field>)
    ensures Walk(kind, s, a + b)
         == (match Walk(kind, s, a) case None => None case Some(s') => Walk(kind, s', b))
    decreases |a|
  {
    hide Step;
    if a == [] {
      assert a + b == b;
    } else {
      assert (a + b)[1..] == a[1..] + b;
      var next := Step(kind, s, a[0].tag);
      if next.Some? {
        WalkConcat(kind, next.value, a[1..], b);
      }
    }
  }

  ghost predicate NoHeader(fields: seq<Field>) {
    forall i :: 0 <= i < |fields| ==> !IsHeader(fields[i].tag)
  }

  lemma StepStarted(kind: Text, s: ScopeState, tag: nat)
    ensures IsHeader(tag) ==> Step(kind, s.(bodyStarted := true), tag).None?
    ensures !IsHeader(tag) ==> Step(kind, s.(bodyStarted := true), tag) == Step(kind, s, tag)
  {
    hide ScalarFields, IsHeader, ShapeOk;
  }

  /** Once the body has begun the same fields pass, except header fields. */
  lemma {:induction false} WalkStarted(kind: Text, s: ScopeState, fields: seq<Field>)
    ensures !NoHeader(fields) ==> Walk(kind, s.(bodyStarted := true), fields).None?
    ensures NoHeader(fields) && fields != [] ==> Walk(kind, s.(bodyStarted := true), fields) == Walk(kind, s, fields)
    decreases |fields|
  {
    hide Step, IsHeader;
    if fields != [] {
      StepStarted(kind, s, fields[0].tag);
      var next := Step(kind, s.(bodyStarted := true), fields[0].tag);
      if next.Some? && !NoHeader(fields) {
        BodyStays(kind, s.(bodyStarted := true), fields[0].tag);
        assert !NoHeader(fields[1..]) by {
          var i :| 0 <= i < |fields| && IsHeader(fields[i].tag);
          assert fields[1..][i - 1] == fields[i];
        }
        WalkStarted(kind, next.value, fields[1..]);
        assert next.value.(bodyStarted := true) == next.value;
      }
    }
  }

  lemma BodyStays(kind: Text, s: ScopeState, tag: nat)
    requires s.bodyStarted && Step(kind, s, tag).Some?
    ensures Step(kind, s, tag).value.bodyStarted
  {
    hide ScalarFields, IsHeader, ShapeOk;
  }

  lemma StepCustom(kind: Text, s: ScopeState, tag: nat)
    requires IsCustom(tag)
    ensures s.needsDelimiter ==> Step(kind, s, tag).None?
    ensures !s.needsDelimiter ==> Step(kind, s, tag) == Some(s.(bodyStarted := true))
  {
    TableStart(kind, s.scope);
    CustomPlain(tag, kind);
    hide ScalarFields, ShapeOk, IsHeader;
  }

  lemma TableStart(kind: Text, scope: nat)
    ensures Table(kind, scope) == [] || !IsCustom(Table(kind, scope)[0])
  {
    GroupCounts();
    ScalarStart(kind);
    hide ScalarFields, QUOTE_SET_FIELDS, QUOTE_ENTRY_FIELDS;
  }

  lemma CustomPlain(tag: nat, kind: Text)
    requires IsCustom(tag)
    ensures ShapeOk(tag, kind) && !IsHeader(tag)
  {
  }

  // ---------------------------------------------------------------- group delimiters

  /** A MassQuote group count that must be followed by the group's first field. */
  predicate OpensGroup(kind: Text, tag: nat) {
    kind == MASS_QUOTE && (tag == 295 || tag == 296)
  }

  ghost predicate Reached(s: ScopeState) {
    (!s.bodyStarted ==> s == OUTSIDE) && s.scope <= 2
  }

  lemma StepOpens(kind: Text, s: ScopeState, tag: nat)
    requires Reached(s) && Step(kind, s, tag).Some?
    ensures Reached(Step(kind, s, tag).value)
    ensures Step(kind, s, tag).value.needsDelimiter <==> OpensGroup(kind, tag)
  {
    GroupCounts();
    HeaderNoGroup(tag);
    hide IsHeader, ShapeOk, ScalarFields, QUOTE_SET_FIELDS, QUOTE_ENTRY_FIELDS;
  }

  lemma HeaderNoGroup(tag: nat)
    ensures IsHeader(tag) ==> tag != 295 && tag != 296 && !IsCustom(tag)
  {
  }

  /** The walk waits for a delimiter exactly after a group count. */
  lemma {:induction false} WaitsAfterCount(kind: Text, fields: seq<Field>)
    requires Walk(kind, OUTSIDE, fields).Some?
    ensures Reached(Walk(kind, OUTSIDE, fields).value)
    ensures Walk(kind, OUTSIDE, fields).value.needsDelimiter
       <==> fields != [] && OpensGroup(kind, fields[|fields| - 1].tag)
  {
    hide Step;
    if fields != [] {
      var init, last := fields[..|fields| - 1], fields[|fields| - 1];
      assert fields == init + [last];
      WalkConcat(kind, OUTSIDE, init, [last]);
      WaitsAfterCount(kind, init);
      var s := Walk(kind, OUTSIDE, init).value;
      assert Walk(kind, s, [last]) == Step(kind, s, last.tag) by {
        assert [last][1..] == [];
      }
      StepOpens(kind, s, last.tag);
    }
  }

  // ---------------------------------------------------------------- inserting a user-defined field

  function Inserted(fields: seq<Field>, p: nat, f: Field): seq<Field>
    requires p <= |fields|
  {
    fields[..p] + [f] + fields[p..]
  }

  /** A place where a user-defined field may stand: after the header, not between a group count and
      the field that opens the group. */
  ghost predicate Admits(kind: Text, fields: seq<Field>, p: nat)
    requires p <= |fields|
  {
    NoHeader(fields[p..]) && !(p > 0 && OpensGroup(kind, fields[p - 1].tag))
  }

  lemma InsertScopes(kind: Text, fields: seq<Field>, p: nat, f: Field)
    requires p <= |fields| && IsCustom(f.tag)
    ensures ScopesOk(kind, Inserted(fields, p, f)) <==> ScopesOk(kind, fields) && Admits(kind, fields, p)
  {
    hide Step, Reached;
    var a, b := fields[..p], fields[p..];
    assert fields == a + b && Inserted(fields, p, f) == a + ([f] + b);
    WalkConcat(kind, OUTSIDE, a, b);
    WalkConcat(kind, OUTSIDE, a, [f] + b);
    var before := Walk(kind, OUTSIDE, a);
    if before.Some? {
      WaitsAfterCount(kind, a);
      StepCustom(kind, before.value, f.tag);
      assert ([f] + b)[1..] == b;
      if !before.value.needsDelimiter {
        assert Walk(kind, before.value, [f] + b) == Walk(kind, before.value.(bodyStarted := true), b);
        WalkStarted(kind, before.value, b);
      }
    }
  }

  lemma {:induction false} GetInserted(fields: seq<Field>, p: nat, f: Field, tag: nat)
    requires p <= |fields| && tag != f.tag
    ensures Get(Inserted(fields, p, f), tag) == Get(fields, tag)
  {
    var all := Inserted(fields, p, f);
    if p == 0 {
      assert all[1..] == fields;
    } else {
      GetInserted(fields[1..], p - 1, f, tag);
      assert all[1..] == Inserted(fields[1..], p - 1, f);
    }
  }

  lemma InsertUnique(fields: seq<Field>, p: nat, f: Field)
    requires p <= |fields|
    ensures Unique(Inserted(fields, p, f)) <==> Unique(fields) && Get(fields, f.tag).None?
  {
    hide Inserted, Get, Unique;
    if Unique(Inserted(fields, p, f)) {
      ShorterUnique(fields, p, f);
    }
    if Unique(fields) && Get(fields, f.tag).None? {
      LongerUnique(fields, p, f);
    }
  }

  lemma ShorterUnique(fields: seq<Field>, p: nat, f: Field)
    requires p <= |fields| && Unique(Inserted(fields, p, f))
    ensures Unique(fields) && Get(fields, f.tag).None?
  {
    var all := Inserted(fields, p, f);
    GetIsMember(fields, f.tag);
    InsertedTo(fields, p, f);
    hide Inserted, Get;
    forall i, j | 0 <= i < j < |fields| ensures fields[i].tag != fields[j].tag {
      assert all[Moved(i, p)].tag != all[Moved(j, p)].tag;
    }
    forall i | 0 <= i < |fields| ensures fields[i].tag != f.tag {
      assert all[Moved(i, p)].tag != all[p].tag;
    }
  }

  lemma LongerUnique(fields: seq<Field>, p: nat, f: Field)
    requires p <= |fields| && Unique(fields) && Get(fields, f.tag).None?
    ensures Unique(Inserted(fields, p, f))
  {
    var all := Inserted(fields, p, f);
    GetIsMember(fields, f.tag);
    InsertedFrom(fields, p, f);
    assert Get(fields, f.tag).None?;
    forall i: nat, j: nat | i < j < |all| ensures all[i].tag != all[j].tag {
      LongerPair(fields, p, f, all, i, j);
    }
  }

  lemma LongerPair(fields: seq<Field>, p: nat, f: Field, all: seq<Field>, i: nat, j: nat)
    requires Unique(fields) && (forall k :: 0 <= k < |fields| ==> fields[k].tag != f.tag)
    requires i < j < |all| == |fields| + 1 && p < |all| && all[p] == f
    requires i != p ==> all[i] == fields[Source(i, p)]
    requires j != p ==> all[j] == fields[Source(j, p)]
    ensures all[i].tag != all[j].tag
  {
    if i != p && j != p {
      var a, b := Source(i, p), Source(j, p);
      assert a < b;
    }
  }

  /** Where each field of the longer message comes from. */
  lemma InsertedFrom(fields: seq<Field>, p: nat, f: Field)
    requires p <= |fields|
    ensures var all := Inserted(fields, p, f);
            && |all| == |fields| + 1 && all[p] == f
            && (forall i :: 0 <= i < |all| && i != p ==> all[i] == fields[Source(i, p)])
  {
    var all, b := Inserted(fields, p, f), fields[p..];
    forall i | 0 <= i < |all| && i != p ensures all[i] == fields[Source(i, p)] {
      assert i > p ==> all[i] == b[i - p - 1];
    }
  }

  /** Where each field of the shorter message goes. */
  lemma InsertedTo(fields: seq<Field>, p: nat, f: Field)
    requires p <= |fields|
    ensures var all := Inserted(fields, p, f);
            && |all| == |fields| + 1 && all[p] == f
            && (forall i :: 0 <= i < |fields| ==> all[Moved(i, p)] == fields[i])
  {
    var all, b := Inserted(fields, p, f), fields[p..];
    forall i | 0 <= i < |fields| ensures all[Moved(i, p)] == fields[i] {
      assert i >= p ==> all[i + 1] == b[i - p];
    }
  }

  function Moved(i: nat, p: nat): nat {
    if i < p then i else i + 1
  }

  function Source(i: nat, p: nat): nat
    requires i != p
  {
    if i < p then i else i - 1
  }

  lemma InsertValues(fields: seq<Field>, p: nat, f: Field)
    requires p <= |fields| && IsCustom(f.tag)
    ensures ValuesOk(Inserted(fields, p, f)) <==> ValuesOk(fields) && f.value != []
  {
    var all := Inserted(fields, p, f);
    assert ValueOk(f) <==> f.value != [];
    hide ValueOk, Inserted;
    if ValuesOk(all) {
      InsertedTo(fields, p, f);
      forall i | 0 <= i < |fields| ensures ValueOk(fields[i]) {
        assert ValueOk(all[Moved(i, p)]);
      }
      assert ValueOk(all[p]);
    } else {
      InsertedFrom(fields, p, f);
    }
  }

  lemma InsertProfile(reading: Reading, kind: Text, fields: seq<Field>, p: nat, f: Field)
    requires p <= |fields| && IsCustom(f.tag) && Required(kind).Some?
    ensures ProfileOk(reading, kind, Inserted(fields, p, f))
       <==> ProfileOk(reading, kind, fields) && Admits(kind, fields, p) && f.value != [] && Get(fields, f.tag).None?
  {
    InsertSame(fields, p, f);
    hide ScopesOk, Admits, Unique, ValuesOk, Required, HasAll, StandardOk, SameStandard, Get;
    InsertScopes(kind, fields, p, f);
    InsertUnique(fields, p, f);
    InsertValues(fields, p, f);
    StandardSame(reading, kind, fields, Inserted(fields, p, f));
  }

  lemma InsertSame(fields: seq<Field>, p: nat, f: Field)
    requires p <= |fields| && IsCustom(f.tag)
    ensures SameStandard(fields, Inserted(fields, p, f))
  {
    hide Get, Inserted;
    forall tag: nat | !IsCustom(tag) ensures Get(fields, tag) == Get(Inserted(fields, p, f), tag) {
      GetInserted(fields, p, f, tag);
    }
  }

  /** A user-defined field never changes what a message means: put anywhere in a supported message
      it leaves the decoded value, or the rejection, exactly as it was, if and only if it is new to
      the message, not empty, after the header and not inside a group's opening; otherwise the
      message is rejected. Messages outside the profile never depend on it. */
  lemma CustomFieldConservative(reading: Reading, fields: seq<Field>, p: nat, f: Field)
    requires p <= |fields| && f.tag >= 5000
    ensures var kind := Get(fields, 35);
            if kind.Some? && Required(kind.value).Some?
               && !(Admits(kind.value, fields, p) && f.value != [] && Get(fields, f.tag).None?)
            then Decode(reading, Inserted(fields, p, f)).None?
            else Decode(reading, Inserted(fields, p, f)) == Decode(reading, fields)
  {
    hide Decode, ProfileOk, Get, Inserted, Admits, Required, Extract, SameStandard;
    var kind, longer := Get(fields, 35), Inserted(fields, p, f);
    InsertSame(fields, p, f);
    GetInserted(fields, p, f, 35);
    DecodeIs(reading, fields);
    DecodeIs(reading, longer);
    if kind.Some? {
      ExtractSame(reading, kind.value, fields, longer);
      if Required(kind.value).Some? {
        InsertProfile(reading, kind.value, fields, p, f);
      } else {
        OutsideProfile(reading, kind.value, fields);
        OutsideProfile(reading, kind.value, longer);
      }
    }
  }

  lemma DecodeIs(reading: Reading, fields: seq<Field>)
    ensures Get(fields, 35).None? ==> Decode(reading, fields).None?
    ensures Get(fields, 35).Some? ==> (
        var kind := Get(fields, 35).value;
        Decode(reading, fields) == if ProfileOk(reading, kind, fields) then Extract(reading, kind, fields) else None)
  {
    hide ProfileOk, Extract, Get;
  }

  lemma OutsideProfile(reading: Reading, kind: Text, fields: seq<Field>)
    requires Required(kind).None?
    ensures ProfileOk(reading, kind, fields)
  {
  }
}
