/** Outside MassQuote the order of body fields carries no meaning (src/fix/codec.rs). */
module FieldOrder {
  import opened Orders
  import opened Bytes
  import opened Frames
  import opened Dictionaries
  import opened Codec
  import opened Inbounds
  import opened Conservativity
  import Collections

  ghost predicate AllHeader(fields: seq<Field>) {
    forall i :: 0 <= i < |fields| ==> IsHeader(fields[i].tag)
  }

  /** A body field the kind's table, or the user-defined range, allows. */
  predicate Fits(kind: Text, tag: nat) {
    ShapeOk(tag, kind) && (IsCustom(tag) || tag in ScalarFields(kind))
  }

  lemma StepFlat(kind: Text, s: ScopeState, tag: nat)
    requires kind != MASS_QUOTE && s.scope == 0 && s.previous.None? && !s.needsDelimiter && !IsHeader(tag)
    ensures Step(kind, s, tag) == (if Fits(kind, tag) then Some(s.(bodyStarted := true)) else None)
  {
    hide ShapeOk, IsHeader, ScalarFields;
  }

  /** Without groups the walk only asks whether each field belongs. */
  lemma {:induction false} WalkFlat(kind: Text, s: ScopeState, b: seq<Field>)
    requires kind != MASS_QUOTE && s.scope == 0 && s.previous.None? && !s.needsDelimiter && NoHeader(b)
    ensures Walk(kind, s, b).Some? <==> forall i :: 0 <= i < |b| ==> Fits(kind, b[i].tag)
    ensures Walk(kind, s, b).Some? ==> !Walk(kind, s, b).value.needsDelimiter
    decreases |b|
  {
    hide Step, Fits, IsHeader;
    if b != [] {
      StepFlat(kind, s, b[0].tag);
      assert forall i :: 1 <= i < |b| ==> b[i] == b[1..][i - 1];
      if Fits(kind, b[0].tag) {
        WalkFlat(kind, s.(bodyStarted := true), b[1..]);
      }
    }
  }

  lemma {:induction false} WalkHeader(kind: Text, h: seq<Field>)
    requires AllHeader(h)
    ensures Walk(kind, OUTSIDE, h).Some? ==> Walk(kind, OUTSIDE, h).value == OUTSIDE
  {
    if h != [] {
      assert Step(kind, OUTSIDE, h[0].tag).Some? ==> Step(kind, OUTSIDE, h[0].tag).value == OUTSIDE by {
        hide ScalarFields, ShapeOk;
      }
      hide Step;
      WalkHeader(kind, h[1..]);
    }
  }

  lemma ScopesPermuted(kind: Text, h: seq<Field>, b: seq<Field>, b': seq<Field>)
    requires kind != MASS_QUOTE && AllHeader(h) && NoHeader(b) && NoHeader(b') && multiset(b) == multiset(b')
    requires ScopesOk(kind, h + b)
    ensures ScopesOk(kind, h + b')
  {
    hide Step, Fits, IsHeader;
    WalkConcat(kind, OUTSIDE, h, b);
    WalkConcat(kind, OUTSIDE, h, b');
    WalkHeader(kind, h);
    WalkFlat(kind, OUTSIDE, b);
    WalkFlat(kind, OUTSIDE, b');
    forall i | 0 <= i < |b'| ensures Fits(kind, b'[i].tag) {
      Shared(b', b, i);
    }
  }

  lemma Shared(a: seq<Field>, b: seq<Field>, i: nat)
    requires multiset(a) == multiset(b) && i < |a|
    ensures exists j :: 0 <= j < |b| && b[j] == a[i]
  {
    assert a[i] in multiset(a);
    assert a[i] in b;
  }

  lemma UniquePermuted(a: seq<Field>, b: seq<Field>)
    requires multiset(a) == multiset(b) && Unique(a)
    ensures Unique(b)
  {
    forall i, j | 0 <= i < j < |b| ensures b[i].tag != b[j].tag {
      Shared(b, a, i);
      Shared(b, a, j);
      if b[i] == b[j] {
        Collections.Repeated(b, i, j);
        Collections.OnceOnly(a, b[i]);
        assert false;
      }
    }
  }

  lemma {:induction false} GetUnique(fields: seq<Field>, i: nat)
    requires Unique(fields) && i < |fields|
    ensures Get(fields, fields[i].tag) == Some(fields[i].value)
  {
    if i > 0 {
      assert fields[0].tag != fields[i].tag;
      GetUnique(fields[1..], i - 1);
    }
  }

  lemma GetPermuted(a: seq<Field>, b: seq<Field>, tag: nat)
    requires multiset(a) == multiset(b) && Unique(a) && Unique(b)
    ensures Get(a, tag) == Get(b, tag)
  {
    GetIsMember(a, tag);
    GetIsMember(b, tag);
    if Get(a, tag).Some? {
      var i :| 0 <= i < |a| && a[i].tag == tag;
      Shared(a, b, i);
      var j :| 0 <= j < |b| && b[j] == a[i];
      GetUnique(a, i);
      GetUnique(b, j);
    } else if Get(b, tag).Some? {
      var j :| 0 <= j < |b| && b[j].tag == tag;
      Shared(b, a, j);
      assert false;
    }
  }

  lemma ValuesPermuted(a: seq<Field>, b: seq<Field>)
    requires multiset(a) == multiset(b) && ValuesOk(a)
    ensures ValuesOk(b)
  {
    hide ValueOk;
    forall i | 0 <= i < |b| ensures ValueOk(b[i]) {
      Shared(b, a, i);
    }
  }

  lemma ProfilePermuted(reading: Reading, kind: Text, h: seq<Field>, b: seq<Field>, b': seq<Field>)
    requires kind != MASS_QUOTE && AllHeader(h) && NoHeader(b) && NoHeader(b') && multiset(b) == multiset(b')
    requires Required(kind).Some? && ProfileOk(reading, kind, h + b)
    ensures ProfileOk(reading, kind, h + b') && SameStandard(h + b, h + b')
  {
    hide ScopesOk, ValuesOk, HasAll, StandardOk, Required, Unique, Get, AllHeader, NoHeader;
    var m, m' := h + b, h + b';
    assert multiset(m) == multiset(m');
    ScopesPermuted(kind, h, b, b');
    UniquePermuted(m, m');
    ValuesPermuted(m, m');
    forall tag: nat | !IsCustom(tag) ensures Get(m, tag) == Get(m', tag) {
      GetPermuted(m, m', tag);
    }
    StandardSame(reading, kind, m, m');
  }

  lemma {:induction false} KindFromHeader(h: seq<Field>, b: seq<Field>)
    requires NoHeader(b)
    ensures Get(h + b, 35) == Get(h, 35)
  {
    if h == [] {
      assert h + b == b;
      GetIsMember(b, 35);
      assert IsHeader(35);
    } else {
      KindFromHeader(h[1..], b);
      assert (h + b)[1..] == h[1..] + b;
    }
  }

  lemma ExtractUnsupported(reading: Reading, kind: Text, fields: seq<Field>)
    requires Required(kind).None?
    ensures Extract(reading, kind, fields) == Some(Unsupported(kind))
  {
  }

  lemma HeadersStay(b: seq<Field>, b': seq<Field>)
    requires NoHeader(b) && multiset(b) == multiset(b')
    ensures NoHeader(b')
  {
    hide IsHeader;
    forall i | 0 <= i < |b'| ensures !IsHeader(b'[i].tag) {
      Shared(b', b, i);
    }
  }

  /** Any rearrangement of the body fields of a message other than a MassQuote decodes to the same
      value, or is rejected just the same. */
  lemma OrderFree(reading: Reading, h: seq<Field>, b: seq<Field>, b': seq<Field>)
    requires AllHeader(h) && NoHeader(b) && multiset(b) == multiset(b')
    requires Get(h, 35) != Some(MASS_QUOTE)
    ensures Decode(reading, h + b) == Decode(reading, h + b')
  {
    HeadersStay(b, b');
    KindFromHeader(h, b);
    KindFromHeader(h, b');
    hide ProfileOk, Extract, Required, SameStandard, Get, AllHeader, NoHeader;
    if Get(h, 35).Some? {
      var kind := Get(h, 35).value;
      if Required(kind).None? {
        OutsideProfile(reading, kind, h + b);
        OutsideProfile(reading, kind, h + b');
        ExtractUnsupported(reading, kind, h + b);
        ExtractUnsupported(reading, kind, h + b');
      } else if ProfileOk(reading, kind, h + b) {
        ProfilePermuted(reading, kind, h, b, b');
        ExtractSame(reading, kind, h + b, h + b');
      } else if ProfileOk(reading, kind, h + b') {
        ProfilePermuted(reading, kind, h, b', b);
        assert false;
      }
    }
  }
}
