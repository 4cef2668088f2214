/** Decoding a message against its dictionary (validate_field_scopes, validate_profile and decode in
    src/fix/codec.rs). Decimal and timestamp text are read by functions given as a parameter. */
module Codec {
  import opened Orders
  import opened Bytes
  import opened Frames
  import opened Dictionaries

  /** The text-reading functions of the libraries the decoder calls. */
  datatype Reading = Reading(decimal: Text -> Option<real>, validTime: Text -> bool)

  /** The first field with the tag. */
  function Get(fields: seq<Field>, tag: nat): Option<Text> {
    if fields == [] then None
    else if fields[0].tag == tag then Some(fields[0].value)
    else Get(fields[1..], tag)
  }

  // ---------------------------------------------------------------- scopes

  /** Where the walk over a message's fields stands: outside groups (0), in the quote set (1) or in
      the quote entry (2), and the last position taken in the group's table. */
  datatype ScopeState = ScopeState(bodyStarted: bool, scope: nat, previous: Option<nat>, needsDelimiter: bool)

  const OUTSIDE := ScopeState(false, 0, None, false)

  function Table(kind: Text, scope: nat): seq<nat> {
    if scope == 1 then QUOTE_SET_FIELDS else if scope == 2 then QUOTE_ENTRY_FIELDS else ScalarFields(kind)
  }

  /** One field; None is an error. */
  function Step(kind: Text, s: ScopeState, tag: nat): Option<ScopeState> {
    if !ShapeOk(tag, kind) then None
    else if IsHeader(tag) then (if s.bodyStarted then None else Some(s))
    else if kind == MASS_QUOTE && tag == 296 then Some(ScopeState(true, 1, None, true))
    else
      var table := Table(kind, s.scope);
      if s.needsDelimiter && (table == [] || table[0] != tag) then None
      else if IsCustom(tag) then Some(s.(bodyStarted := true, needsDelimiter := false))
      else
        match IndexOf(table, tag)
        case None => None
        case Some(position) =>
          if s.scope != 0 && s.previous.Some? && position <= s.previous.value then None
          else if kind == MASS_QUOTE && tag == 295 then Some(ScopeState(true, 2, None, true))
          else Some(ScopeState(true, s.scope, if s.scope != 0 then Some(position) else s.previous, false))
  }

  function Walk(kind: Text, s: ScopeState, fields: seq<Field>): Option<ScopeState>
    decreases |fields|
  {
    if fields == [] then Some(s)
    else
      match Step(kind, s, fields[0].tag)
      case None => None
      case Some(s') => Walk(kind, s', fields[1..])
  }

  predicate ScopesOk(kind: Text, fields: seq<Field>) {
    var end := Walk(kind, OUTSIDE, fields);
    end.Some? && !end.value.needsDelimiter
  }

  /** The loop over the fields, with its four variables. */
  method ValidateFieldScopes(kind: Text, fields: seq<Field>) returns (ok: bool)
    ensures ok == ScopesOk(kind, fields)
  {
    var bodyStarted, quoteScope, previous, needsDelimiter := false, 0, None, false;
    assert fields[0..] == fields;
    for i := 0 to |fields|
      invariant Walk(kind, ScopeState(bodyStarted, quoteScope, previous, needsDelimiter), fields[i..])
             == Walk(kind, OUTSIDE, fields)
    {
      hide ShapeOk, IsHeader, ScalarFields;
      assert fields[i..][0] == fields[i] && fields[i..][1..] == fields[i + 1..];
      var tag := fields[i].tag;
      if !ShapeOk(tag, kind) {
        return false;
      }
      if IsHeader(tag) {
        if bodyStarted {
          return false;
        }
        continue;
      }
      bodyStarted := true;
      if kind == MASS_QUOTE && tag == 296 {
        quoteScope, previous, needsDelimiter := 1, None, true;
        continue;
      }
      var table := Table(kind, quoteScope);
      if needsDelimiter && (table == [] || table[0] != tag) {
        return false;
      }
      needsDelimiter := false;
      if IsCustom(tag) {
        continue;
      }
      var position := IndexOf(table, tag);
      if position.None? {
        return false;
      }
      if quoteScope != 0 {
        if previous.Some? && position.value <= previous.value {
          return false;
        }
        previous := Some(position.value);
      }
      if kind == MASS_QUOTE && tag == 295 {
        quoteScope, previous, needsDelimiter := 2, None, true;
      }
    }
    ok := !needsDelimiter;
  }

  // ---------------------------------------------------------------- the profile

  predicate Unique(fields: seq<Field>) {
    forall i, j :: 0 <= i < j < |fields| ==> fields[i].tag != fields[j].tag
  }

  predicate ValueOk(f: Field) {
    f.value != [] && EnumOk(f.tag, f.value)
  }

  predicate ValuesOk(fields: seq<Field>) {
    forall i :: 0 <= i < |fields| ==> ValueOk(fields[i])
  }

  predicate HasAll(fields: seq<Field>, tags: seq<nat>) {
    forall i :: 0 <= i < |tags| ==> Get(fields, tags[i]).Some?
  }

  /** The conditions on single standard fields: timestamps, HandlInst and TimeInForce. */
  predicate StandardOk(reading: Reading, kind: Text, fields: seq<Field>) {
    && (Get(fields, 60).Some? ==> reading.validTime(Get(fields, 60).value))
    && (kind == NEW_ORDER || kind == REPLACE ==>
          Get(fields, 21) == Some([49]) && (Get(fields, 59).None? || Get(fields, 59) == Some([48])))
  }

  predicate ProfileOk(reading: Reading, kind: Text, fields: seq<Field>) {
    Required(kind).Some? ==>
      && ScopesOk(kind, fields) && Unique(fields) && ValuesOk(fields)
      && HasAll(fields, Required(kind).value) && StandardOk(reading, kind, fields)
  }

  lemma {:induction false} GetIsMember(fields: seq<Field>, tag: nat)
    ensures Get(fields, tag).Some? <==> exists i :: 0 <= i < |fields| && fields[i].tag == tag
  {
    if fields != [] {
      GetIsMember(fields[1..], tag);
      if fields[0].tag != tag {
        if Get(fields[1..], tag).Some? {
          var i :| 0 <= i < |fields[1..]| && fields[1..][i].tag == tag;
          assert fields[i + 1].tag == tag;
        } else {
          assert forall i :: 1 <= i < |fields| ==> fields[i] == fields[1..][i - 1];
        }
      }
    }
  }

  /** The loops over the fields and over the required tags, with the set of tags seen. */
  method ValidateProfile(reading: Reading, kind: Text, fields: seq<Field>) returns (ok: bool)
    ensures ok == ProfileOk(reading, kind, fields)
  {
    hide Required, StandardOk, ScopesOk, ValueOk, Get;
    var required := Required(kind);
    if required.None? {
      return true;
    }
    var scopes := ValidateFieldScopes(kind, fields);
    if !scopes {
      return false;
    }
    var seen: set<nat> := {};
    for i := 0 to |fields|
      invariant forall t :: t in seen <==> exists j :: 0 <= j < i && fields[j].tag == t
      invariant Unique(fields[..i]) && ValuesOk(fields[..i])
    {
      if fields[i].tag in seen {
        return false;
      }
      seen := seen + {fields[i].tag};
      if !ValueOk(fields[i]) {
        return false;
      }
    }
    assert fields[..|fields|] == fields;
    for i := 0 to |required.value|
      invariant forall j :: 0 <= j < i ==> Get(fields, required.value[j]).Some?
    {
      GetIsMember(fields, required.value[i]);
      if required.value[i] !in seen {
        return false;
      }
    }
    ok := StandardOk(reading, kind, fields);
  }
}
