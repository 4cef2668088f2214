/** A MassQuote as the system builds it passes its own group rules and is read back as the same
    two-sided quote (build_mass_quote and the MassQuote scopes of src/fix/codec.rs). */
module QuoteMessages {
  import opened Orders
  import opened Bytes
  import opened Frames
  import opened Dictionaries
  import opened Codec
  import opened Inbounds
  import opened Conservativity
  import opened Outbounds

  function MassQuoteBody(shown: real -> Text, quoteId: Text, symbol: Text, bidPx: real, bidQty: real, askPx: real,
                         askQty: real): seq<Field>
  {
    [Field(117, quoteId), Field(296, [49]), Field(302, [49]), Field(311, symbol), Field(304, [49]), Field(295, [49]),
     Field(299, symbol), Field(55, symbol), Field(132, shown(bidPx)), Field(133, shown(askPx)),
     Field(134, shown(bidQty)), Field(135, shown(askQty))]
  }

  function TagsOf(fields: seq<Field>): seq<nat> {
    seq(|fields|, i requires 0 <= i < |fields| => fields[i].tag)
  }

  const QUOTE_TAGS: seq<nat> := [117, 296, 302, 311, 304, 295, 299, 55, 132, 133, 134, 135]

  /** One step of the walk at position k. */
  lemma WalkAt(kind: Text, s: ScopeState, fields: seq<Field>, k: nat, next: ScopeState)
    requires k < |fields| && Step(kind, s, fields[k].tag) == Some(next)
    ensures Walk(kind, s, fields[k..]) == Walk(kind, next, fields[k + 1..])
  {
    hide Step;
    assert fields[k..][0] == fields[k] && fields[k..][1..] == fields[k + 1..];
  }

  /** A group field further down its table than the last one. */
  lemma GroupStep(s: ScopeState, tag: nat, i: nat)
    requires s.scope == 1 || s.scope == 2
    requires var t := Table(MASS_QUOTE, s.scope); i < |t| && t[i] == tag && tag !in t[..i]
    requires (s.previous.Some? ==> s.previous.value < i) && (s.needsDelimiter ==> i == 0)
    requires ShapeOk(tag, MASS_QUOTE) && !IsHeader(tag) && !IsCustom(tag) && tag != 296
    ensures Step(MASS_QUOTE, s, tag)
         == Some(if tag == 295 then ScopeState(true, 2, None, true) else ScopeState(true, s.scope, Some(i), false))
  {
    var t := Table(MASS_QUOTE, s.scope);
    IndexIs(t, tag, i);
    hide ShapeOk, IsHeader, Table, IndexOf;
    assert t != [];
  }

  lemma QuoteTagsPlain(tag: nat)
    requires tag in {117, 296, 302, 311, 304, 295, 299, 55, 132, 133, 134, 135}
    ensures ShapeOk(tag, MASS_QUOTE) && !IsHeader(tag) && !IsCustom(tag)
  {
  }

  lemma SetPlaces()
    ensures var t := QUOTE_SET_FIELDS;
            && |t| == 19 && t[0] == 302 && t[1] == 311 && t[17] == 304 && t[18] == 295
            && 311 !in t[..1] && 304 !in t[..17] && 295 !in t[..18]
  {
  }

  lemma EntryPlaces()
    ensures var t := QUOTE_ENTRY_FIELDS;
            && |t| == 32 && t[0] == 299 && t[1] == 55 && t[16] == 132 && t[17] == 133 && t[18] == 134 && t[19] == 135
            && 55 !in t[..1] && 132 !in t[..16] && 133 !in t[..17] && 134 !in t[..18] && 135 !in t[..19]
  {
  }

  lemma FirstSteps()
    ensures Step(MASS_QUOTE, OUTSIDE, 117) == Some(ScopeState(true, 0, None, false))
    ensures Step(MASS_QUOTE, ScopeState(true, 0, None, false), 296) == Some(ScopeState(true, 1, None, true))
  {
    QuoteTagsPlain(117);
    QuoteTagsPlain(296);
    IndexIs(MASS_QUOTE_FIELDS, 117, 1);
    assert ScalarFields(MASS_QUOTE) == MASS_QUOTE_FIELDS;
    hide ShapeOk, IsHeader, IndexOf, ScalarFields, MASS_QUOTE_FIELDS;
  }

  /** The set's fields in table order, ending with the count of entries. */
  lemma SetSteps(b: seq<Field>)
    requires TagsOf(b) == QUOTE_TAGS
    ensures Walk(MASS_QUOTE, ScopeState(true, 1, None, true), b[2..])
         == Walk(MASS_QUOTE, ScopeState(true, 2, None, true), b[6..])
  {
    SetPlaces();
    hide QUOTE_SET_FIELDS, Step, Walk, IsHeader, ShapeOk, IndexOf;
    assert forall i :: 0 <= i < 12 ==> b[i].tag == QUOTE_TAGS[i] by {
      assert forall i :: 0 <= i < |b| ==> TagsOf(b)[i] == b[i].tag;
    }
    QuoteTagsPlain(302);
    QuoteTagsPlain(311);
    QuoteTagsPlain(304);
    QuoteTagsPlain(295);
    var s0, s1, s2, s3 := ScopeState(true, 1, None, true), ScopeState(true, 1, Some(0), false),
                          ScopeState(true, 1, Some(1), false), ScopeState(true, 1, Some(17), false);
    GroupStep(s0, 302, 0);
    GroupStep(s1, 311, 1);
    GroupStep(s2, 304, 17);
    GroupStep(s3, 295, 18);
    WalkAt(MASS_QUOTE, s0, b, 2, s1);
    WalkAt(MASS_QUOTE, s1, b, 3, s2);
    WalkAt(MASS_QUOTE, s2, b, 4, s3);
    WalkAt(MASS_QUOTE, s3, b, 5, ScopeState(true, 2, None, true));
  }

  /** The entry's fields in table order. */
  lemma EntrySteps(b: seq<Field>)
    requires TagsOf(b) == QUOTE_TAGS
    ensures Walk(MASS_QUOTE, ScopeState(true, 2, None, true), b[6..]) == Some(ScopeState(true, 2, Some(19), false))
  {
    EntryPlaces();
    hide QUOTE_ENTRY_FIELDS, Step, IsHeader, ShapeOk, IndexOf;
    assert |b| == 12;
    assert forall i :: 0 <= i < 12 ==> b[i].tag == QUOTE_TAGS[i] by {
      assert forall i :: 0 <= i < |b| ==> TagsOf(b)[i] == b[i].tag;
    }
    QuoteTagsPlain(299);
    QuoteTagsPlain(55);
    QuoteTagsPlain(132);
    QuoteTagsPlain(133);
    QuoteTagsPlain(134);
    QuoteTagsPlain(135);
    var s0, s1 := ScopeState(true, 2, None, true), ScopeState(true, 2, Some(0), false);
    var s2, s3 := ScopeState(true, 2, Some(1), false), ScopeState(true, 2, Some(16), false);
    var s4, s5 := ScopeState(true, 2, Some(17), false), ScopeState(true, 2, Some(18), false);
    GroupStep(s0, 299, 0);
    GroupStep(s1, 55, 1);
    GroupStep(s2, 132, 16);
    GroupStep(s3, 133, 17);
    GroupStep(s4, 134, 18);
    GroupStep(s5, 135, 19);
    WalkAt(MASS_QUOTE, s0, b, 6, s1);
    WalkAt(MASS_QUOTE, s1, b, 7, s2);
    WalkAt(MASS_QUOTE, s2, b, 8, s3);
    WalkAt(MASS_QUOTE, s3, b, 9, s4);
    WalkAt(MASS_QUOTE, s4, b, 10, s5);
    WalkAt(MASS_QUOTE, s5, b, 11, ScopeState(true, 2, Some(19), false));
    assert b[12..] == [];
  }

  lemma QuoteScopes(e: Envelope, b: seq<Field>)
    requires TagsOf(b) == QUOTE_TAGS && EnvelopeOk(e)
    ensures ScopesOk(MASS_QUOTE, Head(MASS_QUOTE, e) + b)
  {
    HeadIsOk(MASS_QUOTE, e);
    hide Head, HeadOk, Step, Walk;
    HeadHeader(MASS_QUOTE, Head(MASS_QUOTE, e));
    WalkConcat(MASS_QUOTE, OUTSIDE, Head(MASS_QUOTE, e), b);
    FirstSteps();
    assert b[0].tag == TagsOf(b)[0] && b[1].tag == TagsOf(b)[1];
    WalkAt(MASS_QUOTE, OUTSIDE, b, 0, ScopeState(true, 0, None, false));
    WalkAt(MASS_QUOTE, ScopeState(true, 0, None, false), b, 1, ScopeState(true, 1, None, true));
    assert b[0..] == b;
    SetSteps(b);
    EntrySteps(b);
  }

  lemma QuoteBodyOk(shown: real -> Text, quoteId: Text, symbol: Text, bidPx: real, bidQty: real, askPx: real,
                    askQty: real)
    requires shown(bidPx) != [] && shown(bidQty) != [] && shown(askPx) != [] && shown(askQty) != []
    requires quoteId != [] && symbol != []
    ensures var b := MassQuoteBody(shown, quoteId, symbol, bidPx, bidQty, askPx, askQty);
            Unique(b) && ValuesOk(b) && NoHeader(b) && TagsOf(b) == QUOTE_TAGS
  {
    var b := MassQuoteBody(shown, quoteId, symbol, bidPx, bidQty, askPx, askQty);
    hide IsHeader, ShapeOk;
    forall i | 0 <= i < |b| ensures !IsHeader(b[i].tag) {
      QuoteTagsPlain(b[i].tag);
    }
    assert Unique(b);
    assert ValuesOk(b);
  }

  /** What the fields of a quote say. */
  ghost predicate SaysQuote(f: seq<Field>, shown: real -> Text, quoteId: Text, symbol: Text, bidPx: real, bidQty: real,
                            askPx: real, askQty: real)
  {
    && Get(f, 117) == Some(quoteId) && Get(f, 296) == Some([49])
    && Get(f, 302) == Some([49]) && Get(f, 311) == Some(symbol)
    && Get(f, 304) == Some([49]) && Get(f, 295) == Some([49])
    && Get(f, 299) == Some(symbol) && Get(f, 55) == Some(symbol)
    && Get(f, 132) == Some(shown(bidPx)) && Get(f, 133) == Some(shown(askPx))
    && Get(f, 134) == Some(shown(bidQty)) && Get(f, 135) == Some(shown(askQty))
    && Get(f, 301).None? && Get(f, 60).None?
  }

  lemma QuoteSays(shown: real -> Text, quoteId: Text, symbol: Text, bidPx: real, bidQty: real, askPx: real,
                  askQty: real)
    requires Unique(MassQuoteBody(shown, quoteId, symbol, bidPx, bidQty, askPx, askQty))
    ensures SaysQuote(MassQuoteBody(shown, quoteId, symbol, bidPx, bidQty, askPx, askQty), shown, quoteId, symbol,
                      bidPx, bidQty, askPx, askQty)
  {
    var b := MassQuoteBody(shown, quoteId, symbol, bidPx, bidQty, askPx, askQty);
    hide Unique, Get;
    Found(b, 0, 117, quoteId);
    Found(b, 1, 296, [49]);
    Found(b, 2, 302, [49]);
    Found(b, 3, 311, symbol);
    Found(b, 4, 304, [49]);
    Found(b, 5, 295, [49]);
    Found(b, 6, 299, symbol);
    Found(b, 7, 55, symbol);
    Found(b, 8, 132, shown(bidPx));
    Found(b, 9, 133, shown(askPx));
    Found(b, 10, 134, shown(bidQty));
    Found(b, 11, 135, shown(askQty));
    NotFound(b, 301);
    NotFound(b, 60);
  }

  lemma QuoteMeans(reading: Reading, f: seq<Field>, shown: real -> Text, quoteId: Text, symbol: Text, bidPx: real,
                   bidQty: real,
                   askPx: real, askQty: real)
    requires SaysQuote(f, shown, quoteId, symbol, bidPx, bidQty, askPx, askQty)
    requires Exact(reading, shown, bidPx) && Exact(reading, shown, bidQty)
    requires Exact(reading, shown, askPx) && Exact(reading, shown, askQty)
    requires bidPx >= 0.0 && bidQty >= 0.0 && askPx >= 0.0 && askQty >= 0.0
    ensures ReadQuote(reading, f) == Some(MassQuote(quoteId, 0, symbol, bidPx, bidQty, askPx, askQty))
    ensures HasAll(f, Required(MASS_QUOTE).value) && StandardOk(reading, MASS_QUOTE, f)
  {
    hide Get;
  }

  /** A quote passes the group rules and is read back side for side. */
  lemma MassQuoteRoundTrip(reading: Reading, shown: real -> Text, e: Envelope, quoteId: Text, symbol: Text,
                           bidPx: real, bidQty: real, askPx: real, askQty: real)
    requires Exact(reading, shown, bidPx) && Exact(reading, shown, bidQty)
    requires Exact(reading, shown, askPx) && Exact(reading, shown, askQty)
    requires EnvelopeOk(e) && quoteId != [] && symbol != []
    requires bidPx >= 0.0 && bidQty >= 0.0 && askPx >= 0.0 && askQty >= 0.0
    ensures Decode(reading, Head(MASS_QUOTE, e) + MassQuoteBody(shown, quoteId, symbol, bidPx, bidQty, askPx, askQty))
         == Some(MassQuote(quoteId, 0, symbol, bidPx, bidQty, askPx, askQty))
  {
    hide Decode, Head, MassQuoteBody, SaysQuote, ReadQuote, StandardOk, HasAll, Unique, ValuesOk, NoHeader, ScopesOk;
    hide TagsOf;
    var b := MassQuoteBody(shown, quoteId, symbol, bidPx, bidQty, askPx, askQty);
    QuoteBodyOk(shown, quoteId, symbol, bidPx, bidQty, askPx, askQty);
    QuoteSays(shown, quoteId, symbol, bidPx, bidQty, askPx, askQty);
    QuoteMeans(reading, b, shown, quoteId, symbol, bidPx, bidQty, askPx, askQty);
    QuoteScopes(e, b);
    HeadIsOk(MASS_QUOTE, e);
    ScopedDecodes(reading, MASS_QUOTE, Head(MASS_QUOTE, e), b);
  }
}
