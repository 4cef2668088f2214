/** Messages the system builds, and that its own decoder reads back as meant (the builders of
    src/fix/codec.rs). Decimal printing and the clock text are parameters. */
module Outbounds {
  import opened Orders
  import opened Bytes
  import opened Frames
  import opened Dictionaries
  import opened Codec
  import opened Inbounds
  import opened Conservativity
  import opened FieldOrder

  /** Printing this value and reading it gives it back. */
  predicate Exact(reading: Reading, shown: real -> Text, d: real) {
    shown(d) != [] && reading.decimal(shown(d)) == Some(d)
  }

  /** Printing this value may round it, but it still reads as a number that is not negative. */
  predicate Legible(reading: Reading, shown: real -> Text, d: real) {
    shown(d) != [] && reading.decimal(shown(d)).Some? && reading.decimal(shown(d)).value >= 0.0
  }

  /** A printer and a reader of whole numbers, for which every whole number is exact. */
  function ShowWhole(d: real): Text {
    if d >= 0.0 then Digits(d.Floor) else [ZERO]
  }

  function ReadWhole(t: Text): Option<real> {
    if t != [] && AllDigits(t) then Some(Value(t) as real) else None
  }

  lemma WholeIsExact(n: nat, validTime: Text -> bool)
    ensures Exact(Reading(ReadWhole, validTime), ShowWhole, n as real)
  {
    assert (n as real).Floor == n;
    DigitsValue(n);
  }

  /** What the writer puts on every message. */
  datatype Envelope = Envelope(number: nat, sender: Text, target: Text, time: Text)

  function Head(kind: Text, e: Envelope): seq<Field> {
    [Field(35, kind), Field(34, Digits(e.number)), Field(49, e.sender), Field(56, e.target), Field(52, e.time)]
  }

  ghost predicate EnvelopeOk(e: Envelope) {
    e.sender != [] && e.target != [] && e.time != []
  }

  function SideText(side: Side): Text {
    if side.Buy? then [49] else [50]
  }

  function TypeText(orderType: OrderType): Text {
    if orderType.Market? then [49] else [50]
  }

  // ---------------------------------------------------------------- any flat message

  /** A body whose fields belong to the kind, once each, with valid values. */
  ghost predicate BodyOk(kind: Text, b: seq<Field>) {
    && Unique(b) && ValuesOk(b) && NoHeader(b)
    && (forall i :: 0 <= i < |b| ==> Fits(kind, b[i].tag))
  }

  lemma {:induction false} GetConcat(a: seq<Field>, b: seq<Field>, tag: nat)
    ensures Get(a + b, tag) == (if Get(a, tag).Some? then Get(a, tag) else Get(b, tag))
  {
    if a == [] {
      assert a + b == b;
    } else {
      GetConcat(a[1..], b, tag);
      assert (a + b)[1..] == a[1..] + b;
    }
  }

  /** A header: envelope fields of the kind, once each, with valid values. */
  ghost predicate HeadOk(kind: Text, h: seq<Field>) {
    && Unique(h) && ValuesOk(h) && Get(h, 35) == Some(kind)
    && (forall i :: 0 <= i < |h| ==> IsEnvelope(h[i].tag))
  }

  lemma HeadIsOk(kind: Text, e: Envelope)
    requires kind != [] && EnvelopeOk(e)
    ensures HeadOk(kind, Head(kind, e))
  {
  }

  lemma EnvelopeIsHeader(tag: nat, kind: Text)
    requires IsEnvelope(tag)
    ensures IsHeader(tag) && ShapeOk(tag, kind)
  {
  }

  lemma HeadSame(kind: Text, h: seq<Field>, b: seq<Field>)
    requires HeadOk(kind, h)
    ensures SameStandard(h + b, b) && Get(h + b, 35) == Some(kind)
  {
    GetConcat(h, b, 35);
    forall tag: nat | !IsCustom(tag) && !IsEnvelope(tag) ensures Get(h + b, tag) == Get(b, tag) {
      NotFound(h, tag);
      GetConcat(h, b, tag);
    }
  }

  lemma HeadHeader(kind: Text, h: seq<Field>)
    requires HeadOk(kind, h)
    ensures AllHeader(h) && Walk(kind, OUTSIDE, h) == Some(OUTSIDE)
  {
    hide IsHeader, ShapeOk, Walk, Unique, ValuesOk;
    forall i | 0 <= i < |h| ensures IsHeader(h[i].tag) && ShapeOk(h[i].tag, kind) {
      EnvelopeIsHeader(h[i].tag, kind);
    }
    HeaderWalks(kind, h);
  }

  lemma {:induction false} HeaderWalks(kind: Text, h: seq<Field>)
    requires forall i :: 0 <= i < |h| ==> IsHeader(h[i].tag) && ShapeOk(h[i].tag, kind)
    ensures Walk(kind, OUTSIDE, h) == Some(OUTSIDE)
  {
    hide IsHeader, ShapeOk;
    if h != [] {
      HeaderWalks(kind, h[1..]);
    }
  }

  lemma HeadUnique(kind: Text, h: seq<Field>, b: seq<Field>)
    requires HeadOk(kind, h) && Unique(b) && NoHeader(b)
    ensures Unique(h + b) && AllHeader(h)
  {
    HeadHeader(kind, h);
    hide IsHeader, IsEnvelope, Walk, ValuesOk, Get;
    var m := h + b;
    forall i, j | 0 <= i < j < |m| ensures m[i].tag != m[j].tag {
      if i < |h| && j >= |h| {
        assert IsHeader(h[i].tag) && !IsHeader(b[j - |h|].tag);
      } else if i >= |h| {
        assert m[i] == b[i - |h|] && m[j] == b[j - |h|];
      }
    }
  }

  lemma ValuesConcat(a: seq<Field>, b: seq<Field>)
    requires ValuesOk(a) && ValuesOk(b)
    ensures ValuesOk(a + b)
  {
  }

  /** A body with valid scopes, unique tags and valid values decodes to what its fields say. */
  lemma ScopedDecodes(reading: Reading, kind: Text, h: seq<Field>, b: seq<Field>)
    requires HeadOk(kind, h) && Required(kind).Some? && ScopesOk(kind, h + b)
    requires Unique(b) && ValuesOk(b) && NoHeader(b)
    requires HasAll(b, Required(kind).value) && StandardOk(reading, kind, b)
    ensures Decode(reading, h + b) == Extract(reading, kind, b)
  {
    hide Required, HasAll, StandardOk, Extract, SameStandard, Unique, ValuesOk, NoHeader, ScopesOk, Get;
    HeadSame(kind, h, b);
    HeadUnique(kind, h, b);
    ValuesConcat(h, b);
    StandardSame(reading, kind, h + b, b);
    ExtractSame(reading, kind, h + b, b);
    DecodeIs(reading, h + b);
  }

  /** Outside MassQuote it is enough that every field belongs to the kind. */
  lemma FlatDecodes(reading: Reading, kind: Text, h: seq<Field>, b: seq<Field>)
    requires kind != MASS_QUOTE && HeadOk(kind, h) && Required(kind).Some? && BodyOk(kind, b)
    requires HasAll(b, Required(kind).value) && StandardOk(reading, kind, b)
    ensures Decode(reading, h + b) == Extract(reading, kind, b)
  {
    hide HeadOk, Required, HasAll, StandardOk, Extract, Unique, ValuesOk, NoHeader, ScopesOk, Decode, Walk;
    HeadHeader(kind, h);
    FlatScopes(kind, h, b);
    ScopedDecodes(reading, kind, h, b);
  }

  lemma FlatScopes(kind: Text, h: seq<Field>, b: seq<Field>)
    requires kind != MASS_QUOTE && BodyOk(kind, b) && Walk(kind, OUTSIDE, h) == Some(OUTSIDE)
    ensures ScopesOk(kind, h + b)
  {
    hide Step, Fits, IsHeader;
    WalkConcat(kind, OUTSIDE, h, b);
    WalkFlat(kind, OUTSIDE, b);
  }

  // ---------------------------------------------------------------- orders

  /** The order an initiator asks for, as fields. */
  function NewOrderBody(shown: real -> Text, time: Text, id: Text, symbol: Text, side: Side, orderType: OrderType,
                        price: real, quantity: real): seq<Field>
  {
    [Field(11, id), Field(21, [49]), Field(55, symbol), Field(54, SideText(side)), Field(60, time),
     Field(40, TypeText(orderType)), Field(38, shown(quantity))]
    + (if orderType.Limit? then [Field(44, shown(price))] else [])
  }

  function CancelBody(time: Text, orig: Text, id: Text, symbol: Text, side: Side): seq<Field> {
    [Field(41, orig), Field(11, id), Field(55, symbol), Field(54, SideText(side)), Field(60, time)]
  }

  function ReplaceBody(shown: real -> Text, time: Text, orig: Text, id: Text, symbol: Text, side: Side, price: real,
                       quantity: real): seq<Field>
  {
    [Field(41, orig), Field(11, id), Field(21, [49]), Field(55, symbol), Field(54, SideText(side)), Field(60, time),
     Field(40, [50]), Field(38, shown(quantity)), Field(44, shown(price))]
  }

  lemma NewOrderTags(tag: nat)
    requires tag in {11, 21, 55, 54, 60, 38, 40, 44}
    ensures tag in NEW_ORDER_FIELDS
  {
    var t := NEW_ORDER_FIELDS;
    assert t[0] == 11;
    assert t[6] == 21;
    assert t[12] == 55;
    assert t[28] == 54;
    assert t[30] == 60;
    assert t[31] == 38;
    assert t[33] == 40;
    assert t[34] == 44;
  }

  lemma ReplaceTags(tag: nat)
    requires tag in {41, 11, 21, 55, 54, 60, 38, 40, 44}
    ensures tag in REPLACE_FIELDS
  {
    var t := REPLACE_FIELDS;
    assert t[3] == 41;
    assert t[4] == 11;
    assert t[9] == 21;
    assert t[14] == 55;
    assert t[29] == 54;
    assert t[30] == 60;
    assert t[31] == 38;
    assert t[33] == 40;
    assert t[34] == 44;
  }

  lemma CancelTags(tag: nat)
    requires tag in {41, 11, 55, 54, 60}
    ensures tag in CANCEL_FIELDS
  {
    var t := CANCEL_FIELDS;
    assert t[0] == 41;
    assert t[2] == 11;
    assert t[7] == 55;
    assert t[22] == 54;
    assert t[23] == 60;
  }

  lemma ExecutionTags(tag: nat)
    requires tag in {37, 11, 41, 17, 20, 150, 39, 55, 54, 38, 40, 44, 32, 31, 151, 14, 6, 60}
    ensures tag in EXECUTION_FIELDS
  {
    var t := EXECUTION_FIELDS;
    assert t[0] == 37;
    assert t[2] == 11;
    assert t[3] == 41;
    assert t[7] == 17;
    assert t[8] == 20;
    assert t[10] == 150;
    assert t[11] == 39;
    assert t[17] == 55;
    assert t[32] == 54;
    assert t[33] == 38;
    assert t[35] == 40;
    assert t[36] == 44;
    assert t[50] == 32;
    assert t[51] == 31;
    assert t[57] == 151;
    assert t[58] == 14;
    assert t[59] == 6;
    assert t[65] == 60;
  }

  lemma PlainTags(tag: nat, kind: Text)
    requires tag in {37, 11, 41, 17, 20, 150, 39, 55, 54, 38, 40, 44, 32, 31, 151, 14, 6, 60, 21}
    ensures ShapeOk(tag, kind) && !IsHeader(tag)
  {
  }

  /** A field is found where it stands. */
  lemma Found(b: seq<Field>, i: nat, tag: nat, value: Text)
    requires Unique(b) && i < |b| && b[i] == Field(tag, value)
    ensures Get(b, tag) == Some(value)
  {
    GetUnique(b, i);
  }

  lemma NotFound(b: seq<Field>, tag: nat)
    requires forall i :: 0 <= i < |b| ==> b[i].tag != tag
    ensures Get(b, tag).None?
  {
    GetIsMember(b, tag);
  }

  lemma NewOrderBodyOk(shown: real -> Text, time: Text, id: Text, symbol: Text, side: Side, orderType: OrderType,
                       price: real, quantity: real)
    requires shown(quantity) != [] && (orderType.Limit? ==> shown(price) != []) && time != [] && id != []
    requires symbol != []
    ensures BodyOk(NEW_ORDER, NewOrderBody(shown, time, id, symbol, side, orderType, price, quantity))
  {
    var b := NewOrderBody(shown, time, id, symbol, side, orderType, price, quantity);
    TablesOf();
    hide ScalarFields, NEW_ORDER_FIELDS, IsHeader, ShapeOk;
    forall i | 0 <= i < |b| ensures Fits(NEW_ORDER, b[i].tag) && !IsHeader(b[i].tag) {
      NewOrderTags(b[i].tag);
      PlainTags(b[i].tag, NEW_ORDER);
    }
    hide Fits;
    assert Unique(b);
    assert ValuesOk(b);
  }

  lemma TablesOf()
    ensures ScalarFields(NEW_ORDER) == NEW_ORDER_FIELDS && ScalarFields(REPLACE) == REPLACE_FIELDS
    ensures ScalarFields(CANCEL) == CANCEL_FIELDS && ScalarFields(EXECUTION) == EXECUTION_FIELDS
  {
    hide NEW_ORDER_FIELDS, REPLACE_FIELDS, CANCEL_FIELDS, EXECUTION_FIELDS;
  }

  /** What the fields of an order request say. */
  ghost predicate SaysOrder(f: seq<Field>, shown: real -> Text, time: Text, id: Text, symbol: Text, side: Side,
                            orderType: OrderType, price: Option<real>, quantity: real)
  {
    && Get(f, 11) == Some(id) && Get(f, 21) == Some([49]) && Get(f, 55) == Some(symbol)
    && Get(f, 54) == Some(SideText(side)) && Get(f, 60) == Some(time) && Get(f, 40) == Some(TypeText(orderType))
    && Get(f, 38) == Some(shown(quantity)) && Get(f, 59).None?
    && Get(f, 44) == (if price.Some? then Some(shown(price.value)) else None)
  }

  lemma NewOrderSays(shown: real -> Text, time: Text, id: Text, symbol: Text, side: Side, orderType: OrderType,
                     price: real, quantity: real)
    requires Unique(NewOrderBody(shown, time, id, symbol, side, orderType, price, quantity))
    ensures SaysOrder(NewOrderBody(shown, time, id, symbol, side, orderType, price, quantity), shown, time, id, symbol,
                      side,
                      orderType, if orderType.Limit? then Some(price) else None, quantity)
  {
    var b := NewOrderBody(shown, time, id, symbol, side, orderType, price, quantity);
    Found(b, 0, 11, id);
    Found(b, 1, 21, [49]);
    Found(b, 2, 55, symbol);
    Found(b, 3, 54, SideText(side));
    Found(b, 4, 60, time);
    Found(b, 5, 40, TypeText(orderType));
    Found(b, 6, 38, shown(quantity));
    if orderType.Limit? {
      Found(b, 7, 44, shown(price));
    } else {
      NotFound(b, 44);
    }
    NotFound(b, 59);
  }

  lemma OrderMeans(reading: Reading, shown: real -> Text, f: seq<Field>, time: Text, id: Text, symbol: Text, side: Side,
                   orderType: OrderType, price: Option<real>, quantity: real)
    requires SaysOrder(f, shown, time, id, symbol, side, orderType, price, quantity)
    requires Exact(reading, shown, quantity) && (price.Some? ==> Exact(reading, shown, price.value))
    requires quantity > 0.0 && (orderType.Limit? <==> price.Some?) && (price.Some? ==> price.value > 0.0)
    ensures ReadOrder(reading, f)
         == Some(NewOrderSingle(id, symbol, side, orderType, if price.Some? then price.value else 0.0, quantity))
  {
    hide Get;
  }

  lemma OrderComplete(reading: Reading, shown: real -> Text, f: seq<Field>, time: Text, id: Text, symbol: Text,
                      side: Side,
                      orderType: OrderType, price: Option<real>, quantity: real)
    requires SaysOrder(f, shown, time, id, symbol, side, orderType, price, quantity) && reading.validTime(time)
    ensures HasAll(f, [11, 21, 55, 54, 60, 40, 38]) && StandardOk(reading, NEW_ORDER, f)
    ensures StandardOk(reading, REPLACE, f)
  {
    hide Get;
  }

  /** A new order is read as the order it stands for; a market order's price is not sent. */
  lemma NewOrderRoundTrip(reading: Reading, shown: real -> Text, e: Envelope, time: Text, id: Text, symbol: Text,
                          side: Side,
                          orderType: OrderType, price: real, quantity: real)
    requires Exact(reading, shown, quantity) && (orderType.Limit? ==> Exact(reading, shown, price))
    requires EnvelopeOk(e) && time != [] && reading.validTime(time) && id != [] && symbol != []
    requires quantity > 0.0 && (orderType.Limit? ==> price > 0.0)
    ensures Decode(reading,
                   Head(NEW_ORDER, e) + NewOrderBody(shown, time, id, symbol, side, orderType, price, quantity))
         == Some(NewOrderSingle(id, symbol, side, orderType, if orderType.Limit? then price else 0.0, quantity))
  {
    hide Decode, Head, NewOrderBody, SaysOrder, ReadOrder, StandardOk, HasAll, Unique, ValuesOk, NoHeader;
    var b := NewOrderBody(shown, time, id, symbol, side, orderType, price, quantity);
    var sent := if orderType.Limit? then Some(price) else None;
    NewOrderBodyOk(shown, time, id, symbol, side, orderType, price, quantity);
    NewOrderSays(shown, time, id, symbol, side, orderType, price, quantity);
    OrderMeans(reading, shown, b, time, id, symbol, side, orderType, sent, quantity);
    OrderComplete(reading, shown, b, time, id, symbol, side, orderType, sent, quantity);
    HeadIsOk(NEW_ORDER, e);
    FlatDecodes(reading, NEW_ORDER, Head(NEW_ORDER, e), b);
  }

  lemma ReplaceBodyOk(shown: real -> Text, time: Text, orig: Text, id: Text, symbol: Text, side: Side, price: real,
                      quantity: real)
    requires shown(price) != [] && shown(quantity) != [] && time != [] && orig != [] && id != [] && symbol != []
    ensures BodyOk(REPLACE, ReplaceBody(shown, time, orig, id, symbol, side, price, quantity))
  {
    var b := ReplaceBody(shown, time, orig, id, symbol, side, price, quantity);
    TablesOf();
    hide ScalarFields, REPLACE_FIELDS, IsHeader, ShapeOk;
    forall i | 0 <= i < |b| ensures Fits(REPLACE, b[i].tag) && !IsHeader(b[i].tag) {
      ReplaceTags(b[i].tag);
      PlainTags(b[i].tag, REPLACE);
    }
    hide Fits;
    assert Unique(b);
    assert ValuesOk(b);
  }

  lemma ReplaceSays(shown: real -> Text, time: Text, orig: Text, id: Text, symbol: Text, side: Side, price: real,
                    quantity: real)
    requires Unique(ReplaceBody(shown, time, orig, id, symbol, side, price, quantity))
    ensures var b := ReplaceBody(shown, time, orig, id, symbol, side, price, quantity);
            SaysOrder(b, shown, time, id, symbol, side, Limit, Some(price), quantity) && Get(b, 41) == Some(orig)
  {
    var b := ReplaceBody(shown, time, orig, id, symbol, side, price, quantity);
    Found(b, 0, 41, orig);
    Found(b, 1, 11, id);
    Found(b, 2, 21, [49]);
    Found(b, 3, 55, symbol);
    Found(b, 4, 54, SideText(side));
    Found(b, 5, 60, time);
    Found(b, 6, 40, [50]);
    Found(b, 7, 38, shown(quantity));
    Found(b, 8, 44, shown(price));
    NotFound(b, 59);
  }

  /** A replace request is read as the terms it asks for. */
  lemma ReplaceRoundTrip(reading: Reading, shown: real -> Text, e: Envelope, time: Text, orig: Text, id: Text,
                         symbol: Text, side: Side,
                         price: real, quantity: real)
    requires Exact(reading, shown, price) && Exact(reading, shown, quantity)
    requires EnvelopeOk(e) && time != [] && reading.validTime(time)
    requires orig != [] && id != [] && symbol != [] && quantity > 0.0 && price > 0.0
    ensures Decode(reading, Head(REPLACE, e) + ReplaceBody(shown, time, orig, id, symbol, side, price, quantity))
         == Some(CancelReplace(id, orig, symbol, side, Limit, price, quantity))
  {
    hide Decode, Head, ReplaceBody, SaysOrder, ReadOrder, StandardOk, Unique, ValuesOk, NoHeader, Get;
    var b := ReplaceBody(shown, time, orig, id, symbol, side, price, quantity);
    ReplaceBodyOk(shown, time, orig, id, symbol, side, price, quantity);
    ReplaceSays(shown, time, orig, id, symbol, side, price, quantity);
    OrderMeans(reading, shown, b, time, id, symbol, side, Limit, Some(price), quantity);
    OrderComplete(reading, shown, b, time, id, symbol, side, Limit, Some(price), quantity);
    ReplaceHasAll(b);
    HeadIsOk(REPLACE, e);
    FlatDecodes(reading, REPLACE, Head(REPLACE, e), b);
  }

  lemma ReplaceHasAll(f: seq<Field>)
    requires HasAll(f, [11, 21, 55, 54, 60, 40, 38]) && Get(f, 41).Some?
    ensures HasAll(f, Required(REPLACE).value)
  {
    hide Get;
    var have := [11, 21, 55, 54, 60, 40, 38];
    assert have[0] == 11 && have[1] == 21 && have[2] == 55 && have[3] == 54;
    assert have[4] == 60 && have[5] == 40 && have[6] == 38;
  }

  lemma CancelBodyOk(time: Text, orig: Text, id: Text, symbol: Text, side: Side)
    requires time != [] && orig != [] && id != [] && symbol != []
    ensures BodyOk(CANCEL, CancelBody(time, orig, id, symbol, side))
  {
    var b := CancelBody(time, orig, id, symbol, side);
    TablesOf();
    hide ScalarFields, CANCEL_FIELDS, IsHeader, ShapeOk;
    forall i | 0 <= i < |b| ensures Fits(CANCEL, b[i].tag) && !IsHeader(b[i].tag) {
      CancelTags(b[i].tag);
      PlainTags(b[i].tag, CANCEL);
    }
    hide Fits;
    assert Unique(b);
    assert ValuesOk(b);
  }

  lemma CancelSays(reading: Reading, time: Text, orig: Text, id: Text, symbol: Text, side: Side)
    requires Unique(CancelBody(time, orig, id, symbol, side)) && reading.validTime(time)
    ensures var b := CancelBody(time, orig, id, symbol, side);
            && ReadCancel(reading, b) == Some(CancelRequest(id, orig, symbol, side))
            && HasAll(b, Required(CANCEL).value) && StandardOk(reading, CANCEL, b)
  {
    var b := CancelBody(time, orig, id, symbol, side);
    Found(b, 0, 41, orig);
    Found(b, 1, 11, id);
    Found(b, 2, 55, symbol);
    Found(b, 3, 54, SideText(side));
    Found(b, 4, 60, time);
    NotFound(b, 38);
    hide Get, CancelBody, Unique;
  }

  /** A cancel request is read as the request it stands for. */
  lemma CancelRoundTrip(reading: Reading, e: Envelope, time: Text, orig: Text, id: Text, symbol: Text, side: Side)
    requires EnvelopeOk(e) && time != [] && reading.validTime(time) && orig != [] && id != [] && symbol != []
    ensures Decode(reading, Head(CANCEL, e) + CancelBody(time, orig, id, symbol, side))
         == Some(CancelRequest(id, orig, symbol, side))
  {
    hide Decode, Head, CancelBody, ReadCancel, StandardOk, HasAll, Unique, ValuesOk, NoHeader;
    CancelBodyOk(time, orig, id, symbol, side);
    CancelSays(reading, time, orig, id, symbol, side);
    HeadIsOk(CANCEL, e);
    FlatDecodes(reading, CANCEL, Head(CANCEL, e), CancelBody(time, orig, id, symbol, side));
  }
}
