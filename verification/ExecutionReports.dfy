/** Execution reports as the exchange builds them are read back as the state they report
    (build_execution_report and the execution branch of decode in src/fix/codec.rs). */
module ExecutionReports {
  import opened Orders
  import opened Bytes
  import opened Frames
  import opened Dictionaries
  import opened Codec
  import opened Inbounds
  import opened Conservativity
  import opened FieldOrder
  import opened Outbounds
  import Fills
  import FrameRoundTrips
  import FrameStreams

  datatype Event =
    | EventNew | EventPartialFill | EventFill | EventCancelled | EventReplaced | EventRejected | EventExpired

  /** A report to send: a status event, or a fill of the order as it now stands. */
  datatype Outgoing =
    | StatusReport(order: Order, exchangeId: Text, symbol: Text, execId: Text, clOrdId: nat, event: Event,
                   orig: Option<nat>)
    | FillReport(order: Order, exchangeId: Text, symbol: Text, execId: Text, price: real, quantity: real,
                 orig: Option<nat>)
  {
    function Id(): nat {
      if StatusReport? then clOrdId else order.id
    }

    function What(): Event {
      if StatusReport? then event else if order.remaining == 0.0 then EventFill else EventPartialFill
    }

    function LastPrice(): real {
      if FillReport? then price else 0.0
    }

    function LastQuantity(): real {
      if FillReport? then quantity else 0.0
    }
  }

  function EventText(e: Event): Text {
    match e
    case EventNew => [48]
    case EventPartialFill => [49]
    case EventFill => [50]
    case EventCancelled => [52]
    case EventReplaced => [53]
    case EventRejected => [56]
    case EventExpired => [67]
  }

  function StateText(state: OrderState): Text {
    match state
    case Booked => [48]
    case New => [48]
    case PartialFill => [49]
    case Filled => [50]
    case Cancelled => [52]
    case Rejected => [56]
    case Expired => [67]
  }

  function StatusText(r: Outgoing): Text {
    if r.What().EventReplaced? && r.order.cum == 0.0 then [53] else StateText(r.order.state)
  }

  /** What is still open, as reported: nothing once the order is no longer active. */
  function Leaves(o: Order): real {
    if o.state.IsActive() then o.remaining else 0.0
  }

  function BaseFields(shown: real -> Text, time: Text, r: Outgoing): seq<Field> {
    [Field(37, r.exchangeId), Field(17, r.execId), Field(20, [48]), Field(150, EventText(r.What())),
     Field(39, StatusText(r)),
     Field(55, r.symbol), Field(54, SideText(r.order.side)), Field(38, shown(r.order.quantity)),
     Field(40, TypeText(r.order.orderType)), Field(151, shown(Leaves(r.order))), Field(14, shown(r.order.cum)),
     Field(6, shown(r.order.avg)), Field(60, time)]
  }

  function IdField(r: Outgoing): seq<Field> {
    if r.Id() != 0 then [Field(11, Digits(r.Id()))] else []
  }

  function OrigField(r: Outgoing): seq<Field> {
    if r.orig.Some? then [Field(41, Digits(r.orig.value))] else []
  }

  function PriceField(shown: real -> Text, r: Outgoing): seq<Field> {
    if r.order.orderType.Limit? then [Field(44, shown(r.order.price))] else []
  }

  function LastFields(shown: real -> Text, r: Outgoing): seq<Field> {
    [Field(31, shown(r.LastPrice())), Field(32, shown(r.LastQuantity()))]
  }

  function ExecutionBody(shown: real -> Text, time: Text, r: Outgoing): seq<Field> {
    BaseFields(shown, time, r) + (IdField(r) + (OrigField(r) + (PriceField(shown, r) + LastFields(shown, r))))
  }

  lemma Regroup(a: seq<Field>, b: seq<Field>, c: seq<Field>, d: seq<Field>, e: seq<Field>)
    ensures a + b + c + d + e == a + (b + (c + (d + e)))
  {
    assert a + b + c + d + e == a + b + c + (d + e);
    assert a + b + c + (d + e) == a + b + (c + (d + e));
  }

  // ---------------------------------------------------------------- the body is well made

  ghost predicate TagsWithin(b: seq<Field>, tags: set<nat>) {
    forall i :: 0 <= i < |b| ==> b[i].tag in tags
  }

  /** Pieces with different tags have unique tags together. */
  lemma UniqueConcat(a: seq<Field>, b: seq<Field>, s: set<nat>, t: set<nat>)
    requires Unique(a) && Unique(b) && TagsWithin(a, s) && TagsWithin(b, t) && s !! t
    ensures Unique(a + b) && TagsWithin(a + b, s + t)
  {
    var m := a + b;
    forall i, j | 0 <= i < j < |m| ensures m[i].tag != m[j].tag {
      if i < |a| <= j {
        assert a[i].tag in s && b[j - |a|].tag in t;
      } else if |a| <= i {
        assert m[i] == b[i - |a|] && m[j] == b[j - |a|];
      }
    }
  }

  const BASE_TAGS: set<nat> := {37, 17, 20, 150, 39, 55, 54, 38, 40, 151, 14, 6, 60}
  const OPTION_TAGS: set<nat> := {11} + ({41} + ({44} + {31, 32}))

  lemma BaseUnique(shown: real -> Text, time: Text, r: Outgoing)
    ensures Unique(BaseFields(shown, time, r)) && TagsWithin(BaseFields(shown, time, r), BASE_TAGS)
  {
  }

  lemma OptionsUnique(shown: real -> Text, r: Outgoing)
    ensures var b := IdField(r) + (OrigField(r) + (PriceField(shown, r) + LastFields(shown, r)));
            Unique(b) && TagsWithin(b, OPTION_TAGS)
  {
    var last := LastFields(shown, r);
    assert Unique(last) && TagsWithin(last, {31, 32});
    UniqueConcat(PriceField(shown, r), last, {44}, {31, 32});
    UniqueConcat(OrigField(r), PriceField(shown, r) + last, {41}, {44} + {31, 32});
    UniqueConcat(IdField(r), OrigField(r) + (PriceField(shown, r) + last), {11}, {41} + ({44} + {31, 32}));
  }

  lemma BodyUnique(shown: real -> Text, time: Text, r: Outgoing)
    ensures Unique(ExecutionBody(shown, time, r)) && TagsWithin(ExecutionBody(shown, time, r), BASE_TAGS + OPTION_TAGS)
  {
    hide BaseFields, IdField, OrigField, PriceField, LastFields, Unique, TagsWithin;
    BaseUnique(shown, time, r);
    OptionsUnique(shown, r);
    UniqueConcat(BaseFields(shown, time, r),
                 IdField(r) + (OrigField(r) + (PriceField(shown, r) + LastFields(shown, r))),
                 BASE_TAGS, OPTION_TAGS);
  }

  ghost predicate Named(r: Outgoing) {
    r.exchangeId != [] && r.execId != [] && r.symbol != []
  }

  /** Every figure of the report prints as some text. */
  predicate Printed(shown: real -> Text, r: Outgoing) {
    && shown(r.order.quantity) != [] && shown(Leaves(r.order)) != []
    && shown(r.order.cum) != [] && shown(r.order.avg) != []
    && (r.order.orderType.Limit? ==> shown(r.order.price) != [])
    && shown(r.LastPrice()) != [] && shown(r.LastQuantity()) != []
  }

  /** The figures of the report survive printing and reading; the average price, which a division
      made, only has to read as a number that is not negative. */
  predicate Carried(reading: Reading, shown: real -> Text, r: Outgoing) {
    && Exact(reading, shown, r.order.quantity) && Exact(reading, shown, Leaves(r.order))
    && Exact(reading, shown, r.order.cum) && Legible(reading, shown, r.order.avg)
    && (r.order.orderType.Limit? ==> Exact(reading, shown, r.order.price))
    && Exact(reading, shown, r.LastPrice()) && Exact(reading, shown, r.LastQuantity())
  }

  lemma BodyValues(shown: real -> Text, time: Text, r: Outgoing)
    requires Printed(shown, r) && time != [] && Named(r)
    ensures ValuesOk(ExecutionBody(shown, time, r))
  {
    var id, orig, price, last := IdField(r), OrigField(r), PriceField(shown, r), LastFields(shown, r);
    assert ValuesOk(BaseFields(shown, time, r));
    assert ValuesOk(id) && ValuesOk(orig) && ValuesOk(price) && ValuesOk(last);
    hide ValuesOk;
    ValuesConcat(price, last);
    ValuesConcat(orig, price + last);
    ValuesConcat(id, orig + (price + last));
    ValuesConcat(BaseFields(shown, time, r), id + (orig + (price + last)));
  }

  lemma BodyIsOk(shown: real -> Text, time: Text, r: Outgoing)
    requires Printed(shown, r) && time != [] && Named(r)
    ensures BodyOk(EXECUTION, ExecutionBody(shown, time, r))
  {
    hide ExecutionBody, Unique, ValuesOk, IsHeader, ShapeOk, ScalarFields, EXECUTION_FIELDS;
    var b := ExecutionBody(shown, time, r);
    BodyUnique(shown, time, r);
    BodyValues(shown, time, r);
    TablesOf();
    forall i | 0 <= i < |b| ensures Fits(EXECUTION, b[i].tag) && !IsHeader(b[i].tag) {
      ExecutionTags(b[i].tag);
      PlainTags(b[i].tag, EXECUTION);
    }
  }

  // ---------------------------------------------------------------- what it says

  ghost predicate SaysBase(f: seq<Field>, shown: real -> Text, time: Text, r: Outgoing) {
    && Get(f, 37) == Some(r.exchangeId) && Get(f, 17) == Some(r.execId) && Get(f, 20) == Some([48])
    && Get(f, 150) == Some(EventText(r.What())) && Get(f, 39) == Some(StatusText(r)) && Get(f, 55) == Some(r.symbol)
    && Get(f, 54) == Some(SideText(r.order.side)) && Get(f, 38) == Some(shown(r.order.quantity))
    && Get(f, 151) == Some(shown(Leaves(r.order))) && Get(f, 14) == Some(shown(r.order.cum))
    && Get(f, 6) == Some(shown(r.order.avg)) && Get(f, 60) == Some(time)
  }

  ghost predicate SaysOptions(f: seq<Field>, shown: real -> Text, r: Outgoing) {
    && Get(f, 11) == (if r.Id() != 0 then Some(Digits(r.Id())) else None)
    && Get(f, 41) == (if r.orig.Some? then Some(Digits(r.orig.value)) else None)
    && Get(f, 44) == (if r.order.orderType.Limit? then Some(shown(r.order.price)) else None)
    && Get(f, 31) == Some(shown(r.LastPrice())) && Get(f, 32) == Some(shown(r.LastQuantity()))
  }

  lemma BaseSays(shown: real -> Text, time: Text, r: Outgoing)
    ensures SaysBase(BaseFields(shown, time, r), shown, time, r)
  {
    var b := BaseFields(shown, time, r);
    BaseUnique(shown, time, r);
    hide Unique, Get, EventText, StatusText, Leaves, TagsWithin;
    Found(b, 0, 37, r.exchangeId);
    Found(b, 1, 17, r.execId);
    Found(b, 2, 20, [48]);
    Found(b, 3, 150, EventText(r.What()));
    Found(b, 4, 39, StatusText(r));
    Found(b, 5, 55, r.symbol);
    Found(b, 6, 54, SideText(r.order.side));
    Found(b, 7, 38, shown(r.order.quantity));
    Found(b, 9, 151, shown(Leaves(r.order)));
    Found(b, 10, 14, shown(r.order.cum));
    Found(b, 11, 6, shown(r.order.avg));
    Found(b, 12, 60, time);
  }

  lemma OptionsSay(shown: real -> Text, r: Outgoing)
    ensures SaysOptions(IdField(r) + (OrigField(r) + (PriceField(shown, r) + LastFields(shown, r))), shown, r)
  {
    OptionGet(shown, r, 11);
    OptionGet(shown, r, 41);
    OptionGet(shown, r, 44);
    OptionGet(shown, r, 31);
    OptionGet(shown, r, 32);
  }

  /** The value of a field among the optional ones. */
  lemma OptionGet(shown: real -> Text, r: Outgoing, tag: nat)
    ensures Get(IdField(r) + (OrigField(r) + (PriceField(shown, r) + LastFields(shown, r))), tag)
         == (if tag == 11 && r.Id() != 0 then Some(Digits(r.Id()))
             else if tag == 41 && r.orig.Some? then Some(Digits(r.orig.value))
             else if tag == 44 && r.order.orderType.Limit? then Some(shown(r.order.price))
             else if tag == 31 then Some(shown(r.LastPrice()))
             else if tag == 32 then Some(shown(r.LastQuantity()))
             else None)
  {
    hide IdField, OrigField, PriceField, LastFields, Get, Digits;
    var id, orig, price, last := IdField(r), OrigField(r), PriceField(shown, r), LastFields(shown, r);
    GetConcat(price, last, tag);
    GetConcat(orig, price + last, tag);
    GetConcat(id, orig + (price + last), tag);
    PieceGets(shown, r, tag);
  }

  lemma PieceGets(shown: real -> Text, r: Outgoing, tag: nat)
    ensures Get(IdField(r), tag) == (if tag == 11 && r.Id() != 0 then Some(Digits(r.Id())) else None)
    ensures Get(OrigField(r), tag) == (if tag == 41 && r.orig.Some? then Some(Digits(r.orig.value)) else None)
    ensures Get(PriceField(shown, r), tag)
         == (if tag == 44 && r.order.orderType.Limit? then Some(shown(r.order.price)) else None)
    ensures Get(LastFields(shown, r), tag)
         == (if tag == 31 then Some(shown(r.LastPrice()))
             else if tag == 32 then Some(shown(r.LastQuantity()))
             else None)
  {
    hide Digits;
    var quantity := [Field(32, shown(r.LastQuantity()))];
    assert LastFields(shown, r)[1..] == quantity && quantity[1..] == [];
    assert Get(quantity, tag) == if tag == 32 then Some(shown(r.LastQuantity())) else None;
  }

  function FirstOf(a: Option<Text>, b: Option<Text>): Option<Text> {
    if a.Some? then a else b
  }

  lemma BodySays(shown: real -> Text, time: Text, r: Outgoing)
    ensures SaysBase(ExecutionBody(shown, time, r), shown, time, r)
    ensures SaysOptions(ExecutionBody(shown, time, r), shown, r)
  {
    var base := BaseFields(shown, time, r);
    var options := IdField(r) + (OrigField(r) + (PriceField(shown, r) + LastFields(shown, r)));
    BaseSays(shown, time, r);
    OptionsSay(shown, r);
    NoOptions(shown, time, r);
    hide BaseFields, IdField, OrigField, PriceField, LastFields, Get, EventText, StatusText, Leaves;
    forall tag: nat ensures Get(base + options, tag) == FirstOf(Get(base, tag), Get(options, tag)) {
      GetConcat(base, options, tag);
    }
  }

  lemma NoOptions(shown: real -> Text, time: Text, r: Outgoing)
    ensures var b := BaseFields(shown, time, r);
            Get(b, 11).None? && Get(b, 41).None? && Get(b, 44).None? && Get(b, 31).None? && Get(b, 32).None?
  {
    var b := BaseFields(shown, time, r);
    BaseUnique(shown, time, r);
    hide BaseFields, Get, Unique;
    NotFound(b, 11);
    NotFound(b, 41);
    NotFound(b, 44);
    NotFound(b, 31);
    NotFound(b, 32);
  }

  // ---------------------------------------------------------------- round trip

  /** The state a client sees. */
  function SeenState(r: Outgoing): OrderState {
    if (r.What().EventReplaced? && r.order.cum == 0.0) || r.order.state.New? then Booked else r.order.state
  }

  function Seen(r: Outgoing): Execution {
    Execution(r.exchangeId, if r.Id() != 0 then Digits(r.Id()) else [],
              if r.orig.Some? then Some(Digits(r.orig.value)) else None, r.symbol, SeenState(r),
              r.What().EventFill? || r.What().EventPartialFill?, r.order.side,
              if r.order.orderType.Limit? then r.order.price else 0.0, r.order.quantity, Leaves(r.order),
              r.LastPrice(), r.LastQuantity())
  }

  /** What the engine's reports satisfy: figures are not negative, a fill has a positive price and
      quantity, only fills use the fill events, and a replacement names the order it replaces. */
  ghost predicate Sensible(r: Outgoing) {
    && Leaves(r.order) >= 0.0 && r.order.cum >= 0.0 && r.order.avg >= 0.0
    && (r.FillReport? ==> r.price > 0.0 && r.quantity > 0.0)
    && (r.StatusReport? ==> !r.event.EventFill? && !r.event.EventPartialFill?)
    && (r.What().EventReplaced? ==> r.orig.Some?)
  }

  lemma ExecutionMeans(reading: Reading, f: seq<Field>, shown: real -> Text, time: Text, r: Outgoing)
    requires Carried(reading, shown, r) && SaysBase(f, shown, time, r) && SaysOptions(f, shown, r) && Sensible(r)
    ensures ReadExecution(reading, f) == Some(ExecutionReport(Seen(r)))
  {
    StateRead(r);
    EventRead(r.What());
    hide Get, StatusText, EventText, StateFrom, IsEvent, Leaves, SeenState, Digits;
  }

  lemma StateRead(r: Outgoing)
    ensures StateFrom(Some(StatusText(r))) == Some(SeenState(r))
  {
  }

  lemma EventRead(e: Event)
    ensures IsEvent(EventText(e)) && (EventText(e) == [53] <==> e.EventReplaced?)
    ensures EventText(e) == [49] || EventText(e) == [50] <==> e.EventFill? || e.EventPartialFill?
  {
  }

  lemma ExecutionComplete(reading: Reading, f: seq<Field>, shown: real -> Text, time: Text, r: Outgoing)
    requires SaysBase(f, shown, time, r) && reading.validTime(time)
    ensures HasAll(f, Required(EXECUTION).value) && StandardOk(reading, EXECUTION, f)
  {
    hide Get, StatusText, EventText, Leaves;
  }

  /** A report built by the exchange is read by its client as the state it reports. */
  lemma ExecutionRoundTrip(reading: Reading, shown: real -> Text, e: Envelope, time: Text, r: Outgoing)
    requires Carried(reading, shown, r) && EnvelopeOk(e) && time != [] && reading.validTime(time) && Named(r)
    requires Sensible(r)
    ensures Decode(reading, Head(EXECUTION, e) + ExecutionBody(shown, time, r)) == Some(ExecutionReport(Seen(r)))
  {
    hide Decode, Head, ExecutionBody, SaysBase, SaysOptions, ReadExecution, Sensible, BodyOk, HasAll, StandardOk, Seen;
    var b := ExecutionBody(shown, time, r);
    BodyIsOk(shown, time, r);
    BodySays(shown, time, r);
    ExecutionMeans(reading, b, shown, time, r);
    ExecutionComplete(reading, b, shown, time, r);
    HeadIsOk(EXECUTION, e);
    FlatDecodes(reading, EXECUTION, Head(EXECUTION, e), b);
  }

  /** The fields of a whole report message, header included. */
  function ReportFields(shown: real -> Text, e: Envelope, time: Text, r: Outgoing): seq<Field> {
    AllFields(EXECUTION, e.number, e.sender, e.target, e.time, ExecutionBody(shown, time, r))
  }

  /** End to end: a report framed, at the head of any stream, is the next message of that stream and
      is read as the state it reports. */
  lemma ReportOverTheWire(reading: Reading, shown: real -> Text, begin: Text, e: Envelope, time: Text, r: Outgoing,
                          more: Text)
    requires Carried(reading, shown, r) && EnvelopeOk(e) && time != [] && reading.validTime(time) && Named(r)
    requires Sensible(r)
    requires FrameRoundTrips.Sendable(begin, ReportFields(shown, e, time, r))
    ensures var wire := Framed(begin, ReportFields(shown, e, time, r));
            var d := FrameStreams.Decode(wire + more);
            && d.Message? && d.used == |wire|
            && Decode(reading, d.message.fields) == Some(ExecutionReport(Seen(r)))
  {
    hide Decode, ExecutionBody, FrameStreams.Decode, Framed, FrameRoundTrips.Sendable, Sensible, Seen, Digits;
    var fields := ReportFields(shown, e, time, r);
    assert fields == Head(EXECUTION, e) + ExecutionBody(shown, time, r);
    ExecutionRoundTrip(reading, shown, e, time, r);
    FrameStreams.FrameDecodes(begin, fields, more);
  }

  /** The builder, pushing optional fields as it goes: what it builds for a report is read by the
      client as the state reported. */
  method BuildExecutionReport(shown: real -> Text, time: Text, r: Outgoing, ghost reading: Reading, ghost e: Envelope)
    returns (fields: seq<Field>)
    ensures fields == ExecutionBody(shown, time, r)
    ensures (&& Carried(reading, shown, r) && EnvelopeOk(e) && time != [] && reading.validTime(time)
             && Named(r) && Sensible(r))
            ==> Decode(reading, Head(EXECUTION, e) + fields) == Some(ExecutionReport(Seen(r)))
  {
    hide Decode, Head, Sensible, Seen, Carried;
    if (&& Carried(reading, shown, r) && EnvelopeOk(e) && time != [] && reading.validTime(time)
        && Named(r) && Sensible(r)) {
      ExecutionRoundTrip(reading, shown, e, time, r);
    }
    hide BaseFields, Digits;
    fields := BaseFields(shown, time, r);
    if r.Id() != 0 {
      fields := fields + [Field(11, Digits(r.Id()))];
    }
    assert fields == BaseFields(shown, time, r) + IdField(r);
    if r.orig.Some? {
      fields := fields + [Field(41, Digits(r.orig.value))];
    }
    assert fields == BaseFields(shown, time, r) + IdField(r) + OrigField(r);
    if r.order.orderType.Limit? {
      fields := fields + [Field(44, shown(r.order.price))];
    }
    assert fields == BaseFields(shown, time, r) + IdField(r) + OrigField(r) + PriceField(shown, r);
    hide IdField, OrigField, PriceField;
    fields := fields + [Field(31, shown(r.LastPrice()))];
    fields := fields + [Field(32, shown(r.LastQuantity()))];
    Regroup(BaseFields(shown, time, r), IdField(r), OrigField(r), PriceField(shown, r), LastFields(shown, r));
  }

  // ---------------------------------------------------------------- the engine's reports

  function EventFor(t: Fills.ExecType): Event {
    match t
    case ExecNew => EventNew
    case ExecCancelled => EventCancelled
    case ExecExpired => EventExpired
    case ExecReplaced => EventReplaced
    case ExecRejected => EventRejected
  }

  /** The text of an exchange id: a number, or quote.bid. or quote.ask. with the instrument. */
  function ExchangeText(x: ExchangeId): Text {
    match x
    case Unassigned => []
    case Number(n) => Digits(n)
    case QuoteLeg(side, i) =>
      [113, 117, 111, 116, 101, 46] + (if side.Buy? then [98, 105, 100, 46] else [97, 115, 107, 46]) + Digits(i)
  }

  /** exec. and the number. */
  function ExecText(n: nat): Text {
    [101, 120, 101, 99, 46] + Digits(n)
  }

  /** A report of the engine's log as it is handed to the writer, with the symbol of its instrument. */
  function Rendered(r: Fills.Report, symbol: InstrumentId -> Text): Outgoing {
    var exchange, name, exec := ExchangeText(r.order.exchange), symbol(r.order.instrument), ExecText(r.execId);
    match r
    case Fill(o, price, quantity, _) => FillReport(o, exchange, name, exec, price, quantity, None)
    case Status(o, clOrdId, execType, orig, _) =>
      StatusReport(o, exchange, name, exec, clOrdId, EventFor(execType), orig)
  }

  /** Every report the engine may log is one the round trip covers. */
  lemma RenderedSensible(r: Fills.Report, symbol: InstrumentId -> Text)
    requires Fills.ReportOk(r) && symbol(r.order.instrument) != []
    ensures Named(Rendered(r, symbol)) && Sensible(Rendered(r, symbol))
  {
  }

  /** The exchange id a client is shown: the order number, or quote.bid. or quote.ask. and the instrument. */
  ghost predicate ShownId(text: Text, x: ExchangeId) {
    match x
    case Unassigned => text == []
    case Number(n) => text == Digits(n)
    case QuoteLeg(Buy, i) => text == [113, 117, 111, 116, 101, 46, 98, 105, 100, 46] + Digits(i)
    case QuoteLeg(Sell, i) => text == [113, 117, 111, 116, 101, 46, 97, 115, 107, 46] + Digits(i)
  }

  /** What a client reads, against what the engine reported. */
  ghost predicate Understood(x: Execution, r: Fills.Report, symbol: InstrumentId -> Text) {
    && ShownId(x.exchangeId, r.order.exchange) && x.symbol == symbol(r.order.instrument)
    && x.side == r.order.side && x.quantity == r.order.quantity
    && x.price == (if r.order.orderType.Limit? then r.order.price else 0.0)
    && x.remaining == (if r.order.state.IsActive() then r.order.remaining else 0.0)
    && match r
       case Fill(o, price, quantity, _) =>
         && x.isFill && x.lastPrice == price && x.lastQuantity == quantity && x.orig == None
         && x.clOrdId == (if o.id == 0 then [] else Digits(o.id))
         && x.state == (if o.state.New? then Booked else o.state)
       case Status(o, clOrdId, execType, orig, _) =>
         && !x.isFill && x.lastPrice == 0.0 && x.lastQuantity == 0.0
         && x.clOrdId == (if clOrdId == 0 then [] else Digits(clOrdId))
         && x.orig == (if orig.None? then None else Some(Digits(orig.value)))
         && x.state == (if o.state.New? || (execType.ExecReplaced? && o.cum == 0.0) then Booked else o.state)
  }

  /** ExecType on the wire: 1 and 2 for a partial and a final fill; 0 new, 4 cancelled, 5 replaced, 8 rejected,
      C expired. */
  ghost predicate ExecTypeShown(value: Text, r: Fills.Report) {
    match r
    case Fill(o, _, _, _) => value == if o.remaining == 0.0 then [50] else [49]
    case Status(_, _, execType, _, _) =>
      match execType
      case ExecNew => value == [48]
      case ExecCancelled => value == [52]
      case ExecReplaced => value == [53]
      case ExecRejected => value == [56]
      case ExecExpired => value == [67]
  }

  lemma SeenUnderstood(r: Fills.Report, symbol: InstrumentId -> Text)
    requires Fills.ReportOk(r)
    ensures Understood(Seen(Rendered(r, symbol)), r, symbol)
    ensures ExecTypeShown(EventText(Rendered(r, symbol).What()), r)
  {
    hide Digits;
    var quote := [113, 117, 111, 116, 101, 46];
    assert quote + [98, 105, 100, 46] == [113, 117, 111, 116, 101, 46, 98, 105, 100, 46];
    assert quote + [97, 115, 107, 46] == [113, 117, 111, 116, 101, 46, 97, 115, 107, 46];
  }

  /** A report from the log of a run, built, framed and decoded, tells the client what happened. */
  lemma LoggedReportReadable(log: seq<Fills.Report>, k: nat, symbol: InstrumentId -> Text, reading: Reading,
                             shown: real -> Text, e: Envelope, time: Text)
    requires Fills.AllReported(log) && k < |log| && symbol(log[k].order.instrument) != []
    requires Carried(reading, shown, Rendered(log[k], symbol)) && EnvelopeOk(e) && time != [] && reading.validTime(time)
    ensures var body := ExecutionBody(shown, time, Rendered(log[k], symbol));
            var read := Decode(reading, Head(EXECUTION, e) + body);
            && read == Some(ExecutionReport(Seen(Rendered(log[k], symbol))))
            && Understood(read.value.execution, log[k], symbol)
            && Get(body, 150).Some? && ExecTypeShown(Get(body, 150).value, log[k])
            && Get(body, 17) == Some([101, 120, 101, 99, 46] + Digits(log[k].execId))
  {
    hide Decode, Sensible, Named, Carried, Seen, ExecutionBody, Head, Understood, ExecTypeShown, EventText, Get;
    RenderedSensible(log[k], symbol);
    ExecutionRoundTrip(reading, shown, e, time, Rendered(log[k], symbol));
    BodySays(shown, time, Rendered(log[k], symbol));
    SeenUnderstood(log[k], symbol);
  }
}
