/** From validated fields to a business message (decode in src/fix/codec.rs). */
module Inbounds {
  import opened Orders
  import opened Bytes
  import opened Frames
  import opened Dictionaries
  import opened Codec

  const I64_MAX: nat := 0x7FFF_FFFF_FFFF_FFFF
  const YES: Text := [89]
  const NO: Text := [78]

  datatype Inbound =
    | Logon(heartBtInt: nat)
    | Logout
    | Heartbeat
    | TestRequest(testReqId: Text)
    | ResendRequest
    | SequenceReset(newSeqNo: nat, gapFill: bool)
    | SessionReject(reason: Text)
    | NewOrderSingle(clOrdId: Text, symbol: Text, side: Side, orderType: OrderType, price: real, quantity: real)
    | CancelRequest(clOrdId: Text, orig: Text, symbol: Text, side: Side)
    | CancelReplace(clOrdId: Text, orig: Text, symbol: Text, side: Side, orderType: OrderType, price: real,
                    quantity: real)
    | CancelReject(clOrdId: Text, orig: Text, state: OrderState, reason: Text)
    | MassQuote(quoteId: Text, level: nat, symbol: Text, bidPx: real, bidQty: real, offerPx: real, offerQty: real)
    | QuoteAcknowledgement(quote: Option<Text>, status: Text, reason: Text)
    | SecurityDefinition(reqId: Text, symbol: Text, instrument: int)
    | BusinessReject(reason: Text)
    | ExecutionReport(execution: Execution)
    | Unsupported(kind: Text)

  datatype Execution = Execution(
    exchangeId: Text, clOrdId: Text, orig: Option<Text>, symbol: Text, state: OrderState, isFill: bool, side: Side,
    price: real, quantity: real, remaining: real, lastPrice: real, lastQuantity: real)

  // ---------------------------------------------------------------- single fields

  function TextOr(t: Option<Text>, default: Text): Text {
    if t.Some? then t.value else default
  }

  function Natural(t: Option<Text>): Option<nat> {
    if t.Some? && t.value != [] && AllDigits(t.value) && Value(t.value) <= USIZE_MAX then Some(Value(t.value)) else None
  }

  function Decimal(reading: Reading, t: Option<Text>): Option<real> {
    if t.Some? then reading.decimal(t.value) else None
  }

  function Positive(reading: Reading, t: Option<Text>): Option<real> {
    var d := Decimal(reading, t);
    if d.Some? && d.value > 0.0 then d else None
  }

  function DecimalOr(reading: Reading, t: Option<Text>, default: real): Option<real> {
    if t.Some? then reading.decimal(t.value) else Some(default)
  }

  function NonNegative(reading: Reading, t: Option<Text>): Option<real> {
    var d := DecimalOr(reading, t, 0.0);
    if d.Some? && d.value >= 0.0 then d else None
  }

  function Boolean(t: Option<Text>, default: bool): Option<bool> {
    if t.None? then Some(default)
    else if t.value == YES then Some(true)
    else if t.value == NO then Some(false)
    else None
  }

  function SideFrom(t: Option<Text>): Option<Side> {
    if t == Some([49]) then Some(Buy) else if t == Some([50]) then Some(Sell) else None
  }

  function TypeFrom(t: Option<Text>): Option<OrderType> {
    if t == Some([49]) then Some(Market) else if t == Some([50]) then Some(Limit) else None
  }

  function StateFrom(t: Option<Text>): Option<OrderState> {
    if t == Some([48]) || t == Some([53]) then Some(Booked)
    else if t == Some([49]) then Some(PartialFill)
    else if t == Some([50]) then Some(Filled)
    else if t == Some([52]) then Some(Cancelled)
    else if t == Some([56]) then Some(Rejected)
    else if t == Some([67]) then Some(Expired)
    else None
  }

  function OrderPrice(reading: Reading, orderType: OrderType, t: Option<Text>): Option<real> {
    if orderType.Limit? then Positive(reading, t) else DecimalOr(reading, t, 0.0)
  }

  // ---------------------------------------------------------------- kinds

  function ReadLogon(f: seq<Field>): Option<Inbound> {
    var heart := Natural(Get(f, 108));
    if Get(f, 98) != Some([48]) || Boolean(Get(f, 141), false).None? || heart.None? then None
    else if heart.value == 0 || heart.value > U32_MAX then None
    else Some(Logon(heart.value))
  }

  function ReadResend(f: seq<Field>): Option<Inbound> {
    var start, end := Natural(Get(f, 7)), Natural(Get(f, 16));
    if start.None? || end.None? || start.value == 0 || (end.value != 0 && end.value < start.value) then None
    else Some(ResendRequest)
  }

  function ReadReset(f: seq<Field>): Option<Inbound> {
    var n, gapFill := Natural(Get(f, 36)), Boolean(Get(f, 123), false);
    if n.None? || n.value == 0 || gapFill.None? then None else Some(SequenceReset(n.value, gapFill.value))
  }

  function ReadOrder(reading: Reading, f: seq<Field>): Option<Inbound> {
    var typ, side, quantity := TypeFrom(Get(f, 40)), SideFrom(Get(f, 54)), Positive(reading, Get(f, 38));
    if typ.None? || side.None? || quantity.None? || Get(f, 11).None? || Get(f, 55).None? then None
    else
      var price := OrderPrice(reading, typ.value, Get(f, 44));
      if price.None? then None
      else Some(NewOrderSingle(Get(f, 11).value, Get(f, 55).value, side.value, typ.value, price.value, quantity.value))
  }

  function ReadCancel(reading: Reading, f: seq<Field>): Option<Inbound> {
    var side := SideFrom(Get(f, 54));
    if Get(f, 38).Some? && Positive(reading, Get(f, 38)).None? then None
    else if Get(f, 11).None? || Get(f, 41).None? || Get(f, 55).None? || side.None? then None
    else Some(CancelRequest(Get(f, 11).value, Get(f, 41).value, Get(f, 55).value, side.value))
  }

  function ReadReplace(reading: Reading, f: seq<Field>): Option<Inbound> {
    if Get(f, 41).None? then None
    else
      match ReadOrder(reading, f)
      case Some(NewOrderSingle(id, symbol, side, typ, price, quantity)) =>
        Some(CancelReplace(id, Get(f, 41).value, symbol, side, typ, price, quantity))
      case _ => None
  }

  function ReadCancelReject(f: seq<Field>): Option<Inbound> {
    var state := StateFrom(Get(f, 39));
    if Get(f, 434) != Some([49]) && Get(f, 434) != Some([50]) then None
    else if Get(f, 11).None? || Get(f, 41).None? || state.None? then None
    else Some(CancelReject(Get(f, 11).value, Get(f, 41).value, state.value, TextOr(Get(f, 58), [])))
  }

  function QuoteLevel(t: Option<Text>): Option<nat> {
    if t.None? || t.value == [48] then Some(0)
    else if t.value == [49] then Some(1)
    else if t.value == [50] then Some(2)
    else None
  }

  function ReadQuote(reading: Reading, f: seq<Field>): Option<Inbound> {
    if Get(f, 296) != Some([49]) || Get(f, 295) != Some([49]) || Get(f, 304) != Some([49]) then None
    else
      var level := QuoteLevel(Get(f, 301));
      var bidPx, bidQty := NonNegative(reading, Get(f, 132)), NonNegative(reading, Get(f, 134));
      var offerPx, offerQty := NonNegative(reading, Get(f, 133)), NonNegative(reading, Get(f, 135));
      if level.None? || bidPx.None? || bidQty.None? || offerPx.None? || offerQty.None? then None
      else if Get(f, 117).None? || Get(f, 55).None? then None
      else Some(MassQuote(Get(f, 117).value, level.value, Get(f, 55).value,
                          bidPx.value, bidQty.value, offerPx.value, offerQty.value))
  }

  function ReadDefinition(f: seq<Field>): Option<Inbound> {
    if Get(f, 323) != Some([52]) || Natural(Get(f, 393)).None? then None
    else if Get(f, 320).None? || Get(f, 55).None? || Get(f, 48).None? then None
    else
      var id := ParseSigned(Get(f, 48).value, I64_MAX);
      if id.None? then None else Some(SecurityDefinition(Get(f, 320).value, Get(f, 55).value, id.value))
  }

  predicate IsEvent(t: Text) {
    t in {[48], [49], [50], [52], [53], [56], [67]}
  }

  function ReadExecution(reading: Reading, f: seq<Field>): Option<Inbound> {
    if Get(f, 20) != Some([48]) || Get(f, 150).None? || !IsEvent(Get(f, 150).value) then None
    else if Get(f, 150) == Some([53]) && Get(f, 11).Some? && Get(f, 41).None? then None
    else ReadAggregates(reading, f, Get(f, 150) == Some([49]) || Get(f, 150) == Some([50]))
  }

  function ReadAggregates(reading: Reading, f: seq<Field>, isFill: bool): Option<Inbound> {
    var cum, remaining, avg := Decimal(reading, Get(f, 14)), Decimal(reading, Get(f, 151)), Decimal(reading, Get(f, 6));
    if cum.None? || remaining.None? || avg.None? then None
    else if cum.value < 0.0 || remaining.value < 0.0 || avg.value < 0.0 then None
    else
      var lastPx := if isFill then Positive(reading, Get(f, 31)) else DecimalOr(reading, Get(f, 31), 0.0);
      var lastQty := if isFill then Positive(reading, Get(f, 32)) else DecimalOr(reading, Get(f, 32), 0.0);
      var price := DecimalOr(reading, Get(f, 44), 0.0);
      var quantity := DecimalOr(reading, Get(f, 38), cum.value + remaining.value);
      var state, side := StateFrom(Get(f, 39)), SideFrom(Get(f, 54));
      if lastPx.None? || lastQty.None? || price.None? || quantity.None? || state.None? || side.None? then None
      else if Get(f, 37).None? || Get(f, 55).None? then None
      else Some(ExecutionReport(Execution(
        Get(f, 37).value, TextOr(Get(f, 11), []), Get(f, 41), Get(f, 55).value, state.value, isFill, side.value,
        price.value, quantity.value, remaining.value, lastPx.value, lastQty.value)))
  }

  function ReadAcknowledgement(f: seq<Field>): Option<Inbound> {
    if Get(f, 297).None? || |Get(f, 297).value| != 1 || !(48 <= Get(f, 297).value[0] <= 53) then None
    else Some(QuoteAcknowledgement(Get(f, 117), Get(f, 297).value, TextOr(Get(f, 58), [])))
  }

  function Extract(reading: Reading, kind: Text, f: seq<Field>): Option<Inbound> {
    if kind == LOGON then ReadLogon(f)
    else if kind == HEARTBEAT then Some(Heartbeat)
    else if kind == TEST_REQUEST then (if Get(f, 112).Some? then Some(TestRequest(Get(f, 112).value)) else None)
    else if kind == RESEND_REQUEST then ReadResend(f)
    else if kind == REJECT then
      (if Natural(Get(f, 45)).Some? then Some(SessionReject(TextOr(Get(f, 58), []))) else None)
    else if kind == SEQUENCE_RESET then ReadReset(f)
    else if kind == LOGOUT then Some(Logout)
    else if kind == NEW_ORDER then ReadOrder(reading, f)
    else if kind == CANCEL then ReadCancel(reading, f)
    else if kind == REPLACE then ReadReplace(reading, f)
    else if kind == CANCEL_REJECT then ReadCancelReject(f)
    else if kind == MASS_QUOTE then ReadQuote(reading, f)
    else if kind == SECURITY_DEFINITION then ReadDefinition(f)
    else if kind == EXECUTION then ReadExecution(reading, f)
    else if kind == BUSINESS_REJECT then
      (if Natural(Get(f, 380)).Some? then Some(BusinessReject(TextOr(Get(f, 58), []))) else None)
    else if kind == QUOTE_ACK then ReadAcknowledgement(f)
    else Some(Unsupported(kind))
  }

  /** None is a rejected message. */
  function Decode(reading: Reading, f: seq<Field>): Option<Inbound> {
    var kind := Get(f, 35);
    if kind.None? || !ProfileOk(reading, kind.value, f) then None else Extract(reading, kind.value, f)
  }

  // ---------------------------------------------------------------- what a message means

  /** The header fields messages are written with, those of a possible duplicate included. */
  predicate IsEnvelope(tag: nat) {
    tag == 35 || tag == 34 || tag == 49 || tag == 56 || tag == 52 || tag == 43 || tag == 122
  }

  /** Two field lists that agree on every standard field outside the envelope. */
  ghost predicate SameStandard(a: seq<Field>, b: seq<Field>) {
    forall tag: nat :: !IsCustom(tag) && !IsEnvelope(tag) ==> Get(a, tag) == Get(b, tag)
  }

  /** The meaning depends on the kind and on standard fields outside the envelope alone. */
  lemma ExtractSame(reading: Reading, kind: Text, a: seq<Field>, b: seq<Field>)
    requires SameStandard(a, b)
    ensures Extract(reading, kind, a) == Extract(reading, kind, b)
  {
    hide Get, TypeFrom, SideFrom, StateFrom, Natural, AllDigits, ReadOrder, ReadCancel, ReadExecution, ReadQuote;
    hide ReadReplace;
    hide ReadLogon, ReadResend, ReadReset, ReadCancelReject, ReadDefinition, ReadAcknowledgement;
    SessionSame(a, b);
    AnswersSame(a, b);
    OrdersSame(reading, a, b);
    ExecutionSame(reading, a, b);
    QuoteSame(reading, a, b);
  }

  lemma SessionSame(a: seq<Field>, b: seq<Field>)
    requires SameStandard(a, b)
    ensures ReadLogon(a) == ReadLogon(b) && ReadResend(a) == ReadResend(b) && ReadReset(a) == ReadReset(b)
  {
    hide Get, Natural;
  }

  lemma AnswersSame(a: seq<Field>, b: seq<Field>)
    requires SameStandard(a, b)
    ensures ReadCancelReject(a) == ReadCancelReject(b) && ReadDefinition(a) == ReadDefinition(b)
    ensures ReadAcknowledgement(a) == ReadAcknowledgement(b)
  {
    hide Get, Natural, StateFrom;
  }

  lemma OrdersSame(reading: Reading, a: seq<Field>, b: seq<Field>)
    requires SameStandard(a, b)
    ensures ReadOrder(reading, a) == ReadOrder(reading, b) && ReadCancel(reading, a) == ReadCancel(reading, b)
    ensures ReadReplace(reading, a) == ReadReplace(reading, b)
  {
    hide Get, TypeFrom, SideFrom, Positive;
  }

  lemma ExecutionSame(reading: Reading, a: seq<Field>, b: seq<Field>)
    requires SameStandard(a, b)
    ensures ReadExecution(reading, a) == ReadExecution(reading, b)
  {
    hide Get, SideFrom, StateFrom, Positive, Decimal, DecimalOr, IsEvent;
  }

  lemma QuoteSame(reading: Reading, a: seq<Field>, b: seq<Field>)
    requires SameStandard(a, b)
    ensures ReadQuote(reading, a) == ReadQuote(reading, b)
  {
    hide Get, NonNegative, QuoteLevel;
  }

  lemma StandardSame(reading: Reading, kind: Text, a: seq<Field>, b: seq<Field>)
    requires SameStandard(a, b) && Required(kind).Some?
    ensures StandardOk(reading, kind, a) == StandardOk(reading, kind, b)
    ensures HasAll(a, Required(kind).value) == HasAll(b, Required(kind).value)
  {
    hide Get, Required;
    RequiredAreStandard(kind);
  }
}
