/** What a message must have said to be accepted (validate_profile and decode of src/fix/codec.rs): the
    value handed on is the one on the wire, under the codes of FIX 4.2. */
module AcceptedMessages {
  import opened Orders
  import opened Bytes
  import opened Frames
  import opened Dictionaries
  import opened Codec
  import opened Inbounds

  /** A field with this tag and value is there, the first one with its tag. */
  lemma {:induction false} GetIsFirst(f: seq<Field>, tag: nat)
    ensures match Get(f, tag)
            case None => forall i :: 0 <= i < |f| ==> f[i].tag != tag
            case Some(v) =>
              exists i :: 0 <= i < |f| && f[i] == Field(tag, v) && forall j :: 0 <= j < i ==> f[j].tag != tag
  {
    if f != [] {
      GetIsFirst(f[1..], tag);
      if f[0].tag == tag {
        assert f[0] == Field(tag, f[0].value);
      } else if Get(f[1..], tag).Some? {
        var v := Get(f[1..], tag).value;
        var i :| 0 <= i < |f[1..]| && f[1..][i] == Field(tag, v) && forall j :: 0 <= j < i ==> f[1..][j].tag != tag;
        forall j | 0 <= j < i + 1 ensures f[j].tag != tag {
          assert j == 0 || f[j] == f[1..][j - 1];
        }
        assert f[i + 1] == Field(tag, v);
      } else {
        forall i | 0 <= i < |f| ensures f[i].tag != tag {
          assert i == 0 || f[i] == f[1..][i - 1];
        }
      }
    }
  }

  /** The tag is there with this value. */
  ghost predicate Has(f: seq<Field>, tag: nat, value: Text) {
    Get(f, tag) == Some(value)
  }

  /** The tag is there and reads as this number. */
  ghost predicate Reads(reading: Reading, f: seq<Field>, tag: nat, number: real) {
    Get(f, tag).Some? && reading.decimal(Get(f, tag).value) == Some(number)
  }

  /** Absent, or read as this number. */
  ghost predicate ReadsOr(reading: Reading, f: seq<Field>, tag: nat, number: real, default: real) {
    if Get(f, tag).None? then number == default else Reads(reading, f, tag, number)
  }

  /** Every accepted message of a supported kind carries each tag once, with a value. */
  ghost predicate OnceEach(f: seq<Field>) {
    && (forall i, j :: 0 <= i < j < |f| ==> f[i].tag != f[j].tag)
    && (forall i :: 0 <= i < |f| ==> f[i].value != [])
  }

  /** Order terms: 54 is 1 for Buy and 2 for Sell, 40 is 1 for Market and 2 for Limit, 38 is positive, and 44 is
      positive for a limit order. */
  ghost predicate SaysTerms(reading: Reading, f: seq<Field>, side: Side, orderType: OrderType, price: real,
                            quantity: real) {
    && Has(f, 54, if side.Buy? then [49] else [50]) && Has(f, 40, if orderType.Market? then [49] else [50])
    && Reads(reading, f, 38, quantity) && quantity > 0.0
    && (if orderType.Limit? then Reads(reading, f, 44, price) && price > 0.0
        else ReadsOr(reading, f, 44, price, 0.0))
    && Has(f, 21, [49]) && (Get(f, 59).None? || Has(f, 59, [48]))
    && Get(f, 60).Some? && reading.validTime(Get(f, 60).value)
  }

  lemma OrderSays(reading: Reading, f: seq<Field>)
    requires Decode(reading, f).Some? && Decode(reading, f).value.NewOrderSingle?
    ensures var x := Decode(reading, f).value;
            && Has(f, 35, [68]) && Has(f, 11, x.clOrdId) && Has(f, 55, x.symbol) && OnceEach(f)
            && SaysTerms(reading, f, x.side, x.orderType, x.price, x.quantity)
  {
    hide ScopesOk;
    assert Required(NEW_ORDER).value[4] == 60;
  }

  lemma ReplaceSays(reading: Reading, f: seq<Field>)
    requires Decode(reading, f).Some? && Decode(reading, f).value.CancelReplace?
    ensures var x := Decode(reading, f).value;
            && Has(f, 35, [71]) && Has(f, 11, x.clOrdId) && Has(f, 41, x.orig) && Has(f, 55, x.symbol) && OnceEach(f)
            && SaysTerms(reading, f, x.side, x.orderType, x.price, x.quantity)
  {
    hide ScopesOk;
    assert Required(REPLACE).value[5] == 60;
  }

  lemma CancelSays(reading: Reading, f: seq<Field>)
    requires Decode(reading, f).Some? && Decode(reading, f).value.CancelRequest?
    ensures var x := Decode(reading, f).value;
            && Has(f, 35, [70]) && Has(f, 11, x.clOrdId) && Has(f, 41, x.orig) && Has(f, 55, x.symbol) && OnceEach(f)
            && Has(f, 54, if x.side.Buy? then [49] else [50])
            && Get(f, 60).Some? && reading.validTime(Get(f, 60).value)
  {
    hide ScopesOk;
    assert Required(CANCEL).value[4] == 60;
  }

  /** One set with one entry, 132 and 134 the bid, 133 and 135 the offer; what is absent counts as zero. */
  lemma QuoteSays(reading: Reading, f: seq<Field>)
    requires Decode(reading, f).Some? && Decode(reading, f).value.MassQuote?
    ensures var x := Decode(reading, f).value;
            && Has(f, 35, [105]) && Has(f, 117, x.quoteId) && Has(f, 55, x.symbol) && OnceEach(f)
            && Has(f, 296, [49]) && Has(f, 295, [49]) && Has(f, 304, [49])
            && ReadsOr(reading, f, 132, x.bidPx, 0.0) && ReadsOr(reading, f, 134, x.bidQty, 0.0)
            && ReadsOr(reading, f, 133, x.offerPx, 0.0) && ReadsOr(reading, f, 135, x.offerQty, 0.0)
            && x.bidPx >= 0.0 && x.bidQty >= 0.0 && x.offerPx >= 0.0 && x.offerQty >= 0.0
            && (Has(f, 301, [48 + x.level]) || (Get(f, 301).None? && x.level == 0)) && x.level <= 2
  {
    hide ScopesOk;
  }

  /** OrdStatus: 0 and 5 new or replaced, 1 partly filled, 2 filled, 4 cancelled, 8 rejected, C expired. */
  ghost predicate StatusSays(value: Text, state: OrderState) {
    match state
    case New => false
    case Booked => value == [48] || value == [53]
    case PartialFill => value == [49]
    case Filled => value == [50]
    case Cancelled => value == [52]
    case Rejected => value == [56]
    case Expired => value == [67]
  }

  /** ExecType 1 and 2 are fills; a fill has a positive last price (31) and quantity (32). */
  lemma ExecutionSays(reading: Reading, f: seq<Field>)
    requires Decode(reading, f).Some? && Decode(reading, f).value.ExecutionReport?
    ensures var x := Decode(reading, f).value.execution;
            && Has(f, 35, [56]) && Has(f, 37, x.exchangeId) && Has(f, 55, x.symbol) && OnceEach(f) && Has(f, 20, [48])
            && Get(f, 11) == (if Get(f, 11).None? then None else Some(x.clOrdId)) && Get(f, 41) == x.orig
            && Get(f, 39).Some? && StatusSays(Get(f, 39).value, x.state)
            && (x.isFill <==> Has(f, 150, [49]) || Has(f, 150, [50]))
            && Has(f, 54, if x.side.Buy? then [49] else [50])
            && ReadsOr(reading, f, 44, x.price, 0.0)
            && Reads(reading, f, 151, x.remaining) && x.remaining >= 0.0
            && (if x.isFill
                then Reads(reading, f, 31, x.lastPrice) && Reads(reading, f, 32, x.lastQuantity)
                else ReadsOr(reading, f, 31, x.lastPrice, 0.0) && ReadsOr(reading, f, 32, x.lastQuantity, 0.0))
            && (x.isFill ==> x.lastPrice > 0.0 && x.lastQuantity > 0.0)
            && (Get(f, 38).Some? ==> Reads(reading, f, 38, x.quantity))
            && (Has(f, 150, [53]) && Get(f, 11).Some? ==> Get(f, 41).Some?)
  {
    hide Decode, Get, ProfileOk;
    ExecutionKind(reading, f);
  }

  lemma ExecutionKind(reading: Reading, f: seq<Field>)
    requires Decode(reading, f).Some? && Decode(reading, f).value.ExecutionReport?
    ensures Has(f, 35, EXECUTION) && OnceEach(f) && ReadExecution(reading, f) == Decode(reading, f)
  {
    hide ScopesOk, ReadExecution;
  }

  /** ResendRequest: from a positive number, up to one not below it or to zero, which is open. */
  lemma ResendSays(reading: Reading, f: seq<Field>)
    requires Decode(reading, f) == Some(ResendRequest)
    ensures Has(f, 35, [50]) && Get(f, 7).Some? && Get(f, 16).Some? && OnceEach(f)
    ensures var begin, end := Get(f, 7).value, Get(f, 16).value;
            && AllDigits(begin) && AllDigits(end) && Value(begin) >= 1
            && (Value(end) == 0 || Value(begin) <= Value(end))
            && Value(begin) <= 0xFFFF_FFFF_FFFF_FFFF && Value(end) <= 0xFFFF_FFFF_FFFF_FFFF
  {
    hide ScopesOk;
  }

  /** SequenceReset: 36 a positive number; 123 is Y for a GapFill, N or absent for a reset. */
  lemma ResetSays(reading: Reading, f: seq<Field>)
    requires Decode(reading, f).Some? && Decode(reading, f).value.SequenceReset?
    ensures var x := Decode(reading, f).value;
            && Has(f, 35, [52]) && OnceEach(f) && Get(f, 36).Some? && AllDigits(Get(f, 36).value)
            && Value(Get(f, 36).value) == x.newSeqNo && 1 <= x.newSeqNo <= 0xFFFF_FFFF_FFFF_FFFF
            && (if x.gapFill then Has(f, 123, [89]) else Get(f, 123).None? || Has(f, 123, [78]))
  {
    hide ScopesOk;
  }

  /** Logon: no encryption and a positive heartbeat interval. */
  lemma LogonSays(reading: Reading, f: seq<Field>)
    requires Decode(reading, f).Some? && Decode(reading, f).value.Logon?
    ensures var x := Decode(reading, f).value;
            && Has(f, 35, [65]) && OnceEach(f) && Has(f, 98, [48]) && Get(f, 108).Some? && AllDigits(Get(f, 108).value)
            && Value(Get(f, 108).value) == x.heartBtInt && 1 <= x.heartBtInt <= 0xFFFF_FFFF
  {
    hide ScopesOk;
  }

  /** A TestRequest carries the id to answer with. */
  lemma TestRequestSays(reading: Reading, f: seq<Field>)
    requires Decode(reading, f).Some? && Decode(reading, f).value.TestRequest?
    ensures Has(f, 35, [49]) && Has(f, 112, Decode(reading, f).value.testReqId) && OnceEach(f)
  {
    hide ScopesOk;
  }

  /** Rejects carry their text, and a session reject the number it is about. */
  lemma RejectsSay(reading: Reading, f: seq<Field>)
    requires Decode(reading, f).Some?
    ensures var x := Decode(reading, f).value;
            && (x.SessionReject? ==> Has(f, 35, [51]) && Get(f, 45).Some? && AllDigits(Get(f, 45).value))
            && (x.BusinessReject? ==> Has(f, 35, [106]) && Get(f, 380).Some?)
            && (x.SessionReject? || x.BusinessReject? ==>
                  if Get(f, 58).None? then x.reason == [] else Has(f, 58, x.reason))
            && (x.Logout? ==> Has(f, 35, [53])) && (x.Heartbeat? ==> Has(f, 35, [48]))
  {
    hide ScopesOk;
  }

  /** CxlRejResponseTo is 1 or 2, and 11 and 41 are the request and the order it was about. */
  lemma CancelRejectSays(reading: Reading, f: seq<Field>)
    requires Decode(reading, f).Some? && Decode(reading, f).value.CancelReject?
    ensures var x := Decode(reading, f).value;
            && Has(f, 35, [57]) && Has(f, 11, x.clOrdId) && Has(f, 41, x.orig) && OnceEach(f)
            && (Has(f, 434, [49]) || Has(f, 434, [50]))
            && Get(f, 39).Some? && StatusSays(Get(f, 39).value, x.state)
  {
    hide ScopesOk;
  }

  /** Only list responses, with the instrument number in 48. */
  lemma DefinitionSays(reading: Reading, f: seq<Field>)
    requires Decode(reading, f).Some? && Decode(reading, f).value.SecurityDefinition?
    ensures var x := Decode(reading, f).value;
            && Has(f, 35, [100]) && Has(f, 320, x.reqId) && Has(f, 55, x.symbol) && Has(f, 323, [52]) && OnceEach(f)
            && Get(f, 48).Some? && ParseSigned(Get(f, 48).value, I64_MAX) == Some(x.instrument)
  {
    hide ScopesOk;
  }

  /** QuoteStatus is one digit from 0 to 5. */
  lemma AcknowledgementSays(reading: Reading, f: seq<Field>)
    requires Decode(reading, f).Some? && Decode(reading, f).value.QuoteAcknowledgement?
    ensures var x := Decode(reading, f).value;
            && Has(f, 35, [98]) && Get(f, 117) == x.quote && Has(f, 297, x.status) && OnceEach(f)
            && |x.status| == 1 && 48 <= x.status[0] <= 53
  {
    hide ScopesOk;
  }

  /** A number with an optional sign: every text that is read so, is one. */
  lemma SignedSays(s: Text, max: nat)
    ensures match ParseSigned(s, max)
            case None => true
            case Some(v) =>
              && s != []
              && (if s[0] == 45 then v <= 0 && AllDigits(s[1..]) && Value(s[1..]) == -v <= max + 1
                  else if s[0] == 43 then AllDigits(s[1..]) && s[1..] != [] && Value(s[1..]) == v <= max
                  else AllDigits(s) && Value(s) == v <= max)
  {
  }

  /** The codes of the enumerated fields: SessionRejectReason 0 to 11, BusinessRejectReason 0 to 5, CxlRejReason
      0 to 3 and QuoteRejectReason 1 to 9. */
  ghost predicate Enumerated(f: Field) {
    && (f.tag == 373 ==> exists n: nat :: n <= 11 && f.value == Digits(n))
    && (f.tag == 380 ==> exists n: nat :: n <= 5 && f.value == Digits(n))
    && (f.tag == 102 ==> exists n: nat :: n <= 3 && f.value == Digits(n))
    && (f.tag == 300 ==> exists n: nat :: 1 <= n <= 9 && f.value == Digits(n))
  }

  lemma OneDigit(value: Text)
    requires |value| == 1 && IsDigit(value[0])
    ensures exists n: nat :: n <= 9 && n == value[0] - 48 && value == Digits(n)
  {
    var n: nat := value[0] - 48;
    assert value == Digits(n);
  }

  lemma EnumSays(f: Field)
    ensures ValueOk(f) ==> Enumerated(f)
  {
    if |f.value| == 1 && IsDigit(f.value[0]) {
      OneDigit(f.value);
    }
    assert Digits(1) == [49] && Digits(10) == [49, 48] && Digits(11) == [49, 49];
  }

  /** Every accepted message of a supported kind keeps to these codes. */
  lemma EnumsSay(reading: Reading, f: seq<Field>)
    requires Decode(reading, f).Some? && !Decode(reading, f).value.Unsupported?
    ensures forall i :: 0 <= i < |f| ==> Enumerated(f[i])
  {
    hide ScopesOk, Enumerated, ValueOk;
    SupportedKind(reading, f);
    forall i | 0 <= i < |f| ensures Enumerated(f[i]) {
      EnumSays(f[i]);
    }
  }

  lemma SupportedKind(reading: Reading, f: seq<Field>)
    requires Decode(reading, f).Some? && !Decode(reading, f).value.Unsupported?
    ensures Get(f, 35).Some? && Required(Get(f, 35).value).Some? && ValuesOk(f)
  {
    hide ScopesOk, Unique, ValuesOk, StandardOk;
  }

  // ---------------------------------------------------------------- scopes

  /** After the body has started no header field is let through. */
  lemma {:induction false} NoHeaderLater(kind: Text, s: ScopeState, f: seq<Field>)
    requires Walk(kind, s, f).Some? && s.bodyStarted
    ensures forall i :: 0 <= i < |f| ==> !IsHeader(f[i].tag)
    decreases |f|
  {
    hide IsHeader, ShapeOk, IndexOf, Table;
    if f != [] {
      NoHeaderLater(kind, Step(kind, s, f[0].tag).value, f[1..]);
      assert forall i :: 1 <= i < |f| ==> f[i] == f[1..][i - 1];
    }
  }

  /** So in an accepted message the header fields come first. */
  lemma {:induction false} HeaderFirst(kind: Text, s: ScopeState, f: seq<Field>)
    requires Walk(kind, s, f).Some?
    ensures forall i, j :: 0 <= i < j < |f| && IsHeader(f[j].tag) ==> IsHeader(f[i].tag)
    decreases |f|
  {
    hide IsHeader, ShapeOk, IndexOf, Table;
    if f != [] {
      var next := Step(kind, s, f[0].tag).value;
      HeaderFirst(kind, next, f[1..]);
      if !IsHeader(f[0].tag) {
        NoHeaderLater(kind, next, f[1..]);
      }
      assert forall i :: 1 <= i < |f| ==> f[i] == f[1..][i - 1];
    }
  }

  /** Length and data fields are never let through, and group counters only where MassQuote has them. */
  lemma {:induction false} ShapesSay(kind: Text, s: ScopeState, f: seq<Field>)
    requires Walk(kind, s, f).Some?
    ensures forall i :: 0 <= i < |f| ==>
              && f[i].tag !in {89, 90, 91, 93, 95, 96, 212, 213, 445, 446} && !(348 <= f[i].tag <= 365)
              && f[i].tag !in {33, 73, 78, 124, 136, 146, 199, 215, 267, 268, 382, 384, 386, 398, 420, 428}
              && (f[i].tag == 295 || f[i].tag == 296 ==> kind == MASS_QUOTE)
    decreases |f|
  {
    hide IsHeader, IndexOf, Table;
    if f != [] {
      ShapesSay(kind, Step(kind, s, f[0].tag).value, f[1..]);
      assert forall i :: 1 <= i < |f| ==> f[i] == f[1..][i - 1];
    }
  }

  /** Where a tag stands in the entry table. */
  ghost predicate EntryPlace(tag: nat, place: nat) {
    place < |QUOTE_ENTRY_FIELDS| && QUOTE_ENTRY_FIELDS[place] == tag && tag !in QUOTE_ENTRY_FIELDS[..place]
  }

  /** A tag of the entry table behind a place. */
  ghost predicate Behind(tag: nat, previous: Option<nat>) {
    exists p :: EntryPlace(tag, p) && (previous.Some? ==> previous.value < p)
  }

  /** One tag stands before another in the entry table. */
  ghost predicate Before(a: nat, b: nat) {
    exists p :: EntryPlace(a, p) && Behind(b, Some(p))
  }

  /** The fields of a quote entry, user-defined ones aside, come in the order of the table, each at most once. */
  lemma {:induction false} EntryOrder(s: ScopeState, f: seq<Field>)
    requires Walk(MASS_QUOTE, s, f).Some? && s.scope == 2 && s.bodyStarted
    requires forall i :: 0 <= i < |f| ==> f[i].tag != 296 && f[i].tag < 5000
    ensures forall i :: 0 <= i < |f| ==> Behind(f[i].tag, s.previous)
    ensures forall i, j :: 0 <= i < j < |f| ==> Before(f[i].tag, f[j].tag)
    decreases |f|
  {
    if f != [] {
      hide Step, IsHeader, IndexOf, EntryPlace, Behind, Before;
      var next := Step(MASS_QUOTE, s, f[0].tag).value;
      EntryStep(s, f[0].tag);
      EntryOrder(next, f[1..]);
      assert forall i :: 1 <= i < |f| ==> f[i] == f[1..][i - 1];
      EntryFirst(s.previous, next.previous.value, f);
    }
  }

  lemma EntryFirst(previous: Option<nat>, place: nat, f: seq<Field>)
    requires f != [] && EntryPlace(f[0].tag, place) && (previous.Some? ==> previous.value < place)
    requires forall i :: 1 <= i < |f| ==> Behind(f[i].tag, Some(place))
    ensures forall i :: 0 <= i < |f| ==> Behind(f[i].tag, previous)
    ensures forall j :: 1 <= j < |f| ==> Before(f[0].tag, f[j].tag)
  {
    hide EntryPlace;
  }

  lemma EntryStep(s: ScopeState, tag: nat)
    requires Step(MASS_QUOTE, s, tag).Some? && s.scope == 2 && s.bodyStarted && tag != 296 && tag < 5000
    ensures var next := Step(MASS_QUOTE, s, tag).value;
            && next.scope == 2 && next.bodyStarted && next.previous.Some? && EntryPlace(tag, next.previous.value)
            && (s.previous.Some? ==> s.previous.value < next.previous.value)
  {
    GroupCounts();
  }
}
