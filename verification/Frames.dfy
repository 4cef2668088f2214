/** FIX tag=value frames: printing one with BodyLength and CheckSum, and parsing one back
    (frame, parse_wire and parse_fields in src/fix/frame.rs). */
module Frames {
  import opened Orders
  import opened Bytes

  const MAX_MESSAGE_SIZE: nat := 1024 * 1024
  const MAX_PREFIX_SIZE: nat := 64
  const U32_MAX: nat := 0xFFFF_FFFF
  const USIZE_MAX: nat := 0xFFFF_FFFF_FFFF_FFFF

  datatype Field = Field(tag: nat, value: Text)

  datatype FixMessage = FixMessage(begin: Text, fields: seq<Field>, raw: Text)

  datatype Reason =
    | NoBeginString | NoBodyLength | BadBodyLength | TooBig | TooSmall | HeaderTooLong
    | NotAscii | NoCheckSum | CheckSumMismatch | BadBody | BadField | InvalidField | BadTag | ZeroTag | FramingTag

  datatype Parsed<T> = Good(value: T) | Bad(reason: Reason)

  // ---------------------------------------------------------------- fields

  /** One tag=value part, split at the first equals sign. */
  function ParsePart(part: Text): Parsed<Field> {
    match Position(part, EQUALS)
    case None => Bad(BadField)
    case Some(i) =>
      var tag, value := part[..i], part[i + 1..];
      if tag == [] || !AllDigits(tag) || value == [] then Bad(InvalidField)
      else if Value(tag) > U32_MAX then Bad(BadTag)
      else if Value(tag) == 0 then Bad(ZeroTag)
      else Good(Field(Value(tag), value))
  }

  /** The parts between SOH bytes, in order; the first bad one decides. */
  function ParseParts(text: Text): Parsed<seq<Field>>
    decreases |text|
  {
    match Position(text, SOH)
    case None => (match ParsePart(text) case Bad(e) => Bad(e) case Good(f) => Good([f]))
    case Some(i) => After(ParsePart(text[..i]), ParseParts(text[i + 1..]))
  }

  function After(first: Parsed<Field>, rest: Parsed<seq<Field>>): Parsed<seq<Field>> {
    if first.Bad? then Bad(first.reason)
    else if rest.Bad? then rest
    else Good([first.value] + rest.value)
  }

  function StripSoh(body: Text): Text {
    if body != [] && body[|body| - 1] == SOH then body[..|body| - 1] else body
  }

  function ParseFields(body: Text): Parsed<seq<Field>> {
    ParseParts(StripSoh(body))
  }

  /** Fields already read, followed by the outcome of the rest. */
  function Onto(fields: seq<Field>, rest: Parsed<seq<Field>>): Parsed<seq<Field>> {
    if rest.Bad? then rest else Good(fields + rest.value)
  }

  /** The loop over the parts of a body. */
  method ReadFields(body: Text) returns (r: Parsed<seq<Field>>)
    ensures r == ParseFields(body)
  {
    var fields: seq<Field> := [];
    var rest := StripSoh(body);
    assert forall more: seq<Field> :: fields + more == more;
    while true
      invariant Onto(fields, ParseParts(rest)) == ParseFields(body)
      decreases |rest|
    {
      var cut := Position(rest, SOH);
      var part := ParsePart(if cut.Some? then rest[..cut.value] else rest);
      if part.Bad? {
        return Bad(part.reason);
      }
      ghost var before := fields;
      fields := fields + [part.value];
      if cut.None? {
        return Good(fields);
      }
      rest := rest[cut.value + 1..];
      assert forall more :: before + ([part.value] + more) == fields + more;
    }
  }

  // ---------------------------------------------------------------- header and trailer

  function SecondSoh(s: Text): (r: Option<nat>)
    ensures r.Some? ==> Position(s, SOH).Some? && Position(s, SOH).value < r.value < |s| && s[r.value] == SOH
  {
    match Position(s, SOH)
    case None => None
    case Some(first) =>
      match Position(s[first + 1..], SOH)
      case None => None
      case Some(i) => Some(first + 1 + i)
  }

  datatype Probed = NeedMore | Malformed(reason: Reason) | Total(size: nat)

  /** What the first two fields say about the frame's length. */
  function HeaderSize(s: Text, first: nat, second: nat): Probed
    requires first < second < |s|
  {
    var begin, length := s[..first], s[first + 1..second];
    if !([56, 61] <= begin) || |begin| <= 2 then Malformed(NoBeginString)
    else if !([57, 61] <= length) || |length| <= 2 || !AllDigits(length[2..]) then Malformed(NoBodyLength)
    else
      var bodyLen := Value(length[2..]);
      if bodyLen > USIZE_MAX then Malformed(BadBodyLength)
      else if second + 1 + bodyLen + 7 > MAX_MESSAGE_SIZE then Malformed(TooBig)
      else if bodyLen < 5 then Malformed(TooSmall)
      else Total(second + 1 + bodyLen + 7)
  }

  /** What the bytes received so far say: nothing yet, an error, or the size of the frame. */
  function Probe(s: Text): Probed {
    match SecondSoh(s)
    case Some(second) => HeaderSize(s, Position(s, SOH).value, second)
    case None => if |s| >= MAX_PREFIX_SIZE then Malformed(HeaderTooLong) else NeedMore
  }

  predicate Printable(b: Byte) {
    b == SOH || 0x20 <= b <= 0x7E
  }

  predicate IsFramingTag(tag: nat) {
    tag == 8 || tag == 9 || tag == 10
  }

  /** A complete frame to a message. */
  function ParseWire(wire: Text): Parsed<FixMessage>
    requires Probe(wire) == Total(|wire|)
  {
    var cut := |wire| - 7;
    if !(forall i :: 0 <= i < |wire| ==> Printable(wire[i])) then Bad(NotAscii)
    else
      match ParsePieces(wire[..cut], wire[SecondSoh(wire).value + 1..cut], wire[cut..])
      case Bad(e) => Bad(e)
      case Good(fields) => Good(FixMessage(wire[2..Position(wire, SOH).value], fields, wire))
  }

  /** The trailer checked against the bytes before it, then the body. */
  function ParsePieces(head: Text, body: Text, trailer: Text): Parsed<seq<Field>>
    requires |trailer| == 7 && |body| >= 5
  {
    if trailer[..3] != [49, 48, 61] || trailer[6] != SOH || !AllDigits(trailer[3..6]) then Bad(NoCheckSum)
    else if Value(trailer[3..6]) != WrappingSum(head) then Bad(CheckSumMismatch)
    else if !([51, 53, 61] <= body) || body[|body| - 1] != SOH then Bad(BadBody)
    else
      match ParseFields(body)
      case Bad(e) => Bad(e)
      case Good(fields) =>
        if exists i :: 0 <= i < |fields| && IsFramingTag(fields[i].tag) then Bad(FramingTag) else Good(fields)
  }

  // ---------------------------------------------------------------- printing

  function PrintField(f: Field): Text {
    Digits(f.tag) + [EQUALS] + f.value + [SOH]
  }

  function PrintFields(fields: seq<Field>): Text {
    if fields == [] then [] else PrintFields(fields[..|fields| - 1]) + PrintField(fields[|fields| - 1])
  }

  /** The header fields every message starts with, then its own. */
  function AllFields(msgType: Text, number: nat, sender: Text, target: Text, time: Text,
                     fields: seq<Field>): seq<Field> {
    [Field(35, msgType), Field(34, Digits(number)), Field(49, sender), Field(56, target), Field(52, time)] + fields
  }

  function Prefix(begin: Text, bodyLen: nat): Text {
    [56, EQUALS] + begin + [SOH] + ([57, EQUALS] + Digits(bodyLen) + [SOH])
  }

  function Trailer(sum: nat): Text
    requires sum < 1000
  {
    [49, 48, EQUALS] + ThreeDigits(sum) + [SOH]
  }

  /** The frame that carries these fields. */
  function Framed(begin: Text, fields: seq<Field>): Text {
    var body := PrintFields(fields);
    var head := Prefix(begin, |body|) + body;
    head + Trailer(Sum(head) % 256)
  }

  /** The printer, appending to a buffer field by field and summing byte by byte. */
  method Frame(begin: Text, msgType: Text, number: nat, sender: Text, target: Text, time: Text, fields: seq<Field>)
    returns (wire: Text)
    ensures wire == Framed(begin, AllFields(msgType, number, sender, target, time, fields))
  {
    ghost var all := AllFields(msgType, number, sender, target, time, fields);
    hide Digits, Sum, PrintField;
    var body := PrintField(Field(35, msgType));
    body := body + PrintField(Field(34, Digits(number)));
    body := body + PrintField(Field(49, sender));
    body := body + PrintField(Field(56, target));
    body := body + PrintField(Field(52, time));
    FiveFields(all);
    for i := 0 to |fields|
      invariant body == PrintFields(all[..5 + i])
    {
      assert all[..5 + i + 1][..5 + i] == all[..5 + i] && all[..5 + i + 1][5 + i] == fields[i];
      body := body + PrintField(fields[i]);
    }
    assert all[..5 + |fields|] == all;
    wire := Prefix(begin, |body|) + body;
    var sum := ByteSum(wire);
    wire := wire + Trailer(sum % 256);
  }

  /** Adding up the bytes one by one. */
  method ByteSum(s: Text) returns (sum: nat)
    ensures sum == Sum(s)
  {
    sum := 0;
    for i := 0 to |s|
      invariant sum == Sum(s[..i])
    {
      assert s[..i + 1][..i] == s[..i];
      sum := sum + s[i];
    }
    assert s[..|s|] == s;
  }

  lemma FiveFields(all: seq<Field>)
    requires |all| >= 5
    ensures PrintFields(all[..5])
         == PrintField(all[0]) + PrintField(all[1]) + PrintField(all[2]) + PrintField(all[3]) + PrintField(all[4])
  {
    assert all[..5][..4] == all[..4] && all[..4][..3] == all[..3] && all[..3][..2] == all[..2];
    assert all[..2][..1] == all[..1] && all[..1][..0] == [];
    assert PrintFields(all[..1]) == PrintField(all[0]);
    assert PrintFields(all[..2]) == PrintField(all[0]) + PrintField(all[1]);
    assert PrintFields(all[..3]) == PrintFields(all[..2]) + PrintField(all[2]);
    assert PrintFields(all[..4]) == PrintFields(all[..3]) + PrintField(all[3]);
  }
}
