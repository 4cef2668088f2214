/** Every message the decoder can return is one the printer can send: printing it again gives a
    frame no longer than the one received, which decodes to the same begin string and fields
    (src/fix/frame.rs). */
module FrameForms {
  import opened Orders
  import opened Bytes
  import opened Frames
  import opened FrameRoundTrips
  import opened FrameStreams

  // ---------------------------------------------------------------- numerals

  lemma {:induction false} DigitsMonotone(a: nat, b: nat)
    requires a <= b
    ensures |Digits(a)| <= |Digits(b)|
  {
    if b >= 10 && a >= 10 {
      DigitsMonotone(a / 10, b / 10);
    }
  }

  /** Printing a numeral that was read drops its leading zeros and nothing else. */
  lemma {:induction false} DigitsShort(s: Text)
    requires AllDigits(s) && s != []
    ensures |Digits(Value(s))| <= |s|
  {
    var init := s[..|s| - 1];
    if init == [] {
      assert Value(s) == s[0] - ZERO;
    } else {
      DigitsShort(init);
      if Value(s) >= 10 {
        assert Value(s) / 10 == Value(init);
      }
    }
  }

  // ---------------------------------------------------------------- fields

  ghost predicate AllPrintable(s: Text) {
    forall i :: 0 <= i < |s| ==> Printable(s[i])
  }

  lemma PartPlain(part: Text)
    requires ParsePart(part).Good? && AllPrintable(part) && SOH !in part
    ensures PlainField(ParsePart(part).value) && |Part(ParsePart(part).value)| <= |part|
  {
    var i := Position(part, EQUALS).value;
    var tag, value := part[..i], part[i + 1..];
    DigitsShort(tag);
    forall j | 0 <= j < |value| ensures 0x20 <= value[j] <= 0x7E {
      assert value[j] == part[i + 1 + j];
      assert Printable(part[i + 1 + j]) && part[i + 1 + j] in part;
    }
  }

  lemma {:induction false} PartsPlain(text: Text)
    requires ParseParts(text).Good? && AllPrintable(text)
    ensures ParseParts(text).value != [] && PlainFields(ParseParts(text).value)
    ensures |PrintFields(ParseParts(text).value)| <= |text| + 1
    decreases |text|
  {
    hide ParsePart, PlainField, Position, PrintFields, Part;
    var fields := ParseParts(text).value;
    PrintFront(fields);
    var cut := Position(text, SOH);
    if cut.None? {
      PartPlain(text);
      assert fields[1..] == [];
      PrintNothing();
    } else {
      var rest := text[cut.value + 1..];
      PartPlain(text[..cut.value]);
      PartsPlain(rest);
      assert fields[1..] == ParseParts(rest).value;
    }
  }

  lemma PrintNothing()
    ensures PrintFields([]) == []
  {
  }

  lemma FirstTag(text: Text)
    requires [51, 53, 61] <= text && ParseParts(text).Good?
    ensures ParseParts(text).value[0].tag == 35
  {
    var cut := Position(text, SOH);
    var part := if cut.Some? then text[..cut.value] else text;
    assert text[0] == 51 && text[1] == 53 && text[2] == EQUALS;
    assert part[..2] == [51, 53];
    PositionIs(part, EQUALS, 2);
    assert [51, 53][..1] == [51] && [51][..0] == [];
    assert Value([51]) == 3 && Value([51, 53]) == 35;
  }

  // ---------------------------------------------------------------- whole frames

  lemma PiecesSendable(head: Text, body: Text, trailer: Text)
    requires |trailer| == 7 && |body| >= 5 && AllPrintable(body)
    requires ParsePieces(head, body, trailer).Good?
    ensures var fields := ParsePieces(head, body, trailer).value;
            && fields != [] && fields[0].tag == 35 && PlainFields(fields)
            && (forall i :: 0 <= i < |fields| ==> !IsFramingTag(fields[i].tag))
            && |PrintFields(fields)| <= |body|
  {
    hide ParseParts, PlainFields, PrintFields, WrappingSum, Value;
    var text := StripSoh(body);
    PartsPlain(text);
    FirstTag(text);
  }

  /** What the header of a complete frame says. */
  lemma HeaderSays(wire: Text)
    requires Probe(wire) == Total(|wire|)
    ensures var first, second := Position(wire, SOH).value, SecondSoh(wire).value;
            && first > 2 && first + 3 < second
            && |Digits(|wire| - second - 8)| <= second - first - 3
  {
    var first, second := Position(wire, SOH).value, SecondSoh(wire).value;
    DigitsShort(wire[first + 1..second][2..]);
  }

  lemma BeginPlain(wire: Text)
    requires Probe(wire) == Total(|wire|) && AllPrintable(wire)
    ensures Plain(wire[2..Position(wire, SOH).value])
  {
    HeaderSays(wire);
    var first := Position(wire, SOH).value;
    var begin := wire[2..first];
    forall i | 0 <= i < |begin| ensures 0x20 <= begin[i] <= 0x7E {
      assert begin[i] == wire[..first][i + 2];
      assert Printable(wire[i + 2]);
    }
  }

  lemma WireSendable(wire: Text)
    requires Probe(wire) == Total(|wire|) && |wire| <= MAX_MESSAGE_SIZE && ParseWire(wire).Good?
    requires SecondSoh(wire).value < MAX_PREFIX_SIZE
    ensures var m := ParseWire(wire).value;
            Sendable(m.begin, m.fields) && |Framed(m.begin, m.fields)| <= |wire| && m.raw == wire
  {
    hide Probe, ParsePieces, PrintFields, Digits, Position, SecondSoh, PlainFields, Sum, Trailer;
    var m := ParseWire(wire).value;
    ProbeSize(wire);
    var first, second, cut := Position(wire, SOH).value, SecondSoh(wire).value, |wire| - 7;
    assert AllPrintable(wire);
    HeaderSays(wire);
    BeginPlain(wire);
    var body := wire[second + 1..cut];
    assert AllPrintable(body);
    PiecesSendable(wire[..cut], body, wire[cut..]);
    DigitsMonotone(|PrintFields(m.fields)|, |body|);
    TrailerIs(Sum(Prefix(m.begin, |PrintFields(m.fields)|) + PrintFields(m.fields)) % 256);
  }

  /** A message can be received if and only if it can be sent: whatever the stream, a decoded
      message is sendable, and reprinting it at the head of any stream decodes to the same begin
      string and fields. */
  lemma DecodedIsSendable(s: Text, more: Text)
    requires Decode(s).Message?
    ensures var m := Decode(s).message;
            && Sendable(m.begin, m.fields)
            && m.raw == s[..Decode(s).used]
            && |Framed(m.begin, m.fields)| <= Decode(s).used
            && Decode(Framed(m.begin, m.fields) + more)
               == Message(m.(raw := Framed(m.begin, m.fields)), |Framed(m.begin, m.fields)|)
  {
    hide Sendable, Framed, ParseWire, Probe;
    var n, m := Decode(s).used, Decode(s).message;
    FrameAt(s, n);
    ProbeSize(Window(s));
    HeaderInWindow(s, n);
    WireSendable(s[..n]);
    FrameDecodes(m.begin, m.fields, more);
  }

  lemma HeaderInWindow(s: Text, n: nat)
    requires Probe(Window(s)) == Total(n) && n <= |s|
    ensures Probe(s[..n]) == Total(n) && SecondSoh(s[..n]).Some? && SecondSoh(s[..n]).value < MAX_PREFIX_SIZE
  {
    hide Probe, SecondSoh;
    var w := Window(s);
    FrameAt(s, n);
    ProbeSize(w);
    ProbeSize(s[..n]);
    if n <= |w| {
      SohKept(w, n);
      ProbeStable(w[..n], w[n..]);
      assert w[..n] + w[n..] == w && w[..n] == s[..n];
    } else {
      ProbeStable(w, s[|w|..n]);
      assert w + s[|w|..n] == s[..n];
    }
  }
}
