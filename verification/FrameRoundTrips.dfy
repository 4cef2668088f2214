/** Parsing a printed frame gives back what was printed (src/fix/frame.rs). */
module FrameRoundTrips {
  import opened Orders
  import opened Collections
  import opened Bytes
  import opened Frames

  /** Nonempty printable text without SOH. */
  ghost predicate Plain(v: Text) {
    v != [] && forall i :: 0 <= i < |v| ==> 0x20 <= v[i] <= 0x7E
  }

  ghost predicate PlainField(f: Field) {
    1 <= f.tag <= U32_MAX && Plain(f.value)
  }

  ghost predicate PlainFields(fields: seq<Field>) {
    forall i :: 0 <= i < |fields| ==> PlainField(fields[i])
  }

  // ---------------------------------------------------------------- fields

  function Part(f: Field): Text {
    Digits(f.tag) + [EQUALS] + f.value
  }

  lemma PartParses(f: Field)
    requires PlainField(f)
    ensures ParsePart(Part(f)) == Good(f) && SOH !in Part(f)
  {
    var tag, part := Digits(f.tag), Part(f);
    PositionAfter(tag, EQUALS, f.value);
    DigitsValue(f.tag);
    assert part[..|tag|] == tag && part[|tag| + 1..] == f.value;
  }

  lemma {:induction false} PrintFront(fields: seq<Field>)
    requires fields != []
    ensures PrintFields(fields) == Part(fields[0]) + [SOH] + PrintFields(fields[1..])
  {
    hide Digits;
    if |fields| == 1 {
      assert fields[..0] == [] && fields[1..] == [];
    } else {
      var init, last := fields[..|fields| - 1], fields[|fields| - 1];
      PrintFront(init);
      assert init[1..] == fields[1..][..|fields| - 2] && fields[1..][|fields| - 2] == last;
      Assoc(Part(fields[0]) + [SOH], PrintFields(init[1..]), PrintField(last));
    }
  }

  lemma {:induction false} PrintEnds(fields: seq<Field>)
    requires fields != []
    ensures PrintFields(fields) != [] && PrintFields(fields)[|PrintFields(fields)| - 1] == SOH
  {
  }

  /** Printed fields parse back to themselves. */
  lemma {:induction false} FieldsParse(fields: seq<Field>)
    requires fields != [] && PlainFields(fields)
    ensures ParseFields(PrintFields(fields)) == Good(fields)
  {
    hide ParsePart, PlainField, Position;
    var part, rest := Part(fields[0]), fields[1..];
    PartParses(fields[0]);
    PrintFront(fields);
    PrintEnds(fields);
    if rest == [] {
      assert StripSoh(PrintFields(fields)) == part;
      assert fields == [fields[0]];
    } else {
      FieldsParse(rest);
      PrintEnds(rest);
      var more := StripSoh(PrintFields(rest));
      var text := part + [SOH] + more;
      assert StripSoh(PrintFields(fields)) == text;
      PositionAfter(part, SOH, more);
      assert text[..|part|] == part && text[|part| + 1..] == more;
      assert fields == [fields[0]] + rest;
    }
  }

  lemma {:induction false} PrintPrintable(fields: seq<Field>)
    requires PlainFields(fields)
    ensures forall i :: 0 <= i < |PrintFields(fields)| ==> Printable(PrintFields(fields)[i])
  {
    if fields != [] {
      PrintPrintable(fields[..|fields| - 1]);
      assert PlainField(fields[|fields| - 1]);
    }
  }

  // ---------------------------------------------------------------- whole frames

  /** What the printer accepts and the parser's limits admit. */
  ghost predicate Sendable(begin: Text, fields: seq<Field>) {
    && Plain(begin)
    && fields != [] && fields[0].tag == 35
    && PlainFields(fields)
    && (forall i :: 0 <= i < |fields| ==> !IsFramingTag(fields[i].tag))
    && |Prefix(begin, |PrintFields(fields)|)| <= MAX_PREFIX_SIZE
    && |Framed(begin, fields)| <= MAX_MESSAGE_SIZE
  }

  /** Two fields, each closed by SOH, are found where they end. */
  lemma TwoFields(a: Text, b: Text, rest: Text)
    requires SOH !in a && SOH !in b
    ensures var s := a + [SOH] + (b + [SOH]) + rest;
            && Position(s, SOH) == Some(|a|) && SecondSoh(s) == Some(|a| + 1 + |b|)
            && s[..|a|] == a && s[|a| + 1..|a| + 1 + |b|] == b
  {
    hide Position;
    var s := a + [SOH] + (b + [SOH]) + rest;
    var after := (b + [SOH]) + rest;
    Assoc(a + [SOH], b + [SOH], rest);
    PositionAfter(a, SOH, after);
    PositionAfter(b, SOH, rest);
    assert s[|a| + 1..] == after;
    assert s[..|a|] == a;
    assert s[|a| + 1..|a| + 1 + |b|] == b;
  }

  /** The header of a printed frame, whatever follows it. */
  lemma PrefixProbes(begin: Text, bodyLen: nat, rest: Text)
    requires Plain(begin) && 5 <= bodyLen && |Prefix(begin, bodyLen)| + bodyLen + 7 <= MAX_MESSAGE_SIZE
    ensures var s := Prefix(begin, bodyLen) + rest;
            && Probe(s) == Total(|Prefix(begin, bodyLen)| + bodyLen + 7)
            && Position(s, SOH) == Some(2 + |begin|)
            && SecondSoh(s) == Some(|Prefix(begin, bodyLen)| - 1)
            && s[2..2 + |begin|] == begin
  {
    hide Position, SecondSoh, Digits;
    var a, b := [56, EQUALS] + begin, [57, EQUALS] + Digits(bodyLen);
    var s := Prefix(begin, bodyLen) + rest;
    NoSoh(begin, Digits(bodyLen));
    TwoFields(a, b, rest);
    assert s[2..2 + |begin|] == s[..|a|][2..];
    assert a[2..] == begin && b[2..] == Digits(bodyLen);
    DigitsValue(bodyLen);
  }

  lemma NoSoh(begin: Text, digits: Text)
    requires Plain(begin) && AllDigits(digits)
    ensures SOH !in [56, EQUALS] + begin && SOH !in [57, EQUALS] + digits
  {
  }

  lemma BodyStarts(fields: seq<Field>)
    requires fields != [] && fields[0].tag == 35 && PlainFields(fields)
    ensures [51, 53, 61] <= PrintFields(fields) && |PrintFields(fields)| >= 5
  {
    PrintFront(fields);
    assert Digits(3) == [51] && Digits(35) == [51, 53];
    assert PlainField(fields[0]);
  }

  lemma FramePrintable(begin: Text, fields: seq<Field>)
    requires Plain(begin) && PlainFields(fields)
    ensures forall i :: 0 <= i < |Framed(begin, fields)| ==> Printable(Framed(begin, fields)[i])
  {
    PrintPrintable(fields);
    var prefix := Prefix(begin, |PrintFields(fields)|);
    assert forall i :: 0 <= i < |prefix| ==> Printable(prefix[i]);
  }

  lemma FrameProbes(begin: Text, fields: seq<Field>)
    requires Sendable(begin, fields)
    ensures Probe(Framed(begin, fields)) == Total(|Framed(begin, fields)|)
  {
    hide Probe, PrintFields, Prefix, Sum, Trailer;
    var body := PrintFields(fields);
    var prefix := Prefix(begin, |body|);
    var trailer := Trailer(Sum(prefix + body) % 256);
    BodyStarts(fields);
    TrailerIs(Sum(prefix + body) % 256);
    PrefixProbes(begin, |body|, body + trailer);
    Assoc(prefix, body, trailer);
  }

  /** Print then parse: same begin string, same header and fields, and the raw bytes. */
  lemma FrameRoundTrip(begin: Text, fields: seq<Field>)
    requires Sendable(begin, fields)
    ensures Probe(Framed(begin, fields)) == Total(|Framed(begin, fields)|)
    ensures ParseWire(Framed(begin, fields)) == Good(FixMessage(begin, fields, Framed(begin, fields)))
  {
    hide Probe, Digits, ThreeDigits, PrintFields, Sum, Prefix, Trailer, ParsePieces, Position, SecondSoh;
    FrameProbes(begin, fields);
    FramePrintable(begin, fields);
    var wire, body := Framed(begin, fields), PrintFields(fields);
    var prefix := Prefix(begin, |body|);
    var head := prefix + body;
    var trailer := Trailer(Sum(head) % 256);
    BodyStarts(fields);
    TrailerIs(Sum(head) % 256);
    PrefixProbes(begin, |body|, body + trailer);
    Assoc(prefix, body, trailer);
    PiecesParse(fields, head);
    assert wire[..|wire| - 7] == head && wire[|wire| - 7..] == trailer;
    assert wire[|prefix|..|wire| - 7] == body;
  }

  lemma PiecesParse(fields: seq<Field>, head: Text)
    requires fields != [] && fields[0].tag == 35 && PlainFields(fields)
    requires forall i :: 0 <= i < |fields| ==> !IsFramingTag(fields[i].tag)
    ensures |Trailer(Sum(head) % 256)| == 7 && |PrintFields(fields)| >= 5
    ensures ParsePieces(head, PrintFields(fields), Trailer(Sum(head) % 256)) == Good(fields)
  {
    hide Digits, ThreeDigits, PrintFields, Sum, Trailer, WrappingSum;
    BodyStarts(fields);
    PrintEnds(fields);
    FieldsParse(fields);
    WrappingIsModulo(head);
    ThreeDigitsValue(Sum(head) % 256);
    TrailerIs(Sum(head) % 256);
  }

  lemma TrailerIs(sum: nat)
    requires sum < 1000
    ensures var t := Trailer(sum); |t| == 7 && t[..3] == [49, 48, 61] && t[6] == SOH && t[3..6] == ThreeDigits(sum)
    ensures AllDigits(Trailer(sum)[3..6])
  {
    assert Trailer(sum)[3..6] == ThreeDigits(sum);
  }
}
