/** The frames the decoder accepts, as a grammar: every accepted frame has this form, and everything of
    this form is accepted (src/fix/frame.rs). Numerals may carry leading zeros. */
module FrameGrammar {
  import opened Orders
  import opened Bytes
  import opened Frames
  import opened FrameRoundTrips
  import opened FrameStreams
  import opened FrameForms

  // ---------------------------------------------------------------- fields

  /** A part is digits, an equals sign and a value; the digits give a tag from 1 to 2^32 - 1. */
  ghost predicate SpellsField(part: Text, f: Field) {
    exists j ::
      && 0 < j < |part| && part[j] == EQUALS && AllDigits(part[..j])
      && f == Field(Value(part[..j]), part[j + 1..]) && f.value != [] && 1 <= f.tag <= 0xFFFF_FFFF
  }

  /** A body is one part after the other, each closed by SOH. */
  ghost predicate Spells(text: Text, fields: seq<Field>)
    decreases |fields|
  {
    && fields != []
    && exists i ::
         && 0 <= i < |text| && text[i] == SOH && SOH !in text[..i] && SpellsField(text[..i], fields[0])
         && (if |fields| == 1 then i + 1 == |text| else Spells(text[i + 1..], fields[1..]))
  }

  lemma PartExact(part: Text, f: Field)
    ensures ParsePart(part) == Good(f) <==> SpellsField(part, f)
  {
    if SpellsField(part, f) {
      var j :| 0 < j < |part| && part[j] == EQUALS && AllDigits(part[..j])
        && f == Field(Value(part[..j]), part[j + 1..]) && f.value != [] && 1 <= f.tag <= 0xFFFF_FFFF;
      assert EQUALS !in part[..j];
      PositionIs(part, EQUALS, j);
    }
  }

  /** Cutting the first part off a body. */
  lemma FirstPart(text: Text, i: nat)
    requires i < |text| && text[i] == SOH && SOH !in text[..i] && text[|text| - 1] == SOH
    ensures i + 1 < |text| ==> (
        && text[i + 1..][|text| - i - 2] == SOH
        && ParseFields(text) == After(ParsePart(text[..i]), ParseFields(text[i + 1..])))
    ensures i + 1 == |text| ==>
              ParseFields(text) == match ParsePart(text[..i]) case Bad(e) => Bad(e) case Good(f) => Good([f])
  {
    hide ParsePart;
    var t := StripSoh(text);
    if i + 1 < |text| {
      assert t[..i] == text[..i];
      PositionIs(t, SOH, i);
      assert StripSoh(text[i + 1..]) == t[i + 1..];
    } else {
      assert t == text[..i];
    }
  }

  lemma {:induction false} FieldsExact(text: Text, fields: seq<Field>)
    requires text != [] && text[|text| - 1] == SOH
    ensures ParseFields(text) == Good(fields) <==> Spells(text, fields)
    decreases |text|
  {
    hide ParsePart, ParseFields, SpellsField;
    var i := Position(text, SOH).value;
    FirstPart(text, i);
    if fields != [] {
      PartExact(text[..i], fields[0]);
    }
    if i + 1 == |text| {
      assert |fields| == 1 ==> fields == [fields[0]];
      OnePart(text, fields, i);
    } else {
      var rest := if fields == [] then [] else fields[1..];
      FieldsExact(text[i + 1..], rest);
      assert fields != [] ==> fields == [fields[0]] + rest;
      MoreParts(text, fields, i);
    }
  }

  lemma OnePart(text: Text, fields: seq<Field>, i: nat)
    requires i + 1 == |text| && text[i] == SOH && SOH !in text[..i]
    ensures Spells(text, fields) <==> |fields| == 1 && SpellsField(text[..i], fields[0])
  {
    hide SpellsField;
    if Spells(text, fields) && |fields| > 1 {
      var k :| 0 <= k < |text| && text[k] == SOH && SOH !in text[..k] && Spells(text[k + 1..], fields[1..]);
      SameCut(text, i, k);
    }
  }

  lemma MoreParts(text: Text, fields: seq<Field>, i: nat)
    requires i + 1 < |text| && text[i] == SOH && SOH !in text[..i]
    ensures Spells(text, fields) <==>
              |fields| > 1 && SpellsField(text[..i], fields[0]) && Spells(text[i + 1..], fields[1..])
  {
    hide SpellsField;
    if Spells(text, fields) {
      var k :| 0 <= k < |text| && text[k] == SOH && SOH !in text[..k] && SpellsField(text[..k], fields[0])
        && (if |fields| == 1 then k + 1 == |text| else Spells(text[k + 1..], fields[1..]));
      SameCut(text, i, k);
    }
  }

  lemma SameCut(text: Text, i: nat, k: nat)
    requires i < |text| && text[i] == SOH && SOH !in text[..i]
    requires k < |text| && text[k] == SOH && SOH !in text[..k]
    ensures i == k
  {
    PositionIs(text, SOH, i);
    PositionIs(text, SOH, k);
  }

  // ---------------------------------------------------------------- frames

  /** The variable pieces of a frame: begin string, BodyLength numeral, body and CheckSum numeral. */
  datatype Pieces = Pieces(begin: Text, length: Text, body: Text, sum: Text)

  function Header(p: Pieces): Text {
    [56, 61] + p.begin + [SOH] + ([57, 61] + p.length + [SOH])
  }

  function Assembled(p: Pieces): Text {
    Header(p) + p.body + ([49, 48, 61] + p.sum + [SOH])
  }

  /** The outer form: a header of at most 64 bytes with the true body length, three digits at the end,
      printable throughout, a megabyte at most. */
  ghost predicate Shaped(p: Pieces) {
    && p.begin != [] && SOH !in p.begin && p.length != [] && AllDigits(p.length) && Value(p.length) == |p.body|
    && |p.sum| == 3 && AllDigits(p.sum) && |p.body| >= 5
    && |Header(p)| <= 64 && |Assembled(p)| <= 1048576
    && forall i :: 0 <= i < |Assembled(p)| ==> Assembled(p)[i] == SOH || 0x20 <= Assembled(p)[i] <= 0x7E
  }

  /** The numeral at the end is the sum of all bytes before it, modulo 256. */
  ghost predicate Summed(p: Pieces)
    requires AllDigits(p.sum)
  {
    Value(p.sum) == Sum(Header(p) + p.body) % 256
  }

  /** The body starts with MsgType and holds these fields, none of them a framing field. */
  ghost predicate Filled(p: Pieces, fields: seq<Field>) {
    && p.body != [] && p.body[|p.body| - 1] == SOH && [51, 53, 61] <= p.body && Spells(p.body, fields)
    && forall i :: 0 <= i < |fields| ==> fields[i].tag != 8 && fields[i].tag != 9 && fields[i].tag != 10
  }

  lemma HeaderCut(p: Pieces)
    requires SOH !in p.begin && AllDigits(p.length)
    ensures var w, a, b := Assembled(p), [56, 61] + p.begin, [57, 61] + p.length;
            && Position(w, SOH) == Some(|a|) && SecondSoh(w) == Some(|Header(p)| - 1)
            && w[..|a|] == a && w[|a| + 1..|Header(p)| - 1] == b && w[2..|a|] == p.begin
            && a[2..] == p.begin && b[2..] == p.length
  {
    hide Position, SecondSoh;
    var a, b, rest := [56, 61] + p.begin, [57, 61] + p.length, p.body + ([49, 48, 61] + p.sum + [SOH]);
    assert Assembled(p) == a + [SOH] + (b + [SOH]) + rest;
    TwoFields(a, b, rest);
    assert Assembled(p)[2..|a|] == Assembled(p)[..|a|][2..];
  }

  /** The header of an assembled frame is read as its pieces. */
  lemma HeaderRead(p: Pieces)
    requires Shaped(p)
    ensures var w := Assembled(p);
            && Position(w, SOH) == Some(2 + |p.begin|) && SecondSoh(w) == Some(|Header(p)| - 1)
            && w[2..2 + |p.begin|] == p.begin && Probe(w) == Total(|w|)
  {
    hide Position, SecondSoh;
    HeaderCut(p);
    assert |Assembled(p)| == |Header(p)| + |p.body| + 7;
    hide Assembled, Header, Value;
  }

  lemma PiecesCut(p: Pieces)
    requires |p.sum| == 3
    ensures var w := Assembled(p);
            && w[..|w| - 7] == Header(p) + p.body && w[|Header(p)|..|w| - 7] == p.body
            && w[|w| - 7..] == [49, 48, 61] + p.sum + [SOH]
            && ([49, 48, 61] + p.sum + [SOH])[3..6] == p.sum
  {
  }

  lemma PiecesRead(p: Pieces)
    requires Shaped(p)
    ensures var head, trailer := Header(p) + p.body, [49, 48, 61] + p.sum + [SOH];
            && (!Summed(p) ==> ParsePieces(head, p.body, trailer) == Bad(CheckSumMismatch))
            && (forall fields :: Summed(p) && Filled(p, fields) ==> ParsePieces(head, p.body, trailer) == Good(fields))
  {
    hide ParseFields, Spells, WrappingSum, Value;
    WrappingIsModulo(Header(p) + p.body);
    PiecesCut(p);
    forall fields | Summed(p) && Filled(p, fields)
      ensures ParsePieces(Header(p) + p.body, p.body, [49, 48, 61] + p.sum + [SOH]) == Good(fields)
    {
      FieldsExact(p.body, fields);
    }
  }

  /** The frame is found at the head of any stream. */
  lemma FrameFound(p: Pieces, more: Text)
    requires Shaped(p)
    ensures var w := Assembled(p);
            && Probe(w) == Total(|w|)
            && Decode(w + more) == match ParseWire(w) case Bad(e) => Invalid(e) case Good(m) => Message(m, |w|)
  {
    hide Probe, ParseWire, SecondSoh, Position;
    var w := Assembled(p);
    HeaderRead(p);
    var s := w + more;
    var head := Window(s);
    assert Header(p) <= w;
    if |s| <= 64 {
      ProbeStable(w, more);
    } else if |w| <= 64 {
      assert head == w + more[..64 - |w|];
      ProbeStable(w, more[..64 - |w|]);
    } else {
      assert head == w[..64];
      SohKept(w, 64);
      ProbeStable(w[..64], w[64..]);
      assert w[..64] + w[64..] == w;
    }
    assert s[..|w|] == w;
  }

  /** Everything of this form is accepted, whatever follows it. */
  lemma FormAccepted(p: Pieces, fields: seq<Field>, more: Text)
    requires Shaped(p) && Summed(p) && Filled(p, fields)
    ensures Decode(Assembled(p) + more) == Message(FixMessage(p.begin, fields, Assembled(p)), |Assembled(p)|)
  {
    hide Decode, Shaped, Probe, ParsePieces, SecondSoh, Position;
    FrameFound(p, more);
    HeaderRead(p);
    PiecesRead(p);
    WireRead(p);
  }

  lemma WireRead(p: Pieces)
    requires Shaped(p)
    ensures var w := Assembled(p);
            && Probe(w) == Total(|w|) && |p.body| >= 5
            && ParseWire(w) == match ParsePieces(Header(p) + p.body, p.body, [49, 48, 61] + p.sum + [SOH])
                               case Bad(e) => Bad(e)
                               case Good(fields) => Good(FixMessage(p.begin, fields, w))
  {
    hide Probe, ParsePieces, SecondSoh, Position;
    HeaderRead(p);
    PiecesCut(p);
  }

  /** A frame that is right but for its CheckSum is rejected for that. */
  lemma WrongSumRejected(p: Pieces, more: Text)
    requires Shaped(p) && !Summed(p)
    ensures Decode(Assembled(p) + more) == Invalid(CheckSumMismatch)
  {
    hide Decode, Shaped, Probe, ParsePieces, SecondSoh, Position;
    FrameFound(p, more);
    PiecesRead(p);
    WireRead(p);
  }

  // ---------------------------------------------------------------- the other way

  lemma Reassembled(w: Text, first: nat, second: nat)
    requires 2 < first && first + 3 < second && second + 8 <= |w| && w[first] == SOH && w[second] == SOH
    requires [56, 61] <= w[..first] && [57, 61] <= w[first + 1..second]
    requires w[|w| - 7..][..3] == [49, 48, 61] && w[|w| - 7..][6] == SOH
    ensures var p := Pieces(w[2..first], w[first + 3..second], w[second + 1..|w| - 7], w[|w| - 4..|w| - 1]);
            Assembled(p) == w && Header(p) == w[..second + 1] && Header(p) + p.body == w[..|w| - 7]
  {
    var p := Pieces(w[2..first], w[first + 3..second], w[second + 1..|w| - 7], w[|w| - 4..|w| - 1]);
    assert w[..first] == [56, 61] + p.begin;
    assert w[first + 1..second] == [57, 61] + p.length;
    assert w[..second + 1] == w[..first] + [SOH] + (w[first + 1..second] + [SOH]);
    assert w[..|w| - 7] == w[..second + 1] + p.body;
    assert w[|w| - 7..] == [49, 48, 61] + p.sum + [SOH];
    assert w == w[..|w| - 7] + w[|w| - 7..];
  }

  /** Every accepted frame has the form, with the right CheckSum and the fields it was read as. */
  lemma DecodedForm(s: Text) returns (p: Pieces)
    requires Decode(s).Message?
    ensures var d := Decode(s);
            && Shaped(p) && Summed(p) && Filled(p, d.message.fields)
            && s[..d.used] == Assembled(p) && d.message.begin == p.begin && d.message.raw == Assembled(p)
  {
    hide ParseWire, Probe, SecondSoh, Position, Shaped, Filled, Summed;
    var n := Decode(s).used;
    HeaderInWindow(s, n);
    p := WireForm(s[..n]);
  }

  lemma WireForm(w: Text) returns (p: Pieces)
    requires Probe(w) == Total(|w|) && SecondSoh(w).Some? && SecondSoh(w).value < 64 && ParseWire(w).Good?
    ensures var m := ParseWire(w).value;
            && Shaped(p) && Summed(p) && Filled(p, m.fields)
            && w == Assembled(p) && m.begin == p.begin && m.raw == w
  {
    hide Position, SecondSoh, ParseFields, Value, WrappingSum, Sum, Spells;
    HeaderSays(w);
    var first, second, cut := Position(w, SOH).value, SecondSoh(w).value, |w| - 7;
    var begin, length, trailer := w[..first], w[first + 1..second], w[cut..];
    Reassembled(w, first, second);
    p := Pieces(w[2..first], w[first + 3..second], w[second + 1..cut], w[|w| - 4..|w| - 1]);
    assert length[2..] == p.length && trailer[3..6] == p.sum && begin[2..] == p.begin;
    WrappingIsModulo(w[..cut]);
    FieldsExact(p.body, ParseWire(w).value.fields);
    assert SOH !in p.begin;
  }

  /** Said at the bytes: an accepted frame ends in 10=, three digits and SOH, and the digits are the sum of
      everything before them modulo 256. */
  lemma CheckSumHolds(s: Text)
    requires Decode(s).Message?
    ensures var n := Decode(s).used;
            && n >= 7 && s[n - 7..n - 4] == [49, 48, 61] && s[n - 1] == SOH && AllDigits(s[n - 4..n - 1])
            && Value(s[n - 4..n - 1]) == Sum(s[..n - 7]) % 256
  {
    hide Decode, Sum, Value, Spells, Assembled, Header;
    var p := DecodedForm(s);
    TailSays(s, Decode(s).used, p);
  }

  lemma TailSays(s: Text, n: nat, p: Pieces)
    requires n <= |s| && s[..n] == Assembled(p) && |p.sum| == 3
    ensures n >= 7 && s[n - 7..n - 4] == [49, 48, 61] && s[n - 1] == SOH && s[n - 4..n - 1] == p.sum
    ensures s[..n - 7] == Header(p) + p.body
  {
    PiecesCut(p);
    var tail := [49, 48, 61] + p.sum + [SOH];
    assert s[..n][n - 7..] == s[n - 7..n] && s[..n][..n - 7] == s[..n - 7];
    hide Assembled, Header;
    assert s[n - 7..n] == tail && tail[3..6] == p.sum && tail[..3] == [49, 48, 61] && tail[6] == SOH;
    assert s[n - 7..n][..3] == s[n - 7..n - 4] && s[n - 7..n][3..6] == s[n - 4..n - 1];
  }

  /** A frame cut short is reported as that, wherever it is cut; nothing at all is the end. */
  lemma CutShort(p: Pieces, k: nat)
    requires Shaped(p) && k < |Assembled(p)|
    ensures Decode(Assembled(p)[..k]) == if k == 0 then EndOfStream else Truncated
  {
    hide Probe, ParseWire, SecondSoh, Position, HeaderSize;
    var w := Assembled(p);
    var s := w[..k];
    HeaderRead(p);
    assert w == s + w[k..];
    if SecondSoh(s).Some? {
      ProbeStable(s, w[k..]);
      if k > 64 {
        SohKept(s, 64);
        ProbeStable(s[..64], s[64..]);
        assert s == s[..64] + s[64..];
      }
    } else {
      if k > |Header(p)| - 1 {
        SohKept(w, k);
      }
      NoHeaderYet(s);
    }
  }

  lemma NoHeaderYet(s: Text)
    requires SecondSoh(s).None? && |s| < 64
    ensures Probe(Window(s)) == NeedMore
  {
  }

  /** The first field is 8= and something. */
  predicate Begins(w: Text, first: nat) {
    2 < first <= |w| && w[0] == 56 && w[1] == 61
  }

  /** The second field is 9= and digits. */
  predicate Measures(w: Text, first: nat, second: nat) {
    first + 3 < second <= |w| && w[first + 1] == 57 && w[first + 2] == 61 && AllDigits(w[first + 3..second])
  }

  lemma HeaderReads(w: Text, first: nat, second: nat)
    requires first < second < |w|
    ensures !Begins(w, first) ==> HeaderSize(w, first, second) == Malformed(NoBeginString)
    ensures Begins(w, first) && !Measures(w, first, second) ==> HeaderSize(w, first, second) == Malformed(NoBodyLength)
    ensures Begins(w, first) && Measures(w, first, second) ==>
              var size := Value(w[first + 3..second]);
              var said := if size > 0xFFFF_FFFF_FFFF_FFFF then Malformed(BadBodyLength)
                          else if second + 8 + size > 1048576 then Malformed(TooBig)
                          else if size < 5 then Malformed(TooSmall)
                          else Total(second + 8 + size);
              HeaderSize(w, first, second) == said
  {
    hide Value;
    var begin, length := w[..first], w[first + 1..second];
    assert |begin| >= 2 ==> begin[0] == w[0] && begin[1] == w[1];
    assert |length| >= 2 ==> length[0] == w[first + 1] && length[1] == w[first + 2];
    assert |length| > 2 ==> length[2..] == w[first + 3..second];
  }

  /** What is wrong with a header is named: the begin string first, then the length field, then its value. */
  lemma HeaderFaults(s: Text)
    ensures var w := Window(s);
            SecondSoh(w).Some? ==>
              var first, second := Position(w, SOH).value, SecondSoh(w).value;
              && (!Begins(w, first) ==> Decode(s) == Invalid(NoBeginString))
              && (Begins(w, first) && !Measures(w, first, second) ==> Decode(s) == Invalid(NoBodyLength))
              && (Begins(w, first) && Measures(w, first, second) ==>
                    var size := Value(w[first + 3..second]);
                    && (size < 5 ==> Decode(s) == Invalid(TooSmall))
                    && (size <= 0xFFFF_FFFF_FFFF_FFFF && second + 8 + size > 1048576 ==>
                          Decode(s) == Invalid(TooBig)))
  {
    hide Position, SecondSoh, ParseWire, Value, HeaderSize, Begins, Measures, Window;
    var w := Window(s);
    if SecondSoh(w).Some? {
      HeaderReads(w, Position(w, SOH).value, SecondSoh(w).value);
      assert SecondSoh(w).value <= 64 by { WindowBound(s); }
    }
  }

  lemma WindowBound(s: Text)
    ensures |Window(s)| <= 64
  {
  }

  /** A header that is not complete within 64 bytes is too long. */
  lemma LongHeaderRejected(s: Text)
    requires |s| >= 64 && SecondSoh(s[..64]).None?
    ensures Decode(s) == Invalid(HeaderTooLong)
  {
    assert |s| == 64 ==> s[..64] == s;
    hide SecondSoh, Position, ParseWire;
    assert Window(s) == s[..64];
  }
}
