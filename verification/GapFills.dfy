/** A GapFill as the writer frames it (frame_gap_fill in src/fix/session.rs) is read by the peer's
    decoder as the SequenceReset the link protocol takes it for. */
module GapFills {
  import opened Orders
  import opened Bytes
  import opened Frames
  import opened Dictionaries
  import opened Codec
  import opened Inbounds
  import opened Conservativity
  import opened FieldOrder
  import opened Outbounds
  import Sequencing
  import Links

  /** The header of a possible duplicate: PossDupFlag and OrigSendingTime added. */
  function DupHead(e: Envelope): seq<Field> {
    [Field(35, SEQUENCE_RESET), Field(34, Digits(e.number)), Field(49, e.sender), Field(56, e.target), Field(43, YES),
     Field(52, e.time), Field(122, e.time)]
  }

  function GapFillBody(newSeq: nat): seq<Field> {
    [Field(36, Digits(newSeq)), Field(123, YES)]
  }

  lemma DupHeadOk(e: Envelope)
    requires EnvelopeOk(e)
    ensures HeadOk(SEQUENCE_RESET, DupHead(e)) && Get(DupHead(e), 43) == Some(YES)
  {
    var h := DupHead(e);
    assert Unique(h);
    Found(h, 0, 35, SEQUENCE_RESET);
    Found(h, 4, 43, YES);
  }

  lemma GapFillBodyOk(newSeq: nat)
    ensures BodyOk(SEQUENCE_RESET, GapFillBody(newSeq))
  {
    var b := GapFillBody(newSeq);
    assert ScalarFields(SEQUENCE_RESET) == SEQUENCE_RESET_FIELDS;
    var t := SEQUENCE_RESET_FIELDS;
    assert t[0] == 123 && t[1] == 36;
  }

  lemma GapFillSays(newSeq: nat)
    requires 1 <= newSeq <= USIZE_MAX
    ensures ReadReset(GapFillBody(newSeq)) == Some(SequenceReset(newSeq, true))
    ensures HasAll(GapFillBody(newSeq), Required(SEQUENCE_RESET).value)
    ensures Get(GapFillBody(newSeq), 60).None?
  {
    var b := GapFillBody(newSeq);
    assert Unique(b);
    Found(b, 0, 36, Digits(newSeq));
    Found(b, 1, 123, YES);
    NotFound(b, 60);
    DigitsValue(newSeq);
    hide Get, Digits;
  }

  /** Decoded by the peer, a GapFill is a SequenceReset in gap-fill mode to its NewSeqNo. */
  lemma GapFillDecodes(reading: Reading, e: Envelope, newSeq: nat)
    requires EnvelopeOk(e) && 1 <= newSeq <= USIZE_MAX
    ensures Decode(reading, DupHead(e) + GapFillBody(newSeq)) == Some(SequenceReset(newSeq, true))
    ensures Get(DupHead(e) + GapFillBody(newSeq), 43) == Some(YES)
  {
    hide Decode, ReadReset, HasAll, BodyOk, HeadOk;
    DupHeadOk(e);
    GapFillBodyOk(newSeq);
    GapFillSays(newSeq);
    GetConcat(DupHead(e), GapFillBody(newSeq), 43);
    hide DupHead, GapFillBody, Get;
    FlatDecodes(reading, SEQUENCE_RESET, DupHead(e), GapFillBody(newSeq));
  }

  /** So the answers of the link are what the link says they are: readable, possible duplicates, and
      resets to the number after the last one covered. */
  lemma AnswersAreReadable(reading: Reading, sender: Text, target: Text, time: Text, last: nat, beginSeq: nat,
                           endSeq: nat)
    requires sender != [] && target != [] && time != [] && last < USIZE_MAX
    requires Links.GapFill(last, beginSeq, endSeq).Some?
    ensures var m := Links.GapFill(last, beginSeq, endSeq).value;
            && m.kind.Reset? && m.kind.newSeq.Some? && m.decodable && m.headerOk && m.possDup
            && Decode(reading, DupHead(Envelope(m.seqNum, sender, target, time)) + GapFillBody(m.kind.newSeq.value))
               == Some(SequenceReset(m.kind.newSeq.value, m.kind.gapFill))
  {
    var m := Links.GapFill(last, beginSeq, endSeq).value;
    GapFillDecodes(reading, Envelope(m.seqNum, sender, target, time), m.kind.newSeq.value);
  }
}
