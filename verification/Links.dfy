/** One direction of a session, end to end: the writer's numbering and GapFill answers
    (writer_loop in src/fix/session.rs), a FIFO wire that may lose frames, and the peer's reader.
    Acceptor and initiator share both ends, so a session is two such links; a ResendRequest on one
    becomes an Answer step of the other. */
module Links {
  import opened Orders
  import opened Sequencing

  /** `last` is the writer's last number; `sent` remembers the ordinary messages it wrote. */
  datatype Link = Link(last: nat, sent: seq<Msg>, wire: seq<Msg>, reader: Reader)

  datatype Step =
    | Send(payload: int, decodable: bool, logout: bool)
    | Answer(beginSeq: nat, endSeq: nat)
    | Lose(index: nat)
    | Read

  // ---------------------------------------------------------------- the writer

  /** An ordinary message takes the next number. */
  function Numbered(last: nat, payload: int, decodable: bool, logout: bool): Msg {
    Msg(last + 1, Ordinary, false, decodable, payload, true, logout)
  }

  function EffectiveEnd(last: nat, endSeq: nat): nat {
    if endSeq == 0 || endSeq > last then last else endSeq
  }

  function EffectiveBegin(beginSeq: nat): nat {
    if beginSeq == 0 then 1 else beginSeq
  }

  /** The answer to a ResendRequest: one GapFill over what was really sent, or nothing. */
  function GapFill(last: nat, beginSeq: nat, endSeq: nat): Option<Msg> {
    if EffectiveBegin(beginSeq) > EffectiveEnd(last, endSeq) then None
    else Some(Msg(EffectiveBegin(beginSeq), Reset(Some(EffectiveEnd(last, endSeq) + 1), true), true, true, 0, true,
                  false))
  }

  /** The numbers a frame stands for: its own, or all a GapFill passes over. */
  predicate Covers(frame: Option<Msg>, n: nat) {
    frame.Some? && frame.value.seqNum <= n < Reach(frame.value)
  }

  /** A number was asked for by a request and has been sent. */
  predicate AskedFor(last: nat, beginSeq: nat, endSeq: nat, n: nat) {
    1 <= n <= last && beginSeq <= n && (endSeq == 0 || n <= endSeq)
  }

  /** The answer stands for exactly the numbers that were asked for and sent; without any it is left out. */
  lemma GapFillExact(last: nat, beginSeq: nat, endSeq: nat)
    ensures forall n :: Covers(GapFill(last, beginSeq, endSeq), n) <==> AskedFor(last, beginSeq, endSeq, n)
    ensures var fill := GapFill(last, beginSeq, endSeq);
            fill.Some? ==> (
                && Covers(fill, fill.value.seqNum) && fill.value.possDup
                && fill.value.kind.Reset? && fill.value.kind.gapFill)
  {
  }

  // ---------------------------------------------------------------- steps

  /** The reader takes what its queue has ready, or else the next frame on the wire. */
  function ReadStep(l: Link): Link {
    if l.reader.fault.Some? then l
    else if HasReady(l.reader) then l.(reader := HandleReady(l.reader))
    else if l.wire == [] then l
    else l.(wire := l.wire[1..], reader := Handle(l.reader, l.wire[0]))
  }

  function Apply(l: Link, step: Step): Link {
    match step
    case Send(payload, decodable, logout) =>
      var m := Numbered(l.last, payload, decodable, logout);
      l.(last := l.last + 1, sent := l.sent + [m], wire := l.wire + [m])
    case Answer(b, e) =>
      var fill := GapFill(l.last, b, e);
      if fill.Some? then l.(wire := l.wire + [fill.value]) else l
    case Lose(i) => if i < |l.wire| then l.(wire := l.wire[..i] + l.wire[i + 1..]) else l
    case Read => ReadStep(l)
  }

  function Play(l: Link, steps: seq<Step>): Link
    decreases |steps|
  {
    if steps == [] then l else Play(Apply(l, steps[0]), steps[1..])
  }

  /** How a link starts. The acceptor's reader starts with the Logon it was opened by, of any
      positive number; the initiator's reader starts before anything was written. */
  function Opened(logon: Option<Msg>): Link
    requires logon.Some? ==> logon.value.seqNum >= 1
  {
    match logon
    case Some(m) => Link(m.seqNum, [m], [], Started(m))
    case None => Link(0, [], [], Reader(SeqState(1, map[], None), [], [], None))
  }

  // ---------------------------------------------------------------- the writer in place

  /** The writer's counter, updated in place for each item it takes from its mailbox. */
  class Writer {
    var last: nat

    constructor ()
      ensures this.last == 0
    {
      this.last := 0;
    }

    /** The frame written for one item; answering a resend never moves the counter. */
    method Write(out: Step) returns (frame: Option<Msg>)
      requires out.Send? || out.Answer?
      modifies this
      ensures out.Send? ==> last == old(last) + 1
      ensures out.Send? ==> frame == Some(Numbered(old(last), out.payload, out.decodable, out.logout))
      ensures out.Send? ==> frame.Some? && frame.value.seqNum == last && frame.value.payload == out.payload
                            && frame.value.kind.Ordinary? && !frame.value.possDup
      ensures out.Answer? ==> forall n :: Covers(frame, n) <==> AskedFor(last, out.beginSeq, out.endSeq, n)
      ensures out.Answer? ==> last == old(last) && frame == GapFill(old(last), out.beginSeq, out.endSeq)
    {
      GapFillExact(last, if out.Answer? then out.beginSeq else 0, if out.Answer? then out.endSeq else 0);
      if out.Answer? {
        var begin := if out.beginSeq > 1 then out.beginSeq else 1;
        var effectiveEnd := if out.endSeq == 0 then last else if out.endSeq < last then out.endSeq else last;
        if begin > effectiveEnd {
          return None;
        }
        var newSeq := effectiveEnd + 1;
        last := if last > effectiveEnd then last else effectiveEnd;
        frame := Some(Msg(begin, Reset(Some(newSeq), true), true, true, 0, true, false));
      } else {
        last := last + 1;
        frame := Some(Msg(last, Ordinary, false, out.decodable, out.payload, true, out.logout));
      }
    }
  }

  /** The writer loop over its mailbox puts on the wire what the same steps of a link put there. */
  method WriterLoop(mailbox: seq<Step>, ghost l: Link) returns (count: nat, wire: seq<Msg>)
    requires forall i :: 0 <= i < |mailbox| ==> mailbox[i].Send? || mailbox[i].Answer?
    requires l.last == 0 && l.wire == []
    ensures count == Play(l, mailbox).last && wire == Play(l, mailbox).wire
  {
    var writer := new Writer();
    wire := [];
    ghost var now := l;
    for i := 0 to |mailbox|
      invariant Play(now, mailbox[i..]) == Play(l, mailbox)
      invariant now.last == writer.last && now.wire == wire
    {
      var frame := writer.Write(mailbox[i]);
      if frame.Some? {
        wire := wire + [frame.value];
      }
      now := Apply(now, mailbox[i]);
      assert mailbox[i..][1..] == mailbox[i + 1..];
    }
    count := writer.last;
  }

  // ---------------------------------------------------------------- invariant

  /** The number a frame leaves the reader at, at most. */
  function Reach(m: Msg): nat {
    if m.kind.Reset? && m.kind.newSeq.Some? then m.kind.newSeq.value else m.seqNum + 1
  }

  /** A frame this writer can have produced. */
  ghost predicate Genuine(m: Msg, last: nat, sent: seq<Msg>) {
    && m.headerOk && m.seqNum < Reach(m) <= last + 1
    && (if m.kind.Ordinary? then m in sent else m.kind.newSeq.Some? && m.kind.gapFill && m.possDup && m.decodable)
  }

  /** Nothing pending can carry the reader past an ordinary frame that follows it. */
  ghost predicate InTurn(expected: nat, queued: map<nat, Msg>, wire: seq<Msg>) {
    && (forall j :: 0 <= j < |wire| && wire[j].kind.Ordinary? ==> expected <= wire[j].seqNum)
    && (forall k, j :: k in queued && 0 <= j < |wire| && wire[j].kind.Ordinary? ==> Reach(queued[k]) <= wire[j].seqNum)
    && (forall i, j :: 0 <= i < j < |wire| && wire[j].kind.Ordinary? ==> Reach(wire[i]) <= wire[j].seqNum)
  }

  ghost predicate AllGenuine(queued: map<nat, Msg>, wire: seq<Msg>, last: nat, sent: seq<Msg>) {
    && (forall k :: k in queued ==> Genuine(queued[k], last, sent))
    && (forall j :: 0 <= j < |wire| ==> Genuine(wire[j], last, sent))
  }

  ghost predicate InOrder(sent: seq<Msg>, last: nat) {
    && (forall i, j :: 0 <= i < j < |sent| ==> sent[i].seqNum < sent[j].seqNum)
    && (forall i :: 0 <= i < |sent| ==> sent[i].seqNum <= last)
  }

  ghost predicate Delivered(delivered: seq<Msg>, sent: seq<Msg>) {
    forall i :: 0 <= i < |delivered| ==> delivered[i] in sent
  }

  /** The only ways to stop: a full queue, or a Logout the writer sent. */
  ghost predicate Stopped(fault: Option<Fault>, sent: seq<Msg>) {
    || fault.None? || fault == Some(QueueFull)
    || (fault == Some(LoggedOut) && exists m :: m in sent && m.logout)
  }

  ghost predicate Safe(l: Link) {
    && ReaderOk(l.reader)
    && l.reader.state.expected <= l.last + 1
    && Stopped(l.reader.fault, l.sent)
    && Delivered(l.reader.delivered, l.sent) && InOrder(l.sent, l.last)
    && AllGenuine(l.reader.state.queued, l.wire, l.last, l.sent)
    && InTurn(l.reader.state.expected, l.reader.state.queued, l.wire)
  }

  lemma SendSafe(l: Link, payload: int, decodable: bool, logout: bool)
    requires Safe(l)
    ensures Safe(Apply(l, Send(payload, decodable, logout)))
  {
    hide ReaderOk, HandleReady, Handle;
  }

  lemma AnswerSafe(l: Link, b: nat, e: nat)
    requires Safe(l)
    ensures Safe(Apply(l, Answer(b, e)))
  {
    hide ReaderOk, InOrder, Handle;
  }

  lemma LoseSafe(l: Link, i: nat)
    requires Safe(l)
    ensures Safe(Apply(l, Lose(i)))
  {
    hide ReaderOk, Genuine, InOrder, Handle;
  }

  /** The reader's own part: a genuine frame it is handed never faults unless the queue is full,
      never carries it past `m`'s reach, and delivers nothing that was not sent. */
  lemma GenuineHandled(r: Reader, m: Msg, last: nat, sent: seq<Msg>)
    requires ReaderOk(r) && !HasReady(r) && r.fault.None? && Genuine(m, last, sent) && Delivered(r.delivered, sent)
    requires r.state.expected <= last + 1 && (m.kind.Ordinary? ==> r.state.expected <= m.seqNum)
    ensures var after := Handle(r, m);
            && ReaderOk(after) && Delivered(after.delivered, sent)
            && Stopped(after.fault, sent)
            && (after.state.expected == r.state.expected || after.state.expected <= Reach(m))
            && (forall k :: k in after.state.queued ==>
                  (k in r.state.queued && after.state.queued[k] == r.state.queued[k]) || after.state.queued[k] == m)
  {
    HandleKeeps(r, m);
  }

  /** Handling a pending frame keeps the rest in turn. */
  lemma TurnKept(expected: nat, queued: map<nat, Msg>, wire: seq<Msg>, m: Msg, expected': nat, queued': map<nat, Msg>)
    requires InTurn(expected, queued, wire)
    requires forall j :: 0 <= j < |wire| && wire[j].kind.Ordinary? ==> Reach(m) <= wire[j].seqNum
    requires expected' == expected || expected' <= Reach(m)
    requires forall k :: k in queued' ==> (k in queued && queued'[k] == queued[k]) || queued'[k] == m
    ensures InTurn(expected', queued', wire)
  {
  }

  lemma ReadQueuedSafe(l: Link)
    requires Safe(l) && l.reader.fault.None? && HasReady(l.reader)
    ensures Safe(l.(reader := HandleReady(l.reader)))
  {
    hide ReaderOk, Handle, InOrder, InTurn, Delivered;
    var r := l.reader;
    var m, after := r.state.queued[r.state.expected], HandleReady(r);
    TakenKeeps(r);
    GenuineHandled(Taken(r), m, l.last, l.sent);
    InTurnAt(r.state.expected, r.state.queued, l.wire, r.state.expected);
    TurnKept(r.state.expected, r.state.queued, l.wire, m, after.state.expected, after.state.queued);
  }

  lemma InTurnAt(expected: nat, queued: map<nat, Msg>, wire: seq<Msg>, k: nat)
    requires InTurn(expected, queued, wire) && k in queued
    ensures forall j :: 0 <= j < |wire| && wire[j].kind.Ordinary? ==> Reach(queued[k]) <= wire[j].seqNum
  {
  }

  lemma ReadWireSafe(l: Link)
    requires Safe(l) && l.reader.fault.None? && !HasReady(l.reader) && l.wire != []
    ensures Safe(l.(wire := l.wire[1..], reader := Handle(l.reader, l.wire[0])))
  {
    GenuineHandled(l.reader, l.wire[0], l.last, l.sent);
  }

  lemma ApplySafe(l: Link, step: Step)
    requires Safe(l)
    ensures Safe(Apply(l, step))
  {
    hide Safe;
    match step
    case Send(payload, decodable, logout) => SendSafe(l, payload, decodable, logout);
    case Answer(b, e) => AnswerSafe(l, b, e);
    case Lose(i) => LoseSafe(l, i);
    case Read =>
      if l.reader.fault.None? && HasReady(l.reader) {
        ReadQueuedSafe(l);
      } else if l.reader.fault.None? && l.wire != [] {
        ReadWireSafe(l);
      }
  }

  lemma {:induction false} PlaySafe(l: Link, steps: seq<Step>)
    requires Safe(l)
    ensures Safe(Play(l, steps))
    decreases |steps|
  {
    hide Safe;
    if steps != [] {
      ApplySafe(l, steps[0]);
      PlaySafe(Apply(l, steps[0]), steps[1..]);
    }
  }

  /** Two-ended safety over every interleaving of sends, resend answers, losses and reads: the
      reader never runs ahead of the writer, a frame is never "too low" and a GapFill never an
      error, what is delivered was sent, in order and at most once. The reader stops only on
      a full reorder queue or on a Logout that was sent. */
  lemma SessionSafety(logon: Option<Msg>, steps: seq<Step>)
    requires logon.Some? ==> logon.value.seqNum >= 1 && logon.value.kind.Ordinary? && logon.value.headerOk
    ensures var l := Play(Opened(logon), steps);
            && l.reader.state.expected <= l.last + 1
            && Stopped(l.reader.fault, l.sent)
            && (forall i :: 0 <= i < |l.reader.delivered| ==> l.reader.delivered[i] in l.sent)
            && InOrder(l.sent, l.last)
            && Ascending(l.reader.delivered, l.reader.state.expected)
            && |l.reader.state.queued| <= MAX_QUEUED_MESSAGES
  {
    var l := Opened(logon);
    assert Safe(l);
    PlaySafe(l, steps);
  }

  /** Recovery: once the wire is quiet, one answer to a request from any number up to the expected
      one brings the reader level with the writer and empties its queue. */
  lemma Recovers(l: Link, b: nat)
    requires Safe(l) && l.reader.fault.None? && !HasReady(l.reader) && l.wire == []
    requires 1 <= b <= l.reader.state.expected <= l.last
    ensures var after := Play(l, [Answer(b, 0), Read]);
            && after.reader.state.expected == l.last + 1 && after.reader.state.queued == map[]
            && after.reader.fault.None? && after.reader.delivered == l.reader.delivered && after.wire == []
  {
    var m := GapFill(l.last, b, 0).value;
    var asked := Apply(l, Answer(b, 0));
    assert asked == l.(wire := [m]);
    var after := Apply(asked, Read);
    assert Play(l, [Answer(b, 0), Read]) == after by {
      assert [Answer(b, 0), Read][1..] == [Read] && [Read][1..] == [];
      assert Play(asked, [Read]) == Play(after, []);
    }
    assert after.reader == Handle(l.reader, m) && after.wire == [];
    assert AtLeast(l.reader.state.queued, l.last + 1) == map[] by {
      forall k | k in l.reader.state.queued ensures k <= l.last {
        assert Genuine(l.reader.state.queued[k], l.last, l.sent);
      }
    }
  }

  /** An answer up to `e` passes over exactly what was asked for: the reader stands right behind it, and
      no message it holds for later is dropped. */
  lemma BoundedAnswer(l: Link, b: nat, e: nat)
    requires Safe(l) && l.reader.fault.None? && !HasReady(l.reader) && l.wire == []
    requires 1 <= b <= l.reader.state.expected <= e <= l.last
    ensures var after := Play(l, [Answer(b, e), Read]);
            && after.reader.state.expected == e + 1 && after.reader.fault.None? && after.wire == []
            && after.reader.delivered == l.reader.delivered
            && (forall k :: k in after.reader.state.queued <==> k in l.reader.state.queued && k > e)
            && (forall k :: k in after.reader.state.queued ==>
                  after.reader.state.queued[k] == l.reader.state.queued[k])
  {
    var m := GapFill(l.last, b, e).value;
    var asked := Apply(l, Answer(b, e));
    assert asked == l.(wire := [m]);
    var after := Apply(asked, Read);
    assert Play(l, [Answer(b, e), Read]) == after by {
      assert [Answer(b, e), Read][1..] == [Read] && [Read][1..] == [];
      assert Play(asked, [Read]) == Play(after, []);
    }
    assert after.reader == Handle(l.reader, m) && after.wire == [];
  }

  /** So recovery works from every reachable state. */
  lemma ReachableRecovers(logon: Option<Msg>, steps: seq<Step>, b: nat)
    requires logon.Some? ==> logon.value.seqNum >= 1 && logon.value.kind.Ordinary? && logon.value.headerOk
    requires var l := Play(Opened(logon), steps);
             && l.reader.fault.None? && !HasReady(l.reader) && l.wire == []
             && 1 <= b <= l.reader.state.expected <= l.last
    ensures var l := Play(Opened(logon), steps);
            var after := Play(l, [Answer(b, 0), Read]);
            after.reader.state.expected == l.last + 1 && after.reader.state.queued == map[] && after.reader.fault.None?
  {
    assert Safe(Opened(logon));
    PlaySafe(Opened(logon), steps);
    Recovers(Play(Opened(logon), steps), b);
  }
}
