/** Inbound sequence numbers of a FIX session (SequenceState and the reader loop around it in
    src/fix/session.rs): a reorder buffer with gap requests, duplicates and SequenceReset. */
module Sequencing {
  import opened Orders
  import Collections

  const MAX_QUEUED_MESSAGES: nat := 4096

  /** What sequencing looks at in a message. `newSeq` is None when NewSeqNo is missing, malformed
      or zero. */
  datatype Kind = Ordinary | Reset(newSeq: Option<nat>, gapFill: bool)

  /** A message as the reader sees it. `headerOk` says whether its header passes validation, in which
      case it has a positive MsgSeqNum; a `logout` ends the session once it is delivered. */
  datatype Msg = Msg(seqNum: nat, kind: Kind, possDup: bool, decodable: bool, payload: int, headerOk: bool,
                     logout: bool)

  /** Why a reader stops. */
  datatype Fault = BadHeader | BadReset | TooLow | QueueFull | Mismatch | NotAbove | LoggedOut

  datatype Action = Ready | Gap(request: Option<nat>) | Duplicate | Failed(fault: Fault)

  datatype SeqState = SeqState(expected: nat, queued: map<nat, Msg>, resendFrom: Option<nat>)

  // ---------------------------------------------------------------- the three operations

  /** Whether a SequenceReset bypasses the number check. */
  predicate Bypasses(s: SeqState, m: Msg)
    requires m.kind.Reset? && m.kind.newSeq.Some?
  {
    !m.kind.gapFill || (m.seqNum < s.expected && m.kind.newSeq.value > s.expected && m.possDup)
  }

  function ActionFor(s: SeqState, m: Msg): Action {
    if m.kind.Reset? && m.kind.newSeq.None? then Failed(BadReset)
    else if m.kind.Reset? && Bypasses(s, m) then Ready
    else if m.seqNum < s.expected then if m.possDup then Duplicate else Failed(TooLow)
    else if m.seqNum > s.expected then
      if |s.queued| >= MAX_QUEUED_MESSAGES then Failed(QueueFull)
      else Gap(if s.resendFrom.None? then Some(s.expected) else None)
    else Ready
  }

  function AfterClassify(s: SeqState, m: Msg): SeqState {
    if ActionFor(s, m).Gap? then
      s.(queued := if m.seqNum in s.queued then s.queued else s.queued[m.seqNum := m],
         resendFrom := if s.resendFrom.None? then Some(s.expected) else s.resendFrom)
    else s
  }

  function ClearResend(s: SeqState): SeqState {
    if s.resendFrom.Some? && s.expected > s.resendFrom.value then s.(resendFrom := None) else s
  }

  function AtLeast(queued: map<nat, Msg>, n: nat): map<nat, Msg> {
    map k | k in queued && k >= n :: queued[k]
  }

  datatype Advanced = Moved(state: SeqState) | Stuck(fault: Fault)

  function AdvanceBy(s: SeqState, m: Msg): Advanced {
    if m.seqNum != s.expected && m.kind.Ordinary? then Stuck(Mismatch)
    else if m.kind.Ordinary? then Moved(ClearResend(s.(expected := s.expected + 1)))
    else if m.kind.newSeq.None? then Stuck(BadReset)
    else if m.kind.newSeq.value <= s.expected then Stuck(NotAbove)
    else Moved(ClearResend(s.(expected := m.kind.newSeq.value, queued := AtLeast(s.queued, m.kind.newSeq.value))))
  }

  /** The state a connection keeps, updated in place. */
  class SequenceState {
    var expected: nat
    var queued: map<nat, Msg>
    var resendFrom: Option<nat>

    function View(): SeqState
      reads this
    {
      SeqState(expected, queued, resendFrom)
    }

    constructor (expected: nat)
      ensures View() == SeqState(expected, map[], None)
    {
      this.expected := expected;
      queued, resendFrom := map[], None;
    }

    method Classify(m: Msg) returns (a: Action)
      modifies this
      ensures a == ActionFor(old(View()), m) && View() == AfterClassify(old(View()), m)
    {
      if m.kind.Reset? {
        if m.kind.newSeq.None? {
          return Failed(BadReset);
        }
        if !m.kind.gapFill || (m.seqNum < expected && m.kind.newSeq.value > expected && m.possDup) {
          return Ready;
        }
      }
      if m.seqNum < expected {
        return if m.possDup then Duplicate else Failed(TooLow);
      }
      if m.seqNum > expected {
        if |queued| >= MAX_QUEUED_MESSAGES {
          return Failed(QueueFull);
        }
        if m.seqNum !in queued {
          queued := queued[m.seqNum := m];
        }
        var request := None;
        if resendFrom.None? {
          resendFrom := Some(expected);
          request := Some(expected);
        }
        return Gap(request);
      }
      a := Ready;
    }

    method Advance(m: Msg) returns (fault: Option<Fault>)
      modifies this
      ensures match AdvanceBy(old(View()), m)
              case Moved(s) => fault == None && View() == s
              case Stuck(f) => fault == Some(f) && View() == old(View())
    {
      if m.seqNum != expected && m.kind.Ordinary? {
        return Some(Mismatch);
      }
      if m.kind.Reset? {
        if m.kind.newSeq.None? {
          return Some(BadReset);
        }
        var newSeq := m.kind.newSeq.value;
        if newSeq <= expected {
          return Some(NotAbove);
        }
        expected := newSeq;
        queued := map k | k in queued && k >= newSeq :: queued[k];
      } else {
        expected := expected + 1;
      }
      if resendFrom.Some? && expected > resendFrom.value {
        resendFrom := None;
      }
      fault := None;
    }

    method TakeReady() returns (m: Option<Msg>)
      modifies this
      ensures m == (if old(expected) in old(queued) then Some(old(queued)[old(expected)]) else None)
      ensures View() == old(View()).(queued := old(queued) - {old(expected)})
    {
      if expected in queued {
        m := Some(queued[expected]);
        queued := queued - {expected};
      } else {
        m := None;
        assert queued - {expected} == queued;
      }
    }
  }

  // ---------------------------------------------------------------- the reader

  /** A connection's reader: what it delivered, what it asked to be resent, whether it gave up. */
  datatype Reader = Reader(state: SeqState, delivered: seq<Msg>, requests: seq<nat>, fault: Option<Fault>)

  /** One message through the reader loop: its header is checked first, also when it comes from the
      queue. */
  function Handle(r: Reader, m: Msg): Reader {
    if m.headerOk then HandleValid(r, m) else r.(fault := Some(BadHeader))
  }

  /** Sequencing of a valid message. Undecodable messages consume one number. */
  function HandleValid(r: Reader, m: Msg): Reader {
    var s := AfterClassify(r.state, m);
    match ActionFor(r.state, m)
    case Failed(f) => r.(fault := Some(f))
    case Duplicate => r
    case Gap(request) => r.(state := s, requests := if request.Some? then r.requests + [request.value] else r.requests)
    case Ready =>
      if !m.decodable then r.(state := s.(expected := s.expected + 1)) else
      match AdvanceBy(s, m)
      case Stuck(f) => r.(fault := Some(f))
      case Moved(s') =>
        if m.kind.Ordinary?
        then r.(state := s', delivered := r.delivered + [m], fault := if m.logout then Some(LoggedOut) else r.fault)
        else r.(state := s')
  }

  predicate HasReady(r: Reader) {
    r.state.expected in r.state.queued
  }

  /** Take the queued message whose turn it is and handle it. */
  function HandleReady(r: Reader): Reader
    requires HasReady(r)
  {
    var m := r.state.queued[r.state.expected];
    Handle(r.(state := r.state.(queued := r.state.queued - {r.state.expected})), m)
  }

  // ---------------------------------------------------------------- what every step keeps

  /** The queue is keyed by sequence number, holds nothing already passed, and is bounded. */
  ghost predicate QueueOk(s: SeqState) {
    && |s.queued| <= MAX_QUEUED_MESSAGES
    && (forall k :: k in s.queued ==> k >= s.expected && s.queued[k].seqNum == k)
  }

  ghost predicate Ascending(delivered: seq<Msg>, limit: nat) {
    && (forall i, j :: 0 <= i < j < |delivered| ==> delivered[i].seqNum < delivered[j].seqNum)
    && (forall i :: 0 <= i < |delivered| ==> delivered[i].seqNum < limit)
  }

  ghost predicate ReaderOk(r: Reader) {
    QueueOk(r.state) && Ascending(r.delivered, r.state.expected)
  }

  lemma SubmapSize(a: map<nat, Msg>, b: map<nat, Msg>)
    requires a.Keys <= b.Keys
    ensures |a| <= |b|
  {
    Collections.SubsetSize(a.Keys, b.Keys);
  }

  /** Handling a message that is not due, or not readable, delivers nothing. */
  lemma HandleOther(r: Reader, m: Msg)
    requires ReaderOk(r) && !HasReady(r)
    requires !(m.headerOk && m.decodable && ActionFor(r.state, m).Ready?)
    ensures ReaderOk(Handle(r, m)) && Handle(r, m).delivered == r.delivered
    ensures r.state.expected <= Handle(r, m).state.expected
    ensures m.seqNum <= r.state.expected ==> Handle(r, m).state.queued == r.state.queued
  {
  }

  lemma HandleReset(r: Reader, m: Msg)
    requires ReaderOk(r) && m.kind.Reset?
    requires m.headerOk && m.decodable && ActionFor(r.state, m).Ready?
    ensures ReaderOk(Handle(r, m)) && Handle(r, m).delivered == r.delivered
    ensures r.state.expected <= Handle(r, m).state.expected
    ensures Handle(r, m).state.queued.Keys <= r.state.queued.Keys
  {
    SubmapSize(AtLeast(r.state.queued, m.kind.newSeq.value), r.state.queued);
  }

  lemma HandleDue(r: Reader, m: Msg)
    requires ReaderOk(r) && !HasReady(r) && m.kind.Ordinary?
    requires m.headerOk && m.decodable && ActionFor(r.state, m).Ready?
    ensures ReaderOk(Handle(r, m)) && Handle(r, m).delivered == r.delivered + [m]
    ensures Handle(r, m).state.expected == r.state.expected + 1 && Handle(r, m).state.queued == r.state.queued
    ensures Handle(r, m).fault == if m.logout then Some(LoggedOut) else r.fault
  {
  }

  /** Every message, whatever it says, keeps the queue in order and deliveries strictly ascending. */
  lemma HandleKeeps(r: Reader, m: Msg)
    requires ReaderOk(r) && !HasReady(r)
    ensures ReaderOk(Handle(r, m))
    ensures r.delivered <= Handle(r, m).delivered && r.state.expected <= Handle(r, m).state.expected
    ensures m.seqNum == r.state.expected ==> Handle(r, m).state.queued.Keys <= r.state.queued.Keys
  {
    hide ReaderOk, HasReady, Handle;
    if !(m.headerOk && m.decodable && ActionFor(r.state, m).Ready?) {
      HandleOther(r, m);
    } else if m.kind.Reset? {
      HandleReset(r, m);
    } else {
      HandleDue(r, m);
    }
  }

  function Taken(r: Reader): Reader
    requires HasReady(r)
  {
    r.(state := r.state.(queued := r.state.queued - {r.state.expected}))
  }

  lemma TakenKeeps(r: Reader)
    requires ReaderOk(r) && HasReady(r)
    ensures ReaderOk(Taken(r)) && !HasReady(Taken(r)) && |Taken(r).state.queued| < |r.state.queued|
    ensures r.state.queued[r.state.expected].seqNum == r.state.expected
  {
  }

  lemma HandleReadyKeeps(r: Reader)
    requires ReaderOk(r) && HasReady(r)
    ensures ReaderOk(HandleReady(r)) && |HandleReady(r).state.queued| < |r.state.queued|
    ensures r.delivered <= HandleReady(r).delivered && r.state.expected <= HandleReady(r).state.expected
  {
    hide ReaderOk, Handle;
    TakenKeeps(r);
    HandleKeeps(Taken(r), r.state.queued[r.state.expected]);
    SubmapSize(HandleReady(r).state.queued, Taken(r).state.queued);
  }

  // ---------------------------------------------------------------- the loop

  /** The reader loop over a list of arrivals: a queued message whose turn has come is handled
      before the next arrival is read, and a fault ends the loop. */
  function Receive(r: Reader, arrivals: seq<Msg>): (final: Reader)
    requires ReaderOk(r)
    ensures ReaderOk(final)
    ensures r.delivered <= final.delivered && r.state.expected <= final.state.expected
    decreases |arrivals|, |r.state.queued|
  {
    if r.fault.Some? then r
    else if HasReady(r) then HandleReadyKeeps(r); Receive(HandleReady(r), arrivals)
    else if arrivals == [] then r
    else HandleKeeps(r, arrivals[0]); Receive(Handle(r, arrivals[0]), arrivals[1..])
  }

  /** A valid message ahead of its turn; a reset only in gap-fill mode. */
  predicate Early(m: Msg, expected: nat) {
    m.headerOk && m.seqNum > expected && (m.kind.Ordinary? || (m.kind.newSeq.Some? && m.kind.gapFill))
  }

  lemma EarlyWaits(r: Reader, m: Msg)
    requires ReaderOk(r) && !HasReady(r) && Early(m, r.state.expected)
    ensures var after := Handle(r, m);
            && !HasReady(after) && after.state.expected == r.state.expected && after.delivered == r.delivered
            && (r.state.resendFrom.Some? ==>
                  after.requests == r.requests && after.state.resendFrom == r.state.resendFrom)
  {
  }

  /** A gap is asked for once: while the cursor stands, however many early messages follow, no second
      request goes out, so a lost answer is only made good by an answer nobody asked for again. */
  lemma {:induction false} AsksOnce(r: Reader, arrivals: seq<Msg>)
    requires ReaderOk(r) && !HasReady(r) && r.state.resendFrom.Some?
    requires forall i :: 0 <= i < |arrivals| ==> Early(arrivals[i], r.state.expected)
    ensures Receive(r, arrivals).requests == r.requests && Receive(r, arrivals).delivered == r.delivered
    ensures Receive(r, arrivals).state.expected == r.state.expected
    decreases |arrivals|
  {
    if r.fault.None? && arrivals != [] {
      hide ReaderOk, Handle, Early;
      assert Early(arrivals[0], r.state.expected);
      EarlyWaits(r, arrivals[0]);
      HandleKeeps(r, arrivals[0]);
      AsksOnce(Handle(r, arrivals[0]), arrivals[1..]);
    }
  }

  /** The reader a session starts with: its Logon is consumed when it is number 1; otherwise it
      waits in the queue and everything from 1 is asked for again. */
  function Started(logon: Msg): (r: Reader)
    requires logon.seqNum >= 1
    ensures ReaderOk(r)
  {
    if logon.seqNum == 1 then Reader(SeqState(2, map[], None), [], [], None)
    else Reader(SeqState(1, map[logon.seqNum := logon], Some(1)), [], [1], None)
  }

  /** One turn of the loop, as an equation. */
  lemma NextTurn(r: Reader, arrivals: seq<Msg>)
    requires ReaderOk(r) && r.fault.None? && (HasReady(r) || arrivals != [])
    ensures HasReady(r) ==> (
        && ReaderOk(Handle(Taken(r), r.state.queued[r.state.expected]))
        && |Handle(Taken(r), r.state.queued[r.state.expected]).state.queued| < |r.state.queued|
        && Receive(Handle(Taken(r), r.state.queued[r.state.expected]), arrivals) == Receive(r, arrivals))
    ensures !HasReady(r) ==> (
        && ReaderOk(Handle(r, arrivals[0]))
        && Receive(Handle(r, arrivals[0]), arrivals[1..]) == Receive(r, arrivals))
  {
    hide ReaderOk, Handle;
    if HasReady(r) {
      HandleReadyKeeps(r);
    } else {
      HandleKeeps(r, arrivals[0]);
    }
  }

  lemma ReceiveDone(r: Reader, arrivals: seq<Msg>)
    requires ReaderOk(r) && (r.fault.Some? || (!HasReady(r) && arrivals == []))
    ensures Receive(r, arrivals) == r && QueueOk(r.state) && Ascending(r.delivered, r.state.expected)
  {
  }

  lemma StartedIs(logon: Msg)
    requires logon.seqNum >= 1
    ensures Started(logon) == Reader(
      if logon.seqNum == 1 then SeqState(2, map[], None) else SeqState(1, map[][logon.seqNum := logon], Some(1)),
      [], if logon.seqNum == 1 then [] else [1], None)
    ensures ReaderOk(Started(logon))
  {
  }

  /** A whole connection: the imperative loop over the in-place state. What it does with the
      messages is exactly Receive; in particular, whatever arrives, messages are delivered in
      strictly ascending order and the queue never outgrows its bound. */
  method ReadSession(logon: Msg, arrivals: seq<Msg>)
    returns (state: SeqState, delivered: seq<Msg>, requests: seq<nat>, fault: Option<Fault>)
    requires logon.seqNum >= 1
    ensures Reader(state, delivered, requests, fault) == Receive(Started(logon), arrivals)
    ensures QueueOk(state) && Ascending(delivered, state.expected)
  {
    hide ReaderOk, Handle, Receive, Started, AfterClassify, AdvanceBy, ActionFor, QueueOk, Ascending;
    StartedIs(logon);
    var sequence := new SequenceState(if logon.seqNum == 1 then 2 else 1);
    delivered, requests, fault := [], [], None;
    if logon.seqNum > 1 {
      sequence.queued := sequence.queued[logon.seqNum := logon];
      sequence.resendFrom := Some(1);
      requests := [1];
    }
    var i := 0;
    ghost var now := Started(logon);
    while fault.None? && (sequence.expected in sequence.queued || i < |arrivals|)
      invariant i <= |arrivals|
      invariant now == Reader(sequence.View(), delivered, requests, fault) && ReaderOk(now)
      invariant Receive(now, arrivals[i..]) == Receive(Started(logon), arrivals)
      decreases |arrivals| - i, |sequence.queued|
    {
      ghost var rest := arrivals[i..];
      NextTurn(now, rest);
      var ready := sequence.expected in sequence.queued;
      delivered, requests, fault := Turn(sequence, if ready then None else Some(arrivals[i]), delivered, requests);
      if ready {
        now := Handle(Taken(now), now.state.queued[now.state.expected]);
      } else {
        now := Handle(now, arrivals[i]);
        assert rest[0] == arrivals[i] && rest[1..] == arrivals[i + 1..];
        i := i + 1;
      }
    }
    state := sequence.View();
    ReceiveDone(now, arrivals[i..]);
  }

  /** One turn of the loop: the queued message whose turn it is, or else the next arrival. */
  method Turn(sequence: SequenceState, arrival: Option<Msg>, delivered0: seq<Msg>, requests0: seq<nat>)
    returns (delivered: seq<Msg>, requests: seq<nat>, fault: Option<Fault>)
    requires arrival.None? <==> sequence.expected in sequence.queued
    modifies sequence
    ensures var before := Reader(old(sequence.View()), delivered0, requests0, None);
            Reader(sequence.View(), delivered, requests, fault)
            == (if arrival.Some? then Handle(before, arrival.value)
                else Handle(Taken(before), old(sequence.queued)[old(sequence.expected)]))
  {
    hide Handle;
    var ready := sequence.TakeReady();
    assert arrival.Some? ==> sequence.View() == old(sequence.View());
    var next := if ready.Some? then ready.value else arrival.value;
    delivered, requests, fault := HandleOne(sequence, next, delivered0, requests0);
  }

  /** The body of the loop for one message. */
  method HandleOne(sequence: SequenceState, m: Msg, delivered0: seq<Msg>, requests0: seq<nat>)
    returns (delivered: seq<Msg>, requests: seq<nat>, fault: Option<Fault>)
    modifies sequence
    ensures Reader(sequence.View(), delivered, requests, fault)
         == Handle(Reader(old(sequence.View()), delivered0, requests0, None), m)
  {
    delivered, requests, fault := delivered0, requests0, None;
    if !m.headerOk {
      return delivered, requests, Some(BadHeader);
    }
    var action := sequence.Classify(m);
    match action {
      case Failed(f) => fault := Some(f);
      case Duplicate =>
      case Gap(request) =>
        if request.Some? {
          requests := requests + [request.value];
        }
      case Ready =>
        if !m.decodable {
          sequence.expected := sequence.expected + 1;
        } else {
          fault := sequence.Advance(m);
          if fault.None? && m.kind.Ordinary? {
            delivered := delivered + [m];
            if m.logout {
              fault := Some(LoggedOut);
            }
          }
        }
    }
  }
}
