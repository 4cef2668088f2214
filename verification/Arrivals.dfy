/** What the reader of a session does with each kind of message, and what it asks for over a whole
    connection (SequenceState and the reader loop of src/fix/session.rs). */
module Arrivals {
  import opened Orders
  import opened Sequencing

  /** The reader is about to take the next arrival. */
  ghost predicate Waiting(r: Reader) {
    ReaderOk(r) && r.fault.None? && !HasReady(r)
  }

  /** A message that counts by its number: ordinary, or a GapFill that names its next number. */
  predicate Counted(m: Msg) {
    m.headerOk && (m.kind.Ordinary? || (m.kind.gapFill && m.kind.newSeq.Some?))
  }

  lemma NextArrival(r: Reader, m: Msg, rest: seq<Msg>)
    requires Waiting(r)
    ensures ReaderOk(Handle(r, m)) && Receive(r, [m] + rest) == Receive(Handle(r, m), rest)
  {
    hide Handle;
    NextTurn(r, [m] + rest);
    assert ([m] + rest)[1..] == rest;
  }

  lemma Stops(r: Reader, rest: seq<Msg>)
    requires ReaderOk(r) && r.fault.Some?
    ensures Receive(r, rest) == r
  {
  }

  // ---------------------------------------------------------------- the first messages

  /** A Logon numbered 1 has been counted: number 2 is the next one delivered, and number 1 is an old one. */
  lemma AfterLogon(logon: Msg, m: Msg)
    requires logon.seqNum == 1 && m.headerOk && m.kind.Ordinary? && m.decodable && !m.logout
    ensures m.seqNum == 2 ==> (
        var r := Receive(Started(logon), [m]);
        r.delivered == [m] && r.requests == [] && r.fault.None? && r.state.expected == 3)
    ensures m.seqNum == 1 && !m.possDup ==> Receive(Started(logon), [m]).fault == Some(TooLow)
  {
    hide Handle;
    assert [m] == [m] + [];
    if m.seqNum == 2 {
      var after := DueDelivered(Started(logon), m, []);
      assert Receive(after, []) == after;
    } else if m.seqNum == 1 && !m.possDup {
      TooLowStops(Started(logon), m, []);
    }
  }

  /** A Logon with a later number waits its turn, and everything from 1 is asked for. */
  lemma AfterLateLogon(logon: Msg)
    requires logon.seqNum > 1
    ensures var r := Started(logon);
            LowestMissing(r, 1) && r.requests == [1] && r.delivered == [] && r.fault.None?
            && logon.seqNum in r.state.queued && r.state.queued[logon.seqNum] == logon
  {
  }

  // ---------------------------------------------------------------- numbers already passed

  /** An old number without PossDup ends the connection, and nothing after it is looked at. */
  lemma TooLowStops(r: Reader, m: Msg, rest: seq<Msg>)
    requires Waiting(r) && Counted(m) && m.seqNum < r.state.expected && !m.possDup
    ensures Receive(r, [m] + rest) == r.(fault := Some(TooLow))
  {
    NextArrival(r, m, rest);
    Stops(r.(fault := Some(TooLow)), rest);
  }

  /** An old number with PossDup is passed over, unless it is a GapFill that reaches further. */
  lemma DuplicateIgnored(r: Reader, m: Msg, rest: seq<Msg>)
    requires Waiting(r) && Counted(m) && m.seqNum < r.state.expected && m.possDup
    requires m.kind.Reset? ==> m.kind.newSeq.value <= r.state.expected
    ensures Receive(r, [m] + rest) == Receive(r, rest)
  {
    NextArrival(r, m, rest);
  }

  // ---------------------------------------------------------------- numbers still to come

  /** The lowest number the reader has neither handed on nor passed over. */
  ghost predicate LowestMissing(r: Reader, n: nat) {
    && (forall i :: 0 <= i < |r.delivered| ==> r.delivered[i].seqNum < n)
    && (forall k :: k in r.state.queued ==> n < k) && n == r.state.expected
  }

  /** An early message waits, the first copy of it; the lowest missing number is asked for unless that
      was done already. */
  lemma EarlyAsks(r: Reader, m: Msg, rest: seq<Msg>) returns (after: Reader)
    requires Waiting(r) && Counted(m) && m.seqNum > r.state.expected && |r.state.queued| < 4096
    ensures Waiting(after) && Receive(r, [m] + rest) == Receive(after, rest) && after.delivered == r.delivered
    ensures LowestMissing(after, r.state.expected)
    ensures after.requests == r.requests + if r.state.resendFrom.None? then [r.state.expected] else []
    ensures after.state.queued == if m.seqNum in r.state.queued then r.state.queued else r.state.queued[m.seqNum := m]
    ensures after.state.resendFrom.Some?
  {
    hide ReaderOk, Handle;
    NextArrival(r, m, rest);
    EarlyWaits(r, m);
    EarlyHandled(r, m);
    after := Handle(r, m);
  }

  lemma EarlyHandled(r: Reader, m: Msg)
    requires Waiting(r) && Counted(m) && m.seqNum > r.state.expected && |r.state.queued| < 4096
    ensures var after := Handle(r, m);
            && after.fault.None? && after.state.resendFrom.Some? && LowestMissing(after, r.state.expected)
            && after.requests == r.requests + (if r.state.resendFrom.None? then [r.state.expected] else [])
            && after.state.queued
               == if m.seqNum in r.state.queued then r.state.queued else r.state.queued[m.seqNum := m]
  {
  }

  /** With 4096 messages waiting a further early one ends the connection. */
  lemma FullStops(r: Reader, m: Msg, rest: seq<Msg>)
    requires Waiting(r) && Counted(m) && m.seqNum > r.state.expected && |r.state.queued| >= 4096
    ensures Receive(r, [m] + rest) == r.(fault := Some(QueueFull))
  {
    NextArrival(r, m, rest);
    Stops(r.(fault := Some(QueueFull)), rest);
  }

  // ---------------------------------------------------------------- the number whose turn it is

  /** The due message is handed on; a Logout ends the connection after that. */
  lemma DueDelivered(r: Reader, m: Msg, rest: seq<Msg>) returns (after: Reader)
    requires Waiting(r) && m.headerOk && m.kind.Ordinary? && m.decodable && m.seqNum == r.state.expected
    ensures ReaderOk(after) && Receive(r, [m] + rest) == Receive(after, rest)
    ensures after.delivered == r.delivered + [m] && after.state.expected == r.state.expected + 1
    ensures after.state.queued == r.state.queued && after.requests == r.requests
    ensures after.fault == if m.logout then Some(LoggedOut) else None
  {
    NextArrival(r, m, rest);
    after := Handle(r, m);
  }

  /** A due message that cannot be decoded uses up its number and nothing else, whatever kind it is. */
  lemma UndecodableSkipped(r: Reader, m: Msg, rest: seq<Msg>) returns (after: Reader)
    requires Waiting(r) && Counted(m) && !m.decodable && m.seqNum == r.state.expected
    ensures ReaderOk(after) && Receive(r, [m] + rest) == Receive(after, rest)
    ensures after == r.(state := r.state.(expected := r.state.expected + 1))
  {
    NextArrival(r, m, rest);
    after := Handle(r, m);
  }

  // ---------------------------------------------------------------- resets

  /** A reset takes effect when it is a plain SequenceReset, whatever its number; a GapFill when its number
      is due, or when it is an old one with PossDup that reaches further. */
  predicate Effective(s: SeqState, m: Msg) {
    && m.headerOk && m.decodable && m.kind.Reset? && m.kind.newSeq.Some?
    && (!m.kind.gapFill || m.seqNum == s.expected
        || (m.seqNum < s.expected && m.possDup && m.kind.newSeq.value > s.expected))
  }

  /** It moves the reader to the number it names, dropping what waited below, and nothing is handed on; it
      must name a later number. */
  lemma ResetMoves(r: Reader, m: Msg, rest: seq<Msg>) returns (after: Reader)
    requires Waiting(r) && Effective(r.state, m)
    ensures ReaderOk(after) && Receive(r, [m] + rest) == Receive(after, rest)
    ensures after.delivered == r.delivered && after.requests == r.requests
    ensures m.kind.newSeq.value <= r.state.expected ==> after == r.(fault := Some(NotAbove))
    ensures m.kind.newSeq.value > r.state.expected ==> (
        && after.fault.None? && after.state.expected == m.kind.newSeq.value
        && (forall k :: k in after.state.queued <==> k in r.state.queued && k >= m.kind.newSeq.value)
        && (forall k :: k in after.state.queued ==> after.state.queued[k] == r.state.queued[k]))
  {
    NextArrival(r, m, rest);
    after := Handle(r, m);
  }

  /** A wrong header, or a reset without a number, ends the connection. */
  lemma MalformedStops(r: Reader, m: Msg, rest: seq<Msg>)
    requires Waiting(r)
    ensures !m.headerOk ==> Receive(r, [m] + rest) == r.(fault := Some(BadHeader))
    ensures m.headerOk && m.kind.Reset? && m.kind.newSeq.None? ==>
              Receive(r, [m] + rest) == r.(fault := Some(BadReset))
  {
    NextArrival(r, m, rest);
    if Handle(r, m).fault.Some? {
      Stops(Handle(r, m), rest);
    }
  }

  // ---------------------------------------------------------------- requests of a whole connection

  /** Requests ascend and never lie ahead of the reader; while one is open it is the last one. */
  ghost predicate Asked(r: Reader) {
    && (forall i, j :: 0 <= i < j < |r.requests| ==> r.requests[i] < r.requests[j])
    && (match r.state.resendFrom
        case Some(n) => r.requests != [] && r.requests[|r.requests| - 1] == n <= r.state.expected
        case None => forall i :: 0 <= i < |r.requests| ==> r.requests[i] < r.state.expected)
  }

  lemma AskedHandle(r: Reader, m: Msg)
    requires Asked(r)
    ensures Asked(Handle(r, m))
  {
  }

  lemma {:induction false} AskedReceive(r: Reader, arrivals: seq<Msg>)
    requires ReaderOk(r) && Asked(r)
    ensures Asked(Receive(r, arrivals))
    decreases |arrivals|, |r.state.queued|
  {
    hide ReaderOk, Handle, Asked;
    if r.fault.None? && (HasReady(r) || arrivals != []) {
      NextTurn(r, arrivals);
      if HasReady(r) {
        AskedTaken(r);
        AskedHandle(Taken(r), r.state.queued[r.state.expected]);
        AskedReceive(Handle(Taken(r), r.state.queued[r.state.expected]), arrivals);
      } else {
        AskedHandle(r, arrivals[0]);
        AskedReceive(Handle(r, arrivals[0]), arrivals[1..]);
      }
    }
  }

  lemma AskedTaken(r: Reader)
    requires Asked(r) && HasReady(r)
    ensures Asked(Taken(r))
  {
  }

  /** Over a whole connection no number is asked for twice, and none beyond the first one missing. */
  lemma RequestsAscend(logon: Msg, arrivals: seq<Msg>)
    requires logon.seqNum >= 1
    ensures var r := Receive(Started(logon), arrivals);
            && (forall i, j :: 0 <= i < j < |r.requests| ==> r.requests[i] < r.requests[j])
            && (forall i :: 0 <= i < |r.requests| ==> r.requests[i] <= r.state.expected)
            && (logon.seqNum > 1 ==> [1] <= r.requests)
  {
    AskedReceive(Started(logon), arrivals);
    RequestsGrow(Started(logon), arrivals);
  }

  lemma {:induction false} RequestsGrow(r: Reader, arrivals: seq<Msg>)
    requires ReaderOk(r)
    ensures r.requests <= Receive(r, arrivals).requests
    decreases |arrivals|, |r.state.queued|
  {
    hide ReaderOk;
    if r.fault.None? && (HasReady(r) || arrivals != []) {
      NextTurn(r, arrivals);
      if HasReady(r) {
        RequestsGrow(Handle(Taken(r), r.state.queued[r.state.expected]), arrivals);
      } else {
        RequestsGrow(Handle(r, arrivals[0]), arrivals[1..]);
      }
    }
  }

  // ---------------------------------------------------------------- when a request is closed

  /** Moving on closes a request exactly when the reader gets past the number asked for. */
  lemma RequestCloses(s: SeqState, m: Msg)
    requires AdvanceBy(s, m).Moved?
    ensures var now := AdvanceBy(s, m).state;
            && s.expected < now.expected
            && (now.resendFrom.Some? <==> s.resendFrom.Some? && now.expected <= s.resendFrom.value)
            && (now.resendFrom.Some? ==> now.resendFrom == s.resendFrom)
  {
  }

  /** With readable messages only, an open request is always for the number the reader stands at. */
  ghost predicate Punctual(r: Reader) {
    && (r.state.resendFrom.Some? ==> r.state.resendFrom.value == r.state.expected)
    && (forall k :: k in r.state.queued ==> r.state.queued[k].decodable)
  }

  lemma PunctualHandle(r: Reader, m: Msg)
    requires Punctual(r) && m.decodable
    ensures Punctual(Handle(r, m))
  {
  }

  lemma {:induction false} PunctualReceive(r: Reader, arrivals: seq<Msg>)
    requires ReaderOk(r) && Punctual(r) && forall i :: 0 <= i < |arrivals| ==> arrivals[i].decodable
    ensures Punctual(Receive(r, arrivals))
    decreases |arrivals|, |r.state.queued|
  {
    hide ReaderOk, Handle;
    if r.fault.None? && (HasReady(r) || arrivals != []) {
      NextTurn(r, arrivals);
      if HasReady(r) {
        PunctualHandle(Taken(r), r.state.queued[r.state.expected]);
        PunctualReceive(Handle(Taken(r), r.state.queued[r.state.expected]), arrivals);
      } else {
        PunctualHandle(r, arrivals[0]);
        PunctualReceive(Handle(r, arrivals[0]), arrivals[1..]);
      }
    }
  }
}
