/** The incremental frame decoder (FrameReader in src/fix/frame.rs) against a decoder that sees the
    whole stream at once: partial reads, interrupts and timeouts change nothing. */
module FrameStreams {
  import opened Orders
  import opened Collections
  import opened Bytes
  import opened Frames
  import opened FrameRoundTrips

  // ---------------------------------------------------------------- the whole stream at once

  datatype Decoded = Message(message: FixMessage, used: nat) | EndOfStream | Invalid(reason: Reason) | Truncated

  /** The bytes in which the header must be complete. */
  function Window(s: Text): Text {
    if |s| <= MAX_PREFIX_SIZE then s else s[..MAX_PREFIX_SIZE]
  }

  lemma {:induction false} ProbeStable(s: Text, more: Text)
    requires SecondSoh(s).Some?
    ensures Probe(s + more) == Probe(s) && SecondSoh(s + more) == SecondSoh(s)
  {
    hide Position, HeaderSize;
    var first, second := Position(s, SOH).value, SecondSoh(s).value;
    PositionStable(s, more, SOH);
    assert (s + more)[first + 1..] == s[first + 1..] + more;
    PositionStable(s[first + 1..], more, SOH);
    HeaderSizeStable(s, more, first, second);
  }

  lemma HeaderSizeStable(s: Text, more: Text, first: nat, second: nat)
    requires first < second < |s|
    ensures HeaderSize(s + more, first, second) == HeaderSize(s, first, second)
  {
    assert (s + more)[..first] == s[..first];
    assert (s + more)[first + 1..second] == s[first + 1..second];
  }

  lemma ProbeSize(s: Text)
    requires Probe(s).Total?
    ensures SecondSoh(s).Some? && SecondSoh(s).value + 13 <= Probe(s).size <= MAX_MESSAGE_SIZE
  {
  }

  lemma FrameAt(s: Text, n: nat)
    requires Probe(Window(s)) == Total(n) && n <= |s|
    ensures Probe(s[..n]) == Total(n) && 0 < n
  {
    hide Probe, SecondSoh;
    var w := Window(s);
    ProbeSize(w);
    ProbeWindow(w, n);
    if n < |w| {
      assert s[..n] == w[..n];
    } else {
      assert s[..n] == w + s[|w|..n];
      ProbeStable(w, s[|w|..n]);
    }
  }

  /** What the header says depends only on the bytes up to its second SOH. */
  lemma ProbeWindow(w: Text, n: nat)
    requires Probe(w) == Total(n)
    ensures n <= |w| ==> Probe(w[..n]) == Total(n)
  {
    if n <= |w| {
      hide Probe, SecondSoh, Position;
      ProbeSize(w);
      SohKept(w, n);
      ProbeStable(w[..n], w[n..]);
      assert w[..n] + w[n..] == w;
    }
  }

  lemma SohKept(w: Text, n: nat)
    requires SecondSoh(w).Some? && SecondSoh(w).value < n <= |w|
    ensures SecondSoh(w[..n]).Some?
  {
    var first, second := Position(w, SOH).value, SecondSoh(w).value;
    assert w[..n][..first] == w[..first];
    PositionIs(w[..n], SOH, first);
    assert w[..n][first + 1..][second - first - 1] == SOH;
  }

  /** The first thing in a stream. */
  function Decode(s: Text): (d: Decoded)
    ensures d.Message? ==> 0 < d.used <= |s|
  {
    match Probe(Window(s))
    case NeedMore => if s == [] then EndOfStream else Truncated
    case Malformed(e) => Invalid(e)
    case Total(n) =>
      if |s| < n then Truncated
      else
        FrameAt(s, n);
        match ParseWire(s[..n])
        case Bad(e) => Invalid(e)
        case Good(m) => Message(m, n)
  }

  datatype Log = Log(messages: seq<FixMessage>, ending: Decoded)

  /** Everything in a stream, up to its end or its first fault. */
  function DecodeAll(s: Text): Log
    decreases |s|
  {
    match Decode(s)
    case Message(m, used) => Cons(m, DecodeAll(s[used..]))
    case other => Log([], other)
  }

  function Cons(m: FixMessage, rest: Log): Log {
    Log([m] + rest.messages, rest.ending)
  }

  // ---------------------------------------------------------------- the byte source

  /** What the next read does: a short read, an interrupted call, or a timeout. */
  datatype Event = Chunk(size: nat) | Interrupt | Timeout

  datatype ReadResult = Data(bytes: Text) | Interrupted | NotReady

  /** A socket with the bytes it will deliver and the way it will deliver them. */
  class Source {
    var rest: Text
    var schedule: seq<Event>

    constructor (rest: Text, schedule: seq<Event>)
      ensures this.rest == rest && this.schedule == schedule
    {
      this.rest, this.schedule := rest, schedule;
    }

    /** At least one byte and at most `want`, nothing only at the end of the stream. */
    method Read(want: nat) returns (r: ReadResult)
      requires want > 0
      modifies this
      ensures r.Data? ==> (
          && r.bytes + rest == old(rest) && |r.bytes| <= want && (r.bytes == [] ==> old(rest) == [])
          && |schedule| <= |old(schedule)|)
      ensures !r.Data? ==> rest == old(rest) && |schedule| < |old(schedule)|
    {
      var size := want;
      if schedule != [] {
        var event := schedule[0];
        schedule := schedule[1..];
        if event.Interrupt? {
          return Interrupted;
        }
        if event.Timeout? {
          return NotReady;
        }
        if 0 < event.size < want {
          size := event.size;
        }
      }
      if size > |rest| {
        size := |rest|;
      }
      r := Data(rest[..size]);
      rest := rest[size..];
    }
  }

  // ---------------------------------------------------------------- the decoder

  datatype Outcome = Received(message: FixMessage) | Closed | Fault(reason: Reason) | BrokenOff | TimedOut

  /** What a call may answer, given the stream ahead of it before and after. */
  ghost predicate Explains(r: Outcome, before: Text, after: Text) {
    match r
    case Received(m) => Decode(before).Message? && m == Decode(before).message && after == before[Decode(before).used..]
    case Closed => Decode(before) == EndOfStream && after == before
    case Fault(e) => Decode(before) == Invalid(e) && after == before
    case BrokenOff => Decode(before) == Truncated && after == before
    case TimedOut => after == before
  }

  /** What the decoder remembers between calls agrees with the bytes it holds. */
  ghost predicate Held(pending: Text, total: Option<nat>) {
    match total
    case Some(n) => Probe(Window(pending)) == Total(n) && |pending| <= n
    case None => pending == [] || Probe(pending[..|pending| - 1]) == NeedMore
  }

  class FrameReader {
    const source: Source
    var pending: Text
    var total: Option<nat>

    constructor (source: Source)
      ensures this.source == source && pending == [] && total == None
    {
      this.source := source;
      pending, total := [], None;
    }

    /** The next message. Whatever the source's schedule, the answer is the whole-stream decoder's:
        a message leaves exactly the bytes after its frame, a timeout loses none. */
    method ReadMessage() returns (r: Outcome)
      requires Held(pending, total)
      modifies this, source
      ensures Held(pending, total)
      ensures Explains(r, old(pending + source.rest), pending + source.rest)
      ensures r.Received? ==> pending == [] && total == None
      ensures |source.schedule| <= |old(source.schedule)|
      ensures r.TimedOut? ==> |source.schedule| < |old(source.schedule)|
    {
      hide Held, Decode, Probe, Explains, Window;
      ghost var stream := pending + source.rest;
      while true
        invariant Held(pending, total) && pending + source.rest == stream
        invariant |source.schedule| <= |old(source.schedule)|
        decreases |source.rest| + |source.schedule|
      {
        if total.None? {
          var size := Probe(pending);
          if size.Malformed? {
            MalformedHere(pending, source.rest, stream);
            return Fault(size.reason);
          }
          if size.Total? {
            total := Some(size.size);
            SizeKnown(pending);
          }
        }
        if total.Some? && |pending| == total.value {
          FrameHere(pending, source.rest, stream);
          var message := ParseWire(pending);
          if message.Bad? {
            return Fault(message.reason);
          }
          pending, total := [], None;
          HeldNothing();
          FrameGone(stream, source.rest);
          return Received(message.value);
        }
        WantSome(pending, total);
        var want := if total.None? then 1 else if total.value - |pending| < 8192 then total.value - |pending| else 8192;
        var got := source.Read(want);
        match got {
          case Interrupted =>
          case NotReady =>
            TimeoutHere(stream);
            return TimedOut;
          case Data(bytes) =>
            if bytes == [] {
              assert source.rest == [] && pending == stream;
              EndHere(pending, total);
              if pending == [] {
                return Closed;
              }
              return BrokenOff;
            }
            MoreHeld(pending, total, bytes);
            Assoc(pending, bytes, source.rest);
            pending := pending + bytes;
        }
      }
    }
  }

  lemma HeldNothing()
    ensures Held([], None)
  {
  }

  /** A header error seen in the bytes so far is the whole stream's. */
  lemma MalformedHere(pending: Text, rest: Text, stream: Text)
    requires Held(pending, None) && Probe(pending).Malformed? && stream == pending + rest
    ensures Explains(Fault(Probe(pending).reason), stream, stream)
  {
    WindowDecides(pending, rest);
  }

  lemma PendingShort(pending: Text)
    requires Held(pending, None)
    ensures |pending| <= MAX_PREFIX_SIZE
  {
  }

  lemma WindowDecides(pending: Text, rest: Text)
    requires Held(pending, None) && Probe(pending) != NeedMore
    ensures Probe(Window(pending + rest)) == Probe(pending)
  {
    hide Probe;
    PendingShort(pending);
    var w := Window(pending + rest);
    if |pending| == MAX_PREFIX_SIZE {
      assert w == pending;
    } else {
      Undecided(pending);
      assert w == pending + w[|pending|..];
      ProbeStable(pending, w[|pending|..]);
    }
  }

  lemma Undecided(pending: Text)
    requires |pending| < MAX_PREFIX_SIZE && Probe(pending) != NeedMore
    ensures SecondSoh(pending).Some?
  {
  }

  lemma SizeKnown(pending: Text)
    requires Held(pending, None) && Probe(pending).Total?
    ensures Held(pending, Some(Probe(pending).size))
  {
    PendingShort(pending);
    ProbeSize(pending);
    LastByte(pending);
  }

  /** The header is complete exactly when its second SOH, the last byte so far, arrives. */
  lemma LastByte(pending: Text)
    requires Held(pending, None) && SecondSoh(pending).Some?
    ensures SecondSoh(pending).value == |pending| - 1
  {
    var second := SecondSoh(pending).value;
    if second < |pending| - 1 {
      SohKept(pending, |pending| - 1);
      assert false;
    }
  }

  lemma FrameHere(pending: Text, rest: Text, stream: Text)
    requires Held(pending, Some(|pending|)) && stream == pending + rest
    ensures Probe(pending) == Total(|pending|)
    ensures var p := ParseWire(pending);
            Decode(stream) == (if p.Bad? then Invalid(p.reason) else Message(p.value, |pending|))
    ensures ParseWire(pending).Bad? ==> Explains(Fault(ParseWire(pending).reason), stream, stream)
  {
    hide Probe, ParseWire;
    FrameAt(pending, |pending|);
    assert pending[..|pending|] == pending;
    assert stream[..|pending|] == pending;
    WindowOf(pending, rest, |pending|);
  }

  /** More bytes do not change a size already known. */
  lemma WindowOf(pending: Text, more: Text, n: nat)
    requires Probe(Window(pending)) == Total(n)
    ensures Probe(Window(pending + more)) == Total(n)
  {
    hide Probe, SecondSoh;
    var w, w' := Window(pending), Window(pending + more);
    ProbeSize(w);
    assert w' == w + w'[|w|..];
    ProbeStable(w, w'[|w|..]);
  }

  lemma FrameGone(stream: Text, rest: Text)
    requires Decode(stream).Message? && rest == stream[Decode(stream).used..]
    ensures Explains(Received(Decode(stream).message), stream, [] + rest)
  {
    assert [] + rest == rest;
  }

  lemma WantSome(pending: Text, total: Option<nat>)
    requires Held(pending, total) && !(total.Some? && |pending| == total.value)
    ensures total.Some? ==> |pending| < total.value
  {
  }

  lemma TimeoutHere(stream: Text)
    ensures Explains(TimedOut, stream, stream)
  {
  }

  /** The stream ends before the frame does. */
  lemma EndHere(pending: Text, total: Option<nat>)
    requires Held(pending, total)
    requires total.None? ==> Probe(pending) == NeedMore
    requires total.Some? ==> |pending| < total.value
    ensures Explains(if pending == [] then Closed else BrokenOff, pending, pending)
  {
    if total.None? {
      NotDecided(pending);
    } else if pending == [] {
      EmptyNeedsMore();
    }
    hide Probe, ParseWire;
  }

  lemma NotDecided(pending: Text)
    requires Probe(pending) == NeedMore
    ensures Window(pending) == pending
  {
  }

  lemma EmptyNeedsMore()
    ensures Probe(Window([])) == NeedMore
  {
    assert SecondSoh([]).None?;
  }

  lemma MoreHeld(pending: Text, total: Option<nat>, bytes: Text)
    requires Held(pending, total)
    requires total.None? ==> Probe(pending) == NeedMore && |bytes| == 1
    requires total.Some? ==> |pending| + |bytes| <= total.value
    ensures Held(pending + bytes, total)
  {
    hide Probe;
    if total.Some? {
      WindowOf(pending, bytes, total.value);
    } else {
      assert (pending + bytes)[..|pending|] == pending;
    }
  }

  // ---------------------------------------------------------------- whole connections

  /** Reading a connection to its end, trying again after every timeout. The messages and the way
      it ends are those of the whole stream, however the bytes were split. */
  method ReadAll(stream: Text, schedule: seq<Event>) returns (messages: seq<FixMessage>, ending: Decoded)
    ensures Log(messages, ending) == DecodeAll(stream)
  {
    hide Held, Decode, DecodeAll, Put, Explains, Probe, ParseWire;
    var source := new Source(stream, schedule);
    var reader := new FrameReader(source);
    messages, ending := [], EndOfStream;
    HeldNothing();
    assert [] + stream == stream;
    StartOnto(DecodeAll(stream));
    while true
      invariant fresh(reader) && fresh(source) && reader.source == source
      invariant Held(reader.pending, reader.total)
      invariant Put(messages, DecodeAll(reader.pending + source.rest)) == DecodeAll(stream)
      decreases |reader.pending + source.rest|, |source.schedule|
    {
      ghost var before := reader.pending + source.rest;
      var r := reader.ReadMessage();
      ghost var after := reader.pending + source.rest;
      NextInStream(messages, r, before, after);
      match r {
        case Received(m) =>
          messages := messages + [m];
        case Closed =>
          return messages, EndOfStream;
        case Fault(e) =>
          return messages, Invalid(e);
        case BrokenOff =>
          return messages, Truncated;
        case TimedOut =>
      }
    }
  }

  function Put(messages: seq<FixMessage>, rest: Log): Log {
    Log(messages + rest.messages, rest.ending)
  }

  lemma StartOnto(log: Log)
    ensures Put([], log) == log
  {
    assert [] + log.messages == log.messages;
  }

  lemma DecodeAllStep(messages: seq<FixMessage>, s: Text)
    ensures Decode(s).Message? ==> (
        && 0 < Decode(s).used <= |s|
        && Put(messages, DecodeAll(s)) == Put(messages + [Decode(s).message], DecodeAll(s[Decode(s).used..])))
    ensures !Decode(s).Message? ==> Put(messages, DecodeAll(s)) == Log(messages, Decode(s))
  {
    hide Decode;
    var d := Decode(s);
    if d.Message? {
      var rest := DecodeAll(s[d.used..]);
      assert messages + ([d.message] + rest.messages) == (messages + [d.message]) + rest.messages;
    } else {
      assert messages + [] == messages;
    }
  }

  /** One answer of the decoder, as progress through the stream. */
  lemma NextInStream(messages: seq<FixMessage>, r: Outcome, before: Text, after: Text)
    requires Explains(r, before, after)
    ensures match r
            case Received(m) =>
              |after| < |before| && Put(messages, DecodeAll(before)) == Put(messages + [m], DecodeAll(after))
            case Closed => Put(messages, DecodeAll(before)) == Log(messages, EndOfStream)
            case Fault(e) => Put(messages, DecodeAll(before)) == Log(messages, Invalid(e))
            case BrokenOff => Put(messages, DecodeAll(before)) == Log(messages, Truncated)
            case TimedOut => after == before
  {
    hide Decode, DecodeAll, Put;
    DecodeAllStep(messages, before);
  }

  // ---------------------------------------------------------------- printed frames in a stream

  /** A printed frame at the head of a stream is the next message, and nothing after it is used. */
  lemma FrameDecodes(begin: Text, fields: seq<Field>, more: Text)
    requires Sendable(begin, fields)
    ensures Decode(Framed(begin, fields) + more)
         == Message(FixMessage(begin, fields, Framed(begin, fields)), |Framed(begin, fields)|)
  {
    hide Probe, ParseWire, Framed, Sendable;
    var wire := Framed(begin, fields);
    FrameRoundTrip(begin, fields);
    PrefixInWindow(begin, fields, more);
    assert (wire + more)[..|wire|] == wire;
  }

  lemma PrefixInWindow(begin: Text, fields: seq<Field>, more: Text)
    requires Sendable(begin, fields)
    ensures Probe(Window(Framed(begin, fields) + more)) == Total(|Framed(begin, fields)|)
  {
    hide Probe, PrintFields, Prefix, Sum, Trailer;
    var body := PrintFields(fields);
    var prefix := Prefix(begin, |body|);
    var s := Framed(begin, fields) + more;
    var w := Window(s);
    TrailerIs(Sum(prefix + body) % 256);
    assert s[..|prefix|] == prefix && w == prefix + w[|prefix|..];
    BodyStarts(fields);
    PrefixProbes(begin, |body|, w[|prefix|..]);
  }

  datatype Printed = Printed(begin: Text, fields: seq<Field>)

  ghost predicate AllSendable(items: seq<Printed>) {
    forall i :: 0 <= i < |items| ==> Sendable(items[i].begin, items[i].fields)
  }

  function Wire(items: seq<Printed>): Text {
    if items == [] then [] else Framed(items[0].begin, items[0].fields) + Wire(items[1..])
  }

  function Messages(items: seq<Printed>): seq<FixMessage> {
    seq(|items|, i requires 0 <= i < |items| =>
      FixMessage(items[i].begin, items[i].fields, Framed(items[i].begin, items[i].fields)))
  }

  lemma EmptyStream()
    ensures Decode([]) == EndOfStream
  {
    assert SecondSoh([]).None?;
  }

  /** A stream of printed frames decodes to exactly the messages printed, in order. */
  lemma {:induction false} StreamRoundTrip(items: seq<Printed>)
    requires AllSendable(items)
    ensures DecodeAll(Wire(items)) == Log(Messages(items), EndOfStream)
  {
    hide Framed, Sendable, Decode, Probe;
    if items == [] {
      EmptyStream();
    } else {
      var wire := Framed(items[0].begin, items[0].fields);
      FrameDecodes(items[0].begin, items[0].fields, Wire(items[1..]));
      StreamRoundTrip(items[1..]);
      assert (wire + Wire(items[1..]))[|wire|..] == Wire(items[1..]);
      assert Messages(items) == [Messages(items)[0]] + Messages(items[1..]);
    }
  }

  /** The same through the incremental decoder: any split of the bytes into reads, any timeouts. */
  method ReadPrinted(items: seq<Printed>, schedule: seq<Event>) returns (messages: seq<FixMessage>)
    requires AllSendable(items)
    ensures messages == Messages(items)
  {
    var ending;
    messages, ending := ReadAll(Wire(items), schedule);
    StreamRoundTrip(items);
  }
}
