/** The bounded outbound queue of a session and its shared failure flag (src/queue.rs), as
    interleaved steps: the engine's reports arrive one send at a time (the engine lock), other
    threads send session messages, and the writer drains. */
module Queues {
  import opened Collections

  datatype Item = FromEngine(report: int) | FromOther(value: int)

  /** Where a thread stands inside send: not in it, past the flag check, or refused by the channel. */
  datatype Phase = Idle | Checked(item: Item) | Refused

  datatype World = World(
    capacity: nat, failed: bool, receiving: bool, channel: seq<Item>,
    engine: Phase, others: map<nat, Phase>,
    generated: seq<int>, accepted: seq<int>, written: seq<Item>)

  datatype Step =
    | EngineSend(report: int)
    | EngineTry
    | EngineStore
    | OtherSend(thread: nat, value: int)
    | OtherTry(thread: nat)
    | OtherStore(thread: nat)
    | TripFlag
    | WriterTake
    | WriterStop

  function Start(capacity: nat): World {
    World(capacity, false, true, [], Idle, map[], [], [], [])
  }

  predicate HasRoom(w: World) {
    w.receiving && |w.channel| < w.capacity
  }

  function PhaseOf(w: World, thread: nat): Phase {
    if thread in w.others then w.others[thread] else Idle
  }

  /** One atomic step; a step that is not enabled changes nothing. */
  function Apply(w: World, step: Step): World {
    match step
    case EngineSend(report) =>
      if !w.engine.Idle? then w
      else w.(generated := w.generated + [report], engine := if w.failed then Idle else Checked(FromEngine(report)))
    case EngineTry =>
      if !w.engine.Checked? || !w.engine.item.FromEngine? then w
      else if HasRoom(w) then
        w.(channel := w.channel + [w.engine.item], accepted := w.accepted + [w.engine.item.report], engine := Idle)
      else w.(engine := Refused)
    case EngineStore => if w.engine.Refused? then w.(failed := true, engine := Idle) else w
    case OtherSend(t, value) =>
      if !PhaseOf(w, t).Idle? || w.failed then w else w.(others := w.others[t := Checked(FromOther(value))])
    case OtherTry(t) =>
      if !PhaseOf(w, t).Checked? || !PhaseOf(w, t).item.FromOther? then w
      else if HasRoom(w) then w.(channel := w.channel + [PhaseOf(w, t).item], others := w.others[t := Idle])
      else w.(others := w.others[t := Refused])
    case OtherStore(t) => if PhaseOf(w, t).Refused? then w.(failed := true, others := w.others[t := Idle]) else w
    case TripFlag => w.(failed := true)
    case WriterTake =>
      if !w.receiving || w.channel == [] then w
      else w.(channel := w.channel[1..], written := w.written + [w.channel[0]])
    case WriterStop => w.(receiving := false)
  }

  function Play(w: World, steps: seq<Step>): World
    decreases |steps|
  {
    if steps == [] then w else Play(Apply(w, steps[0]), steps[1..])
  }

  /** The engine's reports among some items, in order. */
  function Reports(items: seq<Item>): seq<int> {
    if items == [] then []
    else (if items[0].FromEngine? then [items[0].report] else []) + Reports(items[1..])
  }

  lemma {:induction false} ReportsConcat(a: seq<Item>, b: seq<Item>)
    ensures Reports(a + b) == Reports(a) + Reports(b)
  {
    if a == [] {
      assert a + b == b;
    } else {
      ReportsConcat(a[1..], b);
      assert (a + b)[1..] == a[1..] + b && (a + b)[0] == a[0];
      var first := if a[0].FromEngine? then [a[0].report] else [];
      assert Reports(a) == first + Reports(a[1..]) && Reports(a + b) == first + Reports(a[1..] + b);
      Assoc(first, Reports(a[1..]), Reports(b));
    }
  }

  // ---------------------------------------------------------------- what every step keeps

  /** Either nothing was lost yet, or the flag is up and stays up. */
  ghost predicate NoGap(w: World) {
    match w.engine
    case Idle => w.accepted == w.generated || (w.failed && w.accepted <= w.generated)
    case Checked(item) => item.FromEngine? && w.generated == w.accepted + [item.report]
    case Refused => |w.generated| == |w.accepted| + 1 && w.accepted <= w.generated
  }

  ghost predicate Kept(w: World) {
    && NoGap(w)
    && |w.channel| <= w.capacity
    && Reports(w.written + w.channel) == w.accepted
  }

  lemma PushKept(w: World, item: Item)
    requires Reports(w.written + w.channel) == w.accepted
    ensures Reports(w.written + (w.channel + [item]))
         == w.accepted + (if item.FromEngine? then [item.report] else [])
  {
    assert w.written + (w.channel + [item]) == (w.written + w.channel) + [item];
    ReportsConcat(w.written + w.channel, [item]);
  }

  lemma EngineTryKept(w: World)
    requires Kept(w)
    ensures Kept(Apply(w, EngineTry))
  {
    if w.engine.Checked? {
      PushKept(w, w.engine.item);
    }
  }

  lemma OtherTryKept(w: World, t: nat)
    requires Kept(w)
    ensures Kept(Apply(w, OtherTry(t)))
  {
    if PhaseOf(w, t).Checked? {
      PushKept(w, PhaseOf(w, t).item);
    }
  }

  lemma WriterTakeKept(w: World)
    requires Kept(w)
    ensures Kept(Apply(w, WriterTake))
  {
    if w.channel != [] {
      assert (w.written + [w.channel[0]]) + w.channel[1..] == w.written + w.channel;
    }
  }

  lemma StepKept(w: World, step: Step)
    requires Kept(w)
    ensures Kept(Apply(w, step))
  {
    hide Reports;
    match step
    case EngineTry => EngineTryKept(w);
    case OtherTry(t) => OtherTryKept(w, t);
    case WriterTake => WriterTakeKept(w);
    case _ =>
  }

  lemma {:induction false} PlayKept(w: World, steps: seq<Step>)
    requires Kept(w)
    ensures Kept(Play(w, steps))
    decreases |steps|
  {
    if steps != [] {
      StepKept(w, steps[0]);
      PlayKept(Apply(w, steps[0]), steps[1..]);
    }
  }

  /** Fail-closed delivery: however the threads interleave, the engine reports the queue accepted
      are the first ones generated, without a gap, and what the writer took of them is the first
      of those. The queue never exceeds its capacity. */
  lemma FailClosed(capacity: nat, steps: seq<Step>)
    ensures var w := Play(Start(capacity), steps);
            && w.accepted <= w.generated
            && Reports(w.written) <= w.accepted
            && |w.channel| <= capacity
  {
    PlayKept(Start(capacity), steps);
    var w := Play(Start(capacity), steps);
    ReportsConcat(w.written, w.channel);
    CapacityFixed(Start(capacity), steps);
  }

  lemma {:induction false} CapacityFixed(w: World, steps: seq<Step>)
    ensures Play(w, steps).capacity == w.capacity
    decreases |steps|
  {
    if steps != [] {
      CapacityFixed(Apply(w, steps[0]), steps[1..]);
    }
  }

  // ---------------------------------------------------------------- what gets through

  /** The writer takes items oldest first: left alone, it writes exactly what is queued. */
  lemma {:induction false} WriterDrains(w: World)
    requires w.receiving
    ensures var after := Play(w, seq(|w.channel|, i => WriterTake));
            after.channel == [] && after.written == w.written + w.channel
    decreases |w.channel|
  {
    if w.channel != [] {
      var steps := seq(|w.channel|, i => WriterTake);
      var next := Apply(w, WriterTake);
      WriterDrains(next);
      assert steps[1..] == seq(|next.channel|, i => WriterTake);
      assert w.written + [w.channel[0]] + w.channel[1..] == w.written + w.channel;
    } else {
      assert w.written + [] == w.written;
    }
  }

  /** A send that nobody interrupts gets its item in exactly when the flag is down and there is room, and
      otherwise leaves the queue alone with the flag up. */
  lemma OtherSendGetsIn(w: World, t: nat, value: int)
    requires PhaseOf(w, t).Idle?
    ensures var after := Play(w, [OtherSend(t, value), OtherTry(t), OtherStore(t)]);
            var room := !w.failed && w.receiving && |w.channel| < w.capacity;
            && after.channel == (if room then w.channel + [FromOther(value)] else w.channel)
            && after.failed == !room && PhaseOf(after, t).Idle?
            && after.accepted == w.accepted && after.generated == w.generated
  {
    ThreeStepsIn(w, OtherSend(t, value), OtherTry(t), OtherStore(t));
  }

  lemma EngineSendGetsIn(w: World, report: int)
    requires w.engine.Idle?
    ensures var after := Play(w, [EngineSend(report), EngineTry, EngineStore]);
            var room := !w.failed && w.receiving && |w.channel| < w.capacity;
            && after.channel == (if room then w.channel + [FromEngine(report)] else w.channel)
            && after.accepted == (if room then w.accepted + [report] else w.accepted)
            && after.generated == w.generated + [report] && after.failed == !room && after.engine.Idle?
  {
    ThreeStepsIn(w, EngineSend(report), EngineTry, EngineStore);
  }

  lemma ThreeStepsIn(w: World, a: Step, b: Step, c: Step)
    ensures Play(w, [a, b, c]) == Apply(Apply(Apply(w, a), b), c)
  {
    hide Apply;
    assert [a, b, c][1..] == [b, c] && [b, c][1..] == [c] && [c][1..] == [];
    assert Play(w, [a, b, c]) == Play(Apply(w, a), [b, c]);
    assert Play(Apply(w, a), [b, c]) == Play(Apply(Apply(w, a), b), [c]);
  }

  /** The flag never comes down again, whatever happens. */
  lemma {:induction false} FlagStays(w: World, steps: seq<Step>)
    requires w.failed
    ensures Play(w, steps).failed
    decreases |steps|
  {
    if steps != [] {
      FlagStays(Apply(w, steps[0]), steps[1..]);
    }
  }

  // ---------------------------------------------------------------- the queue in place

  class Mailbox {
    const capacity: nat
    var failed: bool
    var receiving: bool
    var channel: seq<Item>

    constructor (capacity: nat)
      ensures this.capacity == capacity && !failed && receiving && channel == []
    {
      this.capacity := capacity;
      failed, receiving, channel := false, true, [];
    }

    /** One uninterrupted send; false is an error to the caller. */
    method Send(item: Item) returns (ok: bool)
      modifies this
      ensures receiving == old(receiving)
      ensures ok == (!old(failed) && old(receiving) && |old(channel)| < capacity)
      ensures channel == (if ok then old(channel) + [item] else old(channel))
      ensures failed == !ok
    {
      if failed {
        return false;
      }
      if receiving && |channel| < capacity {
        channel := channel + [item];
        ok := true;
      } else {
        failed := true;
        ok := false;
      }
    }
  }

  /** Uninterrupted sends leave the queue as the three engine steps of each report in a row do. */
  method SendAll(capacity: nat, reports: seq<int>) returns (channel: seq<Item>, failed: bool)
    ensures channel == Play(Start(capacity), Uninterrupted(reports)).channel
    ensures failed == Play(Start(capacity), Uninterrupted(reports)).failed
  {
    var box := new Mailbox(capacity);
    ghost var now := Start(capacity);
    for i := 0 to |reports|
      invariant box.capacity == now.capacity && box.channel == now.channel && now.engine.Idle?
      invariant box.failed == now.failed && box.receiving == now.receiving
      invariant Play(now, Uninterrupted(reports[i..])) == Play(Start(capacity), Uninterrupted(reports))
    {
      var ok := box.Send(FromEngine(reports[i]));
      ThreeSteps(now, reports[i..]);
      assert reports[i..][1..] == reports[i + 1..];
      now := Apply(Apply(Apply(now, EngineSend(reports[i])), EngineTry), EngineStore);
    }
    channel, failed := box.channel, box.failed;
  }

  function Uninterrupted(reports: seq<int>): seq<Step> {
    if reports == [] then [] else [EngineSend(reports[0]), EngineTry, EngineStore] + Uninterrupted(reports[1..])
  }

  lemma ThreeSteps(w: World, reports: seq<int>)
    requires reports != []
    ensures Play(w, Uninterrupted(reports))
         == Play(Apply(Apply(Apply(w, EngineSend(reports[0])), EngineTry), EngineStore), Uninterrupted(reports[1..]))
  {
    var rest := Uninterrupted(reports[1..]);
    var all := Uninterrupted(reports);
    assert all[1..] == [EngineTry, EngineStore] + rest;
    assert all[1..][1..] == [EngineStore] + rest;
    assert all[1..][1..][1..] == rest;
    var w1 := Apply(w, EngineSend(reports[0]));
    var w2 := Apply(w1, EngineTry);
    assert Play(w, all) == Play(w1, all[1..]);
    assert Play(w1, all[1..]) == Play(w2, all[1..][1..]);
  }
}
