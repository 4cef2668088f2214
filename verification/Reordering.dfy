/** The reorder buffer restores the order of any permutation of a run of messages, up to its
    capacity and no further (SequenceState in src/fix/session.rs). */
module Reordering {
  import opened Orders
  import opened Sequencing
  import opened Collections

  /** Consecutive numbers from n, valid and readable, none of them a SequenceReset or a Logout. */
  ghost predicate Consecutive(sent: seq<Msg>, n: nat) {
    forall i :: 0 <= i < |sent| ==> (
      sent[i].seqNum == n + i && sent[i].kind.Ordinary? && sent[i].headerOk && sent[i].decodable && !sent[i].logout)
  }

  /** A reader that has seen nothing of the run yet. */
  ghost predicate Idle(r: Reader, n: nat) {
    ReaderOk(r) && r.state.queued == map[] && r.state.expected == n && r.fault.None?
  }

  /** Every message of the run from number e on is either queued or still to arrive, once. */
  ghost predicate Outstanding(e: nat, queued: map<nat, Msg>, arrivals: seq<Msg>, sent: seq<Msg>, n: nat) {
    && n <= e <= n + |sent|
    && (forall k :: k in queued ==> e <= k < n + |sent| && queued[k] == sent[k - n])
    && (forall a :: 0 <= a < |arrivals| ==> Fits(arrivals[a], e, queued, sent, n))
    && (forall a, b :: 0 <= a < b < |arrivals| ==> arrivals[a].seqNum != arrivals[b].seqNum)
    && (forall k: nat :: e <= k < n + |sent| ==> k in queued || Comes(arrivals, k))
  }

  ghost predicate Fits(m: Msg, e: nat, queued: map<nat, Msg>, sent: seq<Msg>, n: nat)
    requires n <= e
  {
    e <= m.seqNum < n + |sent| && m == sent[m.seqNum - n] && m.seqNum !in queued
  }

  ghost predicate Comes(arrivals: seq<Msg>, k: nat) {
    exists a :: 0 <= a < |arrivals| && arrivals[a].seqNum == k
  }

  /** The first arrival takes its place: delivered when it is due, queued when it is early. */
  lemma Placed(e: nat, queued: map<nat, Msg>, arrivals: seq<Msg>, sent: seq<Msg>, n: nat,
               e': nat, queued': map<nat, Msg>)
    requires Outstanding(e, queued, arrivals, sent, n) && arrivals != []
    requires arrivals[0].seqNum == e ==> e' == e + 1 && queued' == queued && e !in queued
    requires arrivals[0].seqNum != e ==> e' == e && queued' == queued[arrivals[0].seqNum := arrivals[0]]
    ensures Outstanding(e', queued', arrivals[1..], sent, n)
  {
    var m, rest := arrivals[0], arrivals[1..];
    assert Fits(arrivals[0], e, queued, sent, n);
    forall a | 0 <= a < |rest| ensures Fits(rest[a], e', queued', sent, n) {
      assert rest[a] == arrivals[a + 1] && arrivals[0].seqNum != arrivals[a + 1].seqNum;
    }
    forall k: nat | e' <= k < n + |sent| ensures k in queued' || Comes(rest, k) {
      if k !in queued' {
        var a :| 0 <= a < |arrivals| && arrivals[a].seqNum == k;
        assert rest[a - 1].seqNum == k;
      }
    }
  }

  /** A queued message whose turn has come counts as the next to arrive. */
  lemma Unqueued(e: nat, queued: map<nat, Msg>, arrivals: seq<Msg>, sent: seq<Msg>, n: nat)
    requires Outstanding(e, queued, arrivals, sent, n) && e in queued && Consecutive(sent, n)
    ensures Outstanding(e, queued - {e}, [queued[e]] + arrivals, sent, n)
  {
    var all := [queued[e]] + arrivals;
    forall a | 0 <= a < |all| ensures Fits(all[a], e, queued - {e}, sent, n) {
      if a > 0 {
        assert Fits(arrivals[a - 1], e, queued, sent, n);
      }
    }
    forall k: nat | e <= k < n + |sent| ensures k in queued - {e} || Comes(all, k) {
      if k == e {
        assert all[0].seqNum == k;
      } else if k !in queued {
        var a :| 0 <= a < |arrivals| && arrivals[a].seqNum == k;
        assert all[a + 1].seqNum == k;
      }
    }
  }

  ghost predicate Awaits(r: Reader, arrivals: seq<Msg>, sent: seq<Msg>, n: nat) {
    && ReaderOk(r) && r.fault.None? && Consecutive(sent, n) && n <= r.state.expected <= n + |sent|
    && Outstanding(r.state.expected, r.state.queued, arrivals, sent, n)
  }

  /** An early message finds room. */
  lemma Room(e: nat, queued: map<nat, Msg>, arrivals: seq<Msg>, sent: seq<Msg>, n: nat)
    requires Outstanding(e, queued, arrivals, sent, n) && e !in queued && arrivals != [] && arrivals[0].seqNum != e
    ensures |queued| + 2 <= |sent|
  {
    assert Fits(arrivals[0], e, queued, sent, n);
    RangeSize(queued.Keys + {arrivals[0].seqNum}, e + 1, n + |sent|);
  }

  /** One arrival of the run. */
  lemma OneArrival(r: Reader, arrivals: seq<Msg>, sent: seq<Msg>, n: nat)
    requires Awaits(r, arrivals, sent, n) && !HasReady(r) && arrivals != []
    requires |sent| <= MAX_QUEUED_MESSAGES + 1
    ensures Awaits(Handle(r, arrivals[0]), arrivals[1..], sent, n)
    ensures var due := arrivals[0].seqNum == r.state.expected;
            && Handle(r, arrivals[0]).state.expected == (if due then r.state.expected + 1 else r.state.expected)
            && Handle(r, arrivals[0]).delivered == (if due then r.delivered + [arrivals[0]] else r.delivered)
            && (due ==> arrivals[0] == sent[r.state.expected - n])
            && (due ==> Handle(r, arrivals[0]).state.queued == r.state.queued)
  {
    var e, queued, m := r.state.expected, r.state.queued, arrivals[0];
    assert Fits(arrivals[0], e, queued, sent, n);
    HandleKeeps(r, m);
    if m.seqNum == e {
      HandleDue(r, m);
      Placed(e, queued, arrivals, sent, n, e + 1, queued);
    } else {
      Room(e, queued, arrivals, sent, n);
      Placed(e, queued, arrivals, sent, n, e, queued[m.seqNum := m]);
    }
  }

  /** One queued message of the run whose turn has come. */
  lemma OneQueued(r: Reader, arrivals: seq<Msg>, sent: seq<Msg>, n: nat)
    requires Awaits(r, arrivals, sent, n) && HasReady(r)
    requires |sent| <= MAX_QUEUED_MESSAGES + 1
    ensures n <= r.state.expected < n + |sent|
    ensures Awaits(HandleReady(r), arrivals, sent, n)
    ensures HandleReady(r).delivered == r.delivered + [sent[r.state.expected - n]]
    ensures HandleReady(r).state.expected == r.state.expected + 1
  {
    hide Handle, Ascending;
    var e, m := r.state.expected, r.state.queued[r.state.expected];
    Unqueued(e, r.state.queued, arrivals, sent, n);
    TakenKeeps(r);
    OneArrival(Taken(r), [m] + arrivals, sent, n);
    assert ([m] + arrivals)[1..] == arrivals;
  }

  lemma NothingLeft(r: Reader, sent: seq<Msg>, n: nat)
    requires Awaits(r, [], sent, n) && !HasReady(r)
    ensures r.state.expected == n + |sent| && r.state.queued == map[]
  {
    assert !Comes([], r.state.expected);
    assert r.state.queued == map[];
  }

  lemma {:induction false} Restores(r: Reader, arrivals: seq<Msg>, sent: seq<Msg>, n: nat)
    requires Awaits(r, arrivals, sent, n) && |sent| <= MAX_QUEUED_MESSAGES + 1
    ensures Receive(r, arrivals).delivered == r.delivered + sent[r.state.expected - n..]
    ensures Receive(r, arrivals).state.expected == n + |sent|
    ensures Receive(r, arrivals).state.queued == map[] && Receive(r, arrivals).fault.None?
    decreases |arrivals|, |r.state.queued|
  {
    hide Handle, Receive, Outstanding, ReaderOk, Consecutive;
    var e := r.state.expected;
    if HasReady(r) {
      NextTurn(r, arrivals);
      OneQueued(r, arrivals, sent, n);
      Restores(HandleReady(r), arrivals, sent, n);
      OneMore(r.delivered, sent, e - n);
    } else if arrivals == [] {
      NothingLeft(r, sent, n);
      ReceiveDone(r, arrivals);
    } else {
      NextTurn(r, arrivals);
      OneArrival(r, arrivals, sent, n);
      Restores(Handle(r, arrivals[0]), arrivals[1..], sent, n);
      if arrivals[0].seqNum == e {
        OneMore(r.delivered, sent, e - n);
      }
    }
  }

  lemma OneMore(delivered: seq<Msg>, sent: seq<Msg>, i: nat)
    requires i < |sent|
    ensures delivered + [sent[i]] + sent[i + 1..] == delivered + sent[i..]
  {
    assert sent[i..] == [sent[i]] + sent[i + 1..];
  }

  /** A permutation of the run leaves every message outstanding once. */
  lemma PermutationOutstanding(r: Reader, arrivals: seq<Msg>, sent: seq<Msg>, n: nat)
    requires Idle(r, n) && Consecutive(sent, n) && multiset(arrivals) == multiset(sent)
    ensures Awaits(r, arrivals, sent, n)
  {
    forall a | 0 <= a < |arrivals| ensures Fits(arrivals[a], n, map[], sent, n) {
      assert arrivals[a] in multiset(arrivals);
      assert arrivals[a] in sent;
    }
    forall a, b | 0 <= a < b < |arrivals| ensures arrivals[a].seqNum != arrivals[b].seqNum {
      assert Fits(arrivals[a], n, map[], sent, n) && Fits(arrivals[b], n, map[], sent, n);
      if arrivals[a].seqNum == arrivals[b].seqNum {
        Repeated(arrivals, a, b);
        OnceOnly(sent, arrivals[a]);
        assert false;
      }
    }
    forall k: nat | n <= k < n + |sent| ensures Comes(arrivals, k) {
      assert sent[k - n] in multiset(sent);
      assert sent[k - n] in arrivals;
    }
  }

  /** Whatever order a run of at most 4097 messages arrives in, the reader delivers each message
      once, in the order sent, and ends expecting the number after the last. */
  lemma AnyOrder(r: Reader, arrivals: seq<Msg>, sent: seq<Msg>, n: nat)
    requires Idle(r, n) && Consecutive(sent, n) && |sent| <= MAX_QUEUED_MESSAGES + 1
    requires multiset(arrivals) == multiset(sent)
    ensures Receive(r, arrivals).delivered == r.delivered + sent
    ensures Receive(r, arrivals).state.expected == n + |sent|
    ensures Receive(r, arrivals).state.queued == map[] && Receive(r, arrivals).fault.None?
  {
    PermutationOutstanding(r, arrivals, sent, n);
    Restores(r, arrivals, sent, n);
    assert sent[0..] == sent;
  }

  /** The bound is exact: a longer run that arrives with its first message last overflows. */
  lemma TooManyEarly(r: Reader, sent: seq<Msg>, n: nat)
    requires Idle(r, n) && Consecutive(sent, n) && |sent| > MAX_QUEUED_MESSAGES + 1
    ensures Receive(r, sent[1..] + sent[..1]).fault == Some(QueueFull)
  {
    Overflows(r, sent[1..] + sent[..1], sent, n, 1);
  }

  lemma {:induction false} Overflows(r: Reader, arrivals: seq<Msg>, sent: seq<Msg>, n: nat, i: nat)
    requires ReaderOk(r) && r.fault.None? && r.state.expected == n && Consecutive(sent, n)
    requires 1 <= i <= MAX_QUEUED_MESSAGES + 1 < |sent| && |r.state.queued| == i - 1
    requires forall k :: k in r.state.queued ==> n < k < n + i
    requires arrivals == sent[i..] + sent[..1]
    ensures Receive(r, arrivals).fault == Some(QueueFull)
    decreases |sent| - i
  {
    var m := arrivals[0];
    assert m == sent[i] && !HasReady(r);
    HandleKeeps(r, m);
    if i <= MAX_QUEUED_MESSAGES {
      assert Handle(r, m).state.queued == r.state.queued[m.seqNum := m];
      assert arrivals[1..] == sent[i + 1..] + sent[..1];
      Overflows(Handle(r, m), arrivals[1..], sent, n, i + 1);
    }
  }
}
