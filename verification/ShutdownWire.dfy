/** What `graceful_close` writes on each connection, in order, and what it leaves when it
    raises. */
module ShutdownWire {
  import opened SetSum
  import opened OrderedDict
  import opened ConnectionState
  import opened WireLaws
  import opened Shutdown

  /** From `c` to `d` only REQs with this timeout were written. */
  ghost predicate OnlyRequeues(c: Conn, d: Conn, timeout: int)
  {
    && |c.sent| <= |d.sent| && d.sent[..|c.sent|] == c.sent && d.writable == c.writable
    && forall i :: |c.sent| <= i < |d.sent| ==> d.sent[i].Requeue? && d.sent[i].timeout == timeout
  }

  lemma RequeuesTwice(c: Conn, d: Conn, e: Conn, timeout: int)
    requires OnlyRequeues(c, d, timeout) && OnlyRequeues(d, e, timeout)
    ensures OnlyRequeues(c, e, timeout)
  {
    assert e.sent[..|c.sent|] == d.sent[..|c.sent|];
    assert forall i :: |c.sent| <= i < |d.sent| ==> e.sent[i] == d.sent[i];
  }

  lemma SettleRequeues(c: Conn, h: nat, timeout: int)
    requires h < |c.msgs|
    ensures OnlyRequeues(c, AfterSettle(c, h, Requeue(h, timeout)), timeout)
  {
  }

  lemma {:induction false} QueueRequeues(s: Consumer, timeout: int, id: ConnId)
    requires QueueValid(s) && id in s.conns
    ensures var t := RequeueQueued(s, timeout).state;
            id in t.conns && OnlyRequeues(s.conns[id], t.conns[id], timeout)
    decreases |s.queue|
  {
    if s.queue != [] {
      var e := First(s);
      ServeFirstValid(s, timeout);
      match SettleResult(s.conns[e.id], e.h)
      case RuntimeWarning => QueueRequeues(s.(queue := s.queue[1..]), timeout, id);
      case Ok =>
        var s2 := ServeFirst(s, timeout);
        SettleRequeues(s.conns[e.id], e.h, timeout);
        QueueRequeues(s2, timeout, id);
        RequeuesTwice(s.conns[id], s2.conns[id], RequeueQueued(s2, timeout).state.conns[id], timeout);
      case _ =>
    }
  }

  lemma {:induction false} EachRequeues(c: Conn, hs: seq<nat>, timeout: int)
    requires forall i :: 0 <= i < |hs| ==> hs[i] < |c.msgs|
    ensures OnlyRequeues(c, RequeueEach(c, hs, timeout).0, timeout)
    decreases |hs|
  {
    if hs != [] {
      var d := RequeueHead(c, hs[0], timeout);
      SettleRequeues(c, hs[0], timeout);
      EachRequeues(d, hs[1..], timeout);
      RequeuesTwice(c, d, RequeueEach(d, hs[1..], timeout).0, timeout);
    }
  }

  lemma RequeuedRequeues(s: Consumer, timeout: int, id: ConnId)
    requires Valid(s) && id in s.conns
    ensures OnlyRequeues(s.conns[id], Requeued(s, timeout, id), timeout)
  {
    QueueRequeues(s, timeout, id);
    QueuedKeeps(s, timeout);
    var c := RequeueQueued(s, timeout).state.conns[id];
    LedgerHandles(c);
    EachRequeues(c, Values(c.ledger), timeout);
    RequeuesTwice(s.conns[id], c, RequeueTracked(c, timeout).0, timeout);
  }

  /** RDY 0, then REQs with the given timeout, then CLS if the writer is open, and nothing else. */
  ghost predicate WroteShutdown(before: seq<Sent>, after: seq<Sent>, timeout: int, writable: bool)
  {
    var n := |before|;
    var end := if writable then |after| - 1 else |after|;
    && n + 1 <= end && after[..n] == before && after[n] == Ready(0)
    && (forall i :: n < i < end ==> after[i].Requeue? && after[i].timeout == timeout)
    && (writable ==> after[end] == Cls)
  }

  lemma ShutdownInOrder(c: Conn, d: Conn, timeout: int)
    requires Open(c) && OnlyRequeues(c.(sent := c.sent + [Ready(0)]), d, timeout) && !d.closed
    ensures WroteShutdown(c.sent, Closed(d, Requested, true).sent, timeout, c.writable)
  {
    var e := Closed(d, Requested, true);
    assert (c.sent + [Ready(0)])[..|c.sent|] == c.sent;
    assert e.sent[..|c.sent|] == d.sent[..|c.sent|] == c.sent;
    assert e.sent[|c.sent|] == d.sent[..|c.sent| + 1][|c.sent|];
  }

  lemma StoppedAt(s: Consumer, id: ConnId)
    requires id in s.conns && Open(s.conns[id])
    ensures id in StopAll(s).conns
    ensures StopAll(s).conns[id].sent == s.conns[id].sent + [Ready(0)]
    ensures StopAll(s).conns[id].writable == s.conns[id].writable
  {
  }

  /** When no other task runs in between, `graceful_close` writes this on every open
      connection: RDY 0 before anything is requeued, then the REQs, and CLS last. */
  lemma GracefulCloseWrites(s: Consumer, lives: map<ConnId, (int, seq<Event>)>, timeout: int, id: ConnId)
    requires QueueValid(s) && HasLived(s, lives) && id in s.conns
    ensures QueueValid(StopAll(s))
    ensures var t := ShutDown(StopAll(s), true, timeout).state;
            id in t.conns && WroteShutdown(s.conns[id].sent, t.conns[id].sent, timeout, s.conns[id].writable)
  {
    LivedIsValid(s, lives);
    StopKeeps(s);
    StoppedAt(s, id);
    ShutDownUnfolds(StopAll(s), timeout, id);
    RequeuedRequeues(StopAll(s), timeout, id);
    ShutdownInOrder(s.conns[id], Requeued(StopAll(s), timeout, id), timeout);
  }

  /** Without requeueing there are no REQs at all. */
  lemma CloseWithoutRequeueing(s: Consumer, timeout: int, id: ConnId)
    requires QueueValid(s) && id in s.conns && Open(s.conns[id]) && QueueValid(StopAll(s))
    ensures var r := ShutDown(StopAll(s), false, timeout);
            && !r.raised && r.requeued == 0 && id in r.state.conns && r.state.conns[id].closed
            && r.state.conns[id].sent == s.conns[id].sent + [Ready(0)] + (if s.conns[id].writable then [Cls] else [])
  {
    StoppedAt(s, id);
  }

  // ---------- When it raises ----------

  /** `t` is `s` where its requeueing stops at entry `i` of the queue: the first message that is
      stuck. Those before it are processed, it is gone from the queue itself, and those behind it
      are still queued; of another message `x` nothing has changed. */
  ghost predicate StopsAt(s: Consumer, t: Consumer, i: nat, x: Entry)
  {
    && i < |s.queue| && Exists(s, s.queue[i]) && Stuck(s, s.queue[i])
    && (forall e :: e in s.queue[..i] ==> Exists(s, e) && !Stuck(s, e))
    && t.queue == s.queue[i + 1..] && Exists(s, x) && Exists(t, x)
    && (Processed(t, x) <==> Processed(s, x) || x in s.queue[..i])
  }

  lemma Behind(queue: seq<Entry>, i: nat)
    requires queue != [] && i < |queue[1..]|
    ensures queue[1..][i] == queue[i + 1] && queue[1..][i + 1..] == queue[i + 2..]
    ensures queue[..i + 1] == [queue[0]] + queue[1..][..i]
  {
  }

  lemma SkipThenStop(s: Consumer, t: Consumer, i: nat, x: Entry)
    requires s.queue != [] && Exists(s, s.queue[0]) && Processed(s, s.queue[0])
    requires StopsAt(s.(queue := s.queue[1..]), t, i, x)
    ensures StopsAt(s, t, i + 1, x)
  {
    Behind(s.queue, i);
  }

  /** Serving the first entry frees nobody else. */
  lemma StuckAsBefore(s: Consumer, timeout: int, e: Entry)
    requires QueueValid(s) && s.queue != [] && SettleResult(s.conns[First(s).id], First(s).h) == Ok
    ensures Exists(ServeFirst(s, timeout), e) <==> Exists(s, e)
    ensures Exists(s, e) ==> (Stuck(ServeFirst(s, timeout), e) <==> Stuck(s, e))
    ensures Exists(s, e) ==> (Processed(ServeFirst(s, timeout), e) <==> Processed(s, e) || e == s.queue[0])
  {
  }

  lemma ServeThenStop(s: Consumer, timeout: int, t: Consumer, i: nat, x: Entry)
    requires QueueValid(s) && s.queue != [] && SettleResult(s.conns[First(s).id], First(s).h) == Ok
    requires StopsAt(ServeFirst(s, timeout), t, i, x)
    ensures StopsAt(s, t, i + 1, x)
  {
    Behind(s.queue, i);
    StuckAsBefore(s, timeout, x);
    StuckAsBefore(s, timeout, s.queue[i + 1]);
    forall e | e in s.queue[..i + 1]
      ensures Exists(s, e) && !Stuck(s, e)
    {
      StuckAsBefore(s, timeout, e);
    }
  }

  /** Requeueing the queue that raises has stopped at the first message that is stuck. */
  lemma {:induction false} RaisesAtTheFirstStuck(s: Consumer, timeout: int, x: Entry) returns (i: nat)
    requires QueueValid(s) && Exists(s, x) && RequeueQueued(s, timeout).raised
    ensures StopsAt(s, RequeueQueued(s, timeout).state, i, x)
    decreases |s.queue|
  {
    var e := First(s);
    ServeFirstValid(s, timeout);
    i := 0;
    match SettleResult(s.conns[e.id], e.h)
    case RuntimeWarning =>
      var s1 := s.(queue := s.queue[1..]);
      i := RaisesAtTheFirstStuck(s1, timeout, x);
      SkipThenStop(s, RequeueQueued(s1, timeout).state, i, x);
      i := i + 1;
    case Ok =>
      var s2 := ServeFirst(s, timeout);
      i := RaisesAtTheFirstStuck(s2, timeout, x);
      ServeThenStop(s, timeout, RequeueQueued(s2, timeout).state, i, x);
      i := i + 1;
    case _ =>
  }
}
