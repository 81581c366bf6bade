/** The consumer at shutdown: a shared queue and the ledgers of the connections overlap, and
    both are requeued (`Reader.graceful_close` of asyncnsq/tcp/reader.py). */
module Shutdown {
  import opened Prelude
  import opened SetSum
  import opened OrderedDict
  import opened ConnectionState
  import opened ConnectionLaws

  /** A queued message object: its connection, and its number there. */
  datatype Entry = Entry(id: ConnId, h: nat)

  datatype Consumer = Consumer(conns: map<ConnId, Conn>, queue: seq<Entry>)

  /** What a shutdown leaves behind, how many messages it requeued, and whether it raised. */
  datatype Outcome = Outcome(state: Consumer, requeued: nat, raised: bool)

  predicate Exists(s: Consumer, e: Entry)
  {
    e.id in s.conns && e.h < |s.conns[e.id].msgs|
  }

  predicate QueueValid(s: Consumer)
  {
    forall e :: e in s.queue ==> Exists(s, e)
  }

  ghost predicate Valid(s: Consumer)
  {
    QueueValid(s) && forall id :: id in s.conns ==> ConnInv(s.conns[id])
  }

  predicate Processed(s: Consumer, e: Entry)
    requires Exists(s, e)
  {
    s.conns[e.id].msgs[e.h].processed
  }

  // ---------- The code ----------

  function WithConn(s: Consumer, id: ConnId, c: Conn): Consumer
  {
    s.(conns := s.conns[id := c])
  }

  function First(s: Consumer): (e: Entry)
    requires s.queue != [] && QueueValid(s)
    ensures e == s.queue[0] && e in s.queue && Exists(s, e)
  {
    assert s.queue[0] in s.queue;
    s.queue[0]
  }

  /** The queue without its first entry, and that entry's message requeued. */
  function ServeFirst(s: Consumer, timeout: int): Consumer
    requires s.queue != [] && QueueValid(s)
  {
    var e := First(s);
    WithConn(s.(queue := s.queue[1..]), e.id, AfterSettle(s.conns[e.id], e.h, Requeue(e.h, timeout)))
  }

  lemma ServeFirstValid(s: Consumer, timeout: int)
    requires s.queue != [] && QueueValid(s)
    ensures QueueValid(ServeFirst(s, timeout)) && QueueValid(s.(queue := s.queue[1..]))
  {
    var first := First(s);
    assert forall e :: e in s.queue[1..] ==> e in s.queue;
  }

  /** `requeue_queued_messages`. A processed message is skipped; only `RuntimeWarning` is
      caught, so the first unprocessed message of a closed connection ends the loop. */
  function RequeueQueued(s: Consumer, timeout: int): Outcome
    requires QueueValid(s)
    decreases |s.queue|
  {
    if s.queue == [] then Outcome(s, 0, false)
    else
      var e := First(s);
      ServeFirstValid(s, timeout);
      match SettleResult(s.conns[e.id], e.h)
      case RuntimeWarning => RequeueQueued(s.(queue := s.queue[1..]), timeout)
      case Ok =>
        var r := RequeueQueued(ServeFirst(s, timeout), timeout);
        r.(requeued := r.requeued + 1)
      case _ => Outcome(s.(queue := s.queue[1..]), 0, true)
  }

  /** `TcpConnection.requeue_in_flight`. */
  ghost function RequeueTracked(c: Conn, timeout: int): (Conn, nat)
  {
    if IsClosed(c) then (c, 0) else RequeueLedger(c, timeout)
  }

  ghost function TrackedCounts(s: Consumer, timeout: int): map<ConnId, int>
  {
    map id | id in s.conns :: RequeueTracked(s.conns[id], timeout).1
  }

  /** `Reader.requeue_in_flight`. */
  ghost function RequeueAllTracked(s: Consumer, timeout: int): Consumer
  {
    s.(conns := map id | id in s.conns :: RequeueTracked(s.conns[id], timeout).0)
  }

  function CloseAll(s: Consumer): Consumer
  {
    s.(conns := map id | id in s.conns :: Closed(s.conns[id], Requested, true))
  }

  /** `Reader.stop_receiving`: RDY 0 on every connection that is open. */
  function StopAll(s: Consumer): Consumer
  {
    s.(conns := map id | id in s.conns :: AfterReady(s.conns[id], 0))
  }

  /** What follows once the queue is empty and `n` of its messages were requeued. */
  ghost function AfterQueue(s: Consumer, n: nat, timeout: int): Outcome
  {
    var counts := TrackedCounts(s, timeout);
    SumNonNegative(s.conns.Keys, counts);
    Outcome(CloseAll(RequeueAllTracked(s, timeout)), n + Sum(s.conns.Keys, counts), false)
  }

  /** `graceful_close` once the workers have stopped. */
  ghost function ShutDown(s: Consumer, requeue: bool, timeout: int): Outcome
    requires QueueValid(s)
  {
    if !requeue then Outcome(CloseAll(s), 0, false)
    else
      var r := RequeueQueued(s, timeout);
      if r.raised then r else AfterQueue(r.state, r.requeued, timeout)
  }

  // ---------- The queue ----------

  lemma ServeFirstKeeps(s: Consumer, timeout: int)
    requires Valid(s) && s.queue != []
    ensures Valid(ServeFirst(s, timeout)) && Valid(s.(queue := s.queue[1..]))
  {
    ServeFirstValid(s, timeout);
    var e := First(s);
    SettleKeeps(s.conns[e.id], e.h, Requeue(e.h, timeout));
  }

  lemma {:induction false} QueuedKeeps(s: Consumer, timeout: int)
    requires Valid(s)
    ensures var t := RequeueQueued(s, timeout).state;
            Valid(t) && t.conns.Keys == s.conns.Keys
    decreases |s.queue|
  {
    if s.queue != [] {
      ServeFirstKeeps(s, timeout);
      match SettleResult(s.conns[First(s).id], First(s).h)
      case RuntimeWarning => QueuedKeeps(s.(queue := s.queue[1..]), timeout);
      case Ok => QueuedKeeps(ServeFirst(s, timeout), timeout);
      case _ =>
    }
  }

  /** A queued message that cannot be requeued. */
  ghost predicate Stuck(s: Consumer, e: Entry)
    requires Exists(s, e)
  {
    !Processed(s, e) && IsClosed(s.conns[e.id])
  }

  /** Requeueing the queue raises if and only if it holds an unprocessed message of a
      connection that is closed. */
  lemma {:induction false} QueuedRaisesIff(s: Consumer, timeout: int)
    requires QueueValid(s)
    ensures RequeueQueued(s, timeout).raised <==> exists e :: e in s.queue && Stuck(s, e)
    decreases |s.queue|
  {
    if s.queue != [] {
      var e := First(s);
      var s1 := s.(queue := s.queue[1..]);
      assert s.queue == [e] + s1.queue;
      ServeFirstValid(s, timeout);
      assert Stuck(s, e) <==> SettleResult(s.conns[e.id], e.h) == ConnectionError;
      match SettleResult(s.conns[e.id], e.h)
      case RuntimeWarning =>
        QueuedRaisesIff(s1, timeout);
        assert forall x :: x in s1.queue ==> (Stuck(s1, x) <==> Stuck(s, x));
      case Ok =>
        var s2 := ServeFirst(s, timeout);
        QueuedRaisesIff(s2, timeout);
        assert forall x :: x in s1.queue ==> (Stuck(s2, x) <==> Stuck(s, x));
      case _ =>
    }
  }

  /** Everything that requeueing the queue does to one message object, seen at one key of
      its connection's ledger: it is processed if it was or if it was queued, no FIN is
      written for it, and an entry of the ledger goes exactly if an unprocessed message
      with that id was queued. */
  lemma {:induction false} QueuedEffect(s: Consumer, timeout: int, x: Entry, k: bytes)
    requires Valid(s) && Exists(s, x) && !RequeueQueued(s, timeout).raised
    ensures QueueServed(s, RequeueQueued(s, timeout).state, x, k)
    decreases |s.queue|
  {
    if s.queue != [] {
      var e := First(s);
      var s1 := s.(queue := s.queue[1..]);
      ServeFirstKeeps(s, timeout);
      match SettleResult(s.conns[e.id], e.h)
      case RuntimeWarning =>
        QueuedEffect(s1, timeout, x, k);
        SkipThenServed(s, RequeueQueued(s1, timeout).state, x, k);
      case Ok =>
        var s2 := ServeFirst(s, timeout);
        QueuedEffect(s2, timeout, x, k);
        ServeThenServed(s, timeout, RequeueQueued(s2, timeout).state, x, k);
    }
  }

  /** `t` is `s` once its queue is requeued: of a message `x` and a ledger key `k`. */
  ghost predicate QueueServed(s: Consumer, t: Consumer, x: Entry, k: bytes)
    requires QueueValid(s) && Exists(s, x)
  {
    && t.queue == [] && t.conns.Keys == s.conns.Keys
    && var (c, d) := (s.conns[x.id], t.conns[x.id]);
       && |d.msgs| == |c.msgs| && d.msgs[x.h].id == c.msgs[x.h].id
       && (IsClosed(d) <==> IsClosed(c))
       && (d.msgs[x.h].processed <==> c.msgs[x.h].processed || x in s.queue)
       && Finishes(d.sent, x.h) == Finishes(c.sent, x.h)
       && ((k, x.h) in d.ledger <==> (k, x.h) in c.ledger && !QueuedTwin(s, x.id, k))
  }

  lemma SkipThenServed(s: Consumer, t: Consumer, x: Entry, k: bytes)
    requires QueueValid(s) && Exists(s, x) && s.queue != [] && Exists(s, s.queue[0]) && Processed(s, s.queue[0])
    requires QueueValid(s.(queue := s.queue[1..])) && QueueServed(s.(queue := s.queue[1..]), t, x, k)
    ensures QueueServed(s, t, x, k)
  {
    assert s.queue == [s.queue[0]] + s.queue[1..];
    TwinSkip(s, x.id, k);
  }

  lemma ServeThenServed(s: Consumer, timeout: int, t: Consumer, x: Entry, k: bytes)
    requires Valid(s) && Exists(s, x) && s.queue != [] && Exists(s, s.queue[0])
    requires SettleResult(s.conns[s.queue[0].id], s.queue[0].h) == Ok
    requires QueueValid(ServeFirst(s, timeout)) && Exists(ServeFirst(s, timeout), x)
    requires QueueServed(ServeFirst(s, timeout), t, x, k)
    ensures QueueServed(s, t, x, k)
  {
    assert s.queue == [s.queue[0]] + s.queue[1..];
    ServeFirstEffect(s, timeout, x, k);
  }

  /** An unprocessed message of connection `id` with the message id `k` is queued. */
  ghost predicate QueuedTwin(s: Consumer, id: ConnId, k: bytes)
    requires QueueValid(s)
  {
    exists e :: e in s.queue && e.id == id && s.conns[id].msgs[e.h] == Msg(k, false)
  }

  lemma TwinSkip(s: Consumer, id: ConnId, k: bytes)
    requires QueueValid(s) && s.queue != [] && Exists(s, s.queue[0]) && Processed(s, s.queue[0])
    ensures QueueValid(s.(queue := s.queue[1..]))
    ensures QueuedTwin(s.(queue := s.queue[1..]), id, k) <==> QueuedTwin(s, id, k)
  {
    var s1 := s.(queue := s.queue[1..]);
    assert s.queue == [s.queue[0]] + s1.queue;
    if QueuedTwin(s, id, k) {
      var e :| e in s.queue && e.id == id && s.conns[id].msgs[e.h] == Msg(k, false);
      assert e in s1.queue;
    }
  }

  lemma ServeFirstEffect(s: Consumer, timeout: int, x: Entry, k: bytes)
    requires Valid(s) && Exists(s, x) && s.queue != [] && Exists(s, s.queue[0])
    requires SettleResult(s.conns[s.queue[0].id], s.queue[0].h) == Ok
    ensures QueueValid(ServeFirst(s, timeout))
    ensures var t := ServeFirst(s, timeout);
            var (c, d) := (s.conns[x.id], t.conns[x.id]);
            && |d.msgs| == |c.msgs| && d.msgs[x.h].id == c.msgs[x.h].id
            && (IsClosed(d) <==> IsClosed(c))
            && (d.msgs[x.h].processed <==> c.msgs[x.h].processed || x == s.queue[0])
            && Finishes(d.sent, x.h) == Finishes(c.sent, x.h)
            && ((k, x.h) in d.ledger && !QueuedTwin(t, x.id, k) <==> (k, x.h) in c.ledger && !QueuedTwin(s, x.id, k))
  {
    var e := First(s);
    ServeFirstValid(s, timeout);
    PopMembers(s.conns[e.id].ledger, s.conns[e.id].msgs[e.h].id);
    SentAppend(s.conns[e.id].sent, Requeue(e.h, timeout), x.h);
    TwinServe(s, timeout, x.id, k);
  }

  lemma TwinServe(s: Consumer, timeout: int, id: ConnId, k: bytes)
    requires QueueValid(s) && s.queue != [] && Exists(s, s.queue[0])
    requires SettleResult(s.conns[s.queue[0].id], s.queue[0].h) == Ok
    ensures QueueValid(ServeFirst(s, timeout))
    ensures QueuedTwin(s, id, k) <==>
            QueuedTwin(ServeFirst(s, timeout), id, k)
            || (s.queue[0].id == id && s.conns[id].msgs[s.queue[0].h].id == k)
  {
    var f := First(s);
    var t := ServeFirst(s, timeout);
    ServeFirstValid(s, timeout);
    assert s.queue == [f] + t.queue;
    if QueuedTwin(s, id, k) {
      var e :| e in s.queue && e.id == id && s.conns[id].msgs[e.h] == Msg(k, false);
      if e != f {
        assert e in t.queue && t.conns[id].msgs[e.h] == Msg(k, false);
      }
    }
    if QueuedTwin(t, id, k) {
      var e :| e in t.queue && e.id == id && t.conns[id].msgs[e.h] == Msg(k, false);
      assert e in s.queue && s.conns[id].msgs[e.h] == Msg(k, false);
    }
  }

  ghost function InFlights(s: Consumer): map<ConnId, int>
  {
    map id | id in s.conns :: s.conns[id].credit.inFlight
  }

  lemma ServeFirstCount(s: Consumer, timeout: int)
    requires Valid(s) && s.queue != [] && SettleResult(s.conns[First(s).id], First(s).h) == Ok
    ensures var t := ServeFirst(s, timeout);
            && t.conns.Keys == s.conns.Keys
            && Sum(s.conns.Keys, InFlights(s)) - Sum(s.conns.Keys, InFlights(t)) == 1
  {
    var e := First(s);
    var t := ServeFirst(s, timeout);
    SettlingSettle(s.conns[e.id], e.h, Requeue(e.h, timeout));
    assert t.conns.Keys == s.conns.Keys;
    SumPoint(s.conns.Keys, InFlights(s), InFlights(t), e.id);
  }

  /** Each requeued message was one in-flight message less. */
  lemma {:induction false} QueuedCount(s: Consumer, timeout: int)
    requires Valid(s) && !RequeueQueued(s, timeout).raised
    ensures var r := RequeueQueued(s, timeout);
            && r.state.conns.Keys == s.conns.Keys
            && r.requeued == Sum(s.conns.Keys, InFlights(s)) - Sum(s.conns.Keys, InFlights(r.state))
    decreases |s.queue|
  {
    if s.queue != [] {
      var s1 := s.(queue := s.queue[1..]);
      ServeFirstKeeps(s, timeout);
      match SettleResult(s.conns[First(s).id], First(s).h)
      case RuntimeWarning =>
        QueuedCount(s1, timeout);
        assert InFlights(s1) == InFlights(s);
      case Ok =>
        ServeFirstCount(s, timeout);
        QueuedCount(ServeFirst(s, timeout), timeout);
    }
  }

  lemma {:induction false} QueuedSizes(s: Consumer, timeout: int, id: ConnId)
    requires Valid(s) && id in s.conns
    ensures var t := RequeueQueued(s, timeout).state;
            && id in t.conns && |t.conns[id].msgs| == |s.conns[id].msgs|
            && (IsClosed(t.conns[id]) <==> IsClosed(s.conns[id]))
    decreases |s.queue|
  {
    if s.queue != [] {
      var s1 := s.(queue := s.queue[1..]);
      ServeFirstKeeps(s, timeout);
      match SettleResult(s.conns[First(s).id], First(s).h)
      case RuntimeWarning => QueuedSizes(s1, timeout, id);
      case Ok => QueuedSizes(ServeFirst(s, timeout), timeout, id);
      case _ =>
    }
  }

  // ---------- The ledgers ----------

  lemma {:induction false} RequeueEachEffect(c: Conn, hs: seq<nat>, timeout: int, h: nat)
    requires ConnInv(c) && !IsClosed(c) && hs == Values(c.ledger) && h < |c.msgs|
    requires forall i :: 0 <= i < |hs| ==> hs[i] < |c.msgs|
    ensures var d := RequeueEach(c, hs, timeout).0;
            && |d.msgs| == |c.msgs| && d.msgs[h].id == c.msgs[h].id
            && (d.msgs[h].processed <==> c.msgs[h].processed || (c.msgs[h].id, h) in c.ledger)
            && Finishes(d.sent, h) == Finishes(c.sent, h)
    decreases |hs|
  {
    if hs != [] {
      RequeueOldest(c, timeout);
      var c1 := AfterSettle(c, hs[0], Requeue(hs[0], timeout));
      SentAppend(c.sent, Requeue(hs[0], timeout), h);
      assert c.ledger == [c.ledger[0]] + c1.ledger;
      assert c.ledger[0] in c.ledger;
      assert hs[1..] == Values(c1.ledger);
      RequeueEachEffect(c1, hs[1..], timeout, h);
    }
  }

  lemma {:induction false} RequeueEachSize(c: Conn, hs: seq<nat>, timeout: int)
    requires forall i :: 0 <= i < |hs| ==> hs[i] < |c.msgs|
    ensures |RequeueEach(c, hs, timeout).0.msgs| == |c.msgs|
    decreases |hs|
  {
    if hs != [] {
      RequeueEachSize(RequeueHead(c, hs[0], timeout), hs[1..], timeout);
    }
  }

  /** What requeueing its ledger does to a connection as a whole. */
  lemma TrackedKeeps(c: Conn, timeout: int)
    requires ConnInv(c)
    ensures var (d, n) := RequeueTracked(c, timeout);
            && ConnInv(d) && |d.msgs| == |c.msgs| && n == c.credit.inFlight - d.credit.inFlight
            && (IsClosed(d) <==> IsClosed(c)) && (!IsClosed(c) ==> d.ledger == [])
  {
    LedgerHandles(c);
    if !IsClosed(c) {
      RequeueEachKeeps(c, Values(c.ledger), timeout);
      RequeueEachSize(c, Values(c.ledger), timeout);
    }
  }

  // ---------- Shutdown as a whole ----------

  /** An unprocessed message object is reached by the requeueing if it is queued, or if its
      connection tracks it and no queued message shares its id. */
  ghost predicate Reached(s: Consumer, x: Entry)
    requires QueueValid(s) && Exists(s, x)
  {
    var c := s.conns[x.id];
    x in s.queue || ((c.msgs[x.h].id, x.h) in c.ledger && !QueuedTwin(s, x.id, c.msgs[x.h].id))
  }

  ghost predicate AllOpen(s: Consumer)
  {
    forall id :: id in s.conns ==> !IsClosed(s.conns[id])
  }

  lemma OpenNeverRaises(s: Consumer, timeout: int)
    requires Valid(s) && AllOpen(s)
    ensures !RequeueQueued(s, timeout).raised
  {
    QueuedRaisesIff(s, timeout);
  }

  /** A connection after its queued messages, and then its tracked ones, were requeued. */
  ghost function Requeued(s: Consumer, timeout: int, id: ConnId): (c: Conn)
    requires Valid(s) && id in s.conns
    ensures ConnInv(c) && |c.msgs| == |s.conns[id].msgs| && (IsClosed(c) <==> IsClosed(s.conns[id]))
  {
    QueuedKeeps(s, timeout);
    QueuedSizes(s, timeout, id);
    TrackedKeeps(RequeueQueued(s, timeout).state.conns[id], timeout);
    RequeueTracked(RequeueQueued(s, timeout).state.conns[id], timeout).0
  }

  lemma AfterQueueAt(s: Consumer, n: nat, timeout: int, id: ConnId)
    requires id in s.conns
    ensures var t := AfterQueue(s, n, timeout).state;
            t.conns.Keys == s.conns.Keys
            && t.conns[id] == Closed(RequeueTracked(s.conns[id], timeout).0, Requested, true)
  {
  }

  lemma ShutDownUnfolds(s: Consumer, timeout: int, id: ConnId)
    requires Valid(s) && AllOpen(s) && id in s.conns
    ensures var r := ShutDown(s, true, timeout);
            && !r.raised && r.state.conns.Keys == s.conns.Keys
            && r.state.conns[id] == Closed(Requeued(s, timeout, id), Requested, true)
  {
    OpenNeverRaises(s, timeout);
    QueuedKeeps(s, timeout);
    var r := RequeueQueued(s, timeout);
    AfterQueueAt(r.state, r.requeued, timeout, id);
  }

  lemma RequeuedEffect(s: Consumer, timeout: int, x: Entry)
    requires Valid(s) && AllOpen(s) && Exists(s, x)
    ensures var (c, d) := (s.conns[x.id], Requeued(s, timeout, x.id));
            && (d.msgs[x.h].processed <==> c.msgs[x.h].processed || Reached(s, x))
            && Finishes(d.sent, x.h) == Finishes(c.sent, x.h)
  {
    OpenNeverRaises(s, timeout);
    QueuedKeeps(s, timeout);
    QueuedEffect(s, timeout, x, s.conns[x.id].msgs[x.h].id);
    var q := RequeueQueued(s, timeout).state.conns[x.id];
    LedgerHandles(q);
    RequeueEachEffect(q, Values(q.ledger), timeout, x.h);
  }

  /** With every connection open, shutdown leaves a message object processed exactly if it
      was, or if the requeueing reached it; it writes no FIN; and it keeps every invariant,
      so a REQ is written for exactly the messages it reached. */
  lemma ShutDownEffect(s: Consumer, timeout: int, x: Entry)
    requires Valid(s) && AllOpen(s) && Exists(s, x)
    ensures var t := ShutDown(s, true, timeout).state;
            && x.id in t.conns
            && var (c, d) := (s.conns[x.id], t.conns[x.id]);
               && |d.msgs| == |c.msgs| && ConnInv(d)
               && (d.msgs[x.h].processed <==> c.msgs[x.h].processed || Reached(s, x))
               && Finishes(d.sent, x.h) == Finishes(c.sent, x.h)
  {
    var c := Requeued(s, timeout, x.id);
    ShutDownUnfolds(s, timeout, x.id);
    RequeuedEffect(s, timeout, x);
    ClosedKeeps(c, Requested, true);
    SentAppend(c.sent, Cls, x.h);
  }

  /** Exactly when a graceful shutdown of open connections loses nothing: every unprocessed
      message is queued, or tracked without a queued message of the same id. */
  lemma ShutDownIsCompleteIff(s: Consumer, timeout: int)
    requires Valid(s) && AllOpen(s)
    ensures var t := ShutDown(s, true, timeout).state;
            (forall x :: Exists(s, x) ==> Exists(t, x) && Processed(t, x)) <==>
            (forall x :: Exists(s, x) && !Processed(s, x) ==> Reached(s, x))
  {
    forall x | Exists(s, x)
      ensures var t := ShutDown(s, true, timeout).state;
              Exists(t, x) && (Processed(t, x) <==> Processed(s, x) || Reached(s, x))
    {
      ShutDownEffect(s, timeout, x);
    }
  }

  ghost predicate AllTracked(s: Consumer)
  {
    forall id :: id in s.conns ==> LedgerComplete(s.conns[id])
  }

  lemma TrackedIsReached(s: Consumer, x: Entry)
    requires Valid(s) && AllTracked(s) && Exists(s, x) && !Processed(s, x)
    ensures Reached(s, x)
  {
    var c := s.conns[x.id];
    var k := c.msgs[x.h].id;
    if QueuedTwin(s, x.id, k) {
      var e :| e in s.queue && e.id == x.id && c.msgs[e.h] == Msg(k, false);
      SameKey(c.ledger, k, e.h, x.h);
    }
  }

  /** Graceful shutdown is exact: with the connections open and distinct live ids, one REQ
      is written for each delivered message that was not processed, none for the others,
      and no FIN; every message ends processed. */
  lemma ShutDownIsExact(s: Consumer, timeout: int, x: Entry)
    requires Valid(s) && AllOpen(s) && AllTracked(s) && Exists(s, x)
    ensures var t := ShutDown(s, true, timeout).state;
            && Exists(t, x) && Processed(t, x)
            && var (before, after) := (s.conns[x.id].sent, t.conns[x.id].sent);
               && Requeues(after, x.h) == Requeues(before, x.h) + (if Processed(s, x) then 0 else 1)
               && Finishes(after, x.h) == Finishes(before, x.h)
  {
    ShutDownEffect(s, timeout, x);
    if !Processed(s, x) { TrackedIsReached(s, x); }
  }

  /** Nothing is in flight on a connection whose tracked messages were requeued. */
  lemma NothingInFlight(s: Consumer, timeout: int, id: ConnId)
    requires Valid(s) && AllOpen(s) && AllTracked(s) && id in s.conns
    ensures Requeued(s, timeout, id).credit.inFlight == 0
  {
    var c := Requeued(s, timeout, id);
    forall h: nat | h < |c.msgs|
      ensures c.msgs[h].processed
    {
      var x := Entry(id, h);
      RequeuedEffect(s, timeout, x);
      if !Processed(s, x) { TrackedIsReached(s, x); }
    }
    LiveZero(c.msgs);
  }

  lemma TrackedSum(s: Consumer, timeout: int)
    requires Valid(s) && AllOpen(s) && AllTracked(s)
    ensures var q := RequeueQueued(s, timeout).state;
            && Valid(q) && q.conns.Keys == s.conns.Keys
            && Sum(s.conns.Keys, TrackedCounts(q, timeout)) == Sum(s.conns.Keys, InFlights(q))
  {
    var q := RequeueQueued(s, timeout).state;
    QueuedKeeps(s, timeout);
    forall id | id in s.conns
      ensures TrackedCounts(q, timeout)[id] == InFlights(q)[id]
    {
      NothingInFlight(s, timeout, id);
      TrackedKeeps(q.conns[id], timeout);
    }
    SumSame(s.conns.Keys, TrackedCounts(q, timeout), InFlights(q));
  }

  /** The number that graceful shutdown answers is the number of messages that were in
      flight; the queue and every ledger end empty, and every connection closed. */
  lemma ShutDownCount(s: Consumer, timeout: int)
    requires Valid(s) && AllOpen(s) && AllTracked(s)
    ensures var r := ShutDown(s, true, timeout);
            && !r.raised && r.requeued == Sum(s.conns.Keys, InFlights(s)) && r.state.queue == []
  {
    OpenNeverRaises(s, timeout);
    TrackedSum(s, timeout);
    QueuedCount(s, timeout);
    QueuedEmpties(s, timeout);
  }

  lemma ShutDownCloses(s: Consumer, timeout: int, id: ConnId)
    requires Valid(s) && AllOpen(s) && id in s.conns
    ensures var t := ShutDown(s, true, timeout).state;
            id in t.conns && t.conns[id].closed && t.conns[id].ledger == [] && t.conns[id].waiters == []
  {
    ShutDownUnfolds(s, timeout, id);
    ClosedKeeps(Requeued(s, timeout, id), Requested, true);
  }

  lemma {:induction false} QueuedEmpties(s: Consumer, timeout: int)
    requires QueueValid(s) && !RequeueQueued(s, timeout).raised
    ensures RequeueQueued(s, timeout).state.queue == []
    decreases |s.queue|
  {
    if s.queue != [] {
      ServeFirstValid(s, timeout);
      match SettleResult(s.conns[First(s).id], First(s).h)
      case RuntimeWarning => QueuedEmpties(s.(queue := s.queue[1..]), timeout);
      case Ok => QueuedEmpties(ServeFirst(s, timeout), timeout);
      case _ =>
    }
  }

  // ---------- `graceful_close`, after any life of the client ----------

  lemma StopConnKeeps(c: Conn)
    requires ConnInv(c)
    ensures var d := AfterReady(c, 0);
            ConnInv(d) && (IsClosed(d) <==> IsClosed(c)) && (LedgerComplete(d) <==> LedgerComplete(c))
  {
    ReadyKeeps(c, 0);
  }

  /** RDY 0 changes nothing that requeueing looks at. */
  lemma StopKeeps(s: Consumer)
    requires Valid(s)
    ensures Valid(StopAll(s)) && StopAll(s).conns.Keys == s.conns.Keys
    ensures AllOpen(s) ==> AllOpen(StopAll(s))
    ensures AllTracked(s) ==> AllTracked(StopAll(s))
  {
    StopIsValid(s);
    StopOpenTracked(s);
  }

  lemma StopKeepsQueue(s: Consumer)
    requires QueueValid(s)
    ensures QueueValid(StopAll(s))
  {
    forall e | e in s.queue
      ensures Exists(StopAll(s), e)
    {
      assert Exists(s, e);
    }
  }

  lemma StopIsValid(s: Consumer)
    requires Valid(s)
    ensures Valid(StopAll(s))
  {
    var t := StopAll(s);
    forall id | id in t.conns
      ensures ConnInv(t.conns[id])
    {
      StopConnKeeps(s.conns[id]);
      assert t.conns[id] == AfterReady(s.conns[id], 0);
    }
    StopKeepsQueue(s);
  }

  lemma StopOpenTracked(s: Consumer)
    requires Valid(s)
    ensures AllOpen(s) ==> AllOpen(StopAll(s))
    ensures AllTracked(s) ==> AllTracked(StopAll(s))
  {
    forall id | id in s.conns
      ensures IsClosed(StopAll(s).conns[id]) <==> IsClosed(s.conns[id])
      ensures LedgerComplete(StopAll(s).conns[id]) <==> LedgerComplete(s.conns[id])
    {
      StopConnKeeps(s.conns[id]);
    }
  }

  lemma StopWrites(s: Consumer, x: Entry)
    requires Exists(s, x)
    ensures var (c, d) := (s.conns[x.id], StopAll(s).conns[x.id]);
            && d.msgs == c.msgs && Requeues(d.sent, x.h) == Requeues(c.sent, x.h)
            && Finishes(d.sent, x.h) == Finishes(c.sent, x.h)
  {
    SentAppend(s.conns[x.id].sent, Ready(0), x.h);
  }

  /** Each connection has lived through some run with distinct live ids, and is open. */
  ghost predicate HasLived(s: Consumer, lives: map<ConnId, (int, seq<Event>)>)
  {
    forall id :: id in s.conns ==>
      && id in lives && s.conns[id] == Run(NewConn(lives[id].0), lives[id].1)
      && FreshIds(NewConn(lives[id].0), lives[id].1) && !IsClosed(s.conns[id])
  }

  lemma LivedIsValid(s: Consumer, lives: map<ConnId, (int, seq<Event>)>)
    requires QueueValid(s) && HasLived(s, lives)
    ensures Valid(s) && AllOpen(s) && AllTracked(s)
  {
    forall id | id in s.conns
      ensures ConnInv(s.conns[id]) && LedgerComplete(s.conns[id])
    {
      NewKeeps(lives[id].0);
      RunKeeps(NewConn(lives[id].0), lives[id].1);
      RunStaysComplete(NewConn(lives[id].0), lives[id].1);
    }
  }

  /** The messages that were delivered and not processed. */
  ghost function Unfinished(s: Consumer): map<ConnId, int>
  {
    map id | id in s.conns :: Live(s.conns[id].msgs)
  }

  lemma UnfinishedInFlight(s: Consumer)
    requires Valid(s)
    ensures StopAll(s).conns.Keys == s.conns.Keys
    ensures Sum(s.conns.Keys, InFlights(StopAll(s))) == Sum(s.conns.Keys, Unfinished(s))
  {
    forall id | id in s.conns
      ensures InFlights(StopAll(s))[id] == Unfinished(s)[id]
    {
      assert ConnInv(s.conns[id]);
    }
    SumSame(s.conns.Keys, InFlights(StopAll(s)), Unfinished(s));
  }

  /** Whatever the connections lived through, with distinct live ids and all of them open
      `graceful_close` answers the number of unfinished messages and leaves the queue empty. */
  lemma GracefulCloseCounts(s: Consumer, lives: map<ConnId, (int, seq<Event>)>, timeout: int)
    requires QueueValid(s) && HasLived(s, lives)
    ensures QueueValid(StopAll(s))
    ensures var r := ShutDown(StopAll(s), true, timeout);
            !r.raised && r.requeued == Sum(s.conns.Keys, Unfinished(s)) && r.state.queue == []
  {
    LivedIsValid(s, lives);
    StopKeeps(s);
    ShutDownCount(StopAll(s), timeout);
    UnfinishedInFlight(s);
  }

  /** And it writes one REQ for each unfinished message, whether it was queued or in the
      hands of user code, none for any other, and no FIN. */
  lemma GracefulCloseRequeuesOnce(s: Consumer, lives: map<ConnId, (int, seq<Event>)>, timeout: int, x: Entry)
    requires QueueValid(s) && HasLived(s, lives) && Exists(s, x)
    ensures QueueValid(StopAll(s))
    ensures var t := ShutDown(StopAll(s), true, timeout).state;
            && Exists(t, x) && Processed(t, x)
            && var (c, d) := (s.conns[x.id], t.conns[x.id]);
               && Requeues(d.sent, x.h) == Requeues(c.sent, x.h) + (if Processed(s, x) then 0 else 1)
               && Finishes(d.sent, x.h) == Finishes(c.sent, x.h)
               && d.closed && d.ledger == [] && d.waiters == []
  {
    LivedIsValid(s, lives);
    StopKeeps(s);
    StopWrites(s, x);
    ShutDownIsExact(StopAll(s), timeout, x);
    ShutDownCloses(StopAll(s), timeout, x.id);
  }
}
