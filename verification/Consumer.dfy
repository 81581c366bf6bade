/** The consumer: `Reader` of asyncnsq/tcp/reader.py over its connection objects. Its
    shutdown is proved against `Shutdown`, its handling of messages against
    `ConnectionState`. */
module Consumer {
  import opened Prelude
  import opened SetSum
  import RdyControl
  import opened ConnectionState
  import opened ReadLoop
  import opened Connection
  import opened Shutdown

  lemma SameConn(s: Shutdown.Consumer, id: ConnId)
    requires id in s.conns
    ensures WithConn(s, id, s.conns[id]) == s
  {
    assert s.conns[id := s.conns[id]] == s.conns;
  }

  /** What is left of `RequeueQueued` when `n` messages have been requeued. */
  ghost predicate Continues(whole: Outcome, s: Shutdown.Consumer, n: nat, timeout: int)
  {
    QueueValid(s) && var r := RequeueQueued(s, timeout); whole == r.(requeued := n + r.requeued)
  }

  lemma OneTurn(whole: Outcome, s: Shutdown.Consumer, n: nat, timeout: int)
    requires Continues(whole, s, n, timeout) && s.queue != []
    ensures match SettleResult(s.conns[First(s).id], First(s).h)
            case Ok => Continues(whole, ServeFirst(s, timeout), n + 1, timeout)
            case RuntimeWarning => Continues(whole, s.(queue := s.queue[1..]), n, timeout)
            case _ => whole == Outcome(s.(queue := s.queue[1..]), n, true)
  {
    ServeFirstValid(s, timeout);
  }

  /** What a shutdown does to the connections one after the other. */
  datatype Visit = Stop | RequeueIts(timeout: int) | CloseIt

  ghost function Visited(c: Conn, v: Visit): Conn
  {
    match v
    case Stop => AfterReady(c, 0)
    case RequeueIts(timeout) => RequeueTracked(c, timeout).0
    case CloseIt => Closed(c, Requested, true)
  }

  /** All connections but those of `rest` have been visited. */
  ghost function Unvisited(s: Shutdown.Consumer, rest: set<ConnId>, v: Visit): Shutdown.Consumer
  {
    s.(conns := map id | id in s.conns :: if id in rest then s.conns[id] else Visited(s.conns[id], v))
  }

  lemma VisitNone(s: Shutdown.Consumer, rest: set<ConnId>, v: Visit)
    requires rest == s.conns.Keys
    ensures Unvisited(s, rest, v) == s
  {
    assert Unvisited(s, rest, v).conns == s.conns;
  }

  lemma VisitNext(s: Shutdown.Consumer, rest: set<ConnId>, id: ConnId, v: Visit)
    requires id in s.conns && id in rest
    ensures Unvisited(s, rest, v).conns[id] == s.conns[id]
    ensures WithConn(Unvisited(s, rest, v), id, Visited(s.conns[id], v)) == Unvisited(s, rest - {id}, v)
  {
    assert WithConn(Unvisited(s, rest, v), id, Visited(s.conns[id], v)).conns == Unvisited(s, rest - {id}, v).conns;
  }

  lemma VisitAll(s: Shutdown.Consumer, v: Visit)
    ensures Unvisited(s, {}, v) == match v
                                   case Stop => StopAll(s)
                                   case RequeueIts(timeout) => RequeueAllTracked(s, timeout)
                                   case CloseIt => CloseAll(s)
  {
    forall id | id in s.conns
      ensures Unvisited(s, {}, v).conns[id] == Visited(s.conns[id], v)
    {
    }
    match v
    case Stop => assert Unvisited(s, {}, v).conns == StopAll(s).conns;
    case RequeueIts(timeout) => assert Unvisited(s, {}, v).conns == RequeueAllTracked(s, timeout).conns;
    case CloseIt => assert Unvisited(s, {}, v).conns == CloseAll(s).conns;
  }

  /** How many messages the visited connections have requeued. */
  ghost function Counted(s: Shutdown.Consumer, rest: set<ConnId>, timeout: int): int
  {
    Sum(s.conns.Keys - rest, TrackedCounts(s, timeout))
  }

  lemma CountEnds(s: Shutdown.Consumer, timeout: int)
    ensures Counted(s, s.conns.Keys, timeout) == 0
    ensures Counted(s, {}, timeout) == Sum(s.conns.Keys, TrackedCounts(s, timeout))
  {
    assert s.conns.Keys - {} == s.conns.Keys;
  }

  lemma CountNext(s: Shutdown.Consumer, rest: set<ConnId>, id: ConnId, timeout: int)
    requires id in s.conns && id in rest
    ensures Counted(s, rest - {id}, timeout) == Counted(s, rest, timeout) + RequeueTracked(s.conns[id], timeout).1
  {
    SumRemove(s.conns.Keys - (rest - {id}), TrackedCounts(s, timeout), id);
    assert s.conns.Keys - (rest - {id}) - {id} == s.conns.Keys - rest;
  }

  lemma ShutDownSplits(s: Shutdown.Consumer, timeout: int)
    requires QueueValid(s)
    ensures var r := RequeueQueued(s, timeout);
            if r.raised then ShutDown(s, true, timeout) == r
            else
              && Counted(r.state, {}, timeout) >= 0
              && ShutDown(s, true, timeout) == Outcome(CloseAll(RequeueAllTracked(r.state, timeout)),
                                                       r.requeued + Counted(r.state, {}, timeout), false)
  {
    var q := RequeueQueued(s, timeout).state;
    CountEnds(q, timeout);
    SumNonNegative(q.conns.Keys, TrackedCounts(q, timeout));
  }

  /** The connections are visited in whatever order. */
  method AnyOf(ids: set<ConnId>) returns (id: ConnId)
    requires ids != {}
    ensures id in ids
  {
    HasElement(ids);
    id :| id in ids;
  }

  class Reader {
    const queue: MessageQueue
    const control: RdyControl.RdyControl
    var connections: map<ConnId, TcpConnection>
    var isSubscribe: bool
    var cleanClosed: bool
    var handlerAutoFin: bool
    var handlerAutoRequeue: bool

    ghost function Trackers(): set<MessageTracker>
      reads this
    {
      set id | id in connections :: connections[id].tracker
    }

    /** Every message object of the connections. */
    ghost function Messages(): set<NsqMessage>
      reads this, connections.Values
    {
      set id, m | id in connections && m in connections[id].msgs :: m
    }

    ghost function MessagesOf(id: ConnId): set<NsqMessage>
      requires id in connections
      reads this, connections.Values
    {
      set m | m in connections[id].msgs
    }

    /** No connection and no message object came or went. */
    twostate predicate SameObjects()
      reads this, connections.Values
    {
      connections == old(connections) &&
      forall id :: id in connections ==>
        old(allocated(connections[id])) && connections[id].msgs == old(connections[id].msgs)
    }

    ghost predicate Valid()
      reads *
    {
      ConnsValid() && Scheduled() && TrackersApart() && forall i :: 0 <= i < |queue.items| ==> Known(queue.items[i])
    }

    ghost predicate ConnsValid()
      reads *
    {
      forall id :: id in connections ==>
        var c := connections[id];
        c.Valid() && c.id == id && c.queue == queue && c.wake == control.wake && c.managed
    }

    /** The scheduler works on the same connections. */
    ghost predicate Scheduled()
      reads this, control
    {
      control.connections == connections
    }

    ghost predicate TrackersApart()
      reads this
    {
      forall x, y :: x in connections && y in connections && x != y ==> connections[x].tracker != connections[y].tracker
    }

    /** A message of one of the consumer's connections. */
    ghost predicate Known(m: NsqMessage)
      reads this, connections.Values
    {
      m.conn.id in connections && connections[m.conn.id] == m.conn && m.Owned()
    }

    ghost function EntryOf(m: NsqMessage): Entry
    {
      Entry(m.conn.id, m.handle)
    }

    ghost function Entries(ms: seq<NsqMessage>): (es: seq<Entry>)
      ensures |es| == |ms|
    {
      seq(|ms|, i requires 0 <= i < |ms| => EntryOf(ms[i]))
    }

    ghost function Abs(): Shutdown.Consumer
      reads *
    {
      Shutdown.Consumer(map id | id in connections :: connections[id].Abs(), Entries(queue.items))
    }

    /** The scheduler was notified if the connection has settled something. */
    twostate predicate Signalled(id: ConnId, settled: bool)
      reads *
    {
      id in connections &&
      control.wake.Abs() == NotifiedIf(settled, old(control.wake.Abs()), id, true, connections[id].Abs())
    }

    constructor (maxInFlight: int, queue: MessageQueue, control: RdyControl.RdyControl)
      requires queue.items == [] && control.maxInFlight == maxInFlight && control.connections == map[]
      ensures Valid() && this.queue == queue && this.control == control && connections == map[]
      ensures handlerAutoFin && handlerAutoRequeue && !isSubscribe && !cleanClosed
    {
      this.queue, this.control, this.connections := queue, control, map[];
      isSubscribe, cleanClosed, handlerAutoFin, handlerAutoRequeue := false, false, true, true;
    }

    lemma AbsQueueValid()
      requires Valid()
      ensures QueueValid(Abs())
    {
      forall e | e in Abs().queue
        ensures Exists(Abs(), e)
      {
        var i :| 0 <= i < |queue.items| && Entries(queue.items)[i] == e;
        assert Known(queue.items[i]);
      }
    }

    twostate predicate Untouched(c: TcpConnection)
      reads c, c.tracker, c.parser, c.msgs
    {
      && unchanged(c) && unchanged(c.tracker) && unchanged(c.parser)
      && forall i :: 0 <= i < |c.msgs| ==> old(allocated(c.msgs[i])) && unchanged(c.msgs[i])
    }

    twostate lemma UntouchedStays(c: TcpConnection)
      requires Untouched(c) && old(c.Valid())
      ensures c.Valid() && c.Abs() == old(c.Abs())
    {
      assert MsgsOf(c.msgs) == old(MsgsOf(c.msgs));
    }

    /** One connection has changed, and no other. */
    twostate lemma OneChanged(id: ConnId)
      requires old(Valid()) && connections == old(connections) && id in connections
      requires connections[id].Valid() && connections[id].msgs == old(connections[id].msgs)
      requires connections[id].managed && control.connections == connections
      requires forall x :: x in connections && x != id ==> Untouched(connections[x])
      requires forall m :: m in queue.items ==> m in old(queue.items)
      ensures Valid() && Abs().conns == old(Abs()).conns[id := connections[id].Abs()]
    {
      OthersUntouched(id);
      forall i | 0 <= i < |queue.items|
        ensures Known(queue.items[i])
      {
        assert queue.items[i] in old(queue.items);
      }
    }

    /** No connection has changed, and the queue is the same. */
    twostate lemma NoneChanged()
      requires old(Valid()) && connections == old(connections) && queue.items == old(queue.items)
      requires control.connections == connections
      requires forall x :: x in connections ==> Untouched(connections[x]) && connections[x].managed
      ensures Valid() && SameObjects() && Abs() == old(Abs())
    {
      forall x | x in connections
        ensures connections[x].Valid() && connections[x].Abs() == old(connections[x].Abs())
      {
        UntouchedStays(connections[x]);
      }
      forall i | 0 <= i < |queue.items|
        ensures Known(queue.items[i])
      {
        assert old(Known(queue.items[i]));
      }
      assert Abs().conns == old(Abs()).conns;
    }

    // ---------- Connections ----------

    /** Nothing queued and nothing gathered belongs to the connection of this id. */
    ghost predicate Replaceable(id: ConnId)
      reads queue, control
    {
      && (forall i :: 0 <= i < |queue.items| ==> queue.items[i].conn.id != id)
      && (forall k :: 0 <= k < |control.jobs| ==> control.jobs[k].id != id)
    }

    /** A connection that was just created joins (`connect`, `_poll_lookupd`). An address that
        is listed twice replaces its first connection. */
    method Connect(conn: TcpConnection)
      requires Valid() && conn.Valid() && conn.queue == queue && conn.wake == control.wake
      requires forall id :: id in connections ==> connections[id].tracker != conn.tracker
      requires conn.id in connections ==> Replaceable(conn.id)
      modifies this`connections, control`connections, conn`managed
      ensures Valid() && connections == old(connections)[conn.id := conn] && queue.items == old(queue.items)
      ensures Abs().conns == old(Abs()).conns[conn.id := conn.Abs()] && conn.Abs() == old(conn.Abs())
    {
      ControlValid();
      connections := connections[conn.id := conn];
      Register(conn);
      HasJoined(conn);
    }

    method Register(conn: TcpConnection)
      requires control.Valid() && conn.wake == control.wake
      requires conn.id in control.connections ==> Replaceable(conn.id)
      modifies control`connections, conn`managed
      ensures control.connections == old(control.connections)[conn.id := conn]
      ensures conn.managed && conn.Abs() == old(conn.Abs())
    {
      control.AddConnection(conn);
    }

    lemma ControlValid()
      requires ConnsValid() && Scheduled()
      ensures control.Valid()
    {
    }

    twostate lemma HasJoined(conn: TcpConnection)
      requires old(Valid()) && conn.Valid() && Scheduled()
      requires conn.id in old(connections) ==> old(Replaceable(conn.id))
      requires conn.queue == queue && conn.wake == control.wake && conn.managed
      requires forall id :: id in old(connections) ==> old(connections[id]).tracker != conn.tracker
      requires connections == old(connections)[conn.id := conn] && queue.items == old(queue.items)
      requires forall x :: x in old(connections) && x != conn.id ==> Untouched(old(connections[x]))
      ensures Valid() && Abs().conns == old(Abs()).conns[conn.id := conn.Abs()]
    {
      OthersStay(conn);
      StillApart(conn);
      QueueStaysKnown(conn);
      ConnsWith(conn);
    }

    twostate lemma StillApart(conn: TcpConnection)
      requires old(TrackersApart()) && connections == old(connections)[conn.id := conn]
      requires forall id :: id in old(connections) ==> old(connections[id]).tracker != conn.tracker
      ensures TrackersApart()
    {
    }

    twostate lemma QueueStaysKnown(conn: TcpConnection)
      requires forall i :: 0 <= i < |old(queue.items)| ==> old(Known(queue.items[i]))
      requires conn.id in old(connections) ==> old(Replaceable(conn.id))
      requires connections == old(connections)[conn.id := conn] && queue.items == old(queue.items)
      requires forall x :: x in old(connections) && x != conn.id ==> Untouched(old(connections[x]))
      ensures forall i :: 0 <= i < |queue.items| ==> Known(queue.items[i])
    {
      forall i | 0 <= i < |queue.items|
        ensures Known(queue.items[i])
      {
        assert old(Known(queue.items[i]));
      }
    }

    twostate lemma ConnsWith(conn: TcpConnection)
      requires connections == old(connections)[conn.id := conn]
      requires forall x :: x in old(connections) && x != conn.id ==> connections[x].Abs() == old(connections[x].Abs())
      ensures Abs().conns == old(Abs()).conns[conn.id := conn.Abs()]
    {
      assert Abs().conns.Keys == old(Abs()).conns[conn.id := conn.Abs()].Keys;
    }

    twostate lemma OthersStay(conn: TcpConnection)
      requires old(ConnsValid()) && conn.Valid()
      requires conn.queue == queue && conn.wake == control.wake && conn.managed
      requires connections == old(connections)[conn.id := conn]
      requires forall x :: x in old(connections) && x != conn.id ==> Untouched(old(connections[x]))
      ensures ConnsValid()
      ensures forall x :: x in old(connections) && x != conn.id ==> connections[x].Abs() == old(connections[x].Abs())
    {
      forall x | x in old(connections) && x != conn.id
        ensures connections[x].Valid() && connections[x].Abs() == old(connections[x].Abs())
      {
        UntouchedStays(connections[x]);
      }
    }

    /** A chunk arrives on one of the connections, each of which has a parser of its own. The
        new messages are queued in order of arrival, behind those of every connection. */
    method Read(id: ConnId, data: bytes)
      requires Valid() && id in connections
      requires forall x :: x in connections && x != id ==> connections[x].parser != connections[id].parser
      modifies connections[id], connections[id].tracker, connections[id].parser, queue
      ensures Valid() && connections == old(connections)
      ensures var (c, view) := (old(Abs()).conns[id], old(connections[id].parser.View()));
              Abs().conns == old(Abs()).conns[id := Drained(Dispatch, c, view + data)]
      ensures old(|connections[id].msgs|) <= |connections[id].msgs|
      ensures Abs().queue == old(Abs()).queue + NewEntries(connections[id], old(|connections[id].msgs|))
    {
      ghost var c := connections[id].Abs();
      connections[id].ReadChunk(data);
      OneRead(id);
      assert old(Abs()).conns[id] == c;
    }

    /** The entries of the messages from number `k` on, unless a handler took them directly. */
    ghost function NewEntries(c: TcpConnection, k: nat): seq<Entry>
      requires k <= |c.msgs|
      reads c
    {
      if c.direct then [] else Entries(c.msgs[k..])
    }

    twostate lemma OneRead(id: ConnId)
      requires old(Valid()) && connections == old(connections) && id in connections && connections[id].Valid()
      requires connections[id].managed && control.connections == connections
      requires connections[id].Extended(old(connections[id].msgs), old(queue.items))
      requires forall x :: x in connections && x != id ==> Untouched(connections[x])
      ensures Valid() && Abs().conns == old(Abs()).conns[id := connections[id].Abs()]
      ensures |old(connections[id].msgs)| <= |connections[id].msgs|
      ensures Abs().queue == old(Abs()).queue + NewEntries(connections[id], old(|connections[id].msgs|))
    {
      OthersUntouched(id);
      QueueGrown(id);
    }

    twostate lemma OthersUntouched(id: ConnId)
      requires old(ConnsValid()) && connections == old(connections) && id in connections && connections[id].Valid()
      requires connections[id].managed
      requires forall x :: x in connections && x != id ==> Untouched(connections[x])
      ensures ConnsValid() && Abs().conns == old(Abs()).conns[id := connections[id].Abs()]
    {
      forall x | x in connections && x != id
        ensures connections[x].Valid() && connections[x].Abs() == old(connections[x].Abs())
      {
        UntouchedStays(connections[x]);
      }
    }

    twostate lemma QueueGrown(id: ConnId)
      requires old(Valid()) && ConnsValid() && connections == old(connections) && id in connections
      requires connections[id].Extended(old(connections[id].msgs), old(queue.items))
      requires forall x :: x in connections && x != id ==> Untouched(connections[x])
      ensures |old(connections[id].msgs)| <= |connections[id].msgs|
      ensures forall i :: 0 <= i < |queue.items| ==> Known(queue.items[i])
      ensures Entries(queue.items) ==
              Entries(old(queue.items)) + NewEntries(connections[id], old(|connections[id].msgs|))
    {
      forall i | 0 <= i < |queue.items|
        ensures Known(queue.items[i])
      {
        if i < |old(queue.items)| { assert old(Known(queue.items[i])); }
      }
    }

    // ---------- Handlers ----------

    /** `_finish_handled_message`. */
    method FinishHandledMessage(m: NsqMessage) returns (r: CallResult)
      requires m.conn.Valid() && m.Owned()
      modifies m`processed, m.conn`sent, m.conn`inFlight, m.conn`rdyCount, m.conn.tracker
      modifies m.conn.wake`queue, m.conn.wake`pending
      ensures m.conn.Valid() && m.Owned()
      ensures m.conn.Abs() == if handlerAutoFin then AfterSettle(old(m.conn.Abs()), m.handle, Finish(m.handle))
                              else old(m.conn.Abs())
      ensures r == if handlerAutoFin && !old(m.processed) then SettleResult(old(m.conn.Abs()), m.handle) else Ok
      ensures m.conn.wake.Abs() == NotifiedIf(handlerAutoFin && SettleResult(old(m.conn.Abs()), m.handle) == Ok,
                                              old(m.conn.wake.Abs()), m.conn.id, m.conn.managed, m.conn.Abs())
    {
      r := Ok;
      if handlerAutoFin && !m.processed {
        r := m.Fin();
      }
    }

    /** `_requeue_failed_handler_message`. */
    method RequeueFailedHandlerMessage(m: NsqMessage)
      requires m.conn.Valid() && m.Owned()
      modifies m`processed, m.conn`sent, m.conn`inFlight, m.conn`rdyCount, m.conn.tracker
      modifies m.conn.wake`queue, m.conn.wake`pending
      ensures m.conn.Valid() && m.Owned()
      ensures m.conn.Abs() == AfterFailedHandler(old(m.conn.Abs()), m.handle, handlerAutoRequeue)
      ensures m.conn.wake.Abs() == NotifiedIf(handlerAutoRequeue && SettleResult(old(m.conn.Abs()), m.handle) == Ok,
                                              old(m.conn.wake.Abs()), m.conn.id, m.conn.managed, m.conn.Abs())
    {
      if handlerAutoRequeue && !m.processed {
        var r := m.Req(0);
      }
    }

    /** `_handle_message_async` once the user's handler has returned, or raised. */
    method HandleMessage(m: NsqMessage, failed: bool)
      requires m.conn.Valid() && m.Owned()
      modifies m`processed, m.conn`sent, m.conn`inFlight, m.conn`rdyCount, m.conn.tracker
      modifies m.conn.wake`queue, m.conn.wake`pending
      ensures m.conn.Valid() && m.Owned()
      ensures m.conn.Abs() == AfterHandler(old(m.conn.Abs()), m.handle, failed, handlerAutoFin, handlerAutoRequeue)
      ensures m.conn.wake.Abs() ==
              NotifiedIf(HandlerSettles(old(m.conn.Abs()), m.handle, failed, handlerAutoFin, handlerAutoRequeue),
                         old(m.conn.wake.Abs()), m.conn.id, m.conn.managed, m.conn.Abs())
    {
      if failed {
        RequeueFailedHandlerMessage(m);
      } else {
        var r := FinishHandledMessage(m);
        if r != Ok {
          RequeueFailedHandlerMessage(m);
        }
      }
    }

    /** A handler is done with a message of this consumer. */
    method Handle(m: NsqMessage, failed: bool)
      requires Valid() && Known(m)
      modifies m, m.conn, m.conn.tracker, control.wake`queue, control.wake`pending
      ensures Valid() && SameObjects()
      ensures var c := old(Abs()).conns[m.conn.id];
              && m.handle < |c.msgs|
              && Abs() == WithConn(old(Abs()), m.conn.id,
                                   AfterHandler(c, m.handle, failed, handlerAutoFin, handlerAutoRequeue))
              && Signalled(m.conn.id, HandlerSettles(c, m.handle, failed, handlerAutoFin, handlerAutoRequeue))
    {
      HandleMessage(m, failed);
      OneChanged(m.conn.id);
    }

    /** User code finishes a message of this consumer. */
    method FinishMessage(m: NsqMessage) returns (r: CallResult)
      requires Valid() && Known(m)
      modifies m, m.conn, m.conn.tracker, control.wake`queue, control.wake`pending
      ensures Valid() && SameObjects()
      ensures var c := old(Abs()).conns[m.conn.id];
              && m.handle < |c.msgs| && r == SettleResult(c, m.handle)
              && Abs() == WithConn(old(Abs()), m.conn.id, AfterSettle(c, m.handle, Finish(m.handle)))
      ensures Signalled(m.conn.id, r == Ok)
    {
      r := m.Fin();
      OneChanged(m.conn.id);
    }

    // ---------- Shutdown ----------

    method StopOne(id: ConnId)
      requires Valid() && id in connections
      modifies connections.Values, control.wake`queue, control.wake`pending
      ensures Valid() && SameObjects() && queue.items == old(queue.items)
      ensures Abs() == WithConn(old(Abs()), id, AfterReady(old(Abs()).conns[id], 0))
      ensures control.wake.Abs() == old(control.wake.Abs())
    {
      var r := connections[id].StopReceiving();
      OneChanged(id);
    }

    method RequeueOne(id: ConnId, timeout: int) returns (requeued: nat)
      requires Valid() && id in connections
      modifies connections[id], MessagesOf(id), connections[id].tracker, control.wake`queue, control.wake`pending
      ensures Valid() && SameObjects() && queue.items == old(queue.items)
      ensures var (c, n) := RequeueTracked(old(Abs()).conns[id], timeout);
              Abs() == WithConn(old(Abs()), id, c) && requeued == n
      ensures Signalled(id, requeued > 0)
    {
      requeued := connections[id].RequeueInFlight(timeout);
      OneChanged(id);
    }

    method CloseOne(id: ConnId)
      requires Valid() && id in connections
      modifies connections[id], connections[id].tracker
      ensures Valid() && SameObjects() && queue.items == old(queue.items)
      ensures Abs() == WithConn(old(Abs()), id, Closed(old(Abs()).conns[id], Requested, true))
    {
      connections[id].Close();
      OneChanged(id);
    }

    /** The head of the queue. */
    lemma HeadOfQueue()
      requires Valid() && queue.items != []
      ensures QueueValid(Abs()) && Known(queue.items[0]) && EntryOf(queue.items[0]) == First(Abs())
    {
      AbsQueueValid();
      assert Known(queue.items[0]) && Entries(queue.items)[0] == EntryOf(queue.items[0]);
    }

    lemma EntriesAfter(m: NsqMessage, rest: seq<NsqMessage>)
      ensures Entries([m] + rest)[1..] == Entries(rest)
    {
    }

    /** Take the next message from the queue. */
    method TakeNext() returns (m: NsqMessage)
      requires Valid() && queue.items != []
      modifies queue
      ensures Valid() && SameObjects() && Known(m)
      ensures QueueValid(old(Abs())) && EntryOf(m) == First(old(Abs()))
      ensures Abs() == old(Abs()).(queue := old(Abs()).queue[1..])
    {
      HeadOfQueue();
      ghost var items := queue.items;
      m := queue.Get();
      EntriesAfter(m, queue.items);
      assert forall i :: 0 <= i < |queue.items| ==> queue.items[i] == items[i + 1];
    }

    lemma OwnObjects(m: NsqMessage)
      requires Known(m)
      ensures m in Messages() && m.conn in connections.Values && m.conn.tracker in Trackers()
    {
      assert m in connections[m.conn.id].msgs;
    }

    lemma OwnMessages(id: ConnId)
      requires id in connections
      ensures MessagesOf(id) <= Messages()
      ensures connections[id] in connections.Values && connections[id].tracker in Trackers()
    {
    }

    twostate lemma SameFrame()
      requires SameObjects()
      ensures Trackers() == old(Trackers()) && Messages() == old(Messages())
    {
    }

    /** `req` on a message of this consumer. */
    method RequeueMessage(m: NsqMessage, timeout: int) returns (r: CallResult)
      requires Valid() && Known(m)
      modifies m, m.conn, m.conn.tracker, control.wake`queue, control.wake`pending
      ensures Valid() && SameObjects()
      ensures var c := old(Abs()).conns[m.conn.id];
              && m.handle < |c.msgs| && r == SettleResult(c, m.handle)
              && Abs() == WithConn(old(Abs()), m.conn.id, AfterSettle(c, m.handle, Requeue(m.handle, timeout)))
      ensures Signalled(m.conn.id, r == Ok)
    {
      r := m.Req(timeout);
      OneChanged(m.conn.id);
    }

    /** One turn of `requeue_queued_messages`. */
    method ServeNext(timeout: int) returns (r: CallResult)
      requires Valid() && queue.items != []
      modifies queue, connections.Values, Trackers(), Messages(), control.wake`queue, control.wake`pending
      ensures Valid() && SameObjects()
      ensures QueueValid(old(Abs()))
      ensures var s := old(Abs());
              && r == SettleResult(s.conns[First(s).id], First(s).h)
              && Abs() == if r == Ok then ServeFirst(s, timeout) else s.(queue := s.queue[1..])
    {
      var m := TakeNext();
      if m.processed {
        return RuntimeWarning;
      }
      OwnObjects(m);
      SameConn(Abs(), m.conn.id);
      r := RequeueMessage(m, timeout);
    }

    /** `requeue_queued_messages`: how many it requeued, and whether an error ended it. */
    method RequeueQueuedMessages(timeout: int) returns (requeued: nat, raised: bool)
      requires Valid()
      modifies queue, connections.Values, Trackers(), Messages(), control.wake`queue, control.wake`pending
      ensures Valid() && SameObjects()
      ensures QueueValid(old(Abs())) && Outcome(Abs(), requeued, raised) == RequeueQueued(old(Abs()), timeout)
    {
      AbsQueueValid();
      ghost var whole := RequeueQueued(Abs(), timeout);
      requeued, raised := 0, false;
      while queue.items != []
        invariant Valid() && SameObjects()
        invariant Continues(whole, Abs(), requeued, timeout)
        decreases |queue.items|
      {
        SameFrame();
        ghost var s := Abs();
        var r := ServeNext(timeout);
        OneTurn(whole, s, requeued, timeout);
        match r
        case Ok => requeued := requeued + 1;
        case RuntimeWarning =>
        case _ => return requeued, true;
      }
    }

    /** `stop_receiving`. */
    method StopReceiving()
      requires Valid()
      modifies connections.Values, control.wake`queue, control.wake`pending
      ensures Valid() && SameObjects() && queue.items == old(queue.items)
      ensures Abs() == StopAll(old(Abs()))
    {
      ghost var s := Abs();
      var rest := connections.Keys;
      VisitNone(s, rest, Stop);
      while rest != {}
        invariant Valid() && SameObjects() && queue.items == old(queue.items)
        invariant rest <= connections.Keys && Abs() == Unvisited(s, rest, Stop)
        decreases rest
      {
        rest := StopNext(rest, s);
      }
      VisitAll(s, Stop);
    }

    method StopNext(rest: set<ConnId>, ghost s: Shutdown.Consumer) returns (fewer: set<ConnId>)
      requires Valid() && rest != {} && rest <= connections.Keys && s.conns.Keys == connections.Keys
      requires Abs() == Unvisited(s, rest, Stop)
      modifies connections.Values, control.wake`queue, control.wake`pending
      ensures Valid() && SameObjects() && queue.items == old(queue.items)
      ensures fewer < rest && Abs() == Unvisited(s, fewer, Stop)
    {
      var id := AnyOf(rest);
      VisitNext(s, rest, id, Stop);
      StopOne(id);
      fewer := rest - {id};
    }

    /** `requeue_in_flight`. */
    method RequeueInFlight(timeout: int) returns (requeued: nat)
      requires Valid()
      modifies connections.Values, Trackers(), Messages(), control.wake`queue, control.wake`pending
      ensures Valid() && SameObjects() && queue.items == old(queue.items)
      ensures Abs() == RequeueAllTracked(old(Abs()), timeout)
      ensures requeued == Counted(old(Abs()), {}, timeout)
    {
      ghost var s := Abs();
      var rest := connections.Keys;
      VisitNone(s, rest, RequeueIts(timeout));
      CountEnds(s, timeout);
      requeued := 0;
      while rest != {}
        invariant Valid() && SameObjects() && queue.items == old(queue.items)
        invariant rest <= connections.Keys && Abs() == Unvisited(s, rest, RequeueIts(timeout))
        invariant requeued == Counted(s, rest, timeout)
        decreases rest
      {
        SameFrame();
        rest, requeued := RequeueNext(rest, timeout, requeued, s);
      }
      VisitAll(s, RequeueIts(timeout));
    }

    method RequeueNext(rest: set<ConnId>, timeout: int, requeued: nat, ghost s: Shutdown.Consumer)
      returns (fewer: set<ConnId>, more: nat)
      requires Valid() && rest != {} && rest <= connections.Keys && s.conns.Keys == connections.Keys
      requires Abs() == Unvisited(s, rest, RequeueIts(timeout)) && requeued == Counted(s, rest, timeout)
      modifies connections.Values, Trackers(), Messages(), control.wake`queue, control.wake`pending
      ensures Valid() && SameObjects() && queue.items == old(queue.items)
      ensures fewer < rest && Abs() == Unvisited(s, fewer, RequeueIts(timeout)) && more == Counted(s, fewer, timeout)
    {
      var id := AnyOf(rest);
      VisitNext(s, rest, id, RequeueIts(timeout));
      CountNext(s, rest, id, timeout);
      OwnMessages(id);
      var n := RequeueOne(id, timeout);
      fewer, more := rest - {id}, requeued + n;
    }

    method CloseConnections()
      requires Valid()
      modifies connections.Values, Trackers()
      ensures Valid() && SameObjects() && queue.items == old(queue.items)
      ensures Abs() == CloseAll(old(Abs()))
    {
      ghost var s := Abs();
      var rest := connections.Keys;
      VisitNone(s, rest, CloseIt);
      while rest != {}
        invariant Valid() && SameObjects() && queue.items == old(queue.items)
        invariant rest <= connections.Keys && Abs() == Unvisited(s, rest, CloseIt)
        decreases rest
      {
        rest := CloseNext(rest, s);
      }
      VisitAll(s, CloseIt);
    }

    method CloseNext(rest: set<ConnId>, ghost s: Shutdown.Consumer) returns (fewer: set<ConnId>)
      requires Valid() && rest != {} && rest <= connections.Keys && s.conns.Keys == connections.Keys
      requires Abs() == Unvisited(s, rest, CloseIt)
      modifies connections.Values, Trackers()
      ensures Valid() && SameObjects() && queue.items == old(queue.items)
      ensures fewer < rest && Abs() == Unvisited(s, fewer, CloseIt)
    {
      var id := AnyOf(rest);
      VisitNext(s, rest, id, CloseIt);
      CloseOne(id);
      fewer := rest - {id};
    }

    /** The requeueing of `graceful_close`. */
    method RequeueEverything(timeout: int) returns (requeued: nat, raised: bool)
      requires Valid()
      modifies queue, connections.Values, Trackers(), Messages(), control.wake`queue, control.wake`pending
      ensures Valid() && SameObjects() && QueueValid(old(Abs()))
      ensures var r := RequeueQueued(old(Abs()), timeout);
              && raised == r.raised
              && (raised ==> Abs() == r.state && requeued == r.requeued)
              && (!raised ==> Abs() == RequeueAllTracked(r.state, timeout)
                              && requeued == r.requeued + Counted(r.state, {}, timeout))
    {
      ghost var r := RequeueQueued(Abs(), timeout);
      requeued, raised := RequeueQueuedMessages(timeout);
      assert Abs() == r.state;
      if raised {
        return;
      }
      SameFrame();
      var n := RequeueInFlight(timeout);
      requeued := requeued + n;
    }

    method MarkCleanClosed()
      requires Valid()
      modifies this`isSubscribe, this`cleanClosed
      ensures Valid() && SameObjects() && Abs() == old(Abs()) && !isSubscribe && cleanClosed
    {
      isSubscribe, cleanClosed := false, true;
      NoneChanged();
    }

    method CloseControl()
      requires Valid() && control.Valid()
      modifies control`jobs, control.wake
      ensures Valid() && SameObjects() && Abs() == old(Abs())
      ensures !control.wake.working && control.jobs == []
    {
      control.Close();
      NoneChanged();
    }

    /** `graceful_close`. The scheduler is closed and RDY 0 sent before anything else; when
        requeueing the queue raises, the connections are left as they are. */
    method GracefulClose(requeue: bool, timeout: int) returns (requeued: nat, raised: bool)
      requires Valid() && control.Valid()
      modifies this`isSubscribe, this`cleanClosed, control`jobs
      modifies queue, connections.Values, Trackers(), Messages(), control.wake
      ensures Valid() && !isSubscribe && cleanClosed && !control.wake.working && control.jobs == []
      ensures QueueValid(StopAll(old(Abs())))
      ensures Outcome(Abs(), requeued, raised) == ShutDown(StopAll(old(Abs())), requeue, timeout)
    {
      BeginClose();
      SameFrame();
      requeued, raised := RequeueAndClose(requeue, timeout);
    }

    method BeginClose()
      requires Valid() && control.Valid()
      modifies this`isSubscribe, this`cleanClosed, control`jobs
      modifies connections.Values, control.wake
      ensures Valid() && SameObjects() && Abs() == StopAll(old(Abs()))
      ensures !isSubscribe && cleanClosed && !control.wake.working && control.jobs == []
    {
      CloseControl();
      StopReceiving();
      MarkCleanClosed();
    }

    method RequeueAndClose(requeue: bool, timeout: int) returns (requeued: nat, raised: bool)
      requires Valid()
      modifies queue, connections.Values, Trackers(), Messages(), control.wake`queue, control.wake`pending
      ensures Valid() && QueueValid(old(Abs()))
      ensures Outcome(Abs(), requeued, raised) == ShutDown(old(Abs()), requeue, timeout)
    {
      AbsQueueValid();
      if requeue {
        requeued, raised := RequeueThenClose(timeout);
      } else {
        CloseConnections();
        requeued, raised := 0, false;
      }
    }

    method RequeueThenClose(timeout: int) returns (requeued: nat, raised: bool)
      requires Valid() && QueueValid(Abs())
      modifies queue, connections.Values, Trackers(), Messages(), control.wake`queue, control.wake`pending
      ensures Valid()
      ensures Outcome(Abs(), requeued, raised) == ShutDown(old(Abs()), true, timeout)
    {
      ShutDownSplits(Abs(), timeout);
      requeued, raised := RequeueEverything(timeout);
      if !raised {
        SameFrame();
        CloseConnections();
      }
    }
  }
}
