/** The objects of a connection: `TcpConnection`, the `NsqMessage` objects it creates, and
    its `MessageTracker` (asyncnsq/tcp/connection.py, messages.py, message_tracker.py). Every
    method is proved against the state machine of `ConnectionState`. */
module Connection {
  import opened Prelude
  import opened SetSum
  import opened Frames
  import opened FrameReader
  import opened Commands
  import opened Credit
  import opened OrderedDict
  import opened RdyWakes
  import opened ConnectionState
  import opened ReadLoop

  /** The `asyncio.Queue` that connections and the consumer share. */
  class MessageQueue {
    var items: seq<NsqMessage>

    constructor ()
      ensures items == []
    {
      items := [];
    }

    method Put(m: NsqMessage)
      modifies this
      ensures items == old(items) + [m]
    {
      items := items + [m];
    }

    method Get() returns (m: NsqMessage)
      requires items != []
      modifies this
      ensures [m] + items == old(items)
    {
      m := items[0];
      items := items[1..];
    }
  }

  class MessageTracker {
    var messages: Dict<bytes, NsqMessage>

    constructor ()
      ensures messages == []
    {
      messages := [];
    }

    method Add(m: NsqMessage)
      modifies this
      ensures messages == Put(old(messages), m.messageId, m)
    {
      messages := Put(messages, m.messageId, m);
    }

    method Discard(m: NsqMessage)
      modifies this
      ensures messages == Pop(old(messages), m.messageId)
    {
      messages := Pop(messages, m.messageId);
    }

    method Clear()
      modifies this
      ensures messages == []
    {
      messages := [];
    }

    /** Requeue every message of a snapshot of the ledger, which shrinks meanwhile. The
        connection is open, as its caller has checked. */
    method RequeueUnprocessed(conn: TcpConnection, timeout: int) returns (requeued: nat)
      requires conn.Valid() && conn.tracker == this && !conn.IsClosed()
      modifies conn.msgs, conn`sent, conn`inFlight, conn`rdyCount, this, conn.wake`queue, conn.wake`pending
      ensures conn.Valid()
      ensures (conn.Abs(), requeued) == RequeueLedger(old(conn.Abs()), timeout)
      ensures conn.wake.Abs() == NotifiedIf(requeued > 0, old(conn.wake.Abs()), conn.id, conn.managed, conn.Abs())
    {
      requeued := 0;
      var snapshot := Values(messages);
      ghost var c := conn.Abs();
      ghost var hs := Values(c.ledger);
      LedgerObjects(conn.msgs, messages);
      for i := 0 to |snapshot|
        invariant conn.Valid()
        invariant (conn.Abs(), requeued) == RequeueFirst(c, hs, i, timeout)
        invariant conn.wake.Abs() == NotifiedIf(requeued > 0, old(conn.wake.Abs()), conn.id, conn.managed, conn.Abs())
      {
        requeued := RequeueAt(conn, snapshot[i], timeout, requeued, c, hs, i, old(conn.wake.Abs()));
      }
      assert hs[..|hs|] == hs;
    }

    /** One turn of that loop: the prefix of the snapshot that is done grows by one. */
    method RequeueAt(conn: TcpConnection, m: NsqMessage, timeout: int, requeued: nat,
                     ghost c: Conn, ghost hs: seq<nat>, ghost i: nat, ghost start: Wakes)
      returns (r: nat)
      requires conn.Valid() && conn.tracker == this && m.conn == conn && m.Owned()
      requires i < |hs| && hs[i] == m.handle && forall k :: 0 <= k < |hs| ==> hs[k] < |c.msgs|
      requires (conn.Abs(), requeued) == RequeueFirst(c, hs, i, timeout)
      requires conn.wake.Abs() == NotifiedIf(requeued > 0, start, conn.id, conn.managed, conn.Abs())
      modifies m, conn`sent, conn`inFlight, conn`rdyCount, this, conn.wake`queue, conn.wake`pending
      ensures conn.Valid() && (conn.Abs(), r) == RequeueFirst(c, hs, i + 1, timeout)
      ensures conn.wake.Abs() == NotifiedIf(r > 0, start, conn.id, conn.managed, conn.Abs())
    {
      RequeueNext(c, hs, i, timeout);
      ghost var d, w := conn.Abs(), conn.wake.Abs();
      r := RequeueOne(conn, m, timeout, requeued);
      NotifiedAgain(start, w, conn.wake.Abs(), conn.id, conn.managed, requeued, r, d, conn.Abs());
    }

    /** A processed message is dropped, and an unprocessed one requeued, which signals the
        scheduler when a refill is due. */
    method RequeueOne(conn: TcpConnection, m: NsqMessage, timeout: int, requeued: nat) returns (r: nat)
      requires conn.Valid() && conn.tracker == this && m.conn == conn && m.Owned()
      modifies m, conn`sent, conn`inFlight, conn`rdyCount, this, conn.wake`queue, conn.wake`pending
      ensures conn.Valid()
      ensures var c := old(conn.Abs());
              && conn.Abs() == RequeueHead(c, m.handle, timeout)
              && r == (if SettleResult(c, m.handle) == Ok then requeued + 1 else requeued)
      ensures CountsDown(old(conn.Abs()), conn.Abs(), requeued, r)
      ensures conn.wake.Abs() == NotifiedIf(r > requeued, old(conn.wake.Abs()), conn.id, conn.managed, conn.Abs())
    {
      r := requeued;
      if m.processed {
        MappedPop(messages, HandleOf, m.messageId);
        TrackedPop(conn.msgs, messages, m.messageId);
        Discard(m);
      } else {
        var answer := m.Req(timeout);
        if answer == Ok {
          r := r + 1;
        }
      }
    }
  }

  /** The handles of a ledger are the objects of a ledger. */
  lemma LedgerObjects(msgs: seq<NsqMessage>, d: Dict<bytes, NsqMessage>)
    requires Tracked(msgs, d)
    ensures var hs := Values(Mapped(d, HandleOf));
            |hs| == |d| && forall k :: 0 <= k < |d| ==> hs[k] == d[k].1.handle < |msgs| && msgs[hs[k]] == d[k].1
  {
    forall k | 0 <= k < |d|
      ensures Mapped(d, HandleOf)[k].1 == d[k].1.handle
    {
      MappedAt(d, HandleOf, k);
    }
  }

  ghost function HandleOf(m: NsqMessage): nat
  {
    m.handle
  }

  ghost function MsgsOf(ms: seq<NsqMessage>): (r: seq<Msg>)
    reads ms
    ensures |r| == |ms|
  {
    seq(|ms|, i requires 0 <= i < |ms| reads ms => Msg(ms[i].messageId, ms[i].processed))
  }

  /** The wake-ups after a connection, now in state `c`, has notified the scheduler. */
  ghost function Notified(w: Wakes, id: ConnId, managed: bool, c: Conn): Wakes
  {
    if managed && !IsClosed(c) && RefillDue(c.credit) then Signalled(w, id) else w
  }

  /** The scheduler is notified if something was settled. */
  ghost function NotifiedIf(settled: bool, w: Wakes, id: ConnId, managed: bool, c: Conn): Wakes
  {
    if settled then Notified(w, id, managed, c) else w
  }

  /** Each requeued message was one in-flight message less, and changed nothing else that
      decides on a refill. */
  ghost predicate CountsDown(c: Conn, d: Conn, n: nat, m: nat)
  {
    && n <= m && c.credit.inFlight >= 0 && (IsClosed(d) <==> IsClosed(c))
    && d.credit == if m == n then c.credit else Settled(c.credit)
  }

  /** Once a refill is due it stays due while messages are settled, so the last settling
      decides whether the scheduler was signalled. */
  lemma NotifiedAgain(w0: Wakes, w1: Wakes, w2: Wakes, id: ConnId, managed: bool, n: nat, m: nat, c: Conn, d: Conn)
    requires CountsDown(c, d, n, m)
    requires w1 == NotifiedIf(n > 0, w0, id, managed, c) && w2 == NotifiedIf(m > n, w1, id, managed, d)
    ensures w2 == NotifiedIf(m > 0, w0, id, managed, d)
  {
  }

  class NsqMessage {
    const timestamp: int
    const attempts: nat
    const messageId: bytes
    const body: bytes
    const conn: TcpConnection
    var processed: bool

    /** The number of this object on its connection, which stands for it in what is written. */
    const handle: nat

    constructor (timestamp: int, attempts: nat, messageId: bytes, body: bytes, conn: TcpConnection, handle: nat)
      ensures FrameOf(this) == Message(timestamp, attempts, messageId, body)
      ensures this.conn == conn && this.handle == handle && !processed
    {
      this.timestamp, this.attempts, this.messageId, this.body := timestamp, attempts, messageId, body;
      this.conn, this.processed, this.handle := conn, false, handle;
    }

    /** The connection knows this object. */
    ghost predicate Owned()
      reads conn
    {
      handle < |conn.msgs| && conn.msgs[handle] == this
    }

    /** `fin` and `fin_nowait`. */
    method Fin() returns (r: CallResult)
      requires conn.Valid() && Owned()
      modifies this`processed, conn`sent, conn`inFlight, conn`rdyCount, conn.tracker, conn.wake`queue, conn.wake`pending
      ensures conn.Valid() && r == SettleResult(old(conn.Abs()), handle)
      ensures conn.Abs() == AfterSettle(old(conn.Abs()), handle, Finish(handle))
      ensures conn.wake.Abs() == NotifiedIf(r == Ok, old(conn.wake.Abs()), conn.id, conn.managed, conn.Abs())
    {
      if processed {
        return RuntimeWarning;
      }
      r := conn.ExecuteNoResponse(Finish(handle));
      if r == Ok {
        MarkProcessed();
      }
    }

    /** `req` and `req_nowait`. */
    method Req(timeout: int) returns (r: CallResult)
      requires conn.Valid() && Owned()
      modifies this`processed, conn`sent, conn`inFlight, conn`rdyCount, conn.tracker, conn.wake`queue, conn.wake`pending
      ensures conn.Valid() && r == SettleResult(old(conn.Abs()), handle)
      ensures conn.Abs() == AfterSettle(old(conn.Abs()), handle, Requeue(handle, timeout))
      ensures conn.wake.Abs() == NotifiedIf(r == Ok, old(conn.wake.Abs()), conn.id, conn.managed, conn.Abs())
    {
      if processed {
        return RuntimeWarning;
      }
      r := conn.ExecuteNoResponse(Requeue(handle, timeout));
      if r == Ok {
        MarkProcessed();
      }
    }

    method Touch() returns (r: CallResult)
      requires conn.Valid() && Owned()
      modifies conn`sent, conn`inFlight, conn`rdyCount, conn.wake`queue, conn.wake`pending
      ensures conn.Valid() && r == SettleResult(old(conn.Abs()), handle)
      ensures conn.Abs() == AfterTouch(old(conn.Abs()), handle) && conn.wake.Abs() == old(conn.wake.Abs())
    {
      if processed {
        return RuntimeWarning;
      }
      r := conn.ExecuteNoResponse(TouchMsg(handle));
    }

    /** The end of `fin` and `req`: the mark, and `_message_processed`. */
    method MarkProcessed()
      requires conn.Valid() && Owned()
      modifies this`processed, conn.tracker
      ensures conn.Valid()
      ensures var c := old(conn.Abs());
              conn.Abs() == c.(msgs := c.msgs[handle := c.msgs[handle].(processed := true)],
                               ledger := Pop(c.ledger, messageId))
    {
      processed := true;
      conn.tracker.Discard(this);
      MappedPop(old(conn.tracker.messages), HandleOf, messageId);
      TrackedPop(conn.msgs, old(conn.tracker.messages), messageId);
      assert MsgsOf(conn.msgs) == old(MsgsOf(conn.msgs))[handle := Msg(messageId, true)];
    }
  }

  /** The frame that a message object was made of. */
  ghost function FrameOf(m: NsqMessage): Frame
  {
    Message(m.timestamp, m.attempts, m.messageId, m.body)
  }

  ghost function FramesOf(ms: seq<NsqMessage>): (fs: seq<Frame>)
    ensures |fs| == |ms|
  {
    seq(|ms|, i requires 0 <= i < |ms| => FrameOf(ms[i]))
  }

  lemma FramesOfAppend(ms: seq<NsqMessage>, m: NsqMessage)
    ensures FramesOf(ms + [m]) == FramesOf(ms) + [FrameOf(m)]
  {
  }

  /** The message frames among some frames. */
  function MessageFrames(fs: seq<Frame>): seq<Frame>
  {
    if fs == [] then []
    else (if fs[0].Message? then [fs[0]] else []) + MessageFrames(fs[1..])
  }

  /** The message frame, if there is one, that the unread bytes start with. */
  function FirstMessage(view: bytes): seq<Frame>
  {
    match Next(view)
    case Got(f, _) => if f.Message? then [f] else []
    case _ => []
  }

  lemma {:induction false} MessageFramesAppend(fs: seq<Frame>, gs: seq<Frame>)
    ensures MessageFrames(fs + gs) == MessageFrames(fs) + MessageFrames(gs)
    decreases |fs|
  {
    if fs == [] {
      assert fs + gs == gs;
    } else {
      var m := if fs[0].Message? then [fs[0]] else [];
      assert (fs + gs)[0] == fs[0] && (fs + gs)[1..] == fs[1..] + gs;
      MessageFramesAppend(fs[1..], gs);
      AppendAssociates(m, MessageFrames(fs[1..]), MessageFrames(gs));
    }
  }

  lemma MessagesInTwo(before: seq<Frame>, fs: seq<Frame>, gs: seq<Frame>)
    ensures before + MessageFrames(fs + gs) == before + MessageFrames(fs) + MessageFrames(gs)
  {
    MessageFramesAppend(fs, gs);
  }

  /** The messages taken so far and those still unread are the same from either point. */
  ghost predicate SameMessages(fs: seq<Frame>, v: bytes, gs: seq<Frame>, w: bytes)
  {
    fs + MessageFrames(Parse(v).frames) == gs + MessageFrames(Parse(w).frames)
  }

  lemma MessageStep(fs: seq<Frame>, v: bytes, gs: seq<Frame>, w: bytes)
    requires SameMessages(fs, v, gs, w)
    ensures SameMessages(fs, v, gs + FirstMessage(w), After(w))
    ensures !Next(w).Got? ==> Parse(After(w)).frames == []
  {
    FirstThenRest(w);
    AppendAssociates(gs, FirstMessage(w), MessageFrames(Parse(After(w)).frames));
  }

  lemma FirstThenRest(w: bytes)
    ensures MessageFrames(Parse(w).frames) == FirstMessage(w) + MessageFrames(Parse(After(w)).frames)
  {
    if Next(w).Got? {
      var Got(f, rest) := Next(w);
      assert ([f] + Parse(rest).frames)[1..] == Parse(rest).frames;
    }
  }

  /** Message objects were appended, and queued in that order unless `direct`. */
  ghost predicate Grown(before: seq<NsqMessage>, after: seq<NsqMessage>,
                        items: seq<NsqMessage>, items': seq<NsqMessage>, direct: bool)
  {
    |before| <= |after| && after[..|before|] == before && items' == items + (if direct then [] else after[|before|..])
  }

  lemma GrownTwice(a: seq<NsqMessage>, b: seq<NsqMessage>, c: seq<NsqMessage>, x: seq<NsqMessage>,
                   y: seq<NsqMessage>, z: seq<NsqMessage>, direct: bool)
    requires Grown(a, b, x, y, direct) && Grown(b, c, y, z, direct)
    ensures Grown(a, c, x, z, direct)
  {
    assert c[|a|..] == b[|a|..] + c[|b|..];
    assert c[..|a|] == b[..|a|];
  }

  /** A ledger of messages that `msgs` holds. */
  ghost predicate Tracked(msgs: seq<NsqMessage>, d: Dict<bytes, NsqMessage>)
  {
    forall i :: 0 <= i < |d| ==>
      d[i].0 == d[i].1.messageId && d[i].1.handle < |msgs| && msgs[d[i].1.handle] == d[i].1
  }

  lemma {:induction false} TrackedPop(msgs: seq<NsqMessage>, d: Dict<bytes, NsqMessage>, k: bytes)
    requires Tracked(msgs, d)
    ensures Tracked(msgs, Pop(d, k))
  {
    if d != [] && d[0].0 != k {
      assert Tracked(msgs, d[1..]);
      TrackedPop(msgs, d[1..], k);
    }
  }

  lemma {:induction false} TrackedPut(msgs: seq<NsqMessage>, d: Dict<bytes, NsqMessage>, m: NsqMessage)
    requires Tracked(msgs, d) && m.handle < |msgs| && msgs[m.handle] == m
    ensures Tracked(msgs, Put(d, m.messageId, m))
  {
    if d != [] && d[0].0 != m.messageId {
      assert Tracked(msgs, d[1..]);
      TrackedPut(msgs, d[1..], m);
    }
  }

  class TcpConnection {
    const id: ConnId
    const parser: Reader
    const queue: MessageQueue
    const tracker: MessageTracker
    /** The scheduler's half of `_on_rdy_changed_cb`; `managed` says that it is installed. */
    const wake: WakeQueue
    var managed: bool
    /** `_on_message` hands messages to a handler directly, past the queue. */
    var direct: bool

    var waiters: seq<nat>
    var futures: seq<Future>
    var sent: seq<Sent>
    var closing: bool
    var closed: bool
    var scheduled: Option<Reason>
    /** Whether `_on_close` is set, and whether it has been called. */
    var onClose: bool
    var closeCallbackCalled: bool
    /** The writer is not closing by itself. */
    var writable: bool

    /** How many message objects were created: the next one's number. */
    var delivered: nat
    var inFlight: nat
    var rdyCount: int
    var maxRdyCount: int
    var rdyTarget: int
    var rdyLowWater: int

    /** Every message object that this connection created, the replies that took a waiter,
        and the runs of the close callback. */
    ghost var msgs: seq<NsqMessage>
    ghost var answers: seq<Future>
    ghost var closeCalls: nat

    ghost predicate Valid()
      reads this, tracker, parser
    {
      && parser.Valid()
      && (forall i :: 0 <= i < |msgs| ==> msgs[i].handle == i && msgs[i].conn == this)
      && Tracked(msgs, tracker.messages)
      && (forall i :: 0 <= i < |waiters| ==> waiters[i] < |futures|)
      && (closeCallbackCalled ==> closed) && delivered == |msgs|
    }

    ghost function CreditNow(): Credit
      reads this
    {
      Credit(inFlight, rdyCount, rdyTarget, rdyLowWater, maxRdyCount)
    }

    ghost function Abs(): Conn
      reads this, tracker, msgs
    {
      Conn(CreditNow(), MsgsOf(msgs), Mapped(tracker.messages, HandleOf), waiters, futures, answers, sent,
           closing, closed, scheduled, onClose, closeCalls, writable)
    }

    constructor (id: ConnId, queue: MessageQueue, wake: WakeQueue)
      ensures Valid() && Abs() == NewConn(2500)
      ensures this.id == id && this.queue == queue && this.wake == wake
      ensures fresh(tracker) && fresh(parser) && parser.View() == [] && !managed && !direct
    {
      this.id, this.queue, this.wake := id, queue, wake;
      parser := new Reader([]);
      tracker := new MessageTracker();
      managed, direct := false, false;
      waiters, futures, sent := [], [], [];
      closing, closed, scheduled, onClose, closeCallbackCalled, writable := false, false, None, false, false, true;
      inFlight, rdyCount, maxRdyCount, rdyTarget, rdyLowWater := 0, 0, DEFAULT_MAX_RDY_COUNT, 0, 1;
      msgs, answers, closeCalls, delivered := [], [], 0, 0;
    }

    predicate IsClosed()
      reads this
    {
      closing || closed
    }

    // ---------- Outgoing ----------

    method ExecuteNoResponse(s: Sent) returns (r: CallResult)
      modifies this`sent, this`inFlight, this`rdyCount, wake`queue, wake`pending
      ensures r == if old(IsClosed()) then ConnectionError else Ok
      ensures Abs() == AfterWrite(old(Abs()), s)
      ensures wake.Abs() == if r == Ok && (s.Finish? || s.Requeue?)
                            then Notified(old(wake.Abs()), id, managed, Abs()) else old(wake.Abs())
      ensures !s.Ready? ==> rdyCount == old(rdyCount)
    {
      if IsClosed() {
        return ConnectionError;
      }
      sent := sent + [s];
      match s {
        case Ready(n) => rdyCount := Max(0, n);
        case Finish(_) =>
          inFlight := Max(0, inFlight - 1);
          NotifyRdyChanged();
        case Requeue(_, _) =>
          inFlight := Max(0, inFlight - 1);
          NotifyRdyChanged();
        case _ =>
      }
      return Ok;
    }

    method NotifyRdyChanged()
      modifies wake`queue, wake`pending
      ensures wake.Abs() == Notified(old(wake.Abs()), id, managed, Abs())
      ensures wake.Abs() == if managed && !closing && !closed && (rdyTarget <= 0 || rdyCount + inFlight <= rdyLowWater)
                            then Signalled(old(wake.Abs()), id) else old(wake.Abs())
    {
      if !managed || IsClosed() {
        return;
      }
      if rdyTarget > 0 {
        var held := rdyCount + inFlight;
        if held > rdyLowWater {
          return;
        }
      }
      wake.RdyChanged(id);
    }

    /** `execute` of a command that expects a reply. */
    method Execute(cmd: Command) returns (r: CallResult)
      requires Valid() && ExpectsReply(cmd)
      modifies this`futures, this`waiters, this`sent
      ensures Valid() && r == ExecuteResult(old(Abs()), cmd) && Abs() == AfterExecute(old(Abs()), cmd)
    {
      if IsClosed() {
        return ConnectionError;
      }
      var k := NewWaiter();
      var raw := EncodeCommand(cmd);
      r := WriteRequest(cmd, k, raw);
    }

    method WriteRequest(cmd: Command, k: nat, raw: Option<bytes>) returns (r: CallResult)
      requires Valid()
      modifies this`sent
      ensures Valid() && r == if raw.None? then EncodeError else Ok
      ensures Abs() == if raw.None? then old(Abs()) else old(Abs()).(sent := old(sent) + [Request(cmd, k)])
    {
      if raw.None? {
        return EncodeError;
      }
      sent := sent + [Request(cmd, k)];
      return Ok;
    }

    /** `pub`, the fast path for PUB. */
    method Pub(topic: bytes, data: bytes) returns (r: CallResult)
      requires Valid()
      modifies this`futures, this`waiters, this`sent
      ensures var cmd := Command(PUB, [topic], Single(data));
              Valid() && r == ExecuteResult(old(Abs()), cmd) && Abs() == AfterExecute(old(Abs()), cmd)
    {
      if IsClosed() {
        return ConnectionError;
      }
      EncodePubAgrees(topic, data);
      var k := NewWaiter();
      var raw := EncodePub(topic, data);
      r := WriteRequest(Command(PUB, [topic], Single(data)), k, raw);
    }

    method NewWaiter() returns (k: nat)
      requires Valid()
      modifies this`futures, this`waiters
      ensures Valid() && k == |old(futures)|
      ensures futures == old(futures) + [Pending] && waiters == old(waiters) + [k]
    {
      k := |futures|;
      futures := futures + [Pending];
      waiters := waiters + [k];
    }

    /** The user cancels a reply future. */
    method CancelFuture(k: nat)
      requires Valid() && k < |futures|
      modifies this`futures
      ensures Valid() && Abs() == ConnectionState.Step(old(Abs()), Cancel(k))
    {
      if futures[k].Pending? {
        futures := futures[k := Cancelled];
      }
    }

    method StopReceiving() returns (r: CallResult)
      modifies this`sent, this`inFlight, this`rdyCount, wake`queue, wake`pending
      ensures Abs() == AfterReady(old(Abs()), 0) && wake.Abs() == old(wake.Abs())
      ensures r == Ok
    {
      if IsClosed() {
        return Ok;
      }
      r := ExecuteNoResponse(Ready(0));
    }

    method RequeueInFlight(timeout: int) returns (requeued: nat)
      requires Valid()
      modifies msgs, this`sent, this`inFlight, this`rdyCount, tracker, wake`queue, wake`pending
      ensures Valid()
      ensures (Abs(), requeued) == if IsClosed() then (old(Abs()), 0) else RequeueLedger(old(Abs()), timeout)
      ensures wake.Abs() == NotifiedIf(requeued > 0, old(wake.Abs()), id, managed, Abs())
    {
      if IsClosed() {
        return 0;
      }
      requeued := tracker.RequeueUnprocessed(this, timeout);
    }

    // ---------- Incoming ----------

    /** A reply takes the oldest waiter. */
    method Answer(answer: Future)
      requires Valid() && waiters != []
      modifies this`waiters, this`futures, this`answers
      ensures Valid() && Abs() == Answered(old(Abs()), answer)
    {
      var waiter := TakeWaiter(answer);
      if !futures[waiter].Cancelled? {
        SetFuture(waiter, answer);
      }
    }

    method TakeWaiter(ghost answer: Future) returns (waiter: nat)
      requires Valid() && waiters != []
      modifies this`waiters, this`answers
      ensures Valid() && waiter == old(waiters[0]) && waiter < |futures|
      ensures Abs() == old(Abs()).(waiters := old(waiters[1..]), answers := old(answers) + [answer])
    {
      waiter := waiters[0];
      waiters := waiters[1..];
      answers := answers + [answer];
    }

    method SetFuture(k: nat, answer: Future)
      requires Valid() && k < |futures|
      modifies this`futures
      ensures Valid() && Abs() == old(Abs()).(futures := old(futures)[k := answer])
    {
      futures := futures[k := answer];
    }

    method OnResponse(body: bytes)
      requires Valid()
      modifies this`waiters, this`futures, this`answers, this`sent
      ensures Valid() && Abs() == ConnectionState.OnResponse(old(Abs()), body)
    {
      if body == HEARTBEAT {
        sent := sent + [Nop];
      } else if waiters != [] {
        Answer(Resolved(body));
      }
    }

    method OnError(code: bytes, msg: bytes)
      requires Valid()
      modifies this`waiters, this`futures, this`answers, this`closing, this`scheduled
      ensures Valid() && Abs() == ConnectionState.OnError(old(Abs()), code, msg)
    {
      var error := ServerError(code, msg);
      if waiters != [] {
        Answer(Failed(error));
      }
      if IsFatal(code) {
        ScheduleClose(error);
      }
    }

    /** Mark as closing, and leave the rest to the event loop. */
    method ScheduleClose(reason: Reason)
      modifies this`closing, this`scheduled
      ensures Abs() == Closing(old(Abs()), reason)
    {
      closing := true;
      if scheduled.None? {
        scheduled := Some(reason);
      }
    }

    method OnMessage(timestamp: int, attempts: nat, messageId: bytes, body: bytes)
      requires Valid()
      modifies this`inFlight, this`rdyCount, this`msgs, this`delivered, tracker, queue
      ensures Valid() && Abs() == ConnectionState.OnMessage(old(Abs()), messageId)
      ensures Extended(old(msgs), old(queue.items))
      ensures FramesOf(msgs) == FramesOf(old(msgs)) + [Message(timestamp, attempts, messageId, body)]
    {
      CountDelivery();
      OnMessageHook(timestamp, attempts, messageId, body);
    }

    method CountDelivery()
      requires Valid()
      modifies this`inFlight, this`rdyCount
      ensures Valid() && Abs() == old(Abs()).(credit := Delivered(old(Abs()).credit))
    {
      inFlight := inFlight + 1;
      rdyCount := Max(0, rdyCount - 1);
    }

    /** New message objects were added to `before`, and put on the queue unless they were
        handed to a handler directly. */
    ghost predicate Extended(before: seq<NsqMessage>, items: seq<NsqMessage>)
      reads this, queue
    {
      Grown(before, msgs, items, queue.items, direct)
    }

    method OnMessageHook(timestamp: int, attempts: nat, messageId: bytes, body: bytes)
      requires Valid()
      modifies this`msgs, this`delivered, tracker, queue
      ensures Valid() && Extended(old(msgs), old(queue.items))
      ensures var c := old(Abs());
              Abs() == c.(msgs := c.msgs + [Msg(messageId, false)],
                          ledger := Put<bytes, nat>(c.ledger, messageId, |c.msgs|))
      ensures FramesOf(msgs) == FramesOf(old(msgs)) + [Message(timestamp, attempts, messageId, body)]
    {
      var m := Create(timestamp, attempts, messageId, body);
      Track(m);
      if direct {
        return;
      }
      queue.Put(m);
    }

    method Create(timestamp: int, attempts: nat, messageId: bytes, body: bytes) returns (m: NsqMessage)
      requires Valid()
      modifies this`msgs, this`delivered
      ensures Valid() && fresh(m) && msgs == old(msgs) + [m] && m.messageId == messageId && m.Owned()
      ensures FramesOf(msgs) == FramesOf(old(msgs)) + [Message(timestamp, attempts, messageId, body)]
      ensures m.handle == |old(msgs)|
      ensures Abs() == old(Abs()).(msgs := old(Abs()).msgs + [Msg(messageId, false)])
    {
      m := new NsqMessage(timestamp, attempts, messageId, body, this, delivered);
      delivered := delivered + 1;
      msgs := msgs + [m];
      FramesOfAppend(old(msgs), m);
      assert MsgsOf(msgs) == old(MsgsOf(msgs)) + [Msg(messageId, false)];
    }

    method Track(m: NsqMessage)
      requires Valid() && m.handle < |msgs| && msgs[m.handle] == m
      modifies tracker
      ensures Valid() && Abs() == old(Abs()).(ledger := Put<bytes, nat>(old(Abs()).ledger, m.messageId, m.handle))
    {
      MappedPut(tracker.messages, HandleOf, m.messageId, m);
      TrackedPut(msgs, tracker.messages, m);
      tracker.Add(m);
    }

    /** `_parse_data`: one frame, if there is one; a malformed one is fatal. */
    method ParseData() returns (more: bool)
      requires Valid()
      modifies this`waiters, this`futures, this`answers, this`sent, this`closing, this`scheduled
      modifies this`inFlight, this`rdyCount, this`msgs, this`delivered, tracker, queue, parser
      ensures Valid() && parser.View() == After(old(parser.View()))
      ensures more == Next(old(parser.View())).Got?
      ensures Abs() == Received(old(Abs()), Next(old(parser.View())))
      ensures FramesOf(msgs) == FramesOf(old(msgs)) + FirstMessage(old(parser.View()))
      ensures Extended(old(msgs), old(queue.items))
    {
      var reply := parser.Gets();
      assert Abs() == old(Abs()) && Extended(old(msgs), old(queue.items));
      match reply
      case Nothing => more := false;
      case Raised(error) =>
        ScheduleClose(BadFrame(error));
        more := false;
      case Returned(frame) =>
        Receive(frame);
        more := true;
    }

    method Receive(frame: Frame)
      requires Valid()
      modifies this`waiters, this`futures, this`answers, this`sent, this`closing, this`scheduled
      modifies this`inFlight, this`rdyCount, this`msgs, this`delivered, tracker, queue
      ensures Valid() && Abs() == Dispatch(old(Abs()), frame)
      ensures FramesOf(msgs) == FramesOf(old(msgs)) + (if frame.Message? then [frame] else [])
      ensures Extended(old(msgs), old(queue.items))
    {
      match frame
      case Response(body) => OnResponse(body);
      case Error(code, msg) => OnError(code, msg);
      case Message(timestamp, attempts, messageId, content) => OnMessage(timestamp, attempts, messageId, content);
    }

    /** `_read_buffer`. Every frame takes at least 8 bytes, so the loop ends. */
    method ReadBuffer()
      requires Valid()
      modifies this`waiters, this`futures, this`answers, this`sent, this`closing, this`scheduled
      modifies this`inFlight, this`rdyCount, this`msgs, this`delivered, tracker, queue, parser
      ensures Valid() && parser.View() == Parse(old(parser.View())).rest
      ensures Abs() == Drained(Dispatch, old(Abs()), old(parser.View()))
      ensures FramesOf(msgs) == FramesOf(old(msgs)) + MessageFrames(Parse(old(parser.View())).frames)
      ensures Extended(old(msgs), old(queue.items))
    {
      var more := true;
      while more
        invariant Valid() && Extended(old(msgs), old(queue.items))
        invariant SameDrain(old(Abs()), old(parser.View()), Abs(), parser.View())
        invariant !more ==> Rested(Dispatch, Abs(), parser.View()) && Parse(parser.View()).frames == []
        invariant SameMessages(FramesOf(old(msgs)), old(parser.View()), FramesOf(msgs), parser.View())
        decreases |parser.View()|, more
      {
        ghost var c, v, ms, items := Abs(), parser.View(), msgs, queue.items;
        more := ParseData();
        DrainStep(c, v);
        MessageStep(FramesOf(old(msgs)), old(parser.View()), FramesOf(ms), v);
        GrownTwice(old(msgs), ms, msgs, old(queue.items), items, queue.items, direct);
      }
    }

    /** A chunk arrives. */
    method ReadChunk(data: bytes)
      requires Valid()
      modifies this`waiters, this`futures, this`answers, this`sent, this`closing, this`scheduled
      modifies this`inFlight, this`rdyCount, this`msgs, this`delivered, tracker, queue, parser
      ensures Valid() && Abs() == Drained(Dispatch, old(Abs()), old(parser.View()) + data)
      ensures parser.View() == Parse(old(parser.View()) + data).rest
      ensures FramesOf(msgs) == FramesOf(old(msgs)) + MessageFrames(Parse(old(parser.View()) + data).frames)
      ensures Extended(old(msgs), old(queue.items))
    {
      parser.Feed(data);
      assert Abs() == old(Abs());
      ReadBuffer();
    }

    /** The event loop runs while the reader task waits. */
    method LetTheLoopRun()
      requires Valid()
      modifies this`sent, this`closed, this`closing, this`rdyCount, this`closeCallbackCalled, this`closeCalls
      modifies this`waiters, this`futures, tracker
      ensures Valid() && Abs() == LoopRan(old(Abs()))
    {
      if scheduled.Some? {
        RunScheduledClose();
      }
    }

    /** `_read_data` over the reads that are ready, up to where it waits for more. */
    method ReadData(arrivals: seq<Arrival>)
      requires Valid()
      modifies this`waiters, this`futures, this`answers, this`sent, this`closing, this`scheduled, this`closed
      modifies this`closeCallbackCalled, this`closeCalls
      modifies this`inFlight, this`rdyCount, this`msgs, this`delivered, tracker, queue, parser
      ensures Valid() && (Abs(), parser.View()) == ReadAll(Dispatch, old(Abs()), old(parser.View()), arrivals)
      ensures FramesOf(msgs) ==
              FramesOf(old(msgs)) + MessageFrames(FramesTaken(Dispatch, old(Abs()), old(parser.View()), arrivals))
      ensures Extended(old(msgs), old(queue.items))
    {
      ghost var goal := ReadAll(Dispatch, Abs(), parser.View(), arrivals);
      ghost var frames := FramesOf(msgs) + MessageFrames(FramesTaken(Dispatch, Abs(), parser.View(), arrivals));
      assert arrivals[0..] == arrivals;
      ReadWhatIsReady(arrivals, goal, frames);
      LetTheLoopRun();
    }

    /** The loop of `_read_data`, up to where it waits. */
    method ReadWhatIsReady(arrivals: seq<Arrival>, ghost goal: (Conn, bytes), ghost frames: seq<Frame>)
      requires Valid() && Ahead(goal, frames, arrivals[0..])
      modifies this`waiters, this`futures, this`answers, this`sent, this`closing, this`scheduled
      modifies this`inFlight, this`rdyCount, this`msgs, this`delivered, tracker, queue, parser
      ensures Valid() && Extended(old(msgs), old(queue.items)) && LastRead(goal, frames)
    {
      var i, due := 0, false;
      while i < |arrivals| && !due
        invariant 0 <= i <= |arrivals|
        invariant Valid() && Extended(old(msgs), old(queue.items))
        invariant if due then LastRead(goal, frames) else Ahead(goal, frames, arrivals[i..])
      {
        ghost var ms, items := msgs, queue.items;
        due := ReadNext(arrivals, i, goal, frames);
        GrownTwice(old(msgs), ms, msgs, old(queue.items), items, queue.items, direct);
        i := i + 1;
      }
      if !due {
        assert arrivals[i..] == [];
        NothingAhead(goal, frames);
      }
    }

    lemma NothingAhead(goal: (Conn, bytes), frames: seq<Frame>)
      requires parser.Valid() && Ahead(goal, frames, [])
      ensures LastRead(goal, frames)
    {
      assert MessageFrames([]) == [] && FramesOf(msgs) + [] == FramesOf(msgs);
    }

    /** What is left to read leads to the goal. */
    ghost predicate Ahead(goal: (Conn, bytes), frames: seq<Frame>, arrivals: seq<Arrival>)
      requires parser.Valid()
      reads this, tracker, msgs, parser
    {
      && ReadAll(Dispatch, Abs(), parser.View(), arrivals) == goal
      && FramesOf(msgs) + MessageFrames(FramesTaken(Dispatch, Abs(), parser.View(), arrivals)) == frames
    }

    /** Nothing more is read. */
    ghost predicate LastRead(goal: (Conn, bytes), frames: seq<Frame>)
      requires parser.Valid()
      reads this, tracker, msgs, parser
    {
      (LoopRan(Abs()), parser.View()) == goal && FramesOf(msgs) == frames
    }

    /** One `read`, and whether the task waits then with a close that is due. */
    method ReadNext(arrivals: seq<Arrival>, i: nat, ghost goal: (Conn, bytes), ghost frames: seq<Frame>)
      returns (due: bool)
      requires Valid() && i < |arrivals| && Ahead(goal, frames, arrivals[i..])
      modifies this`waiters, this`futures, this`answers, this`sent, this`closing, this`scheduled
      modifies this`inFlight, this`rdyCount, this`msgs, this`delivered, tracker, queue, parser
      ensures Valid() && Extended(old(msgs), old(queue.items))
      ensures if due then LastRead(goal, frames) else Ahead(goal, frames, arrivals[i + 1..])
    {
      ghost var c, v := Abs(), parser.View();
      ReadOne(Dispatch, c, v, arrivals, i);
      MessagesInTwo(FramesOf(msgs), Parse(v + arrivals[i].chunk).frames,
                    FramesTaken(Dispatch, Drained(Dispatch, c, v + arrivals[i].chunk),
                                Parse(v + arrivals[i].chunk).rest, arrivals[i + 1..]));
      ReadChunk(arrivals[i].chunk);
      due := arrivals[i].waits && (scheduled.Some? || closed);
    }

    /** The reader task finds the end of the stream. */
    method NoticeEof()
      modifies this`closing, this`scheduled
      ensures Abs() == ConnectionState.Step(old(Abs()), ConnectionState.Event.NoticeEof)
    {
      if !IsClosed() {
        ScheduleClose(EndOfStream);
      }
    }

    // ---------- Closing ----------

    method DoClose(reason: Reason, sendCls: bool)
      requires Valid()
      modifies this`sent, this`closed, this`closing, this`rdyCount, this`closeCallbackCalled, this`closeCalls
      modifies this`waiters, this`futures, tracker
      ensures Valid() && Abs() == Closed(old(Abs()), reason, sendCls)
    {
      if closed {
        return;
      }
      if sendCls && writable {
        sent := sent + [Cls];
      }
      MarkClosed();
      FailAll(reason);
    }

    method MarkClosed()
      requires Valid() && !closed
      modifies this`closed, this`closing, this`rdyCount, this`closeCallbackCalled, this`closeCalls, tracker
      ensures Valid()
      ensures var c := old(Abs());
              Abs() == c.(closed := true, closing := false, credit := c.credit.(rdyCount := 0), ledger := [],
                          closeCalls := c.closeCalls + (if c.onClose then 1 else 0))
    {
      SetClosed();
      ForgetAll();
      RunCloseCallback();
    }

    method SetClosed()
      requires Valid()
      modifies this`closed, this`closing, this`rdyCount
      ensures Valid() && closed
      ensures Abs() == old(Abs()).(closed := true, closing := false, credit := old(Abs()).credit.(rdyCount := 0))
    {
      closed, closing, rdyCount := true, false, 0;
    }

    method RunCloseCallback()
      requires Valid() && closed
      modifies this`closeCallbackCalled, this`closeCalls
      ensures Valid()
      ensures Abs() == if old(closeCallbackCalled) || !onClose then old(Abs())
                       else old(Abs()).(closeCalls := old(Abs()).closeCalls + 1)
    {
      if onClose && !closeCallbackCalled {
        closeCallbackCalled := true;
        closeCalls := closeCalls + 1;
      }
    }

    method ForgetAll()
      requires Valid()
      modifies tracker
      ensures Valid() && Abs() == old(Abs()).(ledger := [])
    {
      tracker.Clear();
    }

    method FailAll(reason: Reason)
      requires Valid()
      modifies this`waiters, this`futures
      ensures Valid()
      ensures var c := old(Abs());
              Abs() == c.(waiters := [], futures := FailWaiters(c.futures, c.waiters, reason))
    {
      ghost var ws, i := waiters, 0;
      while waiters != []
        invariant i <= |ws| && waiters == ws[i..]
        invariant futures == FailWaiters(old(futures), ws[..i], reason)
        decreases |waiters|
      {
        var waiter := waiters[0];
        waiters := waiters[1..];
        FailOneMore(old(futures), ws, i, reason);
        if futures[waiter].Pending? {
          futures := futures[waiter := Failed(reason)];
        }
        i := i + 1;
      }
      assert ws[..i] == ws;
    }

    /** `close`. */
    method Close()
      requires Valid()
      modifies this`sent, this`closed, this`closing, this`rdyCount, this`closeCallbackCalled, this`closeCalls
      modifies this`waiters, this`futures, tracker
      ensures Valid() && Abs() == Closed(old(Abs()), Requested, true)
    {
      DoClose(Requested, true);
    }

    /** The event loop runs the first scheduled `_do_close`. */
    method RunScheduledClose()
      requires Valid() && scheduled.Some?
      modifies this`sent, this`closed, this`closing, this`rdyCount, this`closeCallbackCalled, this`closeCalls
      modifies this`waiters, this`futures, tracker
      ensures Valid() && Abs() == ConnectionState.Step(old(Abs()), ConnectionState.Event.RunScheduledClose)
    {
      DoClose(scheduled.value, false);
    }
  }
}
