/** One connection to nsqd as a state machine: reply waiters, message objects, the ledger of
    unfinished messages, the in-flight counter and what was written
    (asyncnsq/tcp/connection.py, messages.py, message_tracker.py). */
module ConnectionState {
  import opened Prelude
  import opened Frames
  import opened Commands
  import opened Credit
  import opened OrderedDict

  function Octet(c: char): byte
  {
    c as int % 256
  }

  /** A `bytes` literal. */
  function Ascii(s: string): bytes
  {
    seq(|s|, i requires 0 <= i < |s| => Octet(s[i]))
  }

  const HEARTBEAT: bytes := Ascii("_heartbeat_")

  /** The errors of ERROR_CODES whose class is not fatal; an unknown code is fatal. */
  predicate IsFatal(code: bytes)
  {
    code !in {Ascii("E_FINISH_FAILED"), Ascii("E_FIN_FAILED"), Ascii("E_REQUEUE_FAILED"),
              Ascii("E_REQ_FAILED"), Ascii("E_TOUCH_FAILED")}
  }

  /** Why a connection closes. */
  datatype Reason = Requested | EndOfStream | ServerError(code: bytes, msg: bytes) | BadFrame(error: ProtocolError)

  /** A reply future; futures are numbered in order of creation. */
  datatype Future = Pending | Resolved(body: bytes) | Failed(reason: Reason) | Cancelled

  /** A message object; the objects of a connection are numbered in order of delivery. */
  datatype Msg = Msg(id: bytes, processed: bool)

  /** What the client writes. A FIN, a REQ or a TOUCH carries the number of the message
      object through which it was sent; on the wire that is the message's id. */
  datatype Sent =
    | Finish(h: nat)
    | Requeue(h: nat, timeout: int)
    | TouchMsg(h: nat)
    | Ready(n: int)
    | Nop
    | Cls
    | Request(cmd: Command, future: nat)

  datatype Conn = Conn(
    credit: Credit,
    msgs: seq<Msg>,
    ledger: Dict<bytes, nat>,
    waiters: seq<nat>,
    futures: seq<Future>,
    answers: seq<Future>,       // the replies that took a waiter, in order
    sent: seq<Sent>,
    closing: bool,
    closed: bool,
    scheduled: Option<Reason>,  // the first `_do_close` that waits for the event loop
    onClose: bool,              // a close callback is installed
    closeCalls: nat,            // how often it ran
    writable: bool)             // the writer has not started to close by itself

  function NewConn(maxRdy: int): Conn
  {
    Conn(NewCredit(maxRdy), [], [], [], [], [], [], false, false, None, false, 0, true)
  }

  /** The `closed` property. */
  predicate IsClosed(c: Conn)
  {
    c.closing || c.closed
  }

  function Closing(c: Conn, reason: Reason): Conn
  {
    c.(closing := true, scheduled := if c.scheduled.Some? then c.scheduled else Some(reason))
  }

  // ---------- Incoming frames ----------

  /** A reply takes the oldest waiter; a future that was cancelled stays so. Nothing here
      asks whether the future was settled before. */
  function Answered(c: Conn, answer: Future): Conn
    requires c.waiters != []
  {
    var k := c.waiters[0];
    var taken := c.(waiters := c.waiters[1..], answers := c.answers + [answer]);
    if k < |c.futures| && !c.futures[k].Cancelled? then taken.(futures := c.futures[k := answer]) else taken
  }

  function OnMessage(c: Conn, id: bytes): Conn
  {
    var h: nat := |c.msgs|;
    c.(credit := Delivered(c.credit), msgs := c.msgs + [Msg(id, false)], ledger := Put(c.ledger, id, h))
  }

  function OnError(c: Conn, code: bytes, msg: bytes): Conn
  {
    var reason := ServerError(code, msg);
    var c' := if c.waiters == [] then c else Answered(c, Failed(reason));
    if IsFatal(code) then Closing(c', reason) else c'
  }

  function OnResponse(c: Conn, body: bytes): Conn
  {
    if body == HEARTBEAT then c.(sent := c.sent + [Nop])
    else if c.waiters == [] then c
    else Answered(c, Resolved(body))
  }

  /** `_parse_data` on one frame. */
  function Dispatch(c: Conn, f: Frame): Conn
  {
    match f
    case Response(body) => OnResponse(c, body)
    case Error(code, msg) => OnError(c, code, msg)
    case Message(_, _, id, _) => OnMessage(c, id)
  }

  // ---------- Outgoing commands ----------

  /** What a call answers or raises. */
  datatype CallResult = Ok | RuntimeWarning | ConnectionError | EncodeError

  function SettleResult(c: Conn, h: nat): CallResult
    requires h < |c.msgs|
  {
    if c.msgs[h].processed then RuntimeWarning else if IsClosed(c) then ConnectionError else Ok
  }

  /** `NsqMessage.fin` and `NsqMessage.req`: write, count, mark, forget. */
  function AfterSettle(c: Conn, h: nat, s: Sent): Conn
    requires h < |c.msgs|
  {
    if SettleResult(c, h) != Ok then c
    else c.(sent := c.sent + [s], credit := Settled(c.credit),
            msgs := c.msgs[h := c.msgs[h].(processed := true)], ledger := Pop(c.ledger, c.msgs[h].id))
  }

  function AfterTouch(c: Conn, h: nat): Conn
    requires h < |c.msgs|
  {
    if SettleResult(c, h) != Ok then c else c.(sent := c.sent + [TouchMsg(h)])
  }

  /** `_requeue_failed_handler_message`; what it raises is swallowed. */
  function AfterFailedHandler(c: Conn, h: nat, autoRequeue: bool): Conn
    requires h < |c.msgs|
  {
    if autoRequeue && !c.msgs[h].processed then AfterSettle(c, h, Requeue(h, 0)) else c
  }

  /** `_finish_handled_message` inside the handler's `try`: a FIN that raises makes the
      message one whose handler failed. */
  function AfterHandler(c: Conn, h: nat, failed: bool, autoFin: bool, autoRequeue: bool): Conn
    requires h < |c.msgs|
  {
    if failed then AfterFailedHandler(c, h, autoRequeue)
    else if autoFin && !c.msgs[h].processed then
      if IsClosed(c) then AfterFailedHandler(c, h, autoRequeue) else AfterSettle(c, h, Finish(h))
    else c
  }

  /** A handler's outcome writes a FIN or a REQ. */
  predicate HandlerSettles(c: Conn, h: nat, failed: bool, autoFin: bool, autoRequeue: bool)
    requires h < |c.msgs|
  {
    SettleResult(c, h) == Ok && if failed then autoRequeue else autoFin
  }

  /** Not one of `_NO_RESPONSE_COMMANDS`. */
  predicate ExpectsReply(cmd: Command)
  {
    Canonical(cmd).name !in {Ascii("NOP"), Ascii("FIN"), Ascii("RDY"), Ascii("REQ"), Ascii("TOUCH")}
  }

  function ExecuteResult(c: Conn, cmd: Command): CallResult
  {
    if IsClosed(c) then ConnectionError else if EncodeCommand(cmd).None? then EncodeError else Ok
  }

  /** `execute` of a command that expects a reply: the waiter comes before the encoding. */
  function AfterExecute(c: Conn, cmd: Command): Conn
  {
    if IsClosed(c) then c
    else
      var k := |c.futures|;
      var c' := c.(futures := c.futures + [Pending], waiters := c.waiters + [k]);
      if EncodeCommand(cmd).Some? then c'.(sent := c.sent + [Request(cmd, k)]) else c'
  }

  /** `_execute_no_response`: what is written, and what it does to the counters. */
  function AfterWrite(c: Conn, s: Sent): Conn
  {
    if IsClosed(c) then c
    else
      var c' := c.(sent := c.sent + [s]);
      match s
      case Ready(n) => c'.(credit := WithRdy(c.credit, n))
      case Finish(_) => c'.(credit := Settled(c.credit))
      case Requeue(_, _) => c'.(credit := Settled(c.credit))
      case _ => c'
  }

  /** `execute(RDY, n)`. */
  function AfterReady(c: Conn, n: int): Conn
  {
    AfterWrite(c, Ready(n))
  }

  /** `_set_conn_rdy`. */
  function AfterRetarget(c: Conn, target: int): Conn
  {
    if IsClosed(c) then c
    else
      var n := RdyFor(c.credit, target);
      c.(credit := Retargeted(c.credit, target), sent := if c.credit.rdyCount == n then c.sent else c.sent + [Ready(n)])
  }

  /** `_update_rdy` on an open connection, with this fresh target. */
  function Served(c: Conn, target: int): Conn
  {
    if target <= 0 then AfterRetarget(c, 0)
    else if Allocated(c.credit) <= LowWater(target) then AfterRetarget(c, target)
    else c
  }

  /** One message of the snapshot in `requeue_unprocessed`. */
  function RequeueHead(c: Conn, h: nat, timeout: int): Conn
    requires h < |c.msgs|
  {
    if c.msgs[h].processed then c.(ledger := Pop(c.ledger, c.msgs[h].id))
    else AfterSettle(c, h, Requeue(h, timeout))
  }

  /** `requeue_unprocessed` over the snapshot `hs`, with the number of messages requeued. */
  function RequeueEach(c: Conn, hs: seq<nat>, timeout: int): (Conn, nat)
    requires forall i :: 0 <= i < |hs| ==> hs[i] < |c.msgs|
    decreases |hs|
  {
    if hs == [] then (c, 0)
    else
      var (c', n) := RequeueEach(RequeueHead(c, hs[0], timeout), hs[1..], timeout);
      (c', if SettleResult(c, hs[0]) == Ok then n + 1 else n)
  }

  lemma {:induction false} RequeueEachAppend(c: Conn, hs: seq<nat>, h: nat, timeout: int)
    requires h < |c.msgs| && forall i :: 0 <= i < |hs| ==> hs[i] < |c.msgs|
    ensures var (d, n) := RequeueEach(c, hs, timeout);
            && |d.msgs| == |c.msgs|
            && RequeueEach(c, hs + [h], timeout) ==
               (RequeueHead(d, h, timeout), if SettleResult(d, h) == Ok then n + 1 else n)
    decreases |hs|
  {
    if hs == [] {
      assert hs + [h] == [h] && [h][1..] == [];
    } else {
      assert (hs + [h])[1..] == hs[1..] + [h];
      RequeueEachAppend(RequeueHead(c, hs[0], timeout), hs[1..], h, timeout);
    }
  }

  /** The first `i` messages of a snapshot. */
  ghost function RequeueFirst(c: Conn, hs: seq<nat>, i: nat, timeout: int): (Conn, nat)
    requires i <= |hs| && forall k :: 0 <= k < |hs| ==> hs[k] < |c.msgs|
  {
    RequeueEach(c, hs[..i], timeout)
  }

  lemma RequeueNext(c: Conn, hs: seq<nat>, i: nat, timeout: int)
    requires i < |hs| && forall k :: 0 <= k < |hs| ==> hs[k] < |c.msgs|
    ensures var (d, n) := RequeueFirst(c, hs, i, timeout);
            && hs[i] < |d.msgs|
            && RequeueFirst(c, hs, i + 1, timeout) ==
               (RequeueHead(d, hs[i], timeout), if SettleResult(d, hs[i]) == Ok then n + 1 else n)
  {
    RequeueEachAppend(c, hs[..i], hs[i], timeout);
    assert hs[..i + 1] == hs[..i] + [hs[i]];
  }

  /** The ledger holds messages of this connection. */
  ghost predicate HandlesValid(c: Conn)
  {
    forall i :: 0 <= i < |c.ledger| ==> c.ledger[i].1 < |c.msgs|
  }

  /** `requeue_unprocessed`. */
  ghost function RequeueLedger(c: Conn, timeout: int): (Conn, nat)
  {
    if HandlesValid(c) then RequeueEach(c, Values(c.ledger), timeout) else (c, 0)
  }

  // ---------- Closing ----------

  function FailWaiters(futures: seq<Future>, waiters: seq<nat>, reason: Reason): (fs: seq<Future>)
    ensures |fs| == |futures|
  {
    seq(|futures|, k requires 0 <= k < |futures| =>
      if k in waiters && futures[k].Pending? then Failed(reason) else futures[k])
  }

  lemma FailOneMore(futures: seq<Future>, waiters: seq<nat>, i: nat, reason: Reason)
    requires i < |waiters| && waiters[i] < |futures|
    ensures var before := FailWaiters(futures, waiters[..i], reason);
            FailWaiters(futures, waiters[..i + 1], reason) ==
            if before[waiters[i]].Pending? then before[waiters[i] := Failed(reason)] else before
  {
    assert waiters[..i + 1] == waiters[..i] + [waiters[i]];
  }

  /** `_do_close`. */
  function Closed(c: Conn, reason: Reason, sendCls: bool): Conn
  {
    if c.closed then c
    else c.(sent := if sendCls && c.writable then c.sent + [Cls] else c.sent, closed := true, closing := false,
            credit := c.credit.(rdyCount := 0), ledger := [], closeCalls := c.closeCalls + (if c.onClose then 1 else 0),
            futures := FailWaiters(c.futures, c.waiters, reason), waiters := [])
  }

  // ---------- Runs ----------

  datatype Event =
    | Recv(f: Frame)
    | RecvBad(error: ProtocolError)
    | Fin(h: nat)
    | Req(h: nat, timeout: int)
    | Touch(h: nat)
    | Handled(h: nat, failed: bool, autoFin: bool, autoRequeue: bool)
    | Execute(cmd: Command)          // a command that expects a reply
    | Cancel(k: nat)                 // the user cancels a reply future
    | SetReady(n: int)
    | Retarget(target: int)
    | RequeueInFlight(timeout: int)
    | NoticeEof
    | RunScheduledClose
    | Close                          // `TcpConnection.close`
    | InstallOnClose
    | LoseWriter                     // the transport starts to close

  /** One atomic piece of synchronous code. A drain may go on after a close, when the close
      came from a handler that was called by the drain. A message or a future that does not
      exist changes nothing. */
  ghost function Step(c: Conn, e: Event): Conn
  {
    match e
    case Recv(f) => Dispatch(c, f)
    case RecvBad(error) => Closing(c, BadFrame(error))
    case Fin(h) => if h < |c.msgs| then AfterSettle(c, h, Finish(h)) else c
    case Req(h, timeout) => if h < |c.msgs| then AfterSettle(c, h, Requeue(h, timeout)) else c
    case Touch(h) => if h < |c.msgs| then AfterTouch(c, h) else c
    case Handled(h, failed, autoFin, autoRequeue) =>
      if h < |c.msgs| then AfterHandler(c, h, failed, autoFin, autoRequeue) else c
    case Execute(cmd) => if ExpectsReply(cmd) then AfterExecute(c, cmd) else c
    case Cancel(k) => if k < |c.futures| && c.futures[k].Pending? then c.(futures := c.futures[k := Cancelled]) else c
    case SetReady(n) => AfterReady(c, n)
    case Retarget(target) => AfterRetarget(c, target)
    case RequeueInFlight(timeout) =>
      if IsClosed(c) then c else RequeueLedger(c, timeout).0
    case NoticeEof => if IsClosed(c) then c else Closing(c, EndOfStream)
    case RunScheduledClose => if c.scheduled.Some? then Closed(c, c.scheduled.value, false) else c
    case Close => Closed(c, Requested, true)
    case InstallOnClose => c.(onClose := true)
    case LoseWriter => c.(writable := false)
  }

  ghost function Run(c: Conn, es: seq<Event>): Conn
    decreases |es|
  {
    if es == [] then c else Run(Step(c, es[0]), es[1..])
  }

  // ---------- Counting ----------

  /** How many message objects are not processed. */
  function Live(msgs: seq<Msg>): nat
  {
    if msgs == [] then 0
    else Live(msgs[..|msgs| - 1]) + (if msgs[|msgs| - 1].processed then 0 else 1)
  }

  function Finishes(sent: seq<Sent>, h: nat): nat
  {
    if sent == [] then 0
    else Finishes(sent[..|sent| - 1], h) + (if sent[|sent| - 1] == Finish(h) then 1 else 0)
  }

  function Requeues(sent: seq<Sent>, h: nat): nat
  {
    if sent == [] then 0
    else
      var last := sent[|sent| - 1];
      Requeues(sent[..|sent| - 1], h) + (if last.Requeue? && last.h == h then 1 else 0)
  }

  /** The FINs and REQs written for one message object. */
  function Settlements(sent: seq<Sent>, h: nat): nat
  {
    Finishes(sent, h) + Requeues(sent, h)
  }

  lemma LiveAppend(msgs: seq<Msg>, m: Msg)
    ensures Live(msgs + [m]) == Live(msgs) + (if m.processed then 0 else 1)
  {
    assert (msgs + [m])[..|msgs|] == msgs;
  }

  lemma {:induction false} LiveMark(msgs: seq<Msg>, h: nat)
    requires h < |msgs| && !msgs[h].processed
    ensures Live(msgs) == Live(msgs[h := msgs[h].(processed := true)]) + 1
    decreases |msgs|
  {
    var n := |msgs| - 1;
    var marked := msgs[h := msgs[h].(processed := true)];
    if h < n {
      LiveMark(msgs[..n], h);
      assert marked[..n] == msgs[..n][h := msgs[h].(processed := true)];
    } else {
      assert marked[..n] == msgs[..n];
    }
  }

  lemma {:induction false} LiveZero(msgs: seq<Msg>)
    ensures Live(msgs) == 0 <==> forall h :: 0 <= h < |msgs| ==> msgs[h].processed
  {
    if msgs != [] {
      var n := |msgs| - 1;
      LiveZero(msgs[..n]);
      assert forall h :: 0 <= h < n ==> msgs[..n][h] == msgs[h];
    }
  }

  lemma SentAppend(sent: seq<Sent>, s: Sent, h: nat)
    ensures Finishes(sent + [s], h) == Finishes(sent, h) + (if s == Finish(h) then 1 else 0)
    ensures Requeues(sent + [s], h) == Requeues(sent, h) + (if s.Requeue? && s.h == h then 1 else 0)
  {
    assert (sent + [s])[..|sent|] == sent;
  }

  // ---------- What every step keeps ----------

  /** In-flight conservation, and at most one FIN or REQ for each message object, written
      exactly when it is marked. */
  ghost predicate Settling(c: Conn)
  {
    && c.credit.inFlight == Live(c.msgs)
    && forall h :: 0 <= h ==> Settlements(c.sent, h) == if h < |c.msgs| && c.msgs[h].processed then 1 else 0
  }

  /** The ledger holds only messages that are delivered and not processed, by their ids. */
  ghost predicate Tracking(c: Conn)
  {
    && Unique(c.ledger)
    && forall e :: e in c.ledger ==> e.1 < |c.msgs| && c.msgs[e.1] == Msg(e.0, false)
  }

  /** Waiters are the futures that no reply has reached, oldest first; the k-th reply that
      took a waiter settled the k-th future. */
  ghost predicate Pairing(c: Conn)
  {
    && |c.answers| <= |c.futures|
    && (forall k :: 0 <= k < |c.answers| ==> !c.answers[k].Pending? && c.futures[k] in {c.answers[k], Cancelled})
    && c.waiters == (if c.closed then [] else seq(|c.futures| - |c.answers|, i => |c.answers| + i))
    && (forall k :: |c.answers| <= k < |c.futures| ==>
          if c.closed then c.futures[k].Failed? || c.futures[k].Cancelled?
          else c.futures[k].Pending? || c.futures[k].Cancelled?)
    && c.closeCalls <= 1 && (!c.closed ==> c.closeCalls == 0)
  }

  ghost predicate ConnInv(c: Conn)
  {
    Settling(c) && Tracking(c) && Pairing(c)
  }

  // Settling.

  lemma SettlingSent(c: Conn, s: Sent)
    requires Settling(c) && !s.Finish? && !s.Requeue?
    ensures Settling(c.(sent := c.sent + [s]))
  {
    forall h | 0 <= h
      ensures Settlements(c.sent + [s], h) == Settlements(c.sent, h)
    {
      SentAppend(c.sent, s, h);
    }
  }

  lemma SettlingMessage(c: Conn, id: bytes)
    requires Settling(c)
    ensures Settling(OnMessage(c, id))
  {
    LiveAppend(c.msgs, Msg(id, false));
  }

  lemma SettlingSettle(c: Conn, h: nat, s: Sent)
    requires Settling(c) && h < |c.msgs|
    requires s == Finish(h) || (s.Requeue? && s.h == h)
    ensures Settling(AfterSettle(c, h, s))
    ensures SettleResult(c, h) == Ok ==> AfterSettle(c, h, s).credit.inFlight == c.credit.inFlight - 1
  {
    if SettleResult(c, h) == Ok {
      LiveMark(c.msgs, h);
      OneMoreSettlement(c.sent, h, s);
    }
  }

  lemma OneMoreSettlement(sent: seq<Sent>, h: nat, s: Sent)
    requires s == Finish(h) || (s.Requeue? && s.h == h)
    ensures forall x :: 0 <= x ==> Settlements(sent + [s], x) == Settlements(sent, x) + (if x == h then 1 else 0)
  {
    forall x | 0 <= x
      ensures Settlements(sent + [s], x) == Settlements(sent, x) + (if x == h then 1 else 0)
    {
      SentAppend(sent, s, x);
    }
  }

  // Tracking.

  lemma TrackingMessage(c: Conn, id: bytes)
    requires Tracking(c)
    ensures Tracking(OnMessage(c, id))
  {
    var h: nat := |c.msgs|;
    PutMembers(c.ledger, id, h);
  }

  lemma TrackingSettle(c: Conn, h: nat, s: Sent)
    requires Tracking(c) && h < |c.msgs|
    ensures Tracking(AfterSettle(c, h, s))
  {
    PopMembers(c.ledger, c.msgs[h].id);
  }

  // Pairing.

  lemma PairingAnswer(c: Conn, answer: Future)
    requires Pairing(c) && c.waiters != [] && (answer.Resolved? || answer.Failed?)
    ensures Pairing(Answered(c, answer))
    ensures Answered(c, answer).answers == c.answers + [answer]
  {
    assert c.waiters[0] == |c.answers|;
    var n := |c.futures| - |c.answers|;
    assert c.waiters[1..] == seq(n - 1, i => |c.answers| + 1 + i);
  }

  lemma PairingExecute(c: Conn, cmd: Command)
    requires Pairing(c)
    ensures Pairing(AfterExecute(c, cmd))
  {
    if !IsClosed(c) {
      var n := |c.futures| - |c.answers|;
      assert c.waiters + [|c.futures|] == seq(n + 1, i => |c.answers| + i);
    }
  }

  lemma PairingClosed(c: Conn, reason: Reason, sendCls: bool)
    requires Pairing(c)
    ensures Pairing(Closed(c, reason, sendCls))
    ensures var d := Closed(c, reason, sendCls);
            !c.closed ==>
              && d.closeCalls == (if c.onClose then 1 else 0) && |d.futures| == |c.futures|
              && forall k :: 0 <= k < |c.futures| ==>
                   d.futures[k] == if c.futures[k].Pending? then Failed(reason) else c.futures[k]
  {
    if !c.closed {
      forall k | |c.answers| <= k < |c.futures|
        ensures k in c.waiters
      {
        assert c.waiters[k - |c.answers|] == k;
      }
      forall k | 0 <= k < |c.answers|
        ensures k !in c.waiters
      {
      }
    }
  }

  // All three, event by event.

  lemma AnswerKeeps(c: Conn, answer: Future)
    requires ConnInv(c) && c.waiters != [] && (answer.Resolved? || answer.Failed?)
    ensures ConnInv(Answered(c, answer))
  {
    PairingAnswer(c, answer);
  }

  lemma ResponseKeeps(c: Conn, body: bytes)
    requires ConnInv(c)
    ensures ConnInv(OnResponse(c, body))
  {
    if body == HEARTBEAT {
      SettlingSent(c, Nop);
    } else if c.waiters != [] {
      AnswerKeeps(c, Resolved(body));
    }
  }

  lemma ErrorKeeps(c: Conn, code: bytes, msg: bytes)
    requires ConnInv(c)
    ensures ConnInv(OnError(c, code, msg))
  {
    var reason := ServerError(code, msg);
    var d := if c.waiters == [] then c else Answered(c, Failed(reason));
    if c.waiters != [] { AnswerKeeps(c, Failed(reason)); }
    ClosingKeeps(d, reason);
  }

  lemma DispatchKeeps(c: Conn, f: Frame)
    requires ConnInv(c)
    ensures ConnInv(Dispatch(c, f))
  {
    match f
    case Response(body) => ResponseKeeps(c, body);
    case Error(code, msg) => ErrorKeeps(c, code, msg);
    case Message(_, _, id, _) =>
      SettlingMessage(c, id);
      TrackingMessage(c, id);
  }

  lemma SettleKeeps(c: Conn, h: nat, s: Sent)
    requires ConnInv(c) && h < |c.msgs|
    requires s == Finish(h) || (s.Requeue? && s.h == h)
    ensures ConnInv(AfterSettle(c, h, s))
  {
    SettlingSettle(c, h, s);
    TrackingSettle(c, h, s);
  }

  lemma HandlerKeeps(c: Conn, h: nat, failed: bool, autoFin: bool, autoRequeue: bool)
    requires ConnInv(c) && h < |c.msgs|
    ensures ConnInv(AfterHandler(c, h, failed, autoFin, autoRequeue))
  {
    SettleKeeps(c, h, Requeue(h, 0));
    SettleKeeps(c, h, Finish(h));
  }

  lemma ExecuteKeeps(c: Conn, cmd: Command)
    requires ConnInv(c)
    ensures ConnInv(AfterExecute(c, cmd))
  {
    PairingExecute(c, cmd);
    SettlingSent(c, Request(cmd, |c.futures|));
  }

  lemma ReadyKeeps(c: Conn, n: int)
    requires ConnInv(c)
    ensures ConnInv(AfterReady(c, n))
  {
    SettlingSent(c, Ready(n));
  }

  lemma RetargetKeeps(c: Conn, target: int)
    requires ConnInv(c)
    ensures ConnInv(AfterRetarget(c, target))
  {
    SettlingSent(c, Ready(RdyFor(c.credit, target)));
  }

  lemma ClosedKeeps(c: Conn, reason: Reason, sendCls: bool)
    requires ConnInv(c)
    ensures ConnInv(Closed(c, reason, sendCls))
  {
    PairingClosed(c, reason, sendCls);
    SettlingSent(c, Cls);
  }

  /** Requeueing the oldest tracked message writes its REQ and takes it from the ledger. */
  lemma RequeueOldest(c: Conn, timeout: int)
    requires ConnInv(c) && !IsClosed(c) && c.ledger != []
    ensures var h := c.ledger[0].1;
            && h < |c.msgs| && !c.msgs[h].processed
            && var c' := AfterSettle(c, h, Requeue(h, timeout));
               && ConnInv(c') && !IsClosed(c') && |c'.msgs| == |c.msgs|
               && c'.ledger == c.ledger[1..] && c'.credit.inFlight == c.credit.inFlight - 1
  {
    assert c.ledger[0] in c.ledger;
    var h := c.ledger[0].1;
    SettleKeeps(c, h, Requeue(h, timeout));
    SettlingSettle(c, h, Requeue(h, timeout));
  }

  lemma LedgerHandles(c: Conn)
    requires Tracking(c)
    ensures HandlesValid(c)
    ensures forall i :: 0 <= i < |c.ledger| ==> Values(c.ledger)[i] < |c.msgs|
  {
    assert forall i :: 0 <= i < |c.ledger| ==> c.ledger[i] in c.ledger;
  }

  /** The snapshot of the ledger never meets a processed message: each of its messages is
      requeued, and the ledger is empty afterwards. */
  lemma {:induction false} RequeueEachKeeps(c: Conn, hs: seq<nat>, timeout: int)
    requires ConnInv(c) && !IsClosed(c)
    requires hs == Values(c.ledger)
    ensures forall i :: 0 <= i < |hs| ==> hs[i] < |c.msgs|
    ensures var (c', n) := RequeueEach(c, hs, timeout);
            && ConnInv(c') && !IsClosed(c') && c'.ledger == [] && n == |hs|
            && c'.credit.inFlight == c.credit.inFlight - n
    decreases |hs|
  {
    LedgerHandles(c);
    if hs != [] {
      RequeueOldest(c, timeout);
      var c1 := AfterSettle(c, hs[0], Requeue(hs[0], timeout));
      assert hs[1..] == Values(c1.ledger);
      RequeueEachKeeps(c1, hs[1..], timeout);
    }
  }

  lemma ClosingKeeps(c: Conn, reason: Reason)
    requires ConnInv(c)
    ensures ConnInv(Closing(c, reason))
  {
  }

  lemma TouchKeeps(c: Conn, h: nat)
    requires ConnInv(c) && h < |c.msgs|
    ensures ConnInv(AfterTouch(c, h))
  {
    SentKeeps(c, TouchMsg(h));
  }

  lemma SentKeeps(c: Conn, s: Sent)
    requires ConnInv(c) && !s.Finish? && !s.Requeue?
    ensures ConnInv(c.(sent := c.sent + [s]))
  {
    SettlingSent(c, s);
  }

  lemma CancelKeeps(c: Conn, k: nat)
    requires ConnInv(c) && k < |c.futures| && c.futures[k].Pending?
    ensures ConnInv(c.(futures := c.futures[k := Cancelled]))
  {
  }

  /** What is done through a message object. */
  lemma MessageStepKeeps(c: Conn, e: Event)
    requires ConnInv(c) && (e.Fin? || e.Req? || e.Touch? || e.Handled?)
    ensures ConnInv(Step(c, e))
  {
    if e.h < |c.msgs| {
      match e
      case Fin(h) => SettleKeeps(c, h, Finish(h));
      case Req(h, timeout) => SettleKeeps(c, h, Requeue(h, timeout));
      case Touch(h) => TouchKeeps(c, h);
      case Handled(h, failed, autoFin, autoRequeue) => HandlerKeeps(c, h, failed, autoFin, autoRequeue);
    }
  }

  lemma EndingStepKeeps(c: Conn, e: Event)
    requires ConnInv(c) && (e.RequeueInFlight? || e.NoticeEof? || e.RunScheduledClose? || e.Close?)
    ensures ConnInv(Step(c, e))
  {
    match e
    case RequeueInFlight(timeout) => if !IsClosed(c) { RequeueEachKeeps(c, Values(c.ledger), timeout); }
    case NoticeEof => ClosingKeeps(c, EndOfStream);
    case RunScheduledClose => if c.scheduled.Some? { ClosedKeeps(c, c.scheduled.value, false); }
    case Close => ClosedKeeps(c, Requested, true);
  }

  lemma StepKeeps(c: Conn, e: Event)
    requires ConnInv(c)
    ensures ConnInv(Step(c, e))
  {
    match e
    case Recv(f) => DispatchKeeps(c, f);
    case RecvBad(error) => ClosingKeeps(c, BadFrame(error));
    case Execute(cmd) => ExecuteKeeps(c, cmd);
    case Cancel(k) => if k < |c.futures| && c.futures[k].Pending? { CancelKeeps(c, k); }
    case SetReady(n) => ReadyKeeps(c, n);
    case Retarget(target) => RetargetKeeps(c, target);
    case InstallOnClose =>
    case LoseWriter =>
    case Fin(_) => MessageStepKeeps(c, e);
    case Req(_, _) => MessageStepKeeps(c, e);
    case Touch(_) => MessageStepKeeps(c, e);
    case Handled(_, _, _, _) => MessageStepKeeps(c, e);
    case _ => EndingStepKeeps(c, e);
  }

  lemma {:induction false} RunKeeps(c: Conn, es: seq<Event>)
    requires ConnInv(c)
    ensures ConnInv(Run(c, es))
    decreases |es|
  {
    if es != [] {
      StepKeeps(c, es[0]);
      RunKeeps(Step(c, es[0]), es[1..]);
    }
  }

  lemma NewKeeps(maxRdy: int)
    ensures ConnInv(NewConn(maxRdy))
  {
    assert NewConn(maxRdy).waiters == seq(0, i => i);
  }

  // ---------- Over all runs ----------

  /** At most one FIN or REQ is ever written for a message object, over all runs that mix
      user calls, handlers, closes and requeueing; one has been written exactly when the
      object is marked processed. */
  lemma AtMostOnceSettlement(maxRdy: int, es: seq<Event>, h: nat)
    ensures var c := Run(NewConn(maxRdy), es);
            && Settlements(c.sent, h) <= 1
            && (Settlements(c.sent, h) == 1 <==> h < |c.msgs| && c.msgs[h].processed)
  {
    NewKeeps(maxRdy);
    RunKeeps(NewConn(maxRdy), es);
  }

  /** `in_flight` is always the number of delivered messages that are not processed, also
      when nsqd delivers an id again; the clamp at 0 never changes it. */
  lemma InFlightConservation(maxRdy: int, es: seq<Event>)
    ensures var c := Run(NewConn(maxRdy), es);
            && c.credit.inFlight == Live(c.msgs)
            && (c.credit.inFlight > 0 <==> exists h :: 0 <= h < |c.msgs| && !c.msgs[h].processed)
  {
    NewKeeps(maxRdy);
    RunKeeps(NewConn(maxRdy), es);
    LiveZero(Run(NewConn(maxRdy), es).msgs);
  }

  /** The k-th reply that took a waiter settles the k-th command that expects a reply; after
      the close nothing is pending, nobody waits, and the callback has run at most once. */
  lemma WaiterPairing(maxRdy: int, es: seq<Event>)
    ensures var c := Run(NewConn(maxRdy), es);
            && |c.answers| <= |c.futures|
            && (forall k :: 0 <= k < |c.answers| ==> c.futures[k] in {c.answers[k], Cancelled})
            && (!c.closed ==> |c.waiters| == |c.futures| - |c.answers|)
            && (c.closed ==> c.waiters == [] && forall k :: 0 <= k < |c.futures| ==> !c.futures[k].Pending?)
            && c.closeCalls <= (if c.closed then 1 else 0)
  {
    NewKeeps(maxRdy);
    RunKeeps(NewConn(maxRdy), es);
  }

  // ---------- A future is settled once ----------

  /** The waiter that a reply takes is not settled yet, so `set_result` cannot raise. */
  lemma OldestWaiterIsUnsettled(c: Conn)
    requires Pairing(c) && c.waiters != []
    ensures c.waiters[0] < |c.futures|
    ensures c.futures[c.waiters[0]].Pending? || c.futures[c.waiters[0]].Cancelled?
  {
    assert c.waiters[0] == |c.answers|;
  }

  lemma AnswerSettlesOnce(c: Conn, answer: Future, k: nat)
    requires Pairing(c) && c.waiters != [] && k < |c.futures| && !c.futures[k].Pending?
    ensures Answered(c, answer).futures[k] == c.futures[k]
  {
    OldestWaiterIsUnsettled(c);
  }

  lemma DispatchSettlesOnce(c: Conn, f: Frame, k: nat)
    requires ConnInv(c) && k < |c.futures| && !c.futures[k].Pending?
    ensures |Dispatch(c, f).futures| == |c.futures| && Dispatch(c, f).futures[k] == c.futures[k]
  {
    if c.waiters != [] {
      match f
      case Response(body) => AnswerSettlesOnce(c, Resolved(body), k);
      case Error(code, msg) => AnswerSettlesOnce(c, Failed(ServerError(code, msg)), k);
      case Message(_, _, _, _) =>
    }
  }

  lemma {:induction false} RequeueKeepsFutures(c: Conn, hs: seq<nat>, timeout: int)
    requires forall i :: 0 <= i < |hs| ==> hs[i] < |c.msgs|
    ensures RequeueEach(c, hs, timeout).0.futures == c.futures
    ensures IsClosed(RequeueEach(c, hs, timeout).0) <==> IsClosed(c)
    decreases |hs|
  {
    if hs != [] { RequeueKeepsFutures(RequeueHead(c, hs[0], timeout), hs[1..], timeout); }
  }

  lemma StepSettlesOnce(c: Conn, e: Event, k: nat)
    requires ConnInv(c) && k < |c.futures| && !c.futures[k].Pending?
    ensures k < |Step(c, e).futures| && Step(c, e).futures[k] == c.futures[k]
  {
    match e
    case Recv(f) => DispatchSettlesOnce(c, f, k);
    case RequeueInFlight(timeout) =>
      LedgerHandles(c);
      RequeueKeepsFutures(c, Values(c.ledger), timeout);
    case _ =>
  }

  /** Every future is settled at most once: whatever a future was settled with, resolved,
      failed or cancelled, it keeps over every run that follows. */
  lemma {:induction false} SettledForGood(c: Conn, es: seq<Event>, k: nat)
    requires ConnInv(c) && k < |c.futures| && !c.futures[k].Pending?
    ensures k < |Run(c, es).futures| && Run(c, es).futures[k] == c.futures[k]
    decreases |es|
  {
    if es != [] {
      StepSettlesOnce(c, es[0], k);
      StepKeeps(c, es[0]);
      SettledForGood(Step(c, es[0]), es[1..], k);
    }
  }
}
