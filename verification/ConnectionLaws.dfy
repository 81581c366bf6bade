/** Laws of one connection that need a condition, each with exactly when it holds. */
module ConnectionLaws {
  import opened Prelude
  import opened Frames
  import opened Commands
  import opened Credit
  import opened OrderedDict
  import opened ConnectionState

  // ---------- The ledger ----------

  /** Every unprocessed message object can be found in the ledger. */
  ghost predicate LedgerComplete(c: Conn)
  {
    forall h :: 0 <= h < |c.msgs| && !c.msgs[h].processed ==> (c.msgs[h].id, h) in c.ledger
  }

  ghost predicate IsLive(c: Conn, id: bytes)
  {
    exists h :: 0 <= h < |c.msgs| && c.msgs[h] == Msg(id, false)
  }

  /** A delivery keeps the ledger complete if and only if its id is not live: a message that
      nsqd sends again replaces the earlier object under the same key. */
  lemma DeliveryIsTrackedIff(c: Conn, id: bytes)
    requires Tracking(c) && LedgerComplete(c)
    ensures LedgerComplete(OnMessage(c, id)) <==> !IsLive(c, id)
  {
    var h: nat := |c.msgs|;
    var d := OnMessage(c, id);
    PutMembers(c.ledger, id, h);
    if IsLive(c, id) {
      var x :| 0 <= x < |c.msgs| && c.msgs[x] == Msg(id, false);
      assert d.msgs[x] == Msg(id, false) && (id, x) !in d.ledger;
    } else {
      forall x | 0 <= x < |d.msgs| && !d.msgs[x].processed
        ensures (d.msgs[x].id, x) in d.ledger
      {
        if x < |c.msgs| { assert c.msgs[x] == d.msgs[x] == Msg(c.msgs[x].id, false); }
      }
    }
  }

  lemma SameKey(d: Dict<bytes, nat>, k: bytes, x: nat, y: nat)
    requires Unique(d) && (k, x) in d && (k, y) in d
    ensures x == y
  {
    var i :| 0 <= i < |d| && d[i] == (k, x);
    var j :| 0 <= j < |d| && d[j] == (k, y);
  }

  lemma SettleStaysComplete(c: Conn, h: nat, s: Sent)
    requires Tracking(c) && LedgerComplete(c) && h < |c.msgs|
    ensures LedgerComplete(AfterSettle(c, h, s))
  {
    if SettleResult(c, h) == Ok {
      var d := AfterSettle(c, h, s);
      PopMembers(c.ledger, c.msgs[h].id);
      forall x | 0 <= x < |d.msgs| && !d.msgs[x].processed
        ensures (d.msgs[x].id, x) in d.ledger
      {
        assert d.msgs[x] == c.msgs[x];
        if c.msgs[x].id == c.msgs[h].id { SameKey(c.ledger, c.msgs[h].id, x, h); }
      }
    }
  }

  /** The requeued messages are gone from the ledger because they are processed. */
  lemma {:induction false} RequeueStaysComplete(c: Conn, hs: seq<nat>, timeout: int)
    requires ConnInv(c) && !IsClosed(c) && LedgerComplete(c) && hs == Values(c.ledger)
    requires forall i :: 0 <= i < |hs| ==> hs[i] < |c.msgs|
    ensures LedgerComplete(RequeueEach(c, hs, timeout).0)
    decreases |hs|
  {
    if hs != [] {
      RequeueOldest(c, timeout);
      var c1 := AfterSettle(c, hs[0], Requeue(hs[0], timeout));
      SettleStaysComplete(c, hs[0], Requeue(hs[0], timeout));
      assert hs[1..] == Values(c1.ledger);
      RequeueStaysComplete(c1, hs[1..], timeout);
    }
  }

  /** No message arrives with an id that is live on its connection. */
  ghost predicate FreshIds(c: Conn, es: seq<Event>)
    decreases |es|
  {
    es == [] ||
    ((es[0].Recv? && es[0].f.Message? ==> !IsLive(c, es[0].f.id)) && FreshIds(Step(c, es[0]), es[1..]))
  }

  lemma MessageStepStaysComplete(c: Conn, e: Event)
    requires Tracking(c) && LedgerComplete(c) && (e.Fin? || e.Req? || e.Handled?)
    ensures LedgerComplete(Step(c, e))
  {
    if e.h < |c.msgs| {
      SettleStaysComplete(c, e.h, Finish(e.h));
      SettleStaysComplete(c, e.h, Requeue(e.h, if e.Req? then e.timeout else 0));
    }
  }

  /** Nothing happened to the messages. */
  predicate SameLedger(c: Conn, d: Conn)
  {
    d.msgs == c.msgs && d.ledger == c.ledger && d.closed == c.closed
  }

  lemma ResponseTouchesNoMessage(c: Conn, body: bytes)
    ensures SameLedger(c, OnResponse(c, body))
  {
  }

  lemma ErrorTouchesNoMessage(c: Conn, code: bytes, msg: bytes)
    ensures SameLedger(c, OnError(c, code, msg))
  {
  }

  /** A frame that is no message touches no message. */
  lemma FrameTouchesNoMessage(c: Conn, f: Frame)
    requires !f.Message?
    ensures SameLedger(c, Dispatch(c, f))
  {
    match f
    case Response(body) => ResponseTouchesNoMessage(c, body);
    case Error(code, msg) => ErrorTouchesNoMessage(c, code, msg);
  }

  /** Neither does a call that settles nothing; a close forgets the ledger. */
  lemma CallTouchesNoMessage(c: Conn, e: Event)
    requires !e.Recv? && !e.Fin? && !e.Req? && !e.Handled? && !e.RequeueInFlight?
    ensures var d := Step(c, e); d.msgs == c.msgs && (d.closed == c.closed ==> d.ledger == c.ledger)
    ensures c.closed ==> Step(c, e).closed
  {
  }

  lemma StepStaysComplete(c: Conn, e: Event)
    requires ConnInv(c) && (c.closed || LedgerComplete(c))
    requires e.Recv? && e.f.Message? ==> !IsLive(c, e.f.id)
    ensures Step(c, e).closed || LedgerComplete(Step(c, e))
  {
    if c.closed {
      ClosedForGood(c, e);
    } else if e.Fin? || e.Req? || e.Handled? {
      MessageStepStaysComplete(c, e);
    } else if e.RequeueInFlight? {
      if !IsClosed(c) {
        LedgerHandles(c);
        RequeueStaysComplete(c, Values(c.ledger), e.timeout);
      }
    } else if e.Recv? && e.f.Message? {
      DeliveryIsTrackedIff(c, e.f.id);
    } else if e.Recv? {
      FrameTouchesNoMessage(c, e.f);
    } else {
      CallTouchesNoMessage(c, e);
    }
  }

  lemma ClosedForGood(c: Conn, e: Event)
    requires c.closed
    ensures Step(c, e).closed
  {
    if e.Recv? {
      if !e.f.Message? { FrameTouchesNoMessage(c, e.f); }
    } else if !e.Fin? && !e.Req? && !e.Handled? && !e.RequeueInFlight? {
      CallTouchesNoMessage(c, e);
    }
  }

  lemma {:induction false} RunStaysComplete(c: Conn, es: seq<Event>)
    requires ConnInv(c) && (c.closed || LedgerComplete(c)) && FreshIds(c, es)
    ensures Run(c, es).closed || LedgerComplete(Run(c, es))
    decreases |es|
  {
    if es != [] {
      StepKeeps(c, es[0]);
      StepStaysComplete(c, es[0]);
      RunStaysComplete(Step(c, es[0]), es[1..]);
    }
  }

  /** With distinct live ids, the ledger of a connection that is not closed is exactly the
      set of its delivered and unprocessed messages, over all runs. */
  lemma LedgerIsExact(maxRdy: int, es: seq<Event>, k: bytes, h: nat)
    requires FreshIds(NewConn(maxRdy), es) && !Run(NewConn(maxRdy), es).closed
    ensures var c := Run(NewConn(maxRdy), es);
            (k, h) in c.ledger <==> h < |c.msgs| && c.msgs[h] == Msg(k, false)
  {
    NewKeeps(maxRdy);
    RunKeeps(NewConn(maxRdy), es);
    RunStaysComplete(NewConn(maxRdy), es);
  }

  /** Whatever a snapshot holds for it, a message is out of the ledger of an open connection once
      the loop over the snapshot has met it, and so is every later message of its id. */
  lemma RequeuedLeavesTheLedger(c: Conn, h: nat, timeout: int)
    requires Unique(c.ledger) && h < |c.msgs| && !IsClosed(c)
    ensures var d := RequeueHead(c, h, timeout);
            && d.msgs[h].processed
            && forall e :: e in d.ledger <==> e in c.ledger && e.0 != c.msgs[h].id
  {
    PopMembers(c.ledger, c.msgs[h].id);
  }

  // ---------- Conservation ----------

  /** A FIN that bypasses the message object, as `execute(FIN, id)` does, keeps the count
      of in-flight messages right if and only if there are none, or it is refused. */
  lemma RawFinKeepsConservationIff(c: Conn, h: nat)
    requires ConnInv(c)
    ensures var d := AfterWrite(c, Finish(h));
            d.credit.inFlight == Live(d.msgs) <==> IsClosed(c) || c.credit.inFlight == 0
  {
    assert AfterWrite(c, Finish(h)).msgs == c.msgs;
  }

  // ---------- Replies and commands ----------

  /** The futures of the commands that were written, in the order of the writes. */
  function Written(sent: seq<Sent>): seq<nat>
  {
    if sent == [] then []
    else
      var last := sent[|sent| - 1];
      Written(sent[..|sent| - 1]) + (if last.Request? then [last.future] else [])
  }

  lemma WrittenAppend(sent: seq<Sent>, s: Sent)
    ensures Written(sent + [s]) == Written(sent) + (if s.Request? then [s.future] else [])
  {
    assert (sent + [s])[..|sent|] == sent;
  }

  /** A call of `execute` that gets as far as creating a future. */
  predicate Executes(c: Conn, e: Event)
  {
    e.Execute? && ExpectsReply(e.cmd) && !IsClosed(c)
  }

  /** The calls of `execute` in a run that raise because their data cannot be encoded. */
  ghost function EncodeErrors(c: Conn, es: seq<Event>): nat
    decreases |es|
  {
    if es == [] then 0
    else
      (if Executes(c, es[0]) && ExecuteResult(c, es[0].cmd) == EncodeError then 1 else 0)
      + EncodeErrors(Step(c, es[0]), es[1..])
  }

  /** From `c` to `d` no command that expects a reply was executed. */
  predicate Silent(c: Conn, d: Conn)
  {
    |d.futures| == |c.futures| && Written(d.sent) == Written(c.sent)
  }

  lemma SilentSend(c: Conn, s: Sent, h: nat)
    requires !s.Request?
    ensures Silent(c, c.(sent := c.sent + [s]))
    ensures h < |c.msgs| ==> Silent(c, AfterSettle(c, h, s))
  {
    WrittenAppend(c.sent, s);
  }

  lemma SilentDispatch(c: Conn, f: Frame)
    ensures Silent(c, Dispatch(c, f))
  {
    match f
    case Response(body) => SilentResponse(c, body);
    case Error(code, msg) => SilentError(c, code, msg);
    case Message(_, _, _, _) => assert Dispatch(c, f).sent == c.sent;
  }

  lemma SilentResponse(c: Conn, body: bytes)
    ensures Silent(c, OnResponse(c, body))
  {
    if body == HEARTBEAT { WrittenAppend(c.sent, Nop); }
  }

  lemma SilentError(c: Conn, code: bytes, msg: bytes)
    ensures Silent(c, OnError(c, code, msg))
  {
    assert OnError(c, code, msg).sent == c.sent;
  }

  lemma SilentHandler(c: Conn, h: nat, failed: bool, autoFin: bool, autoRequeue: bool)
    requires h < |c.msgs|
    ensures Silent(c, AfterHandler(c, h, failed, autoFin, autoRequeue))
  {
    SilentSend(c, Finish(h), h);
    SilentSend(c, Requeue(h, 0), h);
  }

  lemma SilentReady(c: Conn, n: int)
    ensures Silent(c, AfterReady(c, n))
  {
    WrittenAppend(c.sent, Ready(n));
  }

  lemma SilentRetarget(c: Conn, target: int)
    ensures Silent(c, AfterRetarget(c, target))
  {
    WrittenAppend(c.sent, Ready(RdyFor(c.credit, target)));
  }

  lemma SilentClosed(c: Conn, reason: Reason, sendCls: bool)
    ensures Silent(c, Closed(c, reason, sendCls))
  {
    WrittenAppend(c.sent, Cls);
  }

  lemma ExecuteWrites(c: Conn, cmd: Command)
    requires !IsClosed(c)
    ensures var d := AfterExecute(c, cmd);
            && |d.futures| == |c.futures| + 1
            && Written(d.sent) == Written(c.sent) + (if ExecuteResult(c, cmd) == Ok then [|c.futures|] else [])
  {
    WrittenAppend(c.sent, Request(cmd, |c.futures|));
  }

  lemma SilentMessageCall(c: Conn, e: Event)
    requires e.Fin? || e.Req? || e.Touch? || e.Handled?
    ensures Silent(c, Step(c, e))
  {
    match e
    case Fin(h) => SilentSend(c, Finish(h), h);
    case Req(h, timeout) => SilentSend(c, Requeue(h, timeout), h);
    case Touch(h) => SilentSend(c, TouchMsg(h), h);
    case Handled(h, failed, autoFin, autoRequeue) =>
      if h < |c.msgs| { SilentHandler(c, h, failed, autoFin, autoRequeue); }
  }

  /** Only `execute` adds futures and written commands. */
  lemma StepIsSilent(c: Conn, e: Event)
    requires ConnInv(c) && !Executes(c, e)
    ensures Silent(c, Step(c, e))
  {
    match e
    case Recv(f) => SilentDispatch(c, f);
    case Fin(_) => SilentMessageCall(c, e);
    case Req(_, _) => SilentMessageCall(c, e);
    case Touch(_) => SilentMessageCall(c, e);
    case Handled(_, _, _, _) => SilentMessageCall(c, e);
    case SetReady(n) => SilentReady(c, n);
    case Retarget(target) => SilentRetarget(c, target);
    case RequeueInFlight(timeout) =>
      LedgerHandles(c);
      RequeueWrites(c, Values(c.ledger), timeout);
    case RunScheduledClose => if c.scheduled.Some? { SilentClosed(c, c.scheduled.value, false); }
    case Close => SilentClosed(c, Requested, true);
    case _ =>
  }

  lemma {:induction false} RequeueWrites(c: Conn, hs: seq<nat>, timeout: int)
    requires forall i :: 0 <= i < |hs| ==> hs[i] < |c.msgs|
    ensures Silent(c, RequeueEach(c, hs, timeout).0)
    decreases |hs|
  {
    if hs != [] {
      var h := hs[0];
      WrittenAppend(c.sent, Requeue(h, timeout));
      RequeueWrites(RequeueHead(c, h, timeout), hs[1..], timeout);
    }
  }

  function Upto(n: nat): seq<nat>
  {
    if n == 0 then [] else Upto(n - 1) + [n - 1]
  }

  lemma {:induction false} UptoAt(n: nat)
    ensures |Upto(n)| == n && forall k :: 0 <= k < n ==> Upto(n)[k] == k
  {
    if n > 0 { UptoAt(n - 1); }
  }

  /** The k-th future belongs to the k-th written command, for every k. */
  predicate Aligned(c: Conn)
  {
    Written(c.sent) == Upto(|c.futures|)
  }

  lemma OneEncodeError(c: Conn, e: Event)
    ensures EncodeErrors(c, [e]) == if Executes(c, e) && ExecuteResult(c, e.cmd) == EncodeError then 1 else 0
  {
    assert EncodeErrors(Step(c, e), [e][1..]) == 0;
  }

  lemma StepAligned(c: Conn, e: Event)
    requires ConnInv(c)
    ensures |Step(c, e).futures| - |Written(Step(c, e).sent)| ==
            |c.futures| - |Written(c.sent)| + EncodeErrors(c, [e])
    ensures Aligned(c) && EncodeErrors(c, [e]) == 0 ==> Aligned(Step(c, e))
  {
    OneEncodeError(c, e);
    if Executes(c, e) { ExecuteWrites(c, e.cmd); } else { StepIsSilent(c, e); }
  }

  lemma {:induction false} RunAligned(c: Conn, es: seq<Event>)
    requires ConnInv(c)
    ensures |Run(c, es).futures| - |Written(Run(c, es).sent)| == |c.futures| - |Written(c.sent)| + EncodeErrors(c, es)
    ensures Aligned(c) && EncodeErrors(c, es) == 0 ==> Aligned(Run(c, es))
    decreases |es|
  {
    if es != [] {
      StepKeeps(c, es[0]);
      StepAligned(c, es[0]);
      RunAligned(Step(c, es[0]), es[1..]);
      assert EncodeErrors(c, es) == EncodeErrors(c, [es[0]]) + EncodeErrors(Step(c, es[0]), es[1..]) by {
        assert EncodeErrors(Step(c, es[0]), [es[0]][1..]) == 0;
      }
    }
  }

  /** nsqd answers written commands in order, and the client gives the k-th answer to the
      k-th future. The k-th future is that of the k-th written command, for every k, if and
      only if no `execute` raised for data that cannot be encoded. */
  lemma FuturesMatchWrittenCommandsIff(maxRdy: int, es: seq<Event>)
    ensures Aligned(Run(NewConn(maxRdy), es)) <==> EncodeErrors(NewConn(maxRdy), es) == 0
  {
    NewKeeps(maxRdy);
    RunAligned(NewConn(maxRdy), es);
    UptoAt(|Run(NewConn(maxRdy), es).futures|);
  }
}
