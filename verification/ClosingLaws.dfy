/** When a connection closes, why, and with what its pending futures fail: over whole runs, in
    terms of the events that happened. */
module ClosingLaws {
  import opened Prelude
  import opened ConnectionState
  import opened ConnectionLaws
  import opened WireLaws
  import Frames
  import OrderedDict
  import ClientSystem

  /** Any code but E_FINISH_FAILED, E_FIN_FAILED, E_REQUEUE_FAILED, E_REQ_FAILED and
      E_TOUCH_FAILED. */
  predicate FatalCode(code: bytes)
  {
    var failed := [0x5F, 0x46, 0x41, 0x49, 0x4C, 0x45, 0x44];
    && code != [0x45, 0x5F, 0x46, 0x49, 0x4E, 0x49, 0x53, 0x48] + failed
    && code != [0x45, 0x5F, 0x46, 0x49, 0x4E] + failed
    && code != [0x45, 0x5F, 0x52, 0x45, 0x51, 0x55, 0x45, 0x55, 0x45] + failed
    && code != [0x45, 0x5F, 0x52, 0x45, 0x51] + failed
    && code != [0x45, 0x5F, 0x54, 0x4F, 0x55, 0x43, 0x48] + failed
  }

  lemma FatalCodes(code: bytes)
    ensures IsFatal(code) <==> FatalCode(code)
  {
    var failed := [0x5F, 0x46, 0x41, 0x49, 0x4C, 0x45, 0x44];
    assert Ascii("E_FINISH_FAILED") == [0x45, 0x5F, 0x46, 0x49, 0x4E, 0x49, 0x53, 0x48] + failed;
    assert Ascii("E_FIN_FAILED") == [0x45, 0x5F, 0x46, 0x49, 0x4E] + failed;
    assert Ascii("E_REQUEUE_FAILED") == [0x45, 0x5F, 0x52, 0x45, 0x51, 0x55, 0x45, 0x55, 0x45] + failed;
    assert Ascii("E_REQ_FAILED") == [0x45, 0x5F, 0x52, 0x45, 0x51] + failed;
    assert Ascii("E_TOUCH_FAILED") == [0x45, 0x5F, 0x54, 0x4F, 0x55, 0x43, 0x48] + failed;
  }

  /** What makes the client close by itself. */
  function CauseOf(e: Event): Option<Reason>
  {
    match e
    case RecvBad(error) => Some(BadFrame(error))
    case Recv(Error(code, msg)) => if FatalCode(code) then Some(ServerError(code, msg)) else None
    case NoticeEof => Some(EndOfStream)
    case _ => None
  }

  /** How a run ends a connection for which a close is due, or not: the first close that the
      user makes, or the loop once something has made it due. */
  function EndOf(es: seq<Event>, due: Option<Reason>): Option<Reason>
    decreases |es|
  {
    if es == [] then None
    else if es[0].Close? then Some(Requested)
    else if es[0].RunScheduledClose? && due.Some? then due
    else EndOf(es[1..], if due.Some? then due else CauseOf(es[0]))
  }

  /** Every future that no reply has reached has failed with this reason, or was cancelled. */
  ghost predicate FailedWith(c: Conn, reason: Reason)
  {
    forall k :: |c.answers| <= k < |c.futures| ==> c.futures[k] == Failed(reason) || c.futures[k] == Cancelled
  }

  /** A connection that lives, or is about to close for a reason. */
  ghost predicate Living(c: Conn)
  {
    ConnInv(c) && !c.closed && (c.closing <==> c.scheduled.Some?)
  }

  // ---------- One step ----------

  lemma FrameCauses(c: Conn, e: Event)
    requires Living(c) && e.Recv?
    ensures var d := Step(c, e);
            !d.closed && (d.closing <==> d.scheduled.Some?)
            && d.scheduled == if c.scheduled.Some? then c.scheduled else CauseOf(e)
  {
    if e.f.Error? {
      FatalCodes(e.f.code);
      ErrorSchedules(c, e.f.code, e.f.msg);
    } else if e.f.Response? {
      ResponseSchedules(c, e.f.body);
    }
  }

  lemma ResponseSchedules(c: Conn, body: bytes)
    ensures var d := OnResponse(c, body);
            d.closed == c.closed && d.closing == c.closing && d.scheduled == c.scheduled
  {
  }

  lemma ErrorSchedules(c: Conn, code: bytes, msg: bytes)
    ensures var d := OnError(c, code, msg);
            && d.closed == c.closed && d.closing == (c.closing || IsFatal(code))
            && d.scheduled == if c.scheduled.Some? || !IsFatal(code) then c.scheduled
                              else Some(ServerError(code, msg))
  {
  }

  lemma CallCauses(c: Conn, e: Event)
    requires Living(c) && !e.Recv? && !e.Close? && !(e.RunScheduledClose? && c.scheduled.Some?)
    ensures var d := Step(c, e);
            !d.closed && (d.closing <==> d.scheduled.Some?)
            && d.scheduled == if c.scheduled.Some? then c.scheduled else CauseOf(e)
  {
    if e.RequeueInFlight? {
      LedgerHandles(c);
      RequeueSchedulesNothing(c, OrderedDict.Values(c.ledger), e.timeout);
    } else if e.Fin? || e.Req? || e.Touch? || e.Handled? {
      MessageCallCauses(c, e);
    }
  }

  lemma MessageCallCauses(c: Conn, e: Event)
    requires e.Fin? || e.Req? || e.Touch? || e.Handled?
    ensures var d := Step(c, e);
            d.closed == c.closed && d.closing == c.closing && d.scheduled == c.scheduled
  {
  }

  lemma {:induction false} RequeueSchedulesNothing(c: Conn, hs: seq<nat>, timeout: int)
    requires forall i :: 0 <= i < |hs| ==> hs[i] < |c.msgs|
    ensures var d := RequeueEach(c, hs, timeout).0;
            d.closed == c.closed && d.closing == c.closing && d.scheduled == c.scheduled
    decreases |hs|
  {
    if hs != [] { RequeueSchedulesNothing(RequeueHead(c, hs[0], timeout), hs[1..], timeout); }
  }

  lemma CloseFails(c: Conn, reason: Reason, sendCls: bool)
    requires ConnInv(c) && !c.closed
    ensures var d := Closed(c, reason, sendCls); d.closed && FailedWith(d, reason)
  {
    PairingClosed(c, reason, sendCls);
  }

  /** Nothing reaches the futures of a closed connection. */
  lemma ClosedFreezes(c: Conn, e: Event)
    requires ConnInv(c) && c.closed
    ensures var d := Step(c, e); d.closed && d.futures == c.futures && d.answers == c.answers
  {
    ClosedForGood(c, e);
    if e.Recv? { FrameFreezes(c, e.f); }
  }

  lemma FrameFreezes(c: Conn, f: Frames.Frame)
    requires c.waiters == []
    ensures var d := Dispatch(c, f); d.futures == c.futures && d.answers == c.answers
  {
    match f
    case Response(body) =>
    case Error(code, msg) =>
    case Message(_, _, _, _) =>
  }

  // ---------- Runs ----------

  lemma {:induction false} ClosedRunFreezes(c: Conn, es: seq<Event>)
    requires ConnInv(c) && c.closed
    ensures var d := Run(c, es); d.closed && d.futures == c.futures && d.answers == c.answers
    decreases |es|
  {
    if es != [] {
      StepKeeps(c, es[0]);
      ClosedFreezes(c, es[0]);
      ClosedRunFreezes(Step(c, es[0]), es[1..]);
    }
  }

  lemma {:induction false} RunEnds(c: Conn, es: seq<Event>)
    requires Living(c)
    ensures var (d, end) := (Run(c, es), EndOf(es, c.scheduled));
            (d.closed <==> end.Some?) && (d.closed ==> FailedWith(d, end.value))
    decreases |es|
  {
    if es != [] {
      var (e, d) := (es[0], Step(c, es[0]));
      StepKeeps(c, e);
      if e.Close? || (e.RunScheduledClose? && c.scheduled.Some?) {
        CloseFails(c, if e.Close? then Requested else c.scheduled.value, e.Close?);
        ClosedRunFreezes(d, es[1..]);
      } else {
        if e.Recv? { FrameCauses(c, e); } else { CallCauses(c, e); }
        RunEnds(d, es[1..]);
      }
    }
  }

  /** Over every run: a connection is closed exactly if the user has closed it, or the loop has
      run after a malformed frame, a fatal error or the end of the stream; and then every
      future that no reply has reached has failed with the first such reason, or was cancelled. */
  lemma ClosesForTheFirstReason(maxRdy: int, es: seq<Event>)
    ensures var (d, end) := (Run(NewConn(maxRdy), es), EndOf(es, None));
            (d.closed <==> end.Some?) && (d.closed ==> FailedWith(d, end.value))
  {
    NewKeeps(maxRdy);
    RunEnds(NewConn(maxRdy), es);
  }

  lemma OpenStep(c: Conn, e: Event)
    requires ConnInv(c) && (Open(c) ==> Living(c))
    ensures Open(Step(c, e)) <==> Open(c) && !e.Close? && CauseOf(e).None?
    ensures Open(Step(c, e)) ==> Living(Step(c, e))
  {
    StepKeeps(c, e);
    if Open(c) {
      if e.Recv? { FrameCauses(c, e); } else if !e.Close? { CallCauses(c, e); }
    } else {
      ClientSystem.ClosedStays(c, e);
    }
  }

  /** The user does not close, and nothing makes the client close by itself. */
  ghost predicate NothingCloses(es: seq<Event>)
  {
    forall e :: e in es ==> !e.Close? && CauseOf(e).None?
  }

  lemma {:induction false} OpenRun(c: Conn, es: seq<Event>)
    requires ConnInv(c) && (Open(c) ==> Living(c))
    ensures Open(Run(c, es)) <==> Open(c) && NothingCloses(es)
    decreases |es|
  {
    if es != [] {
      StepKeeps(c, es[0]);
      OpenStep(c, es[0]);
      OpenRun(Step(c, es[0]), es[1..]);
      HeadCauses(es);
    }
  }

  lemma HeadCauses(es: seq<Event>)
    requires es != []
    ensures NothingCloses(es) <==> !es[0].Close? && CauseOf(es[0]).None? && NothingCloses(es[1..])
  {
    assert es == [es[0]] + es[1..];
  }

  /** Over every run: a connection is open as long as the user has not closed it and there was
      no malformed frame, no fatal error and no end of the stream. */
  lemma OpenUntilACause(maxRdy: int, es: seq<Event>)
    ensures Open(Run(NewConn(maxRdy), es)) <==> NothingCloses(es)
  {
    NewKeeps(maxRdy);
    OpenRun(NewConn(maxRdy), es);
  }

  // ---------- The close callback ----------

  /** How often the callback runs: at the close, if it was installed before. */
  function Callbacks(es: seq<Event>, due: Option<Reason>, installed: bool): nat
    decreases |es|
  {
    if es == [] then 0
    else if es[0].Close? || (es[0].RunScheduledClose? && due.Some?) then (if installed then 1 else 0)
    else Callbacks(es[1..], if due.Some? then due else CauseOf(es[0]), installed || es[0].InstallOnClose?)
  }

  lemma {:induction false} RequeueKeepsFlags(c: Conn, hs: seq<nat>, timeout: int)
    requires forall i :: 0 <= i < |hs| ==> hs[i] < |c.msgs|
    ensures var d := RequeueEach(c, hs, timeout).0;
            d.onClose == c.onClose && d.writable == c.writable && d.closeCalls == c.closeCalls
    decreases |hs|
  {
    if hs != [] { RequeueKeepsFlags(RequeueHead(c, hs[0], timeout), hs[1..], timeout); }
  }

  lemma StepFlags(c: Conn, e: Event)
    requires ConnInv(c)
    ensures Step(c, e).onClose == (c.onClose || e.InstallOnClose?)
    ensures Step(c, e).writable == (c.writable && !e.LoseWriter?)
    ensures c.closed || !(e.Close? || (e.RunScheduledClose? && c.scheduled.Some?)) ==>
              Step(c, e).closeCalls == c.closeCalls
  {
    if e.RequeueInFlight? {
      LedgerHandles(c);
      RequeueKeepsFlags(c, OrderedDict.Values(c.ledger), e.timeout);
    } else if e.Recv? {
      FrameFlags(c, e.f);
    } else if e.Fin? || e.Req? || e.Touch? || e.Handled? {
      MessageFlags(c, e);
    }
  }

  lemma FrameFlags(c: Conn, f: Frames.Frame)
    ensures var d := Dispatch(c, f);
            d.onClose == c.onClose && d.writable == c.writable && d.closeCalls == c.closeCalls
  {
    match f
    case Response(body) =>
    case Error(code, msg) =>
    case Message(_, _, _, _) =>
  }

  lemma MessageFlags(c: Conn, e: Event)
    requires e.Fin? || e.Req? || e.Touch? || e.Handled?
    ensures var d := Step(c, e);
            d.onClose == c.onClose && d.writable == c.writable && d.closeCalls == c.closeCalls
  {
  }

  lemma {:induction false} ClosedRunCalls(c: Conn, es: seq<Event>)
    requires ConnInv(c) && c.closed
    ensures Run(c, es).closeCalls == c.closeCalls
    decreases |es|
  {
    if es != [] {
      StepKeeps(c, es[0]);
      StepFlags(c, es[0]);
      ClosedForGood(c, es[0]);
      ClosedRunCalls(Step(c, es[0]), es[1..]);
    }
  }

  lemma {:induction false} RunCallsBack(c: Conn, es: seq<Event>)
    requires Living(c) && c.closeCalls == 0
    ensures Run(c, es).closeCalls == Callbacks(es, c.scheduled, c.onClose)
    decreases |es|
  {
    if es != [] {
      var (e, d) := (es[0], Step(c, es[0]));
      StepKeeps(c, e);
      StepFlags(c, e);
      if e.Close? || (e.RunScheduledClose? && c.scheduled.Some?) {
        PairingClosed(c, if e.Close? then Requested else c.scheduled.value, e.Close?);
        ClosedRunCalls(d, es[1..]);
      } else {
        if e.Recv? { FrameCauses(c, e); } else { CallCauses(c, e); }
        RunCallsBack(d, es[1..]);
      }
    }
  }

  /** Over every run: the close callback runs once if the connection closes after it was
      installed, and otherwise never. */
  lemma CallbackRunsAtTheClose(maxRdy: int, es: seq<Event>)
    ensures Run(NewConn(maxRdy), es).closeCalls == Callbacks(es, None, false)
  {
    NewKeeps(maxRdy);
    RunCallsBack(NewConn(maxRdy), es);
  }

  // ---------- CLS ----------

  /** How many CLS a run writes: one if the user closes first, before the writer is lost. */
  function ClsWrites(es: seq<Event>, due: Option<Reason>, writable: bool): nat
    decreases |es|
  {
    if es == [] then 0
    else if es[0].Close? then (if writable then 1 else 0)
    else if es[0].RunScheduledClose? && due.Some? then 0
    else ClsWrites(es[1..], if due.Some? then due else CauseOf(es[0]), writable && !es[0].LoseWriter?)
  }

  lemma ClosedRunWritesNoCls(c: Conn, es: seq<Event>)
    requires ConnInv(c) && c.closed
    ensures multiset(Run(c, es).sent)[Cls] == multiset(c.sent)[Cls]
  {
    CountCls(c, es);
    ClosedOnce(c, es);
  }

  lemma StepCls(c: Conn, e: Event)
    requires ConnInv(c)
    ensures multiset(Step(c, e).sent)[Cls] == multiset(c.sent)[Cls] + (if ClosesAt(c, e) then 1 else 0)
  {
    StepWrites(c, e);
    OneCls(c, e);
  }

  lemma {:induction false} RunSendsCls(c: Conn, es: seq<Event>)
    requires Living(c)
    ensures multiset(Run(c, es).sent)[Cls] == multiset(c.sent)[Cls] + ClsWrites(es, c.scheduled, c.writable)
    decreases |es|
  {
    if es != [] {
      var (e, d) := (es[0], Step(c, es[0]));
      StepKeeps(c, e);
      StepFlags(c, e);
      StepCls(c, e);
      if e.Close? || (e.RunScheduledClose? && c.scheduled.Some?) {
        ClosedRunWritesNoCls(d, es[1..]);
      } else {
        if e.Recv? { FrameCauses(c, e); } else { CallCauses(c, e); }
        RunSendsCls(d, es[1..]);
      }
    }
  }

  /** Over every run: one CLS is written if the first close is one that the user makes and the
      writer has not been lost before, and otherwise none. */
  lemma ClsIsForTheUser(maxRdy: int, es: seq<Event>)
    ensures multiset(Run(NewConn(maxRdy), es).sent)[Cls] == ClsWrites(es, None, true)
  {
    NewKeeps(maxRdy);
    RunSendsCls(NewConn(maxRdy), es);
  }
}
