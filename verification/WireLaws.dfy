/** What a connection writes, and what nsqd learns from it: laws over whole runs that speak of
    the events that happened and of the entries of `sent`, and not of how a step computes them. */
module WireLaws {
  import opened Prelude
  import opened Frames
  import opened Commands
  import opened OrderedDict
  import opened ConnectionState
  import opened ConnectionLaws

  // ---------- What each event writes ----------

  predicate Open(c: Conn)
  {
    !c.closing && !c.closed
  }

  /** A message that can still be finished or requeued. */
  predicate Settleable(c: Conn, h: nat)
  {
    Open(c) && h < |c.msgs| && !c.msgs[h].processed
  }

  /** The response frame of the eleven bytes `_heartbeat_`. */
  predicate IsHeartbeat(f: Frame)
  {
    f.Response? && f.body == [0x5F, 0x68, 0x65, 0x61, 0x72, 0x74, 0x62, 0x65, 0x61, 0x74, 0x5F]
  }

  /** The commands that nsqd does not answer: NOP, FIN, REQ, RDY and TOUCH, in any case and with
      white space around them. */
  predicate Unanswered(cmd: Command)
  {
    var name := Canonical(cmd).name;
    || name == [0x4E, 0x4F, 0x50] || name == [0x46, 0x49, 0x4E] || name == [0x52, 0x45, 0x51]
    || name == [0x52, 0x44, 0x59] || name == [0x54, 0x4F, 0x55, 0x43, 0x48]
  }

  /** A call of `execute` that creates a future. */
  predicate Calls(c: Conn, e: Event)
  {
    e.Execute? && Open(c) && !Unanswered(e.cmd)
  }

  /** What a retarget asks for: what is missing to the target, but no more than nsqd takes. */
  function Wanted(c: Conn, target: int): int
  {
    var missing := if target > c.credit.inFlight then target - c.credit.inFlight else 0;
    if missing > c.credit.maxRdy then c.credit.maxRdy else missing
  }

  /** The REQs of a snapshot of the ledger. */
  function RequeuesOf(hs: seq<nat>, timeout: int): (r: seq<Sent>)
    ensures |r| == |hs| && forall i :: 0 <= i < |hs| ==> r[i] == Requeue(hs[i], timeout)
  {
    seq(|hs|, i requires 0 <= i < |hs| => Requeue(hs[i], timeout))
  }

  ghost function MessageWrites(c: Conn, e: Event): seq<Sent>
    requires e.Fin? || e.Req? || e.Touch? || e.Handled?
  {
    if !Settleable(c, e.h) then []
    else
      match e
      case Fin(h) => [Finish(h)]
      case Req(h, timeout) => [Requeue(h, timeout)]
      case Touch(h) => [TouchMsg(h)]
      case Handled(h, failed, autoFin, autoRequeue) =>
        if failed && autoRequeue then [Requeue(h, 0)] else if !failed && autoFin then [Finish(h)] else []
  }

  ghost function Writes(c: Conn, e: Event): seq<Sent>
  {
    match e
    case Recv(f) => if IsHeartbeat(f) then [Nop] else []
    case Execute(cmd) => if Calls(c, e) && EncodeCommand(cmd).Some? then [Request(cmd, |c.futures|)] else []
    case SetReady(n) => if Open(c) then [Ready(n)] else []
    case Retarget(target) =>
      if Open(c) && c.credit.rdyCount != Wanted(c, target) then [Ready(Wanted(c, target))] else []
    case RequeueInFlight(timeout) => if Open(c) then RequeuesOf(Values(c.ledger), timeout) else []
    case Close => if !c.closed && c.writable then [Cls] else []
    case Fin(_) => MessageWrites(c, e)
    case Req(_, _) => MessageWrites(c, e)
    case Touch(_) => MessageWrites(c, e)
    case Handled(_, _, _, _) => MessageWrites(c, e)
    case _ => []
  }

  lemma HeartbeatBytes()
    ensures HEARTBEAT == [0x5F, 0x68, 0x65, 0x61, 0x72, 0x74, 0x62, 0x65, 0x61, 0x74, 0x5F]
  {
    var s := "_heartbeat_";
    assert |s| == 11 && |HEARTBEAT| == 11;
    assert HEARTBEAT[0] == 0x5F && HEARTBEAT[1] == 0x68 && HEARTBEAT[2] == 0x65 && HEARTBEAT[3] == 0x61;
    assert HEARTBEAT[4] == 0x72 && HEARTBEAT[5] == 0x74 && HEARTBEAT[6] == 0x62 && HEARTBEAT[7] == 0x65;
    assert HEARTBEAT[8] == 0x61 && HEARTBEAT[9] == 0x74 && HEARTBEAT[10] == 0x5F;
  }

  /** A frame is answered by NOP if it is a heartbeat, and by nothing otherwise. */
  lemma FramesWriteOnlyPulses(c: Conn, f: Frame)
    ensures Dispatch(c, f).sent == if IsHeartbeat(f) then c.sent + [Nop] else c.sent
  {
    HeartbeatBytes();
    match f
    case Response(body) =>
    case Error(code, msg) => assert OnError(c, code, msg).sent == c.sent;
    case Message(_, _, _, _) =>
  }

  lemma NamesOfUnanswered(cmd: Command)
    ensures ExpectsReply(cmd) <==> !Unanswered(cmd)
  {
    assert Ascii("NOP") == [0x4E, 0x4F, 0x50];
    assert Ascii("FIN") == [0x46, 0x49, 0x4E];
    assert Ascii("REQ") == [0x52, 0x45, 0x51];
    assert Ascii("RDY") == [0x52, 0x44, 0x59];
    assert Ascii("TOUCH") == [0x54, 0x4F, 0x55, 0x43, 0x48];
  }

  lemma {:induction false} RequeueEachWrites(c: Conn, hs: seq<nat>, timeout: int)
    requires ConnInv(c) && Open(c) && hs == Values(c.ledger)
    ensures forall i :: 0 <= i < |hs| ==> hs[i] < |c.msgs|
    ensures RequeueEach(c, hs, timeout).0.sent == c.sent + RequeuesOf(hs, timeout)
    decreases |hs|
  {
    LedgerHandles(c);
    if hs != [] {
      RequeueOldest(c, timeout);
      var d := AfterSettle(c, hs[0], Requeue(hs[0], timeout));
      assert hs[1..] == Values(d.ledger);
      RequeueEachWrites(d, hs[1..], timeout);
      RequeuesOfHead(hs, timeout);
      AppendAssociates(c.sent, [Requeue(hs[0], timeout)], RequeuesOf(hs[1..], timeout));
    }
  }

  lemma RequeuesOfHead(hs: seq<nat>, timeout: int)
    requires hs != []
    ensures RequeuesOf(hs, timeout) == [Requeue(hs[0], timeout)] + RequeuesOf(hs[1..], timeout)
  {
  }

  /** Every event writes exactly this, behind what was written before. */
  lemma StepWrites(c: Conn, e: Event)
    requires ConnInv(c)
    ensures Step(c, e).sent == c.sent + Writes(c, e)
  {
    match e
    case Recv(f) => FramesWriteOnlyPulses(c, f);
    case Execute(cmd) => NamesOfUnanswered(cmd);
    case RequeueInFlight(timeout) =>
      LedgerHandles(c);
      if Open(c) { RequeueEachWrites(c, Values(c.ledger), timeout); }
    case Fin(_) => MessageStepWrites(c, e);
    case Req(_, _) => MessageStepWrites(c, e);
    case Touch(_) => MessageStepWrites(c, e);
    case Handled(_, _, _, _) => MessageStepWrites(c, e);
    case _ =>
  }

  lemma MessageStepWrites(c: Conn, e: Event)
    requires e.Fin? || e.Req? || e.Touch? || e.Handled?
    ensures Step(c, e).sent == c.sent + Writes(c, e)
  {
  }

  // ---------- What calls answer ----------

  /** `execute` succeeds exactly if it wrote the command; it raises for the connection exactly
      if nothing has changed, and for the encoding exactly if only a waiter has been added. */
  lemma ExecuteAnswers(c: Conn, cmd: Command)
    ensures var (r, d) := (ExecuteResult(c, cmd), AfterExecute(c, cmd));
            && (r == Ok <==> d.sent == c.sent + [Request(cmd, |c.futures|)])
            && (r == ConnectionError <==> d == c)
            && (r == EncodeError <==> d.sent == c.sent && |d.futures| == |c.futures| + 1)
            && (r == Ok || r == ConnectionError || r == EncodeError)
  {
    if EncodeCommand(cmd).None? { assert AfterExecute(c, cmd).sent == c.sent; }
  }

  /** `fin`, `req` and `touch` succeed exactly if they wrote their command, and change nothing
      when they raise; a processed message is the reason before a closed connection is. */
  lemma SettleAnswers(c: Conn, h: nat, s: Sent)
    requires h < |c.msgs|
    ensures SettleResult(c, h) == Ok <==> AfterSettle(c, h, s).sent == c.sent + [s]
    ensures SettleResult(c, h) == Ok <==> AfterTouch(c, h).sent == c.sent + [TouchMsg(h)]
    ensures SettleResult(c, h) == Ok <==> Settleable(c, h)
    ensures SettleResult(c, h) != Ok ==> AfterSettle(c, h, s) == c && AfterTouch(c, h) == c
    ensures SettleResult(c, h) != Ok ==> SettleResult(c, h) == if Open(c) || c.msgs[h].processed then RuntimeWarning
                                                               else ConnectionError
  {
  }

  // ---------- Counting over runs ----------

  /** At how many steps of a run something happens. */
  ghost function Moments(c: Conn, es: seq<Event>, happens: (Conn, Event) -> bool): nat
    decreases |es|
  {
    if es == [] then 0
    else (if happens(c, es[0]) then 1 else 0) + Moments(Step(c, es[0]), es[1..], happens)
  }

  /** `s` is written once where this happens, and nowhere else. */
  ghost predicate WrittenWhen(s: Sent, happens: (Conn, Event) -> bool)
  {
    forall c, e :: ConnInv(c) ==> multiset(Writes(c, e))[s] == if happens(c, e) then 1 else 0
  }

  lemma {:induction false} CountRun(c: Conn, es: seq<Event>, s: Sent, happens: (Conn, Event) -> bool)
    requires ConnInv(c) && WrittenWhen(s, happens)
    ensures multiset(Run(c, es).sent)[s] == multiset(c.sent)[s] + Moments(c, es, happens)
    decreases |es|
  {
    if es != [] {
      StepKeeps(c, es[0]);
      StepWrites(c, es[0]);
      CountRun(Step(c, es[0]), es[1..], s, happens);
    }
  }

  lemma CountFromStart(maxRdy: int, es: seq<Event>, s: Sent, happens: (Conn, Event) -> bool)
    requires WrittenWhen(s, happens)
    ensures multiset(Run(NewConn(maxRdy), es).sent)[s] == Moments(NewConn(maxRdy), es, happens)
  {
    NewKeeps(maxRdy);
    CountRun(NewConn(maxRdy), es, s, happens);
  }

  // ---------- Heartbeats ----------

  predicate BeatsAt(c: Conn, e: Event)
  {
    e.Recv? && IsHeartbeat(e.f)
  }

  /** How many heartbeats arrive. */
  function Heartbeats(es: seq<Event>): nat
  {
    if es == [] then 0 else (if es[0].Recv? && IsHeartbeat(es[0].f) then 1 else 0) + Heartbeats(es[1..])
  }

  lemma {:induction false} HeartbeatMoments(c: Conn, es: seq<Event>)
    ensures Moments(c, es, BeatsAt) == Heartbeats(es)
    decreases |es|
  {
    if es != [] { HeartbeatMoments(Step(c, es[0]), es[1..]); }
  }

  lemma OneNop(c: Conn, e: Event)
    ensures multiset(Writes(c, e))[Nop] == if BeatsAt(c, e) then 1 else 0
  {
    if e.RequeueInFlight? { NotAmong(Nop, Values(c.ledger), e.timeout); }
  }

  lemma NotAmong(s: Sent, hs: seq<nat>, timeout: int)
    requires !s.Requeue?
    ensures multiset(RequeuesOf(hs, timeout))[s] == 0
  {
    assert s !in RequeuesOf(hs, timeout);
  }

  /** Over every run, as many NOPs are written as heartbeats arrive. */
  lemma HeartbeatsAreAnswered(maxRdy: int, es: seq<Event>)
    ensures multiset(Run(NewConn(maxRdy), es).sent)[Nop] == Heartbeats(es)
  {
    forall c, e
      ensures multiset(Writes(c, e))[Nop] == if BeatsAt(c, e) then 1 else 0
    {
      OneNop(c, e);
    }
    CountFromStart(maxRdy, es, Nop, BeatsAt);
    HeartbeatMoments(NewConn(maxRdy), es);
  }

  // ---------- FIN, REQ and TOUCH ----------

  /** The user or a handler that returned finishes message `h`. */
  function FinishesIt(h: nat): (Conn, Event) -> bool
  {
    (c: Conn, e: Event) =>
      Settleable(c, h) && (e == Fin(h) || (e.Handled? && e.h == h && !e.failed && e.autoFin))
  }

  /** The user, a handler that raised, or a shutdown requeues message `h` with this timeout. */
  function RequeuesIt(h: nat, timeout: int): (Conn, Event) -> bool
  {
    (c: Conn, e: Event) =>
      Settleable(c, h) &&
      (|| e == Req(h, timeout)
       || (e.Handled? && e.h == h && e.failed && e.autoRequeue && timeout == 0)
       || (e == RequeueInFlight(timeout) && h in Values(c.ledger)))
  }

  function TouchesIt(h: nat): (Conn, Event) -> bool
  {
    (c: Conn, e: Event) => Settleable(c, h) && e == Touch(h)
  }

  lemma OneFinish(c: Conn, e: Event, h: nat)
    ensures multiset(Writes(c, e))[Finish(h)] == if FinishesIt(h)(c, e) then 1 else 0
  {
    if e.RequeueInFlight? { NotAmong(Finish(h), Values(c.ledger), e.timeout); }
  }

  lemma OneTouch(c: Conn, e: Event, h: nat)
    ensures multiset(Writes(c, e))[TouchMsg(h)] == if TouchesIt(h)(c, e) then 1 else 0
  {
    if e.RequeueInFlight? { NotAmong(TouchMsg(h), Values(c.ledger), e.timeout); }
  }

  lemma OneRequeue(c: Conn, e: Event, h: nat, timeout: int)
    requires ConnInv(c)
    ensures multiset(Writes(c, e))[Requeue(h, timeout)] == if RequeuesIt(h, timeout)(c, e) then 1 else 0
  {
    if e.RequeueInFlight? {
      LedgerOnce(c, h, e.timeout, timeout);
    } else if e.Fin? || e.Req? || e.Touch? || e.Handled? {
      OneRequeueByCall(c, e, h, timeout);
    } else {
      NoRequeueElsewhere(c, e, h, timeout);
    }
  }

  lemma NoRequeueElsewhere(c: Conn, e: Event, h: nat, timeout: int)
    requires !e.RequeueInFlight? && !e.Fin? && !e.Req? && !e.Touch? && !e.Handled?
    ensures Requeue(h, timeout) !in Writes(c, e)
  {
  }

  lemma OneRequeueByCall(c: Conn, e: Event, h: nat, timeout: int)
    requires e.Fin? || e.Req? || e.Touch? || e.Handled?
    ensures multiset(Writes(c, e))[Requeue(h, timeout)] == if RequeuesIt(h, timeout)(c, e) then 1 else 0
  {
  }

  /** A message stands in the ledger once. */
  lemma LedgerOnce(c: Conn, h: nat, timeout: int, t: int)
    requires ConnInv(c)
    ensures h in Values(c.ledger) ==> h < |c.msgs| && !c.msgs[h].processed
    ensures multiset(RequeuesOf(Values(c.ledger), timeout))[Requeue(h, t)] ==
            if h in Values(c.ledger) && t == timeout then 1 else 0
  {
    var hs := Values(c.ledger);
    forall i | 0 <= i < |hs|
      ensures hs[i] < |c.msgs| && !c.msgs[hs[i]].processed
    {
      assert c.ledger[i] in c.ledger;
    }
    forall i, j | 0 <= i < j < |hs|
      ensures hs[i] != hs[j]
    {
      assert c.ledger[i] in c.ledger && c.ledger[j] in c.ledger;
    }
    OnceIn(hs, h, timeout, t);
  }

  lemma {:induction false} OnceIn(hs: seq<nat>, h: nat, timeout: int, t: int)
    requires forall i, j :: 0 <= i < j < |hs| ==> hs[i] != hs[j]
    ensures multiset(RequeuesOf(hs, timeout))[Requeue(h, t)] == if h in hs && t == timeout then 1 else 0
    decreases |hs|
  {
    if hs != [] {
      OnceIn(hs[1..], h, timeout, t);
      RequeuesOfHead(hs, timeout);
      CountHead(Requeue(hs[0], timeout), RequeuesOf(hs[1..], timeout), Requeue(h, t));
      HeadOnce(hs, h);
    }
  }

  lemma HeadOnce(hs: seq<nat>, h: nat)
    requires hs != [] && forall i, j :: 0 <= i < j < |hs| ==> hs[i] != hs[j]
    ensures h in hs <==> h == hs[0] || h in hs[1..]
    ensures hs[0] !in hs[1..]
  {
    assert hs == [hs[0]] + hs[1..];
  }

  lemma CountHead(first: Sent, others: seq<Sent>, s: Sent)
    ensures multiset([first] + others)[s] == (if s == first then 1 else 0) + multiset(others)[s]
  {
  }

  /** Over every run and for each message object: its FINs are exactly the moments at which the
      user or a handler that returned finished it, its REQs with a timeout exactly those at
      which the user, a handler that raised, or a shutdown requeued it with that timeout, and
      its TOUCHes those at which the user touched it, each while the connection was open and the
      message unsettled. */
  lemma MessagesAreSettledAsAsked(maxRdy: int, es: seq<Event>, h: nat, timeout: int)
    ensures var (c, sent) := (NewConn(maxRdy), multiset(Run(NewConn(maxRdy), es).sent));
            && sent[Finish(h)] == Moments(c, es, FinishesIt(h))
            && sent[Requeue(h, timeout)] == Moments(c, es, RequeuesIt(h, timeout))
            && sent[TouchMsg(h)] == Moments(c, es, TouchesIt(h))
  {
    forall c, e
      ensures multiset(Writes(c, e))[Finish(h)] == if FinishesIt(h)(c, e) then 1 else 0
      ensures multiset(Writes(c, e))[TouchMsg(h)] == if TouchesIt(h)(c, e) then 1 else 0
    {
      OneFinish(c, e, h);
      OneTouch(c, e, h);
    }
    forall c, e | ConnInv(c)
      ensures multiset(Writes(c, e))[Requeue(h, timeout)] == if RequeuesIt(h, timeout)(c, e) then 1 else 0
    {
      OneRequeue(c, e, h, timeout);
    }
    CountFromStart(maxRdy, es, Finish(h), FinishesIt(h));
    CountFromStart(maxRdy, es, TouchMsg(h), TouchesIt(h));
    CountFromStart(maxRdy, es, Requeue(h, timeout), RequeuesIt(h, timeout));
  }

  /** What one call or one handler's outcome writes for an unsettled message of an open
      connection, in the counts of the whole connection. */
  lemma OneSettlement(c: Conn, e: Event, h: nat)
    requires ConnInv(c) && Settleable(c, h) && (e.Fin? || e.Req? || e.Handled?) && e.h == h
    ensures var d := Step(c, e);
            && Finishes(d.sent, h) - Finishes(c.sent, h) ==
               (if e.Fin? || (e.Handled? && !e.failed && e.autoFin) then 1 else 0)
            && Requeues(d.sent, h) - Requeues(c.sent, h) ==
               (if e.Req? || (e.Handled? && e.failed && e.autoRequeue) then 1 else 0)
            && (e.Req? ==> d.sent == c.sent + [Requeue(h, e.timeout)])
            && (e.Handled? && e.failed && e.autoRequeue ==> d.sent == c.sent + [Requeue(h, 0)])
  {
    StepWrites(c, e);
    if Writes(c, e) != [] { SentAppend(c.sent, Writes(c, e)[0], h); }
  }

  /** A message is finished by nobody but the user and a handler that returned. */
  lemma {:induction false} NeverFinished(c: Conn, es: seq<Event>, h: nat)
    requires forall e :: e in es ==> e != Fin(h) && (e.Handled? && e.h == h ==> e.failed)
    ensures Moments(c, es, FinishesIt(h)) == 0
    decreases |es|
  {
    if es != [] {
      assert es[0] in es && forall e :: e in es[1..] ==> e in es;
      NeverFinished(Step(c, es[0]), es[1..], h);
    }
  }

  /** So a message whose handlers all raise, and that the user does not finish, never gets a
      FIN, whatever else happens. */
  lemma FailedHandlersLoseNothing(maxRdy: int, es: seq<Event>, h: nat)
    requires forall e :: e in es ==> e != Fin(h) && (e.Handled? && e.h == h ==> e.failed)
    ensures Finish(h) !in Run(NewConn(maxRdy), es).sent
  {
    MessagesAreSettledAsAsked(maxRdy, es, h, 0);
    NeverFinished(NewConn(maxRdy), es, h);
  }

  // ---------- CLS ----------

  /** The user closes a connection that is not closed yet and can still write. */
  predicate ClosesAt(c: Conn, e: Event)
  {
    e.Close? && !c.closed && c.writable
  }

  lemma OneCls(c: Conn, e: Event)
    ensures multiset(Writes(c, e))[Cls] == if ClosesAt(c, e) then 1 else 0
  {
    if e.RequeueInFlight? { NotAmong(Cls, Values(c.ledger), e.timeout); }
  }

  lemma CountCls(c: Conn, es: seq<Event>)
    requires ConnInv(c)
    ensures multiset(Run(c, es).sent)[Cls] == multiset(c.sent)[Cls] + Moments(c, es, ClosesAt)
  {
    forall c, e
      ensures multiset(Writes(c, e))[Cls] == if ClosesAt(c, e) then 1 else 0
    {
      OneCls(c, e);
    }
    CountRun(c, es, Cls, ClosesAt);
  }

  lemma {:induction false} ClosedOnce(c: Conn, es: seq<Event>)
    ensures Moments(c, es, ClosesAt) <= if c.closed then 0 else 1
    decreases |es|
  {
    if es != [] {
      if c.closed { ClosedForGood(c, es[0]); }
      ClosedOnce(Step(c, es[0]), es[1..]);
    }
  }

  /** Nothing but heartbeats' answers stands behind a CLS, and there is one only if the
      connection is closed. */
  ghost predicate ClsIsLast(c: Conn)
  {
    && (Cls in c.sent ==> c.closed)
    && forall i, j :: 0 <= i < j < |c.sent| && c.sent[i] == Cls ==> c.sent[j] == Nop
  }

  lemma StepKeepsClsLast(c: Conn, e: Event)
    requires ConnInv(c) && ClsIsLast(c)
    ensures ClsIsLast(Step(c, e))
  {
    StepWrites(c, e);
    OneCls(c, e);
    if c.closed { ClosedForGood(c, e); }
  }

  lemma {:induction false} RunKeepsClsLast(c: Conn, es: seq<Event>)
    requires ConnInv(c) && ClsIsLast(c)
    ensures ClsIsLast(Run(c, es))
    decreases |es|
  {
    if es != [] {
      StepKeeps(c, es[0]);
      StepKeepsClsLast(c, es[0]);
      RunKeepsClsLast(Step(c, es[0]), es[1..]);
    }
  }

  /** Over every run, CLS is written exactly when the user closes a connection that is not
      closed and can write: at most once, and only answers to heartbeats come behind it. */
  lemma ClsIsWrittenOnce(maxRdy: int, es: seq<Event>)
    ensures var c := Run(NewConn(maxRdy), es);
            && multiset(c.sent)[Cls] == Moments(NewConn(maxRdy), es, ClosesAt) <= 1
            && forall i, j :: 0 <= i < j < |c.sent| && c.sent[i] == Cls ==> c.sent[j] == Nop
  {
    NewKeeps(maxRdy);
    CountCls(NewConn(maxRdy), es);
    ClosedOnce(NewConn(maxRdy), es);
    RunKeepsClsLast(NewConn(maxRdy), es);
  }

  // ---------- Commands that expect a reply ----------

  function Requested(sent: seq<Sent>): seq<Command>
  {
    if sent == [] then []
    else (if sent[0].Request? then [sent[0].cmd] else []) + Requested(sent[1..])
  }

  lemma {:induction false} RequestedAppend(a: seq<Sent>, b: seq<Sent>)
    ensures Requested(a + b) == Requested(a) + Requested(b)
    decreases |a|
  {
    if a == [] {
      assert a + b == b;
    } else {
      assert (a + b)[0] == a[0] && (a + b)[1..] == a[1..] + b;
      RequestedAppend(a[1..], b);
      AppendAssociates(if a[0].Request? then [a[0].cmd] else [], Requested(a[1..]), Requested(b));
    }
  }

  lemma {:induction false} NoRequests(hs: seq<nat>, timeout: int)
    ensures Requested(RequeuesOf(hs, timeout)) == []
    decreases |hs|
  {
    if hs != [] {
      RequeuesOfHead(hs, timeout);
      NoRequests(hs[1..], timeout);
    }
  }

  /** What one event asks nsqd to answer. */
  ghost function AskedBy(c: Conn, e: Event): seq<Command>
  {
    if Calls(c, e) && EncodeCommand(e.cmd).Some? then [e.cmd] else []
  }

  ghost function Asked(c: Conn, es: seq<Event>): seq<Command>
    decreases |es|
  {
    if es == [] then [] else AskedBy(c, es[0]) + Asked(Step(c, es[0]), es[1..])
  }

  lemma StepAsks(c: Conn, e: Event)
    requires ConnInv(c)
    ensures Requested(Step(c, e).sent) == Requested(c.sent) + AskedBy(c, e)
    ensures |Step(c, e).futures| == |c.futures| + (if Calls(c, e) then 1 else 0)
  {
    StepWrites(c, e);
    RequestedAppend(c.sent, Writes(c, e));
    RequestedByStep(c, e);
    if e.Execute? { NamesOfUnanswered(e.cmd); }
    if !Executes(c, e) { StepIsSilent(c, e); }
  }

  lemma RequestedByStep(c: Conn, e: Event)
    ensures Requested(Writes(c, e)) == AskedBy(c, e)
  {
    if e.RequeueInFlight? { NoRequests(Values(c.ledger), e.timeout); }
  }

  lemma {:induction false} RunAsks(c: Conn, es: seq<Event>)
    requires ConnInv(c)
    ensures Requested(Run(c, es).sent) == Requested(c.sent) + Asked(c, es)
    ensures |Run(c, es).futures| == |c.futures| + Moments(c, es, Calls)
    decreases |es|
  {
    if es != [] {
      var d := Step(c, es[0]);
      StepKeeps(c, es[0]);
      StepAsks(c, es[0]);
      RunAsks(d, es[1..]);
      AppendAssociates(Requested(c.sent), AskedBy(c, es[0]), Asked(d, es[1..]));
    }
  }

  /** Over every run, the commands that are written to be answered are exactly those that were
      executed on the open connection and could be encoded, in order; every command that was
      executed there, but NOP, FIN, REQ, RDY and TOUCH, has a future. */
  lemma CommandsAreWrittenInOrder(maxRdy: int, es: seq<Event>)
    ensures var (c, d) := (NewConn(maxRdy), Run(NewConn(maxRdy), es));
            Requested(d.sent) == Asked(c, es) && |d.futures| == Moments(c, es, Calls)
  {
    NewKeeps(maxRdy);
    RunAsks(NewConn(maxRdy), es);
  }

  // ---------- Messages ----------

  function Ids(msgs: seq<Msg>): (ids: seq<bytes>)
    ensures |ids| == |msgs| && forall h :: 0 <= h < |msgs| ==> ids[h] == msgs[h].id
  {
    seq(|msgs|, h requires 0 <= h < |msgs| => msgs[h].id)
  }

  function IdOf(e: Event): seq<bytes>
  {
    if e.Recv? && e.f.Message? then [e.f.id] else []
  }

  /** The ids of the message frames that arrive. */
  function Delivered(es: seq<Event>): seq<bytes>
  {
    if es == [] then [] else IdOf(es[0]) + Delivered(es[1..])
  }

  lemma {:induction false} RequeueKeepsIds(c: Conn, hs: seq<nat>, timeout: int)
    requires forall i :: 0 <= i < |hs| ==> hs[i] < |c.msgs|
    ensures Ids(RequeueEach(c, hs, timeout).0.msgs) == Ids(c.msgs)
    decreases |hs|
  {
    if hs != [] {
      var d := RequeueHead(c, hs[0], timeout);
      assert Ids(d.msgs) == Ids(c.msgs);
      RequeueKeepsIds(d, hs[1..], timeout);
    }
  }

  lemma StepDelivers(c: Conn, e: Event)
    requires ConnInv(c)
    ensures Ids(Step(c, e).msgs) == Ids(c.msgs) + IdOf(e)
  {
    if e.Recv? {
      if !e.f.Message? { FrameTouchesNoMessage(c, e.f); }
    } else if e.RequeueInFlight? {
      LedgerHandles(c);
      RequeueKeepsIds(c, Values(c.ledger), e.timeout);
    } else if e.Fin? || e.Req? || e.Handled? {
      SettlingKeepsIds(c, e);
    } else {
      CallTouchesNoMessage(c, e);
    }
  }

  lemma SettlingKeepsIds(c: Conn, e: Event)
    requires e.Fin? || e.Req? || e.Handled?
    ensures Ids(Step(c, e).msgs) == Ids(c.msgs)
  {
  }

  lemma {:induction false} RunDelivers(c: Conn, es: seq<Event>)
    requires ConnInv(c)
    ensures Ids(Run(c, es).msgs) == Ids(c.msgs) + Delivered(es)
    decreases |es|
  {
    if es != [] {
      StepKeeps(c, es[0]);
      StepDelivers(c, es[0]);
      RunDelivers(Step(c, es[0]), es[1..]);
      AppendAssociates(Ids(c.msgs), IdOf(es[0]), Delivered(es[1..]));
    }
  }

  /** Over every run there is one message object for each message frame, in order, with its id. */
  lemma MessagesAreThoseDelivered(maxRdy: int, es: seq<Event>)
    ensures Ids(Run(NewConn(maxRdy), es).msgs) == Delivered(es)
  {
    NewKeeps(maxRdy);
    RunDelivers(NewConn(maxRdy), es);
  }
}
