/** `graceful_close` piece by piece. It yields between its pieces, so other tasks run in
    between: user code and handlers go on to settle messages. */
module ShutdownRuns {
  import opened SetSum
  import opened OrderedDict
  import opened ConnectionState
  import opened ConnectionLaws
  import opened Shutdown
  import Client = ClientSystem

  datatype Act =
    | StopAt(id: ConnId)              // the `stop_receiving` of one connection
    | RequeueQueue                    // `requeue_queued_messages`, which never yields
    | RequeueAt(id: ConnId)           // the `requeue_in_flight` of one connection
    | TakeQueued                      // user code or a worker takes a message
    | Other(id: ConnId, e: Event)     // a step of another task on a connection

  ghost function Do(s: Consumer, a: Act, timeout: int): Consumer
  {
    match a
    case StopAt(id) => if id in s.conns then WithConn(s, id, AfterReady(s.conns[id], 0)) else s
    case RequeueQueue => if QueueValid(s) then RequeueQueued(s, timeout).state else s
    case RequeueAt(id) => if id in s.conns then WithConn(s, id, RequeueTracked(s.conns[id], timeout).0) else s
    case TakeQueued => if s.queue == [] then s else s.(queue := s.queue[1..])
    case Other(id, e) => if id in s.conns then WithConn(s, id, Step(s.conns[id], e)) else s
  }

  ghost function After(s: Consumer, acts: seq<Act>, timeout: int): Consumer
    decreases |acts|
  {
    if acts == [] then s else After(Do(s, acts[0], timeout), acts[1..], timeout)
  }

  /** What one piece adds to the answer of `graceful_close`. */
  ghost function Answer(s: Consumer, a: Act, timeout: int): nat
  {
    match a
    case RequeueQueue => if QueueValid(s) then RequeueQueued(s, timeout).requeued else 0
    case RequeueAt(id) => if id in s.conns then RequeueTracked(s.conns[id], timeout).1 else 0
    case _ => 0
  }

  ghost function Answers(s: Consumer, acts: seq<Act>, timeout: int): nat
    decreases |acts|
  {
    if acts == [] then 0 else Answer(s, acts[0], timeout) + Answers(Do(s, acts[0], timeout), acts[1..], timeout)
  }

  /** Other tasks may do anything but close a connection or send an RDY of their own, and
      nsqd delivers nothing. */
  ghost predicate Quiet(s: Consumer, a: Act)
  {
    a.Other? && a.id in s.conns ==>
      !(a.e.Recv? && a.e.f.Message?) && Client.Proper(a.e) && !IsClosed(Step(s.conns[a.id], a.e))
  }

  ghost predicate QuietRun(s: Consumer, acts: seq<Act>, timeout: int)
    decreases |acts|
  {
    acts == [] || (Quiet(s, acts[0]) && QuietRun(Do(s, acts[0], timeout), acts[1..], timeout))
  }

  /** An open connection that tracks every unfinished message. */
  ghost predicate GoodConn(c: Conn)
  {
    ConnInv(c) && !IsClosed(c) && LedgerComplete(c)
  }

  ghost predicate Good(s: Consumer)
  {
    QueueValid(s) && forall id :: id in s.conns ==> GoodConn(s.conns[id])
  }

  // ---------- One connection ----------

  /** No message comes, and a processed message stays processed. */
  ghost predicate Progress(c: Conn, d: Conn)
  {
    |d.msgs| == |c.msgs| && forall h :: 0 <= h < |c.msgs| && c.msgs[h].processed ==> d.msgs[h].processed
  }

  lemma {:induction false} RequeueEachProgress(c: Conn, hs: seq<nat>, timeout: int)
    requires forall i :: 0 <= i < |hs| ==> hs[i] < |c.msgs|
    ensures Progress(c, RequeueEach(c, hs, timeout).0)
    decreases |hs|
  {
    if hs != [] { RequeueEachProgress(RequeueHead(c, hs[0], timeout), hs[1..], timeout); }
  }

  lemma RequeueTrackedKeeps(c: Conn, timeout: int)
    requires GoodConn(c)
    ensures var (d, n) := RequeueTracked(c, timeout);
            GoodConn(d) && Progress(c, d) && n == c.credit.inFlight - d.credit.inFlight && d.ledger == []
  {
    LedgerHandles(c);
    RequeueEachKeeps(c, Values(c.ledger), timeout);
    RequeueStaysComplete(c, Values(c.ledger), timeout);
    RequeueEachProgress(c, Values(c.ledger), timeout);
  }

  /** Once the tracked messages are requeued, nothing is unfinished. */
  lemma RequeueTrackedFinishes(c: Conn, timeout: int)
    requires GoodConn(c)
    ensures Live(RequeueTracked(c, timeout).0.msgs) == 0
  {
    RequeueTrackedKeeps(c, timeout);
    LiveZero(RequeueTracked(c, timeout).0.msgs);
  }

  lemma StepProgress(c: Conn, e: Event)
    requires ConnInv(c) && !(e.Recv? && e.f.Message?)
    ensures Progress(c, Step(c, e))
  {
    if e.Recv? {
      FrameTouchesNoMessage(c, e.f);
    } else if e.RequeueInFlight? {
      LedgerHandles(c);
      RequeueEachProgress(c, Values(c.ledger), e.timeout);
    } else if !e.Fin? && !e.Req? && !e.Handled? {
      CallTouchesNoMessage(c, e);
    }
  }

  lemma QuietStepKeeps(c: Conn, e: Event)
    requires GoodConn(c) && !(e.Recv? && e.f.Message?) && Client.Proper(e) && !IsClosed(Step(c, e))
    ensures GoodConn(Step(c, e)) && Progress(c, Step(c, e))
    ensures Client.Settles(c, e) == c.credit.inFlight - Step(c, e).credit.inFlight
  {
    StepKeeps(c, e);
    StepStaysComplete(c, e);
    StepProgress(c, e);
    Client.OpenCredit(c, e);
  }

  // ---------- The whole consumer ----------

  /** `t` is a later state of `s`: the same connections, still good, with the same messages. */
  ghost predicate Later(s: Consumer, t: Consumer)
  {
    && Good(t) && t.conns.Keys == s.conns.Keys
    && forall id :: id in s.conns ==> Progress(s.conns[id], t.conns[id])
  }

  lemma LaterStill(s: Consumer, t: Consumer, u: Consumer)
    requires Later(s, t) && Later(t, u)
    ensures Later(s, u)
  {
  }

  /** All messages in flight. */
  ghost function InFlight(s: Consumer): int
  {
    Sum(s.conns.Keys, InFlights(s))
  }

  /** One connection changes. */
  lemma PointKeeps(s: Consumer, id: ConnId, d: Conn)
    requires Good(s) && id in s.conns && GoodConn(d) && Progress(s.conns[id], d)
    ensures Later(s, WithConn(s, id, d))
    ensures InFlight(s) - InFlight(WithConn(s, id, d)) == s.conns[id].credit.inFlight - d.credit.inFlight
  {
    PointIsLater(s, id, d);
    SumPoint(s.conns.Keys, InFlights(s), InFlights(WithConn(s, id, d)), id);
  }

  lemma PointIsLater(s: Consumer, id: ConnId, d: Conn)
    requires Good(s) && id in s.conns && GoodConn(d) && Progress(s.conns[id], d)
    ensures Later(s, WithConn(s, id, d))
  {
    assert WithConn(s, id, d).conns.Keys == s.conns.Keys;
    PointKeepsQueue(s, id, d);
  }

  lemma PointKeepsQueue(s: Consumer, id: ConnId, d: Conn)
    requires QueueValid(s) && id in s.conns && |d.msgs| == |s.conns[id].msgs|
    ensures QueueValid(WithConn(s, id, d))
  {
    forall e | e in s.queue
      ensures Exists(WithConn(s, id, d), e)
    {
      assert Exists(s, e);
    }
  }

  lemma ShorterQueueKeeps(s: Consumer)
    requires Good(s) && s.queue != []
    ensures Later(s, s.(queue := s.queue[1..])) && InFlight(s.(queue := s.queue[1..])) == InFlight(s)
  {
    var t := s.(queue := s.queue[1..]);
    assert forall e :: e in t.queue ==> e in s.queue && Exists(s, e);
    assert InFlights(t) == InFlights(s);
  }

  lemma SettleIsGood(c: Conn, h: nat, timeout: int)
    requires GoodConn(c) && h < |c.msgs| && !c.msgs[h].processed
    ensures var d := AfterSettle(c, h, Requeue(h, timeout));
            GoodConn(d) && Progress(c, d) && d.credit.inFlight == c.credit.inFlight - 1
  {
    SettleKeeps(c, h, Requeue(h, timeout));
    SettlingSettle(c, h, Requeue(h, timeout));
    SettleStaysComplete(c, h, Requeue(h, timeout));
  }

  lemma ServeFirstIsLater(s: Consumer, timeout: int)
    requires Good(s) && s.queue != [] && !Processed(s, First(s))
    ensures Later(s, ServeFirst(s, timeout)) && InFlight(s) - InFlight(ServeFirst(s, timeout)) == 1
  {
    var (e, s1) := (First(s), s.(queue := s.queue[1..]));
    ShorterQueueKeeps(s);
    SettleIsGood(s.conns[e.id], e.h, timeout);
    PointKeeps(s1, e.id, AfterSettle(s.conns[e.id], e.h, Requeue(e.h, timeout)));
    LaterStill(s, s1, ServeFirst(s, timeout));
  }

  lemma {:induction false} QueueKeeps(s: Consumer, timeout: int)
    requires Good(s)
    ensures var r := RequeueQueued(s, timeout);
            !r.raised && Later(s, r.state) && InFlight(s) - InFlight(r.state) == r.requeued
    decreases |s.queue|
  {
    if s.queue != [] {
      var s1 := s.(queue := s.queue[1..]);
      if Processed(s, First(s)) {
        ShorterQueueKeeps(s);
        QueueKeeps(s1, timeout);
        LaterStill(s, s1, RequeueQueued(s1, timeout).state);
      } else {
        var s2 := ServeFirst(s, timeout);
        ServeFirstIsLater(s, timeout);
        QueueKeeps(s2, timeout);
        LaterStill(s, s2, RequeueQueued(s2, timeout).state);
      }
    }
  }

  /** The messages that another task settles. */
  ghost function SettledByOther(s: Consumer, a: Act): nat
  {
    if a.Other? && a.id in s.conns then Client.Settles(s.conns[a.id], a.e) else 0
  }

  ghost function SettledByOthers(s: Consumer, acts: seq<Act>, timeout: int): nat
    decreases |acts|
  {
    if acts == [] then 0
    else SettledByOther(s, acts[0]) + SettledByOthers(Do(s, acts[0], timeout), acts[1..], timeout)
  }

  /** `t` is a later state of `s` in which `n` messages more are settled. */
  ghost predicate Settled(s: Consumer, t: Consumer, n: int)
  {
    Later(s, t) && InFlight(s) - InFlight(t) == n
  }

  /** What a step settles is what the piece answers, or what the other task is said to. */
  ghost predicate Accounted(s: Consumer, a: Act, timeout: int)
  {
    Settled(s, Do(s, a, timeout), Answer(s, a, timeout) + SettledByOther(s, a))
  }

  lemma AccountedBy(s: Consumer, a: Act, timeout: int, t: Consumer, n: int)
    requires Settled(s, t, n) && t == Do(s, a, timeout) && n == Answer(s, a, timeout) + SettledByOther(s, a)
    ensures Accounted(s, a, timeout)
  {
  }

  lemma StopSettlesNothing(s: Consumer, id: ConnId)
    requires Good(s) && id in s.conns
    ensures Settled(s, WithConn(s, id, AfterReady(s.conns[id], 0)), 0)
  {
    StopConnKeeps(s.conns[id]);
    PointKeeps(s, id, AfterReady(s.conns[id], 0));
  }

  lemma StopAtKeeps(s: Consumer, id: ConnId, timeout: int)
    requires Good(s)
    ensures Accounted(s, StopAt(id), timeout)
  {
    if id in s.conns {
      StopSettlesNothing(s, id);
      AccountedBy(s, StopAt(id), timeout, WithConn(s, id, AfterReady(s.conns[id], 0)), 0);
    } else {
      AccountedBy(s, StopAt(id), timeout, s, 0);
    }
  }

  lemma QueueIsAccounted(s: Consumer, timeout: int)
    requires Good(s)
    ensures Accounted(s, RequeueQueue, timeout)
  {
    QueueKeeps(s, timeout);
  }

  lemma RequeueSettles(s: Consumer, id: ConnId, timeout: int)
    requires Good(s) && id in s.conns
    ensures var r := RequeueTracked(s.conns[id], timeout); Settled(s, WithConn(s, id, r.0), r.1)
  {
    RequeueTrackedKeeps(s.conns[id], timeout);
    PointKeeps(s, id, RequeueTracked(s.conns[id], timeout).0);
  }

  lemma RequeueAtKeeps(s: Consumer, id: ConnId, timeout: int)
    requires Good(s)
    ensures Accounted(s, RequeueAt(id), timeout)
  {
    if id in s.conns {
      var r := RequeueTracked(s.conns[id], timeout);
      RequeueSettles(s, id, timeout);
      AccountedBy(s, RequeueAt(id), timeout, WithConn(s, id, r.0), r.1);
    } else {
      AccountedBy(s, RequeueAt(id), timeout, s, 0);
    }
  }

  lemma TakeKeeps(s: Consumer, timeout: int)
    requires Good(s)
    ensures Accounted(s, TakeQueued, timeout)
  {
    if s.queue != [] { ShorterQueueKeeps(s); }
  }

  lemma OtherSettles(s: Consumer, id: ConnId, e: Event)
    requires Good(s) && id in s.conns && Quiet(s, Other(id, e))
    ensures Settled(s, WithConn(s, id, Step(s.conns[id], e)), Client.Settles(s.conns[id], e))
  {
    QuietStepKeeps(s.conns[id], e);
    PointKeeps(s, id, Step(s.conns[id], e));
  }

  lemma OtherDoes(s: Consumer, id: ConnId, e: Event, timeout: int)
    requires id in s.conns
    ensures Do(s, Other(id, e), timeout) == WithConn(s, id, Step(s.conns[id], e))
    ensures Answer(s, Other(id, e), timeout) == 0 && SettledByOther(s, Other(id, e)) == Client.Settles(s.conns[id], e)
  {
  }

  lemma OtherKeeps(s: Consumer, id: ConnId, e: Event, timeout: int)
    requires Good(s) && Quiet(s, Other(id, e))
    ensures Accounted(s, Other(id, e), timeout)
  {
    if id in s.conns {
      OtherSettles(s, id, e);
      OtherDoes(s, id, e, timeout);
      AccountedBy(s, Other(id, e), timeout, WithConn(s, id, Step(s.conns[id], e)), Client.Settles(s.conns[id], e));
    } else {
      AccountedBy(s, Other(id, e), timeout, s, 0);
    }
  }

  /** Every piece and every step of another task keeps the consumer good, and settles exactly
      what it answers, or what it is said to settle. */
  lemma DoKeeps(s: Consumer, a: Act, timeout: int)
    requires Good(s) && Quiet(s, a)
    ensures Accounted(s, a, timeout)
  {
    match a
    case StopAt(id) => StopAtKeeps(s, id, timeout);
    case RequeueQueue => QueueIsAccounted(s, timeout);
    case RequeueAt(id) => RequeueAtKeeps(s, id, timeout);
    case TakeQueued => TakeKeeps(s, timeout);
    case Other(id, e) => OtherKeeps(s, id, e, timeout);
  }

  lemma {:induction false} RunKeepsGood(s: Consumer, acts: seq<Act>, timeout: int)
    requires Good(s) && QuietRun(s, acts, timeout)
    ensures Later(s, After(s, acts, timeout))
    ensures InFlight(s) - InFlight(After(s, acts, timeout)) ==
            Answers(s, acts, timeout) + SettledByOthers(s, acts, timeout)
    decreases |acts|
  {
    if acts != [] {
      var d := Do(s, acts[0], timeout);
      DoKeeps(s, acts[0], timeout);
      RunKeepsGood(d, acts[1..], timeout);
      LaterStill(s, d, After(d, acts[1..], timeout));
    }
  }

  // ---------- Exactness under any interleaving ----------

  lemma FinishedStays(c: Conn, d: Conn)
    requires Progress(c, d) && Live(c.msgs) == 0
    ensures Live(d.msgs) == 0
  {
    LiveZero(c.msgs);
    LiveZero(d.msgs);
  }

  /** A connection whose requeueing has run has nothing unfinished at the end. */
  lemma {:induction false} RequeuedAtTheEnd(s: Consumer, acts: seq<Act>, timeout: int, id: ConnId)
    requires Good(s) && QuietRun(s, acts, timeout) && id in s.conns && RequeueAt(id) in acts
    ensures id in After(s, acts, timeout).conns && Live(After(s, acts, timeout).conns[id].msgs) == 0
    decreases |acts|
  {
    var d := Do(s, acts[0], timeout);
    DoKeeps(s, acts[0], timeout);
    if acts[0] == RequeueAt(id) {
      RequeueTrackedFinishes(s.conns[id], timeout);
      RunKeepsGood(d, acts[1..], timeout);
      FinishedStays(d.conns[id], After(d, acts[1..], timeout).conns[id]);
    } else {
      RequeuedAtTheEnd(d, acts[1..], timeout, id);
    }
  }

  /** The pieces of `graceful_close` up to its last loop, in any interleaving with other
      tasks. The requeueing of every connection is one of the pieces. */
  ghost predicate Graceful(s: Consumer, acts: seq<Act>, timeout: int)
  {
    QuietRun(s, acts, timeout) && forall id :: id in s.conns ==> RequeueAt(id) in acts
  }

  /** Whatever other tasks settle meanwhile, every message ends with exactly one FIN or REQ,
      and every connection closed with an empty ledger. */
  lemma EveryMessageIsSettledOnce(s: Consumer, acts: seq<Act>, timeout: int, x: Entry)
    requires Good(s) && Graceful(s, acts, timeout) && Exists(s, x)
    ensures var t := CloseAll(After(s, acts, timeout));
            && Exists(t, x) && Processed(t, x) && Settlements(t.conns[x.id].sent, x.h) == 1
            && t.conns[x.id].closed && t.conns[x.id].ledger == [] && t.conns[x.id].waiters == []
  {
    var u := After(s, acts, timeout);
    RunKeepsGood(s, acts, timeout);
    RequeuedAtTheEnd(s, acts, timeout, x.id);
    FinishedAndClosed(u.conns[x.id], x.h);
  }

  lemma FinishedAndClosed(c: Conn, h: nat)
    requires GoodConn(c) && Live(c.msgs) == 0 && h < |c.msgs|
    ensures var d := Closed(c, Requested, true);
            && d.msgs == c.msgs && d.msgs[h].processed && Settlements(d.sent, h) == 1
            && d.closed && d.ledger == [] && d.waiters == []
  {
    LiveZero(c.msgs);
    SentAppend(c.sent, Cls, h);
  }

  lemma {:induction false} NothingLive(s: Consumer, ids: set<ConnId>)
    requires ids <= s.conns.Keys && forall id :: id in ids ==> s.conns[id].credit.inFlight == 0
    ensures Sum(ids, InFlights(s)) == 0
    decreases |ids|
  {
    if ids != {} { NothingLive(s, ids - {MaxOf(ids)}); }
  }

  /** The answer, and what other tasks settled meanwhile, are together all the messages that
      were unfinished at the start. */
  lemma AnswerAndOthersAreAll(s: Consumer, acts: seq<Act>, timeout: int)
    requires Good(s) && Graceful(s, acts, timeout)
    ensures Answers(s, acts, timeout) + SettledByOthers(s, acts, timeout) == Sum(s.conns.Keys, Unfinished(s))
  {
    var u := After(s, acts, timeout);
    RunKeepsGood(s, acts, timeout);
    forall id | id in u.conns
      ensures u.conns[id].credit.inFlight == 0
    {
      RequeuedAtTheEnd(s, acts, timeout, id);
    }
    NothingLive(u, u.conns.Keys);
    SumSame(s.conns.Keys, InFlights(s), Unfinished(s));
  }

  // ---------- The answer counts the REQs ----------

  /** The REQs on a connection. */
  function Reqs(sent: seq<Sent>): nat
  {
    if sent == [] then 0 else Reqs(sent[..|sent| - 1]) + (if sent[|sent| - 1].Requeue? then 1 else 0)
  }

  lemma ReqsAppend(sent: seq<Sent>, s: Sent)
    ensures Reqs(sent + [s]) == Reqs(sent) + (if s.Requeue? then 1 else 0)
  {
    assert (sent + [s])[..|sent|] == sent;
  }

  ghost function ReqsBy(s: Consumer): map<ConnId, int>
  {
    map id | id in s.conns :: Reqs(s.conns[id].sent)
  }

  ghost function AllReqs(s: Consumer): int
  {
    Sum(s.conns.Keys, ReqsBy(s))
  }

  lemma ReqsPoint(s: Consumer, id: ConnId, d: Conn)
    requires id in s.conns
    ensures AllReqs(WithConn(s, id, d)) - AllReqs(s) == Reqs(d.sent) - Reqs(s.conns[id].sent)
  {
    var t := WithConn(s, id, d);
    assert t.conns.Keys == s.conns.Keys;
    SumPoint(s.conns.Keys, ReqsBy(t), ReqsBy(s), id);
  }

  lemma {:induction false} RequeueEachReqs(c: Conn, hs: seq<nat>, timeout: int)
    requires forall i :: 0 <= i < |hs| ==> hs[i] < |c.msgs|
    ensures var (d, n) := RequeueEach(c, hs, timeout); Reqs(d.sent) - Reqs(c.sent) == n
    decreases |hs|
  {
    if hs != [] {
      ReqsAppend(c.sent, Requeue(hs[0], timeout));
      RequeueEachReqs(RequeueHead(c, hs[0], timeout), hs[1..], timeout);
    }
  }

  lemma {:induction false} QueueReqs(s: Consumer, timeout: int)
    requires QueueValid(s)
    ensures var r := RequeueQueued(s, timeout); AllReqs(r.state) - AllReqs(s) == r.requeued
    decreases |s.queue|
  {
    if s.queue != [] {
      var (e, s1) := (First(s), s.(queue := s.queue[1..]));
      ServeFirstValid(s, timeout);
      assert ReqsBy(s1) == ReqsBy(s);
      match SettleResult(s.conns[e.id], e.h)
      case RuntimeWarning => QueueReqs(s1, timeout);
      case Ok =>
        ReqsAppend(s.conns[e.id].sent, Requeue(e.h, timeout));
        ReqsPoint(s1, e.id, AfterSettle(s.conns[e.id], e.h, Requeue(e.h, timeout)));
        QueueReqs(ServeFirst(s, timeout), timeout);
      case _ =>
    }
  }

  /** The REQs that the pieces of the shutdown write, those of other tasks left out. */
  ghost function OwnReqs(s: Consumer, acts: seq<Act>, timeout: int): int
    decreases |acts|
  {
    if acts == [] then 0
    else
      var d := Do(s, acts[0], timeout);
      (if acts[0].Other? then 0 else AllReqs(d) - AllReqs(s)) + OwnReqs(d, acts[1..], timeout)
  }

  lemma PieceReqs(s: Consumer, a: Act, timeout: int)
    requires !a.Other?
    ensures AllReqs(Do(s, a, timeout)) - AllReqs(s) == Answer(s, a, timeout)
  {
    match a
    case StopAt(id) =>
      if id in s.conns {
        ReqsAppend(s.conns[id].sent, Ready(0));
        ReqsPoint(s, id, AfterReady(s.conns[id], 0));
      }
    case RequeueQueue => if QueueValid(s) { QueueReqs(s, timeout); }
    case RequeueAt(id) =>
      if id in s.conns {
        var c := s.conns[id];
        if HandlesValid(c) { RequeueEachReqs(c, Values(c.ledger), timeout); }
        ReqsPoint(s, id, RequeueTracked(c, timeout).0);
      }
    case TakeQueued => assert ReqsBy(Do(s, a, timeout)) == ReqsBy(s);
  }

  /** Over every run, with connections open or not, the answer is the number of REQs that the
      shutdown itself wrote. */
  lemma {:induction false} AnswerCountsOwnReqs(s: Consumer, acts: seq<Act>, timeout: int)
    ensures Answers(s, acts, timeout) == OwnReqs(s, acts, timeout)
    decreases |acts|
  {
    if acts != [] {
      if !acts[0].Other? { PieceReqs(s, acts[0], timeout); }
      AnswerCountsOwnReqs(Do(s, acts[0], timeout), acts[1..], timeout);
    }
  }

  /** All of this after any life of the connections with distinct live ids. */
  lemma GracefulAfterAnyLife(s: Consumer, lives: map<ConnId, (int, seq<Event>)>, acts: seq<Act>, timeout: int, x: Entry)
    requires QueueValid(s) && HasLived(s, lives) && Graceful(s, acts, timeout) && Exists(s, x)
    ensures var t := CloseAll(After(s, acts, timeout));
            && Exists(t, x) && Settlements(t.conns[x.id].sent, x.h) == 1
            && Answers(s, acts, timeout) + SettledByOthers(s, acts, timeout) == Sum(s.conns.Keys, Unfinished(s))
            && Answers(s, acts, timeout) == OwnReqs(s, acts, timeout)
  {
    LivedIsValid(s, lives);
    EveryMessageIsSettledOnce(s, acts, timeout, x);
    AnswerAndOthersAreAll(s, acts, timeout);
    AnswerCountsOwnReqs(s, acts, timeout);
  }

  // ---------- The run without other tasks ----------

  /** The requeueing tasks of some connections, one after the other. */
  ghost function RequeueAts(ids: set<ConnId>): (acts: seq<Act>)
    ensures forall id :: id in ids <==> RequeueAt(id) in acts
    ensures forall a :: a in acts ==> a.RequeueAt?
    decreases |ids|
  {
    if ids == {} then [] else RequeueAts(ids - {MaxOf(ids)}) + [RequeueAt(MaxOf(ids))]
  }

  lemma {:induction false} AfterAppend(s: Consumer, acts: seq<Act>, a: Act, timeout: int)
    ensures After(s, acts + [a], timeout) == Do(After(s, acts, timeout), a, timeout)
    ensures Answers(s, acts + [a], timeout) == Answers(s, acts, timeout) + Answer(After(s, acts, timeout), a, timeout)
    decreases |acts|
  {
    if acts == [] {
      assert [] + [a] == [a] && [a][1..] == [];
    } else {
      assert (acts + [a])[1..] == acts[1..] + [a];
      AfterAppend(Do(s, acts[0], timeout), acts[1..], a, timeout);
    }
  }

  ghost function TrackedAt(s: Consumer, ids: set<ConnId>, timeout: int): Consumer
  {
    s.(conns := map id | id in s.conns :: if id in ids then RequeueTracked(s.conns[id], timeout).0 else s.conns[id])
  }

  lemma OneMoreTracked(s: Consumer, ids: set<ConnId>, id: ConnId, timeout: int)
    requires id in s.conns && id !in ids
    ensures WithConn(TrackedAt(s, ids, timeout), id, RequeueTracked(s.conns[id], timeout).0) ==
            TrackedAt(s, ids + {id}, timeout)
    ensures TrackedAt(s, ids, timeout).conns[id] == s.conns[id]
  {
    assert WithConn(TrackedAt(s, ids, timeout), id, RequeueTracked(s.conns[id], timeout).0).conns ==
           TrackedAt(s, ids + {id}, timeout).conns;
  }

  lemma {:induction false} RequeueAtsTrack(s: Consumer, ids: set<ConnId>, timeout: int)
    requires ids <= s.conns.Keys
    ensures After(s, RequeueAts(ids), timeout) == TrackedAt(s, ids, timeout)
    ensures Answers(s, RequeueAts(ids), timeout) == Sum(ids, TrackedCounts(s, timeout))
    decreases |ids|
  {
    if ids == {} {
      assert forall id :: id !in ids;
      assert TrackedAt(s, ids, timeout).conns == s.conns;
    } else {
      var m := MaxOf(ids);
      RequeueAtsTrack(s, ids - {m}, timeout);
      AfterAppend(s, RequeueAts(ids - {m}), RequeueAt(m), timeout);
      OneMoreTracked(s, ids - {m}, m, timeout);
      assert ids - {m} + {m} == ids;
    }
  }

  /** `ShutDown` is the run of the pieces in which no other task takes part. */
  lemma AtomicIsOneRun(s: Consumer, timeout: int) returns (acts: seq<Act>)
    requires QueueValid(s) && !RequeueQueued(s, timeout).raised
    ensures forall a :: a in acts ==> !a.Other? && !a.TakeQueued?
    ensures forall id :: id in RequeueQueued(s, timeout).state.conns ==> RequeueAt(id) in acts
    ensures var r := ShutDown(s, true, timeout);
            r.state == CloseAll(After(s, acts, timeout)) && r.requeued == Answers(s, acts, timeout)
  {
    var q := RequeueQueued(s, timeout).state;
    var tasks := RequeueAts(q.conns.Keys);
    acts := [RequeueQueue] + tasks;
    assert acts[1..] == tasks;
    RequeueAtsTrack(q, q.conns.Keys, timeout);
    assert TrackedAt(q, q.conns.Keys, timeout).conns == RequeueAllTracked(q, timeout).conns;
  }
}
