/** `graceful_close` while nsqd still delivers and connections are lost: which messages it
    settles, when other tasks do whatever they like between its pieces. */
module ShutdownLosses {
  import Client = ClientSystem
  import opened SetSum
  import opened OrderedDict
  import opened ConnectionState
  import opened ConnectionLaws
  import opened Shutdown
  import opened ShutdownRuns

  /** Messages may come; those that are there keep their ids and stay processed, and once the
      connection is closed nothing can be settled. */
  ghost predicate Growth(c: Conn, d: Conn)
  {
    && |c.msgs| <= |d.msgs| && (IsClosed(c) ==> IsClosed(d))
    && forall h :: 0 <= h < |c.msgs| ==>
         && (c.msgs[h].processed ==> d.msgs[h].processed)
         && (IsClosed(c) && d.msgs[h].processed ==> c.msgs[h].processed)
  }

  lemma GrowthTwice(c: Conn, d: Conn, e: Conn)
    requires Growth(c, d) && Growth(d, e)
    ensures Growth(c, e)
  {
  }

  // ---------- One connection ----------

  lemma SettleGrowth(c: Conn, h: nat, s: Sent)
    requires h < |c.msgs|
    ensures Growth(c, AfterSettle(c, h, s))
  {
  }

  lemma {:induction false} RequeueEachGrowth(c: Conn, hs: seq<nat>, timeout: int)
    requires forall i :: 0 <= i < |hs| ==> hs[i] < |c.msgs|
    ensures Growth(c, RequeueEach(c, hs, timeout).0)
    decreases |hs|
  {
    if hs != [] {
      var d := RequeueHead(c, hs[0], timeout);
      SettleGrowth(c, hs[0], Requeue(hs[0], timeout));
      RequeueEachGrowth(d, hs[1..], timeout);
      GrowthTwice(c, d, RequeueEach(d, hs[1..], timeout).0);
    }
  }

  lemma TrackedGrowth(c: Conn, timeout: int)
    ensures Growth(c, RequeueTracked(c, timeout).0)
  {
    if !IsClosed(c) && HandlesValid(c) {
      RequeueEachGrowth(c, Values(c.ledger), timeout);
    }
  }

  lemma MessageStepGrowth(c: Conn, e: Event)
    requires e.Fin? || e.Req? || e.Handled?
    ensures Growth(c, Step(c, e))
  {
    if e.h < |c.msgs| {
      SettleGrowth(c, e.h, Finish(e.h));
      SettleGrowth(c, e.h, Requeue(e.h, if e.Req? then e.timeout else 0));
    }
  }

  lemma StepGrowth(c: Conn, e: Event)
    requires ConnInv(c)
    ensures Growth(c, Step(c, e))
  {
    if IsClosed(c) { Client.ClosedStays(c, e); }
    if e.Recv? {
      if !e.f.Message? { FrameTouchesNoMessage(c, e.f); }
    } else if e.Fin? || e.Req? || e.Handled? {
      MessageStepGrowth(c, e);
    } else if e.RequeueInFlight? {
      TrackedGrowth(c, e.timeout);
    } else {
      CallTouchesNoMessage(c, e);
    }
  }

  // ---------- The whole consumer ----------

  /** `t` is a later state of the consumer `s`. */
  ghost predicate Grown(s: Consumer, t: Consumer)
  {
    && Shutdown.Valid(t) && t.conns.Keys == s.conns.Keys
    && forall id :: id in s.conns ==> Growth(s.conns[id], t.conns[id])
  }

  lemma GrownTwice(s: Consumer, t: Consumer, u: Consumer)
    requires Grown(s, t) && Grown(t, u)
    ensures Grown(s, u)
  {
    forall id | id in s.conns
      ensures Growth(s.conns[id], u.conns[id])
    {
      GrowthTwice(s.conns[id], t.conns[id], u.conns[id]);
    }
  }

  lemma PointGrows(s: Consumer, id: ConnId, d: Conn)
    requires Shutdown.Valid(s) && id in s.conns && ConnInv(d) && Growth(s.conns[id], d)
    ensures Grown(s, WithConn(s, id, d))
  {
    var t := WithConn(s, id, d);
    forall e | e in t.queue
      ensures Exists(t, e)
    {
      assert Exists(s, e);
    }
    assert t.conns.Keys == s.conns.Keys;
  }

  lemma ShorterQueueGrows(s: Consumer)
    requires Shutdown.Valid(s) && s.queue != []
    ensures Grown(s, s.(queue := s.queue[1..]))
  {
    assert forall e :: e in s.queue[1..] ==> e in s.queue && Exists(s, e);
  }

  lemma ServeFirstGrows(s: Consumer, timeout: int)
    requires Shutdown.Valid(s) && s.queue != []
    ensures Grown(s, ServeFirst(s, timeout))
  {
    var (e, s1) := (First(s), s.(queue := s.queue[1..]));
    ShorterQueueGrows(s);
    SettleKeeps(s.conns[e.id], e.h, Requeue(e.h, timeout));
    SettleGrowth(s.conns[e.id], e.h, Requeue(e.h, timeout));
    PointGrows(s1, e.id, AfterSettle(s.conns[e.id], e.h, Requeue(e.h, timeout)));
    GrownTwice(s, s1, ServeFirst(s, timeout));
  }

  lemma {:induction false} QueueGrows(s: Consumer, timeout: int)
    requires Shutdown.Valid(s)
    ensures Grown(s, RequeueQueued(s, timeout).state)
    decreases |s.queue|
  {
    if s.queue != [] {
      var s1 := s.(queue := s.queue[1..]);
      ShorterQueueGrows(s);
      match SettleResult(s.conns[First(s).id], First(s).h)
      case RuntimeWarning =>
        QueueGrows(s1, timeout);
        GrownTwice(s, s1, RequeueQueued(s1, timeout).state);
      case Ok =>
        var s2 := ServeFirst(s, timeout);
        ServeFirstGrows(s, timeout);
        QueueGrows(s2, timeout);
        GrownTwice(s, s2, RequeueQueued(s2, timeout).state);
      case _ =>
    }
  }

  lemma DoGrows(s: Consumer, a: Act, timeout: int)
    requires Shutdown.Valid(s)
    ensures Grown(s, Do(s, a, timeout))
  {
    match a
    case StopAt(id) =>
      if id in s.conns {
        StopConnKeeps(s.conns[id]);
        PointGrows(s, id, AfterReady(s.conns[id], 0));
      }
    case RequeueQueue => QueueGrows(s, timeout);
    case RequeueAt(id) =>
      if id in s.conns {
        TrackedKeeps(s.conns[id], timeout);
        TrackedGrowth(s.conns[id], timeout);
        PointGrows(s, id, RequeueTracked(s.conns[id], timeout).0);
      }
    case TakeQueued => if s.queue != [] { ShorterQueueGrows(s); }
    case Other(id, e) =>
      if id in s.conns {
        StepKeeps(s.conns[id], e);
        StepGrowth(s.conns[id], e);
        PointGrows(s, id, Step(s.conns[id], e));
      }
  }

  lemma {:induction false} RunGrows(s: Consumer, acts: seq<Act>, timeout: int)
    requires Shutdown.Valid(s)
    ensures Grown(s, After(s, acts, timeout))
    decreases |acts|
  {
    if acts != [] {
      var d := Do(s, acts[0], timeout);
      DoGrows(s, acts[0], timeout);
      RunGrows(d, acts[1..], timeout);
      GrownTwice(s, d, After(d, acts[1..], timeout));
    }
  }

  // ---------- What the piece of a connection finds ----------

  lemma ClosedAtTheEnd(c: Conn, h: nat)
    requires ConnInv(c) && h < |c.msgs|
    ensures var d := Closed(c, Requested, true);
            ConnInv(d) && |d.msgs| == |c.msgs| && d.msgs[h] == c.msgs[h]
            && Settlements(d.sent, h) == if c.msgs[h].processed then 1 else 0
  {
    ClosedKeeps(c, Requested, true);
  }

  lemma EndsAs(s: Consumer, x: Entry)
    requires Shutdown.Valid(s) && Exists(s, x)
    ensures var t := CloseAll(s);
            Exists(t, x) && Settlements(t.conns[x.id].sent, x.h) == if Processed(s, x) then 1 else 0
  {
    ClosedAtTheEnd(s.conns[x.id], x.h);
  }

  lemma PieceSettles(c: Conn, timeout: int, h: nat)
    requires ConnInv(c) && h < |c.msgs| && (IsClosed(c) || LedgerComplete(c))
    ensures var d := RequeueTracked(c, timeout).0;
            h < |d.msgs| && (d.msgs[h].processed <==> c.msgs[h].processed || !IsClosed(c))
  {
    if !IsClosed(c) {
      RequeueTrackedFinishes(c, timeout);
      RequeueTrackedKeeps(c, timeout);
      LiveZero(RequeueTracked(c, timeout).0.msgs);
    }
  }

  /** The piece of its connection decides on a message: settled, or out of reach. */
  lemma PieceDecides(s: Consumer, x: Entry, timeout: int)
    requires Shutdown.Valid(s) && Exists(s, x)
    requires IsClosed(s.conns[x.id]) || LedgerComplete(s.conns[x.id])
    ensures var d := Do(s, RequeueAt(x.id), timeout);
            && Shutdown.Valid(d) && Exists(d, x)
            && (Processed(d, x) <==> Processed(s, x) || !IsClosed(s.conns[x.id]))
            && (Processed(d, x) || IsClosed(d.conns[x.id]))
  {
    DoGrows(s, RequeueAt(x.id), timeout);
    PieceSettles(s.conns[x.id], timeout, x.h);
  }

  lemma DecidedStays(s: Consumer, x: Entry, t: Consumer)
    requires Exists(s, x) && Grown(s, t) && (Processed(s, x) || IsClosed(s.conns[x.id]))
    ensures Exists(t, x) && (Processed(t, x) <==> Processed(s, x))
  {
  }

  /** Whatever other tasks and nsqd do afterwards: a message that is there when the requeueing
      of its connection runs ends with exactly one FIN or REQ if and only if it has been
      settled by then or the connection is open then; otherwise it ends with none. */
  lemma SettledIffOpenThen(s: Consumer, x: Entry, rest: seq<Act>, timeout: int)
    requires Shutdown.Valid(s) && Exists(s, x)
    requires IsClosed(s.conns[x.id]) || LedgerComplete(s.conns[x.id])
    ensures var t := CloseAll(After(Do(s, RequeueAt(x.id), timeout), rest, timeout));
            && Exists(t, x)
            && Settlements(t.conns[x.id].sent, x.h) ==
               if Processed(s, x) || !IsClosed(s.conns[x.id]) then 1 else 0
  {
    PieceDecides(s, x, timeout);
    var d := Do(s, RequeueAt(x.id), timeout);
    RunGrows(d, rest, timeout);
    DecidedStays(d, x, After(d, rest, timeout));
    EndsAs(After(d, rest, timeout), x);
  }

  // ---------- After any life ----------

  /** Nothing unfinished is untracked on a connection that is not closed. */
  ghost predicate Tracked(s: Consumer)
  {
    forall id :: id in s.conns ==> s.conns[id].closed || LedgerComplete(s.conns[id])
  }

  /** Whatever nsqd delivers has an id that is not live on its connection. */
  ghost predicate FreshRun(s: Consumer, acts: seq<Act>, timeout: int)
    decreases |acts|
  {
    acts == [] || (FreshAct(s, acts[0]) && FreshRun(Do(s, acts[0], timeout), acts[1..], timeout))
  }

  ghost predicate FreshAct(s: Consumer, a: Act)
  {
    a.Other? && a.id in s.conns && a.e.Recv? && a.e.f.Message? ==> !IsLive(s.conns[a.id], a.e.f.id)
  }

  lemma ServeFirstTracks(s: Consumer, timeout: int)
    requires Shutdown.Valid(s) && Tracked(s) && s.queue != []
    ensures Tracked(ServeFirst(s, timeout)) && Tracked(s.(queue := s.queue[1..]))
  {
    var e := First(s);
    if !s.conns[e.id].closed { SettleStaysComplete(s.conns[e.id], e.h, Requeue(e.h, timeout)); }
  }

  lemma {:induction false} QueueTracks(s: Consumer, timeout: int)
    requires Shutdown.Valid(s) && Tracked(s)
    ensures Tracked(RequeueQueued(s, timeout).state)
    decreases |s.queue|
  {
    if s.queue != [] {
      ServeFirstTracks(s, timeout);
      ServeFirstKeeps(s, timeout);
      match SettleResult(s.conns[First(s).id], First(s).h)
      case RuntimeWarning => QueueTracks(s.(queue := s.queue[1..]), timeout);
      case Ok => QueueTracks(ServeFirst(s, timeout), timeout);
      case _ =>
    }
  }

  lemma DoTracks(s: Consumer, a: Act, timeout: int)
    requires Shutdown.Valid(s) && Tracked(s) && FreshAct(s, a)
    ensures Tracked(Do(s, a, timeout))
  {
    match a
    case StopAt(id) => if id in s.conns { StopConnKeeps(s.conns[id]); }
    case RequeueQueue => QueueTracks(s, timeout);
    case RequeueAt(id) =>
      if id in s.conns && !IsClosed(s.conns[id]) {
        LedgerHandles(s.conns[id]);
        RequeueStaysComplete(s.conns[id], Values(s.conns[id].ledger), timeout);
      }
    case TakeQueued =>
    case Other(id, e) => if id in s.conns { StepStaysComplete(s.conns[id], e); }
  }

  lemma {:induction false} RunTracks(s: Consumer, acts: seq<Act>, timeout: int)
    requires Shutdown.Valid(s) && Tracked(s) && FreshRun(s, acts, timeout)
    ensures Tracked(After(s, acts, timeout))
    decreases |acts|
  {
    if acts != [] {
      DoGrows(s, acts[0], timeout);
      DoTracks(s, acts[0], timeout);
      RunTracks(Do(s, acts[0], timeout), acts[1..], timeout);
    }
  }

  /** After any life with distinct live ids, and whatever else happens between the pieces,
      deliveries and lost connections included: of the messages that are there when the
      requeueing of their connection runs, exactly those end settled that were settled by then
      or whose connection is open then, and each of them once. */
  lemma WhatShutdownSettles(s: Consumer, lives: map<ConnId, (int, seq<Event>)>, before: seq<Act>, x: Entry,
                            rest: seq<Act>, timeout: int)
    requires QueueValid(s) && HasLived(s, lives) && FreshRun(s, before, timeout)
    requires Exists(After(s, before, timeout), x)
    ensures var u := After(s, before, timeout);
            var t := CloseAll(After(Do(u, RequeueAt(x.id), timeout), rest, timeout));
            && Exists(t, x)
            && Settlements(t.conns[x.id].sent, x.h) ==
               if Processed(u, x) || !IsClosed(u.conns[x.id]) then 1 else 0
  {
    LivedIsValid(s, lives);
    RunGrows(s, before, timeout);
    RunTracks(s, before, timeout);
    SettledIffOpenThen(After(s, before, timeout), x, rest, timeout);
  }

  // ---------- Messages that come too late ----------

  /** The event may settle this message. */
  predicate MaySettle(e: Event, h: nat)
  {
    match e
    case Fin(k) => k == h
    case Req(k, _) => k == h
    case Handled(k, _, _, _) => k == h
    case RequeueInFlight(_) => true
    case _ => false
  }

  /** Nothing after the piece of connection `id` reaches this message, but other tasks. */
  predicate LeavesAlone(a: Act, id: ConnId, h: nat)
  {
    && !a.RequeueQueue? && a != RequeueAt(id)
    && (a.Other? && a.id == id ==> !MaySettle(a.e, h))
  }

  predicate Unsettled(c: Conn, h: nat)
  {
    h < |c.msgs| ==> !c.msgs[h].processed
  }

  lemma StepLeavesUnsettled(c: Conn, e: Event, h: nat)
    requires Unsettled(c, h) && !MaySettle(e, h)
    ensures Unsettled(Step(c, e), h)
  {
    if e.Recv? {
      if !e.f.Message? { FrameTouchesNoMessage(c, e.f); }
    } else if !e.Fin? && !e.Req? && !e.Handled? {
      CallTouchesNoMessage(c, e);
    }
  }

  lemma DoLeavesUnsettled(s: Consumer, a: Act, timeout: int, id: ConnId, h: nat)
    requires id in s.conns && Unsettled(s.conns[id], h) && LeavesAlone(a, id, h)
    ensures id in Do(s, a, timeout).conns && Unsettled(Do(s, a, timeout).conns[id], h)
  {
    if a.Other? && a.id == id { StepLeavesUnsettled(s.conns[id], a.e, h); }
  }

  /** A message that nsqd delivers after the requeueing of its connection, and that no other
      task settles, ends without FIN and REQ. */
  lemma {:induction false} LateMessagesAreLost(s: Consumer, acts: seq<Act>, timeout: int, x: Entry)
    requires Shutdown.Valid(s) && x.id in s.conns && Unsettled(s.conns[x.id], x.h)
    requires forall a :: a in acts ==> LeavesAlone(a, x.id, x.h)
    ensures var t := CloseAll(After(s, acts, timeout));
            x.id in t.conns && Unsettled(t.conns[x.id], x.h) && Settlements(t.conns[x.id].sent, x.h) == 0
    decreases |acts|
  {
    if acts == [] {
      ClosedKeeps(s.conns[x.id], Requested, true);
    } else {
      DoGrows(s, acts[0], timeout);
      DoLeavesUnsettled(s, acts[0], timeout, x.id, x.h);
      assert forall a :: a in acts[1..] ==> a in acts;
      LateMessagesAreLost(Do(s, acts[0], timeout), acts[1..], timeout, x);
    }
  }
}
