/** The connections and the RDY scheduler together: what a connection does is a run of the
    scheduler's machine, so the flow-control laws hold of the messages themselves. */
module ClientSystem {
  import opened Prelude
  import opened SetSum
  import opened Credit
  import opened RdyWakes
  import opened OrderedDict
  import opened ConnectionState
  import R = RdyScheduler

  datatype Client = Client(conns: map<ConnId, Conn>, maxInFlight: int, wakes: Wakes, jobs: seq<R.Job>)

  /** One atomic piece of synchronous code, on a connection or in the scheduler. */
  datatype Action =
    | OnConn(id: ConnId, e: Event)
    | Signal(id: ConnId)
    | AskAll
    | Take
    | RunJob(k: nat)
    | Shutdown
    | Join(id: ConnId, c: Conn)       // a connection is added, or replaces one of its id

  function NodeOf(c: Conn): R.Node
  {
    R.Node(c.credit, IsClosed(c))
  }

  /** What the scheduler sees of the client. */
  function View(y: Client): R.Sched
  {
    R.Sched(y.maxInFlight, map id | id in y.conns :: NodeOf(y.conns[id]), y.wakes, y.jobs)
  }

  /** How many FINs and REQs an event writes. */
  ghost function Settles(c: Conn, e: Event): nat
  {
    match e
    case Fin(h) => if h < |c.msgs| && SettleResult(c, h) == Ok then 1 else 0
    case Req(h, _) => if h < |c.msgs| && SettleResult(c, h) == Ok then 1 else 0
    case Handled(h, failed, autoFin, autoRequeue) =>
      if h < |c.msgs| && HandlerSettles(c, h, failed, autoFin, autoRequeue) then 1 else 0
    case RequeueInFlight(timeout) => if IsClosed(c) then 0 else RequeueLedger(c, timeout).1
    case _ => 0
  }

  /** A connection takes a step; when that settles messages and a refill is due, it signals. */
  ghost function AfterEvent(y: Client, id: ConnId, e: Event): Client
    requires id in y.conns
  {
    var c := ConnectionState.Step(y.conns[id], e);
    var due := Settles(y.conns[id], e) > 0 && RefillDue(c.credit);
    y.(conns := y.conns[id := c], wakes := if due then Signalled(y.wakes, id) else y.wakes)
  }

  ghost function AfterTake(y: Client): Client
    requires y.wakes.queue != []
  {
    var y' := y.(wakes := Taken(y.wakes));
    match y.wakes.queue[0]
    case Redistribute => y'.(jobs := R.Gathered(View(y)))
    case ChangeConnRdy(id) =>
      if R.IsOpen(View(y), id) then y'.(conns := y.conns[id := Served(y.conns[id], R.Fresh(View(y), id))]) else y'
  }

  function AfterJob(y: Client, k: nat): Client
    requires k < |y.jobs|
  {
    var job := y.jobs[k];
    var y' := y.(jobs := y.jobs[..k] + y.jobs[k + 1..]);
    if job.id in y.conns then y'.(conns := y.conns[job.id := AfterRetarget(y.conns[job.id], job.target)]) else y'
  }

  ghost function Step(y: Client, a: Action): Client
  {
    match a
    case OnConn(id, e) => if id in y.conns then AfterEvent(y, id, e) else y
    case Signal(id) => if id in y.conns then y.(wakes := Signalled(y.wakes, id)) else y
    case AskAll => y.(wakes := Asked(y.wakes))
    case Take => if R.CanTake(View(y)) then AfterTake(y) else y
    case RunJob(k) => if k < |y.jobs| then AfterJob(y, k) else y
    case Shutdown => y.(wakes := Shut(y.wakes), jobs := [])
    case Join(id, c) => if CanJoin(y, id) then y.(conns := y.conns[id := c]) else y
  }

  /** No gathered call waits for an earlier connection of this id. */
  ghost predicate CanJoin(y: Client, id: ConnId)
  {
    !(id in y.conns && R.DueAt(View(y), id))
  }

  /** A connection that has exchanged commands, but has been given no credit. */
  ghost predicate Joinable(c: Conn)
  {
    ConnInv(c) && c.credit == NewCredit(c.credit.maxRdy)
  }

  ghost function Run(y: Client, actions: seq<Action>): Client
    decreases |actions|
  {
    if actions == [] then y else Run(Step(y, actions[0]), actions[1..])
  }

  /** Connections that were just opened, and an idle scheduler. */
  ghost predicate Initial(y: Client)
  {
    && y.wakes == NO_WAKES && y.jobs == []
    && forall id :: id in y.conns ==> y.conns[id] == NewConn(y.conns[id].credit.maxRdy)
  }

  // ---------- What the environment does ----------

  /** RDY commands come from the scheduler and from `stop_receiving` only. */
  predicate Proper(e: Event)
  {
    !e.Retarget? && (e.SetReady? ==> e.n == 0)
  }

  /** nsqd delivers on an open connection only within its credit or its target, and no
      connection joins. */
  predicate Obeys(y: Client, a: Action)
  {
    !a.Join? && (a.OnConn? ==>
      && Proper(a.e)
      && (a.id in y.conns && a.e.Recv? && a.e.f.Message? && !IsClosed(y.conns[a.id]) ==>
            var c := y.conns[a.id].credit; c.rdyCount > 0 || c.inFlight < c.target))
  }

  ghost predicate ObeyingRun(y: Client, actions: seq<Action>)
    decreases |actions|
  {
    actions == [] || (Obeys(y, actions[0]) && ObeyingRun(Step(y, actions[0]), actions[1..]))
  }

  // ---------- A client step is a run of the scheduler ----------

  function Settlings(id: ConnId, n: nat): (es: seq<R.Event>)
    ensures |es| == n && forall e :: e in es ==> e == R.Settle(id)
  {
    if n == 0 then [] else [R.Settle(id)] + Settlings(id, n - 1)
  }

  /** What an event of connection `id`, now in state `c`, is to the scheduler. */
  ghost function SeenAs(c: Conn, id: ConnId, e: Event): seq<R.Event>
  {
    if IsClosed(c) then []
    else if IsClosed(ConnectionState.Step(c, e)) then [R.Lose(id)]
    else if e.Recv? && e.f.Message? then [R.Deliver(id)]
    else if e.SetReady? then [R.Stop(id)]
    else Settlings(id, Settles(c, e))
  }

  ghost function Translated(y: Client, a: Action): seq<R.Event>
  {
    match a
    case OnConn(id, e) => if id in y.conns then SeenAs(y.conns[id], id, e) else []
    case Signal(id) => [R.Signal(id)]
    case AskAll => [R.AskAll]
    case Take => [R.Take]
    case RunJob(k) => [R.RunJob(k)]
    case Shutdown => [R.Shutdown]
    case Join(id, c) =>
      if !CanJoin(y, id) then []
      else [R.Add(id, c.credit.maxRdy)] + (if IsClosed(c) then [R.Lose(id)] else [])
  }

  lemma SettledCredit(c: Conn, h: nat, s: Sent)
    requires ConnInv(c) && h < |c.msgs| && SettleResult(c, h) == Ok && (s == Finish(h) || (s.Requeue? && s.h == h))
    ensures 1 <= c.credit.inFlight
    ensures AfterSettle(c, h, s).credit == c.credit.(inFlight := c.credit.inFlight - 1)
  {
    SettlingSettle(c, h, s);
  }

  /** A FIN or a REQ by a call of user code or of a handler. */
  lemma SettlingCredit(c: Conn, e: Event)
    requires ConnInv(c) && (e.Fin? || e.Req? || e.Handled?)
    ensures Settles(c, e) <= c.credit.inFlight
    ensures ConnectionState.Step(c, e).credit == c.credit.(inFlight := c.credit.inFlight - Settles(c, e))
  {
    if Settles(c, e) > 0 {
      SettledCredit(c, e.h, Finish(e.h));
      SettledCredit(c, e.h, Requeue(e.h, if e.Req? then e.timeout else 0));
    }
  }

  lemma ReceivedCredit(c: Conn, e: Event)
    requires e.Recv? && !IsClosed(ConnectionState.Step(c, e))
    ensures !IsClosed(c)
    ensures ConnectionState.Step(c, e).credit == if e.f.Message? then Delivered(c.credit) else c.credit
  {
  }

  /** The credit of a connection that stays open. */
  lemma OpenCredit(c: Conn, e: Event)
    requires ConnInv(c) && Proper(e) && !IsClosed(ConnectionState.Step(c, e))
    ensures !IsClosed(c) && Settles(c, e) <= c.credit.inFlight
    ensures ConnectionState.Step(c, e).credit ==
            if e.Recv? && e.f.Message? then Delivered(c.credit)
            else if e.SetReady? then WithRdy(c.credit, 0)
            else c.credit.(inFlight := c.credit.inFlight - Settles(c, e))
  {
    match e
    case Recv(_) => ReceivedCredit(c, e);
    case Fin(h) => SettlingCredit(c, e);
    case Req(h, timeout) => SettlingCredit(c, e);
    case Handled(_, _, _, _) => SettlingCredit(c, e);
    case RequeueInFlight(timeout) =>
      RequeueEachKeeps(c, Values(c.ledger), timeout);
      RequeueEachCredit(c, Values(c.ledger), timeout);
    case _ =>
  }

  lemma {:induction false} RequeueEachCredit(c: Conn, hs: seq<nat>, timeout: int)
    requires ConnInv(c) && !IsClosed(c) && hs == Values(c.ledger)
    ensures HandlesValid(c) && forall i :: 0 <= i < |hs| ==> hs[i] < |c.msgs|
    ensures |hs| <= c.credit.inFlight
    ensures RequeueEach(c, hs, timeout).0.credit == c.credit.(inFlight := c.credit.inFlight - |hs|)
    decreases |hs|
  {
    LedgerHandles(c);
    if hs != [] {
      RequeueOldest(c, timeout);
      var c1 := AfterSettle(c, hs[0], Requeue(hs[0], timeout));
      assert hs[1..] == Values(c1.ledger);
      RequeueEachCredit(c1, hs[1..], timeout);
    }
  }

  /** Two schedulers that differ only in the credit of closed connections. */
  ghost predicate SameOpen(s: R.Sched, t: R.Sched)
  {
    && s.maxInFlight == t.maxInFlight && s.wakes == t.wakes && s.jobs == t.jobs && s.nodes.Keys == t.nodes.Keys
    && forall id :: id in s.nodes ==>
         s.nodes[id].closed == t.nodes[id].closed && (!s.nodes[id].closed ==> s.nodes[id] == t.nodes[id])
  }

  lemma SameOpenKeeps(s: R.Sched, t: R.Sched)
    requires SameOpen(s, t)
    ensures R.CreditInv(s) ==> R.CreditInv(t)
    ensures R.WakeInv(s) ==> R.WakeInv(t)
  {
    forall id
      ensures id in R.Active(s) <==> id in R.Active(t)
    {
      assert id in s.nodes.Keys <==> id in t.nodes.Keys;
    }
    assert R.Active(s) == R.Active(t);
  }

  /** Settling `n` messages of an open connection, as the scheduler sees it. */
  ghost function SettledN(s: R.Sched, id: ConnId, n: nat): R.Sched
    requires id in s.nodes
  {
    var c := s.nodes[id].credit.(inFlight := s.nodes[id].credit.inFlight - n);
    R.WithCredit(s, id, c).(wakes := if n > 0 && RefillDue(c) then Signalled(s.wakes, id) else s.wakes)
  }

  lemma {:induction false} SettlingsRun(s: R.Sched, id: ConnId, n: nat)
    requires R.IsOpen(s, id) && n <= s.nodes[id].credit.inFlight
    ensures R.Run(s, Settlings(id, n)) == SettledN(s, id, n)
    decreases n
  {
    if n == 0 {
      assert SettledN(s, id, 0).nodes == s.nodes;
    } else {
      var t := R.AfterSettle(s, id);
      assert Settlings(id, n)[0] == R.Settle(id) && Settlings(id, n)[1..] == Settlings(id, n - 1);
      SettlingsRun(t, id, n - 1);
      assert SettledN(t, id, n - 1).nodes == SettledN(s, id, n).nodes;
    }
  }

  lemma ClosedStays(c: Conn, e: Event)
    requires ConnInv(c) && IsClosed(c)
    ensures IsClosed(ConnectionState.Step(c, e))
  {
  }

  /** What closes a connection settles nothing. */
  lemma ClosingSettlesNothing(c: Conn, e: Event)
    requires ConnInv(c) && IsClosed(ConnectionState.Step(c, e))
    ensures Settles(c, e) == 0
  {
    if e.RequeueInFlight? && !IsClosed(c) {
      RequeueEachKeeps(c, Values(c.ledger), e.timeout);
    }
  }

  lemma ViewAfter(y: Client, id: ConnId, e: Event)
    requires id in y.conns
    ensures View(AfterEvent(y, id, e)).nodes == View(y).nodes[id := NodeOf(ConnectionState.Step(y.conns[id], e))]
  {
  }

  /** One frame or call on an open connection that stays open. */
  lemma OpenEventFollows(y: Client, id: ConnId, e: Event)
    requires id in y.conns && ConnInv(y.conns[id]) && Proper(e) && !IsClosed(ConnectionState.Step(y.conns[id], e))
    ensures R.Run(View(y), SeenAs(y.conns[id], id, e)) == View(AfterEvent(y, id, e))
  {
    if e.Recv? && e.f.Message? {
      OpenCredit(y.conns[id], e);
      ViewAfter(y, id, e);
      OneStep(View(y), R.Deliver(id));
    } else if e.SetReady? {
      OpenCredit(y.conns[id], e);
      ViewAfter(y, id, e);
      OneStep(View(y), R.Stop(id));
    } else {
      SettlingFollows(y, id, e);
    }
  }

  lemma SettlingFollows(y: Client, id: ConnId, e: Event)
    requires id in y.conns && ConnInv(y.conns[id]) && Proper(e) && !IsClosed(ConnectionState.Step(y.conns[id], e))
    requires !e.SetReady? && (e.Recv? ==> !e.f.Message?)
    ensures R.Run(View(y), SeenAs(y.conns[id], id, e)) == View(AfterEvent(y, id, e))
  {
    OpenCredit(y.conns[id], e);
    ViewAfter(y, id, e);
    SettlingsRun(View(y), id, Settles(y.conns[id], e));
  }

  lemma OneStep(s: R.Sched, e: R.Event)
    ensures R.Run(s, [e]) == R.Step(s, e)
  {
    assert R.Run(R.Step(s, e), [e][1..]) == R.Step(s, e);
  }

  /** An event of a connection is what the scheduler's machine makes of it. */
  lemma EventFollows(y: Client, id: ConnId, e: Event)
    requires id in y.conns && ConnInv(y.conns[id]) && Proper(e)
    ensures SameOpen(R.Run(View(y), SeenAs(y.conns[id], id, e)), View(AfterEvent(y, id, e)))
  {
    var c := y.conns[id];
    if IsClosed(c) { ClosedStays(c, e); }
    if !IsClosed(ConnectionState.Step(c, e)) {
      OpenEventFollows(y, id, e);
    } else {
      ClosingSettlesNothing(c, e);
      ViewAfter(y, id, e);
      if !IsClosed(c) { OneStep(View(y), R.Lose(id)); }
    }
  }

  lemma TakeFollows(y: Client)
    requires y.wakes.queue != []
    ensures View(AfterTake(y)) == R.AfterTake(View(y))
  {
    assert View(AfterTake(y)).nodes == R.AfterTake(View(y)).nodes;
  }

  lemma JobFollows(y: Client, k: nat)
    requires k < |y.jobs|
    ensures View(AfterJob(y, k)) == R.AfterJob(View(y), k)
  {
    assert View(AfterJob(y, k)).nodes == R.AfterJob(View(y), k).nodes;
  }

  /** A step that belongs to the scheduler is the scheduler's own step. */
  lemma OwnStepFollows(y: Client, a: Action, e: R.Event)
    requires Translated(y, a) == [e] && !a.OnConn? && !a.Join?
    ensures View(Step(y, a)) == R.Step(View(y), e)
  {
    match a
    case Take => if R.CanTake(View(y)) { TakeFollows(y); }
    case RunJob(k) => if k < |y.jobs| { JobFollows(y, k); }
    case OnConn(_, _) =>
    case Join(_, _) =>
    case _ => assert View(Step(y, a)).nodes == View(y).nodes;
  }

  ghost predicate ConnsKeep(y: Client)
  {
    forall id :: id in y.conns ==> ConnInv(y.conns[id])
  }

  /** A connection that joins is added, and lost at once if it is closed already. */
  lemma JoinFollows(y: Client, id: ConnId, c: Conn)
    requires Joinable(c)
    ensures R.Run(View(y), Translated(y, Join(id, c))) == View(Step(y, Join(id, c)))
  {
    if CanJoin(y, id) {
      var added := R.Step(View(y), R.Add(id, c.credit.maxRdy));
      assert View(Step(y, Join(id, c))).nodes == View(y).nodes[id := NodeOf(c)];
      if IsClosed(c) {
        R.TwoSteps(View(y), R.Add(id, c.credit.maxRdy), R.Lose(id));
        assert R.Step(added, R.Lose(id)).nodes == View(y).nodes[id := NodeOf(c)];
      } else {
        OneStep(View(y), R.Add(id, c.credit.maxRdy));
      }
    }
  }

  /** Every step of the client is a run of the scheduler's machine. */
  lemma StepFollows(y: Client, a: Action)
    requires ConnsKeep(y) && (a.OnConn? ==> Proper(a.e)) && (a.Join? ==> Joinable(a.c))
    ensures SameOpen(R.Run(View(y), Translated(y, a)), View(Step(y, a)))
  {
    if a.OnConn? {
      if a.id in y.conns { EventFollows(y, a.id, a.e); }
    } else if a.Join? {
      JoinFollows(y, a.id, a.c);
    } else {
      OwnStepFollows(y, a, Translated(y, a)[0]);
      OneStep(View(y), Translated(y, a)[0]);
    }
  }

  lemma ServedKeeps(c: Conn, target: int)
    requires ConnInv(c)
    ensures ConnInv(Served(c, target))
  {
    RetargetKeeps(c, 0);
    RetargetKeeps(c, target);
  }

  lemma ConnsStay(y: Client, a: Action)
    requires ConnsKeep(y) && (a.Join? ==> Joinable(a.c))
    ensures ConnsKeep(Step(y, a)) && Step(y, a).maxInFlight == y.maxInFlight
  {
    match a
    case OnConn(id, e) => if id in y.conns { StepKeeps(y.conns[id], e); }
    case Take =>
      if R.CanTake(View(y)) && y.wakes.queue[0].ChangeConnRdy? {
        var id := y.wakes.queue[0].id;
        if R.IsOpen(View(y), id) { ServedKeeps(y.conns[id], R.Fresh(View(y), id)); }
      }
    case RunJob(k) =>
      if k < |y.jobs| && y.jobs[k].id in y.conns { RetargetKeeps(y.conns[y.jobs[k].id], y.jobs[k].target); }
    case _ =>
  }

  lemma {:induction false} SettlingsArePermitted(s: R.Sched, id: ConnId, n: nat)
    ensures R.PermittedRun(s, Settlings(id, n)) && R.OrderlyRun(s, Settlings(id, n))
    decreases n
  {
    if n > 0 {
      assert Settlings(id, n)[0] == R.Settle(id) && Settlings(id, n)[1..] == Settlings(id, n - 1);
      SettlingsArePermitted(R.Step(s, R.Settle(id)), id, n - 1);
    }
  }

  /** What nsqd may do to the client it may do to the scheduler. */
  lemma Permits(y: Client, a: Action)
    requires Obeys(y, a)
    ensures R.PermittedRun(View(y), Translated(y, a))
  {
    if a.OnConn? && a.id in y.conns {
      SettlingsArePermitted(View(y), a.id, Settles(y.conns[a.id], a.e));
    }
  }

  // ---------- Over all runs ----------

  lemma InitialKeeps(y: Client)
    requires Initial(y)
    ensures ConnsKeep(y) && R.Initial(View(y))
  {
    forall id | id in y.conns
      ensures ConnInv(y.conns[id])
    {
      NewKeeps(y.conns[id].credit.maxRdy);
    }
  }

  lemma SafeStep(y: Client, a: Action)
    requires ConnsKeep(y) && R.CreditInv(View(y)) && Obeys(y, a)
    ensures ConnsKeep(Step(y, a)) && R.CreditInv(View(Step(y, a))) && Step(y, a).maxInFlight == y.maxInFlight
  {
    ConnsStay(y, a);
    StepFollows(y, a);
    Permits(y, a);
    R.CreditInvRun(View(y), Translated(y, a));
    SameOpenKeeps(R.Run(View(y), Translated(y, a)), View(Step(y, a)));
  }

  lemma {:induction false} SafeRun(y: Client, actions: seq<Action>)
    requires ConnsKeep(y) && R.CreditInv(View(y)) && ObeyingRun(y, actions)
    ensures ConnsKeep(Run(y, actions)) && R.CreditInv(View(Run(y, actions)))
    ensures Run(y, actions).maxInFlight == y.maxInFlight
    decreases |actions|
  {
    if actions != [] {
      SafeStep(y, actions[0]);
      SafeRun(Step(y, actions[0]), actions[1..]);
    }
  }

  /** Credit at nsqd, and messages that were delivered and not settled. */
  function Held(c: Conn): int
  {
    c.credit.rdyCount + Live(c.msgs)
  }

  function HeldBy(y: Client): map<ConnId, int>
  {
    map id | id in y.conns :: Held(y.conns[id])
  }

  /** Flow-control safety of the whole client: over every run in which nsqd respects credit
      and targets, the unfinished messages of the open connections, together with the
      credit that nsqd still has, never exceed `max_in_flight`. */
  lemma UnfinishedMessagesAreBounded(y: Client, actions: seq<Action>)
    requires Initial(y) && ObeyingRun(y, actions)
    ensures var z := Run(y, actions);
            && Sum(R.Active(View(z)), HeldBy(z)) <= Max(0, y.maxInFlight)
            && forall id :: id in z.conns && !IsClosed(z.conns[id]) ==>
                 Held(z.conns[id]) <= Max(0, z.conns[id].credit.target)
  {
    InitialKeeps(y);
    R.InitialCredit(View(y));
    SafeRun(y, actions);
    var z := Run(y, actions);
    R.TotalBound(View(z));
    SumSame(R.Active(View(z)), HeldBy(z), R.AllocatedBy(View(z)));
    forall id | id in z.conns && !IsClosed(z.conns[id])
      ensures Held(z.conns[id]) <= Max(0, z.conns[id].credit.target)
    {
      assert R.IsOpen(View(z), id);
    }
  }

  /** While the scheduler works, `stop_receiving` leaves each connection something to wake up
      for: no target, or a message in flight, or a queued refill. Connections may join. */
  ghost predicate Orderly(y: Client, a: Action)
  {
    && (a.Join? ==> Joinable(a.c))
    && (a.OnConn? ==> Proper(a.e) && (a.e.SetReady? ==> Stoppable(y, a.id)))
  }

  predicate Stoppable(y: Client, id: ConnId)
  {
    y.wakes.working && id in y.conns && !IsClosed(y.conns[id]) ==>
      y.conns[id].credit.target <= 0 || y.conns[id].credit.inFlight >= 1 || id in y.wakes.pending
  }

  ghost predicate OrderlyRun(y: Client, actions: seq<Action>)
    decreases |actions|
  {
    actions == [] || (Orderly(y, actions[0]) && OrderlyRun(Step(y, actions[0]), actions[1..]))
  }

  lemma OrderlyTranslation(y: Client, a: Action)
    requires Orderly(y, a)
    ensures R.OrderlyRun(View(y), Translated(y, a))
  {
    if a.OnConn? && a.id in y.conns {
      SettlingsArePermitted(View(y), a.id, Settles(y.conns[a.id], a.e));
    }
  }

  lemma WakefulStep(y: Client, a: Action)
    requires ConnsKeep(y) && R.WakeInv(View(y)) && Orderly(y, a)
    ensures ConnsKeep(Step(y, a)) && R.WakeInv(View(Step(y, a)))
  {
    ConnsStay(y, a);
    StepFollows(y, a);
    OrderlyTranslation(y, a);
    R.WakeInvRun(View(y), Translated(y, a));
    SameOpenKeeps(R.Run(View(y), Translated(y, a)), View(Step(y, a)));
  }

  lemma {:induction false} WakefulRun(y: Client, actions: seq<Action>)
    requires ConnsKeep(y) && R.WakeInv(View(y)) && OrderlyRun(y, actions)
    ensures ConnsKeep(Run(y, actions)) && R.WakeInv(View(Run(y, actions)))
    decreases |actions|
  {
    if actions != [] {
      WakefulStep(y, actions[0]);
      WakefulRun(Step(y, actions[0]), actions[1..]);
    }
  }

  /** No connection starves: over every run, connections that join later included, as long as
      the scheduler works, an open connection with a target has credit, or an unfinished message, or a queued refill. */
  lemma NoConnectionStarves(y: Client, actions: seq<Action>, id: ConnId)
    requires Initial(y) && OrderlyRun(y, actions)
    requires var z := Run(y, actions);
             z.wakes.working && id in z.conns && !IsClosed(z.conns[id]) && z.conns[id].credit.target > 0
    ensures var z := Run(y, actions);
            z.conns[id].credit.rdyCount > 0
            || (exists h :: 0 <= h < |z.conns[id].msgs| && !z.conns[id].msgs[h].processed)
            || ChangeConnRdy(id) in z.wakes.queue
  {
    InitialKeeps(y);
    R.InitialWakes(View(y));
    WakefulRun(y, actions);
    var c := Run(y, actions).conns[id];
    assert R.IsOpen(View(Run(y, actions)), id);
    LiveZero(c.msgs);
  }
}
