/** When a connection is refilled and when it asks for it, in numbers: the threshold of
    `_update_rdy` and of `_notify_rdy_changed`, over whole runs of the client. */
module RefillLaws {
  import opened SetSum
  import opened Credit
  import opened OrderedDict
  import opened ConnectionState
  import opened WireLaws
  import opened NsqdCredit
  import opened RdyWakes
  import Client = ClientSystem
  import R = RdyScheduler

  /** What a connection holds for a target: 1 at most, or a quarter of the target at most. */
  predicate IsLow(held: int, target: int)
  {
    held <= 1 || 4 * held <= target
  }

  function HeldBy(c: Conn): int
  {
    c.credit.rdyCount + c.credit.inFlight
  }

  // ---------- The distributor ----------

  /** The next command of the distributor is to serve this open connection. */
  ghost predicate Serves(y: Client.Client, id: ConnId)
  {
    && R.CanTake(Client.View(y)) && y.wakes.queue[0] == ChangeConnRdy(id)
    && R.IsOpen(Client.View(y), id) && ConnInv(y.conns[id]) && Sound(y.conns[id])
  }

  /** Only the credit of one connection has changed, and what it has written. */
  ghost predicate OnlyCredit(y: Client.Client, z: Client.Client, id: ConnId)
    requires y.wakes.queue != []
  {
    && id in y.conns && id in z.conns
    && z.conns[id] == y.conns[id].(credit := z.conns[id].credit, sent := z.conns[id].sent)
    && z.conns[id].credit.inFlight == y.conns[id].credit.inFlight
    && z.conns[id].credit.maxRdy == y.conns[id].credit.maxRdy
    && z == y.(conns := y.conns[id := z.conns[id]], wakes := Taken(y.wakes))
  }

  lemma RetargetFills(c: Conn, target: int)
    requires Open(c) && 0 <= c.credit.inFlight && 0 < target <= c.credit.maxRdy
    ensures var d := Step(c, Retarget(target));
            && d.credit.target == target && d.credit.inFlight == c.credit.inFlight
            && HeldBy(d) == if c.credit.inFlight > target then c.credit.inFlight else target
  {
  }

  lemma RetargetEmpties(c: Conn)
    requires Open(c) && 0 <= c.credit.inFlight && 0 <= c.credit.rdyCount
    ensures var d := Step(c, Retarget(0)); d.credit.target == 0 && d.credit.rdyCount == 0
  {
  }

  lemma RetargetTouchesCredit(c: Conn, target: int)
    ensures var d := Step(c, Retarget(target));
            && d == c.(credit := d.credit, sent := d.sent)
            && d.credit.inFlight == c.credit.inFlight && d.credit.maxRdy == c.credit.maxRdy
  {
  }

  /** The low-water mark is a quarter of the target, rounded down, but at least 1; without a
      target it is 0. */
  lemma RetargetMarks(c: Conn, target: int)
    requires Open(c)
    ensures var low := Step(c, Retarget(target)).credit.lowWater;
            && Step(c, Retarget(target)).credit.target == target
            && (target <= 0 ==> low == 0)
            && (0 < target < 8 ==> low == 1)
            && (8 <= target ==> 4 * low <= target < 4 * low + 4)
  {
  }

  lemma FreshIsCapped(y: Client.Client, id: ConnId)
    requires R.IsOpen(Client.View(y), id)
    ensures R.Fresh(Client.View(y), id) > 0 ==> R.Fresh(Client.View(y), id) <= y.conns[id].credit.maxRdy
  {
  }

  lemma QuarterOf(held: int, target: int)
    requires target > 0
    ensures held <= LowWater(target) <==> IsLow(held, target)
  {
  }

  lemma ServedFills(c: Conn, target: int)
    requires Open(c) && 0 <= c.credit.inFlight && 0 < target <= c.credit.maxRdy
    ensures var d := Served(c, target);
            if IsLow(HeldBy(c), target) then
              d.credit.target == target
              && HeldBy(d) == (if c.credit.inFlight > target then c.credit.inFlight else target)
            else d == c
  {
    QuarterOf(HeldBy(c), target);
    RetargetFills(c, target);
  }

  /** Serving a connection with a positive fresh target: it is given that target if and only if
      it holds 1 at most, or a quarter of the target at most, and then it holds the target, or
      its messages in flight when those are more. Otherwise it stays as it is. Without a
      positive target it loses its credit. Nothing else changes. */
  lemma RefillsExactlyWhenLow(y: Client.Client, id: ConnId)
    requires Serves(y, id)
    ensures var (z, t) := (Client.Step(y, Client.Take), R.Fresh(Client.View(y), id));
            && OnlyCredit(y, z, id)
            && var (c, d) := (y.conns[id], z.conns[id]);
               && (t > 0 && IsLow(HeldBy(c), t) ==>
                     d.credit.target == t
                     && HeldBy(d) == if c.credit.inFlight > t then c.credit.inFlight else t)
               && (t > 0 && !IsLow(HeldBy(c), t) ==> d == c)
               && (t <= 0 ==> d.credit.target == 0 && d.credit.rdyCount == 0)
  {
    var (c, t) := (y.conns[id], R.Fresh(Client.View(y), id));
    FreshIsCapped(y, id);
    RetargetTouchesCredit(c, t);
    RetargetTouchesCredit(c, 0);
    if t > 0 { ServedFills(c, t); } else { RetargetEmpties(c); }
  }

  // ---------- After the scheduler is closed ----------

  ghost predicate Silenced(y: Client.Client)
  {
    !y.wakes.working && y.jobs == []
  }

  lemma {:induction false} SilentRun(y: Client.Client, actions: seq<Client.Action>)
    requires Silenced(y)
    ensures Silenced(Client.Run(y, actions))
    decreases |actions|
  {
    if actions != [] { SilentRun(Client.Step(y, actions[0]), actions[1..]); }
  }

  /** Once the scheduler is closed, whatever it had queued or gathered and whatever happens
      afterwards, no step of its own touches a connection or wakes the distributor. */
  lemma ClosedSchedulerIsSilent(y: Client.Client, actions: seq<Client.Action>, a: Client.Action)
    requires !a.OnConn? && !a.Join?
    ensures var z := Client.Run(Client.Step(y, Client.Shutdown), actions);
            Client.Step(z, a).conns == z.conns && Client.Step(z, a).wakes.queue == z.wakes.queue
  {
    SilentRun(Client.Step(y, Client.Shutdown), actions);
  }

  // ---------- The signal ----------

  /** The stored low-water mark is that of the target. */
  predicate MarkFits(c: Conn)
  {
    c.credit.target > 0 ==> c.credit.lowWater == LowWater(c.credit.target)
  }

  lemma {:induction false} RequeueKeepsMark(c: Conn, hs: seq<nat>, timeout: int)
    requires forall i :: 0 <= i < |hs| ==> hs[i] < |c.msgs|
    ensures var d := RequeueEach(c, hs, timeout).0;
            d.credit.target == c.credit.target && d.credit.lowWater == c.credit.lowWater
    decreases |hs|
  {
    if hs != [] { RequeueKeepsMark(RequeueHead(c, hs[0], timeout), hs[1..], timeout); }
  }

  lemma StepKeepsMark(c: Conn, e: Event)
    requires ConnInv(c) && MarkFits(c)
    ensures MarkFits(Step(c, e))
  {
    if e.RequeueInFlight? {
      LedgerHandles(c);
      RequeueKeepsMark(c, Values(c.ledger), e.timeout);
    } else if e.Recv? {
      FrameKeepsMark(c, e);
    }
  }

  lemma FrameKeepsMark(c: Conn, e: Event)
    requires e.Recv? && MarkFits(c)
    ensures MarkFits(Step(c, e))
  {
  }

  ghost predicate MarksFit(y: Client.Client)
  {
    Client.ConnsKeep(y) && forall id :: id in y.conns ==> MarkFits(y.conns[id])
  }

  lemma ServedKeepsMark(c: Conn, target: int)
    requires ConnInv(c) && MarkFits(c)
    ensures MarkFits(Served(c, target))
  {
    StepKeepsMark(c, Retarget(0));
    StepKeepsMark(c, Retarget(target));
  }

  lemma TakeKeepsMarks(y: Client.Client)
    requires MarksFit(y)
    ensures var z := Client.Step(y, Client.Take);
            forall id :: id in z.conns ==> MarkFits(z.conns[id])
  {
    if R.CanTake(Client.View(y)) && y.wakes.queue[0].ChangeConnRdy? {
      var id := y.wakes.queue[0].id;
      if R.IsOpen(Client.View(y), id) { ServedKeepsMark(y.conns[id], R.Fresh(Client.View(y), id)); }
    }
  }

  lemma ActionKeepsMarks(y: Client.Client, a: Client.Action)
    requires MarksFit(y) && (a.Join? ==> Client.Joinable(a.c))
    ensures MarksFit(Client.Step(y, a))
  {
    Client.ConnsStay(y, a);
    match a
    case OnConn(id, e) => if id in y.conns { StepKeepsMark(y.conns[id], e); }
    case Take => TakeKeepsMarks(y);
    case RunJob(k) =>
      if k < |y.jobs| && y.jobs[k].id in y.conns {
        StepKeepsMark(y.conns[y.jobs[k].id], Retarget(y.jobs[k].target));
      }
    case _ =>
  }

  lemma {:induction false} RunKeepsMarks(y: Client.Client, actions: seq<Client.Action>)
    requires MarksFit(y) && JoinsFresh(actions)
    ensures MarksFit(Client.Run(y, actions))
    decreases |actions|
  {
    if actions != [] {
      assert actions[0] in actions && forall a :: a in actions[1..] ==> a in actions;
      ActionKeepsMarks(y, actions[0]);
      RunKeepsMarks(Client.Step(y, actions[0]), actions[1..]);
    }
  }

  /** The event writes a FIN or a REQ. */
  ghost predicate WritesASettlement(c: Conn, e: Event)
  {
    exists s :: s in Writes(c, e) && (s.Finish? || s.Requeue?)
  }

  lemma SettlesIffWritten(c: Conn, e: Event)
    requires ConnInv(c)
    ensures Client.Settles(c, e) > 0 <==> WritesASettlement(c, e)
  {
    if e.RequeueInFlight? && Open(c) {
      RequeueEachKeeps(c, Values(c.ledger), e.timeout);
      var ws := RequeuesOf(Values(c.ledger), e.timeout);
      if ws != [] { assert ws[0] in Writes(c, e); }
    } else if Writes(c, e) != [] {
      assert Writes(c, e)[0] in Writes(c, e);
    }
  }

  lemma DueIffLow(c: Conn)
    requires MarkFits(c)
    ensures RefillDue(c.credit) <==> c.credit.target <= 0 || IsLow(HeldBy(c), c.credit.target)
  {
    if c.credit.target > 0 { QuarterOf(HeldBy(c), c.credit.target); }
  }

  /** Over every run of the client: an event of a connection signals the scheduler if and only
      if it writes a FIN or a REQ and leaves the connection without a target, or holding 1 at
      most, or a quarter of its target at most. */
  lemma SignalsExactlyWhenLow(y: Client.Client, actions: seq<Client.Action>, id: ConnId, e: Event)
    requires Client.Initial(y) && JoinsFresh(actions) && id in Client.Run(y, actions).conns
    ensures var u := Client.Run(y, actions);
            var z := Client.Step(u, Client.OnConn(id, e));
            var d := z.conns[id];
            z.wakes == if WritesASettlement(u.conns[id], e)
                          && (d.credit.target <= 0 || IsLow(HeldBy(d), d.credit.target))
                       then Signalled(u.wakes, id) else u.wakes
  {
    Client.InitialKeeps(y);
    RunKeepsMarks(y, actions);
    var c := Client.Run(y, actions).conns[id];
    SettlesIffWritten(c, e);
    StepKeepsMark(c, e);
    DueIffLow(Step(c, e));
  }
}
