/** What nsqd holds and what the client believes it holds: the credit that the written RDY
    commands gave and the delivered messages used up is the client's own count, over whole runs
    of a connection and of the client. */
module NsqdCredit {
  import opened Prelude
  import opened SetSum
  import opened OrderedDict
  import opened ConnectionState
  import opened ConnectionLaws
  import opened WireLaws
  import Client = ClientSystem
  import R = RdyScheduler
  import RdyWakes

  /** nsqd's credit after it has read this: the last RDY counts, and no credit is negative. */
  function Granted(credit: int, ws: seq<Sent>): int
    decreases |ws|
  {
    if ws == [] then credit
    else Granted(if ws[0].Ready? then (if ws[0].n > 0 then ws[0].n else 0) else credit, ws[1..])
  }

  /** What a connection has written between two states. */
  function NewlySent(c: Conn, d: Conn): seq<Sent>
  {
    if |c.sent| <= |d.sent| then d.sent[|c.sent|..] else []
  }

  /** nsqd's credit after it has delivered a message, or not. */
  function UsedUp(credit: int, delivered: bool): int
  {
    if delivered && credit > 0 then credit - 1 else if delivered then 0 else credit
  }

  predicate Delivers(e: Event)
  {
    e.Recv? && e.f.Message?
  }

  /** nsqd's credit after a run, from the written RDYs and the delivered messages alone. */
  ghost function Holds(c: Conn, es: seq<Event>, credit: int): int
    decreases |es|
  {
    if es == [] then credit
    else
      var d := Step(c, es[0]);
      Holds(d, es[1..], UsedUp(Granted(credit, NewlySent(c, d)), Delivers(es[0])))
  }

  // ---------- One connection ----------

  lemma GrantedNone(credit: int, ws: seq<Sent>)
    requires forall i :: 0 <= i < |ws| ==> !ws[i].Ready?
    ensures Granted(credit, ws) == credit
    decreases |ws|
  {
    if ws != [] { GrantedNone(credit, ws[1..]); }
  }

  /** The client counts as nsqd does, from `c` to `d`, while the connection is not closed. */
  ghost predicate CountsAlike(c: Conn, d: Conn, delivered: bool)
  {
    !d.closed ==>
      !c.closed && d.credit.rdyCount == UsedUp(Granted(c.credit.rdyCount, NewlySent(c, d)), delivered)
  }

  lemma NewlySentIs(c: Conn, e: Event)
    requires ConnInv(c)
    ensures NewlySent(c, Step(c, e)) == Writes(c, e)
  {
    StepWrites(c, e);
  }

  lemma {:induction false} RequeueKeepsCredit(c: Conn, hs: seq<nat>, timeout: int)
    requires forall i :: 0 <= i < |hs| ==> hs[i] < |c.msgs|
    ensures RequeueEach(c, hs, timeout).0.credit.rdyCount == c.credit.rdyCount
    decreases |hs|
  {
    if hs != [] { RequeueKeepsCredit(RequeueHead(c, hs[0], timeout), hs[1..], timeout); }
  }

  lemma FrameCounts(c: Conn, e: Event)
    requires e.Recv? && 0 <= c.credit.rdyCount
    ensures Step(c, e).credit.rdyCount == UsedUp(c.credit.rdyCount, Delivers(e))
  {
  }

  /** An event that neither delivers nor sends an RDY leaves the count alone. */
  lemma OtherCounts(c: Conn, e: Event)
    requires ConnInv(c) && !e.Recv? && !e.SetReady? && !e.Retarget? && !Step(c, e).closed
    ensures Step(c, e).credit.rdyCount == c.credit.rdyCount
  {
    if e.RequeueInFlight? {
      LedgerHandles(c);
      RequeueKeepsCredit(c, Values(c.ledger), e.timeout);
    }
  }

  /** A closed connection has no credit left to spend, and no count is negative. */
  predicate Sound(c: Conn)
  {
    if c.closed then c.credit.rdyCount == 0 else 0 <= c.credit.rdyCount
  }

  lemma ClosedCounts(c: Conn, e: Event)
    requires ConnInv(c) && Sound(c) && Step(c, e).closed
    ensures Step(c, e).credit.rdyCount == 0
  {
    if e.Recv? {
      if !e.f.Message? { FrameTouchesNoMessage(c, e.f); }
      FrameCounts(c, e);
    } else if e.RequeueInFlight? && !c.closed {
      RequeueEachOpen(c, e);
    }
  }

  lemma RequeueEachOpen(c: Conn, e: Event)
    requires ConnInv(c) && e.RequeueInFlight? && !c.closed
    ensures !Step(c, e).closed
  {
    if Open(c) { RequeueEachKeeps(c, Values(c.ledger), e.timeout); }
  }

  lemma ReadyCounts(c: Conn, e: Event)
    requires e.SetReady? || e.Retarget?
    requires 0 <= c.credit.rdyCount
    ensures Step(c, e).credit.rdyCount == Granted(c.credit.rdyCount, Writes(c, e))
  {
    if Writes(c, e) != [] {
      assert Granted(Step(c, e).credit.rdyCount, Writes(c, e)[1..]) == Step(c, e).credit.rdyCount;
    }
  }

  lemma StepCounts(c: Conn, e: Event)
    requires ConnInv(c) && Sound(c)
    ensures CountsAlike(c, Step(c, e), Delivers(e)) && Sound(Step(c, e))
  {
    NewlySentIs(c, e);
    if c.closed { ClosedForGood(c, e); }
    if Step(c, e).closed {
      ClosedCounts(c, e);
    } else if e.SetReady? || e.Retarget? {
      ReadyCounts(c, e);
    } else {
      GrantedNone(c.credit.rdyCount, Writes(c, e));
      if e.Recv? { FrameCounts(c, e); } else { OtherCounts(c, e); }
    }
  }

  lemma {:induction false} RunCounts(c: Conn, es: seq<Event>)
    requires ConnInv(c) && Sound(c)
    ensures var d := Run(c, es);
            Sound(d) && (!d.closed ==> !c.closed && d.credit.rdyCount == Holds(c, es, c.credit.rdyCount))
    decreases |es|
  {
    if es != [] {
      StepKeeps(c, es[0]);
      StepCounts(c, es[0]);
      RunCounts(Step(c, es[0]), es[1..]);
    }
  }

  /** Over every run: until the connection is closed, `rdy_count` is exactly what nsqd holds
      after the RDYs that were written and the messages that arrived; then it is 0. */
  lemma CreditIsWhatNsqdHolds(maxRdy: int, es: seq<Event>)
    ensures var c := Run(NewConn(maxRdy), es);
            c.credit.rdyCount == if c.closed then 0 else Holds(NewConn(maxRdy), es, 0)
  {
    NewKeeps(maxRdy);
    RunCounts(NewConn(maxRdy), es);
  }

  // ---------- The whole client ----------

  /** An action adds this connection, or puts a new one in its place. */
  ghost predicate Joins(y: Client.Client, a: Client.Action, id: ConnId)
  {
    a.Join? && a.id == id && Client.CanJoin(y, id)
  }

  /** What nsqd holds for one connection after a run of the client. A connection that joins
      has been given no credit. */
  ghost function HoldsFor(y: Client.Client, actions: seq<Client.Action>, id: ConnId, credit: int): int
    decreases |actions|
  {
    if actions == [] then credit
    else HoldsFor(Client.Step(y, actions[0]), actions[1..], id, HoldsNext(y, actions[0], id, credit))
  }

  ghost function HoldsNext(y: Client.Client, a: Client.Action, id: ConnId, credit: int): int
  {
    var z := Client.Step(y, a);
    if Joins(y, a, id) then 0
    else if id in y.conns && id in z.conns then
      UsedUp(Granted(credit, NewlySent(y.conns[id], z.conns[id])), DeliversTo(a, id))
    else credit
  }

  predicate DeliversTo(a: Client.Action, id: ConnId)
  {
    a.OnConn? && a.id == id && Delivers(a.e)
  }

  /** Connections that join have been given no credit. */
  ghost predicate JoinsFresh(actions: seq<Client.Action>)
  {
    forall a :: a in actions && a.Join? ==> Client.Joinable(a.c)
  }

  ghost predicate AllSound(y: Client.Client)
  {
    forall id :: id in y.conns ==> ConnInv(y.conns[id]) && Sound(y.conns[id])
  }

  lemma StayCounts(c: Conn)
    ensures CountsAlike(c, c, false)
  {
  }

  lemma ServedCounts(c: Conn, target: int)
    requires ConnInv(c) && Sound(c)
    ensures CountsAlike(c, Served(c, target), false) && Sound(Served(c, target)) && ConnInv(Served(c, target))
  {
    StayCounts(c);
    RetargetCounts(c, 0);
    RetargetCounts(c, target);
  }

  lemma RetargetCounts(c: Conn, target: int)
    requires ConnInv(c) && Sound(c)
    ensures var d := AfterRetarget(c, target); CountsAlike(c, d, false) && Sound(d) && ConnInv(d)
  {
    RetargetKeeps(c, target);
    StepCounts(c, Retarget(target));
  }

  /** Every action leaves each connection counting as nsqd does. */
  lemma ActionCounts(y: Client.Client, a: Client.Action, id: ConnId)
    requires AllSound(y) && id in y.conns && !Joins(y, a, id)
    ensures var z := Client.Step(y, a);
            && id in z.conns && ConnInv(z.conns[id]) && Sound(z.conns[id])
            && CountsAlike(y.conns[id], z.conns[id], DeliversTo(a, id))
  {
    match a
    case OnConn(x, e) =>
      if x == id {
        StepKeeps(y.conns[id], e);
        StepCounts(y.conns[id], e);
      } else {
        StayCounts(y.conns[id]);
      }
    case Take => TakeCounts(y, id);
    case RunJob(k) => JobCounts(y, k, id);
    case _ => StayCounts(y.conns[id]);
  }

  lemma TakeCounts(y: Client.Client, id: ConnId)
    requires AllSound(y) && id in y.conns
    ensures var z := Client.Step(y, Client.Take);
            && id in z.conns && ConnInv(z.conns[id]) && Sound(z.conns[id])
            && CountsAlike(y.conns[id], z.conns[id], false)
  {
    StayCounts(y.conns[id]);
    if R.CanTake(Client.View(y)) && y.wakes.queue[0] == RdyWakes.ChangeConnRdy(id) && R.IsOpen(Client.View(y), id) {
      ServedCounts(y.conns[id], R.Fresh(Client.View(y), id));
    }
  }

  lemma JobCounts(y: Client.Client, k: nat, id: ConnId)
    requires AllSound(y) && id in y.conns
    ensures var z := Client.Step(y, Client.RunJob(k));
            && id in z.conns && ConnInv(z.conns[id]) && Sound(z.conns[id])
            && CountsAlike(y.conns[id], z.conns[id], false)
  {
    if k < |y.jobs| && y.jobs[k].id == id {
      RetargetCounts(y.conns[id], y.jobs[k].target);
    } else {
      StayCounts(y.conns[id]);
    }
  }

  lemma ActionKeepsSound(y: Client.Client, a: Client.Action)
    requires AllSound(y) && (a.Join? ==> Client.Joinable(a.c))
    ensures AllSound(Client.Step(y, a))
  {
    var z := Client.Step(y, a);
    forall id | id in z.conns
      ensures ConnInv(z.conns[id]) && Sound(z.conns[id])
    {
      if !Joins(y, a, id) { ActionCounts(y, a, id); }
    }
  }

  /** A connection is counted rightly. */
  ghost predicate CountedAs(y: Client.Client, id: ConnId, credit: int)
  {
    id in y.conns && !y.conns[id].closed ==> y.conns[id].credit.rdyCount == credit
  }

  lemma {:induction false} ClientRunCounts(y: Client.Client, actions: seq<Client.Action>, id: ConnId, credit: int)
    requires AllSound(y) && JoinsFresh(actions) && CountedAs(y, id, credit)
    ensures AllSound(Client.Run(y, actions))
    ensures CountedAs(Client.Run(y, actions), id, HoldsFor(y, actions, id, credit))
    decreases |actions|
  {
    if actions != [] {
      var (a, z) := (actions[0], Client.Step(y, actions[0]));
      assert a in actions && forall b :: b in actions[1..] ==> b in actions;
      ActionKeepsSound(y, a);
      NextIsCounted(y, a, id, credit);
      ClientRunCounts(z, actions[1..], id, HoldsNext(y, a, id, credit));
    }
  }

  lemma NextIsCounted(y: Client.Client, a: Client.Action, id: ConnId, credit: int)
    requires AllSound(y) && (a.Join? ==> Client.Joinable(a.c)) && CountedAs(y, id, credit)
    ensures CountedAs(Client.Step(y, a), id, HoldsNext(y, a, id, credit))
  {
    if id in y.conns && !Joins(y, a, id) { ActionCounts(y, a, id); }
  }

  /** Over every run of the whole client, its scheduler and its shutdown included: what the
      client counts as credit of a connection that is not closed is what nsqd holds. */
  lemma ClientCreditIsWhatNsqdHolds(y: Client.Client, actions: seq<Client.Action>, id: ConnId)
    requires Client.Initial(y) && JoinsFresh(actions)
    requires id in Client.Run(y, actions).conns && !Client.Run(y, actions).conns[id].closed
    ensures Client.Run(y, actions).conns[id].credit.rdyCount == HoldsFor(y, actions, id, 0)
  {
    Client.InitialKeeps(y);
    ClientRunCounts(y, actions, id, 0);
  }

  /** nsqd's credit and the unfinished messages, for each connection. */
  ghost function InHand(y: Client.Client, actions: seq<Client.Action>): map<ConnId, int>
  {
    var z := Client.Run(y, actions);
    map id | id in z.conns :: HoldsFor(y, actions, id, 0) + Live(z.conns[id].msgs)
  }

  lemma {:induction false} NobodyJoins(y: Client.Client, actions: seq<Client.Action>)
    requires Client.ObeyingRun(y, actions)
    ensures JoinsFresh(actions)
    decreases |actions|
  {
    if actions != [] {
      NobodyJoins(Client.Step(y, actions[0]), actions[1..]);
      assert actions == [actions[0]] + actions[1..];
    }
  }

  /** Flow control as nsqd sees it: over every run in which nsqd respects credit and targets,
      the messages that it has delivered and that are not settled, and those that the written
      RDYs still allow, together never exceed `max_in_flight` on the open connections. */
  lemma NsqdNeverHoldsTooMuch(y: Client.Client, actions: seq<Client.Action>)
    requires Client.Initial(y) && Client.ObeyingRun(y, actions)
    ensures Sum(R.Active(Client.View(Client.Run(y, actions))), InHand(y, actions)) <= Max(0, y.maxInFlight)
  {
    var z := Client.Run(y, actions);
    Client.UnfinishedMessagesAreBounded(y, actions);
    NobodyJoins(y, actions);
    forall id | id in R.Active(Client.View(z))
      ensures InHand(y, actions)[id] == Client.HeldBy(z)[id]
    {
      ClientCreditIsWhatNsqdHolds(y, actions, id);
    }
    SumSame(R.Active(Client.View(z)), InHand(y, actions), Client.HeldBy(z));
  }
}
