/** The RDY scheduler and its connections as one state machine, and what every run keeps. */
module RdyScheduler {
  import opened Prelude
  import opened SetSum
  import opened Credit
  import opened RdyShares
  import opened RdyWakes

  datatype Node = Node(credit: Credit, closed: bool)

  /** A `_set_conn_rdy` that a redistribution has gathered and that has not run yet. */
  datatype Job = Job(id: ConnId, target: int)

  datatype Sched = Sched(maxInFlight: int, nodes: map<ConnId, Node>, wakes: Wakes, jobs: seq<Job>)

  datatype Event =
    | Deliver(id: ConnId)              // a message frame on this connection
    | Settle(id: ConnId)               // a FIN or a REQ through a message of this connection
    | Lose(id: ConnId)                 // the connection starts to close
    | Signal(id: ConnId)               // the callback that `subscribe` makes
    | AskAll                           // `RdyControl.redistribute`
    | Take                             // the distributor takes its next command
    | RunJob(k: nat)                   // one gathered `_set_conn_rdy` runs
    | Shutdown                         // `RdyControl.close`
    | Stop(id: ConnId)                 // `stop_receiving`
    | Add(id: ConnId, maxRdy: int)     // `add_connection`

  predicate IsOpen(s: Sched, id: ConnId)
  {
    id in s.nodes && !s.nodes[id].closed
  }

  /** `_active_connections`. */
  function Active(s: Sched): set<ConnId>
  {
    set id | id in s.nodes && !s.nodes[id].closed
  }

  /** The target that `_target_rdy_by_id` computes now. */
  ghost function Fresh(s: Sched, id: ConnId): int
    requires IsOpen(s, id)
  {
    Target(Active(s), id, s.maxInFlight, s.nodes[id].credit.maxRdy)
  }

  function WithCredit(s: Sched, id: ConnId, c: Credit): Sched
    requires id in s.nodes
  {
    s.(nodes := s.nodes[id := s.nodes[id].(credit := c)])
  }

  /** `fin` or `req`, with the signal of `_notify_rdy_changed`. */
  function AfterSettle(s: Sched, id: ConnId): Sched
    requires IsOpen(s, id)
  {
    var c := Settled(s.nodes[id].credit);
    var s' := WithCredit(s, id, c);
    if RefillDue(c) then s'.(wakes := Signalled(s.wakes, id)) else s'
  }

  ghost function JobsFor(s: Sched, ids: seq<ConnId>): (jobs: seq<Job>)
    requires forall id :: id in ids ==> IsOpen(s, id)
    ensures |jobs| == |ids| && forall k :: 0 <= k < |ids| ==> jobs[k] == Job(ids[k], Fresh(s, ids[k]))
  {
    seq(|ids|, k requires 0 <= k < |ids| => Job(ids[k], Fresh(s, ids[k])))
  }

  /** What a redistribution gathers: a job for each open connection. */
  ghost function Gathered(s: Sched): seq<Job>
  {
    JobsFor(s, Sorted(Active(s)))
  }

  /** Jobs made from a table of targets, with 0 for an id that is not in it. */
  function JobsFrom(ids: seq<ConnId>, targets: map<ConnId, int>): seq<Job>
  {
    seq(|ids|, k requires 0 <= k < |ids| => Job(ids[k], if ids[k] in targets then targets[ids[k]] else 0))
  }

  lemma JobsFromFresh(s: Sched, ids: seq<ConnId>, targets: map<ConnId, int>)
    requires forall id :: id in ids ==> IsOpen(s, id)
    requires forall id :: IsOpen(s, id) ==> Fresh(s, id) == if id in targets then targets[id] else 0
    ensures JobsFrom(ids, targets) == JobsFor(s, ids)
  {
    forall k | 0 <= k < |ids|
      ensures JobsFrom(ids, targets)[k] == JobsFor(s, ids)[k]
    {
      assert ids[k] in ids;
    }
  }

  /** One turn of `_distributor`. */
  ghost function AfterTake(s: Sched): Sched
    requires s.wakes.queue != []
  {
    var s' := s.(wakes := Taken(s.wakes));
    match s.wakes.queue[0]
    case Redistribute => s'.(jobs := Gathered(s))
    case ChangeConnRdy(id) =>
      if IsOpen(s, id) then WithCredit(s', id, Updated(s.nodes[id].credit, Fresh(s, id))) else s'
  }

  lemma TakenKeepsFresh(s: Sched)
    requires s.wakes.queue != []
    ensures var t := s.(wakes := Taken(s.wakes));
            && Active(t) == Active(s)
            && (forall id :: IsOpen(t, id) <==> IsOpen(s, id))
            && (forall id :: IsOpen(s, id) ==> Fresh(t, id) == Fresh(s, id))
            && Gathered(t) == Gathered(s)
  {
    var t := s.(wakes := Taken(s.wakes));
    assert Active(t) == Active(s);
  }

  function AfterJob(s: Sched, k: nat): Sched
    requires k < |s.jobs|
  {
    var job := s.jobs[k];
    var s' := s.(jobs := s.jobs[..k] + s.jobs[k + 1..]);
    if IsOpen(s, job.id) then WithCredit(s', job.id, Retargeted(s.nodes[job.id].credit, job.target)) else s'
  }

  predicate CanTake(s: Sched)
  {
    s.wakes.working && s.jobs == [] && s.wakes.queue != []
  }

  /** A gathered `_set_conn_rdy` waits for this connection. */
  ghost predicate DueAt(s: Sched, id: ConnId)
  {
    exists k :: 0 <= k < |s.jobs| && s.jobs[k].id == id
  }

  /** One atomic piece of synchronous code; an event that cannot happen changes nothing. */
  ghost function Step(s: Sched, e: Event): Sched
  {
    match e
    case Deliver(id) => if id in s.nodes then WithCredit(s, id, Delivered(s.nodes[id].credit)) else s
    case Settle(id) => if IsOpen(s, id) then AfterSettle(s, id) else s
    case Lose(id) => if id in s.nodes then s.(nodes := s.nodes[id := s.nodes[id].(closed := true)]) else s
    case Signal(id) => if id in s.nodes then s.(wakes := Signalled(s.wakes, id)) else s
    case AskAll => s.(wakes := Asked(s.wakes))
    case Take => if CanTake(s) then AfterTake(s) else s
    case RunJob(k) => if k < |s.jobs| then AfterJob(s, k) else s
    case Shutdown => s.(wakes := Shut(s.wakes), jobs := [])
    case Stop(id) => if IsOpen(s, id) then WithCredit(s, id, WithRdy(s.nodes[id].credit, 0)) else s
    case Add(id, maxRdy) =>
      if id in s.nodes && DueAt(s, id) then s else s.(nodes := s.nodes[id := Node(NewCredit(maxRdy), false)])
  }

  ghost function Run(s: Sched, es: seq<Event>): Sched
    decreases |es|
  {
    if es == [] then s else Run(Step(s, es[0]), es[1..])
  }

  /** A scheduler with connections that have not been given any credit. */
  ghost predicate Initial(s: Sched)
  {
    && s.wakes == NO_WAKES && s.jobs == []
    && forall id :: id in s.nodes ==> s.nodes[id].credit == NewCredit(s.nodes[id].credit.maxRdy)
  }

  // ---------- Flow control ----------

  /** nsqd delivers on an open connection only within its credit or its target, and no
      connection is added. */
  predicate Permitted(s: Sched, e: Event)
  {
    match e
    case Deliver(id) =>
      IsOpen(s, id) ==> s.nodes[id].credit.rdyCount > 0 || s.nodes[id].credit.inFlight < s.nodes[id].credit.target
    case Add(_, _) => false
    case _ => true
  }

  ghost predicate PermittedRun(s: Sched, es: seq<Event>)
    decreases |es|
  {
    es == [] || (Permitted(s, es[0]) && PermittedRun(Step(s, es[0]), es[1..]))
  }

  predicate Bounded(c: Credit, limit: int)
  {
    0 <= c.inFlight && 0 <= c.rdyCount && Allocated(c) <= Max(0, c.target) <= Max(0, limit)
  }

  /** No connection is over its target, and no target, stored or about to be stored, is over
      what a fresh division would give. */
  ghost predicate CreditInv(s: Sched)
  {
    && (forall id :: IsOpen(s, id) ==> Bounded(s.nodes[id].credit, Fresh(s, id)))
    && (forall k :: 0 <= k < |s.jobs| && IsOpen(s, s.jobs[k].id) ==>
          Max(0, s.nodes[s.jobs[k].id].credit.target) <= Max(0, s.jobs[k].target) <= Max(0, Fresh(s, s.jobs[k].id)))
    && (forall j, k :: 0 <= j < k < |s.jobs| ==> s.jobs[j].id != s.jobs[k].id)
  }

  /** A step that touches one connection keeps every fresh target. */
  lemma FreshKept(s: Sched, id: ConnId, c: Credit)
    requires id in s.nodes && c.maxRdy == s.nodes[id].credit.maxRdy
    ensures var s' := WithCredit(s, id, c);
            forall x :: IsOpen(s', x) <==> IsOpen(s, x)
    ensures var s' := WithCredit(s, id, c);
            forall x :: IsOpen(s, x) ==> Fresh(s', x) == Fresh(s, x)
  {
    assert Active(WithCredit(s, id, c)) == Active(s);
  }

  lemma RetargetedBounded(c: Credit, target: int)
    requires Bounded(c, target)
    ensures Bounded(Retargeted(c, target), target) && Retargeted(c, target).target == target
    ensures Bounded(Updated(c, target), target)
    ensures Retargeted(c, target).maxRdy == c.maxRdy == Updated(c, target).maxRdy
  {
  }

  lemma CreditInvPoint(s: Sched, id: ConnId, c: Credit)
    requires CreditInv(s) && IsOpen(s, id)
    requires c.maxRdy == s.nodes[id].credit.maxRdy && Bounded(c, Fresh(s, id))
    requires c.target == s.nodes[id].credit.target || forall k :: 0 <= k < |s.jobs| ==> s.jobs[k].id != id
    ensures CreditInv(WithCredit(s, id, c))
  {
    FreshKept(s, id, c);
  }

  lemma CreditInvRedistribute(s: Sched)
    requires CreditInv(s) && CanTake(s) && s.wakes.queue[0].Redistribute?
    ensures CreditInv(AfterTake(s))
  {
    var t := AfterTake(s);
    assert Active(t) == Active(s);
    GatheredJobs(s);
    forall k | 0 <= k < |t.jobs|
      ensures var job := t.jobs[k];
              Max(0, t.nodes[job.id].credit.target) <= Max(0, job.target) <= Max(0, Fresh(t, job.id))
    {
      assert Bounded(s.nodes[t.jobs[k].id].credit, Fresh(s, t.jobs[k].id));
    }
  }

  /** A redistribution gathers one job for each open connection, for its fresh target. */
  lemma GatheredJobs(s: Sched)
    requires s.wakes.queue != [] && s.wakes.queue[0].Redistribute?
    ensures var jobs := AfterTake(s).jobs;
            && (forall k :: 0 <= k < |jobs| ==> IsOpen(s, jobs[k].id) && jobs[k].target == Fresh(s, jobs[k].id))
            && (forall j, k :: 0 <= j < k < |jobs| ==> jobs[j].id != jobs[k].id)
            && (forall id :: IsOpen(s, id) ==> exists k :: 0 <= k < |jobs| && jobs[k].id == id)
  {
    var ids := Sorted(Active(s));
    var jobs := AfterTake(s).jobs;
    forall k | 0 <= k < |ids|
      ensures IsOpen(s, ids[k]) && jobs[k] == Job(ids[k], Fresh(s, ids[k]))
    {
      assert ids[k] in ids;
    }
    SortedDistinct(Active(s));
    forall id | IsOpen(s, id)
      ensures exists k :: 0 <= k < |jobs| && jobs[k].id == id
    {
      assert id in ids;
      var k :| 0 <= k < |ids| && ids[k] == id;
      assert jobs[k].id == id;
    }
  }

  lemma CreditInvTake(s: Sched)
    requires CreditInv(s) && CanTake(s)
    ensures CreditInv(AfterTake(s))
  {
    match s.wakes.queue[0]
    case Redistribute => CreditInvRedistribute(s);
    case ChangeConnRdy(id) =>
      var s' := s.(wakes := Taken(s.wakes));
      CreditInvWakes(s, Taken(s.wakes));
      assert Active(s') == Active(s);
      if IsOpen(s, id) {
        var c := s.nodes[id].credit;
        if Fresh(s, id) <= 0 { RetargetedBounded(c, 0); } else { RetargetedBounded(c, Fresh(s, id)); }
        CreditInvPoint(s', id, Updated(c, Fresh(s, id)));
      }
  }

  lemma SortedDistinct(ids: set<ConnId>)
    ensures forall j, k :: 0 <= j < k < |Sorted(ids)| ==> Sorted(ids)[j] != Sorted(ids)[k]
  {
    forall j, k | 0 <= j < k < |Sorted(ids)|
      ensures Sorted(ids)[j] != Sorted(ids)[k]
    {
      SortedRank(ids, j);
      SortedRank(ids, k);
    }
  }

  lemma CreditInvJob(s: Sched, k: nat)
    requires CreditInv(s) && k < |s.jobs|
    ensures CreditInv(AfterJob(s, k))
  {
    var job := s.jobs[k];
    var s' := s.(jobs := s.jobs[..k] + s.jobs[k + 1..]);
    assert Active(s') == Active(s);
    assert forall j :: 0 <= j < |s'.jobs| ==> s'.jobs[j] == s.jobs[if j < k then j else j + 1];
    if IsOpen(s, job.id) {
      var c := s.nodes[job.id].credit;
      assert Bounded(c, job.target);
      RetargetedBounded(c, job.target);
      CreditInvPoint(s', job.id, Retargeted(c, job.target));
    }
  }

  lemma CreditInvLose(s: Sched, id: ConnId)
    requires CreditInv(s) && id in s.nodes
    ensures CreditInv(s.(nodes := s.nodes[id := s.nodes[id].(closed := true)]))
  {
    var s' := s.(nodes := s.nodes[id := s.nodes[id].(closed := true)]);
    forall x | IsOpen(s', x)
      ensures IsOpen(s, x) && Fresh(s', x) >= Fresh(s, x)
    {
      TargetMonotone(Active(s'), Active(s), x, s.maxInFlight, s.nodes[x].credit.maxRdy);
    }
  }

  /** Every permitted step keeps the bound. */
  lemma CreditInvStep(s: Sched, e: Event)
    requires CreditInv(s) && Permitted(s, e)
    ensures CreditInv(Step(s, e))
  {
    match e
    case Deliver(id) =>
      if IsOpen(s, id) {
        CreditInvPoint(s, id, Delivered(s.nodes[id].credit));
      } else if id in s.nodes {
        FreshKept(s, id, Delivered(s.nodes[id].credit));
      }
    case Settle(id) =>
      if IsOpen(s, id) {
        CreditInvPoint(s, id, Settled(s.nodes[id].credit));
        CreditInvWakes(WithCredit(s, id, Settled(s.nodes[id].credit)), Signalled(s.wakes, id));
      }
    case Lose(id) => if id in s.nodes { CreditInvLose(s, id); }
    case Signal(id) => CreditInvWakes(s, Signalled(s.wakes, id));
    case AskAll => CreditInvWakes(s, Asked(s.wakes));
    case Take => if CanTake(s) { CreditInvTake(s); }
    case RunJob(k) => if k < |s.jobs| { CreditInvJob(s, k); }
    case Shutdown => CreditInvWakes(s, Shut(s.wakes)); CreditInvNoJobs(s.(wakes := Shut(s.wakes)));
    case Stop(id) => if IsOpen(s, id) { CreditInvPoint(s, id, WithRdy(s.nodes[id].credit, 0)); }
  }

  lemma CreditInvWakes(s: Sched, w: Wakes)
    requires CreditInv(s)
    ensures CreditInv(s.(wakes := w))
  {
    assert Active(s.(wakes := w)) == Active(s);
  }

  lemma CreditInvNoJobs(s: Sched)
    requires CreditInv(s)
    ensures CreditInv(s.(jobs := []))
  {
    assert Active(s.(jobs := [])) == Active(s);
  }

  lemma {:induction false} CreditInvRun(s: Sched, es: seq<Event>)
    requires CreditInv(s) && PermittedRun(s, es)
    ensures CreditInv(Run(s, es))
    decreases |es|
  {
    if es != [] {
      CreditInvStep(s, es[0]);
      CreditInvRun(Step(s, es[0]), es[1..]);
    }
  }

  lemma InitialCredit(s: Sched)
    requires Initial(s)
    ensures CreditInv(s)
  {
  }

  ghost function AllocatedBy(s: Sched): map<ConnId, int>
  {
    map id | id in s.nodes :: Allocated(s.nodes[id].credit)
  }

  ghost function Total(s: Sched): int
  {
    Sum(Active(s), AllocatedBy(s))
  }

  /** Flow-control safety: over every permitted run, each open connection stays within its
      target, and all of them together within `max_in_flight`. */
  lemma CreditSafety(s: Sched, es: seq<Event>)
    requires Initial(s) && PermittedRun(s, es)
    ensures var t := Run(s, es);
            && (forall id :: IsOpen(t, id) ==> Allocated(t.nodes[id].credit) <= Max(0, t.nodes[id].credit.target))
            && Total(t) <= Max(0, t.maxInFlight)
  {
    InitialCredit(s);
    CreditInvRun(s, es);
    TotalBound(Run(s, es));
  }

  lemma TotalBound(s: Sched)
    requires CreditInv(s)
    ensures Total(s) <= Max(0, s.maxInFlight)
  {
    var ids := Active(s);
    var caps := map id | id in s.nodes :: Max(0, s.nodes[id].credit.maxRdy);
    if ids != {} && s.maxInFlight > 0 {
      forall id | id in ids
        ensures Allocated(s.nodes[id].credit) <= Targets(ids, s.maxInFlight, caps)[id]
      {
        assert IsOpen(s, id);
        ShareMonotoneZero(s.maxInFlight, |ids|, Rank(ids, id));
      }
      SumAtMost(ids, AllocatedBy(s), Targets(ids, s.maxInFlight, caps));
      TargetsSum(ids, s.maxInFlight, caps);
    } else {
      var zero := map id | id in ids :: 0;
      forall id | id in ids
        ensures Allocated(s.nodes[id].credit) <= 0
      {
        assert IsOpen(s, id);
      }
      SumAtMost(ids, AllocatedBy(s), zero);
      SumZero(ids, zero);
    }
  }

  lemma ShareMonotoneZero(m: int, n: nat, i: nat)
    requires m > 0 && n > 0
    ensures Share(m, n, i) >= 0
  {
  }

  lemma {:induction false} SumZero(ids: set<ConnId>, f: map<ConnId, int>)
    requires ids <= f.Keys && forall id :: id in ids ==> f[id] == 0
    ensures Sum(ids, f) == 0
    decreases |ids|
  {
    if ids != {} { SumZero(ids - {MaxOf(ids)}, f); }
  }

  // ---------- What adding a connection does to the bound ----------

  /** The distributor is about to serve a connection to which it has not given anything. */
  ghost predicate FirstServed(s: Sched, id: ConnId)
  {
    && CanTake(s) && s.wakes.queue[0] == ChangeConnRdy(id) && IsOpen(s, id)
    && s.nodes[id].credit == NewCredit(s.nodes[id].credit.maxRdy)
  }

  lemma ServedNode(s: Sched, id: ConnId)
    requires FirstServed(s, id)
    ensures var t := AfterTake(s);
            && Active(t) == Active(s) && t.nodes.Keys == s.nodes.Keys
            && Allocated(t.nodes[id].credit) == Max(0, Fresh(s, id))
            && forall x :: x in s.nodes && x != id ==> t.nodes[x] == s.nodes[x]
  {
    assert Active(AfterTake(s)) == Active(s);
  }

  /** A connection that joined gets its whole target on top of what the others hold, whatever
      else is queued, so the total stays within `max_in_flight` if and only if that much was
      free. */
  lemma JoiningAddsItsTarget(s: Sched, id: ConnId)
    requires FirstServed(s, id)
    ensures var t := AfterTake(s);
            && Total(t) == Total(s) + Max(0, Fresh(s, id))
            && (Total(t) <= s.maxInFlight <==> Max(0, Fresh(s, id)) <= s.maxInFlight - Total(s))
  {
    var t := AfterTake(s);
    ServedNode(s, id);
    SumPoint(Active(s), AllocatedBy(t), AllocatedBy(s), id);
  }

  /** One open connection, to which nothing has been given. */
  ghost predicate OneIdle(s: Sched, a: ConnId)
  {
    && Initial(s) && 0 < s.maxInFlight && s.nodes.Keys == {a}
    && s.nodes[a] == Node(NewCredit(s.nodes[a].credit.maxRdy), false) && s.maxInFlight <= s.nodes[a].credit.maxRdy
  }

  /** One open connection that holds all of `max_in_flight`. */
  ghost predicate OneFull(s: Sched, a: ConnId)
  {
    && s.wakes == NO_WAKES && s.jobs == [] && 0 < s.maxInFlight && s.nodes.Keys == {a} && IsOpen(s, a)
    && var c := s.nodes[a].credit;
       c.rdyCount == c.target == s.maxInFlight && c.inFlight == 0
  }

  lemma SignalStep(s: Sched, id: ConnId)
    requires s.wakes == NO_WAKES && id in s.nodes
    ensures Step(s, Signal(id)) == s.(wakes := Wakes(true, [ChangeConnRdy(id)], {id}, false))
  {
    assert Signalled(NO_WAKES, id) == Wakes(true, [ChangeConnRdy(id)], {id}, false);
  }

  lemma OneStep(s: Sched, e: Event)
    ensures Run(s, [e]) == Step(s, e)
  {
    assert Run(Step(s, e), [e][1..]) == Step(s, e);
  }

  lemma TwoSteps(s: Sched, e: Event, f: Event)
    ensures Run(s, [e, f]) == Step(Step(s, e), f)
  {
    assert [e, f][1..] == [f];
    OneStep(Step(s, e), f);
  }

  lemma ThreeSteps(s: Sched, e: Event, f: Event, g: Event)
    ensures Run(s, [e, f, g]) == Step(Step(Step(s, e), f), g)
  {
    assert [e, f, g][1..] == [f, g];
    TwoSteps(Step(s, e), f, g);
  }

  lemma ShareOfTheOnly(s: Sched, a: ConnId)
    requires Active(s) == {a} && 0 < s.maxInFlight
    ensures IsOpen(s, a) && Fresh(s, a) == Min(s.maxInFlight, s.nodes[a].credit.maxRdy)
  {
    RankBelow({a}, a);
    assert a in Active(s);
    DivMod(s.maxInFlight, 1);
  }

  lemma TheOnlyIsServed(s: Sched, a: ConnId, t: Sched)
    requires FirstServed(s, a) && s.wakes == Wakes(true, [ChangeConnRdy(a)], {a}, false) && 0 < s.maxInFlight
    requires s.nodes.Keys == {a} && s.maxInFlight <= s.nodes[a].credit.maxRdy && t == AfterTake(s)
    ensures OneFull(t, a)
  {
    assert Active(s) == {a};
    ShareOfTheOnly(s, a);
    assert s.wakes.queue[1..] == [] && s.wakes.pending - {a} == {};
  }

  /** Signalled and served, the only connection holds all of `max_in_flight`. */
  lemma FilledBySignalAndTake(s: Sched, a: ConnId)
    requires OneIdle(s, a)
    ensures OneFull(Run(s, [Signal(a), Take]), a)
  {
    var s1 := Step(s, Signal(a));
    SignalStep(s, a);
    TwoSteps(s, Signal(a), Take);
    TheOnlyIsServed(s1, a, Step(s1, Take));
  }

  lemma ShareOfTwo(s: Sched, a: ConnId, b: ConnId)
    requires Active(s) == {a, b} && a != b && 2 <= s.maxInFlight <= s.nodes[b].credit.maxRdy
    ensures IsOpen(s, b) && Fresh(s, b) > 0
  {
    assert b in Active(s) && |{a, b}| == 2;
  }

  lemma TotalOfTwo(s: Sched, a: ConnId, b: ConnId)
    requires Active(s) == {a, b} && a != b
    ensures Total(s) == Allocated(s.nodes[a].credit) + Allocated(s.nodes[b].credit)
  {
    assert a in Active(s) && b in Active(s);
    SumRemove(Active(s), AllocatedBy(s), a);
    assert Active(s) - {a} == {b};
    SumRemove({b}, AllocatedBy(s), b);
    assert {b} - {b} == {};
  }

  lemma SecondJoins(t: Sched, a: ConnId, b: ConnId, maxRdy: int, u: Sched)
    requires OneFull(t, a) && a != b && 2 <= t.maxInFlight <= maxRdy
    requires u == Step(Step(t, Add(b, maxRdy)), Signal(b))
    ensures FirstServed(u, b) && Fresh(u, b) > 0 && Total(u) == u.maxInFlight == t.maxInFlight
  {
    SignalStep(Step(t, Add(b, maxRdy)), b);
    assert Active(u) == {a, b};
    ShareOfTwo(u, a, b);
    TotalOfTwo(u, a, b);
  }

  /** The bound does fail, in every run that fills one connection and then lets a second one
      join and be served. */
  lemma JoiningExceedsTheBound(s: Sched, a: ConnId, b: ConnId, maxRdy: int)
    requires OneIdle(s, a) && a != b && 2 <= s.maxInFlight <= maxRdy
    ensures var t := Run(Run(s, [Signal(a), Take]), [Add(b, maxRdy), Signal(b), Take]);
            Total(t) > t.maxInFlight
  {
    FilledBySignalAndTake(s, a);
    FilledKeepsTheLimit(s, a);
    var t := Run(s, [Signal(a), Take]);
    var u := Step(Step(t, Add(b, maxRdy)), Signal(b));
    SecondJoins(t, a, b, maxRdy, u);
    JoiningAddsItsTarget(u, b);
    ThreeSteps(t, Add(b, maxRdy), Signal(b), Take);
  }

  lemma FilledKeepsTheLimit(s: Sched, a: ConnId)
    ensures Run(s, [Signal(a), Take]).maxInFlight == s.maxInFlight
  {
    TwoSteps(s, Signal(a), Take);
  }

  // ---------- Wake-ups ----------

  /** RDY 0 leaves a connection something to wake up for: it has no target, or a message is
      in flight whose settling will signal, or a refill is queued. */
  predicate CanStop(s: Sched, id: ConnId)
    requires id in s.nodes
  {
    s.nodes[id].credit.target <= 0 || s.nodes[id].credit.inFlight >= 1 || id in s.wakes.pending
  }

  /** While the scheduler works, `stop_receiving` comes only where it can. */
  predicate Orderly(s: Sched, e: Event)
  {
    e.Stop? && s.wakes.working && IsOpen(s, e.id) ==> CanStop(s, e.id)
  }

  ghost predicate OrderlyRun(s: Sched, es: seq<Event>)
    decreases |es|
  {
    es == [] || (Orderly(s, es[0]) && OrderlyRun(Step(s, es[0]), es[1..]))
  }

  /** An open connection with a target holds credit or messages, or a refill is queued. */
  predicate Awake(c: Credit, queued: bool)
  {
    && 0 <= c.inFlight && 0 <= c.rdyCount
    && (c.target > 0 ==> c.lowWater >= 1 && (Allocated(c) >= 1 || queued))
  }

  ghost predicate WakeInv(s: Sched)
  {
    s.wakes.working ==>
      && Coalesced(s.wakes)
      && s.wakes.pending <= s.nodes.Keys
      && (forall k :: 0 <= k < |s.jobs| ==> s.jobs[k].id in s.nodes)
      && (forall id :: IsOpen(s, id) ==> Awake(s.nodes[id].credit, id in s.wakes.pending))
      && (forall k :: 0 <= k < |s.jobs| && IsOpen(s, s.jobs[k].id) ==>
            UnderCap(s.nodes[s.jobs[k].id].credit, s.jobs[k].target))
  }

  predicate UnderCap(c: Credit, target: int)
  {
    target > 0 ==> target <= c.maxRdy
  }

  /** Serving a connection leaves it awake with nothing queued, even when the low-water mark
      that it stores is older than the target that is computed now. */
  lemma ServedIsAwake(c: Credit, target: int, queued: bool)
    requires Awake(c, queued) && UnderCap(c, target)
    ensures Awake(Retargeted(c, target), false) && Awake(Updated(c, target), false)
    ensures Retargeted(c, target).maxRdy == c.maxRdy == Updated(c, target).maxRdy
  {
  }

  /** One connection changes, and the set of marks with it. */
  lemma WakeInvPoint(s: Sched, id: ConnId, c: Credit, w: Wakes)
    requires WakeInv(s) && id in s.nodes && s.wakes.working && w.working && Coalesced(w)
    requires c.maxRdy == s.nodes[id].credit.maxRdy
    requires w.pending - {id} == s.wakes.pending - {id}
    requires IsOpen(s, id) ==> Awake(c, id in w.pending)
    ensures WakeInv(WithCredit(s, id, c).(wakes := w))
  {
    var s' := WithCredit(s, id, c).(wakes := w);
    forall x | IsOpen(s', x)
      ensures Awake(s'.nodes[x].credit, x in w.pending)
    {
      if x != id {
        assert IsOpen(s, x);
        assert x in w.pending - {id} <==> x in s.wakes.pending - {id};
      }
    }
    forall x | x in w.pending
      ensures x in s'.nodes
    {
      if x != id { assert x in w.pending - {id}; }
    }
  }

  lemma WakeInvSettle(s: Sched, id: ConnId)
    requires WakeInv(s) && s.wakes.working && IsOpen(s, id)
    ensures WakeInv(AfterSettle(s, id))
  {
    var c := Settled(s.nodes[id].credit);
    var w := if RefillDue(c) then Signalled(s.wakes, id) else s.wakes;
    SignalsKeepCoalesced(s.wakes, id);
    WakeInvPoint(s, id, c, w);
    assert AfterSettle(s, id) == WithCredit(s, id, c).(wakes := w);
  }

  /** `stop_receiving` on an open connection of a working scheduler keeps every wake-up if
      and only if that connection can be stopped. */
  lemma StopKeepsWakeUpsIff(s: Sched, id: ConnId)
    requires WakeInv(s) && s.wakes.working && IsOpen(s, id)
    ensures WakeInv(Step(s, Stop(id))) <==> CanStop(s, id)
  {
    var c := WithRdy(s.nodes[id].credit, 0);
    var t := Step(s, Stop(id));
    assert t == WithCredit(s, id, c).(wakes := s.wakes);
    assert IsOpen(t, id) && t.nodes[id].credit == c;
    if CanStop(s, id) { WakeInvPoint(s, id, c, s.wakes); }
  }

  /** The condition is needed: a connection that was just filled is stopped. It has a target,
      holds nothing, and nothing is queued that would ever serve it. */
  lemma StoppingCanStarve(s: Sched, a: ConnId)
    requires OneIdle(s, a)
    ensures var t := Step(Run(s, [Signal(a), Take]), Stop(a));
            && t.wakes.working && t.wakes.queue == [] && t.jobs == [] && IsOpen(t, a)
            && t.nodes[a].credit.target > 0 && Allocated(t.nodes[a].credit) == 0
  {
    FilledBySignalAndTake(s, a);
  }

  lemma WakeInvTakeAll(s: Sched)
    requires WakeInv(s) && CanTake(s) && s.wakes.queue[0].Redistribute?
    ensures WakeInv(AfterTake(s))
  {
    TakingKeepsCoalesced(s.wakes);
    GatheredJobs(s);
  }

  lemma WakeInvTakeOne(s: Sched, id: ConnId)
    requires WakeInv(s) && CanTake(s) && s.wakes.queue[0] == ChangeConnRdy(id)
    ensures WakeInv(AfterTake(s))
  {
    var w := Taken(s.wakes);
    TakingKeepsCoalesced(s.wakes);
    assert s.wakes.queue[0] in s.wakes.queue;
    var c := s.nodes[id].credit;
    if IsOpen(s, id) {
      ServedIsAwake(c, Fresh(s, id), true);
      WakeInvPoint(s, id, Updated(c, Fresh(s, id)), w);
      assert AfterTake(s) == WithCredit(s, id, Updated(c, Fresh(s, id))).(wakes := w);
    } else {
      WakeInvPoint(s, id, c, w);
      assert AfterTake(s) == WithCredit(s, id, c).(wakes := w);
    }
  }

  lemma WakeInvTake(s: Sched)
    requires WakeInv(s) && CanTake(s)
    ensures WakeInv(AfterTake(s))
  {
    match s.wakes.queue[0]
    case Redistribute => WakeInvTakeAll(s);
    case ChangeConnRdy(id) => WakeInvTakeOne(s, id);
  }

  lemma WakeInvJob(s: Sched, k: nat)
    requires WakeInv(s) && s.wakes.working && k < |s.jobs|
    ensures WakeInv(AfterJob(s, k))
  {
    var job := s.jobs[k];
    var s' := s.(jobs := s.jobs[..k] + s.jobs[k + 1..]);
    assert forall j :: 0 <= j < |s'.jobs| ==> s'.jobs[j] == s.jobs[if j < k then j else j + 1];
    if IsOpen(s, job.id) {
      var c := s.nodes[job.id].credit;
      ServedIsAwake(c, job.target, job.id in s.wakes.pending);
      WakeInvPoint(s', job.id, Retargeted(c, job.target), s.wakes);
    }
  }

  /** Every orderly step keeps every wake-up. */
  lemma WakeInvStep(s: Sched, e: Event)
    requires WakeInv(s) && Orderly(s, e)
    ensures WakeInv(Step(s, e))
  {
    if s.wakes.working {
      match e
      case Deliver(id) => if id in s.nodes { WakeInvPoint(s, id, Delivered(s.nodes[id].credit), s.wakes); }
      case Settle(id) => if IsOpen(s, id) { WakeInvSettle(s, id); }
      case Lose(id) =>
      case Signal(id) =>
        if id in s.nodes {
          SignalsKeepCoalesced(s.wakes, id);
          WakeInvPoint(s, id, s.nodes[id].credit, Signalled(s.wakes, id));
          assert Step(s, e) == WithCredit(s, id, s.nodes[id].credit).(wakes := Signalled(s.wakes, id));
        }
      case AskAll => SignalsKeepCoalesced(s.wakes, 0);
      case Take => if CanTake(s) { WakeInvTake(s); }
      case RunJob(k) => if k < |s.jobs| { WakeInvJob(s, k); }
      case Stop(id) => if IsOpen(s, id) { StopKeepsWakeUpsIff(s, id); }
      case Shutdown =>
      case Add(id, maxRdy) =>
    }
  }

  lemma {:induction false} WakeInvRun(s: Sched, es: seq<Event>)
    requires WakeInv(s) && OrderlyRun(s, es)
    ensures WakeInv(Run(s, es))
    decreases |es|
  {
    if es != [] {
      WakeInvStep(s, es[0]);
      WakeInvRun(Step(s, es[0]), es[1..]);
    }
  }

  lemma InitialWakes(s: Sched)
    requires Initial(s)
    ensures WakeInv(s)
  {
  }

  /** No lost wake-up: over every orderly run, connections joining included, as long as the
      scheduler works, an open connection with a target has credit, or messages whose
      settling will signal, or a command in the queue. */
  lemma NoLostWakeUp(s: Sched, es: seq<Event>, id: ConnId)
    requires Initial(s) && OrderlyRun(s, es)
    requires var t := Run(s, es); t.wakes.working && IsOpen(t, id) && t.nodes[id].credit.target > 0
    ensures var t := Run(s, es);
            Allocated(t.nodes[id].credit) >= 1 || ChangeConnRdy(id) in t.wakes.queue
  {
    InitialWakes(s);
    WakeInvRun(s, es);
  }

  // ---------- Coalescing ----------

  /** Before `close`, marks are exact and belong to known connections. */
  ghost predicate MarksExact(s: Sched)
  {
    s.wakes.working ==> Coalesced(s.wakes) && s.wakes.pending <= s.nodes.Keys
  }

  lemma MarksStep(s: Sched, e: Event)
    requires MarksExact(s)
    ensures MarksExact(Step(s, e))
  {
    if s.wakes.working {
      match e
      case Settle(id) => SignalsKeepCoalesced(s.wakes, id);
      case Signal(id) => SignalsKeepCoalesced(s.wakes, id);
      case AskAll => SignalsKeepCoalesced(s.wakes, 0);
      case Take => if CanTake(s) { TakingKeepsCoalesced(s.wakes); }
      case _ =>
    }
  }

  lemma {:induction false} MarksRun(s: Sched, es: seq<Event>)
    requires MarksExact(s)
    ensures MarksExact(Run(s, es))
    decreases |es|
  {
    if es != [] {
      MarksStep(s, es[0]);
      MarksRun(Step(s, es[0]), es[1..]);
    }
  }

  /** Over every run before `close`, each id and the redistribution are queued at most once
      and marked exactly while queued, so the queue stays short. */
  lemma QueueStaysShort(s: Sched, es: seq<Event>)
    requires Initial(s) && Run(s, es).wakes.working
    ensures var t := Run(s, es);
            Coalesced(t.wakes) && |t.wakes.queue| <= |t.nodes| + 1
  {
    MarksRun(s, es);
    var t := Run(s, es);
    QueueBound(t.wakes);
    CardinalitySubset(t.wakes.pending, t.nodes.Keys);
  }

  // ---------- The distributor comes to rest ----------

  /** The distributor runs alone until it has nothing to do. */
  ghost function Quiesced(s: Sched): Sched
    requires s.wakes.working
    decreases |s.wakes.queue|, |s.jobs|
  {
    if s.jobs != [] then Quiesced(AfterJob(s, 0))
    else if s.wakes.queue != [] then Quiesced(AfterTake(s))
    else s
  }

  /** It comes to rest with an empty queue, and then no connection with a target is idle. */
  lemma {:induction false} QuiescedIsAwake(s: Sched)
    requires s.wakes.working && WakeInv(s)
    ensures var t := Quiesced(s);
            && t.wakes.working && t.wakes.queue == [] && t.jobs == [] && WakeInv(t)
            && forall id :: IsOpen(t, id) && t.nodes[id].credit.target > 0 ==> Allocated(t.nodes[id].credit) >= 1
    decreases |s.wakes.queue|, |s.jobs|
  {
    if s.jobs != [] {
      WakeInvJob(s, 0);
      QuiescedIsAwake(AfterJob(s, 0));
    } else if s.wakes.queue != [] {
      WakeInvTake(s);
      QuiescedIsAwake(AfterTake(s));
    } else {
      assert forall id :: id in s.wakes.pending ==> ChangeConnRdy(id) in s.wakes.queue;
    }
  }

  /** A connection has the target of a fresh division, and credit for exactly what is missing. */
  ghost predicate OnTarget(s: Sched, id: ConnId)
    requires IsOpen(s, id)
  {
    var c := s.nodes[id].credit;
    && Max(0, c.target) == Max(0, Fresh(s, id))
    && (0 <= c.rdyCount && 0 <= c.inFlight ==> Allocated(c) == Max(c.inFlight, Max(0, Fresh(s, id))))
  }

  /** A redistribution is queued, or what is gathered will bring everyone on target. */
  ghost predicate Converging(s: Sched)
  {
    Redistribute in s.wakes.queue ||
    ((forall k :: 0 <= k < |s.jobs| && IsOpen(s, s.jobs[k].id) ==> s.jobs[k].target == Fresh(s, s.jobs[k].id))
     && (forall id :: IsOpen(s, id) ==> OnTarget(s, id) || DueAt(s, id)))
  }

  lemma ConvergingJob(s: Sched)
    requires Converging(s) && s.jobs != []
    ensures Converging(AfterJob(s, 0))
  {
    var job := s.jobs[0];
    var t := AfterJob(s, 0);
    assert s.jobs[..0] + s.jobs[1..] == s.jobs[1..];
    assert Active(t) == Active(s);
    if Redistribute !in s.wakes.queue {
      forall id | IsOpen(t, id)
        ensures OnTarget(t, id) || DueAt(t, id)
      {
        assert IsOpen(s, id);
        if id != job.id && DueAt(s, id) { StillDue(s, id); }
      }
    }
  }

  lemma StillDue(s: Sched, id: ConnId)
    requires s.jobs != [] && id != s.jobs[0].id && DueAt(s, id)
    ensures DueAt(AfterJob(s, 0), id)
  {
    var k :| 0 <= k < |s.jobs| && s.jobs[k].id == id;
    assert s.jobs[..0] + s.jobs[1..] == s.jobs[1..];
    assert AfterJob(s, 0).jobs[k - 1].id == id;
  }

  /** With nothing queued and nothing gathered, converging means on target. */
  lemma ConvergedAtRest(s: Sched, id: ConnId)
    requires Converging(s) && Redistribute !in s.wakes.queue && s.jobs == [] && IsOpen(s, id)
    ensures OnTarget(s, id)
  {
    assert !DueAt(s, id);
  }

  lemma ConvergingTakeAll(s: Sched)
    requires CanTake(s) && s.wakes.queue[0].Redistribute?
    ensures Converging(AfterTake(s))
  {
    var t := AfterTake(s);
    assert Active(t) == Active(s);
    GatheredJobs(s);
    forall id | IsOpen(t, id)
      ensures DueAt(t, id)
    {
      assert IsOpen(s, id);
      var k :| 0 <= k < |t.jobs| && t.jobs[k].id == id;
    }
  }

  lemma ConvergingTakeOne(s: Sched)
    requires Converging(s) && CanTake(s) && s.wakes.queue[0].ChangeConnRdy?
    ensures Converging(AfterTake(s))
  {
    var t := AfterTake(s);
    assert Active(t) == Active(s);
    assert s.wakes.queue == [s.wakes.queue[0]] + s.wakes.queue[1..];
    if Redistribute !in s.wakes.queue {
      forall id | IsOpen(t, id)
        ensures OnTarget(t, id)
      {
        assert IsOpen(s, id);
        ConvergedAtRest(s, id);
      }
    }
  }

  /** After a redistribution is asked for, the distributor alone brings every open
      connection on the target of a fresh division, whatever was queued before. */
  lemma {:induction false} RedistributionConverges(s: Sched, id: ConnId)
    requires s.wakes.working && Converging(s)
    requires IsOpen(Quiesced(s), id)
    ensures OnTarget(Quiesced(s), id)
    decreases |s.wakes.queue|, |s.jobs|
  {
    if s.jobs != [] {
      ConvergingJob(s);
      RedistributionConverges(AfterJob(s, 0), id);
    } else if s.wakes.queue != [] {
      if s.wakes.queue[0].Redistribute? { ConvergingTakeAll(s); } else { ConvergingTakeOne(s); }
      RedistributionConverges(AfterTake(s), id);
    } else {
      ConvergedAtRest(s, id);
    }
  }

  // ---------- Counts ----------

  /** No count is ever negative. */
  ghost predicate Counting(s: Sched)
  {
    forall id :: id in s.nodes ==> 0 <= s.nodes[id].credit.inFlight && 0 <= s.nodes[id].credit.rdyCount
  }

  lemma CountingTake(s: Sched)
    requires Counting(s) && s.wakes.queue != []
    ensures Counting(AfterTake(s))
  {
  }

  lemma CountingJob(s: Sched, k: nat)
    requires Counting(s) && k < |s.jobs|
    ensures Counting(AfterJob(s, k))
  {
  }

  lemma CountingStep(s: Sched, e: Event)
    requires Counting(s)
    ensures Counting(Step(s, e))
  {
    match e
    case Take => if CanTake(s) { CountingTake(s); }
    case RunJob(k) => if k < |s.jobs| { CountingJob(s, k); }
    case _ =>
  }

  lemma {:induction false} CountingRun(s: Sched, es: seq<Event>)
    requires Counting(s)
    ensures Counting(Run(s, es))
    decreases |es|
  {
    if es != [] {
      CountingStep(s, es[0]);
      CountingRun(Step(s, es[0]), es[1..]);
    }
  }

  lemma {:induction false} QuiescedRests(s: Sched)
    requires s.wakes.working && Counting(s)
    ensures var t := Quiesced(s);
            t.wakes.working && t.wakes.queue == [] && t.jobs == [] && Counting(t) && t.maxInFlight == s.maxInFlight
    decreases |s.wakes.queue|, |s.jobs|
  {
    if s.jobs != [] {
      CountingJob(s, 0);
      QuiescedRests(AfterJob(s, 0));
    } else if s.wakes.queue != [] {
      CountingTake(s);
      QuiescedRests(AfterTake(s));
    }
  }

  /** Recovery: once a redistribution was asked for, the distributor alone brings every open
      connection to exactly its target, or to the messages it has in flight when those are
      more. So no connection with a target is left idle, the bounds hold again if and only if
      the messages in flight fit the targets, and then the total is back within
      `max_in_flight`. */
  lemma RedistributionRecovers(s: Sched)
    requires s.wakes.working && Counting(s) && Converging(s)
    ensures var t := Quiesced(s);
            && (forall id :: IsOpen(t, id) ==> Recovered(t, id))
            && (CreditInv(t) <==> forall id :: IsOpen(t, id) ==> t.nodes[id].credit.inFlight <= Max(0, Fresh(t, id)))
            && (CreditInv(t) ==> Total(t) <= Max(0, s.maxInFlight))
  {
    QuiescedRests(s);
    var t := Quiesced(s);
    forall id | IsOpen(t, id)
      ensures OnTarget(t, id) && Recovered(t, id)
    {
      RedistributionConverges(s, id);
    }
    if CreditInv(t) { TotalBound(t); }
  }

  /** A connection holds the larger of its target and its messages in flight. */
  ghost predicate Recovered(s: Sched, id: ConnId)
    requires IsOpen(s, id)
  {
    var c := s.nodes[id].credit;
    && Allocated(c) == Max(c.inFlight, Max(0, Fresh(s, id)))
    && (c.target > 0 ==> Allocated(c) > 0)
  }

  /** Asking for a redistribution recovers the bounds after any run whatever: connections that
      joined, and connections that RDY 0 has starved, included. */
  lemma RecoveryAfterAnyRun(s: Sched, es: seq<Event>)
    requires Initial(s) && Run(s, es).wakes.working
    ensures var t := Quiesced(Step(Run(s, es), AskAll));
            && (forall id :: IsOpen(t, id) ==> Recovered(t, id))
            && ((forall id :: IsOpen(t, id) ==> t.nodes[id].credit.inFlight <= Max(0, Fresh(t, id)))
                ==> CreditInv(t) && Total(t) <= Max(0, t.maxInFlight))
  {
    var u := Run(s, es);
    MarksRun(s, es);
    CountingRun(s, es);
    AskedIsQueued(u.wakes);
    CountingStep(u, AskAll);
    RedistributionRecovers(Step(u, AskAll));
    QuiescedRests(Step(u, AskAll));
  }

  lemma AskedIsQueued(w: Wakes)
    requires w.working && Coalesced(w)
    ensures Redistribute in Asked(w).queue
  {
    if !w.redistributePending {
      assert Asked(w).queue[|w.queue|] == Redistribute;
    }
  }
}
