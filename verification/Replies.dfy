/** Which reply settles which command, over whole runs of a connection. */
module Replies {
  import opened Prelude
  import opened Commands
  import opened OrderedDict
  import opened ConnectionState
  import opened ConnectionLaws

  /** A reply is an error, or a response that is no heartbeat. */
  function ReplyIn(e: Event): Option<Future>
  {
    match e
    case Recv(Response(body)) => if body == HEARTBEAT then None else Some(Resolved(body))
    case Recv(Error(code, msg)) => Some(Failed(ServerError(code, msg)))
    case _ => None
  }

  /** The replies that arrive in a run, in order. */
  function RunReplies(es: seq<Event>): seq<Future>
  {
    if es == [] then []
    else
      (match ReplyIn(es[0])
       case Some(answer) => [answer]
       case None => [])
      + RunReplies(es[1..])
  }

  /** No reply arrives while nobody waits. */
  ghost predicate Awaited(c: Conn, es: seq<Event>)
    decreases |es|
  {
    es == [] || ((ReplyIn(es[0]).Some? ==> c.waiters != []) && Awaited(Step(c, es[0]), es[1..]))
  }

  // ---------- One step ----------

  /** From `c` to `d` no reply took a waiter. */
  predicate SameAnswers(c: Conn, d: Conn)
  {
    d.answers == c.answers
  }

  lemma {:induction false} RequeueAnswersNobody(c: Conn, hs: seq<nat>, timeout: int)
    requires forall i :: 0 <= i < |hs| ==> hs[i] < |c.msgs|
    ensures SameAnswers(c, RequeueEach(c, hs, timeout).0)
    decreases |hs|
  {
    if hs != [] { RequeueAnswersNobody(RequeueHead(c, hs[0], timeout), hs[1..], timeout); }
  }

  lemma CallAnswersNobody(c: Conn, e: Event)
    requires !e.Recv?
    ensures SameAnswers(c, Step(c, e))
  {
    if e.RequeueInFlight? && HandlesValid(c) {
      assert forall i :: 0 <= i < |c.ledger| ==> Values(c.ledger)[i] < |c.msgs|;
      RequeueAnswersNobody(c, Values(c.ledger), e.timeout);
    }
  }

  lemma ResponseAnswers(c: Conn, body: bytes)
    ensures var d := OnResponse(c, body);
            if body != HEARTBEAT && c.waiters != [] then d.answers == c.answers + [Resolved(body)]
            else SameAnswers(c, d)
  {
  }

  lemma ErrorAnswers(c: Conn, code: bytes, msg: bytes)
    ensures var d := OnError(c, code, msg);
            if c.waiters != [] then d.answers == c.answers + [Failed(ServerError(code, msg))] else SameAnswers(c, d)
  {
  }

  /** A reply is an answer if and only if somebody waits for one, and nothing else is. */
  lemma StepAnswers(c: Conn, e: Event)
    ensures Step(c, e).answers ==
            if ReplyIn(e).Some? && c.waiters != [] then c.answers + [ReplyIn(e).value] else c.answers
  {
    match e
    case Recv(Response(body)) => ResponseAnswers(c, body);
    case Recv(Error(code, msg)) => ErrorAnswers(c, code, msg);
    case Recv(Message(_, _, _, _)) =>
    case _ => CallAnswersNobody(c, e);
  }

  // ---------- Replies in order ----------

  lemma {:induction false} RunAnswers(c: Conn, es: seq<Event>)
    ensures |Run(c, es).answers| <= |c.answers| + |RunReplies(es)|
    ensures Run(c, es).answers == c.answers + RunReplies(es) <==> Awaited(c, es)
    decreases |es|
  {
    if es != [] {
      var d := Step(c, es[0]);
      StepAnswers(c, es[0]);
      RunAnswers(d, es[1..]);
      if ReplyIn(es[0]).Some? && c.waiters != [] {
        AppendAssociates(c.answers, [ReplyIn(es[0]).value], RunReplies(es[1..]));
        assert RunReplies(es) == [ReplyIn(es[0]).value] + RunReplies(es[1..]);
      }
    }
  }

  /** Over every run, all replies that arrive are answers, in order, if and only if none
      arrives while nobody waits; and then the k-th reply settles the k-th command that
      expects one, unless that was cancelled. */
  lemma RepliesSettleCommandsInOrderIff(maxRdy: int, es: seq<Event>)
    ensures var c := Run(NewConn(maxRdy), es);
            && (c.answers == RunReplies(es) <==> Awaited(NewConn(maxRdy), es))
            && (Awaited(NewConn(maxRdy), es) ==>
                  |RunReplies(es)| <= |c.futures|
                  && forall k :: 0 <= k < |RunReplies(es)| ==> c.futures[k] in {RunReplies(es)[k], Cancelled})
  {
    RunAnswers(NewConn(maxRdy), es);
    assert [] + RunReplies(es) == RunReplies(es);
    WaiterPairing(maxRdy, es);
  }

  // ---------- Whose reply it is ----------

  /** An event, and for a reply the future of the command that nsqd answers with it; none
      when it answers a FIN, a REQ or a TOUCH. */
  datatype Tagged = Tagged(e: Event, owner: Option<nat>)

  function Events(ts: seq<Tagged>): seq<Event>
  {
    if ts == [] then [] else [ts[0].e] + Events(ts[1..])
  }

  /** nsqd answers the commands that were written in the order in which they were written;
      `n` of them have been answered so far. */
  ghost predicate AnsweredInOrder(c: Conn, ts: seq<Tagged>, n: nat)
    decreases |ts|
  {
    ts == [] ||
    if ReplyIn(ts[0].e).Some? && ts[0].owner.Some? then
      && n < |Written(c.sent)| && ts[0].owner.value == Written(c.sent)[n]
      && AnsweredInOrder(Step(c, ts[0].e), ts[1..], n + 1)
    else
      AnsweredInOrder(Step(c, ts[0].e), ts[1..], n)
  }

  /** The owners of the replies that took a waiter: the k-th of them settles the k-th future. */
  ghost function Takers(c: Conn, ts: seq<Tagged>): seq<Option<nat>>
    decreases |ts|
  {
    if ts == [] then []
    else
      (if ReplyIn(ts[0].e).Some? && c.waiters != [] then [ts[0].owner] else [])
      + Takers(Step(c, ts[0].e), ts[1..])
  }

  /** Some command before future `k` was never written. */
  ghost predicate BehindUnwritten(c: Conn, k: nat)
  {
    exists j: nat :: j < k && j !in Written(c.sent)
  }

  /** While a command waits, every reply that arrives answers a command, and none of the
      commands before it failed to be encoded. */
  ghost predicate Undisturbed(c: Conn, ts: seq<Tagged>)
    decreases |ts|
  {
    ts == [] ||
    ((ReplyIn(ts[0].e).Some? && c.waiters != [] ==>
        ts[0].owner.Some? && !BehindUnwritten(c, ts[0].owner.value))
     && Undisturbed(Step(c, ts[0].e), ts[1..]))
  }

  /** Every reply that took a waiter took that of its own command. */
  ghost predicate OwnReplies(c: Conn, ts: seq<Tagged>)
  {
    OwnedFrom(Takers(c, ts), |c.answers|)
  }

  /** The owners are the futures from number `k` on. */
  predicate OwnedFrom(owners: seq<Option<nat>>, k: nat)
  {
    forall i :: 0 <= i < |owners| ==> owners[i] == Some(k + i)
  }

  lemma OwnedFirst(first: Option<nat>, rest: seq<Option<nat>>, k: nat)
    ensures OwnedFrom([first] + rest, k) <==> first == Some(k) && OwnedFrom(rest, k + 1)
  {
    if OwnedFrom([first] + rest, k) { OwnedRest(first, rest, k); }
    if first == Some(k) && OwnedFrom(rest, k + 1) { OwnedAll(first, rest, k); }
  }

  lemma OwnedRest(first: Option<nat>, rest: seq<Option<nat>>, k: nat)
    requires OwnedFrom([first] + rest, k)
    ensures first == Some(k) && OwnedFrom(rest, k + 1)
  {
    var all := [first] + rest;
    assert all[0] == Some(k + 0);
    forall i | 0 <= i < |rest|
      ensures rest[i] == Some(k + 1 + i)
    {
      assert rest[i] == all[i + 1];
    }
  }

  lemma OwnedAll(first: Option<nat>, rest: seq<Option<nat>>, k: nat)
    requires first == Some(k) && OwnedFrom(rest, k + 1)
    ensures OwnedFrom([first] + rest, k)
  {
    var all := [first] + rest;
    forall i | 0 <= i < |all|
      ensures all[i] == Some(k + i)
    {
      if i > 0 { assert all[i] == rest[i - 1]; }
    }
  }

  /** Futures are written in the order of their creation. */
  predicate Increasing(w: seq<nat>, bound: nat)
  {
    (forall i, j :: 0 <= i < j < |w| ==> w[i] < w[j]) && (forall i :: 0 <= i < |w| ==> w[i] < bound)
  }

  lemma StepIncreasing(c: Conn, e: Event)
    requires ConnInv(c) && Increasing(Written(c.sent), |c.futures|)
    ensures Increasing(Written(Step(c, e).sent), |Step(c, e).futures|)
  {
    if Executes(c, e) {
      ExecuteIncreasing(c, e.cmd);
    } else {
      StepIsSilent(c, e);
      SilentIncreasing(c, Step(c, e));
    }
  }

  lemma ExecuteIncreasing(c: Conn, cmd: Command)
    requires !IsClosed(c) && Increasing(Written(c.sent), |c.futures|)
    ensures var d := AfterExecute(c, cmd); Increasing(Written(d.sent), |d.futures|)
  {
    ExecuteWrites(c, cmd);
    IncreasingAppend(Written(c.sent), |c.futures|);
  }

  lemma IncreasingAppend(w: seq<nat>, bound: nat)
    requires Increasing(w, bound)
    ensures Increasing(w, bound + 1) && Increasing(w + [bound], bound + 1)
  {
  }

  lemma SilentIncreasing(c: Conn, d: Conn)
    requires Silent(c, d) && Increasing(Written(c.sent), |c.futures|)
    ensures Increasing(Written(d.sent), |d.futures|)
  {
  }

  lemma {:induction false} AtLeastItsIndex(w: seq<nat>, bound: nat, n: nat)
    requires Increasing(w, bound) && n < |w|
    ensures n <= w[n]
    decreases n
  {
    if n > 0 { AtLeastItsIndex(w, bound, n - 1); }
  }

  /** The number at index `n` exceeds `n` if and only if a smaller number is missing. */
  lemma {:induction false} GapIff(w: seq<nat>, bound: nat, n: nat)
    requires Increasing(w, bound) && n < |w|
    ensures w[n] != n <==> exists j: nat :: j < w[n] && j !in w
    decreases n
  {
    AtLeastItsIndex(w, bound, n);
    if n > 0 {
      GapIff(w, bound, n - 1);
      AtLeastItsIndex(w, bound, n - 1);
    }
    if w[n] == n {
      forall j: nat | j < n
        ensures j in w
      {
        if j == n - 1 { assert w[n - 1] == j; }
      }
    } else if n == 0 || w[n - 1] == n - 1 {
      assert n !in w;
    } else {
      var j: nat :| j < w[n - 1] && j !in w;
      assert j < w[n];
    }
  }

  lemma {:induction false} ClosedTakesNothing(c: Conn, ts: seq<Tagged>)
    requires ConnInv(c) && c.closed
    ensures Takers(c, ts) == [] && Undisturbed(c, ts)
    decreases |ts|
  {
    if ts != [] {
      StepKeeps(c, ts[0].e);
      ClosedForGood(c, ts[0].e);
      ClosedTakesNothing(Step(c, ts[0].e), ts[1..]);
    }
  }

  /** The first reply decides, or the rest of the run does. */
  lemma OwnRepliesStep(c: Conn, ts: seq<Tagged>)
    requires ts != []
    ensures var took := ReplyIn(ts[0].e).Some? && c.waiters != [];
            OwnReplies(c, ts) <==>
            (took ==> ts[0].owner == Some(|c.answers|)) && OwnReplies(Step(c, ts[0].e), ts[1..])
  {
    var rest := Takers(Step(c, ts[0].e), ts[1..]);
    StepAnswers(c, ts[0].e);
    if ReplyIn(ts[0].e).Some? && c.waiters != [] {
      OwnedFirst(ts[0].owner, rest, |c.answers|);
    } else {
      assert [] + rest == rest;
    }
  }

  lemma {:induction false} OwnRepliesRunIff(c: Conn, ts: seq<Tagged>, n: nat)
    requires ConnInv(c) && Increasing(Written(c.sent), |c.futures|)
    requires AnsweredInOrder(c, ts, n) && (c.closed || n == |c.answers|)
    ensures OwnReplies(c, ts) <==> Undisturbed(c, ts)
    decreases |ts|
  {
    if c.closed {
      ClosedTakesNothing(c, ts);
    } else if ts != [] {
      var (e, owner) := (ts[0].e, ts[0].owner);
      var d := Step(c, e);
      StepKeeps(c, e);
      StepIncreasing(c, e);
      StepAnswers(c, e);
      OwnRepliesStep(c, ts);
      if ReplyIn(e).Some? && owner.Some? {
        GapIff(Written(c.sent), |c.futures|, n);
        AtLeastItsIndex(Written(c.sent), |c.futures|, n);
        OwnRepliesRunIff(d, ts[1..], n + 1);
      } else if ReplyIn(e).None? || c.waiters == [] {
        OwnRepliesRunIff(d, ts[1..], n);
      }
    }
  }

  lemma {:induction false} TakersAnswer(c: Conn, ts: seq<Tagged>)
    ensures |Run(c, Events(ts)).answers| == |c.answers| + |Takers(c, ts)|
    decreases |ts|
  {
    if ts != [] {
      StepAnswers(c, ts[0].e);
      TakersAnswer(Step(c, ts[0].e), ts[1..]);
      assert Events(ts)[1..] == Events(ts[1..]);
    }
  }

  /** Every future that a reply settles is settled by the reply to its own command if and
      only if, while a command waits, no error arrives that answers a FIN, a REQ or a TOUCH,
      and no reply to a command behind one that could not be encoded. */
  lemma OwnRepliesIff(maxRdy: int, ts: seq<Tagged>)
    requires AnsweredInOrder(NewConn(maxRdy), ts, 0)
    ensures var owners := Takers(NewConn(maxRdy), ts);
            && |owners| == |Run(NewConn(maxRdy), Events(ts)).answers|
            && ((forall k :: 0 <= k < |owners| ==> owners[k] == Some(k)) <==> Undisturbed(NewConn(maxRdy), ts))
  {
    NewKeeps(maxRdy);
    OwnRepliesRunIff(NewConn(maxRdy), ts, 0);
    TakersAnswer(NewConn(maxRdy), ts);
  }
}
