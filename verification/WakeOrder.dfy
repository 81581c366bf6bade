/** First come, first served: the commands of the distributor leave in the order in which they
    were asked for. */
module WakeOrder {
  import opened Prelude
  import opened SetSum
  import opened RdyWakes

  datatype Op = Signal(id: ConnId) | Ask | Take | Shutdown

  /** One call from outside, or one turn of the distributor, which a shutdown ends. */
  function Do(w: Wakes, op: Op): Wakes
  {
    match op
    case Signal(id) => Signalled(w, id)
    case Ask => Asked(w)
    case Take => if w.working && w.queue != [] then Taken(w) else w
    case Shutdown => Shut(w)
  }

  function After(w: Wakes, ops: seq<Op>): Wakes
    decreases |ops|
  {
    if ops == [] then w else After(Do(w, ops[0]), ops[1..])
  }

  /** What a call asks for, unless the same is queued already. */
  function Accepted(w: Wakes, op: Op): seq<Cmd>
  {
    match op
    case Signal(id) => if w.working && ChangeConnRdy(id) !in w.queue then [ChangeConnRdy(id)] else []
    case Ask => if w.working && Redistribute !in w.queue then [Redistribute] else []
    case _ => []
  }

  function AllAccepted(w: Wakes, ops: seq<Op>): seq<Cmd>
    decreases |ops|
  {
    if ops == [] then [] else Accepted(w, ops[0]) + AllAccepted(Do(w, ops[0]), ops[1..])
  }

  /** What the distributor takes. */
  function TakenBy(w: Wakes, op: Op): seq<Cmd>
  {
    if op.Take? && w.working && w.queue != [] then [w.queue[0]] else []
  }

  function AllTaken(w: Wakes, ops: seq<Op>): seq<Cmd>
    decreases |ops|
  {
    if ops == [] then [] else TakenBy(w, ops[0]) + AllTaken(Do(w, ops[0]), ops[1..])
  }

  lemma DoMovesTheQueue(w: Wakes, op: Op)
    requires w.working ==> Coalesced(w)
    ensures Do(w, op).working ==> w.working && Coalesced(Do(w, op))
    ensures TakenBy(w, op) + Do(w, op).queue == w.queue + Accepted(w, op)
  {
    match op
    case Signal(id) => if w.working { SignalsKeepCoalesced(w, id); }
    case Ask => if w.working { SignalsKeepCoalesced(w, 0); }
    case Take => if w.working && w.queue != [] { TakingKeepsCoalesced(w); }
    case Shutdown =>
  }

  /** Over every sequence of calls, the commands taken and those still queued are those that were
      accepted, in order: what was asked for before the shutdown and was not queued already. */
  lemma {:induction false} CommandsLeaveInOrder(w: Wakes, ops: seq<Op>)
    requires w.working ==> Coalesced(w)
    ensures AllTaken(w, ops) + After(w, ops).queue == w.queue + AllAccepted(w, ops)
    decreases |ops|
  {
    if ops != [] {
      var d := Do(w, ops[0]);
      DoMovesTheQueue(w, ops[0]);
      CommandsLeaveInOrder(d, ops[1..]);
      AppendAssociates(TakenBy(w, ops[0]), AllTaken(d, ops[1..]), After(d, ops[1..]).queue);
      AppendAssociates(TakenBy(w, ops[0]), d.queue, AllAccepted(d, ops[1..]));
      AppendAssociates(w.queue, Accepted(w, ops[0]), AllAccepted(d, ops[1..]));
    }
  }
}
