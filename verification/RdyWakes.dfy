/** How `RdyControl` coalesces wake-ups: a command queue, the set of connection ids with a
    queued command, and a flag for a queued redistribution (asyncnsq/tcp/reader_rdy.py). */
module RdyWakes {
  import opened SetSum

  datatype Cmd = Redistribute | ChangeConnRdy(id: ConnId)

  datatype Wakes = Wakes(working: bool, queue: seq<Cmd>, pending: set<ConnId>, redistributePending: bool)

  const NO_WAKES := Wakes(true, [], {}, false)

  /** `rdy_changed`. */
  function Signalled(w: Wakes, id: ConnId): Wakes
  {
    if !w.working || id in w.pending then w
    else w.(pending := w.pending + {id}, queue := w.queue + [ChangeConnRdy(id)])
  }

  /** `redistribute`. */
  function Asked(w: Wakes): Wakes
  {
    if !w.working || w.redistributePending then w
    else w.(redistributePending := true, queue := w.queue + [Redistribute])
  }

  /** The distributor takes the next command and clears its mark. */
  function Taken(w: Wakes): Wakes
    requires w.queue != []
  {
    var rest := w.(queue := w.queue[1..]);
    match w.queue[0]
    case Redistribute => rest.(redistributePending := false)
    case ChangeConnRdy(id) => rest.(pending := w.pending - {id})
  }

  /** `close`. */
  function Shut(w: Wakes): Wakes
  {
    w.(working := false, pending := {}, redistributePending := false)
  }

  /** What `remove_connection` does here. */
  function Forgotten(w: Wakes, id: ConnId): Wakes
  {
    w.(pending := w.pending - {id})
  }

  /** The marks are exactly the queued commands, and no command is queued twice. */
  ghost predicate Coalesced(w: Wakes)
  {
    && (forall id :: id in w.pending <==> ChangeConnRdy(id) in w.queue)
    && (w.redistributePending <==> Redistribute in w.queue)
    && (forall i, j :: 0 <= i < j < |w.queue| ==> w.queue[i] != w.queue[j])
  }

  lemma SignalsKeepCoalesced(w: Wakes, id: ConnId)
    requires Coalesced(w)
    ensures Coalesced(Signalled(w, id)) && Coalesced(Asked(w))
  {
  }

  lemma TakingKeepsCoalesced(w: Wakes)
    requires Coalesced(w) && w.queue != []
    ensures Coalesced(Taken(w))
  {
    assert w.queue == [w.queue[0]] + w.queue[1..];
    assert w.queue[0] !in w.queue[1..];
  }

  /** The queue is never longer than the number of marked ids and one redistribution. */
  lemma {:induction false} QueueBound(w: Wakes)
    requires Coalesced(w)
    ensures |w.queue| == |w.pending| + (if w.redistributePending then 1 else 0)
    decreases |w.queue|
  {
    if w.queue == [] {
      assert forall id :: id in w.pending ==> ChangeConnRdy(id) in w.queue;
      assert forall id :: id !in w.pending;
      assert w.pending == {};
    } else {
      TakingKeepsCoalesced(w);
      QueueBound(Taken(w));
      assert w.queue[0] in w.queue;
    }
  }

  /** Removing a connection keeps the marks exact if and only if none is set for its id.
      Otherwise the next signal for that id queues a second command for it. */
  lemma RemovalBreaksCoalescing(w: Wakes, id: ConnId)
    requires Coalesced(w) && w.working
    ensures Coalesced(Forgotten(w, id)) <==> id !in w.pending
    ensures id in w.pending ==>
            exists i, j :: 0 <= i < j < |w.queue| + 1 &&
              Signalled(Forgotten(w, id), id).queue[i] == ChangeConnRdy(id) == Signalled(Forgotten(w, id), id).queue[j]
  {
    if id in w.pending {
      var i :| 0 <= i < |w.queue| && w.queue[i] == ChangeConnRdy(id);
      var q := Signalled(Forgotten(w, id), id).queue;
      assert q[i] == ChangeConnRdy(id) == q[|w.queue|];
    } else {
      assert Forgotten(w, id) == w;
    }
  }

  /** The condition is needed: a connection signals and is removed before it is served. */
  lemma SignalThenRemove(id: ConnId)
    ensures var w := Signalled(NO_WAKES, id);
            Coalesced(w) && !Coalesced(Forgotten(w, id)) && |Signalled(Forgotten(w, id), id).queue| == 2
  {
    SignalsKeepCoalesced(NO_WAKES, id);
    RemovalBreaksCoalescing(Signalled(NO_WAKES, id), id);
  }

  /** The queue half of `RdyControl`: connections signal it, the distributor drains it. */
  class WakeQueue {
    var working: bool
    var queue: seq<Cmd>
    var pending: set<ConnId>
    var redistributePending: bool

    function Abs(): Wakes
      reads this
    {
      Wakes(working, queue, pending, redistributePending)
    }

    constructor ()
      ensures Abs() == NO_WAKES
    {
      working, queue, pending, redistributePending := true, [], {}, false;
    }

    method RdyChanged(id: ConnId)
      modifies `queue, `pending
      ensures Abs() == Signalled(old(Abs()), id)
    {
      if !working || id in pending {
        return;
      }
      pending := pending + {id};
      queue := queue + [ChangeConnRdy(id)];
    }

    method Redistribute()
      modifies this
      ensures Abs() == Asked(old(Abs()))
    {
      if !working || redistributePending {
        return;
      }
      redistributePending := true;
      queue := queue + [Cmd.Redistribute];
    }

    method Get() returns (cmd: Cmd)
      requires queue != []
      modifies this
      ensures cmd == old(queue[0]) && Abs() == Taken(old(Abs()))
    {
      cmd := queue[0];
      queue := queue[1..];
      match cmd
      case Redistribute => redistributePending := false;
      case ChangeConnRdy(id) => pending := pending - {id};
    }

    method Close()
      modifies this
      ensures Abs() == Shut(old(Abs())) && queue == old(queue)
      ensures !working && pending == {} && !redistributePending
    {
      working, pending, redistributePending := false, {}, false;
    }
  }
}
