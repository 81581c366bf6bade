/** Runs of a connection, from its creation, that show each condition of the laws to be
    needed. */
module Counterexamples {
  import opened Prelude
  import opened Frames
  import opened Commands
  import opened ConnectionState
  import opened ConnectionLaws
  import opened Shutdown

  lemma OneStep(c: Conn, e: Event)
    ensures Run(c, [e]) == Step(c, e)
  {
    assert Run(Step(c, e), [e][1..]) == Step(c, e);
  }

  lemma TwoSteps(c: Conn, e: Event, f: Event)
    ensures Run(c, [e, f]) == Step(Step(c, e), f)
  {
    OneStep(Step(c, e), f);
    assert [e, f][1..] == [f];
  }

  function Delivery(id: bytes): Event
  {
    Recv(Message(0, 1, id, []))
  }

  lemma PubExpectsReply(args: seq<bytes>, data: Data)
    ensures ExpectsReply(Command(PUB, args, data))
  {
    assert Upper(PUB) == PUB;
    assert Strip(PUB) == PUB;
  }

  // ---------- Replies ----------

  /** A connection on which one PUB, numbered 0, waits for its reply. */
  predicate WaitsForOne(c: Conn)
  {
    !IsClosed(c) && c.waiters == [0] && c.futures == [Pending] && Written(c.sent) == [0]
  }

  lemma AfterPub(cmd: Command)
    requires cmd == Command(PUB, [[]], Single([]))
    ensures WaitsForOne(Step(NewConn(2500), Execute(cmd)))
  {
    PubExpectsReply(cmd.args, cmd.data);
    EncodableIff(cmd);
    ExecuteWrites(NewConn(2500), cmd);
  }

  lemma AfterDeliveryAndFin(c: Conn, id: bytes)
    requires WaitsForOne(c) && c.msgs == []
    ensures var d := Step(Step(c, Delivery(id)), Fin(0));
            WaitsForOne(d) && d.msgs == [Msg(id, true)]
  {
    var m := Step(c, Delivery(id));
    SilentDispatch(c, Delivery(id).f);
    assert m.msgs == [Msg(id, false)];
    WrittenAppend(m.sent, Finish(0));
  }

  lemma AfterRefusal(c: Conn, code: bytes, msg: bytes)
    requires WaitsForOne(c)
    ensures var d := Step(c, Recv(Error(code, msg)));
            d.waiters == [] && d.futures == [Failed(ServerError(code, msg))]
  {
  }

  /** A PUB waits while nsqd refuses a FIN. The refusal settles the PUB, and the reply to the
      PUB, whatever it is, settles nothing. */
  lemma RefusedFinFailsAPub(id: bytes, code: bytes, msg: bytes, reply: bytes, cmd: Command)
    requires cmd == Command(PUB, [[]], Single([]))
    ensures var c := Run(NewConn(2500), [Execute(cmd), Delivery(id), Fin(0)]);
            var d := Run(c, [Recv(Error(code, msg)), Recv(Response(reply))]);
            && WaitsForOne(c) && c.msgs == [Msg(id, true)]
            && d.futures == [Failed(ServerError(code, msg))]
  {
    var c1 := Step(NewConn(2500), Execute(cmd));
    AfterPub(cmd);
    AfterDeliveryAndFin(c1, id);
    TwoSteps(c1, Delivery(id), Fin(0));
    var es := [Execute(cmd), Delivery(id), Fin(0)];
    assert es[1..] == [Delivery(id), Fin(0)];
    var c := Run(NewConn(2500), es);
    AfterRefusal(c, code, msg);
    TwoSteps(c, Recv(Error(code, msg)), Recv(Response(reply)));
  }

  /** A body that is too long to encode. */
  function TooLong(): bytes
  {
    seq(0x8000_0000, _ => 0)
  }

  lemma UnencodableLeavesAWaiter(cmd: Command)
    requires cmd == Command(PUB, [[]], Single(TooLong()))
    ensures !Aligned(Run(NewConn(2500), [Execute(cmd)]))
  {
    PubExpectsReply(cmd.args, cmd.data);
    EncodableIff(cmd);
    FuturesMatchWrittenCommandsIff(2500, [Execute(cmd)]);
  }

  // ---------- In flight ----------

  /** One message in flight, and a FIN that bypasses its object: the counter is 0. */
  lemma RawFinMiscounts(id: bytes)
    ensures var c := Run(NewConn(2500), [Delivery(id)]);
            var d := AfterWrite(c, Finish(0));
            d.credit.inFlight == 0 && Live(d.msgs) == 1
  {
    OneStep(NewConn(2500), Delivery(id));
    LiveAppend([], Msg(id, false));
    assert [] + [Msg(id, false)] == [Msg(id, false)];
  }

  // ---------- Shutdown ----------

  /** Two objects of one id, of which the ledger holds the second. */
  predicate Twins(c: Conn, id: bytes)
  {
    c.msgs == [Msg(id, false), Msg(id, false)] && c.ledger == [(id, 1)] && !IsClosed(c)
  }

  lemma FirstOfTwo(id: bytes)
    ensures var c := Step(NewConn(2500), Delivery(id));
            c.msgs == [Msg(id, false)] && c.ledger == [(id, 0)] && !IsClosed(c)
  {
  }

  lemma SecondOfTwo(c: Conn, id: bytes)
    requires c.msgs == [Msg(id, false)] && c.ledger == [(id, 0)] && !IsClosed(c)
    ensures Twins(Step(c, Delivery(id)), id)
  {
    assert c.ledger[1..] == [];
  }

  lemma DeliveredTwice(id: bytes, c: Conn)
    requires c == Run(NewConn(2500), [Delivery(id), Delivery(id)])
    ensures Twins(c, id) && ConnInv(c)
  {
    TwoSteps(NewConn(2500), Delivery(id), Delivery(id));
    FirstOfTwo(id);
    SecondOfTwo(Step(NewConn(2500), Delivery(id)), id);
    NewKeeps(2500);
    RunKeeps(NewConn(2500), [Delivery(id), Delivery(id)]);
  }

  lemma TwinsAreReached(s: Consumer, id: bytes, c: Conn)
    requires s == Consumer(map[1 := c], []) && Twins(c, id) && ConnInv(c)
    ensures Shutdown.Valid(s) && AllOpen(s)
    ensures !Reached(s, Entry(1, 0)) && Reached(s, Entry(1, 1))
  {
    assert c.ledger[0] == (id, 1);
    assert (id, 0) !in c.ledger && (id, 1) in c.ledger;
  }

  /** nsqd delivers an id twice, and user code takes both objects from the queue: shutdown
      requeues the second object only. */
  lemma RedeliveryLosesAMessage(id: bytes, timeout: int, s: Consumer, c: Conn)
    requires c == Run(NewConn(2500), [Delivery(id), Delivery(id)]) && s == Consumer(map[1 := c], [])
    ensures Shutdown.Valid(s)
    ensures var t := ShutDown(s, true, timeout).state;
            && Exists(t, Entry(1, 0)) && !Processed(t, Entry(1, 0))
            && Exists(t, Entry(1, 1)) && Processed(t, Entry(1, 1))
  {
    DeliveredTwice(id, c);
    TwinsAreReached(s, id, c);
    ShutDownEffect(s, timeout, Entry(1, 0));
    ShutDownEffect(s, timeout, Entry(1, 1));
  }

  lemma DeliveredAndClosed(id: bytes)
    ensures var c := Run(NewConn(2500), [Delivery(id), Close]);
            c.msgs == [Msg(id, false)] && IsClosed(c)
  {
    TwoSteps(NewConn(2500), Delivery(id), Close);
  }

  /** A message is queued when its connection is closed: shutdown raises. */
  lemma QueuedOnAClosedConnectionRaises(id: bytes, timeout: int, s: Consumer)
    requires s == Consumer(map[1 := Run(NewConn(2500), [Delivery(id), Close])], [Entry(1, 0)])
    ensures QueueValid(s) && ShutDown(s, true, timeout).raised
  {
    DeliveredAndClosed(id);
    QueuedRaisesIff(s, timeout);
    assert Entry(1, 0) in s.queue && Stuck(s, Entry(1, 0));
  }
}
