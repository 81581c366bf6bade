/** What the objects of a consumer do, message by message and connection by connection, is
    what `ClientSystem` says of the whole client, the signals to the scheduler included. */
module ClientObjects {
  import opened Prelude
  import opened SetSum
  import opened Frames
  import opened ConnectionState
  import opened ReadLoop
  import opened Connection
  import opened Consumer
  import OrderedDict
  import Shutdown
  import Client = ClientSystem

  /** A step of one connection is the client's step, with the signal that goes with it. */
  lemma StepOfClient(y: Client.Client, id: ConnId, e: Event, d: Conn, settled: bool)
    requires id in y.conns && d == Step(y.conns[id], e)
    requires settled <==> Client.Settles(y.conns[id], e) > 0
    requires settled ==> !IsClosed(d)
    ensures Client.Step(y, Client.OnConn(id, e)) ==
            y.(conns := y.conns[id := d], wakes := NotifiedIf(settled, y.wakes, id, true, d))
  {
  }

  lemma SameConns(r: Reader)
    requires r.Scheduled()
    ensures r.control.Conns() == r.Abs().conns
  {
  }

  /** User code finishes a message. */
  method Finish(r: Reader, m: NsqMessage) returns (answer: CallResult)
    requires r.Valid() && r.Known(m)
    modifies m, m.conn, m.conn.tracker, r.control.wake`queue, r.control.wake`pending
    ensures r.Valid()
    ensures r.control.AsClient() == Client.Step(old(r.control.AsClient()), Client.OnConn(m.conn.id, Fin(m.handle)))
  {
    ghost var y := r.control.AsClient();
    SameConns(r);
    answer := r.FinishMessage(m);
    SameConns(r);
    StepOfClient(y, m.conn.id, Fin(m.handle), r.Abs().conns[m.conn.id], answer == Ok);
  }

  /** A message is requeued. */
  method Requeue(r: Reader, m: NsqMessage, timeout: int) returns (answer: CallResult)
    requires r.Valid() && r.Known(m)
    modifies m, m.conn, m.conn.tracker, r.control.wake`queue, r.control.wake`pending
    ensures r.Valid()
    ensures r.control.AsClient() ==
            Client.Step(old(r.control.AsClient()), Client.OnConn(m.conn.id, Req(m.handle, timeout)))
  {
    ghost var y := r.control.AsClient();
    SameConns(r);
    answer := r.RequeueMessage(m, timeout);
    SameConns(r);
    StepOfClient(y, m.conn.id, Req(m.handle, timeout), r.Abs().conns[m.conn.id], answer == Ok);
  }

  ghost function HandlerEvent(r: Reader, m: NsqMessage, failed: bool): Event
    reads r
  {
    Handled(m.handle, failed, r.handlerAutoFin, r.handlerAutoRequeue)
  }

  /** A handler is done with a message. */
  method Handle(r: Reader, m: NsqMessage, failed: bool)
    requires r.Valid() && r.Known(m)
    modifies m, m.conn, m.conn.tracker, r.control.wake`queue, r.control.wake`pending
    ensures r.Valid()
    ensures r.control.AsClient() ==
            Client.Step(old(r.control.AsClient()), Client.OnConn(m.conn.id, old(HandlerEvent(r, m, failed))))
  {
    ghost var y, e := r.control.AsClient(), HandlerEvent(r, m, failed);
    ghost var settled := Client.Settles(m.conn.Abs(), e) > 0;
    SameConns(r);
    r.Handle(m, failed);
    SameConns(r);
    StepOfClient(y, m.conn.id, e, r.Abs().conns[m.conn.id], settled);
  }

  /** RDY 0 on one connection. */
  method StopReceiving(r: Reader, id: ConnId)
    requires r.Valid() && id in r.connections
    modifies r.connections.Values, r.control.wake`queue, r.control.wake`pending
    ensures r.Valid()
    ensures r.control.AsClient() == Client.Step(old(r.control.AsClient()), Client.OnConn(id, SetReady(0)))
  {
    ghost var y := r.control.AsClient();
    SameConns(r);
    r.StopOne(id);
    SameConns(r);
    StepOfClient(y, id, SetReady(0), r.Abs().conns[id], false);
  }

  lemma RequeueKeepsOpen(c: Conn, timeout: int)
    ensures IsClosed(RequeueLedger(c, timeout).0) <==> IsClosed(c)
  {
    if HandlesValid(c) {
      RequeueKeepsFutures(c, OrderedDict.Values(c.ledger), timeout);
    }
  }

  lemma RequeueOfClient(y: Client.Client, id: ConnId, timeout: int, d: Conn, n: nat)
    requires id in y.conns && (d, n) == Shutdown.RequeueTracked(y.conns[id], timeout)
    ensures Client.Step(y, Client.OnConn(id, Event.RequeueInFlight(timeout))) ==
            y.(conns := y.conns[id := d], wakes := NotifiedIf(n > 0, y.wakes, id, true, d))
  {
    RequeueKeepsOpen(y.conns[id], timeout);
    StepOfClient(y, id, Event.RequeueInFlight(timeout), d, n > 0);
  }

  /** The tracked messages of one connection are requeued. */
  method RequeueInFlight(r: Reader, id: ConnId, timeout: int) returns (requeued: nat)
    requires r.Valid() && id in r.connections
    modifies r.connections[id], r.MessagesOf(id), r.connections[id].tracker
    modifies r.control.wake`queue, r.control.wake`pending
    ensures r.Valid()
    ensures r.control.AsClient() ==
            Client.Step(old(r.control.AsClient()), Client.OnConn(id, Event.RequeueInFlight(timeout)))
  {
    ghost var y := r.control.AsClient();
    SameConns(r);
    requeued := r.RequeueOne(id, timeout);
    SameConns(r);
    RequeueOfClient(y, id, timeout, r.Abs().conns[id], requeued);
  }

  /** One connection is closed. */
  method Close(r: Reader, id: ConnId)
    requires r.Valid() && id in r.connections
    modifies r.connections[id], r.connections[id].tracker
    ensures r.Valid()
    ensures r.control.AsClient() == Client.Step(old(r.control.AsClient()), Client.OnConn(id, Event.Close))
  {
    ghost var y := r.control.AsClient();
    SameConns(r);
    r.CloseOne(id);
    SameConns(r);
    StepOfClient(y, id, Event.Close, r.Abs().conns[id], false);
  }

  /** The frames of a chunk, as events of a connection, and the error that ended it. */
  ghost function Receipts(id: ConnId, fs: seq<Frame>, error: Option<ProtocolError>): seq<Client.Action>
  {
    if fs != [] then [Client.OnConn(id, Recv(fs[0]))] + Receipts(id, fs[1..], error)
    else
      match error
      case None => []
      case Some(e) => [Client.OnConn(id, RecvBad(e))]
  }

  /** Draining is a run of events, none of which signals. */
  lemma {:induction false} ReceiptsRun(y: Client.Client, id: ConnId, fs: seq<Frame>, error: Option<ProtocolError>)
    requires id in y.conns
    ensures Client.Run(y, Receipts(id, fs, error)) ==
            y.(conns := y.conns[id := AfterError(Fold(Dispatch, y.conns[id], fs), error)])
    decreases |fs|
  {
    if fs != [] {
      var z := y.(conns := y.conns[id := Dispatch(y.conns[id], fs[0])]);
      assert Client.Step(y, Client.OnConn(id, Recv(fs[0]))) == z;
      ReceiptsRun(z, id, fs[1..], error);
      var d := AfterError(Fold(Dispatch, z.conns[id], fs[1..]), error);
      assert z.conns[id := d] == y.conns[id := d];
    } else {
      match error
      case None => assert y.conns[id := y.conns[id]] == y.conns;
      case Some(e) =>
        var z := Client.Step(y, Client.OnConn(id, RecvBad(e)));
        assert Client.Run(z, [Client.OnConn(id, RecvBad(e))][1..]) == z;
    }
  }

  /** A chunk arrives on one connection. */
  method Read(r: Reader, id: ConnId, data: bytes)
    requires r.Valid() && id in r.connections
    requires forall x :: x in r.connections && x != id ==> r.connections[x].parser != r.connections[id].parser
    modifies r.connections[id], r.connections[id].tracker, r.connections[id].parser, r.queue
    ensures r.Valid()
    ensures var p := Parse(old(r.connections[id].parser.View()) + data);
            r.control.AsClient() == Client.Run(old(r.control.AsClient()), Receipts(id, p.frames, p.error))
  {
    ghost var y, v := r.control.AsClient(), r.connections[id].parser.View();
    SameConns(r);
    r.Read(id, data);
    SameConns(r);
    ReceiptsRun(y, id, Parse(v + data).frames, Parse(v + data).error);
  }
}
