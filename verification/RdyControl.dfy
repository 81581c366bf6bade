/** `RdyControl` of asyncnsq/tcp/reader_rdy.py over its connection objects. Every method is
    proved against the state machine of `RdyScheduler`. */
module RdyControl {
  import opened Prelude
  import opened SetSum
  import opened RdyWakes
  import opened RdyScheduler
  import opened ConnectionState
  import opened Connection
  import Client = ClientSystem

  ghost function WithConn(y: Client.Client, id: ConnId, c: Conn): Client.Client
  {
    y.(conns := y.conns[id := c])
  }

  class RdyControl {
    const maxInFlight: int
    const wake: WakeQueue
    var connections: map<ConnId, TcpConnection>
    /** The `_set_conn_rdy` calls that a redistribution has gathered and awaits. */
    var jobs: seq<Job>

    ghost predicate Valid()
      reads this, connections.Values
    {
      forall id :: id in connections ==> connections[id].id == id && connections[id].wake == wake
    }

    ghost function NodeOf(conn: TcpConnection): Node
      reads conn
    {
      Node(conn.CreditNow(), conn.IsClosed())
    }

    ghost function Abs(): Sched
      reads this, connections.Values, wake
    {
      Sched(maxInFlight, map id | id in connections :: NodeOf(connections[id]), wake.Abs(), jobs)
    }

    ghost function Conns(): map<ConnId, Conn>
      reads *
    {
      map id | id in connections :: connections[id].Abs()
    }

    /** The connections and the scheduler, as one client. */
    ghost function AsClient(): Client.Client
      reads *
    {
      Client.Client(Conns(), maxInFlight, wake.Abs(), jobs)
    }

    /** What the scheduler sees of that client is what it has. */
    lemma ViewIsAbs()
      ensures Client.View(AsClient()) == Abs()
    {
      forall id | id in connections
        ensures Client.View(AsClient()).nodes[id] == Abs().nodes[id]
      {
        assert Conns()[id] == connections[id].Abs();
      }
      assert Client.View(AsClient()).nodes == Abs().nodes;
    }

    constructor (maxInFlight: int, wake: WakeQueue)
      ensures Valid() && this.wake == wake && this.maxInFlight == maxInFlight
      ensures connections == map[] && jobs == []
    {
      this.maxInFlight, this.wake := maxInFlight, wake;
      connections, jobs := map[], [];
    }

    /** `_active_connections` of the abstract state are those of the objects. */
    lemma ActiveConnections()
      ensures forall id :: IsOpen(Abs(), id) <==> id in connections && !connections[id].IsClosed()
      ensures Active(Abs()) == set id | id in connections && !connections[id].IsClosed()
    {
      forall id
        ensures id in Active(Abs()) <==> id in connections && !connections[id].IsClosed()
      {
      }
    }

    /** `add_connection`. A known id is replaced; a gathered call for it would still mean the
        earlier object. */
    method AddConnection(conn: TcpConnection)
      requires Valid() && conn.wake == wake
      requires conn.id in connections ==> forall k :: 0 <= k < |jobs| ==> jobs[k].id != conn.id
      modifies this`connections, conn`managed
      ensures Valid() && conn.managed && connections == old(connections)[conn.id := conn]
      ensures conn.Abs() == old(conn.Abs())
      ensures AsClient() == Client.Step(old(AsClient()), Client.Join(conn.id, conn.Abs()))
    {
      ghost var y, c := AsClient(), conn.Abs();
      ViewIsAbs();
      assert Client.CanJoin(y, conn.id);
      Join(conn);
      assert Client.Step(y, Client.Join(conn.id, c)) == WithConn(y, conn.id, c);
    }

    method Join(conn: TcpConnection)
      requires Valid() && conn.wake == wake
      modifies this`connections, conn`managed
      ensures Valid() && conn.managed && connections == old(connections)[conn.id := conn]
      ensures conn.Abs() == old(conn.Abs()) && AsClient() == WithConn(old(AsClient()), conn.id, conn.Abs())
    {
      conn.managed := true;
      connections := connections[conn.id := conn];
      ConnJoined(conn);
    }

    twostate lemma ConnJoined(conn: TcpConnection)
      requires connections == old(connections)[conn.id := conn] && wake.Abs() == old(wake.Abs()) && jobs == old(jobs)
      requires forall x :: x in old(connections) && x != conn.id ==>
                 connections[x].Abs() == old(connections[x].Abs())
      ensures AsClient() == WithConn(old(AsClient()), conn.id, conn.Abs())
    {
      assert Conns() == old(Conns())[conn.id := conn.Abs()];
    }

    /** `_target_rdy_by_id`. */
    method TargetRdyById() returns (targets: map<ConnId, int>)
      requires Valid()
      ensures targets.Keys == if maxInFlight <= 0 then {} else Active(Abs())
      ensures forall id :: IsOpen(Abs(), id) ==> Fresh(Abs(), id) == if id in targets then targets[id] else 0
    {
      var caps := map id | id in connections && !connections[id].IsClosed() :: connections[id].maxRdyCount;
      ActiveConnections();
      targets := RdyShares.TargetRdyById(caps, maxInFlight);
    }

    /** `_set_conn_rdy`. */
    method SetConnRdy(conn: TcpConnection, target: int)
      modifies conn`rdyTarget, conn`rdyLowWater, conn`sent, conn`inFlight, conn`rdyCount, conn.wake
      ensures conn.Abs() == AfterRetarget(old(conn.Abs()), target) && conn.wake.Abs() == old(conn.wake.Abs())
    {
      if conn.IsClosed() {
        return;
      }
      conn.rdyTarget := target;
      conn.rdyLowWater := if target > 0 then Max(1, target / 4) else 0;
      var rdyCount := Min(Max(0, target - conn.inFlight), conn.maxRdyCount);
      if conn.rdyCount == rdyCount {
        return;
      }
      var r := conn.ExecuteNoResponse(Ready(rdyCount));
    }

    /** `_set_conn_rdy` on one of the connections leaves the others alone. */
    method SetOwnRdy(id: ConnId, target: int)
      requires Valid() && id in connections
      modifies connections.Values, wake
      ensures Valid() && connections == old(connections)
      ensures AsClient() == WithConn(old(AsClient()), id, AfterRetarget(old(AsClient()).conns[id], target))
    {
      SetConnRdy(connections[id], target);
      OneSet(id);
    }

    twostate lemma OneSet(id: ConnId)
      requires connections == old(connections) && id in connections
      requires forall x :: x in connections && x != id ==> connections[x].Abs() == old(connections[x].Abs())
      requires wake.Abs() == old(wake.Abs()) && jobs == old(jobs)
      ensures AsClient() == WithConn(old(AsClient()), id, connections[id].Abs())
    {
      assert Conns() == old(Conns())[id := connections[id].Abs()];
    }

    /** `_update_rdy`. */
    method UpdateRdy(id: ConnId)
      requires Valid()
      modifies connections.Values, wake
      ensures Valid() && connections == old(connections)
      ensures AsClient() == if IsOpen(old(Abs()), id)
                            then WithConn(old(AsClient()), id, Served(old(AsClient()).conns[id], Fresh(old(Abs()), id)))
                            else old(AsClient())
    {
      if id !in connections || connections[id].IsClosed() {
        return;
      }
      var target := TargetOf(id);
      Serve(id, target);
    }

    /** `_target_rdy_by_id().get(id, 0)`. */
    method TargetOf(id: ConnId) returns (target: int)
      requires Valid() && IsOpen(Abs(), id)
      ensures target == Fresh(old(Abs()), id)
    {
      ghost var s := Abs();
      var targets := TargetRdyById();
      assert Abs() == s;
      target := if id in targets then targets[id] else 0;
    }

    /** The part of `_update_rdy` that follows the target of an open connection. */
    method Serve(id: ConnId, target: int)
      requires Valid() && id in connections
      modifies connections.Values, wake
      ensures Valid() && connections == old(connections)
      ensures AsClient() == WithConn(old(AsClient()), id, Served(old(AsClient()).conns[id], target))
    {
      var conn := connections[id];
      if target <= 0 {
        SetOwnRdy(id, 0);
        return;
      }
      var held := conn.rdyCount + conn.inFlight;
      var lowWater := Max(1, target / 4);
      if held <= lowWater {
        SetOwnRdy(id, target);
      }
    }

    /** `_redistribute_rdy_state`, up to the `gather`: one job for each open connection. */
    method RedistributeRdyState()
      requires Valid()
      modifies this`jobs
      ensures Valid() && AsClient() == old(AsClient()).(jobs := Gathered(old(Abs())))
    {
      var gathered := GatherJobs();
      SetJobs(gathered);
    }

    method SetJobs(gathered: seq<Job>)
      requires Valid()
      modifies this`jobs
      ensures Valid() && AsClient() == old(AsClient()).(jobs := gathered)
    {
      jobs := gathered;
      assert Conns() == old(Conns());
    }

    method GatherJobs() returns (gathered: seq<Job>)
      requires Valid()
      ensures gathered == Gathered(old(Abs()))
    {
      ghost var s := Abs();
      var targets := TargetRdyById();
      assert Abs() == s;
      var ids := Sorted(set id | id in connections && !connections[id].IsClosed());
      ActiveConnections();
      JobsFromFresh(s, ids, targets);
      gathered := JobsFrom(ids, targets);
    }

    method TakeJob(k: nat) returns (job: Job)
      requires Valid() && k < |jobs|
      modifies this`jobs
      ensures Valid() && job == old(jobs[k])
      ensures AsClient() == old(AsClient()).(jobs := old(jobs[..k] + jobs[k + 1..]))
    {
      job := jobs[k];
      jobs := jobs[..k] + jobs[k + 1..];
    }

    /** One gathered `_set_conn_rdy`, whichever the event loop picks. */
    method RunGathered(k: nat)
      requires Valid() && k < |jobs|
      modifies this`jobs, connections.Values, wake
      ensures Valid() && connections == old(connections)
      ensures AsClient() == Client.Step(old(AsClient()), Client.RunJob(k)) && Abs() == AfterJob(old(Abs()), k)
    {
      ghost var y := AsClient();
      ViewIsAbs();
      Client.JobFollows(y, k);
      RunJob(k);
      ViewIsAbs();
    }

    method RunJob(k: nat)
      requires Valid() && k < |jobs|
      modifies this`jobs, connections.Values, wake
      ensures Valid() && connections == old(connections)
      ensures AsClient() == Client.Step(old(AsClient()), Client.RunJob(k))
    {
      var job := TakeJob(k);
      if job.id in connections {
        SetOwnRdy(job.id, job.target);
      }
    }

    /** The next command, and its mark. */
    method TakeCommand() returns (cmd: Cmd)
      requires Valid() && wake.working && wake.queue != []
      modifies wake
      ensures Valid() && cmd == old(wake.queue[0])
      ensures AsClient() == old(AsClient()).(wakes := Taken(old(AsClient()).wakes))
    {
      cmd := wake.Get();
    }

    /** One turn of `_distributor`. */
    method Distribute()
      requires Valid() && wake.working && wake.queue != [] && jobs == []
      modifies this`jobs, connections.Values, wake
      ensures Valid() && connections == old(connections)
      ensures AsClient() == Client.Step(old(AsClient()), Client.Take) && Abs() == AfterTake(old(Abs()))
    {
      ghost var y := AsClient();
      ViewIsAbs();
      Client.TakeFollows(y);
      TakenKeepsFresh(Abs());
      var cmd := TakeCommand();
      ViewIsAbs();
      match cmd {
        case Redistribute => RedistributeRdyState();
        case ChangeConnRdy(id) => UpdateRdy(id);
      }
      ViewIsAbs();
    }

    /** The signal of a connection: `subscribe` calls it for each of them. */
    method RdyChanged(id: ConnId)
      requires Valid() && id in connections
      modifies wake
      ensures Valid() && AsClient() == Client.Step(old(AsClient()), Client.Signal(id))
    {
      wake.RdyChanged(id);
    }

    /** `redistribute`. */
    method Redistribute()
      requires Valid()
      modifies wake
      ensures Valid() && AsClient() == Client.Step(old(AsClient()), Client.AskAll)
    {
      wake.Redistribute();
    }

    /** `close`: the distributor is cancelled, and with it what it has gathered. */
    method Close()
      requires Valid()
      modifies this`jobs, wake
      ensures Valid() && AsClient() == Client.Step(old(AsClient()), Client.Shutdown)
    {
      wake.Close();
      jobs := [];
      ConnsStay();
    }

    /** Only the scheduler's own fields have changed. */
    twostate lemma ConnsStay()
      requires connections == old(connections)
      requires forall x :: x in connections ==> connections[x].Abs() == old(connections[x].Abs())
      ensures Conns() == old(Conns())
    {
      forall x | x in connections
        ensures Conns()[x] == old(Conns())[x]
      {
      }
      assert Conns().Keys == old(Conns()).Keys;
    }
  }
}
