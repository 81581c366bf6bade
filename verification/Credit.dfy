/** The flow-control fields of a connection: the part of `TcpConnection` that the RDY
    scheduler reads and writes. */
module Credit {
  import opened Prelude

  datatype Credit = Credit(
    inFlight: int,  // received and not yet finished or requeued
    rdyCount: int,  // credit left at nsqd, as the client counts it
    target: int,    // what the scheduler last allowed
    lowWater: int,  // where a refill becomes due
    maxRdy: int)    // nsqd's limit on one RDY

  const DEFAULT_MAX_RDY_COUNT := 2500

  /** A connection as `__init__` leaves it. */
  function NewCredit(maxRdy: int): Credit
  {
    Credit(0, 0, 0, 1, maxRdy)
  }

  function Allocated(c: Credit): int
  {
    c.rdyCount + c.inFlight
  }

  /** A message frame arrived. */
  function Delivered(c: Credit): Credit
  {
    c.(inFlight := c.inFlight + 1, rdyCount := Max(0, c.rdyCount - 1))
  }

  /** A FIN or a REQ was written. */
  function Settled(c: Credit): Credit
  {
    c.(inFlight := Max(0, c.inFlight - 1))
  }

  /** The guard of `_notify_rdy_changed`. */
  predicate RefillDue(c: Credit)
  {
    c.target <= 0 || Allocated(c) <= c.lowWater
  }

  function LowWater(target: int): int
  {
    Max(1, target / 4)
  }

  /** The credit that `_set_conn_rdy` asks for. */
  function RdyFor(c: Credit, target: int): int
  {
    Min(Max(0, target - c.inFlight), c.maxRdy)
  }

  /** The count of an RDY command, as `_execute_no_response` records it. */
  function WithRdy(c: Credit, n: int): Credit
  {
    c.(rdyCount := Max(0, n))
  }

  /** `_set_conn_rdy` on an open connection. */
  function Retargeted(c: Credit, target: int): Credit
  {
    var aimed := c.(target := target, lowWater := if target > 0 then LowWater(target) else 0);
    if c.rdyCount == RdyFor(c, target) then aimed else WithRdy(aimed, RdyFor(c, target))
  }

  /** `_update_rdy` on an open connection. */
  function Updated(c: Credit, target: int): Credit
  {
    if target <= 0 then Retargeted(c, 0)
    else if Allocated(c) <= LowWater(target) then Retargeted(c, target)
    else c
  }
}
