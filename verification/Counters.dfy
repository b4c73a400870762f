/** The activity counters behind ThreadPoolXMLRPCServer.stats() (server.py, _StatsTracker),
    with each lock-protected method as one atomic update. StatsLock justifies that atomicity. */
module Counters {

  /** The seven private fields of _StatsTracker. */
  datatype Counters = Counters(
    submitted: int,
    active: int,
    rejectedClose: int,
    rejectedFault: int,
    rejected503: int,
    completed: int,
    errored: int
  )

  const ZERO := Counters(0, 0, 0, 0, 0, 0, 0)

  datatype Event =
    | Submission
    | Start
    | Completion
    | Failure
    | CloseRejection
    | FaultRejection
    | UnavailableRejection

  function Record(c: Counters, e: Event): Counters {
    match e
    case Submission => c.(submitted := c.submitted + 1)
    case Start => c.(submitted := c.submitted - 1, active := c.active + 1)
    case Completion => c.(active := c.active - 1, completed := c.completed + 1)
    case Failure => c.(active := c.active - 1, errored := c.errored + 1)
    case CloseRejection => c.(rejectedClose := c.rejectedClose + 1)
    case FaultRejection => c.(rejectedFault := c.rejectedFault + 1)
    case UnavailableRejection => c.(rejected503 := c.rejected503 + 1)
  }

  /** The public, immutable snapshot. */
  datatype ServerStats = ServerStats(
    active: int,
    queued: int,
    rejectedClose: int,
    rejectedFault: int,
    rejected503: int,
    completed: int,
    errored: int
  )

  function Publish(c: Counters): ServerStats {
    ServerStats(c.active, c.submitted, c.rejectedClose, c.rejectedFault, c.rejected503, c.completed, c.errored)
  }

  /** Cumulative counters never shrink. */
  predicate NotBefore(a: ServerStats, b: ServerStats) {
    && a.rejectedClose <= b.rejectedClose
    && a.rejectedFault <= b.rejectedFault
    && a.rejected503 <= b.rejected503
    && a.completed <= b.completed
    && a.errored <= b.errored
  }
}
