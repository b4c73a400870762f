/** The counters object of the server (server.py, _StatsTracker). Each method is the body of its
    `with self._lock` block; StatsLock shows that other threads cannot see inside it. */
module Tracker {
  import opened Counters

  class StatsTracker {
    var submitted: int
    var active: int
    var rejectedClose: int
    var rejectedFault: int
    var rejected503: int
    var completed: int
    var errored: int

    function Value(): Counters
      reads this
    {
      Counters(submitted, active, rejectedClose, rejectedFault, rejected503, completed, errored)
    }

    constructor ()
      ensures Value() == ZERO
    {
      submitted, active := 0, 0;
      rejectedClose, rejectedFault, rejected503 := 0, 0, 0;
      completed, errored := 0, 0;
    }

    method RecordSubmitted()
      modifies `submitted
      ensures submitted == old(submitted) + 1
      ensures Value() == Record(old(Value()), Submission)
    {
      submitted := submitted + 1;
    }

    method RecordStarted()
      modifies `submitted, `active
      ensures submitted == old(submitted) - 1 && active == old(active) + 1
      ensures Value() == Record(old(Value()), Start)
    {
      submitted := submitted - 1;
      active := active + 1;
    }

    method RecordCompleted()
      modifies `active, `completed
      ensures active == old(active) - 1 && completed == old(completed) + 1
      ensures Value() == Record(old(Value()), Completion)
    {
      active := active - 1;
      completed := completed + 1;
    }

    method RecordErrored()
      modifies `active, `errored
      ensures active == old(active) - 1 && errored == old(errored) + 1
      ensures Value() == Record(old(Value()), Failure)
    {
      active := active - 1;
      errored := errored + 1;
    }

    method RecordRejectedClose()
      modifies `rejectedClose
      ensures rejectedClose == old(rejectedClose) + 1
      ensures Value() == Record(old(Value()), CloseRejection)
    {
      rejectedClose := rejectedClose + 1;
    }

    method RecordRejectedFault()
      modifies `rejectedFault
      ensures rejectedFault == old(rejectedFault) + 1
      ensures Value() == Record(old(Value()), FaultRejection)
    {
      rejectedFault := rejectedFault + 1;
    }

    method RecordRejected503()
      modifies `rejected503
      ensures rejected503 == old(rejected503) + 1
      ensures Value() == Record(old(Value()), UnavailableRejection)
    {
      rejected503 := rejected503 + 1;
    }

    method Snapshot() returns (s: ServerStats)
      ensures s.queued == submitted && s.active == active && s.completed == completed && s.errored == errored
      ensures s.rejectedClose == rejectedClose && s.rejectedFault == rejectedFault && s.rejected503 == rejected503
      ensures s == Publish(Value())
    {
      s := ServerStats(active, submitted, rejectedClose, rejectedFault, rejected503, completed, errored);
    }
  }
}
