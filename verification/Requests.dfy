/** A request's two program counters, and weighted counts over all requests. */
module Requests {
  import opened Common

  // ----- Program counters -----

  /** Position of a process_request call. */
  datatype CallerPc =
    | Arrived          // on entry
    | Acquiring        // at the semaphore
    | Holding          // permit held, nothing recorded
    | Recorded         // record_submitted done, submit not yet called
    | SubmitRaised     // RuntimeError caught, permit still held
    | PermitBack       // permit released, connection not yet shut down
    | FailedSubmit     // RuntimeError raised again
    | FailedUnshut     // the connection's shutdown raised instead
    | Submitted        // returned; the request is the pool's
    | Denied           // the non-blocking acquire failed
    | DenialCounted    // rejection counted, response not yet sent
    | DenialSent       // connection not yet shut down
    | Rejected         // returned
    | RejectRaised     // left by an exception while rejecting
    | TimeoutRaised    // left by an exception of settimeout

  datatype Outcome = Completed | Errored | Abnormal

  /** Position of a request in the pool. */
  datatype WorkerPc =
    | Unqueued
    | Queued
    | PickedUp               // dequeued, record_started not yet done
    | Serving                // in finish_request
    | Served                 // finish_request returned
    | ServedShut             // connection shut down, record_completed not yet done
    | Failing                // in the except block, before handle_error
    | FailureLogged          // handle_error returned
    | FailureShut            // connection shut down, record_errored not yet done
    | Leaving(out: Outcome)  // in the finally block, permit still held
    | Lingering(out: Outcome) // permit released, worker thread not yet back in the pool
    | Retired(out: Outcome)

  /** `shuts` counts how often shutdown_request has returned for this connection. */
  datatype Request = Request(caller: CallerPc, worker: WorkerPc, shuts: nat)

  // ----- Counting requests -----

  /** What a request can be counted for. */
  datatype Tally =
    | HeldByCaller    // a permit in the hands of a process_request call
    | InQueue         // waiting in the work queue (with a permit)
    | HeldByWorker    // a permit in the hands of a worker
    | Overbooked      // queued although submit raised: one permit accounted for twice
    | Occupying       // using a worker thread
    | InTransit       // recorded as submitted, not yet recorded as started
    | FailedSubmits   // recorded as submitted, refused by the executor
    | Executing       // between record_started and record_completed or record_errored
    | AbnormalExits   // started and gone without either record
    | Completions
    | Failures
    | Rejections      // counted rejections
    | TimeoutErrors   // settimeout raised
    | Undecided       // caller before its submit, or before its rejection is counted
    | Work            // an upper bound on the steps still to come

  predicate SubmitFailed(pc: CallerPc) {
    pc.SubmitRaised? || pc.PermitBack? || pc.FailedSubmit? || pc.FailedUnshut?
  }

  function CallerWork(pc: CallerPc): nat {
    match pc
    case Arrived => 15
    case Acquiring => 14
    case Holding => 13
    case Recorded => 12
    case SubmitRaised => 2
    case PermitBack => 1
    case Denied => 3
    case DenialCounted => 2
    case DenialSent => 1
    case _ => 0
  }

  function WorkerWork(pc: WorkerPc): nat {
    match pc
    case Unqueued => 0
    case Queued => 9
    case PickedUp => 8
    case Serving => 7
    case Served => 6
    case Failing => 5
    case FailureLogged => 4
    case ServedShut => 3
    case FailureShut => 3
    case Leaving(_) => 2
    case Lingering(_) => 1
    case Retired(_) => 0
  }

  predicate InTask(pc: WorkerPc) {
    || pc.Serving? || pc.Served? || pc.ServedShut?
    || pc.Failing? || pc.FailureLogged? || pc.FailureShut?
  }

  predicate Over(pc: WorkerPc, o: Outcome) {
    (pc.Leaving? || pc.Lingering? || pc.Retired?) && pc.out == o
  }

  function Weight(t: Tally, r: Request): nat {
    match t
    case HeldByCaller => One(r.caller.Holding? || r.caller.Recorded? || r.caller.SubmitRaised?)
    case InQueue => One(r.worker.Queued?)
    case HeldByWorker => One(r.worker.PickedUp? || InTask(r.worker) || r.worker.Leaving?)
    case Overbooked => One(SubmitFailed(r.caller) && !r.worker.Unqueued?)
    case Occupying => One(!r.worker.Unqueued? && !r.worker.Queued? && !r.worker.Retired?)
    case InTransit => One((r.caller.Recorded? && r.worker.Unqueued?) || r.worker.Queued? || r.worker.PickedUp?)
    case FailedSubmits => One(SubmitFailed(r.caller) && r.worker.Unqueued?)
    case Executing => One(InTask(r.worker))
    case AbnormalExits => One(Over(r.worker, Abnormal))
    case Completions => One(Over(r.worker, Completed))
    case Failures => One(Over(r.worker, Errored))
    case Rejections =>
      One(r.caller.DenialCounted? || r.caller.DenialSent? || r.caller.Rejected? || r.caller.RejectRaised?)
    case TimeoutErrors => One(r.caller.TimeoutRaised?)
    case Undecided => One(r.caller.Arrived? || r.caller.Acquiring? || r.caller.Holding? || r.caller.Denied?)
    case Work => CallerWork(r.caller) + WorkerWork(r.worker)
  }

  function Sum(t: Tally, rs: seq<Request>): nat {
    if rs == [] then 0 else Sum(t, rs[..|rs| - 1]) + Weight(t, rs[|rs| - 1])
  }

  lemma {:induction false} SumUpdate(t: Tally, rs: seq<Request>, i: nat, r: Request)
    requires i < |rs|
    ensures Sum(t, rs[i := r]) == Sum(t, rs) - Weight(t, rs[i]) + Weight(t, r)
  {
    var n := |rs| - 1;
    if i == n {
      assert rs[i := r][..n] == rs[..n];
    } else {
      assert rs[i := r][..n] == rs[..n][i := r];
      SumUpdate(t, rs[..n], i, r);
    }
  }

  /** One request changes: every count moves by the difference of its weights. */
  lemma SumsUpdate(rs: seq<Request>, i: nat, r: Request)
    requires i < |rs|
    ensures forall t: Tally :: Sum(t, rs[i := r]) == Sum(t, rs) - Weight(t, rs[i]) + Weight(t, r)
  {
    forall t: Tally ensures Sum(t, rs[i := r]) == Sum(t, rs) - Weight(t, rs[i]) + Weight(t, r) {
      SumUpdate(t, rs, i, r);
    }
  }

  lemma SumsAppend(rs: seq<Request>, r: Request)
    ensures forall t: Tally :: Sum(t, rs + [r]) == Sum(t, rs) + Weight(t, r)
  {
    assert (rs + [r])[..|rs|] == rs;
  }

  /** A zero count means that nobody has the counted property, and the other way round. */
  lemma {:induction false} SumZero(t: Tally, rs: seq<Request>)
    ensures Sum(t, rs) == 0 <==> forall i :: 0 <= i < |rs| ==> Weight(t, rs[i]) == 0
  {
    if rs != [] {
      SumZero(t, rs[..|rs| - 1]);
      var n := |rs| - 1;
      assert forall i :: 0 <= i < n ==> rs[..n][i] == rs[i];
    }
  }

  lemma SumPositive(t: Tally, rs: seq<Request>) returns (i: nat)
    requires Sum(t, rs) > 0
    ensures i < |rs| && Weight(t, rs[i]) > 0
  {
    SumZero(t, rs);
    i :| i < |rs| && Weight(t, rs[i]) > 0;
  }
}
