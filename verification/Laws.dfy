/** What the invariant says about permits, counters, rejections, bounds and order in every
    reachable state of the server. */
module Laws {
  import opened Common
  import opened Counters
  import opened Requests
  import opened Protocol
  import opened Invariant
  import opened Witnesses

  // ----- Permits -----

  lemma {:induction false} NothingOverbooked(p: Params, rs: seq<Request>)
    requires p.atomicSubmit && forall i :: 0 <= i < |rs| ==> WfRequest(p, rs[i])
    ensures Sum(Overbooked, rs) == 0
  {
    SumZero(Overbooked, rs);
    forall i | 0 <= i < |rs| ensures Weight(Overbooked, rs[i]) == 0 { assert WfRequest(p, rs[i]); }
  }

  /** Permit conservation: what is left of the semaphore, what callers hold, what is queued and what
      workers hold add up to the capacity, whatever was raised on the way. */
  lemma PermitConservation(p: Params, s: State)
    requires ValidParams(p) && Reachable(p, s)
    ensures s.permits >= 0
    ensures s.permits + Sum(HeldByCaller, s.requests) + |s.queue| + Sum(HeldByWorker, s.requests)
            == p.config.Capacity() + Sum(Overbooked, s.requests)
    ensures p.atomicSubmit ==> Sum(Overbooked, s.requests) == 0 && s.permits <= p.config.Capacity()
  {
    ReachableInv(p, s);
    if p.atomicSubmit { NothingOverbooked(p, s.requests); }
  }

  /** The capacity bounds the semaphore in every run exactly when a submit that raises has queued
      nothing: otherwise one late failure already makes a permit. */
  lemma CapacityHoldsIffSubmitIsAtomic(p: Params)
    requires ValidParams(p)
    ensures p.atomicSubmit <==> forall s: State :: Reachable(p, s) ==> s.permits <= p.config.Capacity()
  {
    if p.atomicSubmit {
      forall s: State | Reachable(p, s) ensures s.permits <= p.config.Capacity() { PermitConservation(p, s); }
    } else {
      var t := LateFailureMakesPermit(p);
    }
  }

  // ----- Counters -----

  /** Exact counters: `queued` is the number of requests on their way to a worker plus every submit
      that ever failed, `active` the number in tasks plus every abnormal exit. Neither is negative. */
  lemma ExactCounters(p: Params, s: State)
    requires ValidParams(p) && Reachable(p, s)
    ensures s.stats.submitted == Sum(InTransit, s.requests) + Sum(FailedSubmits, s.requests)
    ensures s.stats.active == Sum(Executing, s.requests) + Sum(AbnormalExits, s.requests)
    ensures s.stats.completed == Sum(Completions, s.requests)
    ensures s.stats.errored == Sum(Failures, s.requests)
    ensures s.stats.submitted >= 0 && s.stats.active >= 0
    ensures s.stats.submitted == Sum(InTransit, s.requests) <==> Sum(FailedSubmits, s.requests) == 0
    ensures s.stats.active == Sum(Executing, s.requests) <==> Sum(AbnormalExits, s.requests) == 0
  {
    ReachableInv(p, s);
  }

  /** An exception that leaves the worker unrecorded: any in the except block, any outside Exception. */
  predicate Escapes(pc: WorkerPc, act: WorkerAct) {
    act.Escape? || (act.Raise? && !pc.Serving? && !pc.Served?)
  }

  /** A submit raises and has queued nothing. */
  predicate FailsSubmit(step: Step) { step.Caller? && step.cact.SubmitRaises? }

  predicate LeavesAbnormally(s: State, step: Step) {
    step.Worker? && step.i < |s.requests| && Escapes(s.requests[step.i].worker, step.wact)
  }

  lemma CallerDrift(p: Params, r: Request, act: CallerAct)
    requires WfRequest(p, r) && CallerNext(p, r.caller, act).Some?
    ensures Weight(FailedSubmits, AfterCaller(p, r, act)) == Weight(FailedSubmits, r) + One(act.SubmitRaises?)
    ensures Weight(AbnormalExits, AfterCaller(p, r, act)) == Weight(AbnormalExits, r)
  {
  }

  lemma WorkerDrift(p: Params, r: Request, act: WorkerAct)
    requires WfRequest(p, r) && WorkerNext(r.worker, act).Some?
    ensures Weight(FailedSubmits, AfterWorker(r, act)) == Weight(FailedSubmits, r)
    ensures Weight(AbnormalExits, AfterWorker(r, act)) == Weight(AbnormalExits, r) + One(Escapes(r.worker, act))
  {
  }

  /** What a step adds to the two drifts. */
  lemma DriftStep(p: Params, s: State, step: Step)
    requires Inv(p, s) && Enabled(p, s, step)
    ensures var t := Apply(p, s, step);
            && Sum(FailedSubmits, t.requests) == Sum(FailedSubmits, s.requests) + One(FailsSubmit(step))
            && Sum(AbnormalExits, t.requests) == Sum(AbnormalExits, s.requests) + One(LeavesAbnormally(s, step))
  {
    hide Sum, Weight, CallerNext, WorkerNext;
    match step
    case Arrive =>
      SumsAppend(s.requests, Request(Arrived, Unqueued, 0));
      ArrivalWeight(FailedSubmits);
      ArrivalWeight(AbnormalExits);
    case Caller(i, act) =>
      assert WfRequest(p, s.requests[i]);
      CallerDrift(p, s.requests[i], act);
      SumsUpdate(s.requests, i, AfterCaller(p, s.requests[i], act));
    case Pickup =>
      var i := s.queue[0];
      assert i in s.queue && WfRequest(p, s.requests[i]);
      PickupDelta(p, s.requests[i]);
      SumsUpdate(s.requests, i, s.requests[i].(worker := PickedUp));
    case Worker(i, act) =>
      assert WfRequest(p, s.requests[i]);
      WorkerDrift(p, s.requests[i], act);
      SumsUpdate(s.requests, i, AfterWorker(s.requests[i], act));
    case CallShutdown(_) =>
    case Shut(k) =>
  }

  /** A drift, once there, never heals: no step takes back a failed submit or an abnormal exit. */
  lemma DriftNeverHeals(p: Params, s: State, step: Step)
    requires Inv(p, s) && Enabled(p, s, step)
    ensures Sum(FailedSubmits, Apply(p, s, step).requests) >= Sum(FailedSubmits, s.requests)
    ensures Sum(AbnormalExits, Apply(p, s, step).requests) >= Sum(AbnormalExits, s.requests)
  {
    hide Enabled, Apply;
    DriftStep(p, s, step);
  }

  /** The submits that raised in a run without having queued anything. */
  function SubmitFailures(steps: seq<Step>): nat {
    if steps == [] then 0 else SubmitFailures(steps[..|steps| - 1]) + One(FailsSubmit(steps[|steps| - 1]))
  }

  /** Step k of the run is a worker's abnormal exit. */
  predicate AbnormalAt(p: Params, steps: seq<Step>, k: nat)
    requires k < |steps|
  {
    var before := Run(p, Init(p), steps[..k]);
    before.Some? && LeavesAbnormally(before.value, steps[k])
  }

  function AbnormalEnds(p: Params, steps: seq<Step>): nat {
    if steps == [] then 0
    else
      var n := |steps| - 1;
      AbnormalEnds(p, steps[..n]) + One(AbnormalAt(p, steps, n))
  }

  /** The drifts count the raising steps of the run, one each. */
  lemma {:induction false} DriftCountsRaises(p: Params, steps: seq<Step>)
    requires ValidParams(p) && Run(p, Init(p), steps).Some?
    ensures var s := Run(p, Init(p), steps).value;
            && Sum(FailedSubmits, s.requests) == SubmitFailures(steps)
            && Sum(AbnormalExits, s.requests) == AbnormalEnds(p, steps)
  {
    hide Enabled, Apply, LeavesAbnormally, FailsSubmit;
    if steps != [] {
      var n := |steps| - 1;
      DriftCountsRaises(p, steps[..n]);
      RunKeeps(p, Init(p), steps[..n]);
      DriftStep(p, Run(p, Init(p), steps[..n]).value, steps[n]);
    }
  }

  lemma {:induction false} NoSubmitFailures(steps: seq<Step>)
    ensures SubmitFailures(steps) == 0 <==> forall k :: 0 <= k < |steps| ==> !FailsSubmit(steps[k])
  {
    if steps != [] {
      var n := |steps| - 1;
      NoSubmitFailures(steps[..n]);
      assert forall k :: 0 <= k < n ==> steps[..n][k] == steps[k];
    }
  }

  lemma {:induction false} NoAbnormalEnds(p: Params, steps: seq<Step>)
    ensures AbnormalEnds(p, steps) == 0 <==> forall k :: 0 <= k < |steps| ==> !AbnormalAt(p, steps, k)
  {
    hide Run, LeavesAbnormally;
    if steps != [] {
      var n := |steps| - 1;
      NoAbnormalEnds(p, steps[..n]);
      forall k | 0 <= k < n ensures AbnormalAt(p, steps[..n], k) == AbnormalAt(p, steps, k) {
        assert steps[..n][..k] == steps[..k];
      }
    }
  }

  /** Exactly when the gauges tell the truth: `queued` is the number of requests on their way to a worker
      iff no submit of the run has raised without having queued anything, and `active` the number in tasks
      iff no worker of the run has left by an exception in its except block or by anything but an
      Exception. */
  lemma GaugesExactIffNothingRaised(p: Params, steps: seq<Step>)
    requires ValidParams(p) && Run(p, Init(p), steps).Some?
    ensures var s := Run(p, Init(p), steps).value;
            && (s.stats.submitted == Sum(InTransit, s.requests)
                <==> forall k :: 0 <= k < |steps| ==> !FailsSubmit(steps[k]))
            && (s.stats.active == Sum(Executing, s.requests)
                <==> forall k :: 0 <= k < |steps| ==> !AbnormalAt(p, steps, k))
  {
    hide Run, Sum, AbnormalAt;
    ExactCounters(p, Run(p, Init(p), steps).value);
    DriftCountsRaises(p, steps);
    NoSubmitFailures(steps);
    NoAbnormalEnds(p, steps);
  }

  /** Each request counts for exactly one of these. */
  lemma Partition(p: Params, r: Request)
    requires WfRequest(p, r)
    ensures Weight(Undecided, r) + Weight(InTransit, r) + Weight(Executing, r)
            + Weight(Completions, r) + Weight(Failures, r) + Weight(AbnormalExits, r)
            + Weight(FailedSubmits, r) + Weight(Rejections, r) + Weight(TimeoutErrors, r) == 1
  {
  }

  lemma {:induction false} PartitionSums(p: Params, rs: seq<Request>)
    requires forall i :: 0 <= i < |rs| ==> WfRequest(p, rs[i])
    ensures Sum(Undecided, rs) + Sum(InTransit, rs) + Sum(Executing, rs)
            + Sum(Completions, rs) + Sum(Failures, rs) + Sum(AbnormalExits, rs)
            + Sum(FailedSubmits, rs) + Sum(Rejections, rs) + Sum(TimeoutErrors, rs) == |rs|
  {
    if rs != [] {
      PartitionSums(p, rs[..|rs| - 1]);
      Partition(p, rs[|rs| - 1]);
    }
  }

  /** Arrival conservation: every process_request call is rejected and counted, completed, errored,
      still in progress, refused by the executor, lost to an abnormal exit, or stopped by settimeout.
      Only the configured policy's rejection counter ever moves, and none under Block. */
  lemma ArrivalConservation(p: Params, s: State)
    requires ValidParams(p) && Reachable(p, s)
    ensures |s.requests|
            == s.stats.rejectedClose + s.stats.rejectedFault + s.stats.rejected503
               + s.stats.completed + s.stats.errored
               + (Sum(Undecided, s.requests) + Sum(InTransit, s.requests) + Sum(Executing, s.requests))
               + Sum(FailedSubmits, s.requests) + Sum(AbnormalExits, s.requests) + Sum(TimeoutErrors, s.requests)
    ensures !p.config.policy.Close? ==> s.stats.rejectedClose == 0
    ensures !p.config.policy.Fault? ==> s.stats.rejectedFault == 0
    ensures !p.config.policy.Http503? ==> s.stats.rejected503 == 0
  {
    ReachableInv(p, s);
    PartitionSums(p, s.requests);
    if p.config.policy.Block? {
      SumZero(Rejections, s.requests);
      forall i | 0 <= i < |s.requests| ensures Weight(Rejections, s.requests[i]) == 0 {
        assert WfRequest(p, s.requests[i]);
      }
    }
  }

  /** A snapshot adds up: each of its numbers counts what its name says, and all seven together are the
      calls that have come as far as recording a submission or a rejection. Nobody is counted twice, not
      even while moving between counters. */
  lemma SnapshotAddsUp(p: Params, s: State)
    requires ValidParams(p) && Reachable(p, s)
    ensures var view := Publish(s.stats);
            view.active + view.queued + view.rejectedClose + view.rejectedFault + view.rejected503
            + view.completed + view.errored
            == |s.requests| - Sum(Undecided, s.requests) - Sum(TimeoutErrors, s.requests)
    ensures var view := Publish(s.stats);
            && view.queued == Sum(InTransit, s.requests) + Sum(FailedSubmits, s.requests)
            && view.active == Sum(Executing, s.requests) + Sum(AbnormalExits, s.requests)
            && view.completed == Sum(Completions, s.requests) && view.errored == Sum(Failures, s.requests)
            && view.rejectedClose == (if p.config.policy.Close? then Sum(Rejections, s.requests) else 0)
            && view.rejectedFault == (if p.config.policy.Fault? then Sum(Rejections, s.requests) else 0)
            && view.rejected503 == (if p.config.policy.Http503? then Sum(Rejections, s.requests) else 0)
  {
    hide Sum;
    ReachableInv(p, s);
    ArrivalConservation(p, s);
    ExactCounters(p, s);
  }

  /** The cumulative counters never shrink, over any continuation of a run. */
  lemma {:induction false} CumulativeCountersGrow(p: Params, s: State, steps: seq<Step>)
    requires Run(p, s, steps).Some?
    ensures NotBefore(Publish(s.stats), Publish(Run(p, s, steps).value.stats))
  {
    hide CallerNext, WorkerNext, Sum;
    if steps != [] {
      CumulativeCountersGrow(p, s, steps[..|steps| - 1]);
    }
  }

  // ----- Rejections and bounds -----

  /** A request is turned away only while the whole capacity is in use, and never under Block. */
  lemma NoSpuriousRejection(p: Params, s: State, i: nat)
    requires ValidParams(p) && p.atomicSubmit && Reachable(p, s) && Enabled(p, s, Caller(i, Deny))
    ensures !p.config.policy.Block?
    ensures Sum(HeldByCaller, s.requests) + |s.queue| + Sum(HeldByWorker, s.requests) == p.config.Capacity()
  {
    PermitConservation(p, s);
  }

  lemma {:induction false} SumMonotone(t: Tally, u: Tally, rs: seq<Request>)
    requires forall i :: 0 <= i < |rs| ==> Weight(t, rs[i]) <= Weight(u, rs[i])
    ensures Sum(t, rs) <= Sum(u, rs)
  {
    if rs != [] {
      var n := |rs| - 1;
      assert forall i :: 0 <= i < n ==> rs[..n][i] == rs[i];
      SumMonotone(t, u, rs[..n]);
      assert Weight(t, rs[n]) <= Weight(u, rs[n]);
    }
  }

  /** At most max_workers handlers run at once. The work queue holds at most max_pending tasks plus one
      for every worker that holds no permit. It holds at most max_pending exactly when at least
      max_workers permits are elsewhere: in the semaphore, with callers or with workers. */
  lemma ConcurrencyBounds(p: Params, s: State)
    requires ValidParams(p) && p.atomicSubmit && Reachable(p, s)
    ensures Sum(Executing, s.requests) <= Sum(HeldByWorker, s.requests) <= Busy(s.requests) <= p.config.maxWorkers
    ensures |s.queue| <= p.config.maxPending + (p.config.maxWorkers - Sum(HeldByWorker, s.requests))
    ensures Sum(HeldByWorker, s.requests) == p.config.maxWorkers ==> |s.queue| <= p.config.maxPending
    ensures |s.queue| <= p.config.maxPending
            <==> s.permits + Sum(HeldByCaller, s.requests) + Sum(HeldByWorker, s.requests) >= p.config.maxWorkers
  {
    PermitConservation(p, s);
    ReachableInv(p, s);
    SumMonotone(Executing, HeldByWorker, s.requests);
    SumMonotone(HeldByWorker, Occupying, s.requests);
  }

  /** Tasks are picked up in the order in which they were submitted, each once; and whoever is about
      to be queued finds at most capacity - 1 admitted requests that have not released their permit. */
  lemma FirstInFirstOut(p: Params, s: State)
    requires ValidParams(p) && Reachable(p, s)
    ensures s.enqueued == s.pickedUp + s.queue && Distinct(s.enqueued)
    ensures forall i {:trigger s.requests[i]} :: 0 <= i < |s.requests| ==>
              (i in s.pickedUp <==> !s.requests[i].worker.Unqueued? && !s.requests[i].worker.Queued?)
    ensures forall i :: p.atomicSubmit && Enabled(p, s, Caller(i, Enqueue)) ==>
              Sum(HeldByCaller, s.requests) - 1 + |s.queue| + Sum(HeldByWorker, s.requests) <= p.config.Capacity() - 1
  {
    ReachableInv(p, s);
    PermitConservation(p, s);
  }

  // ----- Connections -----

  /** When a request is over, its connection has been shut down at least once, unless it left through
      an exception of the shutdown itself or outside the handled ones. */
  lemma ConnectionsShutDown(p: Params, s: State, i: nat)
    requires ValidParams(p) && Reachable(p, s) && i < |s.requests|
    ensures s.requests[i].caller.Rejected? || s.requests[i].caller.FailedSubmit? ==> s.requests[i].shuts >= 1
    ensures Over(s.requests[i].worker, Completed) || Over(s.requests[i].worker, Errored)
            ==> s.requests[i].shuts >= 1
  {
    ReachableInv(p, s);
    assert WfRequest(p, s.requests[i]);
  }
}
