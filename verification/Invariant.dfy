/** What every step of the protocol keeps, hence what holds in every reachable state. */
module Invariant {
  import opened Common
  import opened Counters
  import opened Requests
  import opened Protocol

  // ----- The parts of the invariant -----

  /** The two program counters of a request fit together. */
  predicate WfRequest(p: Params, r: Request) {
    && (!r.worker.Unqueued? ==> r.caller.Submitted? || (!p.atomicSubmit && SubmitFailed(r.caller)))
    && (r.caller.Submitted? ==> !r.worker.Unqueued?)
    && (Weight(Rejections, r) == 1 || r.caller.Denied? ==> !p.config.policy.Block?)
    && (r.caller.Rejected? || r.caller.FailedSubmit? ==> r.shuts >= 1)
    && (r.worker.ServedShut? || r.worker.FailureShut? || Over(r.worker, Completed) || Over(r.worker, Errored)
        ==> r.shuts >= 1)
  }

  ghost predicate RequestsOk(p: Params, s: State) {
    forall i :: 0 <= i < |s.requests| ==> WfRequest(p, s.requests[i])
  }

  /** Permits are neither lost nor made, except by a submit that queues and then raises. */
  ghost predicate PermitsOk(p: Params, s: State) {
    && s.permits >= 0
    && s.permits + Sum(HeldByCaller, s.requests) + |s.queue| + Sum(HeldByWorker, s.requests)
       == p.config.Capacity() + Sum(Overbooked, s.requests)
  }

  /** The counters that the requests' program counters call for. */
  function Tallied(p: Params, rs: seq<Request>): Counters {
    var rejected := Sum(Rejections, rs);
    Counters(
      Sum(InTransit, rs) + Sum(FailedSubmits, rs),
      Sum(Executing, rs) + Sum(AbnormalExits, rs),
      if p.config.policy.Close? then rejected else 0,
      if p.config.policy.Fault? then rejected else 0,
      if p.config.policy.Http503? then rejected else 0,
      Sum(Completions, rs),
      Sum(Failures, rs))
  }

  ghost predicate Distinct(q: seq<nat>) {
    forall i, j :: 0 <= i < j < |q| ==> q[i] != q[j]
  }

  ghost predicate QueueOk(p: Params, s: State) {
    && |s.queue| == Sum(InQueue, s.requests)
    && Busy(s.requests) <= p.config.maxWorkers
    && s.enqueued == s.pickedUp + s.queue
    && Distinct(s.enqueued)
    && (forall j :: 0 <= j < |s.enqueued| ==> s.enqueued[j] < |s.requests|)
    && (forall i {:trigger s.requests[i]} :: 0 <= i < |s.requests| ==>
          (i in s.pickedUp <==> !s.requests[i].worker.Unqueued? && !s.requests[i].worker.Queued?))
    && (forall i {:trigger s.requests[i]} :: 0 <= i < |s.requests| ==>
          (i in s.queue <==> s.requests[i].worker.Queued?))
  }

  predicate HoldsLock(pc: CloserPc) { pc.Locked? || pc.Joining? || pc.Joined? || pc.Flagged? }

  ghost predicate ShutdownOk(s: State) {
    && (s.lockOwner.Some? ==> s.lockOwner.value < |s.closers|)
    && (forall k {:trigger s.closers[k]} :: 0 <= k < |s.closers| ==>
          (HoldsLock(s.closers[k].pc) <==> s.lockOwner == Some(k)))
    && (s.executorDown <==> s.shutdownBy.Some?)
    && (forall k {:trigger s.closers[k]} :: 0 <= k < |s.closers| ==>
          && (s.closers[k].pc.Joining? || s.closers[k].pc.Joined? || s.closers[k].pc.Flagged?
              ==> s.shutdownBy == Some(k))
          && (s.closers[k].pc.Joining? ==> s.closers[k].wait)
          && (s.closers[k].pc.Returned? ==> s.closedFlag))
    && (s.closedFlag ==> s.shutdownBy.Some?)
    && (s.shutdownBy.Some? ==>
          && s.shutdownBy.value < |s.closers|
          && var c := s.closers[s.shutdownBy.value];
          && !c.pc.Calling? && !c.pc.Locked?
          && (s.closedFlag <==> c.pc.Flagged? || c.pc.Returned?)
          && (c.wait && !c.pc.Joining? ==> s.queue == [] && Busy(s.requests) == 0))
  }

  ghost predicate Inv(p: Params, s: State) {
    && ValidParams(p)
    && RequestsOk(p, s)
    && PermitsOk(p, s)
    && s.stats == Tallied(p, s.requests)
    && QueueOk(p, s)
    && ShutdownOk(s)
  }

  // ----- Preservation, one kind of step at a time -----

  /** What a caller's step does to its request: the pcs still fit, and the permit stays accounted for. */
  lemma CallerDelta(p: Params, r: Request, act: CallerAct)
    requires WfRequest(p, r) && CallerNext(p, r.caller, act).Some?
    ensures var r' := AfterCaller(p, r, act);
            var queues := One(act.Enqueue? || act.SubmitRaisesLate?);
            && WfRequest(p, r')
            && (queues == 1 ==> r.worker.Unqueued?)
            && Weight(HeldByCaller, r') + Weight(InQueue, r') - Weight(Overbooked, r')
               == Weight(HeldByCaller, r) + Weight(InQueue, r) - Weight(Overbooked, r)
                  + One(act.Acquire?) - One(act.ReturnPermit?)
            && Weight(InQueue, r') == Weight(InQueue, r) + queues
  {
  }

  lemma CallerDeltaCounts(p: Params, r: Request, act: CallerAct)
    requires WfRequest(p, r) && CallerNext(p, r.caller, act).Some?
    ensures var r' := AfterCaller(p, r, act);
            && Weight(InTransit, r') + Weight(FailedSubmits, r')
               == Weight(InTransit, r) + Weight(FailedSubmits, r) + One(act.RecordSubmission?)
            && Weight(Rejections, r') == Weight(Rejections, r) + One(act.CountDenial?)
            && (act.CountDenial? ==> !p.config.policy.Block?)
  {
  }

  /** A caller's step leaves the counts of running and finished tasks alone. */
  lemma CallerDeltaTask(p: Params, r: Request, act: CallerAct)
    requires WfRequest(p, r) && CallerNext(p, r.caller, act).Some?
    ensures var r' := AfterCaller(p, r, act);
            forall t: Tally | t.HeldByWorker? || t.Occupying? || t.Executing? || t.AbnormalExits?
                              || t.Completions? || t.Failures? :: Weight(t, r') == Weight(t, r)
  {
    if act.Enqueue? || act.SubmitRaisesLate? {
      assert r.worker.Unqueued?;
    }
  }

  lemma CallerKeepsLaws(p: Params, s: State, i: nat, act: CallerAct)
    requires RequestsOk(p, s) && CallerEnabled(p, s, i, act)
    requires PermitsOk(p, s) && s.stats == Tallied(p, s.requests)
    ensures var t := ApplyCaller(p, s, i, act);
            RequestsOk(p, t) && PermitsOk(p, t) && t.stats == Tallied(p, t.requests)
  {
    hide Weight, Sum, CallerNext, WfRequest;
    assert WfRequest(p, s.requests[i]);
    CallerDelta(p, s.requests[i], act);
    CallerDeltaCounts(p, s.requests[i], act);
    CallerDeltaTask(p, s.requests[i], act);
    SumsUpdate(s.requests, i, AfterCaller(p, s.requests[i], act));
  }

  lemma CallerKeepsQueue(p: Params, s: State, i: nat, act: CallerAct)
    requires RequestsOk(p, s) && QueueOk(p, s) && CallerEnabled(p, s, i, act)
    ensures var t := ApplyCaller(p, s, i, act);
            QueueOk(p, t) && Busy(t.requests) == Busy(s.requests)
  {
    var r := s.requests[i];
    assert WfRequest(p, r);
    CallerDelta(p, r, act);
    CallerDeltaTask(p, r, act);
    SumsUpdate(s.requests, i, AfterCaller(p, r, act));
    var t := ApplyCaller(p, s, i, act);
    if act.Enqueue? || act.SubmitRaisesLate? {
      assert i !in s.pickedUp && i !in s.queue;
      assert t.enqueued == t.pickedUp + t.queue;
      assert i !in s.enqueued;
    } else {
      assert t.queue == s.queue && t.enqueued == s.enqueued;
    }
  }

  lemma CallerKeeps(p: Params, s: State, i: nat, act: CallerAct)
    requires Inv(p, s) && CallerEnabled(p, s, i, act)
    ensures Inv(p, ApplyCaller(p, s, i, act))
  {
    CallerKeepsLaws(p, s, i, act);
    CallerKeepsQueue(p, s, i, act);
    var t := ApplyCaller(p, s, i, act);
    assert ShutdownOk(t) by {
      assert t.closers == s.closers;
      assert s.executorDown ==> t.queue == s.queue;
    }
  }

  /** What a worker's step does to its request: the pcs still fit, only its own permit moves. */
  lemma WorkerDelta(p: Params, r: Request, act: WorkerAct)
    requires WfRequest(p, r) && WorkerNext(r.worker, act).Some?
    ensures var r' := AfterWorker(r, act);
            && WfRequest(p, r')
            && !r.worker.Unqueued? && !r.worker.Queued? && !r'.worker.Unqueued? && !r'.worker.Queued?
            && Weight(Occupying, r) == 1
            && Weight(Occupying, r') == 1 - One(act.Retire?)
            && Weight(HeldByWorker, r') == Weight(HeldByWorker, r) - One(act.Release?)
            && (forall t: Tally | t.HeldByCaller? || t.InQueue? || t.Overbooked? || t.Rejections?
                                  || t.FailedSubmits? :: Weight(t, r') == Weight(t, r))
  {
  }

  lemma WorkerDeltaCounts(p: Params, r: Request, act: WorkerAct)
    requires WfRequest(p, r) && WorkerNext(r.worker, act).Some?
    ensures var r' := AfterWorker(r, act);
            var e := WorkerEvent(r.worker, act);
            && Weight(InTransit, r') == Weight(InTransit, r) - One(e == Some(Start))
            && Weight(Executing, r') + Weight(AbnormalExits, r') == Weight(Executing, r) + Weight(AbnormalExits, r)
               + One(e == Some(Start)) - One(e == Some(Completion)) - One(e == Some(Failure))
            && Weight(Completions, r') == Weight(Completions, r) + One(e == Some(Completion))
            && Weight(Failures, r') == Weight(Failures, r) + One(e == Some(Failure))
            && (e.Some? ==> e.value.Start? || e.value.Completion? || e.value.Failure?)
  {
  }

  lemma WorkerKeepsLaws(p: Params, s: State, i: nat, act: WorkerAct)
    requires RequestsOk(p, s) && i < |s.requests| && WorkerNext(s.requests[i].worker, act).Some?
    requires PermitsOk(p, s) && s.stats == Tallied(p, s.requests)
    ensures var t := ApplyWorker(s, i, act);
            RequestsOk(p, t) && PermitsOk(p, t) && t.stats == Tallied(p, t.requests)
  {
    hide Weight, Sum, WorkerNext, WfRequest;
    assert WfRequest(p, s.requests[i]);
    WorkerDelta(p, s.requests[i], act);
    WorkerDeltaCounts(p, s.requests[i], act);
    SumsUpdate(s.requests, i, AfterWorker(s.requests[i], act));
  }

  lemma WorkerKeepsQueue(p: Params, s: State, i: nat, act: WorkerAct)
    requires RequestsOk(p, s) && QueueOk(p, s) && i < |s.requests| && WorkerNext(s.requests[i].worker, act).Some?
    ensures QueueOk(p, ApplyWorker(s, i, act)) && Busy(s.requests) > 0
  {
    assert WfRequest(p, s.requests[i]);
    WorkerDelta(p, s.requests[i], act);
    SumsUpdate(s.requests, i, AfterWorker(s.requests[i], act));
    SumZero(Occupying, s.requests);
  }

  lemma WorkerKeeps(p: Params, s: State, i: nat, act: WorkerAct)
    requires Inv(p, s) && i < |s.requests| && WorkerNext(s.requests[i].worker, act).Some?
    ensures Inv(p, ApplyWorker(s, i, act))
  {
    WorkerKeepsLaws(p, s, i, act);
    WorkerKeepsQueue(p, s, i, act);
  }

  lemma PickupKeepsQueue(p: Params, s: State)
    requires QueueOk(p, s) && Enabled(p, s, Pickup)
    ensures QueueOk(p, ApplyPickup(s))
  {
    var i := s.queue[0];
    SumsUpdate(s.requests, i, s.requests[i].(worker := PickedUp));
    var t := ApplyPickup(s);
    assert i in s.queue;
    assert t.enqueued == t.pickedUp + t.queue;
    assert s.queue == [i] + t.queue;
    assert i !in t.queue by {
      assert s.enqueued[|s.pickedUp|] == i;
      assert forall j :: 0 <= j < |t.queue| ==> t.queue[j] == s.enqueued[|s.pickedUp| + 1 + j];
    }
  }

  lemma PickupDelta(p: Params, r: Request)
    requires WfRequest(p, r) && r.worker.Queued?
    ensures var r' := r.(worker := PickedUp);
            && WfRequest(p, r')
            && Weight(InQueue, r) == 1 && Weight(InQueue, r') == 0
            && Weight(HeldByWorker, r) == 0 && Weight(HeldByWorker, r') == 1
            && (forall t: Tally | !t.InQueue? && !t.HeldByWorker? && !t.Occupying? && !t.Work? ::
                  Weight(t, r') == Weight(t, r))
  {
  }

  lemma PickupKeepsPermits(p: Params, s: State)
    requires RequestsOk(p, s) && PermitsOk(p, s) && s.queue != [] && s.queue[0] < |s.requests|
    requires s.requests[s.queue[0]].worker.Queued?
    ensures RequestsOk(p, ApplyPickup(s)) && PermitsOk(p, ApplyPickup(s))
  {
    var i := s.queue[0];
    assert WfRequest(p, s.requests[i]);
    PickupDelta(p, s.requests[i]);
    SumUpdate(HeldByCaller, s.requests, i, s.requests[i].(worker := PickedUp));
    SumUpdate(HeldByWorker, s.requests, i, s.requests[i].(worker := PickedUp));
    SumUpdate(Overbooked, s.requests, i, s.requests[i].(worker := PickedUp));
  }

  lemma PickupKeepsStats(p: Params, s: State)
    requires RequestsOk(p, s) && s.queue != [] && s.queue[0] < |s.requests|
    requires s.requests[s.queue[0]].worker.Queued?
    ensures Tallied(p, ApplyPickup(s).requests) == Tallied(p, s.requests)
  {
    hide Weight, Sum, WfRequest;
    var i := s.queue[0];
    assert WfRequest(p, s.requests[i]);
    PickupDelta(p, s.requests[i]);
    SumsUpdate(s.requests, i, s.requests[i].(worker := PickedUp));
  }

  lemma PickupKeeps(p: Params, s: State)
    requires Inv(p, s) && Enabled(p, s, Pickup)
    ensures Inv(p, ApplyPickup(s))
  {
    assert s.queue[0] in s.queue;
    PickupKeepsPermits(p, s);
    PickupKeepsStats(p, s);
    PickupKeepsQueue(p, s);
  }

  lemma CloseKeeps(p: Params, s: State, k: nat)
    requires Inv(p, s) && CloserEnabled(s, k)
    ensures Inv(p, ApplyClose(s, k))
  {
    hide Sum, Weight, WfRequest, Tallied, Distinct;
  }

  lemma ArriveKeepsQueue(p: Params, s: State)
    requires QueueOk(p, s)
    ensures QueueOk(p, Apply(p, s, Arrive))
  {
    SumsAppend(s.requests, Request(Arrived, Unqueued, 0));
    var n := |s.requests|;
    assert n !in s.enqueued;
    assert forall x :: x in s.enqueued <==> x in s.pickedUp || x in s.queue;
  }

  lemma ArrivalWeight(t: Tally)
    requires !t.Work?
    ensures Weight(t, Request(Arrived, Unqueued, 0)) == One(t.Undecided?)
  {
  }

  lemma ArriveKeepsLaws(p: Params, s: State)
    requires RequestsOk(p, s) && PermitsOk(p, s) && s.stats == Tallied(p, s.requests)
    ensures var t := Apply(p, s, Arrive);
            RequestsOk(p, t) && PermitsOk(p, t) && t.stats == Tallied(p, t.requests)
  {
    hide Sum;
    SumsAppend(s.requests, Request(Arrived, Unqueued, 0));
    forall t: Tally | !t.Work? ensures Weight(t, Request(Arrived, Unqueued, 0)) == One(t.Undecided?) {
      ArrivalWeight(t);
    }
  }

  lemma ArriveKeeps(p: Params, s: State)
    requires Inv(p, s)
    ensures Inv(p, Apply(p, s, Arrive))
  {
    SumsAppend(s.requests, Request(Arrived, Unqueued, 0));
    ArriveKeepsLaws(p, s);
    ArriveKeepsQueue(p, s);
  }

  /** Every step keeps the invariant. */
  lemma StepKeeps(p: Params, s: State, step: Step)
    requires Inv(p, s) && Enabled(p, s, step)
    ensures Inv(p, Apply(p, s, step))
  {
    match step
    case Arrive => ArriveKeeps(p, s);
    case Caller(i, act) => CallerKeeps(p, s, i, act);
    case Pickup => PickupKeeps(p, s);
    case Worker(i, act) => WorkerKeeps(p, s, i, act);
    case CallShutdown(wait) =>
    case Shut(k) => CloseKeeps(p, s, k);
  }

  lemma {:induction false} RunKeeps(p: Params, s: State, steps: seq<Step>)
    requires Inv(p, s) && Run(p, s, steps).Some?
    ensures Inv(p, Run(p, s, steps).value)
  {
    if steps != [] {
      var n := |steps| - 1;
      RunKeeps(p, s, steps[..n]);
      StepKeeps(p, Run(p, s, steps[..n]).value, steps[n]);
    }
  }

  lemma ReachableInv(p: Params, s: State)
    requires ValidParams(p) && Reachable(p, s)
    ensures Inv(p, s)
  {
    var steps :| Run(p, Init(p), steps) == Some(s);
    RunKeeps(p, Init(p), steps);
  }
}
