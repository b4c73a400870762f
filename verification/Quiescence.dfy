/** Progress: no reachable state is stuck before all work is done, a blocked caller always has somebody
    working for it, and every run is over after a number of steps linear in the number of calls. */
module Quiescence {
  import opened Common
  import opened Requests
  import opened Protocol
  import opened Invariant
  import opened Laws

  // ----- Nothing gets stuck -----

  /** Everything but the outside world starting a new call. */
  predicate Internal(step: Step) { !step.Arrive? && !step.CallShutdown? }

  /** An exception that the outcome of no other step calls for: of settimeout, of a submit although the
      executor is up, of sending, of shutting a connection down, or in a worker's task. */
  predicate Exceptional(s: State, step: Step) {
    match step
    case Caller(_, act) =>
      || act.SetTimeoutRaises? || (act.SubmitRaises? && !s.executorDown) || act.SubmitRaisesLate?
      || act.ShutAfterFailureRaises? || act.SendDenialRaises? || act.ShutDeniedRaises?
    case Worker(_, act) => act.Raise? || act.Escape?
    case _ => false
  }

  /** Nothing can happen by itself unless something fails. */
  ghost predicate Stuck(p: Params, s: State) {
    forall step: Step :: Internal(step) && !Exceptional(s, step) ==> !Enabled(p, s, step)
  }

  ghost predicate Settled(s: State) {
    && s.queue == []
    && Busy(s.requests) == 0
    && s.lockOwner.None?
    && (forall i :: 0 <= i < |s.requests| ==> Weight(Work, s.requests[i]) == 0)
    && (forall k :: 0 <= k < |s.closers| ==> s.closers[k].pc.Returned?)
  }

  /** The next step of a caller that is not waiting for a permit. */
  function CallerMove(s: State, pc: CallerPc): CallerAct {
    match pc
    case Arrived => SetTimeout
    case Holding => RecordSubmission
    case Recorded => if s.executorDown then SubmitRaises else Enqueue
    case SubmitRaised => ReturnPermit
    case PermitBack => ShutAfterFailure
    case Denied => CountDenial
    case DenialCounted => SendDenial
    case DenialSent => ShutDenied
    case _ => Acquire
  }

  lemma CallerMoves(p: Params, s: State, i: nat)
    requires i < |s.requests| && CallerWork(s.requests[i].caller) > 0
    requires s.requests[i].caller.Acquiring? ==> s.permits > 0
    ensures var step := Caller(i, CallerMove(s, s.requests[i].caller));
            Enabled(p, s, step) && !Exceptional(s, step)
  {
  }

  function WorkerMove(pc: WorkerPc): WorkerAct {
    match pc
    case PickedUp => RecordStart
    case ServedShut => RecordEnd
    case FailureShut => RecordEnd
    case Leaving(_) => Release
    case Lingering(_) => Retire
    case _ => Succeed
  }

  lemma WorkerMoves(p: Params, s: State, i: nat)
    requires i < |s.requests| && Weight(Occupying, s.requests[i]) > 0
    ensures var step := Worker(i, WorkerMove(s.requests[i].worker));
            Enabled(p, s, step) && !Exceptional(s, step)
  {
  }

  /** With a worker in a task, or a task in the queue, some worker can move. */
  lemma PoolMoves(p: Params, s: State) returns (step: Step)
    requires Inv(p, s) && (s.queue != [] || Busy(s.requests) > 0)
    ensures (step.Pickup? || step.Worker?) && Enabled(p, s, step) && !Exceptional(s, step)
  {
    if Busy(s.requests) > 0 {
      var i := SumPositive(Occupying, s.requests);
      WorkerMoves(p, s, i);
      step := Worker(i, WorkerMove(s.requests[i].worker));
    } else {
      assert s.queue[0] in s.queue;
      assert s.queue[0] == s.enqueued[|s.pickedUp|];
      step := Pickup;
    }
  }

  /** Deadlock freedom for blocked callers: while a process_request call waits on an exhausted
      semaphore, another thread that holds a permit, or a worker, can take a step in which nothing fails.
      This needs neither the caller nor _executor_lock, so it stands during a shutdown that waits as well. */
  lemma BlockedCallerHasHelper(p: Params, s: State, i: nat) returns (step: Step)
    requires ValidParams(p) && Reachable(p, s)
    requires i < |s.requests| && s.requests[i].caller.Acquiring? && s.permits == 0
    ensures Enabled(p, s, step) && !Exceptional(s, step)
    ensures step.Pickup? || step.Worker?
            || (step.Caller? && step.i != i && Weight(HeldByCaller, s.requests[step.i]) == 1)
  {
    ReachableInv(p, s);
    if s.queue != [] || Busy(s.requests) > 0 {
      step := PoolMoves(p, s);
    } else {
      SumMonotone(HeldByWorker, Occupying, s.requests);
      var j := SumPositive(HeldByCaller, s.requests);
      CallerMoves(p, s, j);
      step := Caller(j, CallerMove(s, s.requests[j].caller));
    }
  }

  /** With a single accept thread, only one call is in process_request at a time: the helper is a worker. */
  lemma SingleAcceptThreadIsHelpedByWorker(p: Params, s: State, i: nat) returns (step: Step)
    requires ValidParams(p) && Reachable(p, s)
    requires i < |s.requests| && s.requests[i].caller.Acquiring? && s.permits == 0
    requires forall j :: 0 <= j < |s.requests| && j != i ==> CallerWork(s.requests[j].caller) == 0
    ensures Enabled(p, s, step) && !Exceptional(s, step) && (step.Pickup? || step.Worker?)
  {
    step := BlockedCallerHasHelper(p, s, i);
  }

  lemma CloserMoves(p: Params, s: State, k: nat) returns (step: Step)
    requires Inv(p, s) && k < |s.closers| && !s.closers[k].pc.Returned?
    requires s.queue == [] && Busy(s.requests) == 0
    ensures step.Shut? && Enabled(p, s, step)
  {
    var owner := if s.lockOwner.Some? then s.lockOwner.value else k;
    assert HoldsLock(s.closers[owner].pc) || s.closers[owner].pc.Calling?;
    step := Shut(owner);
  }

  lemma WorkOver(r: Request)
    requires CallerWork(r.caller) == 0 && Weight(Occupying, r) == 0 && Weight(InQueue, r) == 0
    ensures Weight(Work, r) == 0
  {
  }

  lemma CallerOver(p: Params, s: State, i: nat)
    requires Inv(p, s) && Stuck(p, s) && s.queue == [] && Busy(s.requests) == 0 && i < |s.requests|
    ensures CallerWork(s.requests[i].caller) == 0
  {
    SumMonotone(HeldByWorker, Occupying, s.requests);
    if Sum(HeldByCaller, s.requests) > 0 {
      var j := SumPositive(HeldByCaller, s.requests);
      CallerMoves(p, s, j);
      assert false;
    }
    assert s.permits > 0;
    if CallerWork(s.requests[i].caller) > 0 {
      CallerMoves(p, s, i);
      assert false;
    }
  }

  lemma StuckPoolIsIdle(p: Params, s: State)
    requires Inv(p, s) && Stuck(p, s)
    ensures s.queue == [] && Busy(s.requests) == 0
  {
    if s.queue != [] || Busy(s.requests) > 0 {
      var step := PoolMoves(p, s);
      assert false;
    }
  }

  lemma StuckRequestsAreOver(p: Params, s: State)
    requires Inv(p, s) && Stuck(p, s)
    ensures forall i :: 0 <= i < |s.requests| ==> Weight(Work, s.requests[i]) == 0
  {
    StuckPoolIsIdle(p, s);
    SumZero(Occupying, s.requests);
    SumZero(InQueue, s.requests);
    forall i | 0 <= i < |s.requests| ensures Weight(Work, s.requests[i]) == 0 {
      CallerOver(p, s, i);
      WorkOver(s.requests[i]);
    }
  }

  lemma StuckClosersAreOver(p: Params, s: State)
    requires Inv(p, s) && Stuck(p, s)
    ensures s.lockOwner.None? && forall k :: 0 <= k < |s.closers| ==> s.closers[k].pc.Returned?
  {
    StuckPoolIsIdle(p, s);
    forall k | 0 <= k < |s.closers| ensures s.closers[k].pc.Returned? {
      if !s.closers[k].pc.Returned? {
        var step := CloserMoves(p, s, k);
        assert false;
      }
    }
    assert s.lockOwner.Some? ==> HoldsLock(s.closers[s.lockOwner.value].pc);
  }

  lemma OverHoldsNoPermit(rs: seq<Request>)
    requires forall i :: 0 <= i < |rs| ==> Weight(Work, rs[i]) == 0
    ensures Sum(HeldByCaller, rs) == 0 && Sum(HeldByWorker, rs) == 0
  {
    SumZero(HeldByCaller, rs);
    SumZero(HeldByWorker, rs);
  }

  /** A state in which no thread can move has nothing left to do: all calls are over, all tasks run,
      all shutdown calls returned, the lock is free and every permit is back. */
  lemma StuckOnlyWhenSettled(p: Params, s: State)
    requires ValidParams(p) && Reachable(p, s) && Stuck(p, s)
    ensures Settled(s)
    ensures s.permits == p.config.Capacity() + Sum(Overbooked, s.requests)
    ensures p.atomicSubmit ==> s.permits == p.config.Capacity()
  {
    ReachableInv(p, s);
    StuckPoolIsIdle(p, s);
    StuckRequestsAreOver(p, s);
    StuckClosersAreOver(p, s);
    OverHoldsNoPermit(s.requests);
    PermitConservation(p, s);
  }

  lemma OverIsCounted(rs: seq<Request>)
    requires forall i :: 0 <= i < |rs| ==> Weight(Work, rs[i]) == 0
    ensures Sum(Undecided, rs) == 0 && Sum(Executing, rs) == 0 && Sum(InTransit, rs) == 0
  {
    SumZero(Undecided, rs);
    SumZero(Executing, rs);
    SumZero(InTransit, rs);
  }

  /** At rest every call is accounted for by the five cumulative counters, except those refused by the
      executor, lost to an abnormal exit or stopped by settimeout; and what is left in `queued` and
      `active` is exactly the first two kinds. */
  lemma CountersAtRest(p: Params, s: State)
    requires ValidParams(p) && Reachable(p, s) && Stuck(p, s)
    ensures s.stats.submitted == Sum(FailedSubmits, s.requests)
    ensures s.stats.active == Sum(AbnormalExits, s.requests)
    ensures |s.requests|
            == s.stats.rejectedClose + s.stats.rejectedFault + s.stats.rejected503 + s.stats.completed + s.stats.errored
               + s.stats.submitted + s.stats.active + Sum(TimeoutErrors, s.requests)
  {
    hide Sum, Stuck, Weight;
    StuckOnlyWhenSettled(p, s);
    OverIsCounted(s.requests);
    ArrivalConservation(p, s);
    ExactCounters(p, s);
  }

  // ----- Every run is short -----

  function CloserWork(c: Closer): nat {
    match c.pc
    case Calling => 5
    case Locked => 4
    case Joining => 3
    case Joined => 2
    case Flagged => 1
    case Returned => 0
  }

  function ClosersWork(cs: seq<Closer>): nat {
    if cs == [] then 0 else ClosersWork(cs[..|cs| - 1]) + CloserWork(cs[|cs| - 1])
  }

  lemma {:induction false} ClosersWorkUpdate(cs: seq<Closer>, k: nat, c: Closer)
    requires k < |cs|
    ensures ClosersWork(cs[k := c]) == ClosersWork(cs) - CloserWork(cs[k]) + CloserWork(c)
  {
    var n := |cs| - 1;
    if k == n {
      assert cs[k := c][..n] == cs[..n];
    } else {
      assert cs[k := c][..n] == cs[..n][k := c];
      ClosersWorkUpdate(cs[..n], k, c);
    }
  }

  /** Bound on the number of internal steps that can still be taken without new calls. */
  function Measure(s: State): nat { Sum(Work, s.requests) + ClosersWork(s.closers) }

  lemma CallerWorkDecreases(p: Params, r: Request, act: CallerAct)
    requires WfRequest(p, r) && CallerNext(p, r.caller, act).Some?
    ensures Weight(Work, AfterCaller(p, r, act)) < Weight(Work, r)
  {
    if act.Enqueue? || act.SubmitRaisesLate? {
      assert r.worker.Unqueued?;
    }
  }

  lemma WorkerWorkDecreases(r: Request, act: WorkerAct)
    requires WorkerNext(r.worker, act).Some?
    ensures Weight(Work, AfterWorker(r, act)) < Weight(Work, r)
  {
  }

  lemma CallerStepDecreases(p: Params, s: State, i: nat, act: CallerAct)
    requires RequestsOk(p, s) && CallerEnabled(p, s, i, act)
    ensures Measure(ApplyCaller(p, s, i, act)) < Measure(s)
  {
    assert WfRequest(p, s.requests[i]);
    CallerWorkDecreases(p, s.requests[i], act);
    SumUpdate(Work, s.requests, i, AfterCaller(p, s.requests[i], act));
  }

  lemma PoolStepDecreases(p: Params, s: State, step: Step)
    requires QueueOk(p, s) && Enabled(p, s, step) && (step.Pickup? || step.Worker?)
    ensures Measure(Apply(p, s, step)) < Measure(s)
  {
    if step.Pickup? {
      assert s.queue[0] in s.queue;
      SumUpdate(Work, s.requests, s.queue[0], s.requests[s.queue[0]].(worker := PickedUp));
    } else {
      WorkerWorkDecreases(s.requests[step.i], step.wact);
      SumUpdate(Work, s.requests, step.i, AfterWorker(s.requests[step.i], step.wact));
    }
  }

  lemma CloserStepDecreases(s: State, k: nat)
    requires CloserEnabled(s, k)
    ensures Measure(ApplyClose(s, k)) < Measure(s)
  {
    var t := ApplyClose(s, k);
    ClosersWorkUpdate(s.closers, k, t.closers[k]);
    assert t.closers == s.closers[k := t.closers[k]];
  }

  /** Every step of every thread uses up work, whatever is raised and however threads interleave. */
  lemma InternalStepsDecrease(p: Params, s: State, step: Step)
    requires RequestsOk(p, s) && QueueOk(p, s) && Enabled(p, s, step)
    ensures Internal(step) ==> Measure(Apply(p, s, step)) < Measure(s)
    ensures step.Arrive? ==> Measure(Apply(p, s, step)) == Measure(s) + 15
    ensures step.CallShutdown? ==> Measure(Apply(p, s, step)) == Measure(s) + 5
  {
    match step
    case Arrive => SumsAppend(s.requests, Request(Arrived, Unqueued, 0));
    case Caller(i, act) => CallerStepDecreases(p, s, i, act);
    case Pickup => PoolStepDecreases(p, s, step);
    case Worker(_, _) => PoolStepDecreases(p, s, step);
    case CallShutdown(wait) =>
      assert (s.closers + [Closer(wait, Calling)])[..|s.closers|] == s.closers;
    case Shut(k) => CloserStepDecreases(s, k);
  }

  function Arrivals(steps: seq<Step>): nat {
    if steps == [] then 0 else Arrivals(steps[..|steps| - 1]) + One(steps[|steps| - 1].Arrive?)
  }

  function ShutdownCalls(steps: seq<Step>): nat {
    if steps == [] then 0 else ShutdownCalls(steps[..|steps| - 1]) + One(steps[|steps| - 1].CallShutdown?)
  }

  /** Every run is linear in its calls: at most 16 steps for a request and 6 for a shutdown call,
      the arrival itself included. So with finitely many calls every run comes to rest. */
  lemma {:induction false} RunsAreLinear(p: Params, steps: seq<Step>)
    requires ValidParams(p) && Run(p, Init(p), steps).Some?
    ensures |steps| + Measure(Run(p, Init(p), steps).value) <= 16 * Arrivals(steps) + 6 * ShutdownCalls(steps)
  {
    if steps != [] {
      var n := |steps| - 1;
      RunsAreLinear(p, steps[..n]);
      RunKeeps(p, Init(p), steps[..n]);
      InternalStepsDecrease(p, Run(p, Init(p), steps[..n]).value, steps[n]);
    }
  }
}
