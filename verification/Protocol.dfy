/**
 The admission, execution and shutdown protocol of ThreadPoolXMLRPCServer (server.py) as a
 concurrent system. Every semaphore operation, lock-protected counter update, enqueue, dequeue
 and connection shutdown is a step of its own, so a run (a sequence of steps) is one interleaving
 of any number of process_request callers, pool workers and shutdown_executor callers.

 A request has two program counters: where its process_request caller is, and where the pool is
 with it. All nondeterminism (scheduling, exceptions, outcomes) is in the choice of step.
 */
module Protocol {
  import opened Common
  import opened Settings
  import opened Counters
  import opened Requests

  /** `atomicSubmit` is the executor's promise that a submit() which raises has queued nothing.
      It is false of an executor that queues first and then fails to start a thread. */
  datatype Params = Params(config: Config, atomicSubmit: bool)

  ghost predicate ValidParams(p: Params) { p.config.maxWorkers >= 1 }

  /** Position of a shutdown_executor call; server_close makes one with `wait`. */
  datatype CloserPc = Calling | Locked | Joining | Joined | Flagged | Returned

  datatype Closer = Closer(wait: bool, pc: CloserPc)

  datatype State = State(
    permits: int,                // value of the semaphore
    stats: Counters,
    queue: seq<nat>,             // the executor's work queue, oldest first
    requests: seq<Request>,
    executorDown: bool,          // executor.shutdown has been called
    closedFlag: bool,            // _executor_closed
    lockOwner: Option<nat>,      // holder of _executor_lock
    closers: seq<Closer>,
    shutdownBy: Option<nat>,     // the closer that called executor.shutdown
    enqueued: seq<nat>,          // history of the queue's inputs
    pickedUp: seq<nat>           // history of its outputs
  )

  function Init(p: Params): State {
    State(p.config.Capacity(), ZERO, [], [], false, false, None, [], None, [], [])
  }

  // ----- Steps -----

  datatype CallerAct =
    | SetTimeout | SetTimeoutRaises
    | Acquire | Deny
    | RecordSubmission | Enqueue | SubmitRaises | SubmitRaisesLate
    | ReturnPermit | ShutAfterFailure | ShutAfterFailureRaises
    | CountDenial | SendDenial | SendDenialRaises | ShutDenied | ShutDeniedRaises

  /** Succeed and Record continue normally; Raise is an Exception, Escape any other BaseException. */
  datatype WorkerAct = RecordStart | Succeed | Raise | Escape | RecordEnd | Release | Retire

  datatype Step =
    | Arrive
    | Caller(i: nat, cact: CallerAct)
    | Pickup
    | Worker(i: nat, wact: WorkerAct)
    | CallShutdown(wait: bool)
    | Shut(k: nat)

  function When(b: bool, pc: CallerPc): Option<CallerPc> { if b then Some(pc) else None }

  /** Control flow of process_request, submit_request, _acquire_capacity and _reject_request. */
  function CallerNext(p: Params, pc: CallerPc, act: CallerAct): Option<CallerPc> {
    var policy := p.config.policy;
    match act
    case SetTimeout => When(pc.Arrived?, Acquiring)
    case SetTimeoutRaises => When(pc.Arrived? && p.config.hasTimeout, TimeoutRaised)
    case Acquire => When(pc.Acquiring?, Holding)
    case Deny => When(pc.Acquiring? && !policy.Block?, Denied)
    case RecordSubmission => When(pc.Holding?, Recorded)
    case Enqueue => When(pc.Recorded?, Submitted)
    case SubmitRaises => When(pc.Recorded?, SubmitRaised)
    case SubmitRaisesLate => When(pc.Recorded? && !p.atomicSubmit, SubmitRaised)
    case ReturnPermit => When(pc.SubmitRaised?, PermitBack)
    case ShutAfterFailure => When(pc.PermitBack?, FailedSubmit)
    case ShutAfterFailureRaises => When(pc.PermitBack?, FailedUnshut)
    case CountDenial => When(pc.Denied?, if policy.Fault? || policy.Http503? then DenialCounted else DenialSent)
    case SendDenial => When(pc.DenialCounted?, DenialSent)
    case SendDenialRaises => When(pc.DenialCounted? && policy.Fault?, RejectRaised)
    case ShutDenied => When(pc.DenialSent?, Rejected)
    case ShutDeniedRaises => When(pc.DenialSent?, RejectRaised)
  }

  function CallerEvent(p: Params, act: CallerAct): Option<Event> {
    match act
    case RecordSubmission => Some(Submission)
    case CountDenial =>
      Some(match p.config.policy
           case Fault => FaultRejection
           case Http503 => UnavailableRejection
           case _ => CloseRejection)
    case _ => None
  }

  /** Control flow of _process_request_worker. */
  function WorkerNext(pc: WorkerPc, act: WorkerAct): Option<WorkerPc> {
    match act
    case RecordStart => if pc.PickedUp? then Some(Serving) else None
    case Succeed =>
      if pc.Serving? then Some(Served)
      else if pc.Served? then Some(ServedShut)
      else if pc.Failing? then Some(FailureLogged)
      else if pc.FailureLogged? then Some(FailureShut)
      else None
    case Raise =>
      if pc.Serving? || pc.Served? then Some(Failing)
      else if pc.Failing? || pc.FailureLogged? then Some(Leaving(Abnormal))
      else None
    case Escape =>
      if pc.Serving? || pc.Served? || pc.Failing? || pc.FailureLogged? then Some(Leaving(Abnormal)) else None
    case RecordEnd =>
      if pc.ServedShut? then Some(Leaving(Completed))
      else if pc.FailureShut? then Some(Leaving(Errored))
      else None
    case Release => if pc.Leaving? then Some(Lingering(pc.out)) else None
    case Retire => if pc.Lingering? then Some(Retired(pc.out)) else None
  }

  function WorkerEvent(pc: WorkerPc, act: WorkerAct): Option<Event> {
    if act.RecordStart? then Some(Start)
    else if act.RecordEnd? then Some(if pc.ServedShut? then Completion else Failure)
    else None
  }

  function Count(c: Counters, e: Option<Event>): Counters {
    if e.Some? then Record(c, e.value) else c
  }

  /** Worker threads in use. */
  function Busy(requests: seq<Request>): int { Sum(Occupying, requests) }

  predicate CallerEnabled(p: Params, s: State, i: nat, act: CallerAct) {
    && i < |s.requests|
    && CallerNext(p, s.requests[i].caller, act).Some?
    && (act.Acquire? ==> s.permits > 0)
    && (act.Deny? ==> s.permits == 0)
    && (act.Enqueue? || act.SubmitRaisesLate? ==> !s.executorDown)
  }

  predicate CloserEnabled(s: State, k: nat) {
    && k < |s.closers|
    && match s.closers[k].pc
       case Calling => s.lockOwner.None?
       case Joining => s.queue == [] && Busy(s.requests) == 0
       case Returned => false
       case _ => true
  }

  predicate Enabled(p: Params, s: State, step: Step) {
    match step
    case Arrive => true
    case Caller(i, act) => CallerEnabled(p, s, i, act)
    case Pickup => s.queue != [] && s.queue[0] < |s.requests| && Busy(s.requests) < p.config.maxWorkers
    case Worker(i, act) => i < |s.requests| && WorkerNext(s.requests[i].worker, act).Some?
    case CallShutdown(_) => true
    case Shut(k) => CloserEnabled(s, k)
  }

  function AfterCaller(p: Params, r: Request, act: CallerAct): Request
    requires CallerNext(p, r.caller, act).Some?
  {
    Request(CallerNext(p, r.caller, act).value,
            if act.Enqueue? || act.SubmitRaisesLate? then Queued else r.worker,
            if act.ShutAfterFailure? || act.ShutDenied? then r.shuts + 1 else r.shuts)
  }

  function ApplyCaller(p: Params, s: State, i: nat, act: CallerAct): State
    requires CallerEnabled(p, s, i, act)
  {
    var added := if act.Enqueue? || act.SubmitRaisesLate? then [i] else [];
    s.(requests := s.requests[i := AfterCaller(p, s.requests[i], act)],
       permits := s.permits + (if act.Acquire? then -1 else if act.ReturnPermit? then 1 else 0),
       stats := Count(s.stats, CallerEvent(p, act)),
       queue := s.queue + added,
       enqueued := s.enqueued + added)
  }

  function AfterWorker(r: Request, act: WorkerAct): Request
    requires WorkerNext(r.worker, act).Some?
  {
    r.(worker := WorkerNext(r.worker, act).value,
       shuts := if act.Succeed? && (r.worker.Served? || r.worker.FailureLogged?) then r.shuts + 1 else r.shuts)
  }

  function ApplyWorker(s: State, i: nat, act: WorkerAct): State
    requires i < |s.requests| && WorkerNext(s.requests[i].worker, act).Some?
  {
    s.(requests := s.requests[i := AfterWorker(s.requests[i], act)],
       permits := s.permits + (if act.Release? then 1 else 0),
       stats := Count(s.stats, WorkerEvent(s.requests[i].worker, act)))
  }

  function ApplyPickup(s: State): State
    requires s.queue != [] && s.queue[0] < |s.requests|
  {
    var i := s.queue[0];
    s.(requests := s.requests[i := s.requests[i].(worker := PickedUp)],
       queue := s.queue[1..],
       pickedUp := s.pickedUp + [i])
  }

  /** Control flow of shutdown_executor. executor.shutdown makes later submits raise; with `wait`
      it returns only when the queue is empty and no worker thread is in a task. */
  function ApplyClose(s: State, k: nat): State
    requires CloserEnabled(s, k)
  {
    var c := s.closers[k];
    match c.pc
    case Calling => s.(closers := s.closers[k := c.(pc := Locked)], lockOwner := Some(k))
    case Locked =>
      if s.closedFlag then s.(closers := s.closers[k := c.(pc := Returned)], lockOwner := None)
      else s.(closers := s.closers[k := c.(pc := if c.wait then Joining else Joined)],
              executorDown := true, shutdownBy := Some(k))
    case Joining => s.(closers := s.closers[k := c.(pc := Joined)])
    case Joined => s.(closers := s.closers[k := c.(pc := Flagged)], closedFlag := true)
    case Flagged => s.(closers := s.closers[k := c.(pc := Returned)], lockOwner := None)
  }

  function Apply(p: Params, s: State, step: Step): State
    requires Enabled(p, s, step)
  {
    match step
    case Arrive => s.(requests := s.requests + [Request(Arrived, Unqueued, 0)])
    case Caller(i, act) => ApplyCaller(p, s, i, act)
    case Pickup => ApplyPickup(s)
    case Worker(i, act) => ApplyWorker(s, i, act)
    case CallShutdown(wait) => s.(closers := s.closers + [Closer(wait, Calling)])
    case Shut(k) => ApplyClose(s, k)
  }

  // ----- Runs -----

  /** The state after `steps`, if every one of them was enabled when its turn came. */
  function Run(p: Params, s: State, steps: seq<Step>): Option<State> {
    if steps == [] then Some(s)
    else
      var before := Run(p, s, steps[..|steps| - 1]);
      var last := steps[|steps| - 1];
      if before.Some? && Enabled(p, before.value, last) then Some(Apply(p, before.value, last)) else None
  }

  ghost predicate Reachable(p: Params, s: State) {
    exists steps: seq<Step> :: Run(p, Init(p), steps) == Some(s)
  }

  lemma RunSnoc(p: Params, s: State, steps: seq<Step>, t: State, step: Step)
    requires Run(p, s, steps) == Some(t) && Enabled(p, t, step)
    ensures Run(p, s, steps + [step]) == Some(Apply(p, t, step))
  {
    assert (steps + [step])[..|steps|] == steps;
  }

  lemma {:induction false} RunConcat(p: Params, s: State, first: seq<Step>, t: State, second: seq<Step>)
    requires Run(p, s, first) == Some(t)
    ensures Run(p, s, first + second) == Run(p, t, second)
  {
    hide Enabled, Apply;
    if second == [] {
      assert first + second == first;
    } else {
      var n := |second| - 1;
      assert (first + second)[..|first| + n] == first + second[..n];
      RunConcat(p, s, first, t, second[..n]);
    }
  }

  lemma ReachableRun(p: Params, s: State, steps: seq<Step>, t: State)
    requires Reachable(p, s) && Run(p, s, steps) == Some(t)
    ensures Reachable(p, t)
  {
    hide Run;
    var before :| Run(p, Init(p), before) == Some(s);
    RunConcat(p, Init(p), before, s, steps);
  }
}
