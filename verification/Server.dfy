/**
 ThreadPoolXMLRPCServer as an object (server.py). Each method is the code one thread runs when no
 other interferes, and its contract says that this is a run of Protocol, step by step in the order of
 the code: so everything proved about the protocol's interleavings is about this code.
 */
module Server {
  import opened Common
  import opened Settings
  import opened Counters
  import opened Requests
  import opened Protocol
  import Invariant
  import opened Octets
  import opened Framing
  import opened Sockets
  import opened Tracker

  /** threading.Semaphore, by contract. An acquire that would block is reported as not acquired. */
  class Semaphore {
    var value: nat

    constructor (n: nat)
      ensures value == n
    {
      value := n;
    }

    method Acquire() returns (ok: bool)
      modifies this
      ensures ok == (old(value) > 0)
      ensures value == if ok then old(value) - 1 else old(value)
    {
      ok := value > 0;
      if ok { value := value - 1; }
    }

    method Release()
      modifies this
      ensures value == old(value) + 1
    {
      value := value + 1;
    }
  }

  /** ThreadPoolExecutor, by contract: a FIFO queue; submit raises when it is shut down, or for a reason
      of its own, and has then queued nothing. */
  class Executor {
    var queue: seq<nat>
    var down: bool

    constructor ()
      ensures queue == [] && !down
    {
      queue, down := [], false;
    }

    method Submit(i: nat, otherFailure: bool) returns (ok: bool)
      modifies this
      ensures ok == !(old(down) || otherFailure)
      ensures queue == if ok then old(queue) + [i] else old(queue)
      ensures down == old(down)
    {
      ok := !(down || otherFailure);
      if ok { queue := queue + [i]; }
    }

    /** A worker thread takes the oldest task. */
    method Take() returns (i: nat)
      requires queue != []
      modifies this
      ensures i == old(queue[0]) && queue == old(queue)[1..] && down == old(down)
    {
      i := queue[0];
      queue := queue[1..];
    }

    method Shutdown()
      modifies this
      ensures down && queue == old(queue)
    {
      down := true;
    }
  }

  // ----- Outcomes, and the protocol steps each one stands for -----

  /** How _reject_request ends. */
  datatype Denial = ShutDown | ShutdownRaised | ResponseRaised

  datatype CallOutcome =
    | TimeoutFailed
    | StillBlocked                // policy Block, no permit: acquire has not returned
    | Admitted
    | SubmitFailed(shut: bool)    // RuntimeError raised again; was the connection shut down?
    | Refused(denial: Denial)

  datatype CloseOutcome = ClosedNow | AlreadyClosed | StillJoining

  /** Counting a rejection and, except under CLOSE, answering it. */
  function AnswerPath(c: Config, raised: bool): seq<CallerAct> {
    if c.policy.Close? then [CountDenial]
    else if raised then [CountDenial, SendDenialRaises]
    else [CountDenial, SendDenial]
  }

  function DenialPath(c: Config, d: Denial): seq<CallerAct> {
    match d
    case ShutDown => AnswerPath(c, false) + [ShutDenied]
    case ShutdownRaised => AnswerPath(c, false) + [ShutDeniedRaises]
    case ResponseRaised => AnswerPath(c, true)
  }

  /** The bytes that a rejected client gets. */
  function Answer(c: Config, payload: Option<Bytes>): Bytes {
    match c.policy
    case Fault => if payload.Some? then FaultResponse(payload.value) else []
    case Http503 => UnavailableResponse()
    case _ => []
  }

  /** What a client reads in it. */
  lemma AnswerExact(c: Config, payload: Option<Bytes>)
    ensures c.policy.Fault? && payload.Some? ==>
              ParseResponse(Answer(c, payload))
              == Some((Response(200, Ascii("OK"),
                                [Field(Ascii("Content-Type"), Ascii("text/xml")),
                                 Field(Ascii("Content-Length"), Decimal(|payload.value|)),
                                 Field(Ascii("Connection"), Ascii("close"))], payload.value), []))
    ensures c.policy.Http503? ==>
              ParseResponse(Answer(c, payload))
              == Some((Response(503, Ascii("Service Unavailable"),
                                [Field(Ascii("Content-Type"), Ascii("text/plain")),
                                 Field(Ascii("Content-Length"), Ascii("19")),
                                 Field(Ascii("Retry-After"), Ascii("1")),
                                 Field(Ascii("Connection"), Ascii("close"))], Ascii("Service Unavailable")), []))
    ensures c.policy.Close? ==> Answer(c, payload) == []
  {
    hide ParseResponse, FaultResponse, UnavailableResponse, Decimal, Ascii;
    if c.policy.Fault? && payload.Some? { FaultResponseRoundTrip(payload.value); }
    if c.policy.Http503? { UnavailableResponseRoundTrip(); }
  }

  lemma AnswerBytes(c: Config, payload: Option<Bytes>)
    ensures c.policy.Fault? && payload.Some? ==> Answer(c, payload) == FaultResponse(payload.value)
    ensures c.policy.Http503? ==> Answer(c, payload) == UnavailableResponse()
    ensures c.policy.Close? ==> Answer(c, payload) == []
  {
  }

  /** Returning the permit and shutting the connection down after a failed submit. */
  function GiveBackPath(shutdown: Ending): seq<CallerAct> {
    [ReturnPermit, if shutdown.Returns? then ShutAfterFailure else ShutAfterFailureRaises]
  }

  function CallPath(c: Config, o: CallOutcome): seq<CallerAct> {
    match o
    case TimeoutFailed => [SetTimeoutRaises]
    case StillBlocked => [SetTimeout]
    case Admitted => [SetTimeout, Acquire, RecordSubmission, Enqueue]
    case SubmitFailed(shut) =>
      [SetTimeout, Acquire, RecordSubmission, SubmitRaises, ReturnPermit,
       if shut then ShutAfterFailure else ShutAfterFailureRaises]
    case Refused(d) => [SetTimeout, Deny] + DenialPath(c, d)
  }

  function FailurePath(log: Ending, secondShutdown: Ending): seq<WorkerAct> {
    match log
    case RaisesException => [Raise]
    case RaisesOther => [Escape]
    case Returns =>
      match secondShutdown
      case Returns => [Succeed, Succeed, RecordEnd]
      case RaisesException => [Succeed, Raise]
      case RaisesOther => [Succeed, Escape]
  }

  function TaskBody(serve: Ending, shutdown: Ending, log: Ending, secondShutdown: Ending): seq<WorkerAct> {
    match serve
    case RaisesException => [Raise] + FailurePath(log, secondShutdown)
    case RaisesOther => [Escape]
    case Returns =>
      match shutdown
      case Returns => [Succeed, Succeed, RecordEnd]
      case RaisesException => [Succeed, Raise] + FailurePath(log, secondShutdown)
      case RaisesOther => [Succeed, Escape]
  }

  /** The steps of a task whose finish_request, shutdown_request, handle_error and second
      shutdown_request end in these ways (where they are reached). */
  function TaskPath(serve: Ending, shutdown: Ending, log: Ending, secondShutdown: Ending): seq<WorkerAct> {
    [RecordStart] + TaskBody(serve, shutdown, log, secondShutdown) + [Release]
  }

  function ActOf(e: Ending): WorkerAct {
    match e
    case Returns => Succeed
    case RaisesException => Raise
    case RaisesOther => Escape
  }

  function CallerSteps(i: nat, acts: seq<CallerAct>): (steps: seq<Step>)
    ensures |steps| == |acts|
  {
    if acts == [] then [] else CallerSteps(i, acts[..|acts| - 1]) + [Caller(i, acts[|acts| - 1])]
  }

  function WorkerSteps(i: nat, acts: seq<WorkerAct>): (steps: seq<Step>)
    ensures |steps| == |acts|
  {
    if acts == [] then [] else WorkerSteps(i, acts[..|acts| - 1]) + [Worker(i, acts[|acts| - 1])]
  }

  /** How many steps a shutdown_executor call has taken with this outcome. */
  function CloseLength(o: CloseOutcome, wait: bool): nat {
    match o
    case AlreadyClosed => 2
    case StillJoining => 2
    case ClosedNow => if wait then 5 else 4
  }

  function CloserSteps(k: nat, n: nat): seq<Step> {
    if n == 0 then [] else CloserSteps(k, n - 1) + [Shut(k)]
  }

  lemma NoStep(p: Params, s: State, i: nat)
    ensures Run(p, s, CallerSteps(i, [])) == Some(s) && Run(p, s, WorkerSteps(i, [])) == Some(s)
  {
  }

  lemma NoCloserStep(p: Params, s: State, k: nat)
    ensures Run(p, s, CloserSteps(k, 0)) == Some(s)
  {
  }

  lemma OneStep(p: Params, s: State, step: Step)
    requires Enabled(p, s, step)
    ensures Run(p, s, [step]) == Some(Apply(p, s, step))
  {
    hide Enabled, Apply;
    assert Run(p, s, []) == Some(s);
    RunSnoc(p, s, [], s, step);
    assert [] + [step] == [step];
  }

  lemma ReachableOne(p: Params, s: State, step: Step)
    requires Reachable(p, s) && Enabled(p, s, step)
    ensures Run(p, s, [step]) == Some(Apply(p, s, step)) && Reachable(p, Apply(p, s, step))
  {
    hide Run, Reachable, Enabled, Apply;
    OneStep(p, s, step);
    ReachableRun(p, s, [step], Apply(p, s, step));
  }

  /** One more step on the way from s. */
  lemma CallerStep(p: Params, s: State, i: nat, acts: seq<CallerAct>, t: State, act: CallerAct)
    requires Run(p, s, CallerSteps(i, acts)) == Some(t) && CallerEnabled(p, t, i, act)
    ensures Run(p, s, CallerSteps(i, acts + [act])) == Some(ApplyCaller(p, t, i, act))
  {
    assert (acts + [act])[..|acts|] == acts;
    RunSnoc(p, s, CallerSteps(i, acts), t, Caller(i, act));
  }

  lemma WorkerStep(p: Params, s: State, i: nat, acts: seq<WorkerAct>, t: State, act: WorkerAct)
    requires Run(p, s, WorkerSteps(i, acts)) == Some(t)
    requires i < |t.requests| && WorkerNext(t.requests[i].worker, act).Some?
    ensures Run(p, s, WorkerSteps(i, acts + [act])) == Some(ApplyWorker(t, i, act))
  {
    assert (acts + [act])[..|acts|] == acts;
    RunSnoc(p, s, WorkerSteps(i, acts), t, Worker(i, act));
  }

  lemma {:induction false} CallerStepsConcat(i: nat, a: seq<CallerAct>, b: seq<CallerAct>)
    ensures CallerSteps(i, a + b) == CallerSteps(i, a) + CallerSteps(i, b)
  {
    if b == [] {
      assert a + b == a;
    } else {
      var n := |b| - 1;
      assert (a + b)[..|a| + n] == a + b[..n];
      CallerStepsConcat(i, a, b[..n]);
    }
  }

  lemma CallerRunConcat(p: Params, s: State, i: nat, a: seq<CallerAct>, t: State, b: seq<CallerAct>, u: State)
    requires Run(p, s, CallerSteps(i, a)) == Some(t) && Run(p, t, CallerSteps(i, b)) == Some(u)
    ensures Run(p, s, CallerSteps(i, a + b)) == Some(u)
  {
    CallerStepsConcat(i, a, b);
    RunConcat(p, s, CallerSteps(i, a), t, CallerSteps(i, b));
  }

  lemma NewRequestIsIdle(rs: seq<Request>)
    ensures Busy(rs + [Request(Arrived, Unqueued, 0)]) == Busy(rs)
  {
    SumsAppend(rs, Request(Arrived, Unqueued, 0));
  }

  /** A call of process_request does not touch the worker threads. */
  lemma {:induction false} CallersLeaveWorkersAlone(p: Params, s: State, i: nat, acts: seq<CallerAct>)
    requires ValidParams(p) && Reachable(p, s) && Run(p, s, CallerSteps(i, acts)).Some?
    ensures Busy(Run(p, s, CallerSteps(i, acts)).value.requests) == Busy(s.requests)
  {
    hide Reachable, Busy, CallerNext;
    if acts != [] {
      var n := |acts| - 1;
      var steps := CallerSteps(i, acts);
      assert steps[..n] == CallerSteps(i, acts[..n]);
      CallersLeaveWorkersAlone(p, s, i, acts[..n]);
      var t := Run(p, s, steps[..n]).value;
      ReachableRun(p, s, steps[..n], t);
      Invariant.ReachableInv(p, t);
      Invariant.CallerKeepsQueue(p, t, i, acts[n]);
    }
  }

  // ----- The server -----

  class ThreadPoolServer {
    ghost const params: Params
    const config: Config
    const capacity: Semaphore
    const executor: Executor
    const stats: StatsTracker
    var executorClosed: bool
    var listening: bool
    ghost var requests: seq<Request>
    ghost var closers: seq<Closer>
    ghost var lockOwner: Option<nat>
    ghost var shutdownBy: Option<nat>
    ghost var enqueued: seq<nat>
    ghost var pickedUp: seq<nat>

    /** The protocol state that the object stands for. */
    ghost function Model(): State
      reads this, capacity, executor, stats
    {
      State(capacity.value, stats.Value(), executor.queue, requests, executor.down, executorClosed,
            lockOwner, closers, shutdownBy, enqueued, pickedUp)
    }

    ghost predicate Valid()
      reads this, capacity, executor, stats
    {
      Configured() && Reachable(params, Model())
    }

    ghost predicate Configured() { params.config == config && config.maxWorkers >= 1 }

    constructor (config: Config, ghost atomicSubmit: bool)
      requires config.maxWorkers >= 1
      ensures params == Params(config, atomicSubmit) && this.config == config
      ensures Valid() && Model() == Init(params) && listening
    {
      this.config := config;
      this.params := Params(config, atomicSubmit);
      capacity := new Semaphore(config.Capacity());
      executor := new Executor();
      stats := new StatsTracker();
      executorClosed, listening := false, true;
      requests, closers, lockOwner, shutdownBy, enqueued, pickedUp := [], [], None, None, [], [];
      new;
      assert Run(params, Init(params), []) == Some(Model());
    }

    /** To be called after the code of one step: checks that the object now stands for the state after
        that step of the protocol, and moves the ghost program counter along. */
    ghost method Mark(start: State, i: nat, path: seq<CallerAct>, s: State, act: CallerAct, shuts: nat)
      requires Run(params, start, CallerSteps(i, path)) == Some(s) && CallerEnabled(params, s, i, act)
      requires Model() == s.(permits := s.permits + One(act.ReturnPermit?) - One(act.Acquire?),
                             stats := Count(s.stats, CallerEvent(params, act)),
                             queue := if act.Enqueue? || act.SubmitRaisesLate? then s.queue + [i] else s.queue)
      requires shuts == AfterCaller(params, s.requests[i], act).shuts
      modifies this`requests, this`enqueued
      ensures requests == s.requests[i := AfterCaller(params, s.requests[i], act)]
      ensures Run(params, start, CallerSteps(i, path + [act])) == Some(Model())
    {
      hide Run, CallerSteps, CallerNext, CallerEvent, Count;
      assert s.queue + [] == s.queue && s.enqueued + [] == s.enqueued;
      requests := requests[i := AfterCaller(params, requests[i], act)];
      if act.Enqueue? || act.SubmitRaisesLate? { enqueued := enqueued + [i]; }
      CallerStep(params, start, i, path, s, act);
    }

    /** The same for a step of a worker. */
    ghost method MarkWorker(start: State, i: nat, path: seq<WorkerAct>, s: State, act: WorkerAct, shuts: nat)
      requires Run(params, start, WorkerSteps(i, path)) == Some(s)
      requires i < |s.requests| && WorkerNext(s.requests[i].worker, act).Some?
      requires Model() == s.(permits := s.permits + One(act.Release?),
                             stats := Count(s.stats, WorkerEvent(s.requests[i].worker, act)))
      requires shuts == AfterWorker(s.requests[i], act).shuts
      modifies this`requests
      ensures requests == s.requests[i := AfterWorker(s.requests[i], act)]
      ensures Run(params, start, WorkerSteps(i, path + [act])) == Some(Model())
    {
      hide Run, WorkerSteps, WorkerNext, WorkerEvent, Count;
      requests := requests[i := AfterWorker(requests[i], act)];
      WorkerStep(params, start, i, path, s, act);
    }

    /** The same for a step of a shutdown_executor call. */
    ghost method MarkCloser(start: State, k: nat, n: nat, s: State)
      requires Run(params, start, CloserSteps(k, n)) == Some(s) && CloserEnabled(s, k)
      requires Model() == ApplyClose(s, k).(closers := s.closers, lockOwner := s.lockOwner, shutdownBy := s.shutdownBy)
      modifies this`closers, this`lockOwner, this`shutdownBy
      ensures Model() == ApplyClose(s, k)
      ensures Run(params, start, CloserSteps(k, n + 1)) == Some(Model())
    {
      hide Run;
      var t := ApplyClose(s, k);
      closers, lockOwner, shutdownBy := t.closers, t.lockOwner, t.shutdownBy;
      RunSnoc(params, start, CloserSteps(k, n), s, Shut(k));
    }

    /** _send_fault_response; raises when the payload cannot be built or encoded. */
    method SendFaultResponse(c: Connection, payload: Option<Bytes>) returns (raised: bool)
      requires c.Valid()
      modifies c
      ensures c.Valid() && c.shuts == old(c.shuts)
      ensures raised == payload.None?
      ensures raised ==> c.sent == old(c.sent)
      ensures !raised && old(c.CanSend()) ==> c.sent == old(c.sent) + FaultResponse(payload.value)
      ensures c.halfClosed == (old(c.halfClosed) || (!raised && old(c.CanSend()) && c.halfCloseWorks))
      ensures c.consumed == old(c.consumed)
              + (if !raised && old(c.CanSend()) && c.halfCloseWorks && c.drainTimeoutWorks
                 then DrainLength(c.incoming[old(c.consumed)..]) else 0)
    {
      raised := payload.None?;
      if raised { return; }
      var ok := c.SendAll(FaultResponse(payload.value));
      if !ok { return; }
      c.HalfCloseAndDrain();
    }

    /** _send_503_response. */
    method SendUnavailableResponse(c: Connection)
      requires c.Valid()
      modifies c
      ensures c.Valid() && c.shuts == old(c.shuts)
      ensures old(c.CanSend()) ==> c.sent == old(c.sent) + UnavailableResponse()
      ensures c.halfClosed == (old(c.halfClosed) || (old(c.CanSend()) && c.halfCloseWorks))
      ensures c.consumed == old(c.consumed)
              + (if old(c.CanSend()) && c.halfCloseWorks && c.drainTimeoutWorks
                 then DrainLength(c.incoming[old(c.consumed)..]) else 0)
    {
      var ok := c.SendAll(UnavailableResponse());
      if !ok { return; }
      c.HalfCloseAndDrain();
    }

    /** _acquire_capacity. */
    method AcquireCapacity(i: nat) returns (ok: bool)
      requires Configured() && i < |requests| && requests[i].caller.Acquiring?
      modifies capacity, this`requests, this`enqueued
      ensures ok == (old(capacity.value) > 0)
      ensures capacity.value == old(capacity.value) - (if ok then 1 else 0)
      ensures !ok && config.policy.Block? ==> Model() == old(Model())
      ensures ok ==> Run(params, old(Model()), CallerSteps(i, [Acquire])) == Some(Model())
      ensures !ok && !config.policy.Block? ==> Run(params, old(Model()), CallerSteps(i, [Deny])) == Some(Model())
      ensures |requests| == old(|requests|) && requests[i].shuts == old(requests[i].shuts)
      ensures requests[i].caller == if ok then Holding else if config.policy.Block? then Acquiring else Denied
    {
      hide Run, CallerSteps;
      ghost var s := Model();
      NoStep(params, s, i);
      ok := capacity.Acquire();
      if ok || !config.policy.Block? {
        ghost var act := if ok then Acquire else Deny;
        Mark(s, i, [], s, act, requests[i].shuts);
        assert [] + [act] == [act];
      }
    }

    /** submit_request. The submission is recorded first, and not taken back when submit raises. */
    method SubmitRequest(i: nat, otherFailure: bool) returns (ok: bool)
      requires Configured() && i < |requests| && requests[i].caller.Holding?
      modifies stats, executor, this`requests, this`enqueued
      ensures ok == !(old(executor.down) || otherFailure)
      ensures executor.queue == old(executor.queue) + (if ok then [i] else [])
      ensures Run(params, old(Model()),
                  CallerSteps(i, [RecordSubmission, if ok then Enqueue else SubmitRaises])) == Some(Model())
      ensures |requests| == old(|requests|) && requests[i].shuts == old(requests[i].shuts)
      ensures requests[i].caller == if ok then Submitted else SubmitRaised
      ensures var v := old(stats.Value());
              stats.Value() == v.(submitted := v.submitted + 1)
    {
      hide Run, CallerSteps, StatsTracker.Value;
      ghost var s := Model();
      NoStep(params, s, i);
      stats.RecordSubmitted();
      Mark(s, i, [], s, RecordSubmission, requests[i].shuts);
      assert [] + [RecordSubmission] == [RecordSubmission];
      ghost var t := Model();
      ok := executor.Submit(i, otherFailure);
      ghost var act := if ok then Enqueue else SubmitRaises;
      Mark(s, i, [RecordSubmission], t, act, requests[i].shuts);
      assert [RecordSubmission] + [act] == [RecordSubmission, act];
    }

    /** The branches of _reject_request: counts the rejection and answers it if the policy says so. */
    method CountAndAnswer(i: nat, c: Connection, payload: Option<Bytes>) returns (raised: bool)
      requires Configured() && c.Valid() && i < |requests| && requests[i].caller.Denied?
      requires !config.policy.Block? && c.shuts == requests[i].shuts
      modifies stats, c, this`requests, this`enqueued
      ensures Run(params, old(Model()), CallerSteps(i, AnswerPath(config, raised))) == Some(Model())
      ensures raised == (config.policy.Fault? && payload.None?)
      ensures |requests| == old(|requests|)
      ensures !raised ==> requests[i].caller.DenialSent?
      ensures c.shuts == old(c.shuts) == requests[i].shuts
      ensures old(c.CanSend()) && !raised ==> c.sent == old(c.sent) + Answer(config, payload)
      ensures raised ==> c.sent == old(c.sent)
      ensures old(c.CanSend()) && !raised ==>
              && old(c.sent) <= c.sent
              && var added := c.sent[|old(c.sent)|..];
              match config.policy
              case Fault =>
                && payload.Some?
                && ParseResponse(added)
                   == Some((Response(200, Ascii("OK"),
                                     [Field(Ascii("Content-Type"), Ascii("text/xml")),
                                      Field(Ascii("Content-Length"), Decimal(|payload.value|)),
                                      Field(Ascii("Connection"), Ascii("close"))], payload.value), []))
              case Http503 =>
                ParseResponse(added)
                == Some((Response(503, Ascii("Service Unavailable"),
                                  [Field(Ascii("Content-Type"), Ascii("text/plain")),
                                   Field(Ascii("Content-Length"), Ascii("19")),
                                   Field(Ascii("Retry-After"), Ascii("1")),
                                   Field(Ascii("Connection"), Ascii("close"))], Ascii("Service Unavailable")), []))
              case _ => added == []
      ensures var v := old(stats.Value());
              stats.Value() == match config.policy
                               case Fault => v.(rejectedFault := v.rejectedFault + 1)
                               case Http503 => v.(rejected503 := v.rejected503 + 1)
                               case _ => v.(rejectedClose := v.rejectedClose + 1)
    {
      hide Run, CallerSteps, Answer, FaultResponse, UnavailableResponse, ParseResponse, Decimal, Ascii;
      hide StatsTracker.Value;
      AnswerExact(config, payload);
      AnswerBytes(config, payload);
      raised := false;
      if config.policy.Fault? {
        raised := RejectWithFault(i, c, payload);
      } else if config.policy.Http503? {
        RejectWith503(i, c);
      } else {
        ghost var s := Model();
        stats.RecordRejectedClose();
        MarkCount(s, i, CloseRejection);
      }
    }

    method RejectWithFault(i: nat, c: Connection, payload: Option<Bytes>) returns (raised: bool)
      requires Configured() && c.Valid() && i < |requests| && requests[i].caller.Denied?
      requires config.policy.Fault? && c.shuts == requests[i].shuts
      modifies stats, c, this`requests, this`enqueued
      ensures Run(params, old(Model()), CallerSteps(i, AnswerPath(config, raised))) == Some(Model())
      ensures raised == payload.None?
      ensures |requests| == old(|requests|) && (!raised ==> requests[i].caller.DenialSent?)
      ensures c.shuts == old(c.shuts) == requests[i].shuts
      ensures old(c.CanSend()) && !raised ==> c.sent == old(c.sent) + FaultResponse(payload.value)
      ensures raised ==> c.sent == old(c.sent)
      ensures var v := old(stats.Value());
              stats.Value() == v.(rejectedFault := v.rejectedFault + 1)
    {
      hide Run, CallerSteps, FaultResponse, StatsTracker.Value;
      ghost var s := Model();
      stats.RecordRejectedFault();
      MarkCount(s, i, FaultRejection);
      raised := SendFaultResponse(c, payload);
      MarkAnswer(s, i, raised);
    }

    method RejectWith503(i: nat, c: Connection)
      requires Configured() && c.Valid() && i < |requests| && requests[i].caller.Denied?
      requires config.policy.Http503? && c.shuts == requests[i].shuts
      modifies stats, c, this`requests, this`enqueued
      ensures Run(params, old(Model()), CallerSteps(i, AnswerPath(config, false))) == Some(Model())
      ensures |requests| == old(|requests|) && requests[i].caller.DenialSent?
      ensures c.shuts == old(c.shuts) == requests[i].shuts
      ensures old(c.CanSend()) ==> c.sent == old(c.sent) + UnavailableResponse()
      ensures var v := old(stats.Value());
              stats.Value() == v.(rejected503 := v.rejected503 + 1)
    {
      hide Run, CallerSteps, UnavailableResponse, StatsTracker.Value;
      ghost var s := Model();
      stats.RecordRejected503();
      MarkCount(s, i, UnavailableRejection);
      SendUnavailableResponse(c);
      MarkAnswer(s, i, false);
    }

    ghost method MarkCount(start: State, i: nat, e: Event)
      requires i < |requests| && requests[i].caller.Denied?
      requires Configured() && CallerEvent(params, CountDenial) == Some(e)
      requires Model() == start.(stats := Record(start.stats, e))
      modifies this`requests, this`enqueued
      ensures Run(params, start, CallerSteps(i, [CountDenial])) == Some(Model())
      ensures |requests| == old(|requests|)
      ensures requests[i] == old(requests[i]).(caller := if config.policy.Fault? || config.policy.Http503?
                                                         then DenialCounted else DenialSent)
    {
      hide Run, CallerSteps, Record;
      NoStep(params, start, i);
      Mark(start, i, [], start, CountDenial, requests[i].shuts);
      assert [] + [CountDenial] == [CountDenial];
    }

    ghost method MarkAnswer(start: State, i: nat, raised: bool)
      requires Run(params, start, CallerSteps(i, [CountDenial])) == Some(Model())
      requires i < |requests| && requests[i].caller.DenialCounted?
      requires Configured() && !config.policy.Close? && (raised ==> config.policy.Fault?)
      modifies this`requests, this`enqueued
      ensures Run(params, start, CallerSteps(i, AnswerPath(config, raised))) == Some(Model())
      ensures |requests| == old(|requests|)
      ensures requests[i].shuts == old(requests[i].shuts)
      ensures !raised ==> requests[i].caller.DenialSent?
    {
      hide Run, CallerSteps;
      var act := if raised then SendDenialRaises else SendDenial;
      Mark(start, i, [CountDenial], Model(), act, requests[i].shuts);
      assert [CountDenial] + [act] == AnswerPath(config, raised);
    }

    /** _reject_request: counts the rejection, answers it if the policy says so, shuts the connection. */
    method RejectRequest(i: nat, c: Connection, payload: Option<Bytes>, shutdown: Ending) returns (d: Denial)
      requires Configured() && c.Valid() && i < |requests| && requests[i].caller.Denied?
      requires !config.policy.Block? && c.shuts == requests[i].shuts
      modifies stats, c, this`requests, this`enqueued
      ensures Run(params, old(Model()), CallerSteps(i, DenialPath(config, d))) == Some(Model())
      ensures d == if config.policy.Fault? && payload.None? then ResponseRaised
                   else if shutdown.Returns? then ShutDown else ShutdownRaised
      ensures |requests| == old(|requests|)
      ensures c.shuts == old(c.shuts) + (if d.ShutDown? then 1 else 0) == requests[i].shuts
      ensures old(c.CanSend()) && !d.ResponseRaised? ==> c.sent == old(c.sent) + Answer(config, payload)
      ensures d.ResponseRaised? ==> c.sent == old(c.sent)
      ensures old(c.CanSend()) && !d.ResponseRaised? ==>
              && old(c.sent) <= c.sent
              && var added := c.sent[|old(c.sent)|..];
              match config.policy
              case Fault =>
                && payload.Some?
                && ParseResponse(added)
                   == Some((Response(200, Ascii("OK"),
                                     [Field(Ascii("Content-Type"), Ascii("text/xml")),
                                      Field(Ascii("Content-Length"), Decimal(|payload.value|)),
                                      Field(Ascii("Connection"), Ascii("close"))], payload.value), []))
              case Http503 =>
                ParseResponse(added)
                == Some((Response(503, Ascii("Service Unavailable"),
                                  [Field(Ascii("Content-Type"), Ascii("text/plain")),
                                   Field(Ascii("Content-Length"), Ascii("19")),
                                   Field(Ascii("Retry-After"), Ascii("1")),
                                   Field(Ascii("Connection"), Ascii("close"))], Ascii("Service Unavailable")), []))
              case _ => added == []
      ensures var v := old(stats.Value());
              stats.Value() == match config.policy
                               case Fault => v.(rejectedFault := v.rejectedFault + 1)
                               case Http503 => v.(rejected503 := v.rejected503 + 1)
                               case _ => v.(rejectedClose := v.rejectedClose + 1)
    {
      hide Run, CallerSteps, Answer, ParseResponse, Decimal, Ascii, StatsTracker.Value;
      ghost var s := Model();
      var raised := CountAndAnswer(i, c, payload);
      if raised { return ResponseRaised; }
      c.ShutdownRequest(shutdown);
      ghost var last := if shutdown.Returns? then ShutDenied else ShutDeniedRaises;
      Mark(s, i, AnswerPath(config, false), Model(), last, c.shuts);
      d := if shutdown.Returns? then ShutDown else ShutdownRaised;
      assert AnswerPath(config, false) + [last] == DenialPath(config, d);
    }

    /** settimeout has returned or raised. */
    ghost method MarkTimeout(i: nat, raises: bool)
      requires Configured() && i < |requests| && requests[i].caller.Arrived? && (raises ==> config.hasTimeout)
      modifies this`requests, this`enqueued
      ensures Run(params, old(Model()), CallerSteps(i, [if raises then SetTimeoutRaises else SetTimeout]))
              == Some(Model())
      ensures |requests| == old(|requests|) && requests[i].shuts == old(requests[i].shuts)
      ensures !raises ==> requests[i].caller.Acquiring?
    {
      hide Run, CallerSteps;
      var s := Model();
      NoStep(params, s, i);
      var act := if raises then SetTimeoutRaises else SetTimeout;
      Mark(s, i, [], s, act, requests[i].shuts);
      assert [] + [act] == [act];
    }

    /** process_request, for a call that has just arrived: which of its endings happens when, what it
        leaves behind, and that its code takes the protocol's steps in the protocol's order. */
    method ProcessRequest(i: nat, c: Connection, otherFailure: bool, payload: Option<Bytes>, shutdown: Ending)
      returns (o: CallOutcome)
      requires Valid() && c.Valid() && i < |requests| && requests[i].caller.Arrived? && c.shuts == requests[i].shuts
      modifies this`requests, this`enqueued, capacity, executor, stats, c
      ensures Valid()
      ensures Run(params, old(Model()), CallerSteps(i, CallPath(config, o))) == Some(Model())
      ensures o.TimeoutFailed? <==> config.hasTimeout && !c.timeoutWorks
      ensures o.StillBlocked? <==> !o.TimeoutFailed? && old(capacity.value) == 0 && config.policy.Block?
      ensures o.Refused? <==> !o.TimeoutFailed? && old(capacity.value) == 0 && !config.policy.Block?
      ensures o.Admitted? <==> !o.TimeoutFailed? && old(capacity.value) > 0 && !old(executor.down) && !otherFailure
      ensures capacity.value == old(capacity.value) - (if o.Admitted? then 1 else 0)
      ensures executor.queue == old(executor.queue) + (if o.Admitted? then [i] else [])
      ensures |requests| == old(|requests|)
      ensures c.shuts == old(c.shuts)
              + (if o == SubmitFailed(true) || o == Refused(ShutDown) then 1 else 0) == requests[i].shuts
      ensures !o.Refused? || o.denial.ResponseRaised? ==> c.sent == old(c.sent)
      ensures !o.Refused? ==> c.consumed == old(c.consumed) && c.halfClosed == old(c.halfClosed)
      ensures o.Refused? && !o.denial.ResponseRaised? && old(c.CanSend()) ==>
              && old(c.sent) <= c.sent
              && var added := c.sent[|old(c.sent)|..];
              match config.policy
              case Fault =>
                && payload.Some?
                && ParseResponse(added)
                   == Some((Response(200, Ascii("OK"),
                                     [Field(Ascii("Content-Type"), Ascii("text/xml")),
                                      Field(Ascii("Content-Length"), Decimal(|payload.value|)),
                                      Field(Ascii("Connection"), Ascii("close"))], payload.value), []))
              case Http503 =>
                ParseResponse(added)
                == Some((Response(503, Ascii("Service Unavailable"),
                                  [Field(Ascii("Content-Type"), Ascii("text/plain")),
                                   Field(Ascii("Content-Length"), Ascii("19")),
                                   Field(Ascii("Retry-After"), Ascii("1")),
                                   Field(Ascii("Connection"), Ascii("close"))], Ascii("Service Unavailable")), []))
              case _ => added == []
      ensures var v := old(stats.Value());
              stats.Value() == match o
                               case TimeoutFailed => v
                               case StillBlocked => v
                               case Admitted => v.(submitted := v.submitted + 1)
                               case SubmitFailed(_) => v.(submitted := v.submitted + 1)
                               case Refused(_) =>
                                 match config.policy
                                 case Fault => v.(rejectedFault := v.rejectedFault + 1)
                                 case Http503 => v.(rejected503 := v.rejected503 + 1)
                                 case _ => v.(rejectedClose := v.rejectedClose + 1)
    {
      hide Run, CallerSteps, Reachable, Answer, ParseResponse, Decimal, Ascii, CallerNext, ApplyCaller, DenialPath;
      hide StatsTracker.Value;
      AnswerExact(config, payload);
      ghost var s := Model();
      var raises := config.hasTimeout && !c.timeoutWorks;
      MarkTimeout(i, raises);
      if raises {
        o := TimeoutFailed;
      } else {
        o := AdmitOrReject(s, i, c, otherFailure, payload, shutdown);
      }
      ReachableRun(params, s, CallerSteps(i, CallPath(config, o)), Model());
    }

    /** process_request after its settimeout. */
    method AdmitOrReject(ghost start: State, i: nat, c: Connection, otherFailure: bool, payload: Option<Bytes>,
                         shutdown: Ending)
      returns (o: CallOutcome)
      requires Configured() && c.Valid() && i < |requests| && requests[i].caller.Acquiring?
      requires Run(params, start, CallerSteps(i, [SetTimeout])) == Some(Model()) && c.shuts == requests[i].shuts
      modifies this`requests, this`enqueued, capacity, executor, stats, c
      ensures Run(params, start, CallerSteps(i, CallPath(config, o))) == Some(Model()) && !o.TimeoutFailed?
      ensures o.StillBlocked? <==> old(capacity.value) == 0 && config.policy.Block?
      ensures o.Refused? <==> old(capacity.value) == 0 && !config.policy.Block?
      ensures o.Admitted? <==> old(capacity.value) > 0 && !old(executor.down) && !otherFailure
      ensures capacity.value == old(capacity.value) - (if o.Admitted? then 1 else 0)
      ensures executor.queue == old(executor.queue) + (if o.Admitted? then [i] else [])
      ensures |requests| == old(|requests|)
      ensures c.shuts == old(c.shuts)
              + (if o == SubmitFailed(true) || o == Refused(ShutDown) then 1 else 0) == requests[i].shuts
      ensures o.Refused? && !o.denial.ResponseRaised? && old(c.CanSend()) ==>
                c.sent == old(c.sent) + Answer(config, payload)
      ensures o.Refused? && o.denial.ResponseRaised? ==> config.policy.Fault? && payload.None?
      ensures o.Refused? && config.policy.Fault? && payload.None? ==> o.denial.ResponseRaised?
      ensures !o.Refused? || o.denial.ResponseRaised? ==> c.sent == old(c.sent)
      ensures !o.Refused? ==> c.consumed == old(c.consumed) && c.halfClosed == old(c.halfClosed)
      ensures var v := old(stats.Value());
              stats.Value() == match o
                               case TimeoutFailed => v
                               case StillBlocked => v
                               case Admitted => v.(submitted := v.submitted + 1)
                               case SubmitFailed(_) => v.(submitted := v.submitted + 1)
                               case Refused(_) =>
                                 match config.policy
                                 case Fault => v.(rejectedFault := v.rejectedFault + 1)
                                 case Http503 => v.(rejected503 := v.rejected503 + 1)
                                 case _ => v.(rejectedClose := v.rejectedClose + 1)
    {
      hide Run, CallerSteps, DenialPath, Answer, ApplyCaller, ParseResponse, Decimal, Ascii, StatsTracker.Value;
      ghost var t := Model();
      var ok := AcquireCapacity(i);
      if ok {
        CallerRunConcat(params, start, i, [SetTimeout], t, [Acquire], Model());
        assert [SetTimeout] + [Acquire] == [SetTimeout, Acquire];
        o := SubmitOrGiveBack(start, i, c, otherFailure, shutdown);
      } else if config.policy.Block? {
        o := StillBlocked;
      } else {
        CallerRunConcat(params, start, i, [SetTimeout], t, [Deny], Model());
        assert [SetTimeout] + [Deny] == [SetTimeout, Deny];
        o := Refuse(start, i, c, payload, shutdown);
      }
    }

    /** process_request without a permit: reject and return. */
    method Refuse(ghost start: State, i: nat, c: Connection, payload: Option<Bytes>, shutdown: Ending)
      returns (o: CallOutcome)
      requires Configured() && c.Valid() && i < |requests| && requests[i].caller.Denied? && !config.policy.Block?
      requires Run(params, start, CallerSteps(i, [SetTimeout, Deny])) == Some(Model()) && c.shuts == requests[i].shuts
      modifies this`requests, this`enqueued, stats, c
      ensures Run(params, start, CallerSteps(i, CallPath(config, o))) == Some(Model()) && o.Refused?
      ensures |requests| == old(|requests|)
      ensures c.shuts == old(c.shuts) + (if o == Refused(ShutDown) then 1 else 0) == requests[i].shuts
      ensures o.denial.ResponseRaised? <==> config.policy.Fault? && payload.None?
      ensures o.denial.ResponseRaised? ==> c.sent == old(c.sent)
      ensures !o.denial.ResponseRaised? && old(c.CanSend()) ==> c.sent == old(c.sent) + Answer(config, payload)
      ensures var v := old(stats.Value());
              stats.Value() == match config.policy
                               case Fault => v.(rejectedFault := v.rejectedFault + 1)
                               case Http503 => v.(rejected503 := v.rejected503 + 1)
                               case _ => v.(rejectedClose := v.rejectedClose + 1)
    {
      hide Run, CallerSteps, DenialPath, Answer, ParseResponse, Decimal, Ascii, StatsTracker.Value;
      ghost var t := Model();
      var d := RejectRequest(i, c, payload, shutdown);
      CallerRunConcat(params, start, i, [SetTimeout, Deny], t, DenialPath(config, d), Model());
      o := Refused(d);
    }

    /** The try block of process_request, and its handler: release, shut down, raise again. */
    method SubmitOrGiveBack(ghost start: State, i: nat, c: Connection, otherFailure: bool, shutdown: Ending)
      returns (o: CallOutcome)
      requires Configured() && i < |requests| && requests[i].caller.Holding?
      requires Run(params, start, CallerSteps(i, [SetTimeout, Acquire])) == Some(Model())
      requires c.shuts == requests[i].shuts
      modifies this`requests, this`enqueued, capacity, executor, stats, c
      ensures Run(params, start, CallerSteps(i, CallPath(config, o))) == Some(Model())
      ensures o == if old(executor.down) || otherFailure then SubmitFailed(shutdown.Returns?) else Admitted
      ensures capacity.value == old(capacity.value) + (if o.Admitted? then 0 else 1)
      ensures executor.queue == old(executor.queue) + (if o.Admitted? then [i] else [])
      ensures |requests| == old(|requests|)
      ensures c.shuts == old(c.shuts) + (if o == SubmitFailed(true) then 1 else 0) == requests[i].shuts
      ensures c.sent == old(c.sent) && c.consumed == old(c.consumed) && c.halfClosed == old(c.halfClosed)
      ensures var v := old(stats.Value());
              stats.Value() == v.(submitted := v.submitted + 1)
    {
      hide Run, CallerSteps, ApplyCaller, StatsTracker.Value;
      ghost var s := Model();
      var submitted := SubmitRequest(i, otherFailure);
      ghost var first := if submitted then Enqueue else SubmitRaises;
      CallerRunConcat(params, start, i, [SetTimeout, Acquire], s, [RecordSubmission, first], Model());
      ghost var path := [SetTimeout, Acquire] + [RecordSubmission, first];
      assert path == [SetTimeout, Acquire, RecordSubmission, first];
      if submitted {
        o := Admitted;
      } else {
        GiveBack(start, i, path, c, shutdown);
        o := SubmitFailed(shutdown.Returns?);
        assert path + GiveBackPath(shutdown) == CallPath(config, o);
      }
    }

    /** The except block of process_request, up to the raise. */
    method GiveBack(ghost start: State, i: nat, ghost path: seq<CallerAct>, c: Connection, shutdown: Ending)
      requires Run(params, start, CallerSteps(i, path)) == Some(Model())
      requires i < |requests| && requests[i].caller.SubmitRaised? && c.shuts == requests[i].shuts
      modifies this`requests, this`enqueued, capacity, c
      ensures Run(params, start, CallerSteps(i, path + GiveBackPath(shutdown))) == Some(Model())
      ensures capacity.value == old(capacity.value) + 1 && |requests| == old(|requests|)
      ensures c.shuts == old(c.shuts) + (if shutdown.Returns? then 1 else 0) == requests[i].shuts
      ensures c.sent == old(c.sent) && c.consumed == old(c.consumed) && c.halfClosed == old(c.halfClosed)
    {
      hide Run, CallerSteps;
      ghost var s := Model();
      capacity.Release();
      Mark(start, i, path, s, ReturnPermit, c.shuts);
      s := Model();
      c.ShutdownRequest(shutdown);
      ghost var last := if shutdown.Returns? then ShutAfterFailure else ShutAfterFailureRaises;
      Mark(start, i, path + [ReturnPermit], s, last, c.shuts);
      assert path + [ReturnPermit] + [last] == path + GiveBackPath(shutdown);
    }

    /** The accept loop has a new connection and is about to call process_request on it. */
    ghost method Accept() returns (i: nat)
      requires Valid()
      modifies this`requests
      ensures Valid() && Run(params, old(Model()), [Arrive]) == Some(Model())
      ensures i == |old(requests)| && requests == old(requests) + [Request(Arrived, Unqueued, 0)]
    {
      hide Run, Reachable;
      i := |requests|;
      ReachableOne(params, Model(), Arrive);
      requests := requests + [Request(Arrived, Unqueued, 0)];
    }

    /** An idle worker thread of the executor takes the oldest task. */
    method PickUp() returns (i: nat)
      requires Valid() && executor.queue != [] && Busy(requests) < config.maxWorkers
      modifies this`requests, this`pickedUp, executor
      ensures Valid() && Run(params, old(Model()), [Pickup]) == Some(Model())
      ensures i == old(executor.queue[0]) && executor.queue == old(executor.queue)[1..]
      ensures |requests| == old(|requests|) && i < |requests|
      ensures requests == old(requests)[i := old(requests)[i].(worker := PickedUp)]
    {
      hide Run, Reachable, Busy;
      ghost var s := Model();
      assert executor.queue[0] < |requests| by {
        Invariant.ReachableInv(params, s);
        assert s.enqueued[|s.pickedUp|] == s.queue[0];
      }
      ReachableOne(params, s, Pickup);
      i := executor.Take();
      requests := requests[i := requests[i].(worker := PickedUp)];
      pickedUp := pickedUp + [i];
    }

    /** The worker thread that ran request i is free again. */
    ghost method Finish(i: nat)
      requires Valid() && i < |requests| && requests[i].worker.Lingering?
      modifies this`requests
      ensures Valid() && Run(params, old(Model()), [Worker(i, Retire)]) == Some(Model())
      ensures requests == old(requests)[i := old(requests)[i].(worker := Retired(old(requests[i].worker.out)))]
    {
      hide Run, Reachable;
      ReachableOne(params, Model(), Worker(i, Retire));
      requests := requests[i := AfterWorker(requests[i], Retire)];
    }

    /** Somebody is about to call shutdown_executor. */
    ghost method Close(wait: bool) returns (k: nat)
      requires Valid()
      modifies this`closers
      ensures Valid() && Run(params, old(Model()), [CallShutdown(wait)]) == Some(Model())
      ensures k == |old(closers)| < |closers| && closers[k] == Closer(wait, Calling)
    {
      hide Run, Reachable;
      k := |closers|;
      ReachableOne(params, Model(), CallShutdown(wait));
      closers := closers + [Closer(wait, Calling)];
    }

    /** _process_request_worker, on a task that has been picked up. The four endings are those of
        finish_request, shutdown_request, handle_error and the second shutdown_request, where reached.
        The permit comes back whatever they are; only the counters tell the endings apart. */
    method ProcessRequestWorker(i: nat, c: Connection, serve: Ending, shutdown: Ending, log: Ending,
                                secondShutdown: Ending)
      returns (o: Outcome)
      requires Valid() && i < |requests| && requests[i].worker.PickedUp? && c.shuts == requests[i].shuts
      modifies this`requests, capacity, stats, c
      ensures Valid()
      ensures Run(params, old(Model()), WorkerSteps(i, TaskPath(serve, shutdown, log, secondShutdown))) == Some(Model())
      ensures capacity.value == old(capacity.value) + 1
      ensures o.Completed? <==> serve.Returns? && shutdown.Returns?
      ensures o.Errored? <==> (serve.RaisesException? || (serve.Returns? && shutdown.RaisesException?))
                              && log.Returns? && secondShutdown.Returns?
      ensures |requests| == old(|requests|) && requests[i].worker == Lingering(o)
      ensures c.shuts == old(c.shuts) + (if o.Abnormal? then 0 else 1) == requests[i].shuts
      ensures var v := old(stats.Value());
              stats.Value() == match o
                               case Completed => v.(submitted := v.submitted - 1, completed := v.completed + 1)
                               case Errored => v.(submitted := v.submitted - 1, errored := v.errored + 1)
                               case Abnormal => v.(submitted := v.submitted - 1, active := v.active + 1)
    {
      hide Run, WorkerSteps, Reachable, StatsTracker.Value;
      ghost var s := Model();
      NoStep(params, s, i);
      ghost var path: seq<WorkerAct>;
      o, path := RunTask(i, c, serve, shutdown, log, secondShutdown);
      ghost var t := Model();
      capacity.Release();
      MarkWorker(s, i, path, t, Release, c.shuts);
      assert path + [Release] == TaskPath(serve, shutdown, log, secondShutdown);
      ReachableRun(params, s, WorkerSteps(i, TaskPath(serve, shutdown, log, secondShutdown)), Model());
    }

    /** The worker up to the end of finish_request. */
    method BeginTask(i: nat, c: Connection, serve: Ending)
      requires i < |requests| && requests[i].worker.PickedUp? && c.shuts == requests[i].shuts
      modifies this`requests, stats
      ensures Run(params, old(Model()), WorkerSteps(i, [RecordStart, ActOf(serve)])) == Some(Model())
      ensures |requests| == old(|requests|) && requests[i].shuts == c.shuts
      ensures requests[i].worker == match serve
                                    case Returns => Served
                                    case RaisesException => Failing
                                    case RaisesOther => Leaving(Abnormal)
      ensures var v := old(stats.Value());
              stats.Value() == v.(submitted := v.submitted - 1, active := v.active + 1)
    {
      hide Run, WorkerSteps, StatsTracker.Value;
      ghost var s := Model();
      NoStep(params, s, i);
      stats.RecordStarted();
      MarkWorker(s, i, [], s, RecordStart, c.shuts);
      assert [] + [RecordStart] == [RecordStart];
      MarkWorker(s, i, [RecordStart], Model(), ActOf(serve), c.shuts);
      assert [RecordStart] + [ActOf(serve)] == [RecordStart, ActOf(serve)];
    }

    /** The worker's code before its finally block. */
    method RunTask(i: nat, c: Connection, serve: Ending, shutdown: Ending, log: Ending, secondShutdown: Ending)
      returns (o: Outcome, ghost path: seq<WorkerAct>)
      requires i < |requests| && requests[i].worker.PickedUp? && c.shuts == requests[i].shuts
      modifies this`requests, stats, c
      ensures path == [RecordStart] + TaskBody(serve, shutdown, log, secondShutdown)
      ensures Run(params, old(Model()), WorkerSteps(i, path)) == Some(Model())
      ensures o.Completed? <==> serve.Returns? && shutdown.Returns?
      ensures o.Errored? <==> (serve.RaisesException? || (serve.Returns? && shutdown.RaisesException?))
                              && log.Returns? && secondShutdown.Returns?
      ensures |requests| == old(|requests|) && requests[i].worker == Leaving(o)
      ensures c.shuts == old(c.shuts) + (if o.Abnormal? then 0 else 1) == requests[i].shuts
      ensures var v := old(stats.Value());
              stats.Value() == match o
                               case Completed => v.(submitted := v.submitted - 1, completed := v.completed + 1)
                               case Errored => v.(submitted := v.submitted - 1, errored := v.errored + 1)
                               case Abnormal => v.(submitted := v.submitted - 1, active := v.active + 1)
    {
      hide Run, WorkerSteps, FailurePath, Record, WorkerNext, StatsTracker.Value;
      ghost var s := Model();
      BeginTask(i, c, serve);
      path := [RecordStart, ActOf(serve)];
      if serve.Returns? {
        ghost var more;
        o, more := ShutServed(s, i, path, c, shutdown, log, secondShutdown);
        assert path + more == [RecordStart] + ([Succeed] + more);
        path := path + more;
      } else if serve.RaisesException? {
        ghost var more;
        o, more := HandleFailure(s, i, path, c, log, secondShutdown);
        path := path + more;
      } else {
        o := Abnormal;
      }
      assert path == [RecordStart] + TaskBody(serve, shutdown, log, secondShutdown);
    }

    /** After finish_request has returned. */
    method ShutServed(ghost start: State, i: nat, ghost path: seq<WorkerAct>, c: Connection, shutdown: Ending,
                      log: Ending, secondShutdown: Ending)
      returns (o: Outcome, ghost more: seq<WorkerAct>)
      requires Run(params, start, WorkerSteps(i, path)) == Some(Model())
      requires i < |requests| && requests[i].worker.Served? && c.shuts == requests[i].shuts
      modifies this`requests, stats, c
      ensures [Succeed] + more == TaskBody(Returns, shutdown, log, secondShutdown)
      ensures Run(params, start, WorkerSteps(i, path + more)) == Some(Model())
      ensures o.Completed? <==> shutdown.Returns?
      ensures o.Errored? <==> shutdown.RaisesException? && log.Returns? && secondShutdown.Returns?
      ensures |requests| == old(|requests|) && requests[i].worker == Leaving(o)
      ensures c.shuts == old(c.shuts) + (if o.Abnormal? then 0 else 1) == requests[i].shuts
      ensures var v := old(stats.Value());
              stats.Value() == match o
                               case Completed => v.(active := v.active - 1, completed := v.completed + 1)
                               case Errored => v.(active := v.active - 1, errored := v.errored + 1)
                               case Abnormal => v
    {
      hide Run, WorkerSteps, FailurePath, StatsTracker.Value;
      ghost var s := Model();
      c.ShutdownRequest(shutdown);
      MarkWorker(start, i, path, s, ActOf(shutdown), c.shuts);
      more := [ActOf(shutdown)];
      o := Abnormal;
      if shutdown.Returns? {
        CountCompletion(start, i, path + [Succeed]);
        more := [Succeed, RecordEnd];
        assert path + [Succeed] + [RecordEnd] == path + more;
        o := Completed;
      } else if shutdown.RaisesException? {
        o, more := HandleFailure(start, i, path + [Raise], c, log, secondShutdown);
        assert path + [Raise] + more == path + ([Raise] + more);
        more := [Raise] + more;
      }
      assert [Succeed] + more == TaskBody(Returns, shutdown, log, secondShutdown);
    }

    method CountCompletion(ghost start: State, i: nat, ghost path: seq<WorkerAct>)
      requires Run(params, start, WorkerSteps(i, path)) == Some(Model())
      requires i < |requests| && requests[i].worker.ServedShut?
      modifies this`requests, stats
      ensures Run(params, start, WorkerSteps(i, path + [RecordEnd])) == Some(Model())
      ensures requests == old(requests)[i := old(requests)[i].(worker := Leaving(Completed))]
      ensures var v := old(stats.Value());
              stats.Value() == v.(active := v.active - 1, completed := v.completed + 1)
    {
      hide Run, WorkerSteps, StatsTracker.Value;
      ghost var s := Model();
      stats.RecordCompleted();
      MarkWorker(start, i, path, s, RecordEnd, requests[i].shuts);
    }

    method CountError(ghost start: State, i: nat, ghost path: seq<WorkerAct>)
      requires Run(params, start, WorkerSteps(i, path)) == Some(Model())
      requires i < |requests| && requests[i].worker.FailureShut?
      modifies this`requests, stats
      ensures Run(params, start, WorkerSteps(i, path + [RecordEnd])) == Some(Model())
      ensures requests == old(requests)[i := old(requests)[i].(worker := Leaving(Errored))]
      ensures var v := old(stats.Value());
              stats.Value() == v.(active := v.active - 1, errored := v.errored + 1)
    {
      hide Run, WorkerSteps, StatsTracker.Value;
      ghost var s := Model();
      stats.RecordErrored();
      MarkWorker(start, i, path, s, RecordEnd, requests[i].shuts);
    }

    /** The except block of the worker: if handle_error or the second shutdown raises, the error goes
        unrecorded. */
    method HandleFailure(ghost start: State, i: nat, ghost path: seq<WorkerAct>, c: Connection, log: Ending,
                         secondShutdown: Ending)
      returns (o: Outcome, ghost more: seq<WorkerAct>)
      requires Run(params, start, WorkerSteps(i, path)) == Some(Model())
      requires i < |requests| && requests[i].worker.Failing? && c.shuts == requests[i].shuts
      modifies this`requests, stats, c
      ensures more == FailurePath(log, secondShutdown)
      ensures Run(params, start, WorkerSteps(i, path + more)) == Some(Model())
      ensures o == if log.Returns? && secondShutdown.Returns? then Errored else Abnormal
      ensures |requests| == old(|requests|) && requests[i].worker == Leaving(o)
      ensures c.shuts == old(c.shuts) + (if o.Abnormal? then 0 else 1) == requests[i].shuts
      ensures var v := old(stats.Value());
              stats.Value() == match o
                               case Completed => v.(active := v.active - 1, completed := v.completed + 1)
                               case Errored => v.(active := v.active - 1, errored := v.errored + 1)
                               case Abnormal => v
    {
      hide Run, WorkerSteps, StatsTracker.Value;
      MarkWorker(start, i, path, Model(), ActOf(log), c.shuts);
      if log.Returns? {
        o, more := ShutFailed(start, i, path + [Succeed], c, secondShutdown);
        assert path + [Succeed] + more == path + ([Succeed] + more);
        more := [Succeed] + more;
      } else {
        o, more := Abnormal, [ActOf(log)];
      }
      assert more == FailurePath(log, secondShutdown);
    }

    /** The except block after handle_error has returned. */
    method ShutFailed(ghost start: State, i: nat, ghost path: seq<WorkerAct>, c: Connection, shutdown: Ending)
      returns (o: Outcome, ghost more: seq<WorkerAct>)
      requires Run(params, start, WorkerSteps(i, path)) == Some(Model())
      requires i < |requests| && requests[i].worker.FailureLogged? && c.shuts == requests[i].shuts
      modifies this`requests, stats, c
      ensures more == if shutdown.Returns? then [Succeed, RecordEnd] else [ActOf(shutdown)]
      ensures Run(params, start, WorkerSteps(i, path + more)) == Some(Model())
      ensures o == if shutdown.Returns? then Errored else Abnormal
      ensures |requests| == old(|requests|) && requests[i].worker == Leaving(o)
      ensures c.shuts == old(c.shuts) + (if o.Abnormal? then 0 else 1) == requests[i].shuts
      ensures var v := old(stats.Value());
              stats.Value() == match o
                               case Completed => v.(active := v.active - 1, completed := v.completed + 1)
                               case Errored => v.(active := v.active - 1, errored := v.errored + 1)
                               case Abnormal => v
    {
      hide Run, WorkerSteps, StatsTracker.Value;
      ghost var s := Model();
      c.ShutdownRequest(shutdown);
      MarkWorker(start, i, path, s, ActOf(shutdown), c.shuts);
      more := [ActOf(shutdown)];
      o := Abnormal;
      if shutdown.Returns? {
        CountError(start, i, path + [Succeed]);
        more := [Succeed, RecordEnd];
        assert path + [Succeed] + [RecordEnd] == path + more;
        o := Errored;
      }
    }

    /** The whole life of a request that finds a permit and an idle worker, with nobody else about: the
        permit is back at the end, the queue is empty, and the worker thread is free, however it ended. */
    method ServeAlone(i: nat, c: Connection, serve: Ending, shutdown: Ending, log: Ending, secondShutdown: Ending)
      returns (o: Outcome)
      requires Valid() && i == |requests| && c.Valid() && c.shuts == 0 && c.timeoutWorks
      requires capacity.value > 0 && !executor.down && executor.queue == [] && Busy(requests) < config.maxWorkers
      modifies this`requests, this`enqueued, this`pickedUp, capacity, executor, stats, c
      ensures Valid() && capacity.value == old(capacity.value) && executor.queue == []
      ensures |requests| == i + 1 && requests[i].worker == Retired(o) && requests[i].shuts == c.shuts
      ensures o.Completed? <==> serve.Returns? && shutdown.Returns?
      ensures c.shuts == if o.Abnormal? then 0 else 1
    {
      hide Run, Reachable, Busy, CallerSteps, WorkerSteps;
      ghost var before := requests;
      ghost var n := Accept();
      assert Busy(requests) == Busy(before) by { NewRequestIsIdle(before); }
      ghost var s := Model();
      var called := ProcessRequest(i, c, false, None, Returns);
      CallersLeaveWorkersAlone(params, s, i, CallPath(config, called));
      var task := PickUp();
      o := ProcessRequestWorker(task, c, serve, shutdown, log, secondShutdown);
      Finish(task);
    }

    /** shutdown_executor, with the lock free. `idle` is what the executor's join waits for; a join that
        cannot finish yet is reported as such, with the lock still held. */
    method ShutdownExecutor(k: nat, wait: bool, idle: bool) returns (o: CloseOutcome)
      requires Valid() && k < |closers| && closers[k] == Closer(wait, Calling) && lockOwner.None?
      requires idle <==> executor.queue == [] && Busy(requests) == 0
      modifies this`closers, this`lockOwner, this`shutdownBy, this`executorClosed, executor
      ensures Valid()
      ensures Run(params, old(Model()), CloserSteps(k, CloseLength(o, wait))) == Some(Model())
      ensures o.AlreadyClosed? <==> old(executorClosed)
      ensures o.StillJoining? <==> !old(executorClosed) && wait && !idle
      ensures o.AlreadyClosed? ==> executor.down == old(executor.down)
      ensures !o.AlreadyClosed? ==> executor.down
      ensures executorClosed == (old(executorClosed) || o.ClosedNow?)
      ensures executor.queue == old(executor.queue)
      ensures closers[k].pc == if o.StillJoining? then Joining else Returned
    {
      hide Run, Reachable, Busy;
      ghost var s := Model();
      assert Run(params, s, CloserSteps(k, 0)) == Some(s) by { NoCloserStep(params, s, k); }
      MarkCloser(s, k, 0, s);
      if executorClosed {
        MarkCloser(s, k, 1, Model());
        ReachableRun(params, s, CloserSteps(k, 2), Model());
        return AlreadyClosed;
      }
      ghost var t := Model();
      executor.Shutdown();
      MarkCloser(s, k, 1, t);
      if wait {
        if !idle {
          ReachableRun(params, s, CloserSteps(k, 2), Model());
          return StillJoining;
        }
        MarkCloser(s, k, 2, Model());
      }
      t := Model();
      ghost var n := if wait then 3 else 2;
      executorClosed := true;
      MarkCloser(s, k, n, t);
      MarkCloser(s, k, n + 1, Model());
      ReachableRun(params, s, CloserSteps(k, n + 2), Model());
      o := ClosedNow;
    }

    /** server_close: shuts the executor down, waiting, and only then closes the listening socket. */
    method ServerClose(k: nat, idle: bool) returns (o: CloseOutcome)
      requires Valid() && k < |closers| && closers[k] == Closer(true, Calling) && lockOwner.None?
      requires idle <==> executor.queue == [] && Busy(requests) == 0
      modifies this`closers, this`lockOwner, this`shutdownBy, this`executorClosed, this`listening, executor
      ensures Valid()
      ensures o.AlreadyClosed? <==> old(executorClosed)
      ensures o.StillJoining? <==> !old(executorClosed) && !idle
      ensures Run(params, old(Model()), CloserSteps(k, CloseLength(o, true))) == Some(Model())
      ensures listening == (old(listening) && o.StillJoining?)
      ensures o.ClosedNow? ==> executor.down && executor.queue == [] && Busy(requests) == 0
    {
      o := ShutdownExecutor(k, true, idle);
      if !o.StillJoining? { listening := false; }
    }
  }
}
