/**
 XMLRPCASGIApp (asgi.py) on its event loop: any number of HTTP calls, lifespan calls and close() calls,
 interleaved at every await, with the pools' worker threads running beside the loop, also while the loop
 is blocked in executor.shutdown(wait=True). A run is a sequence of steps.
 */
module AsgiLoop {
  import opened Common
  import opened Octets
  import opened AsgiHttp

  // ----- State -----

  datatype Phase = Waiting | Running | Finished(o: Outcome)

  /** Where an HTTP call is. */
  datatype CallPc =
    | Begin
    | Reading(read: nat, acc: Bytes)       // events received so far, and their bytes
    | OnLoopHandler                        // awaiting a coroutine handler
    | Pooled(pool: nat, phase: Phase)      // awaiting run_in_executor on one of the app's pools
    | Threaded(phase: Phase)               // awaiting asyncio.to_thread
    | Sending(r: Response)                 // before http.response.start
    | HalfSent(r: Response)                // before http.response.body
    | Done
    | Failed(io: bool)                     // left by an exception: of receive or send, or its own

  /** `asked` is the handler that was called for it, with its arguments; `outcome` how that ended. */
  datatype Call = Call(q: Request, pc: CallPc, asked: Option<Target>, outcome: Option<Outcome>, sent: seq<Message>)

  datatype LifespanPc = Receiving | SendingStartup | ShuttingDown | SendingShutdown | Ended

  /** `drained` is the pool that this lifespan call shut down. */
  datatype Lifespan = Lifespan(pc: LifespanPc, drained: Option<nat>)

  datatype Pool = Pool(down: bool)

  datatype State = State(
    pools: seq<Pool>,            // every ThreadPoolExecutor ever made
    current: Option<nat>,        // _executor
    orphans: nat,                // startups that arrived while _executor was set
    blocked: bool,               // the loop's thread is inside _executor.shutdown(wait=True)
    calls: seq<Call>,
    lifespans: seq<Lifespan>
  )

  const INIT := State([], None, 0, false, [], [])

  datatype LifespanEvent = StartupEvent | ShutdownEvent | OtherEvent

  datatype Step =
    | HttpCall(q: Request) | LifespanCall
    | Enter(i: nat) | Receive(i: nat) | ReceiveFails(i: nat)
    | CoroutineEnds(i: nat, o: Outcome) | Resume(i: nat)
    | SendStart(i: nat) | SendBody(i: nat) | SendFails(i: nat)
    | LifespanReceives(k: nat, e: LifespanEvent) | LifespanSent(k: nat)
    | CloseApp | Unblock
    | TaskStart(i: nat) | TaskEnd(i: nat, o: Outcome)

  // ----- Worker threads -----

  predicate RunsIn(c: Call, p: nat) { c.pc.Pooled? && c.pc.pool == p && c.pc.phase.Running? }

  /** Handlers that pool p is running. */
  function RunningIn(calls: seq<Call>, p: nat): nat {
    if calls == [] then 0 else RunningIn(calls[..|calls| - 1], p) + One(RunsIn(calls[|calls| - 1], p))
  }

  /** Handlers that any of the app's pools is running. */
  function RunningAnywhere(calls: seq<Call>): nat {
    if calls == [] then 0
    else
      var c := calls[|calls| - 1];
      RunningAnywhere(calls[..|calls| - 1]) + One(c.pc.Pooled? && c.pc.phase.Running?)
  }

  function Downs(pools: seq<Pool>): nat {
    if pools == [] then 0 else Downs(pools[..|pools| - 1]) + One(pools[|pools| - 1].down)
  }

  predicate TasksOver(calls: seq<Call>, p: nat) {
    forall i :: 0 <= i < |calls| && calls[i].pc.Pooled? && calls[i].pc.pool == p ==> calls[i].pc.phase.Finished?
  }

  // ----- Steps -----

  predicate TaskStep(step: Step) { step.TaskStart? || step.TaskEnd? }

  predicate PhaseIs(pc: CallPc, waiting: bool) {
    && (pc.Pooled? || pc.Threaded?)
    && if waiting then pc.phase.Waiting? else pc.phase.Running?
  }

  predicate Enabled(app: App, s: State, step: Step) {
    && (s.blocked ==> TaskStep(step) || step.Unblock?)
    && match step
       case HttpCall(_) => true
       case LifespanCall => true
       case Enter(i) => i < |s.calls| && s.calls[i].pc.Begin?
       case Receive(i) =>
         i < |s.calls| && s.calls[i].pc.Reading? && s.calls[i].pc.read < |s.calls[i].q.events|
       case ReceiveFails(i) => i < |s.calls| && s.calls[i].pc.Reading?
       case CoroutineEnds(i, _) => i < |s.calls| && s.calls[i].pc.OnLoopHandler?
       case Resume(i) =>
         i < |s.calls| && (s.calls[i].pc.Pooled? || s.calls[i].pc.Threaded?) && s.calls[i].pc.phase.Finished?
       case SendStart(i) => i < |s.calls| && s.calls[i].pc.Sending?
       case SendBody(i) => i < |s.calls| && s.calls[i].pc.HalfSent?
       case SendFails(i) => i < |s.calls| && (s.calls[i].pc.Sending? || s.calls[i].pc.HalfSent?)
       case LifespanReceives(k, _) => k < |s.lifespans| && s.lifespans[k].pc.Receiving?
       case LifespanSent(k) =>
         k < |s.lifespans| && (s.lifespans[k].pc.SendingStartup? || s.lifespans[k].pc.SendingShutdown?)
       case CloseApp => true
       case Unblock => s.blocked && s.current.Some? && TasksOver(s.calls, s.current.value)
       case TaskStart(i) =>
         && i < |s.calls| && PhaseIs(s.calls[i].pc, true)
         && (s.calls[i].pc.Pooled? ==> RunningIn(s.calls, s.calls[i].pc.pool) < app.maxWorkers)
       case TaskEnd(i, _) => i < |s.calls| && PhaseIs(s.calls[i].pc, false)
  }

  function PcOf(v: Verdict): CallPc {
    match v
    case Respond(r) => Sending(r)
    case _ => Failed(false)
  }

  /** _get_executor: the pool that is set, or a new one. */
  function EnsurePool(s: State): State {
    if s.current.Some? then s else s.(pools := s.pools + [Pool(false)], current := Some(|s.pools|))
  }

  /** From the last body event to the next await: size check, parsing, dispatch, submission. */
  function AfterBody(app: App, s: State, i: nat, body: Bytes): State
    requires i < |s.calls|
  {
    match DemandOf(app, body)
    case Settled(v) => s.(calls := s.calls[i := s.calls[i].(pc := PcOf(v))])
    case Ask(place, target) =>
      var c := s.calls[i].(asked := Some(target));
      match place
      case OnLoop => s.(calls := s.calls[i := c.(pc := OnLoopHandler)])
      case InDefaultPool => s.(calls := s.calls[i := c.(pc := Threaded(Waiting))])
      case InPool =>
        var t := EnsurePool(s);
        t.(calls := t.calls[i := c.(pc := Pooled(t.current.value, Waiting))])
  }

  function WithPhase(pc: CallPc, phase: Phase): CallPc
    requires pc.Pooled? || pc.Threaded?
  {
    if pc.Pooled? then pc.(phase := phase) else Threaded(phase)
  }

  /** The new state of a call that steps without touching anything else. */
  function Advance(app: App, c: Call, step: Step): Call {
    match step
    case Enter(_) =>
      var early := EarlyAnswer(app, c.q);
      c.(pc := if early.Some? then Sending(early.value) else Reading(0, []))
    case ReceiveFails(_) => c.(pc := Failed(true))
    case CoroutineEnds(_, o) => c.(pc := PcOf(Marshal(app, o)), outcome := Some(o))
    case Resume(_) =>
      if (c.pc.Pooled? || c.pc.Threaded?) && c.pc.phase.Finished? then c.(pc := PcOf(Marshal(app, c.pc.phase.o))) else c
    case SendStart(_) => if c.pc.Sending? then c.(pc := HalfSent(c.pc.r), sent := Messages(c.pc.r)[..1]) else c
    case SendBody(_) => if c.pc.HalfSent? then c.(pc := Done, sent := c.sent + Messages(c.pc.r)[1..]) else c
    case SendFails(_) => c.(pc := Failed(true))
    case TaskStart(_) => if PhaseIs(c.pc, true) then c.(pc := WithPhase(c.pc, Running)) else c
    case TaskEnd(_, o) =>
      if PhaseIs(c.pc, false) then c.(pc := WithPhase(c.pc, Finished(o)), outcome := Some(o)) else c
    case _ => c
  }

  /** executor.shutdown(wait=True) begins: the pool refuses work, the loop's thread waits. */
  function BeginShutdown(s: State): State
    requires s.current.Some? && s.current.value < |s.pools|
  {
    s.(pools := s.pools[s.current.value := Pool(true)], blocked := true)
  }

  function ApplyLifespan(s: State, k: nat, e: LifespanEvent): State
    requires k < |s.lifespans|
    requires s.current.Some? ==> s.current.value < |s.pools|
  {
    match e
    case StartupEvent =>
      s.(pools := s.pools + [Pool(false)], current := Some(|s.pools|),
         orphans := s.orphans + One(s.current.Some?),
         lifespans := s.lifespans[k := s.lifespans[k].(pc := SendingStartup)])
    case ShutdownEvent =>
      if s.current.None? then s.(lifespans := s.lifespans[k := Lifespan(SendingShutdown, None)])
      else BeginShutdown(s).(lifespans := s.lifespans[k := Lifespan(ShuttingDown, s.current)])
    case OtherEvent => s
  }

  /** shutdown(wait=True) returns; whoever called it clears _executor and goes on. */
  function Release(ls: seq<Lifespan>): (r: seq<Lifespan>)
    ensures |r| == |ls|
    ensures forall k :: 0 <= k < |ls| ==>
              r[k] == if ls[k].pc.ShuttingDown? then ls[k].(pc := SendingShutdown) else ls[k]
  {
    if ls == [] then []
    else
      var l := ls[|ls| - 1];
      Release(ls[..|ls| - 1]) + [if l.pc.ShuttingDown? then l.(pc := SendingShutdown) else l]
  }

  ghost predicate Wf(s: State) { s.current.Some? ==> s.current.value < |s.pools| }

  function Apply(app: App, s: State, step: Step): State
    requires Wf(s) && Enabled(app, s, step)
  {
    match step
    case HttpCall(q) => s.(calls := s.calls + [Call(q, Begin, None, None, [])])
    case LifespanCall => s.(lifespans := s.lifespans + [Lifespan(Receiving, None)])
    case Receive(i) =>
      var c := s.calls[i];
      var event := c.q.events[c.pc.read];
      var acc := c.pc.acc + Chunk(event);
      if More(event) then s.(calls := s.calls[i := c.(pc := Reading(c.pc.read + 1, acc))])
      else AfterBody(app, s, i, acc)
    case LifespanReceives(k, e) => ApplyLifespan(s, k, e)
    case LifespanSent(k) =>
      var l := s.lifespans[k];
      s.(lifespans := s.lifespans[k := l.(pc := if l.pc.SendingStartup? then Receiving else Ended)])
    case CloseApp => if s.current.None? then s else BeginShutdown(s)
    case Unblock => s.(current := None, blocked := false, lifespans := Release(s.lifespans))
    case _ =>
      var i := CallOf(step);
      s.(calls := s.calls[i := Advance(app, s.calls[i], step)])
  }

  /** The call that a plain call step is about. */
  function CallOf(step: Step): nat
    requires PlainStep(step)
  {
    step.i
  }

  predicate PlainStep(step: Step) {
    || step.Enter? || step.ReceiveFails? || step.CoroutineEnds? || step.Resume?
    || step.SendStart? || step.SendBody? || step.SendFails? || step.TaskStart? || step.TaskEnd?
  }

  /** The state after `steps`, if every one of them was enabled when its turn came. */
  function Run(app: App, s: State, steps: seq<Step>): (r: Option<State>)
    requires Wf(s)
    ensures r.Some? ==> Wf(r.value)
  {
    if steps == [] then Some(s)
    else
      var before := Run(app, s, steps[..|steps| - 1]);
      var last := steps[|steps| - 1];
      if before.Some? && Enabled(app, before.value, last) then Some(Apply(app, before.value, last)) else None
  }

  ghost predicate Reachable(app: App, s: State) {
    exists steps: seq<Step> :: Run(app, INIT, steps) == Some(s)
  }

  lemma RunSnoc(app: App, s: State, steps: seq<Step>, t: State, step: Step)
    requires Wf(s) && Run(app, s, steps) == Some(t) && Enabled(app, t, step)
    ensures Run(app, s, steps + [step]) == Some(Apply(app, t, step))
  {
    hide Enabled, Apply;
    assert (steps + [step])[..|steps|] == steps;
  }

  lemma ReachableStep(app: App, s: State, step: Step)
    requires Reachable(app, s) && Wf(s) && Enabled(app, s, step)
    ensures Reachable(app, Apply(app, s, step))
  {
    hide Run, Enabled, Apply;
    var steps :| Run(app, INIT, steps) == Some(s);
    RunSnoc(app, INIT, steps, s, step);
  }
}
