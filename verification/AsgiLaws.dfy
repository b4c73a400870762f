/** What holds of XMLRPCASGIApp in every reachable state of its event loop. */
module AsgiLaws {
  import opened Common
  import opened Octets
  import opened AsgiHttp
  import opened AsgiLoop

  // ----- Counting -----

  lemma {:induction false} RunningUpdate(calls: seq<Call>, i: nat, c: Call, p: nat)
    requires i < |calls|
    ensures RunningIn(calls[i := c], p) == RunningIn(calls, p) - One(RunsIn(calls[i], p)) + One(RunsIn(c, p))
  {
    var n := |calls| - 1;
    if i == n {
      assert calls[i := c][..n] == calls[..n];
    } else {
      assert calls[i := c][..n] == calls[..n][i := c];
      RunningUpdate(calls[..n], i, c, p);
    }
  }

  lemma {:induction false} RunningZero(calls: seq<Call>, p: nat)
    ensures RunningIn(calls, p) == 0 <==> forall i :: 0 <= i < |calls| ==> !RunsIn(calls[i], p)
  {
    if calls != [] {
      var n := |calls| - 1;
      RunningZero(calls[..n], p);
      assert forall i :: 0 <= i < n ==> calls[..n][i] == calls[i];
    }
  }

  lemma {:induction false} DownsUpdate(pools: seq<Pool>, p: nat)
    requires p < |pools| && !pools[p].down
    ensures Downs(pools[p := Pool(true)]) == Downs(pools) + 1
  {
    var n := |pools| - 1;
    if p == n {
      assert pools[p := Pool(true)][..n] == pools[..n];
    } else {
      assert pools[p := Pool(true)][..n] == pools[..n][p := Pool(true)];
      DownsUpdate(pools[..n], p);
    }
  }

  lemma DownsAppend(pools: seq<Pool>)
    ensures Downs(pools + [Pool(false)]) == Downs(pools)
  {
    assert (pools + [Pool(false)])[..|pools|] == pools;
  }

  // ----- Pools -----

  predicate Busy(c: Call) { c.pc.Pooled? && !c.pc.phase.Finished? }

  /** Handlers submitted to pool p that are not over: waiting or running. */
  function UnfinishedIn(calls: seq<Call>, p: nat): nat {
    if calls == [] then 0
    else
      var c := calls[|calls| - 1];
      UnfinishedIn(calls[..|calls| - 1], p) + One(Busy(c) && c.pc.pool == p)
  }

  lemma {:induction false} UnfinishedUpdate(calls: seq<Call>, i: nat, c: Call, p: nat)
    requires i < |calls|
    ensures UnfinishedIn(calls[i := c], p)
            == UnfinishedIn(calls, p) - One(Busy(calls[i]) && calls[i].pc.pool == p) + One(Busy(c) && c.pc.pool == p)
  {
    var n := |calls| - 1;
    if i == n {
      assert calls[i := c][..n] == calls[..n];
    } else {
      assert calls[i := c][..n] == calls[..n][i := c];
      UnfinishedUpdate(calls[..n], i, c, p);
    }
  }

  lemma {:induction false} UnfinishedZero(calls: seq<Call>, p: nat)
    ensures UnfinishedIn(calls, p) == 0 <==> TasksOver(calls, p)
  {
    if calls != [] {
      var n := |calls| - 1;
      UnfinishedZero(calls[..n], p);
      assert forall i :: 0 <= i < n ==> calls[..n][i] == calls[i];
    }
  }

  /** Pool p has been shut down, and the shutdown has returned. */
  predicate Closed(s: State, p: nat) {
    p < |s.pools| && s.pools[p].down && !(s.blocked && s.current == Some(p))
  }

  ghost predicate CurrentOk(s: State) {
    && Wf(s)
    && (s.blocked ==> s.current.Some?)
    && (s.current.Some? ==> s.pools[s.current.value].down == s.blocked)
    && |s.pools| == Downs(s.pools) + One(s.current.Some? && !s.blocked) + s.orphans
  }

  ghost predicate TasksOk(s: State) {
    forall i {:trigger s.calls[i]} :: 0 <= i < |s.calls| && s.calls[i].pc.Pooled? ==>
      && s.calls[i].pc.pool < |s.pools|
      && (Busy(s.calls[i]) ==> !Closed(s, s.calls[i].pc.pool))
      && (Busy(s.calls[i]) && s.orphans == 0 ==> s.current == Some(s.calls[i].pc.pool))
  }

  ghost predicate BoundsOk(app: App, s: State) {
    forall p: nat :: RunningIn(s.calls, p) <= app.maxWorkers
  }

  ghost predicate LifespansOk(s: State) {
    forall k {:trigger s.lifespans[k]} :: 0 <= k < |s.lifespans| ==>
      var l := s.lifespans[k];
      && (l.pc.ShuttingDown? ==> s.blocked && l.drained == s.current)
      && (l.pc.SendingShutdown? || l.pc.Ended? ==> l.drained.Some? ==> Closed(s, l.drained.value))
  }

  // ----- Calls -----

  /** The call has read its body and needs a handler in that place. */
  predicate Asks(app: App, q: Request, place: Place) {
    && EarlyAnswer(app, q).None?
    && JoinedBody(q.events).Some?
    && DemandOf(app, JoinedBody(q.events).value).Ask?
    && DemandOf(app, JoinedBody(q.events).value).place == place
  }

  predicate OutcomeOf(phase: Phase, outcome: Option<Outcome>) {
    outcome == if phase.Finished? then Some(phase.o) else None
  }

  /** The handler that was called is the one that the body calls for. */
  predicate AskedOk(app: App, c: Call) {
    c.asked.Some? ==>
      && EarlyAnswer(app, c.q).None? && JoinedBody(c.q.events).Some?
      && var d := DemandOf(app, JoinedBody(c.q.events).value);
      && d.Ask? && c.asked.value == d.target
  }

  /** A call is on its way to the verdict of the sequential reference, and has sent what it should. */
  predicate CallOk(app: App, c: Call) {
    AskedOk(app, c) && Progressing(app, c)
    && (c.outcome.Some? || c.pc.OnLoopHandler? || c.pc.Pooled? || c.pc.Threaded? ==> c.asked.Some?)
  }

  predicate Progressing(app: App, c: Call) {
    var verdict := Reference(app, c.q, c.outcome);
    match c.pc
    case Begin => c.outcome.None? && c.sent == []
    case Reading(n, acc) =>
      && n <= |c.q.events| && c.outcome.None? && c.sent == [] && EarlyAnswer(app, c.q).None?
      && JoinedBody(c.q.events) == Prepend(acc, JoinedBody(c.q.events[n..]))
    case OnLoopHandler => c.outcome.None? && c.sent == [] && Asks(app, c.q, OnLoop)
    case Pooled(_, phase) => OutcomeOf(phase, c.outcome) && c.sent == [] && Asks(app, c.q, InPool)
    case Threaded(phase) => OutcomeOf(phase, c.outcome) && c.sent == [] && Asks(app, c.q, InDefaultPool)
    case Sending(r) => c.sent == [] && verdict == Respond(r)
    case HalfSent(r) => c.sent == Messages(r)[..1] && verdict == Respond(r)
    case Done => verdict.Respond? && c.sent == Messages(verdict.r)
    case Failed(io) =>
      if io then c.sent == [] || (verdict.Respond? && c.sent == Messages(verdict.r)[..1])
      else c.sent == [] && verdict == Propagate
  }

  ghost predicate CallsOk(app: App, s: State) {
    forall i :: 0 <= i < |s.calls| ==> CallOk(app, s.calls[i])
  }

  ghost predicate Inv(app: App, s: State) {
    CurrentOk(s) && TasksOk(s) && BoundsOk(app, s) && LifespansOk(s) && CallsOk(app, s)
  }

  // ----- Preservation: calls -----

  lemma AnsweredMeans(app: App, c: Call, o: Outcome, place: Place)
    requires Asks(app, c.q, place) && c.sent == [] && AskedOk(app, c) && c.asked.Some?
    ensures CallOk(app, c.(pc := PcOf(Marshal(app, o)), outcome := Some(o)))
  {
    hide JoinedBody, DemandOf, EarlyAnswer, Marshal, Messages;
    assert Reference(app, c.q, Some(o)) == Marshal(app, o);
    MarshalDecides(app, o);
  }

  lemma MarshalDecides(app: App, o: Outcome)
    ensures Marshal(app, o) != Pending
  {
  }

  lemma DemandDecides(app: App, body: Bytes)
    ensures DemandOf(app, body).Settled? ==> DemandOf(app, body).v != Pending
  {
    hide RouteOf;
    if |body| <= app.maxRequestSize {
      match app.codec.loads(body)
      case ParseFailed(_) =>
      case MethodCall(name, params) =>
        if RouteOf(app, name, params).Answer? { MarshalDecides(app, RouteOf(app, name, params).o); }
    }
  }

  lemma AdvanceKeepsCall(app: App, c: Call, step: Step)
    requires CallOk(app, c) && PlainStep(step)
    requires match step
             case Enter(_) => c.pc.Begin?
             case ReceiveFails(_) => c.pc.Reading?
             case CoroutineEnds(_, _) => c.pc.OnLoopHandler?
             case Resume(_) => (c.pc.Pooled? || c.pc.Threaded?) && c.pc.phase.Finished?
             case SendStart(_) => c.pc.Sending?
             case SendBody(_) => c.pc.HalfSent?
             case SendFails(_) => c.pc.Sending? || c.pc.HalfSent?
             case TaskStart(_) => PhaseIs(c.pc, true)
             case _ => PhaseIs(c.pc, false)
    ensures CallOk(app, Advance(app, c, step))
  {
    hide JoinedBody, DemandOf, EarlyAnswer, Marshal;
    match step
    case Enter(_) =>
      assert c.q.events[0..] == c.q.events;
      FreshRead(c.q.events);
    case CoroutineEnds(_, o) => AnsweredMeans(app, c, o, OnLoop);
    case Resume(_) => AnsweredMeans(app, c, c.pc.phase.o, if c.pc.Pooled? then InPool else InDefaultPool);
    case SendBody(_) =>
      assert Messages(c.pc.r)[..1] + Messages(c.pc.r)[1..] == Messages(c.pc.r);
    case _ =>
  }

  lemma FreshRead(events: seq<BodyEvent>)
    ensures JoinedBody(events) == Prepend([], JoinedBody(events[0..]))
  {
    JoinedEnds(events);
  }

  /** The call after its last body event, or one more. */
  lemma ReceiveKeepsCall(app: App, c: Call)
    requires CallOk(app, c) && c.pc.Reading? && c.pc.read < |c.q.events|
    ensures var event := c.q.events[c.pc.read];
            var acc := c.pc.acc + Chunk(event);
            if More(event) then CallOk(app, c.(pc := Reading(c.pc.read + 1, acc)))
            else
              match DemandOf(app, acc)
              case Settled(v) => CallOk(app, c.(pc := PcOf(v)))
              case Ask(place, target) =>
                Asks(app, c.q, place) && c.sent == [] && c.outcome.None? && AskedOk(app, c.(asked := Some(target)))
  {
    hide JoinedBody, DemandOf, EarlyAnswer, Messages;
    JoinedStep(c.q.events, c.pc.read, c.pc.acc);
    DemandDecides(app, c.pc.acc + Chunk(c.q.events[c.pc.read]));
  }

  // ----- Preservation: pools -----

  /** One call changes, in a way that keeps its pool. */
  lemma CallChangeKeepsPools(app: App, s: State, i: nat, c: Call)
    requires CurrentOk(s) && TasksOk(s) && BoundsOk(app, s) && LifespansOk(s) && i < |s.calls|
    requires Busy(c) ==> Busy(s.calls[i]) && c.pc.pool == s.calls[i].pc.pool
    requires c.pc.Pooled? ==> s.calls[i].pc.Pooled? && c.pc.pool == s.calls[i].pc.pool
    requires c.pc.Pooled? && c.pc.phase.Running? ==> RunningIn(s.calls, c.pc.pool) < app.maxWorkers
    ensures var t := s.(calls := s.calls[i := c]);
            CurrentOk(t) && TasksOk(t) && BoundsOk(app, t) && LifespansOk(t)
  {
    hide RunningIn, Downs;
    var t := s.(calls := s.calls[i := c]);
    forall p: nat ensures RunningIn(t.calls, p) <= app.maxWorkers { RunningUpdate(s.calls, i, c, p); }
  }

  lemma PlainStepKeeps(app: App, s: State, step: Step)
    requires Inv(app, s) && PlainStep(step) && Enabled(app, s, step)
    ensures Inv(app, Apply(app, s, step))
  {
    hide RunningIn, Downs, CallOk, Marshal, EarlyAnswer;
    var c := s.calls[step.i];
    assert CallOk(app, c);
    AdvanceKeepsCall(app, c, step);
    CallChangeKeepsPools(app, s, step.i, Advance(app, c, step));
  }

  /** _get_executor and submission in one breath: the pool that gets the task is not shut down. */
  lemma SubmissionKeepsPools(app: App, s: State, i: nat, c: Call)
    requires CurrentOk(s) && TasksOk(s) && BoundsOk(app, s) && LifespansOk(s) && i < |s.calls| && !s.blocked
    requires s.calls[i].pc.Reading? && c.pc == Pooled(EnsurePool(s).current.value, Waiting)
    ensures var e := EnsurePool(s);
            var t := e.(calls := e.calls[i := c]);
            CurrentOk(t) && TasksOk(t) && BoundsOk(app, t) && LifespansOk(t)
            && !t.pools[t.current.value].down
  {
    hide RunningIn, Downs;
    var e := EnsurePool(s);
    DownsAppend(s.pools);
    var calls := e.calls[i := c];
    forall p: nat ensures RunningIn(calls, p) <= app.maxWorkers { RunningUpdate(e.calls, i, c, p); }
  }

  lemma ReceiveKeeps(app: App, s: State, i: nat)
    requires Inv(app, s) && Enabled(app, s, Receive(i))
    ensures Inv(app, Apply(app, s, Receive(i)))
  {
    hide RunningIn, Downs, DemandOf, EarlyAnswer, JoinedBody, Messages, Reference;
    var c := s.calls[i];
    assert CallOk(app, c);
    ReceiveKeepsCall(app, c);
    var event := c.q.events[c.pc.read];
    var acc := c.pc.acc + Chunk(event);
    if More(event) {
      CallChangeKeepsPools(app, s, i, c.(pc := Reading(c.pc.read + 1, acc)));
    } else {
      match DemandOf(app, acc)
      case Settled(v) => CallChangeKeepsPools(app, s, i, c.(pc := PcOf(v)));
      case Ask(place, target) =>
        c := c.(asked := Some(target));
        match place
        case OnLoop => CallChangeKeepsPools(app, s, i, c.(pc := OnLoopHandler));
        case InDefaultPool => CallChangeKeepsPools(app, s, i, c.(pc := Threaded(Waiting)));
        case InPool =>
          SubmissionKeepsPools(app, s, i, c.(pc := Pooled(EnsurePool(s).current.value, Waiting)));
    }
  }

  lemma BeginShutdownKeeps(app: App, s: State)
    requires CurrentOk(s) && TasksOk(s) && !s.blocked && s.current.Some?
    requires LifespansOk(s)
    ensures var t := BeginShutdown(s);
            CurrentOk(t) && TasksOk(t) && LifespansOk(t)
  {
    DownsUpdate(s.pools, s.current.value);
  }

  lemma StartupKeeps(app: App, s: State, k: nat)
    requires Inv(app, s) && !s.blocked && k < |s.lifespans| && s.lifespans[k].pc.Receiving?
    ensures Inv(app, ApplyLifespan(s, k, StartupEvent))
  {
    hide CallOk, RunningIn, Downs;
    DownsAppend(s.pools);
  }

  lemma ShutdownEventKeeps(app: App, s: State, k: nat)
    requires Inv(app, s) && !s.blocked && k < |s.lifespans| && s.lifespans[k].pc.Receiving?
    ensures Inv(app, ApplyLifespan(s, k, ShutdownEvent))
  {
    hide CallOk, RunningIn, Downs;
    if s.current.Some? { BeginShutdownKeeps(app, s); }
  }

  lemma UnblockKeeps(app: App, s: State)
    requires Inv(app, s) && Enabled(app, s, Unblock)
    ensures Inv(app, Apply(app, s, Unblock))
  {
    hide CallOk, RunningIn, Downs;
  }

  lemma NewCallKeeps(app: App, s: State, q: Request)
    requires Inv(app, s) && !s.blocked
    ensures Inv(app, Apply(app, s, HttpCall(q)))
  {
    hide Reference, Downs;
    var c := Call(q, Begin, None, None, []);
    var t := Apply(app, s, HttpCall(q));
    assert t.calls[..|s.calls|] == s.calls;
    assert forall p: nat :: RunningIn(t.calls, p) == RunningIn(s.calls, p);
    assert CallOk(app, c);
  }

  /** Every step keeps the invariant. */
  lemma StepKeeps(app: App, s: State, step: Step)
    requires Inv(app, s) && Enabled(app, s, step)
    ensures Inv(app, Apply(app, s, step))
  {
    hide CallOk, RunningIn, Downs;
    match step
    case HttpCall(q) => NewCallKeeps(app, s, q);
    case LifespanCall =>
    case Receive(i) => ReceiveKeeps(app, s, i);
    case LifespanReceives(k, e) =>
      if e.StartupEvent? { StartupKeeps(app, s, k); }
      if e.ShutdownEvent? { ShutdownEventKeeps(app, s, k); }
    case LifespanSent(k) =>
    case CloseApp => if s.current.Some? { BeginShutdownKeeps(app, s); }
    case Unblock => UnblockKeeps(app, s);
    case _ => PlainStepKeeps(app, s, step);
  }

  lemma {:induction false} RunKeeps(app: App, steps: seq<Step>)
    requires Run(app, INIT, steps).Some?
    ensures Inv(app, Run(app, INIT, steps).value)
  {
    if steps != [] {
      var n := |steps| - 1;
      RunKeeps(app, steps[..n]);
      StepKeeps(app, Run(app, INIT, steps[..n]).value, steps[n]);
    }
  }

  lemma ReachableInv(app: App, s: State)
    requires Reachable(app, s)
    ensures Inv(app, s)
  {
    var steps :| Run(app, INIT, steps) == Some(s);
    RunKeeps(app, steps);
  }
}
