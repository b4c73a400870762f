/** The promises of XMLRPCASGIApp, over every run of its event loop. */
module AsgiTheorems {
  import opened Common
  import opened Octets
  import opened AsgiHttp
  import opened AsgiLoop
  import opened AsgiLaws

  // ----- Pools -----

  /** Pool lifecycle law: pools made = pools shut down + the one that is set + those that a startup
      replaced without shutting them down. */
  lemma PoolLifecycle(app: App, s: State)
    requires Reachable(app, s)
    ensures |s.pools| == Downs(s.pools) + One(s.current.Some? && !s.blocked) + s.orphans
  {
    ReachableInv(app, s);
  }

  predicate IsStartup(step: Step) { step.LifespanReceives? && step.e.StartupEvent? }

  /** The order that the ASGI lifespan protocol promises: one startup at most, before any HTTP call. */
  predicate StartupFirst(steps: seq<Step>) {
    forall h, j :: 0 <= h < j < |steps| && IsStartup(steps[j]) ==> !steps[h].HttpCall? && !IsStartup(steps[h])
  }

  lemma {:induction false} NothingYet(app: App, steps: seq<Step>)
    requires Run(app, INIT, steps).Some?
    requires forall h :: 0 <= h < |steps| ==> !steps[h].HttpCall? && !IsStartup(steps[h])
    ensures var s := Run(app, INIT, steps).value;
            s.calls == [] && s.current.None? && s.orphans == 0 && !s.blocked
  {
    hide Advance, AfterBody;
    if steps != [] {
      var n := |steps| - 1;
      assert forall h :: 0 <= h < n ==> steps[..n][h] == steps[h];
      NothingYet(app, steps[..n]);
    }
  }

  /** In that order no pool is ever left behind. */
  lemma {:induction false} StartupFirstLeavesNoOrphans(app: App, steps: seq<Step>)
    requires Run(app, INIT, steps).Some? && StartupFirst(steps)
    ensures Run(app, INIT, steps).value.orphans == 0
  {
    hide Advance, AfterBody;
    if steps != [] {
      var n := |steps| - 1;
      assert forall h :: 0 <= h < n ==> steps[..n][h] == steps[h];
      StartupFirstLeavesNoOrphans(app, steps[..n]);
      if IsStartup(steps[n]) { NothingYet(app, steps[..n]); }
      OrphansOnlyByStartup(app, Run(app, INIT, steps[..n]).value, steps[n]);
    }
  }

  lemma OrphansOnlyByStartup(app: App, s: State, step: Step)
    requires Wf(s) && Enabled(app, s, step)
    ensures Apply(app, s, step).orphans == s.orphans + One(IsStartup(step) && s.current.Some?)
  {
    hide Advance, DemandOf;
  }

  /** Step k is a startup that finds a pool set. */
  predicate LateStartup(app: App, steps: seq<Step>, k: nat)
    requires k < |steps|
  {
    var before := Run(app, INIT, steps[..k]);
    IsStartup(steps[k]) && before.Some? && before.value.current.Some?
  }

  function LateStartups(app: App, steps: seq<Step>): nat {
    if steps == [] then 0
    else
      var n := |steps| - 1;
      LateStartups(app, steps[..n]) + One(LateStartup(app, steps, n))
  }

  /** Over a whole run, every startup that finds a pool set orphans one, and nothing else does. */
  lemma {:induction false} OrphansAreLateStartups(app: App, steps: seq<Step>)
    requires Run(app, INIT, steps).Some?
    ensures Run(app, INIT, steps).value.orphans == LateStartups(app, steps)
  {
    hide Enabled, Apply;
    if steps != [] {
      var n := |steps| - 1;
      OrphansAreLateStartups(app, steps[..n]);
      OrphansOnlyByStartup(app, Run(app, INIT, steps[..n]).value, steps[n]);
    }
  }

  lemma {:induction false} NoLateStartups(app: App, steps: seq<Step>)
    ensures LateStartups(app, steps) == 0 <==> forall k :: 0 <= k < |steps| ==> !LateStartup(app, steps, k)
  {
    hide Run;
    if steps != [] {
      var n := |steps| - 1;
      NoLateStartups(app, steps[..n]);
      forall k | 0 <= k < n ensures LateStartup(app, steps[..n], k) == LateStartup(app, steps, k) {
        assert steps[..n][..k] == steps[..k];
      }
    }
  }

  /** Exactly when no pool is left behind: iff every startup of the run finds no pool set. A second startup
      after a close() or a shutdown is harmless, and so is one after calls to coroutines only. */
  lemma NothingOrphanedIffStartupsFindNoPool(app: App, steps: seq<Step>)
    requires Run(app, INIT, steps).Some?
    ensures Run(app, INIT, steps).value.orphans == 0
            <==> forall k :: 0 <= k < |steps| ==> !LateStartup(app, steps, k)
  {
    hide Run, LateStartup;
    OrphansAreLateStartups(app, steps);
    NoLateStartups(app, steps);
  }

  /** A pool that a startup replaced is never shut down, whatever happens later. */
  lemma OrphansStay(app: App, s: State, step: Step, p: nat)
    requires Wf(s) && Enabled(app, s, step)
    requires p < |s.pools| && !s.pools[p].down && s.current != Some(p)
    ensures var t := Apply(app, s, step);
            p < |t.pools| && !t.pools[p].down && t.current != Some(p)
  {
    hide Advance, DemandOf;
  }

  /** Handlers that the first n pools are running. */
  function RunningBelow(calls: seq<Call>, n: nat): nat {
    if n == 0 then 0 else RunningBelow(calls, n - 1) + RunningIn(calls, n - 1)
  }

  lemma {:induction false} RunningBelowSnoc(calls: seq<Call>, c: Call, n: nat)
    ensures RunningBelow(calls + [c], n)
            == RunningBelow(calls, n) + One(c.pc.Pooled? && c.pc.phase.Running? && c.pc.pool < n)
  {
    assert (calls + [c])[..|calls|] == calls;
    if n > 0 { RunningBelowSnoc(calls, c, n - 1); }
  }

  lemma {:induction false} RunningBelowIsAll(calls: seq<Call>, n: nat)
    requires forall i {:trigger calls[i]} :: 0 <= i < |calls| && calls[i].pc.Pooled? ==> calls[i].pc.pool < n
    ensures RunningAnywhere(calls) == RunningBelow(calls, n)
  {
    hide RunningIn;
    if calls == [] {
      NoneBelow(n);
    } else {
      var k := |calls| - 1;
      assert calls == calls[..k] + [calls[k]];
      RunningBelowIsAll(calls[..k], n);
      RunningBelowSnoc(calls[..k], calls[k], n);
    }
  }

  lemma {:induction false} NoneBelow(n: nat)
    ensures RunningBelow([], n) == 0
  {
    if n > 0 { NoneBelow(n - 1); }
  }

  /** Pools among the first n that can still run something: not shut down, or being waited for. */
  function Live(s: State, n: nat): int
    requires n <= |s.pools|
  {
    n - Downs(s.pools[..n]) + One(s.blocked && s.current.Some? && s.current.value < n)
  }

  lemma {:induction false} LivePoolsBound(app: App, s: State, n: nat)
    requires CurrentOk(s) && TasksOk(s) && BoundsOk(app, s) && n <= |s.pools|
    ensures RunningBelow(s.calls, n) <= app.maxWorkers * Live(s, n)
  {
    hide RunningIn;
    if n > 0 {
      var p := n - 1;
      LivePoolsBound(app, s, p);
      assert s.pools[..n][..p] == s.pools[..p];
      if Closed(s, p) {
        forall i | 0 <= i < |s.calls| ensures !RunsIn(s.calls[i], p) { }
        RunningZero(s.calls, p);
        assert Live(s, n) == Live(s, p);
      } else {
        assert Live(s, n) == Live(s, p) + 1;
        assert app.maxWorkers * (Live(s, p) + 1) == app.maxWorkers * Live(s, p) + app.maxWorkers;
      }
    }
  }

  /** The exact price of orphaned pools: at most max_workers handlers run at once for the pool that is
      set and for each pool that a startup left behind. Without orphans that is max_workers in all. */
  lemma PoolConcurrency(app: App, s: State)
    requires Reachable(app, s)
    ensures RunningAnywhere(s.calls) <= app.maxWorkers * (s.orphans + One(s.current.Some?))
    ensures s.orphans == 0 ==> RunningAnywhere(s.calls) <= app.maxWorkers
  {
    hide RunningIn, RunningAnywhere, RunningBelow, Reachable, Downs, CallOk;
    ReachableInv(app, s);
    var n := |s.pools|;
    RunningBelowIsAll(s.calls, n);
    LivePoolsBound(app, s, n);
    assert s.pools[..n] == s.pools;
    assert Live(s, n) == s.orphans + One(s.current.Some?);
  }

  /** In the order of the lifespan protocol, then, nothing leaks and the limit on workers is kept. */
  lemma OrderedLifespanIsSafe(app: App, steps: seq<Step>)
    requires Run(app, INIT, steps).Some? && StartupFirst(steps)
    ensures var s := Run(app, INIT, steps).value;
            && |s.pools| == Downs(s.pools) + One(s.current.Some? && !s.blocked)
            && RunningAnywhere(s.calls) <= app.maxWorkers
  {
    hide Run, RunningAnywhere, Downs, StartupFirst;
    var s := Run(app, INIT, steps).value;
    StartupFirstLeavesNoOrphans(app, steps);
    PoolLifecycle(app, s);
    PoolConcurrency(app, s);
  }

  /** No submit to a dead pool: whenever a call goes on to a pool, that pool is the one that is set and
      has not been shut down. */
  lemma NoSubmitToDeadPool(app: App, s: State, i: nat)
    requires Reachable(app, s) && Enabled(app, s, Receive(i))
    ensures var t := Apply(app, s, Receive(i));
            t.calls[i].pc.Pooled? ==>
              && t.current == Some(t.calls[i].pc.pool)
              && t.calls[i].pc.pool < |t.pools| && !t.pools[t.calls[i].pc.pool].down
  {
    hide DemandOf, CallOk, RunningIn, Downs, Reachable;
    ReachableInv(app, s);
  }

  /** When lifespan.shutdown.complete is about to be sent, or was, every handler that was ever submitted
      to the pool that this shutdown closed has finished. */
  lemma ShutdownCompleteMeansDrained(app: App, s: State, k: nat)
    requires Reachable(app, s) && k < |s.lifespans|
    requires s.lifespans[k].pc.SendingShutdown? || s.lifespans[k].pc.Ended?
    ensures var p := s.lifespans[k].drained;
            p.Some? ==> p.value < |s.pools| && s.pools[p.value].down && TasksOver(s.calls, p.value)
  {
    ReachableInv(app, s);
    var p := s.lifespans[k].drained;
    if p.Some? {
      forall i | 0 <= i < |s.calls| && s.calls[i].pc.Pooled? && s.calls[i].pc.pool == p.value
        ensures s.calls[i].pc.phase.Finished?
      {
        assert Closed(s, p.value);
      }
    }
  }

  // ----- A blocked loop gets free -----

  /** A handler that is not over has a worker thread that can move: its own, or one that runs another
      handler of the same pool. */
  lemma HandlerMoves(app: App, s: State, i: nat) returns (step: Step)
    requires app.maxWorkers >= 1 && BoundsOk(app, s) && i < |s.calls|
    requires (s.calls[i].pc.Pooled? || s.calls[i].pc.Threaded?) && !s.calls[i].pc.phase.Finished?
    ensures TaskStep(step) && Enabled(app, s, step)
  {
    hide RunningIn;
    var pc := s.calls[i].pc;
    if pc.phase.Running? {
      step := TaskEnd(i, ExceptionRaised(""));
    } else if pc.Threaded? || RunningIn(s.calls, pc.pool) < app.maxWorkers {
      step := TaskStart(i);
    } else {
      RunningZero(s.calls, pc.pool);
      var j :| 0 <= j < |s.calls| && RunsIn(s.calls[j], pc.pool);
      step := TaskEnd(j, ExceptionRaised(""));
    }
  }

  /** While the loop is blocked in a shutdown, a worker can move or the shutdown can return: handlers
      do not need the loop. */
  lemma BlockedLoopCanProceed(app: App, s: State) returns (step: Step)
    requires app.maxWorkers >= 1 && Reachable(app, s) && s.blocked
    ensures Enabled(app, s, step)
  {
    hide RunningIn, CallOk, Downs, Reachable;
    ReachableInv(app, s);
    var p := s.current.value;
    if TasksOver(s.calls, p) {
      step := Unblock;
    } else {
      var i :| 0 <= i < |s.calls| && s.calls[i].pc.Pooled? && s.calls[i].pc.pool == p
               && !s.calls[i].pc.phase.Finished?;
      step := HandlerMoves(app, s, i);
    }
  }

  // ----- Responses -----

  /** In every run, a call that is done has sent exactly the response of the sequential reference for its
      request and its handler's outcome; and one that left by its own exception has sent nothing, the
      reference agreeing that no response can be built. */
  lemma ResponsesFollowReference(app: App, s: State, i: nat)
    requires Reachable(app, s) && i < |s.calls|
    ensures var c := s.calls[i];
            var verdict := Reference(app, c.q, c.outcome);
            && (c.pc.Done? ==> verdict.Respond? && c.sent == Messages(verdict.r))
            && (c.pc == Failed(false) ==> verdict == Propagate && c.sent == [])
  {
    hide Reference, Messages;
    ReachableInv(app, s);
    assert CallOk(app, s.calls[i]);
  }

  /** All or nothing: if receive and send do not fail, a finished call has sent nothing, or exactly one
      http.response.start followed by one http.response.body of the announced length. */
  lemma AllOrNothing(app: App, s: State, i: nat)
    requires Reachable(app, s) && i < |s.calls| && (s.calls[i].pc.Done? || s.calls[i].pc == Failed(false))
    ensures var sent := s.calls[i].sent;
            || sent == []
            || (&& |sent| == 2 && sent[0].StartMessage? && sent[1].BodyMessage?
                && |sent[0].headers| >= 2 && sent[0].headers[1].0 == Ascii("content-length")
                && AllDigits(sent[0].headers[1].1)
                && Octets.Value(sent[0].headers[1].1) == |sent[1].body|)
  {
    hide Reference;
    ResponsesFollowReference(app, s, i);
    if s.calls[i].pc.Done? {
      var r := Reference(app, s.calls[i].q, s.calls[i].outcome).r;
      DecimalRoundTrip(|r.body|);
    }
  }

  /** What clients get to know of failures, in every run and for every codec that a client can undo:
      fault -32700 for a body that cannot be parsed, -32601 for a method that nobody knows, a Fault with
      its own code, fault 1 for any other exception of the handler or of dumping its result; and a
      dumped result is never read as a fault. */
  lemma ClientsReadFaults(app: App, s: State, i: nat, read: Bytes -> Option<(int, string)>)
    requires Reachable(app, s) && i < |s.calls| && s.calls[i].pc.Done? && ReadsFaults(app.codec, read)
    requires EarlyAnswer(app, s.calls[i].q).None?
    ensures JoinedBody(s.calls[i].q.events).Some? && |s.calls[i].sent| == 2 && s.calls[i].sent[1].BodyMessage?
    ensures var body := JoinedBody(s.calls[i].q.events).value;
            var seen := read(s.calls[i].sent[1].body);
            |body| <= app.maxRequestSize ==>
              match app.codec.loads(body)
              case ParseFailed(text) => seen == Some((-32700, "Parse error: " + text))
              case MethodCall(name, params) =>
                && (NobodyKnows(app, name) ==> seen == Some((-32601, "Method \"" + name + "\" is not supported")))
                && (RouteOf(app, name, params).Invoke? ==>
                      match s.calls[i].outcome
                      case None => false
                      case Some(FaultRaised(code, text)) => seen == Some((code, text))
                      case Some(ExceptionRaised(text)) => seen == Some((1, text))
                      case Some(Returned(v)) =>
                        match app.codec.dumpsValue(v)
                        case Text(_) => seen == None
                        case DumpRaised(text) => seen == Some((1, text)))
                && (Searched(app, name) ==>
                      var found := app.instance.value.resolve(name);
                      && (found.LookupFault? ==> seen == Some((found.code, found.text)))
                      && (found.LookupRaised? ==> seen == Some((1, found.text))))
  {
    hide JoinedBody, EarlyAnswer, RouteOf, DemandOf, Reachable, Marshal, ReadsFaults, NobodyKnows, Searched;
    ResponsesFollowReference(app, s, i);
    var c := s.calls[i];
    assert JoinedBody(c.q.events).Some?;
    if |JoinedBody(c.q.events).value| <= app.maxRequestSize {
      ResponseIsRead(app, c.q, c.outcome, read);
      var parsed := app.codec.loads(JoinedBody(c.q.events).value);
      if parsed.MethodCall? && RouteOf(app, parsed.name, parsed.params).Invoke? {
        OutcomeIsRead(app, c.outcome.value, read);
      }
    }
  }

  /** And of successes: what the client reads is the value that the handler returned. */
  lemma ClientsReadResults(app: App, s: State, i: nat, v: Value, read: Bytes -> Option<Value>)
    requires Reachable(app, s) && i < |s.calls| && s.calls[i].pc.Done? && ReadsResults(app.codec, read)
    requires s.calls[i].outcome == Some(Returned(v)) && app.codec.dumpsValue(v).Text?
    ensures |s.calls[i].sent| == 2 && s.calls[i].sent[1].BodyMessage? && read(s.calls[i].sent[1].body) == Some(v)
  {
    hide JoinedBody, EarlyAnswer, DemandOf, Reachable, Marshal, ReadsResults;
    ReachableInv(app, s);
    assert CallOk(app, s.calls[i]);
    ResponsesFollowReference(app, s, i);
    ResultIsRead(app, v, read);
  }

  /** Exactly when a handler's outcome gets no answer: a call whose handler is over is answered, unless
      receive or send fail, iff what it has to answer can be dumped and encoded. */
  lemma HandledCallsAnsweredIffEncodable(app: App, s: State, i: nat)
    requires Reachable(app, s) && i < |s.calls| && s.calls[i].outcome.Some?
    requires s.calls[i].pc.Done? || s.calls[i].pc == Failed(false)
    ensures s.calls[i].pc.Done? <==>
              match s.calls[i].outcome.value
              case FaultRaised(code, text) => Encodable(app.codec, app.codec.dumpsFault(code, text))
              case ExceptionRaised(text) => Encodable(app.codec, app.codec.dumpsFault(1, text))
              case Returned(v) =>
                match app.codec.dumpsValue(v)
                case Text(t) => app.codec.encode(t).Some?
                case DumpRaised(text) => Encodable(app.codec, app.codec.dumpsFault(1, text))
  {
    hide JoinedBody, EarlyAnswer, DemandOf, Reachable, Marshal, Encodable;
    ReachableInv(app, s);
    assert CallOk(app, s.calls[i]);
    ResponsesFollowReference(app, s, i);
    AnsweredIffEncodable(app, s.calls[i].outcome.value);
  }

  /** In every run, the handler that is called for a request is the registered function, else the
      instance's _dispatch, else its attribute, with exactly the parameters that were sent; a coroutine
      on the loop, any other function in a pool of the app, any other _dispatch in the default pool. */
  lemma HandlersGetTheirArguments(app: App, s: State, i: nat)
    requires Reachable(app, s) && i < |s.calls| && s.calls[i].asked.Some?
    ensures var c := s.calls[i];
            && JoinedBody(c.q.events).Some? && app.codec.loads(JoinedBody(c.q.events).value).MethodCall?
            && var call := app.codec.loads(JoinedBody(c.q.events).value);
            var onLoop, inPool, inThread := c.pc.OnLoopHandler?, c.pc.Pooled?, c.pc.Threaded?;
            var awaiting := onLoop || inPool || inThread;
            if call.name in app.funcs then
              var h := app.funcs[call.name];
              c.asked.value == Function(h.id, call.params) && (awaiting ==> if h.isAsync then onLoop else inPool)
            else if app.instance.Some? && app.instance.value.dispatchHook.Some? then
              var h := app.instance.value.dispatchHook.value;
              && c.asked.value == Hook(h.id, call.name, call.params)
              && (awaiting ==> if h.isAsync then onLoop else inThread)
            else
              && app.instance.Some? && app.instance.value.resolve(call.name).Found?
              && var h := app.instance.value.resolve(call.name).h;
              c.asked.value == Function(h.id, call.params) && (awaiting ==> if h.isAsync then onLoop else inPool)
  {
    hide JoinedBody, EarlyAnswer, DemandOf, Reachable, Reference;
    ReachableInv(app, s);
    assert CallOk(app, s.calls[i]);
    HandlerAsked(app, JoinedBody(s.calls[i].q.events).value);
  }

  /** What every finished call of every run has put on the wire, message by message. */
  lemma SentExact(app: App, s: State, i: nat)
    requires Reachable(app, s) && i < |s.calls| && s.calls[i].pc.Done?
    ensures var q, sent := s.calls[i].q, s.calls[i].sent;
            var body := JoinedBody(q.events);
            var wrongPath := (if q.path.Some? then q.path.value else "/") != app.rpcPath;
            var wrongVerb := VerbOf(q) != "POST";
            && |sent| == 2 && sent[0].StartMessage? && sent[1].BodyMessage?
            && var status := sent[0].status;
            && (wrongPath ==> status == 404)
            && (!wrongPath && wrongVerb ==> status == 405)
            && (!wrongPath && !wrongVerb ==>
                  body.Some? && status == if |body.value| > app.maxRequestSize then 413 else 200)
            && sent[0].headers ==
                 [(Ascii("content-type"),
                   if status == 200 then Ascii("text/xml; charset=utf-8") else Ascii("text/plain; charset=utf-8")),
                  (Ascii("content-length"), Decimal(|sent[1].body|))]
                 + (if status == 405 then [(Ascii("allow"), Ascii("POST"))] else [])
            && (status == 404 ==> sent[1].body == Ascii("Not Found"))
            && (status == 405 ==> sent[1].body == Ascii("Method Not Allowed"))
            && (status == 413 ==> sent[1].body == Ascii("Payload Too Large"))
  {
    hide JoinedBody, Reference, Reachable, Ascii, Decimal, VerbOf;
    ResponsesFollowReference(app, s, i);
    StatusExact(app, s.calls[i].q, s.calls[i].outcome);
    PostExact(s.calls[i].q);
  }

  /** Placement independence of whole runs: two apps whose handlers differ only in being sync or async,
      each in any run of its own, send the same messages for the same request and handler outcome. */
  lemma PlacementDoesNotShow(a: App, b: App, s: State, t: State, i: nat, j: nat)
    requires SameButPlaced(a, b) && Reachable(a, s) && Reachable(b, t)
    requires i < |s.calls| && j < |t.calls|
    requires s.calls[i].q == t.calls[j].q && s.calls[i].outcome == t.calls[j].outcome
    requires s.calls[i].pc.Done? && t.calls[j].pc.Done?
    ensures s.calls[i].sent == t.calls[j].sent
  {
    hide Reference, Messages, SameButPlaced;
    ResponsesFollowReference(a, s, i);
    ResponsesFollowReference(b, t, j);
    PlacementIndependence(a, b, s.calls[i].q, s.calls[i].outcome);
  }

  // ----- Two runs that show the limits -----

  lemma Then(app: App, s: State, step: Step) returns (t: State)
    requires Reachable(app, s) && Wf(s) && Enabled(app, s, step)
    ensures t == Apply(app, s, step) && Reachable(app, t)
  {
    t := Apply(app, s, step);
    ReachableStep(app, s, step);
  }

  /** A request whose body comes in one event. */
  predicate OneEvent(app: App, q: Request, place: Place) {
    |q.events| == 1 && !More(q.events[0]) && Asks(app, q, place)
  }

  /** Brings one such call to the submission of its handler. */
  lemma ReachHandler(app: App, s: State, q: Request, place: Place) returns (t: State)
    requires Reachable(app, s) && Wf(s) && !s.blocked && OneEvent(app, q, place)
    ensures Reachable(app, t) && Wf(t)
    ensures t == AfterBody(app, s.(calls := s.calls + [Call(q, Reading(0, []), None, None, [])]), |s.calls|,
                           Chunk(q.events[0]))
    ensures JoinedBody(q.events) == Some(Chunk(q.events[0]))
  {
    hide DemandOf, EarlyAnswer, Reachable;
    var i := |s.calls|;
    t := Then(app, s, HttpCall(q));
    t := Then(app, t, Enter(i));
    var c := Call(q, Reading(0, []), None, None, []);
    assert t.calls == s.calls + [c];
    t := Then(app, t, Receive(i));
    assert [] + Chunk(q.events[0]) == Chunk(q.events[0]);
  }

  /** A sync _dispatch hook runs in the default pool, which nobody shuts down: lifespan.shutdown.complete
      can be sent while it is still running. */
  lemma ShutdownDoesNotWaitForHooks(app: App, q: Request) returns (s: State)
    requires OneEvent(app, q, InDefaultPool)
    ensures Reachable(app, s) && |s.lifespans| == 1 && s.lifespans[0].pc.Ended?
    ensures |s.calls| == 1 && s.calls[0].pc == Threaded(Running)
  {
    hide DemandOf, EarlyAnswer, JoinedBody, Reachable;
    assert Reachable(app, INIT) by { Begins(app); }
    s := ReachHandler(app, INIT, q, InDefaultPool);
    s := Then(app, s, TaskStart(0));
    s := Then(app, s, LifespanCall);
    s := Then(app, s, LifespanReceives(0, ShutdownEvent));
    s := Then(app, s, LifespanSent(0));
  }

  lemma Begins(app: App)
    ensures Reachable(app, INIT)
  {
    assert Run(app, INIT, []) == Some(INIT);
  }

  /** A startup that finds a pool already made by an earlier request orphans it: two pools are then live. */
  lemma LateStartupOrphansPool(app: App, q: Request) returns (s: State)
    requires OneEvent(app, q, InPool)
    ensures Reachable(app, s) && s.orphans == 1 && |s.pools| == 2 && Downs(s.pools) == 0
  {
    hide DemandOf, EarlyAnswer, JoinedBody, Reachable;
    assert Reachable(app, INIT) by { Begins(app); }
    s := ReachHandler(app, INIT, q, InPool);
    s := Then(app, s, LifespanCall);
    s := Then(app, s, LifespanReceives(0, StartupEvent));
    assert s.pools == [Pool(false)] + [Pool(false)];
    DownsAppend([Pool(false)]);
    DownsAppend([]);
    assert [] + [Pool(false)] == [Pool(false)];
  }

  /** A startup, answered. It makes a new, empty pool. */
  lemma Restart(app: App, s: State) returns (t: State)
    requires Reachable(app, s) && Wf(s) && !s.blocked && |s.lifespans| == 1 && s.lifespans[0].pc.Receiving?
    ensures Reachable(app, t) && Wf(t)
    ensures t == s.(pools := s.pools + [Pool(false)], current := Some(|s.pools|),
                    orphans := s.orphans + One(s.current.Some?))
    ensures RunningIn(t.calls, |s.pools|) == 0
  {
    hide Reachable, RunningIn, Downs, CallOk;
    ReachableInv(app, s);
    RunningZero(s.calls, |s.pools|);
    t := Then(app, s, LifespanReceives(0, StartupEvent));
    t := Then(app, t, LifespanSent(0));
    assert t.lifespans == s.lifespans;
  }

  /** Starts one more handler in the pool that is set. */
  lemma StartOne(app: App, s: State, q: Request) returns (t: State)
    requires Reachable(app, s) && Wf(s) && !s.blocked && s.current.Some? && OneEvent(app, q, InPool)
    requires RunningIn(s.calls, s.current.value) < app.maxWorkers
    ensures Reachable(app, t) && t == s.(calls := t.calls)
    ensures RunningIn(t.calls, s.current.value) == RunningIn(s.calls, s.current.value) + 1
    ensures RunningAnywhere(t.calls) == RunningAnywhere(s.calls) + 1
  {
    hide DemandOf, EarlyAnswer, JoinedBody, Reachable;
    var i := |s.calls|;
    var p := s.current.value;
    t := ReachHandler(app, s, q, InPool);
    var target := DemandOf(app, Chunk(q.events[0])).target;
    var waiting := Call(q, Pooled(p, Waiting), Some(target), None, []);
    var running := Call(q, Pooled(p, Running), Some(target), None, []);
    assert t.calls == s.calls + [waiting];
    assert t.calls[..i] == s.calls;
    t := Then(app, t, TaskStart(i));
    assert t.calls == s.calls + [running];
    assert t.calls[..i] == s.calls;
  }

  /** Starts n more. */
  lemma {:induction false} StartMany(app: App, s: State, q: Request, n: nat) returns (t: State)
    requires Reachable(app, s) && Wf(s) && !s.blocked && s.current.Some? && OneEvent(app, q, InPool)
    requires RunningIn(s.calls, s.current.value) + n <= app.maxWorkers
    ensures Reachable(app, t) && t == s.(calls := t.calls)
    ensures RunningAnywhere(t.calls) == RunningAnywhere(s.calls) + n
    decreases n
  {
    hide Reachable, RunningIn, RunningAnywhere, OneEvent;
    t := s;
    if n > 0 {
      t := StartOne(app, s, q);
      t := StartMany(app, t, q, n - 1);
    }
  }

  /** The bound of PoolConcurrency is reached: with k orphaned pools, for any k, all workers of all of them
      and of the pool that is set can be busy at once. */
  lemma {:induction false} PoolBoundIsReached(app: App, q: Request, k: nat) returns (s: State)
    requires OneEvent(app, q, InPool)
    ensures Reachable(app, s) && s.orphans == k && s.current.Some? && !s.blocked
    ensures |s.lifespans| == 1 && s.lifespans[0].pc.Receiving?
    ensures RunningAnywhere(s.calls) == app.maxWorkers * (k + 1)
  {
    hide Reachable, RunningIn, OneEvent;
    if k == 0 {
      assert Reachable(app, INIT) by { Begins(app); }
      s := Then(app, INIT, LifespanCall);
    } else {
      s := PoolBoundIsReached(app, q, k - 1);
    }
    assert Wf(s) by { WfReachable(app, s); }
    s := Restart(app, s);
    s := StartMany(app, s, q, app.maxWorkers);
  }

  lemma WfReachable(app: App, s: State)
    requires Reachable(app, s)
    ensures Wf(s)
  {
  }
}
