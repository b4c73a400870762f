/** Which handlers a lifespan shutdown of XMLRPCASGIApp waits for, and which it may leave behind. */
module AsgiShutdown {
  import opened Common
  import opened Octets
  import opened AsgiHttp
  import opened AsgiLoop
  import opened AsgiLaws
  import opened AsgiTheorems

  /** A handler in that place that is not over. */
  predicate Unfinished(c: Call, place: Place) {
    match place
    case OnLoop => c.pc.OnLoopHandler?
    case InPool => Busy(c)
    case InDefaultPool => c.pc.Threaded? && !c.pc.phase.Finished?
  }

  predicate NoneUnfinished(s: State, place: Place) {
    forall i :: 0 <= i < |s.calls| ==> !Unfinished(s.calls[i], place)
  }

  /** With this step a shutdown is through and goes on to its reply: executor.shutdown returns or, if
      there is no pool, the event itself arrives. */
  predicate CompletesShutdown(app: App, s: State, step: Step, poolSet: bool) {
    && Enabled(app, s, step)
    && if poolSet then step.Unblock? else s.current.None? && step.LifespanReceives? && step.e.ShutdownEvent?
  }

  /** No shutdown, in any run, leaves a handler in that place unfinished. */
  ghost predicate ShutdownDrains(app: App, place: Place, poolSet: bool, ordered: bool) {
    forall s: State, step: Step ::
      Reachable(app, s) && (ordered ==> s.orphans == 0) && CompletesShutdown(app, s, step, poolSet)
      ==> NoneUnfinished(s, place)
  }

  ghost predicate Asked(app: App, place: Place) { exists q: Request :: Asks(app, q, place) }

  // ----- What is waited for -----

  lemma PoolIsDrained(app: App, s: State, step: Step, poolSet: bool)
    requires Reachable(app, s) && s.orphans == 0 && CompletesShutdown(app, s, step, poolSet)
    ensures NoneUnfinished(s, InPool)
  {
    hide Reachable, CallOk, RunningIn, Downs;
    ReachableInv(app, s);
    if s.current.Some? {
      forall i | 0 <= i < |s.calls| ensures !Busy(s.calls[i]) {
        assert s.calls[i].pc.Pooled? && s.calls[i].pc.pool == s.current.value ==> s.calls[i].pc.phase.Finished?;
      }
    }
  }

  lemma UnaskedIsIdle(app: App, s: State, place: Place)
    requires Reachable(app, s) && !Asked(app, place)
    ensures NoneUnfinished(s, place)
  {
    hide Reachable, Asks, Reference;
    ReachableInv(app, s);
    forall i | 0 <= i < |s.calls| ensures !Unfinished(s.calls[i], place) {
      assert CallOk(app, s.calls[i]);
    }
  }

  // ----- What may be left behind -----

  /** The same call with its body in one event. */
  lemma InOneEvent(app: App, q: Request, place: Place) returns (r: Request)
    requires Asks(app, q, place)
    ensures OneEvent(app, r, place)
  {
    hide DemandOf;
    var e := BodyEvent(JoinedBody(q.events), None);
    r := q.(events := [e]);
    assert JoinedBody([e]) == Some(Chunk(e)) == JoinedBody(q.events);
  }

  /** A coroutine, or a handler in the default pool, is left behind, with a pool set or without. */
  lemma LeftBehind(app: App, q: Request, place: Place, poolSet: bool) returns (s: State, step: Step)
    requires OneEvent(app, q, place) && !place.InPool?
    ensures Reachable(app, s) && s.orphans == 0 && CompletesShutdown(app, s, step, poolSet)
    ensures !NoneUnfinished(s, place)
  {
    hide DemandOf, EarlyAnswer, JoinedBody, Reachable, RunningIn;
    assert Reachable(app, INIT) by { Begins(app); }
    s := Then(app, INIT, LifespanCall);
    if poolSet { s := Restart(app, s); }
    s := ReachHandler(app, s, q, place);
    assert Unfinished(s.calls[0], place);
    step := LifespanReceives(0, ShutdownEvent);
    if poolSet {
      s := Then(app, s, step);
      step := Unblock;
    }
  }

  /** A handler waits in a pool that a startup has orphaned. */
  lemma OrphanedHandler(app: App, q: Request) returns (s: State)
    requires OneEvent(app, q, InPool)
    ensures Reachable(app, s)
    ensures |s.calls| == 1 && s.calls[0].pc == Pooled(0, Waiting)
    ensures s == State([Pool(false)] + [Pool(false)], Some(1), 1, false, s.calls, [Lifespan(Receiving, None)])
  {
    hide DemandOf, EarlyAnswer, JoinedBody, Reachable, RunningIn;
    assert Reachable(app, INIT) by { Begins(app); }
    s := ReachHandler(app, INIT, q, InPool);
    s := Then(app, s, LifespanCall);
    s := Restart(app, s);
  }

  /** A handler in an orphaned pool is left behind, by the shutdown of the pool that replaced it and by
      any later one that finds no pool. */
  lemma LeftBehindByStartup(app: App, q: Request, poolSet: bool) returns (s: State, step: Step)
    requires OneEvent(app, q, InPool)
    ensures Reachable(app, s) && CompletesShutdown(app, s, step, poolSet) && !NoneUnfinished(s, InPool)
  {
    hide OneEvent, Reachable, RunningIn;
    s := OrphanedHandler(app, q);
    s := Then(app, s, LifespanReceives(0, ShutdownEvent));
    assert Unfinished(s.calls[0], InPool);
    step := Unblock;
    if !poolSet {
      s := Then(app, s, Unblock);
      s := Then(app, s, LifespanCall);
      step := LifespanReceives(1, ShutdownEvent);
    }
  }

  // ----- Exactly -----

  /** Exactly which handlers every shutdown has waited for: those in the app's pools if no startup has
      orphaned one, and beyond that only places where no request can ask for a handler at all. So it is
      with a pool set as without one. */
  lemma ShutdownDrainsExactly(app: App, place: Place, poolSet: bool, ordered: bool)
    ensures ShutdownDrains(app, place, poolSet, ordered) <==> (place.InPool? && ordered) || !Asked(app, place)
  {
    hide Reachable, Asks, NoneUnfinished, CompletesShutdown, OneEvent;
    if (place.InPool? && ordered) || !Asked(app, place) {
      forall s: State, step: Step | Reachable(app, s) && (ordered ==> s.orphans == 0)
                                    && CompletesShutdown(app, s, step, poolSet)
        ensures NoneUnfinished(s, place)
      {
        if Asked(app, place) { PoolIsDrained(app, s, step, poolSet); } else { UnaskedIsIdle(app, s, place); }
      }
    } else {
      var q: Request :| Asks(app, q, place);
      q := InOneEvent(app, q, place);
      var s, step;
      if place.InPool? {
        s, step := LeftBehindByStartup(app, q, poolSet);
      } else {
        s, step := LeftBehind(app, q, place, poolSet);
      }
    }
  }

  /** A body of acceptable size that calls a method which no registered function has. */
  predicate CallsUnregistered(app: App, body: Bytes) {
    && |body| <= app.maxRequestSize
    && app.codec.loads(body).MethodCall? && app.codec.loads(body).name !in app.funcs
  }

  predicate HasSyncHook(app: App) {
    && app.instance.Some? && app.instance.value.dispatchHook.Some?
    && !app.instance.value.dispatchHook.value.isAsync
  }

  /** When the default pool is asked: a synchronous _dispatch, and a body that gets to it. */
  lemma DefaultPoolAskedIff(app: App)
    ensures Asked(app, InDefaultPool) <==> HasSyncHook(app) && exists body :: CallsUnregistered(app, body)
  {
    if Asked(app, InDefaultPool) {
      var q: Request :| Asks(app, q, InDefaultPool);
      HookIsAsked(app, JoinedBody(q.events).value);
    }
    if HasSyncHook(app) && exists body :: CallsUnregistered(app, body) {
      var body :| CallsUnregistered(app, body);
      HookIsAsked(app, body);
      var q := PlainPost(app, body);
      assert Asks(app, q, InDefaultPool);
    }
  }

  lemma HookIsAsked(app: App, body: Bytes)
    ensures DemandOf(app, body).Ask? && DemandOf(app, body).place == InDefaultPool
            <==> HasSyncHook(app) && CallsUnregistered(app, body)
  {
    hide Marshal, FaultVerdict;
  }

  lemma PlainPost(app: App, body: Bytes) returns (q: Request)
    ensures EarlyAnswer(app, q).None? && JoinedBody(q.events) == Some(body)
  {
    q := Request(Some(app.rpcPath), Some("POST"), [BodyEvent(Some(body), None)]);
    assert Upper("POST") == "POST";
  }

  /** Exactly when every shutdown leaves no handler running in any thread, as long as no pool was orphaned:
      iff no synchronous _dispatch hook can be called. */
  lemma ThreadsDrainedIffNoSyncHook(app: App, poolSet: bool)
    ensures ShutdownDrains(app, InPool, poolSet, true) && ShutdownDrains(app, InDefaultPool, poolSet, true)
            <==> !(HasSyncHook(app) && exists body :: CallsUnregistered(app, body))
  {
    hide ShutdownDrains, Asked, HasSyncHook, CallsUnregistered;
    ShutdownDrainsExactly(app, InPool, poolSet, true);
    ShutdownDrainsExactly(app, InDefaultPool, poolSet, true);
    DefaultPoolAskedIff(app);
  }
}
