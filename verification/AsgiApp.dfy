/**
 XMLRPCASGIApp as an object (asgi.py): the methods that change _executor or loop over awaits. Each
 method is the code of one coroutine when no other runs in between, and its contract says that this is
 a run of AsgiLoop (_get_executor, a part of one step of it): so everything proved about the loop's
 interleavings is about this code.
 */
module AsgiApp {
  import opened Common
  import opened Octets
  import opened AsgiHttp
  import opened AsgiLoop
  import AsgiLaws

  /** ThreadPoolExecutor, by contract: it refuses work once it is shut down; shutdown(wait=True) returns
      once no handler is unfinished, and one that cannot return yet is reported as not done. */
  class ThreadPool {
    ghost const id: nat
    var down: bool
    var unfinished: nat

    constructor (ghost id: nat)
      ensures this.id == id && !down && unfinished == 0
    {
      this.id := id;
      down, unfinished := false, 0;
    }

    method Submit() returns (ok: bool)
      modifies this`unfinished
      ensures ok == !down
      ensures unfinished == old(unfinished) + One(ok)
    {
      ok := !down;
      if ok { unfinished := unfinished + 1; }
    }

    /** One of its worker threads is through with a handler. */
    method Finish()
      requires unfinished > 0
      modifies this`unfinished
      ensures unfinished == old(unfinished) - 1
    {
      unfinished := unfinished - 1;
    }

    method Shutdown() returns (done: bool)
      modifies this`down
      ensures down && done == (unfinished == 0)
    {
      down := true;
      done := unfinished == 0;
    }
  }

  /** The send callable of one HTTP call: what it delivered, and which call of it fails, if any. */
  class Channel {
    var sent: seq<Message>
    const capacity: nat

    constructor (capacity: nat)
      ensures sent == [] && this.capacity == capacity
    {
      sent := [];
      this.capacity := capacity;
    }

    method Send(m: Message) returns (ok: bool)
      modifies this
      ensures ok == (|old(sent)| < capacity)
      ensures sent == if ok then old(sent) + [m] else old(sent)
    {
      ok := |sent| < capacity;
      if ok { sent := sent + [m]; }
    }
  }

  /** _send_http_response: the two messages of the response, or a prefix if send raises. */
  method SendHttpResponse(c: Channel, status: nat, body: Bytes, contentType: Bytes, extra: seq<(Bytes, Bytes)>)
    returns (ok: bool)
    modifies c
    ensures var start := StartMessage(status, [(Ascii("content-type"), contentType),
                                               (Ascii("content-length"), Decimal(|body|))] + extra);
            var delivered := c.capacity - |old(c.sent)|;
            && ok == (delivered >= 2)
            && c.sent == old(c.sent) + (if delivered >= 2 then [start, BodyMessage(body)]
                                        else if delivered == 1 then [start] else [])
            && [start, BodyMessage(body)] == Messages(Response(status, contentType, extra, body))
  {
    var headers := [(Ascii("content-type"), contentType), (Ascii("content-length"), Decimal(|body|))];
    assert extra == [] ==> headers + extra == headers;
    if extra != [] {
      headers := headers + extra;
    }
    ok := c.Send(StartMessage(status, headers));
    if !ok { return; }
    ok := c.Send(BodyMessage(body));
  }

  datatype LifespanMessage = StartupComplete | ShutdownComplete

  /** How a lifespan call ends, as far as the events go. */
  datatype LifespanEnd = AwaitingEvent | Ending | StillShuttingDown

  function Startups(events: seq<LifespanEvent>): nat {
    if events == [] then 0 else Startups(events[..|events| - 1]) + One(events[|events| - 1].StartupEvent?)
  }

  lemma {:induction false} StartupsExact(events: seq<LifespanEvent>)
    ensures Startups(events) == multiset(events)[StartupEvent]
  {
    if events != [] {
      var n := |events| - 1;
      assert events == events[..n] + [events[n]];
      StartupsExact(events[..n]);
    }
  }

  lemma NoStartups()
    ensures Startups([]) == 0
  {
  }

  lemma StartupsNext(events: seq<LifespanEvent>, n: nat)
    requires n < |events|
    ensures Startups(events[..n + 1]) == Startups(events[..n]) + One(events[n].StartupEvent?)
    ensures events[..n + 1] == events[..n] + [events[n]]
  {
    assert events[..n + 1][..n] == events[..n];
  }

  class XmlRpcApp {
    const app: App
    var executor: ThreadPool?
    ghost var loop: State

    ghost var made: seq<ThreadPool>     // every pool there ever was

    /** The object and its pools are as in this state of the loop. */
    ghost predicate Stands(s: State)
      reads this, made
    {
      && Wf(s)
      && |made| == |s.pools|
      && (forall p :: 0 <= p < |made| ==>
            && made[p].id == p
            && made[p].down == s.pools[p].down
            && made[p].unfinished == AsgiLaws.UnfinishedIn(s.calls, p))
      && (executor == null <==> s.current.None?)
      && (executor != null ==> executor == made[s.current.value])
    }

    ghost predicate Valid()
      reads this, made
    {
      Reachable(app, loop) && Stands(loop)
    }

    constructor (app: App)
      ensures Valid() && this.app == app && executor == null && loop == INIT && made == []
    {
      this.app := app;
      executor := null;
      loop := INIT;
      made := [];
      new;
      assert Run(app, INIT, []) == Some(INIT);
    }

    /** To be called where the code takes one step of the loop. */
    ghost method Mark(start: State, steps: seq<Step>, step: Step)
      requires Wf(start) && Run(app, start, steps) == Some(loop)
      requires Wf(loop) && Reachable(app, loop) && Enabled(app, loop, step)
      modifies this`loop
      ensures loop == Apply(app, old(loop), step) && Wf(loop) && Reachable(app, loop)
      ensures Run(app, start, steps + [step]) == Some(loop)
    {
      hide Run, Enabled, Apply, Reachable;
      RunSnoc(app, start, steps, loop, step);
      ReachableStep(app, loop, step);
      loop := Apply(app, loop, step);
    }

    /** _get_executor: never a pool that has been shut down; a new one exactly if none is set. The loop
        is then in the middle of a step, on its way to a state with that pool. */
    method GetExecutor() returns (pool: ThreadPool)
      requires Valid() && !loop.blocked
      modifies this`executor, this`made
      ensures pool == executor && !pool.down && Stands(EnsurePool(loop))
      ensures old(executor) != null ==> pool == old(executor) && made == old(made)
      ensures old(executor) == null ==> fresh(pool) && made == old(made) + [pool] && pool.unfinished == 0
    {
      hide Reachable;
      AsgiLaws.ReachableInv(app, loop);
      if executor == null {
        NoTaskInNextPool(app, loop);
        executor := new ThreadPool(|loop.pools|);
        made := made + [executor];
      }
      pool := executor;
    }

    /** An HTTP call has received its last body event, which makes its body complete. */
    ghost predicate Completes(i: nat, body: Bytes)
      reads this
    {
      && i < |loop.calls| && loop.calls[i].pc.Reading?
      && var c := loop.calls[i];
      && c.pc.read < |c.q.events| && !More(c.q.events[c.pc.read])
      && body == c.pc.acc + Chunk(c.q.events[c.pc.read])
    }

    /** From the last body event to the next await: size check, parsing, dispatch and, for a synchronous
        function, _get_executor and run_in_executor with nothing in between. Exactly then the pool that
        is set afterwards has one more unfinished handler; it never refuses it. */
    method Dispatch(ghost i: nat, body: Bytes) returns (d: Demand)
      requires Valid() && !loop.blocked && Completes(i, body)
      modifies this`executor, this`made, this`loop, executor
      ensures Valid() && Run(app, old(loop), [Receive(i)]) == Some(loop)
      ensures d == DemandOf(app, body) && old(made) <= made
      ensures d.Ask? && d.place.InPool? ==>
                && executor != null && !executor.down
                && i < |loop.calls| && loop.calls[i].pc == Pooled(executor.id, Waiting)
                && (old(executor) == null ==> fresh(executor) && executor.unfinished == 1)
                && (old(executor) != null ==>
                      executor == old(executor) && executor.unfinished == old(executor.unfinished) + 1)
      ensures !(d.Ask? && d.place.InPool?) ==>
                executor == old(executor) && (executor != null ==> executor.unfinished == old(executor.unfinished))
    {
      hide Reachable, Run, DemandOf, AsgiLaws.UnfinishedIn;
      d := DemandOf(app, body);
      if d.Ask? && d.place.InPool? {
        RunInExecutor(i, body);
      } else {
        NoStep(app, loop);
        DispatchCounts(app, loop, i, body);
        Mark(loop, [], Receive(i));
        assert [] + [Receive(i)] == [Receive(i)];
      }
    }

    /** The end of _async_dispatch for a synchronous function. */
    method RunInExecutor(ghost i: nat, ghost body: Bytes)
      requires Valid() && !loop.blocked && Completes(i, body)
      requires DemandOf(app, body).Ask? && DemandOf(app, body).place.InPool?
      modifies this`executor, this`made, this`loop, executor
      ensures Valid() && Run(app, old(loop), [Receive(i)]) == Some(loop)
      ensures executor != null && !executor.down && i < |loop.calls| && old(made) <= made
      ensures loop.calls[i].pc == Pooled(executor.id, Waiting)
      ensures old(executor) == null ==> fresh(executor) && executor.unfinished == 1
      ensures old(executor) != null ==>
                executor == old(executor) && executor.unfinished == old(executor.unfinished) + 1
    {
      hide Reachable, Run, DemandOf, AsgiLaws.UnfinishedIn;
      ghost var s := loop;
      NoStep(app, s);
      DispatchCounts(app, s, i, body);
      var pool := GetExecutor();
      var ok := pool.Submit();
      assert ok;
      Mark(s, [], Receive(i));
      assert [] + [Receive(i)] == [Receive(i)];
    }

    /** A worker thread of the pool ends the handler of call i. */
    method HandlerEnds(pool: ThreadPool, ghost i: nat, ghost o: Outcome)
      requires Valid() && i < |loop.calls| && loop.calls[i].pc.Pooled? && loop.calls[i].pc.phase.Running?
      requires loop.calls[i].pc.pool < |made| && pool == made[loop.calls[i].pc.pool]
      modifies pool`unfinished, this`loop
      ensures Valid() && Run(app, old(loop), [TaskEnd(i, o)]) == Some(loop)
      ensures loop.blocked == old(loop.blocked) && loop.pools == old(loop.pools) && loop.current == old(loop.current)
      ensures pool.unfinished == old(pool.unfinished) - 1
    {
      hide Reachable, Run, AsgiLaws.UnfinishedIn;
      ghost var s := loop;
      NoStep(app, s);
      EndCounts(app, s, i, o);
      pool.Finish();
      Mark(s, [], TaskEnd(i, o));
      assert [] + [TaskEnd(i, o)] == [TaskEnd(i, o)];
    }

    /** Any step of another coroutine, of a server or of a thread that has nothing to do with the pools'
        lives: among them the start of a handler. */
    ghost method Elsewhere(step: Step)
      requires Valid() && Enabled(app, loop, step) && LeavesPoolsAlone(loop, step)
      modifies this`loop
      ensures Valid() && Run(app, old(loop), [step]) == Some(loop) && loop == Apply(app, old(loop), step)
    {
      hide Reachable, Run, Enabled, Apply, AsgiLaws.UnfinishedIn;
      var s := loop;
      NoStep(app, s);
      ElsewhereCounts(app, s, step);
      Mark(s, [], step);
      assert [] + [step] == [step];
    }

    /** close(): shuts the pool down, waits for its handlers, and only then forgets it. `returned` is
        false while it is still waiting, with the event loop blocked. */
    method Close() returns (returned: bool)
      requires Valid() && !loop.blocked
      modifies this`executor, this`loop, executor
      ensures Valid()
      ensures returned <==> old(executor) == null || old(executor.unfinished) == 0
      ensures returned ==> executor == null
      ensures Run(app, old(loop), if old(executor) == null || !returned then [CloseApp] else [CloseApp, Unblock])
              == Some(loop)
      ensures old(executor) != null ==> old(executor).down
      ensures !returned ==> loop.blocked && executor == old(executor)
      ensures old(executor) != null ==> old(executor).unfinished == old(executor.unfinished)
    {
      hide Reachable, Run, Stands, Enabled, Apply;
      ghost var s := loop;
      returned := BeginClose();
      if returned && executor != null {
        ghost var t := loop;
        StopWaiting();
        RunConcat(app, s, [CloseApp], t, [Unblock]);
        assert [CloseApp] + [Unblock] == [CloseApp, Unblock];
      }
    }

    /** The pool refuses work from now on; does the shutdown return at once? */
    method BeginClose() returns (returned: bool)
      requires Valid() && !loop.blocked
      modifies this`loop, executor
      ensures Valid() && Wf(old(loop)) && Run(app, old(loop), [CloseApp]) == Some(loop)
      ensures returned <==> executor == null || executor.unfinished == 0
      ensures executor != null ==> executor.down && executor.unfinished == old(executor.unfinished) && loop.blocked
    {
      hide Reachable, Run, AsgiLaws.UnfinishedIn;
      ghost var s := loop;
      NoStep(app, s);
      AsgiLaws.ReachableInv(app, s);
      assert [] + [CloseApp] == [CloseApp];
      returned := true;
      Mark(s, [], CloseApp);
      if executor != null { returned := executor.Shutdown(); }
    }

    /** The rest of close() or of a lifespan shutdown that had to wait, once the pool's handlers are over. */
    method StopWaiting()
      requires Valid() && loop.blocked && executor != null && executor.unfinished == 0
      modifies this`executor, this`loop
      ensures Valid() && executor == null && !loop.blocked
      ensures Run(app, old(loop), [Unblock]) == Some(loop)
    {
      hide Reachable, Run, AsgiLaws.UnfinishedIn;
      ghost var s := loop;
      NoStep(app, s);
      AsgiLaws.UnfinishedZero(s.calls, s.current.value);
      executor := null;
      Mark(s, [], Unblock);
      assert [] + [Unblock] == [Unblock];
    }

    /** The startup branch of _handle_lifespan: a new pool, whether or not one is set, and the reply. */
    method Startup(ghost k: nat, ghost start: State, ghost steps: seq<Step>)
      requires Valid() && Listening(k) && Wf(start) && Run(app, start, steps) == Some(loop)
      modifies this`executor, this`made, this`loop
      ensures Valid() && Listening(k)
      ensures Run(app, start, steps + [LifespanReceives(k, StartupEvent), LifespanSent(k)]) == Some(loop)
      ensures executor != null && fresh(executor) && executor.unfinished == 0
      ensures loop.orphans == old(loop.orphans) + One(old(executor) != null)
    {
      hide Reachable, Run, AsgiLaws.UnfinishedIn;
      ghost var receives := LifespanReceives(k, StartupEvent);
      NoTaskInNextPool(app, loop);
      executor := new ThreadPool(|loop.pools|);
      made := made + [executor];
      Mark(start, steps, receives);
      Mark(start, steps + [receives], LifespanSent(k));
      assert steps + [receives] + [LifespanSent(k)] == steps + [receives, LifespanSent(k)];
    }

    /** The shutdown branch: shuts the pool down and forgets it before replying; without a pool, just
        replies. `returned` is false while it waits for handlers. */
    method ShutdownPool(ghost k: nat, ghost start: State, ghost steps: seq<Step>)
      returns (returned: bool, ghost path: seq<Step>)
      requires Valid() && Listening(k) && Wf(start) && Run(app, start, steps) == Some(loop)
      modifies this`executor, this`loop, executor
      ensures Valid() && k < |loop.lifespans|
      ensures returned <==> old(executor) == null || old(executor.unfinished) == 0
      ensures path == if old(executor) == null then [LifespanReceives(k, ShutdownEvent), LifespanSent(k)]
                      else if returned then [LifespanReceives(k, ShutdownEvent), Unblock, LifespanSent(k)]
                      else [LifespanReceives(k, ShutdownEvent)]
      ensures Run(app, start, steps + path) == Some(loop)
      ensures if returned then executor == null && loop.lifespans[k].pc.Ended?
              else loop.blocked && loop.lifespans[k].pc.ShuttingDown?
      ensures loop.orphans == old(loop.orphans)
    {
      hide Reachable, Run, AsgiLaws.UnfinishedIn;
      ghost var receives := LifespanReceives(k, ShutdownEvent);
      returned, path := true, [receives];
      if executor == null {
        Mark(start, steps, receives);
      } else {
        returned, path := CloseSetPool(k, start, steps);
        if !returned { return; }
      }
      Mark(start, steps + path, LifespanSent(k));
      assert steps + path + [LifespanSent(k)] == steps + (path + [LifespanSent(k)]);
      path := path + [LifespanSent(k)];
    }

    /** Shuts the pool that is set down for lifespan call k, waits, and only then forgets it. */
    method CloseSetPool(ghost k: nat, ghost start: State, ghost steps: seq<Step>)
      returns (returned: bool, ghost path: seq<Step>)
      requires Valid() && Listening(k) && executor != null && Wf(start) && Run(app, start, steps) == Some(loop)
      modifies this`executor, this`loop, executor
      ensures Valid() && |loop.lifespans| == old(|loop.lifespans|)
      ensures returned <==> old(executor.unfinished) == 0
      ensures path == [LifespanReceives(k, ShutdownEvent)] + (if returned then [Unblock] else [])
      ensures Run(app, start, steps + path) == Some(loop)
      ensures if returned then executor == null && !loop.blocked && loop.lifespans[k].pc.SendingShutdown?
              else loop.blocked && loop.lifespans[k].pc.ShuttingDown?
      ensures loop.orphans == old(loop.orphans)
    {
      hide Reachable, Run, AsgiLaws.UnfinishedIn;
      SetPoolIsOpen(app, loop);
      AsgiLaws.UnfinishedZero(loop.calls, loop.current.value);
      path := [LifespanReceives(k, ShutdownEvent)];
      returned := executor.Shutdown();
      Mark(start, steps, LifespanReceives(k, ShutdownEvent));
      if returned {
        executor := null;
        Mark(start, steps + path, Unblock);
        assert steps + path + [Unblock] == steps + (path + [Unblock]);
        path := path + [Unblock];
      }
    }

    /** Lifespan call k is waiting for its next event. */
    ghost predicate Listening(k: nat)
      reads this
    {
      !loop.blocked && k < |loop.lifespans| && loop.lifespans[k].pc.Receiving?
    }

    /** An event that is neither startup nor shutdown. */
    ghost method Ignore(k: nat, start: State, steps: seq<Step>)
      requires Valid() && Listening(k) && Wf(start) && Run(app, start, steps) == Some(loop)
      modifies this`loop
      ensures Valid() && Listening(k) && loop == old(loop)
      ensures Run(app, start, steps + [LifespanReceives(k, OtherEvent)]) == Some(loop)
    {
      hide Reachable, Run;
      Mark(start, steps, LifespanReceives(k, OtherEvent));
    }

    /** _handle_lifespan on these events: replies to each startup and to the first shutdown, which ends
        it; ignores other events. Every startup but the first one without a pool orphans a pool. */
    method HandleLifespan(ghost k: nat, events: seq<LifespanEvent>)
      returns (sent: seq<LifespanMessage>, end: LifespanEnd, ghost steps: seq<Step>)
      requires Valid() && Listening(k)
      modifies this`executor, this`made, this`loop, executor
      ensures Valid()
      ensures Run(app, old(loop), steps) == Some(loop)
      ensures end.AwaitingEvent? <==> ShutdownEvent !in events
      ensures var startups := Startups(UpToShutdown(events));
              && |sent| == startups + One(end.Ending?)
              && (forall j :: 0 <= j < startups ==> sent[j] == StartupComplete)
              && (end.Ending? ==> sent[startups] == ShutdownComplete && executor == null)
              && (end.StillShuttingDown? ==> loop.blocked)
              && loop.orphans == old(loop.orphans)
                 + (if startups == 0 then 0 else startups - 1 + One(old(executor) != null))
      ensures end.StillShuttingDown? ==>
                old(executor) != null && old(executor.unfinished) != 0 && Startups(UpToShutdown(events)) == 0
    {
      hide Reachable, Run, Enabled, Apply, Stands, Startups;
      ghost var start := loop;
      assert Wf(start) by { AsgiLaws.ReachableInv(app, start); }
      NoStep(app, start);
      NoStartups();
      sent, end, steps := [], AwaitingEvent, [];
      var n := 0;
      while n < |events|
        invariant 0 <= n <= |events| && ShutdownEvent !in events[..n]
        invariant Valid() && Listening(k) && Wf(start)
        invariant Run(app, start, steps) == Some(loop)
        invariant |sent| == Startups(events[..n])
        invariant forall j :: 0 <= j < |sent| ==> sent[j] == StartupComplete
        invariant sent == [] ==> executor == old(executor) && loop.orphans == start.orphans
        invariant sent != [] ==> executor != null && fresh(executor) && executor.unfinished == 0
        invariant sent != [] ==> loop.orphans == start.orphans + |sent| - 1 + One(old(executor) != null)
        invariant old(executor) != null ==> old(executor).unfinished == old(executor.unfinished)
      {
        StartupsNext(events, n);
        if events[n].StartupEvent? {
          Startup(k, start, steps);
          steps := steps + [LifespanReceives(k, StartupEvent), LifespanSent(k)];
          sent := sent + [StartupComplete];
        } else if events[n].ShutdownEvent? {
          FirstShutdown(events, n);
          ghost var path;
          var returned;
          returned, path := ShutdownPool(k, start, steps);
          steps := steps + path;
          if returned {
            sent := sent + [ShutdownComplete];
            end := Ending;
          } else {
            end := StillShuttingDown;
          }
          return;
        } else {
          Ignore(k, start, steps);
          steps := steps + [LifespanReceives(k, OtherEvent)];
        }
        n := n + 1;
      }
      assert events[..n] == events;
      NoShutdown(events);
    }
  }

  /** close() while handlers of the pool are unfinished, one of them running, on any app in any state: it
      does not return; when that handler ends it goes on waiting for the others, or, if it was the last,
      returns, and only then is the pool forgotten. */
  method CloseAroundHandler(x: XmlRpcApp, ghost i: nat, ghost o: Outcome) returns (returned: bool)
    requires x.Valid() && !x.loop.blocked && x.executor != null && i < |x.loop.calls|
    requires x.loop.calls[i].pc == Pooled(x.executor.id, Running)
    modifies x`executor, x`loop, x.executor
    ensures x.Valid() && old(x.executor.unfinished) >= 1
    ensures returned <==> old(x.executor.unfinished) == 1
    ensures returned <==> x.executor == null
    ensures Run(x.app, old(x.loop), [CloseApp, TaskEnd(i, o)] + (if returned then [Unblock] else [])) == Some(x.loop)
  {
    hide Reachable, Run, AsgiLaws.UnfinishedIn;
    ghost var s := x.loop;
    var pool := x.executor;
    SomeUnfinished(s.calls, i);
    returned := x.Close();
    assert !returned;
    RunOne(x.app, s, CloseApp, x.loop);
    ghost var t := x.loop;
    x.HandlerEnds(pool, i, o);
    RunConcat(x.app, s, [CloseApp], t, [TaskEnd(i, o)]);
    ghost var path := [CloseApp, TaskEnd(i, o)];
    assert [CloseApp] + [TaskEnd(i, o)] == path == path + [];
    returned := pool.unfinished == 0;
    if returned {
      t := x.loop;
      x.StopWaiting();
      RunConcat(x.app, s, path, t, [Unblock]);
    }
  }

  lemma SomeUnfinished(calls: seq<Call>, i: nat)
    requires i < |calls| && AsgiLaws.Busy(calls[i])
    ensures AsgiLaws.UnfinishedIn(calls, calls[i].pc.pool) > 0
  {
    AsgiLaws.UnfinishedZero(calls, calls[i].pc.pool);
  }

  lemma {:induction false} RunConcat(app: App, s: State, first: seq<Step>, t: State, second: seq<Step>)
    requires Wf(s) && Run(app, s, first) == Some(t)
    ensures Wf(t) && Run(app, s, first + second) == Run(app, t, second)
  {
    hide Enabled, Apply;
    if second == [] {
      assert first + second == first;
    } else {
      var n := |second| - 1;
      assert (first + second)[..|first| + n] == first + second[..n];
      RunConcat(app, s, first, t, second[..n]);
    }
  }

  lemma RunOne(app: App, s: State, step: Step, t: State)
    requires Wf(s) && Run(app, s, [step]) == Some(t)
    ensures Enabled(app, s, step) && t == Apply(app, s, step)
  {
    hide Enabled, Apply;
    assert [step][..0] == [];
    assert Run(app, s, []) == Some(s);
  }

  /** The events up to and including the first shutdown. */
  function UpToShutdown(events: seq<LifespanEvent>): seq<LifespanEvent> {
    if events == [] then []
    else if events[0].ShutdownEvent? then [ShutdownEvent]
    else [events[0]] + UpToShutdown(events[1..])
  }

  lemma {:induction false} FirstShutdown(events: seq<LifespanEvent>, n: nat)
    requires n < |events| && events[n].ShutdownEvent? && ShutdownEvent !in events[..n]
    ensures UpToShutdown(events) == events[..n + 1] && ShutdownEvent in events
  {
    if n > 0 {
      assert events[0] in events[..n];
      assert events[1..][..n - 1] == events[..n][1..];
      FirstShutdown(events[1..], n - 1);
      assert events[..n + 1] == [events[0]] + events[1..][..n];
    }
  }

  lemma {:induction false} NoShutdown(events: seq<LifespanEvent>)
    requires ShutdownEvent !in events
    ensures UpToShutdown(events) == events
  {
    if events != [] {
      assert events[0] in events;
      NoShutdown(events[1..]);
      assert [events[0]] + events[1..] == events;
    }
  }

  lemma SetPoolIsOpen(app: App, s: State)
    requires Reachable(app, s) && !s.blocked && s.current.Some?
    ensures s.current.value < |s.pools| && !s.pools[s.current.value].down
  {
    AsgiLaws.ReachableInv(app, s);
  }

  lemma NoTaskInNextPool(app: App, s: State)
    requires Reachable(app, s)
    ensures AsgiLaws.UnfinishedIn(s.calls, |s.pools|) == 0
  {
    AsgiLaws.ReachableInv(app, s);
    AsgiLaws.UnfinishedZero(s.calls, |s.pools|);
  }

  /** The steps that neither submit or end a pool's handler nor make, replace, close or forget a pool. */
  predicate LeavesPoolsAlone(s: State, step: Step) {
    match step
    case Receive(i) =>
      i < |s.calls| && s.calls[i].pc.Reading? && s.calls[i].pc.read < |s.calls[i].q.events|
      && More(s.calls[i].q.events[s.calls[i].pc.read])
    case LifespanReceives(_, e) => e.OtherEvent?
    case CloseApp => false
    case Unblock => false
    case TaskEnd(i, _) => i < |s.calls| && !s.calls[i].pc.Pooled?
    case _ => true
  }

  lemma ElsewhereCounts(app: App, s: State, step: Step)
    requires Wf(s) && Enabled(app, s, step) && LeavesPoolsAlone(s, step)
    ensures var t := Apply(app, s, step);
            && t.pools == s.pools && t.current == s.current
            && forall p: nat :: AsgiLaws.UnfinishedIn(t.calls, p) == AsgiLaws.UnfinishedIn(s.calls, p)
  {
    hide AsgiLaws.UnfinishedIn;
    var t := Apply(app, s, step);
    forall p: nat ensures AsgiLaws.UnfinishedIn(t.calls, p) == AsgiLaws.UnfinishedIn(s.calls, p) {
      if step.HttpCall? {
        OneMoreCall(s.calls, step.q, p);
      } else if step.Receive? || PlainStep(step) {
        AsgiLaws.UnfinishedUpdate(s.calls, step.i, t.calls[step.i], p);
      }
    }
  }

  lemma OneMoreCall(calls: seq<Call>, q: Request, p: nat)
    ensures AsgiLaws.UnfinishedIn(calls + [Call(q, Begin, None, None, [])], p) == AsgiLaws.UnfinishedIn(calls, p)
  {
    assert (calls + [Call(q, Begin, None, None, [])])[..|calls|] == calls;
  }

  lemma EndCounts(app: App, s: State, i: nat, o: Outcome)
    requires Wf(s) && i < |s.calls| && s.calls[i].pc.Pooled? && s.calls[i].pc.phase.Running?
    ensures Enabled(app, s, TaskEnd(i, o))
    ensures var t := Apply(app, s, TaskEnd(i, o));
            && t.pools == s.pools && t.current == s.current
            && forall p: nat :: AsgiLaws.UnfinishedIn(t.calls, p)
                                == AsgiLaws.UnfinishedIn(s.calls, p) - One(p == s.calls[i].pc.pool)
  {
    hide AsgiLaws.UnfinishedIn;
    var t := Apply(app, s, TaskEnd(i, o));
    forall p: nat ensures AsgiLaws.UnfinishedIn(t.calls, p)
                          == AsgiLaws.UnfinishedIn(s.calls, p) - One(p == s.calls[i].pc.pool)
    {
      AsgiLaws.UnfinishedUpdate(s.calls, i, t.calls[i], p);
    }
  }

  lemma DispatchCounts(app: App, s: State, i: nat, body: Bytes)
    requires Wf(s) && i < |s.calls| && s.calls[i].pc.Reading?
    ensures var t := AfterBody(app, s, i, body);
            var d := DemandOf(app, body);
            var submits := d.Ask? && d.place.InPool?;
            && t.pools == (if submits then EnsurePool(s) else s).pools
            && t.current == (if submits then EnsurePool(s) else s).current
            && forall p: nat :: AsgiLaws.UnfinishedIn(t.calls, p)
                                == AsgiLaws.UnfinishedIn(s.calls, p) + One(submits && t.current == Some(p))
  {
    hide AsgiLaws.UnfinishedIn, DemandOf;
    var t := AfterBody(app, s, i, body);
    var d := DemandOf(app, body);
    forall p: nat ensures AsgiLaws.UnfinishedIn(t.calls, p)
                          == AsgiLaws.UnfinishedIn(s.calls, p) + One(d.Ask? && d.place.InPool? && t.current == Some(p))
    {
      AsgiLaws.UnfinishedUpdate(s.calls, i, t.calls[i], p);
    }
  }

  lemma NoStep(app: App, s: State)
    requires Wf(s)
    ensures Run(app, s, []) == Some(s)
  {
  }
}
