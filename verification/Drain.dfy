/** Shutting the executor down: what server_close may rely on, and what becomes of late requests. */
module Drain {
  import opened Common
  import opened Requests
  import opened Protocol
  import opened Invariant
  import opened Witnesses

  ghost predicate Drained(s: State) {
    && s.queue == []
    && Busy(s.requests) == 0
    && s.pickedUp == s.enqueued
    && forall i {:trigger s.requests[i]} :: 0 <= i < |s.requests| && i in s.enqueued ==> s.requests[i].worker.Retired?
  }

  /** Once any shutdown_executor call has returned, the executor refuses work; and if the call that
      shut it down waits, everything that was ever queued has been run and every worker is back. */
  lemma DrainOnClose(p: Params, s: State, k: nat)
    requires ValidParams(p) && Reachable(p, s) && k < |s.closers| && s.closers[k].pc.Returned?
    ensures s.executorDown && s.shutdownBy.Some? && s.shutdownBy.value < |s.closers|
    ensures s.closers[s.shutdownBy.value].wait ==> Drained(s)
  {
    ReachableInv(p, s);
    if s.closers[s.shutdownBy.value].wait {
      assert s.closers[k].pc.Returned?;
      SumZero(Occupying, s.requests);
      assert s.pickedUp + s.queue == s.pickedUp;
    }
  }

  /** `wait` of the call that shut the executor down is what matters: when it does not wait, a later
      server_close (which does) returns early, with tasks still queued. */
  lemma CloseAfterUnwaitedShutdownDoesNotDrain(p: Params) returns (s: State)
    requires ValidParams(p)
    ensures Reachable(p, s) && !Drained(s)
    ensures |s.closers| == 2 && !s.closers[0].wait && s.closers[1].wait && s.closers[1].pc.Returned?
    ensures s.shutdownBy == Some(0)
  {
    var t := Fresh(p);
    t := ReachQueued(p, t);
    t := UnwaitedShutdown(p, t);
    t := EarlyReturn(p, t);
    s := t;
  }

  /** A call of shutdown_executor has returned, and the call that shut the executor down had this `wait`. */
  ghost predicate ReturnedAfter(s: State, k: nat, wait: bool) {
    && k < |s.closers| && s.closers[k].pc.Returned?
    && s.shutdownBy.Some? && s.shutdownBy.value < |s.closers| && s.closers[s.shutdownBy.value].wait == wait
  }

  /** Exactly when a returned call means a drained server: iff the call that shut it down waits. */
  lemma ReturnMeansDrainedIffShutdownWaits(p: Params, wait: bool)
    requires ValidParams(p)
    ensures wait <==> forall s: State, k: nat :: Reachable(p, s) && ReturnedAfter(s, k, wait) ==> Drained(s)
  {
    hide Reachable, Drained;
    if wait {
      forall s: State, k: nat | Reachable(p, s) && ReturnedAfter(s, k, wait) ensures Drained(s) {
        DrainOnClose(p, s, k);
      }
    } else {
      var s := CloseAfterUnwaitedShutdownDoesNotDrain(p);
      assert ReturnedAfter(s, 1, wait);
    }
  }

  lemma UnwaitedShutdown(p: Params, t: State) returns (t': State)
    requires Reachable(p, t) && t.closers == [] && t.lockOwner.None? && !t.closedFlag
    ensures Reachable(p, t')
    ensures t' == t.(closers := [Closer(false, Returned)], executorDown := true, closedFlag := true,
                     shutdownBy := Some(0))
  {
    t' := Then(p, t, CallShutdown(false));
    t' := Then(p, t', Shut(0));
    t' := Then(p, t', Shut(0));
    assert t'.closers == [Closer(false, Joined)];
    t' := Then(p, t', Shut(0));
    t' := Then(p, t', Shut(0));
  }

  lemma EarlyReturn(p: Params, t: State) returns (t': State)
    requires Reachable(p, t) && t.closers == [Closer(false, Returned)] && t.lockOwner.None? && t.closedFlag
    ensures Reachable(p, t')
    ensures t' == t.(closers := [Closer(false, Returned), Closer(true, Returned)])
  {
    t' := Then(p, t, CallShutdown(true));
    t' := Then(p, t', Shut(1));
    t' := Then(p, t', Shut(1));
  }

  /** After executor.shutdown nothing is queued any more, in any continuation. */
  lemma {:induction false} QueueInputsFrozen(p: Params, s: State, steps: seq<Step>)
    requires s.executorDown && Run(p, s, steps).Some?
    ensures Run(p, s, steps).value.executorDown
    ensures Run(p, s, steps).value.enqueued == s.enqueued
  {
    if steps != [] {
      var n := |steps| - 1;
      QueueInputsFrozen(p, s, steps[..n]);
    }
  }

  /** A process_request call that is not yet past its submit when the executor goes down, or that
      comes later, never reaches a worker. When it is over it holds no permit, and its connection
      has been shut down unless it left by an exception of settimeout, of sending or of that shutdown. */
  lemma LateCallersAreReleased(p: Params, s: State, steps: seq<Step>, t: State, i: nat)
    requires ValidParams(p) && Reachable(p, s) && s.executorDown && Run(p, s, steps) == Some(t)
    requires i < |t.requests| && i !in s.enqueued && CallerWork(t.requests[i].caller) == 0
    ensures t.requests[i].worker.Unqueued? && Weight(HeldByCaller, t.requests[i]) == 0
    ensures var c := t.requests[i].caller;
            c.FailedSubmit? || c.FailedUnshut? || c.Rejected? || c.RejectRaised? || c.TimeoutRaised?
    ensures var c := t.requests[i].caller;
            t.requests[i].shuts >= 1 || c.FailedUnshut? || c.RejectRaised? || c.TimeoutRaised?
  {
    ReachableInv(p, s);
    RunKeeps(p, s, steps);
    QueueInputsFrozen(p, s, steps);
    assert i !in t.enqueued;
    assert i !in t.pickedUp && i !in t.queue;
    assert WfRequest(p, t.requests[i]);
  }
}
