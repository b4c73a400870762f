/** Concrete runs, for the properties that do not hold of the server. */
module Witnesses {
  import opened Common
  import opened Counters
  import opened Requests
  import opened Protocol

  lemma Fresh(p: Params) returns (t: State)
    ensures t == Init(p) && Reachable(p, t)
  {
    t := Init(p);
    assert Run(p, t, []) == Some(t);
  }

  lemma Then(p: Params, t: State, step: Step) returns (t': State)
    requires Reachable(p, t) && Enabled(p, t, step)
    ensures t' == Apply(p, t, step) && Reachable(p, t')
  {
    t' := Apply(p, t, step);
    var steps :| Run(p, Init(p), steps) == Some(t);
    RunSnoc(p, Init(p), steps, t, step);
  }

  lemma SingleCount(t: Tally, r: Request)
    ensures Sum(t, [r]) == Weight(t, r)
  {
    assert [r][..0] == [];
  }

  /** Brings one new request to the point where it holds a permit. */
  lemma ReachPermit(p: Params, t: State) returns (t': State)
    requires Reachable(p, t) && t.permits > 0
    ensures Reachable(p, t')
    ensures t' == t.(requests := t.requests + [Request(Holding, Unqueued, 0)], permits := t.permits - 1)
  {
    hide Reachable;
    var i := |t.requests|;
    t' := Then(p, t, Arrive);
    t' := Then(p, t', Caller(i, SetTimeout));
    assert t' == t.(requests := t.requests + [Request(Acquiring, Unqueued, 0)]);
    t' := Then(p, t', Caller(i, Acquire));
  }

  /** Brings one new request to the point where submit is about to be called. */
  lemma ReachSubmit(p: Params, t: State) returns (t': State)
    requires Reachable(p, t) && t.permits > 0
    ensures Reachable(p, t')
    ensures t' == t.(requests := t.requests + [Request(Recorded, Unqueued, 0)], permits := t.permits - 1,
                     stats := Record(t.stats, Submission))
  {
    t' := ReachPermit(p, t);
    t' := Then(p, t', Caller(|t.requests|, RecordSubmission));
  }

  /** Brings one new request into the queue. */
  lemma ReachQueued(p: Params, t: State) returns (t': State)
    requires Reachable(p, t) && t.permits > 0 && !t.executorDown
    ensures Reachable(p, t')
    ensures var i := |t.requests|;
            t' == t.(requests := t.requests + [Request(Submitted, Queued, 0)], permits := t.permits - 1,
                     stats := Record(t.stats, Submission), queue := t.queue + [i], enqueued := t.enqueued + [i])
  {
    hide Reachable;
    t' := ReachSubmit(p, t);
    t' := Then(p, t', Caller(|t.requests|, Enqueue));
    assert t'.requests == t.requests + [Request(Submitted, Queued, 0)];
  }

  /** Has a worker start the only queued task. */
  lemma ReachServing(p: Params, t: State, i: nat) returns (t': State)
    requires Reachable(p, t) && i < |t.requests| && t.queue == [i]
    requires t.requests[i].worker.Queued? && Busy(t.requests) < p.config.maxWorkers
    ensures Reachable(p, t')
    ensures t' == t.(requests := t.requests[i := t.requests[i].(worker := Serving)], queue := [],
                     pickedUp := t.pickedUp + [i], stats := Record(t.stats, Start))
  {
    hide Reachable, Sum;
    t' := Then(p, t, Pickup);
    t' := Then(p, t', Worker(i, RecordStart));
  }

  /** Runs the only queued task to an abnormal end, with its worker thread not yet back in the pool. */
  lemma ReachLingering(p: Params, t: State, i: nat) returns (t': State)
    requires Reachable(p, t) && i < |t.requests| && t.queue == [i]
    requires t.requests[i].worker.Queued? && Busy(t.requests) < p.config.maxWorkers
    ensures Reachable(p, t')
    ensures t' == t.(requests := t.requests[i := t.requests[i].(worker := Lingering(Abnormal))],
                     permits := t.permits + 1, queue := [], pickedUp := t.pickedUp + [i],
                     stats := Record(t.stats, Start))
  {
    hide Reachable, Sum;
    t' := ReachServing(p, t, i);
    t' := Then(p, t', Worker(i, Escape));
    t' := Then(p, t', Worker(i, Release));
  }

  /** A submit that queues and then raises: the caller and the worker both return the permit. */
  lemma LateFailureMakesPermit(p: Params) returns (t: State)
    requires p.config.maxWorkers >= 1 && !p.atomicSubmit
    ensures Reachable(p, t) && t.permits == p.config.Capacity() + 1
  {
    hide Reachable;
    t := Fresh(p);
    t := ReachSubmit(p, t);
    t := Then(p, t, Caller(0, SubmitRaisesLate));
    assert t.requests == [Request(SubmitRaised, Queued, 0)];
    t := Then(p, t, Caller(0, ReturnPermit));
    SingleCount(Occupying, t.requests[0]);
    assert t.requests == [t.requests[0]];
    t := ReachLingering(p, t, 0);
  }

  // ----- Drift -----

  /** Has the submit of request i raise, and its call end. */
  lemma ReachRefusal(p: Params, t: State, i: nat) returns (t': State)
    requires Reachable(p, t) && i < |t.requests| && t.requests[i].caller.Recorded?
    ensures Reachable(p, t')
    ensures var r := t.requests[i];
            t' == t.(requests := t.requests[i := Request(FailedSubmit, r.worker, r.shuts + 1)],
                     permits := t.permits + 1)
  {
    hide Reachable, Sum, Record;
    var r := t.requests[i];
    t' := Then(p, t, Caller(i, SubmitRaises));
    assert t' == t.(requests := t.requests[i := Request(SubmitRaised, r.worker, r.shuts)]);
    t' := Then(p, t', Caller(i, ReturnPermit));
    assert t' == t.(requests := t.requests[i := Request(PermitBack, r.worker, r.shuts)], permits := t.permits + 1);
    t' := Then(p, t', Caller(i, ShutAfterFailure));
  }

  /** One failed submit, and nothing more to do for anybody: `queued` stays at one. */
  lemma FailedSubmitStaysQueued(p: Params) returns (t: State)
    requires p.config.maxWorkers >= 1
    ensures Reachable(p, t) && t.stats.submitted == 1 && Sum(InTransit, t.requests) == 0
    ensures t.queue == [] && Sum(Work, t.requests) == 0
  {
    hide Reachable, Sum;
    t := Fresh(p);
    t := ReachSubmit(p, t);
    t := ReachRefusal(p, t, 0);
    var r := Request(FailedSubmit, Unqueued, 1);
    assert t.requests == [r];
    SingleCount(InTransit, r);
    SingleCount(Work, r);
  }

  /** One worker that left abnormally, likewise: `active` stays at one. */
  lemma AbnormalExitStaysActive(p: Params) returns (t: State)
    requires p.config.maxWorkers >= 1
    ensures Reachable(p, t) && t.stats.active == 1 && Sum(Executing, t.requests) == 0
    ensures t.queue == [] && Sum(Work, t.requests) == 0
  {
    hide Reachable, Sum;
    t := Fresh(p);
    t := ReachQueued(p, t);
    SingleCount(Occupying, t.requests[0]);
    assert t.requests == [t.requests[0]];
    t := ReachLingering(p, t, 0);
    t := Then(p, t, Worker(0, Retire));
    var r := Request(Submitted, Retired(Abnormal), 0);
    assert t.requests == [r];
    SingleCount(Executing, r);
    SingleCount(Work, r);
  }

  // ----- Workers that linger -----

  /** One more worker that has released its permit and is not back in the pool. */
  lemma LingerOne(p: Params, t: State) returns (t': State)
    requires Reachable(p, t) && t.queue == [] && t.permits > 0 && !t.executorDown
    requires Busy(t.requests) < p.config.maxWorkers
    ensures Reachable(p, t') && t'.queue == [] && t'.permits == t.permits && !t'.executorDown
    ensures Busy(t'.requests) == Busy(t.requests) + 1
  {
    hide Reachable, Sum;
    var i := |t.requests|;
    t' := ReachQueued(p, t);
    SumsAppend(t.requests, Request(Submitted, Queued, 0));
    var queued := t'.requests;
    t' := ReachLingering(p, t', i);
    SumUpdate(Occupying, queued, i, t'.requests[i]);
  }

  lemma {:induction false} LingerMany(p: Params, t: State, n: nat) returns (t': State)
    requires Reachable(p, t) && t.queue == [] && t.permits > 0 && !t.executorDown
    requires Busy(t.requests) + n <= p.config.maxWorkers
    ensures Reachable(p, t') && t'.queue == [] && t'.permits == t.permits && !t'.executorDown
    ensures Busy(t'.requests) == Busy(t.requests) + n
    decreases n
  {
    hide Reachable, Busy;
    t' := t;
    if n > 0 {
      t' := LingerOne(p, t);
      t' := LingerMany(p, t', n - 1);
    }
  }

  lemma {:induction false} QueueMany(p: Params, t: State, n: nat) returns (t': State)
    requires Reachable(p, t) && t.permits >= n && !t.executorDown
    ensures Reachable(p, t') && |t'.queue| == |t.queue| + n && Busy(t'.requests) == Busy(t.requests)
    decreases n
  {
    hide Reachable, Sum;
    t' := t;
    if n > 0 {
      t' := ReachQueued(p, t);
      SumsAppend(t.requests, Request(Submitted, Queued, 0));
      t' := QueueMany(p, t', n - 1);
    }
  }

  /** "All worker threads busy" alone does not bound the queue by max_pending, whatever the settings:
      workers that have released their permits but are not back in the pool let it fill the capacity. */
  lemma LingeringWorkerLetsQueueGrow(p: Params) returns (t: State)
    requires p.config.maxWorkers >= 1
    ensures Reachable(p, t) && Busy(t.requests) == p.config.maxWorkers
    ensures |t.queue| == p.config.maxWorkers + p.config.maxPending > p.config.maxPending
  {
    hide Reachable;
    t := Fresh(p);
    t := LingerMany(p, t, p.config.maxWorkers);
    t := QueueMany(p, t, p.config.Capacity());
  }
}
