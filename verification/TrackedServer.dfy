/**
 The server and its tracker as one system: recording an event is no longer one step, but a call of the
 tracker that waits for the lock, loads and stores, and only then lets its thread go on. Other threads
 of the server, and callers of stats(), run at any point in between.
 */
module TrackedServer {
  import opened Common
  import opened Counters
  import opened Requests
  import opened Protocol
  import opened Invariant
  import opened Snapshots
  import StatsLock

  /** `taken` is the run of the server so far; jobs[t] is the step of the server that the tracker call t
      belongs to, None for a call of stats(). */
  datatype System = System(server: State, taken: seq<Step>, tracker: StatsLock.State, jobs: seq<Option<Step>>)

  datatype Move =
    | Plain(step: Step)      // a step that records nothing
    | Begin(step: Step)      // a thread calls the tracker
    | AskStats               // somebody calls stats()
    | Inside(t: nat)         // a load, store or read under the lock
    | Enter(t: nat)          // the lock is taken
    | Leave(t: nat)          // the lock is released, and the caller goes on

  function Start(p: Params): System { System(Init(p), [], StatsLock.INIT, []) }

  predicate SameThread(a: Step, b: Step) {
    (a.Caller? && b.Caller? && a.i == b.i) || (a.Worker? && b.Worker? && a.i == b.i)
  }

  /** Tracker call t belongs to a step of the server and has not returned. */
  predicate Pending(c: System, t: nat) {
    t < |c.jobs| && t < |c.tracker.threads| && c.jobs[t].Some? && !c.tracker.threads[t].pc.Finished?
  }

  /** The thread of this step is inside the tracker. */
  predicate Occupied(c: System, step: Step) {
    exists t :: 0 <= t < |c.jobs| && Pending(c, t) && SameThread(c.jobs[t].value, step)
  }

  /** When the lock is released, the step that was waiting for it is taken. */
  predicate CanGoOn(p: Params, c: System, t: nat) {
    t < |c.jobs| && (c.jobs[t].Some? ==> Enabled(p, c.server, c.jobs[t].value))
  }

  predicate Possible(p: Params, c: System, m: Move) {
    match m
    case Plain(step) => Enabled(p, c.server, step) && EventOf(p, c.server, step).None? && !Occupied(c, step)
    case Begin(step) => Enabled(p, c.server, step) && EventOf(p, c.server, step).Some? && !Occupied(c, step)
    case AskStats => true
    case Inside(t) => StatsLock.Enabled(c.tracker, StatsLock.Exec(t))
    case Enter(t) => StatsLock.Enabled(c.tracker, StatsLock.Acquire(t))
    case Leave(t) => StatsLock.Enabled(c.tracker, StatsLock.Release(t)) && CanGoOn(p, c, t)
  }

  function Take(p: Params, c: System, step: Step): System
    requires Enabled(p, c.server, step)
  {
    c.(server := Apply(p, c.server, step), taken := c.taken + [step])
  }

  function Track(c: System, step: StatsLock.Step): System
    requires StatsLock.Enabled(c.tracker, step)
  {
    c.(tracker := StatsLock.Apply(c.tracker, step))
  }

  function After(p: Params, c: System, m: Move): System
    requires Possible(p, c, m)
  {
    match m
    case Plain(step) => Take(p, c, step)
    case Begin(step) =>
      Track(c, StatsLock.Call(StatsLock.Note(EventOf(p, c.server, step).value))).(jobs := c.jobs + [Some(step)])
    case AskStats => Track(c, StatsLock.Call(StatsLock.Snapshot)).(jobs := c.jobs + [None])
    case Inside(t) => Track(c, StatsLock.Exec(t))
    case Enter(t) => Track(c, StatsLock.Acquire(t))
    case Leave(t) =>
      var d := Track(c, StatsLock.Release(t));
      if c.jobs[t].Some? then Take(p, d, c.jobs[t].value) else d
  }

  function Moves(p: Params, moves: seq<Move>): Option<System> {
    if moves == [] then Some(Start(p))
    else
      var before := Moves(p, moves[..|moves| - 1]);
      var last := moves[|moves| - 1];
      if before.Some? && Possible(p, before.value, last) then Some(After(p, before.value, last)) else None
  }

  // ----- The invariant -----

  /** A waiting step can be taken as soon as the lock is released, and records what was noted. */
  ghost predicate JobOk(p: Params, c: System, t: nat)
    requires t < |c.jobs| == |c.tracker.threads|
  {
    && (c.jobs[t].Some? <==> c.tracker.threads[t].op.Note?)
    && (Pending(c, t) ==>
          && Enabled(p, c.server, c.jobs[t].value)
          && EventOf(p, c.server, c.jobs[t].value) == Some(c.tracker.threads[t].op.e))
  }

  ghost predicate JobsOk(p: Params, c: System) {
    && |c.jobs| == |c.tracker.threads|
    && (forall t :: 0 <= t < |c.jobs| ==> JobOk(p, c, t))
    && (forall t, u :: 0 <= t < u < |c.jobs| && Pending(c, t) && Pending(c, u) ==>
          !SameThread(c.jobs[t].value, c.jobs[u].value))
  }

  ghost predicate SystemOk(p: Params, c: System) {
    && ValidParams(p)
    && Run(p, Init(p), c.taken) == Some(c.server)
    && StatsLock.Reachable(c.tracker) && StatsLock.Inv(c.tracker)
    && JobsOk(p, c)
    && Noted(c.tracker.threads, c.tracker.history) == EventsOf(p, c.taken)
  }

  lemma {:induction false} NotedFrame(before: seq<StatsLock.Thread>, after: seq<StatsLock.Thread>, history: seq<nat>)
    requires StatsLock.InRange(before, history) && |before| <= |after|
    requires forall i :: 0 <= i < |before| ==> after[i].op == before[i].op
    ensures Noted(after, history) == Noted(before, history)
  {
    if history != [] {
      NotedFrame(before, after, history[..|history| - 1]);
    }
  }

  /** A step that records something depends on its own thread alone. */
  lemma StillEnabled(p: Params, s: State, job: Step, other: Step)
    requires Inv(p, s) && Enabled(p, s, job) && EventOf(p, s, job).Some?
    requires Enabled(p, s, other) && !SameThread(other, job)
    ensures var t := Apply(p, s, other);
            Enabled(p, t, job) && EventOf(p, t, job) == EventOf(p, s, job)
  {
    hide Sum, Weight;
    if other.Pickup? {
      assert s.queue[0] in s.queue;
    }
    if other.Caller? && job.Worker? && other.i == job.i {
      assert WfRequest(p, s.requests[job.i]);
    }
  }

  lemma RecordedSnoc(p: Params, steps: seq<Step>, s: State, step: Step)
    requires Run(p, Init(p), steps) == Some(s) && Enabled(p, s, step)
    ensures Run(p, Init(p), steps + [step]) == Some(Apply(p, s, step))
    ensures EventsOf(p, steps + [step])
            == EventsOf(p, steps) + (if EventOf(p, s, step).Some? then [EventOf(p, s, step).value] else [])
  {
    hide Enabled, Apply, EventOf;
    assert (steps + [step])[..|steps|] == steps;
  }

  lemma TrackerStep(s: StatsLock.State, step: StatsLock.Step)
    requires StatsLock.Reachable(s) && StatsLock.Inv(s) && StatsLock.Enabled(s, step)
    ensures StatsLock.Reachable(StatsLock.Apply(s, step)) && StatsLock.Inv(StatsLock.Apply(s, step))
  {
    hide StatsLock.Inv, StatsLock.Apply, StatsLock.Enabled;
    StatsLock.StepKeeps(s, step);
    var steps :| StatsLock.Run(StatsLock.INIT, steps) == Some(s);
    assert (steps + [step])[..|steps|] == steps;
    assert StatsLock.Run(StatsLock.INIT, steps + [step]) == Some(StatsLock.Apply(s, step));
  }

  /** A move of the server alone. */
  lemma TakeKeepsJobs(p: Params, c: System, step: Step)
    requires Inv(p, c.server) && JobsOk(p, c) && Enabled(p, c.server, step) && !Occupied(c, step)
    ensures JobsOk(p, Take(p, c, step))
  {
    hide Enabled, Apply, EventOf, Inv;
    var d := Take(p, c, step);
    forall t | 0 <= t < |d.jobs| ensures JobOk(p, d, t) {
      assert JobOk(p, c, t);
      if Pending(c, t) {
        assert !SameThread(step, c.jobs[t].value);
        StillEnabled(p, c.server, c.jobs[t].value, step);
      }
    }
    assert forall t :: 0 <= t < |d.jobs| ==> Pending(d, t) == Pending(c, t);
  }

  lemma PlainKeeps(p: Params, c: System, step: Step)
    requires SystemOk(p, c) && Possible(p, c, Plain(step))
    ensures SystemOk(p, After(p, c, Plain(step)))
  {
    hide Run, Enabled, Apply, EventOf, StatsLock.Reachable, StatsLock.Inv, JobsOk, Noted, EventsOf, Inv;
    RunKeepsInit(p, c.taken);
    TakeKeepsJobs(p, c, step);
    RecordedSnoc(p, c.taken, c.server, step);
    assert EventsOf(p, c.taken) + [] == EventsOf(p, c.taken);
  }

  lemma RunKeepsInit(p: Params, steps: seq<Step>)
    requires ValidParams(p) && Run(p, Init(p), steps).Some?
    ensures Inv(p, Run(p, Init(p), steps).value)
  {
    var s := Run(p, Init(p), steps).value;
    assert Reachable(p, s);
    ReachableInv(p, s);
  }

  /** A new call of the tracker. */
  lemma CallKeeps(p: Params, c: System, op: StatsLock.Op, job: Option<Step>)
    requires SystemOk(p, c) && (job.Some? <==> op.Note?)
    requires job.Some? ==> Enabled(p, c.server, job.value) && !Occupied(c, job.value)
    requires job.Some? ==> EventOf(p, c.server, job.value) == Some(op.e)
    ensures SystemOk(p, Track(c, StatsLock.Call(op)).(jobs := c.jobs + [job]))
  {
    hide Run, Enabled, Apply, EventOf, StatsLock.Reachable, StatsLock.Inv, Noted, EventsOf;
    var d := Track(c, StatsLock.Call(op)).(jobs := c.jobs + [job]);
    TrackerStep(c.tracker, StatsLock.Call(op));
    assert StatsLock.InRange(c.tracker.threads, c.tracker.history) by { TrackerInRange(c.tracker); }
    NotedFrame(c.tracker.threads, d.tracker.threads, c.tracker.history);
    forall t | 0 <= t < |d.jobs| ensures JobOk(p, d, t) {
      if t < |c.jobs| { assert JobOk(p, c, t) && Pending(d, t) == Pending(c, t); }
    }
    forall t, u | 0 <= t < u < |d.jobs| && Pending(d, t) && Pending(d, u)
      ensures !SameThread(d.jobs[t].value, d.jobs[u].value)
    {
      assert Pending(c, t);
      if u < |c.jobs| { assert Pending(c, u); }
    }
  }

  lemma TrackerInRange(s: StatsLock.State)
    requires StatsLock.Inv(s)
    ensures StatsLock.InRange(s.threads, s.history)
  {
  }

  /** Taking the lock, or a step under it. */
  lemma LockMoveKeeps(p: Params, c: System, step: StatsLock.Step)
    requires SystemOk(p, c) && StatsLock.Enabled(c.tracker, step) && (step.Acquire? || step.Exec?)
    ensures SystemOk(p, Track(c, step))
  {
    hide Run, Enabled, Apply, EventOf, StatsLock.Reachable, StatsLock.Inv, Noted, EventsOf;
    var d := Track(c, step);
    TrackerStep(c.tracker, step);
    TrackerInRange(c.tracker);
    NotedFrame(c.tracker.threads, d.tracker.threads, c.tracker.history);
    assert forall t :: 0 <= t < |c.jobs| ==> Pending(d, t) == Pending(c, t);
    forall t | 0 <= t < |d.jobs| ensures JobOk(p, d, t) { assert JobOk(p, c, t); }
  }

  /** After the release, the step that waited for it may be taken. */
  lemma ReleaseKeepsJobs(p: Params, c: System, t: nat)
    requires JobsOk(p, c) && StatsLock.Enabled(c.tracker, StatsLock.Release(t))
    ensures JobsOk(p, Track(c, StatsLock.Release(t)))
    ensures c.jobs[t].Some? ==>
              && Enabled(p, c.server, c.jobs[t].value) && c.tracker.threads[t].op.Note?
              && EventOf(p, c.server, c.jobs[t].value) == Some(c.tracker.threads[t].op.e)
              && !Occupied(Track(c, StatsLock.Release(t)), c.jobs[t].value)
  {
    hide Enabled, Apply, EventOf;
    var d := Track(c, StatsLock.Release(t));
    assert JobOk(p, c, t);
    assert forall u :: 0 <= u < |c.jobs| ==> Pending(d, u) == (Pending(c, u) && u != t);
    forall u | 0 <= u < |d.jobs| ensures JobOk(p, d, u) { assert JobOk(p, c, u); }
  }

  lemma ReleaseNotes(s: StatsLock.State, t: nat)
    requires StatsLock.Inv(s) && StatsLock.Enabled(s, StatsLock.Release(t))
    ensures var u := StatsLock.Apply(s, StatsLock.Release(t));
            && StatsLock.InRange(s.threads, s.history) && StatsLock.InRange(u.threads, u.history)
            && Noted(u.threads, u.history)
               == Noted(s.threads, s.history) + (if s.threads[t].op.Note? then [s.threads[t].op.e] else [])
  {
    var u := StatsLock.Apply(s, StatsLock.Release(t));
    assert u.history[..|s.history|] == s.history;
    NotedFrame(s.threads, u.threads, s.history);
  }

  lemma LeaveKeeps(p: Params, c: System, t: nat)
    requires SystemOk(p, c) && Possible(p, c, Leave(t))
    ensures SystemOk(p, After(p, c, Leave(t)))
  {
    hide Run, Enabled, Apply, EventOf, StatsLock.Reachable, StatsLock.Inv, JobsOk, Noted, EventsOf, Inv, Occupied,
         StatsLock.Apply, StatsLock.Enabled;
    var d := Track(c, StatsLock.Release(t));
    assert |c.jobs| == |c.tracker.threads| && JobOk(p, c, t) by { JobAt(p, c, t); }
    TrackerStep(c.tracker, StatsLock.Release(t));
    ReleaseKeepsJobs(p, c, t);
    ReleaseNotes(c.tracker, t);
    if c.jobs[t].Some? {
      RunKeepsInit(p, c.taken);
      TakeKeepsJobs(p, d, c.jobs[t].value);
      RecordedSnoc(p, c.taken, c.server, c.jobs[t].value);
    } else {
      assert EventsOf(p, c.taken) + [] == EventsOf(p, c.taken);
    }
  }

  lemma JobAt(p: Params, c: System, t: nat)
    requires JobsOk(p, c) && t < |c.jobs|
    ensures |c.jobs| == |c.tracker.threads| && JobOk(p, c, t)
  {
  }

  lemma MoveKeeps(p: Params, c: System, m: Move)
    requires SystemOk(p, c) && Possible(p, c, m)
    ensures SystemOk(p, After(p, c, m))
  {
    hide SystemOk, Enabled, EventOf, Occupied;
    match m
    case Plain(step) => PlainKeeps(p, c, step);
    case Begin(step) => CallKeeps(p, c, StatsLock.Note(EventOf(p, c.server, step).value), Some(step));
    case AskStats => CallKeeps(p, c, StatsLock.Snapshot, None);
    case Inside(t) => LockMoveKeeps(p, c, StatsLock.Exec(t));
    case Enter(t) => LockMoveKeeps(p, c, StatsLock.Acquire(t));
    case Leave(t) => LeaveKeeps(p, c, t);
  }

  lemma StartOk(p: Params)
    requires ValidParams(p)
    ensures SystemOk(p, Start(p))
  {
    assert StatsLock.Run(StatsLock.INIT, []) == Some(StatsLock.INIT);
  }

  /** The two halves stay in step: in every run of the system, what the tracker has been told, in the
      order of its lock, is exactly what the server's run has recorded, and that is a run of Protocol. */
  lemma {:induction false} TrackerFollowsServer(p: Params, moves: seq<Move>)
    requires ValidParams(p) && Moves(p, moves).Some?
    ensures SystemOk(p, Moves(p, moves).value)
  {
    hide SystemOk, Possible, After;
    if moves == [] {
      StartOk(p);
    } else {
      var n := |moves| - 1;
      TrackerFollowsServer(p, moves[..n]);
      MoveKeeps(p, Moves(p, moves[..n]).value, moves[n]);
    }
  }

  /** Nobody gets stuck on the tracker: when the lock can be released, the step that waited for the
      recording is still possible. */
  lemma RecordingNeverBlocksItsThread(p: Params, moves: seq<Move>, t: nat)
    requires ValidParams(p) && Moves(p, moves).Some?
    requires StatsLock.Enabled(Moves(p, moves).value.tracker, StatsLock.Release(t))
    ensures Possible(p, Moves(p, moves).value, Leave(t))
  {
    hide Moves, Enabled;
    TrackerFollowsServer(p, moves);
    ReleaseKeepsJobs(p, Moves(p, moves).value, t);
  }

  /** What stats() returns, over every run of the whole system, whatever its interleaving of loads and
      stores: the counters at one moment m of the server's run, not before any update finished when
      stats() began; hence seven non-negative numbers that add up to the calls counted at that moment. */
  lemma StatsAddUp(p: Params, moves: seq<Move>, t: nat) returns (m: nat, view: ServerStats)
    requires ValidParams(p) && Moves(p, moves).Some?
    requires var tracker := Moves(p, moves).value.tracker;
             t < |tracker.threads| && tracker.threads[t].op.Snapshot? && tracker.threads[t].pc.Finished?
    ensures var c := Moves(p, moves).value;
            var since := c.tracker.threads[t].since;
            && c.tracker.threads[t].pc.result == StatsLock.Values(view)
            && m <= |c.taken| && Run(p, Init(p), c.taken[..m]).Some?
            && since <= |c.tracker.history| && StatsLock.InRange(c.tracker.threads, c.tracker.history[..since])
            && Noted(c.tracker.threads, c.tracker.history[..since]) <= EventsOf(p, c.taken[..m])
            && view == Publish(Run(p, Init(p), c.taken[..m]).value.stats)
            && NonNegative(view) && Total(view) == Counted(Run(p, Init(p), c.taken[..m]).value)
  {
    hide Moves, Run, EventsOf, Noted, StatsLock.Reachable, JobsOk, StatsLock.Values, Counted;
    TrackerFollowsServer(p, moves);
    var c := Moves(p, moves).value;
    m, view := ReturnedStatsAddUp(p, c.taken, c.tracker, t);
  }
}
