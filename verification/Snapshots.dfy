/** What a caller of stats() may rely on: the protocol's counters and the tracker's lock put together. */
module Snapshots {
  import opened Common
  import opened Counters
  import opened Requests
  import opened Protocol
  import opened Invariant
  import opened Laws
  import StatsLock

  // ----- The protocol, seen from the tracker -----

  /** The tracker method that a step of the protocol calls. */
  function EventOf(p: Params, s: State, step: Step): Option<Event> {
    match step
    case Caller(_, act) => CallerEvent(p, act)
    case Worker(i, act) => if i < |s.requests| then WorkerEvent(s.requests[i].worker, act) else None
    case _ => None
  }

  /** The tracker calls of a run, in its order. */
  function EventsOf(p: Params, steps: seq<Step>): seq<Event> {
    if steps == [] then []
    else
      var n := |steps| - 1;
      var before := Run(p, Init(p), steps[..n]);
      var e := if before.Some? then EventOf(p, before.value, steps[n]) else None;
      EventsOf(p, steps[..n]) + (if e.Some? then [e.value] else [])
  }

  function Fold(events: seq<Event>): Counters {
    if events == [] then ZERO else Record(Fold(events[..|events| - 1]), events[|events| - 1])
  }

  lemma FoldCount(events: seq<Event>, e: Option<Event>)
    ensures Fold(events + (if e.Some? then [e.value] else [])) == Count(Fold(events), e)
  {
    if e.Some? {
      assert (events + [e.value])[..|events|] == events;
    } else {
      assert events + [] == events;
    }
  }

  lemma StatsStep(p: Params, s: State, step: Step)
    requires Enabled(p, s, step)
    ensures Apply(p, s, step).stats == Count(s.stats, EventOf(p, s, step))
  {
    hide CallerNext, WorkerNext, CallerEvent, WorkerEvent, Sum;
  }

  lemma {:induction false} StatsAreRecorded(p: Params, steps: seq<Step>)
    requires Run(p, Init(p), steps).Some?
    ensures Run(p, Init(p), steps).value.stats == Fold(EventsOf(p, steps))
  {
    hide Enabled, Apply, EventOf, Record;
    if steps != [] {
      var n := |steps| - 1;
      var before := Run(p, Init(p), steps[..n]).value;
      StatsAreRecorded(p, steps[..n]);
      StatsStep(p, before, steps[n]);
      FoldCount(EventsOf(p, steps[..n]), EventOf(p, before, steps[n]));
    }
  }

  /** Any first part of a run's tracker calls is what some first part of the run has called. */
  lemma {:induction false} PrefixOfRun(p: Params, steps: seq<Step>, events: seq<Event>) returns (m: nat)
    requires Run(p, Init(p), steps).Some? && events <= EventsOf(p, steps)
    ensures m <= |steps| && EventsOf(p, steps[..m]) == events && Run(p, Init(p), steps[..m]).Some?
  {
    hide Enabled, Apply, EventOf;
    if events == EventsOf(p, steps) {
      m := |steps|;
      assert steps[..m] == steps;
    } else {
      var n := |steps| - 1;
      assert events <= EventsOf(p, steps[..n]);
      m := PrefixOfRun(p, steps[..n], events);
      assert steps[..n][..m] == steps[..m];
    }
  }

  // ----- The tracker, seen from the protocol -----

  /** The finished updates, in the order in which they held the lock. */
  ghost function Noted(threads: seq<StatsLock.Thread>, history: seq<nat>): seq<Event>
    requires StatsLock.InRange(threads, history)
  {
    if history == [] then []
    else
      var n := |history| - 1;
      assert StatsLock.InRange(threads, history[..n]);
      var op := threads[history[n]].op;
      Noted(threads, history[..n]) + (if op.Note? then [op.e] else [])
  }

  lemma {:induction false} ReplayFolds(threads: seq<StatsLock.Thread>, history: seq<nat>)
    requires StatsLock.InRange(threads, history)
    ensures StatsLock.Replay(threads, history) == Fold(Noted(threads, history))
  {
    hide Record, Fold;
    if history == [] {
      assert Fold([]) == ZERO by { NothingFolded(); }
    } else {
      var n := |history| - 1;
      ReplayFolds(threads, history[..n]);
      var op := threads[history[n]].op;
      FoldCount(Noted(threads, history[..n]), if op.Note? then Some(op.e) else None);
    }
  }

  lemma NothingFolded()
    ensures Fold([]) == ZERO
  {
  }

  lemma {:induction false} NotedPrefix(threads: seq<StatsLock.Thread>, history: seq<nat>, j: nat)
    requires StatsLock.InRange(threads, history) && j <= |history|
    ensures StatsLock.InRange(threads, history[..j])
    ensures Noted(threads, history[..j]) <= Noted(threads, history)
  {
    if j == |history| {
      assert history[..j] == history;
    } else {
      var n := |history| - 1;
      NotedPrefix(threads, history[..n], j);
      assert history[..n][..j] == history[..j];
    }
  }

  // ----- Together -----

  function Total(v: ServerStats): int {
    v.active + v.queued + v.rejectedClose + v.rejectedFault + v.rejected503 + v.completed + v.errored
  }

  /** The calls that have come as far as recording a submission or a rejection. */
  function Counted(s: State): int {
    |s.requests| - Sum(Undecided, s.requests) - Sum(TimeoutErrors, s.requests)
  }

  predicate NonNegative(v: ServerStats) {
    && v.active >= 0 && v.queued >= 0 && v.rejectedClose >= 0 && v.rejectedFault >= 0
    && v.rejected503 >= 0 && v.completed >= 0 && v.errored >= 0
  }

  /** A ServerStats that stats() returned, with the tracker called by any threads in any interleaving of
      loads and stores, as a run of the server calls it: there is one moment m of that run, not before
      any update that had finished when stats() began, whose counters are returned. So its numbers are
      not negative, and add up to the calls counted at that moment. */
  lemma ReturnedStatsAddUp(p: Params, steps: seq<Step>, s: StatsLock.State, t: nat)
    returns (m: nat, view: ServerStats)
    requires ValidParams(p) && Run(p, Init(p), steps).Some?
    requires StatsLock.Reachable(s) && StatsLock.InRange(s.threads, s.history)
    requires Noted(s.threads, s.history) <= EventsOf(p, steps)
    requires t < |s.threads| && s.threads[t].op.Snapshot? && s.threads[t].pc.Finished?
    ensures s.threads[t].pc.result == StatsLock.Values(view)
    ensures m <= |steps| && Run(p, Init(p), steps[..m]).Some?
    ensures s.threads[t].since <= |s.history| && StatsLock.InRange(s.threads, s.history[..s.threads[t].since])
    ensures Noted(s.threads, s.history[..s.threads[t].since]) <= EventsOf(p, steps[..m])
    ensures view == Publish(Run(p, Init(p), steps[..m]).value.stats)
    ensures NonNegative(view) && Total(view) == Counted(Run(p, Init(p), steps[..m]).value)
  {
    hide Run, Enabled, Apply, Sum, StatsLock.Values, StatsLock.Reachable, Noted, EventsOf, Fold, StatsLock.Replay;
    var j := StatsLock.SnapshotIsOneInstant(s, t);
    var since := s.threads[t].since;
    NotedPrefix(s.threads, s.history, j);
    NotedPrefix(s.threads, s.history[..j], since);
    assert s.history[..j][..since] == s.history[..since];
    m := PrefixOfRun(p, steps, Noted(s.threads, s.history[..j]));
    var u := Run(p, Init(p), steps[..m]).value;
    view := Publish(u.stats);
    ReplayFolds(s.threads, s.history[..j]);
    StatsAreRecorded(p, steps[..m]);
    assert Reachable(p, u);
    SnapshotAddsUp(p, u);
    ReachableInv(p, u);
  }
}
