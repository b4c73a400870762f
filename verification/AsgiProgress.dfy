/** Progress of XMLRPCASGIApp: every step of the loop and of its workers uses up work, and the loop comes
    to rest only when nothing is left to do. */
module AsgiProgress {
  import opened Common
  import opened AsgiHttp
  import opened AsgiLoop
  import opened AsgiLaws
  import opened AsgiTheorems

  /** What happens by itself. New calls, lifespan events and close() come from outside. */
  predicate Internal(step: Step) {
    !step.HttpCall? && !step.LifespanCall? && !step.LifespanReceives? && !step.CloseApp?
  }

  /** An upper bound on the steps that a call has still to take. */
  function CallWork(c: Call): nat {
    match c.pc
    case Begin => |c.q.events| + 7
    case Reading(n, _) => (if n < |c.q.events| then |c.q.events| - n else 0) + 6
    case OnLoopHandler => 3
    case Pooled(_, phase) => PhaseWork(phase)
    case Threaded(phase) => PhaseWork(phase)
    case Sending(_) => 2
    case HalfSent(_) => 1
    case Done => 0
    case Failed(_) => 0
  }

  function PhaseWork(phase: Phase): nat {
    match phase
    case Waiting => 5
    case Running => 4
    case Finished(_) => 3
  }

  function CallsWork(calls: seq<Call>): nat {
    if calls == [] then 0 else CallsWork(calls[..|calls| - 1]) + CallWork(calls[|calls| - 1])
  }

  function LifespanWork(l: Lifespan): nat {
    One(l.pc.SendingStartup? || l.pc.SendingShutdown? || l.pc.ShuttingDown?)
  }

  function LifespansWork(ls: seq<Lifespan>): nat {
    if ls == [] then 0 else LifespansWork(ls[..|ls| - 1]) + LifespanWork(ls[|ls| - 1])
  }

  /** An upper bound on the steps that the app can still take by itself. */
  function Measure(s: State): nat { CallsWork(s.calls) + LifespansWork(s.lifespans) + One(s.blocked) }

  lemma {:induction false} CallsUpdate(calls: seq<Call>, i: nat, c: Call)
    requires i < |calls|
    ensures CallsWork(calls[i := c]) == CallsWork(calls) - CallWork(calls[i]) + CallWork(c)
  {
    var n := |calls| - 1;
    if i == n {
      assert calls[i := c][..n] == calls[..n];
    } else {
      assert calls[i := c][..n] == calls[..n][i := c];
      CallsUpdate(calls[..n], i, c);
    }
  }

  lemma {:induction false} LifespansUpdate(ls: seq<Lifespan>, k: nat, l: Lifespan)
    requires k < |ls|
    ensures LifespansWork(ls[k := l]) == LifespansWork(ls) - LifespanWork(ls[k]) + LifespanWork(l)
  {
    var n := |ls| - 1;
    if k == n {
      assert ls[k := l][..n] == ls[..n];
    } else {
      assert ls[k := l][..n] == ls[..n][k := l];
      LifespansUpdate(ls[..n], k, l);
    }
  }

  lemma {:induction false} ReleaseWork(ls: seq<Lifespan>)
    ensures LifespansWork(Release(ls)) == LifespansWork(ls)
  {
    if ls != [] {
      var n := |ls| - 1;
      ReleaseWork(ls[..n]);
      assert Release(ls)[..n] == Release(ls[..n]);
    }
  }

  // ----- Every step uses up work -----

  lemma AdvanceUsesWork(app: App, s: State, step: Step)
    requires Wf(s) && Enabled(app, s, step) && PlainStep(step)
    ensures CallWork(Advance(app, s.calls[step.i], step)) < CallWork(s.calls[step.i])
  {
    hide EarlyAnswer, Marshal, RunningIn;
  }

  lemma ReceiveUsesWork(app: App, s: State, i: nat)
    requires Wf(s) && Enabled(app, s, Receive(i))
    ensures var t := Apply(app, s, Receive(i));
            && t.calls == s.calls[i := t.calls[i]] && CallWork(t.calls[i]) < CallWork(s.calls[i])
            && t.lifespans == s.lifespans && t.blocked == s.blocked
  {
    hide DemandOf;
  }

  /** What a step from outside may cost. */
  function Allowance(step: Step): nat {
    match step
    case HttpCall(q) => |q.events| + 7
    case LifespanReceives(_, _) => 2
    case CloseApp => 1
    case _ => 0
  }

  /** Every step of the loop and of every worker strictly decreases the measure; a step from outside
      adds its allowance at most. */
  lemma StepsUseUpWork(app: App, s: State, step: Step)
    requires Wf(s) && Enabled(app, s, step)
    ensures Internal(step) ==> Measure(Apply(app, s, step)) < Measure(s)
    ensures Measure(Apply(app, s, step)) <= Measure(s) + Allowance(step)
  {
    hide CallsWork, LifespansWork, CallWork, Advance, AfterBody, RunningIn;
    match step
    case HttpCall(q) => NewCallWork(s.calls, q);
    case LifespanCall => NewLifespanWork(s.lifespans);
    case Receive(i) =>
      ReceiveUsesWork(app, s, i);
      CallsUpdate(s.calls, i, Apply(app, s, step).calls[i]);
    case LifespanReceives(k, e) =>
      if !e.OtherEvent? { LifespansUpdate(s.lifespans, k, Apply(app, s, step).lifespans[k]); }
    case LifespanSent(k) => LifespansUpdate(s.lifespans, k, Apply(app, s, step).lifespans[k]);
    case CloseApp =>
    case Unblock => ReleaseWork(s.lifespans);
    case _ =>
      AdvanceUsesWork(app, s, step);
      CallsUpdate(s.calls, step.i, Advance(app, s.calls[step.i], step));
  }

  /** So a loop that is blocked in a shutdown cannot stay blocked for ever: every step that it then allows
      uses up work, until the shutdown returns. */
  lemma BlockedLoopUsesUpWork(app: App, s: State, step: Step)
    requires Wf(s) && s.blocked && Enabled(app, s, step)
    ensures var t := Apply(app, s, step);
            Measure(t) < Measure(s) && t.blocked == !step.Unblock?
  {
    hide Measure, RunningIn;
    StepsUseUpWork(app, s, step);
  }

  lemma NewCallWork(calls: seq<Call>, q: Request)
    ensures CallsWork(calls + [Call(q, Begin, None, None, [])]) == CallsWork(calls) + |q.events| + 7
  {
    assert (calls + [Call(q, Begin, None, None, [])])[..|calls|] == calls;
  }

  lemma NewLifespanWork(ls: seq<Lifespan>)
    ensures LifespansWork(ls + [Lifespan(Receiving, None)]) == LifespansWork(ls)
  {
    assert (ls + [Lifespan(Receiving, None)])[..|ls|] == ls;
  }

  /** The most steps that a run with these steps from outside can have. */
  function Budget(steps: seq<Step>): nat {
    if steps == [] then 0
    else
      var last := steps[|steps| - 1];
      Budget(steps[..|steps| - 1]) + (if Internal(last) then 0 else 1 + Allowance(last))
  }

  /** Every run is over after a number of steps linear in the calls and body events that came in: at most
      8 for each HTTP call and one more for each of its events, 3 for a lifespan event, 2 for a close(). */
  lemma {:induction false} RunsAreLinear(app: App, steps: seq<Step>)
    requires Run(app, INIT, steps).Some?
    ensures |steps| + Measure(Run(app, INIT, steps).value) <= Budget(steps)
  {
    hide Enabled, Apply, Allowance, Internal;
    if steps == [] {
      NothingToDo();
    } else {
      var n := |steps| - 1;
      RunsAreLinear(app, steps[..n]);
      StepsUseUpWork(app, Run(app, INIT, steps[..n]).value, steps[n]);
    }
  }

  lemma NothingToDo()
    ensures Measure(INIT) == 0
  {
  }

  // ----- Nothing gets stuck -----

  /** No step of the loop or of a worker is possible, not counting failures of receive and send. */
  ghost predicate Stuck(app: App, s: State) {
    forall step: Step :: Internal(step) && !step.ReceiveFails? && !step.SendFails? ==> !Enabled(app, s, step)
  }

  /** Finished, or waiting for body events that have not been sent. */
  predicate AtRest(c: Call) { c.pc.Done? || c.pc.Failed? || (c.pc.Reading? && c.pc.read == |c.q.events|) }

  lemma StuckIsFree(app: App, s: State)
    requires app.maxWorkers >= 1 && Reachable(app, s) && Stuck(app, s)
    ensures !s.blocked
  {
    hide Reachable;
    if s.blocked {
      var step := BlockedLoopCanProceed(app, s);
      assert false;
    }
  }

  /** The next step of a call that is not at rest and not at a handler. */
  function CallMove(i: nat, pc: CallPc): Step {
    match pc
    case Begin => Enter(i)
    case Reading(_, _) => Receive(i)
    case OnLoopHandler => CoroutineEnds(i, ExceptionRaised(""))
    case Sending(_) => SendStart(i)
    case HalfSent(_) => SendBody(i)
    case _ => Resume(i)
  }

  lemma CallMoves(app: App, s: State, i: nat)
    requires i < |s.calls| && !s.blocked && CallOk(app, s.calls[i]) && !AtRest(s.calls[i])
    requires s.calls[i].pc.Pooled? || s.calls[i].pc.Threaded? ==> s.calls[i].pc.phase.Finished?
    ensures Enabled(app, s, CallMove(i, s.calls[i].pc))
  {
    hide JoinedBody, EarlyAnswer, Reference, Asks;
  }

  /** The app comes to rest only when the loop is free, every call has been answered, has failed or is
      waiting for its client, and every lifespan call is waiting for an event or over. */
  lemma StuckOnlyWhenSettled(app: App, s: State)
    requires app.maxWorkers >= 1 && Reachable(app, s) && Stuck(app, s)
    ensures !s.blocked
    ensures forall i :: 0 <= i < |s.calls| ==> AtRest(s.calls[i])
    ensures forall k :: 0 <= k < |s.lifespans| ==> s.lifespans[k].pc.Receiving? || s.lifespans[k].pc.Ended?
  {
    hide CallOk, RunningIn, Downs, Reachable;
    ReachableInv(app, s);
    StuckIsFree(app, s);
    forall i | 0 <= i < |s.calls| ensures AtRest(s.calls[i]) {
      var pc := s.calls[i].pc;
      if (pc.Pooled? || pc.Threaded?) && !pc.phase.Finished? {
        var step := HandlerMoves(app, s, i);
        assert false;
      } else if !AtRest(s.calls[i]) {
        CallMoves(app, s, i);
        assert false;
      }
    }
    forall k | 0 <= k < |s.lifespans| ensures s.lifespans[k].pc.Receiving? || s.lifespans[k].pc.Ended? {
      assert !Enabled(app, s, LifespanSent(k));
    }
  }
}
