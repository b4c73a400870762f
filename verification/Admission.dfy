/**
 The promise of the server reduced to one number: an atomic admission controller with `outstanding`
 requests, and a proof that every run of the fine-grained protocol is, seen from outside, a run of it.
 */
module Admission {
  import opened Common
  import opened Settings
  import opened Requests
  import opened Protocol
  import opened Invariant

  // ----- The specification -----

  datatype Status = Waiting | Inside | Gone | TurnedAway | GaveUp

  datatype Spec = Spec(outstanding: int, status: seq<Status>)

  /** What an observer of process_request and of the permits sees. */
  datatype Label = Arrival | Admit(i: nat) | TurnAway(i: nat) | Leave(i: nat) | GiveUp(i: nat)

  /** Non-blocking: admitted iff there is room, else turned away. Blocking: waits for room. */
  predicate Allows(c: Config, a: Spec, l: Label) {
    match l
    case Arrival => true
    case Admit(i) => i < |a.status| && a.status[i].Waiting? && a.outstanding < c.Capacity()
    case TurnAway(i) =>
      i < |a.status| && a.status[i].Waiting? && !c.policy.Block? && a.outstanding == c.Capacity()
    case Leave(i) => i < |a.status| && a.status[i].Inside?
    case GiveUp(i) => i < |a.status| && a.status[i].Waiting? && c.hasTimeout
  }

  function After(c: Config, a: Spec, l: Label): Spec
    requires Allows(c, a, l)
  {
    match l
    case Arrival => a.(status := a.status + [Waiting])
    case Admit(i) => Spec(a.outstanding + 1, a.status[i := Inside])
    case TurnAway(i) => a.(status := a.status[i := TurnedAway])
    case Leave(i) => Spec(a.outstanding - 1, a.status[i := Gone])
    case GiveUp(i) => a.(status := a.status[i := GaveUp])
  }

  function SpecRun(c: Config, a: Spec, labels: seq<Label>): Option<Spec> {
    if labels == [] then Some(a)
    else
      var before := SpecRun(c, a, labels[..|labels| - 1]);
      var last := labels[|labels| - 1];
      if before.Some? && Allows(c, before.value, last) then Some(After(c, before.value, last)) else None
  }

  function Idle(): Spec { Spec(0, []) }

  function Occurrences(l: Label, labels: seq<Label>): nat {
    if labels == [] then 0
    else Occurrences(l, labels[..|labels| - 1]) + One(labels[|labels| - 1] == l)
  }

  /** How often request i was admitted, and left, follows from its status. */
  lemma {:induction false} AdmittedAndLeftOnce(c: Config, labels: seq<Label>, i: nat)
    requires SpecRun(c, Idle(), labels).Some?
    ensures var a := SpecRun(c, Idle(), labels).value;
            var known := i < |a.status|;
            && Occurrences(Admit(i), labels) == One(known && (a.status[i].Inside? || a.status[i].Gone?))
            && Occurrences(Leave(i), labels) == One(known && a.status[i].Gone?)
            && Occurrences(TurnAway(i), labels) == One(known && a.status[i].TurnedAway?)
  {
    if labels != [] {
      AdmittedAndLeftOnce(c, labels[..|labels| - 1], i);
    }
  }

  function InsideCount(status: seq<Status>): nat {
    if status == [] then 0 else InsideCount(status[..|status| - 1]) + One(status[|status| - 1].Inside?)
  }

  lemma {:induction false} InsideUpdate(status: seq<Status>, i: nat, x: Status)
    requires i < |status|
    ensures InsideCount(status[i := x]) == InsideCount(status) - One(status[i].Inside?) + One(x.Inside?)
  {
    var n := |status| - 1;
    if i == n {
      assert status[i := x][..n] == status[..n];
    } else {
      assert status[i := x][..n] == status[..n][i := x];
      InsideUpdate(status[..n], i, x);
    }
  }

  /** The controller never has more requests inside than its capacity, and its number is exact. */
  lemma {:induction false} OutstandingIsExact(c: Config, labels: seq<Label>)
    requires SpecRun(c, Idle(), labels).Some?
    ensures var a := SpecRun(c, Idle(), labels).value;
            a.outstanding == InsideCount(a.status) <= c.Capacity()
  {
    if labels != [] {
      var n := |labels| - 1;
      OutstandingIsExact(c, labels[..n]);
      var a := SpecRun(c, Idle(), labels[..n]).value;
      match labels[n]
      case Arrival => assert (a.status + [Waiting])[..|a.status|] == a.status;
      case Admit(i) => InsideUpdate(a.status, i, Inside);
      case TurnAway(i) => InsideUpdate(a.status, i, TurnedAway);
      case Leave(i) => InsideUpdate(a.status, i, Gone);
      case GiveUp(i) => InsideUpdate(a.status, i, GaveUp);
    }
  }

  // ----- The refinement -----

  /** What a step shows to the outside. */
  function Show(step: Step): seq<Label> {
    match step
    case Arrive => [Arrival]
    case Caller(i, act) =>
      if act.Acquire? then [Admit(i)]
      else if act.Deny? then [TurnAway(i)]
      else if act.ReturnPermit? then [Leave(i)]
      else if act.SetTimeoutRaises? then [GiveUp(i)]
      else []
    case Worker(i, act) => if act.Release? then [Leave(i)] else []
    case _ => []
  }

  function Trace(steps: seq<Step>): seq<Label> {
    if steps == [] then [] else Trace(steps[..|steps| - 1]) + Show(steps[|steps| - 1])
  }

  function StatusOf(r: Request): Status {
    match r.caller
    case Arrived => Waiting
    case Acquiring => Waiting
    case TimeoutRaised => GaveUp
    case Denied => TurnedAway
    case DenialCounted => TurnedAway
    case DenialSent => TurnedAway
    case Rejected => TurnedAway
    case RejectRaised => TurnedAway
    case Holding => Inside
    case Recorded => Inside
    case SubmitRaised => Inside
    case PermitBack => Gone
    case FailedSubmit => Gone
    case FailedUnshut => Gone
    case Submitted => if r.worker.Lingering? || r.worker.Retired? then Gone else Inside
  }

  function Statuses(rs: seq<Request>): (ss: seq<Status>)
    ensures |ss| == |rs|
    ensures forall i :: 0 <= i < |rs| ==> ss[i] == StatusOf(rs[i])
  {
    if rs == [] then [] else Statuses(rs[..|rs| - 1]) + [StatusOf(rs[|rs| - 1])]
  }

  lemma StatusesUpdate(rs: seq<Request>, i: nat, r: Request)
    requires i < |rs|
    ensures Statuses(rs[i := r]) == Statuses(rs)[i := StatusOf(r)]
    ensures StatusOf(r) == StatusOf(rs[i]) ==> Statuses(rs[i := r]) == Statuses(rs)
  {
  }

  function Abstract(p: Params, s: State): Spec {
    Spec(p.config.Capacity() - s.permits, Statuses(s.requests))
  }

  ghost predicate Simulates(p: Params, s: State, shown: seq<Label>, t: State) {
    var a := Abstract(p, s);
    var b := Abstract(p, t);
    if shown == [] then a == b
    else |shown| == 1 && Allows(p.config, a, shown[0]) && b == After(p.config, a, shown[0])
  }

  lemma CallerStatus(p: Params, r: Request, act: CallerAct)
    requires WfRequest(p, r) && p.atomicSubmit && CallerNext(p, r.caller, act).Some?
    ensures var r' := AfterCaller(p, r, act);
            match act
            case Acquire => StatusOf(r).Waiting? && StatusOf(r').Inside?
            case Deny => StatusOf(r).Waiting? && StatusOf(r').TurnedAway? && !p.config.policy.Block?
            case ReturnPermit => StatusOf(r).Inside? && StatusOf(r').Gone?
            case SetTimeoutRaises => StatusOf(r).Waiting? && StatusOf(r').GaveUp? && p.config.hasTimeout
            case _ => StatusOf(r') == StatusOf(r)
  {
  }

  lemma CallerSimulates(p: Params, s: State, i: nat, act: CallerAct)
    requires RequestsOk(p, s) && s.permits >= 0 && p.atomicSubmit && CallerEnabled(p, s, i, act)
    ensures Simulates(p, s, Show(Caller(i, act)), ApplyCaller(p, s, i, act))
  {
    var r := s.requests[i];
    assert WfRequest(p, r);
    CallerStatus(p, r, act);
    StatusesUpdate(s.requests, i, AfterCaller(p, r, act));
  }

  lemma WorkerSimulates(p: Params, s: State, i: nat, act: WorkerAct)
    requires RequestsOk(p, s) && p.atomicSubmit
    requires i < |s.requests| && WorkerNext(s.requests[i].worker, act).Some?
    ensures Simulates(p, s, Show(Worker(i, act)), ApplyWorker(s, i, act))
  {
    var r := s.requests[i];
    assert WfRequest(p, r);
    StatusesUpdate(s.requests, i, AfterWorker(r, act));
    assert r.caller.Submitted?;
    assert StatusOf(AfterWorker(r, act)) == if act.Release? then Gone else StatusOf(r);
  }

  lemma ArrivalSimulates(p: Params, s: State)
    ensures Simulates(p, s, Show(Arrive), Apply(p, s, Arrive))
  {
    var r := Request(Arrived, Unqueued, 0);
    assert (s.requests + [r])[..|s.requests|] == s.requests;
  }

  lemma PickupSimulates(p: Params, s: State)
    requires RequestsOk(p, s) && QueueOk(p, s) && p.atomicSubmit && Enabled(p, s, Pickup)
    ensures Simulates(p, s, Show(Pickup), ApplyPickup(s))
  {
    hide Sum, Statuses;
    var i := s.queue[0];
    assert i in s.queue;
    assert WfRequest(p, s.requests[i]);
    StatusesUpdate(s.requests, i, s.requests[i].(worker := PickedUp));
  }

  /** One step of the protocol is one step of the controller, or none at all. */
  lemma StepSimulates(p: Params, s: State, step: Step)
    requires RequestsOk(p, s) && QueueOk(p, s) && s.permits >= 0 && p.atomicSubmit && Enabled(p, s, step)
    ensures Simulates(p, s, Show(step), Apply(p, s, step))
  {
    match step
    case Arrive => ArrivalSimulates(p, s);
    case Caller(i, act) => CallerSimulates(p, s, i, act);
    case Pickup => PickupSimulates(p, s);
    case Worker(i, act) => WorkerSimulates(p, s, i, act);
    case CallShutdown(_) =>
    case Shut(_) =>
  }

  lemma SpecRunSnoc(c: Config, a: Spec, labels: seq<Label>, shown: seq<Label>)
    requires SpecRun(c, a, labels).Some? && |shown| <= 1
    requires shown != [] ==> Allows(c, SpecRun(c, a, labels).value, shown[0])
    ensures var b := SpecRun(c, a, labels).value;
            SpecRun(c, a, labels + shown) == Some(if shown == [] then b else After(c, b, shown[0]))
  {
    if shown == [] {
      assert labels + shown == labels;
    } else {
      assert (labels + shown)[..|labels|] == labels;
    }
  }

  /** Refinement: the visible trace of every run of the server is a run of the atomic controller, which
      ends in the abstraction of the server's state; in particular outstanding + permits == capacity. */
  lemma {:induction false} ServerRefinesController(p: Params, steps: seq<Step>)
    requires ValidParams(p) && p.atomicSubmit && Run(p, Init(p), steps).Some?
    ensures SpecRun(p.config, Idle(), Trace(steps)) == Some(Abstract(p, Run(p, Init(p), steps).value))
  {
    if steps != [] {
      var n := |steps| - 1;
      ServerRefinesController(p, steps[..n]);
      var s := Run(p, Init(p), steps[..n]).value;
      RunKeeps(p, Init(p), steps[..n]);
      StepSimulates(p, s, steps[n]);
      SpecRunSnoc(p.config, Idle(), Trace(steps[..n]), Show(steps[n]));
    }
  }

  /** Permits in use are the requests inside, in every reachable state of the server. */
  lemma OutstandingCountsInside(p: Params, s: State)
    requires ValidParams(p) && p.atomicSubmit && Reachable(p, s)
    ensures p.config.Capacity() - s.permits == InsideCount(Statuses(s.requests)) <= p.config.Capacity()
  {
    hide Run, Sum, Statuses, InsideCount, SpecRun, Trace;
    var steps :| Run(p, Init(p), steps) == Some(s);
    ServerRefinesController(p, steps);
    OutstandingIsExact(p.config, Trace(steps));
  }

  /** Admission is decided by the number of requests inside alone: a caller at the semaphore can get in
      iff fewer than max_workers + max_pending are, and is turned away iff it may not block and exactly
      that many are. */
  lemma AdmittedIffRoom(p: Params, s: State, i: nat)
    requires ValidParams(p) && p.atomicSubmit && Reachable(p, s)
    requires i < |s.requests| && s.requests[i].caller.Acquiring?
    ensures var inside := InsideCount(Statuses(s.requests));
            var limit := p.config.maxWorkers + p.config.maxPending;
            && (Enabled(p, s, Caller(i, Acquire)) <==> inside < limit)
            && (Enabled(p, s, Caller(i, Deny)) <==> !p.config.policy.Block? && inside == limit)
  {
    hide Reachable, Statuses, InsideCount;
    OutstandingCountsInside(p, s);
  }

  /** In every run a request is admitted at most once and leaves at most once, after being admitted;
      and once its call and task are over, it has left exactly as often as it was admitted. */
  lemma EachAdmissionIsReturnedOnce(p: Params, steps: seq<Step>, i: nat)
    requires ValidParams(p) && p.atomicSubmit && Run(p, Init(p), steps).Some?
    ensures Occurrences(Leave(i), Trace(steps)) <= Occurrences(Admit(i), Trace(steps)) <= 1
    ensures var s := Run(p, Init(p), steps).value;
            i < |s.requests| && Weight(Work, s.requests[i]) == 0
            ==> Occurrences(Leave(i), Trace(steps)) == Occurrences(Admit(i), Trace(steps))
  {
    ServerRefinesController(p, steps);
    AdmittedAndLeftOnce(p.config, Trace(steps), i);
    RunKeeps(p, Init(p), steps);
    var s := Run(p, Init(p), steps).value;
    if i < |s.requests| && Weight(Work, s.requests[i]) == 0 {
      assert WfRequest(p, s.requests[i]);
      OverIsOutside(p, s.requests[i]);
    }
  }

  lemma OverIsOutside(p: Params, r: Request)
    requires WfRequest(p, r) && Weight(Work, r) == 0
    ensures !StatusOf(r).Inside?
  {
  }
}
