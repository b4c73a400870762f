/**
 Why the counters may be treated as atomic: _StatsTracker (server.py) run by any number of threads,
 with the lock, every load and store of an update such as `_active -= 1`, and every field read of a
 snapshot as separate steps of arbitrary interleavings.
 */
module StatsLock {
  import opened Common
  import opened Counters

  datatype Field = Submitted | Active | RejectedClose | RejectedFault | Rejected503 | Completed | Errored

  function Get(c: Counters, f: Field): int {
    match f
    case Submitted => c.submitted
    case Active => c.active
    case RejectedClose => c.rejectedClose
    case RejectedFault => c.rejectedFault
    case Rejected503 => c.rejected503
    case Completed => c.completed
    case Errored => c.errored
  }

  function Set(c: Counters, f: Field, v: int): Counters {
    match f
    case Submitted => c.(submitted := v)
    case Active => c.(active := v)
    case RejectedClose => c.(rejectedClose := v)
    case RejectedFault => c.(rejectedFault := v)
    case Rejected503 => c.(rejected503 := v)
    case Completed => c.(completed := v)
    case Errored => c.(errored := v)
  }

  // ----- The code inside the lock -----

  /** Load puts a field into the thread's register, Store writes register + d, Read adds a field to
      the snapshot under construction. */
  datatype Instr = Load(f: Field) | Store(f: Field, d: int) | Read(f: Field)

  datatype Op = Note(e: Event) | Snapshot

  function Add(f: Field, d: int): seq<Instr> { [Load(f), Store(f, d)] }

  function Program(op: Op): seq<Instr> {
    match op
    case Note(e) =>
      (match e
       case Submission => Add(Submitted, 1)
       case Start => Add(Submitted, -1) + Add(Active, 1)
       case Completion => Add(Active, -1) + Add(Completed, 1)
       case Failure => Add(Active, -1) + Add(Errored, 1)
       case CloseRejection => Add(RejectedClose, 1)
       case FaultRejection => Add(RejectedFault, 1)
       case UnavailableRejection => Add(Rejected503, 1))
    case Snapshot =>
      [Read(Active), Read(Submitted), Read(RejectedClose), Read(RejectedFault), Read(Rejected503),
       Read(Completed), Read(Errored)]
  }

  /** The shared fields, and the register and partial snapshot of the thread in the lock. */
  datatype Machine = Machine(fields: Counters, reg: int, out: seq<int>)

  function Execute(m: Machine, i: Instr): Machine {
    match i
    case Load(f) => m.(reg := Get(m.fields, f))
    case Store(f, d) => m.(fields := Set(m.fields, f, m.reg + d))
    case Read(f) => m.(out := m.out + [Get(m.fields, f)])
  }

  /** The machine after the first k instructions, started on counters c. */
  function Prefix(c: Counters, program: seq<Instr>, k: nat): Machine
    requires k <= |program|
  {
    if k == 0 then Machine(c, 0, []) else Execute(Prefix(c, program, k - 1), program[k - 1])
  }

  function Values(s: ServerStats): seq<int> {
    [s.active, s.queued, s.rejectedClose, s.rejectedFault, s.rejected503, s.completed, s.errored]
  }

  function Effect(c: Counters, op: Op): Counters {
    if op.Note? then Record(c, op.e) else c
  }

  lemma NoteMeaning(c: Counters, e: Event)
    ensures Prefix(c, Program(Note(e)), |Program(Note(e))|) ==
            Machine(Record(c, e), Prefix(c, Program(Note(e)), |Program(Note(e))|).reg, [])
  {
    var program := Program(Note(e));
    var m0 := Prefix(c, program, 0);
    var m1 := Prefix(c, program, 1);
    var m2 := Prefix(c, program, 2);
    assert m1 == Execute(m0, program[0]) && m2 == Execute(m1, program[1]);
    if |program| == 4 {
      var m3 := Prefix(c, program, 3);
      assert m3 == Execute(m2, program[2]) && Prefix(c, program, 4) == Execute(m3, program[3]);
    }
  }

  lemma SnapshotMeaning(c: Counters)
    ensures Prefix(c, Program(Snapshot), 7) == Machine(c, 0, Values(Publish(c)))
  {
    var program := Program(Snapshot);
    var values := Values(Publish(c));
    assert Prefix(c, program, 1) == Machine(c, 0, values[..1]);
    assert Prefix(c, program, 2) == Machine(c, 0, values[..2]);
    assert Prefix(c, program, 3) == Machine(c, 0, values[..3]);
    assert Prefix(c, program, 4) == Machine(c, 0, values[..4]);
    assert Prefix(c, program, 5) == Machine(c, 0, values[..5]);
    assert Prefix(c, program, 6) == Machine(c, 0, values[..6]);
  }

  /** Uninterrupted, the code does what the atomic operation does. */
  lemma ProgramMeaning(c: Counters, op: Op)
    ensures Prefix(c, Program(op), |Program(op)|).fields == Effect(c, op)
    ensures Prefix(c, Program(op), |Program(op)|).out == if op.Snapshot? then Values(Publish(c)) else []
  {
    hide Prefix, Record, Publish;
    match op
    case Note(e) => NoteMeaning(c, e);
    case Snapshot => SnapshotMeaning(c);
  }

  // ----- Threads -----

  datatype Pc = Waiting | Inside(k: nat, reg: int, out: seq<int>) | Finished(result: seq<int>)

  /** One call of a tracker method; `since` is how many calls had finished when it began. */
  datatype Thread = Thread(op: Op, since: nat, pc: Pc)

  datatype State = State(
    fields: Counters,
    owner: Option<nat>,
    threads: seq<Thread>,
    history: seq<nat>      // calls in the order of their release
  )

  datatype Step = Call(op: Op) | Acquire(t: nat) | Exec(t: nat) | Release(t: nat)

  const INIT := State(ZERO, None, [], [])

  predicate Enabled(s: State, step: Step) {
    match step
    case Call(_) => true
    case Acquire(t) => t < |s.threads| && s.threads[t].pc.Waiting? && s.owner.None?
    case Exec(t) =>
      t < |s.threads| && s.threads[t].pc.Inside? && s.threads[t].pc.k < |Program(s.threads[t].op)|
    case Release(t) =>
      t < |s.threads| && s.threads[t].pc.Inside? && s.threads[t].pc.k == |Program(s.threads[t].op)|
  }

  function Apply(s: State, step: Step): State
    requires Enabled(s, step)
  {
    match step
    case Call(op) => s.(threads := s.threads + [Thread(op, |s.history|, Waiting)])
    case Acquire(t) => s.(threads := s.threads[t := s.threads[t].(pc := Inside(0, 0, []))], owner := Some(t))
    case Exec(t) =>
      var th := s.threads[t];
      var m := Execute(Machine(s.fields, th.pc.reg, th.pc.out), Program(th.op)[th.pc.k]);
      s.(threads := s.threads[t := th.(pc := Inside(th.pc.k + 1, m.reg, m.out))], fields := m.fields)
    case Release(t) =>
      s.(threads := s.threads[t := s.threads[t].(pc := Finished(s.threads[t].pc.out))],
         owner := None, history := s.history + [t])
  }

  function Run(s: State, steps: seq<Step>): Option<State> {
    if steps == [] then Some(s)
    else
      var before := Run(s, steps[..|steps| - 1]);
      var last := steps[|steps| - 1];
      if before.Some? && Enabled(before.value, last) then Some(Apply(before.value, last)) else None
  }

  ghost predicate Reachable(s: State) {
    exists steps: seq<Step> :: Run(INIT, steps) == Some(s)
  }

  // ----- Linearizability -----

  ghost predicate InRange(threads: seq<Thread>, history: seq<nat>) {
    forall j :: 0 <= j < |history| ==> history[j] < |threads|
  }

  /** The counters after the finished calls, applied one after the other, atomically. */
  ghost function Replay(threads: seq<Thread>, history: seq<nat>): Counters
    requires InRange(threads, history)
  {
    if history == [] then ZERO
    else
      var n := |history| - 1;
      assert InRange(threads, history[..n]);
      Effect(Replay(threads, history[..n]), threads[history[n]].op)
  }

  /** Replay only looks at the operations. */
  lemma {:induction false} ReplayFrame(before: seq<Thread>, after: seq<Thread>, history: seq<nat>)
    requires InRange(before, history) && |before| <= |after|
    requires forall i :: 0 <= i < |before| ==> after[i].op == before[i].op
    ensures Replay(after, history) == Replay(before, history)
  {
    if history != [] {
      ReplayFrame(before, after, history[..|history| - 1]);
    }
  }

  ghost predicate Inv(s: State) {
    && InRange(s.threads, s.history)
    && (s.owner.None? ==> s.fields == Replay(s.threads, s.history))
    && (s.owner.Some? ==>
          && s.owner.value < |s.threads|
          && var th := s.threads[s.owner.value];
          && th.pc.Inside?
          && th.pc.k <= |Program(th.op)|
          && Prefix(Replay(s.threads, s.history), Program(th.op), th.pc.k)
             == Machine(s.fields, th.pc.reg, th.pc.out))
    && (forall t {:trigger s.threads[t]} :: 0 <= t < |s.threads| ==>
          && s.threads[t].since <= |s.history|
          && (s.threads[t].pc.Inside? ==> s.owner == Some(t))
          && (s.threads[t].pc.Finished? <==> t in s.history))
    && (forall j :: 0 <= j < |s.history| ==> Linearized(s, j))
  }

  /** Call history[j] took effect at a point after it began, and if it is a snapshot it returned the
      counters as they were at that point. */
  ghost predicate Linearized(s: State, j: nat)
    requires j < |s.history| && InRange(s.threads, s.history)
  {
    var th := s.threads[s.history[j]];
    && th.since <= j
    && (th.op.Snapshot? ==> th.pc == Finished(Values(Publish(Replay(s.threads, s.history[..j])))))
  }

  lemma LinearizedFrame(s: State, t: State, j: nat)
    requires InRange(s.threads, s.history) && j < |s.history| && Linearized(s, j)
    requires s.history <= t.history && InRange(t.threads, t.history) && |s.threads| <= |t.threads|
    requires forall i :: 0 <= i < |s.threads| ==> t.threads[i].op == s.threads[i].op
    requires t.threads[s.history[j]] == s.threads[s.history[j]]
    ensures Linearized(t, j)
  {
    assert t.history[..j] == s.history[..j];
    assert InRange(s.threads, s.history[..j]);
    ReplayFrame(s.threads, t.threads, s.history[..j]);
  }

  lemma CallKeeps(s: State, op: Op)
    requires Inv(s)
    ensures Inv(Apply(s, Call(op)))
  {
    var t := Apply(s, Call(op));
    ReplayFrame(s.threads, t.threads, s.history);
    assert |s.threads| !in s.history;
    forall j | 0 <= j < |t.history| ensures Linearized(t, j) { LinearizedFrame(s, t, j); }
  }

  lemma AcquireKeeps(s: State, i: nat)
    requires Inv(s) && Enabled(s, Acquire(i))
    ensures Inv(Apply(s, Acquire(i)))
  {
    var t := Apply(s, Acquire(i));
    ReplayFrame(s.threads, t.threads, s.history);
    assert i !in s.history;
    forall j | 0 <= j < |t.history| ensures Linearized(t, j) { LinearizedFrame(s, t, j); }
  }

  lemma ExecKeeps(s: State, i: nat)
    requires Inv(s) && Enabled(s, Exec(i))
    ensures Inv(Apply(s, Exec(i)))
  {
    var t := Apply(s, Exec(i));
    ReplayFrame(s.threads, t.threads, s.history);
    assert i !in s.history;
    forall j | 0 <= j < |t.history| ensures Linearized(t, j) { LinearizedFrame(s, t, j); }
  }

  lemma ReleaseKeeps(s: State, i: nat)
    requires Inv(s) && Enabled(s, Release(i))
    ensures Inv(Apply(s, Release(i)))
  {
    var t := Apply(s, Release(i));
    var n := |s.history|;
    var c := Replay(s.threads, s.history);
    ProgramMeaning(c, s.threads[i].op);
    assert i !in s.history;
    assert t.history[..n] == s.history;
    assert InRange(t.threads, t.history);
    ReplayFrame(s.threads, t.threads, s.history);
    assert t.fields == Replay(t.threads, t.history);
    forall j | 0 <= j < |t.history| ensures Linearized(t, j) {
      if j < n { LinearizedFrame(s, t, j); }
    }
  }

  lemma StepKeeps(s: State, step: Step)
    requires Inv(s) && Enabled(s, step)
    ensures Inv(Apply(s, step))
  {
    match step
    case Call(op) => CallKeeps(s, op);
    case Acquire(t) => AcquireKeeps(s, t);
    case Exec(t) => ExecKeeps(s, t);
    case Release(t) => ReleaseKeeps(s, t);
  }

  lemma {:induction false} RunKeeps(steps: seq<Step>)
    requires Run(INIT, steps).Some?
    ensures Inv(Run(INIT, steps).value)
  {
    if steps != [] {
      var n := |steps| - 1;
      RunKeeps(steps[..n]);
      StepKeeps(Run(INIT, steps[..n]).value, steps[n]);
    }
  }

  /** Whenever the lock is free, the fields are the atomic effect of the finished calls, in the order
      of their release; and at most one thread is ever inside. */
  lemma UpdatesAreAtomic(s: State)
    requires Reachable(s)
    ensures InRange(s.threads, s.history)
    ensures s.owner.None? ==> s.fields == Replay(s.threads, s.history)
    ensures forall t, u ::
              (0 <= t < |s.threads| && 0 <= u < |s.threads|
               && s.threads[t].pc.Inside? && s.threads[u].pc.Inside?) ==> t == u
  {
    var steps :| Run(INIT, steps) == Some(s);
    RunKeeps(steps);
  }

  /** Linearizable snapshot: a finished snapshot returned exactly the counters of one instant, namely
      after the first j finished calls, where j is no earlier than its own start. */
  lemma SnapshotIsOneInstant(s: State, t: nat) returns (j: nat)
    requires Reachable(s) && t < |s.threads|
    requires s.threads[t].op.Snapshot? && s.threads[t].pc.Finished?
    ensures InRange(s.threads, s.history)
    ensures s.threads[t].since <= j < |s.history| && s.history[j] == t
    ensures InRange(s.threads, s.history[..j])
    ensures s.threads[t].pc.result == Values(Publish(Replay(s.threads, s.history[..j])))
  {
    var steps :| Run(INIT, steps) == Some(s);
    RunKeeps(steps);
    j :| 0 <= j < |s.history| && s.history[j] == t;
    assert Linearized(s, j);
  }

  lemma {:induction false} ReplayGrows(threads: seq<Thread>, history: seq<nat>, i: nat, j: nat)
    requires i <= j <= |history| && InRange(threads, history)
    ensures InRange(threads, history[..i]) && InRange(threads, history[..j])
    ensures NotBefore(Publish(Replay(threads, history[..i])), Publish(Replay(threads, history[..j])))
  {
    if i < j {
      ReplayGrows(threads, history, i, j - 1);
      assert history[..j][..j - 1] == history[..j - 1];
    }
  }

  /** A snapshot that begins after another one has returned never shows smaller cumulative counters. */
  lemma LaterSnapshotsNeverShrink(s: State, t: nat, u: nat) returns (first: ServerStats, second: ServerStats)
    requires Reachable(s) && t < |s.threads| && u < |s.threads|
    requires s.threads[t].op.Snapshot? && s.threads[t].pc.Finished?
    requires s.threads[u].op.Snapshot? && s.threads[u].pc.Finished?
    requires s.threads[u].since <= |s.history| && t in s.history[..s.threads[u].since]
    ensures s.threads[t].pc.result == Values(first) && s.threads[u].pc.result == Values(second)
    ensures NotBefore(first, second)
  {
    var steps :| Run(INIT, steps) == Some(s);
    RunKeeps(steps);
    var i :| 0 <= i < s.threads[u].since && s.history[i] == t;
    assert Linearized(s, i);
    var j := SnapshotIsOneInstant(s, u);
    first := Publish(Replay(s.threads, s.history[..i]));
    second := Publish(Replay(s.threads, s.history[..j]));
    ReplayGrows(s.threads, s.history, i, j);
  }
}
