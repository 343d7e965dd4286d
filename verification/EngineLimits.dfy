/**
  The rate limits hold exactly when jobs that share a damping key share a lock.  They need not:
  the lock is keyed by the alert's resource, damping by the runbook's target.
 */
module EngineLimits {
  import opened Wrappers
  import opened Engine
  import opened EngineRuns
  import opened EngineSystem
  import opened EngineDamping
  import P = DampingProperties
  import Locks

  const GOOD := Choice(true, 0, Untouched)

  /** `n` steps of run `i`, all of them answered well and without delay. */
  function Solo(i: nat, n: nat): seq<Label> {
    seq(n, _ => Go(i, GOOD))
  }

  function SoloFrom(s: System, i: nat, n: nat): System {
    if n == 0 then s else Step(SoloFrom(s, i, n - 1), Go(i, GOOD))
  }

  lemma {:induction false} ExecSolo(s: System, i: nat, n: nat)
    ensures Exec(s, Solo(i, n)) == SoloFrom(s, i, n)
  {
    if n > 0 {
      assert Solo(i, n)[..n - 1] == Solo(i, n - 1);
      ExecSolo(s, i, n - 1);
    }
  }

  /** Run `i` has got to `pc`; the other runs and the named stores are as in `s`. */
  predicate OnlyMoved(s: System, t: System, i: nat, pc: Pc) {
    && i < |s.runs| == |t.runs|
    && t.runs[i].pc == pc && t.runs[i].job == s.runs[i].job
    && (forall j :: 0 <= j < |s.runs| && j != i ==> t.runs[j] == s.runs[j])
    && t.locks == s.locks && t.damping == s.damping && t.records == s.records && t.clock == s.clock
  }

  /** A step that neither locks nor consults damping. */
  lemma QuietStep(s: System, t: System, i: nat, p: Pc)
    requires i < |s.runs| && OnlyMoved(s, t, i, p) && !Ended(p)
    requires var x := Next(t, t.runs[i].job, p, GOOD).1;
      !x.Grab? && !x.Drop? && !x.Ask? && !x.Admit? && !x.Note?
    ensures OnlyMoved(s, Step(t, Go(i, GOOD)), i, Next(t, t.runs[i].job, p, GOOD).0)
  {
    ApplyTouchesOneStore(t, i, t.runs[i].job, Next(t, t.runs[i].job, p, GOOD).1, true, t.runs[i].work.held);
  }

  /** From the alert through the gate: four steps. */
  lemma ThroughTheGate(s: System, i: nat)
    requires i < |s.runs| && s.runs[i].pc == Start && Gateable(s.runs[i].job)
    requires s.runs[i].job.lockPath !in s.locks && Key(s.runs[i].job) !in s.damping
    ensures var t := SoloFrom(s, i, 4);
      && OnlyMoved(s, t.(locks := s.locks), i, Prechecking(0))
      && t.locks == s.locks[s.runs[i].job.lockPath := i]
  {
    UpToTheLock(s, i);
    LockIsTaken(SoloFrom(s, i, 2), i);
    GateOpens(SoloFrom(s, i, 3), i);
  }

  lemma UpToTheLock(s: System, i: nat)
    requires i < |s.runs| && s.runs[i].pc == Start && Gateable(s.runs[i].job)
    ensures OnlyMoved(s, SoloFrom(s, i, 2), i, Locking)
  {
    assert SoloFrom(s, i, 0) == s;
    QuietStep(s, s, i, Start);
    QuietStep(s, SoloFrom(s, i, 1), i, Resolving);
  }

  lemma LockIsTaken(s: System, i: nat)
    requires i < |s.runs| && s.runs[i].pc == Locking && s.runs[i].job.lockPath !in s.locks
    ensures var t := Step(s, Go(i, GOOD));
      && OnlyMoved(s, t.(locks := s.locks), i, Gating)
      && t.locks == s.locks[s.runs[i].job.lockPath := i]
  {}

  lemma GateOpens(s: System, i: nat)
    requires i < |s.runs| && s.runs[i].pc == Gating && Key(s.runs[i].job) !in s.damping
    ensures OnlyMoved(s, Step(s, Go(i, GOOD)), i, Prechecking(0))
  {
    assert s.damping - {Key(s.runs[i].job)} == s.damping;
  }

  /** How many good steps separate a point of the happy path from the damping record. */
  function StepsLeft(rb: Runbook, pc: Pc): int {
    match pc
    case Prechecking(k) => rb.pres - k + rb.acts + rb.posts + 10
    case Staging => rb.acts + rb.posts + 9
    case Launching => rb.acts + rb.posts + 8
    case Acting(k) => rb.acts - k + rb.posts + 7
    case Postchecking(k) => rb.posts - k + 6
    case Passing => 5
    case Promoting => 4
    case Committing => 3
    case Sealing => 2
    case Clocking => 1
    case _ => 0
  }

  predicate OnTheWay(rb: Runbook, pc: Pc) {
    || (pc.Prechecking? && pc.k <= rb.pres) || pc.Staging? || pc.Launching?
    || (pc.Acting? && pc.k <= rb.acts) || (pc.Postchecking? && pc.k <= rb.posts)
    || (Concluding(pc) && !pc.Recording?)
  }

  /** Along the happy path every step is quiet and brings the record nearer. */
  lemma HappyPath(s: System, job: Job, pc: Pc)
    requires job.runbook.Some? && OnTheWay(job.runbook.value, pc)
    ensures var (q, x) := Next(s, job, pc, GOOD);
            var rb := job.runbook.value;
      && !x.Grab? && !x.Drop? && !x.Ask? && !x.Admit? && !x.Note?
      && 0 <= StepsLeft(rb, q) < StepsLeft(rb, pc)
      && (OnTheWay(rb, q) || q == Recording(s.clock))
  {}

  /** One more quiet step along the happy path. */
  lemma WalkOn(s: System, i: nat, n: nat, rb: Runbook, pc: Pc) returns (q: Pc)
    requires OnlyMoved(s, SoloFrom(s, i, n), i, pc) && s.runs[i].job.runbook == Some(rb) && OnTheWay(rb, pc)
    ensures OnlyMoved(s, SoloFrom(s, i, n + 1), i, q)
    ensures 0 <= StepsLeft(rb, q) < StepsLeft(rb, pc) && (OnTheWay(rb, q) || q == Recording(s.clock))
  {
    var t := SoloFrom(s, i, n);
    q := Next(t, t.runs[i].job, pc, GOOD).0;
    HappyPath(t, t.runs[i].job, pc);
    QuietStep(s, t, i, pc);
  }

  /** A run that has passed the gate can go on alone until it is about to record. */
  lemma {:induction false} Walk(s: System, i: nat, n: nat, rb: Runbook, pc: Pc) returns (m: nat)
    requires OnlyMoved(s, SoloFrom(s, i, n), i, pc) && s.runs[i].job.runbook == Some(rb)
    requires OnTheWay(rb, pc) || pc == Recording(s.clock)
    ensures OnlyMoved(s, SoloFrom(s, i, m), i, Recording(s.clock))
    decreases StepsLeft(rb, pc)
  {
    if pc == Recording(s.clock) {
      m := n;
    } else {
      var q := WalkOn(s, i, n, rb, pc);
      m := Walk(s, i, n + 1, rb, q);
    }
  }

  /** `t` is `s` with one more record, of run `i`'s key and of this instant. */
  predicate RecordedBy(s: System, t: System, i: nat) {
    && i < |s.runs| == |t.runs| && t.clock == s.clock && t.runs[i].job == s.runs[i].job
    && (forall j :: 0 <= j < |s.runs| && j != i ==> t.runs[j] == s.runs[j])
    && t.records == s.records + [Execution(Key(s.runs[i].job), s.clock)]
  }

  lemma RecordIsMade(s: System, t: System, i: nat)
    requires OnlyMoved(s, t, i, Recording(s.clock))
    ensures RecordedBy(s, Step(t, Go(i, GOOD)), i)
  {}

  /** From the gate to the damping record. */
  lemma ToTheRecord(s: System, i: nat) returns (n: nat)
    requires i < |s.runs| && s.runs[i].pc == Prechecking(0) && s.runs[i].job.runbook.Some?
    ensures RecordedBy(s, Exec(s, Solo(i, n)), i)
  {
    assert SoloFrom(s, i, 0) == s;
    var m := Walk(s, i, 0, s.runs[i].job.runbook.value, Prechecking(0));
    n := m + 1;
    RecordAfter(s, i, m);
    ExecSolo(s, i, n);
  }

  lemma RecordAfter(s: System, i: nat, m: nat)
    requires OnlyMoved(s, SoloFrom(s, i, m), i, Recording(s.clock))
    ensures RecordedBy(s, SoloFrom(s, i, m + 1), i)
  {
    RecordIsMade(s, SoloFrom(s, i, m), i);
  }

  lemma BothStart(a: Job, b: Job)
    ensures Exec(Boot(0), [Spawn(a), Spawn(b)]) == Boot(0).(runs := [NewRun(a), NewRun(b)])
  {
    assert [Spawn(a), Spawn(b)][..1] == [Spawn(a)];
    assert [Spawn(a)][..0] == [];
    assert Exec(Boot(0), [Spawn(a)]) == Boot(0).(runs := [NewRun(a)]);
  }

  /** Both runs pass the gate before either records; each holds its own lock. */
  function Race(a: Job, b: Job): seq<Label> {
    [Spawn(a), Spawn(b)] + Solo(0, 4) + Solo(1, 4)
  }

  lemma BothPassTheGate(a: Job, b: Job)
    requires Gateable(a) && Gateable(b) && a.lockPath != b.lockPath
    ensures var s := Exec(Boot(0), Race(a, b));
      && |s.runs| == 2 && s.runs[0].pc == s.runs[1].pc == Prechecking(0) && s.records == [] && s.clock == 0
      && s.runs[0].job == a && s.runs[1].job == b
  {
    var labels := [Spawn(a), Spawn(b)];
    BothStart(a, b);
    var start := Exec(Boot(0), labels);
    ThroughTheGate(start, 0);
    var mid := SoloFrom(start, 0, 4);
    ThroughTheGate(mid, 1);
    ExecSolo(start, 0, 4);
    ExecSolo(mid, 1, 4);
    ExecConcat(Boot(0), labels, Solo(0, 4));
    ExecConcat(Boot(0), labels + Solo(0, 4), Solo(1, 4));
  }

  /** Every spawned job is one of `jobs`. */
  predicate SpawnsOnly(labels: seq<Label>, jobs: set<Job>) {
    forall i :: 0 <= i < |labels| && labels[i].Spawn? ==> labels[i].job in jobs
  }

  /**
    Two jobs under one damping key with different locks: a trace records two executions of the
    key at the same instant.
   */
  lemma IncompatibleJobsRace(a: Job, b: Job) returns (labels: seq<Label>)
    requires !Compatible(a, b)
    ensures SpawnsOnly(labels, {a, b})
    ensures HistoryOf(Exec(Boot(0), labels).records, Key(a)) == [0, 0]
  {
    BothPassTheGate(a, b);
    var gate := Exec(Boot(0), Race(a, b));
    var n := ToTheRecord(gate, 0);
    var first := Exec(gate, Solo(0, n));
    var m := ToTheRecord(first, 1);
    labels := Race(a, b) + Solo(0, n) + Solo(1, m);
    RaceSpawnsBoth(a, b, n, m);
    ExecConcat(Boot(0), Race(a, b), Solo(0, n));
    ExecConcat(Boot(0), Race(a, b) + Solo(0, n), Solo(1, m));
    TwoRecords(Execution(Key(a), 0));
    assert Exec(Boot(0), labels).records == [] + [Execution(Key(a), 0)] + [Execution(Key(a), 0)];
  }

  lemma RaceSpawnsBoth(a: Job, b: Job, n: nat, m: nat)
    ensures SpawnsOnly(Race(a, b) + Solo(0, n) + Solo(1, m), {a, b})
  {}

  lemma TwoRecords(e: Execution)
    ensures HistoryOf([] + [e] + [e], e.key) == [e.at, e.at]
  {
    HistoryAppend([], e, e.key);
    HistoryAppend([] + [e], e, e.key);
  }

  lemma {:induction false} RunsComeFromJobs(clock: int, labels: seq<Label>, jobs: set<Job>, i: nat)
    requires SpawnsOnly(labels, jobs) && i < |Exec(Boot(clock), labels).runs|
    ensures Exec(Boot(clock), labels).runs[i].job in jobs
  {
    if labels != [] {
      var n := |labels| - 1;
      var s := Exec(Boot(clock), labels[..n]);
      StepRuns(s, labels[n], i);
      if i < |s.runs| {
        MovedKeeps(s, labels[n], i);
        RunsComeFromJobs(clock, labels[..n], jobs, i);
      }
    }
  }

  /** Every interleaving of runs on these jobs keeps the limits of every key. */
  ghost predicate LimitsAlwaysHold(jobs: set<Job>) {
    forall clock, labels, key :: SpawnsOnly(labels, jobs) ==>
      P.WithinLimits(HistoryOf(Exec(Boot(clock), labels).records, key))
  }

  /** The rate limits hold in every interleaving exactly when jobs that share a key share a lock. */
  lemma LimitsHoldExactlyForCompatibleJobs(jobs: set<Job>)
    ensures LimitsAlwaysHold(jobs) <==> forall a, b :: a in jobs && b in jobs ==> Compatible(a, b)
  {
    if a, b :| a in jobs && b in jobs && !Compatible(a, b) {
      var labels := IncompatibleJobsRace(a, b);
      assert P.Rest([0, 0], 0, 1) == 0;
      assert !P.WithinLimits(HistoryOf(Exec(Boot(0), labels).records, Key(a)));
    } else {
      forall clock, labels, key | SpawnsOnly(labels, jobs)
        ensures P.WithinLimits(HistoryOf(Exec(Boot(clock), labels).records, key))
      {
        var s := Exec(Boot(clock), labels);
        forall i: nat, j: nat | i < |s.runs| && j < |s.runs| ensures Compatible(s.runs[i].job, s.runs[j].job) {
          RunsComeFromJobs(clock, labels, jobs, i);
          RunsComeFromJobs(clock, labels, jobs, j);
        }
        RateLimitsHold(clock, labels, key);
      }
    }
  }

  // ----- jobs as the engine makes them ----------------------------------------------------------------------

  /** The job of an alert that resolves to a runbook; the lock is that of the alert's resource. */
  function JobFor(dir: string, short: string -> string, alert: Alert, rb: Runbook, tx: string): Job {
    Job(alert, Some(rb), Locks.LockPathFor(dir, alert.resource, short), tx)
  }

  /** One runbook with a target and two alerts on resources whose locks differ: enough to break the limits of the target. */
  lemma OneRunbookTwoResources(
    dir: string, short: string -> string, rb: Runbook, a: Alert, b: Alert, tx: string, tx': string)
    returns (labels: seq<Label>)
    requires rb.target != "" && WellFormed(a) && WellFormed(b) && |short(a.resource)| == |short(b.resource)|
    requires Locks.Shown(a.resource) != Locks.Shown(b.resource) || short(a.resource) != short(b.resource)
    ensures SpawnsOnly(labels, {JobFor(dir, short, a, rb, tx), JobFor(dir, short, b, rb, tx')})
    ensures HistoryOf(Exec(Boot(0), labels).records, rb.target) == [0, 0]
  {
    var x, y := JobFor(dir, short, a, rb, tx), JobFor(dir, short, b, rb, tx');
    Locks.LocksAreSharedExactly(dir, a.resource, b.resource, short);
    assert !Compatible(x, y) && Key(x) == rb.target;
    labels := IncompatibleJobsRace(x, y);
  }

  /** The lock of the job is that of its alert's resource. */
  predicate LockedByResource(dir: string, short: string -> string, job: Job) {
    job.lockPath == Locks.LockPathFor(dir, job.alert.resource, short)
  }

  /** Two jobs that can reach the gate under one key are on resources with the same lock name. */
  predicate SameLockName(short: string -> string, a: Job, b: Job) {
    Gateable(a) && Gateable(b) && Key(a) == Key(b) ==>
      Locks.Shown(a.alert.resource) == Locks.Shown(b.alert.resource) && short(a.alert.resource) == short(b.alert.resource)
  }

  /** For the jobs of the engine: the limits always hold exactly when alerts under one key are on resources with one lock name. */
  lemma LimitsOfEngineJobs(dir: string, short: string -> string, jobs: set<Job>)
    requires forall job :: job in jobs ==> LockedByResource(dir, short, job)
    requires forall a, b :: |short(a)| == |short(b)|
    ensures LimitsAlwaysHold(jobs) <==> forall a, b :: a in jobs && b in jobs ==> SameLockName(short, a, b)
  {
    LimitsHoldExactlyForCompatibleJobs(jobs);
    forall a, b | a in jobs && b in jobs ensures Compatible(a, b) <==> SameLockName(short, a, b) {
      Locks.LocksAreSharedExactly(dir, a.alert.resource, b.alert.resource, short);
    }
  }

  /** Runbooks without a target are damped by resource, so that the limits of every resource always hold. */
  lemma WithoutTargetsLimitsHold(dir: string, short: string -> string, jobs: set<Job>)
    requires forall job :: job in jobs ==> LockedByResource(dir, short, job)
    requires forall job :: job in jobs && job.runbook.Some? ==> job.runbook.value.target == ""
    ensures LimitsAlwaysHold(jobs)
    ensures forall job :: job in jobs ==> Key(job) == job.alert.resource
  {
    LimitsHoldExactlyForCompatibleJobs(jobs);
  }

  // ----- what the limits do not limit ----------------------------------------------------------------------------

  /** From the gate up to the first action. */
  predicate BeforeTheAction(rb: Runbook, pc: Pc) {
    (pc.Prechecking? && pc.k <= rb.pres) || pc.Staging? || pc.Launching? || pc == Acting(0)
  }

  lemma EarlyPath(s: System, job: Job, pc: Pc)
    requires job.runbook.Some? && job.runbook.value.acts > 0 && BeforeTheAction(job.runbook.value, pc)
    ensures var (q, x) := Next(s, job, pc, GOOD);
            var rb := job.runbook.value;
      && !x.Grab? && !x.Drop? && !x.Ask? && !x.Admit? && !x.Note?
      && 0 <= StepsLeft(rb, q) < StepsLeft(rb, pc)
      && (BeforeTheAction(rb, q) || q == Acting(1))
  {}

  /** A run that has passed the gate can go on alone until it has dispatched its first action. */
  lemma {:induction false} WalkToTheAction(s: System, i: nat, n: nat, rb: Runbook, pc: Pc) returns (m: nat)
    requires OnlyMoved(s, SoloFrom(s, i, n), i, pc) && s.runs[i].job.runbook == Some(rb) && rb.acts > 0
    requires BeforeTheAction(rb, pc) || pc == Acting(1)
    ensures OnlyMoved(s, SoloFrom(s, i, m), i, Acting(1))
    decreases StepsLeft(rb, pc)
  {
    if pc == Acting(1) {
      m := n;
    } else {
      var q := EarlyStep(s, i, n, rb, pc);
      m := WalkToTheAction(s, i, n + 1, rb, q);
    }
  }

  lemma EarlyStep(s: System, i: nat, n: nat, rb: Runbook, pc: Pc) returns (q: Pc)
    requires OnlyMoved(s, SoloFrom(s, i, n), i, pc) && s.runs[i].job.runbook == Some(rb) && rb.acts > 0
    requires BeforeTheAction(rb, pc)
    ensures OnlyMoved(s, SoloFrom(s, i, n + 1), i, q)
    ensures 0 <= StepsLeft(rb, q) < StepsLeft(rb, pc) && (BeforeTheAction(rb, q) || q == Acting(1))
  {
    var t := SoloFrom(s, i, n);
    q := Next(t, t.runs[i].job, pc, GOOD).0;
    EarlyPath(t, t.runs[i].job, pc);
    QuietStep(s, t, i, pc);
  }

  /** Nobody holds a lock, nothing was ever recorded, the clock stands still, and the job's key is unknown to damping. */
  predicate Fresh(s: System, job: Job) {
    s.locks == map[] && s.records == [] && s.clock == 0 && Key(job) !in s.damping
  }

  /** Run `i` is on this job and has dispatched an action. */
  predicate Acted(s: System, job: Job, i: nat) {
    i < |s.runs| && s.runs[i].job == job && s.runs[i].work.acts != []
  }

  /** From spawning to the first action, in a fresh system. */
  lemma ToTheAction(s: System, job: Job) returns (labels: seq<Label>)
    requires Fresh(s, job) && Gateable(job) && job.runbook.value.acts > 0
    ensures var t := Exec(s, labels);
            var i := |s.runs|;
      && |t.runs| == i + 1 && t.runs[..i] == s.runs && t.runs[i].pc == Acting(1) && t.runs[i].job == job
      && t.locks == map[job.lockPath := i] && t.records == [] && t.clock == 0 && t.damping == s.damping
  {
    var i := |s.runs|;
    var spawned := Step(s, Spawn(job));
    assert [Spawn(job)][..0] == [] && Exec(s, []) == s;
    assert Exec(s, [Spawn(job)]) == spawned;
    ThroughTheGate(spawned, i);
    var gated := SoloFrom(spawned, i, 4);
    assert SoloFrom(gated, i, 0) == gated;
    var m := WalkToTheAction(gated, i, 0, job.runbook.value, Prechecking(0));
    ExecSolo(spawned, i, 4);
    ExecSolo(gated, i, m);
    ExecConcat(s, [Spawn(job)], Solo(i, 4));
    ExecConcat(s, [Spawn(job)] + Solo(i, 4), Solo(i, m));
    labels := [Spawn(job)] + Solo(i, 4) + Solo(i, m);
    FirstRunsStay(s, spawned, gated, SoloFrom(gated, i, m), i);
  }

  lemma FirstRunsStay(s: System, spawned: System, gated: System, t: System, i: nat)
    requires i == |s.runs| && |spawned.runs| == |gated.runs| == |t.runs| == i + 1 && spawned.runs[..i] == s.runs
    requires forall j :: 0 <= j < i ==> gated.runs[j] == spawned.runs[j] && t.runs[j] == gated.runs[j]
    ensures t.runs[..i] == s.runs
  {
    forall j | 0 <= j < i ensures t.runs[..i][j] == s.runs[j] {
      assert spawned.runs[..i][j] == spawned.runs[j];
    }
  }

  lemma {:induction false} Unrecorded(job: Job, n: nat) returns (labels: seq<Label>)
    requires Gateable(job) && job.runbook.value.acts > 0
    ensures var s := Exec(Boot(0), labels);
      Fresh(s, job) && |s.runs| == n && forall i: nat :: i < n ==> Acted(s, job, i)
  {
    if n == 0 {
      labels := [];
    } else {
      var before := Unrecorded(job, n - 1);
      var s := Exec(Boot(0), before);
      var more := ToTheAction(s, job);
      ExecConcat(Boot(0), before, more);
      var acted := before + more;
      ReachableRunOk(0, acted, n - 1);
      OneActionAt(Exec(Boot(0), acted).runs[n - 1]);
      labels := acted + [Crash(n - 1)];
      assert labels[..|acted|] == acted;
      CrashFreesTheLock(s, Exec(Boot(0), acted), job, n - 1);
    }
  }

  lemma OneActionAt(r: Run)
    requires RunOk(r) && r.pc == Acting(1)
    ensures r.work.acts != [] && r.work.held
  {}

  lemma CrashFreesTheLock(s: System, t: System, job: Job, i: nat)
    requires Fresh(s, job) && |t.runs| == i + 1 && t.runs[..i] == s.runs && t.runs[i].job == job
    requires t.runs[i].pc == Acting(1) && t.runs[i].work.acts != [] && t.runs[i].work.held
    requires t.locks == map[job.lockPath := i] && t.records == [] && t.clock == 0 && t.damping == s.damping
    requires forall j: nat :: j < i ==> Acted(s, job, j)
    ensures var u := Step(t, Crash(i));
      Fresh(u, job) && |u.runs| == i + 1 && forall j: nat :: j < i + 1 ==> Acted(u, job, j)
  {
    var u := Step(t, Crash(i));
    assert u.locks == map[];
    forall j: nat | j < i + 1 ensures Acted(u, job, j) {
      if j < i {
        assert Acted(s, job, j) && t.runs[..i][j] == t.runs[j];
      }
    }
  }

  /**
    The limits are on committed executions only.  For every job with an action and every `n` there
    is a trace in which `n` runs of the job each dispatch an action, all at one instant, and damping
    has recorded nothing: a run that dies, or is rolled back, does not count.
   */
  lemma ActionsAreNotLimited(job: Job, n: nat) returns (labels: seq<Label>)
    requires Gateable(job) && job.runbook.value.acts > 0
    ensures var s := Exec(Boot(0), labels);
      && s.records == [] && s.clock == 0 && |s.runs| == n
      && forall i: nat :: i < n ==> s.runs[i].job == job && s.runs[i].work.acts != []
  {
    labels := Unrecorded(job, n);
    var s := Exec(Boot(0), labels);
    forall i: nat | i < n ensures s.runs[i].job == job && s.runs[i].work.acts != [] {
      assert Acted(s, job, i);
    }
  }
}
