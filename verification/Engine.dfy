/**
  The remediation control loop of `internal/engine/engine.go`, as a step machine.

  Any number of `Remediate` runs share a lock table, the audit ledger, the WAL journal and the
  damping controller.  One step is one access to a shared store, or one precondition, action,
  postcondition or compensating step.  Everything the code cannot decide by itself (probe
  results, action results, store errors, the clock) comes in through the labels, so a list of
  labels is an interleaving, and every interleaving is a list of labels.
 */
module Engine {
  import opened Wrappers
  import opened Fsm
  import opened Wal
  import D = Damping

  /** `target` is `TargetResourceID`; the numbers are list lengths. */
  datatype Runbook = Runbook(id: string, target: string, pres: nat, acts: nat, posts: nat, steps: nat)

  datatype Alert = Alert(id: string, resource: string)

  /** A call of `Remediate`: the alert, the runbook it resolves to, the lock path of its resource, its transaction ID. */
  datatype Job = Job(alert: Alert, runbook: Option<Runbook>, lockPath: string, tx: string)

  /** The ways in which `Remediate` returns. */
  datatype Exit =
    | Malformed | Unmatched | LockBusy | Damped | PreconditionFalse | StageFailed
    | Done | RollbackFailed | RolledBackCleanly

  /** Program points. */
  datatype Pc =
    | Start | Resolving | Locking | Gating | Prechecking(k: nat) | Staging | Launching
    | Acting(k: nat) | Postchecking(k: nat)
    | Passing | Promoting | Committing | Sealing | Clocking | Recording(at: int)
    | Failing | Unwinding | MarkingRollback | Undoing(k: nat) | MarkingFailed | MarkingRolledBack
    | Exiting(why: Exit, k: nat) | Returned(why: Exit) | Crashed

  /** What the statement at a program point does. */
  datatype Instr =
    | Idle
    | Transit(st: State)        // FSM transition
    | Seal(st: State)           // ledger append
    | Log(st: State)            // FSM transition, then ledger append
    | Grab | Drop               // lock, unlock
    | Ask(lag: nat)             // damping check
    | Admit(lag: nat)           // damping check that accepts
    | Mark(w: WalState, slip: Slip)   // WAL write, and how it fails if it does
    | Strand                    // WAL staging that is reported as failed and leaves the record
    | Pre(k: nat) | Do(k: nat) | Post(k: nat) | Undo(k: nat)
    | Note(at: int)             // damping record

  /** Position in the runbook's list, and whether it succeeded. */
  datatype Outcome = Outcome(index: nat, ok: bool)

  /**
    What a run has told its FSM and the ledger: the FSM history, the states appended to the
    ledger, how many of them were POSTCHECK_PASSED and COMMITTED, and whether an append failed.
   */
  datatype Book = Book(fsm: seq<State>, logged: seq<State>, passes: nat, seals: nat, lost: bool)

  /**
    What a run has done: the conditions evaluated, the actions and compensating steps
    dispatched, the last WAL state written, whether a failed write has torn the record, whether a
    staging reported as failed has left one, whether the run holds its lock, has consulted damping,
    was admitted, recorded its execution, and whether a WAL update failed.
   */
  datatype Work = Work(
    pres: seq<Outcome>, acts: seq<Outcome>, posts: seq<Outcome>, undos: seq<Outcome>,
    wal: Option<WalState>, torn: bool, stranded: bool, held: bool, asked: bool, admitted: bool, recorded: bool, lost: bool)

  datatype Run = Run(job: Job, pc: Pc, book: Book, work: Work)

  datatype Entry = Entry(run: nat, resource: string, state: State)

  datatype Execution = Execution(key: string, at: int)

  datatype System = System(
    runs: seq<Run>, locks: map<string, nat>, ledger: seq<Entry>, wal: map<string, WalState>,
    damping: map<string, D.ResourceState>, records: seq<Execution>, clock: int)

  /**
    `ok` answers whatever the step asks of the world; `lag` is the time between two clock
    readings; `slip` says how a WAL write fails that does.
   */
  datatype Choice = Choice(ok: bool, lag: nat, slip: Slip)

  /** The file cannot be opened, the write dies behind its truncation, or only the sync of the complete file fails. */
  datatype Slip = Untouched | Tears | Unsynced

  datatype Label =
    | Spawn(job: Job) | Go(i: nat, c: Choice) | Crash(i: nat) | Tick(d: nat)
    | TripKey(key: string, duration: int)

  predicate WellFormed(a: Alert) {
    a.id != "" && a.resource != ""
  }

  /** The damping key: the runbook's target, or the alert's resource when it has none. */
  function Key(job: Job): string {
    if job.runbook.Some? && job.runbook.value.target != "" then job.runbook.value.target
    else job.alert.resource
  }

  function NewRun(job: Job): Run {
    Run(job, Start, Book([Detected], [], 0, 0, false), Work([], [], [], [], None, false, false, false, false, false, false, false))
  }

  /** How many states a run that leaves for reason `e` still has to log. */
  function Farewells(e: Exit): nat {
    match e
    case Malformed => 0
    case Done => 0
    case Unmatched => 1
    case StageFailed => 1
    case RollbackFailed => 1
    case _ => 2
  }

  /** The first of two is PRECHECK_FAILED or, after a rollback, ROLLED_BACK; the last is always ESCALATED. */
  function Farewell(e: Exit, k: nat): State {
    if k + 1 < Farewells(e) then (if e == RolledBackCleanly then RolledBack else PrecheckFailed) else Escalated
  }

  /** `FinalState` of the result; it is not always the state the FSM ends in. */
  function FinalState(e: Exit): State {
    match e
    case Damped => PrecheckFailed
    case PreconditionFalse => PrecheckFailed
    case Done => Committed
    case RolledBackCleanly => RolledBack
    case _ => Escalated
  }

  // ----- control ------------------------------------------------------------------------------

  /** From the alert to the damping gate. */
  function NextIn(s: System, job: Job, pc: Pc, c: Choice): (Pc, Instr) {
    match pc
    case Start =>
      if !WellFormed(job.alert) then (Exiting(Malformed, 0), Transit(Escalated)) else (Resolving, Seal(Detected))
    case Resolving =>
      if job.runbook.None? then (Exiting(Unmatched, 0), Idle) else (Locking, Log(Evaluating))
    case Locking =>
      if c.ok && job.lockPath !in s.locks then (Gating, Grab) else (Exiting(LockBusy, 0), Idle)
    case _ =>
      if D.Decide(D.SlotOf(s.damping, Key(job)), s.clock) == D.Accept
      then (Prechecking(0), Admit(c.lag)) else (Exiting(Damped, 0), Ask(c.lag))
  }

  /** Preconditions, staging, actions, postconditions. */
  function NextWork(rb: Runbook, pc: Pc, c: Choice): (Pc, Instr) {
    match pc
    case Prechecking(k) =>
      if k < rb.pres then (if c.ok then Prechecking(k + 1) else Exiting(PreconditionFalse, 0), Pre(k))
      else (Staging, Log(PrecheckPassed))
    case Staging =>
      if c.ok then (Launching, Mark(Prepared, c.slip))
      else (Exiting(StageFailed, 0), if c.slip == Unsynced then Strand else Idle)
    case Launching => (Acting(0), Log(Executing))
    case Acting(k) =>
      if k < rb.acts then (if c.ok then Acting(k + 1) else Failing, Do(k)) else (Postchecking(0), Idle)
    case Postchecking(k) =>
      if k < rb.posts then (if c.ok then Postchecking(k + 1) else Failing, Post(k)) else (Passing, Idle)
    case _ => (pc, Idle)
  }

  /** The happy path. */
  function NextCommit(s: System, pc: Pc, c: Choice): (Pc, Instr) {
    match pc
    case Passing => (Promoting, Log(PostcheckPassed))
    case Promoting => (Committing, Transit(Committed))
    case Committing => (Sealing, Mark(WalCommitted, c.slip))
    case Sealing => (Clocking, Seal(Committed))
    case Clocking => (Recording(s.clock), Idle)
    case Recording(at) => (Exiting(Done, 0), Note(at))
    case _ => (pc, Idle)
  }

  /** The fault path. */
  function NextUndo(rb: Runbook, pc: Pc, c: Choice): (Pc, Instr) {
    match pc
    case Failing => (Unwinding, Log(PostcheckFailed))
    case Unwinding => (MarkingRollback, Log(RollingBack))
    case MarkingRollback => (Undoing(rb.steps), Mark(WalRollingBack, c.slip))
    case Undoing(k) =>
      if k > 0 then (if c.ok then Undoing(k - 1) else MarkingFailed, Undo(k - 1)) else (MarkingRolledBack, Idle)
    case MarkingFailed => (Exiting(RollbackFailed, 0), Mark(WalFailed, c.slip))
    case MarkingRolledBack => (Exiting(RolledBackCleanly, 0), Mark(WalRolledBack, c.slip))
    case _ => (pc, Idle)
  }

  /** Log what is left to log, then return; the deferred unlock runs at the return. */
  function NextOut(pc: Pc): (Pc, Instr) {
    match pc
    case Exiting(e, k) =>
      if k < Farewells(e) then (Exiting(e, k + 1), Log(Farewell(e, k))) else (Returned(e), Drop)
    case _ => (pc, Idle)
  }

  predicate Entering(pc: Pc) {
    pc.Start? || pc.Resolving? || pc.Locking? || pc.Gating?
  }

  predicate Working(pc: Pc) {
    pc.Prechecking? || pc.Staging? || pc.Launching? || pc.Acting? || pc.Postchecking?
  }

  predicate Concluding(pc: Pc) {
    pc.Passing? || pc.Promoting? || pc.Committing? || pc.Sealing? || pc.Clocking? || pc.Recording?
  }

  predicate Recovering(pc: Pc) {
    pc.Failing? || pc.Unwinding? || pc.MarkingRollback? || pc.Undoing? || pc.MarkingFailed? || pc.MarkingRolledBack?
  }

  predicate Ended(pc: Pc) {
    pc.Returned? || pc.Crashed?
  }

  /** Where a run goes next, and by doing what. */
  function Next(s: System, job: Job, pc: Pc, c: Choice): (Pc, Instr) {
    if Entering(pc) then NextIn(s, job, pc, c)
    else if Concluding(pc) then NextCommit(s, pc, c)
    else if job.runbook.None? || pc.Exiting? || Ended(pc) then NextOut(pc)
    else if Working(pc) then NextWork(job.runbook.value, pc, c)
    else NextUndo(job.runbook.value, pc, c)
  }

  // ----- data -----------------------------------------------------------------------------------

  function FsmAfter(fsm: seq<State>, x: Instr): seq<State> {
    if (x.Transit? || x.Log?) && fsm != [] then Advance(fsm, x.st) else fsm
  }

  predicate Appends(x: Instr, ok: bool) {
    (x.Seal? || x.Log?) && ok
  }

  /** Ledger errors are ignored by the engine; the entry is then missing. */
  function Booked(b: Book, x: Instr, ok: bool): Book {
    var fsm := FsmAfter(b.fsm, x);
    if Appends(x, ok) then
      Book(fsm, b.logged + [x.st],
           b.passes + (if x.st == PostcheckPassed then 1 else 0),
           b.seals + (if x.st == Committed then 1 else 0), b.lost)
    else Book(fsm, b.logged, b.passes, b.seals, b.lost || x.Seal? || x.Log?)
  }

  /**
    WAL update errors are ignored too: the old record then stays, or is torn, and a torn one is
    never updated; or the new one is there all the same, only not synced.
   */
  function Worked(w: Work, x: Instr, ok: bool): Work {
    match x
    case Grab => w.(held := true)
    case Drop => w.(held := false)
    case Ask(_) => w.(asked := true)
    case Admit(_) => w.(asked := true, admitted := true)
    case Mark(st, slip) =>
      if w.torn then w.(lost := true)
      else if ok || slip == Unsynced then w.(wal := Some(st)) else w.(lost := true, torn := slip == Tears)
    case Strand => w.(stranded := true)
    case Pre(k) => w.(pres := w.pres + [Outcome(k, ok)])
    case Do(k) => w.(acts := w.acts + [Outcome(k, ok)])
    case Post(k) => w.(posts := w.posts + [Outcome(k, ok)])
    case Undo(k) => w.(undos := w.undos + [Outcome(k, ok)])
    case Note(_) => w.(recorded := true)
    case _ => w
  }

  function Perform(r: Run, pc: Pc, x: Instr, ok: bool): Run {
    Run(r.job, pc, Booked(r.book, x, ok), Worked(r.work, x, ok))
  }

  // ----- shared stores ------------------------------------------------------------------------------

  function ConsultDamping(s: System, key: string, lag: nat): System {
    s.(damping := D.Put(s.damping, key, D.Checked(D.SlotOf(s.damping, key), s.clock, s.clock + lag)),
       clock := s.clock + lag)
  }

  /** What instruction `x` of run `i` does to the shared stores, `wal` being the readable records; `held` says whether the run holds its lock. */
  function Apply(s: System, i: nat, job: Job, x: Instr, ok: bool, held: bool): (t: System)
    ensures t.runs == s.runs
  {
    match x
    case Seal(st) => if ok then s.(ledger := s.ledger + [Entry(i, job.alert.resource, st)]) else s
    case Log(st) => if ok then s.(ledger := s.ledger + [Entry(i, job.alert.resource, st)]) else s
    case Grab => s.(locks := s.locks[job.lockPath := i])
    case Drop => if held then s.(locks := s.locks - {job.lockPath}) else s
    case Ask(lag) => ConsultDamping(s, Key(job), lag)
    case Admit(lag) => ConsultDamping(s, Key(job), lag)
    case Mark(w, slip) =>
      if w != Prepared && job.tx !in s.wal then s
      else if ok || slip == Unsynced then s.(wal := s.wal[job.tx := w])
      else if slip == Tears then s.(wal := s.wal - {job.tx}) else s
    case Strand => s.(wal := s.wal[job.tx := Prepared])
    case Note(at) =>
      s.(damping := D.Put(s.damping, Key(job), D.Recorded(D.SlotOf(s.damping, Key(job)), at)),
         records := s.records + [Execution(Key(job), at)])
    case _ => s
  }

  function With(s: System, i: nat, r: Run): System
    requires i < |s.runs|
  {
    s.(runs := s.runs[i := r])
  }

  function GoStep(s: System, i: nat, c: Choice): System
    requires i < |s.runs|
  {
    var r := s.runs[i];
    var (pc, x) := Next(s, r.job, r.pc, c);
    With(Apply(s, i, r.job, x, c.ok, r.work.held), i, Perform(r, pc, x, c.ok))
  }

  /** The death of a run frees its advisory lock. */
  function CrashStep(s: System, i: nat): System
    requires i < |s.runs|
  {
    var r := s.runs[i];
    With(Apply(s, i, r.job, Drop, true, r.work.held), i, Perform(r, Crashed, Drop, true))
  }

  /** A label that does not apply changes nothing. */
  function Step(s: System, l: Label): System {
    match l
    case Spawn(job) => s.(runs := s.runs + [NewRun(job)])
    case Go(i, c) => if i < |s.runs| && !Ended(s.runs[i].pc) then GoStep(s, i, c) else s
    case Crash(i) => if i < |s.runs| && !Ended(s.runs[i].pc) then CrashStep(s, i) else s
    case Tick(d) => s.(clock := s.clock + d)
    case TripKey(key, duration) =>
      s.(damping := D.Put(s.damping, key, D.Manual(D.SlotOf(s.damping, key), s.clock, duration)))
  }

  function Boot(clock: int): System {
    System([], map[], [], map[], map[], [], clock)
  }

  /** The system after an interleaving. */
  function Exec(start: System, labels: seq<Label>): System {
    if labels == [] then start
    else Step(Exec(start, labels[..|labels| - 1]), labels[|labels| - 1])
  }
}
