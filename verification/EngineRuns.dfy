/**
  What holds of a single `Remediate` run, in every interleaving and whatever the world answers:
  what it has told its state machine and the ledger (`BookOk`), and what it has evaluated,
  dispatched and journalled (`WorkOk`).
 */
module EngineRuns {
  import opened Wrappers
  import opened Fsm
  import opened Wal
  import opened Engine

  // ----- what a run has told its state machine and the ledger -------------------------------------------------

  /** The FSM state of a run that leaves for reason `e` and has logged `k` states on the way. */
  function LeavingAt(e: Exit, k: nat): State {
    match e
    case Malformed => Escalated
    case Unmatched => if k == 0 then Detected else Escalated
    case StageFailed => PrecheckPassed
    case Done => Committed
    case RollbackFailed => if k == 0 then RollingBack else Escalated
    case RolledBackCleanly => if k == 0 then RollingBack else if k == 1 then RolledBack else Escalated
    case _ => if k == 0 then Evaluating else if k == 1 then PrecheckFailed else Escalated
  }

  /** The FSM state at each point of the program. */
  function At(pc: Pc): State {
    match pc
    case Start => Detected
    case Resolving => Detected
    case Locking => Evaluating
    case Gating => Evaluating
    case Prechecking(_) => Evaluating
    case Staging => PrecheckPassed
    case Launching => PrecheckPassed
    case Promoting => PostcheckPassed
    case Committing => Committed
    case Sealing => Committed
    case Clocking => Committed
    case Recording(_) => Committed
    case Unwinding => PostcheckFailed
    case MarkingRollback => RollingBack
    case Undoing(_) => RollingBack
    case MarkingFailed => RollingBack
    case MarkingRolledBack => RollingBack
    case Exiting(e, k) => LeavingAt(e, k)
    case Returned(e) => LeavingAt(e, Farewells(e))
    case _ => Executing
  }

  /** The run is at the end of the happy path. */
  predicate AtDone(pc: Pc) {
    (pc.Exiting? || pc.Returned?) && pc.why == Done
  }

  /** How often POSTCHECK_PASSED has been appended at each point, if no append was lost. */
  function PassesAt(pc: Pc): nat {
    if (Concluding(pc) && !pc.Passing?) || AtDone(pc) then 1 else 0
  }

  /** How often COMMITTED has been appended at each point, if no append was lost. */
  function SealsAt(pc: Pc): nat {
    if pc.Clocking? || pc.Recording? || AtDone(pc) then 1 else 0
  }

  /** How the ledger entries of a run relate to its FSM history. */
  datatype Mode =
    | Fresh    // nothing appended, the FSM in its initial state
    | Even     // the same states
    | Behind   // the FSM is COMMITTED, the ledger not yet
    | Ahead    // the ledger says ESCALATED, which the FSM refused
    | Silent   // nothing appended at all

  predicate InMode(m: Mode, fsm: seq<State>, logged: seq<State>) {
    match m
    case Fresh => logged == [] && fsm == [Detected]
    case Even => logged == fsm
    case Behind => logged + [Committed] == fsm
    case Ahead => logged == fsm + [Escalated]
    case Silent => logged == []
  }

  function LeavingMode(e: Exit, k: nat): Mode {
    if e == Malformed then Silent else if e == StageFailed && k > 0 then Ahead else Even
  }

  /** The relation at each point of the program, if no append was lost. */
  function ModeAt(pc: Pc): Mode {
    match pc
    case Start => Fresh
    case Committing => Behind
    case Sealing => Behind
    case Exiting(e, k) => LeavingMode(e, k)
    case Returned(e) => LeavingMode(e, Farewells(e))
    case _ => Even
  }

  /** A path of the table from DETECTED to `s`. */
  predicate PathTo(fsm: seq<State>, s: State) {
    fsm != [] && fsm[0] == Detected && fsm[|fsm| - 1] == s && IsPath(fsm)
  }

  predicate BookOk(pc: Pc, b: Book) {
    && (pc.Exiting? ==> pc.k <= Farewells(pc.why))
    && (!pc.Crashed? ==>
        && PathTo(b.fsm, At(pc))
        && (!b.lost ==> InMode(ModeAt(pc), b.fsm, b.logged) && b.passes == PassesAt(pc) && b.seals == SealsAt(pc)))
  }

  /** Instruction `x` takes FSM state `s` to `t`; the table refuses illegal targets. */
  predicate FsmMove(s: State, x: Instr, t: State) {
    t == if (x.Transit? || x.Log?) && CanTransition(s, x.st) then x.st else s
  }

  /** Instruction `x`, from FSM state `s`, takes one mode to another. */
  predicate ModeMove(m: Mode, s: State, x: Instr, n: Mode) {
    if x.Seal? then (m == Fresh && x.st == Detected && n == Even) || (m == Behind && x.st == Committed && n == Even)
    else if x.Transit? then
      CanTransition(s, x.st) && ((m == Even && x.st == Committed && n == Behind) || (m == Fresh && n == Silent))
    else if x.Log? then
      m == Even && if CanTransition(s, x.st) then n == Even else x.st == Escalated && n == Ahead
    else m == n
  }

  predicate CountMove(p: Pc, x: Instr, q: Pc) {
    && PassesAt(q) == PassesAt(p) + (if Appends(x, true) && x.st == PostcheckPassed then 1 else 0)
    && SealsAt(q) == SealsAt(p) + (if Appends(x, true) && x.st == Committed then 1 else 0)
  }

  /** The move from `p` to `q` by `x` fits the tables above. */
  predicate BookMove(p: Pc, x: Instr, q: Pc) {
    && !q.Crashed? && (q.Exiting? ==> q.k <= Farewells(q.why))
    && FsmMove(At(p), x, At(q))
    && ModeMove(ModeAt(p), At(p), x, ModeAt(q))
    && CountMove(p, x, q)
  }

  lemma EntryFits(s: System, job: Job, pc: Pc, c: Choice)
    requires Entering(pc)
    ensures var (q, x) := NextIn(s, job, pc, c); BookMove(pc, x, q)
  {
    var (q, x) := NextIn(s, job, pc, c);
    assert FsmMove(At(pc), x, At(q));
    assert ModeMove(ModeAt(pc), At(pc), x, ModeAt(q));
    assert CountMove(pc, x, q);
  }

  lemma WorkFits(rb: Runbook, pc: Pc, c: Choice)
    requires Working(pc)
    ensures var (q, x) := NextWork(rb, pc, c); BookMove(pc, x, q)
  {
    var (q, x) := NextWork(rb, pc, c);
    assert FsmMove(At(pc), x, At(q));
    assert ModeMove(ModeAt(pc), At(pc), x, ModeAt(q));
    assert CountMove(pc, x, q);
  }

  lemma CommitFits(s: System, pc: Pc, c: Choice)
    requires Concluding(pc)
    ensures var (q, x) := NextCommit(s, pc, c); BookMove(pc, x, q)
  {
    var (q, x) := NextCommit(s, pc, c);
    assert FsmMove(At(pc), x, At(q));
    assert ModeMove(ModeAt(pc), At(pc), x, ModeAt(q));
    assert CountMove(pc, x, q);
  }

  lemma UndoFits(rb: Runbook, pc: Pc, c: Choice)
    requires Recovering(pc)
    ensures var (q, x) := NextUndo(rb, pc, c); BookMove(pc, x, q)
  {
    var (q, x) := NextUndo(rb, pc, c);
    assert FsmMove(At(pc), x, At(q));
    assert ModeMove(ModeAt(pc), At(pc), x, ModeAt(q));
    assert CountMove(pc, x, q);
  }

  /** Leaving states are legal, except ESCALATED after a failed staging, which the table refuses. */
  lemma ExitFits(pc: Pc)
    requires pc.Exiting? && pc.k <= Farewells(pc.why)
    ensures var (q, x) := NextOut(pc); BookMove(pc, x, q)
  {}

  lemma EveryMoveFits(s: System, job: Job, pc: Pc, c: Choice)
    requires !Ended(pc) && (pc.Exiting? ==> pc.k <= Farewells(pc.why))
    requires Entering(pc) || pc.Exiting? || job.runbook.Some?
    ensures var (q, x) := Next(s, job, pc, c); BookMove(pc, x, q)
  {
    if Entering(pc) {
      EntryFits(s, job, pc, c);
    } else if Concluding(pc) {
      CommitFits(s, pc, c);
    } else if pc.Exiting? {
      ExitFits(pc);
    } else if Working(pc) {
      WorkFits(job.runbook.value, pc, c);
    } else {
      UndoFits(job.runbook.value, pc, c);
    }
  }

  lemma PathAfter(fsm: seq<State>, s: State, x: Instr, t: State)
    requires PathTo(fsm, s) && FsmMove(s, x, t)
    ensures PathTo(FsmAfter(fsm, x), t)
    ensures FsmAfter(fsm, x) == if (x.Transit? || x.Log?) && CanTransition(s, x.st) then fsm + [x.st] else fsm
  {
    if (x.Transit? || x.Log?) && CanTransition(s, x.st) {
      PathGrows(fsm, x.st);
    }
  }

  lemma ModeAfter(m: Mode, fsm: seq<State>, logged: seq<State>, s: State, x: Instr, n: Mode)
    requires PathTo(fsm, s) && InMode(m, fsm, logged) && ModeMove(m, s, x, n)
    ensures InMode(n, FsmAfter(fsm, x), if Appends(x, true) then logged + [x.st] else logged)
  {}

  lemma BookStaysOk(p: Pc, b: Book, x: Instr, q: Pc, ok: bool)
    requires !p.Crashed? && BookOk(p, b) && BookMove(p, x, q)
    ensures BookOk(q, Booked(b, x, ok))
  {
    PathAfter(b.fsm, At(p), x, At(q));
    if !b.lost && (ok || !Appends(x, true)) {
      ModeAfter(ModeAt(p), b.fsm, b.logged, At(p), x, ModeAt(q));
    }
  }

  // ----- the states a run has gone through ---------------------------------------------------------------------

  /** What the FSM of a run that leaves for reason `e` has gone through when it has logged `k` states on the way. */
  function LeavingTrail(e: Exit, k: nat): seq<State> {
    match e
    case Malformed => [Detected, Escalated]
    case Unmatched => if k == 0 then [Detected] else [Detected, Escalated]
    case StageFailed => [Detected, Evaluating, PrecheckPassed]
    case Done => [Detected, Evaluating, PrecheckPassed, Executing, PostcheckPassed, Committed]
    case RollbackFailed =>
      [Detected, Evaluating, PrecheckPassed, Executing, PostcheckFailed, RollingBack] +
      (if k == 0 then [] else [Escalated])
    case RolledBackCleanly =>
      [Detected, Evaluating, PrecheckPassed, Executing, PostcheckFailed, RollingBack] +
      (if k == 0 then [] else if k == 1 then [RolledBack] else [RolledBack, Escalated])
    case _ =>
      [Detected, Evaluating] + (if k == 0 then [] else if k == 1 then [PrecheckFailed] else [PrecheckFailed, Escalated])
  }

  /** What the FSM has gone through at each point of the program. */
  function Trail(pc: Pc): seq<State> {
    match pc
    case Exiting(e, k) => LeavingTrail(e, k)
    case Returned(e) => LeavingTrail(e, Farewells(e))
    case _ =>
      if pc.Start? || pc.Resolving? then [Detected]
      else if pc.Locking? || pc.Gating? || pc.Prechecking? then [Detected, Evaluating]
      else if pc.Staging? || pc.Launching? then [Detected, Evaluating, PrecheckPassed]
      else if pc.Promoting? then [Detected, Evaluating, PrecheckPassed, Executing, PostcheckPassed]
      else if Concluding(pc) && !pc.Passing? then COMMIT_PATH
      else if pc.Unwinding? then [Detected, Evaluating, PrecheckPassed, Executing, PostcheckFailed]
      else if Recovering(pc) && !pc.Failing? then
        [Detected, Evaluating, PrecheckPassed, Executing, PostcheckFailed, RollingBack]
      else [Detected, Evaluating, PrecheckPassed, Executing]
  }

  predicate TrailOk(pc: Pc, b: Book) {
    !pc.Crashed? ==> b.fsm == Trail(pc)
  }

  predicate TrailMove(p: Pc, x: Instr, q: Pc) {
    Trail(q) == FsmAfter(Trail(p), x)
  }

  lemma EntryTrails(s: System, job: Job, pc: Pc, c: Choice)
    requires Entering(pc)
    ensures var (q, x) := NextIn(s, job, pc, c); TrailMove(pc, x, q)
  {}

  lemma WorkTrails(rb: Runbook, pc: Pc, c: Choice)
    requires Working(pc)
    ensures var (q, x) := NextWork(rb, pc, c); TrailMove(pc, x, q)
  {}

  lemma CommitTrails(s: System, pc: Pc, c: Choice)
    requires Concluding(pc)
    ensures var (q, x) := NextCommit(s, pc, c); TrailMove(pc, x, q)
  {}

  lemma UndoTrails(rb: Runbook, pc: Pc, c: Choice)
    requires Recovering(pc)
    ensures var (q, x) := NextUndo(rb, pc, c); TrailMove(pc, x, q)
  {}

  lemma ExitTrails(pc: Pc)
    requires pc.Exiting? && pc.k <= Farewells(pc.why)
    ensures var (q, x) := NextOut(pc); TrailMove(pc, x, q)
  {}

  lemma EveryMoveTrails(s: System, job: Job, pc: Pc, c: Choice)
    requires !Ended(pc) && (pc.Exiting? ==> pc.k <= Farewells(pc.why))
    requires Entering(pc) || pc.Exiting? || job.runbook.Some?
    ensures var (q, x) := Next(s, job, pc, c); TrailMove(pc, x, q)
  {
    if Entering(pc) {
      EntryTrails(s, job, pc, c);
    } else if Concluding(pc) {
      CommitTrails(s, pc, c);
    } else if pc.Exiting? {
      ExitTrails(pc);
    } else if Working(pc) {
      WorkTrails(job.runbook.value, pc, c);
    } else {
      UndoTrails(job.runbook.value, pc, c);
    }
  }

  lemma TrailStaysOk(p: Pc, b: Book, x: Instr, q: Pc, ok: bool)
    requires TrailOk(p, b) && !p.Crashed? && TrailMove(p, x, q)
    ensures TrailOk(q, Booked(b, x, ok))
  {}

  // ----- what a run holds and has journalled ------------------------------------------------------------------

  predicate LeavesUnlocked(e: Exit) {
    e == Malformed || e == Unmatched || e == LockBusy
  }

  predicate LeavesAdmitted(e: Exit) {
    !LeavesUnlocked(e) && e != Damped
  }

  /** The lock is held from its acquisition to the return. */
  predicate HeldAt(pc: Pc) {
    || pc.Gating? || Working(pc) || Concluding(pc) || Recovering(pc)
    || (pc.Exiting? && !LeavesUnlocked(pc.why))
  }

  /** Damping has been consulted. */
  predicate AskedAt(pc: Pc) {
    || Working(pc) || Concluding(pc) || Recovering(pc)
    || ((pc.Exiting? || pc.Returned?) && !LeavesUnlocked(pc.why))
  }

  predicate AdmittedAt(pc: Pc) {
    || Working(pc) || Concluding(pc) || Recovering(pc)
    || ((pc.Exiting? || pc.Returned?) && LeavesAdmitted(pc.why))
  }

  function LeavingWal(e: Exit): Option<WalState> {
    match e
    case Done => Some(WalCommitted)
    case RollbackFailed => Some(WalFailed)
    case RolledBackCleanly => Some(WalRolledBack)
    case _ => None
  }

  /** The WAL state at each point of the program, if no update was lost. */
  function WalAt(pc: Pc): Option<WalState> {
    match pc
    case Launching => Some(Prepared)
    case Acting(_) => Some(Prepared)
    case Postchecking(_) => Some(Prepared)
    case Passing => Some(Prepared)
    case Promoting => Some(Prepared)
    case Committing => Some(Prepared)
    case Failing => Some(Prepared)
    case Unwinding => Some(Prepared)
    case MarkingRollback => Some(Prepared)
    case Sealing => Some(WalCommitted)
    case Clocking => Some(WalCommitted)
    case Recording(_) => Some(WalCommitted)
    case Undoing(_) => Some(WalRollingBack)
    case MarkingFailed => Some(WalRollingBack)
    case MarkingRolledBack => Some(WalRollingBack)
    case Exiting(e, _) => LeavingWal(e)
    case Returned(e) => LeavingWal(e)
    case _ => None
  }

  /** The run is leaving, or has left, over its staging. */
  predicate StageFailing(pc: Pc) {
    (pc.Exiting? || pc.Returned?) && pc.why == StageFailed
  }

  /** A failed update leaves an older state or a torn record, but never while actions run. */
  predicate WalOk(pc: Pc, w: Work) {
    && (w.wal.Some? <==> WalAt(pc).Some?)
    && (!w.lost ==> w.wal == WalAt(pc))
    && (WalAt(pc) == Some(Prepared) ==> w.wal == Some(Prepared))
    && (w.wal == Some(WalCommitted) ==> WalAt(pc) == Some(WalCommitted))
    && (w.torn ==> w.lost && w.wal.Some? && WalAt(pc) != Some(Prepared))
    && (w.stranded ==> w.wal.None? && StageFailing(pc))
  }

  predicate FlagsOk(pc: Pc, w: Work) {
    w.held == HeldAt(pc) &&
    (pc.Crashed? ||
     (w.asked == AskedAt(pc) && w.admitted == AdmittedAt(pc) && w.recorded == AtDone(pc) && WalOk(pc, w)))
  }

  predicate FlagMove(p: Pc, x: Instr, q: Pc) {
    && HeldAt(q) == (x.Grab? || (HeldAt(p) && !x.Drop?))
    && AskedAt(q) == (x.Ask? || x.Admit? || AskedAt(p))
    && AdmittedAt(q) == (x.Admit? || AdmittedAt(p))
    && AtDone(q) == (x.Note? || AtDone(p))
  }

  predicate WalMove(p: Pc, x: Instr, q: Pc, ok: bool) {
    && (StageFailing(p) ==> StageFailing(q) && !x.Mark? && !x.Strand?)
    && (x.Strand? ==> WalAt(p) == None && StageFailing(q))
    && MarkMove(p, x, q, ok)
  }

  predicate MarkMove(p: Pc, x: Instr, q: Pc, ok: bool) {
    if x.Mark? then
      && WalAt(q) == Some(x.w) && WalAt(p) != Some(WalCommitted)
      && (if x.w == Prepared then ok && WalAt(p) == None else WalAt(p).Some?)
    else WalAt(q) == WalAt(p)
  }

  lemma FlagsStayOk(p: Pc, w: Work, x: Instr, q: Pc, ok: bool)
    requires FlagsOk(p, w) && !p.Crashed? && !q.Crashed? && FlagMove(p, x, q) && WalMove(p, x, q, ok)
    ensures FlagsOk(q, Worked(w, x, ok))
  {
    WorkedFlags(w, x, ok);
    WalStaysOk(p, w, x, q, ok);
  }

  lemma WorkedFlags(w: Work, x: Instr, ok: bool)
    ensures var v := Worked(w, x, ok);
      && v.held == (x.Grab? || (w.held && !x.Drop?))
      && v.asked == (x.Ask? || x.Admit? || w.asked)
      && v.admitted == (x.Admit? || w.admitted)
      && v.recorded == (x.Note? || w.recorded)
  {}

  lemma WalStaysOk(p: Pc, w: Work, x: Instr, q: Pc, ok: bool)
    requires WalOk(p, w) && WalMove(p, x, q, ok)
    ensures WalOk(q, Worked(w, x, ok))
  {}

  // ----- what a run has evaluated and dispatched ----------------------------------------------------------------

  /** Items 0 to n-1, each once, in order, all successful. */
  function AllOk(n: nat): seq<Outcome> {
    seq(n, (i: nat) => Outcome(i, true))
  }

  /** Items n-1 down to k, each once, all successful. */
  function Countdown(n: nat, k: nat): seq<Outcome>
    requires k <= n
  {
    seq(n - k, i requires 0 <= i < n - k => Outcome(n - 1 - i, true))
  }

  /** A run through a list from 0 on that stops at its only failure. */
  predicate Stopped(xs: seq<Outcome>, n: nat) {
    0 < |xs| <= n && xs == AllOk(|xs| - 1) + [Outcome(|xs| - 1, false)]
  }

  /** A run through a list from its end on that stops at its only failure. */
  predicate UndoStopped(xs: seq<Outcome>, n: nat) {
    0 < |xs| <= n && xs == Countdown(n, n - |xs| + 1) + [Outcome(n - |xs|, false)]
  }

  lemma AllOkGrows(n: nat, k: nat)
    ensures AllOk(0) == [] && AllOk(k) + [Outcome(k, true)] == AllOk(k + 1)
    ensures k < n ==> Stopped(AllOk(k) + [Outcome(k, false)], n)
  {}

  lemma CountdownGrows(n: nat, k: nat)
    requires 0 < k <= n
    ensures Countdown(n, k) + [Outcome(k - 1, true)] == Countdown(n, k - 1)
    ensures UndoStopped(Countdown(n, k) + [Outcome(k - 1, false)], n)
  {}

  /** How far a run has got through a list of conditions, actions or steps. */
  datatype Progress = UpTo(k: nat) | Full | Broken

  predicate ListOk(p: Progress, n: nat, xs: seq<Outcome>) {
    match p
    case UpTo(k) => k <= n && xs == AllOk(k)
    case Full => xs == AllOk(n)
    case Broken => Stopped(xs, n)
  }

  /** How far actions and postconditions have got; in a fault the list that broke is not recorded here. */
  datatype Stage = Before | Doing(k: nat) | Testing(k: nat) | Proven | Fault

  /** An action failed, or all succeeded and a postcondition failed. */
  predicate Faulted(rb: Runbook, acts: seq<Outcome>, posts: seq<Outcome>) {
    || (ListOk(Broken, rb.acts, acts) && ListOk(UpTo(0), rb.posts, posts))
    || (ListOk(Full, rb.acts, acts) && ListOk(Broken, rb.posts, posts))
  }

  predicate StageOk(g: Stage, rb: Runbook, acts: seq<Outcome>, posts: seq<Outcome>) {
    match g
    case Before => acts == [] && posts == []
    case Doing(k) => ListOk(UpTo(k), rb.acts, acts) && ListOk(UpTo(0), rb.posts, posts)
    case Testing(k) => ListOk(Full, rb.acts, acts) && ListOk(UpTo(k), rb.posts, posts)
    case Proven => ListOk(Full, rb.acts, acts) && ListOk(Full, rb.posts, posts)
    case Fault => Faulted(rb, acts, posts)
  }

  function PresAt(pc: Pc): Progress {
    if !AdmittedAt(pc) then UpTo(0)
    else if pc.Prechecking? then UpTo(pc.k)
    else if (pc.Exiting? || pc.Returned?) && pc.why == PreconditionFalse then Broken
    else Full
  }

  function StageAt(pc: Pc): Stage {
    if WalAt(pc) == None || pc.Launching? then Before
    else if pc.Acting? then Doing(pc.k)
    else if pc.Postchecking? then Testing(pc.k)
    else if Concluding(pc) || AtDone(pc) then Proven
    else Fault
  }

  /** Compensating steps replayed so far: none, all from the last one down to `k`, or up to a failure. */
  datatype Replay = Never | DownTo(k: nat) | Halted

  predicate ReplayOk(y: Replay, n: nat, undos: seq<Outcome>) {
    match y
    case Never => undos == []
    case DownTo(k) => k <= n && undos == Countdown(n, k)
    case Halted => UndoStopped(undos, n)
  }

  function ReplayAt(pc: Pc): Replay {
    match pc
    case Undoing(k) => DownTo(k)
    case MarkingFailed => Halted
    case MarkingRolledBack => DownTo(0)
    case Exiting(e, _) => if e == RollbackFailed then Halted else if e == RolledBackCleanly then DownTo(0) else Never
    case Returned(e) => if e == RollbackFailed then Halted else if e == RolledBackCleanly then DownTo(0) else Never
    case _ => Never
  }

  function Plan(job: Job): Runbook {
    if job.runbook.Some? then job.runbook.value else Runbook("", "", 0, 0, 0, 0)
  }

  predicate ListsOk(pc: Pc, rb: Runbook, w: Work) {
    && ListOk(PresAt(pc), rb.pres, w.pres)
    && StageOk(StageAt(pc), rb, w.acts, w.posts)
    && ReplayOk(ReplayAt(pc), rb.steps, w.undos)
  }

  predicate PresMove(p: Progress, x: Instr, q: Progress, ok: bool, n: nat) {
    if x.Pre? then p == UpTo(x.k) && x.k < n && q == if ok then UpTo(x.k + 1) else Broken
    else q == p || (p.UpTo? && p.k >= n && q == Full)
  }

  predicate StageMove(p: Stage, x: Instr, q: Stage, ok: bool, rb: Runbook) {
    if x.Do? then p == Doing(x.k) && x.k < rb.acts && q == if ok then Doing(x.k + 1) else Fault
    else if x.Post? then p == Testing(x.k) && x.k < rb.posts && q == if ok then Testing(x.k + 1) else Fault
    else || q == p || (p == Before && q == Doing(0))
         || (p.Doing? && p.k >= rb.acts && q == Testing(0)) || (p.Testing? && p.k >= rb.posts && q == Proven)
  }

  predicate ReplayMove(p: Replay, x: Instr, q: Replay, ok: bool, n: nat) {
    if x.Undo? then p == DownTo(x.k + 1) && q == if ok then DownTo(x.k) else Halted
    else q == p || (p == Never && q == DownTo(n))
  }

  /** What every move keeps of a run's work. */
  predicate WorkMove(p: Pc, x: Instr, q: Pc, ok: bool, rb: Runbook) {
    && !q.Crashed? && FlagMove(p, x, q) && WalMove(p, x, q, ok)
    && PresMove(PresAt(p), x, PresAt(q), ok, rb.pres)
    && StageMove(StageAt(p), x, StageAt(q), ok, rb)
    && ReplayMove(ReplayAt(p), x, ReplayAt(q), ok, rb.steps)
  }

  lemma EntryKeepsFlags(s: System, job: Job, pc: Pc, c: Choice)
    requires Entering(pc)
    ensures var (q, x) := NextIn(s, job, pc, c); FlagMove(pc, x, q)
  {}

  lemma EntryKeeps(s: System, job: Job, pc: Pc, c: Choice)
    requires Entering(pc)
    ensures var (q, x) := NextIn(s, job, pc, c); WorkMove(pc, x, q, c.ok, Plan(job))
  {
    var (q, x) := NextIn(s, job, pc, c);
    EntryKeepsFlags(s, job, pc, c);
    assert WalMove(pc, x, q, c.ok);
    assert PresMove(PresAt(pc), x, PresAt(q), c.ok, Plan(job).pres);
    assert StageMove(StageAt(pc), x, StageAt(q), c.ok, Plan(job));
  }

  lemma ProgressKeeps(rb: Runbook, pc: Pc, c: Choice)
    requires Working(pc)
    ensures var (q, x) := NextWork(rb, pc, c); WorkMove(pc, x, q, c.ok, rb)
  {
    var (q, x) := NextWork(rb, pc, c);
    assert FlagMove(pc, x, q);
    assert WalMove(pc, x, q, c.ok);
    assert PresMove(PresAt(pc), x, PresAt(q), c.ok, rb.pres);
    assert StageMove(StageAt(pc), x, StageAt(q), c.ok, rb);
  }

  lemma CommitKeeps(s: System, rb: Runbook, pc: Pc, c: Choice)
    requires Concluding(pc)
    ensures var (q, x) := NextCommit(s, pc, c); WorkMove(pc, x, q, c.ok, rb)
  {
    var (q, x) := NextCommit(s, pc, c);
    assert FlagMove(pc, x, q);
    assert WalMove(pc, x, q, c.ok);
    assert PresMove(PresAt(pc), x, PresAt(q), c.ok, rb.pres);
    assert StageMove(StageAt(pc), x, StageAt(q), c.ok, rb);
  }

  lemma UndoKeeps(rb: Runbook, pc: Pc, c: Choice)
    requires Recovering(pc)
    ensures var (q, x) := NextUndo(rb, pc, c); WorkMove(pc, x, q, c.ok, rb)
  {
    var (q, x) := NextUndo(rb, pc, c);
    assert FlagMove(pc, x, q);
    assert WalMove(pc, x, q, c.ok);
    assert PresMove(PresAt(pc), x, PresAt(q), c.ok, rb.pres);
    assert StageMove(StageAt(pc), x, StageAt(q), c.ok, rb);
  }

  lemma ExitKeeps(rb: Runbook, pc: Pc, c: Choice)
    requires pc.Exiting?
    ensures var (q, x) := NextOut(pc); WorkMove(pc, x, q, c.ok, rb)
  {
    var (q, x) := NextOut(pc);
    assert FlagMove(pc, x, q);
    assert WalMove(pc, x, q, c.ok);
    assert PresMove(PresAt(pc), x, PresAt(q), c.ok, rb.pres);
    assert StageMove(StageAt(pc), x, StageAt(q), c.ok, rb);
  }

  lemma EveryMoveKeepsWork(s: System, job: Job, pc: Pc, c: Choice)
    requires !Ended(pc) && (Entering(pc) || pc.Exiting? || job.runbook.Some?)
    ensures var (q, x) := Next(s, job, pc, c); WorkMove(pc, x, q, c.ok, Plan(job))
  {
    if Entering(pc) {
      EntryKeeps(s, job, pc, c);
    } else if Concluding(pc) {
      CommitKeeps(s, Plan(job), pc, c);
    } else if pc.Exiting? {
      ExitKeeps(Plan(job), pc, c);
    } else if Working(pc) {
      ProgressKeeps(job.runbook.value, pc, c);
    } else {
      UndoKeeps(job.runbook.value, pc, c);
    }
  }

  lemma PresStayOk(p: Progress, x: Instr, q: Progress, n: nat, w: Work, ok: bool)
    requires ListOk(p, n, w.pres) && PresMove(p, x, q, ok, n)
    ensures ListOk(q, n, Worked(w, x, ok).pres)
  {
    if x.Pre? {
      AllOkGrows(n, x.k);
    }
  }

  lemma WorkedLists(w: Work, x: Instr, ok: bool)
    ensures var v := Worked(w, x, ok);
      && v.acts == (if x.Do? then w.acts + [Outcome(x.k, ok)] else w.acts)
      && v.posts == (if x.Post? then w.posts + [Outcome(x.k, ok)] else w.posts)
  {}

  lemma StageStaysOk(p: Stage, x: Instr, q: Stage, rb: Runbook, w: Work, ok: bool)
    requires StageOk(p, rb, w.acts, w.posts) && StageMove(p, x, q, ok, rb)
    ensures var v := Worked(w, x, ok); StageOk(q, rb, v.acts, v.posts)
  {
    WorkedLists(w, x, ok);
    var v := Worked(w, x, ok);
    StageGrows(p, x, q, rb, w.acts, w.posts, v.acts, v.posts, ok);
  }

  lemma StageGrows(p: Stage, x: Instr, q: Stage, rb: Runbook, acts: seq<Outcome>, posts: seq<Outcome>,
                   acts': seq<Outcome>, posts': seq<Outcome>, ok: bool)
    requires StageOk(p, rb, acts, posts) && StageMove(p, x, q, ok, rb)
    requires acts' == if x.Do? then acts + [Outcome(x.k, ok)] else acts
    requires posts' == if x.Post? then posts + [Outcome(x.k, ok)] else posts
    ensures StageOk(q, rb, acts', posts')
  {
    AllOkGrows(0, 0);
    if x.Do? {
      AllOkGrows(rb.acts, x.k);
    } else if x.Post? {
      AllOkGrows(rb.posts, x.k);
    }
  }

  lemma ReplayStaysOk(p: Replay, x: Instr, q: Replay, n: nat, w: Work, ok: bool)
    requires ReplayOk(p, n, w.undos) && ReplayMove(p, x, q, ok, n)
    ensures ReplayOk(q, n, Worked(w, x, ok).undos)
  {
    if x.Undo? {
      CountdownGrows(n, x.k + 1);
    }
  }

  // ----- the invariant of a run ------------------------------------------------------------------------------------

  /** Past the resolution there is a runbook, and past the start the alert is well formed. */
  predicate JobOk(job: Job, pc: Pc) {
    if pc.Start? then true
    else if pc.Resolving? then WellFormed(job.alert)
    else if pc.Exiting? || pc.Returned? then
      && (WellFormed(job.alert) <==> pc.why != Malformed)
      && (job.runbook.Some? || pc.why == Malformed || pc.why == Unmatched)
      && (pc.why == Unmatched ==> job.runbook.None?)
    else pc.Crashed? || (job.runbook.Some? && WellFormed(job.alert))
  }

  /** Writes to the stores that a run got through are ordered. */
  predicate Ordered(r: Run) {
    !r.book.lost && !r.work.lost ==>
      && !r.work.torn
      && (if r.work.recorded then 1 else 0) <= r.book.seals
      && r.book.seals <= (if r.work.wal == Some(WalCommitted) then 1 else 0) <= r.book.passes <= 1
  }

  /** Whatever was dispatched was dispatched with every guard passed and a WAL record staged. */
  predicate GuardedWork(job: Job, w: Work) {
    && (w.acts != [] ==> w.admitted && job.runbook.Some? && w.pres == AllOk(job.runbook.value.pres) && w.wal.Some?)
    && (w.stranded ==> w.wal.None?)
  }

  predicate RunOk(r: Run) {
    && JobOk(r.job, r.pc) && BookOk(r.pc, r.book) && TrailOk(r.pc, r.book) && FlagsOk(r.pc, r.work)
    && (!r.pc.Crashed? ==> ListsOk(r.pc, Plan(r.job), r.work))
    && Ordered(r) && GuardedWork(r.job, r.work)
  }

  lemma JobStaysOk(s: System, job: Job, pc: Pc, c: Choice)
    requires !Ended(pc) && JobOk(job, pc)
    ensures JobOk(job, Next(s, job, pc, c).0)
  {}

  lemma OrderFollows(r: Run)
    requires !r.pc.Crashed? && BookOk(r.pc, r.book) && FlagsOk(r.pc, r.work)
    ensures Ordered(r)
  {}

  lemma GuardFollows(r: Run)
    requires !r.pc.Crashed? && JobOk(r.job, r.pc) && FlagsOk(r.pc, r.work) && ListsOk(r.pc, Plan(r.job), r.work)
    ensures GuardedWork(r.job, r.work)
  {}

  lemma ListsStayOk(s: System, r: Run, c: Choice)
    requires !Ended(r.pc) && JobOk(r.job, r.pc) && ListsOk(r.pc, Plan(r.job), r.work)
    ensures var (q, x) := Next(s, r.job, r.pc, c); ListsOk(q, Plan(r.job), Worked(r.work, x, c.ok))
  {
    var (q, x) := Next(s, r.job, r.pc, c);
    EveryMoveKeepsWork(s, r.job, r.pc, c);
    PresStayOk(PresAt(r.pc), x, PresAt(q), Plan(r.job).pres, r.work, c.ok);
    StageStaysOk(StageAt(r.pc), x, StageAt(q), Plan(r.job), r.work, c.ok);
    ReplayStaysOk(ReplayAt(r.pc), x, ReplayAt(q), Plan(r.job).steps, r.work, c.ok);
  }

  lemma NewRunIsOk(job: Job)
    ensures RunOk(NewRun(job))
  {
    AllOkGrows(0, 0);
  }

  lemma CrashedRunIsOk(r: Run)
    requires RunOk(r) && !Ended(r.pc)
    ensures RunOk(Perform(r, Crashed, Drop, true))
  {}

  /** Every step of a run keeps its invariant. */
  lemma StepKeepsRunOk(s: System, r: Run, c: Choice)
    requires RunOk(r) && !Ended(r.pc)
    ensures var (q, x) := Next(s, r.job, r.pc, c); RunOk(Perform(r, q, x, c.ok))
  {
    var (q, x) := Next(s, r.job, r.pc, c);
    JobStaysOk(s, r.job, r.pc, c);
    EveryMoveFits(s, r.job, r.pc, c);
    BookStaysOk(r.pc, r.book, x, q, c.ok);
    EveryMoveTrails(s, r.job, r.pc, c);
    TrailStaysOk(r.pc, r.book, x, q, c.ok);
    EveryMoveKeepsWork(s, r.job, r.pc, c);
    FlagsStayOk(r.pc, r.work, x, q, c.ok);
    ListsStayOk(s, r, c);
    OrderFollows(Perform(r, q, x, c.ok));
    GuardFollows(Perform(r, q, x, c.ok));
  }
}
