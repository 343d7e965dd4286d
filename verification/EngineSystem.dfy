/**
  What holds of the whole system in every interleaving: mutual exclusion, guarded actions,
  the order of the writes to the stores, and the visibility of crashed transactions.
 */
module EngineSystem {
  import opened Wrappers
  import opened Fsm
  import opened Engine
  import opened EngineRuns

  // ----- shape of a step ------------------------------------------------------------------------------

  lemma ConsultTouchesDamping(s: System, key: string, lag: nat)
    ensures var t := ConsultDamping(s, key, lag);
      t.runs == s.runs && t.locks == s.locks && t.wal == s.wal && t.ledger == s.ledger && t.records == s.records
  {}

  lemma ApplyTouchesOneStore(s: System, i: nat, job: Job, x: Instr, ok: bool, held: bool)
    ensures var t := Apply(s, i, job, x, ok, held);
      && (!x.Grab? && !x.Drop? ==> t.locks == s.locks)
      && (!x.Mark? && !x.Strand? ==> t.wal == s.wal)
      && (!x.Seal? && !x.Log? ==> t.ledger == s.ledger)
      && (!x.Note? ==> t.records == s.records)
      && (!x.Note? && !x.Ask? && !x.Admit? ==> t.damping == s.damping && t.clock == s.clock)
  {
    if x.Ask? || x.Admit? {
      assert Apply(s, i, job, x, ok, held) == ConsultDamping(s, Key(job), x.lag);
      ConsultTouchesDamping(s, Key(job), x.lag);
    }
  }

  /** Label `l` moves run `i`. */
  predicate Moves(s: System, l: Label, i: nat) {
    (l.Go? || l.Crash?) && l.i == i < |s.runs| && !Ended(s.runs[i].pc)
  }

  /** The instruction by which `l` moves its run, and where to; a crash acts on the stores like an unlock. */
  function MoveOf(s: System, l: Label): (Pc, Instr)
    requires (l.Go? || l.Crash?) && l.i < |s.runs|
  {
    if l.Go? then Next(s, s.runs[l.i].job, s.runs[l.i].pc, l.c) else (Crashed, Drop)
  }

  predicate OkOf(l: Label) {
    l.Go? ==> l.c.ok
  }

  /** What run `i` becomes. */
  function Moved(s: System, l: Label, i: nat): Run
    requires i < |s.runs|
  {
    if Moves(s, l, i) then Perform(s.runs[i], MoveOf(s, l).0, MoveOf(s, l).1, OkOf(l)) else s.runs[i]
  }

  /** What the shared stores become. */
  function Stores(s: System, l: Label): System
    requires (l.Go? || l.Crash?) && l.i < |s.runs|
  {
    Apply(s, l.i, s.runs[l.i].job, MoveOf(s, l).1, OkOf(l), s.runs[l.i].work.held)
  }

  lemma StepIsMove(s: System, l: Label)
    requires l.Go? || l.Crash?
    ensures Step(s, l) == if Moves(s, l, l.i) then With(Stores(s, l), l.i, Moved(s, l, l.i)) else s
  {}

  lemma StepRuns(s: System, l: Label, i: nat)
    requires i < |Step(s, l).runs|
    ensures |s.runs| <= |Step(s, l).runs| <= |s.runs| + 1
    ensures i < |s.runs| ==> Step(s, l).runs[i] == Moved(s, l, i)
    ensures i >= |s.runs| ==> l.Spawn? && Step(s, l).runs[i] == NewRun(l.job)
  {
    if l.Go? || l.Crash? {
      StepIsMove(s, l);
      if l.i < |s.runs| {
        ApplyTouchesOneStore(s, l.i, s.runs[l.i].job, MoveOf(s, l).1, OkOf(l), s.runs[l.i].work.held);
      }
    }
  }

  lemma StepGrows(s: System, l: Label)
    ensures |s.runs| <= |Step(s, l).runs|
  {
    if l.Go? || l.Crash? {
      StepIsMove(s, l);
      if l.i < |s.runs| {
        ApplyTouchesOneStore(s, l.i, s.runs[l.i].job, MoveOf(s, l).1, OkOf(l), s.runs[l.i].work.held);
      }
    }
  }

  lemma MovedKeeps(s: System, l: Label, i: nat)
    requires i < |s.runs|
    ensures Moved(s, l, i).job == s.runs[i].job
    ensures s.runs[i].book.lost ==> Moved(s, l, i).book.lost
    ensures s.runs[i].work.lost ==> Moved(s, l, i).work.lost
  {
    if Moves(s, l, i) {
      PerformKeeps(s.runs[i], MoveOf(s, l).0, MoveOf(s, l).1, OkOf(l));
    }
  }

  lemma PerformKeeps(r: Run, pc: Pc, x: Instr, ok: bool)
    ensures var t := Perform(r, pc, x, ok);
      t.job == r.job && (r.book.lost ==> t.book.lost) && (r.work.lost ==> t.work.lost)
  {}

  lemma RunStaysOk(s: System, l: Label, i: nat)
    requires i < |s.runs| && RunOk(s.runs[i])
    ensures RunOk(Moved(s, l, i))
  {
    if Moves(s, l, i) {
      if l.Go? {
        StepKeepsRunOk(s, s.runs[i], l.c);
      } else {
        CrashedRunIsOk(s.runs[i]);
      }
    }
  }

  lemma {:induction false} ReachableRunOk(clock: int, labels: seq<Label>, i: nat)
    requires i < |Exec(Boot(clock), labels).runs|
    ensures RunOk(Exec(Boot(clock), labels).runs[i])
  {
    if labels != [] {
      var n := |labels| - 1;
      var s := Exec(Boot(clock), labels[..n]);
      StepRuns(s, labels[n], i);
      if i < |s.runs| {
        ReachableRunOk(clock, labels[..n], i);
        RunStaysOk(s, labels[n], i);
      } else {
        NewRunIsOk(labels[n].job);
      }
    }
  }

  lemma {:induction false} ExecConcat(s: System, a: seq<Label>, b: seq<Label>)
    ensures Exec(s, a + b) == Exec(Exec(s, a), b)
  {
    if b == [] {
      assert a + b == a;
    } else {
      assert (a + b)[..|a + b| - 1] == a + b[..|b| - 1];
      ExecConcat(s, a, b[..|b| - 1]);
    }
  }

  // ----- locks ---------------------------------------------------------------------------------------------

  predicate Holds(s: System, i: nat)
    requires i < |s.runs|
  {
    s.runs[i].work.held
  }

  /** The lock table says exactly which runs hold their lock. */
  predicate LocksOk(s: System) {
    && (forall i: nat :: i < |s.runs| && Holds(s, i) ==>
          s.runs[i].job.lockPath in s.locks && s.locks[s.runs[i].job.lockPath] == i)
    && (forall p :: p in s.locks ==>
          s.locks[p] < |s.runs| && Holds(s, s.locks[p]) && s.runs[s.locks[p]].job.lockPath == p)
  }

  lemma LocksAfter(s: System, i: nat, x: Instr, ok: bool, r: Run)
    requires LocksOk(s) && i < |s.runs| && r.job == s.runs[i].job
    requires r.work.held == (x.Grab? || (s.runs[i].work.held && !x.Drop?))
    requires x.Grab? ==> r.job.lockPath !in s.locks
    ensures LocksOk(With(Apply(s, i, r.job, x, ok, s.runs[i].work.held), i, r))
  {
    ApplyTouchesOneStore(s, i, r.job, x, ok, s.runs[i].work.held);
    var t := With(Apply(s, i, r.job, x, ok, s.runs[i].work.held), i, r);
    assert forall j: nat :: j < |s.runs| && j != i ==> Holds(t, j) == Holds(s, j);
  }

  /** A run takes its lock only when it is free. */
  lemma GrabNeedsFreeLock(s: System, job: Job, pc: Pc, c: Choice)
    ensures Next(s, job, pc, c).1.Grab? ==> job.lockPath !in s.locks
  {}

  lemma WorkedHolds(w: Work, x: Instr, ok: bool)
    ensures Worked(w, x, ok).held == (x.Grab? || (w.held && !x.Drop?))
  {}

  lemma LocksStayOk(s: System, l: Label)
    requires LocksOk(s)
    ensures LocksOk(Step(s, l))
  {
    if l.Go? || l.Crash? {
      StepIsMove(s, l);
      if Moves(s, l, l.i) {
        var r := s.runs[l.i];
        if l.Go? {
          GrabNeedsFreeLock(s, r.job, r.pc, l.c);
        }
        WorkedHolds(r.work, MoveOf(s, l).1, OkOf(l));
        LocksAfter(s, l.i, MoveOf(s, l).1, OkOf(l), Moved(s, l, l.i));
      }
    } else if l.Spawn? {
      var t := Step(s, l);
      assert forall j: nat :: j < |s.runs| ==> Holds(t, j) == Holds(s, j);
    } else {
      var t := Step(s, l);
      assert forall j: nat :: j < |s.runs| ==> Holds(t, j) == Holds(s, j);
    }
  }

  lemma {:induction false} ReachableLocksOk(clock: int, labels: seq<Label>)
    ensures LocksOk(Exec(Boot(clock), labels))
  {
    if labels != [] {
      var n := |labels| - 1;
      ReachableLocksOk(clock, labels[..n]);
      LocksStayOk(Exec(Boot(clock), labels[..n]), labels[n]);
    }
  }

  /** At most one run per lock path is ever between its lock and its return. */
  lemma MutualExclusion(clock: int, labels: seq<Label>, i: nat, j: nat)
    requires var s := Exec(Boot(clock), labels);
      && i < |s.runs| && j < |s.runs| && s.runs[i].job.lockPath == s.runs[j].job.lockPath
      && HeldAt(s.runs[i].pc) && HeldAt(s.runs[j].pc)
    ensures i == j
  {
    var s := Exec(Boot(clock), labels);
    ReachableLocksOk(clock, labels);
    ReachableRunOk(clock, labels, i);
    ReachableRunOk(clock, labels, j);
    assert Holds(s, i) && Holds(s, j);
  }

  /** Once every run has returned or died, every lock is free. */
  lemma LocksAreFreeInTheEnd(clock: int, labels: seq<Label>)
    requires var s := Exec(Boot(clock), labels); forall i :: 0 <= i < |s.runs| ==> Ended(s.runs[i].pc)
    ensures Exec(Boot(clock), labels).locks == map[]
  {
    var s := Exec(Boot(clock), labels);
    ReachableLocksOk(clock, labels);
    if s.locks != map[] {
      var p :| p in s.locks;
      assert Holds(s, s.locks[p]);
      ReachableRunOk(clock, labels, s.locks[p]);
      EndedHoldsNothing(s.runs[s.locks[p]]);
    }
  }

  lemma EndedHoldsNothing(r: Run)
    requires RunOk(r) && Ended(r.pc)
    ensures !r.work.held
  {}

  // ----- what a returned run has done --------------------------------------------------------------------------

  lemma StoppedIsNotAllOk(xs: seq<Outcome>, n: nat)
    requires Stopped(xs, n)
    ensures xs != AllOk(n)
  {
    assert !xs[|xs| - 1].ok;
    assert forall k :: 0 <= k < n ==> AllOk(n)[k].ok;
  }

  lemma SuccessOf(r: Run)
    requires RunOk(r) && r.pc.Returned?
    ensures FinalState(r.pc.why) == Committed <==>
      && r.work.wal.Some? && r.job.runbook.Some?
      && r.work.acts == AllOk(Plan(r.job).acts) && r.work.posts == AllOk(Plan(r.job).posts)
  {
    var rb := Plan(r.job);
    if Stopped(r.work.acts, rb.acts) {
      StoppedIsNotAllOk(r.work.acts, rb.acts);
    }
    if Stopped(r.work.posts, rb.posts) {
      StoppedIsNotAllOk(r.work.posts, rb.posts);
    }
  }

  /** The result is COMMITTED exactly when everything was staged and every action and postcondition succeeded. */
  lemma CommittedExactlyOnSuccess(clock: int, labels: seq<Label>, i: nat)
    requires var s := Exec(Boot(clock), labels); i < |s.runs| && s.runs[i].pc.Returned?
    ensures var r := Exec(Boot(clock), labels).runs[i];
      FinalState(r.pc.why) == Committed <==>
        && r.work.wal.Some? && r.job.runbook.Some?
        && r.work.acts == AllOk(Plan(r.job).acts) && r.work.posts == AllOk(Plan(r.job).posts)
  {
    ReachableRunOk(clock, labels, i);
    SuccessOf(Exec(Boot(clock), labels).runs[i]);
  }

  /** Nothing dispatched, or a fault and a replay of the compensating steps from the last one down. */
  predicate RolledBackProperly(r: Run)
    requires r.pc.Returned?
  {
    var rb := Plan(r.job);
    if r.work.wal.None? then r.work.acts == [] && r.work.posts == [] && r.work.undos == []
    else
      && Faulted(rb, r.work.acts, r.work.posts)
      && (|| (r.work.undos == Countdown(rb.steps, 0) && FinalState(r.pc.why) == RolledBack)
          || (UndoStopped(r.work.undos, rb.steps) && FinalState(r.pc.why) == Escalated))
  }

  lemma FaultOf(r: Run)
    requires RunOk(r) && r.pc.Returned? && FinalState(r.pc.why) != Committed
    ensures !r.work.held && !r.work.recorded && RolledBackProperly(r)
  {}

  /**
    Otherwise nothing was dispatched, or a WAL record was staged, something failed, and the
    compensating steps were replayed from the last one down, all of them or up to the first
    that failed.  In every case the lock is no longer held.
   */
  lemma FaultsAreRolledBack(clock: int, labels: seq<Label>, i: nat)
    requires var s := Exec(Boot(clock), labels);
      i < |s.runs| && s.runs[i].pc.Returned? && FinalState(s.runs[i].pc.why) != Committed
    ensures var r := Exec(Boot(clock), labels).runs[i];
      !r.work.held && !r.work.recorded && RolledBackProperly(r)
  {
    ReachableRunOk(clock, labels, i);
    FaultOf(Exec(Boot(clock), labels).runs[i]);
  }

  // ----- the ledger ------------------------------------------------------------------------------------------------

  /** The states that run `i` has appended to the shared ledger, in order. */
  function EntriesBy(ledger: seq<Entry>, i: nat): seq<State> {
    if ledger == [] then []
    else
      var n := |ledger| - 1;
      EntriesBy(ledger[..n], i) + (if ledger[n].run == i then [ledger[n].state] else [])
  }

  lemma EntriesByAppend(ledger: seq<Entry>, e: Entry, i: nat)
    ensures EntriesBy(ledger + [e], i) == EntriesBy(ledger, i) + (if e.run == i then [e.state] else [])
  {
    assert (ledger + [e])[..|ledger|] == ledger;
  }

  /** The shared ledger interleaves exactly what the runs have logged. */
  ghost predicate LedgerOk(s: System) {
    && (forall i: nat :: i < |s.runs| ==> EntriesBy(s.ledger, i) == s.runs[i].book.logged)
    && (forall i: nat :: i >= |s.runs| ==> EntriesBy(s.ledger, i) == [])
  }

  lemma BookedLogs(b: Book, x: Instr, ok: bool)
    ensures Booked(b, x, ok).logged == b.logged + (if Appends(x, ok) then [x.st] else [])
  {}

  lemma AppliedLogs(s: System, i: nat, job: Job, x: Instr, ok: bool, held: bool)
    ensures Apply(s, i, job, x, ok, held).ledger ==
      s.ledger + (if Appends(x, ok) then [Entry(i, job.alert.resource, x.st)] else [])
  {}

  lemma LedgerAfter(s: System, l: Label, j: nat)
    requires LedgerOk(s) && (l.Go? || l.Crash?) && Moves(s, l, l.i)
    ensures EntriesBy(Step(s, l).ledger, j) == if j < |s.runs| then Moved(s, l, j).book.logged else []
  {
    var r, x := s.runs[l.i], MoveOf(s, l).1;
    StepIsMove(s, l);
    AppliedLogs(s, l.i, r.job, x, OkOf(l), r.work.held);
    BookedLogs(r.book, x, OkOf(l));
    if Appends(x, OkOf(l)) {
      EntriesByAppend(s.ledger, Entry(l.i, r.job.alert.resource, x.st), j);
    } else {
      assert s.ledger + [] == s.ledger && r.book.logged + [] == r.book.logged;
    }
  }

  lemma LedgerStaysOk(s: System, l: Label)
    requires LedgerOk(s)
    ensures LedgerOk(Step(s, l))
  {
    var t := Step(s, l);
    StepGrows(s, l);
    forall j: nat ensures EntriesBy(t.ledger, j) == if j < |t.runs| then t.runs[j].book.logged else [] {
      if j < |t.runs| {
        StepRuns(s, l, j);
      }
      if (l.Go? || l.Crash?) && Moves(s, l, l.i) {
        LedgerAfter(s, l, j);
        StepIsMove(s, l);
        ApplyTouchesOneStore(s, l.i, s.runs[l.i].job, MoveOf(s, l).1, OkOf(l), s.runs[l.i].work.held);
      }
    }
  }

  /** In every interleaving the entries of each run in the shared ledger are what it logged, in its order. */
  lemma {:induction false} ReachableLedgerOk(clock: int, labels: seq<Label>)
    ensures LedgerOk(Exec(Boot(clock), labels))
  {
    if labels != [] {
      var n := |labels| - 1;
      ReachableLedgerOk(clock, labels[..n]);
      LedgerStaysOk(Exec(Boot(clock), labels[..n]), labels[n]);
    }
  }

  /** Logged states and FSM history of a run that returned for this reason; see `LedgerMatchesFsm`. */
  predicate Matches(fsm: seq<State>, logged: seq<State>, why: Exit) {
    && fsm != [] && fsm[0] == Detected && IsPath(fsm)
    && (if why == StageFailed
        then logged == fsm + [Escalated] && fsm[|fsm| - 1] == PrecheckPassed
        else logged == fsm && IsTerminal(fsm[|fsm| - 1]))
    && (why == Done ==> fsm == COMMIT_PATH)
  }

  lemma LedgerOf(r: Run)
    requires RunOk(r) && r.pc.Returned? && !r.book.lost && WellFormed(r.job.alert)
    ensures Matches(r.book.fsm, r.book.logged, r.pc.why)
  {
    if r.pc.why == Done {
      CommittedHasOnePath(r.book.fsm);
    }
  }

  /**
    A run on a well-formed alert whose staging did not fail and whose appends got through has
    left the same states in the shared ledger as in its FSM history, which is a path of the
    table to a terminal state.  After a failed staging the ledger has one ESCALATED more, which
    the table refused, and the FSM rests in PRECHECK_PASSED.
   */
  lemma LedgerMatchesFsm(clock: int, labels: seq<Label>, i: nat)
    requires var s := Exec(Boot(clock), labels); i < |s.runs| && s.runs[i].pc.Returned? && !s.runs[i].book.lost
    requires WellFormed(Exec(Boot(clock), labels).runs[i].job.alert)
    ensures var s := Exec(Boot(clock), labels);
      Matches(s.runs[i].book.fsm, EntriesBy(s.ledger, i), s.runs[i].pc.why)
  {
    ReachableRunOk(clock, labels, i);
    ReachableLedgerOk(clock, labels);
    LedgerOf(Exec(Boot(clock), labels).runs[i]);
  }
}
