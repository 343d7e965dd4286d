/**
  What the shared stores say about the runs: the journal, the ledger and the damping records,
  in every interleaving with crashes at any step.
 */
module EngineStores {
  import opened Wrappers
  import opened Fsm
  import opened Wal
  import opened Engine
  import opened EngineRuns
  import opened EngineSystem

  // ----- assumptions on a system, stated on its last state ------------------------------------------------

  predicate DistinctTx(s: System) {
    forall i: nat, j: nat :: i < |s.runs| && j < |s.runs| && s.runs[i].job.tx == s.runs[j].job.tx ==> i == j
  }

  /** No append to the ledger and no update of the journal failed. */
  predicate NothingLost(s: System) {
    forall i: nat :: i < |s.runs| ==> !s.runs[i].book.lost && !s.runs[i].work.lost
  }

  /** Both assumptions held all along. */
  lemma AssumptionsHeldBefore(s: System, l: Label)
    ensures DistinctTx(Step(s, l)) ==> DistinctTx(s)
    ensures NothingLost(Step(s, l)) ==> NothingLost(s)
  {
    forall i: nat | i < |s.runs|
      ensures i < |Step(s, l).runs| && Step(s, l).runs[i] == Moved(s, l, i)
      ensures Moved(s, l, i).job == s.runs[i].job
      ensures s.runs[i].book.lost ==> Moved(s, l, i).book.lost
      ensures s.runs[i].work.lost ==> Moved(s, l, i).work.lost
    {
      StepGrows(s, l);
      StepRuns(s, l, i);
      MovedKeeps(s, l, i);
    }
  }

  // ----- the journal --------------------------------------------------------------------------------------------

  /** Run `i` has staged its transaction and no write has torn the record. */
  predicate Readable(s: System, i: nat)
    requires i < |s.runs|
  {
    s.runs[i].work.wal.Some? && !s.runs[i].work.torn
  }

  predicate Journalled(s: System, i: nat)
    requires i < |s.runs|
  {
    if Readable(s, i) then s.runs[i].job.tx in s.wal && Some(s.wal[s.runs[i].job.tx]) == s.runs[i].work.wal
    else if s.runs[i].work.stranded then s.runs[i].job.tx in s.wal && s.wal[s.runs[i].job.tx] == Prepared
    else s.runs[i].job.tx !in s.wal
  }

  /** Run `i` has a record on disk, staged or left by a staging that was reported as failed. */
  predicate OnDisk(s: System, i: nat)
    requires i < |s.runs|
  {
    Readable(s, i) || s.runs[i].work.stranded
  }

  ghost predicate Owned(s: System, tx: string) {
    exists i: nat :: i < |s.runs| && s.runs[i].job.tx == tx && OnDisk(s, i)
  }

  /**
    The readable records are exactly the last states that staged runs got written and did not
    tear, and the PREPARED ones left by stagings reported as failed.
   */
  ghost predicate JournalOk(s: System) {
    (forall i: nat :: i < |s.runs| ==> Journalled(s, i)) && (forall tx :: tx in s.wal ==> Owned(s, tx))
  }

  /** A record is staged once, and updated only afterwards. */
  predicate MarksInOrder(x: Instr, ok: bool, w: Work) {
    && (x.Mark? ==> !w.stranded && if x.w == Prepared then ok && w.wal.None? && !w.torn else w.wal.Some?)
    && (x.Strand? ==> w.wal.None?)
  }

  lemma MovesMarkInOrder(s: System, l: Label)
    requires (l.Go? || l.Crash?) && Moves(s, l, l.i) && RunOk(s.runs[l.i])
    ensures MarksInOrder(MoveOf(s, l).1, OkOf(l), s.runs[l.i].work)
  {
    if l.Go? {
      EveryMoveKeepsWork(s, s.runs[l.i].job, s.runs[l.i].pc, l.c);
    }
  }

  /** How an instruction changes what a run knows of its record. */
  predicate WorkedOn(w: Work, x: Instr, ok: bool, v: Work) {
    && v.wal == (if x.Mark? && (ok || x.slip == Unsynced) && !w.torn then Some(x.w) else w.wal)
    && v.torn == (w.torn || (x.Mark? && !ok && x.slip == Tears))
    && v.stranded == (w.stranded || x.Strand?)
  }

  lemma WorkedWal(w: Work, x: Instr, ok: bool)
    ensures WorkedOn(w, x, ok, Worked(w, x, ok))
  {}

  /** The journal of other transactions stays; the one of this run follows its work. */
  lemma JournalOfMover(s: System, i: nat, x: Instr, ok: bool, r: Run)
    requires i < |s.runs| && Journalled(s, i) && r.job == s.runs[i].job
    requires MarksInOrder(x, ok, s.runs[i].work) && WorkedOn(s.runs[i].work, x, ok, r.work)
    ensures var t := With(Apply(s, i, r.job, x, ok, s.runs[i].work.held), i, r);
      Journalled(t, i) && t.wal - {r.job.tx} == s.wal - {r.job.tx} && |t.runs| == |s.runs|
  {
    ApplyTouchesOneStore(s, i, r.job, x, ok, s.runs[i].work.held);
  }

  lemma JournalAfter(s: System, i: nat, x: Instr, ok: bool, r: Run)
    requires JournalOk(s) && DistinctTx(s) && i < |s.runs| && r.job == s.runs[i].job
    requires MarksInOrder(x, ok, s.runs[i].work) && WorkedOn(s.runs[i].work, x, ok, r.work)
    ensures JournalOk(With(Apply(s, i, r.job, x, ok, s.runs[i].work.held), i, r))
  {
    var t := With(Apply(s, i, r.job, x, ok, s.runs[i].work.held), i, r);
    assert Journalled(s, i);
    JournalOfMover(s, i, x, ok, r);
    ApplyTouchesOneStore(s, i, r.job, x, ok, s.runs[i].work.held);
    OthersKeepTheirRecords(s, t, i);
  }

  lemma OthersKeepTheirRecords(s: System, t: System, i: nat)
    requires JournalOk(s) && DistinctTx(s) && i < |s.runs| == |t.runs| && Journalled(t, i)
    requires t.runs == s.runs[i := t.runs[i]] && t.runs[i].job == s.runs[i].job
    requires t.wal - {s.runs[i].job.tx} == s.wal - {s.runs[i].job.tx}
    ensures JournalOk(t)
  {
    var mine := s.runs[i].job.tx;
    forall j: nat | j < |t.runs| ensures Journalled(t, j) {
      if j != i {
        assert Journalled(s, j);
        assert s.runs[j].job.tx != mine;
        assert s.runs[j].job.tx in s.wal - {mine} <==> s.runs[j].job.tx in s.wal;
        assert s.runs[j].job.tx in t.wal - {mine} <==> s.runs[j].job.tx in t.wal;
      }
    }
    forall tx | tx in t.wal ensures Owned(t, tx) {
      if tx == mine {
        assert OnDisk(t, i);
      } else {
        assert tx in t.wal - {mine};
        assert Owned(s, tx);
        var j: nat :| j < |s.runs| && s.runs[j].job.tx == tx && OnDisk(s, j);
        assert t.runs[j] == s.runs[j] && OnDisk(t, j);
      }
    }
  }

  lemma JournalGrows(s: System, job: Job)
    requires JournalOk(s) && DistinctTx(Step(s, Spawn(job)))
    ensures JournalOk(Step(s, Spawn(job)))
  {
    var t := Step(s, Spawn(job));
    forall tx | tx in t.wal ensures Owned(t, tx) && tx != job.tx {
      assert Owned(s, tx);
      var j: nat :| j < |s.runs| && s.runs[j].job.tx == tx && OnDisk(s, j);
      assert t.runs[j] == s.runs[j] && OnDisk(t, j);
      assert t.runs[|s.runs|].job.tx == job.tx;
    }
    forall j: nat | j < |t.runs| ensures Journalled(t, j) {
      if j < |s.runs| {
        assert Journalled(s, j) && t.runs[j] == s.runs[j];
      }
    }
  }

  lemma JournalStaysOk(s: System, l: Label)
    requires JournalOk(s) && DistinctTx(s) && DistinctTx(Step(s, l))
    requires (l.Go? || l.Crash?) && Moves(s, l, l.i) ==> RunOk(s.runs[l.i])
    ensures JournalOk(Step(s, l))
  {
    if l.Go? || l.Crash? {
      StepIsMove(s, l);
      if Moves(s, l, l.i) {
        MovesMarkInOrder(s, l);
        WorkedWal(s.runs[l.i].work, MoveOf(s, l).1, OkOf(l));
        JournalAfter(s, l.i, MoveOf(s, l).1, OkOf(l), Moved(s, l, l.i));
      }
    } else if l.Spawn? {
      JournalGrows(s, l.job);
    } else {
      var t := Step(s, l);
      assert forall j: nat :: j < |t.runs| ==> Journalled(s, j) == Journalled(t, j);
      assert forall tx :: Owned(s, tx) ==> Owned(t, tx);
    }
  }

  lemma {:induction false} ReachableJournalOk(clock: int, labels: seq<Label>)
    requires DistinctTx(Exec(Boot(clock), labels))
    ensures JournalOk(Exec(Boot(clock), labels))
  {
    if labels != [] {
      var n := |labels| - 1;
      var s := Exec(Boot(clock), labels[..n]);
      AssumptionsHeldBefore(s, labels[n]);
      ReachableJournalOk(clock, labels[..n]);
      if (labels[n].Go? || labels[n].Crash?) && labels[n].i < |s.runs| {
        ReachableRunOk(clock, labels[..n], labels[n].i);
      }
      JournalStaysOk(s, labels[n]);
    }
  }

  /** Run `i` staged its transaction, has not got COMMITTED, ROLLED_BACK or FAILED written, and no write tore the record. */
  predicate StagedAndOpen(s: System, i: nat)
    requires i < |s.runs|
  {
    Readable(s, i) && Pending(s.runs[i].work.wal.value)
  }

  /** Run `i` was told that its staging failed, and left a PREPARED record all the same. */
  predicate Stranded(s: System, i: nat)
    requires i < |s.runs|
  {
    !Readable(s, i) && s.runs[i].work.stranded
  }

  /**
    Crash visibility: the pending transactions are exactly those staged, not finished and not
    torn by a write that failed behind the truncation of the file, and those left by a staging
    of which only the sync failed.
   */
  lemma PendingIsExact(clock: int, labels: seq<Label>, tx: string)
    requires DistinctTx(Exec(Boot(clock), labels))
    ensures var s := Exec(Boot(clock), labels);
      (tx in s.wal && Pending(s.wal[tx]))
      <==> (exists i: nat :: i < |s.runs| && s.runs[i].job.tx == tx && (StagedAndOpen(s, i) || Stranded(s, i)))
  {
    var s := Exec(Boot(clock), labels);
    ReachableJournalOk(clock, labels);
    if tx in s.wal && Pending(s.wal[tx]) {
      assert Owned(s, tx);
      var i: nat :| i < |s.runs| && s.runs[i].job.tx == tx && OnDisk(s, i);
      assert Journalled(s, i);
      assert StagedAndOpen(s, i) || Stranded(s, i);
    }
    if i: nat :| i < |s.runs| && s.runs[i].job.tx == tx && (StagedAndOpen(s, i) || Stranded(s, i)) {
      assert Journalled(s, i);
    }
  }

  /** Run `i` stages, and only the sync of the complete record fails. */
  predicate StagesUnsynced(s: System, l: Label, i: nat) {
    Moves(s, l, i) && l.Go? && s.runs[i].pc == Staging && !l.c.ok && l.c.slip == Unsynced && s.runs[i].job.runbook.Some?
  }

  lemma StrandingStep(s: System, l: Label, i: nat)
    requires StagesUnsynced(s, l, i)
    ensures i < |Step(s, l).runs| && Step(s, l).runs[i].work.stranded
  {
    StepGrows(s, l);
    StepRuns(s, l, i);
  }

  lemma {:induction false} StrandedForGood(s: System, more: seq<Label>, i: nat)
    requires i < |s.runs| && s.runs[i].work.stranded
    ensures i < |Exec(s, more).runs| && Exec(s, more).runs[i].work.stranded
  {
    if more != [] {
      var n := |more| - 1;
      StrandedForGood(s, more[..n], i);
      StrandedStays(Exec(s, more[..n]), more[n], i);
    }
  }

  lemma StrandedStays(s: System, l: Label, i: nat)
    requires i < |s.runs| && s.runs[i].work.stranded
    ensures i < |Step(s, l).runs| && Step(s, l).runs[i].work.stranded
  {
    StepGrows(s, l);
    StepRuns(s, l, i);
    if Moves(s, l, i) {
      WorkedWal(s.runs[i].work, MoveOf(s, l).1, OkOf(l));
    }
  }

  /**
    A staging of which only the sync fails: the run is told that it failed and never dispatches
    an action, yet its transaction is pending from then on, whatever happens later.
   */
  lemma UnsyncedStagingStaysPending(clock: int, labels: seq<Label>, l: Label, more: seq<Label>, i: nat)
    requires StagesUnsynced(Exec(Boot(clock), labels), l, i)
    requires DistinctTx(Exec(Boot(clock), labels + [l] + more))
    ensures var s := Exec(Boot(clock), labels + [l] + more);
      && i < |s.runs| && s.runs[i].work.acts == []
      && s.runs[i].job.tx in s.wal && s.wal[s.runs[i].job.tx] == Prepared
  {
    var now := labels + [l];
    assert now[..|labels|] == labels;
    StrandingStep(Exec(Boot(clock), labels), l, i);
    StrandedForGood(Exec(Boot(clock), now), more, i);
    ExecConcat(Boot(clock), now, more);
    StrandedIsPending(clock, now + more, i);
  }

  lemma StrandedIsPending(clock: int, labels: seq<Label>, i: nat)
    requires DistinctTx(Exec(Boot(clock), labels))
    requires var s := Exec(Boot(clock), labels); i < |s.runs| && s.runs[i].work.stranded
    ensures var s := Exec(Boot(clock), labels);
      s.runs[i].work.acts == [] && s.runs[i].job.tx in s.wal && s.wal[s.runs[i].job.tx] == Prepared
  {
    ReachableJournalOk(clock, labels);
    ReachableRunOk(clock, labels, i);
    assert Journalled(Exec(Boot(clock), labels), i);
  }

  /** Whoever has dispatched an action has a record with the state last written, exactly unless it was torn. */
  lemma CrashAfterActionIsVisible(clock: int, labels: seq<Label>, i: nat)
    requires DistinctTx(Exec(Boot(clock), labels))
    requires var s := Exec(Boot(clock), labels); i < |s.runs| && s.runs[i].work.acts != []
    ensures var s := Exec(Boot(clock), labels);
            var r := s.runs[i];
      && (r.job.tx in s.wal <==> !r.work.torn)
      && (r.job.tx in s.wal ==> r.work.wal == Some(s.wal[r.job.tx]))
  {
    ReachableJournalOk(clock, labels);
    ReachableRunOk(clock, labels, i);
    assert Journalled(Exec(Boot(clock), labels), i);
  }

  /** Run `i` takes a WAL write that fails behind the truncation of the file. */
  predicate TearsRecord(s: System, l: Label, i: nat) {
    Moves(s, l, i) && l.Go? && !l.c.ok && l.c.slip == Tears && MoveOf(s, l).1.Mark?
  }

  /** A record is only ever torn by such a write. */
  lemma {:induction false} TornOnlyByAWrite(clock: int, labels: seq<Label>, i: nat)
    requires var s := Exec(Boot(clock), labels); i < |s.runs| && s.runs[i].work.torn
    ensures exists n: nat :: n < |labels| && TearsRecord(Exec(Boot(clock), labels[..n]), labels[n], i)
  {
    var n := |labels| - 1;
    var s, l := Exec(Boot(clock), labels[..n]), labels[n];
    if i < |s.runs| && s.runs[i].work.torn {
      TornOnlyByAWrite(clock, labels[..n], i);
      var k: nat :| k < n && TearsRecord(Exec(Boot(clock), labels[..n][..k]), labels[..n][k], i);
      assert labels[..n][..k] == labels[..k] && labels[..n][k] == labels[k];
    } else {
      TearingStep(s, l, i);
    }
  }

  lemma TearingStep(s: System, l: Label, i: nat)
    requires i < |Step(s, l).runs| && Step(s, l).runs[i].work.torn
    requires i < |s.runs| ==> !s.runs[i].work.torn
    ensures TearsRecord(s, l, i)
  {
    StepRuns(s, l, i);
    if Moves(s, l, i) {
      WorkedWal(s.runs[i].work, MoveOf(s, l).1, OkOf(l));
    }
  }

  // ----- actions -----------------------------------------------------------------------------------------------------

  lemma OnlyDoAddsActions(w: Work, x: Instr, ok: bool)
    ensures Worked(w, x, ok).acts == if x.Do? then w.acts + [Outcome(x.k, ok)] else w.acts
  {}

  lemma ActionsComeFromActing(s: System, r: Run, c: Choice)
    requires RunOk(r) && !Ended(r.pc) && Next(s, r.job, r.pc, c).1.Do?
    ensures r.pc.Acting? && Next(s, r.job, r.pc, c).1 == Do(r.pc.k) && r.job.runbook.Some?
    ensures r.pc.k < r.job.runbook.value.acts && r.work.acts == AllOk(r.pc.k)
    ensures r.work.held && r.work.admitted && r.work.wal == Some(Prepared)
    ensures r.work.pres == AllOk(r.job.runbook.value.pres)
  {}

  /**
    Whenever a step dispatches an action, the run holds its lock, was admitted by damping, has
    found every precondition true and has a PREPARED record in the journal; and the action is
    the next one of the runbook, all earlier ones having succeeded.
   */
  lemma ActionsAreGuarded(clock: int, labels: seq<Label>, l: Label, i: nat)
    requires DistinctTx(Exec(Boot(clock), labels))
    requires var s := Exec(Boot(clock), labels);
      i < |s.runs| && i < |Step(s, l).runs| && Step(s, l).runs[i].work.acts != s.runs[i].work.acts
    ensures var s := Exec(Boot(clock), labels);
            var r := s.runs[i];
      && r.job.runbook.Some?
      && r.job.lockPath in s.locks && s.locks[r.job.lockPath] == i
      && r.work.admitted && r.work.pres == AllOk(r.job.runbook.value.pres)
      && r.job.tx in s.wal && s.wal[r.job.tx] == Prepared
      && |r.work.acts| < r.job.runbook.value.acts && r.work.acts == AllOk(|r.work.acts|)
      && (exists ok :: Step(s, l).runs[i].work.acts == r.work.acts + [Outcome(|r.work.acts|, ok)])
  {
    var s := Exec(Boot(clock), labels);
    var r := s.runs[i];
    ReachableRunOk(clock, labels, i);
    ReachableLocksOk(clock, labels);
    ReachableJournalOk(clock, labels);
    StepRuns(s, l, i);
    OnlyDoAddsActions(r.work, MoveOf(s, l).1, OkOf(l));
    ActionsComeFromActing(s, r, l.c);
    assert Holds(s, i) && Journalled(s, i);
    assert Step(s, l).runs[i].work.acts == r.work.acts + [Outcome(|r.work.acts|, OkOf(l))];
  }

  // ----- counting --------------------------------------------------------------------------------------------------------

  function Total(f: Run -> nat, runs: seq<Run>): nat {
    if runs == [] then 0 else Total(f, runs[..|runs| - 1]) + f(runs[|runs| - 1])
  }

  lemma {:induction false} TotalUpdate(f: Run -> nat, runs: seq<Run>, i: nat, r: Run)
    requires i < |runs|
    ensures Total(f, runs[i := r]) == Total(f, runs) - f(runs[i]) + f(r)
  {
    var n := |runs| - 1;
    if i == n {
      assert runs[i := r][..n] == runs[..n];
    } else {
      assert runs[i := r][..n] == runs[..n][i := r];
      TotalUpdate(f, runs[..n], i, r);
    }
  }

  lemma TotalAppend(f: Run -> nat, runs: seq<Run>, r: Run)
    ensures Total(f, runs + [r]) == Total(f, runs) + f(r)
  {
    assert (runs + [r])[..|runs|] == runs;
  }

  lemma {:induction false} TotalLe(f: Run -> nat, g: Run -> nat, runs: seq<Run>)
    requires forall i :: 0 <= i < |runs| ==> f(runs[i]) <= g(runs[i])
    ensures Total(f, runs) <= Total(g, runs)
  {
    if runs != [] {
      TotalLe(f, g, runs[..|runs| - 1]);
    }
  }

  lemma {:induction false} TotalSum(f: Run -> nat, g: Run -> nat, h: Run -> nat, runs: seq<Run>)
    requires forall i :: 0 <= i < |runs| ==> f(runs[i]) <= g(runs[i]) + h(runs[i])
    ensures Total(f, runs) <= Total(g, runs) + Total(h, runs)
  {
    if runs != [] {
      TotalSum(f, g, h, runs[..|runs| - 1]);
    }
  }

  function Records(r: Run): nat { if r.work.recorded then 1 else 0 }
  function Seals(r: Run): nat { r.book.seals }
  function Commits(r: Run): nat { if r.work.wal == Some(WalCommitted) && !r.work.torn then 1 else 0 }
  function Passes(r: Run): nat { r.book.passes }
  /** 1 for a run that is still in flight or has died. */
  function Unreturned(r: Run): nat { if r.pc.Returned? then 0 else 1 }

  /** How many ledger entries carry the state. */
  function EntriesOf(ledger: seq<Entry>, st: State): nat {
    if ledger == [] then 0
    else EntriesOf(ledger[..|ledger| - 1], st) + (if ledger[|ledger| - 1].state == st then 1 else 0)
  }

  function CommittedTxs(wal: map<string, WalState>): set<string> {
    set tx | tx in wal && wal[tx] == WalCommitted
  }

  ghost predicate CountsOk(s: System) {
    && EntriesOf(s.ledger, PostcheckPassed) == Total(Passes, s.runs)
    && EntriesOf(s.ledger, Committed) == Total(Seals, s.runs)
    && |s.records| == Total(Records, s.runs)
    && |CommittedTxs(s.wal)| == Total(Commits, s.runs)
  }

  lemma EntriesAppend(ledger: seq<Entry>, e: Entry, st: State)
    ensures EntriesOf(ledger + [e], st) == EntriesOf(ledger, st) + (if e.state == st then 1 else 0)
  {
    assert (ledger + [e])[..|ledger|] == ledger;
  }

  function IsCommitted(wal: map<string, WalState>, tx: string): nat {
    if tx in wal && wal[tx] == WalCommitted then 1 else 0
  }

  lemma CommittedTxsChange(a: map<string, WalState>, b: map<string, WalState>, tx: string)
    requires a - {tx} == b - {tx}
    ensures |CommittedTxs(b)| == |CommittedTxs(a)| - IsCommitted(a, tx) + IsCommitted(b, tx)
  {
    forall y | y != tx ensures y in CommittedTxs(a) <==> y in CommittedTxs(b) {
      SameElsewhere(a, b, tx, y);
    }
    OneElementApart(CommittedTxs(a), CommittedTxs(b), tx);
  }

  lemma SameElsewhere(a: map<string, WalState>, b: map<string, WalState>, tx: string, y: string)
    requires a - {tx} == b - {tx} && y != tx
    ensures (y in a <==> y in b) && (y in a ==> a[y] == b[y])
  {
    assert (y in a <==> y in a - {tx}) && (y in b <==> y in b - {tx});
  }

  lemma OneElementApart(a: set<string>, b: set<string>, x: string)
    requires forall y :: y != x ==> (y in a <==> y in b)
    ensures |b| - (if x in b then 1 else 0) == |a| - (if x in a then 1 else 0)
  {
    assert a - {x} == b - {x};
    assert |a - {x}| == |a| - (if x in a then 1 else 0);
    assert |b - {x}| == |b| - (if x in b then 1 else 0);
  }

  lemma LedgerCountAfter(f: Run -> nat, st: State, s: System, i: nat, x: Instr, ok: bool, r: Run)
    requires i < |s.runs| && EntriesOf(s.ledger, st) == Total(f, s.runs)
    requires f(r) == f(s.runs[i]) + (if Appends(x, ok) && x.st == st then 1 else 0)
    ensures var t := With(Apply(s, i, r.job, x, ok, s.runs[i].work.held), i, r);
      EntriesOf(t.ledger, st) == Total(f, t.runs)
  {
    ApplyTouchesOneStore(s, i, r.job, x, ok, s.runs[i].work.held);
    TotalUpdate(f, s.runs, i, r);
    if Appends(x, ok) {
      EntriesAppend(s.ledger, Entry(i, r.job.alert.resource, x.st), st);
    }
  }

  lemma JournalCountsAfter(s: System, i: nat, x: Instr, ok: bool, r: Run)
    requires i < |s.runs| && Journalled(s, i) && r.job == s.runs[i].job
    requires MarksInOrder(x, ok, s.runs[i].work) && WorkedOn(s.runs[i].work, x, ok, r.work)
    requires |CommittedTxs(s.wal)| == Total(Commits, s.runs)
    ensures var t := With(Apply(s, i, r.job, x, ok, s.runs[i].work.held), i, r);
      |CommittedTxs(t.wal)| == Total(Commits, t.runs)
  {
    var t := With(Apply(s, i, r.job, x, ok, s.runs[i].work.held), i, r);
    ApplyTouchesOneStore(s, i, r.job, x, ok, s.runs[i].work.held);
    JournalOfMover(s, i, x, ok, r);
    TotalUpdate(Commits, s.runs, i, r);
    CommittedTxsChange(s.wal, t.wal, r.job.tx);
  }

  lemma RecordCountsAfter(s: System, i: nat, x: Instr, ok: bool, r: Run)
    requires i < |s.runs| && r.job == s.runs[i].job
    requires r.work.recorded == (x.Note? || s.runs[i].work.recorded)
    requires x.Note? ==> !s.runs[i].work.recorded
    requires |s.records| == Total(Records, s.runs)
    ensures var t := With(Apply(s, i, r.job, x, ok, s.runs[i].work.held), i, r);
      |t.records| == Total(Records, t.runs)
  {
    ApplyTouchesOneStore(s, i, r.job, x, ok, s.runs[i].work.held);
    TotalUpdate(Records, s.runs, i, r);
  }

  lemma NotedOnce(s: System, r: Run, c: Choice)
    requires RunOk(r) && !Ended(r.pc)
    ensures Next(s, r.job, r.pc, c).1.Note? ==> !r.work.recorded
  {}

  lemma WorkedRecorded(w: Work, x: Instr, ok: bool)
    ensures Worked(w, x, ok).recorded == (x.Note? || w.recorded)
  {}

  lemma CountsStayOk(s: System, l: Label)
    requires CountsOk(s) && JournalOk(s) && DistinctTx(s)
    requires (l.Go? || l.Crash?) && Moves(s, l, l.i) && RunOk(s.runs[l.i])
    ensures CountsOk(Step(s, l))
  {
    var i, x, r := l.i, MoveOf(s, l).1, Moved(s, l, l.i);
    StepIsMove(s, l);
    LedgerCountAfter(Passes, PostcheckPassed, s, i, x, OkOf(l), r);
    LedgerCountAfter(Seals, Committed, s, i, x, OkOf(l), r);
    WorkedWal(s.runs[i].work, x, OkOf(l));
    MovesMarkInOrder(s, l);
    assert Journalled(s, i);
    if l.Go? {
      NotedOnce(s, s.runs[i], l.c);
    }
    JournalCountsAfter(s, i, x, OkOf(l), r);
    WorkedRecorded(s.runs[i].work, x, OkOf(l));
    RecordCountsAfter(s, i, x, OkOf(l), r);
  }

  lemma CountsAfterSpawn(s: System, job: Job)
    requires CountsOk(s)
    ensures CountsOk(Step(s, Spawn(job)))
  {
    TotalAppend(Passes, s.runs, NewRun(job));
    TotalAppend(Seals, s.runs, NewRun(job));
    TotalAppend(Records, s.runs, NewRun(job));
    TotalAppend(Commits, s.runs, NewRun(job));
  }

  lemma {:induction false} ReachableCountsOk(clock: int, labels: seq<Label>)
    requires DistinctTx(Exec(Boot(clock), labels))
    ensures CountsOk(Exec(Boot(clock), labels))
  {
    if labels == [] {
      assert CommittedTxs(map[]) == {};
    } else {
      var n := |labels| - 1;
      var s, l := Exec(Boot(clock), labels[..n]), labels[n];
      AssumptionsHeldBefore(s, l);
      ReachableCountsOk(clock, labels[..n]);
      ReachableJournalOk(clock, labels[..n]);
      if l.Spawn? {
        CountsAfterSpawn(s, l.job);
      } else if (l.Go? || l.Crash?) && Moves(s, l, l.i) {
        ReachableRunOk(clock, labels[..n], l.i);
        CountsStayOk(s, l);
      }
    }
  }

  lemma ReturnedRunsBalance(r: Run)
    requires RunOk(r) && !r.book.lost && !r.work.lost
    ensures Records(r) <= Seals(r) <= Commits(r) <= Passes(r) <= Records(r) + Unreturned(r)
  {}

  /**
    With any number of concurrent runs and crashes at any step, while writes get through and
    transaction IDs are distinct: damping records <= COMMITTED ledger entries <= COMMITTED WAL
    records <= POSTCHECK_PASSED ledger entries, and the first and the last differ by at most
    the number of runs in flight or dead.
   */
  lemma StoresAgree(clock: int, labels: seq<Label>)
    requires var s := Exec(Boot(clock), labels); DistinctTx(s) && NothingLost(s)
    ensures var s := Exec(Boot(clock), labels);
      && |s.records| <= EntriesOf(s.ledger, Committed)
      && EntriesOf(s.ledger, Committed) <= |CommittedTxs(s.wal)|
      && |CommittedTxs(s.wal)| <= EntriesOf(s.ledger, PostcheckPassed)
      && EntriesOf(s.ledger, PostcheckPassed) <= |s.records| + Total(Unreturned, s.runs)
  {
    var s := Exec(Boot(clock), labels);
    ReachableCountsOk(clock, labels);
    forall i | 0 <= i < |s.runs|
      ensures Records(s.runs[i]) <= Seals(s.runs[i]) <= Commits(s.runs[i]) <= Passes(s.runs[i])
      ensures Passes(s.runs[i]) <= Records(s.runs[i]) + Unreturned(s.runs[i])
    {
      ReachableRunOk(clock, labels, i);
      ReturnedRunsBalance(s.runs[i]);
    }
    TotalLe(Records, Seals, s.runs);
    TotalLe(Seals, Commits, s.runs);
    TotalLe(Commits, Passes, s.runs);
    TotalSum(Passes, Records, Unreturned, s.runs);
  }
}
