/**
  Compensation in reverse order, `internal/rollback/rollback.go`, over a file system that maps
  paths to contents.
 */
module Rollback {
  import opened Wrappers
  import opened Wal
  import opened Journal
  import Paths

  type Fs = map<string, string>

  /** How copying a backup over its target can fail. */
  datatype Fault = NoFault | TargetUnopenable | CopyCut(length: nat) | SyncFails

  /**
    What compensating functions and commands do to the file system, whether they succeed, and
    which fault step `i` meets.
   */
  datatype World = World(comp: (nat, Fs) -> (Fs, bool), cmd: (string, seq<string>, Fs) -> (Fs, bool), fault: nat -> Fault)

  function Cut(s: string, n: nat): string {
    if n < |s| then s[..n] else s
  }

  /** `restoreFile`.  The target is truncated before the copy, so a file restored from itself ends up empty. */
  function Restored(fs: Fs, backup: string, target: string, fault: Fault): (Fs, bool) {
    if backup !in fs || fault == TargetUnopenable then (fs, false)
    else
      var content := if backup == target then "" else fs[backup];
      match fault
      case CopyCut(n) => (fs[target := Cut(content, n)], false)
      case SyncFails => (fs[target := content], false)
      case _ => (fs[target := content], true)
  }

  /** `executeSingleStep`: a function wins over a file, a file over a command; an empty step succeeds. */
  function StepDone(w: World, i: nat, step: Step, fs: Fs): (Fs, bool) {
    if step.fn.Some? then w.comp(step.fn.value, fs)
    else if step.target != "" && step.backup != "" then Restored(fs, step.backup, step.target, w.fault(i))
    else if step.binary != "" then w.cmd(step.binary, step.args, fs)
    else (fs, true)
  }

  /** Restoring a file: when it succeeds, what is then in the target, and that no other file changes. */
  lemma RestoresExactly(fs: Fs, backup: string, target: string, fault: Fault)
    ensures var (g, ok) := Restored(fs, backup, target, fault);
      && (ok <==> backup in fs && fault == NoFault)
      && (forall p :: p != target ==> SameAt(fs, g, p))
      && (backup !in fs || fault == TargetUnopenable ==> g == fs)
      && (backup in fs && fault != TargetUnopenable && backup != target ==>
            target in g && g[target] <= fs[backup] && (!fault.CopyCut? ==> g[target] == fs[backup])
            && (fault.CopyCut? && fault.length <= |fs[backup]| ==> |g[target]| == fault.length))
      && (backup in fs && fault != TargetUnopenable && backup == target ==> target in g && g[target] == "")
  {}

  /** What decides how a step is undone: its function if it has one; else its files if it names both; else its command if any. */
  lemma StepsExactly(w: World, i: nat, step: Step, fs: Fs)
    ensures forall k :: step.fn == Some(k) ==> StepDone(w, i, step, fs) == w.comp(k, fs)
    ensures step.fn == None && step.target != "" && step.backup != "" ==>
      StepDone(w, i, step, fs) == Restored(fs, step.backup, step.target, w.fault(i))
    ensures step.fn == None && (step.target == "" || step.backup == "") && step.binary != "" ==>
      StepDone(w, i, step, fs) == w.cmd(step.binary, step.args, fs)
    ensures step.fn == None && (step.target == "" || step.backup == "") && step.binary == "" ==>
      StepDone(w, i, step, fs) == (fs, true)
  {}

  /** The file system at the end, and the step that failed, if any. */
  datatype Outcome = Outcome(fs: Fs, failedAt: Option<nat>)

  /** Steps k-1 down to 0, up to the first that fails. */
  function Replayed(w: World, steps: seq<Step>, k: nat, fs: Fs): Outcome
    requires k <= |steps|
  {
    if k == 0 then Outcome(fs, None)
    else
      var (g, ok) := StepDone(w, k - 1, steps[k - 1], fs);
      if ok then Replayed(w, steps, k - 1, g) else Outcome(g, Some(k - 1))
  }

  /** `first` and `last` say how the two journal updates end; their errors are ignored. */
  method ExecuteRollback(journal: JournalDir, rec: WalRecord, w: World, fs: Fs, first: Io, last: Io)
    returns (out: Outcome)
    modifies journal
    ensures out == Replayed(w, rec.steps, |rec.steps|, fs)
    ensures journal.files ==
      Updated(Updated(old(journal.files), rec.tx, WalRollingBack, first), rec.tx,
              if out.failedAt.None? then WalRolledBack else WalFailed, last)
  {
    var _ := journal.UpdateState(rec.tx, WalRollingBack, first);
    var fs' := fs;
    var i := |rec.steps|;
    while i > 0
      invariant 0 <= i <= |rec.steps|
      invariant Replayed(w, rec.steps, i, fs') == Replayed(w, rec.steps, |rec.steps|, fs)
      invariant journal.files == Updated(old(journal.files), rec.tx, WalRollingBack, first)
    {
      i := i - 1;
      var (g, ok) := StepDone(w, i, rec.steps[i], fs');
      if !ok {
        var _ := journal.UpdateState(rec.tx, WalFailed, last);
        return Outcome(g, Some(i));
      }
      fs' := g;
    }
    var _ := journal.UpdateState(rec.tx, WalRolledBack, last);
    return Outcome(fs', None);
  }

  // ----- reverse replay is an inverse -------------------------------------------------------------------

  /** Every step restores a file. */
  predicate FileSteps(steps: seq<Step>) {
    forall i :: 0 <= i < |steps| ==> steps[i].fn == None && steps[i].target != "" && steps[i].backup != ""
  }

  predicate IsTarget(steps: seq<Step>, p: string) {
    exists i :: 0 <= i < |steps| && steps[i].target == p
  }

  predicate BackupsApart(steps: seq<Step>) {
    forall i :: 0 <= i < |steps| ==> !IsTarget(steps, steps[i].backup)
  }

  predicate SameAt(a: Fs, b: Fs, p: string) {
    (p in a <==> p in b) && (p in a ==> a[p] == b[p])
  }

  /** The two file systems agree on all targets. */
  ghost predicate AgreeOnTargets(steps: seq<Step>, a: Fs, b: Fs) {
    forall p :: IsTarget(steps, p) ==> SameAt(a, b, p)
  }

  /** Step `i` found its target and changed no other. */
  ghost predicate ChangesOnlyItsOwn(steps: seq<Step>, before: seq<Fs>, i: nat)
    requires i < |steps| && |before| == |steps| + 1
  {
    && steps[i].target in before[i]
    && forall p :: IsTarget(steps, p) && p != steps[i].target ==> SameAt(before[i], before[i + 1], p)
  }

  /** `before[i]` is the file system just before step `i`. */
  ghost predicate ForwardRun(steps: seq<Step>, before: seq<Fs>) {
    |before| == |steps| + 1 && forall i: nat :: i < |steps| ==> ChangesOnlyItsOwn(steps, before, i)
  }

  /** The backup of step `i` holds its target's contents from just before the step. */
  predicate Saved(steps: seq<Step>, before: seq<Fs>, fs: Fs, i: nat)
    requires i < |steps| < |before|
  {
    steps[i].backup in fs && steps[i].target in before[i] && fs[steps[i].backup] == before[i][steps[i].target]
  }

  predicate BackedUp(steps: seq<Step>, before: seq<Fs>, fs: Fs, k: nat)
    requires k <= |steps| < |before|
  {
    forall i: nat :: i < k ==> Saved(steps, before, fs, i)
  }

  lemma UndoOne(w: World, steps: seq<Step>, before: seq<Fs>, k: nat, fs: Fs)
    requires FileSteps(steps) && BackupsApart(steps) && ForwardRun(steps, before) && 0 < k <= |steps|
    requires AgreeOnTargets(steps, fs, before[k]) && BackedUp(steps, before, fs, k)
    ensures var (g, ok) := StepDone(w, k - 1, steps[k - 1], fs);
      && (w.fault(k - 1) == NoFault ==> ok)
      && (ok ==> AgreeOnTargets(steps, g, before[k - 1]) && BackedUp(steps, before, g, k - 1))
      && (!ok ==> forall p :: IsTarget(steps, p) && p != steps[k - 1].target ==> SameAt(g, before[k], p))
  {
    var step := steps[k - 1];
    assert IsTarget(steps, step.target);
    assert step.backup != step.target;
    assert Saved(steps, before, fs, k - 1) && ChangesOnlyItsOwn(steps, before, k - 1);
    var (g, ok) := StepDone(w, k - 1, step, fs);
    forall i: nat | i < k - 1 ensures Saved(steps, before, g, i) {
      assert Saved(steps, before, fs, i) && steps[i].backup != step.target;
    }
    if ok {
      assert g == fs[step.target := before[k - 1][step.target]];
      forall p | IsTarget(steps, p) ensures SameAt(g, before[k - 1], p) {
        assert SameAt(fs, before[k], p);
      }
    }
  }

  /**
    Reverse replay is a true inverse.  If each backup holds its target's contents from just
    before its step, and no backup is itself a target, replaying all steps restores every target
    to its first contents, however often it was changed.  If step k fails, exactly the steps
    after k have been undone: every other target is as it was just after step k.
   */
  lemma {:induction false} ReplayInverts(w: World, steps: seq<Step>, before: seq<Fs>, k: nat, fs: Fs)
    requires FileSteps(steps) && BackupsApart(steps) && ForwardRun(steps, before) && k <= |steps|
    requires AgreeOnTargets(steps, fs, before[k]) && BackedUp(steps, before, fs, k)
    ensures var out := Replayed(w, steps, k, fs);
      match out.failedAt
      case None => AgreeOnTargets(steps, out.fs, before[0])
      case Some(j) =>
        && j < k && w.fault(j) != NoFault
        && (forall p :: IsTarget(steps, p) && p != steps[j].target ==> SameAt(out.fs, before[j + 1], p))
  {
    if k > 0 {
      UndoOne(w, steps, before, k, fs);
      var (g, ok) := StepDone(w, k - 1, steps[k - 1], fs);
      if ok {
        ReplayInverts(w, steps, before, k - 1, g);
        assert Replayed(w, steps, k, fs) == Replayed(w, steps, k - 1, g);
      } else {
        assert Replayed(w, steps, k, fs) == Outcome(g, Some(k - 1));
      }
    }
  }

  // ----- how backups come to hold the right contents ------------------------------------------------------

  /** The first `k` steps: back the target up (`StageFileBackup`), then give it new contents. */
  function Forward(fs: Fs, steps: seq<Step>, news: seq<string>, k: nat): Fs
    requires k <= |steps| == |news|
    requires forall i :: 0 <= i < |steps| ==> steps[i].target in fs
    ensures forall p :: p in fs ==> p in Forward(fs, steps, news, k)
  {
    if k == 0 then fs
    else
      var g := Forward(fs, steps, news, k - 1);
      g[steps[k - 1].backup := g[steps[k - 1].target]][steps[k - 1].target := news[k - 1]]
  }

  /** A backup holds what the last step that wrote it saved. */
  lemma {:induction false} BackupHoldsTheLast(fs: Fs, steps: seq<Step>, news: seq<string>, j: nat, k: nat)
    requires j < k <= |steps| == |news| && BackupsApart(steps)
    requires forall i :: 0 <= i < |steps| ==> steps[i].target in fs
    requires forall t :: j < t < k ==> steps[t].backup != steps[j].backup
    ensures var g := Forward(fs, steps, news, k);
      steps[j].backup in g && g[steps[j].backup] == Forward(fs, steps, news, j)[steps[j].target]
  {
    assert IsTarget(steps, steps[k - 1].target);
    assert steps[j].backup != steps[k - 1].target;
    if j < k - 1 {
      BackupHoldsTheLast(fs, steps, news, j, k - 1);
    }
  }

  /** The file systems before each step and after the last. */
  function Snapshots(fs: Fs, steps: seq<Step>, news: seq<string>): seq<Fs>
    requires |steps| == |news| && forall i :: 0 <= i < |steps| ==> steps[i].target in fs
  {
    seq(|steps| + 1, k requires 0 <= k <= |steps| => Forward(fs, steps, news, k))
  }

  /** Steps with backups of their own meet what `ReplayInverts` asks for, so it also says what a failing rollback leaves. */
  lemma StagingBacksUp(fs: Fs, steps: seq<Step>, news: seq<string>)
    requires |steps| == |news| && BackupsApart(steps) && forall i :: 0 <= i < |steps| ==> steps[i].target in fs
    requires forall i, j :: 0 <= i < j < |steps| ==> steps[i].backup != steps[j].backup
    ensures var before := Snapshots(fs, steps, news);
      ForwardRun(steps, before) && BackedUp(steps, before, before[|steps|], |steps|)
  {
    var before := Snapshots(fs, steps, news);
    forall i: nat | i < |steps| ensures ChangesOnlyItsOwn(steps, before, i) {
      forall p | IsTarget(steps, p) && p != steps[i].target ensures SameAt(before[i], before[i + 1], p) {
        assert p != steps[i].backup;
      }
    }
    forall i: nat | i < |steps| ensures Saved(steps, before, before[|steps|], i) {
      BackupHoldsTheLast(fs, steps, news, i, |steps|);
    }
  }

  /** No step before `k` changes `p`. */
  predicate Untouched(steps: seq<Step>, p: string, k: nat)
    requires k <= |steps|
  {
    forall t :: 0 <= t < k ==> steps[t].target != p
  }

  lemma {:induction false} UntouchedKeepsItsContents(fs: Fs, steps: seq<Step>, news: seq<string>, p: string, k: nat)
    requires k <= |steps| == |news| && BackupsApart(steps) && IsTarget(steps, p) && Untouched(steps, p, k)
    requires forall i :: 0 <= i < |steps| ==> steps[i].target in fs
    ensures p in fs && Forward(fs, steps, news, k)[p] == fs[p]
  {
    if k > 0 {
      UntouchedKeepsItsContents(fs, steps, news, p, k - 1);
    }
  }

  lemma {:induction false} ReplayLeavesOthers(w: World, steps: seq<Step>, k: nat, g: Fs, p: string)
    requires FileSteps(steps) && k <= |steps| && Untouched(steps, p, k) && p in g
    ensures var out := Replayed(w, steps, k, g); p in out.fs && out.fs[p] == g[p]
    decreases k
  {
    if k > 0 {
      var (h, ok) := StepDone(w, k - 1, steps[k - 1], g);
      ReplayLeavesOthers(w, steps, k - 1, h, p);
    }
  }

  /** Without faults, what a target ends up with is the backup of the first step on it. */
  lemma {:induction false} ReplayEndsWithTheFirst(w: World, steps: seq<Step>, k: nat, i: nat, g: Fs)
    requires FileSteps(steps) && BackupsApart(steps) && i < k <= |steps| && Untouched(steps, steps[i].target, i)
    requires (forall t :: 0 <= t < |steps| ==> steps[t].backup in g) && forall t :: w.fault(t) == NoFault
    ensures var out := Replayed(w, steps, k, g);
      steps[i].target in out.fs && out.fs[steps[i].target] == g[steps[i].backup]
    decreases k
  {
    var step := steps[k - 1];
    assert IsTarget(steps, step.target);
    var (h, ok) := StepDone(w, k - 1, step, g);
    assert ok && h == g[step.target := g[step.backup]];
    if i == k - 1 {
      ReplayLeavesOthers(w, steps, k - 1, h, step.target);
    } else {
      ReplayEndsWithTheFirst(w, steps, k - 1, i, h);
    }
  }

  lemma {:induction false} ReplaySucceeds(w: World, steps: seq<Step>, k: nat, g: Fs)
    requires FileSteps(steps) && k <= |steps|
    requires (forall t :: 0 <= t < |steps| ==> steps[t].backup in g) && forall t :: w.fault(t) == NoFault
    ensures Replayed(w, steps, k, g).failedAt == None
    decreases k
  {
    if k > 0 {
      var (h, ok) := StepDone(w, k - 1, steps[k - 1], g);
      ReplaySucceeds(w, steps, k - 1, h);
    }
  }

  /** The last step that writes the backup of step `i`. */
  lemma LastWriter(steps: seq<Step>, i: nat) returns (j: nat)
    requires i < |steps|
    ensures i <= j < |steps| && steps[j].backup == steps[i].backup
    ensures forall t :: j < t < |steps| ==> steps[t].backup != steps[i].backup
  {
    j := |steps| - 1;
    while steps[j].backup != steps[i].backup
      invariant i <= j < |steps|
      invariant forall t :: j < t < |steps| ==> steps[t].backup != steps[i].backup
      decreases j
    {
      j := j - 1;
    }
  }

  lemma BackupsExist(fs: Fs, steps: seq<Step>, news: seq<string>)
    requires |steps| == |news| && BackupsApart(steps) && forall i :: 0 <= i < |steps| ==> steps[i].target in fs
    ensures forall t :: 0 <= t < |steps| ==> steps[t].backup in Forward(fs, steps, news, |steps|)
  {
    forall t | 0 <= t < |steps| ensures steps[t].backup in Forward(fs, steps, news, |steps|) {
      var j := LastWriter(steps, t);
      BackupHoldsTheLast(fs, steps, news, j, |steps|);
    }
  }

  /** After steps and rollback, a target holds what was saved last into the backup of the first step on it. */
  lemma WhatRollbackRestores(w: World, fs: Fs, steps: seq<Step>, news: seq<string>, i: nat, j: nat)
    requires FileSteps(steps) && BackupsApart(steps) && |steps| == |news| && i <= j < |steps|
    requires (forall t :: 0 <= t < |steps| ==> steps[t].target in fs) && forall t :: w.fault(t) == NoFault
    requires Untouched(steps, steps[i].target, i) && steps[j].backup == steps[i].backup
    requires forall t :: j < t < |steps| ==> steps[t].backup != steps[i].backup
    ensures var out := Replayed(w, steps, |steps|, Forward(fs, steps, news, |steps|));
      && out.failedAt == None && steps[i].target in out.fs
      && out.fs[steps[i].target] == Forward(fs, steps, news, j)[steps[j].target]
  {
    var g := Forward(fs, steps, news, |steps|);
    BackupsExist(fs, steps, news);
    BackupHoldsTheLast(fs, steps, news, j, |steps|);
    ReplaySucceeds(w, steps, |steps|, g);
    ReplayEndsWithTheFirst(w, steps, |steps|, i, g);
  }

  /** Contents for all targets, new contents for all steps, and no fault on the way back. */
  ghost predicate Smooth(w: World, fs: Fs, steps: seq<Step>, news: seq<string>) {
    |news| == |steps| && (forall t :: 0 <= t < |steps| ==> steps[t].target in fs) && forall t :: w.fault(t) == NoFault
  }

  /** Running the steps and rolling them back restores every target. */
  ghost predicate Undone(w: World, fs: Fs, steps: seq<Step>, news: seq<string>)
    requires Smooth(w, fs, steps, news)
  {
    var out := Replayed(w, steps, |steps|, Forward(fs, steps, news, |steps|));
    out.failedAt == None && AgreeOnTargets(steps, out.fs, fs)
  }

  ghost predicate AlwaysRestored(steps: seq<Step>) {
    forall w, fs, news :: Smooth(w, fs, steps, news) ==> Undone(w, fs, steps, news)
  }

  /** The backup made before the first change of a target is not written again by a later step. */
  predicate FirstBackupsKept(steps: seq<Step>) {
    forall i, j :: 0 <= i < j < |steps| && Untouched(steps, steps[i].target, i) ==> steps[i].backup != steps[j].backup
  }

  lemma FirstStepOn(steps: seq<Step>, p: string) returns (i: nat)
    requires IsTarget(steps, p)
    ensures i < |steps| && steps[i].target == p && Untouched(steps, p, i)
  {
    i := 0;
    while steps[i].target != p
      invariant i < |steps| && Untouched(steps, p, i)
      decreases |steps| - i
    {
      i := i + 1;
    }
  }

  lemma KeptBackupsRestore(w: World, fs: Fs, steps: seq<Step>, news: seq<string>, p: string)
    requires FileSteps(steps) && BackupsApart(steps) && Smooth(w, fs, steps, news)
    requires FirstBackupsKept(steps) && IsTarget(steps, p)
    ensures SameAt(Replayed(w, steps, |steps|, Forward(fs, steps, news, |steps|)).fs, fs, p)
  {
    var i := FirstStepOn(steps, p);
    WhatRollbackRestores(w, fs, steps, news, i, i);
    UntouchedKeepsItsContents(fs, steps, news, p, i);
  }

  lemma KeptBackupsUndo(w: World, fs: Fs, steps: seq<Step>, news: seq<string>)
    requires FileSteps(steps) && BackupsApart(steps) && Smooth(w, fs, steps, news) && FirstBackupsKept(steps)
    ensures Undone(w, fs, steps, news)
  {
    BackupsExist(fs, steps, news);
    ReplaySucceeds(w, steps, |steps|, Forward(fs, steps, news, |steps|));
    forall p | IsTarget(steps, p)
      ensures SameAt(Replayed(w, steps, |steps|, Forward(fs, steps, news, |steps|)).fs, fs, p)
    {
      KeptBackupsRestore(w, fs, steps, news, p);
    }
  }

  /** Every target holds "other", except `p`, which holds "old"; every step writes "new". */
  lemma Marked(steps: seq<Step>, p: string) returns (fs: Fs, news: seq<string>)
    ensures |news| == |steps|
    ensures forall t :: 0 <= t < |steps| ==>
      && steps[t].target in fs && fs[steps[t].target] == (if steps[t].target == p then "old" else "other")
      && news[t] == "new"
  {
    fs := map t | 0 <= t < |steps| :: steps[t].target := if steps[t].target == p then "old" else "other";
    news := seq(|steps|, _ => "new");
  }

  lemma SmoothWorld(fs: Fs, steps: seq<Step>, news: seq<string>) returns (w: World)
    requires |news| == |steps| && forall t :: 0 <= t < |steps| ==> steps[t].target in fs
    ensures Smooth(w, fs, steps, news)
  {
    w := World((k, fs) => (fs, true), (b, args, fs) => (fs, true), i => NoFault);
  }

  /** A later step has overwritten the backup of the first step on a target: contents that get lost. */
  lemma OverwrittenBackupLoses(w: World, fs: Fs, steps: seq<Step>, news: seq<string>, i: nat, j: nat)
    requires FileSteps(steps) && BackupsApart(steps) && Smooth(w, fs, steps, news) && i < j < |steps|
    requires Untouched(steps, steps[i].target, i) && steps[i].backup == steps[j].backup
    requires forall t :: 0 <= t < |steps| ==>
      fs[steps[t].target] == (if steps[t].target == steps[i].target then "old" else "other") && news[t] == "new"
    ensures !Undone(w, fs, steps, news)
  {
    var k := LastWriter(steps, i);
    WhatRollbackRestores(w, fs, steps, news, i, k);
    assert IsTarget(steps, steps[k].target);
    NeverOldAgain(fs, steps, news, steps[k].target, k, i);
    var p := steps[i].target;
    assert IsTarget(steps, p);
    assert !SameAt(Replayed(w, steps, |steps|, Forward(fs, steps, news, |steps|)).fs, fs, p);
  }

  lemma {:induction false} NeverOldAgain(fs: Fs, steps: seq<Step>, news: seq<string>, p: string, k: nat, i: nat)
    requires i < k <= |steps| == |news| && BackupsApart(steps) && IsTarget(steps, p)
    requires forall t :: 0 <= t < |steps| ==> news[t] == "new" && steps[t].target in fs
    requires fs[p] == if p == steps[i].target then "old" else "other"
    ensures Forward(fs, steps, news, k)[p] != "old"
  {
    if i < k - 1 {
      NeverOldAgain(fs, steps, news, p, k - 1, i);
    } else if p != steps[i].target {
      OtherOrNew(fs, steps, news, p, k);
    }
  }

  lemma {:induction false} OtherOrNew(fs: Fs, steps: seq<Step>, news: seq<string>, p: string, k: nat)
    requires k <= |steps| == |news| && BackupsApart(steps) && IsTarget(steps, p)
    requires forall t :: 0 <= t < |steps| ==> news[t] == "new" && steps[t].target in fs
    requires fs[p] == "other"
    ensures p in fs && Forward(fs, steps, news, k)[p] != "old"
  {
    if k > 0 {
      OtherOrNew(fs, steps, news, p, k - 1);
    }
  }

  /**
    Rollback undoes the steps, whatever the contents and however often a target is changed,
    exactly when no backup made before the first change of a target is overwritten later.
   */
  lemma RestoredExactlyWhenFirstBackupsAreKept(steps: seq<Step>)
    requires FileSteps(steps) && BackupsApart(steps)
    ensures AlwaysRestored(steps) <==> FirstBackupsKept(steps)
  {
    if FirstBackupsKept(steps) {
      forall w, fs, news | Smooth(w, fs, steps, news) ensures Undone(w, fs, steps, news) {
        KeptBackupsUndo(w, fs, steps, news);
      }
    } else {
      var i, j :| 0 <= i < j < |steps| && Untouched(steps, steps[i].target, i) && steps[i].backup == steps[j].backup;
      var fs, news := Marked(steps, steps[i].target);
      var w := SmoothWorld(fs, steps, news);
      OverwrittenBackupLoses(w, fs, steps, news, i, j);
    }
  }

  /** Steps whose backups `StageFileBackup` makes in one directory. */
  function StagedSteps(dir: string, targets: seq<string>): seq<Step> {
    seq(|targets|, i requires 0 <= i < |targets| =>
      Step("restore", "", [], targets[i], Paths.BackupPath(dir, targets[i]), None))
  }

  /** For such steps: exactly when no two of them are on files of the same name, in whatever directories. */
  lemma StagedBackupsNeedDistinctNames(dir: string, targets: seq<string>)
    ensures FirstBackupsKept(StagedSteps(dir, targets)) <==>
      forall i, j :: 0 <= i < j < |targets| ==> Paths.Base(targets[i]) != Paths.Base(targets[j])
  {
    var steps := StagedSteps(dir, targets);
    forall i, j | 0 <= i < j < |targets|
      ensures steps[i].backup == steps[j].backup <==> Paths.Base(targets[i]) == Paths.Base(targets[j])
    {
      Paths.BackupsAreSharedByName(dir, targets[i], targets[j]);
    }
    if i, j :| 0 <= i < j < |targets| && Paths.Base(targets[i]) == Paths.Base(targets[j]) {
      assert IsTarget(steps, steps[i].target);
      var k := FirstStepOn(steps, steps[i].target);
      assert k <= i;
      assert steps[k].backup == steps[i].backup == steps[j].backup;
    }
  }

  /** So rollback of such steps restores all targets, whatever the contents, exactly when the file names are distinct. */
  lemma StagedStepsAreUndoneExactly(dir: string, targets: seq<string>)
    requires "" !in targets && BackupsApart(StagedSteps(dir, targets))
    ensures AlwaysRestored(StagedSteps(dir, targets)) <==>
      forall i, j :: 0 <= i < j < |targets| ==> Paths.Base(targets[i]) != Paths.Base(targets[j])
  {
    var steps := StagedSteps(dir, targets);
    assert FileSteps(steps);
    RestoredExactlyWhenFirstBackupsAreKept(steps);
    StagedBackupsNeedDistinctNames(dir, targets);
  }

  // ----- replaying a reloaded record ----------------------------------------------------------------------------

  predicate NoFunctions(steps: seq<Step>) {
    forall i :: 0 <= i < |steps| ==> steps[i].fn == None
  }

  /** A reloaded record replays like the one in memory, in every world and on every file system. */
  ghost predicate ReplaysAlike(disk: seq<Step>, steps: seq<Step>) {
    |disk| == |steps| && forall w: World, fs: Fs :: Replayed(w, disk, |steps|, fs) == Replayed(w, steps, |steps|, fs)
  }

  /** Functions always fail, commands always succeed, copies meet no fault. */
  const HOSTILE: World := World((k, fs) => (fs, false), (b, args, fs) => (fs, true), i => NoFault)

  lemma {:induction false} ReloadedSucceeds(steps: seq<Step>, k: nat, fs: Fs)
    requires k <= |steps| && NoFunctions(steps) && forall i :: 0 <= i < |steps| ==> steps[i].backup in fs
    ensures Replayed(HOSTILE, steps, k, fs).failedAt == None
    decreases k
  {
    if k > 0 {
      var (g, ok) := StepDone(HOSTILE, k - 1, steps[k - 1], fs);
      ReloadedSucceeds(steps, k - 1, g);
    }
  }

  lemma {:induction false} MemoryFails(steps: seq<Step>, k: nat, i: nat, fs: Fs)
    requires i < k <= |steps| && steps[i].fn.Some?
    ensures Replayed(HOSTILE, steps, k, fs).failedAt.Some?
    decreases k
  {
    if i < k - 1 {
      var (g, ok) := StepDone(HOSTILE, k - 1, steps[k - 1], fs);
      if ok {
        MemoryFails(steps, k - 1, i, g);
      }
    }
  }

  /** After a crash, the record on disk does the same as the one in memory exactly when no step carries a function. */
  lemma ReloadIsFaithfulExactlyWithoutFunctions(steps: seq<Step>)
    ensures ReplaysAlike(Reloaded(steps), steps) <==> NoFunctions(steps)
  {
    if NoFunctions(steps) {
      assert Reloaded(steps) == steps;
    } else {
      var i :| 0 <= i < |steps| && steps[i].fn.Some?;
      var fs: Fs := map j | 0 <= j < |steps| :: steps[j].backup := "";
      forall j | 0 <= j < |steps| ensures Reloaded(steps)[j].backup in fs {}
      ReloadedSucceeds(Reloaded(steps), |steps|, fs);
      MemoryFails(steps, |steps|, i, fs);
    }
  }

  lemma SameRecordReloads(disk: WalRecord, given: WalRecord)
    requires SameRecord(disk, given)
    ensures disk.steps == Reloaded(given.steps)
  {
    forall i | 0 <= i < |disk.steps| ensures disk.steps[i] == Reloaded(given.steps)[i] {
      assert SameStep(disk.steps[i], given.steps[i]);
    }
  }

  /** The record that the journal holds after a crash replays like the staged one exactly when no staged step carries a function. */
  lemma JournalReplaysExactlyWithoutFunctions(ops: seq<Op>, i: nat, tx: string)
    requires LastStaging(ops, i, tx)
    ensures var files := DirectoryAfter(ops);
            var staged := ops[i].rec.steps;
      && tx in files && files[tx].Whole?
      && (ReplaysAlike(files[tx].rec.steps, staged) <==> NoFunctions(staged))
  {
    StagedRecordsAreKept(ops, i, tx);
    SameRecordReloads(DirectoryAfter(ops)[tx].rec, ops[i].rec);
    ReloadIsFaithfulExactlyWithoutFunctions(ops[i].rec.steps);
  }
}
