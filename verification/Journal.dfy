/**
  The write-ahead journal of `internal/rollback/journal.go`.

  A journal directory maps transaction IDs to files.  `writeAndSync` truncates a file before it
  writes it, so a file is whole or torn.  JSON leaves out the in-memory `CompensatingFn` of a step.
 */
module Journal {
  import opened Wrappers
  import opened Wal

  /** `fn` identifies the step's `CompensatingFn`, if it has one. */
  datatype Step = Step(name: string, binary: string, args: seq<string>, target: string, backup: string, fn: Option<nat>)

  datatype WalRecord = WalRecord(tx: string, runbookID: string, resourceID: string, state: WalState, steps: seq<Step>)

  datatype WalFile = Torn | Whole(rec: WalRecord)

  type Directory = map<string, WalFile>

  /**
    How a write ends: the file cannot be opened, the write dies after truncation, everything is
    written but the sync fails, or everything succeeds.
   */
  datatype Io = OpenFails | Dies | SyncFails | Completes

  /** The steps as they come back from disk. */
  function Reloaded(steps: seq<Step>): seq<Step> {
    seq(|steps|, i requires 0 <= i < |steps| => steps[i].(fn := None))
  }

  function Serialized(rec: WalRecord): WalRecord {
    rec.(steps := Reloaded(rec.steps))
  }

  function Written(files: Directory, rec: WalRecord, io: Io): Directory {
    match io
    case OpenFails => files
    case Dies => files[rec.tx := Torn]
    case _ => files[rec.tx := Whole(Serialized(rec))]
  }

  /** The directory after `UpdateState`: a missing or torn record is left alone. */
  function Updated(files: Directory, tx: string, st: WalState, io: Io): Directory {
    if tx in files && files[tx].Whole? then Written(files, files[tx].rec.(state := st, tx := tx), io) else files
  }

  class JournalDir {
    var files: Directory

    constructor ()
      ensures files == map[]
    {
      files := map[];
    }

    method WriteAndSync(rec: WalRecord, io: Io) returns (ok: bool)
      modifies this
      ensures files == Written(old(files), rec, io) && (ok <==> io == Completes)
    {
      if io == OpenFails {
        return false;
      }
      files := files[rec.tx := Torn];
      if io == Dies {
        return false;
      }
      files := files[rec.tx := Whole(Serialized(rec))];
      return io == Completes;
    }

    /** On success the caller gets the record with its functions; the disk gets it without, also when only the sync fails. */
    method Stage(tx: string, runbookID: string, resourceID: string, steps: seq<Step>, io: Io)
      returns (rec: Option<WalRecord>)
      modifies this
      ensures var r := WalRecord(tx, runbookID, resourceID, Prepared, steps);
        files == Written(old(files), r, io) && rec == if io == Completes then Some(r) else None
    {
      var r := WalRecord(tx, runbookID, resourceID, Prepared, steps);
      var ok := WriteAndSync(r, io);
      rec := if ok then Some(r) else None;
    }

    method UpdateState(tx: string, st: WalState, io: Io) returns (ok: bool)
      modifies this
      ensures files == Updated(old(files), tx, st, io)
      ensures ok <==> tx in old(files) && old(files)[tx].Whole? && io == Completes
    {
      if tx !in files || files[tx].Torn? {
        return false;
      }
      ok := WriteAndSync(files[tx].rec.(state := st, tx := tx), io);
    }

    /** `names` is the directory listing. */
    method ListPending(names: seq<string>) returns (pending: seq<WalRecord>)
      requires forall tx :: tx in names <==> tx in files
      ensures forall rec :: rec in pending <==>
        (rec.state == Prepared || rec.state == WalRollingBack) && exists tx :: tx in files && files[tx] == Whole(rec)
      ensures |pending| <= |names|
    {
      pending := [];
      var i := 0;
      while i < |names|
        invariant 0 <= i <= |names| && |pending| <= i
        invariant forall rec :: rec in pending <==>
          exists tx :: tx in names[..i] && files[tx] == Whole(rec) && Pending(rec.state)
      {
        var file := files[names[i]];
        ghost var before := pending;
        if file.Whole? && Pending(file.rec.state) {
          pending := pending + [file.rec];
        }
        ListingGrows(names, i, before, pending, files);
        i := i + 1;
      }
      assert names[..i] == names;
    }
  }

  lemma ListingGrows(names: seq<string>, i: nat, before: seq<WalRecord>, after: seq<WalRecord>, files: Directory)
    requires i < |names| && (forall tx :: tx in names ==> tx in files)
    requires forall rec :: rec in before <==>
      exists tx :: tx in names[..i] && files[tx] == Whole(rec) && Pending(rec.state)
    requires var file := files[names[i]];
      after == before + (if file.Whole? && Pending(file.rec.state) then [file.rec] else [])
    ensures forall rec :: rec in after <==>
      exists tx :: tx in names[..i + 1] && files[tx] == Whole(rec) && Pending(rec.state)
  {
    assert names[..i + 1] == names[..i] + [names[i]];
    forall rec
      ensures rec in after <==> exists tx :: tx in names[..i + 1] && files[tx] == Whole(rec) && Pending(rec.state)
    {
      if rec in after && rec !in before {
        assert names[i] in names[..i + 1] && files[names[i]] == Whole(rec);
      }
      if rec in before {
        var tx :| tx in names[..i] && files[tx] == Whole(rec) && Pending(rec.state);
        assert tx in names[..i + 1];
      }
    }
  }

  // ----- journal histories -----------------------------------------------------------------------------

  datatype Op = StageOp(rec: WalRecord, io: Io) | UpdateOp(tx: string, st: WalState, io: Io)

  function TxOf(op: Op): string {
    if op.StageOp? then op.rec.tx else op.tx
  }

  function Do(files: Directory, op: Op): Directory {
    match op
    case StageOp(rec, io) => Written(files, rec.(state := Prepared), io)
    case UpdateOp(tx, st, io) => Updated(files, tx, st, io)
  }

  function DirectoryAfter(ops: seq<Op>): Directory {
    if ops == [] then map[] else Do(DirectoryAfter(ops[..|ops| - 1]), ops[|ops| - 1])
  }

  /** The newest state whose write was begun since the transaction was staged. */
  function Newest(ops: seq<Op>, tx: string): Option<WalState> {
    if ops == [] then None
    else
      var before, op := Newest(ops[..|ops| - 1], tx), ops[|ops| - 1];
      if TxOf(op) != tx || op.io == OpenFails then before
      else if op.StageOp? then Some(Prepared)
      else if before.Some? then Some(op.st) else None
  }

  /** No crash fell between truncation and completed write of this transaction; for others it may have. */
  predicate Untorn(ops: seq<Op>, tx: string) {
    forall i :: 0 <= i < |ops| && TxOf(ops[i]) == tx ==> ops[i].io != Dies
  }

  predicate Listed(files: Directory, tx: string) {
    tx in files && files[tx].Whole? && Pending(files[tx].rec.state)
  }

  /**
    As long as no crash tears a transaction's file, it says exactly what was last written to
    it: it is listed as pending exactly when it was staged and has not since been COMMITTED,
    ROLLED_BACK or FAILED.
   */
  lemma {:induction false} JournalRemembers(ops: seq<Op>, tx: string)
    requires Untorn(ops, tx)
    ensures var files := DirectoryAfter(ops);
      && (tx in files <==> Newest(ops, tx).Some?)
      && (tx in files ==> files[tx].Whole? && Some(files[tx].rec.state) == Newest(ops, tx) && files[tx].rec.tx == tx)
      && (Listed(files, tx) <==> Newest(ops, tx).Some? && Pending(Newest(ops, tx).value))
  {
    if ops != [] {
      JournalRemembers(ops[..|ops| - 1], tx);
    }
  }

  /** What is on disk of a step: everything but its function. */
  predicate SameStep(disk: Step, given: Step) {
    && disk.name == given.name && disk.binary == given.binary && disk.args == given.args
    && disk.target == given.target && disk.backup == given.backup && disk.fn == None
  }

  /** What is on disk of a record, apart from its state. */
  predicate SameRecord(disk: WalRecord, given: WalRecord) {
    && disk.tx == given.tx && disk.runbookID == given.runbookID && disk.resourceID == given.resourceID
    && |disk.steps| == |given.steps|
    && forall i :: 0 <= i < |disk.steps| ==> SameStep(disk.steps[i], given.steps[i])
  }

  predicate Stages(op: Op, tx: string) {
    op.StageOp? && op.rec.tx == tx && op.io != OpenFails
  }

  /** The staging `ops[i]` is the last one of this transaction that got at the disk, and no write to its file has died since. */
  predicate LastStaging(ops: seq<Op>, i: nat, tx: string) {
    && i < |ops| && Stages(ops[i], tx)
    && (forall j :: i < j < |ops| ==> !Stages(ops[j], tx))
    && (forall j :: i <= j < |ops| && TxOf(ops[j]) == tx ==> ops[j].io != Dies)
  }

  lemma SerializedKeeps(rec: WalRecord, given: WalRecord, st: WalState)
    requires rec == given || SameRecord(rec, given)
    ensures SameRecord(Serialized(rec.(state := st)), given)
  {}

  /**
    The journal keeps what was staged: whatever was written before and whatever state updates
    came since, the file holds the runbook, the resource and all steps of the last staging, in
    order, each with its name, command, arguments, target and backup.
   */
  lemma {:induction false} StagedRecordsAreKept(ops: seq<Op>, i: nat, tx: string)
    requires LastStaging(ops, i, tx)
    ensures var files := DirectoryAfter(ops);
      tx in files && files[tx].Whole? && SameRecord(files[tx].rec, ops[i].rec)
  {
    var n := |ops| - 1;
    var before, op := DirectoryAfter(ops[..n]), ops[n];
    if i == n {
      SerializedKeeps(op.rec, op.rec, Prepared);
    } else {
      assert ops[..n][i] == ops[i];
      StagedRecordsAreKept(ops[..n], i, tx);
      if op.UpdateOp? && op.tx == tx {
        assert before[tx].rec.(state := op.st, tx := tx) == before[tx].rec.(state := op.st);
        SerializedKeeps(before[tx].rec, ops[i].rec, op.st);
      }
    }
  }

  /** A pending transaction is missing from the list only through a crash between truncation and completed write. */
  lemma MissingOnlyThroughTear(ops: seq<Op>, tx: string)
    requires Newest(ops, tx).Some? && Pending(Newest(ops, tx).value) && !Listed(DirectoryAfter(ops), tx)
    ensures exists i :: 0 <= i < |ops| && TxOf(ops[i]) == tx && ops[i].io == Dies
  {
    if Untorn(ops, tx) {
      JournalRemembers(ops, tx);
    }
  }

  /** A staging of which only the sync fails gives the caller no record, and leaves a pending one. */
  lemma UnsyncedStagingIsListed(files: Directory, rec: WalRecord)
    ensures Listed(Do(files, StageOp(rec, SyncFails)), rec.tx)
  {}

  /** A write that dies loses the record for good: no later update brings it back, only a new staging does. */
  lemma {:induction false} TornStaysTorn(files: Directory, tx: string, ops: seq<Op>)
    requires tx in files && files[tx].Torn?
    requires forall i :: 0 <= i < |ops| ==> ops[i].UpdateOp?
    ensures var after := DoAll(files, ops); tx in after && after[tx].Torn? && !Listed(after, tx)
    decreases |ops|
  {
    if ops != [] {
      TornStaysTorn(Do(files, ops[0]), tx, ops[1..]);
    }
  }

  /** A write that dies behind the truncation: the staging of a record, or an update of a readable one. */
  lemma DyingWriteLosesTheRecord(ops: seq<Op>, op: Op, later: seq<Op>)
    requires op.io == Dies
    requires op.StageOp? || (op.tx in DirectoryAfter(ops) && DirectoryAfter(ops)[op.tx].Whole?)
    requires forall i :: 0 <= i < |later| ==> later[i].UpdateOp?
    ensures var after := DoAll(Do(DirectoryAfter(ops), op), later);
      TxOf(op) in after && after[TxOf(op)].Torn? && !Listed(after, TxOf(op))
  {
    TornStaysTorn(Do(DirectoryAfter(ops), op), TxOf(op), later);
  }

  function DoAll(files: Directory, ops: seq<Op>): Directory
    decreases |ops|
  {
    if ops == [] then files else DoAll(Do(files, ops[0]), ops[1..])
  }
}
