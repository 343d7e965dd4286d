# Remediation engine: a verified model

The repository is a self-remediation daemon.  An alert resolves to a runbook; the engine takes an
advisory lock on the resource, asks a flap-damping circuit breaker, checks preconditions, writes a
write-ahead record, executes the runbook's actions, checks postconditions, and then commits or
replays compensating steps in reverse.  Every state change goes to a hash-chained audit ledger.

This project models that core and proves what it guarantees over all inputs, all call sequences and
all interleavings.

| module | models |
|---|---|
| `Fsm` | the 11-state remediation state machine |
| `Damping`, `DampingProperties` | the sliding-window circuit breaker, and its behaviour over whole call sequences |
| `Engine` | any number of concurrent `Remediate` runs as a step machine over lock table, ledger, journal and damping, with crashes at any step |
| `EngineRuns`, `EngineSystem`, `EngineStores`, `EngineDamping`, `EngineLimits` | the invariant of a run, and what holds of the system in every interleaving |
| `Remediation`, `RemediationProperties` | `Remediate` as sequential code with its loops and early returns, proved to take exactly the steps of the step machine |
| `Audit`, `AuditProperties` | ledger, reopening, verification, tamper evidence |
| `Wal`, `Journal`, `Rollback`, `Paths` | write-ahead journal, reverse compensation, replay after reload |
| `Executor`, `DiskCleanup`, `TlsRotation` | the mutation branch of the executor, the prune loop, the certificate swap and its undo |
| `Locks` | lock file names, non-blocking locks with idempotent release |
| `Yaml`, `YamlProperties`, `YamlNesting`, `YamlValues` | the indentation-based YAML reader, its progress, how far it reads, and which keys, values and items it returns |
| `YamlTrees`, `YamlRoundTrip`, `YamlText` | trees with a printer, what the reader makes of them, and the round trip through lines and text |
| `YamlScanning` | how an arbitrary text becomes lines: rows, quotes, comments, blanks, colons, dashes and quoted scalars |
| `Wrappers`, `Strings` | optional values and results, equal concatenations |

How the model is built:

- Time is an integer number of nanoseconds.  Calls receive their clock readings as parameters; a
  clock never runs backwards.
- Probe results, action results, store errors, clock advances and the interleaving come in through
  the labels of the step machine (`Engine.Label`), so a list of labels is a run of the system and
  every run is a list of labels.
- The digest is an arbitrary function with 64-character results.  Nothing assumes that it is free
  of collisions: tamper evidence says "equal, or here is a collision".
- Imperative code is modelled as methods on classes, each proved against a function on values; the
  theorems about whole histories are then about those functions.

Where code and documentation disagree, the model follows the code:

- The README of the repository limits disk cleanup to 500 MB per run; the code clamps at 20 GB
  (`internal/runbooks/runbooks.go:80-82`).
- Comments in `internal/damping/damping.go:84` state the 10-minute rule as a count of at most 2; the
  code refuses the execution that would be the third (`internal/damping/damping.go:131`).
- ESCALATED after a failed staging is refused by the transition table but written to the ledger
  (`internal/engine/engine.go:396-397`).
- The reported `FinalState` is not always the state in which the FSM ends: a damped or prechecked
  run reports PRECHECK_FAILED and a rolled back one ROLLED_BACK, while the FSM ends in ESCALATED.

Properties that turn out false of the code have their exact condition proved:

- The rate limits hold in every interleaving if and only if jobs that share a damping key share a
  lock path (`EngineLimits.LimitsHoldExactlyForCompatibleJobs`): the lock is keyed by the alert's
  resource, damping by the runbook's target.  One runbook and two alerts are enough to break them
  (`EngineLimits.OneRunbookTwoResources`).
- Rollback restores all targets whatever their contents if and only if no backup made before the
  first change of a target is overwritten later; for backups made by `StageFileBackup` in one
  directory, if and only if the file names are distinct
  (`Rollback.RestoredExactlyWhenFirstBackupsAreKept`, `Rollback.StagedStepsAreUndoneExactly`).
- A reloaded write-ahead record replays like the one in memory if and only if no step carries a
  function (`Rollback.ReloadIsFaithfulExactlyWithoutFunctions`, and of what the journal holds
  `Rollback.JournalReplaysExactlyWithoutFunctions`).
- A certificate swap whose compensating step follows at once is undone if and only if, for each of
  the two resolved files, what the step writes to it, if anything, is what it held, or nothing is
  written to it and the swap did not replace it (`TlsRotation.UndoExactly`, for every failure point,
  with or without backup directory, existing files, written backups and configured paths, and for one
  combined file).  The default configuration with the gateway as target reaches the failure
  (`TlsRotation.DefaultConfigurationLosesTheGateway`).
- The runs of that runbook share their captured backup paths.  A compensating step restores what the
  resolved files of the last swap held just before it, whoever made that swap
  (`TlsRotation.TheLastSwapDecides`); with fresh contents a run that replaced the configured cert is
  undone if and only if no run has swapped in between
  (`TlsRotation.UndoneExactlyWithoutSwapsInBetween`).  Two alerts under the default configuration give
  the proxy the certificate and key of the gateway (`TlsRotation.TheProxyGetsTheGatewaysFiles`).
- An accepted ledger stays accepted under appends and reopens, whatever fails, if and only if no
  write reaches the file behind a failed sync without a reopen in between, no write is cut short
  inside its record, and nothing reaches the file behind a write cut at its newline
  (`AuditProperties.AcceptedExactlyWhenOrderly`).  One short write, as on a full disk, gets the log
  rejected for good (`AuditProperties.ShortWriteIsFatal`).
- The pending transactions are exactly those staged, not finished and not torn, and those left by a
  staging of which only the sync failed, although that is reported as a failure and nothing is
  executed (`EngineStores.PendingIsExact`, `EngineStores.UnsyncedStagingStaysPending`).
- The rate limits are on committed executions: any number of runs of one job can each dispatch an
  action at one instant with nothing recorded (`EngineLimits.ActionsAreNotLimited`).
- A printed tree without repeated keys is read back as what it means if and only if no list holds a
  scalar with a colon, quoted or not, and no mapping that starts on the line of a dash has an empty
  value (`YamlRoundTrip.BlockRoundTripExactly`, `YamlText.DocumentRoundTripExactly`).
- A document is read to its end if and only if one pass with a stack of enclosing blocks finds a place
  for every line; from the first line without one, everything is ignored without an error
  (`YamlNesting.ReadsAsFarAsLinesHavePlaces`).  For mapping lines this is nesting by indentation
  (`YamlProperties.ReadToTheEndExactly`).
- A list written at its key's own indentation, which YAML allows, is lost: its lines are taken, and
  the key is null (`YamlValues.ListAtItsKeysIndentation`).  What is read of any block is settled by
  `YamlValues.MappingExactly`, `YamlValues.ListExactly` and `YamlValues.ItemExactly`.
- The first check at the end of an automatic quarantine is accepted if and only if fewer than four
  executions lie at the instant of the trip, or the quarantine is over for more than an instant
  (`DampingProperties.VerdictAfterQuarantine`); gated histories always satisfy this.

## Model

| member | source | states |
|---|---|---|
| Fsm.Machine.Transition | internal/model/state.go:145-167 | a legal target is appended to the history, anything else changes nothing and is refused |
| Fsm.NewFSM | internal/model/state.go:119-134 | a machine exists exactly for listed states, with the initial state as its history |
| Fsm.IsValidState | internal/model/state.go:79-86 | the search loop finds exactly the eleven states |
| Fsm.EveryDriveIsMonotonic | internal/model/state.go:42-76 | after any sequence of requests, legal or not, the history is a path of the table without repetition, at most 8 long, and COMMITTED is only reached by the one path through PRECHECK_PASSED, EXECUTING and POSTCHECK_PASSED |
| Fsm.EveryPathCanBeDriven | internal/model/state.go:145-167 | conversely every path of the table is the history of some sequence of requests |
| Fsm.HistoriesExactly | internal/model/state.go:42-76 | the histories of a machine that starts in DETECTED are exactly the nonempty prefixes of five listed runs |
| Fsm.TerminalStatesAreTheSinks | internal/model/state.go:99-101 | the terminal states, and strings that are no state, are exactly those without a successor |
| Damping.Controller.CanExecute | internal/damping/damping.go:88-155 | decision and new state are those of the rules in their order: quarantine, lazy expiry, cooldown, 10-minute, 1-hour; every breach trips the breaker; the state file follows; what these rules amount to on whole histories is `DampingProperties.DecisionExactly` |
| Damping.Controller.RecordExecutionAt | internal/damping/damping.go:163-189 | the execution is appended and everything 24 hours old forgotten, for this resource only |
| Damping.Controller.Trip | internal/damping/damping.go:193-202 | manual quarantine, with the default duration for a non-positive one |
| Damping.Controller.TripLocked | internal/damping/damping.go:205-217 | quarantine fields set, execution list kept |
| Damping.Controller.Reset | internal/damping/damping.go:220-226 | the resource is as if never seen |
| Damping.CountWithin | internal/damping/damping.go:125-130 | the counting loop counts exactly the executions at most one window old |
| DampingProperties.PruningIsInvisible | internal/damping/damping.go:124-186 | on every timely call sequence the pruning controller decides and quarantines exactly like one that never forgets |
| DampingProperties.DecisionExactly | internal/damping/damping.go:111-155 | on every timely call sequence a check outside quarantine answers what the full history calls for, reason, age and count included: cooldown if the last execution is less than 300 s old, else the 10-minute rule if the second last is at most 600 s old, else the hour rule if the fourth last is at most 3600 s old, else acceptance |
| DampingProperties.AcceptedExactly | internal/damping/damping.go:111-155 | accepted exactly when the last execution is at least 300 s old, the second last more than 600 s and the fourth last more than 3600 s |
| DampingProperties.HourRuleBitesExactly | internal/damping/damping.go:139-152 | in gated histories the hour rule refuses exactly when the fourth last execution is at most 3600 s old, the last at least 300 s, and it is not the instant of the 10-minute rule |
| DampingProperties.QuarantinedExactly | internal/damping/damping.go:98-109 | a resource is refused as quarantined exactly until the end of the last quarantine imposed since its last reset: an hour from a breach, or the duration of a manual trip; with that expiry and reason, whatever was checked or recorded since |
| DampingProperties.AcceptanceLifts | internal/damping/damping.go:98-109 | an accepted check leaves no trace of an expired quarantine and keeps the executions |
| DampingProperties.KeptExactly | internal/damping/damping.go:163-189 | on every timely call sequence the kept executions are exactly those less than 24 hours older than the last one |
| DampingProperties.RetainedListIsBounded | internal/damping/damping.go:176-186 | on every gated call sequence at most 96 executions of a resource are kept |
| DampingProperties.GatedHistoriesAreWithinLimits | internal/damping/damping.go:88-189 | the full history, forgotten entries included, has gaps of 300 s, at most 2 entries in every closed 10 minutes and at most 4 in every closed hour |
| DampingProperties.SpacedBoundsWindows | internal/damping/damping.go:124-152 | looking back from each execution bounds every closed window anywhere in the history |
| DampingProperties.TenMinuteRuleBitesAtOneInstant | internal/damping/damping.go:111-137 | in gated histories the 10-minute rule refuses exactly when the last two executions are 600 s and 300 s old |
| DampingProperties.PollingNeverExtends | internal/damping/damping.go:98-109 | any number of polls during quarantine leave the state, and so the expiry, unchanged |
| DampingProperties.PollsAreRefused | internal/damping/damping.go:98-109 | every such poll is refused as quarantined |
| DampingProperties.VerdictAfterQuarantine | internal/damping/damping.go:111-155 | exactly when the first check at or after the end of an automatic quarantine is accepted |
| DampingProperties.NoLockoutByPolling | internal/damping/damping.go:98-155 | after an automatic trip polls are refused without moving the expiry, and the first check at or after it is accepted |
| DampingProperties.ResourcesAreIndependent | internal/damping/damping.go:88-226 | each resource's state is what its own calls alone produce |
| Locks.NamesStayInTheDirectory | internal/lock/lock.go:52-76 | the lock file name is nonempty, bounded and free of separators, whatever the resource is called |
| Locks.PlainNamesAreShown | internal/lock/lock.go:52-76 | a name of up to 64 letters, digits, dashes and inner underscores appears unchanged in its lock path |
| Locks.ShownExactly | internal/lock/lock.go:52-76 | any name is shown without the foreign characters and underscores at its ends, every foreign character in between an underscore, cut at 64, or as `res` when nothing is left |
| Locks.LocksAreSharedExactly | internal/lock/lock.go:52-76 | two resources share a lock path exactly when shown part and shortened digest agree |
| Locks.Coordinator.TryLockPath | internal/lock/lock.go:85-111 | the lock is obtained exactly when the file opens and nobody holds it; otherwise nothing changes |
| Locks.ResourceLock.Unlock | internal/lock/lock.go:115-129 | the first release frees the own lock, every further one changes nothing |
| Locks.AlwaysExact | internal/lock/lock.go:79-129 | in every call sequence a path is taken exactly while one unreleased lock object on it exists, and by that object |
| Locks.OneHolderPerPath | internal/lock/lock.go:79-129 | two lock objects on one path are never both unreleased |
| Locks.UnlockAgainIsHarmless | internal/lock/lock.go:113-129 | releasing again, at any later time, never frees the lock of whoever took the path meanwhile |
| Locks.FreeExactlyWhenReleased | internal/lock/lock.go:85-129 | a path is taken exactly when some lock object on it is unreleased |
| EngineRuns.StepKeepsRunOk | internal/engine/engine.go:259-525 | every step of a run keeps the invariant that ties program point, FSM history, ledger entries, WAL state, lock and the lists of evaluated conditions, actions and compensating steps |
| EngineSystem.ReachableRunOk | internal/engine/engine.go:259-525 | that invariant holds of every run in every interleaving |
| EngineSystem.ReachableLocksOk | internal/engine/engine.go:320-339 | the lock table says exactly which runs hold their lock |
| EngineSystem.MutualExclusion | internal/engine/engine.go:320-339 | at most one run per lock path is ever between its lock and its return |
| EngineSystem.LocksAreFreeInTheEnd | internal/engine/engine.go:339-339 | once every run has returned or died every lock is free |
| EngineSystem.CommittedExactlyOnSuccess | internal/engine/engine.go:410-476 | the result is COMMITTED exactly when the WAL was staged and all actions and postconditions succeeded |
| EngineSystem.FaultsAreRolledBack | internal/engine/engine.go:478-525 | otherwise nothing was dispatched, or a fault occurred after staging and the compensating steps were replayed from the last one down, all or up to the first that failed |
| EngineSystem.ReachableLedgerOk | internal/engine/engine.go:285-525 | in every interleaving the entries of each run in the shared ledger are what it logged, in its order, and there are no others |
| EngineSystem.LedgerMatchesFsm | internal/engine/engine.go:285-525 | the entries of a run in the shared ledger are its FSM history, a path to a terminal state; after a failed staging there is exactly one ESCALATED more and the FSM rests in PRECHECK_PASSED |
| EngineStores.ReachableJournalOk | internal/engine/engine.go:391-520 | the readable records are exactly the last states that staged runs got written and no failing write tore, and the PREPARED ones left by stagings reported as failed |
| EngineStores.PendingIsExact | internal/rollback/journal.go:120-172 | the pending transactions are exactly those staged, not finished and not torn by a write that failed behind the truncation of the file, and those left by a staging of which only the sync failed |
| EngineStores.UnsyncedStagingStaysPending | internal/rollback/journal.go:137-139 | after a staging of which only the sync fails the run never dispatches an action, yet its transaction is pending whatever happens later |
| EngineStores.CrashAfterActionIsVisible | internal/engine/engine.go:391-430 | whoever has dispatched an action has a record with the state last written, exactly unless a write tore it |
| EngineStores.TornOnlyByAWrite | internal/rollback/journal.go:120-142 | a record is only ever torn by a write that fails behind the truncation of the file |
| EngineStores.ActionsAreGuarded | internal/engine/engine.go:320-430 | when an action is dispatched the run holds the lock, was admitted, found all preconditions true and has a PREPARED record; the action is the next one of the runbook and all earlier ones succeeded |
| EngineStores.StoresAgree | internal/engine/engine.go:453-463 | damping records <= COMMITTED ledger entries <= COMMITTED WAL records <= POSTCHECK_PASSED ledger entries, first and last differing by at most the runs in flight or dead |
| EngineDamping.RateLimitsHold | internal/engine/engine.go:320-463 | in every interleaving in which runs sharing a key share a lock, the full history of every key keeps all three limits in every window |
| EngineDamping.QuarantineHolds | internal/damping/damping.go:98-109 | in every interleaving, with crashes and operators tripping other keys, no run is admitted under a quarantined key before its quarantine is over, and the end does not move |
| EngineDamping.BreachQuarantines | internal/damping/damping.go:205-217 | a breach at the gate starts such a quarantine, of an hour from the second clock reading |
| EngineDamping.TripQuarantines | internal/damping/damping.go:193-202 | so does an operator, for the duration asked for or an hour |
| EngineLimits.IncompatibleJobsRace | internal/engine/engine.go:321-347 | for any two jobs with one key and two locks, a trace that records two executions at one instant |
| EngineLimits.LimitsHoldExactlyForCompatibleJobs | internal/engine/engine.go:320-463 | for any set of jobs the limits hold in all interleavings exactly when jobs that share a key share a lock |
| EngineLimits.OneRunbookTwoResources | internal/engine/engine.go:321-347 | one runbook with a target and two alerts on resources with different lock files break the limits of the target |
| EngineLimits.LimitsOfEngineJobs | internal/engine/engine.go:320-463 | for jobs locked by their alert's resource: exactly when alerts under one key are on resources with one lock name |
| EngineLimits.WithoutTargetsLimitsHold | internal/engine/engine.go:342-347 | runbooks without a target are damped by the resource of the alert, and the limits then always hold |
| EngineLimits.ActionsAreNotLimited | internal/engine/engine.go:453-463 | for every job with an action and every n, a trace in which n runs of it dispatch an action at one instant and nothing is recorded |
| Remediation.RemediationEngine.Remediate | internal/engine/engine.go:259-525 | every call returns, by steps of the step machine only; how it ends is foretold by the alert, the locks and damping state it finds and the answers of conditions, staging, actions and compensating steps, one guard after the other |
| Remediation.RemediationEngine.Match | internal/engine/engine.go:285-318 | DETECTED and EVALUATING are logged, or ESCALATED without a runbook, as the step machine does |
| Remediation.RemediationEngine.TryLock | internal/engine/engine.go:320-339 | the lock is taken exactly when it opens and nobody holds it; otherwise PRECHECK_FAILED and ESCALATED are logged |
| Remediation.RemediationEngine.CanExecute | internal/engine/engine.go:341-364 | the run goes on exactly when damping accepts under the key of the job |
| Remediation.RemediationEngine.Precheck | internal/engine/engine.go:366-386 | the run goes on exactly when all preconditions hold; the first false one ends it |
| Remediation.RemediationEngine.Stage | internal/engine/engine.go:388-408 | the WAL record before any mutation, or the refused ESCALATED, with or without a record left behind |
| Remediation.RemediationEngine.RunActions | internal/engine/engine.go:418-430 | an action failure is found exactly when some action fails; the first ends the loop |
| Remediation.RemediationEngine.CheckPostconditions | internal/engine/engine.go:432-443 | the same for unmet postconditions |
| Remediation.RemediationEngine.Commit | internal/engine/engine.go:453-476 | ledger, FSM, WAL, ledger, damping, in this order |
| Remediation.RemediationEngine.ExecuteRollback | internal/rollback/rollback.go:27-54 | ROLLING_BACK, the steps from the last one down, then ROLLED_BACK or, at the first failure, FAILED |
| Remediation.RemediationEngine.Recover | internal/engine/engine.go:478-525 | the fault path: rolled back exactly when every compensating step succeeds, in ESCALATED either way |
| RemediationProperties.CallsAreInterleavings | internal/engine/engine.go:259-525 | a call of the sequential code after any interleaving is itself an interleaving, so every theorem about those applies |
| RemediationProperties.CallsAreHonest | internal/engine/engine.go:465-525 | the result is determined by what the run did: success exactly after staging and all actions and postconditions, rolled back exactly when something failed after staging and all compensating steps ran from the last one down, the reported state and the whole FSM history one for each such outcome; the execution is recorded exactly on success, and no lock is left |
| Audit.VerifyLedgerReader | internal/audit/verify.go:33-98 | a log is accepted exactly when every line parses and the records form an unbroken chain; the total is their number as a 64-bit counter, the tail the last hash, the genesis the first pointer |
| Audit.NewLedger | internal/audit/ledger.go:80-140 | opening succeeds exactly on files that parse and stands at the tail of the file, or at genesis |
| Audit.Ledger.Append | internal/audit/ledger.go:144-196 | the new record continues the object's chain; nothing written, a write cut inside the record or at its newline, and a failed sync all leave the object's tail where it was, and the file as far as it got |
| Audit.RejectionIsFinal | internal/audit/verify.go:40-85 | acceptance is prefix-closed: no line that follows repairs a bad one |
| Audit.PreimageLayout | internal/audit/ledger.go:45-57 | the hashed text is the pointer, the eight number bytes and the fields |
| Audit.BodyLayout | internal/audit/ledger.go:45-57 | where in it each field lies: timestamp, resource, state, runbook, payload digest |
| Audit.FirstRecord | internal/audit/ledger.go:35-42 | the first record of a new ledger has number 0 and points at the digest of the salt, the host name or its default, and INIT |
| AuditProperties.BigEndianRoundTrip | internal/audit/ledger.go:45-57 | the eight number bytes determine the number |
| AuditProperties.PreimageFixes | internal/audit/ledger.go:45-57 | a preimage determines chain pointer, number and concatenated fields, and nothing more |
| AuditProperties.SameTailMeansSameLog | internal/audit/verify.go:33-98 | two accepted logs with the same tail contain a collision, or have equal length and equal pointer, number, hash and field text at every position |
| AuditProperties.LengthsFixFields | internal/audit/ledger.go:45-57 | with equal field lengths the fields themselves are equal |
| AuditProperties.HostNameIsNotCovered | internal/audit/ledger.go:45-57 | replacing a host name never changes the verdict |
| AuditProperties.BoundariesAreNotCovered | internal/audit/ledger.go:45-57 | moving a field boundary never changes the verdict |
| AuditProperties.ReopeningIsInvisible | internal/audit/ledger.go:80-196 | any mix of reopens and appends that get through or leave nothing gives the ledger of the appends alone |
| AuditProperties.AcceptedExactlyWhenOrderly | internal/audit/ledger.go:80-196 | for every list of appends and reopens, whatever fails, an accepted file stays accepted exactly when no write reaches it behind a failed sync without a reopen in between, no write is cut inside its record, and nothing reaches it behind a write cut at its newline |
| AuditProperties.AcceptedStaysAccepted | internal/audit/ledger.go:80-196 | in particular when every write gets through or leaves nothing |
| AuditProperties.RejectedStaysRejected | internal/audit/verify.go:40-85 | a rejected file never becomes accepted, whatever is done to it and whatever fails |
| AuditProperties.FailedSyncNeedsReopen | internal/audit/ledger.go:144-196 | after a failed sync a reopen heals the chain, while a write on the same object breaks it whatever follows |
| AuditProperties.ShortWriteIsFatal | internal/audit/ledger.go:182-184 | after a write cut inside its record the file is rejected for good and cannot be opened again |
| AuditProperties.MissingNewlineIsLatent | internal/audit/ledger.go:179-184 | after a write cut at its newline the file is accepted and opens, exactly until the next write that reaches it |
| Journal.JournalDir.WriteAndSync | internal/rollback/journal.go:120-142 | the file is untouched, torn or whole; success means whole and synced, and a failed sync leaves it whole; what a whole file holds is in `Journal.StagedRecordsAreKept` |
| Journal.JournalDir.Stage | internal/rollback/journal.go:59-79 | a PREPARED record on disk without functions, also when only the sync fails; the same one with functions in memory only on success |
| Journal.JournalDir.UpdateState | internal/rollback/journal.go:82-95 | only a readable record changes, and only its state |
| Journal.JournalDir.ListPending | internal/rollback/journal.go:145-172 | exactly the readable records in PREPARED or ROLLING_BACK |
| Journal.JournalRemembers | internal/rollback/journal.go:120-172 | for every history of writes, a transaction whose file was not torn is listed exactly when staged and not finished |
| Journal.StagedRecordsAreKept | internal/rollback/journal.go:59-142 | after every history of writes in which no write to the file died since, the file of a transaction holds runbook, resource and steps of its last staging that reached the disk, in order, each step with name, command, arguments, target and backup, and without function |
| Journal.DyingWriteLosesTheRecord | internal/rollback/journal.go:120-142 | after any history, a write that dies behind the truncation loses the record for all later updates |
| Journal.MissingOnlyThroughTear | internal/rollback/journal.go:120-142 | an open transaction is missing only through a crash between truncation and completed write |
| Journal.TornStaysTorn | internal/rollback/journal.go:82-118 | no later update brings a torn record back |
| Rollback.ExecuteRollback | internal/rollback/rollback.go:27-54 | the loop replays the steps in reverse up to the first failure, and the journal ends in ROLLED_BACK or FAILED accordingly |
| Rollback.StepsExactly | internal/rollback/rollback.go:56-81 | a function wins over a file, a file over a command, and an empty step succeeds |
| Rollback.RestoresExactly | internal/rollback/rollback.go:83-105 | a restore succeeds exactly when the backup exists and nothing fails, changes no other file, and leaves the contents of the backup, a prefix, or nothing when a file is restored from itself |
| Rollback.ReplayInverts | internal/rollback/rollback.go:27-105 | reverse replay restores every target to its first contents; if step k fails exactly the steps after k are undone |
| Rollback.StagingBacksUp | internal/rollback/journal.go:175-202 | steps with backups of their own meet the hypotheses of the inverse |
| Rollback.WhatRollbackRestores | internal/rollback/rollback.go:83-105 | a target ends up with what was saved last into the backup of the first step on it |
| Rollback.RestoredExactlyWhenFirstBackupsAreKept | internal/rollback/rollback.go:27-105 | rollback undoes the steps for all contents exactly when no first backup is overwritten later |
| Rollback.StagedBackupsNeedDistinctNames | internal/rollback/journal.go:175-202 | staged backups are kept exactly when the file names are distinct |
| Rollback.StagedStepsAreUndoneExactly | internal/rollback/journal.go:175-202 | rollback of staged steps restores all targets for all contents exactly when the file names are distinct |
| Rollback.ReloadIsFaithfulExactlyWithoutFunctions | internal/model/model.go:100-107 | a reloaded record replays like the one in memory, in every world, exactly when no step carries a function |
| Rollback.JournalReplaysExactlyWithoutFunctions | internal/rollback/journal.go:104-142 | the record that the journal holds after such a history replays like the staged one, in every world and on every file system, exactly when no staged step carries a function |
| Paths.BackupsAreSharedByName | internal/rollback/journal.go:186-186 | two files in one backup directory share their backup exactly when they have the same name |
| Paths.BaseOfFile | internal/rollback/journal.go:186-186 | the base of a file in a directory, and of a bare name, is its name |
| Paths.BaseIgnoresSlashes | internal/rollback/journal.go:186-186 | slashes at the end do not count, unless there is nothing else |
| Executor.EffectiveTimeout | internal/executor/executor.go:38-45 | the action's own timeout, or the default without one, unless beyond the blast radius, which then is the deadline |
| Executor.ExecuteMutation | internal/executor/executor.go:51-80 | which of timeout, blast-radius breach, failure and success is reported, that each hides the later ones, and what each leaves of the result |
| DiskCleanup.Clamped | internal/runbooks/runbooks.go:77-82 | configured limits from 1 to 10 files and from 1 byte to 20 GB are kept, all others become the maximum |
| DiskCleanup.FindCandidates | internal/runbooks/runbooks.go:154-176 | the candidates are the listed archive names other than the active log that can still be looked up |
| DiskCleanup.ArchivesAreRotated | internal/runbooks/runbooks.go:988-993 | the test is true of exactly the names that end in .old or .gz or have .log. in them |
| DiskCleanup.LiveLogsAreNoCandidates | internal/runbooks/runbooks.go:966-993 | a name ending in .log without .log. in it is never a candidate, active or not |
| DiskCleanup.SortedCandidatesAreListed | internal/runbooks/runbooks.go:160-181 | however they are sorted by age, each listed rotated log other than the active one occurs exactly once, oldest first, with its own age and size, and nothing else |
| DiskCleanup.LogDir.PruneOldest | internal/runbooks/runbooks.go:183-216 | exactly the safe candidates of a prefix are deleted; the prefix ends where a limit stops the loop, or at the file that cannot be unlinked, which both limits had let through |
| DiskCleanup.PruneIsBounded | internal/runbooks/runbooks.go:187-209 | at every candidate the loop reaches, also when it fails there: at most the configured number of files, never the active log by name or inode, never one newer than a surviving safe candidate, and over the byte limit only if a single file |
| DiskCleanup.SafeOnesAreVictims | internal/runbooks/runbooks.go:195-199 | no candidate of the prefix is skipped that is there and is not the active log by name or inode |
| DiskCleanup.OnlyRotatedLogsGo | internal/runbooks/runbooks.go:154-216 | whatever is deleted was listed, is a rotated log by its name and is not the active log |
| DiskCleanup.PruneIsMaximal | internal/runbooks/runbooks.go:187-194 | the loop stops early only for enough files, or for a file that is not the first and would exceed the bytes |
| DiskCleanup.BytesAreConserved | internal/runbooks/runbooks.go:183-216 | the bytes reported as deleted are exactly those the directory has lost |
| DiskCleanup.PruneAndReport | internal/executor/executor.go:51-80 | without timeout or unlink error a breach is reported exactly when the byte limit was exceeded, and then one file was deleted; with or without an unlink error the limits hold of what was deleted |
| TlsRotation.Rotation.Swap | internal/runbooks/runbooks.go:622-690 | file system, result and shared backup paths after a swap that may fail at any point and whose backups may fail or be cut off |
| TlsRotation.Rotation.Compensate | internal/runbooks/runbooks.go:746-761 | backups are copied to the configured paths if both backup paths are set; each write may fail or be cut off |
| TlsRotation.Rotation.SwapAndUndo | internal/runbooks/runbooks.go:622-761 | the action followed by the compensating step |
| TlsRotation.ResolvesExactly | internal/runbooks/runbooks.go:1135-1151 | which pair of files each resource name gets, depending on whether the gateway certificate exists and what is configured |
| TlsRotation.SwapSucceedsExactly | internal/runbooks/runbooks.go:639-690 | success is reported exactly when both staged files are there, nothing fails, and cert and key are two files |
| TlsRotation.SwapChanges | internal/runbooks/runbooks.go:639-667 | what every failure point leaves in the two active files, also when they are one |
| TlsRotation.TemporariesExactly | internal/runbooks/runbooks.go:649-667 | what every failure point leaves of the two temporary files |
| TlsRotation.CombinedFileGetsTheKey | internal/runbooks/runbooks.go:649-665 | one combined file for cert and key: the swap never succeeds and leaves the staged key in it |
| TlsRotation.UndoExactly | internal/runbooks/runbooks.go:622-761 | with nothing in between, for every file system, target, configuration and course of events: each resolved file comes out as it went in exactly when what is written back to it is what it held, or nothing is written back and the swap did not replace it |
| TlsRotation.TheLastSwapDecides | internal/runbooks/runbooks.go:574-576 | whatever the runs of the runbook did before, a compensating step writes to the configured paths what the resolved files of the last swap held just before it; a run is undone exactly when it found these contents itself |
| TlsRotation.UndoneExactlyWithoutSwapsInBetween | internal/runbooks/runbooks.go:622-761 | with fresh contents, a run that replaced the configured cert is undone exactly when no run has swapped between its action and its compensating step |
| TlsRotation.TheProxyGetsTheGatewaysFiles | internal/runbooks/runbooks.go:574-576 | two alerts under the default configuration: undoing the proxy's swap after the gateway's gives the proxy the gateway's certificate and key |
| TlsRotation.NothingInBetween | internal/runbooks/runbooks.go:622-761 | a swap and its undoing with nothing in between are two events of that history |
| TlsRotation.NoBackupDirectoryNoUndo | internal/runbooks/runbooks.go:626-626 | without a backup directory the files survive exactly the failures before the first rename |
| TlsRotation.UndoOfGoodBackups | internal/runbooks/runbooks.go:622-761 | with nothing in between and good backups of two names: exactly when the configured files do not cross the swapped ones and every file the swap replaced is the configured one |
| TlsRotation.UndoNeedsDistinctNames | internal/runbooks/runbooks.go:628-637 | with nothing in between, the configured paths and a backup directory: exactly when the file names differ or the contents agree |
| TlsRotation.StaleBackupIsRestored | internal/runbooks/runbooks.go:631-636 | a cert that did not exist is undone to a stale backup of an earlier run |
| TlsRotation.CompensationGoesToConfiguredPaths | internal/runbooks/runbooks.go:746-761 | with nothing in between, from every failure point the configured paths end up with what the resolved files held |
| TlsRotation.DefaultConfigurationLosesTheGateway | internal/runbooks/runbooks.go:1135-1151 | the default configuration with the gateway as target: after a completed swap the gateway's files keep the staged pair, undone or not |
| Yaml.StripComment | internal/config/config.go:234-250 | the loop over quote states cuts at the first unquoted hash |
| Yaml.ScanLines | internal/config/config.go:208-220 | the loop keeps the non-blank lines with their indentation, comments cut off |
| Yaml.ParseBlock | internal/config/config.go:252-349 | terminates on every line list and start, and equals the recursive description of blocks |
| Yaml.ParseList | internal/config/config.go:258-321 | the list loop equals the recursive description of lists |
| Yaml.ParseItem | internal/config/config.go:265-319 | one turn of the list loop: nested block, inline mapping or scalar |
| Yaml.CollectKeys | internal/config/config.go:292-315 | the inner loop over the further keys of a list item |
| Yaml.ParseMap | internal/config/config.go:324-348 | the mapping loop equals the recursive description of mappings, whose keys and values are in `YamlValues.MappingExactly` |
| Yaml.ParseBasicYAML | internal/config/config.go:207-232 | an empty document is an empty mapping, a list at the root is refused, anything else is the mapping described by `YamlValues.DocumentExactly` |
| YamlProperties.BlockProgress | internal/config/config.go:252-349 | called at a line's own indentation the parser gets past it, stays in bounds, and takes no line indented less than the block |
| YamlProperties.FieldsProgress | internal/config/config.go:324-348 | a mapping loop stops only at the end or at a line of another indentation |
| YamlProperties.ReadToTheEndExactly | internal/config/config.go:324-348 | a list of mapping lines is read to its end exactly when it is well nested; otherwise reading stops at the first line that has no place |
| YamlNesting.ReadsAsFarAsLinesHavePlaces | internal/config/config.go:252-349 | any line list, with dashes or without, is read exactly as far as one pass with a stack of enclosing blocks finds a place for each line |
| YamlValues.MappingExactly | internal/config/config.go:324-348 | for every line list: a block read as a mapping has exactly the keys named before a colon on its own lines, those of the indentation of the block, each with the value given on or below the last line that names it, or null |
| YamlValues.ListAtItsKeysIndentation | internal/config/config.go:326-330 | a key without value followed by lines without colon at its own indentation takes them all and is null |
| YamlValues.ListExactly | internal/config/config.go:258-321 | for every line list: a block read as a list has exactly one item for each of its lines at the indentation of the block, in order, and ends at the first such line without a dash |
| YamlValues.ItemExactly | internal/config/config.go:265-319 | for every line list: an item is the block below an empty dash or null, a scalar without colon, or a mapping whose keys are decided by the last line that gives them something; a line without colon sets none |
| YamlValues.ItemKeysExactly | internal/config/config.go:274-316 | a mapping item has exactly the keys to which something is given, behind the dash or on a further line |
| YamlValues.DocumentExactly | internal/config/config.go:207-232 | for every text: no lines mean an empty mapping, a dash in front an error, and anything else a mapping with exactly the keys named at the indentation of the first line, and their last values |
| YamlScanning.RowsExactly | internal/config/config.go:209-220 | the rows of a text are what lies between line breaks; each becomes the next line or is skipped |
| YamlScanning.RowsAreLines | internal/config/config.go:211-219 | a row with text is a line indented by its leading spaces, without the blanks around the text and the comment behind it |
| YamlScanning.BlankRowsAreSkipped | internal/config/config.go:211-215 | a row of blanks, with or without comment, is no line |
| YamlScanning.QuotesExactly | internal/config/config.go:234-250 | a quote of either kind opens outside quotes and is closed by the next one of its kind only |
| YamlScanning.CommentsExactly | internal/config/config.go:234-250 | a hash outside quotes cuts off itself and the rest of the row, and nothing else is cut |
| YamlScanning.SplitExactly | internal/config/config.go:331-333 | the first colon divides key and value, and both are trimmed |
| YamlScanning.DashExactly | internal/config/config.go:258-265 | what counts as an item, and its trimmed text |
| YamlScanning.TrimExactly | internal/config/config.go:212-212 | trimming takes the white space off both ends and nothing else |
| YamlTrees.MeaningIsFaithful | internal/config/config.go:324-348 | with distinct keys a mapping means exactly its fields |
| YamlTrees.AgreeExactly | internal/config/config.go:252-349 | what is read of a tree without repeated keys is what it means exactly when it is faithful |
| YamlRoundTrip.BlockReads | internal/config/config.go:252-349 | a printed clean tree of any depth and indentation, anywhere in a line list and followed by anything less indented, is read as stated by the tree's reading, and exactly its lines are taken |
| YamlRoundTrip.BlockRoundTrip | internal/config/config.go:252-349 | if the tree is faithful, it is read back as its meaning |
| YamlRoundTrip.BlockRoundTripExactly | internal/config/config.go:252-349 | without repeated keys, exactly if it is faithful |
| YamlRoundTrip.ItemRoundTripExactly | internal/config/config.go:265-319 | the same for a list item: no colon in a scalar, no empty value in a mapping on the line of the dash |
| YamlText.StripCutsAtTheFirstComment | internal/config/config.go:234-250 | stripping keeps the longest prefix in which no comment starts |
| YamlText.LinesRoundTrip | internal/config/config.go:208-220 | the scanner reads back the lines of a printed text |
| YamlText.DocumentReads | internal/config/config.go:207-232 | the text of a clean, writable tree is read as its reading, or refused if its root is a list |
| YamlText.DocumentRoundTrip | internal/config/config.go:207-232 | if the tree is faithful, it is read back as its fields |
| YamlText.DocumentRoundTripExactly | internal/config/config.go:207-232 | without repeated keys, exactly if it is faithful |
| YamlText.QuotesProtect | internal/config/config.go:351-361 | a double-quoted value without double quotes and line breaks survives stripping, scanning and scalar reading unchanged |
| YamlScanning.QuotedScalars | internal/config/config.go:351-360 | text in quotes of either kind is the string between the outer ones, whatever is in it; a lone quote is the empty string |
| YamlText.UnquotedScalars | internal/config/config.go:362-377 | unquoted text is a boolean for six words in any capitals, else a number if it parses as one, else itself |

## Left out

- HTTP server, Unix socket, poller, daemon, CLI, AI proposer, metrics rendering and alias tables: plumbing around the engine, with no invariants of their own.
- Probes of `internal/verifier`, process signalling and spawning, RBK-PROC-001, the command and signal branches of the executor: their results are oracle inputs of the step machine.
- RBK-CFG-001: a straight copy whose postcondition repeats the action.
- X.509 and PEM parsing, key matching, TLS handshakes, SHA-256, JSON and RFC 3339 formatting: library code; records are datatypes, timestamps opaque strings, the digest a parameter.
- Scanner line limits, file modes, directory creation and logs of more than 2^64 records (`AuditProperties.SameTailMeansSameLog` covers logs up to that length; the verifier itself is modelled with the wrap-around of its counter).
- Several processes that share one ledger or damping file: each object caches its tail or map, so one live object per file is modelled.
- Runbook resolution by label or target: which runbook a job resolves to is part of the job.
- The order in which `sort.Slice` leaves files of equal age: every order sorted by age is covered.
- Write errors of the damping state file, which the code ignores.
- Saturation of `time.Time.Sub` for times centuries apart.
- EngineStores.StoresAgree: assumes that ledger and journal writes succeed and that transaction IDs are distinct, since the engine ignores those errors.
- EngineDamping.RateLimitsHold: limits recorded executions, since the code records committed runs only; `Reset`, which forgets the history on purpose, is not a step of the system.
- Remediation.RemediationEngine.Remediate: the control flow is the code's; what a statement does to the stores is the step machine's `Apply`, and the store objects have their own models in `Audit`, `Journal`, `Damping`, `Locks` and `Fsm`.
- YamlProperties.ReadToTheEndExactly: its condition is on indentation alone and covers mapping lines; the one for all lines is a pass with a stack, in `YamlNesting`.
- Yaml.ParseBlock: scalars are kept as the text handed to the scalar reader; numbers are recognised by a parameter in `YamlText.ReadScalar`.
- TlsRotation.UndoExactly: assumes that cert and key are not each other's temporary file and that backups do not fall on active or configured files.
- TlsRotation.UndoneExactlyWithoutSwapsInBetween: assumes that backups in between get written, that the two pairs of files do not get in each other's way (the default configuration is an example), and that no other file holds what the configured cert held.
- Audit.Ledger.Append: bytes appended behind a line without newline are taken never to parse as one record.
