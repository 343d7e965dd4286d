/**
  `Remediate` of `internal/engine/engine.go` as the sequential code it is, with its break-out
  loops and early returns, proved to take exactly the steps of the step machine.
 */
module Remediation {
  import opened Wrappers
  import opened Fsm
  import opened Wal
  import opened Engine
  import D = Damping

  /** What the world answers at each point of a run. */
  type World = Pc -> Choice

  datatype RemediationResult = RemediationResult(
    finalState: State, success: bool, rolledBack: bool, transitions: seq<State>)

  /** One step of run `i`. */
  function Alone(s: System, i: nat, world: World): System {
    if i < |s.runs| then Step(s, Go(i, world(s.runs[i].pc))) else s
  }

  predicate StepAt(trace: seq<System>, i: nat, world: World, k: nat)
    requires k + 1 < |trace|
  {
    trace[k + 1] == Alone(trace[k], i, world)
  }

  /** A run of the step machine in which only run `i` moves. */
  predicate IsTrace(trace: seq<System>, i: nat, world: World) {
    trace != [] && forall k: nat :: k < |trace| - 1 ==> StepAt(trace, i, world, k)
  }

  /** At `pc`, answered `c`, run `i` does `x` and goes to `next`. */
  predicate Does(s: System, i: nat, world: World, pc: Pc, c: Choice, x: Instr, next: Pc) {
    i < |s.runs| && s.runs[i].pc == pc && !Ended(pc) && world(pc) == c && Next(s, s.runs[i].job, pc, c) == (next, x)
  }

  /** Run `i` does `x` and goes to `next`. */
  function Performed(s: System, i: nat, x: Instr, ok: bool, next: Pc): (t: System)
    requires i < |s.runs|
    ensures |t.runs| == |s.runs| && t.runs[i].pc == next && t.runs[i].job == s.runs[i].job
  {
    var t := Apply(s, i, s.runs[i].job, x, ok, s.runs[i].work.held);
    t.(runs := s.runs[i := Perform(s.runs[i], next, x, ok)])
  }

  lemma TakesTheStep(s: System, i: nat, world: World, pc: Pc, c: Choice, x: Instr, next: Pc)
    requires Does(s, i, world, pc, c, x, next)
    ensures Performed(s, i, x, c.ok, next) == Alone(s, i, world)
  {}

  lemma TraceGrows(trace: seq<System>, t: System, i: nat, world: World)
    requires IsTrace(trace, i, world) && t == Alone(trace[|trace| - 1], i, world)
    ensures IsTrace(trace + [t], i, world)
  {
    var longer := trace + [t];
    forall k: nat | k < |longer| - 1 ensures StepAt(longer, i, world, k) {
      if k < |trace| - 1 {
        assert StepAt(trace, i, world, k);
      }
    }
  }

  /** The two lemmas above in one. */
  lemma Accounted(trace: seq<System>, i: nat, world: World, pc: Pc, c: Choice, x: Instr, next: Pc)
    requires IsTrace(trace, i, world) && Does(trace[|trace| - 1], i, world, pc, c, x, next)
    ensures IsTrace(trace + [Performed(trace[|trace| - 1], i, x, c.ok, next)], i, world)
  {
    TakesTheStep(trace[|trace| - 1], i, world, pc, c, x, next);
    TraceGrows(trace, Alone(trace[|trace| - 1], i, world), i, world);
  }

  // ----- how a call ends ------------------------------------------------------------------------------

  predicate PresHold(w: World, n: nat) {
    forall k: nat :: k < n ==> w(Prechecking(k)).ok
  }

  predicate ActsSucceed(w: World, n: nat) {
    forall k: nat :: k < n ==> w(Acting(k)).ok
  }

  predicate PostsHold(w: World, n: nat) {
    forall k: nat :: k < n ==> w(Postchecking(k)).ok
  }

  /** Compensating steps `i` up to `n` succeed; `Undoing(k)` is about to run step `k - 1`. */
  predicate UndosSucceed(w: World, i: nat, n: nat) {
    forall k: nat :: i < k <= n ==> w(Undoing(k)).ok
  }

  /** How a call ends that finds the stores as in `s`, one guard after the other. */
  function Foretold(s: System, job: Job, w: World): Exit {
    if job.alert.id == "" || job.alert.resource == "" then Malformed
    else if job.runbook.None? then Unmatched
    else if !w(Locking).ok || job.lockPath in s.locks then LockBusy
    else if D.Decide(D.SlotOf(s.damping, Key(job)), s.clock) != D.Accept then Damped
    else ForetoldInside(job.runbook.value, w)
  }

  /** From the gate on, only the world decides. */
  function ForetoldInside(rb: Runbook, w: World): Exit {
    if !PresHold(w, rb.pres) then PreconditionFalse
    else if !w(Staging).ok then StageFailed
    else if ActsSucceed(w, rb.acts) && PostsHold(w, rb.posts) then Done
    else if UndosSucceed(w, 0, rb.steps) then RolledBackCleanly
    else RollbackFailed
  }

  /** Locks, damping and clock are the same. */
  predicate SameGates(s: System, t: System) {
    s.locks == t.locks && s.damping == t.damping && s.clock == t.clock
  }

  class RemediationEngine {
    var sys: System

    // the call in progress
    var me: nat
    var job: Job

    ghost var world: World
    ghost var start: System
    ghost var trace: seq<System>

    /** The call in progress stands at `pc`, and has taken steps of the step machine and no others. */
    ghost predicate At(w: World, pc: Pc)
      reads this
    {
      && w == world && me < |sys.runs| && sys.runs[me].job == job && sys.runs[me].pc == pc
      && IsTrace(trace, me, world) && trace[0] == start && trace[|trace| - 1] == sys
    }

    constructor (clock: int)
      ensures sys == Boot(clock)
    {
      sys, me := Boot(clock), 0;
    }

    /** One statement: what it does to the stores and the FSM, and what the world answers. */
    method Issue(w: World, pc: Pc, x: Instr, next: Pc) returns (ok: bool)
      requires At(w, pc) && !Ended(pc) && Next(sys, job, pc, w(pc)) == (next, x)
      modifies this`sys, this`trace
      ensures At(w, next) && ok == w(pc).ok
      ensures !x.Grab? && !x.Drop? ==> sys.locks == old(sys.locks)
      ensures !x.Ask? && !x.Admit? && !x.Note? ==> sys.damping == old(sys.damping) && sys.clock == old(sys.clock)
    {
      ok := w(pc).ok;
      Accounted(trace, me, w, pc, w(pc), x, next);
      sys := Performed(sys, me, x, ok, next);
      trace := trace + [sys];
    }

    /** The two states logged when nothing has been executed. */
    method FailClosed(w: World, e: Exit)
      requires At(w, Exiting(e, 0)) && (e == LockBusy || e == Damped || e == PreconditionFalse)
      modifies this`sys, this`trace
      ensures At(w, Exiting(e, 2))
    {
      var _ := Issue(w, Exiting(e, 0), Log(PrecheckFailed), Exiting(e, 1));
      var _ := Issue(w, Exiting(e, 1), Log(Escalated), Exiting(e, 2));
    }

    method Commit(w: World)
      requires At(w, Passing)
      modifies this`sys, this`trace
      ensures At(w, Exiting(Done, 0))
    {
      var _ := Issue(w, Passing, Log(PostcheckPassed), Promoting);
      var _ := Issue(w, Promoting, Transit(Committed), Committing);
      var _ := Issue(w, Committing, Mark(WalCommitted, w(Committing).slip), Sealing);
      var _ := Issue(w, Sealing, Seal(Committed), Clocking);
      var at := sys.clock;
      var _ := Issue(w, Clocking, Idle, Recording(at));
      var _ := Issue(w, Recording(at), Note(at), Exiting(Done, 0));
    }

    /** The runbook of a well-formed alert. */
    method Match(w: World) returns (ok: bool)
      requires At(w, Start) && WellFormed(job.alert)
      modifies this`sys, this`trace
      ensures At(w, if ok then Locking else Exiting(Unmatched, 1)) && ok == job.runbook.Some?
      ensures sys.locks == old(sys.locks) && sys.damping == old(sys.damping) && sys.clock == old(sys.clock)
    {
      var _ := Issue(w, Start, Seal(Detected), Resolving);
      if job.runbook.None? {
        var _ := Issue(w, Resolving, Idle, Exiting(Unmatched, 0));
        var _ := Issue(w, Exiting(Unmatched, 0), Log(Escalated), Exiting(Unmatched, 1));
        return false;
      }
      var _ := Issue(w, Resolving, Log(Evaluating), Locking);
      return true;
    }

    method TryLock(w: World) returns (ok: bool)
      requires At(w, Locking)
      modifies this`sys, this`trace
      ensures At(w, if ok then Gating else Exiting(LockBusy, 2))
      ensures ok <==> w(Locking).ok && job.lockPath !in old(sys.locks)
      ensures ok ==> sys.damping == old(sys.damping) && sys.clock == old(sys.clock)
    {
      if !w(Locking).ok || job.lockPath in sys.locks {
        var _ := Issue(w, Locking, Idle, Exiting(LockBusy, 0));
        FailClosed(w, LockBusy);
        return false;
      }
      var _ := Issue(w, Locking, Grab, Gating);
      return true;
    }

    /** The damping gate. */
    method CanExecute(w: World) returns (ok: bool)
      requires At(w, Gating)
      modifies this`sys, this`trace
      ensures At(w, if ok then Prechecking(0) else Exiting(Damped, 2))
      ensures ok <==> D.Decide(D.SlotOf(old(sys.damping), Key(job)), old(sys.clock)) == D.Accept
    {
      if D.Decide(D.SlotOf(sys.damping, Key(job)), sys.clock) != D.Accept {
        var _ := Issue(w, Gating, Ask(w(Gating).lag), Exiting(Damped, 0));
        FailClosed(w, Damped);
        return false;
      }
      var _ := Issue(w, Gating, Admit(w(Gating).lag), Prechecking(0));
      return true;
    }

    /** Preconditions, up to the first that is false. */
    method Precheck(w: World, rb: Runbook) returns (ok: bool)
      requires At(w, Prechecking(0)) && job.runbook == Some(rb)
      modifies this`sys, this`trace
      ensures At(w, if ok then Prechecking(rb.pres) else Exiting(PreconditionFalse, 2))
      ensures ok <==> PresHold(w, rb.pres)
    {
      for k := 0 to rb.pres
        invariant At(w, Prechecking(k)) && PresHold(w, k)
      {
        ok := Issue(w, Prechecking(k), Pre(k), if w(Prechecking(k)).ok then Prechecking(k + 1) else Exiting(PreconditionFalse, 0));
        if !ok {
          FailClosed(w, PreconditionFalse);
          return;
        }
      }
      return true;
    }

    /** The WAL record, before any mutation. */
    method Stage(w: World, rb: Runbook) returns (ok: bool)
      requires At(w, Prechecking(rb.pres)) && job.runbook == Some(rb)
      modifies this`sys, this`trace
      ensures At(w, if ok then Launching else Exiting(StageFailed, 1)) && ok == w(Staging).ok
    {
      var _ := Issue(w, Prechecking(rb.pres), Log(PrecheckPassed), Staging);
      if !w(Staging).ok {
        var _ := Issue(w, Staging, if w(Staging).slip == Unsynced then Strand else Idle, Exiting(StageFailed, 0));
        var _ := Issue(w, Exiting(StageFailed, 0), Log(Escalated), Exiting(StageFailed, 1));
        return false;
      }
      var _ := Issue(w, Staging, Mark(Prepared, w(Staging).slip), Launching);
      return true;
    }

    /** Actions, up to the first that fails. */
    method RunActions(w: World, rb: Runbook) returns (actionFailed: bool)
      requires At(w, Acting(0)) && job.runbook == Some(rb)
      modifies this`sys, this`trace
      ensures At(w, if actionFailed then Failing else Acting(rb.acts)) && actionFailed == !ActsSucceed(w, rb.acts)
    {
      actionFailed := false;
      for k := 0 to rb.acts
        invariant !actionFailed && At(w, Acting(k)) && ActsSucceed(w, k)
      {
        var ok := Issue(w, Acting(k), Do(k), if w(Acting(k)).ok then Acting(k + 1) else Failing);
        if !ok {
          actionFailed := true;
          break;
        }
      }
    }

    /** Postconditions, up to the first that is unmet. */
    method CheckPostconditions(w: World, rb: Runbook) returns (postconditionFailed: bool)
      requires At(w, Postchecking(0)) && job.runbook == Some(rb)
      modifies this`sys, this`trace
      ensures At(w, if postconditionFailed then Failing else Postchecking(rb.posts))
      ensures postconditionFailed == !PostsHold(w, rb.posts)
    {
      postconditionFailed := false;
      for k := 0 to rb.posts
        invariant !postconditionFailed && At(w, Postchecking(k)) && PostsHold(w, k)
      {
        var ok := Issue(w, Postchecking(k), Post(k), if w(Postchecking(k)).ok then Postchecking(k + 1) else Failing);
        if !ok {
          postconditionFailed := true;
          break;
        }
      }
    }

    /** The compensating steps from the last one down, stopping at the first that fails. */
    method Undo(w: World, rb: Runbook) returns (ok: bool)
      requires At(w, Undoing(rb.steps)) && job.runbook == Some(rb)
      modifies this`sys, this`trace
      ensures At(w, if ok then Undoing(0) else MarkingFailed) && ok == UndosSucceed(w, 0, rb.steps)
    {
      ok := true;
      for k := rb.steps downto 0
        invariant ok && At(w, Undoing(k)) && UndosSucceed(w, k, rb.steps)
      {
        ok := Issue(w, Undoing(k + 1), Instr.Undo(k), if w(Undoing(k + 1)).ok then Undoing(k) else MarkingFailed);
        if !ok {
          return;
        }
      }
    }

    method ExecuteRollback(w: World, rb: Runbook) returns (ok: bool)
      requires At(w, MarkingRollback) && job.runbook == Some(rb)
      modifies this`sys, this`trace
      ensures At(w, Exiting(if ok then RolledBackCleanly else RollbackFailed, 0)) && ok == UndosSucceed(w, 0, rb.steps)
    {
      var _ := Issue(w, MarkingRollback, Mark(WalRollingBack, w(MarkingRollback).slip), Undoing(rb.steps));
      ok := Undo(w, rb);
      if !ok {
        var _ := Issue(w, MarkingFailed, Mark(WalFailed, w(MarkingFailed).slip), Exiting(RollbackFailed, 0));
        return;
      }
      var _ := Issue(w, Undoing(0), Idle, MarkingRolledBack);
      var _ := Issue(w, MarkingRolledBack, Mark(WalRolledBack, w(MarkingRolledBack).slip), Exiting(RolledBackCleanly, 0));
    }

    /** The fault path. */
    method Recover(w: World, rb: Runbook) returns (e: Exit)
      requires At(w, Failing) && job.runbook == Some(rb)
      modifies this`sys, this`trace
      ensures At(w, Exiting(e, Farewells(e))) && e == if UndosSucceed(w, 0, rb.steps) then RolledBackCleanly else RollbackFailed
    {
      var _ := Issue(w, Failing, Log(PostcheckFailed), Unwinding);
      var _ := Issue(w, Unwinding, Log(RollingBack), MarkingRollback);
      var ok := ExecuteRollback(w, rb);
      if !ok {
        var _ := Issue(w, Exiting(RollbackFailed, 0), Log(Escalated), Exiting(RollbackFailed, 1));
        return RollbackFailed;
      }
      var _ := Issue(w, Exiting(RolledBackCleanly, 0), Log(RolledBack), Exiting(RolledBackCleanly, 1));
      var _ := Issue(w, Exiting(RolledBackCleanly, 1), Log(Escalated), Exiting(RolledBackCleanly, 2));
      return RolledBackCleanly;
    }

    /** Actions, and postconditions only if no action failed. */
    method Execute(w: World, rb: Runbook) returns (actionFailed: bool, postconditionFailed: bool)
      requires At(w, Launching) && job.runbook == Some(rb)
      modifies this`sys, this`trace
      ensures At(w, if actionFailed || postconditionFailed then Failing else Postchecking(rb.posts))
      ensures actionFailed || postconditionFailed <==> !(ActsSucceed(w, rb.acts) && PostsHold(w, rb.posts))
    {
      var _ := Issue(w, Launching, Log(Executing), Acting(0));
      actionFailed := RunActions(w, rb);
      postconditionFailed := false;
      if !actionFailed {
        var _ := Issue(w, Acting(rb.acts), Idle, Postchecking(0));
        postconditionFailed := CheckPostconditions(w, rb);
      }
    }

    /** Commit if everything succeeded, roll back otherwise. */
    method Conclude(w: World, rb: Runbook, actionFailed: bool, postconditionFailed: bool) returns (e: Exit)
      requires At(w, if actionFailed || postconditionFailed then Failing else Postchecking(rb.posts))
      requires job.runbook == Some(rb)
      modifies this`sys, this`trace
      ensures At(w, Exiting(e, Farewells(e)))
      ensures e == if !actionFailed && !postconditionFailed then Done
                   else if UndosSucceed(w, 0, rb.steps) then RolledBackCleanly else RollbackFailed
    {
      if !actionFailed && !postconditionFailed {
        var _ := Issue(w, Postchecking(rb.posts), Idle, Passing);
        Commit(w);
        return Done;
      }
      e := Recover(w, rb);
    }

    /** From the lock on. */
    method Guarded(w: World) returns (e: Exit)
      requires At(w, Locking) && WellFormed(job.alert) && job.runbook.Some?
      modifies this`sys, this`trace
      ensures At(w, Exiting(e, Farewells(e))) && e == Foretold(old(sys), job, w)
    {
      var ok := TryLock(w);
      if !ok {
        return LockBusy;
      }
      ok := CanExecute(w);
      if !ok {
        return Damped;
      }
      e := Inside(w, job.runbook.value);
    }

    /** From the preconditions on. */
    method Inside(w: World, rb: Runbook) returns (e: Exit)
      requires At(w, Prechecking(0)) && job.runbook == Some(rb)
      modifies this`sys, this`trace
      ensures At(w, Exiting(e, Farewells(e))) && e == ForetoldInside(rb, w)
    {
      var ok := Precheck(w, rb);
      if !ok {
        return PreconditionFalse;
      }
      ok := Stage(w, rb);
      if !ok {
        return StageFailed;
      }
      var actionFailed, postconditionFailed := Execute(w, rb);
      e := Conclude(w, rb, actionFailed, postconditionFailed);
    }

    /** Everything before the deferred unlock. */
    method Body(w: World) returns (e: Exit)
      requires At(w, Start)
      modifies this`sys, this`trace
      ensures At(w, Exiting(e, Farewells(e))) && e == Foretold(old(sys), job, w)
    {
      if !WellFormed(job.alert) {
        var _ := Issue(w, Start, Transit(Escalated), Exiting(Malformed, 0));
        return Malformed;
      }
      var ok := Match(w);
      if !ok {
        return Unmatched;
      }
      e := Guarded(w);
    }

    method Begin(job: Job, w: World)
      modifies this
      ensures me == |old(sys).runs| && this.job == job && world == w && start == Step(old(sys), Spawn(job))
      ensures At(w, Start) && SameGates(sys, old(sys))
    {
      me, this.job := |sys.runs|, job;
      sys := sys.(runs := sys.runs + [NewRun(job)]);
      world, trace, start := w, [sys], sys;
    }

    /**
      One call.  It runs to its end, by steps of the step machine only: the trace starts with the
      spawned run and ends, returned, in the state the engine is left in.  How it ends is decided by
      the locks and the damping state it finds and by the answers of the world.
     */
    method Remediate(job: Job, w: World) returns (r: RemediationResult)
      modifies this
      ensures me == |old(sys).runs| && this.job == job && world == w
      ensures start == Step(old(sys), Spawn(job)) && me < |sys.runs|
      ensures sys.runs[me].pc == Returned(Foretold(old(sys), job, w)) && At(w, sys.runs[me].pc)
      ensures r == ResultOf(sys.runs[me].pc.why, sys.runs[me].book.fsm)
    {
      Begin(job, w);
      var e := Body(w);
      var _ := Issue(w, Exiting(e, Farewells(e)), Drop, Returned(e));
      return ResultOf(e, sys.runs[me].book.fsm);
    }
  }

  /** What a run that returns for reason `e` reports. */
  function ResultOf(e: Exit, history: seq<State>): RemediationResult {
    RemediationResult(FinalState(e), e == Done, e == RolledBackCleanly, history)
  }
}
