/**
  What a call of `Remediate` reports is what happened: the calls of the sequential code are runs
  of the step machine, so everything proved of all interleavings holds after each of them.
 */
module RemediationProperties {
  import opened Wrappers
  import opened Fsm
  import opened Engine
  import opened EngineRuns
  import opened EngineSystem
  import opened Remediation

  lemma {:induction false} TraceIsExec(trace: seq<System>, i: nat, world: World) returns (labels: seq<Label>)
    requires IsTrace(trace, i, world)
    ensures Exec(trace[0], labels) == trace[|trace| - 1]
    decreases |trace|
  {
    if |trace| == 1 {
      labels := [];
    } else {
      var n := |trace| - 1;
      var shorter := trace[..n];
      forall k: nat | k < |shorter| - 1 ensures StepAt(shorter, i, world, k) {
        assert StepAt(trace, i, world, k);
      }
      labels := TraceIsExec(shorter, i, world);
      assert StepAt(trace, i, world, n - 1);
      labels := OneMore(trace[0], labels, trace[n - 1], i, world);
    }
  }

  lemma OneMore(s: System, labels: seq<Label>, t: System, i: nat, world: World) returns (more: seq<Label>)
    requires Exec(s, labels) == t
    ensures Exec(s, more) == Alone(t, i, world)
  {
    if i < |t.runs| {
      more := labels + [Go(i, world(t.runs[i].pc))];
      assert more[..|labels|] == labels;
    } else {
      more := labels;
    }
  }

  /** A call on a system that has come about by some interleaving leaves one that has come about by a longer one. */
  lemma CallsAreInterleavings(clock: int, before: seq<Label>, job: Job, trace: seq<System>, i: nat, w: World)
    returns (labels: seq<Label>)
    requires IsTrace(trace, i, w) && trace[0] == Step(Exec(Boot(clock), before), Spawn(job))
    ensures before <= labels && Exec(Boot(clock), labels) == trace[|trace| - 1]
  {
    var spawned := before + [Spawn(job)];
    assert spawned[..|before|] == before;
    assert Exec(Boot(clock), spawned) == trace[0];
    var rest := TraceIsExec(trace, i, w);
    ExecConcat(Boot(clock), spawned, rest);
    labels := spawned + rest;
    assert labels[..|before|] == before;
  }

  // ----- what a run did, and what is to be reported of it -----------------------------------------------------

  /** The transaction was staged, and every action and postcondition succeeded. */
  predicate Succeeded(r: Run) {
    && r.work.wal.Some? && r.job.runbook.Some?
    && r.work.acts == AllOk(Plan(r.job).acts) && r.work.posts == AllOk(Plan(r.job).posts)
  }

  /** It was staged, something failed, and every compensating step succeeded, from the last one down. */
  predicate FullyUndone(r: Run) {
    r.work.wal.Some? && !Succeeded(r) && r.work.undos == Countdown(Plan(r.job).steps, 0)
  }

  /** Damping was consulted and did not admit the run, or a precondition was false. */
  predicate Refused(r: Run) {
    r.work.asked && (!r.work.admitted || r.work.pres != AllOk(Plan(r.job).pres))
  }

  function Reported(r: Run): State {
    if Succeeded(r) then Committed else if FullyUndone(r) then RolledBack
    else if Refused(r) then PrecheckFailed else Escalated
  }

  /** What the FSM must have gone through. */
  function Story(r: Run): seq<State> {
    if !WellFormed(r.job.alert) || r.job.runbook.None? then [Detected, Escalated]
    else if !r.work.asked || Refused(r) then [Detected, Evaluating, PrecheckFailed, Escalated]
    else if r.work.wal.None? then [Detected, Evaluating, PrecheckPassed]
    else [Detected, Evaluating, PrecheckPassed, Executing] +
         if Succeeded(r) then [PostcheckPassed, Committed]
         else if FullyUndone(r) then [PostcheckFailed, RollingBack, RolledBack, Escalated]
         else [PostcheckFailed, RollingBack, Escalated]
  }

  /** The result tells exactly what the run did, and the run no longer holds a lock. */
  predicate Honest(r: Run, result: RemediationResult)
    requires r.pc.Returned?
  {
    && result == RemediationResult(Reported(r), Succeeded(r), FullyUndone(r), Story(r))
    && (r.work.recorded <==> Succeeded(r)) && !r.work.held
    && (!Succeeded(r) ==> RolledBackProperly(r))
  }

  lemma UndoStoppedIsNotAll(xs: seq<Outcome>, n: nat)
    requires UndoStopped(xs, n)
    ensures xs != Countdown(n, 0)
  {
    assert !xs[|xs| - 1].ok;
    assert forall k :: 0 <= k < n ==> Countdown(n, 0)[k].ok;
  }

  /** The lists of a returned run tell its exits apart. */
  lemma ListsTell(r: Run)
    requires RunOk(r) && r.pc.Returned?
    ensures Succeeded(r) <==> r.pc.why == Done
    ensures FullyUndone(r) <==> r.pc.why == RolledBackCleanly
    ensures Refused(r) <==> r.pc.why == Damped || r.pc.why == PreconditionFalse
  {
    var rb := Plan(r.job);
    SuccessOf(r);
    if r.pc.why == PreconditionFalse {
      StoppedIsNotAllOk(r.work.pres, rb.pres);
    } else if r.pc.why == RollbackFailed {
      UndoStoppedIsNotAll(r.work.undos, rb.steps);
    }
  }

  lemma HonestOf(r: Run)
    requires RunOk(r) && r.pc.Returned?
    ensures Honest(r, ResultOf(r.pc.why, r.book.fsm))
  {
    ListsTell(r);
    StoryOf(r);
    if !Succeeded(r) {
      FaultOf(r);
    }
  }

  lemma StoryOf(r: Run)
    requires RunOk(r) && r.pc.Returned?
    ensures r.book.fsm == Story(r)
  {
    ListsTell(r);
    assert r.book.fsm == LeavingTrail(r.pc.why, Farewells(r.pc.why));
  }

  /** Every call, after any interleaving, reports exactly what its run did and leaves no lock to it. */
  lemma CallsAreHonest(clock: int, before: seq<Label>, job: Job, trace: seq<System>, i: nat, w: World)
    requires IsTrace(trace, i, w) && trace[0] == Step(Exec(Boot(clock), before), Spawn(job))
    requires var s := trace[|trace| - 1]; i < |s.runs| && s.runs[i].pc.Returned?
    ensures var s := trace[|trace| - 1];
      && Honest(s.runs[i], ResultOf(s.runs[i].pc.why, s.runs[i].book.fsm))
      && forall p :: p in s.locks ==> s.locks[p] != i
  {
    var s := trace[|trace| - 1];
    var labels := CallsAreInterleavings(clock, before, job, trace, i, w);
    ReachableRunOk(clock, labels, i);
    ReachableLocksOk(clock, labels);
    HonestOf(s.runs[i]);
    forall p | p in s.locks ensures s.locks[p] != i {
      assert Holds(s, s.locks[p]);
    }
  }
}
