/**
  The rate limits across interleavings.  `records` lists every damping record ever made,
  including those the controller has forgotten.
 */
module EngineDamping {
  import opened Wrappers
  import opened Engine
  import opened EngineRuns
  import opened EngineSystem
  import D = Damping
  import P = DampingProperties

  /** When the executions of a key were recorded, in order. */
  function HistoryOf(records: seq<Execution>, key: string): seq<int> {
    if records == [] then []
    else
      var n := |records| - 1;
      HistoryOf(records[..n], key) + (if records[n].key == key then [records[n].at] else [])
  }

  /** The job can get as far as the damping gate. */
  predicate Gateable(job: Job) {
    WellFormed(job.alert) && job.runbook.Some?
  }

  predicate Compatible(a: Job, b: Job) {
    Gateable(a) && Gateable(b) && Key(a) == Key(b) ==> a.lockPath == b.lockPath
  }

  /** Runs that can reach the damping gate under the same key take the same lock. */
  predicate SharedKeysShareLocks(s: System) {
    forall i: nat, j: nat :: i < |s.runs| && j < |s.runs| ==> Compatible(s.runs[i].job, s.runs[j].job)
  }

  // ----- one key -------------------------------------------------------------------------------------------

  function Slot(s: System, key: string): D.Slot {
    D.SlotOf(s.damping, key)
  }

  /** The controller has kept what it must, and nothing lies in the future. */
  predicate Keeps(kept: seq<int>, full: seq<int>, clock: int) {
    if full == [] then kept == []
    else P.Retains(kept, full) && full[|full| - 1] <= clock
  }

  predicate KeyOk(s: System, key: string) {
    var full := HistoryOf(s.records, key);
    P.WellSpaced(full) && Keeps(D.Executions(Slot(s, key)), full, s.clock)
  }

  lemma HistoryAppend(records: seq<Execution>, e: Execution, key: string)
    ensures HistoryOf(records + [e], key) == HistoryOf(records, key) + (if e.key == key then [e.at] else [])
  {
    assert (records + [e])[..|records|] == records;
  }

  lemma KeepsNow(kept: seq<int>, full: seq<int>, now: int)
    requires Keeps(kept, full, now) && P.Sorted(full)
    ensures P.Retains(kept, full) && P.Upto(full, now)
  {}

  /** Nothing changes for a key but the clock and its quarantine. */
  lemma KeyLater(s: System, t: System, key: string)
    requires KeyOk(s, key) && s.clock <= t.clock && HistoryOf(t.records, key) == HistoryOf(s.records, key)
    requires D.Executions(Slot(t, key)) == D.Executions(Slot(s, key))
    ensures KeyOk(t, key)
  {}

  lemma RecordedKeeps(kept: seq<int>, full: seq<int>, at: int, clock: int)
    requires P.Room(full, at) && at <= clock && Keeps(kept, full, clock) && P.WellSpaced(full)
    ensures Keeps(D.After(kept + [at], at - D.RETENTION), full + [at], clock) && P.WellSpaced(full + [at])
  {
    P.RoomKeepsWellSpaced(full, at);
    if full == [] {
      P.RecordingRetains(kept, full, at, at);
    } else {
      P.RecordingRetains(kept, full, full[|full| - 1], at);
    }
  }

  // ----- one step, one key ------------------------------------------------------------------------------------

  lemma KeyAfterConsult(s: System, mine: string, lag: nat, key: string)
    requires KeyOk(s, key)
    ensures KeyOk(ConsultDamping(s, mine, lag), key)
  {
    var slot := D.Checked(Slot(s, mine), s.clock, s.clock + lag);
    P.PutThenGet(s.damping, mine, slot, key);
    P.CheckKeepsExecutions(Slot(s, mine), s.clock, s.clock + lag);
    KeyLater(s, ConsultDamping(s, mine, lag), key);
  }

  lemma NotedSlot(s: System, i: nat, job: Job, at: int, ok: bool, held: bool, key: string)
    ensures var t := Apply(s, i, job, Note(at), ok, held);
      && t.clock == s.clock
      && HistoryOf(t.records, key) == HistoryOf(s.records, key) + (if key == Key(job) then [at] else [])
      && D.Executions(Slot(t, key)) ==
         if key == Key(job) then D.After(D.Executions(Slot(s, key)) + [at], at - D.RETENTION)
         else D.Executions(Slot(s, key))
  {
    var t := Apply(s, i, job, Note(at), ok, held);
    HistoryAppend(s.records, Execution(Key(job), at), key);
    P.PutThenGet(s.damping, Key(job), D.Recorded(Slot(s, Key(job)), at), key);
    assert Slot(t, key) == if key == Key(job) then D.Recorded(Slot(s, key), at) else Slot(s, key);
  }

  lemma KeyAfterNote(s: System, i: nat, job: Job, at: int, ok: bool, held: bool, key: string)
    requires KeyOk(s, key) && (key == Key(job) ==> P.Room(HistoryOf(s.records, key), at) && at <= s.clock)
    ensures KeyOk(Apply(s, i, job, Note(at), ok, held), key)
  {
    NotedSlot(s, i, job, at, ok, held, key);
    if key == Key(job) {
      RecordedKeeps(D.Executions(Slot(s, key)), HistoryOf(s.records, key), at, s.clock);
    } else {
      assert HistoryOf(s.records, key) + [] == HistoryOf(s.records, key);
    }
  }

  lemma KeyAfterTrip(s: System, mine: string, duration: int, key: string)
    requires KeyOk(s, key)
    ensures KeyOk(Step(s, TripKey(mine, duration)), key)
  {
    var t, slot := Step(s, TripKey(mine, duration)), D.Manual(Slot(s, mine), s.clock, duration);
    assert t.records == s.records && t.clock == s.clock && t.damping == D.Put(s.damping, mine, slot);
    TripKeepsExecutions(s, mine, duration, key);
    KeyLater(s, t, key);
  }

  lemma TripKeepsExecutions(s: System, mine: string, duration: int, key: string)
    ensures var slot := D.Manual(Slot(s, mine), s.clock, duration);
      D.Executions(D.SlotOf(D.Put(s.damping, mine, slot), key)) == D.Executions(Slot(s, key))
  {
    P.PutThenGet(s.damping, mine, D.Manual(Slot(s, mine), s.clock, duration), key);
  }

  lemma KeyAfterApply(s: System, i: nat, job: Job, x: Instr, ok: bool, held: bool, key: string)
    requires KeyOk(s, key)
    requires x.Note? && key == Key(job) ==> P.Room(HistoryOf(s.records, key), x.at) && x.at <= s.clock
    ensures KeyOk(Apply(s, i, job, x, ok, held), key)
  {
    if x.Note? {
      KeyAfterNote(s, i, job, x.at, ok, held, key);
    } else if x.Ask? || x.Admit? {
      ApplyConsults(s, i, job, x, ok, held);
      KeyAfterConsult(s, Key(job), x.lag, key);
    } else {
      KeyUntouched(s, i, job, x, ok, held, key);
    }
  }

  lemma ApplyConsults(s: System, i: nat, job: Job, x: Instr, ok: bool, held: bool)
    requires x.Ask? || x.Admit?
    ensures Apply(s, i, job, x, ok, held) == ConsultDamping(s, Key(job), x.lag)
  {}

  lemma KeyUntouched(s: System, i: nat, job: Job, x: Instr, ok: bool, held: bool, key: string)
    requires KeyOk(s, key) && !x.Note? && !x.Ask? && !x.Admit?
    ensures KeyOk(Apply(s, i, job, x, ok, held), key)
  {
    var t := Apply(s, i, job, x, ok, held);
    ApplyTouchesOneStore(s, i, job, x, ok, held);
    assert Slot(t, key) == Slot(s, key);
    KeyLater(s, t, key);
  }

  // ----- admitted runs ---------------------------------------------------------------------------------------------

  /** Admitted, and the execution not yet recorded. */
  predicate InFlight(r: Run) {
    r.work.held && r.work.admitted && !r.work.recorded
  }

  /** The earliest time at which the run can still be recorded. */
  function Due(clock: int, pc: Pc): int {
    if pc.Recording? then pc.at else clock
  }

  /** The history of its key has room for the execution of an admitted run. */
  predicate RoomOk(s: System, r: Run) {
    InFlight(r) ==> Due(s.clock, r.pc) <= s.clock && P.Room(HistoryOf(s.records, Key(r.job)), Due(s.clock, r.pc))
  }

  lemma RoomLater(s: System, t: System, r: Run)
    requires RoomOk(s, r) && s.clock <= t.clock
    requires HistoryOf(t.records, Key(r.job)) == HistoryOf(s.records, Key(r.job))
    ensures RoomOk(t, r)
  {}

  /** The point of the program tells whether a run is in flight. */
  predicate FlightAt(pc: Pc) {
    HeldAt(pc) && AdmittedAt(pc) && !AtDone(pc)
  }

  lemma FlightIsAtItsPoint(r: Run)
    requires RunOk(r) && !r.pc.Crashed?
    ensures InFlight(r) <==> FlightAt(r.pc)
  {}

  /** What a step has to do with flight, as a matter of program points. */
  predicate FlightStep(s: System, job: Job, p: Pc, c: Choice, q: Pc, x: Instr) {
    && (FlightAt(q) ==> x.Admit? || FlightAt(p))
    && (FlightAt(q) && x.Admit? ==>
          !q.Recording? && x == Admit(c.lag) && D.Decide(Slot(s, Key(job)), s.clock) == D.Accept)
    && (FlightAt(q) && !x.Admit? ==> !p.Recording? && (q.Recording? ==> q.at == s.clock) && !x.Ask?)
    && (x.Note? ==> FlightAt(p) && p == Recording(x.at) && !FlightAt(q))
  }

  lemma EntryFlight(s: System, job: Job, pc: Pc, c: Choice)
    requires Entering(pc)
    ensures var (q, x) := NextIn(s, job, pc, c); FlightStep(s, job, pc, c, q, x)
  {}

  lemma LaterFlight(s: System, job: Job, pc: Pc, c: Choice)
    requires !Entering(pc) && !Ended(pc) && (pc.Exiting? || job.runbook.Some?)
    ensures var (q, x) := Next(s, job, pc, c); FlightStep(s, job, pc, c, q, x)
  {
    var (q, x) := Next(s, job, pc, c);
    if Concluding(pc) {
      assert FlightStep(s, job, pc, c, q, x);
    } else if pc.Exiting? {
      assert FlightStep(s, job, pc, c, q, x);
    } else if Working(pc) {
      assert FlightStep(s, job, pc, c, q, x);
    }
  }

  /** How a run comes to be in flight, and how long it stays so. */
  lemma FlightMoves(s: System, r: Run, c: Choice)
    requires RunOk(r) && !Ended(r.pc)
    ensures var (q, x) := Next(s, r.job, r.pc, c);
            var t := Perform(r, q, x, c.ok);
      && (InFlight(t) ==> x.Admit? || InFlight(r))
      && (InFlight(t) && x.Admit? ==>
            !q.Recording? && x == Admit(c.lag) && D.Decide(Slot(s, Key(r.job)), s.clock) == D.Accept)
      && (InFlight(t) && !x.Admit? ==> !r.pc.Recording? && (q.Recording? ==> q.at == s.clock) && !x.Ask?)
      && (x.Note? ==> InFlight(r) && r.pc == Recording(x.at) && !InFlight(t))
  {
    var (q, x) := Next(s, r.job, r.pc, c);
    StepKeepsRunOk(s, r, c);
    EveryMoveKeepsWork(s, r.job, r.pc, c);
    FlightIsAtItsPoint(r);
    FlightIsAtItsPoint(Perform(r, q, x, c.ok));
    if Entering(r.pc) {
      EntryFlight(s, r.job, r.pc, c);
    } else {
      LaterFlight(s, r.job, r.pc, c);
    }
  }

  lemma ClockMoves(s: System, i: nat, job: Job, x: Instr, ok: bool, held: bool)
    ensures Apply(s, i, job, x, ok, held).clock ==
            if x.Ask? || x.Admit? then s.clock + x.lag else s.clock
  {}

  /** The moving run keeps its room. */
  lemma RoomOfMover(s: System, i: nat, r: Run, c: Choice)
    requires RunOk(r) && !Ended(r.pc) && RoomOk(s, r) && KeyOk(s, Key(r.job))
    ensures var (q, x) := Next(s, r.job, r.pc, c);
      RoomOk(Apply(s, i, r.job, x, c.ok, r.work.held), Perform(r, q, x, c.ok))
  {
    var (q, x) := Next(s, r.job, r.pc, c);
    var t, r' := Apply(s, i, r.job, x, c.ok, r.work.held), Perform(r, q, x, c.ok);
    FlightMoves(s, r, c);
    ClockMoves(s, i, r.job, x, c.ok, r.work.held);
    ApplyTouchesOneStore(s, i, r.job, x, c.ok, r.work.held);
    if InFlight(r') && x.Admit? {
      AdmissionLeavesRoom(s, Key(r.job), c.lag);
    }
  }

  lemma AdmissionLeavesRoom(s: System, key: string, lag: nat)
    requires KeyOk(s, key) && D.Decide(Slot(s, key), s.clock) == D.Accept
    ensures P.Room(HistoryOf(s.records, key), s.clock + lag)
  {
    var full := HistoryOf(s.records, key);
    KeepsNow(D.Executions(Slot(s, key)), full, s.clock);
    P.AdmissionLeavesRoom(Slot(s, key), full, s.clock, s.clock + lag);
  }

  /** Every other run keeps its room: whoever records under its key would have to hold its lock. */
  lemma RoomOfOthers(s: System, i: nat, x: Instr, ok: bool, j: nat)
    requires LocksOk(s) && SharedKeysShareLocks(s) && i < |s.runs| && j < |s.runs| && i != j
    requires RunOk(s.runs[i]) && RunOk(s.runs[j]) && RoomOk(s, s.runs[j])
    requires x.Note? ==> InFlight(s.runs[i])
    ensures RoomOk(Apply(s, i, s.runs[i].job, x, ok, s.runs[i].work.held), s.runs[j])
  {
    var ri, rj := s.runs[i], s.runs[j];
    var t := Apply(s, i, ri.job, x, ok, ri.work.held);
    ClockMoves(s, i, ri.job, x, ok, ri.work.held);
    ApplyTouchesOneStore(s, i, ri.job, x, ok, ri.work.held);
    if InFlight(rj) {
      if x.Note? {
        FlightIsGateable(ri);
        FlightIsGateable(rj);
        assert Holds(s, i) && Holds(s, j);
        assert Compatible(ri.job, rj.job);
        HistoryAppend(s.records, Execution(Key(ri.job), x.at), Key(rj.job));
      }
      RoomLater(s, t, rj);
    }
  }

  lemma FlightIsGateable(r: Run)
    requires RunOk(r) && InFlight(r)
    ensures Gateable(r.job)
  {}

  // ----- every interleaving --------------------------------------------------------------------------------------------

  ghost predicate DampingOk(s: System) {
    && (forall key :: KeyOk(s, key))
    && (forall i: nat :: i < |s.runs| ==> RoomOk(s, s.runs[i]))
  }

  predicate AllRunsOk(s: System) {
    forall i: nat :: i < |s.runs| ==> RunOk(s.runs[i])
  }

  lemma KeyAfterGo(s: System, i: nat, c: Choice, key: string)
    requires i < |s.runs| && !Ended(s.runs[i].pc) && RunOk(s.runs[i]) && RoomOk(s, s.runs[i]) && KeyOk(s, key)
    ensures KeyOk(Stores(s, Go(i, c)), key)
  {
    var r := s.runs[i];
    FlightMoves(s, r, c);
    KeyAfterApply(s, i, r.job, MoveOf(s, Go(i, c)).1, c.ok, r.work.held, key);
  }

  lemma OtherRoomAfterGo(s: System, i: nat, c: Choice, j: nat)
    requires LocksOk(s) && SharedKeysShareLocks(s) && i < |s.runs| && j < |s.runs| && i != j
    requires RunOk(s.runs[i]) && RunOk(s.runs[j]) && RoomOk(s, s.runs[j]) && !Ended(s.runs[i].pc)
    ensures RoomOk(Stores(s, Go(i, c)), s.runs[j])
  {
    FlightMoves(s, s.runs[i], c);
    RoomOfOthers(s, i, MoveOf(s, Go(i, c)).1, c.ok, j);
  }

  lemma OwnRoomAfterGo(s: System, i: nat, c: Choice)
    requires i < |s.runs| && !Ended(s.runs[i].pc) && RunOk(s.runs[i]) && RoomOk(s, s.runs[i])
    requires KeyOk(s, Key(s.runs[i].job))
    ensures RoomOk(Stores(s, Go(i, c)), Moved(s, Go(i, c), i))
  {
    RoomOfMover(s, i, s.runs[i], c);
  }

  lemma StoresKeepRuns(s: System, l: Label)
    requires (l.Go? || l.Crash?) && l.i < |s.runs|
    ensures Stores(s, l).runs == s.runs
  {
    ApplyTouchesOneStore(s, l.i, s.runs[l.i].job, MoveOf(s, l).1, OkOf(l), s.runs[l.i].work.held);
  }

  lemma StoresAfterGo(s: System, i: nat, c: Choice)
    requires DampingOk(s) && LocksOk(s) && SharedKeysShareLocks(s)
    requires i < |s.runs| && !Ended(s.runs[i].pc) && AllRunsOk(s)
    ensures var t := Stores(s, Go(i, c));
      && (forall key :: KeyOk(t, key)) && RoomOk(t, Moved(s, Go(i, c), i))
      && forall j: nat :: j < |s.runs| && j != i ==> RoomOk(t, s.runs[j])
  {
    var t := Stores(s, Go(i, c));
    forall key ensures KeyOk(t, key) {
      KeyAfterGo(s, i, c, key);
    }
    OwnRoomAfterGo(s, i, c);
    forall j: nat | j < |s.runs| && j != i ensures RoomOk(t, s.runs[j]) {
      OtherRoomAfterGo(s, i, c, j);
    }
  }

  lemma DampingAfterGo(s: System, i: nat, c: Choice)
    requires DampingOk(s) && LocksOk(s) && SharedKeysShareLocks(s)
    requires i < |s.runs| && !Ended(s.runs[i].pc) && AllRunsOk(s)
    ensures DampingOk(Step(s, Go(i, c)))
  {
    StoresAfterGo(s, i, c);
    StoresKeepRuns(s, Go(i, c));
    OnlyRunsChange(Stores(s, Go(i, c)), i, Moved(s, Go(i, c), i));
    StepIsMove(s, Go(i, c));
  }

  lemma OnlyRunsChange(t: System, i: nat, r: Run)
    requires i < |t.runs| && (forall key :: KeyOk(t, key)) && RoomOk(t, r)
    requires forall j: nat :: j < |t.runs| && j != i ==> RoomOk(t, t.runs[j])
    ensures DampingOk(With(t, i, r))
  {
    var u := With(t, i, r);
    forall key ensures KeyOk(u, key) {
      KeyLater(t, u, key);
    }
    forall j: nat | j < |u.runs| ensures RoomOk(u, u.runs[j]) {
      RoomLater(t, u, u.runs[j]);
    }
  }

  lemma DampingAfterCrash(s: System, i: nat)
    requires DampingOk(s) && i < |s.runs| && !Ended(s.runs[i].pc)
    ensures DampingOk(Step(s, Crash(i)))
  {
    var r := s.runs[i];
    var t := Apply(s, i, r.job, Drop, true, r.work.held);
    forall key ensures KeyOk(t, key) {
      KeyLater(s, t, key);
    }
    forall j: nat | j < |t.runs| ensures RoomOk(t, t.runs[j]) {
      RoomLater(s, t, t.runs[j]);
    }
    OnlyRunsChange(t, i, Perform(r, Crashed, Drop, true));
  }

  lemma DampingAfterRest(s: System, l: Label)
    requires DampingOk(s) && !l.Go? && !l.Crash?
    ensures DampingOk(Step(s, l))
  {
    var t := Step(s, l);
    forall key ensures KeyOk(t, key) {
      if l.TripKey? {
        KeyAfterTrip(s, l.key, l.duration, key);
      } else {
        KeyLater(s, t, key);
      }
    }
    forall j: nat | j < |t.runs| ensures RoomOk(t, t.runs[j]) {
      if j < |s.runs| {
        RoomLater(s, t, t.runs[j]);
      }
    }
  }

  lemma SharingHeldBefore(s: System, l: Label)
    requires SharedKeysShareLocks(Step(s, l))
    ensures SharedKeysShareLocks(s)
  {
    forall i: nat | i < |s.runs| ensures i < |Step(s, l).runs| && Step(s, l).runs[i].job == s.runs[i].job {
      StepGrows(s, l);
      StepRuns(s, l, i);
      MovedKeeps(s, l, i);
    }
  }

  lemma {:induction false} ReachableDampingOk(clock: int, labels: seq<Label>)
    requires SharedKeysShareLocks(Exec(Boot(clock), labels))
    ensures DampingOk(Exec(Boot(clock), labels))
  {
    if labels != [] {
      var n := |labels| - 1;
      var s, l := Exec(Boot(clock), labels[..n]), labels[n];
      SharingHeldBefore(s, l);
      ReachableDampingOk(clock, labels[..n]);
      if !l.Go? && !l.Crash? {
        DampingAfterRest(s, l);
      } else if Moves(s, l, l.i) {
        if l.Go? {
          ReachableLocksOk(clock, labels[..n]);
          forall i: nat | i < |s.runs| ensures RunOk(s.runs[i]) {
            ReachableRunOk(clock, labels[..n], i);
          }
          DampingAfterGo(s, l.i, l.c);
        } else {
          DampingAfterCrash(s, l.i);
        }
      }
    }
  }

  /**
    In every interleaving of any number of runs, with crashes anywhere, manual trips and a
    clock that never runs backwards, where runs sharing a damping key also share a lock path:
    the full history of every key keeps all three rate limits, in every window.
   */
  lemma RateLimitsHold(clock: int, labels: seq<Label>, key: string)
    requires SharedKeysShareLocks(Exec(Boot(clock), labels))
    ensures P.WithinLimits(HistoryOf(Exec(Boot(clock), labels).records, key))
  {
    ReachableDampingOk(clock, labels);
    assert KeyOk(Exec(Boot(clock), labels), key);
    P.WellSpacedIsWithinLimits(HistoryOf(Exec(Boot(clock), labels).records, key));
  }

  // ----- quarantine across runs -------------------------------------------------------------------------------

  /** The key is quarantined until then. */
  predicate Serving(s: System, key: string, until: int) {
    Slot(s, key).Tracked? && Slot(s, key).st.tripped && Slot(s, key).st.quarantineUntil == until
  }

  /** The run is on a job with this key and has been admitted. */
  predicate AdmittedUnder(s: System, i: nat, key: string) {
    i < |s.runs| && Key(s.runs[i].job) == key && s.runs[i].work.admitted
  }

  ghost predicate NoneAdmittedSince(s: System, t: System, key: string) {
    forall i: nat :: AdmittedUnder(t, i, key) ==> AdmittedUnder(s, i, key)
  }

  lemma AdmitNeedsAcceptance(s: System, job: Job, pc: Pc, c: Choice)
    requires Next(s, job, pc, c).1.Admit?
    ensures D.Decide(Slot(s, Key(job)), s.clock) == D.Accept
  {}

  lemma PutServes(s: System, mine: string, slot: D.Slot, key: string, until: int)
    requires Serving(s, key, until)
    requires mine == key ==> slot.Tracked? && slot.st.tripped && slot.st.quarantineUntil == until
    ensures Serving(s.(damping := D.Put(s.damping, mine, slot)), key, until)
  {
    P.PutThenGet(s.damping, mine, slot, key);
  }

  lemma AppliedServes(s: System, i: nat, job: Job, x: Instr, ok: bool, held: bool, key: string, until: int)
    requires Serving(s, key, until) && s.clock < until
    ensures var t := Apply(s, i, job, x, ok, held); Serving(t, key, until) && s.clock <= t.clock
  {
    if x.Ask? || x.Admit? {
      PutServes(s, Key(job), D.Checked(Slot(s, Key(job)), s.clock, s.clock + x.lag), key, until);
    } else if x.Note? {
      PutServes(s, Key(job), D.Recorded(Slot(s, Key(job)), x.at), key, until);
    }
  }

  lemma GoServes(s: System, i: nat, c: Choice, key: string, until: int)
    requires i < |s.runs| && Serving(s, key, until) && s.clock < until
    ensures var t := GoStep(s, i, c); Serving(t, key, until) && s.clock <= t.clock && NoneAdmittedSince(s, t, key)
  {
    var r := s.runs[i];
    var (pc, x) := Next(s, r.job, r.pc, c);
    AppliedServes(s, i, r.job, x, c.ok, r.work.held, key, until);
    if x.Admit? {
      AdmitNeedsAcceptance(s, r.job, r.pc, c);
    }
    AdmittedBefore(r, pc, x, c.ok);
  }

  lemma AdmittedBefore(r: Run, pc: Pc, x: Instr, ok: bool)
    ensures Perform(r, pc, x, ok).work.admitted <==> r.work.admitted || x.Admit?
  {
    WorkedFlags(r.work, x, ok);
  }

  lemma StepServes(s: System, l: Label, key: string, until: int)
    requires Serving(s, key, until) && s.clock < until && (l.TripKey? ==> l.key != key)
    ensures var t := Step(s, l); Serving(t, key, until) && s.clock <= t.clock && NoneAdmittedSince(s, t, key)
  {
    match l
    case Go(i, c) =>
      if i < |s.runs| && !Ended(s.runs[i].pc) {
        GoServes(s, i, c, key, until);
      }
    case Crash(i) =>
      if i < |s.runs| && !Ended(s.runs[i].pc) {
        AppliedServes(s, i, s.runs[i].job, Drop, true, s.runs[i].work.held, key, until);
        AdmittedBefore(s.runs[i], Crashed, Drop, true);
      }
    case TripKey(other, duration) =>
      PutServes(s, other, D.Manual(Slot(s, other), s.clock, duration), key, until);
    case _ =>
  }

  lemma StepKeepsTime(s: System, l: Label)
    ensures s.clock <= Step(s, l).clock
  {
    if l.Go? && l.i < |s.runs| {
      var r := s.runs[l.i];
      AppliedKeepsTime(s, l.i, r.job, Next(s, r.job, r.pc, l.c).1, l.c.ok, r.work.held);
    } else if l.Crash? && l.i < |s.runs| {
      AppliedKeepsTime(s, l.i, s.runs[l.i].job, Drop, true, s.runs[l.i].work.held);
    }
  }

  lemma AppliedKeepsTime(s: System, i: nat, job: Job, x: Instr, ok: bool, held: bool)
    ensures s.clock <= Apply(s, i, job, x, ok, held).clock
  {}

  /**
    A quarantine holds for all runs: whatever any number of runs do, spawned before or after, with
    crashes anywhere and operators tripping other keys, none is admitted under the key before the
    quarantine is over, and its end does not move.
   */
  lemma {:induction false} QuarantineHolds(s: System, labels: seq<Label>, key: string, until: int)
    requires Serving(s, key, until) && Exec(s, labels).clock < until
    requires forall k :: 0 <= k < |labels| && labels[k].TripKey? ==> labels[k].key != key
    ensures Serving(Exec(s, labels), key, until) && NoneAdmittedSince(s, Exec(s, labels), key)
  {
    if labels != [] {
      var n := |labels| - 1;
      StepKeepsTime(Exec(s, labels[..n]), labels[n]);
      QuarantineHolds(s, labels[..n], key, until);
      StepServes(Exec(s, labels[..n]), labels[n], key, until);
    }
  }

  /** A breach at the gate starts such a quarantine, of an hour from the end of the check. */
  lemma BreachQuarantines(s: System, i: nat, c: Choice)
    requires i < |s.runs| && s.runs[i].pc == Gating
    requires D.Decide(Slot(s, Key(s.runs[i].job)), s.clock).Breach?
    ensures var t := Step(s, Go(i, c));
      && Serving(t, Key(s.runs[i].job), t.clock + 3600 * D.SECOND) && t.clock == s.clock + c.lag
      && t.runs[i].pc == Exiting(Damped, 0)
  {
    var key := Key(s.runs[i].job);
    P.PutThenGet(s.damping, key, D.Checked(Slot(s, key), s.clock, s.clock + c.lag), key);
  }

  /** So does an operator, for as long as asked or for an hour. */
  lemma TripQuarantines(s: System, key: string, duration: int)
    ensures Serving(Step(s, TripKey(key, duration)), key, s.clock + if duration > 0 then duration else 3600 * D.SECOND)
  {
    P.PutThenGet(s.damping, key, D.Manual(Slot(s, key), s.clock, duration), key);
  }
}
