/**
  The flap-damping controller of `internal/damping/damping.go`.

  Times and durations are integers counting nanoseconds, and every clock reading is a
  parameter.  `CanExecute` reads the clock twice when it trips (once on entry, once inside
  `tripLocked`), so it takes two readings.
 */
module Damping {

  const SECOND := 1_000_000_000
  const COOLDOWN := 300 * SECOND
  const QUARANTINE := 3600 * SECOND
  const WINDOW_10MIN := 600 * SECOND
  const WINDOW_1HOUR := 3600 * SECOND
  const RETENTION := 86400 * SECOND
  const MAX_10MIN := 2
  const MAX_1HOUR := 4
  const ZERO_TIME := 0

  datatype Reason =
    | NoReason
    | CooldownViolation(elapsed: int)
    | TenMinuteLimit(count: nat)
    | OneHourLimit(count: nat)
    | ManualTrip(duration: int)

  datatype ResourceState =
    ResourceState(executions: seq<int>, tripped: bool, quarantineUntil: int, reason: Reason)

  /** What the controller knows about one resource. */
  datatype Slot = Untracked | Tracked(st: ResourceState)

  datatype Decision = Accept | InQuarantine(until: int, why: Reason) | Breach(what: Reason)

  // ----- specification of a single resource ------------------------------------------------

  /** How many executions lie at most `window` before `now`. */
  function Count(executions: seq<int>, now: int, window: int): nat {
    if executions == [] then 0
    else
      var n := |executions| - 1;
      Count(executions[..n], now, window) + (if now - executions[n] <= window then 1 else 0)
  }

  /** The executions strictly after `cutoff`, in order. */
  function After(executions: seq<int>, cutoff: int): seq<int> {
    if executions == [] then []
    else
      var n := |executions| - 1;
      After(executions[..n], cutoff) + (if executions[n] > cutoff then [executions[n]] else [])
  }

  /** The three rate rules, in the order in which they are tried. */
  function Verdict(executions: seq<int>, now: int): Decision {
    if executions != [] && now - executions[|executions| - 1] < COOLDOWN then
      Breach(CooldownViolation(now - executions[|executions| - 1]))
    else if Count(executions, now, WINDOW_10MIN) >= MAX_10MIN then
      Breach(TenMinuteLimit(Count(executions, now, WINDOW_10MIN)))
    else if Count(executions, now, WINDOW_1HOUR) >= MAX_1HOUR then
      Breach(OneHourLimit(Count(executions, now, WINDOW_1HOUR)))
    else Accept
  }

  predicate Quarantined(slot: Slot, now: int) {
    slot.Tracked? && slot.st.tripped && now < slot.st.quarantineUntil
  }

  function Executions(slot: Slot): seq<int> {
    if slot.Tracked? then slot.st.executions else []
  }

  function Decide(slot: Slot, now: int): Decision {
    if Quarantined(slot, now) then InQuarantine(slot.st.quarantineUntil, slot.st.reason)
    else if slot.Untracked? then Accept
    else Verdict(slot.st.executions, now)
  }

  function TrippedTo(slot: Slot, until: int, reason: Reason): Slot {
    Tracked(ResourceState(Executions(slot), true, until, reason))
  }

  /** What a verdict makes of a slot: an expired quarantine is lifted, a breach trips. */
  function Ruled(slot: Slot, verdict: Decision, tripNow: int): Slot
    requires slot.Tracked?
  {
    if verdict.Breach? then TrippedTo(slot, tripNow + QUARANTINE, verdict.what)
    else if slot.st.tripped then Tracked(ResourceState(slot.st.executions, false, ZERO_TIME, NoReason))
    else slot
  }

  /** The slot after a `CanExecute` call. */
  function Checked(slot: Slot, now: int, tripNow: int): Slot {
    if slot.Untracked? || Quarantined(slot, now) then slot
    else Ruled(slot, Verdict(slot.st.executions, now), tripNow)
  }

  function WithExecutions(slot: Slot, executions: seq<int>): Slot {
    if slot.Tracked? then Tracked(slot.st.(executions := executions))
    else Tracked(ResourceState(executions, false, ZERO_TIME, NoReason))
  }

  /** The slot after `RecordExecutionAt`: append, then forget what is 24 hours old. */
  function Recorded(slot: Slot, at: int): Slot {
    WithExecutions(slot, After(Executions(slot) + [at], at - RETENTION))
  }

  /** The reference that never forgets. */
  function Remembered(slot: Slot, at: int): Slot {
    WithExecutions(slot, Executions(slot) + [at])
  }

  function Manual(slot: Slot, now: int, duration: int): Slot {
    var d := if duration <= 0 then QUARANTINE else duration;
    TrippedTo(slot, now + d, ManualTrip(d))
  }

  // ----- the controller ----------------------------------------------------------------------

  function SlotOf(states: map<string, ResourceState>, resource: string): Slot {
    if resource in states then Tracked(states[resource]) else Untracked
  }

  function Put(states: map<string, ResourceState>, resource: string, slot: Slot): map<string, ResourceState> {
    match slot
    case Untracked => states - {resource}
    case Tracked(st) => states[resource := st]
  }

  /** `saved` is the state file; a path is configured and writes to it succeed. */
  class Controller {
    var states: map<string, ResourceState>
    var saved: map<string, ResourceState>

    ghost predicate Valid()
      reads this
    {
      saved == states
    }

    /** `NewController` on a state file with the given contents (empty when there is none). */
    constructor (file: map<string, ResourceState>)
      ensures Valid() && states == file
    {
      states := file;
      saved := file;
    }

    method SaveLocked()
      modifies this`saved
      ensures Valid()
    {
      saved := states;
    }

    method TripLocked(resource: string, until: int, reason: Reason)
      modifies this`states
      ensures states == Put(old(states), resource, TrippedTo(SlotOf(old(states), resource), until, reason))
    {
      var st := if resource in states then states[resource]
                else ResourceState([], false, ZERO_TIME, NoReason);
      states := states[resource := st.(tripped := true, quarantineUntil := until, reason := reason)];
    }

    method CanExecute(resource: string, now: int, tripNow: int) returns (decision: Decision)
      requires Valid()
      modifies this
      ensures Valid()
      ensures decision == Decide(SlotOf(old(states), resource), now)
      ensures states == Put(old(states), resource, Checked(SlotOf(old(states), resource), now, tripNow))
    {
      if resource !in states {
        return Accept;
      }
      var st := states[resource];
      if st.tripped {
        if now < st.quarantineUntil {
          return InQuarantine(st.quarantineUntil, st.reason);
        }
        st := st.(tripped := false, quarantineUntil := ZERO_TIME, reason := NoReason);
        states := states[resource := st];
        SaveLocked();
      }

      if |st.executions| > 0 {
        var elapsed := now - st.executions[|st.executions| - 1];
        if elapsed < COOLDOWN {
          TripLocked(resource, tripNow + QUARANTINE, CooldownViolation(elapsed));
          SaveLocked();
          return Breach(CooldownViolation(elapsed));
        }
      }

      var count10m := CountWithin(st.executions, now, WINDOW_10MIN);
      if count10m >= MAX_10MIN {
        TripLocked(resource, tripNow + QUARANTINE, TenMinuteLimit(count10m));
        SaveLocked();
        return Breach(TenMinuteLimit(count10m));
      }

      var count1h := CountWithin(st.executions, now, WINDOW_1HOUR);
      if count1h >= MAX_1HOUR {
        TripLocked(resource, tripNow + QUARANTINE, OneHourLimit(count1h));
        SaveLocked();
        return Breach(OneHourLimit(count1h));
      }
      return Accept;
    }

    method RecordExecutionAt(resource: string, at: int)
      requires Valid()
      modifies this
      ensures Valid()
      ensures states == Put(old(states), resource, Recorded(SlotOf(old(states), resource), at))
    {
      var st := if resource in states then states[resource]
                else ResourceState([], false, ZERO_TIME, NoReason);
      var executions := st.executions + [at];
      var cutoff := at - RETENTION;
      var pruned: seq<int> := [];
      var i := 0;
      while i < |executions|
        invariant 0 <= i <= |executions|
        invariant pruned == After(executions[..i], cutoff)
      {
        assert executions[..i + 1][..i] == executions[..i];
        if executions[i] > cutoff {
          pruned := pruned + [executions[i]];
        }
        i := i + 1;
      }
      assert executions[..i] == executions;
      states := states[resource := st.(executions := pruned)];
      SaveLocked();
    }

    method Trip(resource: string, now: int, quarantineDuration: int)
      requires Valid()
      modifies this
      ensures Valid()
      ensures states == Put(old(states), resource, Manual(SlotOf(old(states), resource), now, quarantineDuration))
    {
      var duration := quarantineDuration;
      if duration <= 0 {
        duration := QUARANTINE;
      }
      TripLocked(resource, now + duration, ManualTrip(duration));
      SaveLocked();
    }

    method Reset(resource: string)
      requires Valid()
      modifies this
      ensures Valid()
      ensures states == Put(old(states), resource, Untracked)
    {
      states := states - {resource};
      SaveLocked();
    }
  }

  /** The counting loop shared by the two rate limits. */
  method CountWithin(executions: seq<int>, now: int, window: int) returns (count: nat)
    ensures count == Count(executions, now, window)
  {
    count := 0;
    var i := 0;
    while i < |executions|
      invariant 0 <= i <= |executions|
      invariant count == Count(executions[..i], now, window)
    {
      assert executions[..i + 1][..i] == executions[..i];
      if now - executions[i] <= window {
        count := count + 1;
      }
      i := i + 1;
    }
    assert executions[..i] == executions;
  }
}
