/**
  What the damping controller guarantees over whole call sequences.

  `SlotAfterRemembering` is the reference: a controller that never forgets an execution, so
  that its execution list is the full history of the resource since the last `Reset`.
 */
module DampingProperties {
  import opened Wrappers
  import opened Damping

  // ----- call sequences ------------------------------------------------------------------------

  /** One call concerning a resource, with the clock readings it makes. */
  datatype Call =
    | Check(now: int, tripNow: int)
    | Record(at: int)
    | Trip(when: int, duration: int)
    | Reset(whenReset: int)

  function Begins(c: Call): int {
    match c
    case Check(now, _) => now
    case Record(at) => at
    case Trip(when, _) => when
    case Reset(when) => when
  }

  function Ends(c: Call): int {
    if c.Check? then c.tripNow else Begins(c)
  }

  /** The clock never runs backwards, neither within a call nor between calls. */
  predicate Timely(calls: seq<Call>) {
    && (forall i :: 0 <= i < |calls| ==> Begins(calls[i]) <= Ends(calls[i]))
    && (forall i, j :: 0 <= i < j < |calls| ==> Ends(calls[i]) <= Begins(calls[j]))
  }

  predicate EndedBy(calls: seq<Call>, clock: int) {
    forall i :: 0 <= i < |calls| ==> Ends(calls[i]) <= clock
  }

  function Apply(slot: Slot, c: Call): Slot {
    match c
    case Check(now, tripNow) => Checked(slot, now, tripNow)
    case Record(at) => Recorded(slot, at)
    case Trip(when, duration) => Manual(slot, when, duration)
    case Reset(_) => Untracked
  }

  function ApplyRemembering(slot: Slot, c: Call): Slot {
    if c.Record? then Remembered(slot, c.at) else Apply(slot, c)
  }

  function Init(calls: seq<Call>): seq<Call>
    requires calls != []
  {
    calls[..|calls| - 1]
  }

  function Last(calls: seq<Call>): Call
    requires calls != []
  {
    calls[|calls| - 1]
  }

  function SlotAfter(calls: seq<Call>): Slot {
    if calls == [] then Untracked else Apply(SlotAfter(Init(calls)), Last(calls))
  }

  function SlotAfterRemembering(calls: seq<Call>): Slot {
    if calls == [] then Untracked else ApplyRemembering(SlotAfterRemembering(Init(calls)), Last(calls))
  }

  /** Every execution of the resource since its last `Reset`, forgotten ones included. */
  function FullHistory(calls: seq<Call>): seq<int> {
    Executions(SlotAfterRemembering(calls))
  }

  /** Some check accepted since the last recorded execution. */
  predicate Admitted(calls: seq<Call>) {
    calls != [] &&
    match Last(calls)
    case Check(now, _) => Decide(SlotAfter(Init(calls)), now) == Accept || Admitted(Init(calls))
    case Record(_) => false
    case _ => Admitted(Init(calls))
  }

  /** Executions are recorded only after an accepted check, one per acceptance, as the engine does. */
  predicate Gated(calls: seq<Call>) {
    calls == [] || (Gated(Init(calls)) && (Last(calls).Record? ==> Admitted(Init(calls))))
  }

  // ----- rate limits on a history ----------------------------------------------------------------

  predicate Sorted(h: seq<int>) {
    forall i, j :: 0 <= i <= j < |h| ==> h[i] <= h[j]
  }

  /** How much later the entry `k` places after `i` is. */
  function Rest(h: seq<int>, i: nat, k: nat): int
    requires i + k < |h|
  {
    h[i + k] - h[i]
  }

  /** Entries `k` places apart are more than `w` apart in time. */
  predicate Spaced(h: seq<int>, k: nat, w: int) {
    forall i: nat :: i < |h| - k ==> Rest(h, i, k) > w
  }

  /** Consecutive executions are at least the cooldown apart. */
  predicate Cooled(h: seq<int>) {
    Spaced(h, 1, COOLDOWN - 1)
  }

  /** The shape every admitted history has. */
  predicate WellSpaced(h: seq<int>) {
    Sorted(h) && Cooled(h) && Spaced(h, MAX_10MIN, WINDOW_10MIN) && Spaced(h, MAX_1HOUR, WINDOW_1HOUR)
  }

  /** How many entries lie in the closed window from `lo` to `hi`. */
  function Within(h: seq<int>, lo: int, hi: int): nat {
    if h == [] then 0
    else
      var n := |h| - 1;
      Within(h[..n], lo, hi) + (if lo <= h[n] <= hi then 1 else 0)
  }

  /** What the design promises of a history: rests of 300 s, 2 per closed 10 minutes, 4 per closed hour. */
  ghost predicate WithinLimits(h: seq<int>) {
    && (forall i :: 0 < i < |h| ==> h[i] - h[i - 1] >= 300 * SECOND)
    && (forall lo, hi :: hi == lo + 600 * SECOND ==> Within(h, lo, hi) <= 2)
    && (forall lo, hi :: hi == lo + 3600 * SECOND ==> Within(h, lo, hi) <= 4)
  }

  lemma {:induction false} WithinAtMostLength(h: seq<int>, lo: int, hi: int)
    ensures Within(h, lo, hi) <= |h|
  {
    if h != [] {
      WithinAtMostLength(h[..|h| - 1], lo, hi);
    }
  }

  lemma {:induction false} WithinSplit(a: seq<int>, b: seq<int>, lo: int, hi: int)
    ensures Within(a + b, lo, hi) == Within(a, lo, hi) + Within(b, lo, hi)
  {
    if b == [] {
      assert a + b == a;
    } else {
      assert (a + b)[..|a + b| - 1] == a + b[..|b| - 1];
      WithinSplit(a, b[..|b| - 1], lo, hi);
    }
  }

  lemma {:induction false} WithinNone(h: seq<int>, lo: int, hi: int)
    requires forall i :: 0 <= i < |h| ==> h[i] < lo
    ensures Within(h, lo, hi) == 0
  {
    if h != [] {
      WithinNone(h[..|h| - 1], lo, hi);
    }
  }

  /** A sorted history whose k-apart entries are more than w apart has at most k entries in any closed window of length w. */
  lemma {:induction false} SpacedBoundsWindows(h: seq<int>, k: nat, lo: int, w: int)
    requires Sorted(h) && Spaced(h, k, w)
    ensures Within(h, lo, lo + w) <= k
  {
    var n := |h|;
    if n <= k {
      WithinAtMostLength(h, lo, lo + w);
    } else if lo <= h[n - 1] <= lo + w {
      assert Rest(h, n - 1 - k, k) > w;
      WithinTail(h, n - k, lo, lo + w);
    } else {
      SpacedInit(h, k, w);
      SpacedBoundsWindows(h[..n - 1], k, lo, w);
    }
  }

  lemma WithinTail(h: seq<int>, k: nat, lo: int, hi: int)
    requires k <= |h| && forall i :: 0 <= i < k ==> h[i] < lo
    ensures Within(h, lo, hi) <= |h| - k
  {
    assert h == h[..k] + h[k..];
    WithinSplit(h[..k], h[k..], lo, hi);
    WithinNone(h[..k], lo, hi);
    WithinAtMostLength(h[k..], lo, hi);
  }

  lemma SpacedInit(h: seq<int>, k: nat, w: int)
    requires Spaced(h, k, w) && h != []
    ensures Spaced(h[..|h| - 1], k, w)
  {
    var g := h[..|h| - 1];
    forall i: nat | i < |g| - k ensures Rest(g, i, k) > w {
      assert Rest(h, i, k) > w;
    }
  }

  lemma WellSpacedIsWithinLimits(h: seq<int>)
    requires WellSpaced(h)
    ensures WithinLimits(h)
  {
    forall i | 0 < i < |h| ensures h[i] - h[i - 1] >= 300 * SECOND {
      assert Rest(h, i - 1, 1) >= COOLDOWN;
    }
    forall lo, hi | hi == lo + 600 * SECOND ensures Within(h, lo, hi) <= 2 {
      SpacedBoundsWindows(h, 2, lo, 600 * SECOND);
    }
    forall lo, hi | hi == lo + 3600 * SECOND ensures Within(h, lo, hi) <= 4 {
      SpacedBoundsWindows(h, 4, lo, 3600 * SECOND);
    }
  }

  // ----- what the controller keeps of a history ---------------------------------------------------

  predicate Upto(h: seq<int>, clock: int) {
    Sorted(h) && forall i :: 0 <= i < |h| ==> h[i] <= clock
  }

  /** `kept` is what is left of `full`: a nonempty tail, everything dropped being at least 24 hours older than the last entry. */
  predicate Retains(kept: seq<int>, full: seq<int>) {
    && |kept| <= |full|
    && kept == full[|full| - |kept|..]
    && (full != [] ==> kept != [] && kept[0] > kept[|kept| - 1] - RETENTION)
    && (forall i :: 0 <= i < |full| - |kept| ==> full[i] <= kept[|kept| - 1] - RETENTION)
  }

  lemma {:induction false} CountSplit(a: seq<int>, b: seq<int>, now: int, w: int)
    ensures Count(a + b, now, w) == Count(a, now, w) + Count(b, now, w)
  {
    if b == [] {
      assert a + b == a;
    } else {
      assert (a + b)[..|a + b| - 1] == a + b[..|b| - 1];
      CountSplit(a, b[..|b| - 1], now, w);
    }
  }

  lemma {:induction false} CountNone(h: seq<int>, now: int, w: int)
    requires forall i :: 0 <= i < |h| ==> now - h[i] > w
    ensures Count(h, now, w) == 0
  {
    if h != [] {
      CountNone(h[..|h| - 1], now, w);
    }
  }

  lemma {:induction false} CountAll(h: seq<int>, now: int, w: int)
    requires forall i :: 0 <= i < |h| ==> now - h[i] <= w
    ensures Count(h, now, w) == |h|
  {
    if h != [] {
      CountAll(h[..|h| - 1], now, w);
    }
  }

  lemma {:induction false} AfterNone(h: seq<int>, cutoff: int)
    requires forall i :: 0 <= i < |h| ==> h[i] <= cutoff
    ensures After(h, cutoff) == []
  {
    if h != [] {
      AfterNone(h[..|h| - 1], cutoff);
    }
  }

  /** Pruning a sorted list cuts off a front part. */
  lemma {:induction false} AfterIsTail(h: seq<int>, cutoff: int) returns (k: nat)
    requires Sorted(h)
    ensures k <= |h| && After(h, cutoff) == h[k..]
    ensures forall i :: 0 <= i < k ==> h[i] <= cutoff
    ensures k < |h| ==> h[k] > cutoff
  {
    var n := |h| - 1;
    if h == [] || h[n] <= cutoff {
      AfterNone(h, cutoff);
      k := |h|;
    } else {
      k := AfterIsTail(h[..n], cutoff);
      LastOfTail(h, k);
    }
  }

  lemma LastOfTail(h: seq<int>, k: nat)
    requires k < |h|
    ensures h[..|h| - 1][k..] + [h[|h| - 1]] == h[k..]
  {}

  lemma UptoAppend(h: seq<int>, clock: int, at: int)
    requires Upto(h, clock) && clock <= at
    ensures Upto(h + [at], at)
  {}

  lemma SortedTail(h: seq<int>, k: nat)
    requires Sorted(h) && k <= |h|
    ensures Sorted(h[k..])
  {}

  lemma RecordingRetains(kept: seq<int>, full: seq<int>, clock: int, at: int)
    requires Retains(kept, full) && Upto(full, clock) && clock <= at
    ensures Retains(After(kept + [at], at - RETENTION), full + [at])
    ensures Upto(full + [at], at)
  {
    UptoAppend(full, clock, at);
    var d := |full| - |kept|;
    var g := full + [at];
    AppendedTail(kept, full, d, at);
    forall i | 0 <= i < d ensures g[i] <= at - RETENTION {
      assert g[i] == full[i];
    }
    TailRetains(g, d, at);
  }

  lemma AppendedTail(kept: seq<int>, full: seq<int>, d: nat, at: int)
    requires d <= |full| && kept == full[d..]
    ensures (full + [at])[d..] == kept + [at]
  {}

  lemma TailRetains(g: seq<int>, d: nat, at: int)
    requires Sorted(g) && d < |g| && g[|g| - 1] == at
    requires forall i :: 0 <= i < d ==> g[i] <= at - RETENTION
    ensures Retains(After(g[d..], at - RETENTION), g)
  {
    SortedTail(g, d);
    var h := g[d..];
    var k := AfterIsTail(h, at - RETENTION);
    assert h[|h| - 1] == at;
    assert h[k..] == g[d + k..];
    forall i | 0 <= i < d + k ensures g[i] <= at - RETENTION {
      if d <= i {
        assert g[i] == h[i - d];
      }
    }
  }

  /** Forgetting does not change any verdict. */
  lemma RetainedVerdict(kept: seq<int>, full: seq<int>, clock: int, now: int)
    requires Retains(kept, full) && Upto(full, clock) && clock <= now
    ensures Verdict(kept, now) == Verdict(full, now)
  {
    var dropped := full[..|full| - |kept|];
    assert full == dropped + kept;
    CountSplit(dropped, kept, now, WINDOW_10MIN);
    CountSplit(dropped, kept, now, WINDOW_1HOUR);
    CountNone(dropped, now, WINDOW_10MIN);
    CountNone(dropped, now, WINDOW_1HOUR);
  }

  /** The two slots answer alike from `clock` on. */
  predicate Alike(a: Slot, b: Slot, clock: int) {
    && (a.Tracked? <==> b.Tracked?)
    && (a.Tracked? ==> a.st.(executions := b.st.executions) == b.st)
    && Retains(Executions(a), Executions(b))
    && Upto(Executions(b), clock)
  }

  lemma CheckKeepsExecutions(slot: Slot, now: int, tripNow: int)
    ensures Executions(Checked(slot, now, tripNow)) == Executions(slot)
  {}

  /** Slots that differ only in what they have forgotten are ruled alike. */
  lemma RuledAlike(a: Slot, b: Slot, verdict: Decision, tripNow: int)
    requires a.Tracked? && b.Tracked? && a.st.(executions := b.st.executions) == b.st
    ensures var (x, y) := (Ruled(a, verdict, tripNow), Ruled(b, verdict, tripNow));
      x.Tracked? && y.Tracked? && x.st.(executions := y.st.executions) == y.st
  {}

  lemma AlikeAfterCheck(a: Slot, b: Slot, clock: int, now: int, tripNow: int)
    requires Alike(a, b, clock) && clock <= now <= tripNow
    ensures Alike(Checked(a, now, tripNow), Checked(b, now, tripNow), tripNow)
    ensures Decide(a, now) == Decide(b, now)
  {
    if a.Tracked? && !Quarantined(a, now) {
      AlikeAfterVerdict(a, b, clock, now, tripNow);
    }
  }

  lemma AlikeAfterVerdict(a: Slot, b: Slot, clock: int, now: int, tripNow: int)
    requires Alike(a, b, clock) && clock <= now <= tripNow && a.Tracked? && !Quarantined(a, now)
    ensures Alike(Checked(a, now, tripNow), Checked(b, now, tripNow), tripNow)
    ensures Decide(a, now) == Decide(b, now)
  {
    RetainedVerdict(a.st.executions, b.st.executions, clock, now);
    var verdict := Verdict(a.st.executions, now);
    RuledAlike(a, b, verdict, tripNow);
    RuledKeepsExecutions(a, verdict, tripNow);
    RuledKeepsExecutions(b, verdict, tripNow);
  }

  lemma RuledKeepsExecutions(slot: Slot, verdict: Decision, tripNow: int)
    requires slot.Tracked?
    ensures Executions(Ruled(slot, verdict, tripNow)) == slot.st.executions
  {}

  lemma AlikeStays(a: Slot, b: Slot, clock: int, c: Call)
    requires Alike(a, b, clock) && clock <= Begins(c) <= Ends(c)
    ensures Alike(Apply(a, c), ApplyRemembering(b, c), Ends(c))
  {
    match c
    case Check(now, tripNow) => AlikeAfterCheck(a, b, clock, now, tripNow);
    case Record(at) => AlikeAfterRecord(a, b, clock, at);
    case Trip(when, duration) => AlikeAfterTrip(a, b, clock, when, duration);
    case Reset(_) => AlikeAtFirst(Ends(c));
  }

  lemma AlikeAtFirst(clock: int)
    ensures Alike(Untracked, Untracked, clock)
  {}

  lemma AlikeAfterTrip(a: Slot, b: Slot, clock: int, when: int, duration: int)
    requires Alike(a, b, clock) && clock <= when
    ensures Alike(Manual(a, when, duration), Manual(b, when, duration), when)
  {}

  lemma AlikeAfterRecord(a: Slot, b: Slot, clock: int, at: int)
    requires Alike(a, b, clock) && clock <= at
    ensures Alike(Recorded(a, at), Remembered(b, at), at)
  {
    RecordingRetains(Executions(a), Executions(b), clock, at);
    assert Executions(Recorded(a, at)) == After(Executions(a) + [at], at - RETENTION);
    assert Executions(Remembered(b, at)) == Executions(b) + [at];
  }

  lemma {:induction false} PruningKeepsAlike(calls: seq<Call>, clock: int)
    requires Timely(calls) && EndedBy(calls, clock)
    ensures Alike(SlotAfter(calls), SlotAfterRemembering(calls), clock)
  {
    if calls != [] {
      var c := Last(calls);
      PruningKeepsAlike(Init(calls), Begins(c));
      AlikeStays(SlotAfter(Init(calls)), SlotAfterRemembering(Init(calls)), Begins(c), c);
    }
  }

  /**
    Pruning is invisible: on every timely call sequence, gated or not, the pruning controller
    takes the same decision at every check and shows the same quarantine as the one that never
    forgets.
   */
  lemma PruningIsInvisible(calls: seq<Call>)
    requires Timely(calls)
    ensures forall i :: 0 <= i < |calls| && calls[i].Check? ==>
      Decide(SlotAfter(calls[..i]), calls[i].now) == Decide(SlotAfterRemembering(calls[..i]), calls[i].now)
    ensures forall now :: EndedBy(calls, now) ==>
      && Decide(SlotAfter(calls), now) == Decide(SlotAfterRemembering(calls), now)
      && Quarantined(SlotAfter(calls), now) == Quarantined(SlotAfterRemembering(calls), now)
  {
    forall i | 0 <= i < |calls| && calls[i].Check?
      ensures Decide(SlotAfter(calls[..i]), calls[i].now) == Decide(SlotAfterRemembering(calls[..i]), calls[i].now)
    {
      PruningKeepsAlike(calls[..i], calls[i].now);
      AlikeAfterCheck(SlotAfter(calls[..i]), SlotAfterRemembering(calls[..i]), calls[i].now, calls[i].now, calls[i].tripNow);
    }
    forall now | EndedBy(calls, now)
      ensures Decide(SlotAfter(calls), now) == Decide(SlotAfterRemembering(calls), now)
      ensures Quarantined(SlotAfter(calls), now) == Quarantined(SlotAfterRemembering(calls), now)
    {
      PruningKeepsAlike(calls, now);
      AlikeAfterCheck(SlotAfter(calls), SlotAfterRemembering(calls), now, now, now);
    }
  }

  // ----- admission -----------------------------------------------------------------------------

  /** The history leaves room for an execution at `at`. */
  predicate Room(h: seq<int>, at: int) {
    var n := |h|;
    && (n >= 1 ==> at - h[n - 1] >= COOLDOWN)
    && (n >= MAX_10MIN ==> at - h[n - MAX_10MIN] > WINDOW_10MIN)
    && (n >= MAX_1HOUR ==> at - h[n - MAX_1HOUR] > WINDOW_1HOUR)
  }

  lemma SpacedAppend(h: seq<int>, at: int, k: nat, w: int)
    requires Spaced(h, k, w) && 0 < k && (|h| >= k ==> at - h[|h| - k] > w)
    ensures Spaced(h + [at], k, w)
  {
    var g := h + [at];
    forall i: nat | i < |g| - k ensures Rest(g, i, k) > w {
      if i < |h| - k {
        assert Rest(h, i, k) > w;
      }
    }
  }

  lemma RoomKeepsWellSpaced(h: seq<int>, at: int)
    requires WellSpaced(h) && Room(h, at)
    ensures WellSpaced(h + [at])
  {
    SpacedAppend(h, at, 1, COOLDOWN - 1);
    SpacedAppend(h, at, MAX_10MIN, WINDOW_10MIN);
    SpacedAppend(h, at, MAX_1HOUR, WINDOW_1HOUR);
    assert Sorted(h + [at]);
  }

  lemma RecentOnesCount(h: seq<int>, i: nat, now: int, w: int)
    requires Sorted(h) && i < |h| && now - h[i] <= w
    ensures Count(h, now, w) >= |h| - i
  {
    assert h == h[..i] + h[i..];
    CountSplit(h[..i], h[i..], now, w);
    CountAll(h[i..], now, w);
  }

  /** An accepted verdict leaves room for an execution now or at any later time. */
  lemma AcceptanceLeavesRoom(h: seq<int>, now: int, at: int)
    requires Sorted(h) && Verdict(h, now) == Accept && now <= at
    ensures Room(h, at)
  {
    var n := |h|;
    if n >= MAX_10MIN && now - h[n - MAX_10MIN] <= WINDOW_10MIN {
      RecentOnesCount(h, n - MAX_10MIN, now, WINDOW_10MIN);
    }
    if n >= MAX_1HOUR && now - h[n - MAX_1HOUR] <= WINDOW_1HOUR {
      RecentOnesCount(h, n - MAX_1HOUR, now, WINDOW_1HOUR);
    }
  }

  lemma FullHistoryStep(calls: seq<Call>)
    requires calls != []
    ensures FullHistory(calls) ==
      match Last(calls)
      case Record(at) => FullHistory(Init(calls)) + [at]
      case Reset(_) => []
      case _ => FullHistory(Init(calls))
  {
    if Last(calls).Check? {
      CheckKeepsExecutions(SlotAfterRemembering(Init(calls)), Last(calls).now, Last(calls).tripNow);
    }
  }

  /** A check accepted by the pruning controller leaves room in the full history. */
  lemma AdmissionLeavesRoom(slot: Slot, full: seq<int>, now: int, at: int)
    requires Retains(Executions(slot), full) && Upto(full, now) && now <= at
    requires Decide(slot, now) == Accept
    ensures Room(full, at)
  {
    if slot.Tracked? {
      RetainedAcceptanceLeavesRoom(slot.st.executions, full, now, at);
    } else {
      assert full == [];
    }
  }

  lemma RetainedAcceptanceLeavesRoom(kept: seq<int>, full: seq<int>, now: int, at: int)
    requires Retains(kept, full) && Upto(full, now) && now <= at && Verdict(kept, now) == Accept
    ensures Room(full, at)
  {
    RetainedVerdict(kept, full, now, now);
    AcceptanceLeavesRoom(full, now, at);
  }

  lemma {:induction false} GatedHistoriesAreWellSpaced(calls: seq<Call>, clock: int)
    requires Timely(calls) && Gated(calls) && EndedBy(calls, clock)
    ensures WellSpaced(FullHistory(calls))
    ensures Admitted(calls) ==> Room(FullHistory(calls), clock)
  {
    if calls != [] {
      var c, before := Last(calls), Init(calls);
      GatedHistoriesAreWellSpaced(before, Begins(c));
      FullHistoryStep(calls);
      if c.Record? {
        RoomKeepsWellSpaced(FullHistory(before), c.at);
      } else if c.Check? && Decide(SlotAfter(before), c.now) == Accept {
        PruningKeepsAlike(before, c.now);
        AdmissionLeavesRoom(SlotAfter(before), FullHistory(before), c.now, clock);
      }
    }
  }

  /** The rate limits hold of the full history in every window, although the code only looks back from "now". */
  lemma GatedHistoriesAreWithinLimits(calls: seq<Call>)
    requires Timely(calls) && Gated(calls)
    ensures WithinLimits(FullHistory(calls))
  {
    var clock := if calls == [] then 0 else Ends(Last(calls));
    GatedHistoriesAreWellSpaced(calls, clock);
    WellSpacedIsWithinLimits(FullHistory(calls));
  }

  // ----- the retained list is bounded ----------------------------------------------------------------

  lemma {:induction false} HoursAddUp(h: seq<int>, m: nat)
    requires Spaced(h, MAX_1HOUR, WINDOW_1HOUR) && m * MAX_1HOUR < |h|
    ensures h[m * MAX_1HOUR] - h[0] >= m * WINDOW_1HOUR
    ensures m > 0 ==> h[m * MAX_1HOUR] - h[0] > m * WINDOW_1HOUR
  {
    if m > 0 {
      HoursAddUp(h, m - 1);
      assert Rest(h, (m - 1) * MAX_1HOUR, MAX_1HOUR) > WINDOW_1HOUR;
    }
  }

  lemma TailSpaced(h: seq<int>, d: nat, k: nat, w: int)
    requires Spaced(h, k, w) && d <= |h|
    ensures Spaced(h[d..], k, w)
  {
    var g := h[d..];
    forall i: nat | i < |g| - k ensures Rest(g, i, k) > w {
      assert Rest(h, d + i, k) > w;
    }
  }

  /** A gated controller never keeps more than 96 executions of a resource. */
  lemma RetainedListIsBounded(calls: seq<Call>)
    requires Timely(calls) && Gated(calls)
    ensures |Executions(SlotAfter(calls))| <= 96
  {
    var clock := if calls == [] then 0 else Ends(Last(calls));
    GatedHistoriesAreWellSpaced(calls, clock);
    PruningKeepsAlike(calls, clock);
    WellSpacedTailIsShort(Executions(SlotAfter(calls)), FullHistory(calls));
  }

  lemma WellSpacedTailIsShort(kept: seq<int>, full: seq<int>)
    requires Retains(kept, full) && WellSpaced(full)
    ensures |kept| <= 96
  {
    TailSpaced(full, |full| - |kept|, MAX_1HOUR, WINDOW_1HOUR);
    if |kept| > 96 {
      SortedTail(full, |full| - |kept|);
      HoursAddUp(kept, 24);
    }
  }

  // ----- how the limits interact -------------------------------------------------------------------------

  /** The last two executions are exactly 300 s and 600 s old. */
  predicate AtTheInstant(h: seq<int>, now: int) {
    |h| >= 2 && h[|h| - 1] == now - 300 * SECOND && h[|h| - 2] == now - 600 * SECOND
  }

  /**
    In a gated history the 10-minute rule refuses at one instant only: when the last two
    executions are exactly 600 s and 300 s old.  Everywhere else the cooldown rule, which is
    tried first, already implies it.
   */
  lemma TenMinuteRuleBitesAtOneInstant(calls: seq<Call>, now: int)
    requires Timely(calls) && Gated(calls) && EndedBy(calls, now)
    requires !Quarantined(SlotAfter(calls), now)
    ensures var d := Decide(SlotAfter(calls), now);
            var h := FullHistory(calls);
      (d.Breach? && d.what.TenMinuteLimit?)
      <==> AtTheInstant(h, now)
  {
    GatedHistoriesAreWellSpaced(calls, now);
    PruningIsInvisible(calls);
    var h := FullHistory(calls);
    var n := |h|;
    if n >= 2 && now - h[n - 1] >= COOLDOWN {
      assert Rest(h, n - 2, 1) >= COOLDOWN;
      if now - h[n - 2] <= WINDOW_10MIN {
        RecentOnesCount(h, n - 2, now, WINDOW_10MIN);
      } else {
        OldOnesDoNotCount(h, n - 1, now, WINDOW_10MIN);
      }
    } else if n == 1 {
      OldOnesDoNotCount(h, 0, now, WINDOW_10MIN);
    }
  }

  lemma OldOnesDoNotCount(h: seq<int>, i: nat, now: int, w: int)
    requires Sorted(h) && i <= |h| && (i > 0 ==> now - h[i - 1] > w)
    ensures Count(h, now, w) <= |h| - i
  {
    assert h == h[..i] + h[i..];
    CountSplit(h[..i], h[i..], now, w);
    CountNone(h[..i], now, w);
    CountAtMostLength(h[i..], now, w);
  }

  lemma {:induction false} CountAtMostLength(h: seq<int>, now: int, w: int)
    ensures Count(h, now, w) <= |h|
  {
    if h != [] {
      CountAtMostLength(h[..|h| - 1], now, w);
    }
  }

  // ----- the decision, exactly --------------------------------------------------------------------------

  /** In a sorted history at least `k` executions are recent exactly when the k-th last one is. */
  lemma CountReaches(h: seq<int>, k: nat, now: int, w: int)
    requires Sorted(h) && k > 0
    ensures Count(h, now, w) >= k <==> |h| >= k && now - h[|h| - k] <= w
  {
    if |h| < k {
      CountAtMostLength(h, now, w);
    } else if now - h[|h| - k] <= w {
      RecentOnesCount(h, |h| - k, now, w);
    } else {
      OldOnesDoNotCount(h, |h| - k + 1, now, w);
    }
  }

  /** The k-th last execution is at most `age` old. */
  predicate Fresh(h: seq<int>, k: nat, now: int, age: int)
    requires k > 0
  {
    |h| >= k && now - h[|h| - k] <= age
  }

  /** What the design calls for, read off the last four executions. */
  function Due(h: seq<int>, now: int): Decision {
    if Fresh(h, 1, now, 300 * SECOND - 1) then Breach(CooldownViolation(now - h[|h| - 1]))
    else if Fresh(h, 2, now, 600 * SECOND) then Breach(TenMinuteLimit(Count(h, now, 600 * SECOND)))
    else if Fresh(h, 4, now, 3600 * SECOND) then Breach(OneHourLimit(Count(h, now, 3600 * SECOND)))
    else Accept
  }

  lemma VerdictExactly(h: seq<int>, now: int)
    requires Sorted(h)
    ensures Verdict(h, now) == Due(h, now)
  {
    CountReaches(h, 2, now, 600 * SECOND);
    CountReaches(h, 4, now, 3600 * SECOND);
  }

  /** On every timely call sequence the decision outside a quarantine is the one the full history calls for. */
  lemma DecisionExactly(calls: seq<Call>, now: int)
    requires Timely(calls) && EndedBy(calls, now) && !Quarantined(SlotAfter(calls), now)
    ensures Decide(SlotAfter(calls), now) == Due(FullHistory(calls), now)
  {
    PruningIsInvisible(calls);
    PruningKeepsAlike(calls, now);
    VerdictExactly(FullHistory(calls), now);
  }

  lemma DueAccepts(h: seq<int>, now: int)
    ensures var n := |h|;
      Due(h, now) == Accept <==>
        && (n >= 1 ==> now - h[n - 1] >= 300 * SECOND)
        && (n >= 2 ==> now - h[n - 2] > 600 * SECOND)
        && (n >= 4 ==> now - h[n - 4] > 3600 * SECOND)
  {}

  /**
    A check outside a quarantine is accepted exactly when the last execution is at least 300 s old,
    the second last more than 600 s and the fourth last more than 3600 s.
   */
  lemma AcceptedExactly(calls: seq<Call>, now: int)
    requires Timely(calls) && EndedBy(calls, now) && !Quarantined(SlotAfter(calls), now)
    ensures var h := FullHistory(calls);
            var n := |h|;
      Decide(SlotAfter(calls), now) == Accept <==>
        && (n >= 1 ==> now - h[n - 1] >= 300 * SECOND)
        && (n >= 2 ==> now - h[n - 2] > 600 * SECOND)
        && (n >= 4 ==> now - h[n - 4] > 3600 * SECOND)
  {
    DecisionExactly(calls, now);
    DueAccepts(FullHistory(calls), now);
  }

  lemma DueByTheHour(h: seq<int>, now: int)
    requires Due(h, now).Breach? && Due(h, now).what.TenMinuteLimit? <==> AtTheInstant(h, now)
    ensures Due(h, now).Breach? && Due(h, now).what.OneHourLimit? <==>
      |h| >= 4 && now - h[|h| - 4] <= 3600 * SECOND && now - h[|h| - 1] >= 300 * SECOND && !AtTheInstant(h, now)
  {}

  /** The hour rule refuses exactly the fifth execution within an hour that the two rules before it let through. */
  lemma HourRuleBitesExactly(calls: seq<Call>, now: int)
    requires Timely(calls) && Gated(calls) && EndedBy(calls, now)
    requires !Quarantined(SlotAfter(calls), now)
    ensures var d := Decide(SlotAfter(calls), now);
            var h := FullHistory(calls);
            var n := |h|;
      (d.Breach? && d.what.OneHourLimit?)
      <==> n >= 4 && now - h[n - 4] <= 3600 * SECOND && now - h[n - 1] >= 300 * SECOND && !AtTheInstant(h, now)
  {
    DecisionExactly(calls, now);
    TenMinuteRuleBitesAtOneInstant(calls, now);
    DueByTheHour(FullHistory(calls), now);
  }

  /** `kept` are the entries of `full` that are less than 24 hours older than the last one. */
  predicate LastDayOf(kept: seq<int>, full: seq<int>) {
    && |kept| <= |full| && kept == full[|full| - |kept|..]
    && forall i :: 0 <= i < |full| ==> (i >= |full| - |kept| <==> full[i] > full[|full| - 1] - 86400 * SECOND)
  }

  /** The controller keeps exactly the executions less than 24 hours older than the last one. */
  lemma KeptExactly(calls: seq<Call>)
    requires Timely(calls)
    ensures LastDayOf(Executions(SlotAfter(calls)), FullHistory(calls))
  {
    PruningKeepsAlike(calls, if calls == [] then 0 else Ends(Last(calls)));
    RetainedExactly(Executions(SlotAfter(calls)), FullHistory(calls));
  }

  lemma RetainedExactly(kept: seq<int>, full: seq<int>)
    requires Retains(kept, full) && Sorted(full)
    ensures LastDayOf(kept, full)
  {
    var d := |full| - |kept|;
    forall i | 0 <= i < |full| ensures i >= d <==> full[i] > full[|full| - 1] - 86400 * SECOND {
      assert full[|full| - 1] == kept[|kept| - 1];
      if i >= d {
        assert full[d] == kept[0];
      }
    }
  }

  // ----- quarantine ------------------------------------------------------------------------------------------

  predicate AllPollsBefore(polls: seq<Call>, until: int) {
    forall i :: 0 <= i < |polls| ==> polls[i].Check? && polls[i].now < until
  }

  /** Polling a quarantined resource changes nothing; in particular the expiry does not move. */
  lemma {:induction false} PollingNeverExtends(calls: seq<Call>, polls: seq<Call>)
    requires SlotAfter(calls).Tracked? && SlotAfter(calls).st.tripped
    requires AllPollsBefore(polls, SlotAfter(calls).st.quarantineUntil)
    ensures SlotAfter(calls + polls) == SlotAfter(calls)
  {
    if polls == [] {
      assert calls + polls == calls;
    } else {
      var n := |polls| - 1;
      PollingNeverExtends(calls, polls[..n]);
      assert Init(calls + polls) == calls + polls[..n] && Last(calls + polls) == polls[n];
    }
  }

  /** Every such poll is refused. */
  lemma PollsAreRefused(calls: seq<Call>, polls: seq<Call>, i: nat)
    requires SlotAfter(calls).Tracked? && SlotAfter(calls).st.tripped
    requires AllPollsBefore(polls, SlotAfter(calls).st.quarantineUntil) && i < |polls|
    ensures Decide(SlotAfter(calls + polls[..i]), polls[i].now).InQuarantine?
  {
    PollingNeverExtends(calls, polls[..i]);
  }

  /** When the last quarantine imposed since the last `Reset` ends, with the reason given for it. */
  function Sentence(calls: seq<Call>): Option<(int, Reason)> {
    if calls == [] then None
    else
      match Last(calls)
      case Check(now, tripNow) =>
        var d := Decide(SlotAfter(Init(calls)), now);
        if d.Breach? then Some((tripNow + 3600 * SECOND, d.what)) else Sentence(Init(calls))
      case Record(_) => Sentence(Init(calls))
      case Trip(when, duration) =>
        if duration > 0 then Some((when + duration, ManualTrip(duration)))
        else Some((when + 3600 * SECOND, ManualTrip(3600 * SECOND)))
      case Reset(_) => None
  }

  /** The slot is tripped as sentenced, unless the sentence is over. */
  predicate Serves(slot: Slot, sentence: Option<(int, Reason)>, clock: int) {
    if slot.Tracked? && slot.st.tripped then sentence == Some((slot.st.quarantineUntil, slot.st.reason))
    else sentence.Some? ==> sentence.value.0 <= clock
  }

  lemma {:induction false} SentencesAreServed(calls: seq<Call>, clock: int)
    requires Timely(calls) && EndedBy(calls, clock)
    ensures Serves(SlotAfter(calls), Sentence(calls), clock)
  {
    if calls != [] {
      SentencesAreServed(Init(calls), Begins(Last(calls)));
    }
  }

  /**
    A resource is refused as quarantined exactly until the last sentence is over, whatever was
    checked or recorded since, and the reason shown is the one of that sentence.
   */
  lemma QuarantinedExactly(calls: seq<Call>, now: int)
    requires Timely(calls) && EndedBy(calls, now)
    ensures Quarantined(SlotAfter(calls), now) <==> Sentence(calls).Some? && now < Sentence(calls).value.0
    ensures Quarantined(SlotAfter(calls), now) ==>
      Decide(SlotAfter(calls), now) == InQuarantine(Sentence(calls).value.0, Sentence(calls).value.1)
    ensures !Quarantined(SlotAfter(calls), now) ==> !Decide(SlotAfter(calls), now).InQuarantine?
  {
    SentencesAreServed(calls, now);
  }

  /** An accepted check leaves no trace of a quarantine that is over, and keeps the executions. */
  lemma AcceptanceLifts(slot: Slot, now: int, tripNow: int)
    requires slot.Tracked? && Decide(slot, now) == Accept
    ensures var after := Checked(slot, now, tripNow);
      && after.Tracked? && !after.st.tripped && after.st.executions == slot.st.executions
      && (slot.st.tripped ==> after.st.quarantineUntil == 0 && after.st.reason == NoReason)
      && (!slot.st.tripped ==> after == slot)
  {}

  /** The verdict at or after the end of an automatic quarantine, for any history up to the trip. */
  lemma VerdictAfterQuarantine(h: seq<int>, tripNow: int, now: int)
    requires Upto(h, tripNow) && tripNow + 3600 * SECOND <= now
    ensures Verdict(h, now) == Accept <==> now > tripNow + 3600 * SECOND || Count(h, tripNow, 0) < 4
  {
    CountNone(h, now, WINDOW_10MIN);
    if now > tripNow + 3600 * SECOND {
      CountNone(h, now, WINDOW_1HOUR);
    } else {
      CountShift(h, tripNow, now);
    }
  }

  lemma {:induction false} CountShift(h: seq<int>, tripNow: int, now: int)
    requires now == tripNow + WINDOW_1HOUR
    ensures Count(h, now, WINDOW_1HOUR) == Count(h, tripNow, 0)
  {
    if h != [] {
      CountShift(h[..|h| - 1], tripNow, now);
    }
  }

  lemma KeptTail(kept: seq<int>, full: seq<int>, clock: int)
    requires Retains(kept, full) && Upto(full, clock) && Cooled(full)
    ensures Upto(kept, clock) && Cooled(kept)
  {
    TailSpaced(full, |full| - |kept|, 1, COOLDOWN - 1);
    SortedTail(full, |full| - |kept|);
  }

  lemma AtMostOneAtAnInstant(h: seq<int>, at: int)
    requires Upto(h, at) && Cooled(h)
    ensures Count(h, at, 0) <= 1
  {
    if |h| >= 2 {
      assert Rest(h, |h| - 2, 1) >= COOLDOWN;
      assert at - h[|h| - 2] > 0;
      OldOnesDoNotCount(h, |h| - 1, at, 0);
    } else {
      CountAtMostLength(h, at, 0);
    }
  }

  lemma AcceptedOnceQuarantineIsOver(calls: seq<Call>, trip: Call, now: int)
    requires Timely(calls + [trip]) && Gated(calls)
    requires trip.Check? && Decide(SlotAfter(calls), trip.now).Breach?
    requires trip.tripNow + 3600 * SECOND <= now
    ensures Decide(Checked(SlotAfter(calls), trip.now, trip.tripNow), now) == Accept
  {
    TimelyInit(calls, trip);
    GatedHistoriesAreWellSpaced(calls, trip.now);
    PruningKeepsAlike(calls, trip.now);
    var kept := Executions(SlotAfter(calls));
    KeptTail(kept, FullHistory(calls), trip.now);
    AtMostOneAtAnInstant(kept, trip.tripNow);
    VerdictAfterQuarantine(kept, trip.tripNow, now);
  }

  lemma TimelyInit(calls: seq<Call>, c: Call)
    requires Timely(calls + [c])
    ensures Timely(calls) && EndedBy(calls, Begins(c)) && Begins(c) <= Ends(c)
  {
    forall i | 0 <= i < |calls| ensures calls[i] == (calls + [c])[i] {}
    assert (calls + [c])[|calls|] == c;
  }

  /**
    No lockout by polling: after a check that trips the breaker, polls before the expiry are
    refused and do not move it, and the first poll at or after the expiry is accepted.
   */
  lemma NoLockoutByPolling(calls: seq<Call>, trip: Call, polls: seq<Call>, now: int)
    requires Timely(calls + [trip]) && Gated(calls)
    requires trip.Check? && Decide(SlotAfter(calls), trip.now).Breach?
    requires AllPollsBefore(polls, trip.tripNow + 3600 * SECOND)
    requires trip.tripNow + 3600 * SECOND <= now
    ensures var tripped := calls + [trip];
      && SlotAfter(tripped + polls) == SlotAfter(tripped)
      && SlotAfter(tripped).Tracked? && SlotAfter(tripped).st.quarantineUntil == trip.tripNow + 3600 * SECOND
      && (forall i :: 0 <= i < |polls| ==>
            Decide(SlotAfter(tripped + polls[..i]), polls[i].now).InQuarantine?)
      && Decide(SlotAfter(tripped + polls), now) == Accept
  {
    var tripped := calls + [trip];
    assert Init(tripped) == calls && Last(tripped) == trip;
    assert SlotAfter(tripped) == Checked(SlotAfter(calls), trip.now, trip.tripNow);
    PollingNeverExtends(tripped, polls);
    forall i | 0 <= i < |polls| ensures Decide(SlotAfter(tripped + polls[..i]), polls[i].now).InQuarantine? {
      PollsAreRefused(tripped, polls, i);
    }
    AcceptedOnceQuarantineIsOver(calls, trip, now);
  }

  // ----- several resources -----------------------------------------------------------------------------------

  datatype Addressed = To(resource: string, call: Call)

  function StatesAfter(calls: seq<Addressed>): map<string, ResourceState> {
    if calls == [] then map[]
    else
      var n := |calls| - 1;
      var states := StatesAfter(calls[..n]);
      Put(states, calls[n].resource, Apply(SlotOf(states, calls[n].resource), calls[n].call))
  }

  function Concerning(calls: seq<Addressed>, resource: string): seq<Call> {
    if calls == [] then []
    else
      var n := |calls| - 1;
      Concerning(calls[..n], resource) + (if calls[n].resource == resource then [calls[n].call] else [])
  }

  lemma PutThenGet(states: map<string, ResourceState>, r: string, slot: Slot, other: string)
    ensures SlotOf(Put(states, r, slot), other) == if r == other then slot else SlotOf(states, other)
  {}

  /** Resources do not interfere: each one's slot is what its own calls alone produce. */
  lemma {:induction false} ResourcesAreIndependent(calls: seq<Addressed>, resource: string)
    ensures SlotOf(StatesAfter(calls), resource) == SlotAfter(Concerning(calls, resource))
  {
    if calls != [] {
      var n := |calls| - 1;
      var states, c := StatesAfter(calls[..n]), calls[n];
      ResourcesAreIndependent(calls[..n], resource);
      PutThenGet(states, c.resource, Apply(SlotOf(states, c.resource), c.call), resource);
      if c.resource == resource {
        var mine := Concerning(calls, resource);
        assert Init(mine) == Concerning(calls[..n], resource) && Last(mine) == c.call;
      } else {
        assert Concerning(calls, resource) == Concerning(calls[..n], resource);
      }
    }
  }
}
