/**
  The 11-state remediation state machine of `internal/model/state.go`.

  A history is the list of target states the machine has visited, oldest first;
  it starts with the initial state, exactly as `FSM.history` does.
 */
module Fsm {

  /** `Unlisted` stands for every string that is not one of the eleven names. */
  datatype State =
    | Detected | Evaluating | PrecheckPassed | PrecheckFailed | Executing
    | PostcheckPassed | Committed | PostcheckFailed | RollingBack | RolledBack
    | Escalated
    | Unlisted(name: string)

  const ALL_STATES: seq<State> :=
    [Detected, Evaluating, PrecheckPassed, PrecheckFailed, Executing, PostcheckPassed,
     Committed, PostcheckFailed, RollingBack, RolledBack, Escalated]

  /** The table of legal transitions. */
  predicate CanTransition(from: State, to: State) {
    match from
    case Detected => to == Evaluating || to == Escalated
    case Evaluating => to == PrecheckPassed || to == PrecheckFailed
    case PrecheckPassed => to == Executing
    case PrecheckFailed => to == Escalated
    case Executing => to == PostcheckPassed || to == PostcheckFailed
    case PostcheckPassed => to == Committed
    case PostcheckFailed => to == RollingBack
    case RollingBack => to == RolledBack || to == Escalated
    case RolledBack => to == Escalated
    case Committed => false
    case Escalated => false
    case Unlisted(_) => false
  }

  predicate IsTerminal(s: State) {
    s == Committed || s == Escalated
  }

  /** What one `Transition` call does to a history: a legal target is appended, anything else changes nothing. */
  function Advance(history: seq<State>, to: State): seq<State>
    requires history != []
  {
    if CanTransition(history[|history| - 1], to) then history + [to] else history
  }

  /** The history after a list of `Transition` calls, legal or not. */
  function Drive(history: seq<State>, requests: seq<State>): (r: seq<State>)
    requires history != []
    ensures r != []
    decreases |requests|
  {
    if requests == [] then history
    else Drive(Advance(history, requests[0]), requests[1..])
  }

  predicate Edge(history: seq<State>, i: nat)
    requires i + 1 < |history|
  {
    CanTransition(history[i], history[i + 1])
  }

  /** Every two neighbours are an edge of the table. */
  predicate IsPath(history: seq<State>) {
    forall i: nat :: i < |history| - 1 ==> Edge(history, i)
  }

  lemma PathGrows(history: seq<State>, to: State)
    requires IsPath(history) && (history != [] ==> CanTransition(history[|history| - 1], to))
    ensures IsPath(history + [to])
  {
    var longer := history + [to];
    forall i: nat | i < |longer| - 1 ensures Edge(longer, i) {
      if i < |history| - 1 {
        assert Edge(history, i);
      }
    }
  }

  /** The height of a state in the table's order; every edge climbs. */
  function Rank(s: State): nat {
    match s
    case Detected => 0
    case Evaluating => 1
    case PrecheckPassed => 2
    case PrecheckFailed => 2
    case Executing => 3
    case PostcheckPassed => 4
    case PostcheckFailed => 4
    case Committed => 5
    case RollingBack => 5
    case RolledBack => 6
    case Escalated => 7
    case Unlisted(_) => 0
  }

  class Machine {
    var current: State
    var history: seq<State>

    ghost predicate Valid()
      reads this
    {
      history != [] && current == history[|history| - 1]
    }

    constructor (initial: State)
      ensures Valid() && history == [initial]
    {
      current := initial;
      history := [initial];
    }

    method Transition(to: State) returns (accepted: bool)
      requires Valid()
      modifies this
      ensures Valid()
      ensures history == Advance(old(history), to)
      ensures accepted <==> history != old(history)
    {
      var listed := IsValidState(to);
      if !listed || !CanTransition(current, to) {
        return false;
      }
      current := to;
      history := history + [to];
      return true;
    }
  }

  /** A machine is only ever created in a listed state. */
  method NewFSM(initial: State) returns (m: Machine?)
    ensures m == null <==> initial.Unlisted?
    ensures m != null ==> fresh(m) && m.Valid() && m.history == [initial]
  {
    var listed := IsValidState(initial);
    if !listed {
      return null;
    }
    m := new Machine(initial);
  }

  method IsValidState(s: State) returns (listed: bool)
    ensures listed <==> !s.Unlisted?
  {
    var i := 0;
    while i < |ALL_STATES|
      invariant 0 <= i <= |ALL_STATES|
      invariant s !in ALL_STATES[..i]
    {
      if ALL_STATES[i] == s {
        return true;
      }
      i := i + 1;
    }
    assert ALL_STATES[..i] == ALL_STATES;
    AllStatesIsComplete(s);
    return false;
  }

  lemma AllStatesIsComplete(s: State)
    ensures s in ALL_STATES <==> !s.Unlisted?
  {
    match s
    case Detected => assert ALL_STATES[0] == s;
    case Evaluating => assert ALL_STATES[1] == s;
    case PrecheckPassed => assert ALL_STATES[2] == s;
    case PrecheckFailed => assert ALL_STATES[3] == s;
    case Executing => assert ALL_STATES[4] == s;
    case PostcheckPassed => assert ALL_STATES[5] == s;
    case Committed => assert ALL_STATES[6] == s;
    case PostcheckFailed => assert ALL_STATES[7] == s;
    case RollingBack => assert ALL_STATES[8] == s;
    case RolledBack => assert ALL_STATES[9] == s;
    case Escalated => assert ALL_STATES[10] == s;
    case Unlisted(_) =>
  }

  lemma {:induction false} DriveKeepsPath(history: seq<State>, requests: seq<State>)
    requires history != [] && IsPath(history)
    ensures IsPath(Drive(history, requests))
    ensures history <= Drive(history, requests)
    decreases |requests|
  {
    if requests != [] {
      if CanTransition(history[|history| - 1], requests[0]) {
        PathGrows(history, requests[0]);
      }
      DriveKeepsPath(Advance(history, requests[0]), requests[1..]);
    }
  }

  lemma {:induction false} PathsClimb(path: seq<State>, i: nat, j: nat)
    requires IsPath(path) && i < j < |path|
    ensures Rank(path[i]) + (j - i) <= Rank(path[j])
    decreases j
  {
    assert Edge(path, j - 1);
    if i < j - 1 {
      PathsClimb(path, i, j - 1);
    }
  }

  /** A path visits no state twice and has at most eight states. */
  lemma PathsAreShort(path: seq<State>)
    requires IsPath(path)
    ensures |path| <= 8
    ensures forall i, j :: 0 <= i < j < |path| ==> path[i] != path[j]
  {
    forall i, j | 0 <= i < j < |path| ensures path[i] != path[j] {
      PathsClimb(path, i, j);
    }
    if |path| > 1 {
      PathsClimb(path, 0, |path| - 1);
    }
  }

  /** The only path from DETECTED to COMMITTED. */
  const COMMIT_PATH: seq<State> :=
    [Detected, Evaluating, PrecheckPassed, Executing, PostcheckPassed, Committed]

  lemma CommittedHasOnePath(path: seq<State>)
    requires IsPath(path) && path != [] && path[0] == Detected && Committed in path
    ensures path == COMMIT_PATH
  {
    PathsAreShort(path);
    var k :| 0 <= k < |path| && path[k] == Committed;
    PathsClimb(path, 0, k);
    assert k + 1 < |path| ==> Edge(path, k);
    assert Edge(path, k - 1) && path[k - 1] == PostcheckPassed;
    assert Edge(path, k - 2) && path[k - 2] == Executing;
    assert Edge(path, k - 3) && path[k - 3] == PrecheckPassed;
    assert Edge(path, k - 4) && path[k - 4] == Evaluating;
    assert Edge(path, k - 5) && path[k - 5] == Detected;
  }

  /**
    Whatever is asked of a fresh machine, in whatever order, its history is a path of the
    table without repetition, of at most eight states, and a COMMITTED entry is only ever
    reached through PRECHECK_PASSED, EXECUTING and POSTCHECK_PASSED.
   */
  lemma EveryDriveIsMonotonic(requests: seq<State>)
    ensures var h := Drive([Detected], requests);
      && IsPath(h)
      && |h| <= 8
      && (forall i, j :: 0 <= i < j < |h| ==> h[i] != h[j])
      && (Committed in h ==> h == COMMIT_PATH)
  {
    var h := Drive([Detected], requests);
    DriveKeepsPath([Detected], requests);
    PathsAreShort(h);
    if Committed in h {
      CommittedHasOnePath(h);
    }
  }

  /** Conversely every path of the table is the history of some drive: asking for its own states produces it. */
  lemma {:induction false} EveryPathCanBeDriven(done: seq<State>, rest: seq<State>)
    requires done != [] && IsPath(done + rest)
    ensures Drive(done, rest) == done + rest
    decreases |rest|
  {
    if rest == [] {
      assert done + rest == done;
    } else {
      var all := done + rest;
      assert Edge(all, |done| - 1) && all[|done|] == rest[0];
      assert (done + [rest[0]]) + rest[1..] == all;
      EveryPathCanBeDriven(done + [rest[0]], rest[1..]);
    }
  }

  /** The longest histories a fresh machine can have. */
  const RUNS: seq<seq<State>> :=
    [COMMIT_PATH,
     [Detected, Evaluating, PrecheckPassed, Executing, PostcheckFailed, RollingBack, RolledBack, Escalated],
     [Detected, Evaluating, PrecheckPassed, Executing, PostcheckFailed, RollingBack, Escalated],
     [Detected, Evaluating, PrecheckFailed, Escalated],
     [Detected, Escalated]]

  predicate PrefixOfRun(path: seq<State>, k: nat) {
    k < 5 && path <= RUNS[k]
  }

  /** Where among the runs a state that is not ESCALATED first occurs: the run, and the place in it. */
  function Place(s: State): (nat, nat)
    requires !s.Unlisted? && s != Escalated
  {
    match s
    case Detected => (0, 0)
    case Evaluating => (0, 1)
    case PrecheckPassed => (0, 2)
    case PrecheckFailed => (3, 2)
    case Executing => (0, 3)
    case PostcheckPassed => (0, 4)
    case Committed => (0, 5)
    case PostcheckFailed => (1, 4)
    case RollingBack => (1, 5)
    case RolledBack => (1, 6)
  }

  /** The one way to a state that is not ESCALATED. */
  function Way(s: State): (r: seq<State>)
    requires !s.Unlisted? && s != Escalated
    ensures PrefixOfRun(r, Place(s).0) && r != [] && r[|r| - 1] == s
  {
    RUNS[Place(s).0][..Place(s).1 + 1]
  }

  lemma WayGrows(s: State, t: State)
    requires CanTransition(s, t) && t != Escalated
    ensures Way(t) == Way(s) + [t]
  {}

  lemma {:induction false} OneWay(path: seq<State>)
    requires IsPath(path) && path != [] && path[0] == Detected && path[|path| - 1] != Escalated
    ensures !path[|path| - 1].Unlisted? && path == Way(path[|path| - 1])
  {
    var n := |path| - 1;
    if n > 0 {
      assert Edge(path, n - 1);
      PathPrefix(path, n);
      OneWay(path[..n]);
      WayGrows(path[n - 1], path[n]);
    } else {
      WayStarts();
    }
  }

  lemma WayStarts()
    ensures Way(Detected) == [Detected]
  {}

  lemma PathPrefix(path: seq<State>, n: nat)
    requires IsPath(path) && n <= |path|
    ensures IsPath(path[..n])
  {
    forall i: nat | i < n - 1 ensures Edge(path[..n], i) {
      assert Edge(path, i);
    }
  }

  lemma WayToEscalated(s: State)
    requires CanTransition(s, Escalated)
    ensures exists k: nat :: PrefixOfRun(Way(s) + [Escalated], k)
  {
    var k := match s
      case Detected => 4
      case PrecheckFailed => 3
      case RollingBack => 2
      case RolledBack => 1;
    assert PrefixOfRun(Way(s) + [Escalated], k);
  }

  lemma RunsArePaths(k: nat)
    requires k < 5
    ensures IsPath(RUNS[k]) && RUNS[k][0] == Detected
  {}

  lemma HistoriesAreKnown(path: seq<State>)
    requires path != [] && IsPath(path) && path[0] == Detected
    ensures exists k: nat :: PrefixOfRun(path, k)
  {
    var n := |path| - 1;
    if path[n] != Escalated {
      OneWay(path);
      assert PrefixOfRun(path, Place(path[n]).0);
    } else {
      assert Edge(path, n - 1);
      PathPrefix(path, n);
      OneWay(path[..n]);
      assert path == path[..n] + [Escalated];
      WayToEscalated(path[n - 1]);
    }
  }

  /** The histories of a machine that starts in DETECTED are exactly the nonempty prefixes of the five runs. */
  lemma HistoriesExactly(path: seq<State>)
    requires path != []
    ensures IsPath(path) && path[0] == Detected <==> exists k: nat :: PrefixOfRun(path, k)
  {
    if IsPath(path) && path[0] == Detected {
      HistoriesAreKnown(path);
    }
    if k: nat :| PrefixOfRun(path, k) {
      RunsArePaths(k);
      PathPrefix(RUNS[k], |path|);
      assert path == RUNS[k][..|path|];
    }
  }

  /** The terminal states are exactly the listed states without a successor. */
  lemma TerminalStatesAreTheSinks(s: State)
    ensures IsTerminal(s) || s.Unlisted? <==> forall t :: !CanTransition(s, t)
  {
    if !IsTerminal(s) && !s.Unlisted? {
      var t := match s
        case Detected => Evaluating
        case Evaluating => PrecheckPassed
        case PrecheckPassed => Executing
        case Executing => PostcheckPassed
        case PostcheckPassed => Committed
        case PostcheckFailed => RollingBack
        case _ => Escalated;
      assert CanTransition(s, t);
    }
  }
}
