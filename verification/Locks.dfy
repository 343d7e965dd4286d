/**
  The resource locks of `internal/lock/lock.go`: the file name of a resource's lock, and
  non-blocking advisory locks whose release may be called any number of times.
 */
module Locks {
  import opened Strings

  datatype Result<T> = Ok(value: T) | Held | OpenFailed

  const MAX_SHOWN := 64

  // ----- names -----------------------------------------------------------------------------------

  predicate Plain(c: char) {
    'a' <= c <= 'z' || 'A' <= c <= 'Z' || '0' <= c <= '9' || c == '-' || c == '_'
  }

  function Sanitized(s: string): (r: string)
    ensures |r| == |s| && forall i :: 0 <= i < |s| ==> r[i] == if Plain(s[i]) then s[i] else '_'
  {
    if s == "" then "" else [if Plain(s[0]) then s[0] else '_'] + Sanitized(s[1..])
  }

  function Unpadded(s: string): string {
    if s != "" && s[0] == '_' then Unpadded(s[1..])
    else if s != "" && s[|s| - 1] == '_' then Unpadded(s[..|s| - 1])
    else s
  }

  function Cut(s: string): string {
    if |s| > MAX_SHOWN then s[..MAX_SHOWN] else s
  }

  /** The readable part of the file name. */
  function Shown(resource: string): string {
    var s := Cut(Unpadded(Sanitized(resource)));
    if s == "" then "res" else s
  }

  /** `short` gives the first eight hexadecimal digits of the digest. */
  function FileName(resource: string, short: string -> string): string {
    Shown(resource) + "_" + short(resource) + ".lock"
  }

  function LockPathFor(dir: string, resource: string, short: string -> string): string {
    dir + "/" + FileName(resource, short)
  }

  lemma {:induction false} UnpaddedKeepsPlain(s: string)
    requires forall c <- s :: Plain(c)
    ensures forall c <- Unpadded(s) :: Plain(c)
    decreases |s|
  {
    if s != "" && s[0] == '_' {
      UnpaddedKeepsPlain(s[1..]);
    } else if s != "" && s[|s| - 1] == '_' {
      UnpaddedKeepsPlain(s[..|s| - 1]);
    }
  }

  /** Whatever the resource is called, its lock lies directly in the lock directory: the name has no separator. */
  lemma NamesStayInTheDirectory(resource: string, short: string -> string)
    requires forall c <- short(resource) :: Plain(c)
    ensures 0 < |Shown(resource)| <= 64
    ensures forall c <- FileName(resource, short) :: Plain(c) || c == '.'
    ensures '/' !in FileName(resource, short)
  {
    var s := Sanitized(resource);
    assert forall c <- s :: Plain(c);
    UnpaddedKeepsPlain(s);
    assert forall c <- Cut(Unpadded(s)) :: Plain(c);
  }

  /** Trimming takes the underscores off both ends and nothing else. */
  lemma {:induction false} UnpaddedTrims(s: string) returns (i: nat, j: nat)
    ensures i <= j <= |s| && Unpadded(s) == s[i..j]
    ensures forall k :: 0 <= k < |s| && (k < i || j <= k) ==> s[k] == '_'
    ensures i < j ==> s[i] != '_' && s[j - 1] != '_'
    decreases |s|
  {
    if s != "" && s[0] == '_' {
      var a, b := UnpaddedTrims(s[1..]);
      i, j := a + 1, b + 1;
      assert s[1..][a..b] == s[i..j];
    } else if s != "" && s[|s| - 1] == '_' {
      i, j := UnpaddedTrims(s[..|s| - 1]);
      assert s[..|s| - 1][i..j] == s[i..j];
    } else {
      i, j := 0, |s|;
    }
  }

  predicate Letter(c: char) {
    'a' <= c <= 'z' || 'A' <= c <= 'Z'
  }

  predicate Allowed(c: char) {
    Letter(c) || '0' <= c <= '9' || c == '-' || c == '_'
  }

  /** The resource name is shown as it is, when it needs no change: up to 64 letters, digits, `-` and `_`, no `_` at its ends. */
  lemma PlainNamesAreShown(dir: string, r: string, short: string -> string)
    requires 0 < |r| <= 64 && r[0] != '_' && r[|r| - 1] != '_'
    requires forall c <- r :: Allowed(c)
    ensures LockPathFor(dir, r, short) == dir + "/" + r + "_" + short(r) + ".lock"
  {
    forall i | 0 <= i < |r| ensures Plain(r[i]) {
      assert r[i] in r;
    }
    assert Sanitized(r) == r;
    assert Shown(r) == r;
    assert dir + "/" + (r + "_" + short(r) + ".lock") == dir + "/" + r + "_" + short(r) + ".lock";
  }

  /** Any other name: what lies between underscores at the ends, every foreign character an underscore, cut at 64; or `res`. */
  lemma ShownExactly(r: string) returns (i: nat, j: nat)
    ensures i <= j <= |r|
    ensures forall k :: 0 <= k < |r| && (k < i || j <= k) ==> !Allowed(r[k]) || r[k] == '_'
    ensures i < j ==> Allowed(r[i]) && r[i] != '_' && Allowed(r[j - 1]) && r[j - 1] != '_'
    ensures i == j ==> Shown(r) == "res"
    ensures i < j ==> |Shown(r)| == (if j - i > 64 then 64 else j - i)
    ensures i < j ==> forall k :: 0 <= k < |Shown(r)| ==> Shown(r)[k] == if Allowed(r[i + k]) then r[i + k] else '_'
  {
    var s := Sanitized(r);
    i, j := UnpaddedTrims(s);
    if i < j {
      assert Shown(r) == Cut(s[i..j]);
    }
  }

  /**
    Two resources share a lock exactly when the shown parts of their names and the shortened
    digests agree, so different shortened digests always mean different locks.
   */
  lemma LocksAreSharedExactly(dir: string, a: string, b: string, short: string -> string)
    requires |short(a)| == |short(b)|
    ensures LockPathFor(dir, a, short) == LockPathFor(dir, b, short) <==> Shown(a) == Shown(b) && short(a) == short(b)
  {
    if LockPathFor(dir, a, short) == LockPathFor(dir, b, short) {
      SplitsAlike(dir + "/", FileName(a, short), dir + "/", FileName(b, short));
      SplitsAlike(Shown(a) + "_" + short(a), ".lock", Shown(b) + "_" + short(b), ".lock");
      SplitsAlike(Shown(a) + "_", short(a), Shown(b) + "_", short(b));
      SplitsAlike(Shown(a), "_", Shown(b), "_");
    }
  }

  // ----- locks -----------------------------------------------------------------------------------------

  /** Which lock object holds the advisory lock of a path. */
  type Owners = map<string, nat>

  function Taken(owners: Owners, path: string, id: nat): Owners {
    if path in owners then owners else owners[path := id]
  }

  /** What closing the file of lock object `id` frees. */
  function Freed(owners: Owners, path: string, id: nat): Owners {
    if path in owners && owners[path] == id then owners - {path} else owners
  }

  /** The advisory locks of the operating system; lock objects are numbered as they are issued. */
  class Coordinator {
    var owners: Owners
    var issued: nat

    constructor ()
      ensures owners == map[] && issued == 0
    {
      owners, issued := map[], 0;
    }

    /** `opens` says whether the lock file can be opened. */
    method TryLockPath(resource: string, path: string, opens: bool) returns (r: Result<ResourceLock>)
      modifies this
      ensures r.Ok? <==> opens && path !in old(owners)
      ensures r == Held <==> opens && path in old(owners)
      ensures r.Ok? ==>
        && fresh(r.value) && r.value.coordinator == this && r.value.path == path && r.value.id == old(issued)
        && !r.value.released && owners == Taken(old(owners), path, old(issued)) && issued == old(issued) + 1
      ensures !r.Ok? ==> owners == old(owners) && issued == old(issued)
    {
      if !opens {
        return OpenFailed;
      }
      if path in owners {
        return Held;
      }
      owners := owners[path := issued];
      var l := new ResourceLock(this, resource, path, issued);
      issued := issued + 1;
      return Ok(l);
    }
  }

  class ResourceLock {
    const coordinator: Coordinator
    const resource: string
    const path: string
    const id: nat
    var released: bool

    constructor (coordinator: Coordinator, resource: string, path: string, id: nat)
      ensures this.coordinator == coordinator && this.resource == resource && this.path == path
      ensures this.id == id && !released
    {
      this.coordinator, this.resource, this.path, this.id, this.released := coordinator, resource, path, id, false;
    }

    method Unlock()
      modifies this`released, coordinator`owners
      ensures released
      ensures coordinator.owners ==
        if old(released) then old(coordinator.owners) else Freed(old(coordinator.owners), path, id)
    {
      if released {
        return;
      }
      released := true;
      if path in coordinator.owners && coordinator.owners[path] == id {
        coordinator.owners := coordinator.owners - {path};
      }
    }
  }

  // ----- call sequences ------------------------------------------------------------------------------------

  datatype Call = TryLock(path: string, opens: bool) | Unlock(id: nat)

  datatype Lock = Lock(path: string, released: bool)

  /** The operating system's table and every lock object issued so far. */
  datatype World = World(owners: Owners, locks: seq<Lock>)

  function Do(w: World, c: Call): World {
    match c
    case TryLock(path, opens) =>
      if !opens || path in w.owners then w
      else World(Taken(w.owners, path, |w.locks|), w.locks + [Lock(path, false)])
    case Unlock(id) =>
      if id >= |w.locks| || w.locks[id].released then w
      else World(Freed(w.owners, w.locks[id].path, id), w.locks[id := Lock(w.locks[id].path, true)])
  }

  function After(calls: seq<Call>): World {
    if calls == [] then World(map[], [])
    else Do(After(calls[..|calls| - 1]), calls[|calls| - 1])
  }

  predicate Live(w: World, id: nat) {
    id < |w.locks| && !w.locks[id].released
  }

  /** A path is taken exactly while one lock object on it is unreleased, and by that object. */
  ghost predicate Exact(w: World) {
    && (forall id: nat :: Live(w, id) ==> w.locks[id].path in w.owners && w.owners[w.locks[id].path] == id)
    && (forall path :: path in w.owners ==> Live(w, w.owners[path]) && w.locks[w.owners[path]].path == path)
  }

  lemma DoKeepsExact(w: World, c: Call)
    requires Exact(w)
    ensures Exact(Do(w, c))
  {
    var v := Do(w, c);
    match c
    case TryLock(path, opens) =>
      if opens && path !in w.owners {
        assert forall id: nat :: id < |w.locks| ==> v.locks[id] == w.locks[id];
        assert forall id: nat :: Live(v, id) ==> id == |w.locks| || Live(w, id);
        assert forall p :: p in w.owners ==> Live(w, w.owners[p]) ==> Live(v, w.owners[p]);
      }
    case Unlock(id) =>
      if Live(w, id) {
        assert forall k: nat :: Live(v, k) <==> Live(w, k) && k != id;
      }
  }

  lemma {:induction false} AlwaysExact(calls: seq<Call>)
    ensures Exact(After(calls))
  {
    if calls != [] {
      AlwaysExact(calls[..|calls| - 1]);
      DoKeepsExact(After(calls[..|calls| - 1]), calls[|calls| - 1]);
    }
  }

  /** In every sequence of calls, two different lock objects on one path are never both unreleased. */
  lemma OneHolderPerPath(calls: seq<Call>, i: nat, j: nat)
    requires var w := After(calls); Live(w, i) && Live(w, j) && w.locks[i].path == w.locks[j].path
    ensures i == j
  {
    AlwaysExact(calls);
  }

  /**
    Releasing a lock again, at any later time and however often, changes nothing: in particular it
    never frees the lock of whoever took the path in the meantime.
   */
  lemma {:induction false} UnlockAgainIsHarmless(calls: seq<Call>, id: nat, later: seq<Call>)
    requires id < |After(calls).locks|
    ensures var w := After(calls + [Unlock(id)] + later); Do(w, Unlock(id)) == w
  {
    ReleasedStaysReleased(calls + [Unlock(id)], id, later);
    assert (calls + [Unlock(id)])[..|calls|] == calls;
  }

  lemma {:induction false} ReleasedStaysReleased(calls: seq<Call>, id: nat, later: seq<Call>)
    requires id < |After(calls).locks| && After(calls).locks[id].released
    ensures var w := After(calls + later); id < |w.locks| && w.locks[id].released
    decreases |later|
  {
    if later == [] {
      assert calls + later == calls;
    } else {
      var n := |later| - 1;
      ReleasedStaysReleased(calls, id, later[..n]);
      assert (calls + later)[..|calls + later| - 1] == calls + later[..n];
    }
  }

  /** A path can be taken again exactly when its last taker has released it. */
  lemma FreeExactlyWhenReleased(calls: seq<Call>, path: string)
    ensures path in After(calls).owners <==> exists id: nat :: Live(After(calls), id) && After(calls).locks[id].path == path
  {
    AlwaysExact(calls);
  }
}
