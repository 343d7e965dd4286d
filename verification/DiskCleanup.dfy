/**
  The oldest-first prune loop of RBK-DISK-001, `internal/runbooks/runbooks.go`, on one
  directory: a map from file names to inode, modification time and size.
 */
module DiskCleanup {
  import opened Wrappers
  import opened Executor

  datatype FileInfo = FileInfo(inode: nat, modTime: int, size: nat)

  datatype Candidate = Candidate(name: string, modTime: int, size: nat)

  type Files = map<string, FileInfo>

  /** The limits, and what identifies the active log: its name, and its inode if it was found (else 0). */
  datatype Config = Config(maxFiles: int, maxBytes: int, activeName: string, activeInode: nat)

  const MAX_FILES := 10
  const MAX_BYTES := 21474836480

  /** The constructor's clamps. */
  function Clamped(c: Config): (r: Config)
    ensures r.maxFiles == if 1 <= c.maxFiles <= 10 then c.maxFiles else 10
    ensures r.maxBytes == if 1 <= c.maxBytes <= 20 * 1024 * 1024 * 1024 then c.maxBytes else 20 * 1024 * 1024 * 1024
    ensures r.activeName == c.activeName && r.activeInode == c.activeInode
  {
    c.(maxFiles := if c.maxFiles <= 0 || c.maxFiles > MAX_FILES then MAX_FILES else c.maxFiles,
       maxBytes := if c.maxBytes <= 0 || c.maxBytes > MAX_BYTES then MAX_BYTES else c.maxBytes)
  }

  // ----- candidates ----------------------------------------------------------------------------------

  predicate EndsWith(s: string, t: string) {
    |t| <= |s| && s[|s| - |t|..] == t
  }

  predicate Contains(s: string, t: string) {
    exists i {:trigger s[i..]} :: 0 <= i <= |s| - |t| && t <= s[i..]
  }

  predicate IsArchive(name: string) {
    EndsWith(name, ".log.gz") || EndsWith(name, ".old") || EndsWith(name, ".gz") || Contains(name, ".log.")
  }

  /** The names the design calls rotated logs. */
  ghost predicate RotatedName(name: string) {
    || (exists a :: name == a + ".old")
    || (exists a :: name == a + ".gz")
    || (exists a, b :: name == a + ".log." + b)
  }

  lemma EndsWithMeans(s: string, t: string)
    ensures EndsWith(s, t) <==> exists a :: s == a + t
  {
    if EndsWith(s, t) {
      assert s == s[..|s| - |t|] + t;
    }
    if a :| s == a + t {
      assert s[|a|..] == t;
    }
  }

  lemma ContainsMeans(s: string, t: string)
    ensures Contains(s, t) <==> exists a, b :: s == a + t + b
  {
    if i :| 0 <= i <= |s| - |t| && t <= s[i..] {
      assert s == s[..i] + t + s[i + |t|..];
    }
    if a, b :| s == a + t + b {
      assert s[|a|..] == t + b;
    }
  }

  /** The test of the code is true of exactly these names; its first alternative adds nothing. */
  lemma ArchivesAreRotated(name: string)
    ensures IsArchive(name) <==> RotatedName(name)
  {
    EndsWithMeans(name, ".old");
    EndsWithMeans(name, ".gz");
    EndsWithMeans(name, ".log.gz");
    ContainsMeans(name, ".log.");
    if a :| name == a + ".log.gz" {
      assert name == (a + ".log") + ".gz";
    }
  }

  /** A listed name becomes a candidate if it is a rotated log other than the active one and is still there. */
  function Collected(files: Files, activeName: string, names: seq<string>): seq<Candidate> {
    if names == [] then []
    else
      var n := |names| - 1;
      Collected(files, activeName, names[..n]) +
      (if names[n] != activeName && IsArchive(names[n]) && names[n] in files
       then [Candidate(names[n], files[names[n]].modTime, files[names[n]].size)] else [])
  }

  /** `findCandidateArchives` on the names of the directory, and the loop that looks each of them up. */
  method FindCandidates(files: Files, activeName: string, names: seq<string>) returns (list: seq<Candidate>)
    ensures list == Collected(files, activeName, names)
  {
    list := [];
    for i := 0 to |names|
      invariant list == Collected(files, activeName, names[..i])
    {
      assert names[..i + 1][..i] == names[..i];
      var name := names[i];
      if name == activeName || !IsArchive(name) {
        continue;
      }
      if name !in files {
        continue;
      }
      list := list + [Candidate(name, files[name].modTime, files[name].size)];
    }
    assert names[..|names|] == names;
  }

  predicate Distinct(names: seq<string>) {
    forall i, j :: 0 <= i < j < |names| ==> names[i] != names[j]
  }

  /** What is true of every candidate. */
  ghost predicate Genuine(files: Files, activeName: string, f: Candidate) {
    && f.name in files && files[f.name].modTime == f.modTime && files[f.name].size == f.size
    && f.name != activeName && RotatedName(f.name)
  }

  lemma {:induction false} CollectedOnce(files: Files, activeName: string, names: seq<string>, f: Candidate)
    requires Distinct(names)
    ensures multiset(Collected(files, activeName, names))[f] == if f.name in names && Genuine(files, activeName, f) then 1 else 0
  {
    if names != [] {
      CollectedOnce(files, activeName, names[..|names| - 1], f);
      assert names == names[..|names| - 1] + [names[|names| - 1]];
      ArchivesAreRotated(names[|names| - 1]);
    }
  }

  lemma TwiceCountsTwo(order: seq<Candidate>, i: nat, j: nat)
    requires i < j < |order| && order[i] == order[j]
    ensures multiset(order)[order[i]] >= 2
  {
    assert order == order[..j] + order[j..];
    assert order[..j][i] == order[i] && order[j..][0] == order[j];
    assert multiset(order) == multiset(order[..j]) + multiset(order[j..]);
  }

  /** However the candidates are brought into the order of their ages, the result is as the prune loop needs it. */
  lemma SortedCandidatesAreListed(files: Files, activeName: string, names: seq<string>, order: seq<Candidate>)
    requires Distinct(names) && multiset(order) == multiset(Collected(files, activeName, names))
    requires forall i, j :: 0 <= i < j < |order| ==> order[i].modTime <= order[j].modTime
    ensures Lists(files, order)
    ensures forall f :: f in order <==> f.name in names && Genuine(files, activeName, f)
  {
    forall f ensures f in order <==> f.name in names && Genuine(files, activeName, f) {
      CollectedOnce(files, activeName, names, f);
      assert f in order <==> f in multiset(order);
    }
    forall i, j | 0 <= i < j < |order| ensures order[i].name != order[j].name {
      assert order[i] in order && order[j] in order;
      if order[i].name == order[j].name {
        TwiceCountsTwo(order, i, j);
        CollectedOnce(files, activeName, names, order[i]);
      }
    }
    forall i | 0 <= i < |order|
      ensures order[i].name in files
      ensures files[order[i].name].modTime == order[i].modTime && files[order[i].name].size == order[i].size
    {
      assert order[i] in order;
    }
  }

  /** A log that has not been rotated is never a candidate, be it the active one or another. */
  lemma LiveLogsAreNoCandidates(files: Files, activeName: string, names: seq<string>, order: seq<Candidate>, a: string)
    requires Distinct(names) && multiset(order) == multiset(Collected(files, activeName, names))
    requires forall i, j :: 0 <= i < j < |order| ==> order[i].modTime <= order[j].modTime
    requires forall x, y :: a + ".log" != x + ".log." + y
    ensures forall i :: 0 <= i < |order| ==> order[i].name != a + ".log"
  {
    var name := a + ".log";
    forall i | 0 <= i < |order| ensures order[i].name != name {
      SortedCandidatesAreListed(files, activeName, names, order);
      assert order[i] in order;
      LastCharacters(a);
    }
  }

  lemma LastCharacters(a: string)
    ensures forall x :: a + ".log" != x + ".old" && a + ".log" != x + ".gz"
  {
    var name := a + ".log";
    assert name[|name| - 1] == 'g';
    forall x ensures name != x + ".old" && name != x + ".gz" {
      assert (x + ".old")[|x| + 3] == 'd' && (x + ".gz")[|x| + 2] == 'z';
    }
  }

  // ----- the loop ---------------------------------------------------------------------------------------

  /** `checkCandidateFileSafe`. */
  predicate Safe(files: Files, c: Config, name: string) {
    name in files && !(c.activeInode > 0 && files[name].inode == c.activeInode) && name != c.activeName
  }

  /** Oldest first, no name twice, and every candidate is in the directory with the size and age listed. */
  predicate Lists(files: Files, order: seq<Candidate>) {
    && (forall i, j :: 0 <= i < j < |order| ==> order[i].modTime <= order[j].modTime)
    && (forall i, j :: 0 <= i < j < |order| ==> order[i].name != order[j].name)
    && (forall i :: 0 <= i < |order| ==>
          && order[i].name in files
          && files[order[i].name].modTime == order[i].modTime && files[order[i].name].size == order[i].size)
  }

  /** The safe candidates among the first `p`, in order. */
  function Victims(files: Files, c: Config, order: seq<Candidate>, p: nat): seq<Candidate>
    requires p <= |order|
  {
    if p == 0 then []
    else Victims(files, c, order, p - 1) + (if Safe(files, c, order[p - 1].name) then [order[p - 1]] else [])
  }

  function Size(victims: seq<Candidate>): nat {
    if victims == [] then 0 else Size(victims[..|victims| - 1]) + victims[|victims| - 1].size
  }

  function Names(victims: seq<Candidate>): set<string> {
    set i | 0 <= i < |victims| :: victims[i].name
  }

  /** Candidate `p` is looked at: neither limit stops the loop before it. */
  predicate Examines(files: Files, c: Config, order: seq<Candidate>, p: nat)
    requires p < |order|
  {
    var victims := Victims(files, c, order, p);
    |victims| < c.maxFiles && (Size(victims) + order[p].size <= c.maxBytes || victims == [])
  }

  /** The loop gets as far as candidate `p`: every one before it was looked at. */
  predicate Reaches(files: Files, c: Config, order: seq<Candidate>, p: nat) {
    p <= |order| && forall q: nat :: q < p ==> Examines(files, c, order, q)
  }

  /** The loop ends after `p` candidates: the next one, if any, is not looked at. */
  predicate StopsAt(files: Files, c: Config, order: seq<Candidate>, p: nat) {
    Reaches(files, c, order, p) && (p < |order| ==> !Examines(files, c, order, p))
  }

  datatype Outcome = Pruned(deleted: seq<Candidate>, bytes: nat) | UnlinkFailed(name: string)

  class LogDir {
    var files: Files

    constructor (files: Files)
      ensures this.files == files
    {
      this.files := files;
    }

    /**
      The loop.  `stuck` are the names that cannot be unlinked.  Without an unlink error exactly
      the safe candidates up to the stopping point are gone; an error ends the loop where it is.
     */
    method PruneOldest(c: Config, order: seq<Candidate>, stuck: set<string>) returns (r: Outcome)
      requires Lists(files, order)
      modifies this
      ensures r.Pruned? ==> exists p: nat ::
        && StopsAt(old(files), c, order, p) && r.deleted == Victims(old(files), c, order, p)
        && r.bytes == Size(r.deleted) && files == old(files) - Names(r.deleted)
        && Names(r.deleted) !! stuck
      ensures r.UnlinkFailed? ==> r.name in stuck && exists p: nat ::
        && p < |order| && r.name == order[p].name && Safe(old(files), c, r.name)
        && Reaches(old(files), c, order, p) && Examines(old(files), c, order, p)
        && files == old(files) - Names(Victims(old(files), c, order, p))
    {
      var totalBytesDeleted := 0;
      var filesDeleted := 0;
      var deleted: seq<Candidate> := [];
      var i := 0;
      while i < |order|
        invariant 0 <= i <= |order|
        invariant Reaches(old(files), c, order, i)
        invariant deleted == Victims(old(files), c, order, i)
        invariant filesDeleted == |deleted| && totalBytesDeleted == Size(deleted)
        invariant files == old(files) - Names(deleted) && Names(deleted) !! stuck
      {
        var f := order[i];
        if filesDeleted >= c.maxFiles {
          break;
        }
        if totalBytesDeleted + f.size > c.maxBytes && filesDeleted > 0 {
          break;
        }
        assert Examines(old(files), c, order, i);
        VictimsComeEarlier(old(files), c, order, i);
        assert Safe(files, c, f.name) == Safe(old(files), c, f.name);
        if Safe(files, c, f.name) {
          if f.name in stuck {
            return UnlinkFailed(f.name);
          }
          NamesGrow(deleted, f);
          files := files - {f.name};
          filesDeleted := filesDeleted + 1;
          totalBytesDeleted := totalBytesDeleted + f.size;
          deleted := deleted + [f];
        }
        i := i + 1;
      }
      assert StopsAt(old(files), c, order, i);
      return Pruned(deleted, totalBytesDeleted);
    }
  }

  /** The candidate is one of the first `p`, and safe. */
  predicate ComesFrom(files: Files, c: Config, order: seq<Candidate>, p: nat, v: Candidate)
    requires p <= |order|
  {
    exists i :: 0 <= i < p && order[i] == v && Safe(files, c, order[i].name)
  }

  lemma {:induction false} VictimsComeEarlier(files: Files, c: Config, order: seq<Candidate>, p: nat)
    requires Lists(files, order) && p <= |order|
    ensures forall v :: v in Victims(files, c, order, p) ==> ComesFrom(files, c, order, p, v)
    ensures p < |order| ==> order[p].name !in Names(Victims(files, c, order, p))
  {
    if p > 0 {
      VictimsComeEarlier(files, c, order, p - 1);
      var before := Victims(files, c, order, p - 1);
      forall v | v in Victims(files, c, order, p) ensures ComesFrom(files, c, order, p, v) {
        if v in before {
          var i :| 0 <= i < p - 1 && order[i] == v && Safe(files, c, order[i].name);
        } else {
          assert order[p - 1] == v;
        }
      }
    }
    var victims := Victims(files, c, order, p);
    if p < |order| {
      forall k | 0 <= k < |victims| ensures victims[k].name != order[p].name {
        assert ComesFrom(files, c, order, p, victims[k]);
        var i :| 0 <= i < p && order[i] == victims[k];
        assert order[i].name != order[p].name;
      }
    }
  }

  lemma NamesGrow(victims: seq<Candidate>, f: Candidate)
    ensures Names(victims + [f]) == Names(victims) + {f.name}
    ensures Size(victims + [f]) == Size(victims) + f.size
  {
    var all := victims + [f];
    assert all[..|all| - 1] == victims;
    forall x | x in Names(victims) + {f.name} ensures x in Names(all) {
      if x == f.name {
        assert all[|victims|].name == x;
      } else {
        var i :| 0 <= i < |victims| && victims[i].name == x;
        assert all[i].name == x;
      }
    }
  }

  // ----- what the loop guarantees -------------------------------------------------------------------------

  /** The last victim, when there are several, was within both limits when it was chosen. */
  lemma {:induction false} LimitsWhileExamined(files: Files, c: Config, order: seq<Candidate>, p: nat)
    requires Reaches(files, c, order, p) && c.maxFiles >= 0
    ensures var victims := Victims(files, c, order, p);
      |victims| <= c.maxFiles && (|victims| >= 2 ==> Size(victims) <= c.maxBytes)
  {
    if p > 0 {
      LimitsWhileExamined(files, c, order, p - 1);
      assert Examines(files, c, order, p - 1);
      var before := Victims(files, c, order, p - 1);
      if Safe(files, c, order[p - 1].name) {
        NamesGrow(before, order[p - 1]);
      } else {
        assert Victims(files, c, order, p) == before;
      }
    }
  }

  /**
    Whatever the loop has deleted when it reaches candidate `p`, be it to stop there, to fail
    there or to go on: at most `maxFiles` files, never the active log by name or inode,
    never one newer than a safe candidate that survives, and more than `maxBytes` only if it is
    a single file.
   */
  lemma PruneIsBounded(files: Files, c: Config, order: seq<Candidate>, p: nat)
    requires Lists(files, order) && Reaches(files, c, order, p) && c.maxFiles >= 0
    ensures var victims := Victims(files, c, order, p);
      && |victims| <= c.maxFiles
      && c.activeName !in Names(victims)
      && (forall x :: x in Names(victims) && c.activeInode > 0 ==> x in files && files[x].inode != c.activeInode)
      && (forall x, j ::
            (x in Names(victims) && 0 <= j < |order| && order[j].name !in Names(victims) && Safe(files, c, order[j].name))
            ==> x in files && files[x].modTime <= order[j].modTime)
      && (Size(victims) > c.maxBytes && c.maxBytes >= 0 ==> |victims| == 1)
  {
    var victims := Victims(files, c, order, p);
    LimitsWhileExamined(files, c, order, p);
    assert victims == [] ==> Size(victims) == 0;
    forall x | x in Names(victims) ensures Safe(files, c, x) {
      var _ := VictimIsCandidate(files, c, order, p, x);
    }
    forall x, j | x in Names(victims) && 0 <= j < |order| && order[j].name !in Names(victims)
                  && Safe(files, c, order[j].name)
      ensures x in files && files[x].modTime <= order[j].modTime
    {
      VictimsAreOldest(files, c, order, p, x, j);
    }
  }

  /** Where a victim stands among the candidates. */
  lemma VictimIsCandidate(files: Files, c: Config, order: seq<Candidate>, p: nat, x: string) returns (i: nat)
    requires Lists(files, order) && p <= |order| && x in Names(Victims(files, c, order, p))
    ensures i < p && order[i].name == x && Safe(files, c, x)
  {
    var victims := Victims(files, c, order, p);
    VictimsComeEarlier(files, c, order, p);
    var k :| 0 <= k < |victims| && victims[k].name == x;
    assert victims[k] in victims;
    assert ComesFrom(files, c, order, p, victims[k]);
    i :| i < p && order[i] == victims[k] && Safe(files, c, order[i].name);
  }

  lemma VictimsAreOldest(files: Files, c: Config, order: seq<Candidate>, p: nat, x: string, j: nat)
    requires Lists(files, order) && p <= |order| && x in Names(Victims(files, c, order, p))
    requires j < |order| && order[j].name !in Names(Victims(files, c, order, p)) && Safe(files, c, order[j].name)
    ensures x in files && files[x].modTime <= order[j].modTime
  {
    if j < p {
      SafeOnesAreVictims(files, c, order, p, j);
    }
    var i := VictimIsCandidate(files, c, order, p, x);
    assert i < j;
  }

  lemma {:induction false} SafeOnesAreVictims(files: Files, c: Config, order: seq<Candidate>, p: nat, j: nat)
    requires j < p <= |order| && order[j].name in files && order[j].name != c.activeName
    requires c.activeInode == 0 || files[order[j].name].inode != c.activeInode
    ensures order[j].name in Names(Victims(files, c, order, p))
  {
    var before := Victims(files, c, order, p - 1);
    if j < p - 1 {
      SafeOnesAreVictims(files, c, order, p - 1, j);
    }
    if Safe(files, c, order[p - 1].name) {
      NamesGrow(before, order[p - 1]);
      assert Names(Victims(files, c, order, p)) == Names(before) + {order[p - 1].name};
    } else {
      assert Victims(files, c, order, p) == before;
    }
  }

  /** The loop stops early only for a limit: enough files, or a file that would exceed the bytes and is not the first. */
  lemma PruneIsMaximal(files: Files, c: Config, order: seq<Candidate>, p: nat)
    requires StopsAt(files, c, order, p) && p < |order|
    ensures var victims := Victims(files, c, order, p);
      |victims| >= c.maxFiles || (victims != [] && Size(victims) + order[p].size > c.maxBytes)
  {}

  /** How many bytes the directory holds. */
  ghost function Total(files: Files): nat {
    if files == map[] then 0
    else
      var x :| x in files;
      files[x].size + Total(files - {x})
  }

  lemma {:induction false} TotalMinus(files: Files, x: string)
    requires x in files
    ensures Total(files) == files[x].size + Total(files - {x})
    decreases |files|
  {
    var y :| y in files && Total(files) == files[y].size + Total(files - {y});
    if x != y {
      TotalMinus(files - {y}, x);
      TotalMinus(files - {x}, y);
      assert files - {y} - {x} == files - {x} - {y};
    }
  }

  /** Conservation: what the loop reports as deleted is what the directory has lost. */
  lemma {:induction false} BytesAreConserved(files: Files, c: Config, order: seq<Candidate>, p: nat)
    requires Lists(files, order) && p <= |order|
    ensures var victims := Victims(files, c, order, p);
      Total(files) == Size(victims) + Total(files - Names(victims))
  {
    if p == 0 {
      assert files - Names([]) == files;
    } else {
      BytesAreConserved(files, c, order, p - 1);
      var before, f := Victims(files, c, order, p - 1), order[p - 1];
      if Safe(files, c, f.name) {
        VictimsComeEarlier(files, c, order, p - 1);
        NamesGrow(before, f);
        var left := files - Names(before);
        TotalMinus(left, f.name);
        assert left - {f.name} == files - Names(before + [f]);
      } else {
        assert Victims(files, c, order, p) == before;
      }
    }
  }

  /** Whatever is deleted was listed, is a rotated log by its name, and is not the active log. */
  lemma OnlyRotatedLogsGo(files: Files, c: Config, names: seq<string>, order: seq<Candidate>, p: nat, x: string)
    requires Distinct(names) && multiset(order) == multiset(Collected(files, c.activeName, names))
    requires forall i, j :: 0 <= i < j < |order| ==> order[i].modTime <= order[j].modTime
    requires p <= |order| && x in Names(Victims(files, c, order, p))
    ensures x in names && RotatedName(x) && x != c.activeName
  {
    SortedCandidatesAreListed(files, c.activeName, names, order);
    var i := VictimIsCandidate(files, c, order, p, x);
    assert order[i] in order;
  }

  /** Within the limits: at most `maxFiles` files, and more than `maxBytes` only if a single one. */
  predicate Modest(c: Config, victims: seq<Candidate>) {
    |victims| <= c.maxFiles && (Size(victims) > c.maxBytes ==> |victims| == 1)
  }

  /** The runbook's blast radius is `maxBytes`; the executor sees the bytes the loop reports. */
  method PruneAndReport(dir: LogDir, cfg: Config, order: seq<Candidate>, stuck: set<string>, deadlineExceeded: bool)
    returns (r: Outcome, v: Verdict)
    requires Lists(dir.files, order)
    modifies dir
    ensures r.Pruned? && !deadlineExceeded ==>
      (v.BlastRadiusExceeded? <==> r.bytes > Clamped(cfg).maxBytes)
    ensures r.Pruned? && v.BlastRadiusExceeded? ==> |r.deleted| == 1
    ensures r.Pruned? ==> |r.deleted| <= 10
    ensures r.UnlinkFailed? ==> v == if deadlineExceeded then TimedOut else ActionFailed
    ensures exists p: nat ::
      && Reaches(old(dir.files), Clamped(cfg), order, p)
      && dir.files == old(dir.files) - Names(Victims(old(dir.files), Clamped(cfg), order, p))
      && Modest(Clamped(cfg), Victims(old(dir.files), Clamped(cfg), order, p))
  {
    var c := Clamped(cfg);
    ghost var files := dir.files;
    r := dir.PruneOldest(c, order, stuck);
    if r.Pruned? {
      ghost var p: nat :| StopsAt(files, c, order, p) && r.deleted == Victims(files, c, order, p)
        && r.bytes == Size(r.deleted) && dir.files == files - Names(r.deleted);
      assert dir.files == files - Names(Victims(files, c, order, p));
      PruneIsBounded(files, c, order, p);
      var res: ExecutionResult;
      res, v := ExecuteMutation(Some(ExecutionResult(0, r.bytes, true)), false, deadlineExceeded, c.maxBytes);
    } else {
      ghost var p: nat :| p < |order| && Reaches(files, c, order, p)
        && dir.files == files - Names(Victims(files, c, order, p));
      PruneIsBounded(files, c, order, p);
      var res: ExecutionResult;
      res, v := ExecuteMutation(None, true, deadlineExceeded, c.maxBytes);
    }
  }
}
