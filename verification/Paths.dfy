/** File names and the backup path that journal and runbooks derive from them. */
module Paths {

  function Unslashed(path: string): string {
    if path != "" && path[|path| - 1] == '/' then Unslashed(path[..|path| - 1]) else path
  }

  /** The part of a path after its last slash. */
  function LastPart(path: string): string {
    if path == "" || path[|path| - 1] == '/' then "" else LastPart(path[..|path| - 1]) + [path[|path| - 1]]
  }

  /** `filepath.Base`: trailing slashes do not count. */
  function Base(path: string): string {
    if path == "" then "." else if Unslashed(path) == "" then "/" else LastPart(Unslashed(path))
  }

  function BackupPath(dir: string, path: string): string {
    dir + "/" + Base(path) + ".bak"
  }

  /** Two files in one backup directory share their backup exactly when they have the same name. */
  lemma BackupsAreSharedByName(dir: string, p: string, q: string)
    ensures BackupPath(dir, p) == BackupPath(dir, q) <==> Base(p) == Base(q)
  {
    var x, y := BackupPath(dir, p), BackupPath(dir, q);
    assert x[|dir| + 1..|x| - 4] == Base(p) && y[|dir| + 1..|y| - 4] == Base(q);
  }

  /** As far back as there is no slash, the name ends like the path. */
  lemma {:induction false} EndOfLastPart(path: string, k: nat)
    requires k < |path| && forall i :: |path| - 1 - k <= i < |path| ==> path[i] != '/'
    ensures var x := LastPart(path); k < |x| && x[|x| - 1 - k] == path[|path| - 1 - k]
    decreases k
  {
    if k > 0 {
      EndOfLastPart(path[..|path| - 1], k - 1);
    }
  }

  lemma EndOfBase(path: string, k: nat)
    requires k < |path| && forall i :: |path| - 1 - k <= i < |path| ==> path[i] != '/'
    ensures var x := Base(path); k < |x| && x[|x| - 1 - k] == path[|path| - 1 - k]
  {
    EndOfLastPart(path, k);
  }

  lemma {:induction false} LastPartOf(dir: string, name: string)
    requires '/' !in name && (dir == "" || dir[|dir| - 1] == '/')
    ensures LastPart(dir + name) == name
  {
    if name == "" {
      assert dir + name == dir;
    } else {
      var n := |name| - 1;
      assert (dir + name)[..|dir + name| - 1] == dir + name[..n];
      LastPartOf(dir, name[..n]);
    }
  }

  /** The base of a file in a directory, or of a bare name, is its name. */
  lemma BaseOfFile(dir: string, name: string)
    requires name != "" && '/' !in name
    ensures Base(dir + "/" + name) == name && Base(name) == name
  {
    LastPartOf(dir + "/", name);
    LastPartOf("", name);
    assert "" + name == name;
  }

  /** Slashes at the end do not count, unless there is nothing else. */
  lemma BaseIgnoresSlashes(path: string)
    ensures Base(path + "/") == if path == "" then "/" else Base(path)
    ensures Base("") == "." && Base("/") == "/"
  {
    assert (path + "/")[..|path|] == path;
    assert Unslashed(path + "/") == Unslashed(path);
    assert "/"[..0] == "" && Unslashed("/") == Unslashed("");
  }
}
