/**
  The swap and the compensating step of RBK-TLS-001, `internal/runbooks/runbooks.go`, over a
  file system that maps paths to contents.
 */
module TlsRotation {
  import opened Wrappers
  import Paths

  type Fs = map<string, string>

  datatype Config = Config(
    serviceName: string, stagedCert: string, stagedKey: string,
    activeCert: string, activeKey: string, backupDir: string)

  /** How writing a whole file ends: done, not even opened, or cut off after its truncation. */
  datatype Write = Done | Unopened | Cut(part: string)

  /** Where the swap fails; a failed write of a temporary file ends in one of the three ways all the same. */
  datatype Failure = NoFailure | TmpCertWrite(cert: Write) | TmpKeyWrite(key: Write) | CertRename | KeyRename | ReloadFails

  /** How the writes of the backups and of the restored files end, and where the swap fails. */
  datatype Course = Course(
    backupCert: Write, backupKey: Write, failure: Failure, restoreCert: Write, restoreKey: Write)

  const GATEWAY_CERT := "/etc/ssl/certs/ai-gateway.crt"
  const GATEWAY_KEY := "/etc/ssl/private/ai-gateway.key"
  const PROXY_CERT := "/etc/ssl/certs/guardrail-proxy.crt"

  const DEFAULT_CONFIG := Config(
    "ai-security-guardrail-proxy",
    "/var/lib/autonomous-remediation/staging/tls.crt", "/var/lib/autonomous-remediation/staging/tls.key",
    PROXY_CERT, "/etc/ssl/private/guardrail-proxy.key", "/var/lib/autonomous-remediation/journal/backup")

  function BackupPath(cfg: Config, path: string): string {
    Paths.BackupPath(cfg.backupDir, path)
  }

  /** `target` is the resource in the context, if any. */
  function ResolvePaths(fs: Fs, target: Option<string>, cfg: Config): (string, string) {
    var name := if target.Some? && target.value != "" then target.value else cfg.serviceName;
    if (name == "ai-gateway" || (name == "" && GATEWAY_CERT in fs))
       && (GATEWAY_CERT in fs || cfg.activeCert == PROXY_CERT)
    then (GATEWAY_CERT, GATEWAY_KEY)
    else (cfg.activeCert, cfg.activeKey)
  }

  /** What a write of `content` that got as far as opening the file leaves in it. */
  function Left(content: string, w: Write): string {
    if w.Cut? then w.part else content
  }

  function Written(fs: Fs, path: string, content: string, w: Write): Fs {
    if w.Unopened? then fs else fs[path := Left(content, w)]
  }

  /** Copy `from` to `to` if it exists; every error is ignored. */
  function Copied(fs: Fs, from: string, to: string, w: Write): Fs {
    if from in fs then Written(fs, to, fs[from], w) else fs
  }

  function BackedUp(fs: Fs, cfg: Config, cert: string, key: string, wc: Write, wk: Write): Fs {
    if cfg.backupDir == "" then fs
    else Copied(Copied(fs, cert, BackupPath(cfg, cert), wc), key, BackupPath(cfg, key), wk)
  }

  function Renamed(fs: Fs, from: string, to: string): Fs
    requires from in fs
  {
    (fs - {from})[to := fs[from]]
  }

  /** From the backed-up state on: write both temporary files, rename both, reload. */
  function Swapped(fs: Fs, cfg: Config, cert: string, key: string, f: Failure): (Fs, bool) {
    if cfg.stagedCert !in fs || cfg.stagedKey !in fs then (fs, false)
    else if f.TmpCertWrite? then (Written(fs, cert + ".tmp", fs[cfg.stagedCert], f.cert), false)
    else
      var a := fs[cert + ".tmp" := fs[cfg.stagedCert]];
      if f.TmpKeyWrite? then (Written(a, key + ".tmp", fs[cfg.stagedKey], f.key) - {cert + ".tmp"}, false)
      else
        var b := a[key + ".tmp" := fs[cfg.stagedKey]];
        if f == CertRename then (b, false)
        else
          var c := Renamed(b, cert + ".tmp", cert);
          if f == KeyRename || key + ".tmp" !in c then (c, false)
          else (Renamed(c, key + ".tmp", key), f != ReloadFails)
  }

  /**
    Name by name: the gateway gets its own files if its certificate exists or the configured one is
    the proxy's; without any name its files are taken exactly if its certificate exists; every other
    resource gets the configured files.
   */
  lemma ResolvesExactly(fs: Fs, target: Option<string>, cfg: Config)
    ensures var name := if target == None || target == Some("") then cfg.serviceName else target.value;
            var gateway := ("/etc/ssl/certs/ai-gateway.crt", "/etc/ssl/private/ai-gateway.key");
            var there := "/etc/ssl/certs/ai-gateway.crt" in fs;
            var configured := (cfg.activeCert, cfg.activeKey);
            var paths := ResolvePaths(fs, target, cfg);
      && (name == "ai-gateway" && (there || cfg.activeCert == "/etc/ssl/certs/guardrail-proxy.crt") ==> paths == gateway)
      && (name == "ai-gateway" && !there && cfg.activeCert != "/etc/ssl/certs/guardrail-proxy.crt" ==> paths == configured)
      && (name == "" ==> paths == if there then gateway else configured)
      && (name != "" && name != "ai-gateway" ==> paths == configured)
  {}

  /** The swap reports success exactly when nothing fails, both staged files are there, and certificate and key are two files. */
  lemma SwapSucceedsExactly(fs: Fs, cfg: Config, cert: string, key: string, f: Failure)
    ensures Swapped(fs, cfg, cert, key, f).1 <==>
      cfg.stagedCert in fs && cfg.stagedKey in fs && f == NoFailure && cert != key
  {
    if cert != key {
      assert (cert + ".tmp")[..|cert|] == cert && (key + ".tmp")[..|key|] == key;
    }
    assert |cert + ".tmp"| != |cert|;
  }

  /** The compensating step writes back to the configured paths, whatever paths were swapped. */
  function Compensated(fs: Fs, cfg: Config, backupCert: string, backupKey: string, rc: Write, rk: Write): Fs {
    if backupCert == "" || backupKey == "" then fs
    else Copied(Copied(fs, backupCert, cfg.activeCert, rc), backupKey, cfg.activeKey, rk)
  }

  // ----- several runs ---------------------------------------------------------------------------------------

  /** What the runs of one runbook share: the file system, and the two captured backup paths. */
  datatype Shared = Shared(fs: Fs, backupCert: string, backupKey: string)

  /** The action of one run, or the compensating step of one. */
  datatype Event =
    | SwapBy(target: Option<string>, wc: Write, wk: Write, f: Failure)
    | UndoBy(rc: Write, rk: Write)

  function Happen(cfg: Config, st: Shared, e: Event): Shared {
    match e
    case SwapBy(target, wc, wk, f) =>
      var (cert, key) := ResolvePaths(st.fs, target, cfg);
      var g := Swapped(BackedUp(st.fs, cfg, cert, key, wc, wk), cfg, cert, key, f).0;
      if cfg.backupDir == "" then st.(fs := g) else Shared(g, BackupPath(cfg, cert), BackupPath(cfg, key))
    case UndoBy(rc, rk) => st.(fs := Compensated(st.fs, cfg, st.backupCert, st.backupKey, rc, rk))
  }

  function HappenAll(cfg: Config, st: Shared, events: seq<Event>): Shared {
    if events == [] then st
    else Happen(cfg, HappenAll(cfg, st, events[..|events| - 1]), events[|events| - 1])
  }

  /** The file system after a swap and its undoing, with nothing in between. */
  function AfterUndo(fs: Fs, target: Option<string>, cfg: Config, c: Course): Fs {
    var (cert, key) := ResolvePaths(fs, target, cfg);
    var g := Swapped(BackedUp(fs, cfg, cert, key, c.backupCert, c.backupKey), cfg, cert, key, c.failure).0;
    if cfg.backupDir == "" then g
    else Compensated(g, cfg, BackupPath(cfg, cert), BackupPath(cfg, key), c.restoreCert, c.restoreKey)
  }

  class Rotation {
    const cfg: Config
    var fs: Fs
    var backupCertPath: string
    var backupKeyPath: string

    /** Without a backup directory the backup paths are never set. */
    ghost predicate Valid()
      reads this
    {
      cfg.backupDir == "" ==> backupCertPath == "" && backupKeyPath == ""
    }

    ghost function State(): Shared
      reads this
    {
      Shared(fs, backupCertPath, backupKeyPath)
    }

    constructor (cfg: Config, fs: Fs)
      ensures Valid() && this.cfg == cfg && this.fs == fs && backupCertPath == "" && backupKeyPath == ""
    {
      this.cfg, this.fs, this.backupCertPath, this.backupKeyPath := cfg, fs, "", "";
    }

    method WriteFile(path: string, content: string, w: Write)
      modifies this`fs
      ensures fs == Written(old(fs), path, content, w)
    {
      if w == Unopened {
        return;
      }
      fs := fs[path := ""];
      fs := fs[path := Left(content, w)];
    }

    method CopyFile(from: string, to: string, w: Write)
      modifies this`fs
      ensures fs == Copied(old(fs), from, to, w)
    {
      if from in fs {
        WriteFile(to, fs[from], w);
      }
    }

    /** The action. */
    method Swap(target: Option<string>, wc: Write, wk: Write, f: Failure) returns (ok: bool)
      requires Valid()
      modifies this
      ensures Valid() && State() == Happen(cfg, old(State()), SwapBy(target, wc, wk, f))
      ensures var (cert, key) := ResolvePaths(old(fs), target, cfg);
        ok == Swapped(BackedUp(old(fs), cfg, cert, key, wc, wk), cfg, cert, key, f).1
    {
      var (cert, key) := ResolvePaths(fs, target, cfg);
      if cfg.backupDir != "" {
        backupCertPath := BackupPath(cfg, cert);
        backupKeyPath := BackupPath(cfg, key);
        CopyFile(cert, backupCertPath, wc);
        CopyFile(key, backupKeyPath, wk);
      }
      if cfg.stagedCert !in fs || cfg.stagedKey !in fs {
        return false;
      }
      ok := Deploy(cert, key, fs[cfg.stagedCert], fs[cfg.stagedKey], f);
    }

    /** Temporary files, renames, reload. */
    method Deploy(cert: string, key: string, certBytes: string, keyBytes: string, f: Failure) returns (ok: bool)
      requires cfg.stagedCert in fs && cfg.stagedKey in fs
      requires fs[cfg.stagedCert] == certBytes && fs[cfg.stagedKey] == keyBytes
      modifies this`fs
      ensures (fs, ok) == Swapped(old(fs), cfg, cert, key, f)
    {
      var tmpCert, tmpKey := cert + ".tmp", key + ".tmp";
      if f.TmpCertWrite? {
        WriteFile(tmpCert, certBytes, f.cert);
        return false;
      }
      WriteFile(tmpCert, certBytes, Done);
      if f.TmpKeyWrite? {
        WriteFile(tmpKey, keyBytes, f.key);
        fs := fs - {tmpCert};
        return false;
      }
      WriteFile(tmpKey, keyBytes, Done);
      if f == CertRename {
        return false;
      }
      fs := Renamed(fs, tmpCert, cert);
      if f == KeyRename || tmpKey !in fs {
        return false;
      }
      fs := Renamed(fs, tmpKey, key);
      return f != ReloadFails;
    }

    method Compensate(rc: Write, rk: Write)
      modifies this`fs
      ensures State() == Happen(cfg, old(State()), UndoBy(rc, rk))
    {
      if backupCertPath != "" && backupKeyPath != "" {
        CopyFile(backupCertPath, cfg.activeCert, rc);
        CopyFile(backupKeyPath, cfg.activeKey, rk);
      }
    }

    /** The action and, whatever became of it, the compensating step. */
    method SwapAndUndo(target: Option<string>, c: Course)
      requires Valid()
      modifies this
      ensures Valid() && fs == AfterUndo(old(fs), target, cfg, c)
    {
      var _ := Swap(target, c.backupCert, c.backupKey, c.failure);
      Compensate(c.restoreCert, c.restoreKey);
      ghost var (cert, key) := ResolvePaths(old(fs), target, cfg);
      BackupPathsAreNotEmpty(cfg, cert);
      BackupPathsAreNotEmpty(cfg, key);
    }
  }

  // ----- what the swap changes --------------------------------------------------------------------------

  function Lookup(fs: Fs, p: string): Option<string> {
    if p in fs then Some(fs[p]) else None
  }

  lemma BackupPathsAreNotEmpty(cfg: Config, path: string)
    ensures BackupPath(cfg, path) != ""
  {}

  /** A backup is never mistaken for a temporary file: the endings differ. */
  lemma BackupsAreNotTemporary(cfg: Config, path: string, other: string)
    ensures BackupPath(cfg, path) != other + ".tmp"
  {
    var a, b := BackupPath(cfg, path), other + ".tmp";
    assert a[|a| - 1] == 'k' && b[|b| - 1] == 'p';
  }

  /** Cert and key are not each other's temporary file, and no backup is one of them or a configured file. */
  predicate Separate(cfg: Config, cert: string, key: string) {
    && cert != key + ".tmp" && key != cert + ".tmp"
    && (cfg.backupDir != "" ==>
          && BackupPath(cfg, cert) !in [cert, key, cfg.activeCert, cfg.activeKey]
          && BackupPath(cfg, key) !in [cert, key, cfg.activeCert, cfg.activeKey])
  }

  /** The swap gets through its first rename: `b` is the file system once the backups are made. */
  predicate ReplacesCert(b: Fs, cfg: Config, f: Failure) {
    cfg.stagedCert in b && cfg.stagedKey in b && (f == KeyRename || f == NoFailure || f == ReloadFails)
  }

  /** The swap gets through its second rename; for one combined file there is only the first. */
  predicate ReplacesKey(b: Fs, cfg: Config, cert: string, key: string, f: Failure) {
    ReplacesCert(b, cfg, f) && (f == KeyRename ==> cert == key)
  }

  /** The staged file that replaces the cert: for one combined file both temporary files are one, and the key is written last. */
  function StagedForCert(cfg: Config, cert: string, key: string): string {
    if cert == key then cfg.stagedKey else cfg.stagedCert
  }

  /** No failure point of the swap touches a path other than the two active ones and the two temporary ones. */
  lemma SwapLeavesOthersAlone(b: Fs, cfg: Config, cert: string, key: string, f: Failure, p: string)
    requires p != cert && p != key && p != cert + ".tmp" && p != key + ".tmp"
    ensures Lookup(Swapped(b, cfg, cert, key, f).0, p) == Lookup(b, p)
  {}

  /** What every failure point leaves in the two active files. */
  lemma SwapChanges(b: Fs, cfg: Config, cert: string, key: string, f: Failure)
    requires cert != key + ".tmp" && key != cert + ".tmp"
    ensures var g := Swapped(b, cfg, cert, key, f).0;
      && Lookup(g, cert) ==
         (if ReplacesCert(b, cfg, f) then Lookup(b, StagedForCert(cfg, cert, key)) else Lookup(b, cert))
      && Lookup(g, key) == (if ReplacesKey(b, cfg, cert, key, f) then Lookup(b, cfg.stagedKey) else Lookup(b, key))
  {
    assert (cert + ".tmp")[..|cert|] == cert && (key + ".tmp")[..|key|] == key;
    assert (cert + ".tmp" == key + ".tmp" ==> cert == key) && |cert + ".tmp"| != |cert| && |key + ".tmp"| != |key|;
    if cfg.stagedCert in b && cfg.stagedKey in b && !f.TmpCertWrite? && !f.TmpKeyWrite? {
      var x := b[cert + ".tmp" := b[cfg.stagedCert]][key + ".tmp" := b[cfg.stagedKey]];
      assert x[cert + ".tmp"] == b[StagedForCert(cfg, cert, key)] && x[key + ".tmp"] == b[cfg.stagedKey];
    }
  }

  /**
    What every failure point leaves of the temporary files: nothing after the renames; the key's
    when only its rename fails; both when already the cert's fails; the rest of the key's, but not
    the cert's, when the key's cannot be written; the rest of the cert's when that cannot be written.
   */
  lemma TemporariesExactly(b: Fs, cfg: Config, cert: string, key: string, f: Failure)
    requires cert != key && cert != key + ".tmp" && key != cert + ".tmp"
    requires cfg.stagedCert in b && cfg.stagedKey in b
    ensures var g := Swapped(b, cfg, cert, key, f).0;
            var (c, k) := (Lookup(g, cert + ".tmp"), Lookup(g, key + ".tmp"));
            var (newCert, newKey) := (b[cfg.stagedCert], b[cfg.stagedKey]);
      match f
      case NoFailure => c == None && k == None
      case ReloadFails => c == None && k == None
      case KeyRename => c == None && k == Some(newKey)
      case CertRename => c == Some(newCert) && k == Some(newKey)
      case TmpKeyWrite(w) =>
        c == None && k == if w.Unopened? then Lookup(b, key + ".tmp") else Some(if w.Cut? then w.part else newKey)
      case TmpCertWrite(w) =>
        k == Lookup(b, key + ".tmp")
        && c == if w.Unopened? then Lookup(b, cert + ".tmp") else Some(if w.Cut? then w.part else newCert)
  {
    assert (cert + ".tmp")[..|cert|] == cert && (key + ".tmp")[..|key|] == key;
  }

  /** One combined file for cert and key: the swap never succeeds, and leaves the staged key in it. */
  lemma CombinedFileGetsTheKey(b: Fs, cfg: Config, path: string, f: Failure)
    requires ReplacesCert(b, cfg, f)
    ensures var (g, ok) := Swapped(b, cfg, path, path, f);
      !ok && Lookup(g, path) == Some(b[cfg.stagedKey])
  {
    assert |path + ".tmp"| != |path|;
    SwapChanges(b, cfg, path, path, f);
  }

  // ----- undo ---------------------------------------------------------------------------------------------

  /** What the compensating step writes to `p`, if anything; key last, so it wins. */
  function WrittenBack(b: Fs, cfg: Config, cert: string, key: string, c: Course, p: string): Option<string> {
    var bc, bk := BackupPath(cfg, cert), BackupPath(cfg, key);
    if cfg.backupDir == "" then None
    else if p == cfg.activeKey && bk in b && c.restoreKey != Unopened then Some(Left(b[bk], c.restoreKey))
    else if p == cfg.activeCert && bc in b && c.restoreCert != Unopened then Some(Left(b[bc], c.restoreCert))
    else None
  }

  lemma BackupsSurvive(b: Fs, cfg: Config, cert: string, key: string, f: Failure)
    requires Separate(cfg, cert, key) && cfg.backupDir != ""
    ensures var g := Swapped(b, cfg, cert, key, f).0;
      && Lookup(g, BackupPath(cfg, cert)) == Lookup(b, BackupPath(cfg, cert))
      && Lookup(g, BackupPath(cfg, key)) == Lookup(b, BackupPath(cfg, key))
  {
    BackupsAreNotTemporary(cfg, cert, cert);
    BackupsAreNotTemporary(cfg, cert, key);
    BackupsAreNotTemporary(cfg, key, cert);
    BackupsAreNotTemporary(cfg, key, key);
    SwapLeavesOthersAlone(b, cfg, cert, key, f, BackupPath(cfg, cert));
    SwapLeavesOthersAlone(b, cfg, cert, key, f, BackupPath(cfg, key));
  }

  /** The compensating step changes what it writes back, and nothing else. */
  lemma UndoWritesBack(b: Fs, g: Fs, cfg: Config, cert: string, key: string, c: Course, p: string)
    requires Separate(cfg, cert, key) && cfg.backupDir != ""
    requires Lookup(g, BackupPath(cfg, cert)) == Lookup(b, BackupPath(cfg, cert))
    requires Lookup(g, BackupPath(cfg, key)) == Lookup(b, BackupPath(cfg, key))
    ensures var u := Compensated(g, cfg, BackupPath(cfg, cert), BackupPath(cfg, key), c.restoreCert, c.restoreKey);
            var w := WrittenBack(b, cfg, cert, key, c, p);
      Lookup(u, p) == if w.Some? then w else Lookup(g, p)
  {
    BackupPathsAreNotEmpty(cfg, cert);
    BackupPathsAreNotEmpty(cfg, key);
  }

  lemma BackupsLeaveActiveFiles(fs: Fs, cfg: Config, cert: string, key: string, c: Course)
    requires Separate(cfg, cert, key)
    ensures var b := BackedUp(fs, cfg, cert, key, c.backupCert, c.backupKey);
      Lookup(b, cert) == Lookup(fs, cert) && Lookup(b, key) == Lookup(fs, key)
  {}

  /**
    A file comes out as it went in: what is written back to it, if anything, is what it held,
    and if nothing is written back, the swap did not replace it, or replaced it by the same.
   */
  predicate Recovers(held: Option<string>, back: Option<string>, replaced: bool, staged: Option<string>) {
    if back.Some? then back == held else replaced ==> staged == held
  }

  /**
    Undo, exactly, for every file system, configuration, target and course of events: at whatever
    point the swap fails, with or without backup directory, whether or not the files exist and
    their backups get written, and whether or not the swapped files are the configured ones.
   */
  lemma UndoExactly(fs: Fs, target: Option<string>, cfg: Config, c: Course)
    requires var (cert, key) := ResolvePaths(fs, target, cfg); Separate(cfg, cert, key)
    ensures var (cert, key) := ResolvePaths(fs, target, cfg);
            var b := BackedUp(fs, cfg, cert, key, c.backupCert, c.backupKey);
            var u := AfterUndo(fs, target, cfg, c);
      && (Lookup(u, cert) == Lookup(fs, cert) <==>
            Recovers(Lookup(fs, cert), WrittenBack(b, cfg, cert, key, c, cert),
                     ReplacesCert(b, cfg, c.failure), Lookup(b, StagedForCert(cfg, cert, key))))
      && (Lookup(u, key) == Lookup(fs, key) <==>
            Recovers(Lookup(fs, key), WrittenBack(b, cfg, cert, key, c, key),
                     ReplacesKey(b, cfg, cert, key, c.failure), Lookup(b, cfg.stagedKey)))
  {
    var (cert, key) := ResolvePaths(fs, target, cfg);
    var b := BackedUp(fs, cfg, cert, key, c.backupCert, c.backupKey);
    var g := Swapped(b, cfg, cert, key, c.failure).0;
    BackupsLeaveActiveFiles(fs, cfg, cert, key, c);
    SwapChanges(b, cfg, cert, key, c.failure);
    if cfg.backupDir != "" {
      BackupsSurvive(b, cfg, cert, key, c.failure);
      UndoWritesBack(b, g, cfg, cert, key, c, cert);
      UndoWritesBack(b, g, cfg, cert, key, c, key);
    }
  }

  // ----- what that means ----------------------------------------------------------------------------------

  /** Both resolved files are as before. */
  predicate Undone(fs: Fs, target: Option<string>, cfg: Config, c: Course) {
    var (cert, key) := ResolvePaths(fs, target, cfg);
    var u := AfterUndo(fs, target, cfg, c);
    Lookup(u, cert) == Lookup(fs, cert) && Lookup(u, key) == Lookup(fs, key)
  }

  /** The swap fails before its first rename. */
  predicate FailsEarly(f: Failure) {
    f.TmpCertWrite? || f.TmpKeyWrite? || f == CertRename
  }

  /** Four different contents: old and new, cert and key. */
  predicate FreshPair(fs: Fs, cfg: Config, cert: string, key: string) {
    && cert in fs && key in fs && fs[cert] != fs[key]
    && cfg.stagedCert in fs && cfg.stagedKey in fs
    && fs[cfg.stagedCert] != fs[cert] && fs[cfg.stagedKey] != fs[key]
    && (cfg.backupDir != "" ==>
          && BackupPath(cfg, cert) !in [cfg.stagedCert, cfg.stagedKey]
          && BackupPath(cfg, key) !in [cfg.stagedCert, cfg.stagedKey])
  }

  const SMOOTH := (f: Failure) => Course(Done, Done, f, Done, Done)

  /** Without a backup directory nothing is ever undone: the files survive exactly the early failures. */
  lemma NoBackupDirectoryNoUndo(fs: Fs, target: Option<string>, cfg: Config, c: Course)
    requires var (cert, key) := ResolvePaths(fs, target, cfg);
      Separate(cfg, cert, key) && FreshPair(fs, cfg, cert, key)
    requires cfg.backupDir == ""
    ensures Undone(fs, target, cfg, c) <==> FailsEarly(c.failure)
  {
    UndoExactly(fs, target, cfg, c);
  }

  lemma BackupsHold(fs: Fs, cfg: Config, cert: string, key: string)
    requires Separate(cfg, cert, key) && cert in fs && key in fs && cfg.backupDir != ""
    ensures var b := BackedUp(fs, cfg, cert, key, Done, Done);
      && Lookup(b, BackupPath(cfg, key)) == Some(fs[key])
      && Lookup(b, BackupPath(cfg, cert)) == Some(if Paths.Base(cert) == Paths.Base(key) then fs[key] else fs[cert])
  {
    Paths.BackupsAreSharedByName(cfg.backupDir, cert, key);
  }

  lemma StagedStays(fs: Fs, cfg: Config, cert: string, key: string)
    requires FreshPair(fs, cfg, cert, key)
    ensures var b := BackedUp(fs, cfg, cert, key, Done, Done);
      Lookup(b, cfg.stagedCert) == Lookup(fs, cfg.stagedCert) && Lookup(b, cfg.stagedKey) == Lookup(fs, cfg.stagedKey)
  {}

  /**
    With backups of two different names that got written and restored, undo works exactly when
    the configured files do not cross the swapped ones and every file the swap replaced is the
    configured one: none after an early failure, the cert after a failed second rename, both
    after a completed swap.
   */
  lemma UndoOfGoodBackups(fs: Fs, target: Option<string>, cfg: Config, f: Failure)
    requires var (cert, key) := ResolvePaths(fs, target, cfg);
      Separate(cfg, cert, key) && FreshPair(fs, cfg, cert, key) && Paths.Base(cert) != Paths.Base(key)
    requires cfg.backupDir != ""
    ensures var (cert, key) := ResolvePaths(fs, target, cfg);
      Undone(fs, target, cfg, SMOOTH(f)) <==>
        && cfg.activeKey != cert && (cfg.activeCert == key ==> cfg.activeKey == key)
        && (FailsEarly(f) || (cfg.activeCert == cert && (f == KeyRename || cfg.activeKey == key)))
  {
    var (cert, key) := ResolvePaths(fs, target, cfg);
    UndoExactly(fs, target, cfg, SMOOTH(f));
    BackupsHold(fs, cfg, cert, key);
    StagedStays(fs, cfg, cert, key);
  }

  /**
    With the configured paths and a backup directory, undo restores both files, from every failure
    point, exactly when their names differ or their contents agree: files of one name in two
    directories share a backup, which then holds the key.
   */
  lemma UndoNeedsDistinctNames(fs: Fs, target: Option<string>, cfg: Config, f: Failure)
    requires ResolvePaths(fs, target, cfg) == (cfg.activeCert, cfg.activeKey)
    requires Separate(cfg, cfg.activeCert, cfg.activeKey) && cfg.activeCert in fs && cfg.activeKey in fs
    requires cfg.backupDir != ""
    ensures Undone(fs, target, cfg, SMOOTH(f)) <==>
      Paths.Base(cfg.activeCert) != Paths.Base(cfg.activeKey) || fs[cfg.activeCert] == fs[cfg.activeKey]
  {
    UndoExactly(fs, target, cfg, SMOOTH(f));
    BackupsHold(fs, cfg, cfg.activeCert, cfg.activeKey);
  }

  /** A cert that did not exist is not backed up: undo leaves a stale backup of an earlier run in its place. */
  lemma StaleBackupIsRestored(fs: Fs, target: Option<string>, cfg: Config, f: Failure)
    requires ResolvePaths(fs, target, cfg) == (cfg.activeCert, cfg.activeKey)
    requires Separate(cfg, cfg.activeCert, cfg.activeKey) && cfg.activeCert !in fs
    requires cfg.backupDir != "" && BackupPath(cfg, cfg.activeCert) in fs
    ensures !Undone(fs, target, cfg, SMOOTH(f))
    ensures BackupPath(cfg, cfg.activeCert) != BackupPath(cfg, cfg.activeKey) ==>
      Lookup(AfterUndo(fs, target, cfg, SMOOTH(f)), cfg.activeCert) == Some(fs[BackupPath(cfg, cfg.activeCert)])
  {
    var cert, key := cfg.activeCert, cfg.activeKey;
    UndoExactly(fs, target, cfg, SMOOTH(f));
    var b := BackedUp(fs, cfg, cert, key, Done, Done);
    BackupsSurvive(b, cfg, cert, key, f);
    UndoWritesBack(b, Swapped(b, cfg, cert, key, f).0, cfg, cert, key, SMOOTH(f), cert);
  }

  /** The configured paths end up with what the resolved files held, from every failure point. */
  lemma CompensationGoesToConfiguredPaths(fs: Fs, target: Option<string>, cfg: Config, f: Failure)
    requires var (cert, key) := ResolvePaths(fs, target, cfg);
      Separate(cfg, cert, key) && cert in fs && key in fs && Paths.Base(cert) != Paths.Base(key)
    requires cfg.backupDir != "" && cfg.activeCert != cfg.activeKey
    ensures var (cert, key) := ResolvePaths(fs, target, cfg);
            var u := AfterUndo(fs, target, cfg, SMOOTH(f));
      Lookup(u, cfg.activeCert) == Some(fs[cert]) && Lookup(u, cfg.activeKey) == Some(fs[key])
  {
    var (cert, key) := ResolvePaths(fs, target, cfg);
    var b := BackedUp(fs, cfg, cert, key, Done, Done);
    BackupsHold(fs, cfg, cert, key);
    BackupsSurvive(b, cfg, cert, key, f);
    UndoWritesBack(b, Swapped(b, cfg, cert, key, f).0, cfg, cert, key, SMOOTH(f), cfg.activeCert);
    UndoWritesBack(b, Swapped(b, cfg, cert, key, f).0, cfg, cert, key, SMOOTH(f), cfg.activeKey);
  }

  /** The last characters tell the paths of the default configuration and their backups apart. */
  lemma DefaultsAreSeparate()
    ensures Separate(DEFAULT_CONFIG, GATEWAY_CERT, GATEWAY_KEY)
  {
    var x, y := BackupPath(DEFAULT_CONFIG, GATEWAY_CERT), BackupPath(DEFAULT_CONFIG, GATEWAY_KEY);
    assert x[|x| - 1] == 'k' && y[|y| - 1] == 'k';
    assert GATEWAY_CERT[28] == 't' && PROXY_CERT[33] == 't';
    assert GATEWAY_KEY[30] == 'y' && DEFAULT_CONFIG.activeKey[35] == 'y';
    var p, q := GATEWAY_KEY + ".tmp", GATEWAY_CERT + ".tmp";
    assert p[|p| - 1] == 'p' && q[|q| - 1] == 'p';
  }

  /**
    The default configuration with the gateway as target reaches the failure: after a completed
    swap the gateway's files keep the staged pair, undone or not.
   */
  lemma DefaultConfigurationLosesTheGateway(fs: Fs, c: Course)
    requires GATEWAY_CERT in fs && GATEWAY_KEY in fs && (c.failure == NoFailure || c.failure == ReloadFails)
    requires DEFAULT_CONFIG.stagedCert in fs && fs[DEFAULT_CONFIG.stagedCert] != fs[GATEWAY_CERT]
    requires DEFAULT_CONFIG.stagedKey in fs && fs[DEFAULT_CONFIG.stagedKey] != fs[GATEWAY_KEY]
    ensures ResolvePaths(fs, Some("ai-gateway"), DEFAULT_CONFIG) == (GATEWAY_CERT, GATEWAY_KEY)
    ensures var u := AfterUndo(fs, Some("ai-gateway"), DEFAULT_CONFIG, c);
      Lookup(u, GATEWAY_CERT) != Lookup(fs, GATEWAY_CERT) && Lookup(u, GATEWAY_KEY) != Lookup(fs, GATEWAY_KEY)
  {
    DefaultsAreSeparate();
    UndoExactly(fs, Some("ai-gateway"), DEFAULT_CONFIG, c);
    DefaultStagedStays(fs, c);
    assert |GATEWAY_CERT| != |GATEWAY_KEY| && |GATEWAY_CERT| != |DEFAULT_CONFIG.activeCert| && |GATEWAY_KEY| != |DEFAULT_CONFIG.activeKey|;
    assert |GATEWAY_CERT| != |DEFAULT_CONFIG.activeKey| && |GATEWAY_KEY| != |DEFAULT_CONFIG.activeCert|;
  }

  lemma DefaultStagedStays(fs: Fs, c: Course)
    ensures var b := BackedUp(fs, DEFAULT_CONFIG, GATEWAY_CERT, GATEWAY_KEY, c.backupCert, c.backupKey);
      && Lookup(b, DEFAULT_CONFIG.stagedCert) == Lookup(fs, DEFAULT_CONFIG.stagedCert)
      && Lookup(b, DEFAULT_CONFIG.stagedKey) == Lookup(fs, DEFAULT_CONFIG.stagedKey)
  {
    var x, y := BackupPath(DEFAULT_CONFIG, GATEWAY_CERT), BackupPath(DEFAULT_CONFIG, GATEWAY_KEY);
    assert x[|x| - 1] == 'k' && y[|y| - 1] == 'k';
    assert DEFAULT_CONFIG.stagedCert[|DEFAULT_CONFIG.stagedCert| - 1] == 't';
    assert DEFAULT_CONFIG.stagedKey[|DEFAULT_CONFIG.stagedKey| - 1] == 'y';
  }

  // ----- swaps of other runs in between --------------------------------------------------------------------------

  /** A swap followed at once by its compensating step is the case of nothing in between. */
  lemma NothingInBetween(fs: Fs, target: Option<string>, cfg: Config, c: Course)
    ensures HappenAll(cfg, Shared(fs, "", ""),
      [SwapBy(target, c.backupCert, c.backupKey, c.failure), UndoBy(c.restoreCert, c.restoreKey)]).fs ==
      AfterUndo(fs, target, cfg, c)
  {
    var a, u := SwapBy(target, c.backupCert, c.backupKey, c.failure), UndoBy(c.restoreCert, c.restoreKey);
    var st := Shared(fs, "", "");
    assert [a, u][..1] == [a] && [a][..0] == [];
    assert HappenAll(cfg, st, []) == st;
    assert HappenAll(cfg, st, [a]) == Happen(cfg, st, a);
  }

  predicate OnlyUndos(events: seq<Event>) {
    forall i :: 0 <= i < |events| ==> events[i].UndoBy?
  }

  /** A swap whose backups get written, of two existing files of different names. */
  predicate BacksUp(cfg: Config, st: Shared, e: Event) {
    e.SwapBy? && e.wc == Done && e.wk == Done && cfg.backupDir != "" &&
    var (cert, key) := ResolvePaths(st.fs, e.target, cfg);
    Separate(cfg, cert, key) && cert in st.fs && key in st.fs && Paths.Base(cert) != Paths.Base(key)
  }

  /** The captured paths lead to backups with these contents, and are not configured files. */
  predicate Holds(cfg: Config, st: Shared, cert: string, key: string) {
    && st.backupCert !in ["", cfg.activeCert, cfg.activeKey] && st.backupKey !in ["", cfg.activeCert, cfg.activeKey]
    && Lookup(st.fs, st.backupCert) == Some(cert) && Lookup(st.fs, st.backupKey) == Some(key)
  }

  lemma SwapHolds(cfg: Config, st: Shared, e: Event)
    requires BacksUp(cfg, st, e)
    ensures var (cert, key) := ResolvePaths(st.fs, e.target, cfg);
      Holds(cfg, Happen(cfg, st, e), st.fs[cert], st.fs[key])
  {
    var (cert, key) := ResolvePaths(st.fs, e.target, cfg);
    BackupsHold(st.fs, cfg, cert, key);
    BackupsSurvive(BackedUp(st.fs, cfg, cert, key, Done, Done), cfg, cert, key, e.f);
    BackupPathsAreNotEmpty(cfg, cert);
    BackupPathsAreNotEmpty(cfg, key);
  }

  lemma {:induction false} UndosKeepHolding(cfg: Config, st: Shared, undos: seq<Event>, cert: string, key: string)
    requires Holds(cfg, st, cert, key) && OnlyUndos(undos)
    ensures Holds(cfg, HappenAll(cfg, st, undos), cert, key)
  {
    if undos != [] {
      UndosKeepHolding(cfg, st, undos[..|undos| - 1], cert, key);
    }
  }

  lemma UndoWrites(cfg: Config, st: Shared, cert: string, key: string)
    requires Holds(cfg, st, cert, key) && cfg.activeCert != cfg.activeKey
    ensures var u := Happen(cfg, st, UndoBy(Done, Done)).fs;
      Lookup(u, cfg.activeCert) == Some(cert) && Lookup(u, cfg.activeKey) == Some(key)
  {}

  lemma {:induction false} HappenConcat(cfg: Config, st: Shared, a: seq<Event>, b: seq<Event>)
    ensures HappenAll(cfg, st, a + b) == HappenAll(cfg, HappenAll(cfg, st, a), b)
  {
    if b == [] {
      assert a + b == a;
    } else {
      assert (a + b)[..|a + b| - 1] == a + b[..|b| - 1];
      HappenConcat(cfg, st, a, b[..|b| - 1]);
    }
  }

  /**
    Whatever has happened before, by whatever runs: a compensating step writes to the configured
    paths what the resolved files of the last swap held just before it, whoever made that swap.
    So a run is undone exactly when these are the contents it found itself.
   */
  lemma TheLastSwapDecides(cfg: Config, st: Shared, before: seq<Event>, swap: Event, undos: seq<Event>)
    requires BacksUp(cfg, HappenAll(cfg, st, before), swap) && OnlyUndos(undos) && cfg.activeCert != cfg.activeKey
    ensures var then' := HappenAll(cfg, st, before).fs;
            var (cert, key) := ResolvePaths(then', swap.target, cfg);
            var u := HappenAll(cfg, st, before + ([swap] + undos) + [UndoBy(Done, Done)]).fs;
      && Lookup(u, cfg.activeCert) == Some(then'[cert]) && Lookup(u, cfg.activeKey) == Some(then'[key])
      && (Lookup(u, cfg.activeCert) == Lookup(st.fs, cfg.activeCert) && Lookup(u, cfg.activeKey) == Lookup(st.fs, cfg.activeKey)
          <==> Lookup(st.fs, cfg.activeCert) == Some(then'[cert]) && Lookup(st.fs, cfg.activeKey) == Some(then'[key]))
  {
    var earlier := HappenAll(cfg, st, before);
    var (cert, key) := ResolvePaths(earlier.fs, swap.target, cfg);
    SwapHolds(cfg, earlier, swap);
    SwapThenUndos(cfg, earlier, swap, undos);
    UndosKeepHolding(cfg, Happen(cfg, earlier, swap), undos, earlier.fs[cert], earlier.fs[key]);
    HappenConcat(cfg, st, before, [swap] + undos);
    var last := HappenAll(cfg, st, before + ([swap] + undos));
    UndoWrites(cfg, last, earlier.fs[cert], earlier.fs[key]);
    OneMore(cfg, st, before + ([swap] + undos), UndoBy(Done, Done));
  }

  lemma OneMore(cfg: Config, st: Shared, events: seq<Event>, e: Event)
    ensures HappenAll(cfg, st, events + [e]) == Happen(cfg, HappenAll(cfg, st, events), e)
  {
    assert (events + [e])[..|events|] == events;
  }

  lemma SwapThenUndos(cfg: Config, st: Shared, swap: Event, undos: seq<Event>)
    ensures HappenAll(cfg, st, [swap] + undos) == HappenAll(cfg, Happen(cfg, st, swap), undos)
  {
    HappenConcat(cfg, st, [swap], undos);
    OneMore(cfg, st, [], swap);
    assert [] + [swap] == [swap];
  }

  // ----- with fresh contents: no swap in between --------------------------------------------------------------------

  /** A swap of `cert` and `key` does not meet the file `p`. */
  predicate Off(p: string, cert: string, key: string) {
    p != cert && p != key && p != cert + ".tmp" && p != key + ".tmp"
  }

  /** A swap of `cert` and `key` meets neither the other cert, if that is another, nor the staged files and the cert backups. */
  predicate Spread(cfg: Config, gateway: string, cert: string, key: string, other: string) {
    && cert != key && cert != key + ".tmp" && key != cert + ".tmp" && (other == cert || Off(other, cert, key))
    && Off(cfg.stagedCert, cert, key) && Off(cfg.stagedKey, cert, key)
    && Off(BackupPath(cfg, cfg.activeCert), cert, key) && Off(BackupPath(cfg, gateway), cert, key)
    && BackupPath(cfg, cert) !in [cfg.activeCert, cfg.activeKey, gateway, cfg.stagedCert, cfg.stagedKey]
    && BackupPath(cfg, key) !in [cfg.activeCert, cfg.activeKey, gateway, cfg.stagedCert, cfg.stagedKey]
    && BackupPath(cfg, key) != BackupPath(cfg, cfg.activeCert) && BackupPath(cfg, key) != BackupPath(cfg, gateway)
    && key != BackupPath(cfg, cert) && key != BackupPath(cfg, key)
  }

  /** The two pairs of files that swaps of this runbook can be about do not get in each other's way. */
  predicate Apart(cfg: Config) {
    && Spread(cfg, GATEWAY_CERT, cfg.activeCert, cfg.activeKey, GATEWAY_CERT)
    && Spread(cfg, GATEWAY_CERT, GATEWAY_CERT, GATEWAY_KEY, cfg.activeCert)
    && (BackupPath(cfg, cfg.activeCert) == BackupPath(cfg, GATEWAY_CERT) ==> cfg.activeCert == GATEWAY_CERT)
  }

  /** A swap whose backups get written where there is something to back up. */
  predicate WritesBackups(e: Event) {
    e.SwapBy? && e.wc == Done && e.wk == Done
  }

  /** None of the places a swap can take a cert from, or put one, holds `old`; the configured cert is there. */
  predicate Forgotten(cfg: Config, fs: Fs, old': string) {
    && cfg.activeCert in fs
    && Lookup(fs, cfg.activeCert) != Some(old') && Lookup(fs, cfg.stagedCert) != Some(old')
    && (GATEWAY_CERT != cfg.activeCert ==>
          Lookup(fs, GATEWAY_CERT) != Some(old') && Lookup(fs, BackupPath(cfg, GATEWAY_CERT)) != Some(old'))
  }

  /** What a swap of either pair does to the four places and to the backup of its cert. */
  lemma SwapForgets(cfg: Config, fs: Fs, cert: string, key: string, f: Failure, old': string)
    requires cfg.backupDir != "" && Apart(cfg) && Forgotten(cfg, fs, old')
    requires (cert, key) == (cfg.activeCert, cfg.activeKey) || (cert, key) == (GATEWAY_CERT, GATEWAY_KEY)
    ensures var g := Swapped(BackedUp(fs, cfg, cert, key, Done, Done), cfg, cert, key, f).0;
      Forgotten(cfg, g, old') && Lookup(g, BackupPath(cfg, cert)) != Some(old')
  {
    var b := BackedUp(fs, cfg, cert, key, Done, Done);
    BackupsForget(cfg, fs, cert, key, old');
    SwapChanges(b, cfg, cert, key, f);
    if GATEWAY_CERT != cert {
      SwapLeavesOthersAlone(b, cfg, cert, key, f, GATEWAY_CERT);
    } else if cfg.activeCert != cert {
      SwapLeavesOthersAlone(b, cfg, cert, key, f, cfg.activeCert);
    }
    SwapLeavesOthersAlone(b, cfg, cert, key, f, BackupPath(cfg, GATEWAY_CERT));
    SwapLeavesOthersAlone(b, cfg, cert, key, f, BackupPath(cfg, cfg.activeCert));
    SwapLeavesOthersAlone(b, cfg, cert, key, f, cfg.stagedCert);
  }

  lemma BackupsForget(cfg: Config, fs: Fs, cert: string, key: string, old': string)
    requires cfg.backupDir != "" && Apart(cfg) && Forgotten(cfg, fs, old')
    requires (cert, key) == (cfg.activeCert, cfg.activeKey) || (cert, key) == (GATEWAY_CERT, GATEWAY_KEY)
    ensures var b := BackedUp(fs, cfg, cert, key, Done, Done);
      && Forgotten(cfg, b, old') && Lookup(b, BackupPath(cfg, cert)) != Some(old')
      && Lookup(b, cfg.stagedCert) == Lookup(fs, cfg.stagedCert)
  {
  }

  /** The captured path no longer leads to a backup with the contents `old'`. */
  predicate Lost(cfg: Config, st: Shared, old': string) {
    && Forgotten(cfg, st.fs, old') && st.backupCert in [BackupPath(cfg, cfg.activeCert), BackupPath(cfg, GATEWAY_CERT)]
    && Lookup(st.fs, st.backupCert) != Some(old')
  }

  lemma SwapLoses(cfg: Config, st: Shared, e: Event, old': string)
    requires cfg.backupDir != "" && Apart(cfg) && WritesBackups(e) && Forgotten(cfg, st.fs, old')
    ensures Lost(cfg, Happen(cfg, st, e), old')
  {
    var (cert, key) := ResolvePaths(st.fs, e.target, cfg);
    SwapForgets(cfg, st.fs, cert, key, e.f, old');
  }

  lemma {:induction false} SwapsLose(cfg: Config, st: Shared, swaps: seq<Event>, old': string)
    requires cfg.backupDir != "" && Apart(cfg) && Forgotten(cfg, st.fs, old')
    requires swaps != [] && forall i :: 0 <= i < |swaps| ==> WritesBackups(swaps[i])
    ensures Lost(cfg, HappenAll(cfg, st, swaps), old')
  {
    var n := |swaps| - 1;
    LastHappens(cfg, st, swaps);
    if n > 0 {
      SwapsLose(cfg, st, swaps[..n], old');
      LostIsForgotten(cfg, HappenAll(cfg, st, swaps[..n]), old');
    }
    SwapLoses(cfg, HappenAll(cfg, st, swaps[..n]), swaps[n], old');
  }

  lemma LastHappens(cfg: Config, st: Shared, events: seq<Event>)
    requires events != []
    ensures var n := |events| - 1;
      && HappenAll(cfg, st, events) == Happen(cfg, HappenAll(cfg, st, events[..n]), events[n])
      && (n == 0 ==> HappenAll(cfg, st, events[..n]) == st)
  {}

  lemma LostIsForgotten(cfg: Config, st: Shared, old': string)
    requires Lost(cfg, st, old')
    ensures Forgotten(cfg, st.fs, old')
  {}

  lemma LostIsNotRestored(cfg: Config, st: Shared, old': string)
    requires cfg.backupDir != "" && Apart(cfg) && Lost(cfg, st, old')
    ensures Lookup(Happen(cfg, st, UndoBy(Done, Done)).fs, cfg.activeCert) != Some(old')
  {
  }

  /** The contents are fresh: nothing else a swap can meet holds what the configured cert holds. */
  predicate FreshCert(cfg: Config, fs: Fs) {
    && cfg.activeCert in fs && cfg.activeKey in fs && cfg.stagedCert in fs && cfg.stagedKey in fs
    && fs[cfg.stagedCert] != fs[cfg.activeCert]
    && (GATEWAY_CERT != cfg.activeCert ==>
          && Lookup(fs, GATEWAY_CERT) != Some(fs[cfg.activeCert])
          && Lookup(fs, BackupPath(cfg, GATEWAY_CERT)) != Some(fs[cfg.activeCert]))
  }

  lemma FirstSwapForgets(cfg: Config, fs: Fs, f: Failure)
    requires cfg.backupDir != "" && Apart(cfg) && FreshCert(cfg, fs)
    requires f == KeyRename || f == NoFailure || f == ReloadFails
    ensures var g := Swapped(BackedUp(fs, cfg, cfg.activeCert, cfg.activeKey, Done, Done), cfg, cfg.activeCert, cfg.activeKey, f).0;
      Forgotten(cfg, g, fs[cfg.activeCert])
  {
    var cert, key := cfg.activeCert, cfg.activeKey;
    var b := BackedUp(fs, cfg, cert, key, Done, Done);
    assert Lookup(b, cfg.stagedCert) == Lookup(fs, cfg.stagedCert) && Lookup(b, cfg.stagedKey) == Lookup(fs, cfg.stagedKey);
    SwapChanges(b, cfg, cert, key, f);
    if GATEWAY_CERT != cert {
      SwapLeavesOthersAlone(b, cfg, cert, key, f, GATEWAY_CERT);
    }
    SwapLeavesOthersAlone(b, cfg, cert, key, f, BackupPath(cfg, GATEWAY_CERT));
    SwapLeavesOthersAlone(b, cfg, cert, key, f, cfg.stagedCert);
  }

  /**
    A run that replaced the configured cert is undone exactly when no run has swapped in between:
    with fresh contents, every swap in between, of whichever files and however it ended, makes the
    compensating step write something else.
   */
  lemma UndoneExactlyWithoutSwapsInBetween(
    cfg: Config, st: Shared, target: Option<string>, f: Failure, swaps: seq<Event>)
    requires cfg.backupDir != "" && Apart(cfg) && FreshCert(cfg, st.fs)
    requires ResolvePaths(st.fs, target, cfg) == (cfg.activeCert, cfg.activeKey)
    requires f == KeyRename || f == NoFailure || f == ReloadFails
    requires forall i :: 0 <= i < |swaps| ==> WritesBackups(swaps[i])
    ensures var u := HappenAll(cfg, st, [SwapBy(target, Done, Done, f)] + swaps + [UndoBy(Done, Done)]).fs;
      (Lookup(u, cfg.activeCert) == Lookup(st.fs, cfg.activeCert) && Lookup(u, cfg.activeKey) == Lookup(st.fs, cfg.activeKey))
      <==> swaps == []
  {
    var swap := SwapBy(target, Done, Done, f);
    OneMore(cfg, st, [swap] + swaps, UndoBy(Done, Done));
    SwapThenUndos(cfg, st, swap, swaps);
    if swaps == [] {
      ConfiguredBacksUp(cfg, st, swap);
      TheLastSwapDecides(cfg, st, [], swap, []);
      assert [] + ([swap] + []) + [UndoBy(Done, Done)] == [swap] + swaps + [UndoBy(Done, Done)];
    } else {
      FirstSwapForgets(cfg, st.fs, f);
      SwapsLose(cfg, Happen(cfg, st, swap), swaps, st.fs[cfg.activeCert]);
      LostIsNotRestored(cfg, HappenAll(cfg, st, [swap] + swaps), st.fs[cfg.activeCert]);
    }
  }

  lemma ConfiguredBacksUp(cfg: Config, st: Shared, swap: Event)
    requires cfg.backupDir != "" && Apart(cfg) && FreshCert(cfg, st.fs) && WritesBackups(swap)
    requires ResolvePaths(st.fs, swap.target, cfg) == (cfg.activeCert, cfg.activeKey)
    ensures BacksUp(cfg, st, swap)
  {
    Paths.BackupsAreSharedByName(cfg.backupDir, cfg.activeCert, cfg.activeKey);
  }

  // ----- two alerts under the default configuration -----------------------------------------------------------------

  predicate Ends(p: string, c: char) {
    p != "" && p[|p| - 1] == c
  }

  lemma BackupsAndTemporaries(cfg: Config, path: string)
    ensures Ends(BackupPath(cfg, path), 'k') && Ends(path + ".tmp", 'p')
  {}

  lemma NamesOfDifferentEnds(cfg: Config, p: string, q: string)
    requires Ends(p, 't') && Ends(q, 'y')
    ensures BackupPath(cfg, q) != BackupPath(cfg, p)
  {
    Paths.EndOfBase(p, 0);
    Paths.EndOfBase(q, 0);
    Paths.BackupsAreSharedByName(cfg.backupDir, q, p);
  }

  /** Certs end in `t`, keys in `y`, backups in `k` and temporary files in `p`. */
  lemma EndsSpread(cfg: Config, gateway: string, cert: string, key: string, other: string)
    requires Ends(cert, 't') && Ends(other, 't') && Ends(gateway, 't') && Ends(cfg.activeCert, 't') && Ends(cfg.stagedCert, 't')
    requires Ends(key, 'y') && Ends(cfg.activeKey, 'y') && Ends(cfg.stagedKey, 'y')
    requires cert != cfg.stagedCert && key != cfg.stagedKey
    ensures Spread(cfg, gateway, cert, key, other)
  {
    OffByEnds(cert, key);
    BackupOffByEnds(cfg, cfg.activeCert, cert, key);
    BackupOffByEnds(cfg, gateway, cert, key);
    BackupIsNoneOf(cfg, cert, [cfg.activeCert, cfg.activeKey, gateway, cfg.stagedCert, cfg.stagedKey, key]);
    BackupIsNoneOf(cfg, key, [cfg.activeCert, cfg.activeKey, gateway, cfg.stagedCert, cfg.stagedKey, key]);
    NamesOfDifferentEnds(cfg, cfg.activeCert, key);
    NamesOfDifferentEnds(cfg, gateway, key);
  }

  lemma OffByEnds(cert: string, key: string)
    requires Ends(cert, 't') && Ends(key, 'y')
    ensures cert != key && cert != key + ".tmp" && key != cert + ".tmp"
    ensures forall p :: Ends(p, 't') && p != cert ==> Off(p, cert, key)
    ensures forall p :: Ends(p, 'y') && p != key ==> Off(p, cert, key)
  {
    assert Ends(cert + ".tmp", 'p') && Ends(key + ".tmp", 'p');
  }

  lemma BackupOffByEnds(cfg: Config, path: string, cert: string, key: string)
    requires Ends(cert, 't') && Ends(key, 'y')
    ensures Off(BackupPath(cfg, path), cert, key)
  {
    BackupsAndTemporaries(cfg, path);
    assert Ends(cert + ".tmp", 'p') && Ends(key + ".tmp", 'p');
  }

  lemma BackupIsNoneOf(cfg: Config, path: string, ps: seq<string>)
    requires forall p :: p in ps ==> Ends(p, 't') || Ends(p, 'y')
    ensures BackupPath(cfg, path) !in ps
  {
    BackupsAndTemporaries(cfg, path);
  }

  lemma DefaultCertEnds()
    ensures Ends(PROXY_CERT, 't') && Ends(DEFAULT_CONFIG.stagedCert, 't') && PROXY_CERT != DEFAULT_CONFIG.stagedCert
  {
    var a, b := PROXY_CERT, DEFAULT_CONFIG.stagedCert;
    assert a[33] == 't' && b[46] == 't' && |a| == 34 && |b| == 47;
  }

  lemma DefaultKeyEnds()
    ensures Ends(DEFAULT_CONFIG.activeKey, 'y') && Ends(DEFAULT_CONFIG.stagedKey, 'y')
    ensures DEFAULT_CONFIG.activeKey != DEFAULT_CONFIG.stagedKey && GATEWAY_KEY != DEFAULT_CONFIG.stagedKey
  {
    var a, b := DEFAULT_CONFIG.activeKey, DEFAULT_CONFIG.stagedKey;
    assert a[35] == 'y' && b[46] == 'y' && |a| == 36 && |b| == 47 && |GATEWAY_KEY| == 31;
  }

  lemma GatewayEnds()
    ensures Ends(GATEWAY_CERT, 't') && Ends(GATEWAY_KEY, 'y') && GATEWAY_CERT != DEFAULT_CONFIG.stagedCert
  {
    var a, b := GATEWAY_CERT, GATEWAY_KEY;
    assert a[28] == 't' && b[30] == 'y' && |a| == 29 && |b| == 31 && |DEFAULT_CONFIG.stagedCert| == 47;
  }

  /** The default configuration is an example. */
  lemma DefaultIsApart()
    ensures Apart(DEFAULT_CONFIG)
  {
    DefaultCertEnds();
    DefaultKeyEnds();
    GatewayEnds();
    EndsSpread(DEFAULT_CONFIG, GATEWAY_CERT, PROXY_CERT, DEFAULT_CONFIG.activeKey, GATEWAY_CERT);
    EndsSpread(DEFAULT_CONFIG, GATEWAY_CERT, GATEWAY_CERT, GATEWAY_KEY, PROXY_CERT);
    NamesDiffer(PROXY_CERT, GATEWAY_CERT);
  }

  /** The names of the two certs differ in their sixth character from the end. */
  lemma NamesDiffer(a: string, b: string)
    requires a == PROXY_CERT && b == GATEWAY_CERT
    ensures BackupPath(DEFAULT_CONFIG, a) != BackupPath(DEFAULT_CONFIG, b)
  {
    assert a[28] == 'x' && a[29] == 'y' && a[30] == '.' && a[31] == 'c' && a[32] == 'r' && a[33] == 't';
    assert b[23] == 'a' && b[24] == 'y' && b[25] == '.' && b[26] == 'c' && b[27] == 'r' && b[28] == 't';
    Paths.EndOfBase(a, 5);
    Paths.EndOfBase(b, 5);
    Paths.BackupsAreSharedByName(DEFAULT_CONFIG.backupDir, a, b);
  }

  /**
    Two alerts on the default runbook: the proxy's swap, the gateway's swap, then the undoing of
    the first.  The proxy, whose paths are the configured ones, ends up with the certificate and
    key of the gateway.
   */
  lemma TheProxyGetsTheGatewaysFiles(st: Shared, f: Failure, f': Failure)
    requires DEFAULT_CONFIG.activeCert in st.fs && DEFAULT_CONFIG.activeKey in st.fs
    requires GATEWAY_CERT in st.fs && GATEWAY_KEY in st.fs
    ensures var proxy := SwapBy(Some("ai-security-guardrail-proxy"), Done, Done, f);
            var gateway := SwapBy(Some("ai-gateway"), Done, Done, f');
            var u := HappenAll(DEFAULT_CONFIG, st, [proxy] + ([gateway] + []) + [UndoBy(Done, Done)]).fs;
      && ResolvePaths(st.fs, proxy.target, DEFAULT_CONFIG) == (DEFAULT_CONFIG.activeCert, DEFAULT_CONFIG.activeKey)
      && Lookup(u, DEFAULT_CONFIG.activeCert) == Some(st.fs[GATEWAY_CERT])
      && Lookup(u, DEFAULT_CONFIG.activeKey) == Some(st.fs[GATEWAY_KEY])
  {
    var proxy := SwapBy(Some("ai-security-guardrail-proxy"), Done, Done, f);
    var gateway := SwapBy(Some("ai-gateway"), Done, Done, f');
    ProxySwapLeavesGateway(st, proxy);
    DefaultsAreSeparate();
    Paths.EndOfBase(GATEWAY_CERT, 0);
    Paths.EndOfBase(GATEWAY_KEY, 0);
    assert GATEWAY_CERT[|GATEWAY_CERT| - 1] == 't' && GATEWAY_KEY[|GATEWAY_KEY| - 1] == 'y';
    assert |DEFAULT_CONFIG.activeCert| != |DEFAULT_CONFIG.activeKey|;
    TheLastSwapDecides(DEFAULT_CONFIG, st, [proxy], gateway, []);
  }

  lemma ProxySwapLeavesGateway(st: Shared, proxy: Event)
    requires proxy.SwapBy? && proxy.target == Some("ai-security-guardrail-proxy") && proxy.wc == Done && proxy.wk == Done
    requires GATEWAY_CERT in st.fs && GATEWAY_KEY in st.fs
    ensures ResolvePaths(st.fs, proxy.target, DEFAULT_CONFIG) == (DEFAULT_CONFIG.activeCert, DEFAULT_CONFIG.activeKey)
    ensures var t := HappenAll(DEFAULT_CONFIG, st, [proxy]).fs;
      Lookup(t, GATEWAY_CERT) == Lookup(st.fs, GATEWAY_CERT) && Lookup(t, GATEWAY_KEY) == Lookup(st.fs, GATEWAY_KEY)
  {
    var cfg := DEFAULT_CONFIG;
    assert "ai-security-guardrail-proxy" != "ai-gateway" by {
      assert |"ai-security-guardrail-proxy"| != |"ai-gateway"|;
    }
    assert [proxy][..0] == [] && HappenAll(cfg, st, []) == st;
    assert HappenAll(cfg, st, [proxy]) == Happen(cfg, st, proxy);
    var x, y := BackupPath(cfg, cfg.activeCert), BackupPath(cfg, cfg.activeKey);
    assert x[|x| - 1] == 'k' && y[|y| - 1] == 'k';
    assert GATEWAY_CERT[28] == 't' && GATEWAY_KEY[30] == 'y';
    var b := BackedUp(st.fs, cfg, cfg.activeCert, cfg.activeKey, Done, Done);
    var p, q := cfg.activeCert + ".tmp", cfg.activeKey + ".tmp";
    assert p[|p| - 1] == 'p' && q[|q| - 1] == 'p';
    assert |GATEWAY_CERT| != |cfg.activeCert| && |GATEWAY_CERT| != |cfg.activeKey|;
    assert |GATEWAY_KEY| != |cfg.activeCert| && |GATEWAY_KEY| != |cfg.activeKey|;
    SwapLeavesOthersAlone(b, cfg, cfg.activeCert, cfg.activeKey, proxy.f, GATEWAY_CERT);
    SwapLeavesOthersAlone(b, cfg, cfg.activeCert, cfg.activeKey, proxy.f, GATEWAY_KEY);
  }
}
