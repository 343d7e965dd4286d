/**
  The hash-chained audit ledger of `internal/audit`.

  Text and digests are byte strings, one character per byte.  The digest (hexadecimal SHA-256)
  is a parameter: an arbitrary function with 64-character results.  Nothing assumes that it has
  no collisions.  A log file is a list of lines, each blank, unparsable, or a record; the last
  line may lack its newline.
 */
module Audit {

  type Bytes = string
  type Digest = Bytes -> Bytes

  const UINT64 := 0x1_0000_0000_0000_0000
  const GENESIS_SALT := "REMEDIATION_GENESIS_2026"
  const DEFAULT_HOST := "localhost-arm64"

  ghost predicate IsDigest(h: Digest) {
    forall x :: |h(x)| == 64
  }

  /** What the caller of `Append` supplies, and the time of the call. */
  datatype Fields = Fields(timestamp: Bytes, resourceID: Bytes, runbookID: Bytes, state: Bytes, payloadDigest: Bytes)

  datatype Entry = Entry(number: nat, hostUUID: Bytes, fields: Fields, prevHash: Bytes, hash: Bytes)

  datatype Line = Blank | Garbage | Record(entry: Entry)

  /** Byte `j` of `n`, counting from the least significant. */
  function ByteOf(n: nat, j: nat): char
    decreases j
  {
    if j == 0 then (n % 256) as char else ByteOf(n / 256, j - 1)
  }

  /** The `k` low-order bytes of `n`, most significant first. */
  function BigEndian(n: nat, k: nat): Bytes {
    seq(k, i requires 0 <= i < k => ByteOf(n, k - 1 - i))
  }

  /** The fields that are hashed after the chain pointer and the number. */
  function Body(f: Fields): Bytes {
    f.timestamp + f.resourceID + f.state + f.runbookID + f.payloadDigest
  }

  function Preimage(prevHash: Bytes, number: nat, f: Fields): Bytes {
    prevHash + BigEndian(number, 8) + Body(f)
  }

  /** The hashed text: the pointer, the eight bytes of the number, and the fields. */
  lemma PreimageLayout(prevHash: Bytes, number: nat, f: Fields)
    ensures var (x, a) := (Preimage(prevHash, number, f), |prevHash|);
      |x| == a + 8 + |Body(f)| && x[..a] == prevHash && x[a..a + 8] == BigEndian(number, 8) && x[a + 8..] == Body(f)
  {
    Parts(prevHash, BigEndian(number, 8), Body(f));
  }

  /** The fields, in this order: timestamp, resource, state, runbook, payload digest. */
  lemma BodyLayout(f: Fields)
    ensures var x := Body(f);
            var a := |f.timestamp|;
            var b := a + |f.resourceID|;
            var c := b + |f.state|;
            var d := c + |f.runbookID|;
      && |x| == d + |f.payloadDigest|
      && x[..a] == f.timestamp && x[a..b] == f.resourceID && x[b..c] == f.state
      && x[c..d] == f.runbookID && x[d..] == f.payloadDigest
  {
    Parts(f.timestamp, f.resourceID, f.state);
    Parts(f.timestamp + f.resourceID + f.state, f.runbookID, f.payloadDigest);
    FrontOfFront(f.timestamp + f.resourceID + f.state, f.runbookID + f.payloadDigest, |f.timestamp|, |f.timestamp| + |f.resourceID|);
    assert Body(f) == (f.timestamp + f.resourceID + f.state) + (f.runbookID + f.payloadDigest);
  }

  lemma FrontOfFront(x: Bytes, y: Bytes, a: nat, b: nat)
    requires a <= b <= |x|
    ensures (x + y)[..a] == x[..a] && (x + y)[a..b] == x[a..b] && (x + y)[b..|x|] == x[b..]
  {}

  lemma Parts(a: Bytes, b: Bytes, c: Bytes)
    ensures var x := a + b + c;
      x[..|a|] == a && x[|a|..|a| + |b|] == b && x[|a| + |b|..] == c
  {}

  function RecordHash(h: Digest, prevHash: Bytes, number: nat, f: Fields): Bytes {
    h(Preimage(prevHash, number, f))
  }

  function GenesisHash(h: Digest, hostUUID: Bytes, bootInfo: Bytes): Bytes {
    h(GENESIS_SALT + hostUUID + bootInfo)
  }

  function HostOf(hostUUID: Bytes): Bytes {
    if hostUUID == "" then DEFAULT_HOST else hostUUID
  }

  /** The number after `n`, as a 64-bit counter. */
  function Succ(n: nat): nat {
    if n + 1 == UINT64 then 0 else n + 1
  }

  /** The value of a 64-bit counter after `i` increments. */
  function Counter(i: nat): nat {
    if i == 0 then 0 else Succ(Counter(i - 1))
  }

  lemma {:induction false} CounterCounts(i: nat)
    ensures Counter(i) == i % 0x1_0000_0000_0000_0000
  {
    if i > 0 {
      CounterCounts(i - 1);
    }
  }

  /** The records of a file, blank lines left out. */
  function Records(lines: seq<Line>): seq<Entry> {
    if lines == [] then []
    else
      var n := |lines| - 1;
      Records(lines[..n]) + (if lines[n].Record? then [lines[n].entry] else [])
  }

  predicate Parses(lines: seq<Line>) {
    forall i :: 0 <= i < |lines| ==> !lines[i].Garbage?
  }

  /** Record `i` carries its number, points at its predecessor and is hashed correctly. */
  predicate Linked(h: Digest, log: seq<Entry>, i: nat)
    requires i < |log|
  {
    && log[i].number == Counter(i)
    && (Counter(i) != 0 ==> log[i].prevHash == log[i - 1].hash)
    && log[i].hash == RecordHash(h, log[i].prevHash, log[i].number, log[i].fields)
  }

  /** The log is an unbroken chain. */
  predicate Chained(h: Digest, log: seq<Entry>) {
    forall i: nat :: i < |log| ==> Linked(h, log, i)
  }

  // ----- verification -------------------------------------------------------------------------------

  datatype Verification = Rejected | Valid(total: nat, genesis: Bytes, tail: Bytes)

  lemma ChainedPrefix(h: Digest, log: seq<Entry>, more: seq<Entry>)
    requires Chained(h, log + more)
    ensures Chained(h, log)
  {
    forall i: nat | i < |log| ensures Linked(h, log, i) {
      assert Linked(h, log + more, i);
    }
  }

  lemma ChainedGrows(h: Digest, log: seq<Entry>, e: Entry)
    requires Chained(h, log)
    ensures Chained(h, log + [e]) <==> Linked(h, log + [e], |log|)
  {
    if Linked(h, log + [e], |log|) {
      forall i: nat | i < |log| + 1 ensures Linked(h, log + [e], i) {
        if i < |log| {
          assert Linked(h, log, i);
        }
      }
    }
  }

  lemma {:induction false} RecordsSplit(a: seq<Line>, b: seq<Line>)
    ensures Records(a + b) == Records(a) + Records(b)
  {
    if b == [] {
      assert a + b == a;
    } else {
      assert (a + b)[..|a + b| - 1] == a + b[..|b| - 1];
      RecordsSplit(a, b[..|b| - 1]);
    }
  }

  /** What the verifier accepts; see `VerifyLedgerReader`. */
  predicate Accepted(h: Digest, lines: seq<Line>) {
    Parses(lines) && Chained(h, Records(lines))
  }

  /** A bad record or an unparsable line is not repaired by what follows it. */
  lemma RejectionIsFinal(h: Digest, lines: seq<Line>, i: nat)
    requires i <= |lines| && !Accepted(h, lines[..i])
    ensures !Accepted(h, lines)
  {
    assert lines == lines[..i] + lines[i..];
    RecordsSplit(lines[..i], lines[i..]);
    if Chained(h, Records(lines)) {
      ChainedPrefix(h, Records(lines[..i]), Records(lines[i..]));
    }
  }

  /** What the verifier knows after the records `log`. */
  predicate Scanned(h: Digest, log: seq<Entry>, expectedSeq: nat, first: Bytes, last: Bytes) {
    && Chained(h, log) && expectedSeq == Counter(|log|)
    && last == (if log == [] then "" else log[|log| - 1].hash)
    && (|log| <= UINT64 ==> first == if log == [] then "" else log[0].prevHash)
  }

  /** The three checks on a record decide whether the chain goes on. */
  lemma ScanStep(h: Digest, log: seq<Entry>, rec: Entry, expectedSeq: nat, first: Bytes, last: Bytes)
    requires Scanned(h, log, expectedSeq, first, last)
    ensures Chained(h, log + [rec]) <==>
      && rec.number == expectedSeq
      && (expectedSeq != 0 ==> rec.prevHash == last)
      && RecordHash(h, rec.prevHash, rec.number, rec.fields) == rec.hash
    ensures Chained(h, log + [rec]) ==>
      Scanned(h, log + [rec], Succ(expectedSeq), if expectedSeq == 0 then rec.prevHash else first, rec.hash)
  {
    ChainedGrows(h, log, rec);
    if |log| < UINT64 {
      CounterCounts(|log|);
    }
    assert log != [] ==> (log + [rec])[|log| - 1] == log[|log| - 1] && (log + [rec])[0] == log[0];
  }

  /** A log is accepted exactly when every line parses and the records form an unbroken chain. */
  method VerifyLedgerReader(h: Digest, lines: seq<Line>) returns (r: Verification)
    ensures r.Valid? <==> Accepted(h, lines)
    ensures r.Valid? ==>
      var log := Records(lines);
      && r.total == |log| % 0x1_0000_0000_0000_0000
      && r.tail == (if log == [] then "" else log[|log| - 1].hash)
      && (|log| <= 0x1_0000_0000_0000_0000 ==> r.genesis == if log == [] then "" else log[0].prevHash)
  {
    var expectedPrevHash: Bytes := "";
    var expectedSeq := 0;
    var firstPrevHash: Bytes := "";
    var lastHash: Bytes := "";

    var i := 0;
    while i < |lines|
      invariant 0 <= i <= |lines| && Parses(lines[..i])
      invariant Scanned(h, Records(lines[..i]), expectedSeq, firstPrevHash, lastHash)
      invariant expectedPrevHash == lastHash
    {
      ghost var log := Records(lines[..i]);
      assert lines[..i + 1][..i] == lines[..i];
      i := i + 1;
      if lines[i - 1].Blank? {
        assert Records(lines[..i]) == log;
        continue;
      }
      if lines[i - 1].Garbage? {
        assert lines[..i][i - 1].Garbage?;
        RejectionIsFinal(h, lines, i);
        return Rejected;
      }
      var rec := lines[i - 1].entry;
      assert Records(lines[..i]) == log + [rec];
      ScanStep(h, log, rec, expectedSeq, firstPrevHash, lastHash);
      if rec.number != expectedSeq {
        RejectionIsFinal(h, lines, i);
        return Rejected;
      }
      if expectedSeq == 0 {
        firstPrevHash := rec.prevHash;
      } else if rec.prevHash != expectedPrevHash {
        RejectionIsFinal(h, lines, i);
        return Rejected;
      }
      var computed := RecordHash(h, rec.prevHash, rec.number, rec.fields);
      if computed != rec.hash {
        RejectionIsFinal(h, lines, i);
        return Rejected;
      }
      expectedPrevHash := rec.hash;
      lastHash := rec.hash;
      expectedSeq := Succ(expectedSeq);
    }
    assert lines[..i] == lines;
    CounterCounts(|Records(lines)|);
    return Valid(expectedSeq, firstPrevHash, lastHash);
  }

  // ----- the ledger object ----------------------------------------------------------------------------

  /** Where a ledger opened on `log` stands: the hash to chain to, and the next number. */
  function TailHash(h: Digest, hostUUID: Bytes, log: seq<Entry>): Bytes {
    if log == [] then GenesisHash(h, hostUUID, "INIT") else log[|log| - 1].hash
  }

  function TailNumber(log: seq<Entry>): nat {
    if log == [] then 0 else Succ(log[|log| - 1].number)
  }

  function NewEntry(h: Digest, hostUUID: Bytes, prevHash: Bytes, number: nat, f: Fields): Entry {
    Entry(number, hostUUID, f, prevHash, RecordHash(h, prevHash, number, f))
  }

  /**
    How the operating system answers an append: the write and the sync succeed, nothing is
    written, only the sync fails, or the write is cut short, at its newline (`whole`) or inside
    the record.
   */
  datatype Io = Fine | WriteFails | SyncFails | CutOff(whole: bool)

  /** `ragged` says that the last line lacks its newline. */
  datatype File = File(lines: seq<Line>, ragged: bool)

  /**
    Append the bytes of a line, with or without its newline.  Behind a ragged line they continue
    that line; no record continued by the beginning of another parses.
   */
  function Put(file: File, line: Line, cut: bool): File {
    if file.ragged && file.lines != [] then File(file.lines[..|file.lines| - 1] + [Garbage], cut)
    else File(file.lines + [line], cut)
  }

  /** A ledger: the file, where the object thinks the tail is, and whether there is an object at all. */
  datatype Chain = Chain(file: File, lastHash: Bytes, nextSeq: nat, live: bool)

  function Log(c: Chain): seq<Entry> {
    Records(c.file.lines)
  }

  function Opened(h: Digest, host: Bytes, file: File): Chain {
    Chain(file, TailHash(h, host, Records(file.lines)), TailNumber(Records(file.lines)), true)
  }

  datatype Op = Write(f: Fields, io: Io) | Reopen

  /** A file that does not parse cannot be opened; without an object nothing is written. */
  function Do(h: Digest, host: Bytes, c: Chain, op: Op): Chain {
    match op
    case Reopen => if Parses(c.file.lines) then Opened(h, host, c.file) else c.(live := false)
    case Write(f, io) => if c.live then Appended(c, NewEntry(h, host, c.lastHash, c.nextSeq, f), io) else c
  }

  /** What an append of `e` makes of a live ledger; only a complete one moves the object's tail. */
  function Appended(c: Chain, e: Entry, io: Io): Chain {
    match io
    case WriteFails => c
    case CutOff(whole) => c.(file := Put(c.file, if whole then Record(e) else Garbage, true))
    case SyncFails => c.(file := Put(c.file, Record(e), false))
    case Fine => Chain(Put(c.file, Record(e), false), e.hash, Succ(c.nextSeq), true)
  }

  class Ledger {
    const h: Digest
    const hostUUID: Bytes
    var file: File
    var lastHash: Bytes
    var nextSeq: nat
    var isOpen: bool

    /** The ledger as a value. */
    ghost function State(): Chain
      reads this
    {
      Chain(file, lastHash, nextSeq, isOpen)
    }

    constructor (h: Digest, hostUUID: Bytes, file: File, lastHash: Bytes, nextSeq: nat)
      ensures this.h == h && this.hostUUID == hostUUID && State() == Chain(file, lastHash, nextSeq, true)
    {
      this.h, this.hostUUID, this.file := h, hostUUID, file;
      this.lastHash, this.nextSeq, this.isOpen := lastHash, nextSeq, true;
    }

    method WriteBytes(line: Line, cut: bool)
      modifies this`file
      ensures file == Put(old(file), line, cut)
    {
      if file.ragged && file.lines != [] {
        file := file.(lines := file.lines[..|file.lines| - 1] + [Garbage]);
      } else {
        file := file.(lines := file.lines + [line]);
      }
      file := file.(ragged := cut);
    }

    /** Only a write that is complete and synced is reported as done and moves the tail. */
    method Append(f: Fields, io: Io) returns (appended: bool)
      modifies this
      ensures appended <==> old(isOpen) && io == Fine
      ensures State() == Do(h, hostUUID, old(State()), Write(f, io))
    {
      if !isOpen {
        return false;
      }
      var recHash := RecordHash(h, lastHash, nextSeq, f);
      var entry := Entry(nextSeq, hostUUID, f, lastHash, recHash);
      if io == WriteFails {
        return false;
      }
      if io.CutOff? {
        WriteBytes(if io.whole then Record(entry) else Garbage, true);
        return false;
      }
      WriteBytes(Record(entry), false);
      if io == SyncFails {
        return false;
      }
      lastHash := recHash;
      nextSeq := Succ(nextSeq);
      return true;
    }

    method Close()
      modifies this`isOpen
      ensures !isOpen
    {
      isOpen := false;
    }
  }

  /** The scan for the tail knows the last record of `log`. */
  predicate AtTail(h: Digest, host: Bytes, log: seq<Entry>, lastHash: Bytes, lastSeq: nat, hasEntries: bool) {
    && (hasEntries <==> log != []) && lastHash == TailHash(h, host, log)
    && (hasEntries ==> lastSeq == log[|log| - 1].number)
  }

  /** Opening scans the file to its tail; it checks no hashes, but a line that does not parse is an error. */
  method NewLedger(h: Digest, file: File, hostUUID: Bytes) returns (l: Ledger?)
    ensures l != null <==> Parses(file.lines)
    ensures l != null ==>
      && fresh(l) && l.h == h && l.hostUUID == HostOf(hostUUID) && l.State() == Opened(h, HostOf(hostUUID), file)
  {
    var host, lines := HostOf(hostUUID), file.lines;
    var lastHash := GenesisHash(h, host, "INIT");
    var lastSeq := 0;
    var hasEntries := false;
    var i := 0;
    while i < |lines|
      invariant 0 <= i <= |lines| && Parses(lines[..i])
      invariant AtTail(h, host, Records(lines[..i]), lastHash, lastSeq, hasEntries)
    {
      assert lines[..i + 1][..i] == lines[..i];
      assert lines[i].Record? ==> Records(lines[..i + 1]) == Records(lines[..i]) + [lines[i].entry];
      if lines[i].Garbage? {
        return null;
      }
      if lines[i].Record? {
        lastHash := lines[i].entry.hash;
        lastSeq := lines[i].entry.number;
        hasEntries := true;
      } else {
        assert Records(lines[..i + 1]) == Records(lines[..i]);
      }
      i := i + 1;
    }
    assert lines[..i] == lines;
    l := new Ledger(h, host, file, lastHash, if hasEntries then Succ(lastSeq) else 0);
  }

  /** The first record of a new file: number 0, chained to the digest of salt, host and `INIT`. */
  lemma FirstRecord(h: Digest, uuid: Bytes, f: Fields)
    ensures var host := if uuid == "" then "localhost-arm64" else uuid;
            var genesis := h("REMEDIATION_GENESIS_2026" + host + "INIT");
            var c := Do(h, HostOf(uuid), Opened(h, HostOf(uuid), File([], false)), Write(f, Fine));
      && c.file == File([Record(Entry(0, host, f, genesis, h(Preimage(genesis, 0, f))))], false)
      && c.lastHash == h(Preimage(genesis, 0, f)) && c.nextSeq == 1 && c.live
  {}
}
