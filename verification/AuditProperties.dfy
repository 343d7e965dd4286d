/**
  What the audit ledger guarantees: tamper evidence up to digest collisions, and that closing
  and reopening it at any time does not change the chain.
 */
module AuditProperties {
  import opened Strings
  import opened Audit

  // ----- what a preimage fixes ------------------------------------------------------------------------

  function FromBigEndian(b: Bytes): nat {
    if b == [] then 0 else FromBigEndian(b[..|b| - 1]) * 256 + b[|b| - 1] as int
  }

  /** 256 to the power k. */
  function Limit(k: nat): nat {
    if k == 0 then 1 else 256 * Limit(k - 1)
  }

  lemma {:induction false} BigEndianRoundTrip(n: nat, k: nat)
    requires n < Limit(k)
    ensures |BigEndian(n, k)| == k && FromBigEndian(BigEndian(n, k)) == n
    decreases k
  {
    if k > 0 {
      BigEndianRoundTrip(n / 256, k - 1);
      var b, c := BigEndian(n, k), BigEndian(n / 256, k - 1);
      forall i | 0 <= i < k - 1 ensures b[i] == c[i] {
        assert ByteOf(n, k - 1 - i) == ByteOf(n / 256, k - 2 - i);
      }
      assert b[..k - 1] == c;
      assert b[k - 1] == ByteOf(n, 0);
    }
  }

  lemma EightBytesHold64Bits()
    ensures Limit(8) == UINT64
  {
    assert Limit(2) == 0x1_0000 && Limit(4) == 0x1_0000_0000;
    assert Limit(6) == 0x1_0000_0000_0000;
  }

  /** For equally long chain pointers, equal preimages mean equal pointers, numbers and bodies, and nothing more. */
  lemma PreimageFixes(p: Bytes, n: nat, f: Fields, p': Bytes, n': nat, f': Fields)
    requires |p| == |p'| && n < UINT64 && n' < UINT64
    ensures Preimage(p, n, f) == Preimage(p', n', f') <==> p == p' && n == n' && Body(f) == Body(f')
  {
    EightBytesHold64Bits();
    BigEndianRoundTrip(n, 8);
    BigEndianRoundTrip(n', 8);
    var x, x' := Preimage(p, n, f), Preimage(p', n', f');
    if x == x' {
      assert p == x[..|p|] && p' == x'[..|p|];
      assert BigEndian(n, 8) == x[|p|..|p| + 8] && BigEndian(n', 8) == x'[|p|..|p| + 8];
      assert Body(f) == x[|p| + 8..] && Body(f') == x'[|p| + 8..];
    }
  }

  // ----- tamper evidence -----------------------------------------------------------------------------------

  function PreimageOf(e: Entry): Bytes {
    Preimage(e.prevHash, e.number, e.fields)
  }

  /** Two different hashed texts with the same digest, one from each log. */
  ghost predicate Collide(h: Digest, a: seq<Entry>, b: seq<Entry>) {
    exists i: nat, j: nat :: i < |a| && j < |b| && CollideAt(h, a[i], b[j])
  }

  predicate CollideAt(h: Digest, d: Entry, e: Entry) {
    PreimageOf(d) != PreimageOf(e) && h(PreimageOf(d)) == h(PreimageOf(e))
  }

  predicate SamePreimages(a: seq<Entry>, b: seq<Entry>, from: nat) {
    |a| == |b| && forall i :: from <= i < |a| ==> PreimageOf(a[i]) == PreimageOf(b[i])
  }

  lemma PointersAreDigests(h: Digest, log: seq<Entry>, i: nat)
    requires IsDigest(h) && Chained(h, log) && i < |log| <= UINT64 && |log[0].prevHash| == 64
    ensures |log[i].prevHash| == 64 && log[i].number == i && log[i].hash == h(PreimageOf(log[i]))
    ensures i > 0 ==> log[i].prevHash == log[i - 1].hash
  {
    assert Linked(h, log, i);
    CounterCounts(i);
    if i > 0 {
      assert Linked(h, log, i - 1);
      assert |h(PreimageOf(log[i - 1]))| == 64;
    }
  }

  /** From equal tails down to record `k`: the preimages agree, or a collision turns up. */
  lemma {:induction false} AgreeDownTo(h: Digest, a: seq<Entry>, b: seq<Entry>, k: nat)
    requires IsDigest(h) && Chained(h, a) && Chained(h, b) && k < |a| == |b| <= UINT64
    requires |a[0].prevHash| == 64 && |b[0].prevHash| == 64
    requires a[|a| - 1].hash == b[|b| - 1].hash
    ensures Collide(h, a, b) || (SamePreimages(a, b, k) && a[k].hash == b[k].hash)
    decreases |a| - k
  {
    if k + 1 < |a| {
      AgreeDownTo(h, a, b, k + 1);
      if !Collide(h, a, b) {
        AgreeOnPrevious(h, a, b, k);
      }
    }
    PointersAreDigests(h, a, k);
    PointersAreDigests(h, b, k);
    if !Collide(h, a, b) {
      assert !CollideAt(h, a[k], b[k]);
    }
  }

  /** Equal preimages of record `k + 1` point at equal hashes of record `k`. */
  lemma AgreeOnPrevious(h: Digest, a: seq<Entry>, b: seq<Entry>, k: nat)
    requires IsDigest(h) && Chained(h, a) && Chained(h, b) && k + 1 < |a| == |b| <= UINT64
    requires |a[0].prevHash| == 64 && |b[0].prevHash| == 64 && SamePreimages(a, b, k + 1)
    ensures a[k].hash == b[k].hash
  {
    PointersAreDigests(h, a, k + 1);
    PointersAreDigests(h, b, k + 1);
    assert PreimageOf(a[k + 1]) == PreimageOf(b[k + 1]);
    PreimageFixes(a[k + 1].prevHash, a[k + 1].number, a[k + 1].fields,
                  b[k + 1].prevHash, b[k + 1].number, b[k + 1].fields);
  }

  lemma SameLength(h: Digest, a: seq<Entry>, b: seq<Entry>)
    requires IsDigest(h) && Chained(h, a) && Chained(h, b)
    requires 0 < |a| <= UINT64 && 0 < |b| <= UINT64
    requires |a[0].prevHash| == 64 && |b[0].prevHash| == 64
    requires a[|a| - 1].hash == b[|b| - 1].hash
    ensures Collide(h, a, b) || |a| == |b|
  {
    var m, n := |a| - 1, |b| - 1;
    PointersAreDigests(h, a, m);
    PointersAreDigests(h, b, n);
    if !Collide(h, a, b) {
      assert !CollideAt(h, a[m], b[n]);
      PreimageFixes(a[m].prevHash, m, a[m].fields, b[n].prevHash, n, b[n].fields);
    }
  }

  /**
    Tamper evidence: two accepted nonempty logs with the same tail hash, of at most 2^64 records
    and with 64-character genesis pointers, have the same length and the same hashed text at
    every position, unless they exhibit a digest collision.
   */
  lemma SameTailMeansSameLog(h: Digest, a: seq<Entry>, b: seq<Entry>)
    requires IsDigest(h) && Chained(h, a) && Chained(h, b)
    requires 0 < |a| <= UINT64 && 0 < |b| <= UINT64
    requires |a[0].prevHash| == 64 && |b[0].prevHash| == 64
    requires a[|a| - 1].hash == b[|b| - 1].hash
    ensures Collide(h, a, b) || SamePreimages(a, b, 0)
    ensures Collide(h, a, b) || (|a| == |b| && forall i :: 0 <= i < |a| ==>
        && a[i].prevHash == b[i].prevHash && a[i].number == b[i].number && a[i].hash == b[i].hash
        && Body(a[i].fields) == Body(b[i].fields))
  {
    SameLength(h, a, b);
    if !Collide(h, a, b) {
      AgreeDownTo(h, a, b, 0);
      forall i: nat | i < |a|
        ensures a[i].prevHash == b[i].prevHash && a[i].number == b[i].number && a[i].hash == b[i].hash
        ensures Body(a[i].fields) == Body(b[i].fields)
      {
        PointersAreDigests(h, a, i);
        PointersAreDigests(h, b, i);
        PreimageFixes(a[i].prevHash, i, a[i].fields, b[i].prevHash, i, b[i].fields);
      }
    }
  }

  /** Within a record of fixed field lengths, only the host name is left open. */
  lemma LengthsFixFields(f: Fields, g: Fields)
    requires Body(f) == Body(g)
    requires |f.timestamp| == |g.timestamp| && |f.resourceID| == |g.resourceID|
    requires |f.state| == |g.state| && |f.runbookID| == |g.runbookID|
    ensures f == g
  {
    SplitsAlike(f.timestamp + f.resourceID + f.state + f.runbookID, f.payloadDigest,
                g.timestamp + g.resourceID + g.state + g.runbookID, g.payloadDigest);
    SplitsAlike(f.timestamp + f.resourceID + f.state, f.runbookID, g.timestamp + g.resourceID + g.state, g.runbookID);
    SplitsAlike(f.timestamp + f.resourceID, f.state, g.timestamp + g.resourceID, g.state);
    SplitsAlike(f.timestamp, f.resourceID, g.timestamp, g.resourceID);
  }

  /** The host name of a record is not covered: any accepted log stays accepted under any other host name. */
  lemma HostNameIsNotCovered(h: Digest, log: seq<Entry>, i: nat, hostUUID: Bytes)
    requires i < |log|
    ensures Chained(h, log[i := log[i].(hostUUID := hostUUID)]) <==> Chained(h, log)
  {
    var other := log[i := log[i].(hostUUID := hostUUID)];
    forall k: nat | k < |log| ensures Linked(h, other, k) <==> Linked(h, log, k) {}
    assert Chained(h, other) ==> forall k: nat :: k < |log| ==> Linked(h, other, k);
    assert Chained(h, log) ==> forall k: nat :: k < |log| ==> Linked(h, log, k);
  }

  /** The last character of the resource moved to the front of the state. */
  function Shifted(f: Fields): Fields
    requires f.resourceID != ""
  {
    var n := |f.resourceID| - 1;
    f.(resourceID := f.resourceID[..n], state := [f.resourceID[n]] + f.state)
  }

  /** Boundaries between neighbouring fields are not covered either: shifting one leaves every hash as it is. */
  lemma BoundariesAreNotCovered(h: Digest, log: seq<Entry>, i: nat)
    requires i < |log| && log[i].fields.resourceID != ""
    ensures Shifted(log[i].fields) != log[i].fields
    ensures Chained(h, log[i := log[i].(fields := Shifted(log[i].fields))]) <==> Chained(h, log)
  {
    var f := log[i].fields;
    assert Body(Shifted(f)) == Body(f) by {
      var n := |f.resourceID| - 1;
      assert f.resourceID == f.resourceID[..n] + [f.resourceID[n]];
    }
    assert |Shifted(f).resourceID| < |f.resourceID|;
    var other := log[i := log[i].(fields := Shifted(f))];
    forall k: nat | k < |log| ensures Linked(h, other, k) <==> Linked(h, log, k) {}
    assert Chained(h, other) ==> forall k: nat :: k < |log| ==> Linked(h, other, k);
    assert Chained(h, log) ==> forall k: nat :: k < |log| ==> Linked(h, log, k);
  }

  // ----- reopening --------------------------------------------------------------------------------------------

  function DoAll(h: Digest, host: Bytes, c: Chain, ops: seq<Op>): Chain
    decreases |ops|
  {
    if ops == [] then c else DoAll(h, host, Do(h, host, c, ops[0]), ops[1..])
  }

  function WithoutReopens(ops: seq<Op>): seq<Op> {
    if ops == [] then []
    else (if ops[0].Reopen? then [] else [ops[0]]) + WithoutReopens(ops[1..])
  }

  /** The operation leaves the record in the file and the object's tail behind. */
  predicate LeavesTailBehind(op: Op) {
    op.Write? && op.io == SyncFails
  }

  predicate ReachesFile(op: Op) {
    op.Write? && op.io != WriteFails
  }

  predicate CutsRecord(op: Op) {
    op.Write? && op.io == CutOff(false)
  }

  predicate CutsNewline(op: Op) {
    op.Write? && op.io == CutOff(true)
  }

  /** Every write gets through, or leaves nothing behind. */
  predicate Tidy(ops: seq<Op>) {
    forall i :: 0 <= i < |ops| ==> ops[i].Write? ==> ops[i].io == Fine || ops[i].io == WriteFails
  }

  /** There is a reopen between `i` and `j`. */
  predicate ReopensBetween(ops: seq<Op>, i: nat, j: nat)
    requires j <= |ops|
  {
    exists k :: i < k < j && ops[k].Reopen?
  }

  /** No write reaches the file behind a failed sync without a reopen in between. */
  predicate ReopensAfterFailedSyncs(ops: seq<Op>) {
    forall i: nat, j: nat :: i < j < |ops| && LeavesTailBehind(ops[i]) && ReachesFile(ops[j]) ==> ReopensBetween(ops, i, j)
  }

  /** No write is cut inside its record. */
  predicate RecordsAreWhole(ops: seq<Op>) {
    forall i :: 0 <= i < |ops| ==> !CutsRecord(ops[i])
  }

  predicate NothingReaches(ops: seq<Op>) {
    forall i :: 0 <= i < |ops| ==> !ReachesFile(ops[i])
  }

  /** Nothing reaches the file behind a write that is cut at its newline, reopened or not. */
  predicate NothingBehindRaggedLines(ops: seq<Op>) {
    forall i: nat, j: nat :: i < j < |ops| && CutsNewline(ops[i]) ==> !ReachesFile(ops[j])
  }

  predicate Orderly(ops: seq<Op>) {
    ReopensAfterFailedSyncs(ops) && RecordsAreWhole(ops) && NothingBehindRaggedLines(ops)
  }

  /** The first write that reaches the file, if any, comes after a reopen. */
  predicate ReopensFirst(ops: seq<Op>) {
    ops == [] || ops[0].Reopen? || (!ReachesFile(ops[0]) && ReopensFirst(ops[1..]))
  }

  lemma {:induction false} ReopensFirstMeans(ops: seq<Op>)
    ensures ReopensFirst(ops) <==>
      forall j: nat :: j < |ops| && ReachesFile(ops[j]) ==> ReopensBefore(ops, j)
  {
    if ops != [] && !ops[0].Reopen? && !ReachesFile(ops[0]) {
      var rest := ops[1..];
      ReopensFirstMeans(rest);
      forall j: nat | j < |rest| ensures ReopensBefore(rest, j) <==> ReopensBefore(ops, j + 1) {
        if ReopensBefore(rest, j) {
          var k :| 0 <= k < j && rest[k].Reopen?;
          assert ops[k + 1].Reopen?;
        }
        if ReopensBefore(ops, j + 1) {
          var k :| 0 <= k < j + 1 && ops[k].Reopen?;
          assert rest[k - 1].Reopen?;
        }
      }
      if ReopensFirst(rest) {
        forall j: nat | j < |ops| && ReachesFile(ops[j]) ensures ReopensBefore(ops, j) {
          assert rest[j - 1] == ops[j] && ReopensBefore(rest, j - 1);
        }
      } else {
        var j: nat :| j < |rest| && ReachesFile(rest[j]) && !ReopensBefore(rest, j);
        assert ops[j + 1] == rest[j] && !ReopensBefore(ops, j + 1);
      }
    } else if ops != [] && ops[0].Reopen? {
      forall j: nat | j < |ops| && ReachesFile(ops[j]) ensures ReopensBefore(ops, j) {}
    } else if ops != [] {
      assert !ReopensBefore(ops, 0);
    }
  }

  predicate ReopensBefore(ops: seq<Op>, j: nat)
    requires j <= |ops|
  {
    exists k :: 0 <= k < j && ops[k].Reopen?
  }

  /** One operation at a time. */
  lemma OrderlyStep(ops: seq<Op>)
    requires ops != []
    ensures Orderly(ops) <==>
      && Orderly(ops[1..]) && !CutsRecord(ops[0])
      && (LeavesTailBehind(ops[0]) ==> ReopensFirst(ops[1..]))
      && (CutsNewline(ops[0]) ==> NothingReaches(ops[1..]))
  {
    var rest := ops[1..];
    ReopensStep(ops);
    assert RecordsAreWhole(ops) <==> RecordsAreWhole(rest) && !CutsRecord(ops[0]) by {
      assert ops == [ops[0]] + rest;
    }
    RaggedStep(ops);
  }

  lemma RaggedStep(ops: seq<Op>)
    requires ops != []
    ensures NothingBehindRaggedLines(ops) <==>
      NothingBehindRaggedLines(ops[1..]) && (CutsNewline(ops[0]) ==> NothingReaches(ops[1..]))
  {
    var rest := ops[1..];
    if NothingBehindRaggedLines(ops) {
      forall i: nat, j: nat | i < j < |rest| && CutsNewline(rest[i]) ensures !ReachesFile(rest[j]) {
        assert rest[i] == ops[i + 1] && rest[j] == ops[j + 1];
      }
      forall j | 0 <= j < |rest| && CutsNewline(ops[0]) ensures !ReachesFile(rest[j]) {
        assert rest[j] == ops[j + 1];
      }
    }
    if NothingBehindRaggedLines(rest) && (CutsNewline(ops[0]) ==> NothingReaches(rest)) {
      forall i: nat, j: nat | i < j < |ops| && CutsNewline(ops[i]) ensures !ReachesFile(ops[j]) {
        assert ops[j] == rest[j - 1];
        assert i > 0 ==> ops[i] == rest[i - 1];
      }
    }
  }

  /** After a failed sync the rest has to reopen first. */
  lemma ReopensStep(ops: seq<Op>)
    requires ops != []
    ensures ReopensAfterFailedSyncs(ops) <==>
      ReopensAfterFailedSyncs(ops[1..]) && (LeavesTailBehind(ops[0]) ==> ReopensFirst(ops[1..]))
  {
    var rest := ops[1..];
    ReopensFirstMeans(rest);
    forall i: nat, j: nat | i <= j < |rest| ensures ReopensBetween(rest, i, j) <==> ReopensBetween(ops, i + 1, j + 1) {
      ShiftedBetween(ops, i, j);
    }
    forall j: nat | j < |rest| ensures ReopensBefore(rest, j) <==> ReopensBetween(ops, 0, j + 1) {
      ShiftedBefore(ops, j);
    }
    if ReopensAfterFailedSyncs(ops) {
      forall i: nat, j: nat | i < j < |rest| && LeavesTailBehind(rest[i]) && ReachesFile(rest[j])
        ensures ReopensBetween(rest, i, j)
      {
        assert ReopensBetween(ops, i + 1, j + 1);
      }
      if LeavesTailBehind(ops[0]) {
        forall j: nat | j < |rest| && ReachesFile(rest[j]) ensures ReopensBefore(rest, j) {
          assert ReachesFile(ops[j + 1]) && ReopensBetween(ops, 0, j + 1);
        }
      }
    }
    if ReopensAfterFailedSyncs(rest) && (LeavesTailBehind(ops[0]) ==> ReopensFirst(rest)) {
      forall i: nat, j: nat | i < j < |ops| && LeavesTailBehind(ops[i]) && ReachesFile(ops[j])
        ensures ReopensBetween(ops, i, j)
      {
        assert rest[j - 1] == ops[j];
        if i == 0 {
          assert ReopensBefore(rest, j - 1);
        } else {
          assert rest[i - 1] == ops[i] && ReopensBetween(rest, i - 1, j - 1);
        }
      }
    }
  }

  lemma ShiftedBetween(ops: seq<Op>, i: nat, j: nat)
    requires ops != [] && i <= j < |ops| - 1
    ensures ReopensBetween(ops[1..], i, j) <==> ReopensBetween(ops, i + 1, j + 1)
  {
    var rest := ops[1..];
    if ReopensBetween(rest, i, j) {
      var k :| i < k < j && rest[k].Reopen?;
      assert ops[k + 1].Reopen?;
    }
    if ReopensBetween(ops, i + 1, j + 1) {
      var k :| i + 1 < k < j + 1 && ops[k].Reopen?;
      assert rest[k - 1].Reopen?;
    }
  }

  lemma ShiftedBefore(ops: seq<Op>, j: nat)
    requires ops != [] && j < |ops| - 1
    ensures ReopensBefore(ops[1..], j) <==> ReopensBetween(ops, 0, j + 1)
  {
    var rest := ops[1..];
    if ReopensBefore(rest, j) {
      var k :| 0 <= k < j && rest[k].Reopen?;
      assert ops[k + 1].Reopen?;
    }
    if ReopensBetween(ops, 0, j + 1) {
      var k :| 0 < k < j + 1 && ops[k].Reopen?;
      assert rest[k - 1].Reopen?;
    }
  }

  // ----- reopening and continuing ---------------------------------------------------------------------------

  /** The object stands at the tail of a file whose lines all end in newlines. */
  predicate InStep(h: Digest, host: Bytes, c: Chain) {
    c == Opened(h, host, c.file) && !c.file.ragged && Parses(c.file.lines)
  }

  lemma PutRecord(lines: seq<Line>, e: Entry)
    ensures Records(lines + [Record(e)]) == Records(lines) + [e]
    ensures Parses(lines + [Record(e)]) <==> Parses(lines)
  {
    assert (lines + [Record(e)])[..|lines|] == lines;
    assert Parses(lines + [Record(e)]) ==> forall i :: 0 <= i < |lines| ==> (lines + [Record(e)])[i] == lines[i];
  }

  lemma TidyStepStaysInStep(h: Digest, host: Bytes, c: Chain, op: Op)
    requires InStep(h, host, c) && (op.Write? ==> op.io == Fine || op.io == WriteFails)
    ensures InStep(h, host, Do(h, host, c, op))
  {
    if op.Write? && op.io == Fine {
      PutRecord(c.file.lines, NewEntry(h, host, c.lastHash, c.nextSeq, op.f));
    }
  }

  /** Reopening refines continuing: any mix of reopens and appends gives the ledger of the appends alone. */
  lemma {:induction false} ReopeningIsInvisible(h: Digest, host: Bytes, c: Chain, ops: seq<Op>)
    requires InStep(h, host, c) && Tidy(ops)
    ensures DoAll(h, host, c, ops) == DoAll(h, host, c, WithoutReopens(ops))
    decreases |ops|
  {
    if ops != [] {
      var d := Do(h, host, c, ops[0]);
      TidyStepStaysInStep(h, host, c, ops[0]);
      ReopeningIsInvisible(h, host, d, ops[1..]);
      var rest := WithoutReopens(ops[1..]);
      if ops[0].Reopen? {
        assert WithoutReopens(ops) == rest;
      } else {
        assert WithoutReopens(ops) == [ops[0]] + rest;
        assert ([ops[0]] + rest)[1..] == rest;
      }
    }
  }

  lemma AppendContinuesChain(h: Digest, host: Bytes, log: seq<Entry>, f: Fields)
    requires Chained(h, log)
    ensures Chained(h, log + [NewEntry(h, host, TailHash(h, host, log), TailNumber(log), f)])
  {
    var e := NewEntry(h, host, TailHash(h, host, log), TailNumber(log), f);
    ChainedGrows(h, log, e);
    if log != [] {
      assert Linked(h, log, |log| - 1);
      assert (log + [e])[|log| - 1] == log[|log| - 1];
    }
  }

  // ----- rejection is final ----------------------------------------------------------------------------------

  lemma GarbageIsRejected(h: Digest, lines: seq<Line>)
    ensures !Accepted(h, lines + [Garbage])
  {
    assert (lines + [Garbage])[|lines|].Garbage?;
  }

  lemma PutKeepsRejected(h: Digest, file: File, line: Line, cut: bool)
    requires !Accepted(h, file.lines)
    ensures !Accepted(h, Put(file, line, cut).lines)
  {
    if file.ragged && file.lines != [] {
      GarbageIsRejected(h, file.lines[..|file.lines| - 1]);
    } else {
      assert (file.lines + [line])[..|file.lines|] == file.lines;
      RejectionIsFinal(h, file.lines + [line], |file.lines|);
    }
  }

  /** A rejected log never becomes accepted, whatever is done to it and whatever fails. */
  lemma {:induction false} RejectedStaysRejected(h: Digest, host: Bytes, c: Chain, ops: seq<Op>)
    requires !Accepted(h, c.file.lines)
    ensures !Accepted(h, DoAll(h, host, c, ops).file.lines)
    decreases |ops|
  {
    if ops != [] {
      if ReachesFile(ops[0]) {
        var e := NewEntry(h, host, c.lastHash, c.nextSeq, ops[0].f);
        PutKeepsRejected(h, c.file, Record(e), ops[0].io.CutOff?);
        PutKeepsRejected(h, c.file, Garbage, true);
      }
      RejectedStaysRejected(h, host, Do(h, host, c, ops[0]), ops[1..]);
    }
  }

  // ----- failed syncs and short writes ---------------------------------------------------------------------------

  /** An accepted file whose object stands one record behind it: the last sync failed. */
  predicate Lags(h: Digest, host: Bytes, c: Chain) {
    Accepted(h, c.file.lines) && !c.file.ragged && c.live && LagsBehind(h, host, c, Log(c))
  }

  predicate LagsBehind(h: Digest, host: Bytes, c: Chain, log: seq<Entry>) {
    log != [] && var before := log[..|log| - 1];
    c.lastHash == TailHash(h, host, before) && c.nextSeq == TailNumber(before)
  }

  lemma AppendStaysAccepted(h: Digest, host: Bytes, c: Chain, f: Fields)
    requires InStep(h, host, c) && Accepted(h, c.file.lines)
    ensures var e := NewEntry(h, host, c.lastHash, c.nextSeq, f);
      Accepted(h, c.file.lines + [Record(e)]) && Records(c.file.lines + [Record(e)]) == Log(c) + [e]
  {
    PutRecord(c.file.lines, NewEntry(h, host, c.lastHash, c.nextSeq, f));
    AppendContinuesChain(h, host, Log(c), f);
  }

  lemma SyncFailureLags(h: Digest, host: Bytes, c: Chain, f: Fields)
    requires InStep(h, host, c) && Accepted(h, c.file.lines)
    ensures Lags(h, host, Do(h, host, c, Write(f, SyncFails)))
  {
    AppendStaysAccepted(h, host, c, f);
    var e := NewEntry(h, host, c.lastHash, c.nextSeq, f);
    assert (Log(c) + [e])[..|Log(c)|] == Log(c);
  }

  lemma LagsByOne(h: Digest, host: Bytes, c: Chain, log: seq<Entry>)
    requires Chained(h, log) && LagsBehind(h, host, c, log)
    ensures c.nextSeq == Counter(|log| - 1)
  {
    var n := |log| - 1;
    var before := log[..n];
    if n > 0 {
      assert Linked(h, log, n - 1) && before[n - 1] == log[n - 1];
    }
  }

  /** A record numbered like the one before it does not continue the chain. */
  lemma RepeatedNumberBreaks(h: Digest, log: seq<Entry>, e: Entry)
    requires log != [] && e.number == Counter(|log| - 1)
    ensures !Chained(h, log + [e])
  {
    var n := |log|;
    assert Counter(n) == Succ(Counter(n - 1)) != Counter(n - 1);
    assert !Linked(h, log + [e], n);
  }

  /** A write on an object that lags reuses the number of the record before it. */
  lemma LaggingWriteBreaks(h: Digest, host: Bytes, c: Chain, op: Op)
    requires Lags(h, host, c) && ReachesFile(op)
    ensures !Accepted(h, Do(h, host, c, op).file.lines)
  {
    var e := NewEntry(h, host, c.lastHash, c.nextSeq, op.f);
    PutRecord(c.file.lines, e);
    GarbageIsRejected(h, c.file.lines);
    LagsByOne(h, host, c, Log(c));
    RepeatedNumberBreaks(h, Log(c), e);
  }

  /** Behind a ragged line nothing but nothing is accepted. */
  lemma {:induction false} RaggedNeedsRest(h: Digest, host: Bytes, c: Chain, ops: seq<Op>)
    requires Accepted(h, c.file.lines) && c.file.ragged && c.file.lines != [] && c.live
    ensures Accepted(h, DoAll(h, host, c, ops).file.lines) <==> NothingReaches(ops)
    decreases |ops|
  {
    if ops != [] {
      assert ops == [ops[0]] + ops[1..];
      if ReachesFile(ops[0]) {
        GarbageIsRejected(h, c.file.lines[..|c.file.lines| - 1]);
        RejectedStaysRejected(h, host, Do(h, host, c, ops[0]), ops[1..]);
      } else {
        RaggedNeedsRest(h, host, Do(h, host, c, ops[0]), ops[1..]);
      }
    }
  }

  lemma NothingReachesIsOrderly(ops: seq<Op>)
    requires NothingReaches(ops)
    ensures Orderly(ops)
  {}

  /** A lagging object has to be reopened before the next write that reaches the file; until then nothing changes. */
  lemma {:induction false} LaggingNeedsReopen(h: Digest, host: Bytes, c: Chain, ops: seq<Op>)
    requires Lags(h, host, c)
    ensures Accepted(h, DoAll(h, host, c, ops).file.lines) <==> ReopensFirst(ops) && Orderly(ops)
    decreases |ops|, 0
  {
    if ops != [] {
      OrderlyStep(ops);
      if ReachesFile(ops[0]) {
        LaggingWriteBreaks(h, host, c, ops[0]);
        RejectedStaysRejected(h, host, Do(h, host, c, ops[0]), ops[1..]);
      } else if ops[0].Reopen? {
        AcceptedExactlyWhenOrderly(h, host, Opened(h, host, c.file), ops[1..]);
      } else {
        LaggingNeedsReopen(h, host, c, ops[1..]);
      }
    }
  }

  /**
    An accepted log stays accepted under a list of appends and reopens, whatever fails, exactly
    when no write reaches the file behind a failed sync without a reopen in between, no write is
    cut inside its record, and nothing reaches the file behind a write cut at its newline.
   */
  lemma {:induction false} AcceptedExactlyWhenOrderly(h: Digest, host: Bytes, c: Chain, ops: seq<Op>)
    requires InStep(h, host, c) && Accepted(h, c.file.lines)
    ensures Accepted(h, DoAll(h, host, c, ops).file.lines) <==> Orderly(ops)
    decreases |ops|, 1
  {
    if ops != [] {
      OrderlyStep(ops);
      if ReachesFile(ops[0]) {
        AppendStaysAccepted(h, host, c, ops[0].f);
      }
      if LeavesTailBehind(ops[0]) {
        SyncFailureLags(h, host, c, ops[0].f);
        LaggingNeedsReopen(h, host, Do(h, host, c, ops[0]), ops[1..]);
      } else if CutsRecord(ops[0]) {
        GarbageIsRejected(h, c.file.lines);
        RejectedStaysRejected(h, host, Do(h, host, c, ops[0]), ops[1..]);
      } else if CutsNewline(ops[0]) {
        RaggedNeedsRest(h, host, Do(h, host, c, ops[0]), ops[1..]);
        if NothingReaches(ops[1..]) {
          NothingReachesIsOrderly(ops[1..]);
        }
      } else {
        TidyStepStaysInStep(h, host, c, ops[0]);
        AcceptedExactlyWhenOrderly(h, host, Do(h, host, c, ops[0]), ops[1..]);
      }
    }
  }

  /** In particular it stays accepted when every write gets through or leaves nothing behind. */
  lemma AcceptedStaysAccepted(h: Digest, host: Bytes, c: Chain, ops: seq<Op>)
    requires InStep(h, host, c) && Accepted(h, c.file.lines) && Tidy(ops)
    ensures Accepted(h, DoAll(h, host, c, ops).file.lines)
  {
    AcceptedExactlyWhenOrderly(h, host, c, ops);
  }

  lemma DoAllFirst(h: Digest, host: Bytes, c: Chain, op: Op, ops: seq<Op>)
    ensures DoAll(h, host, c, [op] + ops) == DoAll(h, host, Do(h, host, c, op), ops)
    ensures ([op] + ops)[1..] == ops
  {
    assert ([op] + ops)[1..] == ops;
  }

  /**
    After a sync that failed behind a completed write, reopening heals the chain; a write that
    reaches the file on the same object breaks it, and no later operation repairs that.
   */
  lemma FailedSyncNeedsReopen(h: Digest, host: Bytes, c: Chain, f: Fields, op: Op, ops: seq<Op>)
    requires InStep(h, host, c) && Accepted(h, c.file.lines) && (op.Reopen? || ReachesFile(op))
    ensures var torn := Do(h, host, c, Write(f, SyncFails));
      Accepted(h, DoAll(h, host, Do(h, host, torn, op), ops).file.lines) <==> op.Reopen? && Orderly(ops)
  {
    var sync := Write(f, SyncFails);
    var all := [sync] + ([op] + ops);
    DoAllFirst(h, host, c, sync, [op] + ops);
    DoAllFirst(h, host, Do(h, host, c, sync), op, ops);
    AcceptedExactlyWhenOrderly(h, host, c, all);
    OrderlyStep(all);
    OrderlyStep([op] + ops);
  }

  /** A write cut inside its record, as on a full disk: the log is rejected for good and cannot be opened again. */
  lemma ShortWriteIsFatal(h: Digest, host: Bytes, c: Chain, f: Fields, ops: seq<Op>)
    requires InStep(h, host, c) && Accepted(h, c.file.lines)
    ensures var cut := Do(h, host, c, Write(f, CutOff(false)));
      && !Accepted(h, DoAll(h, host, cut, ops).file.lines)
      && !Parses(cut.file.lines) && !Do(h, host, cut, Reopen).live
  {
    GarbageIsRejected(h, c.file.lines);
    assert (c.file.lines + [Garbage])[|c.file.lines|].Garbage?;
    RejectedStaysRejected(h, host, Do(h, host, c, Write(f, CutOff(false))), ops);
  }

  /** One cut at its newline goes unnoticed: the log is accepted and opens, until the next write that reaches the file. */
  lemma MissingNewlineIsLatent(h: Digest, host: Bytes, c: Chain, f: Fields, ops: seq<Op>)
    requires InStep(h, host, c) && Accepted(h, c.file.lines)
    ensures var cut := Do(h, host, c, Write(f, CutOff(true)));
      && Accepted(h, cut.file.lines) && Do(h, host, cut, Reopen).live
      && (Accepted(h, DoAll(h, host, cut, ops).file.lines) <==> NothingReaches(ops))
  {
    AppendStaysAccepted(h, host, c, f);
    RaggedNeedsRest(h, host, Do(h, host, c, Write(f, CutOff(true))), ops);
  }
}
