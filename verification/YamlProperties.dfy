/**
  How the YAML reader of `internal/config/config.go` moves through a line list: it always gets on,
  and on lists of mapping lines it gets to the end exactly when they are well nested.
 */
module YamlProperties {
  import opened Wrappers
  import opened Yaml

  // ----- progress --------------------------------------------------------------------------------

  /** The lines from `i` up to `j` are all indented at least this far. */
  predicate Covers(lines: seq<Line>, i: nat, j: nat, indent: nat) {
    i <= j <= |lines| && forall k :: i <= k < j ==> lines[k].indent >= indent
  }

  /**
    Called at a line's own indentation, the block parser gets past that line, stays within the
    line list, and takes no line that is indented less than the block.
   */
  lemma BlockProgress(lines: seq<Line>, idx: nat)
    requires idx < |lines|
    ensures Covers(lines, idx, Block(lines, idx, lines[idx].indent).next, lines[idx].indent)
    ensures idx < Block(lines, idx, lines[idx].indent).next
    decreases |lines| - idx, 2
  {
    if IsItem(lines[idx].text) {
      ItemsProgress(lines, idx, lines[idx].indent);
    } else {
      FieldsProgress(lines, idx, lines[idx].indent, map[]);
    }
  }

  lemma AfterProgress(text: string, lines: seq<Line>, idx: nat, indent: nat)
    requires idx <= |lines|
    ensures Covers(lines, idx, After(text, lines, idx, indent).next, indent + 1)
    decreases |lines| - idx, 3
  {
    if text == "" && Deeper(lines, idx, indent) {
      BlockProgress(lines, idx);
    }
  }

  lemma {:induction false} ItemsProgress(lines: seq<Line>, idx: nat, indent: nat)
    requires idx <= |lines|
    ensures Covers(lines, idx, Items(lines, idx, indent).next, indent)
    decreases |lines| - idx, 1
  {
    if idx < |lines| && lines[idx].indent == indent && IsItem(lines[idx].text) {
      ItemProgress(lines, idx, indent);
      ItemsProgress(lines, Item(lines, idx, indent).next, indent);
    }
  }

  lemma ItemProgress(lines: seq<Line>, idx: nat, indent: nat)
    requires idx < |lines| && IsItem(lines[idx].text)
    ensures Covers(lines, idx + 1, Item(lines, idx, indent).next, indent + 1)
    decreases |lines| - idx, 0
  {
    var text := ItemText(lines[idx].text);
    if text == "" {
      AfterProgress("", lines, idx + 1, indent);
    } else if ':' in text {
      var (key, v) := Split(text);
      AfterProgress(v, lines, idx + 1, indent);
      var p := After(v, lines, idx + 1, indent);
      MoreProgress(lines, p.next, indent, Set(map[], key, p.value));
    }
  }

  lemma {:induction false} MoreProgress(lines: seq<Line>, idx: nat, indent: nat, m: map<string, Value>)
    requires idx <= |lines|
    ensures Covers(lines, idx, More(lines, idx, indent, m).next, indent + 1)
    decreases |lines| - idx, 1
  {
    if Deeper(lines, idx, indent) && !Dashed(lines[idx].text) {
      if ':' in lines[idx].text {
        var (key, v) := Split(lines[idx].text);
        AfterProgress(v, lines, idx + 1, lines[idx].indent);
        var p := After(v, lines, idx + 1, lines[idx].indent);
        MoreProgress(lines, p.next, indent, Set(m, key, p.value));
      } else {
        MoreProgress(lines, idx + 1, indent, m);
      }
    }
  }

  lemma {:induction false} FieldsProgress(lines: seq<Line>, idx: nat, indent: nat, m: map<string, Value>)
    requires idx <= |lines|
    ensures var next := Fields(lines, idx, indent, m).next;
      && Covers(lines, idx, next, indent)
      && (idx < |lines| && lines[idx].indent == indent ==> idx < next)
      && (next < |lines| ==> lines[next].indent != indent)
    decreases |lines| - idx, 1
  {
    if idx < |lines| && lines[idx].indent == indent {
      if ':' in lines[idx].text {
        var (key, v) := Split(lines[idx].text);
        AfterProgress(v, lines, idx + 1, indent);
        var p := After(v, lines, idx + 1, indent);
        FieldsProgress(lines, p.next, indent, m[key := if p.value.Some? then p.value.value else Null]);
      } else {
        FieldsProgress(lines, idx + 1, indent, m);
      }
    }
  }

  // ----- reading to the end -------------------------------------------------------------------------

  /** Every line is a key, with or without value. */
  predicate KeysOnly(lines: seq<Line>) {
    forall i :: 0 <= i < |lines| ==> ':' in lines[i].text && !IsItem(lines[i].text)
  }

  /** Line `i` goes on with the mapping of line `j`: same indentation, and everything between is deeper. */
  predicate ContinuesAt(lines: seq<Line>, j: nat, i: nat)
    requires j < i < |lines|
  {
    lines[j].indent == lines[i].indent && forall k :: j < k < i ==> lines[k].indent > lines[i].indent
  }

  /** Line `i` is deeper than the line before it, which is a key without value. */
  predicate OpensBlock(lines: seq<Line>, i: nat)
    requires 0 < i < |lines| && ':' in lines[i - 1].text
  {
    lines[i].indent > lines[i - 1].indent && Split(lines[i - 1].text).1 == ""
  }

  /** Line `i` has its place among the lines from `base` on. */
  predicate Fits(lines: seq<Line>, base: nat, i: nat)
    requires base < i < |lines| && KeysOnly(lines)
  {
    OpensBlock(lines, i) || exists j: nat :: base <= j < i && ContinuesAt(lines, j, i)
  }

  /** Every line but the first opens a block under a key without value, or continues an enclosing mapping. */
  predicate WellNested(lines: seq<Line>)
    requires KeysOnly(lines)
  {
    forall i: nat :: 0 < i < |lines| ==> Fits(lines, 0, i)
  }

  lemma FitsFrom(lines: seq<Line>, base: nat, later: nat, i: nat)
    requires KeysOnly(lines) && base <= later < i < |lines| && Fits(lines, later, i)
    ensures Fits(lines, base, i)
  {
    if !OpensBlock(lines, i) {
      var j: nat :| later <= j < i && ContinuesAt(lines, j, i);
      assert base <= j;
    }
  }

  /** Nothing from `idx` up to `n` is shallower than line `idx`; a line behind the next line of its mapping does not fit earlier. */
  lemma MisfitFrom(lines: seq<Line>, idx: nat, later: nat, n: nat)
    requires KeysOnly(lines) && idx <= later < n < |lines| && !Fits(lines, later, n)
    requires lines[later].indent == lines[idx].indent && Covers(lines, idx, n, lines[idx].indent)
    ensures !Fits(lines, idx, n)
  {
    if j: nat :| idx <= j < n && ContinuesAt(lines, j, n) {
      assert j < later;
      assert lines[later].indent > lines[n].indent;
      assert lines[j].indent >= lines[idx].indent;
    }
  }

  /** From a key over the next line of its mapping, `mid`, to the end of the mapping. */
  lemma JoinFits(lines: seq<Line>, idx: nat, mid: nat, n: nat)
    requires KeysOnly(lines) && idx < mid < n <= |lines| && lines[mid].indent == lines[idx].indent
    requires Covers(lines, idx + 1, mid, lines[idx].indent + 1) && Covers(lines, mid, n, lines[idx].indent)
    requires forall i: nat :: idx < i < mid ==> Fits(lines, idx, i)
    requires forall i: nat :: mid < i < n ==> Fits(lines, mid, i)
    requires n < |lines| ==> !Fits(lines, mid, n)
    ensures forall i: nat :: idx < i < n ==> Fits(lines, idx, i)
    ensures n < |lines| ==> !Fits(lines, idx, n)
  {
    assert ContinuesAt(lines, idx, mid);
    forall i: nat | idx < i < n ensures Fits(lines, idx, i) {
      if i > mid {
        FitsFrom(lines, idx, mid, i);
      }
    }
    if n < |lines| {
      MisfitFrom(lines, idx, mid, n);
    }
  }

  /** The mapping from line `idx` on takes exactly the lines that fit. */
  lemma {:induction false} FieldsTakeWhatFits(lines: seq<Line>, idx: nat, m: map<string, Value>)
    requires KeysOnly(lines) && idx < |lines|
    ensures var n := Fields(lines, idx, lines[idx].indent, m).next;
      && idx < n && (forall i: nat :: idx < i < n ==> Fits(lines, idx, i)) && (n < |lines| ==> !Fits(lines, idx, n))
    decreases |lines| - idx, 1
  {
    var indent := lines[idx].indent;
    var (key, v) := Split(lines[idx].text);
    var p := After(v, lines, idx + 1, indent);
    var m' := m[key := if p.value.Some? then p.value.value else Null];
    var q := Fields(lines, p.next, indent, m');
    assert Fields(lines, idx, indent, m) == q;
    AfterProgress(v, lines, idx + 1, indent);
    ValueTakesWhatFits(lines, idx);
    if p.next < |lines| && lines[p.next].indent == indent {
      FieldsTakeWhatFits(lines, p.next, m');
      FieldsProgress(lines, p.next, indent, m');
      JoinFits(lines, idx, p.next, q.next);
    }
  }

  /** What is taken below a key fits, and what follows fits only if it continues the mapping of the key. */
  lemma {:induction false} ValueTakesWhatFits(lines: seq<Line>, idx: nat)
    requires KeysOnly(lines) && idx < |lines|
    ensures var n := After(Split(lines[idx].text).1, lines, idx + 1, lines[idx].indent).next;
      && (forall i: nat :: idx < i < n ==> Fits(lines, idx, i))
      && (n < |lines| && lines[n].indent != lines[idx].indent ==> !Fits(lines, idx, n))
    decreases |lines| - idx, 0
  {
    var v := Split(lines[idx].text).1;
    var p := After(v, lines, idx + 1, lines[idx].indent);
    if v == "" && Deeper(lines, idx + 1, lines[idx].indent) {
      var q := Fields(lines, idx + 1, lines[idx + 1].indent, map[]);
      assert Block(lines, idx + 1, lines[idx + 1].indent) == Parsed(Map(q.value), q.next);
      FieldsTakeWhatFits(lines, idx + 1, map[]);
      BelowFits(lines, idx, idx + 1, q.next);
    } else if idx + 1 < |lines| && lines[idx + 1].indent != lines[idx].indent {
      NothingBelow(lines, idx);
    }
  }

  lemma NothingBelow(lines: seq<Line>, idx: nat)
    requires KeysOnly(lines) && idx + 1 < |lines| && lines[idx + 1].indent != lines[idx].indent
    requires Split(lines[idx].text).1 != "" || !Deeper(lines, idx + 1, lines[idx].indent)
    ensures !Fits(lines, idx, idx + 1)
  {}

  lemma BelowFits(lines: seq<Line>, idx: nat, first: nat, n: nat)
    requires KeysOnly(lines) && first == idx + 1 < n <= |lines| && OpensBlock(lines, first)
    requires forall i: nat :: first < i < n ==> Fits(lines, first, i)
    requires n < |lines| ==> !Fits(lines, first, n)
    ensures forall i: nat :: idx < i < n ==> Fits(lines, idx, i)
    ensures n < |lines| && lines[n].indent != lines[idx].indent ==> !Fits(lines, idx, n)
  {
    forall i: nat | idx < i < n ensures Fits(lines, idx, i) {
      if i > first {
        FitsFrom(lines, idx, first, i);
      }
    }
    if n < |lines| && Fits(lines, idx, n) && !OpensBlock(lines, n) {
      var j: nat :| idx <= j < n && ContinuesAt(lines, j, n);
      assert j == idx || first <= j;
    }
  }

  /** A list of keys is read to its end exactly when it is well nested; from the first misfit on, everything is ignored. */
  lemma ReadToTheEndExactly(lines: seq<Line>)
    requires KeysOnly(lines) && lines != []
    ensures Block(lines, 0, lines[0].indent).next == |lines| <==> WellNested(lines)
    ensures var n := Block(lines, 0, lines[0].indent).next;
      0 < n <= |lines| && (n < |lines| ==> !Fits(lines, 0, n)) && forall i: nat :: 0 < i < n ==> Fits(lines, 0, i)
  {
    FieldsTakeWhatFits(lines, 0, map[]);
  }
}
