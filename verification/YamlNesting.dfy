/**
  How far the YAML reader of `internal/config/config.go` gets on an arbitrary line list, with
  dashes or without: as far as one pass over the lines with a stack of enclosing blocks finds a
  place for each line.
 */
module YamlNesting {
  import opened Wrappers
  import opened Yaml

  /** A block of keys, a list, or the further keys of a list item; each at the indentation of its block or list. */
  datatype Frame = Keys(indent: nat) | Dashes(indent: nat) | Body(indent: nat)

  /** The enclosing blocks, and the indentation of the last line if that line leaves its value open. */
  datatype Place = Place(stack: seq<Frame>, open: Option<nat>)

  /** The innermost block can go on with this line. */
  predicate Takes(frame: Frame, line: Line) {
    match frame
    case Keys(d) => line.indent == d
    case Dashes(d) => line.indent == d && IsItem(line.text)
    case Body(d) => line.indent > d && !Dashed(line.text)
  }

  /** The line lies below a line that has left its value open. */
  predicate Opens(p: Place, line: Line) {
    p.open.Some? && line.indent > p.open.value
  }

  /** The blocks left when those that cannot go on with the line are closed. */
  function Closed(stack: seq<Frame>, line: Line): seq<Frame> {
    if stack == [] || Takes(stack[|stack| - 1], line) then stack else Closed(stack[..|stack| - 1], line)
  }

  /** The blocks around the line: a new one if it opens one, else the innermost that can go on with it; none if it has no place. */
  function Around(p: Place, line: Line): seq<Frame> {
    if Opens(p, line) then p.stack + [if IsItem(line.text) then Dashes(line.indent) else Keys(line.indent)]
    else Closed(p.stack, line)
  }

  /** What follows the key of a line is missing. */
  function Pending(text: string, indent: nat): Option<nat>
    requires ':' in text
  {
    if Split(text).1 == "" then Some(indent) else None
  }

  /** Behind a line of the innermost block. */
  function Behind(stack: seq<Frame>, line: Line): Place
    requires stack != []
  {
    if stack[|stack| - 1].Dashes? && IsItem(line.text) then
      var text := ItemText(line.text);
      if text == "" then Place(stack, Some(line.indent))
      else if ':' in text then Place(stack + [Body(line.indent)], Pending(text, line.indent))
      else Place(stack, None)
    else Place(stack, if ':' in line.text then Pending(line.text, line.indent) else None)
  }

  /** One pass: the first line from `idx` on that has no place. */
  function Scan(lines: seq<Line>, idx: nat, p: Place): nat
    requires idx <= |lines|
    decreases |lines| - idx
  {
    if idx == |lines| || Around(p, lines[idx]) == [] then idx
    else Scan(lines, idx + 1, Behind(Around(p, lines[idx]), lines[idx]))
  }

  // ----- closing blocks ------------------------------------------------------------------------------------

  /** A block that cannot go on with the next line might as well be closed already. */
  lemma {:induction false} CloseOne(lines: seq<Line>, idx: nat, stack: seq<Frame>, frame: Frame)
    requires idx <= |lines| && (idx < |lines| ==> !Takes(frame, lines[idx]))
    ensures Scan(lines, idx, Place(stack + [frame], None)) == Scan(lines, idx, Place(stack, None))
  {
    assert (stack + [frame])[..|stack|] == stack;
  }

  /** A value left open with nothing below it is closed. */
  lemma {:induction false} NothingBelow(lines: seq<Line>, idx: nat, stack: seq<Frame>, at: nat)
    requires idx <= |lines| && !Deeper(lines, idx, at)
    ensures Scan(lines, idx, Place(stack, Some(at))) == Scan(lines, idx, Place(stack, None))
  {}

  lemma {:induction false} TakeOne(lines: seq<Line>, idx: nat, stack: seq<Frame>, frame: Frame)
    requires idx < |lines| && Takes(frame, lines[idx])
    ensures Scan(lines, idx, Place(stack + [frame], None)) == Scan(lines, idx + 1, Behind(stack + [frame], lines[idx]))
  {}

  // ----- the reader and the pass ------------------------------------------------------------------------------

  lemma {:induction false} BlockScans(lines: seq<Line>, idx: nat, stack: seq<Frame>, at: nat)
    requires Deeper(lines, idx, at)
    ensures Scan(lines, idx, Place(stack, Some(at))) ==
      Scan(lines, Block(lines, idx, lines[idx].indent).next, Place(stack, None))
    decreases |lines| - idx, 2
  {
    var d := lines[idx].indent;
    if IsItem(lines[idx].text) {
      TakeOne(lines, idx, stack, Dashes(d));
      ItemsScan(lines, idx, stack, d);
    } else {
      TakeOne(lines, idx, stack, Keys(d));
      FieldsScan(lines, idx, stack, d, map[]);
    }
  }

  lemma {:induction false} AfterScans(text: string, lines: seq<Line>, idx: nat, stack: seq<Frame>, at: nat)
    requires idx <= |lines|
    ensures Scan(lines, idx, Place(stack, if text == "" then Some(at) else None)) ==
      Scan(lines, After(text, lines, idx, at).next, Place(stack, None))
    decreases |lines| - idx, 3
  {
    if text == "" && Deeper(lines, idx, at) {
      BlockScans(lines, idx, stack, at);
    } else if text == "" {
      NothingBelow(lines, idx, stack, at);
    }
  }

  lemma {:induction false} ItemsScan(lines: seq<Line>, idx: nat, stack: seq<Frame>, d: nat)
    requires idx <= |lines|
    ensures Scan(lines, idx, Place(stack + [Dashes(d)], None)) == Scan(lines, Items(lines, idx, d).next, Place(stack, None))
    decreases |lines| - idx, 1
  {
    if idx < |lines| && Takes(Dashes(d), lines[idx]) {
      TakeOne(lines, idx, stack, Dashes(d));
      ItemScans(lines, idx, stack, d);
      ItemsScan(lines, Item(lines, idx, d).next, stack, d);
    } else {
      CloseOne(lines, idx, stack, Dashes(d));
    }
  }

  lemma {:induction false} ItemScans(lines: seq<Line>, idx: nat, stack: seq<Frame>, d: nat)
    requires idx < |lines| && Takes(Dashes(d), lines[idx])
    ensures Scan(lines, idx + 1, Behind(stack + [Dashes(d)], lines[idx])) ==
      Scan(lines, Item(lines, idx, d).next, Place(stack + [Dashes(d)], None))
    decreases |lines| - idx, 0
  {
    var list, text := stack + [Dashes(d)], ItemText(lines[idx].text);
    assert list[|list| - 1] == Dashes(d);
    if text == "" {
      assert Behind(list, lines[idx]) == Place(list, Some(d));
      AfterScans("", lines, idx + 1, list, d);
    } else if ':' in text {
      assert Behind(list, lines[idx]) == Place(list + [Body(d)], Pending(text, d));
      BodyScans(lines, idx, list, d, text);
    } else {
      assert Behind(list, lines[idx]) == Place(list, None);
    }
  }

  lemma {:induction false} BodyScans(lines: seq<Line>, idx: nat, list: seq<Frame>, d: nat, text: string)
    requires idx < |lines| && IsItem(lines[idx].text) && text == ItemText(lines[idx].text) && ':' in text
    ensures Scan(lines, idx + 1, Place(list + [Body(d)], Pending(text, d))) ==
      Scan(lines, Item(lines, idx, d).next, Place(list, None))
    decreases |lines| - idx - 1, 4
  {
    var (key, v) := Split(text);
    var p := After(v, lines, idx + 1, d);
    AfterScans(v, lines, idx + 1, list + [Body(d)], d);
    MoreScans(lines, p.next, list, d, Set(map[], key, p.value));
  }

  /** A line that is not taken as a list item: past its value, or past itself if it is no key. */
  lemma {:induction false} KeyLineScans(lines: seq<Line>, idx: nat, stack: seq<Frame>, frame: Frame)
    requires idx < |lines| && !frame.Dashes? && Takes(frame, lines[idx])
    ensures var text, indent := lines[idx].text, lines[idx].indent;
            var next := if ':' in text then After(Split(text).1, lines, idx + 1, indent).next else idx + 1;
      Scan(lines, idx, Place(stack + [frame], None)) == Scan(lines, next, Place(stack + [frame], None))
    decreases |lines| - idx, 0
  {
    var text, indent := lines[idx].text, lines[idx].indent;
    TakeOne(lines, idx, stack, frame);
    if ':' in text {
      AfterScans(Split(text).1, lines, idx + 1, stack + [frame], indent);
    }
  }

  lemma {:induction false} MoreScans(lines: seq<Line>, idx: nat, stack: seq<Frame>, d: nat, m: map<string, Value>)
    requires idx <= |lines|
    ensures Scan(lines, idx, Place(stack + [Body(d)], None)) == Scan(lines, More(lines, idx, d, m).next, Place(stack, None))
    decreases |lines| - idx, 1
  {
    if idx < |lines| && Takes(Body(d), lines[idx]) {
      KeyLineScans(lines, idx, stack, Body(d));
      if ':' in lines[idx].text {
        var (key, v) := Split(lines[idx].text);
        var p := After(v, lines, idx + 1, lines[idx].indent);
        MoreScans(lines, p.next, stack, d, Set(m, key, p.value));
      } else {
        MoreScans(lines, idx + 1, stack, d, m);
      }
    } else {
      CloseOne(lines, idx, stack, Body(d));
    }
  }

  lemma {:induction false} FieldsScan(lines: seq<Line>, idx: nat, stack: seq<Frame>, d: nat, m: map<string, Value>)
    requires idx <= |lines|
    ensures Scan(lines, idx, Place(stack + [Keys(d)], None)) == Scan(lines, Fields(lines, idx, d, m).next, Place(stack, None))
    decreases |lines| - idx, 1
  {
    if idx < |lines| && Takes(Keys(d), lines[idx]) {
      KeyLineScans(lines, idx, stack, Keys(d));
      if ':' in lines[idx].text {
        var (key, v) := Split(lines[idx].text);
        var p := After(v, lines, idx + 1, d);
        FieldsScan(lines, p.next, stack, d, m[key := if p.value.Some? then p.value.value else Null]);
      } else {
        FieldsScan(lines, idx + 1, stack, d, m);
      }
    } else {
      CloseOne(lines, idx, stack, Keys(d));
    }
  }

  /** Where the pass begins: in the block of the first line. */
  function Outermost(line: Line): Place {
    Place([if IsItem(line.text) then Dashes(line.indent) else Keys(line.indent)], None)
  }

  /**
    The reader takes exactly the lines that one pass finds a place for; so a document is read to
    its end exactly when every line has a place, and otherwise everything from the first line
    without one is ignored.
   */
  lemma {:induction false} ReadsAsFarAsLinesHavePlaces(lines: seq<Line>)
    requires lines != []
    ensures Block(lines, 0, lines[0].indent).next == Scan(lines, 0, Outermost(lines[0]))
  {
    var d := lines[0].indent;
    if IsItem(lines[0].text) {
      assert [] + [Dashes(d)] == [Dashes(d)];
      ItemsScan(lines, 0, [], d);
    } else {
      assert [] + [Keys(d)] == [Keys(d)];
      FieldsScan(lines, 0, [], d, map[]);
    }
  }
}
