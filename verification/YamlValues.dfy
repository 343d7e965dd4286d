/**
  What the YAML reader of `internal/config/config.go` returns for an arbitrary line list: which
  keys a mapping or a list item has, which line each value comes from, and which lines of a list
  are its items.
 */
module YamlValues {
  import opened Wrappers
  import opened Yaml
  import opened YamlProperties

  // ----- mappings ----------------------------------------------------------------------------------

  /** Line `k` is a line of the mapping indented this far, and names `key`. */
  predicate Names(lines: seq<Line>, k: nat, indent: nat, key: string) {
    k < |lines| && lines[k].indent == indent && ':' in lines[k].text && Split(lines[k].text).0 == key
  }

  /** Some line from `i` up to `j` names `key`. */
  predicate Named(lines: seq<Line>, i: nat, j: nat, indent: nat, key: string) {
    exists k: nat :: i <= k < j && Names(lines, k, indent, key)
  }

  /** Line `k` is the last one from `i` up to `j` that names `key`. */
  predicate NamesLast(lines: seq<Line>, i: nat, j: nat, k: nat, indent: nat, key: string) {
    i <= k < j && Names(lines, k, indent, key) && !Named(lines, k + 1, j, indent, key)
  }

  /** What stands on a line behind its colon, or else in the deeper block below it; `None` when nothing does. */
  function Given(lines: seq<Line>, k: nat, text: string, indent: nat): Option<Value>
    requires k < |lines|
  {
    if text != "" then Some(Leaf(text))
    else if k + 1 < |lines| && lines[k + 1].indent > indent then Some(Block(lines, k + 1, lines[k + 1].indent).value)
    else None
  }

  function GivenAt(lines: seq<Line>, k: nat): Option<Value>
    requires k < |lines| && ':' in lines[k].text
  {
    Given(lines, k, Split(lines[k].text).1, lines[k].indent)
  }

  function OrNull(v: Option<Value>): Value {
    if v.Some? then v.value else Null
  }

  /** No line between a key and the end of its value is one of its mapping. */
  lemma NoneNamedBelow(lines: seq<Line>, i: nat, j: nat, indent: nat, key: string)
    requires Covers(lines, i, j, indent + 1)
    ensures !Named(lines, i, j, indent, key)
  {}

  lemma NamedSplit(lines: seq<Line>, i: nat, j: nat, n: nat, indent: nat, key: string)
    requires i < j <= n && !Named(lines, i + 1, j, indent, key)
    ensures Named(lines, i, n, indent, key) <==> Names(lines, i, indent, key) || Named(lines, j, n, indent, key)
  {
    if Named(lines, i, n, indent, key) && !Names(lines, i, indent, key) {
      var k: nat :| i <= k < n && Names(lines, k, indent, key);
      assert k >= j;
    }
    if Named(lines, j, n, indent, key) {
      var k: nat :| j <= k < n && Names(lines, k, indent, key);
      assert i <= k < n;
    }
  }

  /** How `key` stands in `after`, when lines `i` up to `j` were added to the mapping `before`. */
  ghost predicate Adds(lines: seq<Line>, i: nat, j: nat, indent: nat, key: string,
                       before: map<string, Value>, after: map<string, Value>)
    requires j <= |lines|
  {
    && (Named(lines, i, j, indent, key) ==> key in after)
    && (forall k: nat :: NamesLast(lines, i, j, k, indent, key) ==> Holds(after, key, OrNull(GivenAt(lines, k))))
    && (!Named(lines, i, j, indent, key) ==> Same(before, after, key))
  }

  predicate Holds(m: map<string, Value>, key: string, v: Value) {
    key in m && m[key] == v
  }

  predicate Same(a: map<string, Value>, b: map<string, Value>, key: string) {
    (key in a <==> key in b) && (key in a ==> a[key] == b[key])
  }

  /** How `key` stands in `after`, when line `k` alone was added. */
  predicate AddsAt(lines: seq<Line>, k: nat, indent: nat, key: string, before: map<string, Value>, after: map<string, Value>) {
    if Names(lines, k, indent, key) then Holds(after, key, OrNull(GivenAt(lines, k))) else Same(before, after, key)
  }

  lemma AddsNothing(lines: seq<Line>, i: nat, indent: nat, key: string, m: map<string, Value>)
    requires i <= |lines|
    ensures Adds(lines, i, i, indent, key, m, m)
  {}

  lemma KeyAdds(lines: seq<Line>, k: nat, key: string, m: map<string, Value>)
    requires k < |lines| && ':' in lines[k].text
    ensures AddsAt(lines, k, lines[k].indent, key, m, m[Split(lines[k].text).0 := OrNull(GivenAt(lines, k))])
  {}

  /** Over one line, with what is below it up to `j`. */
  lemma AddsOne(lines: seq<Line>, i: nat, j: nat, n: nat, indent: nat, key: string,
                before: map<string, Value>, mid: map<string, Value>, after: map<string, Value>)
    requires i < j <= n <= |lines| && Covers(lines, i + 1, j, indent + 1)
    requires AddsAt(lines, i, indent, key, before, mid)
    requires Adds(lines, j, n, indent, key, mid, after)
    ensures Adds(lines, i, n, indent, key, before, after)
  {
    NoneNamedBelow(lines, i + 1, j, indent, key);
    NamedSplit(lines, i, j, n, indent, key);
    forall k: nat | NamesLast(lines, i, n, k, indent, key) ensures Holds(after, key, OrNull(GivenAt(lines, k))) {
      if k == i {
        LaterUnnamed(lines, i + 1, j, n, indent, key);
      } else {
        assert k >= j;
        assert NamesLast(lines, j, n, k, indent, key);
      }
    }
  }

  lemma LaterUnnamed(lines: seq<Line>, i: nat, j: nat, n: nat, indent: nat, key: string)
    requires i <= j && !Named(lines, i, n, indent, key)
    ensures !Named(lines, j, n, indent, key)
  {}

  /** `After`, said without naming it. */
  lemma AfterGives(lines: seq<Line>, k: nat, text: string, indent: nat)
    requires k < |lines|
    ensures After(text, lines, k + 1, indent).value == Given(lines, k, text, indent)
    ensures Covers(lines, k + 1, After(text, lines, k + 1, indent).next, indent + 1)
  {
    AfterProgress(text, lines, k + 1, indent);
  }

  lemma {:induction false} FieldsAdd(lines: seq<Line>, idx: nat, indent: nat, m: map<string, Value>, key: string)
    requires idx <= |lines|
    ensures var r := Fields(lines, idx, indent, m); Adds(lines, idx, r.next, indent, key, m, r.value)
    decreases |lines| - idx
  {
    if idx < |lines| && lines[idx].indent == indent {
      var r := Fields(lines, idx, indent, m);
      if ':' in lines[idx].text {
        var (name, v) := Split(lines[idx].text);
        var p := After(v, lines, idx + 1, indent);
        AfterGives(lines, idx, v, indent);
        var mid := m[name := OrNull(p.value)];
        KeyAdds(lines, idx, key, m);
        FieldsAdd(lines, p.next, indent, mid, key);
        AddsOne(lines, idx, p.next, r.next, indent, key, m, mid, r.value);
      } else {
        FieldsAdd(lines, idx + 1, indent, m, key);
        AddsOne(lines, idx, idx + 1, r.next, indent, key, m, m, r.value);
      }
    } else {
      AddsNothing(lines, idx, indent, key, m);
    }
  }

  /**
    A block that is read as a mapping has exactly the keys named on its own lines, those of the
    block's indentation with a colon, and every key has the value given on, or below, the last
    line that names it.
   */
  lemma MappingExactly(lines: seq<Line>, idx: nat, key: string)
    requires idx < |lines| && !IsItem(lines[idx].text)
    ensures var r := Block(lines, idx, lines[idx].indent);
      && r.value.Map? && idx < r.next <= |lines|
      && (key in r.value.fields <==> Named(lines, idx, r.next, lines[idx].indent, key))
      && (forall k: nat :: NamesLast(lines, idx, r.next, k, lines[idx].indent, key) ==>
            Holds(r.value.fields, key, OrNull(GivenAt(lines, k))))
      && (r.next < |lines| ==> lines[r.next].indent != lines[idx].indent)
  {
    FieldsAdd(lines, idx, lines[idx].indent, map[], key);
    FieldsProgress(lines, idx, lines[idx].indent, map[]);
  }

  lemma UnnamedLast(lines: seq<Line>, i: nat, j: nat, indent: nat, key: string)
    requires j > 0 && !Names(lines, j - 1, indent, key)
    ensures Named(lines, i, j, indent, key) <==> Named(lines, i, j - 1, indent, key)
  {
    if k: nat :| i <= k < j && Names(lines, k, indent, key) {
      assert k < j - 1;
    }
  }

  /** Every key that is named has a last line that names it, so `MappingExactly` gives every value. */
  lemma {:induction false} LastLineExists(lines: seq<Line>, i: nat, j: nat, indent: nat, key: string) returns (k: nat)
    requires Named(lines, i, j, indent, key)
    ensures NamesLast(lines, i, j, k, indent, key)
    decreases j
  {
    if Names(lines, j - 1, indent, key) {
      k := j - 1;
    } else {
      UnnamedLast(lines, i, j, indent, key);
      k := LastLineExists(lines, i, j - 1, indent, key);
      UnnamedLast(lines, k + 1, j, indent, key);
    }
  }

  /**
    A list written at its key's own indentation is lost: when a key without value is followed by
    lines without colon at the same indentation, all of them are taken and the key is null.
   */
  lemma ListAtItsKeysIndentation(lines: seq<Line>, key: string)
    requires lines != [] && !IsItem(lines[0].text) && ':' in lines[0].text && Split(lines[0].text) == (key, "")
    requires forall k :: 0 < k < |lines| ==> lines[k].indent == lines[0].indent && ':' !in lines[k].text
    ensures Block(lines, 0, lines[0].indent) == Parsed(Map(map[key := Null]), |lines|)
  {
    var r := Block(lines, 0, lines[0].indent);
    var m := map[key := Null];
    MappingExactly(lines, 0, key);
    assert Names(lines, 0, lines[0].indent, key);
    assert NamesLast(lines, 0, r.next, 0, lines[0].indent, key);
    forall other ensures other in r.value.fields <==> other in m {
      MappingExactly(lines, 0, other);
    }
    assert r.value.fields == m;
  }

  /** The whole reader: no line, a list, or a mapping whose keys are those named at the first line's indentation. */
  lemma DocumentExactly(text: string, key: string)
    ensures var lines := LinesOf(Rows(text));
      if lines == [] then Document(text) == Ok(map[])
      else if IsItem(lines[0].text) then Document(text).Err?
      else
        var n := Block(lines, 0, lines[0].indent).next;
        && Document(text).Ok?
        && (key in Document(text).value <==> Named(lines, 0, n, lines[0].indent, key))
        && (forall k: nat :: NamesLast(lines, 0, n, k, lines[0].indent, key) ==>
              Holds(Document(text).value, key, OrNull(GivenAt(lines, k))))
  {
    var lines := LinesOf(Rows(text));
    if lines != [] && !IsItem(lines[0].text) {
      MappingExactly(lines, 0, key);
    }
  }

  // ----- lists -------------------------------------------------------------------------------------

  /** The lines from `i` up to `j` that are indented exactly this far, in order. */
  function Heads(lines: seq<Line>, i: nat, j: nat, indent: nat): seq<nat>
    requires i <= j <= |lines|
    decreases j - i
  {
    if i == j then [] else (if lines[i].indent == indent then [i] else []) + Heads(lines, i + 1, j, indent)
  }

  lemma {:induction false} NoHeadsBelow(lines: seq<Line>, i: nat, j: nat, n: nat, indent: nat)
    requires Covers(lines, i, j, indent + 1) && j <= n <= |lines|
    ensures Heads(lines, i, n, indent) == Heads(lines, j, n, indent)
    decreases j - i
  {
    if i < j {
      NoHeadsBelow(lines, i + 1, j, n, indent);
    }
  }

  /** The values are those of the items that start at the given lines. */
  predicate ItemsAt(lines: seq<Line>, heads: seq<nat>, indent: nat, values: seq<Value>) {
    && |values| == |heads|
    && forall i :: 0 <= i < |heads| ==> ItemAt(lines, heads[i], indent, values[i])
  }

  /** Line `k` starts an item with this value. */
  predicate ItemAt(lines: seq<Line>, k: nat, indent: nat, v: Value) {
    k < |lines| && IsItem(lines[k].text) && Item(lines, k, indent).value == v
  }

  lemma ItemsAtFirst(lines: seq<Line>, k: nat, heads: seq<nat>, indent: nat, v: Value, values: seq<Value>)
    requires ItemAt(lines, k, indent, v) && ItemsAt(lines, heads, indent, values)
    ensures ItemsAt(lines, [k] + heads, indent, [v] + values)
  {}

  lemma {:induction false} ItemsAreTheHeads(lines: seq<Line>, idx: nat, indent: nat)
    requires idx <= |lines|
    ensures var r := Items(lines, idx, indent);
      && ItemsAt(lines, Heads(lines, idx, r.next, indent), indent, r.value)
      && (r.next < |lines| ==> lines[r.next].indent != indent || !IsItem(lines[r.next].text))
    decreases |lines| - idx
  {
    if idx < |lines| && lines[idx].indent == indent && IsItem(lines[idx].text) {
      var p := Item(lines, idx, indent);
      var q := Items(lines, p.next, indent);
      ItemsStep(lines, idx, indent, p.value, p.next);
      ItemsAreTheHeads(lines, p.next, indent);
      ItemProgress(lines, idx, indent);
      NoHeadsBelow(lines, idx + 1, p.next, q.next, indent);
      ItemsAtFirst(lines, idx, Heads(lines, p.next, q.next, indent), indent, p.value, q.value);
    }
  }

  /**
    A block that is read as a list has exactly one item for each of its lines of the block's own
    indentation, in order; all of them are dash lines, and the first one of that indentation that is
    not ends the list.
   */
  lemma ListExactly(lines: seq<Line>, idx: nat)
    requires idx < |lines| && IsItem(lines[idx].text)
    ensures var r := Block(lines, idx, lines[idx].indent);
      && r.value.List? && idx < r.next <= |lines|
      && ItemsAt(lines, Heads(lines, idx, r.next, lines[idx].indent), lines[idx].indent, r.value.items)
      && (r.next < |lines| ==> lines[r.next].indent != lines[idx].indent || !IsItem(lines[r.next].text))
  {
    ItemsAreTheHeads(lines, idx, lines[idx].indent);
  }

  // ----- list items ----------------------------------------------------------------------------------

  /** The first line behind line `k` and what is given there to a key of this indentation. */
  function Past(lines: seq<Line>, k: nat, text: string, indent: nat): (n: nat)
    requires k < |lines|
    ensures k < n <= |lines|
  {
    if text == "" && k + 1 < |lines| && lines[k + 1].indent > indent then Block(lines, k + 1, lines[k + 1].indent).next
    else k + 1
  }

  /** Where the loop over an item's further keys gets to from line `k`. */
  function Onward(lines: seq<Line>, k: nat): (n: nat)
    requires k < |lines|
    ensures k < n <= |lines|
  {
    if ':' in lines[k].text then Past(lines, k, Split(lines[k].text).1, lines[k].indent) else k + 1
  }

  /** The lines of a list item that are not part of a value, from line `idx` on. */
  function Turns(lines: seq<Line>, idx: nat, indent: nat): seq<nat>
    decreases |lines| - idx
  {
    if idx >= |lines| || lines[idx].indent <= indent || Dashed(lines[idx].text) then []
    else [idx] + Turns(lines, Onward(lines, idx), indent)
  }

  /** Line `k` names `key` and gives it a value; in a list item a key without one is not set. */
  predicate Sets(lines: seq<Line>, k: nat, key: string) {
    k < |lines| && ':' in lines[k].text && Split(lines[k].text).0 == key && GivenAt(lines, k).Some?
  }

  /** The last of the given lines that sets `key` decides; without one, `key` is as before. */
  ghost predicate SetBy(lines: seq<Line>, turns: seq<nat>, key: string, before: map<string, Value>, after: map<string, Value>) {
    if turns == [] then Same(before, after, key)
    else
      var n := |turns| - 1;
      if Sets(lines, turns[n], key) then Holds(after, key, GivenAt(lines, turns[n]).value)
      else SetBy(lines, turns[..n], key, before, after)
  }

  lemma {:induction false} SetByFirst(lines: seq<Line>, k: nat, turns: seq<nat>, key: string,
                                      before: map<string, Value>, mid: map<string, Value>, after: map<string, Value>)
    requires if Sets(lines, k, key) then Holds(mid, key, GivenAt(lines, k).value) else Same(before, mid, key)
    requires SetBy(lines, turns, key, mid, after)
    ensures SetBy(lines, [k] + turns, key, before, after)
  {
    var all := [k] + turns;
    if turns == [] {
      assert all == [k] && all[..0] == [];
    } else {
      var n := |turns| - 1;
      assert all[n + 1] == turns[n] && all[..n + 1] == [k] + turns[..n];
      if !Sets(lines, turns[n], key) {
        SetByFirst(lines, k, turns[..n], key, before, mid, after);
      }
    }
  }

  lemma {:induction false} MoreSets(lines: seq<Line>, idx: nat, indent: nat, m: map<string, Value>, key: string)
    requires idx <= |lines|
    ensures SetBy(lines, Turns(lines, idx, indent), key, m, More(lines, idx, indent, m).value)
    decreases |lines| - idx
  {
    if Deeper(lines, idx, indent) && !Dashed(lines[idx].text) {
      var after := More(lines, idx, indent, m).value;
      var next := Onward(lines, idx);
      var turns := Turns(lines, next, indent);
      if ':' in lines[idx].text {
        var (name, v) := Split(lines[idx].text);
        AfterGives(lines, idx, v, lines[idx].indent);
        var mid := Set(m, name, GivenAt(lines, idx));
        assert After(v, lines, idx + 1, lines[idx].indent).next == next;
        MoreSets(lines, next, indent, mid, key);
        SetByFirst(lines, idx, turns, key, m, mid, after);
      } else {
        MoreSets(lines, next, indent, m, key);
        SetByFirst(lines, idx, turns, key, m, m, after);
      }
    }
  }

  /**
    A list item: nothing behind the dash means the deeper block below or null, text without colon
    is a scalar, and anything else a mapping.  Its keys are the one behind the dash, when something
    is given to it, and those set on the further lines; the last line that sets a key decides, and
    a line without colon sets none.
   */
  lemma ItemExactly(lines: seq<Line>, idx: nat, indent: nat, key: string)
    requires idx < |lines| && IsItem(lines[idx].text)
    ensures var text := ItemText(lines[idx].text);
            var v := Item(lines, idx, indent).value;
      if text == "" then v == OrNull(Given(lines, idx, "", indent))
      else if ':' !in text then v == Leaf(text) && Item(lines, idx, indent).next == idx + 1
      else
        var first := Given(lines, idx, Split(text).1, indent);
        v.Map? && SetBy(lines, Turns(lines, Past(lines, idx, Split(text).1, indent), indent), key,
                        if first.Some? then map[Split(text).0 := first.value] else map[], v.fields)
  {
    var text := ItemText(lines[idx].text);
    if text == "" {
      AfterGives(lines, idx, "", indent);
    } else if ':' in text {
      var (name, v) := Split(text);
      AfterGives(lines, idx, v, indent);
      var p := After(v, lines, idx + 1, indent);
      MoreSets(lines, p.next, indent, Set(map[], name, p.value), key);
    }
  }

  /** One of the given lines sets `key`. */
  predicate SomeSets(lines: seq<Line>, turns: seq<nat>, key: string) {
    exists i :: 0 <= i < |turns| && Sets(lines, turns[i], key)
  }

  lemma {:induction false} SetByMeans(lines: seq<Line>, turns: seq<nat>, key: string,
                                      before: map<string, Value>, after: map<string, Value>)
    requires SetBy(lines, turns, key, before, after)
    ensures key in after <==> key in before || SomeSets(lines, turns, key)
  {
    if turns != [] && !Sets(lines, turns[|turns| - 1], key) {
      SetByMeans(lines, turns[..|turns| - 1], key, before, after);
    }
  }

  /** A mapping item has exactly the keys to which something is given, behind the dash or on a further line. */
  lemma ItemKeysExactly(lines: seq<Line>, idx: nat, indent: nat, key: string)
    requires idx < |lines| && IsItem(lines[idx].text) && ':' in ItemText(lines[idx].text)
    ensures Item(lines, idx, indent).value.Map?
    ensures var head := Split(ItemText(lines[idx].text));
            var turns := Turns(lines, Past(lines, idx, head.1, indent), indent);
      key in Item(lines, idx, indent).value.fields <==>
        (head.0 == key && Given(lines, idx, head.1, indent).Some?) || SomeSets(lines, turns, key)
  {
    ItemExactly(lines, idx, indent, key);
    var head := Split(ItemText(lines[idx].text));
    var first := Given(lines, idx, head.1, indent);
    var before := if first.Some? then map[head.0 := first.value] else map[];
    SetByMeans(lines, Turns(lines, Past(lines, idx, head.1, indent), indent), key, before,
               Item(lines, idx, indent).value.fields);
  }
}
