/**
  What the block parser of `internal/config/config.go` makes of printed trees, and when that is
  what they mean.
 */
module YamlRoundTrip {
  import opened Wrappers
  import opened Yaml
  import opened YamlTrees

  // ----- strings --------------------------------------------------------------------------------------

  lemma TrimTrimmed(s: string)
    requires Trimmed(s)
    ensures Trim(s) == s && Trim(" " + s) == s
  {
    assert (" " + s)[1..] == s;
  }

  /** A key's line as the parser sees it. */
  lemma SplitKeyText(f: Field)
    requires CleanField(f)
    ensures ':' in KeyText(f) && Split(KeyText(f)) == (f.key, ValueText(f.value)) && !IsItem(KeyText(f))
  {
    var v := if f.value.Scalar? then " " + f.value.text else "";
    assert KeyText(f) == f.key + ":" + v;
    SplitAt(f.key, v);
    TrimTrimmed(f.key);
    TrimTrimmed(ValueText(f.value));
  }

  lemma SplitAt(key: string, v: string)
    requires CleanKey(key)
    ensures var s := key + ":" + v; ':' in s && Split(s) == (Trim(key), Trim(v)) && !IsItem(s)
  {
    var s := key + ":" + v;
    assert s[|key|] == ':' && s[..|key|] == key && s[|key| + 1..] == v;
    FindIs(s, ':', |key|);
    assert |key| >= 2 ==> s[0] == key[0] && s[1] == key[1];
  }

  lemma FindIs(s: string, c: char, n: nat)
    requires n < |s| && s[n] == c && c !in s[..n]
    ensures Find(s, c) == n
  {
    var f := Find(s, c);
    assert forall k :: 0 <= k < f ==> s[k] == s[..f][k];
    assert forall k :: 0 <= k < n ==> s[k] == s[..n][k];
  }

  lemma KeyTextTrimmed(f: Field)
    requires CleanField(f)
    ensures KeyText(f) != "" && Trimmed(KeyText(f))
  {
    var s := KeyText(f);
    if f.value.Scalar? {
      assert s[|s| - 1] == f.value.text[|f.value.text| - 1];
    } else {
      assert s[|s| - 1] == ':';
    }
    assert s[0] == if f.key == "" then ':' else f.key[0];
  }

  lemma ItemTextIs(s: string)
    requires Trimmed(s)
    ensures IsItem("- " + s) && ItemText("- " + s) == s
  {
    assert ("- " + s)[2..] == s;
    TrimTrimmed(s);
  }

  lemma HangingKeyText(f: Field)
    requires CleanField(f)
    ensures IsItem("- " + KeyText(f))
    ensures var s := ItemText("- " + KeyText(f)); s != "" && ':' in s && Split(s) == (f.key, ValueText(f.value))
  {
    KeyTextTrimmed(f);
    ItemTextIs(KeyText(f));
    SplitKeyText(f);
  }

  // ----- round trip -----------------------------------------------------------------------------------

  /** `part` stands at position `idx`. */
  predicate At(lines: seq<Line>, idx: nat, part: seq<Line>) {
    idx + |part| <= |lines| && forall k: nat :: k < |part| ==> Agree(lines, idx, part, k)
  }

  predicate Agree(lines: seq<Line>, idx: nat, part: seq<Line>, k: nat) {
    k < |part| && idx + k < |lines| && lines[idx + k] == part[k]
  }

  /** The lines end at `idx`, or go on at less than the given indentation. */
  predicate Ends(lines: seq<Line>, idx: nat, indent: nat) {
    idx == |lines| || (idx < |lines| && lines[idx].indent < indent)
  }

  lemma AtSplit(lines: seq<Line>, idx: nat, a: seq<Line>, b: seq<Line>)
    requires At(lines, idx, a + b)
    ensures At(lines, idx, a) && At(lines, idx + |a|, b)
  {
    forall k: nat | k < |a| ensures Agree(lines, idx, a, k) {
      assert Agree(lines, idx, a + b, k);
    }
    var mid := idx + |a|;
    forall k: nat | k < |b| ensures Agree(lines, mid, b, k) {
      assert Agree(lines, idx, a + b, |a| + k);
    }
  }

  lemma AtFirst(lines: seq<Line>, idx: nat, part: seq<Line>)
    requires At(lines, idx, part) && part != []
    ensures lines[idx] == part[0]
  {
    assert Agree(lines, idx, part, 0);
  }

  lemma AtHead(lines: seq<Line>, idx: nat, head: Line, b: seq<Line>)
    requires At(lines, idx, [head] + b)
    ensures idx < |lines| && lines[idx] == head && At(lines, idx + 1, b)
  {
    AtSplit(lines, idx, [head], b);
    AtFirst(lines, idx, [head]);
  }

  lemma PartsAt(lines: seq<Line>, idx: nat, head: Line, a: seq<Line>, b: seq<Line>)
    requires At(lines, idx, [head] + (a + b))
    ensures idx < |lines| && lines[idx] == head && At(lines, idx + 1, a) && At(lines, idx + 1 + |a|, b)
    ensures |[head] + (a + b)| == 1 + |a| + |b|
  {
    AtHead(lines, idx, head, a + b);
    AtSplit(lines, idx + 1, a, b);
  }

  /** Where a printed block starts, and what with. */
  lemma PrintStarts(t: Tree, indent: nat)
    requires IsBlock(t) && Clean(t)
    ensures var p := Print(t, indent); p != [] && p[0].indent == indent && (IsItem(p[0].text) <==> t.Sequence?)
  {
    if t.Mapping? {
      var f := t.fields[0];
      assert CleanFields(t.fields) && CleanField(f);
      SplitKeyText(f);
      assert PrintFields(t.fields, indent) == PrintKeys(KeyText(f), t.fields, indent, indent);
    } else {
      assert Print(t, indent) == PrintItems(t.items, indent);
      ItemStarts(t.items[0], indent);
    }
  }

  lemma ItemStarts(t: Tree, indent: nat)
    ensures var p := PrintItem(t, indent); p != [] && p[0].indent == indent && IsItem(p[0].text)
  {}

  /**
    Wherever a printed clean tree stands in a line list, whatever comes before it and whatever
    less indented lines follow, the block parser returns the tree's reading and takes exactly its
    lines.
   */
  lemma BlockReads(t: Tree, lines: seq<Line>, idx: nat, indent: nat)
    requires IsBlock(t) && Clean(t)
    requires At(lines, idx, Print(t, indent)) && Ends(lines, idx + |Print(t, indent)|, indent)
    ensures Block(lines, idx, indent) == Parsed(Reading(t), idx + |Print(t, indent)|)
    decreases t, 0
  {
    PrintStarts(t, indent);
    AtFirst(lines, idx, Print(t, indent));
    if t.Sequence? {
      ItemsRead(t.items, lines, idx, indent);
    } else {
      FieldsRead(t.fields, lines, idx, indent, map[]);
    }
  }

  lemma {:induction false} ItemsRead(items: seq<Tree>, lines: seq<Line>, idx: nat, indent: nat)
    requires CleanItems(items)
    requires At(lines, idx, PrintItems(items, indent)) && Ends(lines, idx + |PrintItems(items, indent)|, indent)
    ensures Items(lines, idx, indent) == Parsed(ItemReadings(items), idx + |PrintItems(items, indent)|)
    decreases items, 0
  {
    if items != [] {
      var next := FirstItem(items, lines, idx, indent);
      ItemsRead(items[1..], lines, next, indent);
    }
  }

  /** Where the second item starts, when the items stand at `idx`. */
  lemma FirstItem(items: seq<Tree>, lines: seq<Line>, idx: nat, indent: nat) returns (next: nat)
    requires items != [] && CleanItems(items)
    requires At(lines, idx, PrintItems(items, indent)) && Ends(lines, idx + |PrintItems(items, indent)|, indent)
    ensures CleanItems(items[1..])
    ensures next <= |lines| && At(lines, next, PrintItems(items[1..], indent))
    ensures next + |PrintItems(items[1..], indent)| == idx + |PrintItems(items, indent)|
    ensures Items(lines, idx, indent).value == [ItemReading(items[0])] + Items(lines, next, indent).value
    ensures Items(lines, idx, indent).next == Items(lines, next, indent).next
    decreases items[0], 4
  {
    var a, b := PrintItem(items[0], indent), PrintItems(items[1..], indent);
    assert PrintItems(items, indent) == a + b && Clean(items[0]) && CleanItems(items[1..]);
    AtSplit(lines, idx, a, b);
    ItemStarts(items[0], indent);
    AtFirst(lines, idx, a);
    next := idx + |a|;
    NextItem(items[1..], lines, next, indent);
    ItemReads(items[0], lines, idx, indent);
    ItemsStep(lines, idx, indent, ItemReading(items[0]), next);
  }

  /** After an item comes another at the same indentation, or the end of the list. */
  lemma NextItem(items: seq<Tree>, lines: seq<Line>, idx: nat, indent: nat)
    requires At(lines, idx, PrintItems(items, indent)) && Ends(lines, idx + |PrintItems(items, indent)|, indent)
    ensures Ends(lines, idx, indent + 1)
  {
    if items != [] {
      ItemStarts(items[0], indent);
      AtSplit(lines, idx, PrintItem(items[0], indent), PrintItems(items[1..], indent));
      AtFirst(lines, idx, PrintItem(items[0], indent));
    }
  }

  lemma ItemReads(t: Tree, lines: seq<Line>, idx: nat, indent: nat)
    requires Clean(t)
    requires At(lines, idx, PrintItem(t, indent)) && Ends(lines, idx + |PrintItem(t, indent)|, indent + 1)
    requires idx < |lines| && IsItem(lines[idx].text)
    ensures Item(lines, idx, indent) == Parsed(ItemReading(t), idx + |PrintItem(t, indent)|)
    decreases t, 3
  {
    if t.Scalar? {
      ScalarReads(t.text, lines, idx, indent);
    } else if t.Mapping? && t.hangs && t.fields[0].value.Empty? {
      EmptyHangingReads(t, lines, idx, indent);
    } else if t.Mapping? && t.hangs {
      FilledHangingReads(t, lines, idx, indent);
    } else {
      BelowReads(t, lines, idx, indent);
    }
  }

  lemma BelowReads(t: Tree, lines: seq<Line>, idx: nat, indent: nat)
    requires Clean(t) && !t.Scalar?
    requires At(lines, idx, [Line(indent, "-")] + PrintValue(t, indent))
    requires Ends(lines, idx + 1 + |PrintValue(t, indent)|, indent + 1)
    ensures idx < |lines| && IsItem(lines[idx].text)
    ensures Item(lines, idx, indent) == Parsed(Reading(t), idx + 1 + |PrintValue(t, indent)|)
    decreases t, 2
  {
    AtHead(lines, idx, Line(indent, "-"), PrintValue(t, indent));
    ValueReads(t, lines, idx + 1, indent, indent);
  }

  lemma ScalarReads(text: string, lines: seq<Line>, idx: nat, indent: nat)
    requires CleanText(text) && At(lines, idx, [Line(indent, "- " + text)]) && Ends(lines, idx + 1, indent + 1)
    ensures lines[idx].text == "- " + text && IsItem("- " + text)
    ensures Item(lines, idx, indent) == Parsed(ScalarReading(text), idx + 1)
  {
    AtFirst(lines, idx, [Line(indent, "- " + text)]);
    ItemTextIs(text);
    ItemOfText(lines, idx, indent, text);
  }

  /** A one-line item with nothing below it. */
  lemma ItemOfText(lines: seq<Line>, idx: nat, indent: nat, text: string)
    requires idx < |lines| && IsItem(lines[idx].text) && ItemText(lines[idx].text) == text && text != ""
    requires Ends(lines, idx + 1, indent + 1)
    ensures Item(lines, idx, indent) == Parsed(ScalarReading(text), idx + 1)
  {
    if ':' in text {
      var (key, v) := Split(text);
      var given: Option<Value> := if v == "" then None else Some(Leaf(v));
      assert After(v, lines, idx + 1, indent) == Parsed(given, idx + 1);
      assert More(lines, idx + 1, indent, Set(map[], key, given)) == Parsed(Set(map[], key, given), idx + 1);
    }
  }

  /** The first line of a hanging mapping. */
  lemma HangingText(t: Tree, indent: nat) returns (text: string)
    requires Clean(t) && t.Mapping? && t.hangs
    ensures t.fields != [] && CleanFields(t.fields)
    ensures IsItem(text) && ItemText(text) != "" && ':' in ItemText(text)
    ensures Split(ItemText(text)) == (t.fields[0].key, ValueText(t.fields[0].value))
    ensures PrintItem(t, indent) == PrintKeys(text, t.fields, indent, indent + 1 + t.pad)
  {
    PrintHanging(t, indent);
    HangingKeyText(t.fields[0]);
    text := "- " + KeyText(t.fields[0]);
  }

  lemma PrintHanging(t: Tree, indent: nat)
    requires Clean(t) && t.Mapping? && t.hangs
    ensures t.fields != [] && CleanFields(t.fields) && CleanField(t.fields[0])
    ensures PrintItem(t, indent) == PrintKeys("- " + KeyText(t.fields[0]), t.fields, indent, indent + 1 + t.pad)
  {
    assert CleanFields(t.fields);
  }

  /** The value of a key, on its line or below it. */
  lemma ValueReads(t: Tree, lines: seq<Line>, idx: nat, at: nat, indent: nat)
    requires Clean(t) && at <= indent && (t.Empty? ==> at == indent)
    requires At(lines, idx, PrintValue(t, indent)) && Ends(lines, idx + |PrintValue(t, indent)|, indent + 1)
    ensures After(ValueText(t), lines, idx, at) ==
      Parsed(Given(t), idx + |PrintValue(t, indent)|)
    decreases t, 1
  {
    if IsBlock(t) {
      var inner := indent + 1 + t.pad;
      PrintStarts(t, inner);
      AtFirst(lines, idx, Print(t, inner));
      BlockReads(t, lines, idx, inner);
    }
  }

  /** The first key and its value, when they and the other keys stand at `idx`. */
  lemma KeysAt(text: string, fields: seq<Field>, lines: seq<Line>, idx: nat, at: nat, indent: nat)
    requires fields != []
    requires At(lines, idx, PrintKeys(text, fields, at, indent))
    ensures idx < |lines| && lines[idx] == Line(at, text)
    ensures At(lines, idx + 1, PrintValue(fields[0].value, indent))
    ensures At(lines, idx + 1 + |PrintValue(fields[0].value, indent)|, PrintFields(fields[1..], indent))
    ensures |PrintKeys(text, fields, at, indent)| ==
      1 + |PrintValue(fields[0].value, indent)| + |PrintFields(fields[1..], indent)|
  {
    var a, b := PrintValue(fields[0].value, indent), PrintFields(fields[1..], indent);
    assert PrintKeys(text, fields, at, indent) == [Line(at, text)] + (a + b);
    PartsAt(lines, idx, Line(at, text), a, b);
  }

  lemma NextField(fields: seq<Field>, lines: seq<Line>, idx: nat, indent: nat)
    requires At(lines, idx, PrintFields(fields, indent)) && Ends(lines, idx + |PrintFields(fields, indent)|, indent)
    ensures Ends(lines, idx, indent + 1)
  {
    if fields != [] {
      assert PrintFields(fields, indent) == PrintKeys(KeyText(fields[0]), fields, indent, indent);
      AtHead(lines, idx, Line(indent, KeyText(fields[0])),
             PrintValue(fields[0].value, indent) + PrintFields(fields[1..], indent));
    }
  }

  lemma FieldsStep(lines: seq<Line>, idx: nat, indent: nat, m: map<string, Value>, key: string, text: string, v: Option<Value>, next: nat)
    requires idx < |lines| && lines[idx].indent == indent && ':' in lines[idx].text
    requires Split(lines[idx].text) == (key, text) && After(text, lines, idx + 1, indent) == Parsed(v, next)
    ensures Fields(lines, idx, indent, m) == Fields(lines, next, indent, m[key := if v.Some? then v.value else Null])
  {}

  lemma MoreStep(lines: seq<Line>, idx: nat, outer: nat, m: map<string, Value>, key: string, text: string, v: Option<Value>, next: nat)
    requires Deeper(lines, idx, outer) && ':' in lines[idx].text && !Dashed(lines[idx].text)
    requires Split(lines[idx].text) == (key, text) && After(text, lines, idx + 1, lines[idx].indent) == Parsed(v, next)
    ensures More(lines, idx, outer, m) == More(lines, next, outer, Set(m, key, v))
  {}

  lemma FirstField(fields: seq<Field>, lines: seq<Line>, idx: nat, indent: nat, m: map<string, Value>) returns (next: nat)
    requires fields != [] && CleanFields(fields)
    requires At(lines, idx, PrintFields(fields, indent)) && Ends(lines, idx + |PrintFields(fields, indent)|, indent)
    ensures CleanFields(fields[1..])
    ensures next <= |lines| && At(lines, next, PrintFields(fields[1..], indent))
    ensures next + |PrintFields(fields[1..], indent)| == idx + |PrintFields(fields, indent)|
    ensures Fields(lines, idx, indent, m) == Fields(lines, next, indent, m[fields[0].key := Reading(fields[0].value)])
    decreases fields, 1
  {
    var f := fields[0];
    assert PrintFields(fields, indent) == PrintKeys(KeyText(f), fields, indent, indent);
    next := FirstKey(KeyText(f), fields, lines, idx, indent, indent);
    SplitKeyText(f);
    FieldsStep(lines, idx, indent, m, f.key, ValueText(f.value), Given(f.value), next);
  }

  lemma FirstMore(fields: seq<Field>, lines: seq<Line>, idx: nat, outer: nat, indent: nat, m: map<string, Value>)
    returns (next: nat)
    requires fields != [] && CleanFields(fields) && outer < indent
    requires At(lines, idx, PrintFields(fields, indent)) && Ends(lines, idx + |PrintFields(fields, indent)|, indent)
    ensures CleanFields(fields[1..])
    ensures next <= |lines| && At(lines, next, PrintFields(fields[1..], indent))
    ensures next + |PrintFields(fields[1..], indent)| == idx + |PrintFields(fields, indent)|
    ensures More(lines, idx, outer, m) == More(lines, next, outer, Set(m, fields[0].key, Given(fields[0].value)))
    decreases fields, 1
  {
    var f := fields[0];
    assert PrintFields(fields, indent) == PrintKeys(KeyText(f), fields, indent, indent);
    next := FirstKey(KeyText(f), fields, lines, idx, indent, indent);
    SplitKeyText(f);
    MoreStep(lines, idx, outer, m, f.key, ValueText(f.value), Given(f.value), next);
  }

  lemma {:induction false} FieldsRead(
    fields: seq<Field>, lines: seq<Line>, idx: nat, indent: nat, m: map<string, Value>)
    requires CleanFields(fields)
    requires At(lines, idx, PrintFields(fields, indent)) && Ends(lines, idx + |PrintFields(fields, indent)|, indent)
    ensures Fields(lines, idx, indent, m) == Parsed(FieldReadings(m, fields), idx + |PrintFields(fields, indent)|)
    decreases fields, 2
  {
    if fields != [] {
      var f := fields[0];
      var next := FirstField(fields, lines, idx, indent, m);
      FieldsRead(fields[1..], lines, next, indent, m[f.key := Reading(f.value)]);
    }
  }

  /** Where the second key starts, when the keys stand at `idx`; the first key's value lies between. */
  lemma FirstKey(text: string, fields: seq<Field>, lines: seq<Line>, idx: nat, at: nat, indent: nat) returns (next: nat)
    requires fields != [] && CleanFields(fields) && at <= indent && (fields[0].value.Empty? ==> at == indent)
    requires At(lines, idx, PrintKeys(text, fields, at, indent))
    requires Ends(lines, idx + |PrintKeys(text, fields, at, indent)|, indent)
    ensures idx < |lines| && lines[idx] == Line(at, text)
    ensures After(ValueText(fields[0].value), lines, idx + 1, at) == Parsed(Given(fields[0].value), next)
    ensures At(lines, next, PrintFields(fields[1..], indent))
    ensures idx + |PrintKeys(text, fields, at, indent)| == next + |PrintFields(fields[1..], indent)|
    ensures CleanField(fields[0]) && CleanFields(fields[1..])
    decreases fields, 0
  {
    assert CleanField(fields[0]);
    KeysAt(text, fields, lines, idx, at, indent);
    next := idx + 1 + |PrintValue(fields[0].value, indent)|;
    NextField(fields[1..], lines, next, indent);
    ValueReads(fields[0].value, lines, idx + 1, at, indent);
  }

  lemma {:induction false} MoreReads(
    fields: seq<Field>, lines: seq<Line>, idx: nat, outer: nat, indent: nat, m: map<string, Value>)
    requires outer < indent && CleanFields(fields)
    requires At(lines, idx, PrintFields(fields, indent)) && Ends(lines, idx + |PrintFields(fields, indent)|, outer + 1)
    ensures More(lines, idx, outer, m) == Parsed(MoreReadings(m, fields), idx + |PrintFields(fields, indent)|)
    decreases fields, 2
  {
    if fields != [] {
      var f := fields[0];
      var next := FirstMore(fields, lines, idx, outer, indent, m);
      MoreReads(fields[1..], lines, next, outer, indent, Set(m, f.key, Given(f.value)));
    }
  }

  lemma HangingStep(lines: seq<Line>, idx: nat, indent: nat, key: string, text: string, v: Value, next: nat)
    requires idx < |lines| && IsItem(lines[idx].text)
    requires var s := ItemText(lines[idx].text); s != "" && ':' in s && Split(s) == (key, text)
    requires After(text, lines, idx + 1, indent) == Parsed(Some(v), next)
    ensures next <= |lines|
    ensures var q := More(lines, next, indent, map[key := v]); Item(lines, idx, indent) == Parsed(Map(q.value), q.next)
  {
    assert map[][key := v] == map[key := v];
  }

  lemma FirstHanging(text: string, fields: seq<Field>, lines: seq<Line>, idx: nat, indent: nat, inner: nat)
    returns (next: nat)
    requires fields != [] && CleanFields(fields) && !fields[0].value.Empty? && indent < inner
    requires IsItem(text) && ItemText(text) != "" && ':' in ItemText(text)
    requires Split(ItemText(text)) == (fields[0].key, ValueText(fields[0].value))
    requires At(lines, idx, PrintKeys(text, fields, indent, inner))
    requires Ends(lines, idx + |PrintKeys(text, fields, indent, inner)|, inner)
    ensures idx < |lines| && IsItem(lines[idx].text) && CleanFields(fields[1..])
    ensures next <= |lines| && At(lines, next, PrintFields(fields[1..], inner))
    ensures next + |PrintFields(fields[1..], inner)| == idx + |PrintKeys(text, fields, indent, inner)|
    ensures var q := More(lines, next, indent, map[fields[0].key := Reading(fields[0].value)]);
      Item(lines, idx, indent) == Parsed(Map(q.value), q.next)
    decreases fields, 1
  {
    var f := fields[0];
    next := FirstKey(text, fields, lines, idx, indent, inner);
    HangingStep(lines, idx, indent, f.key, ValueText(f.value), Reading(f.value), next);
  }

  lemma FirstOfHanging(t: Tree, lines: seq<Line>, idx: nat, indent: nat) returns (next: nat)
    requires Clean(t) && t.Mapping? && t.hangs && !t.fields[0].value.Empty?
    requires At(lines, idx, PrintItem(t, indent)) && Ends(lines, idx + |PrintItem(t, indent)|, indent + 1)
    requires idx < |lines| && IsItem(lines[idx].text)
    ensures t.fields != [] && CleanFields(t.fields[1..])
    ensures next <= |lines| && At(lines, next, PrintFields(t.fields[1..], indent + 1 + t.pad))
    ensures next + |PrintFields(t.fields[1..], indent + 1 + t.pad)| == idx + |PrintItem(t, indent)|
    ensures var q := More(lines, next, indent, map[t.fields[0].key := Reading(t.fields[0].value)]);
      Item(lines, idx, indent) == Parsed(Map(q.value), q.next)
    decreases t, 1
  {
    var text := HangingText(t, indent);
    next := FirstHanging(text, t.fields, lines, idx, indent, indent + 1 + t.pad);
  }

  lemma FilledHangingReads(t: Tree, lines: seq<Line>, idx: nat, indent: nat)
    requires Clean(t) && t.Mapping? && t.hangs && !t.fields[0].value.Empty?
    requires At(lines, idx, PrintItem(t, indent)) && Ends(lines, idx + |PrintItem(t, indent)|, indent + 1)
    requires idx < |lines| && IsItem(lines[idx].text)
    ensures Item(lines, idx, indent) == Parsed(ItemReading(t), idx + |PrintItem(t, indent)|)
    decreases t, 2
  {
    var next := FirstOfHanging(t, lines, idx, indent);
    var m := map[t.fields[0].key := Reading(t.fields[0].value)];
    MoreReads(t.fields[1..], lines, next, indent, indent + 1 + t.pad, m);
  }

  /** The reading of an item whose dash is followed by this key and text. */
  function WithKey(lines: seq<Line>, idx: nat, indent: nat, key: string, text: string): Parsed<Value>
    requires idx <= |lines|
  {
    var p := After(text, lines, idx, indent);
    var q := More(lines, p.next, indent, Set(map[], key, p.value));
    Parsed(Map(q.value), q.next)
  }

  lemma ItemWithKey(lines: seq<Line>, idx: nat, indent: nat, key: string, text: string)
    requires idx < |lines| && IsItem(lines[idx].text)
    requires var s := ItemText(lines[idx].text); s != "" && ':' in s && Split(s) == (key, text)
    ensures Item(lines, idx, indent) == WithKey(lines, idx + 1, indent, key, text)
  {}

  /** An empty key on the line of a dash, with nothing behind it, is dropped. */
  lemma LoneKeyReads(lines: seq<Line>, idx: nat, indent: nat, key: string)
    requires Ends(lines, idx, indent + 1)
    ensures WithKey(lines, idx, indent, key, "") == Parsed(Map(map[]), idx)
  {
    assert After("", lines, idx, indent) == Parsed(None, idx);
    assert More(lines, idx, indent, map[]) == Parsed(map[], idx);
  }

  /** One with keys behind it takes them for its value. */
  lemma GreedyKeyReads(lines: seq<Line>, idx: nat, indent: nat, inner: nat, key: string, m: map<string, Value>, next: nat)
    requires idx < |lines| && indent < inner == lines[idx].indent && !IsItem(lines[idx].text)
    requires Fields(lines, idx, inner, map[]) == Parsed(m, next) && Ends(lines, next, indent + 1)
    ensures WithKey(lines, idx, indent, key, "") == Parsed(Map(map[key := Map(m)]), next)
  {
    assert Block(lines, idx, inner) == Parsed(Map(m), next);
    assert After("", lines, idx, indent) == Parsed(Some(Map(m)), next);
    assert Set(map[], key, Some(Map(m))) == map[key := Map(m)];
    assert More(lines, next, indent, map[key := Map(m)]) == Parsed(map[key := Map(m)], next);
  }

  lemma EmptyHangingReads(t: Tree, lines: seq<Line>, idx: nat, indent: nat)
    requires Clean(t) && t.Mapping? && t.hangs && t.fields[0].value.Empty?
    requires At(lines, idx, PrintItem(t, indent)) && Ends(lines, idx + |PrintItem(t, indent)|, indent + 1)
    requires idx < |lines| && IsItem(lines[idx].text)
    ensures Item(lines, idx, indent) == Parsed(ItemReading(t), idx + |PrintItem(t, indent)|)
    decreases t, 2
  {
    var text := HangingText(t, indent);
    EmptyKeyReads(text, t.fields, lines, idx, indent, indent + 1 + t.pad);
    ItemWithKey(lines, idx, indent, t.fields[0].key, "");
  }

  lemma EmptyKeyReads(text: string, fields: seq<Field>, lines: seq<Line>, idx: nat, indent: nat, inner: nat)
    requires fields != [] && CleanFields(fields) && fields[0].value.Empty? && indent < inner
    requires At(lines, idx, PrintKeys(text, fields, indent, inner))
    requires Ends(lines, idx + |PrintKeys(text, fields, indent, inner)|, indent + 1)
    ensures idx < |lines| && lines[idx] == Line(indent, text)
    ensures WithKey(lines, idx + 1, indent, fields[0].key, "") ==
      Parsed(Map(HangingReading(fields)), idx + |PrintKeys(text, fields, indent, inner)|)
    decreases fields, 3
  {
    EmptyKeyAt(text, fields, lines, idx, indent, inner);
    if |fields| == 1 {
      LoneKeyReads(lines, idx + 1, indent, fields[0].key);
    } else {
      GreedyRestReads(fields[1..], lines, idx + 1, indent, inner, fields[0].key);
    }
  }

  lemma EmptyKeyAt(text: string, fields: seq<Field>, lines: seq<Line>, idx: nat, indent: nat, inner: nat)
    requires fields != [] && CleanFields(fields) && fields[0].value.Empty?
    requires At(lines, idx, PrintKeys(text, fields, indent, inner))
    ensures idx < |lines| && lines[idx] == Line(indent, text) && CleanFields(fields[1..])
    ensures At(lines, idx + 1, PrintFields(fields[1..], inner))
    ensures |PrintKeys(text, fields, indent, inner)| == 1 + |PrintFields(fields[1..], inner)|
    ensures |fields| == 1 ==> PrintFields(fields[1..], inner) == []
  {
    KeysAt(text, fields, lines, idx, indent, inner);
  }

  lemma GreedyRestReads(rest: seq<Field>, lines: seq<Line>, idx: nat, indent: nat, inner: nat, key: string)
    requires rest != [] && CleanFields(rest) && indent < inner
    requires At(lines, idx, PrintFields(rest, inner)) && Ends(lines, idx + |PrintFields(rest, inner)|, indent + 1)
    ensures WithKey(lines, idx, indent, key, "") ==
      Parsed(Map(map[key := Map(FieldReadings(map[], rest))]), idx + |PrintFields(rest, inner)|)
    decreases rest, 3
  {
    FieldsRead(rest, lines, idx, inner, map[]);
    KeyLineAt(rest, lines, idx, inner);
    GreedyKeyReads(lines, idx, indent, inner, key, FieldReadings(map[], rest), idx + |PrintFields(rest, inner)|);
  }

  lemma KeyLineAt(fields: seq<Field>, lines: seq<Line>, idx: nat, indent: nat)
    requires fields != [] && CleanFields(fields) && At(lines, idx, PrintFields(fields, indent))
    ensures idx < |lines| && lines[idx].indent == indent && !IsItem(lines[idx].text)
  {
    assert CleanField(fields[0]);
    assert PrintFields(fields, indent) == PrintKeys(KeyText(fields[0]), fields, indent, indent);
    KeysAt(KeyText(fields[0]), fields, lines, idx, indent, indent);
    SplitKeyText(fields[0]);
  }

  // ----- the round trip ---------------------------------------------------------------------------------------

  /**
    The round trip: wherever a printed clean and faithful tree stands in a line list, whatever
    comes before it and whatever less indented lines follow, the block parser returns the tree's
    meaning and takes exactly its lines.
   */
  lemma BlockRoundTrip(t: Tree, lines: seq<Line>, idx: nat, indent: nat)
    requires IsBlock(t) && Clean(t) && Faithful(t)
    requires At(lines, idx, Print(t, indent)) && Ends(lines, idx + |Print(t, indent)|, indent)
    ensures Block(lines, idx, indent) == Parsed(Meaning(t), idx + |Print(t, indent)|)
  {
    BlockReads(t, lines, idx, indent);
    FaithfulAgrees(t);
  }

  /**
    And of a clean tree without repeated keys exactly if it is faithful: no scalar with a colon in
    a list, quoted or not, and no empty value in a mapping that starts on the line of a dash.
   */
  lemma BlockRoundTripExactly(t: Tree, lines: seq<Line>, idx: nat, indent: nat)
    requires IsBlock(t) && Clean(t) && Distinct(t)
    requires At(lines, idx, Print(t, indent)) && Ends(lines, idx + |Print(t, indent)|, indent)
    ensures Block(lines, idx, indent) == Parsed(Meaning(t), idx + |Print(t, indent)|) <==> Faithful(t)
    ensures Block(lines, idx, indent).next == idx + |Print(t, indent)|
  {
    BlockReads(t, lines, idx, indent);
    AgreeExactly(t);
  }

  /** The same for a list item. */
  lemma ItemRoundTripExactly(t: Tree, lines: seq<Line>, idx: nat, indent: nat)
    requires Clean(t) && Distinct(t) && idx < |lines| && IsItem(lines[idx].text)
    requires At(lines, idx, PrintItem(t, indent)) && Ends(lines, idx + |PrintItem(t, indent)|, indent + 1)
    ensures Item(lines, idx, indent) == Parsed(Meaning(t), idx + |PrintItem(t, indent)|) <==> FaithfulItem(t)
  {
    ItemReads(t, lines, idx, indent);
    ItemAgreesExactly(t);
  }
}
