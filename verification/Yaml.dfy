/**
  The YAML subset reader of `internal/config/config.go`: comment stripping, line scanning and
  the indentation-driven block parser.  The parser is given twice: as recursive functions over a
  line list and a position, and as the code's nested loops, which are proved to compute them.
 */
module Yaml {
  import opened Wrappers

  datatype Line = Line(indent: nat, text: string)

  /** `Leaf` holds the text that is handed to the scalar reader. */
  datatype Value = Null | Leaf(text: string) | List(items: seq<Value>) | Map(fields: map<string, Value>)

  /** What was read, and the first line that was not. */
  datatype Parsed<T> = Parsed(value: T, next: nat)

  // ----- strings ------------------------------------------------------------------------------

  predicate Space(c: char) {
    || '\t' <= c <= '\r' || c == ' ' || c == '\U{85}' || c == '\U{A0}' || c == '\U{1680}'
    || '\U{2000}' <= c <= '\U{200A}' || c == '\U{2028}' || c == '\U{2029}' || c == '\U{202F}'
    || c == '\U{205F}' || c == '\U{3000}'
  }

  function TrimLeft(s: string): string {
    if s != "" && Space(s[0]) then TrimLeft(s[1..]) else s
  }

  function TrimRight(s: string): string {
    if s != "" && Space(s[|s| - 1]) then TrimRight(s[..|s| - 1]) else s
  }

  function Trim(s: string): string {
    TrimRight(TrimLeft(s))
  }

  predicate Trimmed(s: string) {
    s != "" ==> !Space(s[0]) && !Space(s[|s| - 1])
  }

  function Leading(s: string): (n: nat)
    ensures n <= |s| && (n < |s| ==> s[n] != ' ') && forall i :: 0 <= i < n ==> s[i] == ' '
  {
    if s != "" && s[0] == ' ' then 1 + Leading(s[1..]) else 0
  }

  /** The first position of `c`, or the length. */
  function Find(s: string, c: char): (n: nat)
    ensures n <= |s| && c !in s[..n] && (n < |s| <==> c in s) && (n < |s| ==> s[n] == c)
  {
    if s == "" || s[0] == c then 0 else 1 + Find(s[1..], c)
  }

  /** Key and value of a line that contains a colon. */
  function Split(s: string): (string, string)
    requires ':' in s
  {
    var n := Find(s, ':');
    (Trim(s[..n]), Trim(s[n + 1..]))
  }

  predicate Dashed(s: string) {
    |s| >= 2 && s[0] == '-' && s[1] == ' '
  }

  predicate IsItem(s: string) {
    Dashed(s) || s == "-"
  }

  function ItemText(s: string): string
    requires IsItem(s)
  {
    if s == "-" then "" else Trim(s[2..])
  }

  // ----- comments -------------------------------------------------------------------------------

  /** The quote that is open after `s`. */
  function Quote(s: string): Option<char> {
    if s == "" then None
    else
      var n := |s| - 1;
      Toggle(Quote(s[..n]), s[n])
  }

  function Toggle(q: Option<char>, c: char): Option<char> {
    if c == '"' || c == '\'' then (if q.None? then Some(c) else if q.value == c then None else q) else q
  }

  /** A comment starts at `i`. */
  predicate CommentAt(s: string, i: nat)
    requires i < |s|
  {
    s[i] == '#' && Quote(s[..i]).None?
  }

  /** The text before the first comment. */
  function Strip(s: string): string {
    StripFrom(s, 0)
  }

  function StripFrom(s: string, i: nat): string
    requires i <= |s|
    decreases |s| - i
  {
    if i == |s| || CommentAt(s, i) then s[..i] else StripFrom(s, i + 1)
  }

  method StripComment(line: string) returns (r: string)
    ensures r == Strip(line)
  {
    var inQuotes, quoteChar := false, ' ';
    for i := 0 to |line|
      invariant Quote(line[..i]) == if inQuotes then Some(quoteChar) else None
      invariant Strip(line) == StripFrom(line, i)
    {
      var c := line[i];
      assert line[..i + 1][..i] == line[..i];
      if c == '"' || c == '\'' {
        if !inQuotes {
          inQuotes, quoteChar := true, c;
        } else if quoteChar == c {
          inQuotes := false;
        }
      } else if c == '#' && !inQuotes {
        return line[..i];
      }
    }
    return line;
  }

  // ----- lines ------------------------------------------------------------------------------------

  /** The rows of a text; an empty last row is left in, since blank rows are skipped anyway. */
  function Rows(s: string): seq<string>
    decreases |s|
  {
    var n := Find(s, '\n');
    if n == |s| then [s] else [s[..n]] + Rows(s[n + 1..])
  }

  function DropReturn(row: string): string {
    if row != "" && row[|row| - 1] == '\r' then row[..|row| - 1] else row
  }

  /** The line of one row; `None` for a row that is blank or all comment. */
  function LineOf(row: string): Option<Line> {
    var raw := Strip(DropReturn(row));
    if Trim(raw) == "" then None else Some(Line(Leading(raw), Trim(raw)))
  }

  function LinesOf(rows: seq<string>): seq<Line> {
    if rows == [] then []
    else
      var n := |rows| - 1;
      LinesOf(rows[..n]) + LineAsList(rows[n])
  }

  function LineAsList(row: string): seq<Line> {
    if LineOf(row).Some? then [LineOf(row).value] else []
  }

  method ScanLines(rows: seq<string>) returns (lines: seq<Line>)
    ensures lines == LinesOf(rows)
  {
    lines := [];
    for i := 0 to |rows|
      invariant lines == LinesOf(rows[..i])
    {
      assert rows[..i + 1][..i] == rows[..i];
      var raw := StripComment(DropReturn(rows[i]));
      var trimmed := Trim(raw);
      if trimmed != "" {
        lines := lines + [Line(Leading(raw), trimmed)];
      }
    }
    assert rows[..|rows|] == rows;
  }

  // ----- blocks ---------------------------------------------------------------------------------------

  predicate Deeper(lines: seq<Line>, idx: nat, indent: nat) {
    idx < |lines| && lines[idx].indent > indent
  }

  /** The block that starts at line `idx`. */
  function Block(lines: seq<Line>, idx: nat, indent: nat): (r: Parsed<Value>)
    ensures idx <= r.next && (idx <= |lines| ==> r.next <= |lines|)
    ensures idx >= |lines| ==> r == Parsed(Null, idx)
    decreases |lines| - idx, 2
  {
    if idx >= |lines| then Parsed(Null, idx)
    else if IsItem(lines[idx].text) then
      var p := Items(lines, idx, indent);
      Parsed(List(p.value), p.next)
    else
      var p := Fields(lines, idx, indent, map[]);
      Parsed(Map(p.value), p.next)
  }

  /** What follows a key on a line with the given indentation; `None` when nothing does. */
  function After(text: string, lines: seq<Line>, idx: nat, indent: nat): (r: Parsed<Option<Value>>)
    requires idx <= |lines|
    ensures idx <= r.next <= |lines|
    decreases |lines| - idx, 3
  {
    if text != "" then Parsed(Some(Leaf(text)), idx)
    else if Deeper(lines, idx, indent) then
      var p := Block(lines, idx, lines[idx].indent);
      Parsed(Some(p.value), p.next)
    else Parsed(None, idx)
  }

  /** The list items from line `idx` on. */
  function Items(lines: seq<Line>, idx: nat, indent: nat): (r: Parsed<seq<Value>>)
    requires idx <= |lines|
    ensures idx <= r.next <= |lines|
    decreases |lines| - idx, 1
  {
    if idx == |lines| || lines[idx].indent != indent || !IsItem(lines[idx].text) then Parsed([], idx)
    else
      var p := Item(lines, idx, indent);
      var q := Items(lines, p.next, indent);
      Parsed([p.value] + q.value, q.next)
  }

  lemma ItemsStep(lines: seq<Line>, idx: nat, indent: nat, v: Value, next: nat)
    requires idx < |lines| && lines[idx].indent == indent && IsItem(lines[idx].text)
    requires Item(lines, idx, indent) == Parsed(v, next)
    ensures next <= |lines|
    ensures Items(lines, idx, indent).value == [v] + Items(lines, next, indent).value
    ensures Items(lines, idx, indent).next == Items(lines, next, indent).next
  {}

  function Item(lines: seq<Line>, idx: nat, indent: nat): (r: Parsed<Value>)
    requires idx < |lines| && IsItem(lines[idx].text)
    ensures idx < r.next <= |lines|
    decreases |lines| - idx, 0
  {
    var text := ItemText(lines[idx].text);
    if text == "" then
      var p := After("", lines, idx + 1, indent);
      Parsed(if p.value.Some? then p.value.value else Null, p.next)
    else if ':' in text then
      var (key, v) := Split(text);
      var p := After(v, lines, idx + 1, indent);
      var q := More(lines, p.next, indent, Set(map[], key, p.value));
      Parsed(Map(q.value), q.next)
    else Parsed(Leaf(text), idx + 1)
  }

  /** A key of a list item to which nothing is given is not set. */
  function Set(m: map<string, Value>, key: string, v: Option<Value>): map<string, Value> {
    if v.Some? then m[key := v.value] else m
  }

  /** The further keys of a list item. */
  function More(lines: seq<Line>, idx: nat, indent: nat, m: map<string, Value>): (r: Parsed<map<string, Value>>)
    requires idx <= |lines|
    ensures idx <= r.next <= |lines|
    decreases |lines| - idx, 1
  {
    if !Deeper(lines, idx, indent) || Dashed(lines[idx].text) then Parsed(m, idx)
    else if ':' in lines[idx].text then
      var (key, v) := Split(lines[idx].text);
      var p := After(v, lines, idx + 1, lines[idx].indent);
      More(lines, p.next, indent, Set(m, key, p.value))
    else More(lines, idx + 1, indent, m)
  }

  /** The keys of a mapping from line `idx` on; one to which nothing is given is null. */
  function Fields(lines: seq<Line>, idx: nat, indent: nat, m: map<string, Value>): (r: Parsed<map<string, Value>>)
    requires idx <= |lines|
    ensures idx <= r.next <= |lines|
    decreases |lines| - idx, 1
  {
    if idx == |lines| || lines[idx].indent != indent then Parsed(m, idx)
    else if ':' in lines[idx].text then
      var (key, v) := Split(lines[idx].text);
      var p := After(v, lines, idx + 1, indent);
      Fields(lines, p.next, indent, m[key := if p.value.Some? then p.value.value else Null])
    else Fields(lines, idx + 1, indent, m)
  }

  // ----- the code's loops ---------------------------------------------------------------------------------

  method ParseBlock(lines: seq<Line>, start: nat, blockIndent: nat) returns (v: Value, next: nat)
    ensures Block(lines, start, blockIndent) == Parsed(v, next)
    decreases |lines| - start, 2
  {
    if start >= |lines| {
      return Null, start;
    }
    if IsItem(lines[start].text) {
      var list;
      list, next := ParseList(lines, start, blockIndent);
      v := List(list);
    } else {
      var m;
      m, next := ParseMap(lines, start, blockIndent);
      v := Map(m);
    }
  }

  /** The loop over list items. */
  method ParseList(lines: seq<Line>, start: nat, blockIndent: nat) returns (list: seq<Value>, idx: nat)
    requires start <= |lines|
    ensures Items(lines, start, blockIndent) == Parsed(list, idx)
    decreases |lines| - start, 1
  {
    list, idx := [], start;
    while idx < |lines| && lines[idx].indent == blockIndent
      invariant start <= idx <= |lines|
      invariant Items(lines, start, blockIndent).value == list + Items(lines, idx, blockIndent).value
      invariant Items(lines, start, blockIndent).next == Items(lines, idx, blockIndent).next
      decreases |lines| - idx
    {
      if !IsItem(lines[idx].text) {
        break;
      }
      ghost var here, before := idx, list;
      var item;
      item, idx := ParseItem(lines, idx, blockIndent);
      list := list + [item];
      ItemsStep(lines, here, blockIndent, item, idx);
      Regroup(before, item, Items(lines, idx, blockIndent).value);
    }
    Regroup(list, Null, []);
  }

  lemma Regroup(a: seq<Value>, v: Value, b: seq<Value>)
    ensures a + ([v] + b) == (a + [v]) + b && a + [] == a
  {}

  /** The loop over the keys of a mapping. */
  method ParseMap(lines: seq<Line>, start: nat, blockIndent: nat) returns (m: map<string, Value>, idx: nat)
    requires start <= |lines|
    ensures Fields(lines, start, blockIndent, map[]) == Parsed(m, idx)
    decreases |lines| - start, 1
  {
    m, idx := map[], start;
    while idx < |lines| && lines[idx].indent == blockIndent
      invariant start <= idx <= |lines|
      invariant Fields(lines, start, blockIndent, map[]) == Fields(lines, idx, blockIndent, m)
      decreases |lines| - idx
    {
      if ':' !in lines[idx].text {
        idx := idx + 1;
        continue;
      }
      var (k, vStr) := Split(lines[idx].text);
      idx := idx + 1;
      if vStr != "" {
        m := m[k := Leaf(vStr)];
      } else if Deeper(lines, idx, blockIndent) {
        var sub;
        sub, idx := ParseBlock(lines, idx, lines[idx].indent);
        m := m[k := sub];
      } else {
        m := m[k := Null];
      }
    }
  }

  /** One turn of the list loop. */
  method ParseItem(lines: seq<Line>, start: nat, blockIndent: nat) returns (item: Value, idx: nat)
    requires start < |lines| && IsItem(lines[start].text)
    ensures Item(lines, start, blockIndent) == Parsed(item, idx)
    decreases |lines| - start, 0
  {
    var itemText := ItemText(lines[start].text);
    item, idx := Null, start + 1;
    if itemText == "" {
      if Deeper(lines, idx, blockIndent) {
        item, idx := ParseBlock(lines, idx, lines[idx].indent);
      }
    } else if ':' in itemText {
      var (k, vStr) := Split(itemText);
      var itemMap: map<string, Value> := map[];
      if vStr != "" {
        itemMap := itemMap[k := Leaf(vStr)];
      } else if Deeper(lines, idx, blockIndent) {
        var sub;
        sub, idx := ParseBlock(lines, idx, lines[idx].indent);
        itemMap := itemMap[k := sub];
      }
      itemMap, idx := CollectKeys(lines, idx, blockIndent, itemMap);
      item := Map(itemMap);
    } else {
      item := Leaf(itemText);
    }
  }

  /** The inner loop over the further keys of a list item. */
  method CollectKeys(lines: seq<Line>, start: nat, blockIndent: nat, given: map<string, Value>)
    returns (itemMap: map<string, Value>, idx: nat)
    requires start <= |lines|
    ensures More(lines, start, blockIndent, given) == Parsed(itemMap, idx)
    decreases |lines| - start, 0
  {
    itemMap, idx := given, start;
    while Deeper(lines, idx, blockIndent)
      invariant start <= idx <= |lines|
      invariant More(lines, start, blockIndent, given) == More(lines, idx, blockIndent, itemMap)
      decreases |lines| - idx
    {
      if Dashed(lines[idx].text) {
        break;
      }
      if ':' in lines[idx].text {
        var (mk, mvStr) := Split(lines[idx].text);
        var subIndent := lines[idx].indent;
        idx := idx + 1;
        if mvStr != "" {
          itemMap := itemMap[mk := Leaf(mvStr)];
        } else if Deeper(lines, idx, subIndent) {
          var sub;
          sub, idx := ParseBlock(lines, idx, lines[idx].indent);
          itemMap := itemMap[mk := sub];
        }
      } else {
        idx := idx + 1;
      }
    }
  }

  /** What the whole reader returns. */
  function Document(text: string): Result<map<string, Value>> {
    var lines := LinesOf(Rows(text));
    if lines == [] then Ok(map[])
    else
      var v := Block(lines, 0, lines[0].indent).value;
      if v.Map? then Ok(v.fields) else Err("root YAML block must be a mapping")
  }

  method ParseBasicYAML(text: string) returns (r: Result<map<string, Value>>)
    ensures r == Document(text)
  {
    var lines := ScanLines(Rows(text));
    if |lines| == 0 {
      return Ok(map[]);
    }
    var v, _ := ParseBlock(lines, 0, lines[0].indent);
    return if v.Map? then Ok(v.fields) else Err("root YAML block must be a mapping");
  }
}
