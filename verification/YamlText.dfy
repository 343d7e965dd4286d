/** From trees to text and back through the whole reader of `internal/config/config.go`. */
module YamlText {
  import opened Wrappers
  import opened Yaml
  import opened YamlTrees
  import opened YamlRoundTrip

  // ----- comments --------------------------------------------------------------------------------------

  /** No comment anywhere. */
  predicate Bare(s: string) {
    forall i: nat :: i < |s| ==> !CommentAt(s, i)
  }

  /** Comment stripping keeps the longest prefix in which no comment starts. */
  lemma {:induction false} StripCutsAtTheFirstComment(s: string, i: nat)
    requires i <= |s| && forall k: nat :: k < i ==> !CommentAt(s, k)
    ensures StripFrom(s, i) <= s
    ensures forall k: nat :: k < |StripFrom(s, i)| ==> !CommentAt(s, k)
    ensures |StripFrom(s, i)| < |s| ==> CommentAt(s, |StripFrom(s, i)|)
    decreases |s| - i
  {
    if i < |s| && !CommentAt(s, i) {
      StripCutsAtTheFirstComment(s, i + 1);
    }
  }

  lemma StripOnlyCutsComments(s: string)
    ensures Strip(s) == s <==> Bare(s)
  {
    StripCutsAtTheFirstComment(s, 0);
  }

  lemma {:induction false} QuoteAfterClosed(a: string, b: string)
    requires Quote(a).None?
    ensures Quote(a + b) == Quote(b)
  {
    if b == "" {
      assert a + b == a;
    } else {
      var n := |b| - 1;
      QuoteAfterClosed(a, b[..n]);
      assert (a + b)[..|a + b| - 1] == a + b[..n];
    }
  }

  /** Texts without open quotes or comments can be put in front. */
  lemma BareAppend(a: string, b: string)
    requires Quote(a).None? && Bare(a) && Bare(b)
    ensures Bare(a + b)
  {
    forall i: nat | i < |a + b| ensures !CommentAt(a + b, i) {
      if i < |a| {
        CommentInFront(a, b, i);
      } else {
        CommentBehind(a, b, i - |a|);
      }
    }
  }

  lemma CommentInFront(a: string, b: string, i: nat)
    requires i < |a|
    ensures CommentAt(a + b, i) <==> CommentAt(a, i)
  {
    assert (a + b)[..i] == a[..i];
  }

  lemma CommentBehind(a: string, b: string, i: nat)
    requires i < |b| && Quote(a).None?
    ensures CommentAt(a + b, |a| + i) <==> CommentAt(b, i)
  {
    QuoteAfterClosed(a, b[..i]);
    assert (a + b)[..|a| + i] == a + b[..i];
  }

  lemma {:induction false} PlainIsBare(s: string)
    requires '#' !in s && '"' !in s && '\'' !in s
    ensures Bare(s) && Quote(s).None?
  {
    if s != "" {
      PlainIsBare(s[..|s| - 1]);
    }
  }

  // ----- text ------------------------------------------------------------------------------------------------

  function Spaces(n: nat): (s: string)
    ensures |s| == n && forall i :: 0 <= i < n ==> s[i] == ' '
  {
    if n == 0 then "" else " " + Spaces(n - 1)
  }

  function Row(line: Line): string {
    Spaces(line.indent) + line.text
  }

  function Text(lines: seq<Line>): string {
    if lines == [] then "" else Row(lines[0]) + "\n" + Text(lines[1..])
  }

  predicate Legible(line: Line) {
    CleanText(line.text) && '\n' !in line.text && Bare(line.text)
  }

  predicate AllLegible(lines: seq<Line>) {
    lines == [] || (Legible(lines[0]) && AllLegible(lines[1..]))
  }

  lemma {:induction false} TrimSpaces(n: nat, s: string)
    requires CleanText(s)
    ensures Trim(Spaces(n) + s) == s
  {
    if n == 0 {
      assert Spaces(n) + s == s;
      TrimTrimmed(s);
    } else {
      TrimSpaces(n - 1, s);
      assert (Spaces(n) + s)[1..] == Spaces(n - 1) + s;
    }
  }

  lemma RowIsBare(line: Line)
    requires Legible(line)
    ensures Strip(Row(line)) == Row(line)
  {
    PlainIsBare(Spaces(line.indent));
    BareAppend(Spaces(line.indent), line.text);
    StripOnlyCutsComments(Row(line));
  }

  lemma LeadingSpaces(n: nat, s: string)
    requires CleanText(s)
    ensures Leading(Spaces(n) + s) == n && DropReturn(Spaces(n) + s) == Spaces(n) + s
  {
    var row := Spaces(n) + s;
    assert row[n] == s[0] && row[|row| - 1] == s[|s| - 1];
    assert forall i :: 0 <= i < n ==> row[i] == ' ';
  }

  lemma RowRoundTrip(line: Line)
    requires Legible(line)
    ensures LineOf(Row(line)) == Some(line)
  {
    RowIsBare(line);
    LeadingSpaces(line.indent, line.text);
    TrimSpaces(line.indent, line.text);
  }

  lemma RowsSplit(row: string, rest: string)
    requires '\n' !in row
    ensures Rows(row + "\n" + rest) == [row] + Rows(rest)
  {
    var s := row + "\n" + rest;
    assert s[..|row|] == row && s[|row| + 1..] == rest;
    FindIs(s, '\n', |row|);
  }

  lemma {:induction false} LinesOfFirst(row: string, rows: seq<string>)
    ensures LinesOf([row] + rows) == LinesOf([row]) + LinesOf(rows)
  {
    if rows == [] {
      assert [row] + rows == [row];
    } else {
      var n := |rows| - 1;
      var all := [row] + rows;
      LinesOfFirst(row, rows[..n]);
      assert all[..n + 1] == [row] + rows[..n] && all[n + 1] == rows[n];
      assert LinesOf(all) == LinesOf([row] + rows[..n]) + LineAsList(rows[n]);
    }
  }

  lemma NoLines()
    ensures LinesOf(Rows("")) == []
  {
    assert Rows("") == [""] && LineOf("") == None;
    assert LinesOf([""]) == LinesOf([]) + [];
  }

  lemma FirstRow(row: string, line: Line, rest: string)
    requires '\n' !in row && LineOf(row) == Some(line)
    ensures LinesOf(Rows(row + "\n" + rest)) == [line] + LinesOf(Rows(rest))
  {
    RowsSplit(row, rest);
    LinesOfFirst(row, Rows(rest));
    assert LinesOf([row]) == LinesOf([]) + [line];
  }

  lemma FirstLine(line: Line, rest: string)
    requires Legible(line)
    ensures LinesOf(Rows(Row(line) + "\n" + rest)) == [line] + LinesOf(Rows(rest))
  {
    var row := Row(line);
    assert '\n' !in row;
    RowRoundTrip(line);
    FirstRow(row, line, rest);
  }

  lemma FirstOfLines(lines: seq<Line>)
    requires lines != [] && Legible(lines[0])
    ensures LinesOf(Rows(Text(lines))) == [lines[0]] + LinesOf(Rows(Text(lines[1..])))
  {
    FirstLine(lines[0], Text(lines[1..]));
  }

  /** The scanner reads back what the printer wrote. */
  lemma {:induction false} LinesRoundTrip(lines: seq<Line>)
    requires AllLegible(lines)
    ensures LinesOf(Rows(Text(lines))) == lines
  {
    if lines == [] {
      NoLines();
    } else {
      LinesRoundTrip(lines[1..]);
      FirstOfLines(lines);
    }
  }

  // ----- documents ---------------------------------------------------------------------------------------------

  /** No line break and no comment in any scalar; keys close the quotes they open. */
  predicate Writable(t: Tree)
    decreases t, 0
  {
    match t
    case Empty => true
    case Scalar(text) => '\n' !in text && Bare(text)
    case Sequence(_, items) => WritableItems(items)
    case Mapping(_, _, fields) => WritableFields(fields)
  }

  predicate WritableItems(items: seq<Tree>)
    decreases items, 0
  {
    items == [] || (Writable(items[0]) && WritableItems(items[1..]))
  }

  predicate WritableFields(fields: seq<Field>)
    decreases fields, 0
  {
    fields == [] || (WritableField(fields[0]) && WritableFields(fields[1..]))
  }

  predicate WritableField(f: Field)
    decreases f, 0
  {
    '\n' !in f.key && Bare(f.key) && Quote(f.key).None? && Writable(f.value)
  }

  lemma {:induction false} LegibleAppend(a: seq<Line>, b: seq<Line>)
    requires AllLegible(a) && AllLegible(b)
    ensures AllLegible(a + b)
  {
    if a == [] {
      assert a + b == b;
    } else {
      LegibleAppend(a[1..], b);
      assert (a + b)[1..] == a[1..] + b;
    }
  }

  lemma KeyTextLegible(f: Field)
    requires CleanField(f) && WritableField(f)
    ensures '\n' !in KeyText(f) && Bare(KeyText(f)) && CleanText(KeyText(f))
  {
    KeyTextTrimmed(f);
    if f.value.Scalar? {
      PlainIsBare(": ");
      BareAppend(": ", f.value.text);
      BareAppend(f.key, ": " + f.value.text);
    } else {
      PlainIsBare(":");
      BareAppend(f.key, ":");
    }
  }

  lemma DashLegible(s: string)
    requires CleanText(s) && '\n' !in s && Bare(s)
    ensures '\n' !in "- " + s && Bare("- " + s) && CleanText("- " + s)
  {
    PlainIsBare("- ");
    BareAppend("- ", s);
    assert ("- " + s)[|s| + 1] == s[|s| - 1];
  }

  lemma PrintLegible(t: Tree, indent: nat)
    requires Clean(t) && Writable(t)
    ensures AllLegible(Print(t, indent))
    decreases t, 0
  {
    if t.Sequence? {
      ItemsLegible(t.items, indent);
    } else if t.Mapping? {
      FieldsLegible(t.fields, indent);
    }
  }

  lemma ValueLegible(t: Tree, indent: nat)
    requires Clean(t) && Writable(t)
    ensures AllLegible(PrintValue(t, indent))
    decreases t, 1
  {
    if IsBlock(t) {
      PrintLegible(t, indent + 1 + t.pad);
    }
  }

  lemma {:induction false} ItemsLegible(items: seq<Tree>, indent: nat)
    requires CleanItems(items) && WritableItems(items)
    ensures AllLegible(PrintItems(items, indent))
    decreases items, 0
  {
    if items != [] {
      assert Clean(items[0]) && CleanItems(items[1..]);
      ItemLegible(items[0], indent);
      ItemsLegible(items[1..], indent);
      LegibleAppend(PrintItem(items[0], indent), PrintItems(items[1..], indent));
    }
  }

  lemma ItemLegible(t: Tree, indent: nat)
    requires Clean(t) && Writable(t)
    ensures AllLegible(PrintItem(t, indent))
    decreases t, 2
  {
    if t.Scalar? {
      DashLegible(t.text);
    } else if t.Mapping? && t.hangs {
      assert CleanFields(t.fields) && CleanField(t.fields[0]) && WritableFields(t.fields);
      KeyTextLegible(t.fields[0]);
      DashLegible(KeyText(t.fields[0]));
      KeysLegible("- " + KeyText(t.fields[0]), t.fields, indent, indent + 1 + t.pad);
    } else {
      PlainIsBare("-");
      ValueLegible(t, indent);
      LegibleAppend([Line(indent, "-")], PrintValue(t, indent));
    }
  }

  lemma {:induction false} FieldsLegible(fields: seq<Field>, indent: nat)
    requires CleanFields(fields) && WritableFields(fields)
    ensures AllLegible(PrintFields(fields, indent))
    decreases fields, 1
  {
    if fields != [] {
      KeyTextLegible(fields[0]);
      KeysLegible(KeyText(fields[0]), fields, indent, indent);
    }
  }

  lemma KeysLegible(text: string, fields: seq<Field>, at: nat, indent: nat)
    requires fields != [] && CleanFields(fields) && WritableFields(fields) && Legible(Line(at, text))
    ensures AllLegible(PrintKeys(text, fields, at, indent))
    decreases fields, 0
  {
    assert CleanField(fields[0]) && CleanFields(fields[1..]);
    ValueLegible(fields[0].value, indent);
    FieldsLegible(fields[1..], indent);
    LegibleAppend(PrintValue(fields[0].value, indent), PrintFields(fields[1..], indent));
    LegibleAppend([Line(at, text)], PrintValue(fields[0].value, indent) + PrintFields(fields[1..], indent));
  }

  /** What the whole reader makes of the text of a clean, writable tree, at any indentation. */
  lemma DocumentReads(t: Tree, indent: nat)
    requires IsBlock(t) && Clean(t) && Writable(t)
    ensures t.Mapping? ==> Document(Text(Print(t, indent))) == Ok(FieldReadings(map[], t.fields))
    ensures t.Sequence? ==> Document(Text(Print(t, indent))).Err?
  {
    var lines := Print(t, indent);
    PrintLegible(t, indent);
    LinesRoundTrip(lines);
    PrintStarts(t, indent);
    AtStart(lines);
    BlockReads(t, lines, 0, indent);
  }

  /** The round trip of documents: a faithful mapping is read back as its fields. */
  lemma DocumentRoundTrip(t: Tree, indent: nat)
    requires t.Mapping? && Clean(t) && Writable(t) && Faithful(t)
    ensures Document(Text(Print(t, indent))) == Ok(Meant(map[], t.fields))
  {
    DocumentReads(t, indent);
    FaithfulFieldsAgree(map[], t.fields);
  }

  /** And one without repeated keys exactly if it is faithful. */
  lemma DocumentRoundTripExactly(t: Tree, indent: nat)
    requires t.Mapping? && Clean(t) && Writable(t) && Distinct(t)
    ensures Document(Text(Print(t, indent))) == Ok(Meant(map[], t.fields)) <==> Faithful(t)
  {
    DocumentReads(t, indent);
    FieldsAgreeExactly(map[], t.fields);
  }

  lemma AtStart(lines: seq<Line>)
    ensures At(lines, 0, lines)
  {
    forall k: nat | k < |lines| ensures Agree(lines, 0, lines, k) {}
  }

  // ----- scalars ---------------------------------------------------------------------------------------------------------

  datatype Atom = Str(s: string) | Bool(b: bool) | Number(text: string)

  predicate Wrapped(s: string, q: char) {
    s != "" && s[0] == q && s[|s| - 1] == q
  }

  function Lower(s: string): string {
    seq(|s|, i requires 0 <= i < |s| => if 'A' <= s[i] <= 'Z' then s[i] - 'A' + 'a' else s[i])
  }

  /** The scalar reader; `numeric` recognises what the number parsers accept. */
  function ReadScalar(text: string, numeric: string -> bool): Atom {
    var s := Trim(text);
    if Wrapped(s, '"') || Wrapped(s, '\'') then Str(if |s| >= 2 then s[1..|s| - 1] else "")
    else if Lower(s) in ["true", "yes", "on"] then Bool(true)
    else if Lower(s) in ["false", "no", "off"] then Bool(false)
    else if numeric(s) then Number(s)
    else Str(s)
  }

  lemma QuoteInside(s: string)
    requires '"' !in s
    ensures Quote("\"" + s) == Some('"')
  {
    if s == "" {
      assert "\"" + s == "\"" && Quote("\"") == Toggle(Quote(""), '"');
    } else {
      var n := |s| - 1;
      QuoteInside(s[..n]);
      assert ("\"" + s)[..n + 1] == "\"" + s[..n];
    }
  }

  /**
    Double quotes protect any text without double quotes and line breaks: as the value of a key
    it is clean and writable, whatever hashes, colons, blanks or digits it holds, and it is read
    as the string between the quotes.
   */
  lemma QuotesProtect(s: string, numeric: string -> bool)
    requires '"' !in s && '\n' !in s
    ensures var q := "\"" + s + "\""; Clean(Scalar(q)) && Writable(Scalar(q)) && ReadScalar(q, numeric) == Str(s)
  {
    var q := "\"" + s + "\"";
    forall i: nat | i < |q| ensures !CommentAt(q, i) {
      if 0 < i <= |s| {
        QuoteInside(s[..i - 1]);
        assert q[..i] == "\"" + s[..i - 1];
      }
    }
    TrimTrimmed(q);
    assert q[1..|q| - 1] == s;
  }

  /** The text is this lower-case word, in capitals or not. */
  predicate Spells(s: string, word: string) {
    |s| == |word| && forall i :: 0 <= i < |s| ==> s[i] == word[i] || (s[i] < 'a' && s[i] as int + 32 == word[i] as int)
  }

  predicate LowerCase(word: string) {
    forall c <- word :: 'a' <= c <= 'z'
  }

  lemma LowerSpells(s: string, word: string)
    requires LowerCase(word)
    ensures Lower(s) == word <==> Spells(s, word)
  {
    if Lower(s) == word {
      forall i | 0 <= i < |s| ensures s[i] == word[i] || (s[i] < 'a' && s[i] as int + 32 == word[i] as int) {
        assert Lower(s)[i] == word[i];
      }
    }
    if Spells(s, word) {
      forall i | 0 <= i < |s| ensures Lower(s)[i] == word[i] {
        assert word[i] in word;
      }
    }
  }

  /** Unquoted text is a boolean for the six words in any capitals, then a number, and otherwise itself without outer blanks. */
  lemma UnquotedScalars(text: string, numeric: string -> bool)
    requires var s := Trim(text); s != "" ==> s[0] != s[|s| - 1] || (s[0] != '"' && s[0] != '\'')
    ensures var s := Trim(text);
      ReadScalar(text, numeric) ==
        if Spells(s, "true") || Spells(s, "yes") || Spells(s, "on") then Bool(true)
        else if Spells(s, "false") || Spells(s, "no") || Spells(s, "off") then Bool(false)
        else if numeric(s) then Number(s)
        else Str(s)
  {
    var s := Trim(text);
    LowerSpells(s, "true");
    LowerSpells(s, "yes");
    LowerSpells(s, "on");
    LowerSpells(s, "false");
    LowerSpells(s, "no");
    LowerSpells(s, "off");
  }
}
