/**
  How the YAML reader of `internal/config/config.go` takes an arbitrary text apart: rows, quotes,
  comments, blanks, the colon of a key and the dash of an item.
 */
module YamlScanning {
  import opened Wrappers
  import opened Yaml
  import opened YamlRoundTrip
  import opened YamlText

  // ----- blanks ----------------------------------------------------------------------------------

  /** The white space of Unicode. */
  const WHITE_SPACE: seq<int> :=
    [0x09, 0x0A, 0x0B, 0x0C, 0x0D, 0x20, 0x85, 0xA0, 0x1680,
     0x2000, 0x2001, 0x2002, 0x2003, 0x2004, 0x2005, 0x2006, 0x2007, 0x2008, 0x2009, 0x200A,
     0x2028, 0x2029, 0x202F, 0x205F, 0x3000]

  lemma SpaceExactly(c: char)
    ensures Space(c) <==> c as int in WHITE_SPACE
  {}

  predicate Blank(s: string) {
    forall i :: 0 <= i < |s| ==> Space(s[i])
  }

  lemma {:induction false} TrimLeftOf(a: string, s: string)
    requires Blank(a) && (s != "" ==> !Space(s[0]))
    ensures TrimLeft(a + s) == s
  {
    if a == "" {
      assert a + s == s;
    } else {
      TrimLeftOf(a[1..], s);
      assert (a + s)[1..] == a[1..] + s;
    }
  }

  lemma {:induction false} TrimRightOf(s: string, b: string)
    requires Blank(b) && (s != "" ==> !Space(s[|s| - 1]))
    ensures TrimRight(s + b) == s
  {
    if b == "" {
      assert s + b == s;
    } else {
      TrimRightOf(s, b[..|b| - 1]);
      assert (s + b)[..|s + b| - 1] == s + b[..|b| - 1];
    }
  }

  /** Trimming takes the blanks off both ends and nothing else. */
  lemma TrimExactly(a: string, s: string, b: string)
    requires Blank(a) && Blank(b) && Trimmed(s)
    ensures Trim(a + s + b) == s
  {
    if s == "" {
      TrimLeftOf(a + s + b, "");
      assert a + s + b + "" == a + s + b;
    } else {
      assert a + s + b == a + (s + b) && (s + b)[0] == s[0];
      TrimLeftOf(a, s + b);
      TrimRightOf(s, b);
    }
  }

  // ----- keys and items --------------------------------------------------------------------------------

  /** The first colon divides key and value; both are trimmed. */
  lemma SplitExactly(a: string, b: string)
    requires ':' !in a
    ensures ':' in a + ":" + b && Split(a + ":" + b) == (Trim(a), Trim(b))
  {
    var s := a + ":" + b;
    assert s[|a|] == ':';
    assert s[..|a|] == a && s[|a| + 1..] == b;
    FindIs(s, ':', |a|);
  }

  /** An item starts with a dash and a space, or is a dash alone; what is behind is trimmed. */
  lemma DashExactly(s: string)
    ensures IsItem(s) <==> s == "-" || "- " <= s
    ensures IsItem("-") && ItemText("-") == ""
    ensures IsItem("- " + s) && ItemText("- " + s) == Trim(s)
  {
    assert ("- " + s)[2..] == s;
  }

  // ----- quotes and comments --------------------------------------------------------------------------------

  predicate IsQuote(q: char) {
    q == '"' || q == '\''
  }

  /** What holds no quote of the kind that counts leaves the state as it is. */
  lemma {:induction false} QuoteStays(a: string, s: string)
    requires match Quote(a) case None => '"' !in s && '\'' !in s case Some(q) => q !in s
    ensures Quote(a + s) == Quote(a)
  {
    if s == "" {
      assert a + s == a;
    } else {
      QuoteStays(a, s[..|s| - 1]);
      assert (a + s)[..|a + s| - 1] == a + s[..|s| - 1];
      assert s[|s| - 1] in s;
    }
  }

  /** Either kind of quote opens outside quotes, and is closed by the next quote of its kind; others in between do not count. */
  lemma QuotesExactly(a: string, q: char, s: string)
    requires Quote(a).None? && IsQuote(q) && q !in s
    ensures Quote(a + [q] + s) == Some(q) && Quote(a + [q] + s + [q]) == None
  {
    assert (a + [q])[..|a|] == a && Quote(a + [q]) == Some(q);
    QuoteStays(a + [q], s);
    var t := a + [q] + s;
    assert (t + [q])[..|t|] == t;
  }

  /** A hash outside quotes cuts off the rest of the row. */
  lemma CommentsExactly(a: string, comment: string)
    requires Bare(a) && (comment != "" ==> comment[0] == '#' && Quote(a).None?)
    ensures Strip(a + comment) == a
  {
    var s := a + comment;
    StripCutsAtTheFirstComment(s, 0);
    var n := |Strip(s)|;
    if n < |a| {
      CommentInFront(a, comment, n);
    } else if comment != "" {
      assert s[..|a|] == a && CommentAt(s, |a|);
    }
  }

  /** Between quotes there is no comment. */
  lemma QuotedIsBare(q: char, s: string)
    requires IsQuote(q) && q !in s
    ensures Bare([q] + s + [q]) && Quote([q] + s + [q]) == None
  {
    var t := [q] + s + [q];
    QuotesExactly("", q, s);
    assert "" + [q] + s + [q] == t;
    forall i: nat | i < |t| ensures !CommentAt(t, i) {
      if 0 < i <= |s| {
        QuotesExactly("", q, s[..i - 1]);
        assert t[..i] == "" + [q] + s[..i - 1];
      }
    }
  }

  // ----- rows --------------------------------------------------------------------------------------------------

  /** A row ends at its line break; a row that is a line is the next line, any other row is skipped. */
  lemma RowsExactly(row: string, rest: string)
    requires '\n' !in row
    ensures LinesOf(Rows(row + "\n" + rest)) == LineAsList(row) + LinesOf(Rows(rest))
    ensures LinesOf(Rows(row)) == LineAsList(row)
  {
    RowsSplit(row, rest);
    LinesOfFirst(row, Rows(rest));
    OneRow(row);
    LastRow(row);
  }

  lemma OneRow(row: string)
    ensures LinesOf([row]) == LineAsList(row)
  {
    assert [row][..0] == [];
    assert LinesOf([row]) == LinesOf([]) + LineAsList(row);
  }

  lemma LastRow(row: string)
    requires '\n' !in row
    ensures Rows(row) == [row]
  {}

  /** A carriage return at the end of a row does not count. */
  lemma ReturnIsDropped(row: string)
    requires row != "" ==> row[|row| - 1] != '\r'
    ensures LineOf(row + "\r") == LineOf(row)
  {
    assert (row + "\r")[..|row|] == row;
  }

  /** A row of blanks, with or without comment, is no line. */
  lemma BlankRowsAreSkipped(blanks: string, comment: string)
    requires Blank(blanks) && (comment != "" ==> comment[0] == '#')
    requires var row := blanks + comment; row != "" ==> row[|row| - 1] != '\r'
    ensures LineOf(blanks + comment) == None
  {
    BlankIsBare(blanks);
    CommentsExactly(blanks, comment);
    TrimExactly(blanks, "", "");
    assert blanks + "" + "" == blanks;
  }

  lemma BlankIsBare(s: string)
    requires Blank(s)
    ensures Bare(s) && Quote(s).None?
  {
    assert forall c <- s :: Space(c);
    PlainIsBare(s);
  }

  /**
    Any other row is a line: indented by the spaces in front, whatever other blanks follow them,
    with the text up to the blanks and the comment behind it.
   */
  lemma RowsAreLines(n: nat, pad: string, text: string, blanks: string, comment: string)
    requires Blank(pad) && Blank(blanks) && (pad != "" ==> pad[0] != ' ')
    requires text != "" && Trimmed(text) && Bare(text)
    requires comment != "" ==> comment[0] == '#' && Quote(text).None?
    requires var row := Spaces(n) + pad + text + blanks + comment; row[|row| - 1] != '\r'
    ensures LineOf(Spaces(n) + pad + text + blanks + comment) == Some(Line(n, text))
  {
    var front, raw := Spaces(n) + pad, Spaces(n) + pad + text + blanks;
    assert Blank(front);
    RowIsStripped(front, text, blanks, comment);
    TrimExactly(front, text, blanks);
    SpacesInFront(n, pad, text, blanks);
    LineOfParts(raw + comment, raw, n, text);
  }

  lemma LineOfParts(row: string, raw: string, n: nat, text: string)
    requires row != "" && row[|row| - 1] != '\r' && Strip(row) == raw && Trim(raw) == text != "" && Leading(raw) == n
    ensures LineOf(row) == Some(Line(n, text))
  {}

  lemma SpacesInFront(n: nat, pad: string, text: string, blanks: string)
    requires text != "" && Trimmed(text) && (pad != "" ==> pad[0] != ' ')
    ensures Leading(Spaces(n) + pad + text + blanks) == n
  {
    var s := pad + text + blanks;
    assert s[0] == if pad == "" then text[0] else pad[0];
    LeadingCounts(n, s);
    assert Spaces(n) + pad + text + blanks == Spaces(n) + s;
  }

  lemma LeadingCounts(n: nat, s: string)
    requires s != "" && s[0] != ' '
    ensures Leading(Spaces(n) + s) == n
  {
    var t := Spaces(n) + s;
    assert t[n] == s[0];
    assert forall i :: 0 <= i < n ==> t[i] == ' ';
  }

  lemma RowIsStripped(front: string, text: string, blanks: string, comment: string)
    requires Blank(front) && Blank(blanks) && Bare(text)
    requires comment != "" ==> comment[0] == '#' && Quote(text).None?
    ensures Strip(front + text + blanks + comment) == front + text + blanks
  {
    BlankIsBare(front);
    BlankIsBare(blanks);
    BareAppend(front, text);
    QuoteAfterClosed(front, text);
    BareBehind(front + text, blanks);
    if comment != "" {
      QuoteAfterClosed(front + text, blanks);
    }
    CommentsExactly(front + text + blanks, comment);
  }

  lemma BareBehind(a: string, blanks: string)
    requires Bare(a) && Blank(blanks)
    ensures Bare(a + blanks)
  {
    forall i: nat | i < |a + blanks| ensures !CommentAt(a + blanks, i) {
      if i < |a| {
        CommentInFront(a, blanks, i);
      } else {
        assert (a + blanks)[i] == blanks[i - |a|];
      }
    }
  }

  // ----- scalars ---------------------------------------------------------------------------------------------

  /** Quoted text is a string: what is between the outer quotes, even if quotes or blanks are in it; a lone quote is empty. */
  lemma QuotedScalars(a: string, q: char, s: string, b: string, numeric: string -> bool)
    requires Blank(a) && Blank(b) && IsQuote(q)
    ensures ReadScalar(a + ([q] + s + [q]) + b, numeric) == Str(s)
    ensures ReadScalar(a + [q] + b, numeric) == Str("")
  {
    var t := [q] + s + [q];
    TrimExactly(a, t, b);
    TrimExactly(a, [q], b);
    assert t[1..|t| - 1] == s;
  }
}
