/**
  Trees of nested mappings and lists, a printer for them, what they mean, and what the YAML
  reader of `internal/config/config.go` makes of them.  The two agree exactly on faithful trees.
 */
module YamlTrees {
  import opened Wrappers
  import opened Yaml

  // ----- trees and their printer ------------------------------------------------------------------

  datatype Field = Field(key: string, value: Tree)

  /**
    A block is printed deeper than what holds it, by one column and `pad` more.  A mapping that
    is a list item starts on the line of its dash when it hangs, and below it otherwise.
   */
  datatype Tree =
    | Empty
    | Scalar(text: string)
    | Sequence(pad: nat, items: seq<Tree>)
    | Mapping(pad: nat, hangs: bool, fields: seq<Field>)

  predicate IsBlock(t: Tree) {
    t.Sequence? || t.Mapping?
  }

  function Print(t: Tree, indent: nat): seq<Line>
    decreases t, 0
  {
    match t
    case Sequence(_, items) => PrintItems(items, indent)
    case Mapping(_, _, fields) => PrintFields(fields, indent)
    case _ => []
  }

  function PrintItems(items: seq<Tree>, indent: nat): seq<Line>
    decreases items, 0
  {
    if items == [] then [] else PrintItem(items[0], indent) + PrintItems(items[1..], indent)
  }

  function PrintItem(t: Tree, indent: nat): seq<Line>
    decreases t, 2
  {
    if t.Scalar? then [Line(indent, "- " + t.text)]
    else if t.Mapping? && t.hangs && t.fields != [] then
      PrintKeys("- " + KeyText(t.fields[0]), t.fields, indent, indent + 1 + t.pad)
    else [Line(indent, "-")] + PrintValue(t, indent)
  }

  /** Keys at the given indentation. */
  function PrintFields(fields: seq<Field>, indent: nat): seq<Line>
    decreases fields, 1
  {
    if fields == [] then [] else PrintKeys(KeyText(fields[0]), fields, indent, indent)
  }

  /** The same, with the text and indentation of the first line given. */
  function PrintKeys(text: string, fields: seq<Field>, at: nat, indent: nat): seq<Line>
    requires fields != []
    decreases fields, 0
  {
    [Line(at, text)] + (PrintValue(fields[0].value, indent) + PrintFields(fields[1..], indent))
  }

  function KeyText(f: Field): string {
    f.key + (if f.value.Scalar? then ": " + f.value.text else ":")
  }

  function ValueText(t: Tree): string {
    if t.Scalar? then t.text else ""
  }

  /** The lines below a key. */
  function PrintValue(t: Tree, indent: nat): seq<Line>
    decreases t, 1
  {
    if IsBlock(t) then Print(t, indent + 1 + t.pad) else []
  }

  /** The value a tree stands for; a repeated key means its last value. */
  function Meaning(t: Tree): Value
    decreases t, 0
  {
    match t
    case Empty => Null
    case Scalar(text) => Leaf(text)
    case Sequence(_, items) => List(Meanings(items))
    case Mapping(_, _, fields) => Map(Meant(map[], fields))
  }

  function Meanings(items: seq<Tree>): seq<Value>
    decreases items, 0
  {
    if items == [] then [] else [Meaning(items[0])] + Meanings(items[1..])
  }

  function Meant(m: map<string, Value>, fields: seq<Field>): map<string, Value>
    decreases fields, 0
  {
    if fields == [] then m else Meant(m[fields[0].key := Meaning(fields[0].value)], fields[1..])
  }

  /** A key without surrounding blanks or colon that cannot be taken for a list item. */
  predicate CleanKey(s: string) {
    Trimmed(s) && ':' !in s && !Dashed(s)
  }

  predicate CleanText(s: string) {
    Trimmed(s) && s != ""
  }

  /** Clean keys and texts, no empty list or mapping. */
  predicate Clean(t: Tree)
    decreases t, 0
  {
    match t
    case Empty => true
    case Scalar(text) => CleanText(text)
    case Sequence(_, items) => items != [] && CleanItems(items)
    case Mapping(_, _, fields) => fields != [] && CleanFields(fields)
  }

  predicate CleanItems(items: seq<Tree>)
    decreases items, 0
  {
    items == [] || (Clean(items[0]) && CleanItems(items[1..]))
  }

  predicate CleanFields(fields: seq<Field>)
    decreases fields, 1
  {
    fields == [] || (CleanField(fields[0]) && CleanFields(fields[1..]))
  }

  predicate CleanField(f: Field)
    decreases f, 0
  {
    CleanKey(f.key) && Clean(f.value)
  }

  // ----- what the reader makes of a tree ----------------------------------------------------------------

  function Reading(t: Tree): Value
    decreases t, 0
  {
    match t
    case Empty => Null
    case Scalar(text) => Leaf(text)
    case Sequence(_, items) => List(ItemReadings(items))
    case Mapping(_, _, fields) => Map(FieldReadings(map[], fields))
  }

  function ItemReadings(items: seq<Tree>): seq<Value>
    decreases items, 0
  {
    if items == [] then [] else [ItemReading(items[0])] + ItemReadings(items[1..])
  }

  /** As a list item, a scalar with a colon is taken for a mapping, and a hanging mapping is read by rules of its own. */
  function ItemReading(t: Tree): Value
    decreases t, 1
  {
    if t.Scalar? then ScalarReading(t.text)
    else if t.Mapping? && t.hangs && t.fields != [] then Map(HangingReading(t.fields))
    else Reading(t)
  }

  function ScalarReading(s: string): Value {
    if ':' in s then
      var (key, v) := Split(s);
      Map(Set(map[], key, if v == "" then None else Some(Leaf(v))))
    else Leaf(s)
  }

  function FieldReadings(m: map<string, Value>, fields: seq<Field>): map<string, Value>
    decreases fields, 0
  {
    if fields == [] then m else FieldReadings(m[fields[0].key := Reading(fields[0].value)], fields[1..])
  }

  /** An empty key of a hanging mapping is dropped; if it is the first, it takes all others for its value. */
  function HangingReading(fields: seq<Field>): map<string, Value>
    requires fields != []
    decreases fields, 1
  {
    if !fields[0].value.Empty? then MoreReadings(map[fields[0].key := Reading(fields[0].value)], fields[1..])
    else if |fields| == 1 then map[]
    else map[fields[0].key := Map(FieldReadings(map[], fields[1..]))]
  }

  function MoreReadings(m: map<string, Value>, fields: seq<Field>): map<string, Value>
    decreases fields, 0
  {
    if fields == [] then m else MoreReadings(Set(m, fields[0].key, Given(fields[0].value)), fields[1..])
  }

  /** What the reader finds on or below the line of a key. */
  function Given(t: Tree): Option<Value>
    decreases t, 1
  {
    if t.Empty? then None else Some(Reading(t))
  }

  // ----- when reading and meaning agree ------------------------------------------------------------------

  /** No scalar with a colon in a list, no empty value in a hanging mapping, at any depth. */
  predicate Faithful(t: Tree)
    decreases t, 0
  {
    match t
    case Sequence(_, items) => FaithfulItems(items)
    case Mapping(_, _, fields) => FaithfulFields(fields)
    case _ => true
  }

  predicate FaithfulItems(items: seq<Tree>)
    decreases items, 0
  {
    items == [] || (FaithfulItem(items[0]) && FaithfulItems(items[1..]))
  }

  predicate FaithfulItem(t: Tree)
    decreases t, 1
  {
    Faithful(t) && (t.Scalar? ==> ':' !in t.text) && (t.Mapping? && t.hangs ==> NoneEmpty(t.fields))
  }

  predicate FaithfulFields(fields: seq<Field>)
    decreases fields, 0
  {
    fields == [] || (Faithful(fields[0].value) && FaithfulFields(fields[1..]))
  }

  predicate NoneEmpty(fields: seq<Field>) {
    fields == [] || (!fields[0].value.Empty? && NoneEmpty(fields[1..]))
  }

  predicate DistinctKeys(fields: seq<Field>) {
    forall i, j :: 0 <= i < j < |fields| ==> fields[i].key != fields[j].key
  }

  /** No mapping, at any depth, has a key twice. */
  predicate Distinct(t: Tree)
    decreases t, 0
  {
    match t
    case Sequence(_, items) => DistinctItems(items)
    case Mapping(_, _, fields) => DistinctKeys(fields) && DistinctFields(fields)
    case _ => true
  }

  predicate DistinctItems(items: seq<Tree>)
    decreases items, 0
  {
    items == [] || (Distinct(items[0]) && DistinctItems(items[1..]))
  }

  predicate DistinctFields(fields: seq<Field>)
    decreases fields, 0
  {
    fields == [] || (Distinct(fields[0].value) && DistinctFields(fields[1..]))
  }

  // ----- looking keys up -----------------------------------------------------------------------------------

  /** The key occurs in no field. */
  predicate Absent(fields: seq<Field>, key: string) {
    forall i :: 0 <= i < |fields| ==> fields[i].key != key
  }

  lemma FirstKeyIsAbsent(fields: seq<Field>)
    requires fields != [] && DistinctKeys(fields)
    ensures Absent(fields[1..], fields[0].key) && DistinctKeys(fields[1..])
  {}

  lemma {:induction false} MeantKeepsOthers(m: map<string, Value>, fields: seq<Field>, key: string)
    requires Absent(fields, key)
    ensures key in Meant(m, fields) <==> key in m
    ensures key in m ==> Meant(m, fields)[key] == m[key]
    decreases |fields|
  {
    if fields != [] {
      MeantKeepsOthers(m[fields[0].key := Meaning(fields[0].value)], fields[1..], key);
    }
  }

  lemma {:induction false} ReadingsKeepOthers(m: map<string, Value>, fields: seq<Field>, key: string)
    requires Absent(fields, key)
    ensures key in FieldReadings(m, fields) <==> key in m
    ensures key in m ==> FieldReadings(m, fields)[key] == m[key]
    decreases |fields|
  {
    if fields != [] {
      ReadingsKeepOthers(m[fields[0].key := Reading(fields[0].value)], fields[1..], key);
    }
  }

  lemma {:induction false} MoreReadingsKeepOthers(m: map<string, Value>, fields: seq<Field>, key: string)
    requires Absent(fields, key)
    ensures key in MoreReadings(m, fields) <==> key in m
    decreases |fields|
  {
    if fields != [] {
      MoreReadingsKeepOthers(Set(m, fields[0].key, Given(fields[0].value)), fields[1..], key);
    }
  }

  /** A mapping with distinct keys means exactly its fields: nothing is lost, nothing added. */
  lemma {:induction false} MeaningIsFaithful(m: map<string, Value>, fields: seq<Field>)
    requires DistinctKeys(fields)
    ensures forall i :: 0 <= i < |fields| ==>
      fields[i].key in Meant(m, fields) && Meant(m, fields)[fields[i].key] == Meaning(fields[i].value)
    ensures forall key :: key in Meant(m, fields) && key !in m ==> !Absent(fields, key)
    decreases |fields|
  {
    forall key | key in Meant(m, fields) && key !in m ensures !Absent(fields, key) {
      if Absent(fields, key) {
        MeantKeepsOthers(m, fields, key);
      }
    }
    if fields != [] {
      var f, rest := fields[0], fields[1..];
      var n := m[f.key := Meaning(f.value)];
      MeaningIsFaithful(n, rest);
      MeantKeepsOthers(n, rest, f.key);
      forall i | 0 <= i < |fields|
        ensures fields[i].key in Meant(m, fields) && Meant(m, fields)[fields[i].key] == Meaning(fields[i].value)
      {
        assert i > 0 ==> fields[i] == rest[i - 1];
      }
    }
  }

  // ----- agreement -------------------------------------------------------------------------------------------

  /** Field by field: what is read of a mapping is what it means exactly when this holds of each value. */
  lemma {:induction false} FieldsAgreeExactly(m: map<string, Value>, fields: seq<Field>)
    requires DistinctKeys(fields) && DistinctFields(fields)
    ensures FieldReadings(m, fields) == Meant(m, fields) <==> FaithfulFields(fields)
    decreases fields, 0
  {
    if fields != [] {
      var f, rest := fields[0], fields[1..];
      FirstKeyIsAbsent(fields);
      AgreeExactly(f.value);
      if Reading(f.value) == Meaning(f.value) {
        FieldsAgreeExactly(m[f.key := Meaning(f.value)], rest);
      } else {
        ReadingsKeepOthers(m[f.key := Reading(f.value)], rest, f.key);
        MeantKeepsOthers(m[f.key := Meaning(f.value)], rest, f.key);
      }
    }
  }

  /** Without an empty value the further keys of a hanging mapping are read like those of any mapping. */
  lemma {:induction false} FilledReadsAlike(m: map<string, Value>, fields: seq<Field>)
    requires NoneEmpty(fields)
    ensures MoreReadings(m, fields) == FieldReadings(m, fields)
    decreases |fields|
  {
    if fields != [] {
      FilledReadsAlike(m[fields[0].key := Reading(fields[0].value)], fields[1..]);
    }
  }

  /** With one, its key is missing. */
  lemma {:induction false} EmptyKeysAreDropped(m: map<string, Value>, fields: seq<Field>) returns (key: string)
    requires !NoneEmpty(fields) && DistinctKeys(fields) && forall f :: f in fields ==> f.key !in m
    ensures key !in MoreReadings(m, fields) && !Absent(fields, key)
    decreases |fields|
  {
    var f, rest := fields[0], fields[1..];
    FirstKeyIsAbsent(fields);
    if f.value.Empty? {
      key := f.key;
      MoreReadingsKeepOthers(m, rest, key);
      assert fields[0].key == key;
    } else {
      key := EmptyKeysAreDropped(m[f.key := Reading(f.value)], rest);
      assert Absent(fields, key) ==> Absent(rest, key);
    }
  }

  lemma HangingAgreesExactly(fields: seq<Field>)
    requires fields != [] && DistinctKeys(fields) && DistinctFields(fields)
    ensures HangingReading(fields) == Meant(map[], fields) <==> NoneEmpty(fields) && FaithfulFields(fields)
    decreases fields, 1
  {
    var f, rest := fields[0], fields[1..];
    var m := map[f.key := Reading(f.value)];
    MeaningIsFaithful(map[], fields);
    FirstKeyIsAbsent(fields);
    if f.value.Empty? {
      assert Meant(map[], fields)[f.key] == Null;
    } else if NoneEmpty(rest) {
      FilledReadsAlike(m, rest);
      assert map[][f.key := Reading(f.value)] == m;
      FieldsAgreeExactly(map[], fields);
    } else {
      var key := EmptyKeysAreDropped(m, rest);
      assert !Absent(fields, key) by {
        var i :| 0 <= i < |rest| && rest[i].key == key;
        assert fields[i + 1].key == key;
      }
    }
  }

  lemma ItemAgreesExactly(t: Tree)
    requires Distinct(t)
    ensures ItemReading(t) == Meaning(t) <==> FaithfulItem(t)
    decreases t, 1
  {
    if t.Mapping? && t.hangs && t.fields != [] {
      HangingAgreesExactly(t.fields);
    } else if !t.Scalar? {
      AgreeExactly(t);
    }
  }

  lemma {:induction false} ItemsAgreeExactly(items: seq<Tree>)
    requires DistinctItems(items)
    ensures ItemReadings(items) == Meanings(items) <==> FaithfulItems(items)
    decreases items, 0
  {
    if items != [] {
      var a, b := ItemReadings(items), Meanings(items);
      ItemAgreesExactly(items[0]);
      ItemsAgreeExactly(items[1..]);
      assert a[0] == ItemReading(items[0]) && a[1..] == ItemReadings(items[1..]);
      assert b[0] == Meaning(items[0]) && b[1..] == Meanings(items[1..]);
    }
  }

  /** What is read of a tree without repeated keys is what it means exactly when the tree is faithful. */
  lemma AgreeExactly(t: Tree)
    requires Distinct(t)
    ensures Reading(t) == Meaning(t) <==> Faithful(t)
    decreases t, 0
  {
    if t.Sequence? {
      ItemsAgreeExactly(t.items);
    } else if t.Mapping? {
      FieldsAgreeExactly(map[], t.fields);
    }
  }

  // ----- faithful trees with repeated keys --------------------------------------------------------------------

  lemma FaithfulAgrees(t: Tree)
    requires Faithful(t)
    ensures Reading(t) == Meaning(t)
    decreases t, 0
  {
    if t.Sequence? {
      FaithfulItemsAgree(t.items);
    } else if t.Mapping? {
      FaithfulFieldsAgree(map[], t.fields);
    }
  }

  lemma {:induction false} FaithfulItemsAgree(items: seq<Tree>)
    requires FaithfulItems(items)
    ensures ItemReadings(items) == Meanings(items)
    decreases items, 0
  {
    if items != [] {
      FaithfulItemAgrees(items[0]);
      FaithfulItemsAgree(items[1..]);
    }
  }

  lemma FaithfulItemAgrees(t: Tree)
    requires FaithfulItem(t)
    ensures ItemReading(t) == Meaning(t)
    decreases t, 1
  {
    if t.Mapping? && t.hangs && t.fields != [] {
      var f, rest := t.fields[0], t.fields[1..];
      FilledReadsAlike(map[f.key := Reading(f.value)], rest);
      assert map[][f.key := Reading(f.value)] == map[f.key := Reading(f.value)];
      FaithfulFieldsAgree(map[], t.fields);
    } else if !t.Scalar? {
      FaithfulAgrees(t);
    }
  }

  lemma {:induction false} FaithfulFieldsAgree(m: map<string, Value>, fields: seq<Field>)
    requires FaithfulFields(fields)
    ensures FieldReadings(m, fields) == Meant(m, fields)
    decreases fields, 0
  {
    if fields != [] {
      FaithfulAgrees(fields[0].value);
      FaithfulFieldsAgree(m[fields[0].key := Meaning(fields[0].value)], fields[1..]);
    }
  }
}
