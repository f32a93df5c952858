/** Structural fingerprints of tool-call arguments. */
module Fingerprint {
  import opened Sorting

  /** A parsed JSON value; an object keeps its entries in insertion order. */
  datatype Json =
    | JNull
    | JBool(b: bool)
    | JNumber(n: real)
    | JString(s: string)
    | JArray(items: seq<Json>)
    | JObject(fields: seq<Field>)

  datatype Field = Field(key: string, value: Json)

  datatype JsonType = StringType | NumberType | BooleanType | NullType | ObjectType | ArrayType

  function ValueType(v: Json): JsonType {
    match v
    case JNull => NullType
    case JBool(_) => BooleanType
    case JNumber(_) => NumberType
    case JString(_) => StringType
    case JArray(_) => ArrayType
    case JObject(_) => ObjectType
  }

  function TypeName(t: JsonType): string {
    match t
    case StringType => "string"
    case NumberType => "number"
    case BooleanType => "boolean"
    case NullType => "null"
    case ObjectType => "object"
    case ArrayType => "array"
  }

  // ---------------------------------------------------------------------------
  // Key order
  // ---------------------------------------------------------------------------

  predicate LexLeq(a: string, b: string) {
    |a| == 0 || (|b| > 0 && (a[0] < b[0] || (a[0] == b[0] && LexLeq(a[1..], b[1..]))))
  }

  predicate KeyLeq(a: Field, b: Field) { LexLeq(a.key, b.key) }

  lemma {:induction false} LexTotal(a: string, b: string)
    ensures LexLeq(a, b) || LexLeq(b, a)
    ensures LexLeq(a, b) && LexLeq(b, a) ==> a == b
  {
    if |a| > 0 && |b| > 0 {
      LexTotal(a[1..], b[1..]);
      assert a == [a[0]] + a[1..] && b == [b[0]] + b[1..];
    }
  }

  lemma {:induction false} LexTransitive(a: string, b: string, c: string)
    requires LexLeq(a, b) && LexLeq(b, c)
    ensures LexLeq(a, c)
  {
    if |a| > 0 && a[0] == b[0] == c[0] {
      LexTransitive(a[1..], b[1..], c[1..]);
    }
  }

  lemma KeyLeqIsTotal()
    ensures TotalPreorder(KeyLeq)
  {
    forall a: Field, b: Field ensures KeyLeq(a, b) || KeyLeq(b, a) {
      LexTotal(a.key, b.key);
    }
    forall a: Field, b: Field, c: Field | KeyLeq(a, b) && KeyLeq(b, c) ensures KeyLeq(a, c) {
      LexTransitive(a.key, b.key, c.key);
    }
  }

  function SortedFields(fields: seq<Field>): (r: seq<Field>)
    ensures |r| == |fields|
    ensures multiset(r) == multiset(fields)
  {
    Sort(fields, KeyLeq)
  }

  // ---------------------------------------------------------------------------
  // Lines
  // ---------------------------------------------------------------------------

  /** Depth of object nesting, array contents not counted. */
  function Nesting(fields: seq<Field>): nat {
    if |fields| == 0 then 0
    else
      var rest := Nesting(fields[1..]);
      var first := FieldNesting(fields[0]);
      if first > rest then first else rest
  }

  function FieldNesting(f: Field): nat
    decreases f
  {
    if f.value.JObject? then 1 + Nesting(f.value.fields) else 0
  }

  lemma {:induction false} NestingBounds(fields: seq<Field>, f: Field)
    requires f in fields
    ensures FieldNesting(f) <= Nesting(fields)
  {
    if f != fields[0] {
      NestingBounds(fields[1..], f);
    }
  }

  lemma {:induction false} NestingWithin(a: seq<Field>, b: seq<Field>)
    requires forall f | f in a :: f in b
    ensures Nesting(a) <= Nesting(b)
  {
    if |a| > 0 {
      NestingBounds(b, a[0]);
      NestingWithin(a[1..], b);
    }
  }

  lemma SortedMembers(fields: seq<Field>)
    ensures forall f :: f in SortedFields(fields) <==> f in fields
    ensures Nesting(SortedFields(fields)) == Nesting(fields)
  {
    var r := SortedFields(fields);
    forall f ensures f in r <==> f in fields {
      assert f in r <==> f in multiset(r);
      assert f in fields <==> f in multiset(fields);
    }
    NestingWithin(r, fields);
    NestingWithin(fields, r);
  }

  function Path(prefix: string, key: string): string {
    if |prefix| > 0 then prefix + "." + key else key
  }

  function TypeLine(path: string, t: JsonType): string { path + ":" + TypeName(t) }

  /** The lines of entries already in key order. */
  function LinesOf(fields: seq<Field>, prefix: string): seq<string>
    decreases Nesting(fields), |fields|, 0
  {
    if |fields| == 0 then []
    else
      NestingBounds(fields, fields[0]);
      NestingWithin(fields[1..], fields);
      var path := Path(prefix, fields[0].key);
      [TypeLine(path, ValueType(fields[0].value))] + InnerLines(fields[0], path) + LinesOf(fields[1..], prefix)
  }

  /** What follows an entry's own line: its object's lines, or its first element's type. */
  function InnerLines(f: Field, path: string): seq<string>
    decreases FieldNesting(f), 0, 1
  {
    match f.value
    case JObject(inner) => SortedMembers(inner); LinesOf(SortedFields(inner), path)
    case JArray(items) => if |items| > 0 then [TypeLine(path + "[]", ValueType(items[0]))] else []
    case _ => []
  }

  function Lines(fields: seq<Field>, prefix: string): seq<string> { LinesOf(SortedFields(fields), prefix) }

  function Join(lines: seq<string>): string {
    if |lines| == 0 then "" else if |lines| == 1 then lines[0] else lines[0] + "|" + Join(lines[1..])
  }

  function ArgumentStructureFingerprint(args: seq<Field>): string { Join(Lines(args, "")) }

  /** What the loop has printed and what it has left make up the whole. */
  ghost predicate Printing(lines: seq<string>, entries: seq<Field>, i: nat, prefix: string, whole: seq<string>) {
    i <= |entries| && lines + LinesOf(entries[i..], prefix) == whole
  }

  /** One loop step moves the next entry's lines from the remainder to the output. */
  lemma LinesStep(lines: seq<string>, entries: seq<Field>, i: nat, prefix: string, whole: seq<string>)
    requires i < |entries| && Printing(lines, entries, i, prefix, whole)
    ensures var path := Path(prefix, entries[i].key);
      Printing(lines + [TypeLine(path, ValueType(entries[i].value))] + InnerLines(entries[i], path), entries, i + 1, prefix, whole)
  {
    assert entries[i..][0] == entries[i] && entries[i..][1..] == entries[i + 1..];
  }

  lemma PrintingStarts(obj: seq<Field>, prefix: string)
    ensures Printing([], SortedFields(obj), 0, prefix, Lines(obj, prefix))
  {
    assert SortedFields(obj)[0..] == SortedFields(obj);
  }

  lemma PrintingEnds(lines: seq<string>, entries: seq<Field>, prefix: string, whole: seq<string>)
    requires Printing(lines, entries, |entries|, prefix, whole)
    ensures lines == whole
  {
  }

  /** The recursive printer: one pass over the sorted keys, filling `lines`. */
  method BuildArgumentStructureLines(obj: seq<Field>, prefix: string) returns (lines: seq<string>)
    ensures lines == Lines(obj, prefix)
    decreases Nesting(obj), 1
  {
    lines := [];
    ghost var whole := Lines(obj, prefix);
    var entries := SortedFields(obj);
    SortedMembers(obj);
    PrintingStarts(obj, prefix);
    var i := 0;
    while i < |entries|
      invariant 0 <= i <= |entries|
      invariant Printing(lines, entries, i, prefix, whole)
    {
      var path := if |prefix| > 0 then prefix + "." + entries[i].key else entries[i].key;
      LinesStep(lines, entries, i, prefix, whole);
      NestingBounds(obj, entries[i]);
      lines := lines + [TypeLine(path, ValueType(entries[i].value))];
      var inner := BuildInnerLines(entries[i], path);
      lines := lines + inner;
      i := i + 1;
    }
    PrintingEnds(lines, entries, prefix, whole);
  }

  /** The nested part of one loop step. */
  method BuildInnerLines(f: Field, path: string) returns (lines: seq<string>)
    ensures lines == InnerLines(f, path)
    decreases FieldNesting(f), 0
  {
    lines := [];
    if f.value.JObject? {
      lines := BuildArgumentStructureLines(f.value.fields, path);
    }
    if f.value.JArray? && |f.value.items| > 0 {
      lines := lines + [TypeLine(path + "[]", ValueType(f.value.items[0]))];
    }
  }

  // ---------------------------------------------------------------------------
  // Shape
  // ---------------------------------------------------------------------------

  ghost predicate HasKey(fields: seq<Field>, key: string) { exists f | f in fields :: f.key == key }

  /** Same keys, and under each key the same shape; order and literal values play no part. */
  ghost predicate SameFields(a: seq<Field>, b: seq<Field>)
    decreases a
  {
    && (forall key :: HasKey(a, key) <==> HasKey(b, key))
    && (forall f, g | f in a && g in b && f.key == g.key :: SameShape(f.value, g.value))
  }

  ghost predicate SameShape(a: Json, b: Json)
    decreases a
  {
    && SameKind(a, b)
    && (a.JObject? ==> SameFields(a.fields, b.fields))
    && (a.JArray? ==> SameFirstType(a.items, b.items))
  }

  ghost predicate SameFirstType(a: seq<Json>, b: seq<Json>) {
    (|a| == 0 <==> |b| == 0) && (|a| > 0 && |b| > 0 ==> SameKind(a[0], b[0]))
  }

  /** Both null, both boolean, both numbers, both strings, both arrays or both objects. */
  ghost predicate SameKind(a: Json, b: Json) {
    && (a.JNull? <==> b.JNull?) && (a.JBool? <==> b.JBool?) && (a.JNumber? <==> b.JNumber?)
    && (a.JString? <==> b.JString?) && (a.JArray? <==> b.JArray?) && (a.JObject? <==> b.JObject?)
  }

  /** Keys are pairwise distinct at every level, as in any object. */
  ghost predicate UniqueKeys(fields: seq<Field>)
    decreases fields
  {
    && (forall i, j | 0 <= i < j < |fields| :: fields[i].key != fields[j].key)
    && (forall f | f in fields && f.value.JObject? :: UniqueKeys(f.value.fields))
  }

  /** The characters the printer itself writes between keys and type names. */
  const DELIMITERS: set<char> := {'.', ':', '|', '[', ']'}

  ghost predicate FreeKey(key: string, banned: set<char>) { |key| > 0 && forall c | c in key :: c !in banned }

  /** Every key is non-empty and free of the banned characters. */
  ghost predicate FreeKeys(fields: seq<Field>, banned: set<char>)
    decreases fields
  {
    && (forall f | f in fields :: FreeKey(f.key, banned))
    && (forall f | f in fields && f.value.JObject? :: FreeKeys(f.value.fields, banned))
  }

  /** Enough is banned to tell nesting from keys, array elements from keys, and one line from two. */
  predicate Decisive(banned: set<char>) {
    '.' in banned && ('[' in banned || ']' in banned) && (':' in banned || '|' in banned)
  }
}
