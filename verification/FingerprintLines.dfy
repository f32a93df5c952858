/** What a fingerprint says: a line for every entry the arguments nest, and one for every array's first element. */
module FingerprintLines {
  import opened Sorting
  import opened Fingerprint
  import opened FingerprintCollisions

  /** The type as a line prints it. */
  function TypeText(v: Json): string {
    match v
    case JNull => "null"
    case JBool(_) => "boolean"
    case JNumber(_) => "number"
    case JString(_) => "string"
    case JArray(_) => "array"
    case JObject(_) => "object"
  }

  /** The path of a key under another path; a first path that is empty adds no dot. */
  function Under(prefix: string, key: string): string { if prefix == "" then key else prefix + "." + key }

  /** The entry's own line, or its array's first element's. */
  ghost predicate OwnLine(v: Json, path: string, line: string) {
    line == path + ":" + TypeText(v) || (v.JArray? && |v.items| > 0 && line == (path + "[]") + ":" + TypeText(v.items[0]))
  }

  /** The line is that of the entry these keys lead to, through objects. */
  ghost predicate Says(fields: seq<Field>, prefix: string, keys: seq<string>, line: string)
    decreases |keys|
  {
    && |keys| > 0
    && exists f | f in fields && f.key == keys[0] ::
         if |keys| == 1 then OwnLine(f.value, Under(prefix, f.key), line)
         else f.value.JObject? && Says(f.value.fields, Under(prefix, f.key), keys[1..], line)
  }

  /** The line is that of some entry, nested or not. */
  ghost predicate IsSaid(fields: seq<Field>, prefix: string, line: string) { exists keys :: Says(fields, prefix, keys, line) }

  lemma TypeTextIs(v: Json)
    ensures TypeText(v) == TypeName(ValueType(v))
  {
  }

  /** The line belongs to this entry or to something nested in it. */
  ghost predicate EntrySays(f: Field, prefix: string, line: string) {
    || OwnLine(f.value, Under(prefix, f.key), line)
    || (f.value.JObject? && IsSaid(f.value.fields, Under(prefix, f.key), line))
  }

  lemma SaysByEntry(fields: seq<Field>, prefix: string, line: string)
    ensures IsSaid(fields, prefix, line) <==> exists f | f in fields :: EntrySays(f, prefix, line)
  {
    if keys :| Says(fields, prefix, keys, line) {
      var f :| f in fields && f.key == keys[0]
        && if |keys| == 1 then OwnLine(f.value, Under(prefix, f.key), line)
           else f.value.JObject? && Says(f.value.fields, Under(prefix, f.key), keys[1..], line);
      assert EntrySays(f, prefix, line);
    }
    if f :| f in fields && EntrySays(f, prefix, line) {
      if OwnLine(f.value, Under(prefix, f.key), line) {
        assert Says(fields, prefix, [f.key], line);
      } else {
        var keys :| Says(f.value.fields, Under(prefix, f.key), keys, line);
        assert ([f.key] + keys)[1..] == keys;
        assert Says(fields, prefix, [f.key] + keys, line);
      }
    }
  }

  /** Apart from what an object nests, an entry prints its own line alone. */
  lemma OwnLinePrints(f: Field, prefix: string, line: string)
    ensures OwnLine(f.value, Under(prefix, f.key), line) <==>
      line == TypeLine(Path(prefix, f.key), ValueType(f.value)) || (!f.value.JObject? && line in InnerLines(f, Path(prefix, f.key)))
  {
    TypeTextIs(f.value);
    if f.value.JArray? && |f.value.items| > 0 {
      TypeTextIs(f.value.items[0]);
    }
  }

  lemma {:induction false} EntryPrints(f: Field, prefix: string, line: string)
    ensures EntrySays(f, prefix, line) <==>
      line == TypeLine(Path(prefix, f.key), ValueType(f.value)) || line in InnerLines(f, Path(prefix, f.key))
    decreases FieldNesting(f), 0, 1
  {
    OwnLinePrints(f, prefix, line);
    if f.value.JObject? {
      NestedPrints(f, Path(prefix, f.key), line);
    }
  }

  lemma {:induction false} NestedPrints(f: Field, path: string, line: string)
    requires f.value.JObject?
    ensures line in InnerLines(f, path) <==> IsSaid(f.value.fields, path, line)
    decreases FieldNesting(f), 0, 0
  {
    SortedMembers(f.value.fields);
    FieldsPrint(SortedFields(f.value.fields), path, line);
    SameEntriesSay(f.value.fields, SortedFields(f.value.fields), path, line);
  }

  lemma SameEntriesSay(a: seq<Field>, b: seq<Field>, prefix: string, line: string)
    requires forall f :: f in a <==> f in b
    ensures IsSaid(a, prefix, line) <==> IsSaid(b, prefix, line)
  {
    SaysByEntry(a, prefix, line);
    SaysByEntry(b, prefix, line);
  }

  lemma {:induction false} FieldsPrint(fields: seq<Field>, prefix: string, line: string)
    ensures line in LinesOf(fields, prefix) <==> IsSaid(fields, prefix, line)
    decreases Nesting(fields), |fields|, 0
  {
    SaysByEntry(fields, prefix, line);
    if |fields| > 0 {
      NestingBounds(fields, fields[0]);
      NestingWithin(fields[1..], fields);
      EntryPrints(fields[0], prefix, line);
      FieldsPrint(fields[1..], prefix, line);
      SaysByEntry(fields[1..], prefix, line);
      assert fields == [fields[0]] + fields[1..];
    }
  }

  /** The printed lines are exactly those that some keys lead to. */
  lemma LinesSay(args: seq<Field>, line: string)
    ensures line in Lines(args, "") <==> IsSaid(args, "", line)
  {
    SortedMembers(args);
    FieldsPrint(SortedFields(args), "", line);
    SameEntriesSay(args, SortedFields(args), "", line);
  }

  // ---------------------------------------------------------------------------
  // Order
  // ---------------------------------------------------------------------------

  /** Equal up to `k`, and there the first ends or has the smaller character. */
  ghost predicate FirstDifference(a: string, b: string, k: nat) {
    k <= |a| && k <= |b| && a[..k] == b[..k] && (k == |a| || (k < |b| && a[k] < b[k]))
  }

  lemma LaterDifference(a: string, b: string, k: nat)
    requires |a| > 0 && |b| > 0 && k > 0 && FirstDifference(a, b, k)
    ensures a[0] == b[0] && FirstDifference(a[1..], b[1..], k - 1)
  {
    assert a[..k][0] == b[..k][0];
    assert a[1..][..k - 1] == a[..k][1..] && b[1..][..k - 1] == b[..k][1..];
  }

  lemma EarlierDifference(a: string, b: string, k: nat)
    requires |a| > 0 && |b| > 0 && a[0] == b[0] && FirstDifference(a[1..], b[1..], k)
    ensures FirstDifference(a, b, k + 1)
  {
    assert a[..k + 1] == [a[0]] + a[1..][..k] && b[..k + 1] == [b[0]] + b[1..][..k];
  }

  /** Keys are compared character by character. */
  lemma {:induction false} LexIff(a: string, b: string)
    ensures LexLeq(a, b) <==> exists k: nat :: FirstDifference(a, b, k)
  {
    if |a| == 0 {
      assert FirstDifference(a, b, 0);
    } else if |b| > 0 {
      assert a[0] < b[0] ==> FirstDifference(a, b, 0);
      forall k: nat | k > 0 && FirstDifference(a, b, k) ensures a[0] == b[0] && FirstDifference(a[1..], b[1..], k - 1) {
        LaterDifference(a, b, k);
      }
      LexIff(a[1..], b[1..]);
      if a[0] == b[0] && LexLeq(a[1..], b[1..]) {
        var k: nat :| FirstDifference(a[1..], b[1..], k);
        EarlierDifference(a, b, k);
      }
    }
  }

  lemma SwappedEntries(f: Field, g: Field)
    requires !KeyLeq(g, f)
    ensures SortedFields([g, f]) == [f, g]
  {
    OneEntryLines(g, "");
    assert [g, f][..1] == [g] && [g][..0] == [];
    assert Sort([g, f], KeyLeq) == Insert([g], f, KeyLeq);
    assert Insert([], f, KeyLeq) == [f];
    assert Insert([g], f, KeyLeq) == [f] + [g];
  }

  lemma SortedTwice(f: Field, g: Field)
    requires KeyLeq(f, g)
    ensures SortedFields([f, g]) == [f, g]
  {
    OneEntryLines(f, "");
    assert [f, g][..1] == [f];
    assert Sort([f, g], KeyLeq) == Insert([f], g, KeyLeq);
  }

  lemma SwappedLines(f: Field, g: Field)
    requires KeyLeq(f, g) && !KeyLeq(g, f)
    ensures Lines([g, f], "") == Lines([f], "") + Lines([g], "")
  {
    SwappedEntries(f, g);
    SortedTwice(f, g);
    TwoEntryLines(f, g, "");
    OneEntryLines(f, "");
  }

  lemma ArrayLines(y: string, items: seq<Json>)
    requires |items| > 0
    ensures Lines([Field(y, JArray(items))], "") == [TypeLine(y, ArrayType), TypeLine(y + "[]", ValueType(items[0]))]
  {
    OneEntryLines(Field(y, JArray(items)), "");
  }

  /**
   * Order of the lines: `{y: [v, ...], x: {z: leaf}}` with x before y prints x and what it holds, then y and
   * the type of its first element.
   */
  lemma EntriesPrintInKeyOrder(x: string, y: string, z: string, leaf: Json, items: seq<Json>)
    requires LexLeq(x, y) && !LexLeq(y, x) && |x| > 0 && |items| > 0 && !leaf.JObject? && !leaf.JArray?
    ensures Lines([Field(y, JArray(items)), Field(x, JObject([Field(z, leaf)]))], "")
      == [TypeLine(x, ObjectType), TypeLine(x + "." + z, ValueType(leaf)), TypeLine(y, ArrayType), TypeLine(y + "[]", ValueType(items[0]))]
  {
    SwappedLines(Field(x, JObject([Field(z, leaf)])), Field(y, JArray(items)));
    NestedLines(x, Field(z, leaf));
    ArrayLines(y, items);
  }
}
