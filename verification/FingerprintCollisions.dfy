/** Objects of different shapes with one fingerprint, and the bans on key characters that rule them out. */
module FingerprintCollisions {
  import opened Fingerprint
  import opened FingerprintShape

  // ---------------------------------------------------------------------------
  // Short objects
  // ---------------------------------------------------------------------------

  lemma OneEntryLines(f: Field, prefix: string)
    ensures SortedFields([f]) == [f]
    ensures Lines([f], prefix)
         == [TypeLine(Path(prefix, f.key), ValueType(f.value))] + InnerLines(f, Path(prefix, f.key))
  {
    assert [f][..0] == [] && [f][1..] == [];
    LinesCons([f], prefix);
  }

  lemma TwoEntryLines(f: Field, g: Field, prefix: string)
    requires KeyLeq(f, g)
    ensures Lines([f, g], prefix)
         == [TypeLine(Path(prefix, f.key), ValueType(f.value))] + InnerLines(f, Path(prefix, f.key)) + Lines([g], prefix)
  {
    OneEntryLines(f, prefix);
    OneEntryLines(g, prefix);
    assert [f, g][..1] == [f] && [f, g][1..] == [g];
    assert SortedFields([f, g]) == [f] + [g] == [f, g];
    LinesCons([f, g], prefix);
  }

  lemma {:induction false} StartIsLeq(x: string, y: string)
    ensures LexLeq(x, x + y)
  {
    if |x| > 0 {
      assert (x + y)[1..] == x[1..] + y;
      StartIsLeq(x[1..], y);
    }
  }

  // ---------------------------------------------------------------------------
  // Collisions
  // ---------------------------------------------------------------------------

  ghost predicate Collide(a: seq<Field>, b: seq<Field>) {
    UniqueKeys(a) && UniqueKeys(b) && !SameFields(a, b) && ArgumentStructureFingerprint(a) == ArgumentStructureFingerprint(b)
  }

  lemma LeafLines(key: string, leaf: Json, prefix: string)
    requires !leaf.JObject? && !leaf.JArray?
    ensures Lines([Field(key, leaf)], prefix) == [TypeLine(Path(prefix, key), ValueType(leaf))]
  {
    OneEntryLines(Field(key, leaf), prefix);
  }

  /** `{x: {y: leaf}}` and `{x: {}, "x.y": leaf}` print the same lines. */
  lemma DottedKeyCollides(x: string, y: string, leaf: Json)
    requires |x| > 0 && !leaf.JObject? && !leaf.JArray?
    ensures Collide([Field(x, JObject([Field(y, leaf)]))], [Field(x, JObject([])), Field(x + "." + y, leaf)])
  {
    NestedCollides(x, y, x + "." + y, leaf);
  }

  /** `{"": {y: leaf}}` and `{"": {}, y: leaf}` print the same lines: an empty key hides its nesting. */
  lemma EmptyKeyCollides(y: string, leaf: Json)
    requires |y| > 0 && !leaf.JObject? && !leaf.JArray?
    ensures Collide([Field("", JObject([Field(y, leaf)]))], [Field("", JObject([])), Field(y, leaf)])
  {
    NestedCollides("", y, y, leaf);
  }

  /** A nested entry and a flat one whose key is the nested one's path. */
  lemma NestedCollides(x: string, y: string, path: string, leaf: Json)
    requires path == Path(x, y) && path != x && !leaf.JObject? && !leaf.JArray?
    ensures Collide([Field(x, JObject([Field(y, leaf)]))], [Field(x, JObject([])), Field(path, leaf)])
  {
    NestedPrintsFlat(x, y, leaf);
    SecondKeyDiffers(Field(x, JObject([Field(y, leaf)])), Field(x, JObject([])), Field(path, leaf));
  }

  lemma NestedPrintsFlat(x: string, y: string, leaf: Json)
    requires !leaf.JObject? && !leaf.JArray?
    ensures ArgumentStructureFingerprint([Field(x, JObject([Field(y, leaf)]))])
         == ArgumentStructureFingerprint([Field(x, JObject([])), Field(Path(x, y), leaf)])
  {
    NestedLines(x, Field(y, leaf));
    FlatLines(x, y, leaf);
  }

  lemma FlatLines(x: string, y: string, leaf: Json)
    requires !leaf.JObject? && !leaf.JArray?
    ensures Lines([Field(x, JObject([])), Field(Path(x, y), leaf)], "")
         == [TypeLine(x, ObjectType), TypeLine(Path(x, y), ValueType(leaf))]
  {
    PathExtends(x, y);
    TwoEntryLines(Field(x, JObject([])), Field(Path(x, y), leaf), "");
    LeafLines(Path(x, y), leaf, "");
    assert SortedFields([]) == [];
  }

  lemma SecondKeyDiffers(f: Field, g: Field, h: Field)
    requires h.key != f.key
    ensures !SameFields([f], [g, h])
  {
    assert [g, h][1] in [g, h] && HasKey([g, h], h.key) && !HasKey([f], h.key);
  }

  lemma PathExtends(x: string, y: string)
    ensures LexLeq(x, Path(x, y))
  {
    if |x| > 0 {
      StartIsLeq(x, "." + y);
      assert x + ("." + y) == x + "." + y;
    }
  }

  lemma NestedLines(x: string, inner: Field)
    requires !inner.value.JObject? && !inner.value.JArray?
    ensures Lines([Field(x, JObject([inner]))], "")
         == [TypeLine(x, ObjectType), TypeLine(Path(x, inner.key), ValueType(inner.value))]
  {
    OneEntryLines(Field(x, JObject([inner])), "");
    LeafLines(inner.key, inner.value, x);
  }

  /** `{x: [null]}` and `{x: [], "x[]": null}` print the same lines. */
  lemma BracketKeyCollides(x: string)
    ensures Collide([Field(x, JArray([JNull]))], [Field(x, JArray([])), Field(x + "[]", JNull)])
  {
    var full, empty, flat := Field(x, JArray([JNull])), Field(x, JArray([])), Field(x + "[]", JNull);
    OneEntryLines(full, "");
    StartIsLeq(x, "[]");
    TwoEntryLines(empty, flat, "");
    LeafLines(x + "[]", JNull, "");
    assert |x + "[]"| > |x|;
    SecondKeyDiffers(full, empty, flat);
  }

  lemma NullLine(x: string)
    ensures TypeLine(x, NullType) == x + ":null"
  {
    assert x + ":" + "null" == x + (":" + "null");
    assert ":" + "null" == ":null";
  }

  lemma NullLines(x: string, y: string)
    requires LexLeq(x, y)
    ensures Lines([Field(x, JNull), Field(y, JNull)], "") == [x + ":null", y + ":null"]
  {
    NullLine(x);
    NullLine(y);
    TwoEntryLines(Field(x, JNull), Field(y, JNull), "");
    LeafLines(y, JNull, "");
  }

  lemma NullJoin(x: string, y: string)
    ensures Join([x + ":null", y + ":null"]) == Join([(x + ":null|" + y) + ":null"])
  {
    var l, m := x + ":null", y + ":null";
    assert [l, m][1..] == [m];
    assert l + "|" + m == (x + ":null|" + y) + ":null";
  }

  /** `{x: null, y: null}` and `{"x:null|y": null}` print the same text. */
  lemma PipedKeyCollides(x: string, y: string)
    requires LexLeq(x, y) && x != y
    ensures Collide([Field(x, JNull), Field(y, JNull)], [Field(x + ":null|" + y, JNull)])
  {
    var two, one := [Field(x, JNull), Field(y, JNull)], [Field(x + ":null|" + y, JNull)];
    NullLines(x, y);
    NullLine(x + ":null|" + y);
    LeafLines(x + ":null|" + y, JNull, "");
    NullJoin(x, y);
    assert |x + ":null|" + y| > |x|;
    assert two[0] in two && HasKey(two, x);
  }

  // ---------------------------------------------------------------------------
  // Exactly which bans decide
  // ---------------------------------------------------------------------------

  /** Fingerprints and shapes agree on all objects whose keys are non-empty and free of the banned characters. */
  ghost predicate Decides(banned: set<char>) {
    forall a, b | UniqueKeys(a) && UniqueKeys(b) && FreeKeys(a, banned) && FreeKeys(b, banned) ::
      ArgumentStructureFingerprint(a) == ArgumentStructureFingerprint(b) <==> SameFields(a, b)
  }

  lemma CollisionShows(a: seq<Field>, b: seq<Field>, banned: set<char>)
    requires Collide(a, b) && FreeKeys(a, banned) && FreeKeys(b, banned)
    ensures !Decides(banned)
  {
  }

  lemma FreeLeaf(f: Field, banned: set<char>)
    requires FreeKey(f.key, banned) && (f.value.JObject? ==> FreeKeys(f.value.fields, banned))
    ensures FreeKeys([f], banned)
  {
  }

  lemma FreePair(f: Field, g: Field, banned: set<char>)
    requires FreeKeys([f], banned) && FreeKeys([g], banned)
    ensures FreeKeys([f, g], banned)
  {
    assert f in [f] && g in [g];
  }

  /** A letter, some text and perhaps a letter: as free as the text. */
  lemma FreeText(text: string, banned: set<char>)
    requires banned <= DELIMITERS && forall c | c in text :: c !in banned
    ensures FreeKey("x", banned) && FreeKey("y", banned) && FreeKey("x" + text, banned) && FreeKey("x" + text + "y", banned)
  {
    assert 'x' !in DELIMITERS && 'y' !in DELIMITERS;
  }

  lemma NeedsDot(banned: set<char>)
    requires banned <= DELIMITERS && '.' !in banned
    ensures !Decides(banned)
  {
    var inner, nested := Field("y", JNull), Field("x", JObject([Field("y", JNull)]));
    var empty, flat := Field("x", JObject([])), Field("x" + "." + "y", JNull);
    FreeText(".", banned);
    FreeLeaf(inner, banned);
    FreeLeaf(nested, banned);
    FreeLeaf(empty, banned);
    FreeLeaf(flat, banned);
    FreePair(empty, flat, banned);
    DottedKeyCollides("x", "y", JNull);
    CollisionShows([nested], [empty, flat], banned);
  }

  lemma NeedsBracket(banned: set<char>)
    requires banned <= DELIMITERS && '[' !in banned && ']' !in banned
    ensures !Decides(banned)
  {
    var full, empty, flat := Field("x", JArray([JNull])), Field("x", JArray([])), Field("x" + "[]", JNull);
    FreeText("[]", banned);
    FreeLeaf(full, banned);
    FreeLeaf(empty, banned);
    FreeLeaf(flat, banned);
    FreePair(empty, flat, banned);
    BracketKeyCollides("x");
    CollisionShows([full], [empty, flat], banned);
  }

  lemma NeedsColonOrPipe(banned: set<char>)
    requires banned <= DELIMITERS && ':' !in banned && '|' !in banned
    ensures !Decides(banned)
  {
    var one, other, joined := Field("x", JNull), Field("y", JNull), Field("x" + ":null|" + "y", JNull);
    FreeText(":null|", banned);
    FreeLeaf(one, banned);
    FreeLeaf(other, banned);
    FreePair(one, other, banned);
    FreeLeaf(joined, banned);
    assert "x"[0] < "y"[0];
    PipedKeyCollides("x", "y");
    CollisionShows([one, other], [joined], banned);
  }

  /** A ban on delimiters decides exactly when it has the dot, a bracket, and the colon or the pipe. */
  lemma DecidesIff(banned: set<char>)
    requires banned <= DELIMITERS
    ensures Decides(banned) <==> Decisive(banned)
  {
    if Decisive(banned) {
      forall a, b | UniqueKeys(a) && UniqueKeys(b) && FreeKeys(a, banned) && FreeKeys(b, banned)
        ensures ArgumentStructureFingerprint(a) == ArgumentStructureFingerprint(b) <==> SameFields(a, b)
      {
        FingerprintDecidesShape(a, b, banned);
      }
    } else if '.' !in banned {
      NeedsDot(banned);
    } else if '[' !in banned && ']' !in banned {
      NeedsBracket(banned);
    } else {
      NeedsColonOrPipe(banned);
    }
  }
}
