/** The fingerprint decides the shape of the arguments. */
module FingerprintShape {
  import opened Sorting
  import opened Fingerprint

  // ---------------------------------------------------------------------------
  // Strings
  // ---------------------------------------------------------------------------

  lemma TypeNamesClean(t: JsonType)
    ensures |TypeName(t)| > 0 && forall c | c in TypeName(t) :: c !in DELIMITERS
  {
    assert forall c | c in TypeName(t) :: 'a' <= c <= 'z';
  }

  lemma TypeNamesDiffer(t: JsonType, u: JsonType)
    ensures TypeName(t) == TypeName(u) ==> t == u
  {
    var m, n := TypeName(t), TypeName(u);
    assert m == n ==> m[0] == n[0] && (|m| > 1 ==> m[1] == n[1]) && |m| == |n|;
  }

  /** Length of the longest start of `s` without a character satisfying `stop`. */
  function Cut(s: string, stop: char -> bool): nat {
    if |s| == 0 || stop(s[0]) then 0 else 1 + Cut(s[1..], stop)
  }

  lemma {:induction false} CutAt(x: string, c: char, u: string, stop: char -> bool)
    requires stop(c) && forall d | d in x :: !stop(d)
    ensures Cut(x + [c] + u, stop) == |x|
  {
    var s := x + [c] + u;
    if |x| > 0 {
      assert s[0] == x[0] && s[1..] == x[1..] + [c] + u;
      CutAt(x[1..], c, u, stop);
    } else {
      assert s[0] == c;
    }
  }

  /** Text before the first stop, the stop and the rest are all determined. */
  lemma FirstStop(x: string, c: char, u: string, y: string, d: char, v: string, stop: char -> bool)
    requires stop(c) && stop(d) && (forall e | e in x :: !stop(e)) && (forall e | e in y :: !stop(e))
    requires x + [c] + u == y + [d] + v
    ensures x == y && c == d && u == v
  {
    CutAt(x, c, u, stop);
    CutAt(y, d, v, stop);
    var s, t := x + [c] + u, y + [d] + v;
    assert x == s[..|x|] && y == t[..|x|];
    assert c == s[|x|] && d == t[|x|];
    assert u == s[|x| + 1..] && v == t[|x| + 1..];
  }

  lemma StripPath(prefix: string, x: string, y: string, u: string, v: string)
    requires Path(prefix, x) + u == Path(prefix, y) + v
    ensures x + u == y + v
  {
    if |prefix| > 0 {
      var n := |prefix| + 1;
      assert (Path(prefix, x) + u)[n..] == x + u;
      assert (Path(prefix, y) + v)[n..] == y + v;
    }
  }

  lemma LaterInside(x: string, c: char, u: string)
    ensures forall i | |x| < i < |x + [c] + u| :: (x + [c] + u)[i] in u
  {
    forall i | |x| < i < |x + [c] + u| ensures (x + [c] + u)[i] in u {
      assert (x + [c] + u)[i] == u[i - |x| - 1];
    }
  }

  /** Text after the last of a character is determined, and so is what stands before it. */
  lemma LastStop(x: string, c: char, u: string, y: string, v: string)
    requires c !in u && c !in v
    requires x + [c] + u == y + [c] + v
    ensures x == y && u == v
  {
    var s, t := x + [c] + u, y + [c] + v;
    assert s[|x|] == c && t[|y|] == c;
    LaterInside(x, c, u);
    LaterInside(y, c, v);
    assert x == s[..|x|] && y == t[..|y|];
    assert u == s[|x| + 1..] && v == t[|y| + 1..];
  }

  // ---------------------------------------------------------------------------
  // The entry a line belongs to
  // ---------------------------------------------------------------------------

  /** An entry prints its own line, its first array element's line, and the lines inside its object. */
  datatype Kind = Own | Element | Inside

  /** What follows an entry's path in its own line and in its first element's. */
  function Suffix(k: Kind): string { if k.Element? then "[]" else "" }

  function Tail(k: Kind, t: JsonType): string { Suffix(k) + ":" + TypeName(t) }

  /** `line` is one of the lines of the entry at `path`, of that kind. */
  ghost predicate Continues(line: string, path: string, k: Kind) {
    if k.Inside? then path + "." <= line else exists t :: line == path + Tail(k, t)
  }

  lemma TailOfType(path: string, k: Kind, t: JsonType)
    ensures path + Tail(k, t) == TypeLine(path + Suffix(k), t) == (path + Suffix(k)) + [':'] + TypeName(t)
  {
  }

  lemma OwnLine(path: string, t: JsonType)
    ensures TypeLine(path, t) == path + Tail(Own, t)
    ensures Continues(TypeLine(path, t), path, Own)
    ensures Continues(TypeLine(path + "[]", t), path, Element)
  {
    TailOfType(path, Own, t);
    TailOfType(path, Element, t);
    assert path + "" == path;
  }

  lemma TailHasNoDot(k: Kind, t: JsonType)
    ensures '.' !in Tail(k, t)
  {
    TypeNamesClean(t);
  }

  lemma OpenTail(line: string, path: string)
    requires path + "." <= line
    ensures line == path + line[|path|..] && "." <= line[|path|..]
  {
    assert line[..|path|] == path && line[|path|] == '.';
  }

  /** Keys that cannot end like an array element's path. */
  lemma NotAnElement(x: string, y: string, banned: set<char>)
    requires FreeKey(x, banned) && ('[' in banned || ']' in banned)
    ensures x != y + "[]"
  {
    assert '[' in y + "[]" && ']' in y + "[]" by {
      assert (y + "[]")[|y|] == '[' && (y + "[]")[|y| + 1] == ']';
    }
  }

  lemma ElementTailsDecide(x: string, k: Kind, y: string, l: Kind, banned: set<char>)
    requires FreeKey(x, banned) && FreeKey(y, banned) && Decisive(banned) && !k.Inside? && !l.Inside?
    requires x + Suffix(k) == y + Suffix(l)
    ensures x == y && k == l
  {
    NotAnElement(x, y, banned);
    NotAnElement(y, x, banned);
    assert x + "" == x && y + "" == y;
    assert |x + Suffix(k)| == |y + Suffix(l)|;
    assert |x| == |y| ==> x == (x + Suffix(k))[..|x|] == (y + Suffix(l))[..|y|] == y;
  }

  lemma ClosedTailsDecide(x: string, k: Kind, t: JsonType, y: string, l: Kind, u: JsonType, banned: set<char>)
    requires FreeKey(x, banned) && FreeKey(y, banned) && Decisive(banned) && !k.Inside? && !l.Inside?
    requires x + Tail(k, t) == y + Tail(l, u)
    ensures x == y && k == l && t == u
  {
    TypeNamesClean(t);
    TypeNamesClean(u);
    TailOfType(x, k, t);
    TailOfType(y, l, u);
    LastStop(x + Suffix(k), ':', TypeName(t), y + Suffix(l), TypeName(u));
    TypeNamesDiffer(t, u);
    ElementTailsDecide(x, k, y, l, banned);
  }

  lemma OpenTailsDecide(x: string, u: string, y: string, v: string, banned: set<char>)
    requires FreeKey(x, banned) && FreeKey(y, banned) && '.' in banned && "." <= u && "." <= v
    requires x + u == y + v
    ensures x == y
  {
    assert x + u == x + ['.'] + u[1..] && y + v == y + ['.'] + v[1..];
    FirstStop(x, '.', u[1..], y, '.', v[1..], c => c == '.');
  }

  lemma MixedTailsDiffer(x: string, u: string, y: string, v: string, banned: set<char>)
    requires FreeKey(y, banned) && '.' in banned && "." <= u && '.' !in v
    ensures x + u != y + v
  {
    assert (x + u)[|x|] == '.';
    assert '.' !in y + v;
  }

  lemma TailsDecide(x: string, u: string, k: Kind, y: string, v: string, l: Kind, banned: set<char>)
    requires FreeKey(x, banned) && FreeKey(y, banned) && Decisive(banned) && x + u == y + v
    requires if k.Inside? then "." <= u else exists t :: u == Tail(k, t)
    requires if l.Inside? then "." <= v else exists t :: v == Tail(l, t)
    ensures x == y && k == l
  {
    if k.Inside? && l.Inside? {
      OpenTailsDecide(x, u, y, v, banned);
    } else if k.Inside? {
      var t :| v == Tail(l, t);
      TailHasNoDot(l, t);
      MixedTailsDiffer(x, u, y, v, banned);
      assert false;
    } else if l.Inside? {
      var t :| u == Tail(k, t);
      TailHasNoDot(k, t);
      MixedTailsDiffer(y, v, x, u, banned);
      assert false;
    } else {
      var t, w :| u == Tail(k, t) && v == Tail(l, w);
      ClosedTailsDecide(x, k, t, y, l, w, banned);
    }
  }

  /** What follows a path in one of its lines. */
  lemma TailOf(line: string, path: string, k: Kind) returns (tail: string)
    requires Continues(line, path, k)
    ensures line == path + tail
    ensures if k.Inside? then "." <= tail else exists t :: tail == Tail(k, t)
  {
    if k.Inside? {
      OpenTail(line, path);
      tail := line[|path|..];
    } else {
      var t :| line == path + Tail(k, t);
      tail := Tail(k, t);
    }
  }

  /** Two entries under one prefix that share a line are the same entry, and it is a line of one kind. */
  lemma SameLineSameKey(prefix: string, x: string, k: Kind, y: string, l: Kind, line: string, banned: set<char>)
    requires FreeKey(x, banned) && FreeKey(y, banned) && Decisive(banned)
    requires Continues(line, Path(prefix, x), k) && Continues(line, Path(prefix, y), l)
    ensures x == y && k == l
  {
    var u := TailOf(line, Path(prefix, x), k);
    var v := TailOf(line, Path(prefix, y), l);
    StripPath(prefix, x, y, u, v);
    TailsDecide(x, u, k, y, v, l, banned);
  }

  // ---------------------------------------------------------------------------
  // Joining
  // ---------------------------------------------------------------------------

  /** A path without the character, and a type. */
  ghost predicate TypedLine(line: string, c: char) { exists p, t :: line == TypeLine(p, t) && c !in p }

  /** What a list of lines prints after its first type name. */
  function Rest(a: seq<string>): string
    requires |a| > 0
  {
    if |a| > 1 then "|" + Join(a[1..]) else ""
  }

  lemma JoinSplits(a: seq<string>)
    requires |a| > 0
    ensures Join(a) == a[0] + Rest(a)
  {
    if |a| > 1 {
      assert a[0] + "|" + Join(a[1..]) == a[0] + ("|" + Join(a[1..]));
    } else {
      assert a[0] + "" == a[0];
    }
  }

  lemma JoinOpens(a: seq<string>, p: string, t: JsonType)
    requires |a| > 0 && a[0] == TypeLine(p, t)
    ensures Join(a) == p + [':'] + (TypeName(t) + Rest(a))
  {
    JoinSplits(a);
    Regroup(p, TypeName(t), Rest(a));
  }

  lemma Regroup(p: string, m: string, r: string)
    ensures p + ":" + m + r == p + [':'] + (m + r)
  {
  }

  lemma PipeShows(m: string, a: seq<string>)
    requires |a| > 1
    ensures '|' in m + Rest(a)
    ensures m + Rest(a) == m + ['|'] + Join(a[1..])
  {
    assert (m + Rest(a))[|m|] == '|';
  }

  /** A text without a pipe, then nothing or a pipe and more: both parts are determined. */
  lemma PipeDecides(m: string, a: seq<string>, n: string, b: seq<string>)
    requires |a| > 0 && |b| > 0 && '|' !in m && '|' !in n
    requires m + Rest(a) == n + Rest(b)
    ensures m == n && Rest(a) == Rest(b) && (|a| > 1 <==> |b| > 1)
  {
    assert m + "" == m && n + "" == n;
    if |a| > 1 {
      PipeShows(m, a);
    }
    if |b| > 1 {
      PipeShows(n, b);
    }
    if |a| > 1 && |b| > 1 {
      FirstStop(m, '|', Join(a[1..]), n, '|', Join(b[1..]), c => c == '|');
    }
  }

  lemma FirstTypedLine(a: seq<string>, b: seq<string>, c: char)
    requires c == ':' || c == '|'
    requires |a| > 0 && |b| > 0 && TypedLine(a[0], c) && TypedLine(b[0], c) && Join(a) == Join(b)
    ensures a[0] == b[0] && Rest(a) == Rest(b) && (|a| > 1 <==> |b| > 1)
  {
    var p, t :| a[0] == TypeLine(p, t) && c !in p;
    var q, u :| b[0] == TypeLine(q, u) && c !in q;
    TypeNamesClean(t);
    TypeNamesClean(u);
    if c == ':' {
      JoinOpens(a, p, t);
      JoinOpens(b, q, u);
      FirstStop(p, ':', TypeName(t) + Rest(a), q, ':', TypeName(u) + Rest(b), d => d == ':');
      PipeDecides(TypeName(t), a, TypeName(u), b);
    } else {
      JoinSplits(a);
      JoinSplits(b);
      PipeDecides(a[0], a, b[0], b);
    }
  }

  /** When every path lacks the colon, or every path the pipe, the joined lines give back the lines. */
  lemma {:induction false} JoinDecides(a: seq<string>, b: seq<string>, c: char)
    requires c == ':' || c == '|'
    requires forall l | l in a :: TypedLine(l, c)
    requires forall l | l in b :: TypedLine(l, c)
    requires Join(a) == Join(b)
    ensures a == b
  {
    if |a| > 0 && |b| > 0 {
      assert TypedLine(a[0], c) && TypedLine(b[0], c);
      FirstTypedLine(a, b, c);
      if |a| > 1 {
        assert Join(a[1..]) == Rest(a)[1..] && Join(b[1..]) == Rest(b)[1..];
        JoinDecides(a[1..], b[1..], c);
      }
      assert a == [a[0]] + a[1..] && b == [b[0]] + b[1..];
    } else {
      NoEmptyJoin(a, c);
      NoEmptyJoin(b, c);
    }
  }

  lemma NoEmptyJoin(a: seq<string>, c: char)
    requires forall l | l in a :: TypedLine(l, c)
    ensures |a| > 0 ==> Join(a) != ""
  {
    if |a| > 0 {
      assert TypedLine(a[0], c);
      var p, t :| a[0] == TypeLine(p, t) && c !in p;
      JoinOpens(a, p, t);
    }
  }

  // ---------------------------------------------------------------------------
  // The form of the lines
  // ---------------------------------------------------------------------------

  lemma {:induction false} LinesTyped(fields: seq<Field>, prefix: string, banned: set<char>, c: char)
    requires FreeKeys(fields, banned) && c in banned && c !in prefix && (c == ':' || c == '|')
    ensures forall l | l in LinesOf(fields, prefix) :: TypedLine(l, c)
    decreases Nesting(fields), |fields|, 1
  {
    if |fields| > 0 {
      var f, path := fields[0], Path(prefix, fields[0].key);
      NestingBounds(fields, f);
      NestingWithin(fields[1..], fields);
      assert FreeKey(f.key, banned) && c !in path;
      assert TypedLine(TypeLine(path, ValueType(f.value)), c);
      InnerTyped(f, path, banned, c);
      LinesTyped(fields[1..], prefix, banned, c);
    }
  }

  lemma {:induction false} InnerTyped(f: Field, path: string, banned: set<char>, c: char)
    requires c in banned && c !in path && (c == ':' || c == '|') && (f.value.JObject? ==> FreeKeys(f.value.fields, banned))
    ensures forall l | l in InnerLines(f, path) :: TypedLine(l, c)
    decreases FieldNesting(f), 0, 2
  {
    match f.value
    case JObject(inner) =>
      SortedMembers(inner);
      LinesTyped(SortedFields(inner), path, banned, c);
    case JArray(items) =>
      if |items| > 0 {
        assert c !in path + "[]";
        assert TypedLine(TypeLine(path + "[]", ValueType(items[0])), c);
      }
    case _ =>
  }

  /** The line is one of some entry's lines. */
  ghost predicate BelongsTo(line: string, fields: seq<Field>, prefix: string) {
    exists f, k | f in fields :: Continues(line, Path(prefix, f.key), k)
  }

  lemma InsideLine(line: string, path: string, key: string, k: Kind)
    requires |path| > 0 && Continues(line, Path(path, key), k)
    ensures Continues(line, path, Inside)
  {
    var tail := TailOf(line, Path(path, key), k);
    assert line == (path + ".") + (key + tail);
  }

  /** Every printed line is one of some entry's. */
  lemma {:induction false} LinesBelong(fields: seq<Field>, prefix: string, banned: set<char>)
    requires FreeKeys(fields, banned)
    ensures forall l | l in LinesOf(fields, prefix) :: BelongsTo(l, fields, prefix)
    decreases Nesting(fields), |fields|, 1
  {
    if |fields| > 0 {
      var f, path := fields[0], Path(prefix, fields[0].key);
      NestingBounds(fields, f);
      NestingWithin(fields[1..], fields);
      assert FreeKey(f.key, banned);
      InnerBelongs(f, path, banned);
      OwnLine(path, ValueType(f.value));
      LinesBelong(fields[1..], prefix, banned);
      forall l | l in LinesOf(fields, prefix) ensures BelongsTo(l, fields, prefix) {
        if l in LinesOf(fields[1..], prefix) {
          var g, k :| g in fields[1..] && Continues(l, Path(prefix, g.key), k);
          assert g in fields;
        } else {
          assert f in fields;
          assert Continues(l, path, Own) || Continues(l, path, Inside) || Continues(l, path, Element);
        }
      }
    }
  }

  /** Lines inside an entry are of the one kind its value has. */
  lemma {:induction false} InnerBelongs(f: Field, path: string, banned: set<char>)
    requires |path| > 0 && (f.value.JObject? ==> FreeKeys(f.value.fields, banned))
    ensures forall l | l in InnerLines(f, path) ::
      (f.value.JObject? && Continues(l, path, Inside)) || (f.value.JArray? && Continues(l, path, Element))
    decreases FieldNesting(f), 0, 2
  {
    match f.value
    case JObject(inner) =>
      SortedMembers(inner);
      LinesBelong(SortedFields(inner), path, banned);
      forall l | l in InnerLines(f, path) ensures Continues(l, path, Inside) {
        var g, k :| g in SortedFields(inner) && Continues(l, Path(path, g.key), k);
        InsideLine(l, path, g.key, k);
      }
    case JArray(items) =>
      if |items| > 0 {
        OwnLine(path, ValueType(items[0]));
      }
    case _ =>
  }

  // ---------------------------------------------------------------------------
  // Equal lines, equal shape
  // ---------------------------------------------------------------------------

  /** Entry by entry: the same key and the same shape. */
  ghost predicate Pointwise(a: seq<Field>, b: seq<Field>) {
    |a| == |b| && forall i | 0 <= i < |a| :: a[i].key == b[i].key && SameShape(a[i].value, b[i].value)
  }

  /** Where every left part satisfies `p` and no right part does, equal sums split equally. */
  lemma {:induction false} SplitDecides<T>(a: seq<T>, c: seq<T>, b: seq<T>, d: seq<T>, p: T -> bool)
    requires a + c == b + d
    requires (forall x | x in a :: p(x)) && (forall x | x in b :: p(x))
    requires (forall x | x in c :: !p(x)) && (forall x | x in d :: !p(x))
    ensures a == b && c == d
  {
    PrefixLength(a, c, p);
    PrefixLength(b, d, p);
    assert a == (a + c)[..|a|] && b == (b + d)[..|a|];
    assert c == (a + c)[|a|..] && d == (b + d)[|a|..];
  }

  function LeadingCount<T>(s: seq<T>, p: T -> bool): nat {
    if |s| == 0 || !p(s[0]) then 0 else 1 + LeadingCount(s[1..], p)
  }

  lemma {:induction false} PrefixLength<T>(a: seq<T>, c: seq<T>, p: T -> bool)
    requires (forall x | x in a :: p(x)) && (forall x | x in c :: !p(x))
    ensures LeadingCount(a + c, p) == |a|
  {
    if |a| > 0 {
      assert (a + c)[0] == a[0] && (a + c)[1..] == a[1..] + c;
      PrefixLength(a[1..], c, p);
    } else {
      assert a + c == c;
    }
  }

  /** Lines of the later entries are none of the first entry's. */
  lemma LaterLinesDiffer(fields: seq<Field>, prefix: string, k: Kind, banned: set<char>)
    requires |fields| > 0 && FreeKeys(fields, banned) && UniqueKeys(fields) && Decisive(banned)
    ensures forall l | l in LinesOf(fields[1..], prefix) :: !Continues(l, Path(prefix, fields[0].key), k)
  {
    LinesBelong(fields[1..], prefix, banned);
    forall l | l in LinesOf(fields[1..], prefix) ensures !Continues(l, Path(prefix, fields[0].key), k) {
      var g, m :| g in fields[1..] && Continues(l, Path(prefix, g.key), m);
      assert g in fields && g.key != fields[0].key;
      if Continues(l, Path(prefix, fields[0].key), k) {
        SameLineSameKey(prefix, fields[0].key, k, g.key, m, l, banned);
      }
    }
  }

  lemma FirstLineDecides(prefix: string, x: string, t: JsonType, y: string, u: JsonType, banned: set<char>)
    requires FreeKey(x, banned) && FreeKey(y, banned) && Decisive(banned)
    requires TypeLine(Path(prefix, x), t) == TypeLine(Path(prefix, y), u)
    ensures x == y && t == u
  {
    OwnLine(Path(prefix, x), t);
    OwnLine(Path(prefix, y), u);
    StripPath(prefix, x, y, Tail(Own, t), Tail(Own, u));
    ClosedTailsDecide(x, Own, t, y, Own, u, banned);
  }

  lemma LinesCons(a: seq<Field>, prefix: string)
    requires |a| > 0
    ensures var path := Path(prefix, a[0].key);
      LinesOf(a, prefix)
      == [TypeLine(path, ValueType(a[0].value))] + (InnerLines(a[0], path) + LinesOf(a[1..], prefix))
  {
  }

  lemma ConsDecides<T>(x: T, s: seq<T>, y: T, t: seq<T>)
    requires [x] + s == [y] + t
    ensures x == y && s == t
  {
    assert x == ([x] + s)[0] && y == ([y] + t)[0];
    assert s == ([x] + s)[1..] && t == ([y] + t)[1..];
  }

  /** Equal lines have the same first entry key and type, and equal lines after its own. */
  lemma HeadDecides(a: seq<Field>, b: seq<Field>, prefix: string, banned: set<char>)
    requires |a| > 0 && |b| > 0 && FreeKey(a[0].key, banned) && FreeKey(b[0].key, banned) && Decisive(banned)
    requires LinesOf(a, prefix) == LinesOf(b, prefix)
    ensures a[0].key == b[0].key && ValueType(a[0].value) == ValueType(b[0].value)
    ensures var path := Path(prefix, a[0].key);
      InnerLines(a[0], path) + LinesOf(a[1..], prefix) == InnerLines(b[0], path) + LinesOf(b[1..], prefix)
  {
    var pa, pb := Path(prefix, a[0].key), Path(prefix, b[0].key);
    LinesCons(a, prefix);
    LinesCons(b, prefix);
    ConsDecides(TypeLine(pa, ValueType(a[0].value)), InnerLines(a[0], pa) + LinesOf(a[1..], prefix),
                TypeLine(pb, ValueType(b[0].value)), InnerLines(b[0], pb) + LinesOf(b[1..], prefix));
    FirstLineDecides(prefix, a[0].key, ValueType(a[0].value), b[0].key, ValueType(b[0].value), banned);
  }

  /** The first entry's inner lines end where the later entries' lines begin. */
  lemma BodyDecides(a: seq<Field>, b: seq<Field>, prefix: string, banned: set<char>)
    requires |a| > 0 && |b| > 0 && FreeKeys(a, banned) && FreeKeys(b, banned) && Decisive(banned) && UniqueKeys(a) && UniqueKeys(b)
    requires a[0].key == b[0].key && ValueType(a[0].value) == ValueType(b[0].value)
    requires var path := Path(prefix, a[0].key);
      InnerLines(a[0], path) + LinesOf(a[1..], prefix) == InnerLines(b[0], path) + LinesOf(b[1..], prefix)
    ensures InnerLines(a[0], Path(prefix, a[0].key)) == InnerLines(b[0], Path(prefix, a[0].key))
    ensures LinesOf(a[1..], prefix) == LinesOf(b[1..], prefix)
  {
    var path := Path(prefix, a[0].key);
    var k := if a[0].value.JArray? then Element else Inside;
    assert a[0] in a && b[0] in b && FreeKey(a[0].key, banned);
    InnerBelongs(a[0], path, banned);
    InnerBelongs(b[0], path, banned);
    LaterLinesDiffer(a, prefix, k, banned);
    LaterLinesDiffer(b, prefix, k, banned);
    SplitDecides(InnerLines(a[0], path), LinesOf(a[1..], prefix), InnerLines(b[0], path), LinesOf(b[1..], prefix),
                 l => Continues(l, path, k));
  }

  /** Under a decisive ban equal printed lines of distinct keys come from the same keys and shapes. */
  lemma {:induction false} LinesDecide(a: seq<Field>, b: seq<Field>, prefix: string, banned: set<char>)
    requires FreeKeys(a, banned) && FreeKeys(b, banned) && Decisive(banned) && UniqueKeys(a) && UniqueKeys(b)
    requires LinesOf(a, prefix) == LinesOf(b, prefix)
    ensures Pointwise(a, b)
    decreases Nesting(a), |a|, 1
  {
    if |a| > 0 && |b| > 0 {
      assert a[0] in a && b[0] in b;
      HeadDecides(a, b, prefix, banned);
      BodyDecides(a, b, prefix, banned);
      NestingBounds(a, a[0]);
      NestingWithin(a[1..], a);
      InnerDecides(a[0], b[0], Path(prefix, a[0].key), banned);
      LinesDecide(a[1..], b[1..], prefix, banned);
      PointwiseCons(a, b);
    }
  }

  lemma PointwiseCons(a: seq<Field>, b: seq<Field>)
    requires |a| > 0 && |b| > 0 && Pointwise(a[1..], b[1..])
    requires a[0].key == b[0].key && SameShape(a[0].value, b[0].value)
    ensures Pointwise(a, b)
  {
    forall i | 0 <= i < |a| ensures a[i].key == b[i].key && SameShape(a[i].value, b[i].value) {
      if i > 0 {
        assert a[1..][i - 1] == a[i] && b[1..][i - 1] == b[i];
      }
    }
  }

  lemma {:induction false} InnerDecides(f: Field, g: Field, path: string, banned: set<char>)
    requires ValueType(f.value) == ValueType(g.value) && InnerLines(f, path) == InnerLines(g, path) && Decisive(banned)
    requires f.value.JObject? ==> FreeKeys(f.value.fields, banned) && UniqueKeys(f.value.fields)
    requires g.value.JObject? ==> FreeKeys(g.value.fields, banned) && UniqueKeys(g.value.fields)
    ensures SameShape(f.value, g.value)
    decreases FieldNesting(f), 0, 2
  {
    if f.value.JObject? {
      var a, b := f.value.fields, g.value.fields;
      SortedMembers(a);
      SortedFree(a, banned);
      SortedFree(b, banned);
      LinesDecide(SortedFields(a), SortedFields(b), path, banned);
      PointwiseIsSame(SortedFields(a), SortedFields(b));
      SameUnderSort(a, b);
    } else if f.value.JArray? {
      var i, j := f.value.items, g.value.items;
      if |i| > 0 && |j| > 0 {
        assert InnerLines(f, path)[0] == InnerLines(g, path)[0];
        SuffixDecides(path + "[]" + ":", TypeName(ValueType(i[0])), TypeName(ValueType(j[0])));
        TypeNamesDiffer(ValueType(i[0]), ValueType(j[0]));
      }
    }
  }

  lemma SuffixDecides(p: string, u: string, v: string)
    requires p + u == p + v
    ensures u == v
  {
    assert u == (p + u)[|p|..] && v == (p + v)[|p|..];
  }

  // ---------------------------------------------------------------------------
  // Sorting keeps keys and shapes
  // ---------------------------------------------------------------------------

  lemma SortedFree(a: seq<Field>, banned: set<char>)
    requires UniqueKeys(a)
    ensures UniqueKeys(SortedFields(a))
    ensures FreeKeys(a, banned) ==> FreeKeys(SortedFields(a), banned)
  {
    var r := SortedFields(a);
    SortedMembers(a);
    forall i, j | 0 <= i < j < |r| ensures r[i].key != r[j].key {
      assert r[i] in r && r[j] in r;
      TwiceInMultiset(r, i, j);
      OnceInMultiset(a, r[i]);
    }
  }

  lemma TwiceInMultiset<T>(s: seq<T>, i: nat, j: nat)
    requires i < j < |s|
    ensures s[i] == s[j] ==> multiset(s)[s[i]] >= 2
  {
    assert s == s[..i] + [s[i]] + s[i + 1..j] + [s[j]] + s[j + 1..];
  }

  lemma {:induction false} OnceInMultiset(a: seq<Field>, f: Field)
    requires forall i, j | 0 <= i < j < |a| :: a[i].key != a[j].key
    ensures multiset(a)[f] <= 1
  {
    if |a| > 0 {
      assert a == [a[0]] + a[1..];
      OnceInMultiset(a[1..], f);
      if f == a[0] {
        assert f !in a[1..];
      }
    }
  }

  lemma PointwiseIsSame(a: seq<Field>, b: seq<Field>)
    requires Pointwise(a, b) && UniqueKeys(a) && UniqueKeys(b)
    ensures SameFields(a, b)
  {
    forall key ensures HasKey(a, key) <==> HasKey(b, key) {
      if HasKey(a, key) {
        var f :| f in a && f.key == key;
        var i :| 0 <= i < |a| && a[i] == f;
        assert b[i] in b && b[i].key == key;
      }
      if HasKey(b, key) {
        var f :| f in b && f.key == key;
        var i :| 0 <= i < |b| && b[i] == f;
        assert a[i] in a && a[i].key == key;
      }
    }
    forall f, g | f in a && g in b && f.key == g.key ensures SameShape(f.value, g.value) {
      var i :| 0 <= i < |a| && a[i] == f;
    }
  }

  lemma SameUnderSort(a: seq<Field>, b: seq<Field>)
    ensures SameFields(SortedFields(a), SortedFields(b)) <==> SameFields(a, b)
  {
    SortedMembers(a);
    SortedMembers(b);
    SameByMembers(a, b, SortedFields(a), SortedFields(b));
    SameByMembers(SortedFields(a), SortedFields(b), a, b);
  }

  /** Shape depends on which entries there are, not on their order. */
  lemma SameByMembers(a: seq<Field>, b: seq<Field>, c: seq<Field>, d: seq<Field>)
    requires forall f :: f in a <==> f in c
    requires forall f :: f in b <==> f in d
    ensures SameFields(a, b) ==> SameFields(c, d)
  {
    if SameFields(a, b) {
      forall key ensures HasKey(c, key) <==> HasKey(d, key) {
        KeyByMembers(a, c, key);
        KeyByMembers(b, d, key);
      }
      forall f, g | f in c && g in d && f.key == g.key ensures SameShape(f.value, g.value) {
        assert f in a && g in b;
      }
    }
  }

  lemma KeyByMembers(a: seq<Field>, c: seq<Field>, key: string)
    requires forall f :: f in a <==> f in c
    ensures HasKey(a, key) <==> HasKey(c, key)
  {
  }

  // ---------------------------------------------------------------------------
  // Equal shape, equal lines
  // ---------------------------------------------------------------------------

  lemma {:induction false} PointwisePrints(a: seq<Field>, b: seq<Field>, prefix: string)
    requires Pointwise(a, b) && UniqueKeys(a) && UniqueKeys(b)
    ensures LinesOf(a, prefix) == LinesOf(b, prefix)
    decreases Nesting(a), |a|, 1
  {
    if |a| > 0 {
      NestingBounds(a, a[0]);
      NestingWithin(a[1..], a);
      assert a[0] in a && b[0] in b;
      InnerPrints(a[0], b[0], Path(prefix, a[0].key));
      assert forall i | 0 <= i < |a| - 1 :: a[1..][i] == a[i + 1] && b[1..][i] == b[i + 1];
      PointwisePrints(a[1..], b[1..], prefix);
      LinesCons(a, prefix);
      LinesCons(b, prefix);
    }
  }

  lemma {:induction false} InnerPrints(f: Field, g: Field, path: string)
    requires SameShape(f.value, g.value)
    requires f.value.JObject? ==> UniqueKeys(f.value.fields)
    requires g.value.JObject? ==> UniqueKeys(g.value.fields)
    ensures InnerLines(f, path) == InnerLines(g, path)
    decreases FieldNesting(f), 0, 2
  {
    if f.value.JObject? {
      var a, b := f.value.fields, g.value.fields;
      SortedMembers(a);
      SortedFree(a, {});
      SortedFree(b, {});
      SortedAscends(a);
      SortedAscends(b);
      SameUnderSort(a, b);
      SameIsPointwise(SortedFields(a), SortedFields(b));
      PointwisePrints(SortedFields(a), SortedFields(b), path);
    } else if f.value.JArray? && |f.value.items| > 0 {
      assert InnerLines(f, path) == [TypeLine(path + "[]", ValueType(f.value.items[0]))];
    }
  }

  ghost predicate KeysAscend(a: seq<Field>) {
    forall i, j | 0 <= i < j < |a| :: LexLeq(a[i].key, a[j].key) && a[i].key != a[j].key
  }

  lemma SortedAscends(a: seq<Field>)
    requires UniqueKeys(a)
    ensures KeysAscend(SortedFields(a))
  {
    KeyLeqIsTotal();
    SortSorts(a, KeyLeq);
    SortedFree(a, {});
    var r := SortedFields(a);
    forall i, j | 0 <= i < j < |r| ensures LexLeq(r[i].key, r[j].key) {
      assert KeyLeq(r[i], r[j]);
    }
  }

  /** Two ascending key lists with the same keys are the same key list. */
  lemma {:induction false} AscendingKeysAgree(a: seq<Field>, b: seq<Field>)
    requires KeysAscend(a) && KeysAscend(b)
    requires forall key :: HasKey(a, key) <==> HasKey(b, key)
    ensures |a| == |b| && forall i | 0 <= i < |a| :: a[i].key == b[i].key
  {
    if |a| == 0 || |b| == 0 {
      assert |a| > 0 ==> HasKey(a, a[0].key);
      assert |b| > 0 ==> HasKey(b, b[0].key);
    } else {
      FirstKeyLeast(a, b);
      FirstKeyLeast(b, a);
      LexTotal(a[0].key, b[0].key);
      forall key ensures HasKey(a[1..], key) <==> HasKey(b[1..], key) {
        TailKeys(a, key);
        TailKeys(b, key);
      }
      AscendingKeysAgree(a[1..], b[1..]);
      assert a == [a[0]] + a[1..] && b == [b[0]] + b[1..];
    }
  }

  lemma FirstKeyLeast(a: seq<Field>, b: seq<Field>)
    requires KeysAscend(a) && |a| > 0 && |b| > 0 && (HasKey(b, b[0].key) ==> HasKey(a, b[0].key))
    ensures LexLeq(a[0].key, b[0].key)
  {
    assert b[0] in b;
    var f :| f in a && f.key == b[0].key;
    var i :| 0 <= i < |a| && a[i] == f;
    LexTotal(a[0].key, a[0].key);
    assert i > 0 ==> LexLeq(a[0].key, a[i].key);
  }

  lemma TailKeys(a: seq<Field>, key: string)
    requires KeysAscend(a) && |a| > 0
    ensures HasKey(a[1..], key) <==> HasKey(a, key) && key != a[0].key
  {
    if HasKey(a[1..], key) {
      var f :| f in a[1..] && f.key == key;
      var i :| 0 <= i < |a| - 1 && a[1..][i] == f;
      assert a[i + 1] == f && a[0].key != a[i + 1].key;
    }
    if HasKey(a, key) && key != a[0].key {
      var f :| f in a && f.key == key;
      assert f in a[1..];
    }
  }

  lemma SameIsPointwise(a: seq<Field>, b: seq<Field>)
    requires SameFields(a, b) && KeysAscend(a) && KeysAscend(b)
    ensures Pointwise(a, b)
  {
    AscendingKeysAgree(a, b);
    forall i | 0 <= i < |a| ensures SameShape(a[i].value, b[i].value) {
      assert a[i] in a && b[i] in b;
    }
  }

  // ---------------------------------------------------------------------------
  // Fingerprints decide shape
  // ---------------------------------------------------------------------------

  /** Same shape, same fingerprint: key order and literal values never show. */
  lemma ShapeDecidesFingerprint(a: seq<Field>, b: seq<Field>)
    requires UniqueKeys(a) && UniqueKeys(b) && SameFields(a, b)
    ensures ArgumentStructureFingerprint(a) == ArgumentStructureFingerprint(b)
  {
    SortedFree(a, {});
    SortedFree(b, {});
    SortedAscends(a);
    SortedAscends(b);
    SameUnderSort(a, b);
    SameIsPointwise(SortedFields(a), SortedFields(b));
    PointwisePrints(SortedFields(a), SortedFields(b), "");
  }

  /** Under a decisive ban fingerprints are equal exactly when the shapes are. */
  lemma FingerprintDecidesShape(a: seq<Field>, b: seq<Field>, banned: set<char>)
    requires Decisive(banned)
    requires UniqueKeys(a) && UniqueKeys(b) && FreeKeys(a, banned) && FreeKeys(b, banned)
    ensures ArgumentStructureFingerprint(a) == ArgumentStructureFingerprint(b) <==> SameFields(a, b)
  {
    if SameFields(a, b) {
      ShapeDecidesFingerprint(a, b);
    }
    if ArgumentStructureFingerprint(a) == ArgumentStructureFingerprint(b) {
      var c := if ':' in banned then ':' else '|';
      SortedFree(a, banned);
      SortedFree(b, banned);
      LinesTyped(SortedFields(a), "", banned, c);
      LinesTyped(SortedFields(b), "", banned, c);
      JoinDecides(Lines(a, ""), Lines(b, ""), c);
      LinesDecide(SortedFields(a), SortedFields(b), "", banned);
      PointwiseIsSame(SortedFields(a), SortedFields(b));
      SameUnderSort(a, b);
    }
  }
}
