/** The stable library sort the scripts call, as a function with its contract proved. */
module Sorting {

  ghost predicate TotalPreorder<T(!new)>(leq: (T, T) -> bool) {
    && (forall a, b :: leq(a, b) || leq(b, a))
    && (forall a, b, c :: leq(a, b) && leq(b, c) ==> leq(a, c))
  }

  ghost predicate SortedBy<T>(s: seq<T>, leq: (T, T) -> bool) {
    forall i, j | 0 <= i < j < |s| :: leq(s[i], s[j])
  }

  ghost predicate Distinct<T>(s: seq<T>) { forall i, j | 0 <= i < j < |s| :: s[i] != s[j] }

  /** At most so many elements from the front. */
  function FirstOf<T>(s: seq<T>, limit: int): seq<T> { if |s| <= limit then s else if limit < 0 then [] else s[..limit] }

  function Insert<T>(s: seq<T>, x: T, leq: (T, T) -> bool): seq<T> {
    if |s| > 0 && !leq(s[|s| - 1], x) then Insert(s[..|s| - 1], x, leq) + [s[|s| - 1]] else s + [x]
  }

  lemma {:induction false} InsertPermutes<T>(s: seq<T>, x: T, leq: (T, T) -> bool)
    ensures |Insert(s, x, leq)| == |s| + 1
    ensures multiset(Insert(s, x, leq)) == multiset(s) + multiset{x}
  {
    if |s| > 0 && !leq(s[|s| - 1], x) {
      InsertPermutes(s[..|s| - 1], x, leq);
      assert s == s[..|s| - 1] + [s[|s| - 1]];
    }
  }

  /** Stable sort: equal elements keep their input order. */
  function Sort<T>(s: seq<T>, leq: (T, T) -> bool): (r: seq<T>)
    ensures |r| == |s|
    ensures multiset(r) == multiset(s)
  {
    if |s| == 0 then []
    else
      InsertPermutes(Sort(s[..|s| - 1], leq), s[|s| - 1], leq);
      assert s == s[..|s| - 1] + [s[|s| - 1]];
      Insert(Sort(s[..|s| - 1], leq), s[|s| - 1], leq)
  }

  lemma {:induction false} InsertSorts<T(!new)>(s: seq<T>, x: T, leq: (T, T) -> bool)
    requires TotalPreorder(leq) && SortedBy(s, leq)
    ensures SortedBy(Insert(s, x, leq), leq)
  {
    if |s| > 0 && !leq(s[|s| - 1], x) {
      var init, last := s[..|s| - 1], s[|s| - 1];
      InsertSorts(init, x, leq);
      InsertPermutes(init, x, leq);
      var r := Insert(init, x, leq);
      forall i | 0 <= i < |r| ensures leq(r[i], last) {
        assert r[i] in multiset(r);
        assert r[i] == x || r[i] in multiset(init);
        if r[i] != x {
          assert r[i] in init;
        }
      }
    } else if |s| > 0 {
      forall i | 0 <= i < |s| ensures leq(s[i], x) {
        assert leq(s[i], s[|s| - 1]) || i == |s| - 1;
      }
    }
  }

  lemma {:induction false} SortSorts<T(!new)>(s: seq<T>, leq: (T, T) -> bool)
    requires TotalPreorder(leq)
    ensures SortedBy(Sort(s, leq), leq)
  {
    if |s| > 0 {
      SortSorts(s[..|s| - 1], leq);
      InsertSorts(Sort(s[..|s| - 1], leq), s[|s| - 1], leq);
    }
  }

  function Filter<T>(s: seq<T>, p: T -> bool): seq<T> {
    if |s| == 0 then [] else Filter(s[..|s| - 1], p) + if p(s[|s| - 1]) then [s[|s| - 1]] else []
  }

  lemma {:induction false} FilterMembers<T>(s: seq<T>, p: T -> bool)
    ensures forall x :: x in Filter(s, p) <==> x in s && p(x)
  {
    if |s| > 0 {
      FilterMembers(s[..|s| - 1], p);
      assert s == s[..|s| - 1] + [s[|s| - 1]];
    }
  }

  lemma {:induction false} FilterAgrees<T>(s: seq<T>, p: T -> bool, q: T -> bool)
    requires forall x | x in s :: p(x) == q(x)
    ensures Filter(s, p) == Filter(s, q)
  {
    if |s| > 0 {
      FilterAgrees(s[..|s| - 1], p, q);
    }
  }

  lemma FilterSnoc<T>(s: seq<T>, x: T, p: T -> bool)
    ensures Filter(s + [x], p) == Filter(s, p) + if p(x) then [x] else []
  {
    assert (s + [x])[..|s|] == s;
  }

  lemma {:induction false} InsertFilter<T(!new)>(s: seq<T>, x: T, leq: (T, T) -> bool, p: T -> bool)
    requires forall a, b | p(a) && p(b) :: leq(a, b)
    ensures Filter(Insert(s, x, leq), p) == Filter(s, p) + if p(x) then [x] else []
  {
    if |s| > 0 && !leq(s[|s| - 1], x) {
      var init, last := s[..|s| - 1], s[|s| - 1];
      InsertFilter(init, x, leq, p);
      assert s == init + [last];
    } else {
      FilterSnoc(s, x, p);
    }
  }

  /** Stability: the elements of one tie class come out in input order. */
  lemma {:induction false} SortStable<T(!new)>(s: seq<T>, leq: (T, T) -> bool, p: T -> bool)
    requires forall a, b | p(a) && p(b) :: leq(a, b)
    ensures Filter(Sort(s, leq), p) == Filter(s, p)
  {
    if |s| > 0 {
      SortStable(s[..|s| - 1], leq, p);
      InsertFilter(Sort(s[..|s| - 1], leq), s[|s| - 1], leq, p);
    }
  }

  lemma SplitOut<T>(b: seq<T>, i: nat)
    requires i < |b|
    ensures b == b[..i] + [b[i]] + b[i + 1..]
  {
  }

  lemma MultisetRemove<T>(b: seq<T>, i: nat)
    requires i < |b|
    ensures multiset(b) == multiset(b[..i] + b[i + 1..]) + multiset{b[i]}
  {
    SplitOut(b, i);
  }

  /** Taking one copy of an element out of two permutations leaves permutations. */
  lemma RemoveSame<T>(init: seq<T>, x: T, b: seq<T>, i: nat)
    requires i < |b| && b[i] == x && multiset(init + [x]) == multiset(b)
    ensures multiset(init) == multiset(b[..i] + b[i + 1..])
  {
    MultisetRemove(b, i);
    assert multiset(init + [x]) == multiset(init) + multiset{x};
    assert multiset(init) == multiset(b) - multiset{x} == multiset(b[..i] + b[i + 1..]);
  }

  lemma {:induction false} FilterAppend<T>(s: seq<T>, t: seq<T>, p: T -> bool)
    ensures Filter(s + t, p) == Filter(s, p) + Filter(t, p)
  {
    if |t| == 0 {
      assert s + t == s;
    } else {
      var init, x := t[..|t| - 1], t[|t| - 1];
      assert s + t == (s + init) + [x] && t == init + [x];
      FilterSnoc(s + init, x, p);
      FilterSnoc(init, x, p);
      FilterAppend(s, init, p);
    }
  }

  lemma {:induction false} FilterUniform<T>(t: seq<T>, p: T -> bool, b: bool)
    requires forall i | 0 <= i < |t| :: p(t[i]) == b
    ensures Filter(t, p) == if b then t else []
  {
    if |t| > 0 {
      var init, x := t[..|t| - 1], t[|t| - 1];
      assert forall i | 0 <= i < |init| :: init[i] == t[i];
      FilterUniform(init, p, b);
      assert t == init + [x];
      FilterSnoc(init, x, p);
    }
  }

  lemma {:induction false} SortFixed<T>(s: seq<T>, leq: (T, T) -> bool)
    requires SortedBy(s, leq)
    ensures Sort(s, leq) == s
  {
    if |s| > 0 {
      var init, x := s[..|s| - 1], s[|s| - 1];
      assert s == init + [x];
      assert SortedBy(init, leq) && (|init| > 0 ==> leq(init[|init| - 1], x)) by {
        assert forall i | 0 <= i < |init| :: init[i] == s[i];
      }
      SortFixed(init, leq);
    }
  }
}
