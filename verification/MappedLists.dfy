/** Filtering, sorting and grouping commute with an element-wise map. */
module MappedLists {
  import opened Sorting
  import opened Grouping

  function ListOf<A, B>(s: seq<A>, f: A -> B): (r: seq<B>)
    ensures |r| == |s| && forall i | 0 <= i < |s| :: r[i] == f(s[i])
  {
    seq(|s|, i requires 0 <= i < |s| => f(s[i]))
  }

  lemma ListOfSnoc<A, B>(s: seq<A>, x: A, f: A -> B)
    ensures ListOf(s + [x], f) == ListOf(s, f) + [f(x)]
  {
  }

  lemma ListOfHas<A, B>(s: seq<A>, f: A -> B, y: B)
    ensures y in ListOf(s, f) <==> exists x | x in s :: f(x) == y
  {
    if y in ListOf(s, f) {
      var i :| 0 <= i < |s| && ListOf(s, f)[i] == y;
      assert s[i] in s;
    }
    if x :| x in s && f(x) == y {
      var i :| 0 <= i < |s| && s[i] == x;
      assert ListOf(s, f)[i] == y;
    }
  }

  lemma {:induction false} FilterMapped<A, B>(s: seq<A>, f: A -> B, p: A -> bool, q: B -> bool)
    requires forall x | x in s :: p(x) == q(f(x))
    ensures Filter(ListOf(s, f), q) == ListOf(Filter(s, p), f)
  {
    if |s| > 0 {
      var init, x := s[..|s| - 1], s[|s| - 1];
      assert s == init + [x];
      FilterMapped(init, f, p, q);
      ListOfSnoc(init, x, f);
      FilterSnoc(ListOf(init, f), f(x), q);
      FilterSnoc(init, x, p);
      if p(x) {
        ListOfSnoc(Filter(init, p), x, f);
      } else {
        assert Filter(init, p) + [] == Filter(init, p) && ListOf(Filter(init, p), f) + [] == ListOf(Filter(init, p), f);
      }
    }
  }

  lemma MembersMapped<A, B, K>(s: seq<A>, f: A -> B, p: A -> bool, key: B -> K, k: K)
    requires forall x | x in s :: p(x) == (key(f(x)) == k)
    ensures Members(ListOf(s, f), key, k) == ListOf(Filter(s, p), f)
  {
    FilterMapped(s, f, p, y => key(y) == k);
  }

  lemma {:induction false} InsertMapped<A, B>(s: seq<A>, x: A, f: A -> B, a: (A, A) -> bool, b: (B, B) -> bool)
    requires forall y | y in s :: a(y, x) == b(f(y), f(x))
    ensures Insert(ListOf(s, f), f(x), b) == ListOf(Insert(s, x, a), f)
  {
    if |s| > 0 && !a(s[|s| - 1], x) {
      var init, last := s[..|s| - 1], s[|s| - 1];
      InsertMapped(init, x, f, a, b);
      assert ListOf(s, f)[..|s| - 1] == ListOf(init, f);
      ListOfSnoc(Insert(init, x, a), last, f);
    } else {
      ListOfSnoc(s, x, f);
    }
  }

  lemma SortSnoc<A>(s: seq<A>, x: A, leq: (A, A) -> bool)
    ensures Sort(s + [x], leq) == Insert(Sort(s, leq), x, leq)
    ensures forall y | y in Sort(s, leq) :: y in s
  {
    assert (s + [x])[..|s|] == s;
    forall y | y in Sort(s, leq) ensures y in s {
      assert y in multiset(Sort(s, leq));
    }
  }

  lemma SortMappedStep<A, B>(init: seq<A>, x: A, f: A -> B, a: (A, A) -> bool, b: (B, B) -> bool)
    requires Sort(ListOf(init, f), b) == ListOf(Sort(init, a), f)
    requires forall y | y in init :: a(y, x) == b(f(y), f(x))
    ensures Sort(ListOf(init + [x], f), b) == ListOf(Sort(init + [x], a), f)
  {
    ListOfSnoc(init, x, f);
    SortSnoc(ListOf(init, f), f(x), b);
    SortSnoc(init, x, a);
    InsertMapped(Sort(init, a), x, f, a, b);
  }

  lemma {:induction false} SortMapped<A, B>(s: seq<A>, f: A -> B, a: (A, A) -> bool, b: (B, B) -> bool)
    requires forall x, y | x in s && y in s :: a(x, y) == b(f(x), f(y))
    ensures Sort(ListOf(s, f), b) == ListOf(Sort(s, a), f)
  {
    if |s| > 0 {
      var init, x := s[..|s| - 1], s[|s| - 1];
      assert s == init + [x];
      SortMapped(init, f, a, b);
      SortMappedStep(init, x, f, a, b);
    }
  }

  /** Renaming the keys one-to-one renames their order of first appearance. */
  lemma {:induction false} KeyOrderMapped<A, B, K, L>(s: seq<A>, f: A -> B, key: A -> K, name: B -> L, g: K -> L)
    requires forall x | x in s :: name(f(x)) == g(key(x))
    requires forall x, y | x in s && y in s && g(key(x)) == g(key(y)) :: key(x) == key(y)
    ensures KeyOrder(ListOf(s, f), name) == ListOf(KeyOrder(s, key), g)
  {
    if |s| > 0 {
      var init, x := s[..|s| - 1], s[|s| - 1];
      assert s == init + [x];
      KeyOrderMapped(init, f, key, name, g);
      assert ListOf(s, f)[..|s| - 1] == ListOf(init, f);
      var order := KeyOrder(init, key);
      ListOfHas(order, g, g(key(x)));
      if g(key(x)) in ListOf(order, g) {
        var k :| k in order && g(k) == g(key(x));
        KeyOrderFacts(init, key);
        KeysAreSeen(init, key, k);
        var y :| y in init && key(y) == k;
        assert y in s && x in s;
      } else {
        ListOfSnoc(order, key(x), g);
      }
    }
  }

  lemma {:induction false} KeysAreSeen<A, K>(s: seq<A>, key: A -> K, k: K)
    ensures k in KeyOrder(s, key) <==> exists x | x in s :: key(x) == k
  {
    if |s| > 0 {
      var init, x := s[..|s| - 1], s[|s| - 1];
      assert s == init + [x];
      KeysAreSeen(init, key, k);
      if y :| y in s && key(y) == k {
        assert y in init || y == x;
      }
      if y :| y in init && key(y) == k {
        assert y in s;
      }
      assert x in s;
    }
  }

  /** The key stands at `k` in the order exactly when its first item comes after those of the keys before it. */
  ghost predicate FirstSeenAt<A, K(!new)>(s: seq<A>, key: A -> K, k: K, i: nat) {
    i < |s| && key(s[i]) == k && forall j | 0 <= j < i :: key(s[j]) != k
  }

  /** Keys stand in the order of their first items. */
  lemma {:induction false} KeyOrderIsFirstSeen<A, K(!new)>(s: seq<A>, key: A -> K, m: nat, n: nat, i: nat, j: nat)
    requires m < n < |KeyOrder(s, key)|
    requires FirstSeenAt(s, key, KeyOrder(s, key)[m], i) && FirstSeenAt(s, key, KeyOrder(s, key)[n], j)
    ensures i < j
  {
    var init, x := s[..|s| - 1], s[|s| - 1];
    assert s == init + [x];
    var order := KeyOrder(init, key);
    if n < |order| {
      SeenEarly(init, x, key, order[m], i);
      SeenEarly(init, x, key, order[n], j);
      KeyOrderIsFirstSeen(init, key, m, n, i, j);
    } else {
      SeenEarly(init, x, key, order[m], i);
      KeysAreSeen(init, key, key(x));
      assert forall t | 0 <= t < |init| :: init[t] in init && s[t] == init[t];
    }
  }

  lemma SeenEarly<A, K(!new)>(init: seq<A>, x: A, key: A -> K, k: K, i: nat)
    requires k in KeyOrder(init, key) && FirstSeenAt(init + [x], key, k, i)
    ensures FirstSeenAt(init, key, k, i)
  {
    KeysAreSeen(init, key, k);
    var y :| y in init && key(y) == k;
    var t :| 0 <= t < |init| && init[t] == y;
    assert (init + [x])[t] == y;
    assert forall j | 0 <= j < |init| :: (init + [x])[j] == init[j];
  }
}
