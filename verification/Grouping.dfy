/** Insertion-ordered grouping, as a `Map` from key to list does it. */
module Grouping {
  import opened Sorting

  /** Distinct keys in order of first appearance. */
  function KeyOrder<T(==), K(==)>(s: seq<T>, key: T -> K): seq<K> {
    if |s| == 0 then []
    else
      var init, k := KeyOrder(s[..|s| - 1], key), key(s[|s| - 1]);
      if k in init then init else init + [k]
  }

  function Members<T, K(==)>(s: seq<T>, key: T -> K, k: K): seq<T> { Filter(s, x => key(x) == k) }

  lemma {:induction false} KeyOrderFacts<T, K>(s: seq<T>, key: T -> K)
    ensures forall x | x in s :: key(x) in KeyOrder(s, key)
    ensures forall i, j | 0 <= i < j < |KeyOrder(s, key)| :: KeyOrder(s, key)[i] != KeyOrder(s, key)[j]
    ensures forall k | k in KeyOrder(s, key) :: |Members(s, key, k)| > 0
    ensures |s| > 0 ==> |KeyOrder(s, key)| > 0
  {
    if |s| > 0 {
      var init, x := s[..|s| - 1], s[|s| - 1];
      KeyOrderFacts(init, key);
      assert s == init + [x];
      forall k | k in KeyOrder(s, key) ensures |Members(s, key, k)| > 0 {
        FilterSnoc(init, x, y => key(y) == k);
      }
    }
  }

  lemma MembersSnoc<T, K>(s: seq<T>, x: T, key: T -> K, k: K)
    ensures Members(s + [x], key, k) == Members(s, key, k) + if key(x) == k then [x] else []
  {
    FilterSnoc(s, x, y => key(y) == k);
  }

  lemma MembersAppend<T, K>(s: seq<T>, t: seq<T>, key: T -> K, h: K, k: K)
    requires forall x | x in t :: key(x) == h
    ensures Members(s + t, key, k) == Members(s, key, k) + if k == h then t else []
  {
    FilterAppend(s, t, x => key(x) == k);
    FilterUniform(t, x => key(x) == k, k == h);
  }

  lemma MembersHaveKey<T, K>(s: seq<T>, key: T -> K, k: K)
    ensures forall x :: x in Members(s, key, k) <==> x in s && key(x) == k
  {
    FilterMembers(s, x => key(x) == k);
  }

  lemma {:induction false} KeyOrderAppend<T, K>(s: seq<T>, t: seq<T>, key: T -> K, k: K)
    requires forall x | x in t :: key(x) == k
    requires |t| > 0 && k !in KeyOrder(s, key)
    ensures KeyOrder(s + t, key) == KeyOrder(s, key) + [k]
  {
    var init, x := t[..|t| - 1], t[|t| - 1];
    assert s + t == (s + init) + [x];
    assert x in t;
    if |init| > 0 {
      KeyOrderAppend(s, init, key, k);
    } else {
      assert s + init == s;
    }
  }

  /** The table holds exactly the keys seen, each with its items in order. */
  ghost predicate Grouped<T, K(!new)>(order: seq<K>, groups: map<K, seq<T>>, items: seq<T>, key: T -> K) {
    && order == KeyOrder(items, key)
    && (forall k :: k in groups <==> k in order)
    && (forall k | k in groups :: groups[k] == Members(items, key, k))
  }

  lemma {:induction false} UnseenKey<T, K>(items: seq<T>, key: T -> K, k: K)
    ensures k !in KeyOrder(items, key) ==> Members(items, key, k) == []
  {
    if |items| > 0 {
      UnseenKey(items[..|items| - 1], key, k);
    }
  }

  lemma GroupStep<T, K(!new)>(order: seq<K>, groups: map<K, seq<T>>, items: seq<T>, item: T, key: T -> K)
    requires Grouped(order, groups, items, key)
    ensures var k := key(item);
      Grouped(if k in groups then order else order + [k],
              groups[k := (if k in groups then groups[k] else []) + [item]], items + [item], key)
  {
    var k := key(item);
    UnseenKey(items, key, k);
    var groups' := groups[k := (if k in groups then groups[k] else []) + [item]];
    forall k' | k' in groups' ensures groups'[k'] == Members(items + [item], key, k') {
      MembersSnoc(items, item, key, k');
    }
  }

  /** Groups items under their keys in one pass over an insertion-ordered table. */
  method GroupInOrder<T, K(==, !new)>(items: seq<T>, key: T -> K) returns (order: seq<K>, groups: map<K, seq<T>>)
    ensures order == KeyOrder(items, key)
    ensures forall k | k in order :: k in groups && groups[k] == Members(items, key, k)
  {
    order, groups := [], map[];
    var i := 0;
    while i < |items|
      invariant 0 <= i <= |items|
      invariant Grouped(order, groups, items[..i], key)
    {
      var item, k := items[i], key(items[i]);
      GroupStep(order, groups, items[..i], item, key);
      assert items[..i + 1] == items[..i] + [item];
      var group := if k in groups then groups[k] else [];
      if k !in groups {
        order := order + [k];
      }
      groups := groups[k := group + [item]];
      i := i + 1;
    }
    assert items[..|items|] == items;
  }
}
