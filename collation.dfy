/**
 * `ksort($params, SORT_LOCALE_STRING)`: the entries of an array ordered by
 * key under the locale's collation, which the model takes as a parameter.
 * PHP's sort is stable from PHP 8.0 on, so entries whose keys collate as
 * equal keep their insertion order; the model is that sort.
 */
module Collation {
  import opened Php

  /** What ksort needs of a comparison: every two keys are comparable and
      the comparison is transitive. */
  ghost predicate TotalPreorder(le: (string, string) -> bool) {
    && (forall a, b :: le(a, b) || le(b, a))
    && (forall a, b, c :: le(a, b) && le(b, c) ==> le(a, c))
  }

  /** A collation that never ties two different keys. */
  ghost predicate TotalOrder(le: (string, string) -> bool) {
    && TotalPreorder(le)
    && (forall a, b :: le(a, b) && le(b, a) ==> a == b)
  }

  ghost predicate SortedByKey(le: (string, string) -> bool, s: Assoc) {
    forall i, j :: 0 <= i < j < |s| ==> le(s[i].key, s[j].key)
  }

  /** x placed before the first entry of s whose key it does not follow. */
  function Insert(le: (string, string) -> bool, x: Pair, s: Assoc): (r: Assoc)
    ensures multiset(r) == multiset(s) + multiset{x}
  {
    if s == [] then [x]
    else if le(x.key, s[0].key) then [x] + s
    else
      assert s == [s[0]] + s[1..];
      [s[0]] + Insert(le, x, s[1..])
  }

  /** The key order ksort leaves an array in (an insertion sort, which is
      stable: earlier entries go first among equal keys). */
  function SortByKey(le: (string, string) -> bool, a: Assoc): (r: Assoc)
    ensures multiset(r) == multiset(a)
  {
    if a == [] then []
    else
      assert a == [a[0]] + a[1..];
      Insert(le, a[0], SortByKey(le, a[1..]))
  }

  lemma {:induction false} InsertKeepsSorted(le: (string, string) -> bool, x: Pair, s: Assoc)
    requires TotalPreorder(le) && SortedByKey(le, s)
    ensures SortedByKey(le, Insert(le, x, s))
  {
    if s != [] && !le(x.key, s[0].key) {
      var t := Insert(le, x, s[1..]);
      InsertKeepsSorted(le, x, s[1..]);
      forall j | 0 <= j < |t|
        ensures le(s[0].key, t[j].key)
      {
        assert t[j] in multiset(t);
        if t[j] != x {
          assert t[j] in multiset(s[1..]);
          var k :| 0 <= k < |s[1..]| && s[1..][k] == t[j];
          assert s[k + 1] == t[j];
        }
      }
      assert Insert(le, x, s) == [s[0]] + t;
    }
  }

  /** ksort orders the entries by key. */
  lemma {:induction false} SortByKeyIsSorted(le: (string, string) -> bool, a: Assoc)
    requires TotalPreorder(le)
    ensures SortedByKey(le, SortByKey(le, a))
  {
    if a != [] {
      SortByKeyIsSorted(le, a[1..]);
      InsertKeepsSorted(le, a[0], SortByKey(le, a[1..]));
    }
  }

  /** Two sorted arrangements of the same entries start with the same entry
      when the collation never ties different keys. */
  lemma SortedHeadsAgree(le: (string, string) -> bool, s: Assoc, t: Assoc)
    requires forall a, b :: le(a, b) && le(b, a) ==> a == b
    requires SortedByKey(le, s) && SortedByKey(le, t)
    requires DistinctKeys(s)
    requires multiset(s) == multiset(t) && s != []
    ensures t != [] && s[0] == t[0]
  {
    assert t[0] in multiset(s);
    var i :| 0 <= i < |s| && s[i] == t[0];
    assert s[0] in multiset(t);
    var j :| 0 <= j < |t| && t[j] == s[0];
    if i != 0 {
      assert false;
    }
  }

  lemma TailsArePermutations(s: Assoc, t: Assoc)
    requires s != [] && t != [] && s[0] == t[0] && multiset(s) == multiset(t)
    ensures multiset(s[1..]) == multiset(t[1..])
  {
    assert s == [s[0]] + s[1..] && t == [t[0]] + t[1..];
    assert multiset(s[1..]) == multiset(s) - multiset{s[0]};
    assert multiset(t[1..]) == multiset(t) - multiset{t[0]};
  }

  /** Under a collation that never ties different keys there is only one
      sorted arrangement of a given set of entries with distinct keys. */
  lemma {:induction false} SortedArrangementIsUnique(le: (string, string) -> bool, s: Assoc, t: Assoc)
    requires forall a, b :: le(a, b) && le(b, a) ==> a == b
    requires SortedByKey(le, s) && SortedByKey(le, t)
    requires DistinctKeys(s)
    requires multiset(s) == multiset(t)
    ensures s == t
    decreases |s|
  {
    if s == [] {
      assert |t| == |multiset(t)| == 0;
    } else {
      SortedHeadsAgree(le, s, t);
      TailsArePermutations(s, t);
      DistinctCons(s);
      SortedArrangementIsUnique(le, s[1..], t[1..]);
      assert s == [s[0]] + s[1..] && t == [t[0]] + t[1..];
    }
  }

  lemma PermutationKeepsKeys(s: Assoc, t: Assoc)
    requires multiset(s) == multiset(t)
    ensures KeySet(s) == KeySet(t)
  {
    KeySetIndices(s);
    KeySetIndices(t);
    forall i | 0 <= i < |s|
      ensures s[i].key in KeySet(t)
    {
      assert s[i] in multiset(t);
      var j :| 0 <= j < |t| && t[j] == s[i];
    }
    forall j | 0 <= j < |t|
      ensures t[j].key in KeySet(s)
    {
      assert t[j] in multiset(s);
      var i :| 0 <= i < |s| && s[i] == t[j];
    }
  }

  lemma {:induction false} InsertKeepsDistinct(le: (string, string) -> bool, x: Pair, s: Assoc)
    requires DistinctKeys(s) && x.key !in KeySet(s)
    ensures DistinctKeys(Insert(le, x, s))
  {
    if s == [] {
    } else if le(x.key, s[0].key) {
      DistinctCons([x] + s);
      assert ([x] + s)[1..] == s;
    } else {
      DistinctCons(s);
      var t := Insert(le, x, s[1..]);
      InsertKeepsDistinct(le, x, s[1..]);
      assert multiset(t) == multiset([x] + s[1..]);
      PermutationKeepsKeys(t, [x] + s[1..]);
      assert ([x] + s[1..])[1..] == s[1..];
      assert ([s[0]] + t)[1..] == t;
      DistinctCons([s[0]] + t);
    }
  }

  /** ksort keeps the keys of an array distinct. */
  lemma {:induction false} SortByKeyKeepsDistinct(le: (string, string) -> bool, a: Assoc)
    requires DistinctKeys(a)
    ensures DistinctKeys(SortByKey(le, a))
  {
    if a != [] {
      DistinctCons(a);
      SortByKeyKeepsDistinct(le, a[1..]);
      PermutationKeepsKeys(SortByKey(le, a[1..]), a[1..]);
      InsertKeepsDistinct(le, a[0], SortByKey(le, a[1..]));
    }
  }

  /** Under a collation that never ties different keys, ksort's result
      depends only on the entries, not on the order they were inserted in. */
  lemma SortIgnoresInsertionOrder(le: (string, string) -> bool, a: Assoc, b: Assoc)
    requires TotalOrder(le)
    requires DistinctKeys(a) && multiset(a) == multiset(b)
    ensures SortByKey(le, a) == SortByKey(le, b)
  {
    SortByKeyIsSorted(le, a);
    SortByKeyIsSorted(le, b);
    SortByKeyKeepsDistinct(le, a);
    SortedArrangementIsUnique(le, SortByKey(le, a), SortByKey(le, b));
  }

  /** The entries of s whose keys tie with k under le, in order. */
  function TiedWith(le: (string, string) -> bool, k: string, s: Assoc): seq<Pair> {
    if s == [] then []
    else (if le(s[0].key, k) && le(k, s[0].key) then [s[0]] else []) + TiedWith(le, k, s[1..])
  }

  /** The one-entry contribution of p to TiedWith. */
  function TiedHead(le: (string, string) -> bool, k: string, p: Pair): seq<Pair> {
    if le(p.key, k) && le(k, p.key) then [p] else []
  }

  lemma TiedWithCons(le: (string, string) -> bool, k: string, p: Pair, s: Assoc)
    ensures TiedWith(le, k, [p] + s) == TiedHead(le, k, p) + TiedWith(le, k, s)
  {
    assert ([p] + s)[0] == p && ([p] + s)[1..] == s;
  }

  /** Inserting x puts it ahead of every entry tied with it (only
      transitivity through k is needed). */
  lemma {:induction false} InsertIsStable(le: (string, string) -> bool, k: string, x: Pair, s: Assoc)
    requires forall a, b :: le(a, k) && le(k, b) ==> le(a, b)
    ensures TiedWith(le, k, Insert(le, x, s)) == TiedHead(le, k, x) + TiedWith(le, k, s)
  {
    if s == [] {
      TiedWithCons(le, k, x, []);
    } else if le(x.key, s[0].key) {
      TiedWithCons(le, k, x, s);
    } else {
      InsertIsStable(le, k, x, s[1..]);
      InsertBehindHead(le, k, x, s);
    }
  }

  /** The step of InsertIsStable where x goes behind the first entry. */
  lemma InsertBehindHead(le: (string, string) -> bool, k: string, x: Pair, s: Assoc)
    requires s != [] && !le(x.key, s[0].key)
    requires le(x.key, k) && le(k, s[0].key) ==> le(x.key, s[0].key)
    requires TiedWith(le, k, Insert(le, x, s[1..])) == TiedHead(le, k, x) + TiedWith(le, k, s[1..])
    ensures TiedWith(le, k, Insert(le, x, s)) == TiedHead(le, k, x) + TiedWith(le, k, s)
  {
    var t := Insert(le, x, s[1..]);
    assert Insert(le, x, s) == [s[0]] + t;
    TiedWithCons(le, k, s[0], t);
    TiedWithCons(le, k, s[0], s[1..]);
    assert s == [s[0]] + s[1..];
    SwapTiedHeads(TiedHead(le, k, x), TiedHead(le, k, s[0]), TiedWith(le, k, s[1..]));
  }

  lemma SwapTiedHeads(hx: seq<Pair>, h0: seq<Pair>, rest: seq<Pair>)
    requires hx == [] || h0 == []
    ensures h0 + (hx + rest) == hx + (h0 + rest)
  {
    if hx == [] {
      assert hx + rest == rest && hx + (h0 + rest) == h0 + rest;
    } else {
      assert h0 + (hx + rest) == hx + rest && h0 + rest == rest;
    }
  }

  /** ksort is stable: for every key, the entries that tie with it come out
      in the order they were inserted in. */
  lemma {:induction false} SortByKeyIsStable(le: (string, string) -> bool, k: string, a: Assoc)
    requires TotalPreorder(le)
    ensures TiedWith(le, k, SortByKey(le, a)) == TiedWith(le, k, a)
  {
    if a != [] {
      SortByKeyIsStable(le, k, a[1..]);
      InsertIsStable(le, k, a[0], SortByKey(le, a[1..]));
    }
  }

  /** When the collation ties every pair of keys, the stable sort leaves the
      insertion order as it is: the order independence above needs a
      collation without ties. */
  lemma {:induction false} TiedKeysKeepInsertionOrder(le: (string, string) -> bool, a: Assoc)
    requires forall x, y :: le(x, y)
    ensures SortByKey(le, a) == a
  {
    if a != [] {
      TiedKeysKeepInsertionOrder(le, a[1..]);
      assert a == [a[0]] + a[1..];
    }
  }
}
