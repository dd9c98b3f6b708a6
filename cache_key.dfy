/** The client's cache key: the endpoint, '?', and the URL-encoded query
    parameters sorted by key (`f"{endpoint}?{urlencode(sorted(params.items()))}"`).
    Sorting is what makes the key independent of the order in which the
    parameters were inserted, and the encoding losing nothing is what makes
    different parameters give different keys; both directions are proved. */
module CacheKeys {
  import opened Dicts
  import opened UrlEncoding

  type Item = (string, string)

  /** Query parameters: a dict from parameter name to value. */
  type Params = Dict<string, string>

  /** Python's `<` on `str`: lexicographic by code point. */
  predicate StrLess(a: string, b: string)
  {
    if a == [] then b != []
    else if b == [] then false
    else if a[0] != b[0] then a[0] < b[0]
    else StrLess(a[1..], b[1..])
  }

  lemma StrLessIrreflexive(a: string)
    ensures !StrLess(a, a)
  {
  }

  lemma StrLessTransitive(a: string, b: string, c: string)
    requires StrLess(a, b) && StrLess(b, c)
    ensures StrLess(a, c)
  {
  }

  lemma StrLessTrichotomy(a: string, b: string)
    ensures a == b || StrLess(a, b) || StrLess(b, a)
    ensures !(StrLess(a, b) && StrLess(b, a))
  {
    if a != [] && b != [] && a[0] == b[0] {
      StrLessTrichotomy(a[1..], b[1..]);
      assert a == [a[0]] + a[1..] && b == [b[0]] + b[1..];
    }
  }

  /** Python's `<` on `(key, value)` tuples, which `sorted` uses. */
  predicate ItemLess(p: Item, q: Item)
  {
    StrLess(p.0, q.0) || (p.0 == q.0 && StrLess(p.1, q.1))
  }

  lemma ItemLessTrichotomy(p: Item, q: Item)
    ensures p == q || ItemLess(p, q) || ItemLess(q, p)
    ensures !(ItemLess(p, q) && ItemLess(q, p))
  {
    StrLessTrichotomy(p.0, q.0);
    StrLessTrichotomy(p.1, q.1);
  }

  /** `p <= q < r` gives `p < r`. */
  lemma ItemLessAfterLeq(p: Item, q: Item, r: Item)
    requires !ItemLess(q, p) && ItemLess(q, r)
    ensures ItemLess(p, r)
  {
    ItemLessTrichotomy(p, q);
    if p != q {
      StrLessIrreflexive(p.0);
      if StrLess(p.0, q.0) && StrLess(q.0, r.0) { StrLessTransitive(p.0, q.0, r.0); }
      if StrLess(p.1, q.1) && StrLess(q.1, r.1) { StrLessTransitive(p.1, q.1, r.1); }
    }
  }

  /** Non-decreasing in Python's tuple order. */
  predicate Sorted(s: seq<Item>)
  {
    forall i, j :: 0 <= i < j < |s| ==> !ItemLess(s[j], s[i])
  }

  /** Inserting into a sorted list before the first element not smaller. */
  function Insert(x: Item, s: seq<Item>): (r: seq<Item>)
    requires Sorted(s)
    ensures Sorted(r)
    ensures multiset(r) == multiset(s) + multiset{x}
  {
    if s == [] then [x]
    else if ItemLess(s[0], x) then
      var rest := Insert(x, s[1..]);
      assert s == [s[0]] + s[1..];
      forall k | 0 <= k < |rest| ensures !ItemLess(rest[k], s[0]) {
        assert rest[k] in multiset(rest);
        assert rest[k] == x || rest[k] in multiset(s[1..]);
        ItemLessTrichotomy(s[0], x);
      }
      PrependLeast(s[0], rest);
      [s[0]] + rest
    else
      forall k | 0 <= k < |s| ensures !ItemLess(s[k], x) {
        ItemLessTrichotomy(s[k], x);
        if ItemLess(s[k], x) { ItemLessAfterLeq(s[0], s[k], x); }
      }
      PrependLeast(x, s);
      [x] + s
  }

  /** An item no larger than every item of a sorted list may lead it. */
  lemma PrependLeast(h: Item, s: seq<Item>)
    requires Sorted(s)
    requires forall k :: 0 <= k < |s| ==> !ItemLess(s[k], h)
    ensures Sorted([h] + s)
  {
    forall i, j | 0 <= i < j < |[h] + s|
      ensures !ItemLess(([h] + s)[j], ([h] + s)[i])
    {
      if i > 0 {
        assert ([h] + s)[i] == s[i - 1];
      }
      assert ([h] + s)[j] == s[j - 1];
    }
  }

  /** `sorted(items)`. */
  function SortItems(s: seq<Item>): (r: seq<Item>)
    ensures Sorted(r)
    ensures multiset(r) == multiset(s)
  {
    if s == [] then []
    else
      assert s == [s[0]] + s[1..];
      Insert(s[0], SortItems(s[1..]))
  }

  lemma SortedHeadIsLeast(s: seq<Item>, x: Item)
    requires Sorted(s) && x in s
    ensures !ItemLess(x, s[0])
  {
    var i :| 0 <= i < |s| && s[i] == x;
    if i == 0 { ItemLessTrichotomy(x, x); }
  }

  /** Two sorted lists with the same items start with the same item. */
  lemma SortedSameHead(s: seq<Item>, t: seq<Item>)
    requires Sorted(s) && Sorted(t) && s != [] && t != []
    requires multiset(s) == multiset(t)
    ensures s[0] == t[0]
  {
    assert s[0] in multiset(t) && t[0] in multiset(s);
    SortedHeadIsLeast(s, t[0]);
    SortedHeadIsLeast(t, s[0]);
    ItemLessTrichotomy(s[0], t[0]);
  }

  /** Removing the same first item from two lists with the same items leaves
      lists with the same items. */
  lemma TailsSameItems(s: seq<Item>, t: seq<Item>)
    requires s != [] && t != [] && s[0] == t[0]
    requires multiset(s) == multiset(t)
    ensures multiset(s[1..]) == multiset(t[1..])
  {
    assert s == [s[0]] + s[1..] && t == [t[0]] + t[1..];
    assert multiset(s[1..]) == multiset(s) - multiset{s[0]};
    assert multiset(t[1..]) == multiset(t) - multiset{t[0]};
  }

  /** A sorted list is determined by its elements: two sorted arrangements of
      the same items are the same list. */
  lemma {:induction false} SortedUnique(s: seq<Item>, t: seq<Item>)
    requires Sorted(s) && Sorted(t)
    requires multiset(s) == multiset(t)
    ensures s == t
  {
    if s == [] || t == [] {
      assert |s| == |multiset(s)| == |multiset(t)| == |t|;
    } else {
      SortedSameHead(s, t);
      TailsSameItems(s, t);
      assert s == [s[0]] + s[1..] && t == [t[0]] + t[1..];
      SortedUnique(s[1..], t[1..]);
    }
  }

  /** `_get_cache_key(endpoint, params)`. */
  function CacheKey(endpoint: string, params: Params): (k: string)
    ensures |k| > |endpoint| && k[..|endpoint| + 1] == endpoint + "?"
    ensures params == [] ==> k == endpoint + "?"
  {
    endpoint + "?" + UrlEncode(SortItems(params))
  }

  /** For one endpoint, two parameter dicts give the same key exactly when
      they hold the same items, in whatever order they were inserted. */
  lemma CacheKeyOrderIndependent(endpoint: string, p: Params, q: Params)
    ensures CacheKey(endpoint, p) == CacheKey(endpoint, q) <==> multiset(p) == multiset(q)
  {
    if multiset(p) == multiset(q) {
      SortedUnique(SortItems(p), SortItems(q));
    }
    if CacheKey(endpoint, p) == CacheKey(endpoint, q) {
      var n := |endpoint + "?"|;
      assert UrlEncode(SortItems(p)) == CacheKey(endpoint, p)[n..];
      assert UrlEncode(SortItems(q)) == CacheKey(endpoint, q)[n..];
      UrlEncodeInjective(SortItems(p), SortItems(q));
    }
  }

  /** For one endpoint, setting a parameter to two different values gives two
      different keys. */
  lemma CacheKeyDistinguishesValues(endpoint: string, base: Params, name: string, v1: string, v2: string)
    requires DistinctKeys(base)
    requires v1 != v2
    ensures CacheKey(endpoint, Set(base, name, v1)) != CacheKey(endpoint, Set(base, name, v2))
  {
    var p, q := Set(base, name, v1), Set(base, name, v2);
    CacheKeyOrderIndependent(endpoint, p, q);
    if multiset(p) == multiset(q) {
      assert (name, v1) in multiset(q);
      GetItem(q, name, v1);
    }
  }
}
