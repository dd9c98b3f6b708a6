/** Python dictionaries as the modelled code uses them: an insertion-ordered
    sequence of (key, value) items in which no key occurs twice. */
module Dicts {
  import opened Wrappers

  type Dict<K, V> = seq<(K, V)>

  /** The keys, in insertion order (`list(d.keys())`). */
  function Keys<K, V>(d: Dict<K, V>): (ks: seq<K>)
    ensures |ks| == |d|
    ensures forall i :: 0 <= i < |d| ==> ks[i] == d[i].0
  {
    seq(|d|, i requires 0 <= i < |d| => d[i].0)
  }

  /** What every Python dict satisfies: no key is stored twice. */
  predicate DistinctKeys<K(==), V>(d: Dict<K, V>)
  {
    forall i, j :: 0 <= i < j < |d| ==> d[i].0 != d[j].0
  }

  /** The position of the first occurrence of `k` in `ks`. */
  function IndexOf<K(==)>(ks: seq<K>, k: K): (i: nat)
    requires k in ks
    ensures i < |ks| && ks[i] == k
    ensures forall j :: 0 <= j < i ==> ks[j] != k
  {
    if ks[0] == k then 0 else 1 + IndexOf(ks[1..], k)
  }

  /** Two sequences that agree up to the first occurrence of `k` in one of
      them have their first occurrence of `k` at the same place. */
  lemma IndexOfPrefix<K>(ks: seq<K>, ks': seq<K>, k: K)
    requires k in ks
    requires |ks| <= |ks'| && ks'[..|ks|] == ks
    ensures k in ks' && IndexOf(ks', k) == IndexOf(ks, k)
  {
    var i := IndexOf(ks, k);
    assert ks'[i] == ks[i];
    assert forall j :: 0 <= j < i ==> ks'[j] == ks[j];
  }

  /** `d.get(k)`. */
  function Get<K(==), V>(d: Dict<K, V>, k: K): (r: Option<V>)
    ensures r.None? <==> k !in Keys(d)
    ensures r.Some? ==> (k, r.value) in d
  {
    if k in Keys(d) then Some(d[IndexOf(Keys(d), k)].1) else None
  }

  /** In a dict, an item `(k, v)` is what `d.get(k)` finds. */
  lemma GetItem<K, V>(d: Dict<K, V>, k: K, v: V)
    requires DistinctKeys(d) && (k, v) in d
    ensures Get(d, k) == Some(v)
  {
    var j :| 0 <= j < |d| && d[j] == (k, v);
    assert Keys(d)[j] == k;
    var i := IndexOf(Keys(d), k);
    assert Keys(d)[i] == d[i].0;
  }

  /** `d[k] = v`: an existing key keeps its position and takes the new value,
      a new key is appended at the end. */
  function Set<K(==,!new), V>(d: Dict<K, V>, k: K, v: V): (r: Dict<K, V>)
    requires DistinctKeys(d)
    ensures DistinctKeys(r)
    ensures Keys(r) == if k in Keys(d) then Keys(d) else Keys(d) + [k]
    ensures Get(r, k) == Some(v)
    ensures forall k' :: k' != k ==> Get(r, k') == Get(d, k')
  {
    if k in Keys(d) then
      var r := d[IndexOf(Keys(d), k) := (k, v)];
      assert Keys(r) == Keys(d);
      r
    else
      var r := d + [(k, v)];
      assert Keys(r) == Keys(d) + [k];
      assert Keys(r)[..|d|] == Keys(d);
      forall k' | k' != k && k' in Keys(d) ensures Get(r, k') == Get(d, k') {
        IndexOfPrefix(Keys(d), Keys(r), k');
      }
      r
  }

  lemma FoundInSameItems<K, V>(p: Dict<K, V>, q: Dict<K, V>, k: K)
    requires DistinctKeys(q)
    requires multiset(p) == multiset(q)
    ensures Get(p, k).Some? ==> Get(q, k) == Get(p, k)
  {
    if Get(p, k).Some? {
      var v := Get(p, k).value;
      assert (k, v) in multiset(q);
      GetItem(q, k, v);
    }
  }

  /** Two dicts holding the same items answer every `get` alike. */
  lemma SameItemsSameGet<K, V>(p: Dict<K, V>, q: Dict<K, V>, k: K)
    requires DistinctKeys(p) && DistinctKeys(q)
    requires multiset(p) == multiset(q)
    ensures Get(p, k) == Get(q, k)
  {
    FoundInSameItems(p, q, k);
    FoundInSameItems(q, p, k);
  }

  /** `d[k] = v` on two dicts holding the same items gives two dicts holding
      the same items, whatever the order they were built in. */
  lemma SetSameItems<K(!new), V>(p: Dict<K, V>, q: Dict<K, V>, k: K, v: V)
    requires DistinctKeys(p) && DistinctKeys(q)
    requires multiset(p) == multiset(q)
    ensures multiset(Set(p, k, v)) == multiset(Set(q, k, v))
  {
    SameItemsSameGet(p, q, k);
    if k in Keys(p) {
      var i, j := IndexOf(Keys(p), k), IndexOf(Keys(q), k);
      GetItem(p, k, p[i].1);
      GetItem(q, k, q[j].1);
      assert p[i] == q[j];
      assert multiset(Set(p, k, v)) == multiset(p) - multiset{p[i]} + multiset{(k, v)};
      assert multiset(Set(q, k, v)) == multiset(q) - multiset{q[j]} + multiset{(k, v)};
    }
  }
}
