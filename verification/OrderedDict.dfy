/**
  Python's insertion-ordered `dict`: assigning to a present key keeps its place,
  assigning to a new key puts it last.
 */
module OrderedDict {
  import opened Prelude

  datatype Item<K, V> = Item(key: K, value: V)

  function Get<K(==), V>(d: seq<Item<K, V>>, k: K): Option<V> {
    if d == [] then None
    else if d[0].key == k then Some(d[0].value)
    else Get(d[1..], k)
  }

  function Put<K(==), V>(d: seq<Item<K, V>>, k: K, v: V): seq<Item<K, V>> {
    if d == [] then [Item(k, v)]
    else if d[0].key == k then [Item(k, v)] + d[1..]
    else [d[0]] + Put(d[1..], k, v)
  }

  function Keys<K, V>(d: seq<Item<K, V>>): seq<K> {
    seq(|d|, i requires 0 <= i < |d| => d[i].key)
  }

  ghost predicate Distinct<K(!new)>(ks: seq<K>) {
    forall i, j :: 0 <= i < j < |ks| ==> ks[i] != ks[j]
  }

  lemma {:induction false} GetPut<K, V>(d: seq<Item<K, V>>, k: K, v: V, k': K)
    ensures Get(Put(d, k, v), k') == if k' == k then Some(v) else Get(d, k')
  {
    if d != [] && d[0].key != k {
      GetPut(d[1..], k, v, k');
      assert Put(d, k, v)[1..] == Put(d[1..], k, v);
    } else if d != [] {
      assert Put(d, k, v)[1..] == d[1..];
    }
  }

  lemma {:induction false} KeysPut<K, V>(d: seq<Item<K, V>>, k: K, v: V)
    ensures Keys(Put(d, k, v)) == if k in Keys(d) then Keys(d) else Keys(d) + [k]
  {
    if d != [] {
      assert Keys(d) == [d[0].key] + Keys(d[1..]);
      if d[0].key != k {
        KeysPut(d[1..], k, v);
        assert Keys(Put(d, k, v)) == [d[0].key] + Keys(Put(d[1..], k, v));
      } else {
        assert Keys(Put(d, k, v)) == [k] + Keys(d[1..]);
      }
    }
  }

  lemma {:induction false} GetIffKey<K, V>(d: seq<Item<K, V>>, k: K)
    ensures Get(d, k).Some? <==> k in Keys(d)
    ensures Get(d, k).Some? ==> Item(k, Get(d, k).value) in d
  {
    if d != [] {
      assert Keys(d) == [d[0].key] + Keys(d[1..]);
      GetIffKey(d[1..], k);
    }
  }

  lemma {:induction false} GetOfItem<K(!new), V>(d: seq<Item<K, V>>, i: nat)
    requires i < |d| && Distinct(Keys(d))
    ensures Get(d, d[i].key) == Some(d[i].value)
  {
    if i > 0 {
      assert Keys(d)[0] != Keys(d)[i];
      assert Keys(d[1..]) == Keys(d)[1..];
      GetOfItem(d[1..], i - 1);
    }
  }

  lemma PutKeepsDistinct<K(!new), V>(d: seq<Item<K, V>>, k: K, v: V)
    requires Distinct(Keys(d))
    ensures Distinct(Keys(Put(d, k, v)))
  {
    KeysPut(d, k, v);
  }
}
