/**
 * Python dicts as insertion-ordered association lists.  A dict built by the
 * program never holds the same key twice; `Put` keeps it that way.
 */
module Dicts {
  import opened Outcomes

  type Dict<K, V> = seq<(K, V)>

  /** The keys in insertion order, as `list(d)` lists them. */
  function Keys<K, V>(d: Dict<K, V>): (ks: seq<K>)
    ensures |ks| == |d|
    ensures forall i :: 0 <= i < |d| ==> ks[i] == d[i].0
  {
    if d == [] then [] else [d[0].0] + Keys(d[1..])
  }

  /** The values in insertion order, as `d.values()` yields them. */
  function Values<K, V>(d: Dict<K, V>): (vs: seq<V>)
    ensures |vs| == |d|
    ensures forall i :: 0 <= i < |d| ==> vs[i] == d[i].1
  {
    if d == [] then [] else [d[0].1] + Values(d[1..])
  }

  predicate DistinctKeys<K(==,!new), V>(d: Dict<K, V>)
  {
    forall i, j :: 0 <= i < j < |d| ==> d[i].0 != d[j].0
  }

  /** `d[k]` when present (the first entry with that key), `None` otherwise. */
  function Get<K(==,!new), V>(d: Dict<K, V>, k: K): (r: Option<V>)
    ensures r.Some? <==> k in Keys(d)
    ensures r.Some? ==> exists i :: 0 <= i < |d| && d[i].0 == k && d[i].1 == r.value
  {
    if d == [] then None
    else if d[0].0 == k then Some(d[0].1)
    else
      assert Keys(d) == [d[0].0] + Keys(d[1..]);
      var r := Get(d[1..], k);
      assert forall i :: 0 <= i < |d[1..]| ==> d[1..][i] == d[i + 1];
      r
  }

  /**
   * `d[k] = v`: an existing key keeps its place and takes the new value, a
   * new key is appended at the end.
   */
  function Put<K(==,!new), V>(d: Dict<K, V>, k: K, v: V): (r: Dict<K, V>)
    ensures Keys(r) == if k in Keys(d) then Keys(d) else Keys(d) + [k]
  {
    if d == [] then [(k, v)]
    else if d[0].0 == k then
      var r := [(k, v)] + d[1..];
      KeysCons((k, v), d[1..]);
      KeysCons(d[0], d[1..]);
      r
    else
      var tail := Put(d[1..], k, v);
      var r := [d[0]] + tail;
      KeysCons(d[0], tail);
      KeysCons(d[0], d[1..]);
      assert r[1..] == tail;
      r
  }

  /** The keys of an entry followed by a dict. */
  lemma KeysCons<K, V>(entry: (K, V), rest: Dict<K, V>)
    ensures Keys([entry] + rest) == [entry.0] + Keys(rest)
  {
    assert ([entry] + rest)[1..] == rest;
  }

  /** The keys of a four-entry dict literal, in order. */
  lemma Keys4<K, V>(e0: (K, V), e1: (K, V), e2: (K, V), e3: (K, V))
    ensures Keys([e0, e1, e2, e3]) == [e0.0, e1.0, e2.0, e3.0]
  {
    KeysCons(e3, []);
    KeysCons(e2, [e3]);
    KeysCons(e1, [e2, e3]);
    KeysCons(e0, [e1, e2, e3]);
    assert [e0, e1, e2, e3] == [e0] + ([e1] + ([e2] + [e3]));
  }

  /** After `d[k] = v`, `k` reads `v` and every other key reads what it read before. */
  lemma {:induction false} PutGet<K(!new), V>(d: Dict<K, V>, k: K, v: V)
    ensures Get(Put(d, k, v), k) == Some(v)
    ensures forall k' :: k' != k ==> Get(Put(d, k, v), k') == Get(d, k')
  {
    if d != [] {
      assert d == [d[0]] + d[1..];
      GetConsAll(d[0], d[1..]);
      if d[0].0 == k {
        GetConsAll((k, v), d[1..]);
      } else {
        PutGet(d[1..], k, v);
        GetConsAll(d[0], Put(d[1..], k, v));
      }
    }
  }

  /** Putting a key keeps a dict free of duplicate keys. */
  lemma {:induction false} PutKeepsDistinct<K(!new), V>(d: Dict<K, V>, k: K, v: V)
    requires DistinctKeys(d)
    ensures DistinctKeys(Put(d, k, v))
  {
    var r := Put(d, k, v);
    var ks := Keys(r);
    forall i, j | 0 <= i < j < |r|
      ensures r[i].0 != r[j].0
    {
      assert ks[i] == r[i].0 && ks[j] == r[j].0;
      if k in Keys(d) {
        assert ks == Keys(d);
        assert Keys(d)[i] == d[i].0 && Keys(d)[j] == d[j].0;
      } else {
        assert ks == Keys(d) + [k];
        if j < |d| {
          assert Keys(d)[i] == d[i].0 && Keys(d)[j] == d[j].0;
        } else {
          assert ks[j] == k && ks[i] == Keys(d)[i];
        }
      }
    }
  }

  /** An entry whose key no earlier entry has is what `Get` finds. */
  lemma {:induction false} GetFirst<K(!new), V>(d: Dict<K, V>, i: nat)
    requires i < |d| && forall j :: 0 <= j < i ==> d[j].0 != d[i].0
    ensures Get(d, d[i].0) == Some(d[i].1)
  {
    if i > 0 {
      assert d[1..][i - 1] == d[i];
      GetFirst(d[1..], i - 1);
    }
  }

  /** A key is looked up in the first entry, then in the rest. */
  lemma GetCons<K(!new), V>(entry: (K, V), rest: Dict<K, V>, k: K)
    ensures Get([entry] + rest, k) == if entry.0 == k then Some(entry.1) else Get(rest, k)
  {
    assert ([entry] + rest)[1..] == rest;
  }

  /** `GetCons` for every key at once. */
  lemma GetConsAll<K(!new), V>(entry: (K, V), rest: Dict<K, V>)
    ensures forall k :: Get([entry] + rest, k) == if entry.0 == k then Some(entry.1) else Get(rest, k)
  {
    forall k {
      GetCons(entry, rest, k);
    }
  }

  /** The number of entries grows by one exactly when the key is new. */
  lemma PutSize<K(!new), V>(d: Dict<K, V>, k: K, v: V)
    ensures |Put(d, k, v)| == if Get(d, k).Some? then |d| else |d| + 1
  {
    assert |Keys(Put(d, k, v))| == |Put(d, k, v)|;
  }
}
