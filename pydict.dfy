/** A Python `dict` as the sequence of its items in insertion order. */
module PyDict {
  import opened Wrappers

  type Dict<K, V> = seq<(K, V)>

  /** `list(d.keys())` */
  function Keys<K, V>(d: Dict<K, V>): (ks: seq<K>)
    ensures |ks| == |d| && forall i :: 0 <= i < |d| ==> ks[i] == d[i].0
  {
    if d == [] then [] else [d[0].0] + Keys(d[1..])
  }

  /** Every key occurs once, as in a real dict. */
  predicate DistinctKeys<K(==), V>(d: Dict<K, V>) {
    forall i, j :: 0 <= i < j < |d| ==> d[i].0 != d[j].0
  }

  /** `d.get(k)`, with `None` for an absent key. */
  function Get<K(==), V>(d: Dict<K, V>, k: K): (r: Option<V>)
    ensures r.None? <==> k !in Keys(d)
  {
    if d == [] then None
    else if d[0].0 == k then Some(d[0].1)
    else Get(d[1..], k)
  }

  /** The keys of a dict are those of all its items but the last, then the last one's. */
  lemma {:induction false} KeysSnoc<K, V>(d: Dict<K, V>)
    requires d != []
    ensures Keys(d) == Keys(d[..|d| - 1]) + [d[|d| - 1].0]
  {
    var n := |d| - 1;
    if n == 0 {
      assert d[..n] == [];
    } else {
      var tail := d[1..];
      KeysSnoc(tail);
      assert tail[..n - 1] == d[..n][1..];
      assert Keys(d[..n]) == [d[0].0] + Keys(d[..n][1..]);
    }
  }

  /** In a dict with distinct keys, `d.get` finds the value stored beside the key. */
  lemma {:induction false} GetAt<K, V>(d: Dict<K, V>, i: nat)
    requires DistinctKeys(d) && i < |d|
    ensures Get(d, d[i].0) == Some(d[i].1)
  {
    if i > 0 {
      GetAt(d[1..], i - 1);
    }
  }

  /** `r` is `d` after `d[k] = v`: `k` maps to `v`, every other key keeps its value,
      and the key order is kept, with a new key at the end. */
  ghost predicate Assigned<K(!new), V>(d: Dict<K, V>, k: K, v: V, r: Dict<K, V>) {
    && Get(r, k) == Some(v)
    && (forall k' :: k' != k ==> Get(r, k') == Get(d, k'))
    && (k in Keys(d) ==> Keys(r) == Keys(d))
    && (k !in Keys(d) ==> Keys(r) == Keys(d) + [k])
  }

  /** `d[k] = v`: an existing key keeps its place, a new one goes to the end. */
  function Put<K(==, !new), V>(d: Dict<K, V>, k: K, v: V): (r: Dict<K, V>)
    ensures Get(r, k) == Some(v)
    ensures forall k' :: k' != k ==> Get(r, k') == Get(d, k')
    ensures k in Keys(d) ==> Keys(r) == Keys(d)
    ensures k !in Keys(d) ==> Keys(r) == Keys(d) + [k]
  {
    if d == [] then [(k, v)]
    else if d[0].0 == k then
      PutAtHead(d, k, v);
      [(k, v)] + d[1..]
    else
      var t := Put(d[1..], k, v);
      PutBehindHead(d, k, v, t);
      [d[0]] + t
  }

  lemma PutAtHead<K(!new), V>(d: Dict<K, V>, k: K, v: V)
    requires d != [] && d[0].0 == k
    ensures Assigned(d, k, v, [(k, v)] + d[1..])
  {
    var r := [(k, v)] + d[1..];
    assert r[1..] == d[1..];
    assert Keys(r) == [k] + Keys(d[1..]);
  }

  lemma PutBehindHead<K(!new), V>(d: Dict<K, V>, k: K, v: V, t: Dict<K, V>)
    requires d != [] && d[0].0 != k && Assigned(d[1..], k, v, t)
    ensures Assigned(d, k, v, [d[0]] + t)
  {
    ConsFacts(d[0], t);
    ConsFacts(d[0], d[1..]);
    assert [d[0]] + d[1..] == d;
  }

  /** Looking up, and listing the keys of, a dict with one more item in front. */
  lemma ConsFacts<K(!new), V>(x: (K, V), t: Dict<K, V>)
    ensures Keys([x] + t) == [x.0] + Keys(t)
    ensures forall k' :: Get([x] + t, k') == if x.0 == k' then Some(x.1) else Get(t, k')
  {
    assert ([x] + t)[1..] == t;
  }

  /** Assigning to a key never duplicates a key. */
  lemma PutKeepsDistinct<K(!new), V>(d: Dict<K, V>, k: K, v: V)
    requires DistinctKeys(d)
    ensures DistinctKeys(Put(d, k, v))
  {
    var r := Put(d, k, v);
    assert Keys(r) == Keys(d) || Keys(r) == Keys(d) + [k];
    forall i, j | 0 <= i < j < |r| ensures r[i].0 != r[j].0 {
      assert Keys(r)[i] == r[i].0 && Keys(r)[j] == r[j].0;
      if j == |d| {
        assert Keys(r)[j] == k;
        assert Keys(d)[i] in Keys(d);
      } else {
        assert Keys(d)[i] == d[i].0;
      }
    }
  }

  /** Whether the keys are distinct depends on the key list alone. */
  lemma SameKeysDistinct<K, V, W>(a: Dict<K, V>, b: Dict<K, W>)
    requires Keys(a) == Keys(b) && DistinctKeys(a)
    ensures DistinctKeys(b)
  {
    forall i, j | 0 <= i < j < |b| ensures b[i].0 != b[j].0 {
      assert Keys(a)[i] == a[i].0 && Keys(a)[j] == a[j].0;
    }
  }

  /** Assigning to a key that is present overwrites its item in place. */
  lemma {:induction false} PutExisting<K(!new), V>(d: Dict<K, V>, j: nat, v: V)
    requires DistinctKeys(d) && j < |d|
    ensures Put(d, d[j].0, v) == d[j := (d[j].0, v)]
  {
    var k := d[j].0;
    if d[0].0 != k {
      assert j > 0;
      assert DistinctKeys(d[1..]);
      assert d[1..][j - 1] == d[j];
      PutExisting(d[1..], j - 1, v);
      assert Put(d, k, v) == [d[0]] + Put(d[1..], k, v);
      assert d[j := (k, v)] == [d[0]] + d[1..][j - 1 := (k, v)];
    } else {
      assert j == 0;
      assert d[j := (k, v)] == [(k, v)] + d[1..];
    }
  }

  /** Assigning to an absent key appends one item. */
  lemma {:induction false} PutNew<K(!new), V>(d: Dict<K, V>, k: K, v: V)
    requires k !in Keys(d)
    ensures Put(d, k, v) == d + [(k, v)]
  {
    if d != [] {
      ConsFacts(d[0], d[1..]);
      assert [d[0]] + d[1..] == d;
      PutNew(d[1..], k, v);
      assert d + [(k, v)] == [d[0]] + (d[1..] + [(k, v)]);
    }
  }

}
