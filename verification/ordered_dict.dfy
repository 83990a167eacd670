/** A Python `dict`: key/value pairs kept in insertion order, each key at
    most once. Assigning to a present key replaces its value in place;
    assigning to a new key appends the pair. */
module OrderedDict {

  type Dict<K, V> = seq<(K, V)>

  /** The keys in iteration order (`d.keys()`). */
  function Keys<K, V>(d: Dict<K, V>): seq<K> {
    seq(|d|, i requires 0 <= i < |d| => d[i].0)
  }

  predicate DistinctKeys<K(==), V>(d: Dict<K, V>) {
    forall i, j :: 0 <= i < j < |d| ==> d[i].0 != d[j].0
  }

  /** `d[k] = v`. */
  function Put<K(==), V>(d: Dict<K, V>, k: K, v: V): Dict<K, V>
    decreases |d|
  {
    if |d| == 0 then [(k, v)]
    else if d[0].0 == k then [(k, v)] + d[1..]
    else [d[0]] + Put(d[1..], k, v)
  }

  /** The mapping a dictionary stands for, forgetting the order. */
  function ToMap<K, V>(d: Dict<K, V>): map<K, V>
    decreases |d|
  {
    if |d| == 0 then map[] else ToMap(d[1..])[d[0].0 := d[0].1]
  }

  /** A dictionary without repeated keys has one map entry per pair, and
      looking a key up finds the value stored with it. */
  lemma {:induction false} ToMapOfDistinct<K, V>(d: Dict<K, V>)
    requires DistinctKeys(d)
    ensures |ToMap(d)| == |d|
    ensures forall k :: k in ToMap(d) <==> k in Keys(d)
    ensures forall i :: 0 <= i < |d| ==> d[i].0 in ToMap(d) && ToMap(d)[d[i].0] == d[i].1
    decreases |d|
  {
    if |d| > 0 {
      var tail := d[1..];
      ToMapOfDistinct(tail);
      assert Keys(d) == [d[0].0] + Keys(tail);
      forall j | 0 <= j < |tail| ensures Keys(tail)[j] != d[0].0 {
        assert tail[j] == d[j + 1];
      }
      forall i | 1 <= i < |d| ensures d[i].0 in ToMap(d) && ToMap(d)[d[i].0] == d[i].1 {
        assert d[i] == tail[i - 1];
      }
    }
  }

  /** `d[k] = v` keeps the keys distinct, updates the mapping at `k` alone,
      appends a new key at the end and leaves the order of the keys alone
      when `k` was already present. */
  lemma {:induction false} PutSpec<K, V>(d: Dict<K, V>, k: K, v: V)
    requires DistinctKeys(d)
    ensures DistinctKeys(Put(d, k, v))
    ensures ToMap(Put(d, k, v)) == ToMap(d)[k := v]
    ensures k !in Keys(d) ==> Put(d, k, v) == d + [(k, v)]
    ensures k in Keys(d) ==> Keys(Put(d, k, v)) == Keys(d)
    decreases |d|
  {
    if |d| > 0 {
      var tail := d[1..];
      var r := Put(d, k, v);
      assert Keys(d) == [d[0].0] + Keys(tail);
      if d[0].0 == k {
        assert r[1..] == tail;
        assert Keys(r) == Keys(d);
      } else {
        PutSpec(tail, k, v);
        var rt := Put(tail, k, v);
        assert r[1..] == rt;
        assert Keys(r) == [d[0].0] + Keys(rt);
        forall j | 0 <= j < |tail| ensures Keys(tail)[j] != d[0].0 {
          assert tail[j] == d[j + 1];
        }
        assert d[0].0 !in Keys(rt) by {
          if k in Keys(tail) {
            assert Keys(rt) == Keys(tail);
          } else {
            assert Keys(rt) == Keys(tail) + [k];
          }
        }
        forall i, j | 0 <= i < j < |r| ensures r[i].0 != r[j].0 {
          if i == 0 {
            assert r[j].0 == Keys(rt)[j - 1];
          } else {
            assert r[i] == rt[i - 1] && r[j] == rt[j - 1];
          }
        }
        assert ToMap(r) == ToMap(d)[k := v];
        if k !in Keys(d) {
          assert [d[0]] + (tail + [(k, v)]) == d + [(k, v)];
        }
      }
    }
  }
}
