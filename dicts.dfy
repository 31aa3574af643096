/**
 * String-keyed dictionaries with the ordering of a JavaScript object: keys are
 * enumerated in insertion order, writing an existing key keeps its position and
 * writing a new key appends it.
 */
module Dicts {
  import opened Wrappers

  type Dict<V> = seq<(string, V)>

  function Keys<V>(d: Dict<V>): seq<string>
  {
    seq(|d|, i requires 0 <= i < |d| => d[i].0)
  }

  ghost predicate DistinctKeys<V>(d: Dict<V>)
  {
    forall i, j :: 0 <= i < j < |d| ==> d[i].0 != d[j].0
  }

  /** Position of the first entry with key `k`, or -1. */
  function FindKey<V>(d: Dict<V>, k: string): (i: int)
    ensures -1 <= i < |d|
    ensures 0 <= i ==> d[i].0 == k && forall j :: 0 <= j < i ==> d[j].0 != k
    ensures i < 0 ==> forall j :: 0 <= j < |d| ==> d[j].0 != k
  {
    if d == [] then -1
    else if d[0].0 == k then 0
    else
      var i := FindKey(d[1..], k);
      if i < 0 then -1 else i + 1
  }

  predicate HasKey<V>(d: Dict<V>, k: string)
  {
    0 <= FindKey(d, k)
  }

  /** `d[k]`: the value stored under `k`, if any. */
  function Lookup<V>(d: Dict<V>, k: string): Option<V>
  {
    var i := FindKey(d, k);
    if i < 0 then None else Some(d[i].1)
  }

  /** `d[k] = v`: overwrite in place, or append a new key. */
  function Put<V>(d: Dict<V>, k: string, v: V): Dict<V>
  {
    var i := FindKey(d, k);
    if i < 0 then d + [(k, v)] else d[i := (k, v)]
  }

  /** After `d[k] = v`, `k` holds `v` and every other key holds what it held. */
  lemma PutLookup<V>(d: Dict<V>, k: string, v: V)
    ensures Lookup(Put(d, k, v), k) == Some(v)
    ensures forall k' :: k' != k ==> Lookup(Put(d, k, v), k') == Lookup(d, k')
  {
    var r := Put(d, k, v);
    if FindKey(d, k) < 0 {
      assert r[|d|].0 == k;
      FindKeyOfSameKeys(d, r[..|d|]);
      forall k' | k' != k ensures FindKey(r, k') == FindKey(d, k') {
        FindKeyOfPrefix(r, |d|, k');
      }
    } else {
      FindKeyOfSameKeys(d, r);
    }
  }

  /** `d[k] = v` keeps the key order: an existing key stays where it is, a new one goes last. */
  lemma PutKeys<V>(d: Dict<V>, k: string, v: V)
    ensures Keys(Put(d, k, v)) == if HasKey(d, k) then Keys(d) else Keys(d) + [k]
    ensures DistinctKeys(d) ==> DistinctKeys(Put(d, k, v))
  {
  }

  /** After `d[k] = v` the keys are the old keys and `k`. */
  lemma PutInKeys<V>(d: Dict<V>, k: string, v: V, key: string)
    ensures key in Keys(Put(d, k, v)) <==> key in Keys(d) || key == k
  {
    PutKeys(d, k, v);
    if HasKey(d, k) {
      assert Keys(d)[FindKey(d, k)] == k;
    }
  }

  /** `FindKey` looks only at keys. */
  lemma FindKeyOfSameKeys<V>(a: Dict<V>, b: Dict<V>)
    requires |a| == |b| && forall j :: 0 <= j < |a| ==> a[j].0 == b[j].0
    ensures forall k :: FindKey(a, k) == FindKey(b, k)
  {
    forall k ensures FindKey(a, k) == FindKey(b, k) {
    }
  }

  /** A key absent from the last entries is found where it is found in the prefix. */
  lemma FindKeyOfPrefix<V>(d: Dict<V>, n: nat, k: string)
    requires n <= |d| && forall j :: n <= j < |d| ==> d[j].0 != k
    ensures FindKey(d, k) == FindKey(d[..n], k)
  {
    var i, i' := FindKey(d, k), FindKey(d[..n], k);
    if i >= 0 { assert d[..n][i].0 == k; }
    if i' >= 0 { assert d[i'].0 == k; }
  }

  lemma InKeys<V>(d: Dict<V>, k: string)
    ensures k in Keys(d) <==> exists j :: 0 <= j < |d| && d[j].0 == k
  {
    if exists j :: 0 <= j < |d| && d[j].0 == k {
      var j :| 0 <= j < |d| && d[j].0 == k;
      assert Keys(d)[j] == k;
    }
  }

  /** Writes every entry of `es` into `d`, first to last (a `forEach` of assignments, or a spread). */
  function PutAll<V>(d: Dict<V>, es: Dict<V>): Dict<V>
  {
    if es == [] then d
    else
      var last := es[|es| - 1];
      Put(PutAll(d, es[..|es| - 1]), last.0, last.1)
  }

  lemma PutAllSnoc<V>(d: Dict<V>, es: Dict<V>, k: string, v: V)
    ensures PutAll(d, es + [(k, v)]) == Put(PutAll(d, es), k, v)
  {
    assert (es + [(k, v)])[..|es|] == es;
  }

  /** The value of the last entry of `es` with key `k`: the one a left-to-right write sequence leaves. */
  function LastValue<V>(es: Dict<V>, k: string): (r: Option<V>)
    ensures r.Some? <==> k in Keys(es)
  {
    if es == [] then None
    else if es[|es| - 1].0 == k then
      assert Keys(es)[|es| - 1] == k;
      Some(es[|es| - 1].1)
    else
      InKeys(es, k);
      InKeys(es[..|es| - 1], k);
      LastValue(es[..|es| - 1], k)
  }

  /** After writing `es` into `d`, a key holds the last value written for it, or its old value. */
  lemma {:induction false} PutAllLookup<V>(d: Dict<V>, es: Dict<V>, k: string)
    ensures Lookup(PutAll(d, es), k) == if k in Keys(es) then LastValue(es, k) else Lookup(d, k)
  {
    if es != [] {
      var init := es[..|es| - 1];
      PutAllLookup(d, init, k);
      PutLookup(PutAll(d, init), es[|es| - 1].0, es[|es| - 1].1);
      assert forall j :: 0 <= j < |init| ==> Keys(init)[j] == Keys(es)[j];
      InKeys(es, k);
      InKeys(init, k);
    }
  }

  /** Writing entries never moves or removes a key: the old keys stay a prefix. */
  lemma {:induction false} PutAllKeysPrefix<V>(d: Dict<V>, es: Dict<V>)
    ensures Keys(d) <= Keys(PutAll(d, es))
    ensures DistinctKeys(d) ==> DistinctKeys(PutAll(d, es))
  {
    if es != [] {
      PutAllKeysPrefix(d, es[..|es| - 1]);
      PutKeys(PutAll(d, es[..|es| - 1]), es[|es| - 1].0, es[|es| - 1].1);
    }
  }

  /** With distinct keys, the first match is the only match. */
  lemma LookupDistinct<V>(d: Dict<V>, i: int)
    requires DistinctKeys(d) && 0 <= i < |d|
    ensures Lookup(d, d[i].0) == Some(d[i].1)
  {
  }

  /** With distinct keys, the last value written for a key is the one `Lookup` finds. */
  lemma {:induction false} LastValueDistinct<V>(es: Dict<V>, k: string)
    requires DistinctKeys(es)
    ensures LastValue(es, k) == Lookup(es, k)
  {
    if es != [] {
      var init := es[..|es| - 1];
      LastValueDistinct(init, k);
      if es[|es| - 1].0 != k {
        var i := FindKey(es, k);
        var i' := FindKey(init, k);
        assert i' >= 0 ==> i == i';
        assert i >= 0 ==> i < |init| && init[i].0 == k;
      }
    }
  }
}
