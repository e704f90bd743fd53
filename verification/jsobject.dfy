/** A plain JavaScript object used as a dictionary (`images`, `resultsMap`,
    `annotatedMap`, ...): its own properties in insertion order, each key once.
    `Object.entries(o)` is the sequence itself. */
module JsObject {
  import opened Wrappers

  type Obj<K, V> = seq<(K, V)>

  /** `Object.keys(o)`, as a set. */
  function Keys<K, V>(o: Obj<K, V>): (ks: set<K>)
    ensures forall i :: 0 <= i < |o| ==> o[i].0 in ks
    ensures forall k :: k in ks ==> exists i :: 0 <= i < |o| && o[i].0 == k
  {
    if |o| == 0 then {} else {o[0].0} + Keys(o[1..])
  }

  /** No key is listed twice, as in every JavaScript object. */
  predicate Wf<K(==), V>(o: Obj<K, V>) {
    |o| == 0 || (o[0].0 !in Keys(o[1..]) && Wf(o[1..]))
  }

  /** `o[k]`, with `undefined` for a missing key as `None`. */
  function Get<K(==), V>(o: Obj<K, V>, k: K): (r: Option<V>)
    ensures r.Some? <==> k in Keys(o)
    ensures r.Some? ==> (k, r.value) in o
  {
    if |o| == 0 then None
    else if o[0].0 == k then Some(o[0].1)
    else Get(o[1..], k)
  }

  /** `{ ...o, [k]: v }`: an existing key keeps its place and takes the new
      value, a new key is appended. */
  function Put<K(==, !new), V>(o: Obj<K, V>, k: K, v: V): (r: Obj<K, V>)
    ensures Keys(r) == Keys(o) + {k}
    ensures Get(r, k) == Some(v)
    ensures forall k' :: k' != k ==> Get(r, k') == Get(o, k')
    ensures Wf(o) ==> Wf(r)
    ensures |r| == if k in Keys(o) then |o| else |o| + 1
  {
    if |o| == 0 then [(k, v)]
    else if o[0].0 == k then
      assert ([(k, v)] + o[1..])[1..] == o[1..];
      [(k, v)] + o[1..]
    else
      var r := [o[0]] + Put(o[1..], k, v);
      assert r[1..] == Put(o[1..], k, v);
      r
  }

  /** Every listed entry is what a lookup of its key returns. */
  lemma {:induction false} GetEntry<K, V>(o: Obj<K, V>, i: nat)
    requires Wf(o) && i < |o|
    ensures Get(o, o[i].0) == Some(o[i].1)
  {
    if i > 0 {
      assert o[1..][i - 1] == o[i];
      GetEntry(o[1..], i - 1);
    }
  }

  /** Keys are distinct, so there are as many keys as entries. */
  lemma {:induction false} KeyCount<K, V>(o: Obj<K, V>)
    requires Wf(o)
    ensures |Keys(o)| == |o|
  {
    if |o| > 0 {
      KeyCount(o[1..]);
    }
  }

  /** Two different positions of a well-formed object hold different keys. */
  lemma {:induction false} KeysDistinct<K, V>(o: Obj<K, V>, i: nat, j: nat)
    requires Wf(o) && i < |o| && j < |o| && i != j
    ensures o[i].0 != o[j].0
  {
    if i > 0 && j > 0 {
      KeysDistinct(o[1..], i - 1, j - 1);
    } else if i == 0 {
      assert o[j] == o[1..][j - 1];
    } else {
      assert o[i] == o[1..][i - 1];
    }
  }

  /** Two well-formed objects with the same keys have as many entries. */
  lemma SameKeysSameSize<K, V, W>(a: Obj<K, V>, b: Obj<K, W>)
    requires Wf(a) && Wf(b) && Keys(a) == Keys(b)
    ensures |a| == |b|
  {
    KeyCount(a);
    KeyCount(b);
  }
}
