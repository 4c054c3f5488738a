/** A plain JavaScript object used as a dictionary whose keys are all array
    indices (non-negative integers below 2^32 - 1). Section 10.1.11.1 of
    ECMAScript 2023 (OrdinaryOwnPropertyKeys) lists such keys in ascending
    numeric order whatever order they were added in, so the object is kept
    as its entries sorted by key. */
module JsObject {
  import opened Wrappers

  datatype IndexedObject<V> = IndexedObject(entries: seq<(int, V)>)

  /** Entries strictly ascending by key: what the key-ordering rule guarantees. */
  predicate Valid<V>(o: IndexedObject<V>) {
    forall i, j :: 0 <= i < j < |o.entries| ==> o.entries[i].0 < o.entries[j].0
  }

  /** `Object.keys(o)`, numbers instead of strings (`Number.parseInt` undoes
      the conversion for array-index keys). */
  function Keys<V>(o: IndexedObject<V>): (ks: seq<int>)
    ensures |ks| == |o.entries|
    ensures forall i :: 0 <= i < |ks| ==> ks[i] == o.entries[i].0
    decreases |o.entries|
  {
    if o.entries == [] then [] else [o.entries[0].0] + Keys(IndexedObject(o.entries[1..]))
  }

  /** `o[k]`, absent as None. */
  function Get<V>(o: IndexedObject<V>, k: int): (r: Option<V>)
    ensures r.None? <==> forall i :: 0 <= i < |o.entries| ==> o.entries[i].0 != k
    ensures r.Some? ==> exists i :: 0 <= i < |o.entries| && o.entries[i] == (k, r.value)
    decreases |o.entries|
  {
    if o.entries == [] then None
    else if o.entries[0].0 == k then Some(o.entries[0].1)
    else Get(IndexedObject(o.entries[1..]), k)
  }

  /** `o[k] = v`: replaces the value of an existing key, otherwise inserts
      the key at its place in the ascending order. */
  function Set<V>(o: IndexedObject<V>, k: int, v: V): (r: IndexedObject<V>)
    requires Valid(o)
    ensures Valid(r)
    ensures forall i :: 0 <= i < |r.entries| ==>
              r.entries[i].0 == k || exists j :: 0 <= j < |o.entries| && o.entries[j].0 == r.entries[i].0
    ensures forall j :: Get(r, j) == if j == k then Some(v) else Get(o, j)
    decreases |o.entries|
  {
    var es := o.entries;
    if es == [] then IndexedObject([(k, v)])
    else if es[0].0 == k then IndexedObject([(k, v)] + es[1..])
    else if k < es[0].0 then IndexedObject([(k, v)] + es)
    else
      var tail := Set(IndexedObject(es[1..]), k, v);
      var r := IndexedObject([es[0]] + tail.entries);
      assert forall j :: j != es[0].0 ==> Get(r, j) == Get(tail, j);
      r
  }

  /** Setting a key above every present key appends it. */
  lemma {:induction false} SetAbove<V>(o: IndexedObject<V>, k: int, v: V)
    requires Valid(o)
    requires forall i :: 0 <= i < |o.entries| ==> o.entries[i].0 < k
    ensures Set(o, k, v).entries == o.entries + [(k, v)]
    decreases |o.entries|
  {
    if o.entries != [] {
      assert o.entries == [o.entries[0]] + o.entries[1..];
      SetAbove(IndexedObject(o.entries[1..]), k, v);
    }
  }
}
