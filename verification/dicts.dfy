/** Python dictionaries as insertion-ordered association sequences.

    A Python `dict` remembers the order in which keys were first inserted;
    assigning to a key that is already present replaces its value but keeps
    its position. `Dict<K, V>` is that: a sequence of (key, value) pairs,
    each key at most once when built with `Put` from the empty sequence.
 */
module Dicts {

  datatype Option<T> = None | Some(value: T) {
    /** `d.get(k, default)` once the lookup is done */
    function GetOr(default: T): T {
      if Some? then value else default
    }
  }

  type Dict<K, V> = seq<(K, V)>

  /** `d.keys()` in insertion order */
  function Keys<K, V>(d: Dict<K, V>): seq<K> {
    seq(|d|, i requires 0 <= i < |d| => d[i].0)
  }

  /** `d.values()` in insertion order */
  function Values<K, V>(d: Dict<K, V>): seq<V> {
    seq(|d|, i requires 0 <= i < |d| => d[i].1)
  }

  predicate Distinct<T(==)>(s: seq<T>) {
    forall i, j :: 0 <= i < j < |s| ==> s[i] != s[j]
  }

  lemma KeysLast<K, V>(d: Dict<K, V>)
    requires d != []
    ensures Keys(d) == Keys(d[..|d| - 1]) + [d[|d| - 1].0]
  {
  }

  lemma KeysTail<K, V>(d: Dict<K, V>)
    requires d != []
    ensures Keys(d) == [d[0].0] + Keys(d[1..])
  {
  }

  /** `d.get(k)`: the value stored under `k`, or None when `k` is not a key */
  function Get<K(==), V>(d: Dict<K, V>, k: K): (r: Option<V>)
    ensures r.Some? <==> k in Keys(d)
    ensures r.Some? ==> (k, r.value) in d
  {
    if d == [] then None
    else
      KeysTail(d);
      if d[0].0 == k then Some(d[0].1) else Get(d[1..], k)
  }

  /** `d[k] = v`: a new key goes to the end, an existing key keeps its place */
  function Put<K(==,!new), V>(d: Dict<K, V>, k: K, v: V): (r: Dict<K, V>)
    ensures Keys(r) == if k in Keys(d) then Keys(d) else Keys(d) + [k]
    ensures Get(r, k) == Some(v)
    ensures forall k' :: k' != k ==> Get(r, k') == Get(d, k')
  {
    if d == [] then [(k, v)]
    else if d[0].0 == k then
      KeysTail(d);
      var r := [(k, v)] + d[1..];
      KeysTail(r);
      r
    else
      KeysTail(d);
      var r := [d[0]] + Put(d[1..], k, v);
      KeysTail(r);
      r
  }

  /** A dictionary built by assignments never holds a key twice. */
  lemma PutDistinct<K(!new), V>(d: Dict<K, V>, k: K, v: V)
    requires Distinct(Keys(d))
    ensures Distinct(Keys(Put(d, k, v)))
  {
  }

  /** `if k not in d: d[k] = []` followed by `d[k].extend(vs)` */
  function Extend<K(==,!new), V>(d: Dict<K, seq<V>>, k: K, vs: seq<V>): Dict<K, seq<V>> {
    Put(d, k, Get(d, k).GetOr([]) + vs)
  }

  lemma ExtendGet<K(!new), V>(d: Dict<K, seq<V>>, k: K, vs: seq<V>, a: K)
    ensures Get(Extend(d, k, vs), a) == if a == k then Some(Get(d, k).GetOr([]) + vs) else Get(d, a)
  {
  }

  /** The elements of `xs` in order of first occurrence */
  function Dedup<T(==,!new)>(xs: seq<T>): (r: seq<T>)
    ensures Distinct(r)
    ensures forall x :: x in r <==> x in xs
  {
    if xs == [] then []
    else
      var n := |xs| - 1;
      var d := Dedup(xs[..n]);
      assert xs == xs[..n] + [xs[n]];
      if xs[n] in d then d else d + [xs[n]]
  }
}
