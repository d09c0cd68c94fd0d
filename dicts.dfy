/**
 * An insertion-ordered dictionary with string keys, as the results of the
 * seasonal loops are kept: assigning to a present key replaces its value in
 * place, assigning to a new key appends it, and iteration follows insertion
 * order.
 */
module Dicts {
  import opened Wrappers

  /** The keys in iteration order. */
  function Keys<V>(d: seq<(string, V)>): seq<string>
  {
    seq(|d|, i requires 0 <= i < |d| => d[i].0)
  }

  lemma KeysAppend<V>(d: seq<(string, V)>, k: string, v: V)
    ensures Keys(d + [(k, v)]) == Keys(d) + [k]
  {
  }

  /** The value filed under `k`, if any. */
  function Get<V>(d: seq<(string, V)>, k: string): Option<V>
  {
    if d == [] then None
    else if d[0].0 == k then Some(d[0].1)
    else Get(d[1..], k)
  }

  /** `d[k] = v`. */
  function Put<V>(d: seq<(string, V)>, k: string, v: V): (r: seq<(string, V)>)
    ensures Get(r, k) == Some(v)
    ensures forall k' :: k' != k ==> Get(r, k') == Get(d, k')
    ensures Keys(r) == if k in Keys(d) then Keys(d) else Keys(d) + [k]
    ensures k !in Keys(d) ==> r == d + [(k, v)]
  {
    if d == [] then [(k, v)]
    else if d[0].0 == k then
      assert Keys(d)[0] == k;
      assert Keys([(k, v)] + d[1..]) == Keys(d);
      [(k, v)] + d[1..]
    else
      assert Keys(d) == [d[0].0] + Keys(d[1..]);
      [d[0]] + Put(d[1..], k, v)
  }
}
