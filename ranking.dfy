/**
 * Group-by-sum followed by a descending sort and a truncation: the
 * "groupby(key)[measure].sum().sort_values(ascending=False).head(n)" chain
 * that the dashboard applies to every ranking it shows. The input is the
 * sequence of (key, value) observations the chain sees, one per table row.
 *
 * The table library's sort is not stable, so the order of keys with equal
 * sums is not part of the specification IsTopN; TopN below is one admissible
 * result and is proved to satisfy it.
 */
module Ranking {
  import opened Wrappers

  /** One row of a grouped result: a key and its summed measure. */
  datatype Entry<K> = Entry(key: K, sum: int)

  /** The summed value of the group of `k`. */
  function SumFor<K(==,!new)>(obs: seq<(K, int)>, k: K): int
  {
    if obs == [] then 0
    else (if obs[0].0 == k then obs[0].1 else 0) + SumFor(obs[1..], k)
  }

  lemma SumForCons<K(!new)>(o: (K, int), obs: seq<(K, int)>, k: K)
    ensures SumFor([o] + obs, k) == (if o.0 == k then o.1 else 0) + SumFor(obs, k)
  {
    assert ([o] + obs)[1..] == obs;
  }

  /** `k` names a group, that is, some observation carries it. */
  ghost predicate Occurs<K(!new)>(obs: seq<(K, int)>, k: K)
  {
    exists i :: 0 <= i < |obs| && obs[i].0 == k
  }

  lemma OccursCons<K(!new)>(o: (K, int), obs: seq<(K, int)>, k: K)
    ensures Occurs([o] + obs, k) <==> o.0 == k || Occurs(obs, k)
  {
    var all := [o] + obs;
    assert all[0] == o;
    if Occurs(obs, k) {
      var i :| 0 <= i < |obs| && obs[i].0 == k;
      assert all[i + 1] == obs[i];
    }
    if Occurs(all, k) && o.0 != k {
      var i :| 0 <= i < |all| && all[i].0 == k;
      assert obs[i - 1] == all[i];
    }
  }

  function Min(a: int, b: int): int
  {
    if a <= b then a else b
  }

  predicate Distinct<K(==,!new)>(ks: seq<K>)
  {
    forall i, j :: 0 <= i < j < |ks| ==> ks[i] != ks[j]
  }

  function KeysOf<K>(es: seq<Entry<K>>): seq<K>
  {
    seq(|es|, i requires 0 <= i < |es| => es[i].key)
  }

  /** The keys of the groups, each once. */
  function Keys<K(==,!new)>(obs: seq<(K, int)>): (ks: seq<K>)
    ensures Distinct(ks)
    ensures forall k :: k in ks <==> Occurs(obs, k)
  {
    if obs == [] then []
    else
      var rest := Keys(obs[1..]);
      assert forall k :: Occurs(obs, k) <==> obs[0].0 == k || Occurs(obs[1..], k) by {
        forall k | Occurs(obs, k) && obs[0].0 != k ensures Occurs(obs[1..], k) {
          var i :| 0 <= i < |obs| && obs[i].0 == k;
          assert obs[1..][i - 1].0 == k;
        }
        forall k | Occurs(obs[1..], k) ensures Occurs(obs, k) {
          var i :| 0 <= i < |obs[1..]| && obs[1..][i].0 == k;
          assert obs[i + 1].0 == k;
        }
      }
      if obs[0].0 in rest then rest else [obs[0].0] + rest
  }

  /** The grouped table: one entry per key, carrying the key's sum. */
  function Groups<K(==,!new)>(obs: seq<(K, int)>): (gs: seq<Entry<K>>)
    ensures Distinct(KeysOf(gs))
    ensures forall e :: e in gs <==> Occurs(obs, e.key) && e.sum == SumFor(obs, e.key)
  {
    var ks := Keys(obs);
    var gs := seq(|ks|, i requires 0 <= i < |ks| => Entry(ks[i], SumFor(obs, ks[i])));
    assert KeysOf(gs) == ks;
    assert forall e :: e in gs ==> e.key in ks;
    assert forall k :: k in ks ==> Entry(k, SumFor(obs, k)) in gs by {
      forall k | k in ks ensures Entry(k, SumFor(obs, k)) in gs {
        var i :| 0 <= i < |ks| && ks[i] == k;
        assert gs[i] == Entry(k, SumFor(obs, k));
      }
    }
    gs
  }

  /** Non-increasing by sum. */
  predicate SortedDesc<K>(es: seq<Entry<K>>)
  {
    forall i, j :: 0 <= i < j < |es| ==> es[i].sum >= es[j].sum
  }

  function Insert<K>(e: Entry<K>, es: seq<Entry<K>>): seq<Entry<K>>
  {
    if es == [] || es[0].sum <= e.sum then [e] + es
    else [es[0]] + Insert(e, es[1..])
  }

  /** No entry's sum exceeds `v`. */
  predicate AllAtMost<K>(es: seq<Entry<K>>, v: int)
  {
    forall j :: 0 <= j < |es| ==> es[j].sum <= v
  }

  lemma AllAtMostPermutation<K>(a: seq<Entry<K>>, b: seq<Entry<K>>, v: int)
    requires multiset(a) == multiset(b) && AllAtMost(a, v)
    ensures AllAtMost(b, v)
  {
    forall j | 0 <= j < |b| ensures b[j].sum <= v {
      assert b[j] in multiset(a);
      var i :| 0 <= i < |a| && a[i] == b[j];
    }
  }

  lemma SortedCons<K>(h: Entry<K>, t: seq<Entry<K>>)
    requires SortedDesc(t) && AllAtMost(t, h.sum)
    ensures SortedDesc([h] + t)
  {
    var s := [h] + t;
    forall i, j | 0 <= i < j < |s| ensures s[i].sum >= s[j].sum {
      assert s[j] == t[j - 1];
      if i > 0 {
        assert s[i] == t[i - 1];
      }
    }
  }

  lemma {:induction false} InsertPermutation<K>(e: Entry<K>, es: seq<Entry<K>>)
    ensures multiset(Insert(e, es)) == multiset([e] + es)
  {
    if es != [] && es[0].sum > e.sum {
      var h, tail := es[0], es[1..];
      InsertPermutation(e, tail);
      assert es == [h] + tail;
      assert Insert(e, es) == [h] + Insert(e, tail);
      calc {
        multiset([h] + Insert(e, tail));
        multiset([h]) + multiset(Insert(e, tail));
        multiset([h]) + multiset([e]) + multiset(tail);
        multiset([e]) + multiset([h] + tail);
      }
    }
  }

  lemma SortedTail<K>(es: seq<Entry<K>>)
    requires SortedDesc(es) && es != []
    ensures SortedDesc(es[1..]) && AllAtMost(es, es[0].sum)
  {
    var tail := es[1..];
    forall i, j | 0 <= i < j < |tail| ensures tail[i].sum >= tail[j].sum {
      assert tail[i] == es[i + 1] && tail[j] == es[j + 1];
    }
    forall j | 0 <= j < |es| ensures es[j].sum <= es[0].sum {
      assert j > 0 ==> es[0].sum >= es[j].sum;
    }
  }

  lemma {:induction false} InsertCorrect<K>(e: Entry<K>, es: seq<Entry<K>>)
    requires SortedDesc(es)
    ensures multiset(Insert(e, es)) == multiset([e] + es)
    ensures SortedDesc(Insert(e, es))
  {
    InsertPermutation(e, es);
    if es == [] {
      SortedCons(e, es);
    } else if es[0].sum <= e.sum {
      SortedTail(es);
      assert AllAtMost(es, e.sum);
      SortedCons(e, es);
    } else {
      var h, tail := es[0], es[1..];
      SortedTail(es);
      InsertCorrect(e, tail);
      var r := Insert(e, tail);
      assert Insert(e, es) == [h] + r;
      assert AllAtMost([e] + tail, h.sum) by {
        forall j | 0 <= j < |[e] + tail| ensures ([e] + tail)[j].sum <= h.sum {
          if j > 0 {
            assert ([e] + tail)[j] == es[j];
          }
        }
      }
      AllAtMostPermutation([e] + tail, r, h.sum);
      SortedCons(h, r);
    }
  }

  /** Insertion sort, largest sum first. */
  function SortDesc<K>(es: seq<Entry<K>>): seq<Entry<K>>
  {
    if es == [] then [] else Insert(es[0], SortDesc(es[1..]))
  }

  /** The sort is a permutation of its input and is sorted. */
  lemma {:induction false} SortDescCorrect<K>(es: seq<Entry<K>>)
    ensures multiset(SortDesc(es)) == multiset(es)
    ensures SortedDesc(SortDesc(es))
  {
    if es != [] {
      SortDescCorrect(es[1..]);
      InsertCorrect(es[0], SortDesc(es[1..]));
      assert es == [es[0]] + es[1..];
    }
  }

  lemma {:induction false} DistinctCountAtMostOne<K(!new)>(a: seq<Entry<K>>, x: Entry<K>)
    requires Distinct(KeysOf(a))
    ensures multiset(a)[x] <= 1
  {
    if a != [] {
      var tail := a[1..];
      assert a == [a[0]] + tail;
      assert Distinct(KeysOf(tail)) by {
        forall i, j | 0 <= i < j < |tail| ensures tail[i].key != tail[j].key {
          assert KeysOf(a)[i + 1] != KeysOf(a)[j + 1];
        }
      }
      DistinctCountAtMostOne(tail, x);
      forall t | 0 <= t < |tail| ensures tail[t].key != a[0].key {
        assert KeysOf(a)[0] != KeysOf(a)[t + 1];
      }
      assert a[0] == x ==> x !in tail;
    }
  }

  lemma CountOfRepeated<T>(b: seq<T>, i: nat, j: nat)
    requires i < j < |b|
    ensures b[i] == b[j] ==> multiset(b)[b[i]] >= 2
  {
    assert b == b[..j] + [b[j]] + b[j + 1..];
    assert b[i] in b[..j];
  }

  /** Entries with distinct keys stay distinct under any permutation. */
  lemma DistinctUnderPermutation<K(!new)>(a: seq<Entry<K>>, b: seq<Entry<K>>)
    requires multiset(a) == multiset(b)
    requires Distinct(KeysOf(a))
    ensures Distinct(KeysOf(b))
  {
    forall i, j | 0 <= i < j < |b| ensures b[i].key != b[j].key {
      DistinctCountAtMostOne(a, b[i]);
      CountOfRepeated(b, i, j);
      assert b[i] in multiset(a) && b[j] in multiset(a);
      var p :| 0 <= p < |a| && a[p] == b[i];
      var q :| 0 <= q < |a| && a[q] == b[j];
      assert p < q ==> KeysOf(a)[p] != KeysOf(a)[q];
      assert q < p ==> KeysOf(a)[q] != KeysOf(a)[p];
    }
  }

  /** The first `n` entries, or all of them when there are fewer. */
  function Take<K>(es: seq<Entry<K>>, n: nat): seq<Entry<K>>
  {
    if |es| <= n then es else es[..n]
  }

  /** One admissible result of the grouped, sorted and truncated chain. */
  function TopN<K(==,!new)>(obs: seq<(K, int)>, n: nat): seq<Entry<K>>
  {
    Take(SortDesc(Groups(obs)), n)
  }

  /**
   * `r` is a correct top-`n` ranking of `obs`: at most `n` rows, each key
   * once, each key a group of `obs` reported with its exact sum, sums
   * non-increasing, and a group is left out only when the list is full and
   * its sum is no greater than the smallest one reported.
   */
  ghost predicate IsTopN<K(!new)>(obs: seq<(K, int)>, n: nat, r: seq<Entry<K>>)
  {
    && |r| <= n
    && Distinct(KeysOf(r))
    && (forall i :: 0 <= i < |r| ==> Occurs(obs, r[i].key) && r[i].sum == SumFor(obs, r[i].key))
    && SortedDesc(r)
    && (forall k :: Occurs(obs, k) && k !in KeysOf(r) ==>
          |r| == n && (n > 0 ==> SumFor(obs, k) <= r[n - 1].sum))
  }

  /**
   * Truncating any sorted arrangement of the grouped table yields a correct
   * ranking, whatever order it gives to equal sums.
   */
  lemma TakeOfSortedGroups<K(!new)>(obs: seq<(K, int)>, s: seq<Entry<K>>, n: nat)
    requires multiset(s) == multiset(Groups(obs))
    requires SortedDesc(s)
    ensures IsTopN(obs, n, Take(s, n))
  {
    var gs := Groups(obs);
    DistinctUnderPermutation(gs, s);
    var r := Take(s, n);
    PrefixKeepsOrder(s, |r|);
    forall i | 0 <= i < |r| ensures Occurs(obs, r[i].key) && r[i].sum == SumFor(obs, r[i].key) {
      assert r[i] == s[i];
      assert s[i] in multiset(gs);
    }
    forall k | Occurs(obs, k) && k !in KeysOf(r)
      ensures |r| == n && (n > 0 ==> SumFor(obs, k) <= r[n - 1].sum)
    {
      LeftOutBelowCut(obs, s, n, k);
    }
  }

  lemma PrefixKeepsOrder<K(!new)>(s: seq<Entry<K>>, m: nat)
    requires m <= |s| && SortedDesc(s) && Distinct(KeysOf(s))
    ensures SortedDesc(s[..m]) && Distinct(KeysOf(s[..m]))
  {
    var r := s[..m];
    forall i, j | 0 <= i < j < |r| ensures r[i].sum >= r[j].sum && r[i].key != r[j].key {
      assert r[i] == s[i] && r[j] == s[j];
      assert KeysOf(s)[i] != KeysOf(s)[j];
    }
  }

  /** A group missing from a truncated sorted arrangement lies past the cut. */
  lemma LeftOutBelowCut<K(!new)>(obs: seq<(K, int)>, s: seq<Entry<K>>, n: nat, k: K)
    requires multiset(s) == multiset(Groups(obs)) && SortedDesc(s)
    requires Occurs(obs, k) && k !in KeysOf(Take(s, n))
    ensures |Take(s, n)| == n && (n > 0 ==> SumFor(obs, k) <= Take(s, n)[n - 1].sum)
  {
    var r := Take(s, n);
    var e := Entry(k, SumFor(obs, k));
    assert e in Groups(obs);
    assert e in multiset(s);
    var j :| 0 <= j < |s| && s[j] == e;
    assert forall t :: 0 <= t < |r| ==> KeysOf(r)[t] == s[t].key;
    assert j >= |r|;
  }

  lemma TopNCorrect<K(!new)>(obs: seq<(K, int)>, n: nat)
    ensures IsTopN(obs, n, TopN(obs, n))
  {
    SortDescCorrect(Groups(obs));
    TakeOfSortedGroups(obs, SortDesc(Groups(obs)), n);
  }
}
