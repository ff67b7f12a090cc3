/** Python dicts with `str` keys as association lists: the entries in insertion order, keys distinct.
    Iteration order, `dict.update` and `sorted(d.keys())` are all observable in the
    modelled code, so a plain `map` would lose information. */
module Dict {
  import opened Results
  import opened Text
  import opened Sequences

  type Assoc<V> = seq<(string, V)>

  function Keys<V>(d: Assoc<V>): (ks: seq<string>)
    ensures |ks| == |d|
    ensures forall i :: 0 <= i < |d| ==> ks[i] == d[i].0
  {
    if |d| == 0 then [] else [d[0].0] + Keys(d[1..])
  }

  function Values<V>(d: Assoc<V>): (vs: seq<V>)
    ensures |vs| == |d|
    ensures forall i :: 0 <= i < |d| ==> vs[i] == d[i].1
  {
    if |d| == 0 then [] else [d[0].1] + Values(d[1..])
  }

  predicate DistinctKeys<V>(d: Assoc<V>)
  {
    forall i, j :: 0 <= i < j < |d| ==> d[i].0 != d[j].0
  }

  /** `d.get(k)`. */
  function Get<V>(d: Assoc<V>, k: string): (r: Option<V>)
    ensures r.None? <==> k !in Keys(d)
    ensures r.Some? ==> (k, r.value) in d
  {
    if |d| == 0 then None
    else if d[0].0 == k then Some(d[0].1)
    else Get(d[1..], k)
  }

  /** In a dict every entry is what `get` returns for its key. */
  lemma {:induction false} GetEntry<V>(d: Assoc<V>, i: nat)
    requires DistinctKeys(d)
    requires i < |d|
    ensures Get(d, d[i].0) == Some(d[i].1)
  {
    if i > 0 {
      GetEntry(d[1..], i - 1);
    }
  }

  /** `d[k] = v`: an existing key keeps its position, a new key goes last. */
  function Put<V>(d: Assoc<V>, k: string, v: V): (r: Assoc<V>)
    ensures k in Keys(d) ==> Keys(r) == Keys(d)
    ensures k !in Keys(d) ==> Keys(r) == Keys(d) + [k]
    ensures |r| >= |d| && forall i :: 0 <= i < |d| ==> r[i].0 == d[i].0
  {
    if |d| == 0 then [(k, v)]
    else if d[0].0 == k then
      var r := [(k, v)] + d[1..];
      assert Keys(r) == [k] + Keys(d[1..]);
      r
    else
      var t := Put(d[1..], k, v);
      var r := [d[0]] + t;
      assert Keys(r) == [d[0].0] + Keys(t);
      assert Keys(d) == [d[0].0] + Keys(d[1..]);
      r
  }

  /** After `d[k] = v`, `k` maps to `v` and every other key to what it mapped to before. */
  lemma {:induction false} PutGet<V>(d: Assoc<V>, k: string, v: V, k': string)
    ensures Get(Put(d, k, v), k') == if k' == k then Some(v) else Get(d, k')
  {
    if |d| > 0 && d[0].0 != k {
      PutGet(d[1..], k, v, k');
      assert Put(d, k, v)[1..] == Put(d[1..], k, v);
    } else if |d| > 0 {
      assert Put(d, k, v)[1..] == d[1..];
    }
  }

  lemma PutKeepsDistinct<V>(d: Assoc<V>, k: string, v: V)
    requires DistinctKeys(d)
    ensures DistinctKeys(Put(d, k, v))
  {
    var r := Put(d, k, v);
    forall i, j | 0 <= i < j < |r|
      ensures r[i].0 != r[j].0
    {
      assert Keys(r)[i] == r[i].0 && Keys(r)[j] == r[j].0;
      if k !in Keys(d) && j == |d| {
        assert Keys(d)[i] == r[i].0;
      } else {
        assert Keys(d)[i] == r[i].0 && Keys(d)[j] == r[j].0;
      }
    }
  }

  /** `d.update(e)`: the entries of `e` put into `d` one after another. */
  function Update<V>(d: Assoc<V>, e: Assoc<V>): (r: Assoc<V>)
    ensures DistinctKeys(d) ==> DistinctKeys(r)
    ensures |r| >= |d| && forall i :: 0 <= i < |d| ==> r[i].0 == d[i].0
    decreases |e|
  {
    if |e| == 0 then d
    else
      var d' := Put(d, e[0].0, e[0].1);
      assert DistinctKeys(d) ==> DistinctKeys(d') by {
        if DistinctKeys(d) { PutKeepsDistinct(d, e[0].0, e[0].1); }
      }
      Update(d', e[1..])
  }

  /** After `d.update(e)` a key of `e` holds `e`'s value and every other key keeps `d`'s. */
  lemma {:induction false} UpdateGet<V>(d: Assoc<V>, e: Assoc<V>, k: string)
    requires DistinctKeys(e)
    ensures Get(Update(d, e), k) == if k in Keys(e) then Get(e, k) else Get(d, k)
    decreases |e|
  {
    if |e| > 0 {
      var d' := Put(d, e[0].0, e[0].1);
      PutGet(d, e[0].0, e[0].1, k);
      assert Keys(e) == [e[0].0] + Keys(e[1..]);
      assert DistinctKeys(e[1..]);
      UpdateGet(d', e[1..], k);
      if k in Keys(e[1..]) {
        var m :| 0 <= m < |e[1..]| && Keys(e[1..])[m] == k;
        assert e[m + 1].0 == k;
        assert k != e[0].0;
      }
    }
  }

  /** Entries ordered by strictly increasing key. */
  predicate SortedByKey<V>(d: Assoc<V>)
  {
    forall i, j :: 0 <= i < j < |d| ==> LexLess(d[i].0, d[j].0)
  }

  function Insert<V>(p: (string, V), d: Assoc<V>): (r: Assoc<V>)
    requires SortedByKey(d)
    requires forall q :: q in d ==> q.0 != p.0
    ensures SortedByKey(r)
    ensures multiset(r) == multiset(d) + multiset{p}
  {
    if |d| == 0 then [p]
    else if LexLess(p.0, d[0].0) then
      assert forall j :: 0 < j < |d| ==> LexLess(p.0, d[j].0) by {
        forall j | 0 < j < |d| ensures LexLess(p.0, d[j].0) {
          LexLessTransitive(p.0, d[0].0, d[j].0);
        }
      }
      [p] + d
    else
      LexLessTotal(p.0, d[0].0);
      SortedTail(d, p.0);
      var tail := Insert(p, d[1..]);
      HeadBelowAll(d, p, tail);
      MultisetTail(d);
      [d[0]] + tail
  }

  /** Every entry of a rearrangement of `d[1..]` plus `p` lies above `d[0]` when `p` does. */
  lemma HeadBelowAll<V>(d: Assoc<V>, p: (string, V), tail: Assoc<V>)
    requires SortedByKey(d) && |d| > 0 && LexLess(d[0].0, p.0)
    requires multiset(tail) == multiset(d[1..]) + multiset{p}
    ensures SortedByKey([d[0]] + tail) <== SortedByKey(tail)
  {
    forall q | q in tail ensures LexLess(d[0].0, q.0) {
      assert q in multiset(tail);
      if q != p {
        SortedHeadBelow(d, q);
      }
    }
    if SortedByKey(tail) {
      var r := [d[0]] + tail;
      forall i, j | 0 <= i < j < |r| ensures LexLess(r[i].0, r[j].0) {
        if i == 0 {
          assert r[j] == tail[j - 1];
        } else {
          assert r[i] == tail[i - 1] && r[j] == tail[j - 1];
        }
      }
    }
  }

  lemma SortedTail<V>(d: Assoc<V>, k: string)
    requires SortedByKey(d) && |d| > 0
    requires forall q :: q in d ==> q.0 != k
    ensures SortedByKey(d[1..])
    ensures forall q :: q in d[1..] ==> q.0 != k
  {
    forall q | q in d[1..] ensures q.0 != k {
      assert q in d;
    }
  }

  /** In a key-sorted dict the first key is below every later one. */
  lemma SortedHeadBelow<V>(d: Assoc<V>, q: (string, V))
    requires SortedByKey(d) && |d| > 0 && q in d[1..]
    ensures LexLess(d[0].0, q.0)
  {
    var m :| 0 <= m < |d[1..]| && d[1..][m] == q;
    assert d[m + 1] == q;
  }

  /** `sorted(d.items())` by key: an insertion sort. */
  function SortByKey<V>(d: Assoc<V>): (r: Assoc<V>)
    requires DistinctKeys(d)
    ensures SortedByKey(r)
    ensures multiset(r) == multiset(d)
  {
    if |d| == 0 then []
    else
      DistinctKeysTail(d);
      var rest := SortByKey(d[1..]);
      KeyAbsentFromPermutation(d[1..], rest, d[0].0);
      MultisetTail(d);
      Insert(d[0], rest)
  }

  lemma KeyAbsentFromPermutation<V>(a: Assoc<V>, b: Assoc<V>, k: string)
    requires multiset(a) == multiset(b)
    requires forall q :: q in a ==> q.0 != k
    ensures forall q :: q in b ==> q.0 != k
  {
    forall q | q in b ensures q.0 != k {
      assert q in multiset(b);
    }
  }

  /** Dropping the first entry keeps the keys distinct, and no later entry shares its key. */
  lemma DistinctKeysTail<V>(d: Assoc<V>)
    requires DistinctKeys(d) && |d| > 0
    ensures DistinctKeys(d[1..])
    ensures forall q :: q in d[1..] ==> q.0 != d[0].0
  {
    forall q | q in d[1..] ensures q.0 != d[0].0 {
      var m :| 0 <= m < |d[1..]| && d[1..][m] == q;
      assert d[m + 1] == q;
    }
  }

  /** Two key-sorted orderings of the same entries are the same sequence, so the
      sorted order depends only on the dict's contents, not on insertion order. */
  lemma {:induction false} SortedPermutationUnique<V>(a: Assoc<V>, b: Assoc<V>)
    requires SortedByKey(a) && SortedByKey(b)
    requires multiset(a) == multiset(b)
    ensures a == b
  {
    if |a| == 0 {
      assert |multiset(b)| == 0;
    } else {
      assert a[0] in multiset(a);
      var k := IndexOf(b, a[0]);
      if a[0] != b[0] {
        assert b[0] in multiset(a);
        var m := IndexOf(a, b[0]);
        assert LexLess(b[0].0, b[k].0);
        assert LexLess(a[0].0, a[m].0);
        LexLessAsymmetric(a[0].0, b[0].0);
      }
      MultisetTail(a);
      MultisetTail(b);
      SortedPermutationUnique(a[1..], b[1..]);
    }
  }
}
