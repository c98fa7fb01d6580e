/**
 * Python's insertion-ordered `dict`, as an association list.
 * Writing a key that is present replaces its value where it stands; writing
 * a new key appends it. So a key keeps its first position and takes the last
 * value written to it.
 */
module OrderedDict {
  import opened Wrappers

  /** Keys are strings throughout the parser; values are strings or sections. */
  type Dict<V> = seq<(string, V)>

  /** The keys, in insertion order. */
  function Keys<V>(d: Dict<V>): (ks: seq<string>)
    ensures |ks| == |d|
    ensures forall n :: 0 <= n < |d| ==> ks[n] == d[n].0
  {
    seq(|d|, n requires 0 <= n < |d| => d[n].0)
  }

  /** The keys, as a set. */
  function KeySet<V>(d: Dict<V>): set<string>
  {
    set k | k in Keys(d)
  }

  ghost predicate DistinctKeys<V>(d: Dict<V>)
  {
    forall a, b :: 0 <= a < b < |d| ==> d[a].0 != d[b].0
  }

  /** Position of the first entry with key `k`, or -1. */
  function IndexOf<V>(d: Dict<V>, k: string): (n: int)
    ensures -1 <= n < |d|
    ensures 0 <= n ==> d[n].0 == k
    ensures forall m :: 0 <= m < |d| && (n < 0 || m < n) ==> d[m].0 != k
  {
    if d == [] then -1
    else if d[0].0 == k then 0
    else
      var n := IndexOf(d[1..], k);
      if n < 0 then -1 else n + 1
  }

  /** `d.get(k)` */
  function Get<V>(d: Dict<V>, k: string): (r: Option<V>)
    ensures r.Some? <==> k in Keys(d)
  {
    var n := IndexOf(d, k);
    if n < 0 then None else Some(d[n].1)
  }

  /** `d[k] = v` */
  function Put<V>(d: Dict<V>, k: string, v: V): (r: Dict<V>)
    ensures Get(r, k) == Some(v)
    ensures forall k' :: k' != k ==> Get(r, k') == Get(d, k')
    ensures Keys(r) == if k in Keys(d) then Keys(d) else Keys(d) + [k]
    ensures DistinctKeys(d) ==> DistinctKeys(r)
    ensures forall e :: e in r ==> e in d || e == (k, v)
  {
    var n := IndexOf(d, k);
    if n < 0 then
      assert forall k' :: IndexOf(d + [(k, v)], k') == if IndexOf(d, k') >= 0 then IndexOf(d, k') else if k == k' then |d| else -1 by {
        forall k' { IndexOfAppend(d, (k, v), k'); }
      }
      d + [(k, v)]
    else
      var r := d[n := (k, v)];
      assert Keys(r) == Keys(d);
      assert forall k' :: IndexOf(r, k') == IndexOf(d, k') by {
        forall k' ensures IndexOf(r, k') == IndexOf(d, k') { IndexOfByKeys(r, d, k'); }
      }
      r
  }

  /** Writing a key keeps the keys in place and adds that one key to the set. */
  lemma PutKeySet<V>(d: Dict<V>, k: string, v: V)
    ensures Keys(d) <= Keys(Put(d, k, v))
    ensures KeySet(Put(d, k, v)) == KeySet(d) + {k}
  {
  }

  /** Writing a key that is not present appends it. */
  lemma PutNew<V>(d: Dict<V>, k: string, v: V)
    requires k !in Keys(d)
    ensures Put(d, k, v) == d + [(k, v)]
  {
    assert IndexOf(d, k) < 0;
  }

  /** The position of a key depends on the keys alone. */
  lemma IndexOfByKeys<V>(d: Dict<V>, e: Dict<V>, k: string)
    requires Keys(d) == Keys(e)
    ensures IndexOf(d, k) == IndexOf(e, k)
  {
  }

  /** Appending an entry does not move the keys already present. */
  lemma IndexOfAppend<V>(d: Dict<V>, x: (string, V), k: string)
    ensures IndexOf(d + [x], k) == if IndexOf(d, k) >= 0 then IndexOf(d, k) else if x.0 == k then |d| else -1
  {
    if d != [] {
      assert (d + [x])[1..] == d[1..] + [x];
      IndexOfAppend(d[1..], x, k);
    }
  }

  /** The last value written to `k` by `items`, if any. */
  function LastValue<V>(items: seq<(string, V)>, k: string): Option<V>
  {
    if items == [] then None
    else if items[|items| - 1].0 == k then Some(items[|items| - 1].1)
    else LastValue(items[..|items| - 1], k)
  }

  /** `for k, v in items: d[k] = v` */
  function PutAll<V>(d: Dict<V>, items: seq<(string, V)>): (r: Dict<V>)
    ensures Keys(d) <= Keys(r)
    ensures forall k :: k in Keys(r) <==> k in Keys(d) || k in Keys(items)
    ensures forall k :: Get(r, k) == if LastValue(items, k).Some? then LastValue(items, k) else Get(d, k)
    ensures DistinctKeys(d) ==> DistinctKeys(r)
    decreases |items|
  {
    if items == [] then d
    else
      var n := |items| - 1;
      assert Keys(items) == Keys(items[..n]) + [items[n].0];
      Put(PutAll(d, items[..n]), items[n].0, items[n].1)
  }

  /** Writing the entries of a dictionary with distinct keys into an empty one rebuilds it. */
  lemma {:induction false} PutAllIntoEmpty<V>(d: Dict<V>)
    requires DistinctKeys(d)
    ensures PutAll([], d) == d
    decreases |d|
  {
    if d != [] {
      var n := |d| - 1;
      PutAllIntoEmpty(d[..n]);
      assert d[n].0 !in Keys(d[..n]);
      PutNew(d[..n], d[n].0, d[n].1);
      assert d[..n] + [d[n]] == d;
    }
  }

  /** Writing `a` and then `b` is writing `a + b`. */
  lemma {:induction false} PutAllAppend<V>(d: Dict<V>, a: seq<(string, V)>, b: seq<(string, V)>)
    ensures PutAll(d, a + b) == PutAll(PutAll(d, a), b)
    decreases |b|
  {
    if b == [] {
      assert a + b == a;
    } else {
      var n := |b| - 1;
      assert (a + b)[..|a + b| - 1] == a + b[..n];
      PutAllAppend(d, a, b[..n]);
    }
  }

  /** In a dictionary with distinct keys, the last value written to a key is its value. */
  lemma {:induction false} LastValueOfDistinct<V>(d: Dict<V>, k: string)
    requires DistinctKeys(d)
    ensures LastValue(d, k) == Get(d, k)
    decreases |d|
  {
    if d != [] {
      var n := |d| - 1;
      LastValueOfDistinct(d[..n], k);
      IndexOfAppend(d[..n], d[n], k);
      assert d[..n] + [d[n]] == d;
      if d[n].0 == k {
        assert k !in Keys(d[..n]);
      }
    }
  }
}
