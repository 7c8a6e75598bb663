/** Python dictionaries with string keys, kept as the list of their items in
    insertion order, which is the order in which the source iterates them. */
module Dicts {
  import opened Wrappers

  type Dict<V> = seq<(string, V)>

  function Keys<V>(d: Dict<V>): (ks: seq<string>)
    ensures |ks| == |d|
    ensures forall i :: 0 <= i < |d| ==> ks[i] == d[i].0
  {
    seq(|d|, i requires 0 <= i < |d| => d[i].0)
  }

  /** Every key occurs once, as in any Python dict. */
  predicate DistinctKeys<V>(d: Dict<V>)
  {
    forall i, j :: 0 <= i < j < |d| ==> d[i].0 != d[j].0
  }

  /** `d[k] = v`: an existing key keeps its position and takes the new value;
      a new key is appended. */
  function Put<V>(d: Dict<V>, k: string, v: V): (r: Dict<V>)
    ensures Keys(r) == if k in Keys(d) then Keys(d) else Keys(d) + [k]
    ensures forall i :: 0 <= i < |r| ==> r[i].1 == if r[i].0 == k then v else d[i].1
    ensures DistinctKeys(d) ==> DistinctKeys(r)
  {
    if k in Keys(d) then seq(|d|, i requires 0 <= i < |d| => if d[i].0 == k then (k, v) else d[i])
    else d + [(k, v)]
  }

  /** Every entry after `d[k] = v` is either the new entry or an entry of `d`
      at the same position. */
  lemma PutEntry<V>(d: Dict<V>, k: string, v: V, i: int)
    requires 0 <= i < |Put(d, k, v)|
    ensures Put(d, k, v)[i] == (k, v) || (i < |d| && Put(d, k, v)[i] == d[i])
  {
    var r := Put(d, k, v);
    if r[i].0 != k {
      assert i < |d| && Keys(r)[i] == Keys(d)[i];
    }
  }

  /** `d.get(k)`. */
  function Get<V>(d: Dict<V>, k: string): (r: Option<V>)
    ensures r.Some? <==> k in Keys(d)
    ensures r.Some? ==> exists i :: 0 <= i < |d| && d[i] == (k, r.value)
    decreases |d|
  {
    if d == [] then None
    else if d[0].0 == k then Some(d[0].1)
    else
      var r := Get(d[1..], k);
      assert Keys(d) == [d[0].0] + Keys(d[1..]);
      assert r.Some? ==> exists i :: 0 <= i < |d[1..]| && d[1..][i] == (k, r.value);
      r
  }

  /** `d.get(k, default)`. */
  function GetOrDefault<V>(d: Dict<V>, k: string, default: V): V
    decreases |d|
  {
    if d == [] then default
    else if d[0].0 == k then d[0].1
    else GetOrDefault(d[1..], k, default)
  }

  /** `d.get(k, default)` is the value `d.get(k)` finds, or the default
      where the key is missing. */
  lemma {:induction false} GetOrDefaultIsGet<V>(d: Dict<V>, k: string, default: V)
    ensures GetOrDefault(d, k, default) == Get(d, k).GetOr(default)
    decreases |d|
  {
    if d != [] && d[0].0 != k {
      GetOrDefaultIsGet(d[1..], k, default);
    }
  }

  /** In a dict with distinct keys, the value found for the key at position i is
      the value stored there. */
  lemma GetAt<V>(d: Dict<V>, i: int)
    requires DistinctKeys(d) && 0 <= i < |d|
    ensures Get(d, d[i].0) == Some(d[i].1)
  {
    var r := Get(d, d[i].0);
    var j :| 0 <= j < |d| && d[j] == (d[i].0, r.value);
    assert i == j;
  }

  /** `d[k] = v` then `d.get(k2)`: the new value for `k`, the old lookup
      for any other key. */
  lemma GetPut<V>(d: Dict<V>, k: string, v: V, k2: string)
    requires DistinctKeys(d)
    ensures Get(Put(d, k, v), k2) == if k2 == k then Some(v) else Get(d, k2)
  {
    var r := Put(d, k, v);
    if k2 in Keys(r) {
      var i :| 0 <= i < |r| && Keys(r)[i] == k2;
      GetAt(r, i);
      if k2 != k {
        assert i < |d| && Keys(d)[i] == k2;
        GetAt(d, i);
      }
    } else {
      assert k in Keys(r);
    }
  }

  /** The keys of a list in first-occurrence order: what `list(dict.fromkeys(s))`
      or filling a dict from `s` leaves as its keys. */
  function Dedup(s: seq<string>): (r: seq<string>)
    ensures forall x :: x in r <==> x in s
    ensures forall i, j :: 0 <= i < j < |r| ==> r[i] != r[j]
    ensures |r| <= |s|
  {
    if s == [] then []
    else
      var d := Dedup(s[..|s| - 1]);
      assert forall x :: x in s <==> x in s[..|s| - 1] || x == s[|s| - 1];
      if s[|s| - 1] in d then d else d + [s[|s| - 1]]
  }

  /** A list without repetitions is its own key list. */
  lemma {:induction false} DedupOfDistinct(s: seq<string>)
    requires forall i, j :: 0 <= i < j < |s| ==> s[i] != s[j]
    ensures Dedup(s) == s
  {
    if s != [] {
      DedupOfDistinct(s[..|s| - 1]);
      assert s[|s| - 1] !in s[..|s| - 1];
      assert s[..|s| - 1] + [s[|s| - 1]] == s;
    }
  }
}
