/**
 * Python dictionaries with integer keys, as the detector uses them for the
 * per-URL evidence and the per-brand search results: entries kept in
 * insertion order, `d[k] = v` replacing in place or appending, `d.get(k)`.
 */
module OrderedDict {
  import opened Wrappers

  type Dict<V> = seq<(nat, V)>

  /** `list(d.keys())`. */
  function Keys<V>(d: Dict<V>): (ks: seq<nat>)
    ensures |ks| == |d|
    ensures forall i :: 0 <= i < |d| ==> ks[i] == d[i].0
  {
    if |d| == 0 then [] else [d[0].0] + Keys(d[1..])
  }

  /** No key occurs twice, as in every Python dict. */
  ghost predicate Valid<V>(d: Dict<V>) {
    forall i, j :: 0 <= i < j < |d| ==> d[i].0 != d[j].0
  }

  /** The keys are 0, 1, ..., |d|-1 in this order, as in every dict the detector builds. */
  predicate Enumerated<V>(d: Dict<V>) {
    forall i :: 0 <= i < |d| ==> d[i].0 == i
  }

  lemma EnumeratedValid<V>(d: Dict<V>)
    requires Enumerated(d)
    ensures Valid(d)
  {
  }

  /** `d.get(k)`: the value stored under `k`, if any. */
  function Get<V>(d: Dict<V>, k: nat): (r: Option<V>)
    ensures r.None? <==> k !in Keys(d)
    ensures r.Some? ==> exists i :: 0 <= i < |d| && d[i] == (k, r.value)
    decreases |d|
  {
    if |d| == 0 then None
    else if d[0].0 == k then Some(d[0].1)
    else Get(d[1..], k)
  }

  /** In a valid dict, the value found under a key is the one stored with it. */
  lemma {:induction false} GetValid<V>(d: Dict<V>, i: nat)
    requires Valid(d) && i < |d|
    ensures Get(d, d[i].0) == Some(d[i].1)
    decreases i
  {
    if i > 0 {
      ValidTail(d);
      assert d[1..][i - 1] == d[i];
      GetValid(d[1..], i - 1);
    }
  }

  /** In an enumerated dict, key `i` holds the `i`-th entry. */
  lemma GetEnumerated<V>(d: Dict<V>, i: nat)
    requires Enumerated(d) && i < |d|
    ensures Get(d, i) == Some(d[i].1)
  {
    EnumeratedValid(d);
    GetValid(d, i);
  }

  /** `d[k] = v`: replaces the value in place when `k` is a key, appends a new entry otherwise. */
  function Put<V>(d: Dict<V>, k: nat, v: V): (r: Dict<V>)
    ensures Keys(r) == if k in Keys(d) then Keys(d) else Keys(d) + [k]
    decreases |d|
  {
    if |d| == 0 then [(k, v)]
    else if d[0].0 == k then
      assert ([(k, v)] + d[1..])[1..] == d[1..];
      [(k, v)] + d[1..]
    else
      var rest := Put(d[1..], k, v);
      assert ([d[0]] + rest)[1..] == rest;
      [d[0]] + rest
  }

  /** After `d[k] = v`, `d.get(k)` is `v`. */
  lemma {:induction false} GetPutSame<V>(d: Dict<V>, k: nat, v: V)
    ensures Get(Put(d, k, v), k) == Some(v)
    decreases |d|
  {
    if |d| > 0 && d[0].0 != k {
      PutPastHead(d, k, v);
      GetPutSame(d[1..], k, v);
    }
  }

  /** `d[k] = v` leaves every other key's value as it was. */
  lemma {:induction false} GetPutOther<V>(d: Dict<V>, k: nat, v: V, k': nat)
    requires k' != k
    ensures Get(Put(d, k, v), k') == Get(d, k')
    decreases |d|
  {
    if |d| > 0 && d[0].0 != k {
      PutPastHead(d, k, v);
      GetPutOther(d[1..], k, v, k');
    } else if |d| > 0 {
      assert Put(d, k, v)[1..] == d[1..];
    }
  }

  /** In a valid dict, storing under an existing key rewrites that entry where it stands. */
  lemma {:induction false} PutExisting<V>(d: Dict<V>, j: nat, v: V)
    requires Valid(d) && j < |d|
    ensures Put(d, d[j].0, v) == d[j := (d[j].0, v)]
    decreases j
  {
    var k := d[j].0;
    if j == 0 {
      assert d[0 := (k, v)] == [(k, v)] + d[1..];
    } else {
      assert d[0].0 != k;
      PutPastHead(d, k, v);
      ValidTail(d);
      assert d[1..][j - 1] == d[j];
      PutExisting(d[1..], j - 1, v);
      UpdateTail(d, j, (k, v));
    }
  }

  lemma UpdateTail<T>(d: seq<T>, j: nat, x: T)
    requires 0 < j < |d|
    ensures d[j := x] == [d[0]] + d[1..][j - 1 := x]
  {
  }

  /** A key other than the first is stored past the first entry. */
  lemma PutPastHead<V>(d: Dict<V>, k: nat, v: V)
    requires |d| > 0 && d[0].0 != k
    ensures Put(d, k, v) == [d[0]] + Put(d[1..], k, v)
  {
  }

  lemma ValidTail<V>(d: Dict<V>)
    requires Valid(d) && |d| > 0
    ensures Valid(d[1..])
  {
    forall a, b | 0 <= a < b < |d| - 1 ensures d[1..][a].0 != d[1..][b].0 {
      assert d[1..][a] == d[a + 1] && d[1..][b] == d[b + 1];
    }
  }

  /** Storing a fresh key appends it at the end. */
  lemma {:induction false} PutFresh<V>(d: Dict<V>, k: nat, v: V)
    requires k !in Keys(d)
    ensures Put(d, k, v) == d + [(k, v)]
    decreases |d|
  {
    if |d| > 0 {
      assert Keys(d) == [d[0].0] + Keys(d[1..]);
      PutPastHead(d, k, v);
      PutFresh(d[1..], k, v);
      assert [d[0]] + (d[1..] + [(k, v)]) == d + [(k, v)];
    }
  }

}
