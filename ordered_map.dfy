/**
  PHP arrays are ordered maps: iteration follows insertion order, and writing
  `$a[$k] = $v` replaces the value in place when `$k` is already a key and
  appends a new entry at the end otherwise. This module models such an array
  as a sequence of key/value pairs and proves the laws of that update.
 */
module OrderedMap {

  datatype Option<+T> = None | Some(value: T)

  /** The keys of `m`, in iteration order. */
  function Keys<K, V>(m: seq<(K, V)>): (ks: seq<K>)
    ensures |ks| == |m|
    ensures forall i :: 0 <= i < |m| ==> ks[i] == m[i].0
  {
    seq(|m|, i requires 0 <= i < |m| => m[i].0)
  }

  /** The values of `m`, in iteration order. */
  function Values<K, V>(m: seq<(K, V)>): (vs: seq<V>)
    ensures |vs| == |m|
    ensures forall i :: 0 <= i < |m| ==> vs[i] == m[i].1
  {
    seq(|m|, i requires 0 <= i < |m| => m[i].1)
  }

  ghost predicate Distinct<T>(s: seq<T>) {
    forall i, j :: 0 <= i < j < |s| ==> s[i] != s[j]
  }

  /** Every key occurs once, as in every PHP array. */
  ghost predicate UniqueKeys<K, V>(m: seq<(K, V)>) {
    Distinct(Keys(m))
  }

  /** Position of the first entry with key `k`, or -1. */
  function IndexOf<K(==,!new), V>(m: seq<(K, V)>, k: K): (i: int)
    ensures -1 <= i < |m|
    ensures 0 <= i ==> m[i].0 == k && forall j :: 0 <= j < i ==> m[j].0 != k
    ensures i < 0 <==> k !in Keys(m)
  {
    if m == [] then -1
    else if m[0].0 == k then 0
    else
      var r := IndexOf(m[1..], k);
      assert Keys(m) == [m[0].0] + Keys(m[1..]);
      if r < 0 then -1 else r + 1
  }

  /** `$m[$k] ?? null` without the null: the value stored under `k`, if any. */
  function Get<K(==,!new), V>(m: seq<(K, V)>, k: K): (r: Option<V>)
    ensures r.None? <==> k !in Keys(m)
    ensures r.Some? ==> exists i :: 0 <= i < |m| && m[i] == (k, r.value)
  {
    var i := IndexOf(m, k);
    if i < 0 then None else Some(m[i].1)
  }

  /** `$m[$k] = $v`. */
  function Put<K(==,!new), V>(m: seq<(K, V)>, k: K, v: V): (r: seq<(K, V)>)
    ensures Get(r, k) == Some(v)
    ensures forall k' :: k' != k ==> Get(r, k') == Get(m, k')
    ensures Keys(r) == if k in Keys(m) then Keys(m) else Keys(m) + [k]
    ensures UniqueKeys(m) ==> UniqueKeys(r)
  {
    var i := IndexOf(m, k);
    if i < 0 then
      var r := m + [(k, v)];
      assert Keys(r) == Keys(m) + [k];
      assert forall k' :: k' != k ==> IndexOf(r, k') == IndexOf(m, k') by {
        forall k' | k' != k ensures IndexOf(r, k') == IndexOf(m, k') {
          IndexOfAppend(m, k, v, k');
        }
      }
      r
    else
      var r := m[i := (k, v)];
      assert Keys(r) == Keys(m);
      assert forall k' :: k' != k ==> IndexOf(r, k') == IndexOf(m, k') by {
        forall k' | k' != k ensures IndexOf(r, k') == IndexOf(m, k') {
          IndexOfUpdate(m, i, k, v, k');
        }
      }
      r
  }

  lemma IndexOfAppend<K(!new), V>(m: seq<(K, V)>, k: K, v: V, k': K)
    requires k' != k
    ensures IndexOf(m + [(k, v)], k') == IndexOf(m, k')
  {
    var r := m + [(k, v)];
    assert Keys(r) == Keys(m) + [k];
    if k' in Keys(m) {
      var b := IndexOf(m, k');
      assert r[b] == m[b];
    }
  }

  lemma IndexOfUpdate<K(!new), V>(m: seq<(K, V)>, i: int, k: K, v: V, k': K)
    requires 0 <= i < |m| && m[i].0 == k && k' != k
    ensures IndexOf(m[i := (k, v)], k') == IndexOf(m, k')
  {
    var r := m[i := (k, v)];
    assert Keys(r) == Keys(m)[i := k];
    if k' in Keys(m) {
      var b := IndexOf(m, k');
      assert r[b] == m[b];
    }
  }

  /** The value that the last entry with key `k` in `ps` carries, if any. */
  function LastGet<K(==,!new), V>(ps: seq<(K, V)>, k: K): (r: Option<V>)
    ensures r.None? <==> k !in Keys(ps)
  {
    if ps == [] then None
    else if ps[|ps| - 1].0 == k then Some(ps[|ps| - 1].1)
    else
      assert Keys(ps) == Keys(ps[..|ps| - 1]) + [ps[|ps| - 1].0];
      LastGet(ps[..|ps| - 1], k)
  }

  /** `foreach ($ps as $k => $v) { $m[$k] = $v; }` */
  function PutAll<K(==,!new), V>(m: seq<(K, V)>, ps: seq<(K, V)>): seq<(K, V)>
  {
    if ps == [] then m
    else Put(PutAll(m, ps[..|ps| - 1]), ps[|ps| - 1].0, ps[|ps| - 1].1)
  }

  /** After a series of writes, a key holds the last value written to it,
      and the keys already present keep their positions. */
  lemma PutAllLaws<K(!new), V>(m: seq<(K, V)>, ps: seq<(K, V)>)
    ensures var r := PutAll(m, ps);
      && |r| >= |m|
      && Keys(r)[..|m|] == Keys(m)
      && (forall k :: k in Keys(r) <==> k in Keys(m) || k in Keys(ps))
      && (forall k :: Get(r, k) == if LastGet(ps, k).Some? then LastGet(ps, k) else Get(m, k))
      && (UniqueKeys(m) ==> UniqueKeys(r))
  {
    PutAllKeeps(m, ps);
    PutAllKeys(m, ps);
    PutAllGet(m, ps);
    PutAllUnique(m, ps);
  }

  lemma {:induction false} PutAllKeeps<K(!new), V>(m: seq<(K, V)>, ps: seq<(K, V)>)
    ensures |PutAll(m, ps)| >= |m| && Keys(PutAll(m, ps))[..|m|] == Keys(m)
  {
    if ps != [] {
      var p := PutAll(m, ps[..|ps| - 1]);
      PutAllKeeps(m, ps[..|ps| - 1]);
      assert Keys(PutAll(m, ps))[..|m|] == Keys(p)[..|m|];
    }
  }

  lemma {:induction false} PutAllKeys<K(!new), V>(m: seq<(K, V)>, ps: seq<(K, V)>)
    ensures forall k :: k in Keys(PutAll(m, ps)) <==> k in Keys(m) || k in Keys(ps)
  {
    if ps != [] {
      PutAllKeys(m, ps[..|ps| - 1]);
      assert Keys(ps) == Keys(ps[..|ps| - 1]) + [ps[|ps| - 1].0];
    }
  }

  lemma {:induction false} PutAllGet<K(!new), V>(m: seq<(K, V)>, ps: seq<(K, V)>)
    ensures forall k :: Get(PutAll(m, ps), k) == if LastGet(ps, k).Some? then LastGet(ps, k) else Get(m, k)
  {
    if ps != [] {
      PutAllGet(m, ps[..|ps| - 1]);
    }
  }

  lemma {:induction false} PutAllUnique<K(!new), V>(m: seq<(K, V)>, ps: seq<(K, V)>)
    ensures UniqueKeys(m) ==> UniqueKeys(PutAll(m, ps))
  {
    if ps != [] {
      PutAllUnique(m, ps[..|ps| - 1]);
    }
  }

  /** One more write of a series, as a loop over positions performs it. */
  lemma PutAllPrefixStep<K(!new), V>(m: seq<(K, V)>, ps: seq<(K, V)>, j: int)
    requires 0 <= j < |ps|
    ensures PutAll(m, ps[..j + 1]) == Put(PutAll(m, ps[..j]), ps[j].0, ps[j].1)
  {
    assert ps[..j + 1][..j] == ps[..j];
  }

  /** With unique keys, writing to the key of entry `i` replaces that
      entry's value in place. */
  lemma PutAtOwnKey<K(!new), V>(m: seq<(K, V)>, i: int, v: V)
    requires 0 <= i < |m| && UniqueKeys(m)
    ensures Put(m, m[i].0, v) == m[i := (m[i].0, v)]
  {
    assert Keys(m)[i] == m[i].0;
    forall a | 0 <= a < i ensures m[a].0 != m[i].0 {
      assert Keys(m)[a] != Keys(m)[i];
    }
  }

  /** Writing a new key appends it. */
  lemma PutFresh<K(!new), V>(m: seq<(K, V)>, k: K, v: V)
    requires k !in Keys(m)
    ensures Put(m, k, v) == m + [(k, v)]
  {
    assert IndexOf(m, k) < 0;
  }

  /** The last key of an array with unique keys is not among the others. */
  lemma LastKeyFresh<K, V>(all: seq<(K, V)>)
    requires all != [] && UniqueKeys(all)
    ensures UniqueKeys(all[..|all| - 1])
    ensures all[|all| - 1].0 !in Keys(all[..|all| - 1])
  {
    var n := |all| - 1;
    assert Keys(all[..n]) == Keys(all)[..n];
  }

  /** Writes to keys that are all new append the entries in order. */
  lemma {:induction false} PutAllDistinct<K(!new), V>(m: seq<(K, V)>, ps: seq<(K, V)>)
    requires UniqueKeys(m + ps)
    ensures PutAll(m, ps) == m + ps
  {
    if ps != [] {
      var all := m + ps;
      assert all[..|all| - 1] == m + ps[..|ps| - 1];
      LastKeyFresh(all);
      PutAllDistinct(m, ps[..|ps| - 1]);
      PutAllFreshStep(m, ps);
    }
  }

  /** The last write of a series appends when its key is new. */
  lemma PutAllFreshStep<K(!new), V>(m: seq<(K, V)>, ps: seq<(K, V)>)
    requires ps != []
    requires PutAll(m, ps[..|ps| - 1]) == m + ps[..|ps| - 1]
    requires ps[|ps| - 1].0 !in Keys(m + ps[..|ps| - 1])
    ensures PutAll(m, ps) == m + ps
  {
    var init, last := ps[..|ps| - 1], ps[|ps| - 1];
    PutFresh(m + init, last.0, last.1);
    SplitLast(ps);
    Associative(m, init, [last]);
  }

  /** A non-empty sequence is its front followed by its last element. */
  lemma SplitLast<T>(s: seq<T>)
    requires s != []
    ensures s[..|s| - 1] + [s[|s| - 1]] == s
  {
  }

  lemma Associative<T>(a: seq<T>, b: seq<T>, c: seq<T>)
    ensures a + b + c == a + (b + c)
  {
  }

  /** The keys of a non-empty array: those of its front, then the last key. */
  lemma KeysSplitLast<K, V>(m: seq<(K, V)>)
    requires m != []
    ensures Keys(m) == Keys(m[..|m| - 1]) + [m[|m| - 1].0]
  {
  }
}
