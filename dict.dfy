/** Python's insertion-ordered `dict`, as a sequence of (key, value) pairs.
    `Put` is `d[k] = v` / `d.update({k: v})`: an existing key keeps its
    position and takes the new value, a new key goes to the end. */
module Dict {
  import opened Common

  type Dict<K, V> = seq<(K, V)>

  function Keys<K, V>(d: Dict<K, V>): (ks: seq<K>)
    ensures |ks| == |d|
  {
    if d == [] then [] else [d[0].0] + Keys(d[1..])
  }

  /** No key occurs twice: every Python dict has this shape. */
  ghost predicate UniqueKeys<K, V>(d: Dict<K, V>) {
    forall i, j :: 0 <= i < j < |d| ==> d[i].0 != d[j].0
  }

  /** `d.get(k)`: the value stored under `k`, if any. */
  function Get<K(==), V>(d: Dict<K, V>, k: K): (r: Option<V>)
    ensures r.None? <==> k !in Keys(d)
    ensures r.Some? ==> (k, r.value) in d
  {
    if d == [] then None else if d[0].0 == k then Some(d[0].1) else Get(d[1..], k)
  }

  /** `d[k] = v`. */
  function Put<K(==, !new), V>(d: Dict<K, V>, k: K, v: V): (r: Dict<K, V>)
    ensures Keys(r) == if k in Keys(d) then Keys(d) else Keys(d) + [k]
    ensures forall k' :: Get(r, k') == if k' == k then Some(v) else Get(d, k')
    ensures UniqueKeys(d) ==> UniqueKeys(r)
  {
    if d == [] then [(k, v)]
    else if d[0].0 == k then [(k, v)] + d[1..]
    else
      var rest := Put(d[1..], k, v);
      var r := [d[0]] + rest;
      assert r[0] == d[0] && r[1..] == rest;
      ConsKeepsUnique(d, k, rest);
      r
  }

  /** Putting a key other than the first into the tail keeps keys distinct. */
  lemma ConsKeepsUnique<K, V>(d: Dict<K, V>, k: K, rest: Dict<K, V>)
    requires d != [] && d[0].0 != k
    requires Keys(rest) == if k in Keys(d[1..]) then Keys(d[1..]) else Keys(d[1..]) + [k]
    requires UniqueKeys(d[1..]) ==> UniqueKeys(rest)
    ensures UniqueKeys(d) ==> UniqueKeys([d[0]] + rest)
  {
    if UniqueKeys(d) {
      var tail := d[1..];
      forall i, j | 0 <= i < j < |tail| ensures tail[i].0 != tail[j].0 {
        assert tail[i] == d[i + 1] && tail[j] == d[j + 1];
      }
      forall j | 0 <= j < |tail| ensures Keys(tail)[j] != d[0].0 {
        KeyAt(tail, j);
        assert tail[j] == d[j + 1];
      }
      assert d[0].0 !in Keys(rest);
      var r := [d[0]] + rest;
      forall i, j | 0 <= i < j < |r| ensures r[i].0 != r[j].0 {
        assert r[j] == rest[j - 1];
        if i == 0 {
          KeyAt(rest, j - 1);
        } else {
          assert r[i] == rest[i - 1];
        }
      }
    }
  }

  lemma {:induction false} KeyAt<K, V>(d: Dict<K, V>, i: nat)
    requires i < |d|
    ensures Keys(d)[i] == d[i].0
  {
    if i > 0 {
      KeyAt(d[1..], i - 1);
    }
  }

  lemma {:induction false} KeysAt<K, V>(d: Dict<K, V>)
    ensures forall i :: 0 <= i < |d| ==> Keys(d)[i] == d[i].0
  {
    if d != [] {
      KeysAt(d[1..]);
    }
  }

  lemma {:induction false} KeysAppend<K, V>(d: Dict<K, V>, e: (K, V))
    ensures Keys(d + [e]) == Keys(d) + [e.0]
    decreases |d|
  {
    if d != [] {
      assert (d + [e])[1..] == d[1..] + [e];
      KeysAppend(d[1..], e);
    }
  }

  /** Looking up the last entry of a dict appended to. */
  lemma {:induction false} GetAppend<K, V>(d: Dict<K, V>, e: (K, V), k: K)
    ensures Get(d + [e], k) == if k in Keys(d) then Get(d, k) else if k == e.0 then Some(e.1) else None
    decreases |d|
  {
    if d != [] {
      assert (d + [e])[1..] == d[1..] + [e];
      GetAppend(d[1..], e, k);
    }
  }

  /** The distinct elements of `xs` in order of first occurrence: the keys a
      dict ends with after `Put` of every element of `xs` in turn. */
  function Dedup<K(==, !new)>(xs: seq<K>): (r: seq<K>)
    ensures forall x :: x in r <==> x in xs
    ensures forall i, j :: 0 <= i < j < |r| ==> r[i] != r[j]
  {
    if xs == [] then []
    else
      var p := Dedup(xs[..|xs| - 1]);
      if xs[|xs| - 1] in xs[..|xs| - 1] then p else p + [xs[|xs| - 1]]
  }

  lemma {:induction false} DedupSnoc<K(!new)>(xs: seq<K>, x: K)
    ensures Dedup(xs + [x]) == if x in xs then Dedup(xs) else Dedup(xs) + [x]
  {
    assert (xs + [x])[..|xs|] == xs;
  }

  /** A dict built by `Put` of the elements of `xs` has the keys `Dedup(xs)`. */
  lemma PutKeepsDedupKeys<K(!new), V>(d: Dict<K, V>, xs: seq<K>, x: K, v: V)
    requires Keys(d) == Dedup(xs)
    ensures Keys(Put(d, x, v)) == Dedup(xs + [x])
  {
    DedupSnoc(xs, x);
  }

  /** In a dict, an entry is what `Get` finds under its key. */
  lemma {:induction false} GetOfEntry<K, V>(d: Dict<K, V>, e: (K, V))
    requires UniqueKeys(d) && e in d
    ensures Get(d, e.0) == Some(e.1)
  {
    if d[0] != e {
      assert e in d[1..];
      assert d[0].0 != e.0;
      GetOfEntry(d[1..], e);
    }
  }

  /** Two dicts with the same keys in the same order and the same value
      under every key are equal. */
  lemma SameEntries<K, V>(d1: Dict<K, V>, d2: Dict<K, V>)
    requires UniqueKeys(d1) && UniqueKeys(d2) && Keys(d1) == Keys(d2)
    requires forall k :: Get(d1, k) == Get(d2, k)
    ensures d1 == d2
  {
    forall i | 0 <= i < |d1| ensures d1[i] == d2[i] {
      KeyAt(d1, i);
      KeyAt(d2, i);
      GetOfEntry(d1, d1[i]);
      GetOfEntry(d2, d2[i]);
    }
  }
}
