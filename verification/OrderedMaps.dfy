/** Insertion-ordered maps: a key keeps its place when it is set again. */
module OrderedMaps {
  import opened Basics

  predicate DistinctKeys<K(==), V>(m: seq<(K, V)>) {
    forall i, j :: 0 <= i < j < |m| ==> m[i].0 != m[j].0
  }

  function Find<K(==), V>(m: seq<(K, V)>, k: K): Option<V> {
    if m == [] then None else if m[0].0 == k then Some(m[0].1) else Find(m[1..], k)
  }

  function Put<K(==), V>(m: seq<(K, V)>, k: K, v: V): seq<(K, V)> {
    if m == [] then [(k, v)] else if m[0].0 == k then [(k, v)] + m[1..] else [m[0]] + Put(m[1..], k, v)
  }

  function Drop<K(==), V>(m: seq<(K, V)>, k: K): seq<(K, V)> {
    if m == [] then [] else if m[0].0 == k then m[1..] else [m[0]] + Drop(m[1..], k)
  }

  lemma {:induction false} FindIs<K, V>(m: seq<(K, V)>, k: K)
    ensures Find(m, k).Some? <==> exists i :: 0 <= i < |m| && m[i].0 == k
    ensures Find(m, k).Some? ==> exists i :: 0 <= i < |m| && m[i] == (k, Find(m, k).value)
  {
    if m != [] {
      FindIs(m[1..], k);
      if m[0].0 == k {
        assert m[0] == (k, Find(m, k).value);
      } else {
        assert forall i :: 1 <= i < |m| ==> m[i] == m[1..][i - 1];
        if Find(m[1..], k).Some? {
          var i :| 0 <= i < |m| - 1 && m[1..][i] == (k, Find(m[1..], k).value);
          assert m[i + 1] == (k, Find(m, k).value);
        }
      }
    }
  }

  lemma {:induction false} PutFinds<K, V>(m: seq<(K, V)>, k: K, v: V, j: K)
    ensures Find(Put(m, k, v), j) == if j == k then Some(v) else Find(m, j)
  {
    if m != [] && m[0].0 != k {
      PutFinds(m[1..], k, v, j);
    }
  }

  /** A put changes no key but its own, and adds at most that one. */
  lemma {:induction false} PutKeys<K, V>(m: seq<(K, V)>, k: K, v: V)
    ensures |m| <= |Put(m, k, v)| && forall i :: 0 <= i < |m| ==> Put(m, k, v)[i].0 == m[i].0
    ensures |Put(m, k, v)| == |m| + if Find(m, k).Some? then 0 else 1
    ensures Find(m, k).None? ==> Put(m, k, v) == m + [(k, v)]
  {
    if m != [] && m[0].0 != k {
      PutKeys(m[1..], k, v);
    }
  }

  lemma PutStaysDistinct<K, V>(m: seq<(K, V)>, k: K, v: V)
    requires DistinctKeys(m)
    ensures DistinctKeys(Put(m, k, v))
  {
    PutKeys(m, k, v);
    FindIs(m, k);
  }

  lemma {:induction false} DropFinds<K, V>(m: seq<(K, V)>, k: K, j: K)
    requires DistinctKeys(m)
    ensures Find(Drop(m, k), j) == if j == k then None else Find(m, j)
  {
    if m != [] {
      assert DistinctKeys(m[1..]);
      if m[0].0 == k {
        FindIs(m[1..], k);
      } else {
        DropFinds(m[1..], k, j);
      }
    }
  }

  lemma {:induction false} DropStaysDistinct<K, V>(m: seq<(K, V)>, k: K)
    requires DistinctKeys(m)
    ensures DistinctKeys(Drop(m, k)) && forall x :: x in Drop(m, k) ==> x in m
  {
    if m != [] {
      assert DistinctKeys(m[1..]);
      if m[0].0 != k {
        DropStaysDistinct(m[1..], k);
        var rest := Drop(m[1..], k);
        forall i | 0 <= i < |rest|
          ensures rest[i].0 != m[0].0
        {
          assert rest[i] in m[1..];
        }
      }
    }
  }

  lemma {:induction false} FindAt<K, V>(m: seq<(K, V)>, i: nat)
    requires DistinctKeys(m) && i < |m|
    ensures Find(m, m[i].0) == Some(m[i].1)
  {
    if i > 0 {
      assert DistinctKeys(m[1..]);
      FindAt(m[1..], i - 1);
    }
  }

  /** Setting a present key replaces its value in place. */
  lemma {:induction false} PutAt<K, V>(m: seq<(K, V)>, i: nat, v: V)
    requires DistinctKeys(m) && i < |m|
    ensures Put(m, m[i].0, v) == m[i := (m[i].0, v)]
  {
    if i > 0 {
      assert DistinctKeys(m[1..]);
      var x := (m[i].0, v);
      PutAt(m[1..], i - 1, v);
      assert [m[0]] + m[1..][i - 1 := x] == m[i := x];
    }
  }

  lemma {:induction false} FindAppended<K, V>(m: seq<(K, V)>, x: (K, V), k: K)
    ensures Find(m + [x], k) == if Find(m, k).Some? then Find(m, k) else if x.0 == k then Some(x.1) else None
  {
    if m == [] {
      assert m + [x] == [x];
    } else {
      assert (m + [x])[1..] == m[1..] + [x];
      FindAppended(m[1..], x, k);
    }
  }
}
