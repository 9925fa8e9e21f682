/** First-occurrence de-duplication by a key, the rule `_dedupe` in
    agent/json_formatter.py applies to nodes (by id) and edges (by signature). */
module Dedup {

  /** The keys occurring in `xs`. */
  function KeysOf<T, K(==)>(xs: seq<T>, key: T -> K): set<K>
  {
    if xs == [] then {} else KeysOf(xs[..|xs| - 1], key) + {key(xs[|xs| - 1])}
  }

  lemma {:induction false} KeysOfMember<T, K>(xs: seq<T>, key: T -> K, k: K)
    ensures k in KeysOf(xs, key) <==> exists i :: 0 <= i < |xs| && key(xs[i]) == k
    decreases |xs|
  {
    if xs != [] {
      var p := xs[..|xs| - 1];
      KeysOfMember(p, key, k);
      if k in KeysOf(p, key) {
        var i :| 0 <= i < |p| && key(p[i]) == k;
        assert key(xs[i]) == k;
      }
      if exists i :: 0 <= i < |xs| && key(xs[i]) == k {
        var i :| 0 <= i < |xs| && key(xs[i]) == k;
        if i < |p| { assert key(p[i]) == k; }
      }
    }
  }

  lemma KeysOfSnoc<T, K>(xs: seq<T>, x: T, key: T -> K)
    ensures KeysOf(xs + [x], key) == KeysOf(xs, key) + {key(x)}
  {
    assert (xs + [x])[..|xs|] == xs;
  }

  /** No two elements share a key. */
  predicate DistinctKeys<T, K(==)>(xs: seq<T>, key: T -> K) {
    forall i, j :: 0 <= i < j < |xs| ==> key(xs[i]) != key(xs[j])
  }

  /** `xs` is `ys` with some elements left out, order kept. */
  predicate IsSubsequence<T(==)>(xs: seq<T>, ys: seq<T>)
    decreases |ys|
  {
    if xs == [] then true
    else if ys == [] then false
    else if xs[|xs| - 1] == ys[|ys| - 1] then IsSubsequence(xs[..|xs| - 1], ys[..|ys| - 1])
    else IsSubsequence(xs, ys[..|ys| - 1])
  }

  /** Keep each element whose key has not been seen earlier in the sequence. */
  function DedupeBy<T, K(==)>(xs: seq<T>, key: T -> K): (r: seq<T>)
    ensures KeysOf(r, key) == KeysOf(xs, key)
    ensures DistinctKeys(r, key)
    ensures |r| <= |xs|
    decreases |xs|
  {
    if xs == [] then []
    else
      var p := DedupeBy(xs[..|xs| - 1], key);
      var x := xs[|xs| - 1];
      KeysOfSnoc(p, x, key);
      assert xs == xs[..|xs| - 1] + [x];
      KeysOfSnoc(xs[..|xs| - 1], x, key);
      if key(x) in KeysOf(xs[..|xs| - 1], key) then p
      else
        assert forall i :: 0 <= i < |p| ==> key(p[i]) != key(x) by {
          forall i | 0 <= i < |p| ensures key(p[i]) != key(x) {
            KeysOfMember(p, key, key(p[i]));
          }
        }
        p + [x]
  }

  /** De-duplication keeps a subsequence of its input. */
  lemma {:induction false} DedupeIsSubsequence<T, K>(xs: seq<T>, key: T -> K)
    ensures IsSubsequence(DedupeBy(xs, key), xs)
    decreases |xs|
  {
    if xs != [] {
      var p := xs[..|xs| - 1];
      DedupeIsSubsequence(p, key);
      var r := DedupeBy(xs, key);
      if r == DedupeBy(p, key) {
        SubsequenceExtend(r, p, xs[|xs| - 1]);
        assert p + [xs[|xs| - 1]] == xs;
      } else {
        assert r == DedupeBy(p, key) + [xs[|xs| - 1]];
        assert r[..|r| - 1] == DedupeBy(p, key);
      }
    }
  }

  lemma {:induction false} SubsequenceExtend<T>(xs: seq<T>, ys: seq<T>, y: T)
    requires IsSubsequence(xs, ys)
    ensures IsSubsequence(xs, ys + [y])
    decreases |ys|, 1
  {
    var zs := ys + [y];
    assert zs[..|zs| - 1] == ys;
    if xs != [] && xs[|xs| - 1] == y {
      SubsequenceDrop(xs, ys);
    }
  }

  lemma {:induction false} SubsequenceDrop<T>(xs: seq<T>, ys: seq<T>)
    requires xs != [] && IsSubsequence(xs, ys)
    ensures IsSubsequence(xs[..|xs| - 1], ys)
    decreases |ys|, 0
  {
    var p := xs[..|xs| - 1];
    if ys != [] {
      var q := ys[..|ys| - 1];
      if xs[|xs| - 1] == ys[|ys| - 1] {
        SubsequenceExtend(p, q, ys[|ys| - 1]);
        assert q + [ys[|ys| - 1]] == ys;
      } else {
        SubsequenceDrop(xs, q);
        SubsequenceExtend(p, q, ys[|ys| - 1]);
        assert q + [ys[|ys| - 1]] == ys;
      }
    }
  }

  /** The element de-duplication keeps for a key is the first one carrying it. */
  lemma {:induction false} DedupeKeepsFirst<T, K>(xs: seq<T>, key: T -> K, j: nat)
    requires j < |DedupeBy(xs, key)|
    ensures exists i :: (0 <= i < |xs| && DedupeBy(xs, key)[j] == xs[i]
      && key(xs[i]) !in KeysOf(xs[..i], key))
    decreases |xs|
  {
    var p := xs[..|xs| - 1];
    var r := DedupeBy(xs, key);
    if j < |DedupeBy(p, key)| {
      DedupeKeepsFirst(p, key, j);
      var i :| 0 <= i < |p| && DedupeBy(p, key)[j] == p[i] && key(p[i]) !in KeysOf(p[..i], key);
      assert r[j] == DedupeBy(p, key)[j];
      assert xs[..i] == p[..i];
      assert DedupeBy(xs, key)[j] == xs[i] && key(xs[i]) !in KeysOf(xs[..i], key);
    } else {
      var i := |xs| - 1;
      assert xs[..i] == p;
      assert DedupeBy(xs, key)[j] == xs[i] && key(xs[i]) !in KeysOf(xs[..i], key);
    }
  }

  /** Each first occurrence survives: an element whose key did not occur before it is kept. */
  lemma {:induction false} DedupeKeepsEveryFirst<T, K>(xs: seq<T>, key: T -> K, i: nat)
    requires i < |xs| && key(xs[i]) !in KeysOf(xs[..i], key)
    ensures xs[i] in DedupeBy(xs, key)
    decreases |xs|
  {
    var p := xs[..|xs| - 1];
    if i < |p| {
      assert p[..i] == xs[..i] && p[i] == xs[i];
      DedupeKeepsEveryFirst(p, key, i);
    } else {
      assert xs[..i] == p;
    }
  }
}
