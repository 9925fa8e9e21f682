/** List comprehensions with a condition, `[f(x) for x in xs if ...]`, and counting. */
module Seqs {
  import opened PyValue
  import opened Dedup

  /** `[f(x) for x in xs]`. */
  function MapSeq<T, U>(xs: seq<T>, f: T -> U): (r: seq<U>)
    ensures |r| == |xs| && forall i :: 0 <= i < |xs| ==> r[i] == f(xs[i])
    decreases |xs|
  {
    if xs == [] then [] else [f(xs[0])] + MapSeq(xs[1..], f)
  }

  /** Mapping a concatenation maps each part. */
  lemma MapSeqAppend<T, U>(a: seq<T>, b: seq<T>, f: T -> U)
    ensures MapSeq(a + b, f) == MapSeq(a, f) + MapSeq(b, f)
  {
    var l, r := MapSeq(a + b, f), MapSeq(a, f) + MapSeq(b, f);
    forall i | 0 <= i < |a + b|
      ensures l[i] == r[i]
    {
      if i < |a| {
        assert (a + b)[i] == a[i];
      } else {
        assert (a + b)[i] == b[i - |a|];
      }
    }
  }

  /** `[x for x in s if p(x)]`. */
  function Filter<T>(s: seq<T>, p: T -> bool): (r: seq<T>)
    ensures |r| <= |s|
    ensures forall i :: 0 <= i < |r| ==> p(r[i])
    decreases |s|
  {
    if s == [] then [] else Filter(s[..|s| - 1], p) + (if p(s[|s| - 1]) then [s[|s| - 1]] else [])
  }

  /** An element survives the filter exactly when it is in the input and satisfies `p`. */
  lemma {:induction false} FilterMember<T>(s: seq<T>, p: T -> bool, x: T)
    ensures x in Filter(s, p) <==> x in s && p(x)
    decreases |s|
  {
    if s != [] {
      var q := s[..|s| - 1];
      FilterMember(q, p, x);
      assert s == q + [s[|s| - 1]];
    }
  }

  /** The survivors keep their input order. */
  lemma {:induction false} FilterIsSubsequence<T>(s: seq<T>, p: T -> bool)
    ensures IsSubsequence(Filter(s, p), s)
    decreases |s|
  {
    if s != [] {
      var q := s[..|s| - 1];
      FilterIsSubsequence(q, p);
      if p(s[|s| - 1]) {
        assert Filter(s, p)[..|Filter(s, p)| - 1] == Filter(q, p);
      } else {
        assert Filter(s, p) == Filter(q, p);
        SubsequenceExtend(Filter(q, p), q, s[|s| - 1]);
        assert q + [s[|s| - 1]] == s;
      }
    }
  }

  /** A filter whose condition holds everywhere keeps everything. */
  lemma {:induction false} FilterAll<T>(s: seq<T>, p: T -> bool)
    requires forall i :: 0 <= i < |s| ==> p(s[i])
    ensures Filter(s, p) == s
    decreases |s|
  {
    if s != [] {
      FilterAll(s[..|s| - 1], p);
    }
  }

  /** The number of elements satisfying `p`. */
  function Count<T>(s: seq<T>, p: T -> bool): (n: nat)
    ensures n <= |s|
    decreases |s|
  {
    if s == [] then 0 else Count(s[..|s| - 1], p) + (if p(s[|s| - 1]) then 1 else 0)
  }

  /** A filter keeps as many elements as satisfy its condition. */
  lemma {:induction false} FilterCount<T>(s: seq<T>, p: T -> bool)
    ensures |Filter(s, p)| == Count(s, p)
    decreases |s|
  {
    if s != [] {
      FilterCount(s[..|s| - 1], p);
    }
  }

  /** `[f(x) for x in xs if f(x) is not None]`, where `f` sees the position too. */
  function FilterMap<T, U>(xs: seq<T>, f: (nat, T) -> Option<U>): (r: seq<U>)
    ensures |r| <= |xs|
    decreases |xs|
  {
    if xs == [] then []
    else
      var y := f(|xs| - 1, xs[|xs| - 1]);
      FilterMap(xs[..|xs| - 1], f) + (if y.Some? then [y.value] else [])
  }

  /** Every output comes from some input. */
  lemma {:induction false} FilterMapFrom<T, U>(xs: seq<T>, f: (nat, T) -> Option<U>, j: nat)
    requires j < |FilterMap(xs, f)|
    ensures exists i :: 0 <= i < |xs| && f(i, xs[i]) == Some(FilterMap(xs, f)[j])
    decreases |xs|
  {
    var p := xs[..|xs| - 1];
    if j < |FilterMap(p, f)| {
      FilterMapFrom(p, f, j);
      var i :| 0 <= i < |p| && f(i, p[i]) == Some(FilterMap(p, f)[j]);
      assert p[i] == xs[i];
    }
  }

  /** The number of inputs for which `f` gives a value. */
  function CountSome<T, U>(xs: seq<T>, f: (nat, T) -> Option<U>): (n: nat)
    decreases |xs|
  {
    if xs == [] then 0 else CountSome(xs[..|xs| - 1], f) + (if f(|xs| - 1, xs[|xs| - 1]).Some? then 1 else 0)
  }

  /** Nothing is dropped but the inputs without a value. */
  lemma {:induction false} FilterMapCount<T, U>(xs: seq<T>, f: (nat, T) -> Option<U>)
    ensures |FilterMap(xs, f)| == CountSome(xs, f)
    decreases |xs|
  {
    if xs != [] {
      FilterMapCount(xs[..|xs| - 1], f);
    }
  }

  /** Two conditions that agree on every element filter alike. */
  lemma {:induction false} FilterCongruent<T>(s: seq<T>, p: T -> bool, q: T -> bool)
    requires forall i :: 0 <= i < |s| ==> p(s[i]) == q(s[i])
    ensures Filter(s, p) == Filter(s, q)
    decreases |s|
  {
    if s != [] {
      FilterCongruent(s[..|s| - 1], p, q);
    }
  }

  /** When `f` gives a value exactly where `p` holds, the values are counted by `p`. */
  lemma {:induction false} CountSomeCount<T, U>(xs: seq<T>, f: (nat, T) -> Option<U>, p: T -> bool)
    requires forall i :: 0 <= i < |xs| ==> (f(i, xs[i]).Some? <==> p(xs[i]))
    ensures CountSome(xs, f) == Count(xs, p)
    decreases |xs|
  {
    if xs != [] {
      CountSomeCount(xs[..|xs| - 1], f, p);
    }
  }

  /** Every sequence is a subsequence of itself. */
  lemma {:induction false} SubsequenceRefl<T>(s: seq<T>)
    ensures IsSubsequence(s, s)
    decreases |s|
  {
    if s != [] {
      SubsequenceRefl(s[..|s| - 1]);
    }
  }
}
