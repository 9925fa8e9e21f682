/** Loops over a list that call a function which may raise, stopping at the first exception:
    `MapResult` keeps every result, `FilterMapResult` keeps the results that are present. */
module ResultSeq {
  import opened PyValue

  /** `[f(i, x) for i, x in enumerate(xs)]` when `f` may raise. */
  function MapResult<T, U>(xs: seq<T>, f: (nat, T) -> Result<U>): (r: Result<seq<U>>)
    ensures r.Ok? ==> |r.value| == |xs|
    decreases |xs|
  {
    if xs == [] then Ok([])
    else
      match MapResult(xs[..|xs| - 1], f)
      case Raised(err) => Raised(err)
      case Ok(p) =>
        match f(|xs| - 1, xs[|xs| - 1])
        case Raised(err) => Raised(err)
        case Ok(y) => Ok(p + [y])
  }

  /** Once a prefix raises, the whole loop raises the same exception. */
  lemma {:induction false} MapResultPrefixRaised<T, U>(xs: seq<T>, f: (nat, T) -> Result<U>, i: nat)
    requires i <= |xs| && MapResult(xs[..i], f).Raised?
    ensures MapResult(xs, f) == MapResult(xs[..i], f)
    decreases |xs|
  {
    if i < |xs| {
      var p := xs[..|xs| - 1];
      assert p[..i] == xs[..i];
      MapResultPrefixRaised(p, f, i);
    } else {
      assert xs[..i] == xs;
    }
  }

  /** One more iteration of the loop: the result is appended, or the loop raises. */
  lemma MapResultStep<T, U>(xs: seq<T>, f: (nat, T) -> Result<U>, i: nat)
    requires i < |xs| && MapResult(xs[..i], f).Ok?
    ensures f(i, xs[i]).Ok? ==> MapResult(xs[..i + 1], f) == Ok(MapResult(xs[..i], f).value + [f(i, xs[i]).value])
    ensures f(i, xs[i]).Raised? ==> MapResult(xs, f) == Raised(f(i, xs[i]).error)
  {
    assert xs[..i + 1][..i] == xs[..i];
    if f(i, xs[i]).Raised? {
      MapResultPrefixRaised(xs, f, i + 1);
    }
  }

  /** The loop raises exactly when some call raises. */
  lemma {:induction false} MapResultRaises<T, U>(xs: seq<T>, f: (nat, T) -> Result<U>)
    ensures MapResult(xs, f).Raised? <==> exists i | 0 <= i < |xs| :: f(i, xs[i]).Raised?
    decreases |xs|
  {
    if xs != [] {
      var p := xs[..|xs| - 1];
      MapResultRaises(p, f);
      if exists i | 0 <= i < |p| :: f(i, p[i]).Raised? {
        var i :| 0 <= i < |p| && f(i, p[i]).Raised?;
        assert f(i, xs[i]).Raised?;
      }
      if (exists i | 0 <= i < |xs| :: f(i, xs[i]).Raised?) && !f(|xs| - 1, xs[|xs| - 1]).Raised? {
        var i :| 0 <= i < |xs| && f(i, xs[i]).Raised?;
        assert p[i] == xs[i];
      }
    }
  }

  /** Where the loop succeeds, result `i` is `f(i, xs[i])`. */
  lemma {:induction false} MapResultAt<T, U>(xs: seq<T>, f: (nat, T) -> Result<U>, i: nat)
    requires MapResult(xs, f).Ok? && i < |xs|
    ensures f(i, xs[i]).Ok? && MapResult(xs, f).value[i] == f(i, xs[i]).value
    decreases |xs|
  {
    var p := xs[..|xs| - 1];
    if i < |p| {
      MapResultAt(p, f, i);
      assert p[i] == xs[i];
    }
  }

  /** Where a loop succeeds and its results sit between `pre` and `post`, result `i` is the
      call on element `i`. */
  lemma MapResultInBlock<T, U>(xs: seq<T>, f: (nat, T) -> Result<U>, pre: seq<U>, post: seq<U>, all: seq<U>, i: nat)
    requires MapResult(xs, f).Ok? && i < |xs|
    requires all == pre + MapResult(xs, f).value + post
    ensures f(i, xs[i]) == Ok(all[|pre| + i])
  {
    MapResultAt(xs, f, i);
  }

  /** A loop that calls `f(i, x)` on each element and appends the results that are present. */
  function FilterMapResult<T, U>(xs: seq<T>, f: (nat, T) -> Result<Option<U>>): (r: Result<seq<U>>)
    ensures r.Ok? ==> |r.value| <= |xs|
    decreases |xs|
  {
    if xs == [] then Ok([])
    else
      match FilterMapResult(xs[..|xs| - 1], f)
      case Raised(err) => Raised(err)
      case Ok(p) =>
        match f(|xs| - 1, xs[|xs| - 1])
        case Raised(err) => Raised(err)
        case Ok(y) => if y.Some? then Ok(p + [y.value]) else Ok(p)
  }

  /** Once a prefix raises, the whole loop raises the same exception. */
  lemma {:induction false} FilterMapResultPrefixRaised<T, U>(xs: seq<T>, f: (nat, T) -> Result<Option<U>>, i: nat)
    requires i <= |xs| && FilterMapResult(xs[..i], f).Raised?
    ensures FilterMapResult(xs, f) == FilterMapResult(xs[..i], f)
    decreases |xs|
  {
    if i < |xs| {
      var p := xs[..|xs| - 1];
      assert p[..i] == xs[..i];
      FilterMapResultPrefixRaised(p, f, i);
    } else {
      assert xs[..i] == xs;
    }
  }

  /** One more iteration of the filtering loop: a present result is appended, an absent one
      skipped, or the loop raises. */
  lemma FilterMapResultStep<T, U>(xs: seq<T>, f: (nat, T) -> Result<Option<U>>, i: nat)
    requires i < |xs| && FilterMapResult(xs[..i], f).Ok?
    ensures f(i, xs[i]).Ok? && f(i, xs[i]).value.Some? ==>
      FilterMapResult(xs[..i + 1], f) == Ok(FilterMapResult(xs[..i], f).value + [f(i, xs[i]).value.value])
    ensures f(i, xs[i]).Ok? && f(i, xs[i]).value.None? ==>
      FilterMapResult(xs[..i + 1], f) == FilterMapResult(xs[..i], f)
    ensures f(i, xs[i]).Raised? ==> FilterMapResult(xs, f) == Raised(f(i, xs[i]).error)
  {
    assert xs[..i + 1][..i] == xs[..i];
    if f(i, xs[i]).Raised? {
      FilterMapResultPrefixRaised(xs, f, i + 1);
    }
  }

  /** The loop raises exactly when some call raises. */
  lemma {:induction false} FilterMapResultRaises<T, U>(xs: seq<T>, f: (nat, T) -> Result<Option<U>>)
    ensures FilterMapResult(xs, f).Raised? <==> exists i | 0 <= i < |xs| :: f(i, xs[i]).Raised?
    decreases |xs|
  {
    if xs != [] {
      var p := xs[..|xs| - 1];
      FilterMapResultRaises(p, f);
      if exists i | 0 <= i < |p| :: f(i, p[i]).Raised? {
        var i :| 0 <= i < |p| && f(i, p[i]).Raised?;
        assert f(i, xs[i]).Raised?;
      }
      if (exists i | 0 <= i < |xs| :: f(i, xs[i]).Raised?) && !f(|xs| - 1, xs[|xs| - 1]).Raised? {
        var i :| 0 <= i < |xs| && f(i, xs[i]).Raised?;
        assert p[i] == xs[i];
      }
    }
  }

  /** Every kept result is the present result of a call on some element. */
  lemma {:induction false} FilterMapResultFrom<T, U>(xs: seq<T>, f: (nat, T) -> Result<Option<U>>, j: nat)
    requires FilterMapResult(xs, f).Ok? && j < |FilterMapResult(xs, f).value|
    ensures exists i :: 0 <= i < |xs| && f(i, xs[i]) == Ok(Some(FilterMapResult(xs, f).value[j]))
    decreases |xs|
  {
    var p := xs[..|xs| - 1];
    var q := FilterMapResult(p, f).value;
    if j < |q| {
      FilterMapResultFrom(p, f, j);
      var i :| 0 <= i < |p| && f(i, p[i]) == Ok(Some(q[j]));
      assert p[i] == xs[i];
    } else {
      assert f(|xs| - 1, xs[|xs| - 1]) == Ok(Some(FilterMapResult(xs, f).value[j]));
    }
  }

  /** A loop that calls `f(x)` on each element and extends one list with each result. */
  function ConcatResult<T, U>(xs: seq<T>, f: T -> Result<seq<U>>): Result<seq<U>>
    decreases |xs|
  {
    if xs == [] then Ok([])
    else
      match ConcatResult(xs[..|xs| - 1], f)
      case Raised(err) => Raised(err)
      case Ok(p) =>
        match f(xs[|xs| - 1])
        case Raised(err) => Raised(err)
        case Ok(ys) => Ok(p + ys)
  }

  /** Once a prefix raises, the whole loop raises the same exception. */
  lemma {:induction false} ConcatResultPrefixRaised<T, U>(xs: seq<T>, f: T -> Result<seq<U>>, i: nat)
    requires i <= |xs| && ConcatResult(xs[..i], f).Raised?
    ensures ConcatResult(xs, f) == ConcatResult(xs[..i], f)
    decreases |xs|
  {
    if i < |xs| {
      var p := xs[..|xs| - 1];
      assert p[..i] == xs[..i];
      ConcatResultPrefixRaised(p, f, i);
    } else {
      assert xs[..i] == xs;
    }
  }

  /** One more iteration of the loop: the result extends the list, or the loop raises. */
  lemma ConcatResultStep<T, U>(xs: seq<T>, f: T -> Result<seq<U>>, i: nat)
    requires i < |xs| && ConcatResult(xs[..i], f).Ok?
    ensures f(xs[i]).Ok? ==> ConcatResult(xs[..i + 1], f) == Ok(ConcatResult(xs[..i], f).value + f(xs[i]).value)
    ensures f(xs[i]).Raised? ==> ConcatResult(xs, f) == Raised(f(xs[i]).error)
  {
    assert xs[..i + 1][..i] == xs[..i];
    if f(xs[i]).Raised? {
      ConcatResultPrefixRaised(xs, f, i + 1);
    }
  }

  /** The results are concatenated in input order: the loop over `a + b` yields the results
      of `a` followed by those of `b`. */
  lemma {:induction false} ConcatResultAppend<T, U>(a: seq<T>, b: seq<T>, f: T -> Result<seq<U>>)
    requires ConcatResult(a, f).Ok? && ConcatResult(b, f).Ok?
    ensures ConcatResult(a + b, f) == Ok(ConcatResult(a, f).value + ConcatResult(b, f).value)
    decreases |b|
  {
    if b == [] {
      assert a + b == a;
      assert ConcatResult(a, f).value + [] == ConcatResult(a, f).value;
    } else {
      var c := b[..|b| - 1];
      assert (a + b)[..|a + b| - 1] == a + c;
      assert (a + b)[|a + b| - 1] == b[|b| - 1];
      ConcatResultAppend(a, c, f);
      var da := ConcatResult(a, f).value;
      var dc := ConcatResult(c, f).value;
      var last := f(b[|b| - 1]).value;
      assert da + dc + last == da + (dc + last);
    }
  }

  /** `ys` repeated `n` times. */
  function Repeat<T>(ys: seq<T>, n: nat): (r: seq<T>)
    ensures |r| == n * |ys|
  {
    if n == 0 then [] else Repeat(ys, n - 1) + ys
  }

  /** When every call yields the same list, the loop yields that list once per element. */
  lemma {:induction false} ConcatResultConstant<T, U>(xs: seq<T>, f: T -> Result<seq<U>>, ys: seq<U>)
    requires forall i :: 0 <= i < |xs| ==> f(xs[i]) == Ok(ys)
    ensures ConcatResult(xs, f) == Ok(Repeat(ys, |xs|))
    decreases |xs|
  {
    if xs != [] {
      ConcatResultConstant(xs[..|xs| - 1], f, ys);
    }
  }
}
