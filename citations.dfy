/** agent/citations.py: the references section rendered from the collected sources. Sources
    are listed once each, in Python's ascending string order, one numbered line per source. */
module Citations {
  import opened PyText
  import opened PyValue

  /** `format_apa_reference(src)`: a URL (starting with "http") gets a closing '.', a PDF path
      is tagged "[PDF] ", anything else gets a closing '.'. */
  function Apa(src: string): (r: string)
  {
    if StartsWith(src, "http") then src + "."
    else if EndsWith(src, ".pdf") then "[PDF] " + src + "."
    else src + "."
  }

  /** The reference is the source with a closing '.', tagged "[PDF] " exactly when the source
      ends in ".pdf" without starting with "http": a URL ending in ".pdf" is not tagged. */
  lemma ApaShape(src: string)
    ensures Apa(src) == "[PDF] " + src + "." <==> !StartsWith(src, "http") && EndsWith(src, ".pdf")
    ensures Apa(src) != "[PDF] " + src + "." ==> Apa(src) == src + "."
  {
    if StartsWith(src, "http") || !EndsWith(src, ".pdf") {
      assert |src + "."| != |"[PDF] " + src + "."|;
    }
  }

  /** The reference holds the source text. */
  lemma ApaHoldsSource(src: string)
    ensures Contains(Apa(src), src)
  {
    ContainsSelf(src);
    if Apa(src) == src + "." {
      ContainsLeft(src, ".", src);
    } else {
      ContainsRight("[PDF] ", src, src);
      ContainsLeft("[PDF] " + src, ".", src);
    }
  }

  /** Python's `<` on strings: lexicographic by code point, a proper prefix first. */
  predicate StrLt(a: string, b: string)
    decreases |a|
  {
    if a == [] then b != []
    else if b == [] then false
    else if a[0] != b[0] then a[0] < b[0]
    else StrLt(a[1..], b[1..])
  }

  lemma {:induction false} StrLtIrreflexive(a: string)
    ensures !StrLt(a, a)
    decreases |a|
  {
    if a != [] {
      StrLtIrreflexive(a[1..]);
    }
  }

  lemma {:induction false} StrLtTransitive(a: string, b: string, c: string)
    requires StrLt(a, b) && StrLt(b, c)
    ensures StrLt(a, c)
    decreases |a|
  {
    if a != [] && b != [] && c != [] && a[0] == b[0] && b[0] == c[0] {
      StrLtTransitive(a[1..], b[1..], c[1..]);
    }
  }

  lemma {:induction false} StrLtTotal(a: string, b: string)
    requires a != b
    ensures StrLt(a, b) || StrLt(b, a)
    decreases |a|
  {
    if a != [] && b != [] && a[0] == b[0] {
      assert a[1..] != b[1..] by {
        assert a == [a[0]] + a[1..] && b == [b[0]] + b[1..];
      }
      StrLtTotal(a[1..], b[1..]);
    }
  }

  lemma StrLtAsymmetric(a: string, b: string)
    requires StrLt(a, b)
    ensures !StrLt(b, a)
  {
    if StrLt(b, a) {
      StrLtTransitive(a, b, a);
      StrLtIrreflexive(a);
    }
  }

  /** Strictly ascending: sorted and without repeats. */
  predicate StrictlySorted(s: seq<string>) {
    forall i, j {:trigger StrLt(s[i], s[j])} :: 0 <= i < j < |s| ==> StrLt(s[i], s[j])
  }

  /** Adds `x` to a strictly sorted list at its place, unless it is already there. */
  function Insert(x: string, s: seq<string>): (r: seq<string>)
    requires StrictlySorted(s)
    ensures StrictlySorted(r)
    ensures forall y :: y in r <==> y == x || y in s
    decreases |s|
  {
    if s == [] then [x]
    else if x == s[0] then s
    else if StrLt(x, s[0]) then
      forall j | 0 < j < |s|
        ensures StrLt(x, s[j])
      {
        StrLtTransitive(x, s[0], s[j]);
      }
      [x] + s
    else
      StrLtTotal(x, s[0]);
      var t := Insert(x, s[1..]);
      assert forall y :: y in s <==> y == s[0] || y in s[1..] by {
        assert s == [s[0]] + s[1..];
      }
      forall j | 0 <= j < |t|
        ensures StrLt(s[0], t[j])
      {
        if t[j] != x {
          assert t[j] in s[1..];
          var m :| 1 <= m < |s| && s[m] == t[j];
        }
      }
      [s[0]] + t
  }

  /** `sorted(set(xs))`: the distinct elements of `xs` in ascending order. */
  function SortedDistinct(xs: seq<string>): (r: seq<string>)
    ensures StrictlySorted(r)
    ensures forall y :: y in r <==> y in xs
    decreases |xs|
  {
    if xs == [] then []
    else
      var front := xs[..|xs| - 1];
      assert forall y :: y in xs <==> y in front || y == xs[|xs| - 1] by {
        assert xs == front + [xs[|xs| - 1]];
      }
      Insert(xs[|xs| - 1], SortedDistinct(front))
  }

  /** Two strictly sorted lists with the same elements are the same list: the order of the
      references is fixed by the set of sources alone. */
  lemma {:induction false} SortedListingUnique(a: seq<string>, b: seq<string>)
    requires StrictlySorted(a) && StrictlySorted(b)
    requires forall y :: y in a <==> y in b
    ensures a == b
    decreases |a|
  {
    if a != [] {
      assert a[0] in a;
    }
    if b != [] {
      assert b[0] in b;
    }
    if a != [] && b != [] {
      if a[0] != b[0] {
        assert b[0] in a && a[0] in b;
        var j :| 0 <= j < |a| && a[j] == b[0];
        var k :| 0 <= k < |b| && b[k] == a[0];
        StrLtAsymmetric(a[0], b[0]);
        assert false;
      }
      TailElements(a);
      TailElements(b);
      SortedListingUnique(a[1..], b[1..]);
      assert a == [a[0]] + a[1..] && b == [b[0]] + b[1..];
    }
  }

  /** The tail of a strictly sorted list holds everything but its head. */
  lemma TailElements(s: seq<string>)
    requires s != [] && StrictlySorted(s)
    ensures StrictlySorted(s[1..])
    ensures forall y :: y in s[1..] <==> y in s && y != s[0]
  {
    assert s == [s[0]] + s[1..];
    if s[0] in s[1..] {
      var j :| 1 <= j < |s| && s[j] == s[0];
      StrLtIrreflexive(s[0]);
    }
  }

  /** A strictly sorted list has no repeats: it has as many entries as distinct elements. */
  lemma {:induction false} StrictlySortedCard(s: seq<string>)
    requires StrictlySorted(s)
    ensures |set y | y in s| == |s|
    decreases |s|
  {
    if s != [] {
      StrictlySortedCard(s[1..]);
      assert (set y | y in s) == {s[0]} + (set y | y in s[1..]) by {
        assert s == [s[0]] + s[1..];
      }
      assert s[0] !in s[1..] by {
        if s[0] in s[1..] {
          var j :| 1 <= j < |s| && s[j] == s[0];
          StrLtIrreflexive(s[0]);
        }
      }
    }
  }

  const NO_REFERENCES := "No references found."
  const REFERENCES_HEADER := "## References\n"

  /** The line `k. <reference>` for a source. */
  function Entry(k: nat, src: string): string {
    NatText(k) + ". " + Apa(src) + "\n"
  }

  /** The numbered entries, the `i`-th source (from 0) numbered `i + 1`. */
  function Entries(srcs: seq<string>): string
    decreases |srcs|
  {
    if srcs == [] then [] else Entries(srcs[..|srcs| - 1]) + Entry(|srcs|, srcs[|srcs| - 1])
  }

  /** What `render_citations(sources)` returns; None stands for a missing list. */
  function CitationsText(sources: Option<seq<string>>): string {
    if sources.None? || sources.value == [] then NO_REFERENCES
    else REFERENCES_HEADER + Entries(SortedDistinct(sources.value))
  }

  /** A missing or empty list, and only such a list, renders the no-references message; any
      other list renders a text that opens with the references header. */
  lemma CitationsShape(sources: Option<seq<string>>)
    ensures CitationsText(sources) == NO_REFERENCES <==> sources.None? || sources.value == []
    ensures sources.Some? && sources.value != [] ==> StartsWith(CitationsText(sources), REFERENCES_HEADER)
  {
    if sources.Some? && sources.value != [] {
      var r := CitationsText(sources);
      assert r[0] != NO_REFERENCES[0];
      assert r[..|REFERENCES_HEADER|] == REFERENCES_HEADER;
    }
  }

  /** The `j`-th entry, numbered `j + 1`, is part of the entries. */
  lemma {:induction false} EntriesHold(srcs: seq<string>, j: nat)
    requires j < |srcs|
    ensures Contains(Entries(srcs), Entry(j + 1, srcs[j]))
    decreases |srcs|
  {
    var front := srcs[..|srcs| - 1];
    if j == |srcs| - 1 {
      ContainsSelf(Entry(j + 1, srcs[j]));
      ContainsRight(Entries(front), Entry(j + 1, srcs[j]), Entry(j + 1, srcs[j]));
    } else {
      EntriesHold(front, j);
      ContainsLeft(Entries(front), Entry(|srcs|, srcs[|srcs| - 1]), Entry(j + 1, srcs[j]));
    }
  }

  lemma ContainsTrans(a: string, b: string, c: string)
    requires Contains(a, b) && Contains(b, c)
    ensures Contains(a, c)
  {
    var i :| 0 <= i <= |a| - |b| && OccursAt(a, b, i);
    var k :| 0 <= k <= |b| - |c| && OccursAt(b, c, k);
    forall t | 0 <= t < |c|
      ensures a[i + k + t] == c[t]
    {
      assert a[i..i + |b|][k + t] == b[k + t];
      assert b[k..k + |c|][t] == b[k + t];
    }
    assert a[i + k..i + k + |c|] == c;
    assert OccursAt(a, c, i + k);
  }

  /** An entry holds its source text. */
  lemma EntryHoldsSource(k: nat, src: string)
    ensures Contains(Entry(k, src), src)
  {
    var head := NatText(k) + ". ";
    ApaHoldsSource(src);
    ContainsRight(head, Apa(src), src);
    ContainsLeft(head + Apa(src), "\n", src);
    assert Entry(k, src) == head + Apa(src) + "\n";
  }

  /** Every source handed in appears in the rendered references. */
  lemma EverySourceCited(sources: seq<string>, s: string)
    requires s in sources
    ensures Contains(CitationsText(Some(sources)), s)
  {
    var sorted := SortedDistinct(sources);
    var j :| 0 <= j < |sorted| && sorted[j] == s;
    EntriesHold(sorted, j);
    EntryHoldsSource(j + 1, s);
    ContainsTrans(Entries(sorted), Entry(j + 1, s), s);
    ContainsRight(REFERENCES_HEADER, Entries(sorted), s);
  }

  lemma SameElements(a: seq<string>, b: seq<string>)
    requires forall y :: y in a <==> y in b
    ensures (set y | y in a) == (set y | y in b)
  {
  }

  /** The references are the entries of the unique ascending listing of the distinct sources,
      one per distinct source. */
  lemma ReferencesListing(sources: seq<string>, listing: seq<string>)
    requires sources != []
    requires StrictlySorted(listing) && forall y :: y in listing <==> y in sources
    ensures CitationsText(Some(sources)) == REFERENCES_HEADER + Entries(listing)
    ensures |listing| == |set y | y in sources|
  {
    SortedListingUnique(SortedDistinct(sources), listing);
    StrictlySortedCard(listing);
    SameElements(listing, sources);
  }

  lemma EntriesSnoc(srcs: seq<string>, idx: nat)
    requires idx < |srcs|
    ensures Entries(srcs[..idx + 1]) == Entries(srcs[..idx]) + Entry(idx + 1, srcs[idx])
  {
    assert srcs[..idx + 1][..idx] == srcs[..idx];
  }

  /** `render_citations(sources)`: the header, then one line appended per sorted distinct source. */
  method RenderCitations(sources: Option<seq<string>>) returns (out: string)
    ensures out == CitationsText(sources)
  {
    if sources.None? || sources.value == [] {
      return NO_REFERENCES;
    }
    var sorted := SortedDistinct(sources.value);
    out := REFERENCES_HEADER;
    var idx := 0;
    assert Entries(sorted[..0]) == [];
    while idx < |sorted|
      invariant 0 <= idx <= |sorted|
      invariant out == REFERENCES_HEADER + Entries(sorted[..idx])
      decreases |sorted| - idx
    {
      var reference := Apa(sorted[idx]);
      var line := NatText(idx + 1) + ". " + reference + "\n";
      assert line == Entry(idx + 1, sorted[idx]);
      EntriesSnoc(sorted, idx);
      AppendAssoc(REFERENCES_HEADER, Entries(sorted[..idx]), line);
      out := out + line;
      idx := idx + 1;
    }
    assert sorted[..|sorted|] == sorted;
  }
}
