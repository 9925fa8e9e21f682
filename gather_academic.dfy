/** agent/gather_academic.py: the query clamp applied before an arXiv search, and the
    normalisation of whatever the search returns into `{"url", "content"}` records. The search
    call itself is the parameter `run` (None where it raises). */
module GatherAcademic {
  import opened PyText
  import opened PyValue
  import opened Seqs

  /** The clamp length (the `MAX_WEB_QUERY_CHARS` environment default). */
  const MAX_WEB_QUERY: nat := 380

  /** Python `" ".join(s.split())`: the words of `s` separated by single spaces. */
  function Collapse(s: string): string {
    Join(" ", Words(s))
  }

  /** `_clamp_query(q)`: collapse the whitespace of `q or ""` and cut to `MAX_WEB_QUERY`. */
  function ClampQuery(q: Option<string>): (r: string)
    ensures |r| <= MAX_WEB_QUERY
    ensures |r| <= |Collapse(q.GetOr(""))| && r == Collapse(q.GetOr(""))[..|r|]
    ensures |Collapse(q.GetOr(""))| <= MAX_WEB_QUERY ==> r == Collapse(q.GetOr(""))
  {
    Prefix(Collapse(q.GetOr("")), MAX_WEB_QUERY)
  }

  /** Every whitespace character of `s` is a plain space. */
  predicate OnlySpaces(s: string) {
    forall i :: 0 <= i < |s| && IsSpace(s[i]) ==> s[i] == ' '
  }

  /** No whitespace character of `s` is followed by another. */
  predicate NoDoubleSpace(s: string) {
    forall i :: 0 < i < |s| && IsSpace(s[i]) ==> !IsSpace(s[i - 1])
  }

  predicate NoLeadingSpace(s: string) {
    s == [] || !IsSpace(s[0])
  }

  /** The text `" ".join(words)` is made of: no leading whitespace, no run of two whitespace
      characters, and only plain spaces. */
  predicate SingleSpaced(s: string) {
    NoLeadingSpace(s) && NoDoubleSpace(s) && OnlySpaces(s)
  }

  /** Joining words with single spaces gives single-spaced text with no trailing space. */
  lemma {:induction false} JoinWordsSingleSpaced(ws: seq<string>)
    requires forall i :: 0 <= i < |ws| ==> IsWord(ws[i])
    ensures SingleSpaced(Join(" ", ws))
    ensures Join(" ", ws) == [] || !IsSpace(Join(" ", ws)[|Join(" ", ws)| - 1])
    decreases |ws|
  {
    if |ws| == 1 {
      assert IsWord(ws[0]);
    } else if |ws| > 1 {
      var w := ws[0];
      var rest := Join(" ", ws[1..]);
      JoinWordsSingleSpaced(ws[1..]);
      assert IsWord(w) && IsWord(ws[1]);
      assert rest != [] && !IsSpace(rest[0]) by { JoinHead(ws[1..]); }
      var s := w + " " + rest;
      assert Join(" ", ws) == s;
      forall i | 0 <= i < |s| && IsSpace(s[i])
        ensures s[i] == ' ' && (i > 0 ==> !IsSpace(s[i - 1]))
      {
        if i > |w| {
          assert s[i] == rest[i - |w| - 1];
          if i > |w| + 1 {
            assert s[i - 1] == rest[i - |w| - 2];
          }
        }
      }
    }
  }

  /** A join of words starts with the first word's first character. */
  lemma JoinHead(ws: seq<string>)
    requires ws != [] && IsWord(ws[0])
    ensures Join(" ", ws) != [] && Join(" ", ws)[0] == ws[0][0]
  {
  }

  /** Cutting single-spaced text keeps it single-spaced. */
  lemma SingleSpacedPrefix(s: string, k: nat)
    requires SingleSpaced(s) && k <= |s|
    ensures SingleSpaced(s[..k])
  {
  }

  /** The clamped query is single-spaced: no leading whitespace, no two spaces in a row, no
      tab or line break; a missing or empty query clamps to "". */
  lemma ClampQueryShape(q: Option<string>)
    ensures SingleSpaced(ClampQuery(q))
    ensures q.None? ==> ClampQuery(q) == []
  {
    var c := Collapse(q.GetOr(""));
    JoinWordsSingleSpaced(Words(q.GetOr("")));
    SingleSpacedPrefix(c, |ClampQuery(q)|);
    if q.None? {
      assert Words("") == [];
    }
  }

  const ARXIV := JStr("arxiv.org")

  /** A list result is flattened one level: a list item contributes its elements, any other
      item itself. */
  function Flat(items: seq<Json>): seq<Json>
    decreases |items|
  {
    if items == [] then []
    else
      var last := items[|items| - 1];
      Flat(items[..|items| - 1]) + (if last.JArr? then last.items else [last])
  }

  /** Flattening distributes over concatenation: the order of the items is kept. */
  lemma {:induction false} FlatAppend(a: seq<Json>, b: seq<Json>)
    ensures Flat(a + b) == Flat(a) + Flat(b)
    decreases |b|
  {
    if b == [] {
      assert a + b == a;
    } else {
      var c := b[..|b| - 1];
      var ab := a + b;
      assert ab[|ab| - 1] == b[|b| - 1];
      assert ab[..|ab| - 1] == a + c;
      FlatAppend(a, c);
    }
  }

  /** Items that are not lists pass through the flattening unchanged. */
  lemma {:induction false} FlatNoLists(items: seq<Json>)
    requires forall i :: 0 <= i < |items| ==> !items[i].JArr?
    ensures Flat(items) == items
    decreases |items|
  {
    if items != [] {
      FlatNoLists(items[..|items| - 1]);
    }
  }

  /** Exactly one level is removed: a list inside a list item survives as an element. */
  lemma FlatOneLevel(xs: seq<Json>)
    ensures Flat([JArr(xs)]) == xs
    ensures Flat([JArr([JArr(xs)])]) == [JArr(xs)]
  {
    assert [JArr(xs)][..0] == [];
    assert [JArr([JArr(xs)])][..0] == [];
  }

  /** The normalisation of the search result into a list: a string becomes one record, a
      dict a one-element list, a list is flattened, anything else is dropped. */
  function Normalise(results: Json): seq<Json> {
    match results
    case JStr(s) => [JObj(map["url" := ARXIV, "content" := JStr(s)])]
    case JObj(_) => [results]
    case JArr(items) => Flat(items)
    case _ => []
  }

  /** The output record for one normalised item: a dict keeps its `url` (default
      "arxiv.org") and `content` (default `str(r)`); anything else is `str(r)` from arXiv. */
  function Record(r: Json): (d: Dict)
    ensures "url" in d && "content" in d
    ensures !r.JObj? ==> d["url"] == ARXIV && d["content"] == JStr(PyStr(r))
    ensures r.JObj? ==> d["url"] == Get(r.fields, "url", ARXIV)
    ensures r.JObj? ==> d["content"] == Get(r.fields, "content", JStr(PyStr(r)))
  {
    match r
    case JObj(m) => map["url" := Get(m, "url", ARXIV), "content" := Get(m, "content", JStr(PyStr(r)))]
    case _ => map["url" := ARXIV, "content" := JStr(PyStr(r))]
  }

  /** What `search_academic(query, max_results)` returns when the search yields `run(q)`
      for the clamped query `q`: the first `max_results` records, or [] when the search raises. */
  function AcademicSpec(query: Option<string>, maxResults: int, run: string -> Option<Json>): seq<Dict> {
    match run(ClampQuery(query))
    case None => []
    case Some(v) => Prefix(MapSeq(Normalise(v), Record), maxResults)
  }

  /** The flattening loop over a list result. */
  method Flatten(items: seq<Json>) returns (flat: seq<Json>)
    ensures flat == Flat(items)
  {
    flat := [];
    var i := 0;
    while i < |items|
      invariant 0 <= i <= |items|
      invariant flat == Flat(items[..i])
      decreases |items| - i
    {
      var r := items[i];
      assert items[..i + 1][..i] == items[..i];
      if r.JArr? {
        flat := flat + r.items;
      } else {
        flat := flat + [r];
      }
      i := i + 1;
    }
    assert items[..i] == items;
  }

  /** The record-building loop. */
  method Records(results: seq<Json>) returns (out: seq<Dict>)
    ensures out == MapSeq(results, Record)
  {
    out := [];
    var i := 0;
    while i < |results|
      invariant 0 <= i <= |results|
      invariant out == MapSeq(results[..i], Record)
      decreases |results| - i
    {
      var r := results[i];
      MapSeqAppend(results[..i], [r], Record);
      assert results[..i + 1] == results[..i] + [r];
      out := out + [Record(r)];
      i := i + 1;
    }
    assert results[..i] == results;
  }

  /** The type dispatch of `search_academic` on the search result. */
  method NormaliseResult(raw: Json) returns (results: seq<Json>)
    ensures results == Normalise(raw)
  {
    match raw {
      case JStr(s) =>
        results := [JObj(map["url" := ARXIV, "content" := JStr(s)])];
      case JObj(_) =>
        results := [raw];
      case JArr(items) =>
        results := Flatten(items);
      case _ =>
        results := [];
    }
  }

  /** `search_academic(query, max_results)` with the search call as `run`. */
  method SearchAcademic(query: Option<string>, maxResults: int, run: string -> Option<Json>)
    returns (out: seq<Dict>)
    ensures out == AcademicSpec(query, maxResults, run)
  {
    var q := ClampQuery(query);
    var raw := run(q);
    if raw.None? {
      return [];
    }
    var results := NormaliseResult(raw.value);
    var all := Records(results);
    out := Prefix(all, maxResults);
  }

  /** A failing search yields no records. */
  lemma AcademicSearchRaises(query: Option<string>, maxResults: int, run: string -> Option<Json>)
    requires run(ClampQuery(query)).None?
    ensures AcademicSpec(query, maxResults, run) == []
  {
  }

  /** A string result becomes exactly one arXiv record holding that string. */
  lemma AcademicStringResult(query: Option<string>, maxResults: int, run: string -> Option<Json>, s: string)
    requires run(ClampQuery(query)) == Some(JStr(s)) && maxResults >= 1
    ensures AcademicSpec(query, maxResults, run) == [map["url" := ARXIV, "content" := JStr(s)]]
  {
    var rec := JObj(map["url" := ARXIV, "content" := JStr(s)]);
    assert MapSeq([rec], Record) == [Record(rec)];
    assert Record(rec) == map["url" := ARXIV, "content" := JStr(s)];
  }

  /** A dict result becomes one record built from it. */
  lemma AcademicDictResult(query: Option<string>, maxResults: int, run: string -> Option<Json>, m: Dict)
    requires run(ClampQuery(query)) == Some(JObj(m)) && maxResults >= 1
    ensures AcademicSpec(query, maxResults, run) == [Record(JObj(m))]
  {
    assert MapSeq([JObj(m)], Record) == [Record(JObj(m))];
  }

  /** None, a bool or a number yields no records. */
  lemma AcademicOtherResult(query: Option<string>, maxResults: int, run: string -> Option<Json>)
    requires run(ClampQuery(query)).Some?
    requires var v := run(ClampQuery(query)).value; !v.JStr? && !v.JObj? && !v.JArr?
    ensures AcademicSpec(query, maxResults, run) == []
  {
  }

  /** The output is the first `max_results` records of the normalised result: record `i`
      is built from normalised item `i`, and every record has a `url` and a `content`. */
  lemma AcademicRecords(query: Option<string>, maxResults: int, run: string -> Option<Json>)
    requires run(ClampQuery(query)).Some?
    ensures var items := Normalise(run(ClampQuery(query)).value);
            var out := AcademicSpec(query, maxResults, run);
            && (maxResults >= 0 ==> |out| == (if maxResults < |items| then maxResults else |items|))
            && |out| <= |items|
            && forall i :: 0 <= i < |out| ==> out[i] == Record(items[i]) && "url" in out[i] && "content" in out[i]
  {
  }
}
