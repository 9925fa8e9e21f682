/** agent/gatherer.py: turning search results into documents for one sub-question
    (`gather_all`), and gathering every sub-question's documents into the vector store
    (`gatherer_node`). The web search is the parameter `web`, the arXiv call the parameter
    `arxiv` of the academic search, and the vector store is seen through the documents it is
    built from. */
module Gatherer {
  import opened PyValue
  import opened ResearchState
  import opened ResultSeq
  import GatherAcademic

  /** `Document(page_content=r.get("content", ""), metadata={"source": r.get("url", fallback)})`.
      The document model accepts only string content; anything else raises `ValidationError`. */
  function ToDoc(r: Dict, fallback: string): (d: Result<Document>)
    ensures d.Ok? <==> Get(r, "content", JStr("")).JStr?
    ensures d.Ok? && "content" !in r ==> d.value.pageContent == []
    ensures d.Ok? && "content" in r ==> d.value.pageContent == r["content"].s
    ensures d.Ok? ==> "source" in d.value.metadata && |d.value.metadata| == 1
    ensures d.Ok? && "url" !in r ==> d.value.metadata["source"] == JStr(fallback)
    ensures d.Ok? && "url" in r ==> d.value.metadata["source"] == r["url"]
  {
    var content := Get(r, "content", JStr(""));
    if content.JStr? then Ok(Document(content.s, map["source" := Get(r, "url", JStr(fallback))]))
    else Raised(ValidationError)
  }

  /** A web result as a document; the source defaults to "Web". */
  function WebDoc(i: nat, r: Dict): Result<Document> {
    ToDoc(r, "Web")
  }

  /** An academic result as a document; the source defaults to "Academic". */
  function AcademicDoc(i: nat, r: Dict): Result<Document> {
    ToDoc(r, "Academic")
  }

  /** `results or []`. */
  function OrEmpty(results: Option<seq<Dict>>): seq<Dict> {
    results.GetOr([])
  }

  /** What `gather_all` returns for the two search results and the local PDFs: the web
      documents, then the academic documents, then the local PDFs. */
  function GatherAllSpec(web: Option<seq<Dict>>, academic: Option<seq<Dict>>, localPdfs: seq<Document>)
    : Result<seq<Document>>
  {
    var w := MapResult(OrEmpty(web), WebDoc);
    var a := MapResult(OrEmpty(academic), AcademicDoc);
    if w.Raised? then Raised(w.error)
    else if a.Raised? then Raised(a.error)
    else Ok(w.value + a.value + localPdfs)
  }

  /** One conversion loop of `gather_all`: convert each result in order, appending the
      documents; a result the document model rejects stops the loop. */
  method ConvertResults(results: seq<Dict>, convert: (nat, Dict) -> Result<Document>)
    returns (r: Result<seq<Document>>)
    ensures r == MapResult(results, convert)
  {
    var docs: seq<Document> := [];
    var i := 0;
    while i < |results|
      invariant 0 <= i <= |results|
      invariant MapResult(results[..i], convert) == Ok(docs)
      decreases |results| - i
    {
      var doc := convert(i, results[i]);
      MapResultStep(results, convert, i);
      if doc.Raised? {
        return Raised(doc.error);
      }
      docs := docs + [doc.value];
      i := i + 1;
    }
    assert results[..i] == results;
    r := Ok(docs);
  }

  /** `gather_all` after both searches have returned: the web loop, the academic loop, then
      the local PDFs. */
  method GatherAll(web: Option<seq<Dict>>, academic: Option<seq<Dict>>, localPdfs: seq<Document>)
    returns (r: Result<seq<Document>>)
    ensures r == GatherAllSpec(web, academic, localPdfs)
  {
    var webDocs := ConvertResults(OrEmpty(web), WebDoc);
    if webDocs.Raised? {
      return Raised(webDocs.error);
    }
    var academicDocs := ConvertResults(OrEmpty(academic), AcademicDoc);
    if academicDocs.Raised? {
      return Raised(academicDocs.error);
    }
    r := Ok(webDocs.value + academicDocs.value + localPdfs);
  }

  /** The documents come in three blocks: the web documents, the academic documents, then
      the local PDFs; the length is the sum of the three. */
  lemma GatherAllLayout(web: Option<seq<Dict>>, academic: Option<seq<Dict>>, localPdfs: seq<Document>)
    requires GatherAllSpec(web, academic, localPdfs).Ok?
    ensures var docs := GatherAllSpec(web, academic, localPdfs).value;
            var w := MapResult(OrEmpty(web), WebDoc);
            var a := MapResult(OrEmpty(academic), AcademicDoc);
            && w.Ok? && a.Ok? && docs == w.value + a.value + localPdfs
            && |docs| == |OrEmpty(web)| + |OrEmpty(academic)| + |localPdfs|
  {
  }

  /** Document `i` of the first block is web result `i` converted. */
  lemma GatherAllWebDoc(web: Option<seq<Dict>>, academic: Option<seq<Dict>>, localPdfs: seq<Document>, i: nat)
    requires GatherAllSpec(web, academic, localPdfs).Ok? && i < |OrEmpty(web)|
    ensures ToDoc(OrEmpty(web)[i], "Web") == Ok(GatherAllSpec(web, academic, localPdfs).value[i])
  {
    var w := MapResult(OrEmpty(web), WebDoc).value;
    var a := MapResult(OrEmpty(academic), AcademicDoc).value;
    assert w + a + localPdfs == [] + w + (a + localPdfs);
    MapResultInBlock(OrEmpty(web), WebDoc, [], a + localPdfs, GatherAllSpec(web, academic, localPdfs).value, i);
  }

  /** Document `i` of the second block is academic result `i` converted. */
  lemma GatherAllAcademicDoc(web: Option<seq<Dict>>, academic: Option<seq<Dict>>, localPdfs: seq<Document>, i: nat)
    requires GatherAllSpec(web, academic, localPdfs).Ok? && i < |OrEmpty(academic)|
    ensures ToDoc(OrEmpty(academic)[i], "Academic")
      == Ok(GatherAllSpec(web, academic, localPdfs).value[|OrEmpty(web)| + i])
  {
    var w := MapResult(OrEmpty(web), WebDoc).value;
    MapResultInBlock(OrEmpty(academic), AcademicDoc, w, localPdfs, GatherAllSpec(web, academic, localPdfs).value, i);
  }

  /** `gather_all` raises exactly when some web or academic result has non-string content. */
  lemma GatherAllRaises(web: Option<seq<Dict>>, academic: Option<seq<Dict>>, localPdfs: seq<Document>)
    ensures GatherAllSpec(web, academic, localPdfs).Raised? <==>
      (exists i :: 0 <= i < |OrEmpty(web)| && !Get(OrEmpty(web)[i], "content", JStr("")).JStr?) ||
      (exists i :: 0 <= i < |OrEmpty(academic)| && !Get(OrEmpty(academic)[i], "content", JStr("")).JStr?)
  {
    var ws := OrEmpty(web);
    var acs := OrEmpty(academic);
    MapResultRaises(ws, WebDoc);
    MapResultRaises(acs, AcademicDoc);
    assert forall i :: 0 <= i < |ws| ==> (WebDoc(i, ws[i]).Raised? <==> !Get(ws[i], "content", JStr("")).JStr?);
    assert forall i :: 0 <= i < |acs| ==> (AcademicDoc(i, acs[i]).Raised? <==> !Get(acs[i], "content", JStr("")).JStr?);
  }

  /** A missing or empty search result contributes no documents and does not abort. */
  lemma GatherAllNoResults(localPdfs: seq<Document>)
    ensures GatherAllSpec(None, None, localPdfs) == Ok(localPdfs)
    ensures GatherAllSpec(Some([]), Some([]), localPdfs) == Ok(localPdfs)
  {
    assert [] + [] + localPdfs == localPdfs;
  }

  /** An academic record built from a non-dict search item becomes a document with the item's
      text, sourced to "arxiv.org" rather than the "Academic" default. */
  lemma AcademicItemDoc(i: nat, item: Json)
    requires !item.JObj?
    ensures AcademicDoc(i, GatherAcademic.Record(item)) == Ok(Document(PyStr(item), map["source" := GatherAcademic.ARXIV]))
  {
  }

  /** The academic search `gather_all` runs for one sub-question (`max_results` 3). */
  function AcademicResults(subq: string, arxiv: string -> Option<Json>): seq<Dict> {
    GatherAcademic.AcademicSpec(Some(subq), 3, arxiv)
  }

  /** The documents of one sub-question. */
  function Batch(subq: string, localPdfs: seq<Document>, web: string -> Option<seq<Dict>>,
                 arxiv: string -> Option<Json>): Result<seq<Document>> {
    GatherAllSpec(web(subq), Some(AcademicResults(subq, arxiv)), localPdfs)
  }

  /** The batch function of the loop in `gatherer_node`. */
  function BatchOf(localPdfs: seq<Document>, web: string -> Option<seq<Dict>>,
                   arxiv: string -> Option<Json>): string -> Result<seq<Document>> {
    subq => Batch(subq, localPdfs, web, arxiv)
  }

  /** `all_docs` after the loop over `subqs`: every sub-question's batch, in order. */
  function AllDocs(subqs: seq<string>, localPdfs: seq<Document>, web: string -> Option<seq<Dict>>,
                   arxiv: string -> Option<Json>): Result<seq<Document>>
  {
    ConcatResult(subqs, BatchOf(localPdfs, web, arxiv))
  }

  /** What `gatherer_node` returns: `KeyError` without sub-questions, otherwise the state with
      the vector store built from all gathered documents. */
  function GathererSpec(s: State, localPdfs: seq<Document>, web: string -> Option<seq<Dict>>,
                        arxiv: string -> Option<Json>): Result<State>
  {
    if s.subquestions.None? then Raised(KeyError)
    else
      match AllDocs(s.subquestions.value, localPdfs, web, arxiv)
      case Raised(e) => Raised(e)
      case Ok(docs) => Ok(s.(vectorstore := Some(Store(docs))))
  }

  /** `gatherer_node(state)` with the local PDFs loaded once and passed in. */
  method GathererNode(s: State, localPdfs: seq<Document>, web: string -> Option<seq<Dict>>,
                      arxiv: string -> Option<Json>) returns (r: Result<State>)
    ensures r == GathererSpec(s, localPdfs, web, arxiv)
  {
    if s.subquestions.None? {
      return Raised(KeyError);
    }
    var subqs := s.subquestions.value;
    ghost var f := BatchOf(localPdfs, web, arxiv);
    var allDocs: seq<Document> := [];
    var i := 0;
    while i < |subqs|
      invariant 0 <= i <= |subqs|
      invariant ConcatResult(subqs[..i], f) == Ok(allDocs)
      decreases |subqs| - i
    {
      var subq := subqs[i];
      var academic := GatherAcademic.SearchAcademic(Some(subq), 3, arxiv);
      var docs := GatherAll(web(subq), Some(academic), localPdfs);
      assert docs == f(subq);
      ConcatResultStep(subqs, f, i);
      if docs.Raised? {
        return Raised(docs.error);
      }
      allDocs := allDocs + docs.value;
      i := i + 1;
    }
    assert subqs[..i] == subqs;
    r := Ok(s.(vectorstore := Some(Store(allDocs))));
  }

  /** The batches are concatenated in sub-question order: gathering `a + b` gives the
      documents of `a` followed by those of `b`. */
  lemma AllDocsAppend(a: seq<string>, b: seq<string>, localPdfs: seq<Document>,
                      web: string -> Option<seq<Dict>>, arxiv: string -> Option<Json>)
    requires AllDocs(a, localPdfs, web, arxiv).Ok? && AllDocs(b, localPdfs, web, arxiv).Ok?
    ensures AllDocs(a + b, localPdfs, web, arxiv)
      == Ok(AllDocs(a, localPdfs, web, arxiv).value + AllDocs(b, localPdfs, web, arxiv).value)
  {
    ConcatResultAppend(a, b, BatchOf(localPdfs, web, arxiv));
  }

  /** With nothing found by either search, a sub-question's batch is the local PDFs. */
  lemma EmptySearchBatch(subq: string, localPdfs: seq<Document>, web: string -> Option<seq<Dict>>,
                         arxiv: string -> Option<Json>)
    requires OrEmpty(web(subq)) == [] && arxiv(GatherAcademic.ClampQuery(Some(subq))).None?
    ensures Batch(subq, localPdfs, web, arxiv) == Ok(localPdfs)
  {
    assert AcademicResults(subq, arxiv) == [];
    assert [] + [] + localPdfs == localPdfs;
  }

  /** The local PDFs are added once per sub-question: when no search returns anything, the
      store holds exactly the local PDFs repeated once for each sub-question. */
  lemma LocalPdfsPerSubquestion(subqs: seq<string>, localPdfs: seq<Document>,
                                web: string -> Option<seq<Dict>>, arxiv: string -> Option<Json>)
    requires forall q :: OrEmpty(web(q)) == [] && arxiv(q).None?
    ensures AllDocs(subqs, localPdfs, web, arxiv) == Ok(Repeat(localPdfs, |subqs|))
  {
    var f := BatchOf(localPdfs, web, arxiv);
    forall i | 0 <= i < |subqs|
      ensures f(subqs[i]) == Ok(localPdfs)
    {
      var q := subqs[i];
      assert OrEmpty(web(q)) == [] && arxiv(GatherAcademic.ClampQuery(Some(q))).None?;
      EmptySearchBatch(q, localPdfs, web, arxiv);
    }
    ConcatResultConstant(subqs, f, localPdfs);
  }

  /** The node raises `KeyError` when the sub-questions are missing; on success only the
      vector store changes, and it holds the gathered documents. */
  lemma GathererOutcome(s: State, localPdfs: seq<Document>, web: string -> Option<seq<Dict>>,
                        arxiv: string -> Option<Json>)
    ensures var r := GathererSpec(s, localPdfs, web, arxiv);
            && (s.subquestions.None? ==> r == Raised(KeyError))
            && (r.Ok? ==> && r.value == s.(vectorstore := r.value.vectorstore)
                          && r.value.vectorstore == Some(Store(AllDocs(s.subquestions.value, localPdfs, web, arxiv).value)))
  {
  }
}
