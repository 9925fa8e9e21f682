/** The pipeline state of graph.py (`ResearchState`, a dictionary whose keys are all optional)
    and the documents that flow through it. */
module ResearchState {
  import opened PyValue
  import opened GraphSchema

  /** A retrieved or gathered text with its metadata (`Document(page_content, metadata)`). */
  datatype Document = Document(pageContent: string, metadata: Dict)

  /** The vector store, seen only through the documents it was built from; similarity search
      over it is a parameter of the stages that query it. */
  datatype Store = Store(docs: seq<Document>)

  /** One field per key the stages read or write; `None` is a missing key. The knowledge graph
      and the final report are keys that the adapter and the app add to the declared ones. */
  datatype State = State(
    query: Option<string>,
    subquestions: Option<seq<string>>,
    vectorstore: Option<Store>,
    answers: Option<seq<string>>,
    sources: Option<set<Json>>,
    report: Option<string>,
    executiveSummary: Option<string>,
    finalReport: Option<string>,
    knowledgeGraph: Option<Graph>)

  /** The state holding only the user's query, as the app starts the pipeline. */
  function Start(query: string): (s: State)
    ensures s.query == Some(query)
  {
    State(Some(query), None, None, None, None, None, None, None, None)
  }
}
