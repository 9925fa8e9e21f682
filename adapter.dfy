/** agent/json_generator_adapter.py: the pipeline stage that turns the report into the
    knowledge graph. Writing data.json is left out. */
module JsonGeneratorAdapter {
  import opened PyText
  import opened PyValue
  import opened GraphSchema
  import opened JsonFormatter
  import opened ResearchState

  /** `state.get("query", "Knowledge Graph")`. */
  function Topic(s: State): string {
    s.query.GetOr("Knowledge Graph")
  }

  /** `state.get("final_report") or state.get("report", "")`. */
  function ReportText(s: State): (r: string)
    ensures s.finalReport.Some? && s.finalReport.value != [] ==> r == s.finalReport.value
    ensures (s.finalReport.None? || s.finalReport.value == []) ==> r == s.report.GetOr("")
  {
    if s.finalReport.Some? && s.finalReport.value != [] then s.finalReport.value else s.report.GetOr("")
  }

  /** `json_generator(state)`: a blank report gives the single placeholder node without calling
      the generator; otherwise the graph is `generate_graph_json(report, topic, add_degree=True)`.
      Either way the state gains the `knowledge_graph` key and nothing else changes. */
  function JsonGenerator(s: State, invoke: (string, string) -> Option<string>, loads: string -> Option<Json>,
                         nodeRnd: nat -> Hex8, edgeRnd: nat -> Hex8): Result<State>
  {
    var report := ReportText(s);
    if IsBlank(report) then Ok(s.(knowledgeGraph := Some(Placeholder(Topic(s)))))
    else
      match GenerateGraphSpec(report, Topic(s), true, invoke, loads, nodeRnd, edgeRnd)
      case Raised(err) => Raised(err)
      case Ok(g) => Ok(s.(knowledgeGraph := Some(g)))
  }

  /** What the stage promises: only `knowledge_graph` is added or replaced; a blank report
      gives the placeholder; a non-blank one gives exactly what the generator returns; and
      the stored graph always has at least one node and respects the caps. */
  lemma JsonGeneratorOutcome(s: State, invoke: (string, string) -> Option<string>, loads: string -> Option<Json>,
                             nodeRnd: nat -> Hex8, edgeRnd: nat -> Hex8)
    ensures var r := JsonGenerator(s, invoke, loads, nodeRnd, edgeRnd);
      && (r.Ok? ==> r.value.knowledgeGraph.Some? && r.value == s.(knowledgeGraph := r.value.knowledgeGraph))
      && (IsBlank(ReportText(s)) ==> r == Ok(s.(knowledgeGraph := Some(Placeholder(Topic(s))))))
      && (!IsBlank(ReportText(s)) ==>
            (r.Ok? <==> GenerateGraphSpec(ReportText(s), Topic(s), true, invoke, loads, nodeRnd, edgeRnd).Ok?))
      && (!IsBlank(ReportText(s)) && r.Ok? ==>
            r.value.knowledgeGraph.value
              == GenerateGraphSpec(ReportText(s), Topic(s), true, invoke, loads, nodeRnd, edgeRnd).value)
      && (r.Ok? ==> var g := r.value.knowledgeGraph.value;
            g.nodes != [] && |g.nodes| <= NODE_CAP && |g.edges| <= EDGE_CAP)
  {
    GenerateGraphOutcome(ReportText(s), Topic(s), true, invoke, loads, nodeRnd, edgeRnd);
  }

  /** A non-blank report whose model reply does not parse still yields the placeholder. */
  lemma JsonGeneratorUnparsable(s: State, invoke: (string, string) -> Option<string>, loads: string -> Option<Json>,
                                nodeRnd: nat -> Hex8, edgeRnd: nat -> Hex8)
    requires forall x :: loads(x).None?
    ensures JsonGenerator(s, invoke, loads, nodeRnd, edgeRnd) == Ok(s.(knowledgeGraph := Some(Placeholder(Topic(s)))))
  {
    if !IsBlank(ReportText(s)) {
      GenerateGraphUnparsable(ReportText(s), Topic(s), true, invoke, loads, nodeRnd, edgeRnd);
    }
  }
}
