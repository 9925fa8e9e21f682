/** graph.py: the fixed order planner, gatherer, synthesizer, output, with the state each
    stage returns handed to the next and an exception in any stage ending the run. */
module Pipeline {
  import opened PyText
  import opened PyValue
  import opened ResearchState
  import Planner
  import Gatherer
  import Synthesizer

  /** Everything outside the stages: the planner's model reply, the local PDFs, the two search
      providers, retrieval from the vector store, and the synthesizer's two model calls. */
  datatype Externals = Externals(
    respond: string -> string,
    localPdfs: seq<Document>,
    web: string -> Option<seq<Dict>>,
    arxiv: string -> Option<Json>,
    retrieve: (string, Store) -> seq<Document>,
    ask: (string, string) -> string,
    summarise: string -> string)

  /** After the planner: gatherer, synthesizer and output. */
  function AfterPlanner(s: State, x: Externals): Result<State> {
    var g := Gatherer.GathererSpec(s, x.localPdfs, x.web, x.arxiv);
    if g.Raised? then g
    else
      var y := Synthesizer.SynthesizerSpec(g.value, x.retrieve, x.ask, x.summarise);
      if y.Raised? then y else Synthesizer.OutputSpec(y.value)
  }

  /** The compiled graph run on the app's starting state for `query`. */
  function Run(query: string, x: Externals): Result<State> {
    var p := Planner.PlannerNode(Start(query), x.respond);
    if p.Raised? then p else AfterPlanner(p.value, x)
  }

  /** A blank query stops the run in the planner with `ValueError`. */
  lemma RunBlankQuery(query: string, x: Externals)
    requires IsBlank(query)
    ensures Run(query, x) == Raised(ValueError)
  {
  }

  /** Once the synthesizer has run, the output stage cannot fail: there is one answer per
      sub-question, so every section has its title. */
  lemma OutputAfterSynthesizer(s: State, x: Externals)
    requires Synthesizer.SynthesizerSpec(s, x.retrieve, x.ask, x.summarise).Ok?
    ensures var y := Synthesizer.SynthesizerSpec(s, x.retrieve, x.ask, x.summarise).value;
            && y.answers.Some? && y.subquestions == s.subquestions && |y.answers.value| == |s.subquestions.value|
            && Synthesizer.OutputSpec(y)
               == Ok(y.(report := Some(Synthesizer.ReportHead(y.executiveSummary.value)
                                       + Synthesizer.Sections(s.subquestions.value, y.answers.value))))
  {
    Synthesizer.SynthesizerOutcome(s, x.retrieve, x.ask, x.summarise);
    var y := Synthesizer.SynthesizerSpec(s, x.retrieve, x.ask, x.summarise).value;
    Synthesizer.OutputAligned(y);
    Synthesizer.OutputOutcome(y);
  }

  /** After the planner, only the gatherer can fail (a document whose content is not a string):
      the state it builds always carries sub-questions and a vector store. */
  lemma AfterPlannerOutcome(s: State, x: Externals)
    requires s.subquestions.Some?
    ensures var g := Gatherer.GathererSpec(s, x.localPdfs, x.web, x.arxiv);
            AfterPlanner(s, x).Ok? <==> g.Ok?
    ensures AfterPlanner(s, x).Ok? ==>
              var r := AfterPlanner(s, x).value;
              && r.subquestions == s.subquestions && r.query == s.query
              && r.answers.Some? && |r.answers.value| == |s.subquestions.value|
              && r.report.Some? && r.executiveSummary.Some?
              && r.report.value == Synthesizer.ReportHead(r.executiveSummary.value)
                                   + Synthesizer.Sections(s.subquestions.value, r.answers.value)
  {
    var g := Gatherer.GathererSpec(s, x.localPdfs, x.web, x.arxiv);
    if g.Ok? {
      Gatherer.GathererOutcome(s, x.localPdfs, x.web, x.arxiv);
      assert g.value.vectorstore.Some? && g.value.subquestions == s.subquestions;
      OutputAfterSynthesizer(g.value, x);
    }
  }

  /** A run on a non-blank query succeeds exactly when gathering succeeds; its report then has
      one section per planned sub-question, in plan order. */
  lemma RunOutcome(query: string, x: Externals)
    requires !IsBlank(query)
    ensures var subqs := Planner.SubQuestions(x.respond(Strip(query)));
            && (Run(query, x).Ok? <==> Gatherer.AllDocs(subqs, x.localPdfs, x.web, x.arxiv).Ok?)
            && (Run(query, x).Ok? ==>
                  var r := Run(query, x).value;
                  && r.query == Some(Strip(query)) && r.subquestions == Some(subqs)
                  && r.answers.Some? && |r.answers.value| == |subqs|
                  && r.report.Some? && r.executiveSummary.Some?
                  && r.report.value == Synthesizer.ReportHead(r.executiveSummary.value)
                                       + Synthesizer.Sections(subqs, r.answers.value))
  {
    var p := Planner.PlannerNode(Start(query), x.respond);
    assert Start(query).query.GetOr("") == query;
    assert p.Ok? && p.value.subquestions.Some?;
    AfterPlannerOutcome(p.value, x);
  }
}
