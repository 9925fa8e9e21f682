/** agent/synthesizer.py: answering each sub-question from the retrieved chunks, collecting
    their sources, summarising the findings, and assembling the final report. Retrieval from
    the vector store is the parameter `retrieve`; the model calls are the parameters `ask`
    (sub-question and context to answer text) and `summarise` (findings to summary text). */
module Synthesizer {
  import opened PyText
  import opened PyValue
  import opened Seqs
  import opened ResearchState

  /** `c.page_content`. */
  function Content(c: Document): string {
    c.pageContent
  }

  /** `c.metadata.get("source", "")`. */
  function SourceOf(c: Document): Json {
    Get(c.metadata, "source", JStr(""))
  }

  /** The context given to the model: the chunk contents joined by blank lines, in
      retrieval order. */
  function Context(chunks: seq<Document>): string {
    Join("\n\n", MapSeq(chunks, Content))
  }

  /** Every chunk's content occurs in the context. */
  lemma ContextHoldsChunks(chunks: seq<Document>, i: nat)
    requires i < |chunks|
    ensures Contains(Context(chunks), chunks[i].pageContent)
  {
    JoinContains("\n\n", MapSeq(chunks, Content), i);
  }

  /** Retrieval order is kept: one more chunk appends a blank line and its content. */
  lemma ContextSnoc(chunks: seq<Document>, c: Document)
    requires chunks != []
    ensures Context(chunks + [c]) == Context(chunks) + "\n\n" + c.pageContent
  {
    MapSeqAppend(chunks, [c], Content);
    assert MapSeq([c], Content) == [c.pageContent];
    JoinSnoc("\n\n", MapSeq(chunks, Content), c.pageContent);
  }

  /** The set of chunk sources: a value is a source exactly when some chunk has it as its
      "source" metadata, or lacks that key and the value is "". */
  function Sources(chunks: seq<Document>): (r: set<Json>)
    ensures forall x :: x in r <==> exists i :: 0 <= i < |chunks| && SourceOf(chunks[i]) == x
  {
    set i | 0 <= i < |chunks| :: SourceOf(chunks[i])
  }

  /** What `synthesize_subquestion(subq, vectorstore)` returns: the model's answer to the
      sub-question over the context, and the chunk sources. */
  datatype Answer = Answer(text: string, sources: set<Json>)

  function SynthesizeSubquestion(subq: string, store: Store, retrieve: (string, Store) -> seq<Document>,
                                 ask: (string, string) -> string): (a: Answer)
    ensures var chunks := retrieve(subq, store);
            && a.text == ask(subq, Context(chunks))
            && forall x :: x in a.sources <==> exists i :: 0 <= i < |chunks| && SourceOf(chunks[i]) == x
  {
    var chunks := retrieve(subq, store);
    Answer(ask(subq, Context(chunks)), Sources(chunks))
  }

  /** One finding: `f"Sub-question: {sq}\nAnswer:\n{ans}"`. */
  function Finding(sq: string, ans: string): string {
    "Sub-question: " + sq + "\nAnswer:\n" + ans
  }

  /** The findings of `zip(subquestions, answers)`, stopping at the shorter list. */
  function Findings(subqs: seq<string>, answers: seq<string>): (r: seq<string>)
    ensures |r| == if |subqs| < |answers| then |subqs| else |answers|
    ensures forall i :: 0 <= i < |r| ==> r[i] == Finding(subqs[i], answers[i])
    decreases |subqs|
  {
    if subqs == [] || answers == [] then []
    else [Finding(subqs[0], answers[0])] + Findings(subqs[1..], answers[1..])
  }

  /** What `generate_executive_summary` returns: the model's summary of the findings joined by
      blank lines, stripped of surrounding whitespace. */
  function ExecutiveSummary(subqs: seq<string>, answers: seq<string>, summarise: string -> string): (r: string)
    ensures r == [] || (!IsSpace(r[0]) && !IsSpace(r[|r| - 1]))
  {
    Strip(summarise(Join("\n\n", Findings(subqs, answers))))
  }

  /** Every answered sub-question reaches the summariser: pair `i` is in the findings text. */
  lemma FindingsHoldPairs(subqs: seq<string>, answers: seq<string>, i: nat)
    requires i < |subqs| && i < |answers|
    ensures Contains(Join("\n\n", Findings(subqs, answers)), Finding(subqs[i], answers[i]))
  {
    JoinContains("\n\n", Findings(subqs, answers), i);
  }

  /** The model's answer to one sub-question over its retrieved context. */
  function AnswerTo(subq: string, store: Store, retrieve: (string, Store) -> seq<Document>,
                    ask: (string, string) -> string): string {
    ask(subq, Context(retrieve(subq, store)))
  }

  /** The sources of one sub-question's retrieved chunks. */
  function SourcesFor(subq: string, store: Store, retrieve: (string, Store) -> seq<Document>): set<Json> {
    Sources(retrieve(subq, store))
  }

  /** The answers of the loop over `subqs`, one per sub-question. */
  function AnswersOf(subqs: seq<string>, store: Store, retrieve: (string, Store) -> seq<Document>,
                     ask: (string, string) -> string): (r: seq<string>)
    ensures |r| == |subqs|
    decreases |subqs|
  {
    if subqs == [] then []
    else AnswersOf(subqs[..|subqs| - 1], store, retrieve, ask) + [AnswerTo(subqs[|subqs| - 1], store, retrieve, ask)]
  }

  /** The union of the per-sub-question source sets. */
  function SourcesOf(subqs: seq<string>, store: Store, retrieve: (string, Store) -> seq<Document>): set<Json>
    decreases |subqs|
  {
    if subqs == [] then {}
    else SourcesOf(subqs[..|subqs| - 1], store, retrieve) + SourcesFor(subqs[|subqs| - 1], store, retrieve)
  }

  /** The answers are aligned with the sub-questions: answer `i` is the model's answer to
      sub-question `i` over that sub-question's own context. */
  lemma {:induction false} AnswersAligned(subqs: seq<string>, store: Store, retrieve: (string, Store) -> seq<Document>,
                                          ask: (string, string) -> string, i: nat)
    requires i < |subqs|
    ensures AnswersOf(subqs, store, retrieve, ask)[i] == ask(subqs[i], Context(retrieve(subqs[i], store)))
    decreases |subqs|
  {
    var p := subqs[..|subqs| - 1];
    if i < |p| {
      AnswersAligned(p, store, retrieve, ask, i);
      assert p[i] == subqs[i];
    }
  }

  /** A value is among the collected sources exactly when it is a source of some
      sub-question's chunks. */
  lemma {:induction false} SourcesUnion(subqs: seq<string>, store: Store, retrieve: (string, Store) -> seq<Document>,
                                        x: Json)
    ensures x in SourcesOf(subqs, store, retrieve) <==>
      exists i :: 0 <= i < |subqs| && x in SourcesFor(subqs[i], store, retrieve)
    decreases |subqs|
  {
    if subqs != [] {
      var p := subqs[..|subqs| - 1];
      SourcesUnion(p, store, retrieve, x);
      if x in SourcesOf(p, store, retrieve) {
        var i :| 0 <= i < |p| && x in SourcesFor(p[i], store, retrieve);
        assert p[i] == subqs[i];
      }
      if exists i :: 0 <= i < |subqs| && x in SourcesFor(subqs[i], store, retrieve) {
        var i :| 0 <= i < |subqs| && x in SourcesFor(subqs[i], store, retrieve);
        if i < |p| {
          assert p[i] == subqs[i];
        }
      }
    }
  }

  /** Unfolded: a value is a collected source exactly when some chunk retrieved for some
      sub-question carries it as its "source". */
  lemma SourcesOfChunks(subqs: seq<string>, store: Store, retrieve: (string, Store) -> seq<Document>, x: Json)
    ensures x in SourcesOf(subqs, store, retrieve) <==>
      exists i, j :: 0 <= i < |subqs| && 0 <= j < |retrieve(subqs[i], store)| && SourceOf(retrieve(subqs[i], store)[j]) == x
  {
    SourcesUnion(subqs, store, retrieve, x);
  }

  /** What `synthesizer_node` returns: `KeyError` without a vector store or sub-questions;
      otherwise the state with the answers, the source set and the executive summary. */
  function SynthesizerSpec(s: State, retrieve: (string, Store) -> seq<Document>, ask: (string, string) -> string,
                           summarise: string -> string): Result<State>
  {
    if s.vectorstore.None? || s.subquestions.None? then Raised(KeyError)
    else
      var subqs := s.subquestions.value;
      var store := s.vectorstore.value;
      var answers := AnswersOf(subqs, store, retrieve, ask);
      Ok(s.(answers := Some(answers),
            sources := Some(SourcesOf(subqs, store, retrieve)),
            executiveSummary := Some(ExecutiveSummary(subqs, answers, summarise))))
  }

  /** The loop of `synthesizer_node`: answer each sub-question in order, appending the answer
      and adding its sources to the running set. */
  method SynthesizerNode(s: State, retrieve: (string, Store) -> seq<Document>, ask: (string, string) -> string,
                         summarise: string -> string) returns (r: Result<State>)
    ensures r == SynthesizerSpec(s, retrieve, ask, summarise)
  {
    if s.vectorstore.None? || s.subquestions.None? {
      return Raised(KeyError);
    }
    var store := s.vectorstore.value;
    var subqs := s.subquestions.value;
    var answers: seq<string> := [];
    var allSources: set<Json> := {};
    var i := 0;
    while i < |subqs|
      invariant 0 <= i <= |subqs|
      invariant answers == AnswersOf(subqs[..i], store, retrieve, ask)
      invariant allSources == SourcesOf(subqs[..i], store, retrieve)
      decreases |subqs| - i
    {
      var a := SynthesizeSubquestion(subqs[i], store, retrieve, ask);
      assert subqs[..i + 1][..i] == subqs[..i];
      answers := answers + [a.text];
      allSources := allSources + a.sources;
      i := i + 1;
    }
    assert subqs[..i] == subqs;
    var summary := ExecutiveSummary(subqs, answers, summarise);
    r := Ok(s.(answers := Some(answers), sources := Some(allSources), executiveSummary := Some(summary)));
  }

  /** On success, the answers are aligned with the sub-questions, and nothing but the answers,
      the sources and the summary changes. */
  lemma SynthesizerOutcome(s: State, retrieve: (string, Store) -> seq<Document>, ask: (string, string) -> string,
                           summarise: string -> string)
    ensures var r := SynthesizerSpec(s, retrieve, ask, summarise);
            && (r.Raised? <==> s.vectorstore.None? || s.subquestions.None?)
            && (r.Ok? ==> && r.value.answers.Some?
                          && |r.value.answers.value| == |s.subquestions.value|
                          && r.value == s.(answers := r.value.answers, sources := r.value.sources,
                                           executiveSummary := r.value.executiveSummary))
  {
  }

  const REPORT_TITLE := "# Final Report\n\n"
  const SUMMARY_HEADING := "## Executive Summary\n"
  const FINDINGS_HEADING := "## Findings\n"

  /** One report section: `f"### {i}. {subquestions[i-1]}\n{ans}\n\n"`. */
  function Section(i: nat, subq: string, ans: string): string {
    "### " + NatText(i) + ". " + subq + "\n" + ans + "\n\n"
  }

  /** The sections for `answers`, numbered from 1, each titled by the sub-question at the
      same position. */
  function Sections(subqs: seq<string>, answers: seq<string>): string
    requires |answers| <= |subqs|
    decreases |answers|
  {
    if answers == [] then []
    else
      var n := |answers|;
      Sections(subqs, answers[..n - 1]) + Section(n, subqs[n - 1], answers[n - 1])
  }

  /** The text before the sections. */
  function ReportHead(summary: string): string {
    REPORT_TITLE + SUMMARY_HEADING + Strip(summary) + "\n\n" + FINDINGS_HEADING
  }

  /** The report text for the executive summary and the answers: `KeyError` when there is an
      answer to title but no sub-questions, `IndexError` with more answers than sub-questions,
      otherwise the head followed by one section per answer. */
  function ReportText(summary: string, subqs: Option<seq<string>>, answers: seq<string>): Result<string> {
    WithSections(ReportHead(summary), subqs, answers)
  }

  /** What `output_node` returns: `KeyError` without an executive summary or answers,
      otherwise the state with the report, or the error building it raised. */
  function OutputSpec(s: State): Result<State> {
    if s.executiveSummary.None? || s.answers.None? then Raised(KeyError)
    else
      var rep := ReportText(s.executiveSummary.value, s.subquestions, s.answers.value);
      if rep.Raised? then Raised(rep.error) else Ok(s.(report := Some(rep.value)))
  }

  /** The sections appended to `head`, with the errors of the section loop. */
  function WithSections(head: string, subqs: Option<seq<string>>, answers: seq<string>): Result<string> {
    if answers == [] then Ok(head)
    else if subqs.None? then Raised(KeyError)
    else if |answers| > |subqs.value| then Raised(IndexError)
    else Ok(head + Sections(subqs.value, answers))
  }

  /** The report-building part of `output_node`: the head, then the sections. */
  method BuildReport(summary: string, subqs: Option<seq<string>>, answers: seq<string>) returns (r: Result<string>)
    ensures r == ReportText(summary, subqs, answers)
  {
    var report := REPORT_TITLE;
    var execSummary := Strip(summary);
    report := report + SUMMARY_HEADING;
    report := report + execSummary + "\n\n";
    report := report + FINDINGS_HEADING;
    assert report == ReportHead(summary);
    r := AppendSections(report, subqs, answers);
  }

  /** The loop of `output_node`: one section appended per answer, numbered from 1 and titled
      by `state["subquestions"][i - 1]`, which raises on the first answer without one. */
  method AppendSections(head: string, subqs: Option<seq<string>>, answers: seq<string>) returns (r: Result<string>)
    ensures r == WithSections(head, subqs, answers)
  {
    var report := head;
    var i := 1;
    while i <= |answers|
      invariant 1 <= i <= |answers| + 1
      invariant i > 1 ==> subqs.Some? && i - 1 <= |subqs.value|
      invariant i > 1 ==> report == head + Sections(subqs.value, answers[..i - 1])
      invariant i == 1 ==> report == head
      decreases |answers| + 1 - i
    {
      if subqs.None? {
        return Raised(KeyError);
      }
      if i - 1 >= |subqs.value| {
        return Raised(IndexError);
      }
      var section := Section(i, subqs.value[i - 1], answers[i - 1]);
      SectionsSnoc(subqs.value, answers, i);
      AppendAssoc(head, Sections(subqs.value, answers[..i - 1]), section);
      report := report + section;
      i := i + 1;
    }
    if answers != [] {
      assert answers[..i - 1] == answers;
    }
    r := Ok(report);
  }

  /** `output_node(state)`. */
  method OutputNode(s: State) returns (r: Result<State>)
    ensures r == OutputSpec(s)
  {
    if s.executiveSummary.None? || s.answers.None? {
      return Raised(KeyError);
    }
    var report := BuildReport(s.executiveSummary.value, s.subquestions, s.answers.value);
    if report.Raised? {
      return Raised(report.error);
    }
    r := Ok(s.(report := Some(report.value)));
  }

  /** One more answer appends its section. */
  lemma SectionsSnoc(subqs: seq<string>, answers: seq<string>, i: nat)
    requires 1 <= i <= |answers| && i <= |subqs|
    ensures Sections(subqs, answers[..i]) == Sections(subqs, answers[..i - 1]) + Section(i, subqs[i - 1], answers[i - 1])
  {
    assert answers[..i][..i - 1] == answers[..i - 1];
  }

  /** The report begins with the title, the stripped summary under its heading, and the
      findings heading; with no answers it is exactly that. */
  lemma OutputReportHead(s: State)
    requires OutputSpec(s).Ok?
    ensures OutputSpec(s).value.report.Some?
    ensures StartsWith(OutputSpec(s).value.report.value, ReportHead(s.executiveSummary.value))
    ensures s.answers.value == [] ==> OutputSpec(s).value.report.value == ReportHead(s.executiveSummary.value)
  {
    var head := ReportHead(s.executiveSummary.value);
    var rep := OutputSpec(s).value.report.value;
    if s.answers.value != [] {
      assert rep == head + Sections(s.subquestions.value, s.answers.value);
    }
    assert rep[..|head|] == head;
  }

  /** The sections of the first `k` answers are a prefix of the sections of all answers:
      sections come in answer order. */
  lemma {:induction false} SectionsPrefix(subqs: seq<string>, answers: seq<string>, k: nat)
    requires |answers| <= |subqs| && k <= |answers|
    ensures StartsWith(Sections(subqs, answers), Sections(subqs, answers[..k]))
    decreases |answers|
  {
    if k == |answers| {
      assert answers[..k] == answers;
    } else {
      var p := answers[..|answers| - 1];
      assert p[..k] == answers[..k];
      SectionsPrefix(subqs, p, k);
    }
  }

  /** Section `i` (numbered `i + 1`, titled by sub-question `i`, holding answer `i`) is in
      the sections text. */
  lemma {:induction false} SectionsHold(subqs: seq<string>, answers: seq<string>, i: nat)
    requires |answers| <= |subqs| && i < |answers|
    ensures Contains(Sections(subqs, answers), Section(i + 1, subqs[i], answers[i]))
    decreases |answers|
  {
    var n := |answers|;
    var p := answers[..n - 1];
    if i == n - 1 {
      ContainsSelf(Section(n, subqs[n - 1], answers[n - 1]));
      ContainsRight(Sections(subqs, p), Section(n, subqs[n - 1], answers[n - 1]), Section(n, subqs[n - 1], answers[n - 1]));
    } else {
      SectionsHold(subqs, p, i);
      assert p[i] == answers[i];
      ContainsLeft(Sections(subqs, p), Section(n, subqs[n - 1], answers[n - 1]), Section(i + 1, subqs[i], answers[i]));
    }
  }

  /** With one answer per sub-question the output stage cannot fail: the report is the head
      followed by every section. */
  lemma OutputAligned(y: State)
    requires y.executiveSummary.Some? && y.answers.Some? && y.subquestions.Some?
    requires |y.answers.value| == |y.subquestions.value|
    ensures OutputSpec(y).Ok?
    ensures OutputSpec(y).value.report
            == Some(ReportHead(y.executiveSummary.value) + Sections(y.subquestions.value, y.answers.value))
  {
    if y.answers.value == [] {
      assert ReportHead(y.executiveSummary.value) + [] == ReportHead(y.executiveSummary.value);
    }
  }

  /** `output_node` raises exactly in the cases above, and on success changes only the report. */
  lemma OutputOutcome(s: State)
    ensures var r := OutputSpec(s);
            && (r.Raised? <==> || s.executiveSummary.None? || s.answers.None?
                               || (s.answers.value != [] && (s.subquestions.None? || |s.answers.value| > |s.subquestions.value|)))
            && (r == Raised(IndexError) <==>
                  s.executiveSummary.Some? && s.answers.Some? && s.subquestions.Some? && |s.answers.value| > |s.subquestions.value|)
            && (r.Ok? ==> r.value == s.(report := r.value.report) && r.value.report.Some?)
  {
  }
}
