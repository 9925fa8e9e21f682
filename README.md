# AI Research Agent, modelled in Dafny

This project models the deterministic core of a research agent. The agent runs four stages in a
fixed order:

- The planner splits a question into sub-questions.
- The gatherer collects web, arXiv and local-PDF documents for each sub-question into a vector store.
- The synthesizer answers each sub-question from retrieved chunks and summarises the findings.
- The output stage assembles a Markdown report.

A knowledge-graph formatter turns the report into graph elements. The formatter recovers JSON
from model output, normalises nodes and edges, deduplicates them, caps them and counts degrees.
A Streamlit app shows the graph: it converts it to an adjacency shape, filters it, cuts a
breadth-first neighbourhood around a focus node, and exports CSV.

Everything the code delegates to the outside world enters the model as a parameter:

- the language model, as `respond`, `ask`, `summarise` and `invoke`;
- `json.loads`, as `loads`;
- the search providers, as `web` and `arxiv`, and the hits they return;
- vector-store retrieval, as `retrieve`;
- the local PDFs;
- the random uuid suffixes, as `rnd`, `nodeRnd` and `edgeRnd`.

Python exceptions that the code does not catch become `Result.Raised` values. A missing state
key is `None` in the `State` datatype.

Each stage that loops in Python is a `method` with a loop. It is proved equal to a specification
function, and lemmas state the promised properties about that function.

Modules, by source file:

| file | modules |
|---|---|
| agent/json_formatter.py | `GraphSchema`, `JsonExtract`, `JsonFormatter` |
| agent/json_generator_adapter.py | `JsonGeneratorAdapter` |
| app.py | `AppView`, `Subgraph`, `CsvExport`, `Palette` |
| agent/planner.py | `Planner` |
| agent/gatherer.py | `Gatherer` |
| agent/gather_academic.py | `GatherAcademic` |
| agent/gather_web.py | `GatherWeb` |
| agent/synthesizer.py | `Synthesizer` |
| agent/citations.py | `Citations` |
| graph.py | `ResearchState`, `Pipeline` |

`PyText`, `PyValue`, `Seqs`, `Dedup` and `ResultSeq` hold Python string and value semantics and
generic sequence lemmas.

Where the project's written description and the code disagree, the model follows the code:

- The web denylist match is case-sensitive. The description calls it case-insensitive (`GatherWeb.DenylistCaseSensitive`).
- `generate_graph_json` on a blank report returns empty node and edge lists. Only the adapter returns the placeholder node.
- Edge integrity after the 50-node cap holds only when the nodes carry at most 50 distinct ids (`JsonFormatter.CoerceEdgesAnchored`). The description promises it always.
- The description says adapters never raise. `search_web` raises `KeyError` on a hit without `href` (`GatherWeb.SearchWebRaises`). `gather_all` raises on a record whose content is not a string (`Gatherer.GatherAllRaises`).

## Model

| member | source | states |
|---|---|---|
| GraphSchema.SlugBodyShape | agent/json_formatter.py:66-67 | the cleaned slug text uses only `[a-z0-9-]`, has no "--" and neither starts nor ends with '-' |
| GraphSchema.Collapse | agent/json_formatter.py:67 | the substitution leaves only `[a-z0-9-]` with no "--", and no leading '-' after a run already begun |
| GraphSchema.Slug | agent/json_formatter.py:65-70 | the slug is `prefix + "-"` followed by a well-formed body; the body is the random 8-hex suffix when the cleaned text is empty, else its first 40 characters |
| GraphSchema.SlugTail | agent/json_formatter.py:68-70 | the part after `prefix + "-"` is exactly the (cut) body and is well-formed |
| GraphSchema.SlugBodyIdempotent | agent/json_formatter.py:66-67 | cleaning an already cleaned text leaves it unchanged |
| GraphSchema.WrapData | agent/json_formatter.py:72-77 | a dict with a dict under "data" is kept; any other dict is wrapped; a non-dict becomes `{"data": {}}` |
| GraphSchema.WrapUnwrap | agent/json_formatter.py:72-74 | wrapping the dict an element stands for gives the element back |
| GraphSchema.NodeLabelSource | agent/json_formatter.py:81 | the value upper-cased into a node label is never falsy |
| GraphSchema.RecordId | agent/json_formatter.py:80 | a stored id is never empty |
| GraphSchema.TruncDescriptionBounded | agent/json_formatter.py:84-85 | after the cut the description is at most 300 characters and every other key is unchanged |
| GraphSchema.FinishNode | agent/json_formatter.py:84-88 | the description is bounded and `doc_id`/`source_url` are never None or ""; other keys are untouched |
| GraphSchema.EnsureNodeDefaults | agent/json_formatter.py:79-89 | raises exactly when a non-string is stripped or upper-cased; otherwise the id is `str(id)` or a slug of name/label/"n", the label is the upper-cased label/type/"Entity", and a missing name is the label |
| GraphSchema.NodeRecord | agent/json_formatter.py:80-89 | the record has the given id and label, a name (given or the label), and is normal |
| GraphSchema.NodeNormalFixed | agent/json_formatter.py:79-89 | a normal node record is a fixed point of the node defaults |
| GraphSchema.NodeDefaultsIdempotent | agent/json_formatter.py:79-89 | applying the node defaults twice equals applying them once, whatever the random suffix |
| GraphSchema.Clamp | agent/json_formatter.py:98 | the clamped confidence is in [0,1] and a value already in [0,1] is unchanged |
| GraphSchema.Confidence | agent/json_formatter.py:94-98 | the stored confidence is always in [0,1] |
| GraphSchema.ConfidenceCases | agent/json_formatter.py:94-98 | "200%", a missing key and None give 0.8; 200 clamps to 1.0 and -0.5 to 0.0 |
| GraphSchema.EndpointText | agent/json_formatter.py:101 | the stringified endpoint is empty exactly when the endpoint is missing or falsy |
| GraphSchema.EdgeLabelSource | agent/json_formatter.py:93 | the value upper-cased into an edge label is never falsy |
| GraphSchema.EnsureEdgeDefaults | agent/json_formatter.py:91-103 | raises exactly on a non-string label; otherwise sets the id, upper-cased label and clamped confidence, and the verdict holds exactly when both endpoints are non-empty node ids |
| GraphSchema.EdgeRecord | agent/json_formatter.py:92-100 | the record has the id, label and clamped confidence, keeps both endpoints, and is normal |
| GraphSchema.EdgeNormalFixed | agent/json_formatter.py:91-103 | a normal edge record is a fixed point, and the verdict is its validity |
| GraphSchema.EdgeDefaultsIdempotent | agent/json_formatter.py:91-103 | applying the edge defaults twice equals applying them once and gives the same verdict |
| Dedup.DedupeIsSubsequence | agent/json_formatter.py:105-121 | de-duplication keeps a subsequence of its input, in order |
| Dedup.DedupeKeepsFirst | agent/json_formatter.py:105-121 | every kept element is the first element of its input with that key |
| Dedup.DedupeKeepsEveryFirst | agent/json_formatter.py:105-121 | every first occurrence of a key is kept |
| JsonFormatter.DedupeElements | agent/json_formatter.py:106-120 | the seen-set loop returns exactly the first occurrence of every key, in order |
| JsonFormatter.Wrapped | agent/json_formatter.py:126-129 | there is one wrapped element per item of the `nodes`/`edges` list |
| JsonFormatter.NodeStep | agent/json_formatter.py:132-134 | a node step raises exactly when the defaults raise and otherwise yields a normal record with the other keys kept |
| JsonFormatter.NormalizeNodes | agent/json_formatter.py:131-135 | a successful node loop returns one node per input node |
| JsonFormatter.NormalizeNodesRaises | agent/json_formatter.py:132-135 | the node loop raises exactly when some node's defaults raise |
| JsonFormatter.NormalizeNodesAt | agent/json_formatter.py:132-135 | on success, node `i` is input node `i` with its record normalised |
| JsonFormatter.StringifyEndpoints | agent/json_formatter.py:139-142 | only `source` and `target` are replaced |
| JsonFormatter.StringifiedEdge | agent/json_formatter.py:139-142 | a valid edge with stringified endpoints is normal and both endpoints are node ids |
| JsonFormatter.EdgeStep | agent/json_formatter.py:138-143 | an edge step raises exactly when the label is not a string; a kept edge is normal, keeps the wrapper's other keys, and has both endpoints as strings among the node ids |
| JsonFormatter.KeepEdgesSpec | agent/json_formatter.py:137-143 | a successful edge loop keeps at most as many edges as it is given |
| JsonFormatter.KeepEdgesRaises | agent/json_formatter.py:137-143 | the edge loop raises exactly when some edge's defaults raise |
| JsonFormatter.KeepEdgesShape | agent/json_formatter.py:137-143 | every kept edge is normal, has both endpoints among the node ids, and comes from an input edge |
| JsonFormatter.NormalizeNodeList | agent/json_formatter.py:131-135 | the node loop returns the normalised nodes and exactly their ids |
| JsonFormatter.KeepEdges | agent/json_formatter.py:137-143 | the edge loop returns exactly the valid normalised edges, in order |
| JsonFormatter.EdgeOnce | agent/json_formatter.py:139-143 | one pass of the edge loop body raises, skips or keeps exactly as the edge step does |
| JsonFormatter.CoerceElements | agent/json_formatter.py:123-150 | `_coerce_elements` equals its specification: wrap, normalise, filter, deduplicate, cap |
| JsonFormatter.CoerceOutcome | agent/json_formatter.py:123-145 | a non-dict gives empty lists; a dict raises exactly when some node or edge default raises |
| JsonFormatter.CoerceShape | agent/json_formatter.py:123-150 | at most 50 nodes and 100 edges; every node and edge is normal; node ids are distinct; every edge's endpoints are among the ids of all normalised nodes |
| JsonFormatter.CappedNodesShape | agent/json_formatter.py:145-150 | the de-duplicated node list cut to the cap stays within the cap, has distinct ids and only normalised nodes |
| JsonFormatter.CappedEdgesShape | agent/json_formatter.py:145-150 | the de-duplicated edge list cut to the cap stays within the cap, has distinct signatures, and every edge is normalised with both endpoints among the node ids |
| JsonFormatter.DedupeElementFrom | agent/json_formatter.py:105-121 | every element de-duplication keeps is one of its input |
| JsonFormatter.CoerceEdgesAnchored | agent/json_formatter.py:137-149 | when the nodes carry at most 50 distinct ids, every kept edge's endpoints are ids of the returned nodes |
| JsonFormatter.DegreeZero | agent/json_formatter.py:243-249 | a value's degree is zero exactly when no kept edge starts or ends at it |
| JsonFormatter.DegreeOfEdge | agent/json_formatter.py:243-249 | an endpoint of a kept edge has positive degree |
| JsonFormatter.WithNodeDegree | agent/json_formatter.py:248-249 | the node gains `degree`, the number of edge ends at its id; every other key is unchanged |
| JsonFormatter.WithDegree | agent/json_formatter.py:242-249 | the edges are unchanged and each node carries its degree |
| JsonFormatter.AddDegree | agent/json_formatter.py:242-249 | the `id2deg` loops produce exactly the degree-annotated graph |
| JsonFormatter.GenerateGraphJson | agent/json_formatter.py:208-255 | `generate_graph_json` equals its specification: blank check, model call, extraction, coercion, degrees, fallback |
| JsonFormatter.CoerceEdgesNeedNodes | agent/json_formatter.py:137-150 | a coerced graph with an edge has a node |
| JsonFormatter.GenerateGraphOutcome | agent/json_formatter.py:224-253 | a blank report gives empty lists; a failed model call gives the placeholder; any other successful result has between 1 and 50 nodes and at most 100 edges |
| JsonFormatter.GenerateGraphUnparsable | agent/json_formatter.py:236-253 | when nothing in the reply parses, the result is the placeholder graph |
| JsonFormatter.GenerateGraphDegrees | agent/json_formatter.py:242-253 | with `add_degree`, every node of a non-placeholder result carries a degree, and it is 0 exactly when no kept edge starts or ends at the node's id |
| JsonExtract.ScanFrom | agent/json_formatter.py:170-191 | a found closing index lies in the text and holds '}' |
| JsonExtract.ScanFromFirstClose | agent/json_formatter.py:170-191 | the scan finds exactly the first position where the depth outside strings returns to zero |
| JsonExtract.Candidate | agent/json_formatter.py:165-187 | the balanced candidate starts with '{' and ends with '}' |
| JsonExtract.CandidateIsFirstBalancedBlock | agent/json_formatter.py:165-187 | a candidate exists exactly when there is a '{' whose block closes, and it runs from the first '{' to the first close |
| JsonExtract.LevelCountsBraces | agent/json_formatter.py:172-185 | the depth is the number of '{' minus the number of '}' seen outside string literals |
| JsonExtract.EscapeKeepsString | agent/json_formatter.py:172-178 | inside a string, a backslash and the character after it, a quote included, leave the depth and the string state unchanged |
| JsonExtract.BraceInStringSkipped | agent/json_formatter.py:172-185 | in `{"}"}` the block closes at the last brace, not the quoted one |
| JsonExtract.FenceNothingParses | agent/json_formatter.py:193-204 | the fence attempt gives `{}` when nothing parses |
| JsonExtract.FenceBody | agent/json_formatter.py:194-199 | the fence attempt parses something only when the stripped text opens a code fence and a `{` remains after the backticks go; the text it parses starts with that `{` |
| JsonExtract.ExtractJsonOrder | agent/json_formatter.py:158-191 | a direct parse wins; otherwise a parsing balanced block wins |
| JsonExtract.ExtractJsonNothingParses | agent/json_formatter.py:158-204 | when the parser accepts nothing the result is `{}` |
| JsonExtract.FallbackToFence | agent/json_formatter.py:193-204 | when neither the direct parse nor the block succeeds, the fence attempt decides |
| JsonExtract.ScanToClose | agent/json_formatter.py:166-191 | the `level`/`in_str`/`esc` loop returns the first closing index of the scan |
| JsonExtract.ExtractJson | agent/json_formatter.py:152-204 | `_extract_json` equals its three-strategy specification |
| JsonGeneratorAdapter.ReportText | agent/json_generator_adapter.py:15 | the report is `final_report` when non-empty, otherwise `report` or "" |
| JsonGeneratorAdapter.JsonGeneratorOutcome | agent/json_generator_adapter.py:14-28 | only `knowledge_graph` changes; a blank report gives the placeholder for the topic; otherwise it succeeds exactly when the formatter does, with the formatter's graph; the graph always has 1 to 50 nodes and at most 100 edges |
| JsonGeneratorAdapter.JsonGeneratorUnparsable | agent/json_generator_adapter.py:23-28 | a non-blank report whose reply does not parse still yields the placeholder |
| AppView.AppState | app.py:195 | the adapter sees the report and the topic, and no graph yet |
| AppView.AdjNodeOf | app.py:212-225 | every converted node has a non-empty id, label and type |
| AppView.AdjEdgeOf | app.py:227-245 | an edge is converted exactly when both endpoints are truthy; the relation is truthy and the confidence is `float(confidence)` or 0.8 |
| AppView.AdjacencyFromGraph | app.py:212-245 | the two conversion loops produce exactly the adjacency shape |
| AppView.FormatterToAdjacency | app.py:186-247 | `_formatter_to_adjacency` equals its specification, with empty lists when the adapter raises |
| AppView.AdjacencyShape | app.py:212-245 | node `i` is converted from graph node `i`, and there are as many edges as graph edges with two truthy endpoints |
| AppView.AdjEdgeFrom | app.py:227-245 | each converted edge comes from an input edge with two truthy endpoints |
| AppView.AdjNodeDefaults | app.py:212-225 | the label is name, else label, else id; the type is type, else label, else "Entity" |
| AppView.AdjEdgeRelation | app.py:227-245 | the relation is label, else relation, else "RELATED" |
| AppView.ConfidenceNotClamped | app.py:227-245 | the confidence is `float` as given (1.5 stays 1.5), or 0.8 when missing or unparseable |
| AppView.FormatterToAdjacencyOutcome | app.py:195-204 | an adapter error gives empty lists; otherwise there are 1 to 50 nodes and at most 100 edges |
| AppView.EndCountSplit | app.py:280-286 | a node's degree is the number of edges with it as source plus the number with it as target |
| AppView.EndCountZero | app.py:280-290 | the degree is zero exactly when no edge touches the node |
| AppView.AddEnds | app.py:285-286 | one edge adds one to its source's count and one to its target's count |
| AppView.AdjacencyToElements | app.py:253-290 | the element loops produce exactly the node elements with degrees, then the edge elements |
| AppView.ZeroDegrees | app.py:257-269 | the node loop makes one element per node, in order, with degree 0, and every degree entry it writes is 0 |
| AppView.CountEnds | app.py:272-286 | the edge loop makes one element per edge, in order, and leaves each vertex's degree at its number of edge endpoints |
| AppView.FillDegrees | app.py:289-290 | every node element receives its endpoint count as degree, order and count kept |
| AppView.ElementsLayout | app.py:253-346 | node elements come first and edge elements after, both counts are preserved, and each node carries its degree |
| AppView.FilterView | app.py:513-523 | the filter block produces exactly the filtered view |
| AppView.FilterViewKeeps | app.py:513-523 | an edge is kept exactly when its confidence is at least `min_conf`; all nodes are kept, or with hide-isolates exactly those a kept edge touches; both lists keep their order |
| AppView.FocusOptions | app.py:526-528 | there is one option per node after "Show all" |
| AppView.AfterLastParen | app.py:533 | what follows the last '(' holds no '(' |
| AppView.FocusRoundTrip | app.py:527-533 | parsing the option for an id gives the id back when the id has no '(' and does not end in ')' |
| AppView.FocusOptionsRoundTrip | app.py:526-534 | every node's option leads back to that node's id under the same condition |
| AppView.FocusParenthesisedId | app.py:533 | the option for id "f()" reads back as "" |
| Palette.TypeColours | app.py:112-166 | each of the ten node types maps to its preset colour |
| Palette.GetPalette | app.py:112-167 | every preset colours all ten types, and "Entity" and "ENTITY" share one colour |
| Palette.PaletteDefault | app.py:112-167 | a name other than the two named presets gives "Nord Muted" |
| Palette.NodeColorIgnoresCase | app.py:178-180 | a type, its upper-case form and its lower-case form get one colour |
| Palette.NodeColorInPalette | app.py:178-180 | every type gets a colour of the palette; an unknown or empty type gets the "ENTITY" colour |
| Subgraph.AddLink | app.py:380-387 | one edge with two non-empty ends links them in both directions |
| Subgraph.NbrsLinked | app.py:379-387 | the neighbour map relates exactly the vertices some edge links |
| Subgraph.NeighbourMap | app.py:379-387 | the neighbour loop builds exactly the neighbour map |
| Subgraph.Visit | app.py:396-399 | every unseen neighbour is marked seen and queued one step further |
| Subgraph.Reach | app.py:389-399 | the breadth-first search sees exactly the vertices within `hops` steps of the center |
| Subgraph.BuildSubgraph | app.py:370-409 | `build_subgraph` equals its specification |
| Subgraph.BallNext | app.py:389-399 | within `k + 1` steps are exactly the vertices within `k` steps and those an edge links to one of them |
| Subgraph.SubgraphKeeps | app.py:370-409 | without a center the adjacency is unchanged; otherwise exactly the nodes within `hops` steps and the edges between kept nodes, both in input order |
| Subgraph.SubgraphNoHops | app.py:394-402 | with `hops <= 0` only nodes whose id is the center are kept |
| Subgraph.SubgraphOneHop | app.py:370-409 | one hop keeps the center and the nodes an edge links to it, in either direction |
| CsvExport.UnquoteDouble | app.py:594-595 | doubling the quotes and closing the field reads back as the original text |
| CsvExport.CellOf | app.py:591-595 | the field is well-formed and holds "" for None and `str(v)` otherwise |
| CsvExport.CsvEscape | app.py:591-595 | None gives ""; anything else is a quoted field that reads back as `str(v)` |
| CsvExport.EscapeIsCell | app.py:591-595 | the escape writes the field of the value |
| CsvExport.ParseCellEnc | app.py:591-595 | a written field followed by a separator, a line feed or nothing reads back as its text |
| CsvExport.ParseRowEnc | app.py:599-607 | a written row reads back as its fields' texts |
| CsvExport.ParseDocEnc | app.py:597-608 | a written document of non-empty rows reads back as the rows' texts |
| CsvExport.Lines | app.py:597-608 | the export loop gives the header and one line per item, joined by line feeds |
| CsvExport.NodesCsv | app.py:597-608 | nodes.csv is the header and one escaped row per node |
| CsvExport.EdgesCsv | app.py:610-622 | edges.csv is the header and one escaped row per edge |
| CsvExport.RowReadsBack | app.py:599-607 | a row of escaped values reads back as the values' texts |
| CsvExport.DocReadsBack | app.py:597-622 | a header of plain names and rows of values reads back as the names and the values' texts |
| CsvExport.ColumnsArePlain | app.py:597-610 | no column name holds a separator, a line feed or a quote |
| CsvExport.NodeTexts | app.py:599-607 | a node row's values read back as the node's id, label, type, context, doc_id and source_url texts |
| CsvExport.EdgeTexts | app.py:612-621 | an edge row's values read back as the edge's seven field texts |
| CsvExport.NodesCsvReadsBack | app.py:597-608 | nodes.csv reads back as the column names and each node's fields, line by line |
| CsvExport.EdgesCsvReadsBack | app.py:610-622 | edges.csv reads back as the column names and each edge's fields, line by line |
| CsvExport.NullReadsAsEmpty | app.py:592-595 | None and "" are written differently but read back alike |
| Planner.AfterFirstDot | agent/planner.py:37 | a line with a '.' loses its prefix through the first dot; one without is kept whole |
| Planner.SubQuestionOf | agent/planner.py:37 | the sub-question is stripped and shorter than a line with a '.' |
| Planner.SubQuestions | agent/planner.py:34-38 | there are never more sub-questions than reply lines |
| Planner.PlannerNode | agent/planner.py:23-43 | raises `ValueError` exactly on a blank or missing query; otherwise the result holds only the stripped query and the parsed sub-questions |
| Planner.KeptLines | agent/planner.py:34-38 | the kept lines are exactly the numbered lines of the stripped reply, in order, one sub-question each |
| Planner.NoNumberedLines | agent/planner.py:34-38 | a reply without a numbered line yields no sub-questions |
| Planner.NumberedLineRoundTrip | agent/planner.py:37-38 | the line `k. q` of a stripped question is kept and reads back as `q` |
| Planner.NumberedReplyRoundTrip | agent/planner.py:34-38 | a reply listing stripped single-line questions as `1. q1`, `2. q2`, … yields exactly those questions |
| GatherWeb.SearchWeb | agent/gather_web.py:13-22 | the `continue` loop returns exactly the allowed hrefs in order, or `KeyError` |
| GatherWeb.Hrefs | agent/gather_web.py:17 | entry `i` is the `href` of hit `i` |
| GatherWeb.KeptStep | agent/gather_web.py:16-21 | one more hit extends the output by its href exactly when the href is allowed |
| GatherWeb.SearchWebRaises | agent/gather_web.py:17 | `search_web` raises exactly when some hit has no `href` |
| GatherWeb.SearchWebKeeps | agent/gather_web.py:6-22 | a URL is output exactly when some hit carries it and it contains no denylisted domain; the output is an ordered subsequence of the hrefs and no longer than the hits |
| GatherWeb.SearchWebNothingDenied | agent/gather_web.py:16-21 | with nothing denied, every href is returned as is |
| GatherWeb.DenylistCaseSensitive | agent/gather_web.py:18 | "zhihu.com" is denied and "ZHIHU.COM" is not |
| GatherAcademic.ClampQuery | agent/gather_academic.py:9-13 | the clamp is a prefix of the collapsed query of at most 380 characters, and the whole collapsed query when it fits |
| GatherAcademic.JoinWordsSingleSpaced | agent/gather_academic.py:12 | words joined by single spaces have no leading, trailing or doubled whitespace and only plain spaces |
| GatherAcademic.ClampQueryShape | agent/gather_academic.py:11-13 | the clamped query is single-spaced, and None gives "" |
| GatherAcademic.FlatAppend | agent/gather_academic.py:32-38 | flattening keeps the order of the items |
| GatherAcademic.FlatNoLists | agent/gather_academic.py:32-38 | items that are not lists pass through unchanged |
| GatherAcademic.FlatOneLevel | agent/gather_academic.py:32-38 | exactly one level of nesting is removed |
| GatherAcademic.Record | agent/gather_academic.py:43-47 | every record has `url` and `content`; a dict keeps them with defaults "arxiv.org" and `str(r)`; anything else is `str(r)` from arXiv |
| GatherAcademic.Flatten | agent/gather_academic.py:32-38 | the flattening loop computes the one-level flattening |
| GatherAcademic.Records | agent/gather_academic.py:42-47 | the record loop builds one record per item, in order |
| GatherAcademic.NormaliseResult | agent/gather_academic.py:27-40 | the type dispatch computes the normalised list |
| GatherAcademic.SearchAcademic | agent/gather_academic.py:15-51 | `search_academic` equals its specification: clamp, search, normalise, records, first `max_results` |
| GatherAcademic.AcademicSearchRaises | agent/gather_academic.py:49-51 | a failing search yields no records |
| GatherAcademic.AcademicStringResult | agent/gather_academic.py:27-28 | a string result becomes exactly one arXiv record holding it |
| GatherAcademic.AcademicDictResult | agent/gather_academic.py:29-30 | a dict result becomes one record built from it |
| GatherAcademic.AcademicOtherResult | agent/gather_academic.py:39-40 | any other result yields no records |
| GatherAcademic.AcademicRecords | agent/gather_academic.py:42-48 | the output is the first `max_results` records, record `i` built from normalised item `i` |
| Gatherer.ToDoc | agent/gatherer.py:46-57 | the document's content is `content` (default ""), and its only metadata key is `source`, equal to `url` or the fallback; a non-string content raises |
| Gatherer.ConvertResults | agent/gatherer.py:46-57 | a conversion loop appends one document per result, in order, or raises at the first bad one |
| Gatherer.GatherAll | agent/gatherer.py:40-64 | `gather_all` equals its specification |
| Gatherer.GatherAllLayout | agent/gatherer.py:43-60 | the documents are the web documents, then the academic ones, then the local PDFs; the length is the sum |
| Gatherer.GatherAllWebDoc | agent/gatherer.py:46-50 | document `i` is built from web result `i` with source default "Web" |
| Gatherer.GatherAllAcademicDoc | agent/gatherer.py:53-57 | the academic documents follow the web ones, each with source default "Academic" |
| Gatherer.GatherAllRaises | agent/gatherer.py:46-57 | `gather_all` raises exactly when some web or academic result has a non-string content |
| Gatherer.GatherAllNoResults | agent/gatherer.py:40-41 | None or empty results contribute nothing, leaving only the local PDFs |
| Gatherer.AcademicItemDoc | agent/gatherer.py:53-57 | an arXiv record converts to a document |
| Gatherer.GathererNode | agent/gatherer.py:67-100 | `gatherer_node` equals its specification |
| Gatherer.AllDocsAppend | agent/gatherer.py:81-84 | the batches are concatenated in sub-question order |
| Gatherer.EmptySearchBatch | agent/gatherer.py:40-60 | with both searches empty, a sub-question's batch is the local PDFs |
| Gatherer.LocalPdfsPerSubquestion | agent/gatherer.py:75-84 | with empty searches, the local PDFs appear once per sub-question |
| Gatherer.GathererOutcome | agent/gatherer.py:71-100 | `KeyError` without sub-questions; otherwise only the vector store changes, and it holds all gathered documents |
| Synthesizer.ContextHoldsChunks | agent/synthesizer.py:19 | every chunk's content occurs in the context |
| Synthesizer.ContextSnoc | agent/synthesizer.py:19 | the context keeps retrieval order: one more chunk appends a blank line and its content |
| Synthesizer.Sources | agent/synthesizer.py:29 | a value is a source exactly when some chunk has it as its "source" metadata ("" when the key is missing) |
| Synthesizer.SynthesizeSubquestion | agent/synthesizer.py:17-29 | the answer is the model's reply over the context of the retrieved chunks, and the sources are exactly those chunks' sources |
| Synthesizer.Findings | agent/synthesizer.py:33-35 | `zip` stops at the shorter list, and finding `i` pairs sub-question `i` with answer `i` |
| Synthesizer.ExecutiveSummary | agent/synthesizer.py:32-43 | the summary has no whitespace at either end |
| Synthesizer.FindingsHoldPairs | agent/synthesizer.py:33-35 | every answered sub-question's finding is in the text sent to the model |
| Synthesizer.AnswersOf | agent/synthesizer.py:49-52 | there is one answer per sub-question |
| Synthesizer.AnswersAligned | agent/synthesizer.py:49-52 | answer `i` is the model's answer to sub-question `i` over that sub-question's context |
| Synthesizer.SourcesUnion | agent/synthesizer.py:51-53 | a value is a collected source exactly when it is a source of some sub-question |
| Synthesizer.SourcesOfChunks | agent/synthesizer.py:51-53 | a value is a collected source exactly when some chunk retrieved for some sub-question carries it |
| Synthesizer.SynthesizerNode | agent/synthesizer.py:46-57 | `synthesizer_node` equals its specification |
| Synthesizer.SynthesizerOutcome | agent/synthesizer.py:46-57 | raises exactly without a vector store or sub-questions; on success there is one answer per sub-question, and only the answers, sources and summary change |
| Synthesizer.BuildReport | agent/synthesizer.py:61-69 | the report is the head and then the sections, with the loop's errors |
| Synthesizer.AppendSections | agent/synthesizer.py:68-69 | the loop appends section `i` for answer `i`, raising on the first answer without a sub-question |
| Synthesizer.OutputNode | agent/synthesizer.py:60-71 | `output_node` equals its specification |
| Synthesizer.SectionsSnoc | agent/synthesizer.py:68-69 | one more answer appends its numbered section |
| Synthesizer.OutputReportHead | agent/synthesizer.py:61-67 | the report starts with the title, the stripped summary under its heading, and the findings heading |
| Synthesizer.SectionsPrefix | agent/synthesizer.py:68-69 | the sections of the first `k` answers are a prefix of all sections, so sections come in answer order |
| Synthesizer.SectionsHold | agent/synthesizer.py:68-69 | section `i + 1`, titled by sub-question `i` and holding answer `i`, is among the sections |
| Synthesizer.OutputOutcome | agent/synthesizer.py:60-71 | `KeyError` without a summary or answers, or without sub-questions to title an answer; `IndexError` exactly when there are more answers than sub-questions; otherwise only the report changes |
| Synthesizer.OutputAligned | agent/synthesizer.py:60-71 | with a summary and exactly one answer per sub-question the output stage cannot fail, and the report is the head followed by every section |
| Citations.ApaShape | agent/citations.py:15-24 | a source gets "[PDF] " exactly when it does not start with "http" and ends in ".pdf"; otherwise it gets only a closing '.' |
| Citations.ApaHoldsSource | agent/citations.py:15-24 | the reference holds the source text |
| Citations.Insert | agent/citations.py:9 | inserting keeps the list strictly sorted, with the element added |
| Citations.SortedDistinct | agent/citations.py:9 | `sorted(set(xs))` is strictly ascending and has exactly the elements of `xs` |
| Citations.SortedListingUnique | agent/citations.py:9 | two strictly sorted lists with the same elements are equal |
| Citations.StrictlySortedCard | agent/citations.py:9 | a strictly sorted list has as many entries as distinct elements |
| Citations.CitationsShape | agent/citations.py:5-8 | a missing or empty list, and only that, gives "No references found."; otherwise the text starts with "## References\n" |
| Citations.EntriesHold | agent/citations.py:9-11 | entry `j + 1` is among the entries |
| Citations.EverySourceCited | agent/citations.py:9-11 | every source handed in appears in the rendered references |
| Citations.ReferencesListing | agent/citations.py:8-11 | the references are the header and the numbered entries of the unique ascending listing of the distinct sources |
| Citations.RenderCitations | agent/citations.py:1-12 | the accumulating loop renders exactly the references text |
| Pipeline.RunBlankQuery | graph.py:26-31 | a blank query stops the run in the planner with `ValueError` |
| Pipeline.OutputAfterSynthesizer | graph.py:31 | after the synthesizer, the output stage cannot fail: one answer per sub-question, so every section has its title |
| Pipeline.AfterPlannerOutcome | graph.py:29-31 | after the planner only gathering can fail, and a successful run ends with a report of one section per sub-question |
| Pipeline.RunOutcome | graph.py:26-31 | a run on a non-blank query succeeds exactly when gathering succeeds; the report then has one section per planned sub-question, in plan order |

## Left out

- Model calls, prompt texts, `json.loads`, the search providers, the vector store and the PDF loader are parameters. The model trusts what they return.
- The network, the filesystem (the `data.json` writes, PDF loading), Streamlit (rendering, stylesheet, legend, session state, download buttons, `st.write` progress messages) and `asyncio` are not modelled. Stages run sequentially.
- `uuid.uuid4().hex[:8]` is a parameter of the positions it is used at, not a random value.
- Floating point is modelled by `real`. NaN and infinities are not modelled. `float()` on text accepts an optional sign, digits and one '.'; exponents, "inf", "nan" and underscores are not modelled. `str()` of a float is a plain decimal rendering without exponent form.
- `str()` of a non-empty list or dict is rendered as a fixed marker, not as Python's repr.
- `str.upper`, `str.lower` and `str.isdigit` cover ASCII only. There is no Unicode case folding.
- `MAX_WEB_QUERY` is the default 380. The `MAX_WEB_QUERY_CHARS` environment override is not modelled.
- `search_web`'s `max_results` is the provider's concern. Its hits are an input sequence of string maps, so a non-string `href` is not modelled.
- Gatherer.GatherAll: web and academic results are record-shaped maps, as `gather_all` reads them. The list of URL strings `search_web` actually returns would make `r.get` raise. That mismatch is not reconciled.
- Gatherer.ConvertResults: the two conversion loops of `gather_all` are one loop method called twice.
- Synthesizer.SynthesizerNode: the sources are stored as a set. The order `list(all_sources)` gives them is not modelled.
- Synthesizer.SynthesizeSubquestion: the prompt text is not modelled. The model sees the sub-question and the context through `ask`, and the summary sees the findings text through `summarise`.
- Citations.RenderCitations: sources are a list of strings. A non-string source is not modelled.
- Palette.GetPalette: colours are opaque strings. Their hex format is not checked.
- AppView.FocusOptions: the options are not sorted. Python's key-based `sorted` over the lower-cased labels is not modelled, and the round trip does not depend on the order.
- AppView.FormatterToAdjacency: the `adj or {...}` fallback of `build_subgraph`, and the error message the app shows, are not modelled.
- CsvExport.DocReadsBack: the reader that the exports are read back with is this model's own CSV reader, not a library's.
- Pipeline.Run: graph.py's langgraph wiring is the composition of the stage functions. Each stage's returned state replaces the previous one.
