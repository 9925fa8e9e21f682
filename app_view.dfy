/** The data side of the Streamlit app (app.py): the knowledge graph turned into the
    adjacency shape the viewers use, the viewer elements with node degrees, the confidence
    and isolate filter, and the focus-node options. */
module AppView {
  import opened PyText
  import opened PyValue
  import opened GraphSchema
  import opened ResearchState
  import opened JsonFormatter
  import opened JsonGeneratorAdapter
  import opened Seqs
  import opened Dedup

  /** A node of the adjacency shape: `{"id", "label", "type", "context", "doc_id", "source_url"}`
      (the "label" key is the field `caption`). */
  datatype AdjNode = AdjNode(id: string, caption: string, ntype: string, context: Json, docId: Json, sourceUrl: Json)

  /** An edge of the adjacency shape:
      `{"id", "source", "target", "relation", "confidence", "description", "source_url"}`. */
  datatype AdjEdge = AdjEdge(id: string, source: string, target: string, relation: Json, confidence: real,
                             description: Json, sourceUrl: Json)

  datatype Adj = Adj(nodes: seq<AdjNode>, edges: seq<AdjEdge>)

  /** The state the app hands to the adapter: the topic as query, the report under both keys. */
  function AppState(report: string, topic: string): (s: State)
    ensures ReportText(s) == report && Topic(s) == topic && s.knowledgeGraph.None?
  {
    State(Some(topic), None, None, None, None, Some(report), None, Some(report), None)
  }

  /** One node of the knowledge graph in adjacency shape. The id is `str(id)` or a random hex
      string, the label is the first truthy of name, label and the id, and the type the first
      truthy of type, label and "Entity"; none of the three is ever empty. */
  function AdjNodeOf(d: Dict, rnd: Hex8): (n: AdjNode)
    ensures n.id != [] && n.caption != [] && n.ntype != []
  {
    var idv := Get(d, "id", JNull);
    var nid := if Truthy(idv) then PyStr(idv) else rnd;
    var lbl := Or(Or(Get(d, "name", JNull), Get(d, "label", JNull)), JStr(nid));
    var ty := Or(Or(Get(d, "type", JNull), Get(d, "label", JNull)), JStr("Entity"));
    TruthyText(lbl);
    TruthyText(ty);
    AdjNode(nid, PyStr(lbl), PyStr(ty), Get(d, "description", JNull), Get(d, "doc_id", JNull),
            Get(d, "source_url", JNull))
  }

  /** Both endpoints are present and truthy. */
  predicate HasEndpoints(d: Dict) {
    Truthy(Get(d, "source", JNull)) && Truthy(Get(d, "target", JNull))
  }

  /** An element of the graph whose edge record has both endpoints. */
  predicate EdgeKept(e: Element) { HasEndpoints(e.data) }

  /** `float(d.get("confidence", 0.8))`, with 0.8 where `float` raises. */
  function EdgeConfidence(d: Dict): real {
    ToFloat(Get(d, "confidence", JFloat(DEFAULT_CONFIDENCE))).GetOr(DEFAULT_CONFIDENCE)
  }

  /** One edge of the knowledge graph in adjacency shape, or None when it is skipped for a
      missing or empty endpoint. A kept edge has non-empty text for id and both endpoints and
      a truthy relation. */
  function AdjEdgeOf(d: Dict, rnd: Hex8): (r: Option<AdjEdge>)
    ensures r.Some? <==> HasEndpoints(d)
    ensures r.Some? ==> r.value.id != [] && r.value.source != [] && r.value.target != []
    ensures r.Some? ==> Truthy(r.value.relation) && r.value.confidence == EdgeConfidence(d)
  {
    var src := Get(d, "source", JNull);
    var tgt := Get(d, "target", JNull);
    if !(Truthy(src) && Truthy(tgt)) then None
    else
      var idv := Get(d, "id", JNull);
      TruthyText(src);
      TruthyText(tgt);
      Some(AdjEdge(if Truthy(idv) then PyStr(idv) else "e_" + rnd, PyStr(src), PyStr(tgt),
                   Or(Or(Get(d, "label", JNull), Get(d, "relation", JNull)), JStr("RELATED")),
                   EdgeConfidence(d), Get(d, "description", JNull), Get(d, "source_url", JNull)))
  }

  function AdjEdgeFn(rnd: nat -> Hex8): (nat, Element) -> Option<AdjEdge> {
    (i: nat, e: Element) => AdjEdgeOf(e.data, rnd(i))
  }

  /** The adjacency shape of a knowledge graph: every node converted, in order, and the edges
      with both endpoints, in order. Each element is read through its `data` wrapper. */
  function AdjacencyOf(kg: Graph, nodeRnd: nat -> Hex8, edgeRnd: nat -> Hex8): Adj {
    Adj(seq(|kg.nodes|, i requires 0 <= i < |kg.nodes| => AdjNodeOf(kg.nodes[i].data, nodeRnd(i))),
        FilterMap(kg.edges, AdjEdgeFn(edgeRnd)))
  }

  /** `_formatter_to_adjacency(report_text, topic)`: the adapter's graph in adjacency shape, or
      empty lists when the adapter raises. */
  function FormatterToAdjacencySpec(report: string, topic: string, invoke: (string, string) -> Option<string>,
                                    loads: string -> Option<Json>, nodeRnd: nat -> Hex8, edgeRnd: nat -> Hex8,
                                    viewNodeRnd: nat -> Hex8, viewEdgeRnd: nat -> Hex8): Adj
  {
    match JsonGenerator(AppState(report, topic), invoke, loads, nodeRnd, edgeRnd)
    case Raised(_) => Adj([], [])
    case Ok(s) => AdjacencyOf(s.knowledgeGraph.GetOr(Graph([], [])), viewNodeRnd, viewEdgeRnd)
  }

  /** The two conversion loops of `_formatter_to_adjacency`. */
  method AdjacencyFromGraph(kg: Graph, nodeRnd: nat -> Hex8, edgeRnd: nat -> Hex8) returns (adj: Adj)
    ensures adj == AdjacencyOf(kg, nodeRnd, edgeRnd)
  {
    var nodes: seq<AdjNode> := [];
    var i := 0;
    while i < |kg.nodes|
      invariant 0 <= i <= |kg.nodes| && |nodes| == i
      invariant forall k :: 0 <= k < i ==> nodes[k] == AdjNodeOf(kg.nodes[k].data, nodeRnd(k))
    {
      nodes := nodes + [AdjNodeOf(kg.nodes[i].data, nodeRnd(i))];
      i := i + 1;
    }
    var edges: seq<AdjEdge> := [];
    var j := 0;
    while j < |kg.edges|
      invariant 0 <= j <= |kg.edges|
      invariant edges == FilterMap(kg.edges[..j], AdjEdgeFn(edgeRnd))
    {
      var d := kg.edges[j].data;
      assert kg.edges[..j + 1][..j] == kg.edges[..j];
      assert AdjEdgeFn(edgeRnd)(j, kg.edges[j]) == AdjEdgeOf(d, edgeRnd(j));
      if Truthy(Get(d, "source", JNull)) && Truthy(Get(d, "target", JNull)) {
        edges := edges + [AdjEdgeOf(d, edgeRnd(j)).value];
      }
      j := j + 1;
    }
    assert kg.edges[..j] == kg.edges;
    adj := Adj(nodes, edges);
  }

  /** `_formatter_to_adjacency(report_text, topic)`. */
  method FormatterToAdjacency(report: string, topic: string, invoke: (string, string) -> Option<string>,
                              loads: string -> Option<Json>, nodeRnd: nat -> Hex8, edgeRnd: nat -> Hex8,
                              viewNodeRnd: nat -> Hex8, viewEdgeRnd: nat -> Hex8) returns (adj: Adj)
    ensures adj == FormatterToAdjacencySpec(report, topic, invoke, loads, nodeRnd, edgeRnd, viewNodeRnd, viewEdgeRnd)
  {
    var out := JsonGenerator(AppState(report, topic), invoke, loads, nodeRnd, edgeRnd);
    if out.Raised? {
      return Adj([], []);
    }
    var kg := out.value.knowledgeGraph.GetOr(Graph([], []));
    adj := AdjacencyFromGraph(kg, viewNodeRnd, viewEdgeRnd);
  }

  /** The conversion keeps every node, in order, and as many edges as have two truthy
      endpoints. */
  lemma AdjacencyShape(kg: Graph, nodeRnd: nat -> Hex8, edgeRnd: nat -> Hex8)
    ensures var adj := AdjacencyOf(kg, nodeRnd, edgeRnd);
      && |adj.nodes| == |kg.nodes|
      && (forall i :: 0 <= i < |adj.nodes| ==> adj.nodes[i] == AdjNodeOf(kg.nodes[i].data, nodeRnd(i)))
      && |adj.edges| == Count(kg.edges, EdgeKept)
  {
    var f := AdjEdgeFn(edgeRnd);
    forall i | 0 <= i < |kg.edges|
      ensures f(i, kg.edges[i]).Some? <==> EdgeKept(kg.edges[i])
    {
      assert f(i, kg.edges[i]) == AdjEdgeOf(kg.edges[i].data, edgeRnd(i));
    }
    FilterMapCount(kg.edges, f);
    CountSomeCount(kg.edges, f, EdgeKept);
  }

  /** Each converted edge is the conversion of an input edge with two truthy endpoints. */
  lemma AdjEdgeFrom(kg: Graph, nodeRnd: nat -> Hex8, edgeRnd: nat -> Hex8, j: nat)
    requires j < |AdjacencyOf(kg, nodeRnd, edgeRnd).edges|
    ensures exists i :: 0 <= i < |kg.edges| && HasEndpoints(kg.edges[i].data)
                     && AdjEdgeOf(kg.edges[i].data, edgeRnd(i)) == Some(AdjacencyOf(kg, nodeRnd, edgeRnd).edges[j])
  {
    var f := AdjEdgeFn(edgeRnd);
    FilterMapFrom(kg.edges, f, j);
    var i :| 0 <= i < |kg.edges| && f(i, kg.edges[i]) == Some(FilterMap(kg.edges, f)[j]);
    assert f(i, kg.edges[i]) == AdjEdgeOf(kg.edges[i].data, edgeRnd(i));
  }

  /** The defaults of a converted node: the label is the name, else the label, else the id;
      the type is the type, else the label, else "Entity". */
  lemma AdjNodeDefaults(d: Dict, rnd: Hex8)
    ensures var n := AdjNodeOf(d, rnd);
      && (Truthy(Get(d, "name", JNull)) ==> n.caption == PyStr(d["name"]))
      && (!Truthy(Get(d, "name", JNull)) && Truthy(Get(d, "label", JNull)) ==> n.caption == PyStr(d["label"]))
      && (!Truthy(Get(d, "name", JNull)) && !Truthy(Get(d, "label", JNull)) ==> n.caption == n.id)
      && (Truthy(Get(d, "type", JNull)) ==> n.ntype == PyStr(d["type"]))
      && (!Truthy(Get(d, "type", JNull)) && Truthy(Get(d, "label", JNull)) ==> n.ntype == PyStr(d["label"]))
      && (!Truthy(Get(d, "type", JNull)) && !Truthy(Get(d, "label", JNull)) ==> n.ntype == "Entity")
  {
  }

  /** The relation of a kept edge is its label, else its relation, else "RELATED". */
  lemma AdjEdgeRelation(d: Dict, rnd: Hex8)
    requires HasEndpoints(d)
    ensures var r := AdjEdgeOf(d, rnd).value.relation;
      && (Truthy(Get(d, "label", JNull)) ==> r == d["label"])
      && (!Truthy(Get(d, "label", JNull)) && Truthy(Get(d, "relation", JNull)) ==> r == d["relation"])
      && (!Truthy(Get(d, "label", JNull)) && !Truthy(Get(d, "relation", JNull)) ==> r == JStr("RELATED"))
  {
  }

  /** The confidence is taken as `float` gives it, without clamping to [0, 1]: a number keeps
      its value, a missing key gives 0.8, and text `float` rejects (such as "200%") gives 0.8. */
  lemma ConfidenceNotClamped(d: Dict)
    ensures "confidence" in d && d["confidence"].JFloat? ==> EdgeConfidence(d) == d["confidence"].f
    ensures "confidence" in d && d["confidence"].JInt? ==> EdgeConfidence(d) == d["confidence"].i as real
    ensures "confidence" !in d ==> EdgeConfidence(d) == 0.8
    ensures "confidence" in d && d["confidence"] == JStr("200%") ==> EdgeConfidence(d) == 0.8
    ensures EdgeConfidence(map["confidence" := JFloat(1.5)]) == 1.5
  {
    PercentIsNotAFloat();
  }

  /** When the adapter raises, the app shows empty lists; otherwise the adjacency has at least
      one node, since the adapter never stores a graph without nodes. */
  lemma FormatterToAdjacencyOutcome(report: string, topic: string, invoke: (string, string) -> Option<string>,
                                    loads: string -> Option<Json>, nodeRnd: nat -> Hex8, edgeRnd: nat -> Hex8,
                                    viewNodeRnd: nat -> Hex8, viewEdgeRnd: nat -> Hex8)
    ensures var out := JsonGenerator(AppState(report, topic), invoke, loads, nodeRnd, edgeRnd);
      var adj := FormatterToAdjacencySpec(report, topic, invoke, loads, nodeRnd, edgeRnd, viewNodeRnd, viewEdgeRnd);
      && (out.Raised? ==> adj == Adj([], []))
      && (out.Ok? ==> adj.nodes != [] && |adj.nodes| <= NODE_CAP && |adj.edges| <= EDGE_CAP)
  {
    JsonGeneratorOutcome(AppState(report, topic), invoke, loads, nodeRnd, edgeRnd);
  }

  /** The edge has `v` as source or as target. */
  predicate Touches(e: AdjEdge, v: string) { e.source == v || e.target == v }

  /** How many times `v` occurs as an endpoint: once per edge with it as source and once per
      edge with it as target (a self-loop counts twice). */
  function EndCount(es: seq<AdjEdge>, v: string): nat
    decreases |es|
  {
    if es == [] then 0
    else
      var e := es[|es| - 1];
      EndCount(es[..|es| - 1], v) + (if e.source == v then 1 else 0) + (if e.target == v then 1 else 0)
  }

  function SourceIs(v: string): AdjEdge -> bool { (e: AdjEdge) => e.source == v }

  function TargetIs(v: string): AdjEdge -> bool { (e: AdjEdge) => e.target == v }

  /** The endpoint count is the number of edges with `v` as source plus the number with `v`
      as target. */
  lemma {:induction false} EndCountSplit(es: seq<AdjEdge>, v: string)
    ensures EndCount(es, v) == Count(es, SourceIs(v)) + Count(es, TargetIs(v))
    decreases |es|
  {
    if es != [] {
      var e := es[|es| - 1];
      EndCountSplit(es[..|es| - 1], v);
      assert SourceIs(v)(e) == (e.source == v);
      assert TargetIs(v)(e) == (e.target == v);
    }
  }

  /** A node has endpoint count zero exactly when no edge touches it. */
  lemma {:induction false} EndCountZero(es: seq<AdjEdge>, v: string)
    ensures EndCount(es, v) == 0 <==> forall k :: 0 <= k < |es| ==> !Touches(es[k], v)
    decreases |es|
  {
    if es != [] {
      EndCountZero(es[..|es| - 1], v);
    }
  }

  /** `d.get(v, 0)` on a degree dictionary. */
  function DegreeOr0(d: map<string, nat>, v: string): nat {
    if v in d then d[v] else 0
  }

  /** The two increments the degree loops make for one edge: one for its source, one for its
      target. */
  function AddEnds(deg: map<string, nat>, e: AdjEdge): (r: map<string, nat>)
    ensures forall v :: DegreeOr0(r, v) == DegreeOr0(deg, v) + (if e.source == v then 1 else 0)
                                                             + (if e.target == v then 1 else 0)
  {
    var d := deg[e.source := DegreeOr0(deg, e.source) + 1];
    d[e.target := DegreeOr0(d, e.target) + 1]
  }

  /** A viewer element: a node carries its degree; an edge carries its relation under the
      "label" key, which is the field `relation` here. */
  datatype ViewElement =
    | NodeEl(id: string, caption: string, ntype: string, context: Json, docId: Json, sourceUrl: Json, degree: nat)
    | EdgeEl(id: string, source: string, target: string, relation: Json, confidence: real, sourceUrl: Json,
             description: Json)

  /** The element of a node: an empty label shows the id, an empty type is "Entity". */
  function NodeElOf(n: AdjNode, degree: nat): ViewElement {
    NodeEl(n.id, if n.caption == [] then n.id else n.caption, if n.ntype == [] then "Entity" else n.ntype,
           n.context, n.docId, n.sourceUrl, degree)
  }

  function EdgeElOf(e: AdjEdge): ViewElement {
    EdgeEl(e.id, e.source, e.target, e.relation, e.confidence, e.sourceUrl, e.description)
  }

  /** The element list of `_adjacency_to_elements`: the node elements, each with its endpoint
      count as degree, followed by the edge elements. */
  function ElementsSpec(adj: Adj): seq<ViewElement> {
    seq(|adj.nodes|, i requires 0 <= i < |adj.nodes| => NodeElOf(adj.nodes[i], EndCount(adj.edges, adj.nodes[i].id)))
      + seq(|adj.edges|, j requires 0 <= j < |adj.edges| => EdgeElOf(adj.edges[j]))
  }

  /** `_adjacency_to_elements(adj)` without the stylesheet: a loop over the nodes that zeroes
      their degrees, a loop over the edges that counts both endpoints, and a loop that writes
      each node's degree into its element. */
  method AdjacencyToElements(adj: Adj) returns (els: seq<ViewElement>)
    ensures els == ElementsSpec(adj)
  {
    var nodes, degree := ZeroDegrees(adj.nodes);
    var edges, counted := CountEnds(adj.edges, degree);
    nodes := FillDegrees(adj, nodes, counted);
    els := nodes + edges;
  }

  /** The node loop: one element per node with degree 0, and a degree table of zeros. */
  method ZeroDegrees(ns: seq<AdjNode>) returns (nodes: seq<ViewElement>, degree: map<string, nat>)
    ensures |nodes| == |ns| && forall k :: 0 <= k < |ns| ==> nodes[k] == NodeElOf(ns[k], 0)
    ensures forall v | v in degree :: degree[v] == 0
  {
    nodes := [];
    degree := map[];
    var i := 0;
    while i < |ns|
      invariant 0 <= i <= |ns| && |nodes| == i
      invariant forall k :: 0 <= k < i ==> nodes[k] == NodeElOf(ns[k], 0)
      invariant forall v | v in degree :: degree[v] == 0
    {
      nodes := nodes + [NodeElOf(ns[i], 0)];
      degree := degree[ns[i].id := 0];
      i := i + 1;
    }
  }

  /** The edge loop: one element per edge, and each endpoint counted on top of a table of
      zeros, so every vertex ends with its endpoint count. */
  method CountEnds(es: seq<AdjEdge>, zeros: map<string, nat>) returns (edges: seq<ViewElement>, degree: map<string, nat>)
    requires forall v | v in zeros :: zeros[v] == 0
    ensures |edges| == |es| && forall k :: 0 <= k < |es| ==> edges[k] == EdgeElOf(es[k])
    ensures forall v :: DegreeOr0(degree, v) == EndCount(es, v)
  {
    edges := [];
    degree := zeros;
    var j := 0;
    while j < |es|
      invariant 0 <= j <= |es| && |edges| == j
      invariant forall k :: 0 <= k < j ==> edges[k] == EdgeElOf(es[k])
      invariant forall v :: DegreeOr0(degree, v) == EndCount(es[..j], v)
    {
      assert es[..j + 1][..j] == es[..j];
      edges := edges + [EdgeElOf(es[j])];
      degree := AddEnds(degree, es[j]);
      j := j + 1;
    }
    assert es[..j] == es;
  }

  /** The loop that writes each node's counted degree into its element. */
  method FillDegrees(adj: Adj, zeroed: seq<ViewElement>, degree: map<string, nat>) returns (nodes: seq<ViewElement>)
    requires |zeroed| == |adj.nodes| && forall k :: 0 <= k < |zeroed| ==> zeroed[k] == NodeElOf(adj.nodes[k], 0)
    requires forall v :: DegreeOr0(degree, v) == EndCount(adj.edges, v)
    ensures |nodes| == |adj.nodes|
    ensures forall m :: 0 <= m < |nodes| ==> nodes[m] == NodeElOf(adj.nodes[m], EndCount(adj.edges, adj.nodes[m].id))
  {
    nodes := zeroed;
    var k := 0;
    while k < |nodes|
      invariant 0 <= k <= |nodes| == |adj.nodes|
      invariant forall m :: 0 <= m < k ==> nodes[m] == NodeElOf(adj.nodes[m], EndCount(adj.edges, adj.nodes[m].id))
      invariant forall m :: k <= m < |nodes| ==> nodes[m] == NodeElOf(adj.nodes[m], 0)
    {
      var el := nodes[k];
      nodes := nodes[k := el.(degree := DegreeOr0(degree, el.id))];
      k := k + 1;
    }
  }

  /** All node elements come first, then all edge elements, with both counts preserved; a
      node's degree is the number of edges with it as source plus the number with it as
      target, and it is zero exactly when no edge touches the node. */
  lemma ElementsLayout(adj: Adj, i: nat)
    requires i < |ElementsSpec(adj)|
    ensures |ElementsSpec(adj)| == |adj.nodes| + |adj.edges|
    ensures var el := ElementsSpec(adj)[i];
      && (i < |adj.nodes| ==>
            && el.NodeEl? && el.id == adj.nodes[i].id
            && el.degree == Count(adj.edges, SourceIs(el.id)) + Count(adj.edges, TargetIs(el.id))
            && (el.degree == 0 <==> forall k :: 0 <= k < |adj.edges| ==> !Touches(adj.edges[k], el.id)))
      && (i >= |adj.nodes| ==>
            && el.EdgeEl? && el.source == adj.edges[i - |adj.nodes|].source
            && el.target == adj.edges[i - |adj.nodes|].target)
  {
    if i < |adj.nodes| {
      EndCountSplit(adj.edges, adj.nodes[i].id);
      EndCountZero(adj.edges, adj.nodes[i].id);
    }
  }

  /** The minimum-confidence test of the view filter. */
  function AtLeast(minConf: real): AdjEdge -> bool { (e: AdjEdge) => e.confidence >= minConf }

  /** The isolate test: some kept edge has the node as an endpoint. */
  function NotIsolated(es: seq<AdjEdge>): AdjNode -> bool { (n: AdjNode) => EndCount(es, n.id) > 0 }

  /** The adjacency the app shows: the edges with confidence at least `minConf` and, with
      `hideIsolates`, only the nodes that remain an endpoint of such an edge. */
  function FilterViewSpec(g: Adj, minConf: real, hideIsolates: bool): Adj {
    var es := Filter(g.edges, AtLeast(minConf));
    Adj(if hideIsolates then Filter(g.nodes, NotIsolated(es)) else g.nodes, es)
  }

  /** The filter block of the app: edge filter, then a degree loop over the kept edges and a
      node filter on the degrees. */
  method FilterView(g: Adj, minConf: real, hideIsolates: bool) returns (r: Adj)
    ensures r == FilterViewSpec(g, minConf, hideIsolates)
  {
    var es := Filter(g.edges, AtLeast(minConf));
    r := Adj(g.nodes, es);
    if hideIsolates {
      var deg: map<string, nat> := map[];
      var j := 0;
      while j < |es|
        invariant 0 <= j <= |es|
        invariant forall v :: DegreeOr0(deg, v) == EndCount(es[..j], v)
      {
        var e := es[j];
        assert es[..j + 1][..j] == es[..j];
        deg := AddEnds(deg, e);
        j := j + 1;
      }
      assert es[..j] == es;
      var hasDegree := (n: AdjNode) => DegreeOr0(deg, n.id) > 0;
      forall k | 0 <= k < |g.nodes|
        ensures hasDegree(g.nodes[k]) == NotIsolated(es)(g.nodes[k])
      {
      }
      FilterCongruent(g.nodes, hasDegree, NotIsolated(es));
      r := Adj(Filter(g.nodes, hasDegree), es);
    }
  }

  /** The filter keeps an edge exactly when its confidence reaches `minConf`; with
      `hideIsolates` it keeps exactly the nodes that some kept edge touches, and otherwise all
      nodes. Both lists keep their order. */
  lemma FilterViewKeeps(g: Adj, minConf: real, hideIsolates: bool)
    ensures var r := FilterViewSpec(g, minConf, hideIsolates);
      && (forall e :: e in r.edges <==> e in g.edges && e.confidence >= minConf)
      && (!hideIsolates ==> r.nodes == g.nodes)
      && (hideIsolates ==> forall n :: n in r.nodes <==>
            n in g.nodes && exists k :: 0 <= k < |r.edges| && Touches(r.edges[k], n.id))
      && IsSubsequence(r.edges, g.edges) && IsSubsequence(r.nodes, g.nodes)
  {
    var es := Filter(g.edges, AtLeast(minConf));
    forall e
      ensures e in es <==> e in g.edges && e.confidence >= minConf
    {
      FilterMember(g.edges, AtLeast(minConf), e);
    }
    FilterIsSubsequence(g.edges, AtLeast(minConf));
    if hideIsolates {
      forall n
        ensures n in Filter(g.nodes, NotIsolated(es)) <==>
                n in g.nodes && exists k :: 0 <= k < |es| && Touches(es[k], n.id)
      {
        FilterMember(g.nodes, NotIsolated(es), n);
        EndCountZero(es, n.id);
      }
      FilterIsSubsequence(g.nodes, NotIsolated(es));
    } else {
      SubsequenceRefl(g.nodes);
    }
  }

  /** The entry that shows the whole graph. */
  const SHOW_ALL := "\U{2014} Show all \U{2014}"

  /** The label `id_to_label` maps an id to: the label, or the id when the label is empty, of
      the last node with that id (later entries of the dictionary comprehension win). */
  function IdToLabel(nodes: seq<AdjNode>, id: string): string
    decreases |nodes|
  {
    if nodes == [] then id
    else
      var n := nodes[|nodes| - 1];
      if n.id == id then (if n.caption == [] then n.id else n.caption) else IdToLabel(nodes[..|nodes| - 1], id)
  }

  /** A focus option: `f"{label}  \U{00B7}  ({id})"`. */
  function FocusOption(caption: string, id: string): string {
    caption + "  \U{00B7}  (" + id + ")"
  }

  /** The focus options before sorting: "Show all", then one option per node. */
  function FocusOptions(nodes: seq<AdjNode>): (r: seq<string>)
    ensures |r| == |nodes| + 1 && r[0] == SHOW_ALL
  {
    [SHOW_ALL] + seq(|nodes|, i requires 0 <= i < |nodes| => FocusOption(IdToLabel(nodes, nodes[i].id), nodes[i].id))
  }

  /** `s.rsplit("(", 1)[-1]`: what follows the last '(' , or all of `s` when there is none. */
  function AfterLastParen(s: string): (r: string)
    ensures '(' !in r
  {
    var k := RFind(s, '(');
    if k == -1 then s else s[k + 1..]
  }

  predicate IsCloseParen(c: char) { c == ')' }

  /** The focus id read back from an option: `rsplit("(", 1)[-1].rstrip(")")`. */
  function ParseFocus(choice: string): string {
    RTrim(AfterLastParen(choice), IsCloseParen)
  }

  /** The center the app focuses on for a choice, or None for "Show all". */
  function FocusCenter(choice: string): Option<string> {
    if choice == SHOW_ALL then None else Some(ParseFocus(choice))
  }

  /** Reading an option back gives its id whenever the id has no '(' and does not end in ')',
      whatever the caption holds. */
  lemma FocusRoundTrip(caption: string, id: string)
    requires '(' !in id && (id == [] || id[|id| - 1] != ')')
    ensures ParseFocus(FocusOption(caption, id)) == id
  {
    var o := FocusOption(caption, id);
    var p := |caption| + 5;
    assert o[p] == '(';
    assert o[p + 1..] == id + ")";
    assert AfterLastParen(o) == id + ")";
    assert (id + ")")[..|id|] == id;
    RTrimFixed(id, IsCloseParen);
  }

  /** Every node's option leads back to that node's id under the same condition. */
  lemma FocusOptionsRoundTrip(nodes: seq<AdjNode>, i: nat)
    requires i < |nodes|
    requires '(' !in nodes[i].id && (nodes[i].id == [] || nodes[i].id[|nodes[i].id| - 1] != ')')
    ensures FocusCenter(FocusOptions(nodes)[i + 1]) == Some(nodes[i].id)
  {
    var o := FocusOptions(nodes)[i + 1];
    assert o == FocusOption(IdToLabel(nodes, nodes[i].id), nodes[i].id);
    assert o[|o| - 1] == ')';
    assert o != SHOW_ALL;
    FocusRoundTrip(IdToLabel(nodes, nodes[i].id), nodes[i].id);
  }

  /** An id with parentheses does not survive: the option for id "f()" reads back as the empty
      string, which `build_subgraph` treats as no focus at all. */
  lemma FocusParenthesisedId()
    ensures ParseFocus(FocusOption("x", "f()")) == ""
  {
    var o := FocusOption("x", "f()");
    assert o == "x  \U{00B7}  (f())";
    assert RFind(o, '(') == 8;
    assert AfterLastParen(o) == "))";
  }
}
