/** The public part of agent/json_formatter.py: coercing a parsed value into graph elements
    (`_coerce_elements`, `_dedupe`), the degree annotation and `generate_graph_json`. */
module JsonFormatter {
  import opened PyText
  import opened PyValue
  import opened GraphSchema
  import opened Dedup
  import opened JsonExtract
  import opened ResultSeq

  const NODE_CAP := 50
  const EDGE_CAP := 100
  /** Characters of the report sent to the model. */
  const REPORT_BUDGET := 15000

  /** `_dedupe`'s node key: `str(data.get("id"))`. */
  function NodeKey(e: Element): string {
    PyStr(Get(e.data, "id", JNull))
  }

  /** `_dedupe`'s edge signature: (str(id), source, target, label). */
  function EdgeSig(e: Element): (string, Json, Json, Json) {
    (PyStr(Get(e.data, "id", JNull)), Get(e.data, "source", JNull), Get(e.data, "target", JNull),
     Get(e.data, "label", JNull))
  }

  /** One de-duplication loop of `_dedupe`: a seen-set of keys, first occurrence kept. */
  method DedupeElements<K(==)>(xs: seq<Element>, key: Element -> K) returns (out: seq<Element>)
    ensures out == DedupeBy(xs, key)
  {
    var seen: set<K> := {};
    out := [];
    var i := 0;
    while i < |xs|
      invariant 0 <= i <= |xs|
      invariant out == DedupeBy(xs[..i], key)
      invariant seen == KeysOf(xs[..i], key)
    {
      assert xs[..i + 1][..i] == xs[..i];
      var k := key(xs[i]);
      if k !in seen {
        seen := seen + {k};
        out := out + [xs[i]];
      }
      i := i + 1;
    }
    assert xs[..|xs|] == xs;
  }

  /** `obj.get(key, [])` when it is a list, else `[]`. */
  function ListField(obj: Dict, key: string): seq<Json> {
    var v := Get(obj, key, JArr([]));
    if v.JArr? then v.items else []
  }

  /** The wrapped elements `_coerce_elements` starts from. */
  function Wrapped(obj: Dict, key: string): (r: seq<Element>)
    ensures |r| == |ListField(obj, key)|
  {
    var xs := ListField(obj, key);
    seq(|xs|, i requires 0 <= i < |xs| => WrapData(xs[i]))
  }

  predicate AnyNodeRaises(ns: seq<Element>) {
    exists i | 0 <= i < |ns| :: NodeDefaultsRaise(ns[i].data)
  }

  predicate AnyEdgeRaises(es: seq<Element>) {
    exists i | 0 <= i < |es| :: EdgeDefaultsRaise(es[i].data)
  }

  /** One pass of the node loop of `_coerce_elements`: the record through
      `_ensure_node_defaults`, whose exception propagates. */
  function NodeStep(e: Element, rnd: Hex8): (r: Result<Element>)
    ensures r.Raised? <==> NodeDefaultsRaise(e.data)
    ensures r.Ok? ==> r.value.rest == e.rest && NodeNormal(r.value.data)
  {
    match EnsureNodeDefaults(e.data, rnd)
    case Raised(err) => Raised(err)
    case Ok(d) => Ok(e.(data := d))
  }

  /** The node step at position `i`, whose random slug fallback is `rnd(i)`. */
  function NodeFn(rnd: nat -> Hex8): (nat, Element) -> Result<Element> {
    (i: nat, e: Element) => NodeStep(e, rnd(i))
  }

  /** The node loop of `_coerce_elements`: every node through `_ensure_node_defaults`, the
      first exception propagating. */
  function NormalizeNodes(ns: seq<Element>, rnd: nat -> Hex8): (r: Result<seq<Element>>)
    ensures r.Ok? ==> |r.value| == |ns|
  {
    MapResult(ns, NodeFn(rnd))
  }

  /** The node loop raises exactly when some node's defaults raise. */
  lemma NormalizeNodesRaises(ns: seq<Element>, rnd: nat -> Hex8)
    ensures NormalizeNodes(ns, rnd).Raised? <==> AnyNodeRaises(ns)
  {
    MapResultRaises(ns, NodeFn(rnd));
    forall i | 0 <= i < |ns| ensures NodeFn(rnd)(i, ns[i]).Raised? <==> NodeDefaultsRaise(ns[i].data) {
      assert NodeFn(rnd)(i, ns[i]) == NodeStep(ns[i], rnd(i));
    }
  }

  /** Where the node loop succeeds, node `i` is node `i` of the input with its record
      normalised by `_ensure_node_defaults`, and so is in normal form. */
  lemma NormalizeNodesAt(ns: seq<Element>, rnd: nat -> Hex8, i: nat)
    requires NormalizeNodes(ns, rnd).Ok? && i < |ns|
    ensures EnsureNodeDefaults(ns[i].data, rnd(i)).Ok?
    ensures NormalizeNodes(ns, rnd).value[i].data == EnsureNodeDefaults(ns[i].data, rnd(i)).value
    ensures NormalizeNodes(ns, rnd).value[i].rest == ns[i].rest
    ensures NodeNormal(NormalizeNodes(ns, rnd).value[i].data)
  {
    MapResultAt(ns, NodeFn(rnd), i);
  }

  /** Both endpoints are non-empty strings naming ids in `ids`. */
  predicate EndpointsIn(d: Dict, ids: set<string>) {
    && "source" in d && d["source"].JStr? && d["source"].s != [] && d["source"].s in ids
    && "target" in d && d["target"].JStr? && d["target"].s != [] && d["target"].s in ids
  }

  /** A kept edge's endpoints replaced by their `str()`. */
  function StringifyEndpoints(d: Dict): (r: Dict)
    ensures forall k :: k != "source" && k != "target" ==> SameAt(d, r, k)
  {
    d["source" := JStr(PyStr(Get(d, "source", JNull)))]["target" := JStr(PyStr(Get(d, "target", JNull)))]
  }

  /** A valid edge, once stringified, is normal and has both endpoints among the ids. */
  lemma StringifiedEdge(d: Dict, ids: set<string>)
    requires EdgeNormal(d) && EdgeValid(d, ids)
    ensures EdgeNormal(StringifyEndpoints(d)) && EndpointsIn(StringifyEndpoints(d), ids)
  {
    var d2 := StringifyEndpoints(d);
    assert SameAt(d, d2, "id") && SameAt(d, d2, "label") && SameAt(d, d2, "confidence")
      && SameAt(d, d2, "description");
  }

  /** One pass of the edge loop of `_coerce_elements`: the record through
      `_ensure_edge_defaults`; a valid edge is kept with its endpoints stringified. */
  function EdgeStep(e: Element, ids: set<string>, rnd: Hex8): (r: Result<Option<Element>>)
    ensures r.Raised? <==> EdgeDefaultsRaise(e.data)
    ensures r.Ok? && r.value.Some? ==>
      r.value.value.rest == e.rest && EdgeNormal(r.value.value.data) && EndpointsIn(r.value.value.data, ids)
  {
    match EnsureEdgeDefaults(e.data, ids, rnd)
    case Raised(err) => Raised(err)
    case Ok(res) =>
      if res.1 then
        StringifiedEdge(res.0, ids);
        Ok(Some(e.(data := StringifyEndpoints(res.0))))
      else Ok(None)
  }

  /** The edge step at position `i`, whose random slug fallback is `rnd(i)`. */
  function EdgeFn(ids: set<string>, rnd: nat -> Hex8): (nat, Element) -> Result<Option<Element>> {
    (i: nat, e: Element) => EdgeStep(e, ids, rnd(i))
  }

  /** The edge loop of `_coerce_elements`: every edge through `_ensure_edge_defaults`, the
      valid ones kept, the first exception propagating. */
  function KeepEdgesSpec(es: seq<Element>, ids: set<string>, rnd: nat -> Hex8): (r: Result<seq<Element>>)
    ensures r.Ok? ==> |r.value| <= |es|
  {
    FilterMapResult(es, EdgeFn(ids, rnd))
  }

  /** The edge loop raises exactly when some edge's defaults raise. */
  lemma KeepEdgesRaises(es: seq<Element>, ids: set<string>, rnd: nat -> Hex8)
    ensures KeepEdgesSpec(es, ids, rnd).Raised? <==> AnyEdgeRaises(es)
  {
    FilterMapResultRaises(es, EdgeFn(ids, rnd));
    forall i | 0 <= i < |es| ensures EdgeFn(ids, rnd)(i, es[i]).Raised? <==> EdgeDefaultsRaise(es[i].data) {
      assert EdgeFn(ids, rnd)(i, es[i]) == EdgeStep(es[i], ids, rnd(i));
    }
  }

  /** Dangling edges are dropped: every kept edge is normal and both its endpoints are ids of
      normalised nodes; and it is one of the input edges with its record normalised. */
  lemma KeepEdgesShape(es: seq<Element>, ids: set<string>, rnd: nat -> Hex8)
    requires KeepEdgesSpec(es, ids, rnd).Ok?
    ensures var r := KeepEdgesSpec(es, ids, rnd).value;
      forall j :: 0 <= j < |r| ==>
        && EdgeNormal(r[j].data) && EndpointsIn(r[j].data, ids)
        && exists i :: 0 <= i < |es| && EdgeStep(es[i], ids, rnd(i)) == Ok(Some(r[j]))
  {
    var r := KeepEdgesSpec(es, ids, rnd).value;
    forall j | 0 <= j < |r|
      ensures EdgeNormal(r[j].data) && EndpointsIn(r[j].data, ids)
      ensures exists i :: 0 <= i < |es| && EdgeStep(es[i], ids, rnd(i)) == Ok(Some(r[j]))
    {
      FilterMapResultFrom(es, EdgeFn(ids, rnd), j);
      var i :| 0 <= i < |es| && EdgeFn(ids, rnd)(i, es[i]) == Ok(Some(r[j]));
      assert EdgeStep(es[i], ids, rnd(i)) == Ok(Some(r[j]));
    }
  }

  /** What `_coerce_elements(obj)` returns: empty lists for a non-dict; otherwise the wrapped
      nodes normalised, the edges normalised and filtered against all node ids, both lists
      de-duplicated and capped at 50 nodes and 100 edges. */
  function CoerceSpec(obj: Json, nodeRnd: nat -> Hex8, edgeRnd: nat -> Hex8): Result<Graph> {
    if !obj.JObj? then Ok(Graph([], []))
    else
      match NormalizeNodes(Wrapped(obj.fields, "nodes"), nodeRnd)
      case Raised(err) => Raised(err)
      case Ok(nn) =>
        match KeepEdgesSpec(Wrapped(obj.fields, "edges"), KeysOf(nn, NodeKey), edgeRnd)
        case Raised(err) => Raised(err)
        case Ok(kept) =>
          Ok(Graph(Prefix(DedupeBy(nn, NodeKey), NODE_CAP), Prefix(DedupeBy(kept, EdgeSig), EDGE_CAP)))
  }

  /** A non-dict gives the empty element lists; a dict raises exactly when some node's
      slug source or label, or some edge's label, is not a string. */
  lemma CoerceOutcome(obj: Json, nodeRnd: nat -> Hex8, edgeRnd: nat -> Hex8)
    ensures !obj.JObj? ==> CoerceSpec(obj, nodeRnd, edgeRnd) == Ok(Graph([], []))
    ensures obj.JObj? ==>
      (CoerceSpec(obj, nodeRnd, edgeRnd).Raised? <==>
        AnyNodeRaises(Wrapped(obj.fields, "nodes")) || AnyEdgeRaises(Wrapped(obj.fields, "edges")))
  {
    if obj.JObj? {
      var ns := Wrapped(obj.fields, "nodes");
      NormalizeNodesRaises(ns, nodeRnd);
      if NormalizeNodes(ns, nodeRnd).Ok? {
        KeepEdgesRaises(Wrapped(obj.fields, "edges"), KeysOf(NormalizeNodes(ns, nodeRnd).value, NodeKey), edgeRnd);
      }
    }
  }

  /** The ids of all normalised nodes, before de-duplication and the cap. */
  function AllNodeIds(obj: Dict, nodeRnd: nat -> Hex8): set<string>
    requires NormalizeNodes(Wrapped(obj, "nodes"), nodeRnd).Ok?
  {
    KeysOf(NormalizeNodes(Wrapped(obj, "nodes"), nodeRnd).value, NodeKey)
  }

  /** The shape of the coerced elements: caps respected, every node and edge normalised, node
      ids and edge signatures unique, every edge's endpoints among the ids of all nodes. */
  lemma CoerceShape(obj: Json, nodeRnd: nat -> Hex8, edgeRnd: nat -> Hex8)
    requires obj.JObj? && CoerceSpec(obj, nodeRnd, edgeRnd).Ok?
    ensures NormalizeNodes(Wrapped(obj.fields, "nodes"), nodeRnd).Ok?
    ensures var g := CoerceSpec(obj, nodeRnd, edgeRnd).value;
      && |g.nodes| <= NODE_CAP && |g.edges| <= EDGE_CAP
      && (forall i :: 0 <= i < |g.nodes| ==> NodeNormal(g.nodes[i].data))
      && (forall i :: 0 <= i < |g.edges| ==> EdgeNormal(g.edges[i].data))
      && DistinctKeys(g.nodes, NodeKey) && DistinctKeys(g.edges, EdgeSig)
      && (forall i :: 0 <= i < |g.edges| ==> EndpointsIn(g.edges[i].data, AllNodeIds(obj.fields, nodeRnd)))
  {
    var ns := Wrapped(obj.fields, "nodes");
    var nn := NormalizeNodes(ns, nodeRnd).value;
    CappedNodesShape(ns, nodeRnd, NODE_CAP);
    CappedEdgesShape(Wrapped(obj.fields, "edges"), KeysOf(nn, NodeKey), edgeRnd, EDGE_CAP);
  }

  /** The de-duplicated, capped node list: within the cap, unique ids, every node normalised. */
  lemma CappedNodesShape(ns: seq<Element>, nodeRnd: nat -> Hex8, cap: nat)
    requires NormalizeNodes(ns, nodeRnd).Ok?
    ensures var g := Prefix(DedupeBy(NormalizeNodes(ns, nodeRnd).value, NodeKey), cap);
      && |g| <= cap && DistinctKeys(g, NodeKey)
      && forall i :: 0 <= i < |g| ==> NodeNormal(g[i].data)
  {
    var nn := NormalizeNodes(ns, nodeRnd).value;
    var dn := DedupeBy(nn, NodeKey);
    var g := Prefix(dn, cap);
    forall i | 0 <= i < |g| ensures NodeNormal(g[i].data) {
      assert g[i] == dn[i];
      DedupeElementFrom(nn, NodeKey, i);
      var k :| 0 <= k < |nn| && dn[i] == nn[k];
      NormalizeNodesAt(ns, nodeRnd, k);
    }
  }

  /** The de-duplicated, capped edge list: within the cap, unique signatures, every edge
      normalised with both endpoints among `ids`. */
  lemma CappedEdgesShape(es: seq<Element>, ids: set<string>, edgeRnd: nat -> Hex8, cap: nat)
    requires KeepEdgesSpec(es, ids, edgeRnd).Ok?
    ensures var g := Prefix(DedupeBy(KeepEdgesSpec(es, ids, edgeRnd).value, EdgeSig), cap);
      && |g| <= cap && DistinctKeys(g, EdgeSig)
      && forall i :: 0 <= i < |g| ==> EdgeNormal(g[i].data) && EndpointsIn(g[i].data, ids)
  {
    var kept := KeepEdgesSpec(es, ids, edgeRnd).value;
    var de := DedupeBy(kept, EdgeSig);
    var g := Prefix(de, cap);
    KeepEdgesShape(es, ids, edgeRnd);
    forall i | 0 <= i < |g| ensures EdgeNormal(g[i].data) && EndpointsIn(g[i].data, ids) {
      assert g[i] == de[i];
      DedupeElementFrom(kept, EdgeSig, i);
    }
  }

  /** Every element de-duplication keeps is an element of its input. */
  lemma DedupeElementFrom<K>(xs: seq<Element>, key: Element -> K, j: nat)
    requires j < |DedupeBy(xs, key)|
    ensures exists i :: 0 <= i < |xs| && DedupeBy(xs, key)[j] == xs[i]
  {
    DedupeKeepsFirst(xs, key, j);
  }

  /** Edge integrity after the cap: when the nodes carry at most 50 distinct ids, every kept
      edge's endpoints are ids of nodes in the output. */
  lemma CoerceEdgesAnchored(obj: Json, nodeRnd: nat -> Hex8, edgeRnd: nat -> Hex8)
    requires obj.JObj? && CoerceSpec(obj, nodeRnd, edgeRnd).Ok?
    requires NormalizeNodes(Wrapped(obj.fields, "nodes"), nodeRnd).Ok?
    requires |AllNodeIds(obj.fields, nodeRnd)| <= NODE_CAP
    ensures var g := CoerceSpec(obj, nodeRnd, edgeRnd).value;
      forall i :: 0 <= i < |g.edges| ==> EndpointsIn(g.edges[i].data, KeysOf(g.nodes, NodeKey))
  {
    var nn := NormalizeNodes(Wrapped(obj.fields, "nodes"), nodeRnd).value;
    var dn := DedupeBy(nn, NodeKey);
    DistinctKeysCount(dn, NodeKey);
    assert Prefix(dn, NODE_CAP) == dn;
    CoerceShape(obj, nodeRnd, edgeRnd);
  }

  /** Sequences with distinct keys have as many keys as elements. */
  lemma {:induction false} DistinctKeysCount<K>(xs: seq<Element>, key: Element -> K)
    requires DistinctKeys(xs, key)
    ensures |KeysOf(xs, key)| == |xs|
    decreases |xs|
  {
    if xs != [] {
      var p := xs[..|xs| - 1];
      assert DistinctKeys(p, key);
      DistinctKeysCount(p, key);
      KeysOfMember(p, key, key(xs[|xs| - 1]));
    }
  }

  /** `_coerce_elements(obj)`. */
  method CoerceElements(obj: Json, nodeRnd: nat -> Hex8, edgeRnd: nat -> Hex8) returns (r: Result<Graph>)
    ensures r == CoerceSpec(obj, nodeRnd, edgeRnd)
  {
    if !obj.JObj? {
      return Ok(Graph([], []));
    }
    var nodes, nodeIds := NormalizeNodeList(Wrapped(obj.fields, "nodes"), nodeRnd);
    if nodes.Raised? {
      return Raised(nodes.error);
    }
    var kept := KeepEdges(Wrapped(obj.fields, "edges"), nodeIds, edgeRnd);
    if kept.Raised? {
      return Raised(kept.error);
    }
    var dn := DedupeElements(nodes.value, NodeKey);
    var de := DedupeElements(kept.value, EdgeSig);
    r := Ok(Graph(Prefix(dn, NODE_CAP), Prefix(de, EDGE_CAP)));
  }

  /** The node loop of `_coerce_elements`: each node normalised and its id collected. */
  method NormalizeNodeList(ns: seq<Element>, rnd: nat -> Hex8) returns (r: Result<seq<Element>>, ids: set<string>)
    ensures r == NormalizeNodes(ns, rnd)
    ensures r.Ok? ==> ids == KeysOf(r.value, NodeKey)
  {
    var out: seq<Element> := [];
    ids := {};
    var i := 0;
    while i < |ns|
      invariant 0 <= i <= |ns|
      invariant NormalizeNodes(ns[..i], rnd) == Ok(out)
      invariant ids == KeysOf(out, NodeKey)
    {
      assert ns[..i + 1][..i] == ns[..i];
      var res := NodeStep(ns[i], rnd(i));
      if res.Raised? {
        MapResultPrefixRaised(ns, NodeFn(rnd), i + 1);
        return Raised(res.error), ids;
      }
      var n := res.value;
      KeysOfSnoc(out, n, NodeKey);
      out := out + [n];
      ids := ids + {n.data["id"].s};
      i := i + 1;
    }
    assert ns[..|ns|] == ns;
    r := Ok(out);
  }

  /** The body of the edge loop of `_coerce_elements`: the edge normalised and, when valid,
      returned with its endpoints stringified. */
  method EdgeOnce(e: Element, ids: set<string>, rnd: Hex8) returns (r: Result<Option<Element>>)
    ensures r == EdgeStep(e, ids, rnd)
  {
    var res := EnsureEdgeDefaults(e.data, ids, rnd);
    if res.Raised? {
      return Raised(res.error);
    }
    var d := res.value.0;
    if !res.value.1 {
      return Ok(None);
    }
    d := d["source" := JStr(PyStr(Get(d, "source", JNull)))];
    d := d["target" := JStr(PyStr(Get(d, "target", JNull)))];
    r := Ok(Some(e.(data := d)));
  }

  /** The edge loop of `_coerce_elements`: each edge normalised and, when valid, kept with its
      endpoints stringified. */
  method KeepEdges(es: seq<Element>, ids: set<string>, rnd: nat -> Hex8) returns (r: Result<seq<Element>>)
    ensures r == KeepEdgesSpec(es, ids, rnd)
  {
    var kept: seq<Element> := [];
    var k := 0;
    while k < |es|
      invariant 0 <= k <= |es|
      invariant KeepEdgesSpec(es[..k], ids, rnd) == Ok(kept)
    {
      FilterMapResultStep(es, EdgeFn(ids, rnd), k);
      var step := EdgeOnce(es[k], ids, rnd(k));
      assert EdgeFn(ids, rnd)(k, es[k]) == step;
      if step.Raised? {
        return Raised(step.error);
      }
      if step.value.Some? {
        kept := kept + [step.value.value];
      }
      k := k + 1;
    }
    assert es[..|es|] == es;
    r := Ok(kept);
  }

  /** The number of edge ends at `v`: an edge counts once for its source and once for its
      target, so a self-loop counts twice. */
  function Degree(es: seq<Element>, v: Json): nat
    decreases |es|
  {
    if es == [] then 0
    else
      var d := es[|es| - 1].data;
      Degree(es[..|es| - 1], v) + (if Get(d, "source", JNull) == v then 1 else 0)
        + (if Get(d, "target", JNull) == v then 1 else 0)
  }

  /** A value has degree zero exactly when no edge has it as source or target. */
  lemma {:induction false} DegreeZero(es: seq<Element>, v: Json)
    ensures Degree(es, v) == 0 <==>
      forall i :: 0 <= i < |es| ==> Get(es[i].data, "source", JNull) != v && Get(es[i].data, "target", JNull) != v
    decreases |es|
  {
    if es != [] {
      var p := es[..|es| - 1];
      DegreeZero(p, v);
      assert forall i :: 0 <= i < |p| ==> p[i] == es[i];
    }
  }

  /** A value that some edge starts or ends at has a positive degree. */
  lemma {:induction false} DegreeOfEdge(es: seq<Element>, v: Json, i: nat)
    requires i < |es| && (Get(es[i].data, "source", JNull) == v || Get(es[i].data, "target", JNull) == v)
    ensures Degree(es, v) >= 1
  {
    DegreeZero(es, v);
  }

  /** The node record with its degree added; every other key is unchanged. */
  function WithNodeDegree(n: Element, es: seq<Element>): (r: Element)
    ensures r.rest == n.rest
    ensures "degree" in r.data && r.data["degree"] == JInt(Degree(es, Get(n.data, "id", JNull)))
    ensures forall k :: k != "degree" ==> SameAt(n.data, r.data, k)
  {
    n.(data := n.data["degree" := JInt(Degree(es, Get(n.data, "id", JNull)))])
  }

  /** Step 4 of `generate_graph_json`: each node's `degree` is the number of edge ends at its
      id; the edges are untouched. */
  function WithDegree(g: Graph): (r: Graph)
    ensures r.edges == g.edges && |r.nodes| == |g.nodes|
    ensures forall i :: 0 <= i < |g.nodes| ==> r.nodes[i] == WithNodeDegree(g.nodes[i], g.edges)
  {
    Graph(seq(|g.nodes|, i requires 0 <= i < |g.nodes| => WithNodeDegree(g.nodes[i], g.edges)), g.edges)
  }

  /** The lookup `id2deg.get(v, 0)`. */
  function CountOr0(m: map<Json, nat>, v: Json): nat {
    if v in m then m[v] else 0
  }

  /** Step 4 of `generate_graph_json`: count edge ends per id in a dictionary, then store
      each node's count. */
  method AddDegree(g: Graph) returns (r: Graph)
    ensures r == WithDegree(g)
  {
    var id2deg: map<Json, nat> := map[];
    var i := 0;
    while i < |g.edges|
      invariant 0 <= i <= |g.edges|
      invariant forall v :: CountOr0(id2deg, v) == Degree(g.edges[..i], v)
    {
      assert g.edges[..i + 1][..i] == g.edges[..i];
      var d := g.edges[i].data;
      var s, t := Get(d, "source", JNull), Get(d, "target", JNull);
      id2deg := id2deg[s := CountOr0(id2deg, s) + 1];
      id2deg := id2deg[t := CountOr0(id2deg, t) + 1];
      i := i + 1;
    }
    assert g.edges[..|g.edges|] == g.edges;
    var nodes: seq<Element> := [];
    var j := 0;
    while j < |g.nodes|
      invariant 0 <= j <= |g.nodes|
      invariant |nodes| == j
      invariant forall k :: 0 <= k < j ==> nodes[k] == WithNodeDegree(g.nodes[k], g.edges)
    {
      var n := g.nodes[j];
      nodes := nodes + [n.(data := n.data["degree" := JInt(CountOr0(id2deg, Get(n.data, "id", JNull)))])];
      j := j + 1;
    }
    r := Graph(nodes, g.edges);
  }

  /** What `generate_graph_json(report, topic, add_degree=addDegree)` returns. `invoke`
      stands for the model call on the topic and the first 15000 characters of the report
      (None: the call raised); `loads` for `json.loads`; `nodeRnd` and `edgeRnd` for the
      random slug fallbacks. An exception from `_coerce_elements` propagates. */
  function GenerateGraphSpec(report: string, topic: string, addDegree: bool,
                             invoke: (string, string) -> Option<string>, loads: string -> Option<Json>,
                             nodeRnd: nat -> Hex8, edgeRnd: nat -> Hex8): Result<Graph>
  {
    if IsBlank(report) then Ok(Graph([], []))
    else
      match invoke(topic, Prefix(report, REPORT_BUDGET))
      case None => Ok(Placeholder(topic))
      case Some(resp) =>
        var parsed := ExtractJsonSpec(Strip(resp), loads);
        match CoerceSpec(Or(parsed, JObj(map[])), nodeRnd, edgeRnd)
        case Raised(err) => Raised(err)
        case Ok(g) =>
          var g2 := if addDegree then WithDegree(g) else g;
          if g2.nodes == [] && g2.edges == [] then Ok(Placeholder(topic)) else Ok(g2)
  }

  /** `generate_graph_json`. */
  method GenerateGraphJson(report: string, topic: string, addDegree: bool,
                           invoke: (string, string) -> Option<string>, loads: string -> Option<Json>,
                           nodeRnd: nat -> Hex8, edgeRnd: nat -> Hex8) returns (r: Result<Graph>)
    ensures r == GenerateGraphSpec(report, topic, addDegree, invoke, loads, nodeRnd, edgeRnd)
  {
    if IsBlank(report) {
      return Ok(Graph([], []));
    }
    var ai := invoke(topic, Prefix(report, REPORT_BUDGET));
    if ai.None? {
      return Ok(Placeholder(topic));
    }
    var raw := Strip(ai.value);
    var parsed := ExtractJson(raw, loads);
    var elements := CoerceElements(Or(parsed, JObj(map[])), nodeRnd, edgeRnd);
    if elements.Raised? {
      return elements;
    }
    var g := elements.value;
    if addDegree {
      g := AddDegree(g);
    }
    if g.nodes == [] && g.edges == [] {
      g := Placeholder(topic);
    }
    r := Ok(g);
  }

  /** Edges survive coercion only next to nodes: whenever the coerced graph has an edge, it
      has a node. */
  lemma CoerceEdgesNeedNodes(obj: Json, nodeRnd: nat -> Hex8, edgeRnd: nat -> Hex8)
    requires CoerceSpec(obj, nodeRnd, edgeRnd).Ok? && CoerceSpec(obj, nodeRnd, edgeRnd).value.edges != []
    ensures CoerceSpec(obj, nodeRnd, edgeRnd).value.nodes != []
  {
    var nn := NormalizeNodes(Wrapped(obj.fields, "nodes"), nodeRnd).value;
    var ids := KeysOf(nn, NodeKey);
    var kept := KeepEdgesSpec(Wrapped(obj.fields, "edges"), ids, edgeRnd).value;
    assert DedupeBy(kept, EdgeSig) != [];
    assert kept != [];
    KeepEdgesShape(Wrapped(obj.fields, "edges"), ids, edgeRnd);
    assert EndpointsIn(kept[0].data, ids);
    assert ids != {};
    assert KeysOf(DedupeBy(nn, NodeKey), NodeKey) != {};
  }

  /** What `generate_graph_json` promises: a blank report gives empty lists; a failed model
      call gives the placeholder; otherwise the result, unless an exception escapes from the
      coercion, has at least one node and respects the caps. */
  lemma GenerateGraphOutcome(report: string, topic: string, addDegree: bool,
                             invoke: (string, string) -> Option<string>, loads: string -> Option<Json>,
                             nodeRnd: nat -> Hex8, edgeRnd: nat -> Hex8)
    ensures var r := GenerateGraphSpec(report, topic, addDegree, invoke, loads, nodeRnd, edgeRnd);
      && (IsBlank(report) ==> r == Ok(Graph([], [])))
      && (!IsBlank(report) && invoke(topic, Prefix(report, REPORT_BUDGET)).None? ==> r == Ok(Placeholder(topic)))
      && (!IsBlank(report) && r.Ok? ==>
            r.value.nodes != [] && |r.value.nodes| <= NODE_CAP && |r.value.edges| <= EDGE_CAP)
  {
    var r := GenerateGraphSpec(report, topic, addDegree, invoke, loads, nodeRnd, edgeRnd);
    if !IsBlank(report) && invoke(topic, Prefix(report, REPORT_BUDGET)).Some? {
      var resp := invoke(topic, Prefix(report, REPORT_BUDGET)).value;
      var obj := Or(ExtractJsonSpec(Strip(resp), loads), JObj(map[]));
      var c := CoerceSpec(obj, nodeRnd, edgeRnd);
      if c.Ok? {
        if obj.JObj? {
          CoerceShape(obj, nodeRnd, edgeRnd);
        }
        if c.value.edges != [] {
          CoerceEdgesNeedNodes(obj, nodeRnd, edgeRnd);
        }
      }
    }
  }

  /** When nothing in the model's reply parses as JSON, the result is the placeholder graph. */
  lemma GenerateGraphUnparsable(report: string, topic: string, addDegree: bool,
                                invoke: (string, string) -> Option<string>, loads: string -> Option<Json>,
                                nodeRnd: nat -> Hex8, edgeRnd: nat -> Hex8)
    requires !IsBlank(report) && forall x :: loads(x).None?
    ensures GenerateGraphSpec(report, topic, addDegree, invoke, loads, nodeRnd, edgeRnd) == Ok(Placeholder(topic))
  {
    var ai := invoke(topic, Prefix(report, REPORT_BUDGET));
    if ai.Some? {
      ExtractJsonNothingParses(Strip(ai.value), loads);
      var c := CoerceSpec(JObj(map[]), nodeRnd, edgeRnd);
      assert Wrapped(map[], "nodes") == [] && Wrapped(map[], "edges") == [];
      assert c == Ok(Graph([], []));
    }
  }

  /** With `add_degree`, a non-placeholder result carries each node's degree, and a node is
      at degree 0 exactly when no edge touches its id. */
  lemma GenerateGraphDegrees(report: string, topic: string,
                             invoke: (string, string) -> Option<string>, loads: string -> Option<Json>,
                             nodeRnd: nat -> Hex8, edgeRnd: nat -> Hex8, i: nat)
    requires var r := GenerateGraphSpec(report, topic, true, invoke, loads, nodeRnd, edgeRnd);
      !IsBlank(report) && r.Ok? && r.value != Placeholder(topic) && i < |r.value.nodes|
    ensures var g := GenerateGraphSpec(report, topic, true, invoke, loads, nodeRnd, edgeRnd).value;
      var id := Get(g.nodes[i].data, "id", JNull);
      && "degree" in g.nodes[i].data
      && (g.nodes[i].data["degree"] == JInt(0) <==>
            forall j :: 0 <= j < |g.edges| ==>
              Get(g.edges[j].data, "source", JNull) != id && Get(g.edges[j].data, "target", JNull) != id)
  {
    var g := GenerateGraphSpec(report, topic, true, invoke, loads, nodeRnd, edgeRnd).value;
    var resp := invoke(topic, Prefix(report, REPORT_BUDGET)).value;
    var c := CoerceSpec(Or(ExtractJsonSpec(Strip(resp), loads), JObj(map[])), nodeRnd, edgeRnd).value;
    assert g == WithDegree(c);
    var n := c.nodes[i];
    assert g.nodes[i] == WithNodeDegree(n, c.edges);
    assert "id" in n.data <==> "id" in g.nodes[i].data;
    assert Get(g.nodes[i].data, "id", JNull) == Get(n.data, "id", JNull);
    DegreeZero(c.edges, Get(n.data, "id", JNull));
  }
}
