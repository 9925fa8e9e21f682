/** Schema hygiene of the knowledge-graph formatter (agent/json_formatter.py): slug ids,
    the `{"data": ...}` wrapper, and the defaults filled into node and edge records. */
module GraphSchema {
  import opened PyText
  import opened PyValue

  /** `uuid.uuid4().hex[:8]`: eight lower-case hexadecimal digits. */
  predicate IsHex8(s: string) {
    |s| == 8 && forall i :: 0 <= i < 8 ==> ('0' <= s[i] <= '9' || 'a' <= s[i] <= 'f')
  }

  type Hex8 = s: string | IsHex8(s) witness "00000000"

  const SLUG_BODY_MAX := 40
  const DESCRIPTION_MAX := 300
  const DEFAULT_CONFIDENCE := 0.8

  predicate NoDoubleDash(s: string) {
    forall i :: 0 <= i < |s| - 1 ==> !(s[i] == '-' && s[i + 1] == '-')
  }

  predicate SlugChars(s: string) {
    forall i :: 0 <= i < |s| ==> IsLowerAlnum(s[i]) || s[i] == '-'
  }

  /** What follows "<prefix>-" in a slug id. */
  predicate IsSlugBody(b: string) {
    0 < |b| <= SLUG_BODY_MAX && SlugChars(b) && b[0] != '-' && NoDoubleDash(b)
  }

  /** `re.sub(r"[^a-z0-9]+", "-", s)`: every maximal run of other characters becomes one
      '-'; `inRun` says the previous character already started such a run. */
  function Collapse(s: string, inRun: bool): (r: string)
    ensures SlugChars(r) && NoDoubleDash(r)
    ensures inRun ==> r == [] || r[0] != '-'
    decreases |s|
  {
    if s == [] then []
    else if IsLowerAlnum(s[0]) then [s[0]] + Collapse(s[1..], false)
    else if inRun then Collapse(s[1..], true)
    else "-" + Collapse(s[1..], true)
  }

  predicate IsDash(c: char) { c == '-' }

  /** The cleaned text `_slug` builds before its random fallback and its 40-character cut. */
  function SlugBody(s: string): string {
    Trim(Collapse(Lower(Strip(s)), false), IsDash)
  }

  lemma SliceKeepsShape(s: string, a: nat, b: nat)
    requires a <= b <= |s| && SlugChars(s) && NoDoubleDash(s)
    ensures SlugChars(s[a..b]) && NoDoubleDash(s[a..b])
  {
    var t := s[a..b];
    forall i | 0 <= i < |t| - 1 ensures !(t[i] == '-' && t[i + 1] == '-') {
      assert t[i] == s[a + i] && t[i + 1] == s[a + i + 1];
    }
  }

  lemma TrimDashShape(c: string)
    requires SlugChars(c) && NoDoubleDash(c)
    ensures var b := Trim(c, IsDash);
      SlugChars(b) && NoDoubleDash(b) && (b == [] || (b[0] != '-' && b[|b| - 1] != '-'))
  {
    var l := LTrim(c, IsDash);
    assert l == c[|c| - |l|..];
    SliceKeepsShape(c, |c| - |l|, |c|);
    var r := RTrim(l, IsDash);
    assert r == l[..|r|];
    SliceKeepsShape(l, 0, |r|);
    TrimDashEnds(c);
  }

  /** Trimming dashes leaves no dash at either end. */
  lemma TrimDashEnds(c: string)
    ensures var b := Trim(c, IsDash); b == [] || (b[0] != '-' && b[|b| - 1] != '-')
  {
    var l := LTrim(c, IsDash);
    var r := RTrim(l, IsDash);
    if r != [] {
      assert r[0] == l[0];
    }
  }

  /** The cleaned text uses only [a-z0-9-], has no "--" and neither starts nor ends with '-'. */
  lemma SlugBodyShape(s: string)
    ensures var b := SlugBody(s);
      SlugChars(b) && NoDoubleDash(b) && (b == [] || (b[0] != '-' && b[|b| - 1] != '-'))
  {
    var c := Collapse(Lower(Strip(s)), false);
    TrimDashShape(c);
  }

  /** `_slug(s, prefix)`: "<prefix>-" and at most 40 characters of the cleaned text, or of
      the random hexadecimal string `rnd` when the cleaned text is empty. */
  function Slug(s: string, prefix: string, rnd: Hex8): (r: string)
    ensures StartsWith(r, prefix + "-") && IsSlugBody(r[|prefix| + 1..])
    ensures SlugBody(s) == [] ==> r == prefix + "-" + rnd
    ensures SlugBody(s) != [] ==> r == prefix + "-" + Prefix(SlugBody(s), SLUG_BODY_MAX)
  {
    var b := SlugBody(s);
    var body := Prefix(if b == [] then rnd else b, SLUG_BODY_MAX);
    SlugTail(s, prefix, rnd);
    prefix + "-" + body
  }

  lemma SlugTail(s: string, prefix: string, rnd: Hex8)
    ensures var b := SlugBody(s);
      var body := Prefix(if b == [] then rnd else b, SLUG_BODY_MAX);
      IsSlugBody(body) && (prefix + "-" + body)[|prefix| + 1..] == body
  {
    var b := SlugBody(s);
    SlugBodyShape(s);
    var body := Prefix(if b == [] then rnd else b, SLUG_BODY_MAX);
    if b != [] {
      SliceKeepsShape(b, 0, |body|);
    } else {
      assert body == rnd;
    }
    assert (prefix + "-" + body)[|prefix| + 1..] == body;
  }

  lemma {:induction false} CollapseFixed(s: string, inRun: bool)
    requires SlugChars(s) && NoDoubleDash(s)
    requires s == [] || s[0] != '-' || !inRun
    requires inRun ==> s == [] || s[0] != '-'
    ensures Collapse(s, inRun) == s
    decreases |s|
  {
    if s != [] {
      assert NoDoubleDash(s[1..]) && SlugChars(s[1..]) by { SliceKeepsShape(s, 1, |s|); }
      if IsLowerAlnum(s[0]) {
        CollapseFixed(s[1..], false);
      } else {
        assert s[0] == '-';
        assert s[1..] == [] || s[1..][0] != '-' by {
          if |s| > 1 { assert !(s[0] == '-' && s[1] == '-'); }
        }
        CollapseFixed(s[1..], true);
        assert s == "-" + s[1..];
      }
    }
  }

  /** Cleaning is idempotent: the cleaned text of a cleaned text is itself, so slugging an
      existing slug body keeps it. */
  lemma SlugBodyIdempotent(s: string)
    ensures SlugBody(SlugBody(s)) == SlugBody(s)
  {
    var b := SlugBody(s);
    SlugBodyShape(s);
    CleanFixed(b);
  }

  lemma CleanFixed(b: string)
    requires SlugChars(b) && NoDoubleDash(b) && (b == [] || (b[0] != '-' && b[|b| - 1] != '-'))
    ensures SlugBody(b) == b
  {
    if b != [] {
      assert IsLowerAlnum(b[0]) && IsLowerAlnum(b[|b| - 1]);
      assert !IsSpace(b[0]) && !IsSpace(b[|b| - 1]);
    }
    StripFixed(b);
    LowerFixed(b);
    CollapseFixed(b, false);
    TrimDashFixed(b);
  }

  lemma LowerFixed(b: string)
    requires SlugChars(b)
    ensures Lower(b) == b
  {
    assert forall i :: 0 <= i < |b| ==> LowerChar(b[i]) == b[i];
  }

  lemma TrimDashFixed(b: string)
    requires b == [] || (b[0] != '-' && b[|b| - 1] != '-')
    ensures Trim(b, IsDash) == b
  {
    LTrimFixed(b, IsDash);
    RTrimFixed(b, IsDash);
  }

  /** An element of the formatter's output: the record under "data" and whatever other keys
      the wrapper dict carried. */
  datatype Element = Element(data: Dict, rest: Dict)

  /** `_wrap_data`: a dict with a dict under "data" is kept, any other dict is wrapped,
      anything else becomes `{"data": {}}`. */
  function WrapData(v: Json): (e: Element)
    ensures "data" !in e.rest
    ensures v.JObj? && "data" in v.fields && v.fields["data"].JObj? ==> Unwrap(e) == v
    ensures v.JObj? && !("data" in v.fields && v.fields["data"].JObj?) ==> e.data == v.fields && e.rest == map[]
    ensures !v.JObj? ==> e == Element(map[], map[])
  {
    match v
    case JObj(m) =>
      if "data" in m && m["data"].JObj? then Element(m["data"].fields, m - {"data"})
      else Element(m, map[])
    case _ => Element(map[], map[])
  }

  /** The Python dict an element stands for. */
  function Unwrap(e: Element): Json {
    JObj(e.rest["data" := JObj(e.data)])
  }

  /** Wrapping the dict an element stands for gives the element back, so `_dedupe`
      re-wrapping already wrapped elements changes nothing. */
  lemma WrapUnwrap(e: Element)
    requires "data" !in e.rest
    ensures WrapData(Unwrap(e)) == e
  {
    var m := e.rest["data" := JObj(e.data)];
    assert m - {"data"} == e.rest;
  }

  datatype Graph = Graph(nodes: seq<Element>, edges: seq<Element>)

  /** The single-node graph returned when extraction yields nothing usable. */
  function Placeholder(topic: string): Graph {
    Graph([Element(map["id" := JStr("query"), "label" := JStr("QUERY"), "name" := JStr(topic)], map[])], [])
  }

  /** The text handed to `_slug` for a node without a usable id: name, else label, else "n". */
  function NodeIdSource(nd: Dict): Json {
    Or(Or(Get(nd, "name", JNull), Get(nd, "label", JNull)), JStr("n"))
  }

  /** The value upper-cased into a node's label: label, else type, else "Entity". */
  function NodeLabelSource(nd: Dict): (v: Json)
    ensures Truthy(v)
  {
    Or(Or(Get(nd, "label", JNull), Get(nd, "type", JNull)), JStr("Entity"))
  }

  /** `_ensure_node_defaults` raises AttributeError exactly when it calls `.strip()` or
      `.upper()` on something that is not a string. */
  predicate NodeDefaultsRaise(nd: Dict) {
    (!Truthy(Get(nd, "id", JNull)) && !NodeIdSource(nd).JStr?) || !NodeLabelSource(nd).JStr?
  }

  /** A truthy description becomes `str(description)[:300]`. */
  function TruncDescription(d: Dict): Dict {
    if "description" in d && Truthy(d["description"])
    then d["description" := JStr(Prefix(PyStr(d["description"]), DESCRIPTION_MAX))]
    else d
  }

  /** `d.pop(key)` when `d.get(key)` is None or "". */
  function DropBlank(d: Dict, key: string): Dict {
    if Get(d, key, JNull) == JNull || Get(d, key, JNull) == JStr("") then d - {key} else d
  }

  predicate NonEmptyStr(d: Dict, key: string) {
    key in d && d[key].JStr? && d[key].s != []
  }

  predicate DescriptionBounded(d: Dict) {
    "description" in d && Truthy(d["description"]) ==>
      d["description"].JStr? && |d["description"].s| <= DESCRIPTION_MAX
  }

  predicate NotBlank(d: Dict, key: string) {
    key in d ==> d[key] != JNull && d[key] != JStr("")
  }

  /** A node record in the shape `_ensure_node_defaults` leaves it. */
  predicate NodeNormal(d: Dict) {
    && NonEmptyStr(d, "id")
    && NonEmptyStr(d, "label") && Upper(d["label"].s) == d["label"].s
    && "name" in d
    && DescriptionBounded(d)
    && NotBlank(d, "doc_id") && NotBlank(d, "source_url")
  }

  lemma TruncDescriptionBounded(d: Dict)
    ensures DescriptionBounded(TruncDescription(d))
    ensures forall k :: k != "description" ==> (k in d <==> k in TruncDescription(d))
    ensures forall k :: k != "description" && k in d ==> TruncDescription(d)[k] == d[k]
    ensures "description" in d <==> "description" in TruncDescription(d)
  {
  }

  /** Key `k` is present in both or neither, with the same value. */
  predicate SameAt(d: Dict, e: Dict, k: string) {
    (k in d <==> k in e) && (k in d ==> d[k] == e[k])
  }

  /** The last steps of `_ensure_node_defaults`: cut the description and drop blank
      doc_id and source_url; no other key is touched. */
  function FinishNode(d: Dict): (r: Dict)
    ensures DescriptionBounded(r) && NotBlank(r, "doc_id") && NotBlank(r, "source_url")
    ensures forall k :: k != "description" && k != "doc_id" && k != "source_url" ==> SameAt(d, r, k)
  {
    var d3 := TruncDescription(d);
    TruncDescriptionBounded(d);
    DropBlank(DropBlank(d3, "doc_id"), "source_url")
  }

  /** `_ensure_node_defaults(nd)`: id is `str(id)` when truthy, else a slug of name, else label,
      else "n"; label is upper-cased label, else type, else "Entity"; a missing name becomes
      the label; a truthy description is cut to 300 characters; a None or "" doc_id or
      source_url is removed. */
  function EnsureNodeDefaults(nd: Dict, rnd: Hex8): (r: Result<Dict>)
    ensures r.Raised? <==> NodeDefaultsRaise(nd)
    ensures r.Ok? ==> NodeNormal(r.value)
    ensures r.Ok? ==> r.value["label"] == JStr(Upper(NodeLabelSource(nd).s))
    ensures r.Ok? && Truthy(Get(nd, "id", JNull)) ==> r.value["id"] == JStr(PyStr(nd["id"]))
    ensures r.Ok? && !Truthy(Get(nd, "id", JNull)) ==> r.value["id"] == JStr(Slug(NodeIdSource(nd).s, "n", rnd))
    ensures r.Ok? ==> r.value["name"] == (if "name" in nd then nd["name"] else r.value["label"])
  {
    if NodeDefaultsRaise(nd) then Raised(AttributeError)
    else
      var lab := NodeLabelSource(nd).s;
      assert lab != [] && |Upper(lab)| == |lab|;
      UpperIdempotent(lab);
      Ok(NodeRecord(nd, RecordId(nd, "n", NodeIdSource(nd), rnd), Upper(lab)))
  }

  /** The id stored by both defaulting helpers: `str(id)` when truthy, else a slug. */
  function RecordId(d: Dict, prefix: string, slugSource: Json, rnd: Hex8): (id: string)
    requires Truthy(Get(d, "id", JNull)) || slugSource.JStr?
    ensures id != []
  {
    if Truthy(Get(d, "id", JNull)) then PyStr(d["id"]) else Slug(slugSource.s, prefix, rnd)
  }

  /** The node record with id and label set, a missing name filled from the label, and
      the finishing steps applied. */
  function NodeRecord(nd: Dict, id: string, lbl: string): (r: Dict)
    requires id != [] && lbl != [] && Upper(lbl) == lbl
    ensures NodeNormal(r)
    ensures r["id"] == JStr(id) && r["label"] == JStr(lbl)
    ensures r["name"] == (if "name" in nd then nd["name"] else JStr(lbl))
  {
    var d1 := nd["id" := JStr(id)]["label" := JStr(lbl)];
    var d2 := if "name" !in d1 then d1["name" := JStr(lbl)] else d1;
    var r := FinishNode(d2);
    assert SameAt(d2, r, "id") && SameAt(d2, r, "label") && SameAt(d2, r, "name");
    r
  }

  /** A normalised node is a fixed point of `_ensure_node_defaults`. */
  lemma NodeNormalFixed(d: Dict, rnd: Hex8)
    requires NodeNormal(d)
    ensures EnsureNodeDefaults(d, rnd) == Ok(d)
  {
    var r := EnsureNodeDefaults(d, rnd);
    assert !NodeDefaultsRaise(d);
    var lbl := d["label"].s;
    var d1 := d["id" := JStr(PyStr(d["id"]))]["label" := JStr(Upper(lbl))];
    assert d1 == d;
    var d3 := TruncDescription(d1);
    if "description" in d && Truthy(d["description"]) {
      var t := d["description"].s;
      assert Prefix(t, DESCRIPTION_MAX) == t;
      assert d3 == d;
    }
    assert d3 == d;
    assert DropBlank(d, "doc_id") == d;
    assert DropBlank(d, "source_url") == d;
  }

  /** Re-applying `_ensure_node_defaults` to its own result is a no-op, whatever the random
      fallback of the second call. */
  lemma NodeDefaultsIdempotent(nd: Dict, rnd1: Hex8, rnd2: Hex8)
    requires EnsureNodeDefaults(nd, rnd1).Ok?
    ensures EnsureNodeDefaults(EnsureNodeDefaults(nd, rnd1).value, rnd2) == EnsureNodeDefaults(nd, rnd1)
  {
    NodeNormalFixed(EnsureNodeDefaults(nd, rnd1).value, rnd2);
  }

  /** The value upper-cased into an edge's label: label, else relation, else "RELATED". */
  function EdgeLabelSource(ed: Dict): (v: Json)
    ensures Truthy(v)
  {
    Or(Or(Get(ed, "label", JNull), Get(ed, "relation", JNull)), JStr("RELATED"))
  }

  /** `_ensure_edge_defaults` raises AttributeError exactly when the label it upper-cases is
      not a string. */
  predicate EdgeDefaultsRaise(ed: Dict) {
    !EdgeLabelSource(ed).JStr?
  }

  /** `max(0.0, min(1.0, c))`. */
  function Clamp(c: real): (r: real)
    ensures 0.0 <= r <= 1.0
    ensures 0.0 <= c <= 1.0 ==> r == c
  {
    if c < 0.0 then 0.0 else if c > 1.0 then 1.0 else c
  }

  /** The stored confidence: `float(confidence)` clamped into [0,1], or 0.8 when the key is
      missing or `float()` raises. */
  function Confidence(ed: Dict): (c: real)
    ensures 0.0 <= c <= 1.0
  {
    match ToFloat(Get(ed, "confidence", JFloat(DEFAULT_CONFIDENCE)))
    case Some(x) => Clamp(x)
    case None => DEFAULT_CONFIDENCE
  }

  /** `str(ed.get(key) or "")`: empty exactly when the endpoint is missing or falsy. */
  function EndpointText(ed: Dict, key: string): (s: string)
    ensures s == [] <==> !Truthy(Get(ed, key, JNull))
  {
    var v := Or(Get(ed, key, JNull), JStr(""));
    PyStr(v)
  }

  /** The text `_slug` receives for an edge without a usable id: f"{source}-{target}". */
  function EdgeIdSource(ed: Dict): string {
    PyStr(Get(ed, "source", JNull)) + "-" + PyStr(Get(ed, "target", JNull))
  }

  /** An edge record in the shape `_ensure_edge_defaults` leaves it. */
  predicate EdgeNormal(d: Dict) {
    && NonEmptyStr(d, "id")
    && NonEmptyStr(d, "label") && Upper(d["label"].s) == d["label"].s
    && "confidence" in d && d["confidence"].JFloat? && 0.0 <= d["confidence"].f <= 1.0
    && DescriptionBounded(d)
  }

  /** Whether an edge survives: both stringified endpoints non-empty and among the node ids. */
  predicate EdgeValid(d: Dict, nodeIds: set<string>) {
    var src, tgt := EndpointText(d, "source"), EndpointText(d, "target");
    src != [] && tgt != [] && src in nodeIds && tgt in nodeIds
  }

  /** `_ensure_edge_defaults(ed, node_ids)`: id is `str(id)` when truthy, else a slug of
      "<source>-<target>"; label is upper-cased label, else relation, else "RELATED";
      confidence is clamped into [0,1] with 0.8 for a missing or unparseable value; a truthy
      description is cut to 300 characters; the flag says whether the edge is kept. */
  function EnsureEdgeDefaults(ed: Dict, nodeIds: set<string>, rnd: Hex8): (r: Result<(Dict, bool)>)
    ensures r.Raised? <==> EdgeDefaultsRaise(ed)
    ensures r.Ok? ==> EdgeNormal(r.value.0)
    ensures r.Ok? ==> r.value.0["label"] == JStr(Upper(EdgeLabelSource(ed).s))
    ensures r.Ok? ==> r.value.0["confidence"] == JFloat(Confidence(ed))
    ensures r.Ok? && Truthy(Get(ed, "id", JNull)) ==> r.value.0["id"] == JStr(PyStr(ed["id"]))
    ensures r.Ok? && !Truthy(Get(ed, "id", JNull)) ==> r.value.0["id"] == JStr(Slug(EdgeIdSource(ed), "e", rnd))
    ensures r.Ok? ==> (r.value.1 <==> EdgeValid(ed, nodeIds))
  {
    if EdgeDefaultsRaise(ed) then Raised(AttributeError)
    else
      var lab := EdgeLabelSource(ed).s;
      assert lab != [] && |Upper(lab)| == |lab|;
      UpperIdempotent(lab);
      var d := EdgeRecord(ed, RecordId(ed, "e", JStr(EdgeIdSource(ed)), rnd), Upper(lab));
      Ok((d, EdgeValid(d, nodeIds)))
  }

  /** The edge record with id, label and confidence set and the description cut. */
  function EdgeRecord(ed: Dict, id: string, lbl: string): (r: Dict)
    requires id != [] && lbl != [] && Upper(lbl) == lbl
    ensures EdgeNormal(r)
    ensures r["id"] == JStr(id) && r["label"] == JStr(lbl) && r["confidence"] == JFloat(Confidence(ed))
    ensures SameAt(ed, r, "source") && SameAt(ed, r, "target")
    ensures EndpointText(r, "source") == EndpointText(ed, "source")
    ensures EndpointText(r, "target") == EndpointText(ed, "target")
  {
    var d1 := ed["id" := JStr(id)]["label" := JStr(lbl)]["confidence" := JFloat(Confidence(ed))];
    TruncDescriptionBounded(d1);
    TruncDescription(d1)
  }

  /** A normalised edge is a fixed point of `_ensure_edge_defaults`. */
  lemma EdgeNormalFixed(d: Dict, nodeIds: set<string>, rnd: Hex8)
    requires EdgeNormal(d)
    ensures EnsureEdgeDefaults(d, nodeIds, rnd) == Ok((d, EdgeValid(d, nodeIds)))
  {
    var c := d["confidence"].f;
    assert Confidence(d) == c;
    var d1 := d["id" := JStr(PyStr(d["id"]))]["label" := JStr(Upper(d["label"].s))]["confidence" := JFloat(c)];
    assert d1 == d;
    if "description" in d && Truthy(d["description"]) {
      assert Prefix(d["description"].s, DESCRIPTION_MAX) == d["description"].s;
    }
    assert TruncDescription(d) == d;
  }

  /** Re-applying `_ensure_edge_defaults` to its own result is a no-op and keeps the verdict. */
  lemma EdgeDefaultsIdempotent(ed: Dict, nodeIds: set<string>, rnd1: Hex8, rnd2: Hex8)
    requires EnsureEdgeDefaults(ed, nodeIds, rnd1).Ok?
    ensures var (d, valid) := EnsureEdgeDefaults(ed, nodeIds, rnd1).value;
      EnsureEdgeDefaults(d, nodeIds, rnd2) == Ok((d, valid))
  {
    var (d, valid) := EnsureEdgeDefaults(ed, nodeIds, rnd1).value;
    EdgeNormalFixed(d, nodeIds, rnd2);
  }

  /** The confidence clamp: "200%" is not a number, so it becomes the 0.8 default; numbers
      outside [0,1] are pulled to the nearest bound. */
  lemma ConfidenceCases()
    ensures Confidence(map["confidence" := JStr("200%")]) == DEFAULT_CONFIDENCE
    ensures Confidence(map[]) == DEFAULT_CONFIDENCE
    ensures Confidence(map["confidence" := JInt(200)]) == 1.0
    ensures Confidence(map["confidence" := JFloat(-0.5)]) == 0.0
    ensures Confidence(map["confidence" := JNull]) == DEFAULT_CONFIDENCE
  {
    PercentIsNotAFloat();
  }
}
