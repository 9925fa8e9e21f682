/** The CSV exports of app.py: `_csv_escape` and the nodes.csv and edges.csv texts of the
    filtered view, with a reader for the quoted-field format of section 2 of RFC 4180 (rows
    separated by a line feed) against which the export is proved to read back field by field. */
module CsvExport {
  import opened PyText
  import opened PyValue
  import opened AppView
  import opened Seqs

  /** `s.replace('"', '""')`. */
  function Double(s: string): string
    decreases |s|
  {
    if s == [] then [] else (if s[0] == '"' then "\"\"" else [s[0]]) + Double(s[1..])
  }

  /** Reads the body of a quoted field (the text after its opening quote): a doubled quote
      stands for one quote, a single quote closes the field. The result is the field's value
      and the text after the closing quote; None when the field never closes. */
  function Unquote(t: string): (r: Option<(string, string)>)
    ensures r.Some? ==> |r.value.1| < |t|
    decreases |t|
  {
    if t == [] then None
    else if t[0] == '"' then
      if |t| >= 2 && t[1] == '"' then
        match Unquote(t[2..])
        case Some((s, rest)) => Some(("\"" + s, rest))
        case None => None
      else Some(([], t[1..]))
    else
      match Unquote(t[1..])
      case Some((s, rest)) => Some(([t[0]] + s, rest))
      case None => None
  }

  /** Doubling the quotes and closing the field reads back as the original text, whatever
      follows the closing quote (other than a quote). */
  lemma {:induction false} UnquoteDouble(s: string, rest: string)
    requires rest == [] || rest[0] != '"'
    ensures Unquote(Double(s) + "\"" + rest) == Some((s, rest))
    decreases |s|
  {
    var t := Double(s) + "\"" + rest;
    if s == [] {
      assert t == "\"" + rest;
      assert t[1..] == rest;
    } else if s[0] == '"' {
      UnquoteDouble(s[1..], rest);
      assert t == "\"\"" + (Double(s[1..]) + "\"" + rest);
      assert t[2..] == Double(s[1..]) + "\"" + rest;
      assert "\"" + s[1..] == s;
    } else {
      UnquoteDouble(s[1..], rest);
      assert t == [s[0]] + (Double(s[1..]) + "\"" + rest);
      assert t[1..] == Double(s[1..]) + "\"" + rest;
      assert [s[0]] + s[1..] == s;
    }
  }

  /** A field as written: bare (the header names and the empty field) or quoted. */
  datatype Cell = Plain(text: string) | Quoted(text: string)

  /** A bare field holds no separator, line feed or quote. */
  predicate PlainOk(s: string) {
    forall i :: 0 <= i < |s| ==> s[i] != ',' && s[i] != '\n' && s[i] != '"'
  }

  predicate CellOk(c: Cell) { c.Plain? ==> PlainOk(c.text) }

  function EncCell(c: Cell): string {
    match c
    case Plain(s) => s
    case Quoted(s) => "\"" + Double(s) + "\""
  }

  function CellText(c: Cell): string { c.text }

  function PlainCell(s: string): Cell { Plain(s) }

  /** The field `_csv_escape` writes: None becomes the empty bare field, anything else its
      `str()`, quoted. */
  function CellOf(v: Json): (c: Cell)
    ensures CellOk(c)
    ensures c.text == (if v.JNull? then [] else PyStr(v))
  {
    if v.JNull? then Plain([]) else Quoted(PyStr(v))
  }

  /** `_csv_escape(v)`: the empty text for None; otherwise a quoted field that reads back as
      `str(v)`. */
  function CsvEscape(v: Json): (r: string)
    ensures v.JNull? ==> r == []
    ensures !v.JNull? ==> |r| >= 2 && r[0] == '"' && Unquote(r[1..]) == Some((PyStr(v), []))
  {
    if v.JNull? then []
    else
      var s := PyStr(v);
      UnquoteDouble(s, []);
      assert ("\"" + Double(s) + "\"")[1..] == Double(s) + "\"" + [];
      "\"" + Double(s) + "\""
  }

  /** The escape writes the field `CellOf(v)`. */
  lemma EscapeIsCell(v: Json)
    ensures CsvEscape(v) == EncCell(CellOf(v))
  {
  }

  // ---------------------------------------------------------------------------------------
  // The reader

  /** The length of the bare field at the start of `t`: up to the first separator or line feed. */
  function PlainLen(t: string): (k: nat)
    ensures k <= |t|
    decreases |t|
  {
    if t == [] || t[0] == ',' || t[0] == '\n' then 0 else 1 + PlainLen(t[1..])
  }

  /** One field and the text after it. */
  function ParseCell(t: string): (r: Option<(string, string)>)
    ensures r.Some? ==> |r.value.1| <= |t|
  {
    if t != [] && t[0] == '"' then Unquote(t[1..])
    else
      var k := PlainLen(t);
      Some((t[..k], t[k..]))
  }

  /** One row: fields separated by ',', and the text after the row. */
  function ParseRow(t: string): (r: Option<(seq<string>, string)>)
    ensures r.Some? ==> |r.value.1| <= |t| && r.value.0 != []
    decreases |t|
  {
    match ParseCell(t)
    case None => None
    case Some((c, rest)) =>
      if rest != [] && rest[0] == ',' then
        match ParseRow(rest[1..])
        case None => None
        case Some((cs, rest2)) => Some(([c] + cs, rest2))
      else Some(([c], rest))
  }

  /** A whole text: rows separated by line feeds; None when a row is followed by anything else. */
  function ParseDoc(t: string): (r: Option<seq<seq<string>>>)
    ensures r.Some? ==> r.value != []
    decreases |t|
  {
    match ParseRow(t)
    case None => None
    case Some((cells, rest)) =>
      if rest == [] then Some([cells])
      else if rest[0] == '\n' then
        match ParseDoc(rest[1..])
        case None => None
        case Some(rows) => Some([cells] + rows)
      else None
  }

  // ---------------------------------------------------------------------------------------
  // Writing rows and documents

  function EncRow(cs: seq<Cell>): string { Join(",", MapSeq(cs, EncCell)) }

  predicate RowOk(cs: seq<Cell>) { cs != [] && forall i :: 0 <= i < |cs| ==> CellOk(cs[i]) }

  function EncDoc(rows: seq<seq<Cell>>): string { Join("\n", MapSeq(rows, EncRow)) }

  function RowText(cs: seq<Cell>): seq<string> { MapSeq(cs, CellText) }

  lemma {:induction false} PlainLenStops(s: string, rest: string)
    requires PlainOk(s) && (rest == [] || rest[0] == ',' || rest[0] == '\n')
    ensures PlainLen(s + rest) == |s|
    decreases |s|
  {
    if s != [] {
      assert (s + rest)[1..] == s[1..] + rest;
      PlainLenStops(s[1..], rest);
    } else {
      assert s + rest == rest;
    }
  }

  lemma ParsePlainEnc(s: string, rest: string)
    requires PlainOk(s) && (rest == [] || rest[0] == ',' || rest[0] == '\n')
    ensures ParseCell(s + rest) == Some((s, rest))
  {
    PlainLenStops(s, rest);
    if s == [] {
      assert s + rest == rest;
    } else {
      assert (s + rest)[0] == s[0];
    }
    assert (s + rest)[..|s|] == s && (s + rest)[|s|..] == rest;
  }

  lemma ParseQuotedEnc(s: string, rest: string)
    requires rest == [] || rest[0] == ',' || rest[0] == '\n'
    ensures ParseCell("\"" + Double(s) + "\"" + rest) == Some((s, rest))
  {
    var w := "\"" + Double(s) + "\"" + rest;
    assert w[0] == '"';
    assert w[1..] == Double(s) + "\"" + rest;
    UnquoteDouble(s, rest);
  }

  /** A written field followed by a separator, a line feed or nothing reads back as its text. */
  lemma ParseCellEnc(c: Cell, rest: string)
    requires CellOk(c) && (rest == [] || rest[0] == ',' || rest[0] == '\n')
    ensures ParseCell(EncCell(c) + rest) == Some((c.text, rest))
  {
    match c
    case Plain(s) => ParsePlainEnc(s, rest);
    case Quoted(s) => ParseQuotedEnc(s, rest);
  }

  /** A written row followed by a line feed or nothing reads back as its fields' texts. */
  lemma {:induction false} ParseRowEnc(cs: seq<Cell>, rest: string)
    requires RowOk(cs) && (rest == [] || rest[0] == '\n')
    ensures ParseRow(EncRow(cs) + rest) == Some((RowText(cs), rest))
    decreases |cs|
  {
    var parts := MapSeq(cs, EncCell);
    if |cs| == 1 {
      ParseCellEnc(cs[0], rest);
      assert EncRow(cs) == parts[0];
      assert RowText(cs) == [cs[0].text];
    } else {
      var tail := EncRow(cs[1..]) + rest;
      assert parts[1..] == MapSeq(cs[1..], EncCell);
      assert EncRow(cs) == parts[0] + "," + EncRow(cs[1..]);
      assert EncRow(cs) + rest == EncCell(cs[0]) + ("," + tail);
      ParseCellEnc(cs[0], "," + tail);
      assert ("," + tail)[1..] == tail;
      ParseRowEnc(cs[1..], rest);
      assert RowText(cs) == [cs[0].text] + RowText(cs[1..]);
    }
  }

  /** A written document of non-empty rows reads back as the rows' texts. */
  lemma {:induction false} ParseDocEnc(rows: seq<seq<Cell>>)
    requires rows != [] && forall i :: 0 <= i < |rows| ==> RowOk(rows[i])
    ensures ParseDoc(EncDoc(rows)) == Some(MapSeq(rows, RowText))
    decreases |rows|
  {
    var lines := MapSeq(rows, EncRow);
    if |rows| == 1 {
      ParseRowEnc(rows[0], []);
      assert EncDoc(rows) == EncRow(rows[0]) + [];
      assert MapSeq(rows, RowText) == [RowText(rows[0])];
    } else {
      var tail := EncDoc(rows[1..]);
      assert lines[1..] == MapSeq(rows[1..], EncRow);
      assert EncDoc(rows) == lines[0] + "\n" + tail;
      assert EncDoc(rows) == EncRow(rows[0]) + ("\n" + tail);
      ParseRowEnc(rows[0], "\n" + tail);
      assert ("\n" + tail)[1..] == tail;
      ParseDocEnc(rows[1..]);
      assert MapSeq(rows, RowText) == [RowText(rows[0])] + MapSeq(rows[1..], RowText);
    }
  }

  // ---------------------------------------------------------------------------------------
  // nodes.csv and edges.csv

  const NODE_COLUMNS: seq<string> := ["id", "label", "type", "context", "doc_id", "source_url"]
  const EDGE_COLUMNS: seq<string> :=
    ["id", "source", "target", "relation", "confidence", "description", "source_url"]

  /** The header line of nodes.csv, "id,label,type,context,doc_id,source_url". */
  const NODE_HEADER := Join(",", NODE_COLUMNS)
  /** The header line of edges.csv, "id,source,target,relation,confidence,description,source_url". */
  const EDGE_HEADER := Join(",", EDGE_COLUMNS)

  /** A row of escaped values: `",".join([_csv_escape(v) for v in vals])`. */
  function Row(vals: seq<Json>): string { Join(",", MapSeq(vals, CsvEscape)) }

  /** The values a node's row holds, in column order. */
  function NodeValues(n: AdjNode): seq<Json> {
    [JStr(n.id), JStr(n.caption), JStr(n.ntype), n.context, n.docId, n.sourceUrl]
  }

  /** The values an edge's row holds, in column order. */
  function EdgeValues(e: AdjEdge): seq<Json> {
    [JStr(e.id), JStr(e.source), JStr(e.target), e.relation, JFloat(e.confidence), e.description, e.sourceUrl]
  }

  function NodeRow(n: AdjNode): string { Row(NodeValues(n)) }

  function EdgeRow(e: AdjEdge): string { Row(EdgeValues(e)) }

  /** The loop both exports share: the header line, then one line per item, joined with line
      feeds. */
  method Lines<T>(header: string, xs: seq<T>, row: T -> string) returns (csv: string)
    ensures csv == Join("\n", [header] + MapSeq(xs, row))
  {
    var lines := [header];
    var j := 0;
    while j < |xs|
      invariant 0 <= j <= |xs|
      invariant |lines| == j + 1 && lines[0] == header
      invariant forall i :: 0 <= i < j ==> lines[i + 1] == row(xs[i])
    {
      lines := lines + [row(xs[j])];
      j := j + 1;
    }
    assert lines == [header] + MapSeq(xs, row);
    csv := Join("\n", lines);
  }

  /** nodes.csv of the filtered view. */
  method NodesCsv(ns: seq<AdjNode>) returns (csv: string)
    ensures csv == Join("\n", [NODE_HEADER] + MapSeq(ns, NodeRow))
  {
    csv := Lines(NODE_HEADER, ns, NodeRow);
  }

  /** edges.csv of the filtered view. */
  method EdgesCsv(es: seq<AdjEdge>) returns (csv: string)
    ensures csv == Join("\n", [EDGE_HEADER] + MapSeq(es, EdgeRow))
  {
    csv := Lines(EDGE_HEADER, es, EdgeRow);
  }

  /** What a reader recovers from a value's field: "" for None, `str(v)` otherwise. */
  function ValueText(v: Json): (r: string)
    ensures v.JStr? ==> r == v.s
  {
    if v.JNull? then [] else PyStr(v)
  }

  function CellsOf(vals: seq<Json>): seq<Cell> { MapSeq(vals, CellOf) }

  function ValueTexts(vals: seq<Json>): seq<string> { MapSeq(vals, ValueText) }

  /** A row of values is the row of their fields, and those fields' texts are the values'. */
  lemma RowCells(vals: seq<Json>)
    ensures Row(vals) == EncRow(CellsOf(vals))
    ensures RowText(CellsOf(vals)) == ValueTexts(vals)
    ensures vals != [] ==> RowOk(CellsOf(vals))
  {
    var cs := CellsOf(vals);
    forall i | 0 <= i < |vals|
      ensures MapSeq(vals, CsvEscape)[i] == MapSeq(cs, EncCell)[i]
      ensures RowText(cs)[i] == ValueTexts(vals)[i]
    {
      assert cs[i] == CellOf(vals[i]);
    }
    assert MapSeq(vals, CsvEscape) == MapSeq(cs, EncCell);
    assert RowText(cs) == ValueTexts(vals);
  }

  /** A row of values followed by a line feed or nothing reads back as the values' texts. */
  lemma RowReadsBack(vals: seq<Json>, rest: string)
    requires vals != [] && (rest == [] || rest[0] == '\n')
    ensures ParseRow(Row(vals) + rest) == Some((ValueTexts(vals), rest))
  {
    RowCells(vals);
    ParseRowEnc(CellsOf(vals), rest);
  }

  /** A document of a bare header and rows of values reads back as the column names and, row
      by row, the values' texts. */
  lemma DocReadsBack(cols: seq<string>, valRows: seq<seq<Json>>)
    requires cols != [] && forall i :: 0 <= i < |cols| ==> PlainOk(cols[i])
    requires forall i :: 0 <= i < |valRows| ==> valRows[i] != []
    ensures ParseDoc(Join("\n", [Join(",", cols)] + MapSeq(valRows, Row)))
         == Some([cols] + MapSeq(valRows, ValueTexts))
  {
    var header := MapSeq(cols, PlainCell);
    HeaderCells(cols);
    var body := MapSeq(valRows, CellsOf);
    BodyCells(valRows);
    var rows := [header] + body;
    forall i | 0 <= i < |rows|
      ensures RowOk(rows[i])
    {
      if i > 0 {
        assert rows[i] == body[i - 1];
      }
    }
    MapSeqAppend([header], body, EncRow);
    MapSeqAppend([header], body, RowText);
    ParseDocEnc(rows);
  }

  lemma HeaderCells(cols: seq<string>)
    requires cols != [] && forall i :: 0 <= i < |cols| ==> PlainOk(cols[i])
    ensures RowOk(MapSeq(cols, PlainCell))
    ensures EncRow(MapSeq(cols, PlainCell)) == Join(",", cols) && RowText(MapSeq(cols, PlainCell)) == cols
  {
    var cs := MapSeq(cols, PlainCell);
    forall i | 0 <= i < |cs|
      ensures CellOk(cs[i])
    {
      assert cs[i] == Plain(cols[i]);
    }
    HeaderEnc(cols);
    HeaderText(cols);
  }

  /** Bare header names are written as they are. */
  lemma HeaderEnc(cols: seq<string>)
    ensures MapSeq(MapSeq(cols, PlainCell), EncCell) == cols
  {
    var cs := MapSeq(cols, PlainCell);
    var enc := MapSeq(cs, EncCell);
    forall i | 0 <= i < |enc|
      ensures enc[i] == cols[i]
    {
      assert enc[i] == EncCell(cs[i]) && cs[i] == Plain(cols[i]);
    }
  }

  /** Bare header names read back as themselves. */
  lemma HeaderText(cols: seq<string>)
    ensures RowText(MapSeq(cols, PlainCell)) == cols
  {
    var cs := MapSeq(cols, PlainCell);
    var txt := RowText(cs);
    forall i | 0 <= i < |txt|
      ensures txt[i] == cols[i]
    {
      assert txt[i] == CellText(cs[i]) && cs[i] == Plain(cols[i]);
    }
  }

  lemma BodyCells(valRows: seq<seq<Json>>)
    requires forall i :: 0 <= i < |valRows| ==> valRows[i] != []
    ensures forall i :: 0 <= i < |valRows| ==> RowOk(MapSeq(valRows, CellsOf)[i])
    ensures MapSeq(MapSeq(valRows, CellsOf), EncRow) == MapSeq(valRows, Row)
    ensures MapSeq(MapSeq(valRows, CellsOf), RowText) == MapSeq(valRows, ValueTexts)
  {
    var body := MapSeq(valRows, CellsOf);
    forall i | 0 <= i < |valRows|
      ensures MapSeq(body, EncRow)[i] == MapSeq(valRows, Row)[i]
      ensures MapSeq(body, RowText)[i] == MapSeq(valRows, ValueTexts)[i]
      ensures RowOk(body[i])
    {
      RowCells(valRows[i]);
    }
  }

  /** No column name holds a separator, a line feed or a quote. */
  lemma ColumnsArePlain()
    ensures forall i :: 0 <= i < |NODE_COLUMNS| ==> PlainOk(NODE_COLUMNS[i])
    ensures forall i :: 0 <= i < |EDGE_COLUMNS| ==> PlainOk(EDGE_COLUMNS[i])
  {
    forall i | 0 <= i < |EDGE_COLUMNS|
      ensures forall k :: 0 <= k < |EDGE_COLUMNS[i]| ==> 'a' <= EDGE_COLUMNS[i][k] <= 'z' || EDGE_COLUMNS[i][k] == '_'
    {
    }
    forall i | 0 <= i < |NODE_COLUMNS|
      ensures forall k :: 0 <= k < |NODE_COLUMNS[i]| ==> 'a' <= NODE_COLUMNS[i][k] <= 'z' || NODE_COLUMNS[i][k] == '_'
    {
    }
  }

  /** What a reader recovers from a node's row: id, label and type as they are, the other
      fields as their text ("" for None). */
  function NodeFields(n: AdjNode): seq<string> {
    [n.id, n.caption, n.ntype, ValueText(n.context), ValueText(n.docId), ValueText(n.sourceUrl)]
  }

  /** What a reader recovers from an edge's row; the confidence as Python prints the float. */
  function EdgeFields(e: AdjEdge): seq<string> {
    [e.id, e.source, e.target, ValueText(e.relation), FloatText(e.confidence), ValueText(e.description),
     ValueText(e.sourceUrl)]
  }

  lemma NodeTexts(n: AdjNode)
    ensures ValueTexts(NodeValues(n)) == NodeFields(n)
  {
  }

  lemma EdgeTexts(e: AdjEdge)
    ensures ValueTexts(EdgeValues(e)) == EdgeFields(e)
  {
    assert ValueText(JFloat(e.confidence)) == FloatText(e.confidence);
  }

  /** nodes.csv reads back as the column names and then, line by line, each node's fields:
      quotes, commas and line breaks inside a field survive. */
  lemma NodesCsvReadsBack(ns: seq<AdjNode>)
    ensures ParseDoc(Join("\n", [NODE_HEADER] + MapSeq(ns, NodeRow))) == Some([NODE_COLUMNS] + MapSeq(ns, NodeFields))
  {
    ColumnsArePlain();
    var vr := MapSeq(ns, NodeValues);
    assert MapSeq(vr, Row) == MapSeq(ns, NodeRow);
    forall i | 0 <= i < |ns|
      ensures ValueTexts(vr[i]) == NodeFields(ns[i])
    {
      NodeTexts(ns[i]);
    }
    assert MapSeq(vr, ValueTexts) == MapSeq(ns, NodeFields);
    DocReadsBack(NODE_COLUMNS, vr);
  }

  /** edges.csv reads back as the column names and then, line by line, each edge's fields. */
  lemma EdgesCsvReadsBack(es: seq<AdjEdge>)
    ensures ParseDoc(Join("\n", [EDGE_HEADER] + MapSeq(es, EdgeRow))) == Some([EDGE_COLUMNS] + MapSeq(es, EdgeFields))
  {
    ColumnsArePlain();
    var vr := MapSeq(es, EdgeValues);
    assert MapSeq(vr, Row) == MapSeq(es, EdgeRow);
    forall i | 0 <= i < |es|
      ensures ValueTexts(vr[i]) == EdgeFields(es[i])
    {
      EdgeTexts(es[i]);
    }
    assert MapSeq(vr, ValueTexts) == MapSeq(es, EdgeFields);
    DocReadsBack(EDGE_COLUMNS, vr);
  }

  /** The export does not tell a missing value from an empty text: both read back as "". */
  lemma NullReadsAsEmpty()
    ensures CsvEscape(JNull) != CsvEscape(JStr(""))
    ensures ParseRow(Row([JNull])) == ParseRow(Row([JStr("")])) == Some(([""], ""))
  {
    RowReadsBack([JNull], []);
    RowReadsBack([JStr("")], []);
    assert Row([JNull]) + [] == Row([JNull]);
    assert Row([JStr("")]) + [] == Row([JStr("")]);
  }
}
