/**
 * The read side of the backend graph API (GraphController): stored node
 * documents become GraphNodeDTOs, stored transfers become links, and one
 * node is looked up by its id for the detail view. Pure: nothing is written.
 * Exceptions a Java call would throw are the error values of a Result.
 */
module GraphRead {
  import opened Wrappers
  import opened Text
  import Transactions

  /** A field value of a stored document, as the driver hands it to the controller. */
  datatype Value =
    | Str(s: string)
    | Int(i: int)                        // an int32 or int64
    | Num(value: real, text: string)     // a double or Decimal128: its value and its toString
    | Other(text: string)                // any other scalar (a boolean, a date), by its toString
    | Null
    | List(items: seq<Value>)
    | Doc(fields: map<string, Value>)

  type Document = map<string, Value>

  datatype GraphError =
    | NullPointer                   // toString on a missing or null field
    | NumberFormat(input: string)   // a parse rejected its input
    | ClassCast                     // a field that is not a list cast to List
    | NodeNotFound(message: string)

  /** `toString` of a non-null value, as the Java collections write it. */
  function Render(v: Value): string
    requires !v.Null?
    decreases v, 1
  {
    match v
    case Str(s) => s
    case Int(i) => IntToString(i)
    case Num(_, text) => text
    case Other(text) => text
    case List(items) => "[" + RenderAll(items) + "]"
    case Doc(fields) => "{...}"
  }

  function RenderAll(items: seq<Value>): string
    decreases items, 0
  {
    if items == [] then ""
    else
      (if items[0].Null? then "null" else Render(items[0]))
        + (if |items| == 1 then "" else ", " + RenderAll(items[1..]))
  }

  /** `doc.getOrDefault(key, def)`: a key that is present, even with a null value, wins. */
  function GetOrDefault(doc: Document, key: string, def: Value): Value {
    if key in doc then doc[key] else def
  }

  /** `getOrDefault(key, "0").toString()`. */
  function FieldText(doc: Document, key: string): Result<string, GraphError> {
    var v := GetOrDefault(doc, key, Str("0"));
    if v.Null? then Err(NullPointer) else Ok(Render(v))
  }

  /** `Double.parseDouble(getOrDefault(key, "0").toString())`. */
  function DoubleField(doc: Document, key: string): Result<real, GraphError> {
    var t := FieldText(doc, key);
    if t.Err? then Err(t.error)
    else
      var d := ParseDouble(t.value);
      if d.None? then Err(NumberFormat(t.value)) else Ok(d.value)
  }

  /** `Integer.parseInt(getOrDefault("is_anomalous", "0").toString()) == 1`. */
  function AnomalousFlag(doc: Document): Result<bool, GraphError> {
    var t := FieldText(doc, "is_anomalous");
    if t.Err? then Err(t.error)
    else
      var n := ParseInt(t.value);
      if n.None? then Err(NumberFormat(t.value)) else Ok(n.value == 1)
  }

  /** `Long.parseLong(getOrDefault("tx_velocity", "0").toString())`. */
  function VelocityField(doc: Document): Result<int, GraphError> {
    var t := FieldText(doc, "tx_velocity");
    if t.Err? then Err(t.error)
    else
      var n := ParseLong(Some(t.value));
      if n.None? then Err(NumberFormat(t.value)) else Ok(n.value)
  }

  /** `doc.get("node_id").toString()`. */
  function NodeIdText(doc: Document): Result<string, GraphError> {
    if "node_id" !in doc || doc["node_id"].Null? then Err(NullPointer) else Ok(Render(doc["node_id"]))
  }

  /** GraphNodeDTO; the source calls its last component `volume` and fills it with tx_velocity. */
  datatype GraphNode = GraphNode(nodeId: string, anomalyScore: real, isAnomalous: bool, volume: int)

  /** GraphLinkDTO: a stored transfer's accounts and amount. */
  datatype GraphLink = GraphLink(source: Option<string>, target: Option<string>, amount: Option<real>)

  datatype GraphResponse = GraphResponse(nodes: seq<GraphNode>, links: seq<GraphLink>)

  /** The map lambda of getGraph, its four reads in source order; the first failure is thrown. */
  function NodeOf(doc: Document): Result<GraphNode, GraphError> {
    var id := NodeIdText(doc);
    if id.Err? then Err(id.error)
    else
      var score := DoubleField(doc, "anomaly_score");
      if score.Err? then Err(score.error)
      else
        var flag := AnomalousFlag(doc);
        if flag.Err? then Err(flag.error)
        else
          var velocity := VelocityField(doc);
          if velocity.Err? then Err(velocity.error)
          else Ok(GraphNode(id.value, score.value, flag.value, velocity.value))
  }

  /** `.map(...).collectList()` over the node documents: the first failing document ends the list. */
  function NodesOf(docs: seq<Document>): Result<seq<GraphNode>, GraphError> {
    if docs == [] then Ok([])
    else
      var first := NodeOf(docs[0]);
      if first.Err? then Err(first.error)
      else
        var rest := NodesOf(docs[1..]);
        if rest.Err? then Err(rest.error) else Ok([first.value] + rest.value)
  }

  function LinkOf(t: Transactions.StoredTransaction): GraphLink {
    GraphLink(t.sourceAccount, t.targetAccount, t.amount)
  }

  function LinksOf(txs: seq<Transactions.StoredTransaction>): seq<GraphLink> {
    if txs == [] then [] else [LinkOf(txs[0])] + LinksOf(txs[1..])
  }

  /** getGraph: the nodes and links lists zipped; a node failure fails the whole response. */
  function GetGraph(docs: seq<Document>, txs: seq<Transactions.StoredTransaction>): Result<GraphResponse, GraphError> {
    var nodes := NodesOf(docs);
    if nodes.Err? then Err(nodes.error) else Ok(GraphResponse(nodes.value, LinksOf(txs)))
  }

  /**
   * getGraph succeeds exactly when every document maps, and then holds one
   * node per document, in order, and one link per stored transfer carrying
   * its accounts and amount unchanged.
   */
  lemma {:induction false} GetGraphShape(docs: seq<Document>, txs: seq<Transactions.StoredTransaction>)
    ensures GetGraph(docs, txs).Ok? <==> forall i :: 0 <= i < |docs| ==> NodeOf(docs[i]).Ok?
    ensures GetGraph(docs, txs).Ok? ==>
      var g := GetGraph(docs, txs).value;
      && |g.nodes| == |docs| && (forall i :: 0 <= i < |docs| ==> g.nodes[i] == NodeOf(docs[i]).value)
      && |g.links| == |txs|
      && (forall i :: 0 <= i < |txs| ==>
            g.links[i].source == txs[i].sourceAccount && g.links[i].target == txs[i].targetAccount
            && g.links[i].amount == txs[i].amount)
  {
    NodesOfShape(docs);
    LinksOfShape(txs);
  }

  lemma {:induction false} NodesOfShape(docs: seq<Document>)
    ensures NodesOf(docs).Ok? <==> forall i :: 0 <= i < |docs| ==> NodeOf(docs[i]).Ok?
    ensures NodesOf(docs).Ok? ==>
      |NodesOf(docs).value| == |docs| && forall i :: 0 <= i < |docs| ==> NodesOf(docs).value[i] == NodeOf(docs[i]).value
  {
    if docs != [] {
      NodesOfShape(docs[1..]);
      var first, rest := NodeOf(docs[0]), NodesOf(docs[1..]);
      assert NodesOf(docs) == if first.Err? then Err(first.error) else if rest.Err? then Err(rest.error) else Ok([first.value] + rest.value);
      assert forall i :: 1 <= i < |docs| ==> docs[1..][i - 1] == docs[i];
    }
  }

  lemma {:induction false} LinksOfShape(txs: seq<Transactions.StoredTransaction>)
    ensures |LinksOf(txs)| == |txs| && forall i :: 0 <= i < |txs| ==> LinksOf(txs)[i] == LinkOf(txs[i])
  {
    if txs != [] {
      LinksOfShape(txs[1..]);
      assert forall i :: 1 <= i < |txs| ==> txs[1..][i - 1] == txs[i];
    }
  }

  /** A failed getGraph reports the error of the first document that does not map. */
  lemma {:induction false} GetGraphFirstError(docs: seq<Document>, txs: seq<Transactions.StoredTransaction>)
    requires GetGraph(docs, txs).Err?
    ensures exists k :: (0 <= k < |docs| && NodeOf(docs[k]).Err? && GetGraph(docs, txs).error == NodeOf(docs[k]).error
      && forall i :: 0 <= i < k ==> NodeOf(docs[i]).Ok?)
  {
    NodesFirstError(docs);
  }

  lemma {:induction false} NodesFirstError(docs: seq<Document>)
    requires NodesOf(docs).Err?
    ensures exists k :: (0 <= k < |docs| && NodeOf(docs[k]).Err? && NodesOf(docs).error == NodeOf(docs[k]).error
      && forall i :: 0 <= i < k ==> NodeOf(docs[i]).Ok?)
  {
    if NodeOf(docs[0]).Ok? {
      NodesFirstError(docs[1..]);
      var k :| 0 <= k < |docs[1..]| && NodeOf(docs[1..][k]).Err? && NodesOf(docs[1..]).error == NodeOf(docs[1..][k]).error
        && forall i :: 0 <= i < k ==> NodeOf(docs[1..][i]).Ok?;
      assert docs[k + 1] == docs[1..][k];
      assert forall i :: 1 <= i < k + 1 ==> docs[i] == docs[1..][i - 1];
    }
  }

  /**
   * The defaults: a document without anomaly_score, is_anomalous or
   * tx_velocity (but with a node id) maps to score 0.0, not anomalous, volume 0.
   */
  lemma MissingFieldsDefault(doc: Document)
    requires "node_id" in doc && !doc["node_id"].Null?
    requires "anomaly_score" !in doc && "is_anomalous" !in doc && "tx_velocity" !in doc
    ensures NodeOf(doc) == Ok(GraphNode(Render(doc["node_id"]), 0.0, false, 0))
  {
    ParseDoubleRendered(0);
    assert ParseInt("0") == Some(0);
  }

  /**
   * isAnomalous: an absent flag is false, a stored int is true exactly when
   * it is 1, a null throws NullPointerException and a stored double such as
   * 1.0 throws NumberFormatException, its text not being an int.
   */
  lemma AnomalousExactlyOne(doc: Document)
    ensures "is_anomalous" !in doc ==> AnomalousFlag(doc) == Ok(false)
    ensures "is_anomalous" in doc && doc["is_anomalous"].Int? && INT_MIN <= doc["is_anomalous"].i <= INT_MAX
      ==> AnomalousFlag(doc) == Ok(doc["is_anomalous"].i == 1)
    ensures "is_anomalous" in doc && doc["is_anomalous"] == Null ==> AnomalousFlag(doc) == Err(NullPointer)
    ensures "is_anomalous" in doc && doc["is_anomalous"] == Num(1.0, "1.0") ==> AnomalousFlag(doc) == Err(NumberFormat("1.0"))
  {
    if "is_anomalous" in doc && doc["is_anomalous"].Int? && INT_MIN <= doc["is_anomalous"].i <= INT_MAX {
      ParseRendered(doc["is_anomalous"].i, INT_MIN, INT_MAX);
    }
    if "is_anomalous" !in doc {
      ParseRendered(0, INT_MIN, INT_MAX);
    }
    if "is_anomalous" in doc && doc["is_anomalous"] == Num(1.0, "1.0") {
      var t := "1.0";
      assert ParseInt(t) == None by {
        assert t[..2] == "1.";
        assert "1."[..1] == "1";
        assert !JavaDigit("1."[1]);
      }
    }
  }

  // ---------------------------------------------------------------
  // getNodeDetail
  // ---------------------------------------------------------------

  /** GraphNodeDetailDTO; a null list (a stored null) is None, its elements unchecked. */
  datatype NodeDetail = NodeDetail(
    nodeId: string,
    anomalyScore: real,
    isAnomalous: bool,
    reasons: Option<seq<Value>>,
    shapFactors: Option<seq<Value>>)

  /**
   * The query `node_id is nodeId or node_id is parsed`: a string equal to
   * the path, or a stored number of any type numerically equal to that
   * integer, as MongoDB compares numbers.
   */
  predicate Matches(doc: Document, nodeId: string, parsed: int) {
    && "node_id" in doc
    && match doc["node_id"]
       case Str(s) => s == nodeId
       case Int(i) => i == parsed
       case Num(value, _) => value == parsed as real
       case _ => false
  }

  /** findOne: the first matching document. */
  function FindOne(docs: seq<Document>, nodeId: string, parsed: int): (r: Option<Document>)
    ensures r.Some? ==> Matches(r.value, nodeId, parsed)
    ensures r.Some? <==> exists i :: 0 <= i < |docs| && Matches(docs[i], nodeId, parsed)
  {
    if docs == [] then None
    else if Matches(docs[0], nodeId, parsed) then Some(docs[0])
    else
      var rest := FindOne(docs[1..], nodeId, parsed);
      assert (exists i :: 0 <= i < |docs| && Matches(docs[i], nodeId, parsed))
          <==> (exists i :: 0 <= i < |docs[1..]| && Matches(docs[1..][i], nodeId, parsed)) by {
        if exists i :: 0 <= i < |docs| && Matches(docs[i], nodeId, parsed) {
          var i :| 0 <= i < |docs| && Matches(docs[i], nodeId, parsed);
          assert docs[1..][i - 1] == docs[i];
        }
        if exists i :: 0 <= i < |docs[1..]| && Matches(docs[1..][i], nodeId, parsed) {
          var i :| 0 <= i < |docs[1..]| && Matches(docs[1..][i], nodeId, parsed);
          assert docs[i + 1] == docs[1..][i];
        }
      }
      rest
  }

  /** `(List<...>) doc.getOrDefault(key, List.of())`: an unchecked cast; a null stays null. */
  function ListField(doc: Document, key: string): Result<Option<seq<Value>>, GraphError> {
    match GetOrDefault(doc, key, List([]))
    case Null => Ok(None)
    case List(items) => Ok(Some(items))
    case _ => Err(ClassCast)
  }

  /** The map lambda of getNodeDetail, its reads in source order. */
  function DetailOf(doc: Document): Result<NodeDetail, GraphError> {
    var score := DoubleField(doc, "anomaly_score");
    if score.Err? then Err(score.error)
    else
      var flag := AnomalousFlag(doc);
      if flag.Err? then Err(flag.error)
      else
        var reasons := ListField(doc, "reasons");
        if reasons.Err? then Err(reasons.error)
        else
          var shap := ListField(doc, "shap_factors");
          if shap.Err? then Err(shap.error)
          else
            var id := NodeIdText(doc);
            if id.Err? then Err(id.error)
            else Ok(NodeDetail(id.value, score.value, flag.value, reasons.value, shap.value))
  }

  /** getNodeDetail: parse the id while building the query, find the first match, then map it. */
  function GetNodeDetail(docs: seq<Document>, nodeId: string): Result<NodeDetail, GraphError> {
    var parsed := ParseInt(nodeId);
    if parsed.None? then Err(NumberFormat(nodeId))
    else
      var found := FindOne(docs, nodeId, parsed.value);
      if found.None? then Err(NodeNotFound("Node not found: " + nodeId))
      else DetailOf(found.value)
  }

  /** A path id that is not a decimal int fails before the store is consulted: the documents play no part. */
  lemma NonNumericFailsFirst(docs: seq<Document>, other: seq<Document>, nodeId: string)
    requires ParseInt(nodeId).None?
    ensures GetNodeDetail(docs, nodeId) == GetNodeDetail(other, nodeId) == Err(NumberFormat(nodeId))
  {
  }

  /** With no matching document the error names the requested id. */
  lemma NotFoundMessage(docs: seq<Document>, nodeId: string)
    requires ParseInt(nodeId).Some?
    requires forall i :: 0 <= i < |docs| ==> !Matches(docs[i], nodeId, ParseInt(nodeId).value)
    ensures GetNodeDetail(docs, nodeId) == Err(NodeNotFound("Node not found: " + nodeId))
  {
  }

  /** The lists a detail carries: as stored, and empty when the document has no such field. */
  lemma DetailLists(doc: Document)
    requires DetailOf(doc).Ok?
    ensures var d := DetailOf(doc).value;
      && d.nodeId == Render(doc["node_id"])
      && d.reasons == ListField(doc, "reasons").value && d.shapFactors == ListField(doc, "shap_factors").value
      && ("reasons" !in doc ==> d.reasons == Some([]))
      && ("shap_factors" !in doc ==> d.shapFactors == Some([]))
  {
    var score, flag := DoubleField(doc, "anomaly_score"), AnomalousFlag(doc);
    var reasons, shap, id := ListField(doc, "reasons"), ListField(doc, "shap_factors"), NodeIdText(doc);
    assert score.Ok? && flag.Ok? && reasons.Ok? && shap.Ok? && id.Ok?;
    assert DetailOf(doc).value == NodeDetail(id.value, score.value, flag.value, reasons.value, shap.value);
  }

  /**
   * Missing reasons and shap_factors become empty lists, and the detail's
   * id is the path id when the match was by string, or the canonical
   * rendering of the parsed integer when it was by number.
   */
  lemma DetailDefaults(docs: seq<Document>, nodeId: string)
    requires GetNodeDetail(docs, nodeId).Ok?
    ensures var d := GetNodeDetail(docs, nodeId).value;
      var doc := FindOne(docs, nodeId, ParseInt(nodeId).value).value;
      && ("reasons" !in doc ==> d.reasons == Some([]))
      && ("shap_factors" !in doc ==> d.shapFactors == Some([]))
      && (doc["node_id"].Str? ==> d.nodeId == nodeId)
      && (doc["node_id"].Int? ==> d.nodeId == IntToString(ParseInt(nodeId).value))
      && (doc["node_id"].Num? ==> doc["node_id"].value == ParseInt(nodeId).value as real && d.nodeId == doc["node_id"].text)
  {
    var doc := FindOne(docs, nodeId, ParseInt(nodeId).value).value;
    assert GetNodeDetail(docs, nodeId) == DetailOf(doc);
    DetailLists(doc);
  }

  /** Looking up a stored numeric id (an integer, or a double equal to one) by the integer's rendering finds a document. */
  lemma RenderedIdIsFound(docs: seq<Document>, k: nat, id: int)
    requires k < |docs| && "node_id" in docs[k]
    requires docs[k]["node_id"] == Int(id) || (docs[k]["node_id"].Num? && docs[k]["node_id"].value == id as real)
    requires INT_MIN <= id <= INT_MAX
    ensures GetNodeDetail(docs, IntToString(id)).Err? ==> !GetNodeDetail(docs, IntToString(id)).error.NodeNotFound?
  {
    var s := IntToString(id);
    ParseRendered(id, INT_MIN, INT_MAX);
    assert ParseInt(s) == Some(id);
    assert Matches(docs[k], s, id);
    var found := FindOne(docs, s, id);
    assert found.Some?;
    DetailOfNeverNotFound(found.value);
  }

  /** Mapping a found document fails only on its fields, never with "not found". */
  lemma DetailOfNeverNotFound(doc: Document)
    ensures DetailOf(doc).Err? ==> !DetailOf(doc).error.NodeNotFound?
  {
  }
}
