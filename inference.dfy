/**
 * The inference service of the AI engine: loading the graph, the node
 * table and the weights into memory (with the two id maps built from the
 * node table), and the decision rules of analyze_transaction around the
 * graph network. The network itself is a parameter: a function from the
 * feature rows, the edges and a node index to a probability.
 */
module Inference {
  import opened Wrappers
  import opened Text

  type Probability = r: real | 0.0 <= r <= 1.0

  /** One row of nodes.csv, with node_id read as a string. */
  datatype NodeRow = NodeRow(
    nodeId: string,
    accountAgeDays: real,
    balance: real,
    pagerank: real,
    txVelocity: real,
    inOutRatio: real)

  /** One column of edge_index: from `src` to `dst`. */
  datatype Edge = Edge(src: nat, dst: nat)

  /** processed_graph.pt: the feature rows `x` and the edge list. */
  datatype GraphData = GraphData(x: seq<seq<real>>, edges: seq<Edge>)

  /** The global `model`: not built, built but its weights did not load, or ready. */
  datatype ModelState = Absent | Untrained | Trained

  /** The body of the analyze-transaction request. */
  datatype TransactionRequest = TransactionRequest(sourceId: int, targetId: int, amount: real)

  datatype RiskResponse = RiskResponse(
    nodeId: int,
    riskScore: real,
    verdict: string,
    modelVersion: string,
    outDegree: int,
    riskRatio: real,
    populationSize: string,
    ja3Detected: bool,
    linkedAccounts: seq<string>,
    unsupervisedScore: real)

  datatype InferenceError =
    | HttpError(status: int, detail: string)
    | IndexError   // the source index is not a row of the graph's feature matrix

  /** The network: feature rows, edges, whether the weights loaded, and the node asked about. */
  type Network = (seq<seq<real>>, seq<Edge>, bool, nat) -> Probability

  const MODEL_VERSION := "MuleSAGE-5Feat"
  const NOT_INITIALIZED := "AI Model is not initialized yet."

  /** The features used for a source the node table does not know. */
  const DEFAULT_FEATURES: seq<real> := [30.0, 5000.0, 1.0, 0.0001, 1.0]

  // ---------------------------------------------------------------
  // id_map and reverse_id_map
  // ---------------------------------------------------------------

  function IdsOf(rows: seq<NodeRow>): set<string> {
    set i | 0 <= i < |rows| :: rows[i].nodeId
  }

  /** The last row carrying id `k` (a later duplicate overwrites an earlier key). */
  function LastIndex(rows: seq<NodeRow>, k: string): (i: nat)
    requires k in IdsOf(rows)
    ensures i < |rows| && rows[i].nodeId == k
    ensures forall j :: i < j < |rows| ==> rows[j].nodeId != k
  {
    var n := |rows| - 1;
    if rows[n].nodeId == k then n
    else
      assert k in IdsOf(rows[..n]) by {
        var i :| 0 <= i < |rows| && rows[i].nodeId == k;
        assert i < n && rows[..n][i] == rows[i];
      }
      LastIndex(rows[..n], k)
  }

  /** `{row['node_id']: idx for idx, row in iterrows()}`. */
  function IdMapOf(rows: seq<NodeRow>): map<string, nat> {
    map k | k in IdsOf(rows) :: LastIndex(rows, k)
  }

  /** `{idx: row['node_id'] for idx, row in iterrows()}`. */
  function ReverseOf(rows: seq<NodeRow>): map<nat, string> {
    map i | 0 <= i < |rows| :: rows[i].nodeId
  }

  predicate UniqueIds(rows: seq<NodeRow>) {
    forall i, j :: 0 <= i < j < |rows| ==> rows[i].nodeId != rows[j].nodeId
  }

  /** The two comprehensions over the rows. */
  method BuildIdMaps(rows: seq<NodeRow>) returns (idMap: map<string, nat>, reverse: map<nat, string>)
    ensures idMap == IdMapOf(rows) && reverse == ReverseOf(rows)
  {
    idMap := BuildIdMap(rows);
    reverse := BuildReverseMap(rows);
  }

  /** `id_map`: one pass, a later row overwriting an earlier one with the same id. */
  method BuildIdMap(rows: seq<NodeRow>) returns (idMap: map<string, nat>)
    ensures idMap == IdMapOf(rows)
  {
    idMap := map[];
    var n := 0;
    while n < |rows|
      invariant 0 <= n <= |rows|
      invariant idMap == IdMapOf(rows[..n])
    {
      IdMapStep(rows, n);
      idMap := idMap[rows[n].nodeId := n];
      n := n + 1;
    }
    assert rows[..n] == rows;
  }

  /** `reverse_id_map`: one pass. */
  method BuildReverseMap(rows: seq<NodeRow>) returns (reverse: map<nat, string>)
    ensures reverse == ReverseOf(rows)
  {
    reverse := map[];
    var n := 0;
    while n < |rows|
      invariant 0 <= n <= |rows|
      invariant reverse == ReverseOf(rows[..n])
    {
      IdMapStep(rows, n);
      reverse := reverse[n := rows[n].nodeId];
      n := n + 1;
    }
    assert rows[..n] == rows;
  }

  /** The loop step of both passes, stated on a prefix of the rows. */
  lemma IdMapStep(rows: seq<NodeRow>, n: nat)
    requires n < |rows|
    ensures IdMapOf(rows[..n + 1]) == IdMapOf(rows[..n])[rows[n].nodeId := n]
    ensures ReverseOf(rows[..n + 1]) == ReverseOf(rows[..n])[n := rows[n].nodeId]
  {
    var p := rows[..n + 1];
    assert p[..n] == rows[..n] && p[n] == rows[n];
    IdMapsExtend(p);
    ReverseExtend(p);
  }

  /** One more row: its id now maps to it, and its index to its id. */
  lemma IdMapsExtend(p: seq<NodeRow>)
    requires |p| > 0
    ensures var n := |p| - 1; IdMapOf(p) == IdMapOf(p[..n])[p[n].nodeId := n]
  {
    var n := |p| - 1;
    var front := p[..n];
    assert IdsOf(p) == IdsOf(front) + {p[n].nodeId} by {
      forall k | k in IdsOf(p) ensures k in IdsOf(front) + {p[n].nodeId} {
        var i :| 0 <= i < |p| && p[i].nodeId == k;
        if i < n { assert front[i] == p[i]; }
      }
      forall k | k in IdsOf(front) ensures k in IdsOf(p) {
        var i :| 0 <= i < n && front[i].nodeId == k;
        assert p[i] == front[i];
      }
    }
    forall k | k in IdsOf(front) && k != p[n].nodeId
      ensures LastIndex(p, k) == LastIndex(front, k)
    {
    }
  }

  lemma ReverseExtend(p: seq<NodeRow>)
    requires |p| > 0
    ensures var n := |p| - 1; ReverseOf(p) == ReverseOf(p[..n])[n := p[n].nodeId]
  {
    var n := |p| - 1;
    assert forall i :: 0 <= i < n ==> p[..n][i] == p[i];
  }

  /**
   * The two maps are inverse: every loaded id maps to a row that maps
   * back to it, and, when no two rows share an id, every row index maps to
   * an id that maps back to that index.
   */
  lemma IdMapRoundTrip(rows: seq<NodeRow>)
    ensures forall k :: k in IdMapOf(rows) ==>
      IdMapOf(rows)[k] in ReverseOf(rows) && ReverseOf(rows)[IdMapOf(rows)[k]] == k
    ensures UniqueIds(rows) ==> forall i :: i in ReverseOf(rows) ==>
      ReverseOf(rows)[i] in IdMapOf(rows) && IdMapOf(rows)[ReverseOf(rows)[i]] == i
    ensures IdMapOf(rows).Keys == IdsOf(rows)
  {
    if UniqueIds(rows) {
      forall i | i in ReverseOf(rows)
        ensures ReverseOf(rows)[i] in IdMapOf(rows) && IdMapOf(rows)[ReverseOf(rows)[i]] == i
      {
        var k := rows[i].nodeId;
        assert k in IdsOf(rows);
      }
    }
  }

  // ---------------------------------------------------------------
  // analyze_transaction decision rules
  // ---------------------------------------------------------------

  /** The verdict for a risk: more than 0.8 is a mule, more than 0.5 suspicious, else safe. */
  function Verdict(risk: real): (v: string)
    ensures v == "CRITICAL (MULE)" <==> risk > 0.8
    ensures v == "SUSPICIOUS" <==> 0.5 < risk <= 0.8
    ensures v == "SAFE" <==> risk <= 0.5
  {
    if risk > 0.8 then "CRITICAL (MULE)" else if risk > 0.5 then "SUSPICIOUS" else "SAFE"
  }

  function Abs(r: real): real {
    if r < 0.0 then -r else r
  }

  /** The ratio after the feature shift: 0.5 more exactly when the amount is over 10000. */
  function ShiftedRatio(row: NodeRow, amount: real): real {
    if amount > 10000.0 then row.inOutRatio + 0.5 else row.inOutRatio
  }

  /** Number of edges leaving node i. */
  function CountFrom(edges: seq<Edge>, i: nat): nat {
    if edges == [] then 0
    else CountFrom(edges[..|edges| - 1], i) + (if edges[|edges| - 1].src == i then 1 else 0)
  }

  /** The targets of the edges leaving node i, in edge order. */
  function NeighborsOf(edges: seq<Edge>, i: nat): (r: seq<nat>)
    ensures |r| == CountFrom(edges, i)
  {
    if edges == [] then []
    else NeighborsOf(edges[..|edges| - 1], i) + (if edges[|edges| - 1].src == i then [edges[|edges| - 1].dst] else [])
  }

  /** `Acct_` and the id of the row, or "?" for an index the reverse map lacks. */
  function AccountLabel(reverse: map<nat, string>, j: nat): string {
    "Acct_" + (if j in reverse then reverse[j] else "?")
  }

  /** The labels of at most the first three neighbours. */
  function Linked(edges: seq<Edge>, i: nat, reverse: map<nat, string>): (r: seq<string>)
    ensures |r| <= 3 && |r| == (if CountFrom(edges, i) < 3 then CountFrom(edges, i) else 3)
    ensures forall k :: 0 <= k < |r| ==> r[k] == AccountLabel(reverse, NeighborsOf(edges, i)[k])
  {
    var ns := NeighborsOf(edges, i);
    var first := if |ns| <= 3 then ns else ns[..3];
    seq(|first|, k requires 0 <= k < |first| => AccountLabel(reverse, first[k]))
  }

  class InferenceService {
    var model: ModelState
    var graph: Option<GraphData>
    var nodeFeatures: seq<NodeRow>
    var idMap: map<string, nat>
    var reverseIdMap: map<nat, string>

    /** A model is only ever built after a graph was loaded, and id_map points into the node table. */
    ghost predicate Valid()
      reads this
    {
      && (!model.Absent? ==> graph.Some?)
      && (forall k :: k in idMap ==> idMap[k] < |nodeFeatures|)
    }

    /** The module's globals before anything is loaded. */
    constructor ()
      ensures Valid() && model == Absent && graph == None && nodeFeatures == []
      ensures idMap == map[] && reverseIdMap == map[]
    {
      model := Absent;
      graph := None;
      nodeFeatures := [];
      idMap := map[];
      reverseIdMap := map[];
    }

    /**
     * load_assets_into_memory. `filesExist` is the check of both asset
     * paths, `graphFile` and `csv` what loading them gives (None: it
     * raised), `weightsLoad` whether load_state_dict succeeds. A failure is
     * logged and every global assigned before it keeps its new value: the
     * network is built before its weights load, so bad weights leave an
     * untrained model in place.
     */
    method LoadAssets(filesExist: bool, graphFile: Option<GraphData>, csv: Option<seq<NodeRow>>, weightsLoad: bool)
      requires Valid()
      modifies this
      ensures Valid()
      ensures !filesExist || graphFile.None? ==>
        && model == old(model) && graph == old(graph) && nodeFeatures == old(nodeFeatures)
        && idMap == old(idMap) && reverseIdMap == old(reverseIdMap)
      ensures filesExist && graphFile.Some? && csv.None? ==>
        && graph == graphFile && model == old(model) && nodeFeatures == old(nodeFeatures)
        && idMap == old(idMap) && reverseIdMap == old(reverseIdMap)
      ensures filesExist && graphFile.Some? && csv.Some? ==>
        && graph == graphFile && nodeFeatures == csv.value
        && idMap == IdMapOf(csv.value) && reverseIdMap == ReverseOf(csv.value)
        && model == (if weightsLoad then Trained else Untrained)
    {
      if !filesExist || graphFile.None? {
        return;
      }
      graph := graphFile;
      if csv.None? {
        return;
      }
      nodeFeatures := csv.value;
      idMap, reverseIdMap := BuildIdMaps(csv.value);
      model := Untrained;
      if weightsLoad {
        model := Trained;
      }
    }

    /** The row index analyze_transaction uses for the source: its id_map entry, or 0. */
    function SourceIndex(tx: TransactionRequest): nat
      reads this
    {
      var key := IntToString(tx.sourceId);
      if key in idMap then idMap[key] else 0
    }

    /** The target's row index, 0 when id_map lacks it. */
    function TargetIndex(tx: TransactionRequest): nat
      reads this
    {
      var key := IntToString(tx.targetId);
      if key in idMap then idMap[key] else 0
    }

    predicate KnownSource(tx: TransactionRequest)
      reads this
    {
      IntToString(tx.sourceId) in idMap
    }

    /** The feature row written for the source: shifted stored features, or the defaults. */
    function SourceFeatures(tx: TransactionRequest): (f: seq<real>)
      requires Valid()
      reads this
      ensures |f| == 5
    {
      if KnownSource(tx) then
        var row := nodeFeatures[SourceIndex(tx)];
        [row.accountAgeDays, row.balance, ShiftedRatio(row, tx.amount), row.pagerank, row.txVelocity + 1.0]
      else DEFAULT_FEATURES
    }

    /**
     * analyze_transaction. Without a model the request is refused with 503.
     * Otherwise the source's features are written into a copy of the
     * feature matrix and one edge source -> target is added to a copy of
     * the edge list; the stored graph is not changed. The network's
     * probability for the source decides the verdict and the flags.
     * Rounding of the reported reals is not modelled.
     */
    method Analyze(tx: TransactionRequest, network: Network) returns (r: Result<RiskResponse, InferenceError>)
      requires Valid()
      ensures model.Absent? ==> r == Err(HttpError(503, NOT_INITIALIZED))
      ensures !model.Absent? ==> (r.Err? <==> SourceIndex(tx) >= |graph.value.x|)
      ensures !model.Absent? && r.Err? ==> r == Err(IndexError)
      ensures r.Ok? ==>
        var g, i := graph.value, SourceIndex(tx);
        var risk := network(g.x[i := SourceFeatures(tx)], g.edges + [Edge(i, TargetIndex(tx))], model.Trained?, i);
        var v := r.value;
        && v.nodeId == tx.sourceId && v.riskScore == risk && v.verdict == Verdict(risk)
        && v.modelVersion == MODEL_VERSION
        && v.outDegree == (if KnownSource(tx) then CountFrom(g.edges, i) + 1 else 1)
        && v.riskRatio == (if KnownSource(tx) then ShiftedRatio(nodeFeatures[i], tx.amount) else 1.0)
        && v.populationSize == IntToString(|idMap|) + " Nodes"
        && v.ja3Detected == (risk > 0.75)
        && v.linkedAccounts == Linked(g.edges, i, reverseIdMap)
        && v.unsupervisedScore == Abs(risk - 0.1)
    {
      if model.Absent? {
        return Err(HttpError(503, NOT_INITIALIZED));
      }
      var g := graph.value;
      var strId := IntToString(tx.sourceId);
      var targetKey := IntToString(tx.targetId);
      var tgtIdx := if targetKey in idMap then idMap[targetKey] else 0;
      var srcIdx: nat;
      var features: seq<real>;
      var outDegree: int;
      var riskRatioUi: real;
      if strId in idMap {
        srcIdx := idMap[strId];
        var row := nodeFeatures[srcIdx];
        var currentVelocity := row.txVelocity + 1.0;
        var currentRatio := row.inOutRatio;
        if tx.amount > 10000.0 {
          currentRatio := currentRatio + 0.5;
        }
        features := [row.accountAgeDays, row.balance, currentRatio, row.pagerank, currentVelocity];
        outDegree := CountFrom(g.edges, srcIdx) + 1;
        riskRatioUi := currentRatio;
      } else {
        features := DEFAULT_FEATURES;
        srcIdx := 0;
        outDegree := 1;
        riskRatioUi := 1.0;
      }
      var tempEdges := g.edges + [Edge(srcIdx, tgtIdx)];
      var tempX := g.x;
      if srcIdx >= |tempX| {
        return Err(IndexError);
      }
      tempX := tempX[srcIdx := features];
      var risk := network(tempX, tempEdges, model.Trained?, srcIdx);
      var verdict := "SAFE";
      if risk > 0.8 {
        verdict := "CRITICAL (MULE)";
      } else if risk > 0.5 {
        verdict := "SUSPICIOUS";
      }
      var linked := Linked(g.edges, srcIdx, reverseIdMap);
      r := Ok(RiskResponse(tx.sourceId, risk, verdict, MODEL_VERSION, outDegree, riskRatioUi,
                           IntToString(|idMap|) + " Nodes", risk > 0.75, linked, Abs(risk - 0.1)));
    }
  }

  /**
   * An unknown source is analysed as row 0: the default features are
   * written into row 0, its out-degree is 1 and its ratio 1.0, and the
   * linked accounts listed are those of row 0.
   */
  lemma UnknownSourceIsRowZero(s: InferenceService, tx: TransactionRequest)
    requires s.Valid() && !s.KnownSource(tx)
    ensures s.SourceIndex(tx) == 0 && s.SourceFeatures(tx) == DEFAULT_FEATURES
  {
  }

  /**
   * The feature shift for a known source: age, balance and pagerank as
   * stored, velocity one more than stored, and the ratio 0.5 more than
   * stored exactly when the amount exceeds 10000.
   */
  lemma KnownSourceShift(s: InferenceService, tx: TransactionRequest)
    requires s.Valid() && s.KnownSource(tx)
    ensures var f, row := s.SourceFeatures(tx), s.nodeFeatures[s.SourceIndex(tx)];
      && f[0] == row.accountAgeDays && f[1] == row.balance && f[3] == row.pagerank
      && f[4] == row.txVelocity + 1.0
      && (f[2] == row.inOutRatio + 0.5 <==> tx.amount > 10000.0)
      && (f[2] == row.inOutRatio <==> tx.amount <= 10000.0)
  {
  }

  /** The out-degree reported for a known source counts the edges leaving it, plus the new one. */
  lemma {:induction false} OutDegreeCountsEdges(edges: seq<Edge>, i: nat)
    ensures CountFrom(edges, i) == |set k | 0 <= k < |edges| && edges[k].src == i|
  {
    if edges != [] {
      var front := edges[..|edges| - 1];
      OutDegreeCountsEdges(front, i);
      var before := set k | 0 <= k < |front| && front[k].src == i;
      var after := set k | 0 <= k < |edges| && edges[k].src == i;
      if edges[|edges| - 1].src == i {
        assert after == before + {|edges| - 1};
      } else {
        assert after == before;
      }
    }
  }
}
