/**
 * score_nodes: attach_scores, a left join of enriched nodes with detector
 * scores on "node_id", and the fallback logic of score_single_node.
 * The detector itself is not modelled; its output is an input here.
 */
module ScoreNodes {
  import opened Wrappers
  import opened PyValues

  /** The two fields attach_scores writes into every node. */
  const ANOMALY_SCORE := "anomaly_score"
  const IS_ANOMALOUS := "is_anomalous"

  /** The score a node without a matching entry receives. */
  const DEFAULT_SCORE: Dict := map[ANOMALY_SCORE := PyNone, IS_ANOMALOUS := PyNum(0.0)]

  /**
   * The `score_map` comprehension, entries taken in list order: an entry
   * without "node_id" raises KeyError, an unhashable id raises TypeError,
   * and a later entry with the same key replaces an earlier one.
   */
  function ScoreMap(scores: seq<Dict>): Result<map<PyValue, Dict>, PyError> {
    if scores == [] then Ok(map[])
    else
      var before := ScoreMap(scores[..|scores| - 1]);
      if before.Err? then before
      else
        var s := scores[|scores| - 1];
        if "node_id" !in s then Err(KeyError("node_id"))
        else if !Hashable(s["node_id"]) then Err(TypeError)
        else Ok(before.value[KeyOf(s["node_id"]) := s])
  }

  /** `score_map.get(node.get("node_id"), default)`; an unhashable id raises TypeError. */
  function Lookup(scoreMap: map<PyValue, Dict>, node: Dict): Result<Dict, PyError> {
    var id := Get(node, "node_id");
    if !Hashable(id) then Err(TypeError)
    else if KeyOf(id) in scoreMap then Ok(scoreMap[KeyOf(id)])
    else Ok(DEFAULT_SCORE)
  }

  /** `{**node, "anomaly_score": score.get(...), "is_anomalous": score.get(...)}`. */
  function Merge(node: Dict, score: Dict): Dict {
    node[ANOMALY_SCORE := Get(score, ANOMALY_SCORE)][IS_ANOMALOUS := Get(score, IS_ANOMALOUS)]
  }

  /** The loop over the nodes, in order, against a built score map. */
  function MergeAll(scoreMap: map<PyValue, Dict>, nodes: seq<Dict>): Result<seq<Dict>, PyError> {
    if nodes == [] then Ok([])
    else
      var before := MergeAll(scoreMap, nodes[..|nodes| - 1]);
      if before.Err? then before
      else
        var score := Lookup(scoreMap, nodes[|nodes| - 1]);
        if score.Err? then Err(score.error)
        else Ok(before.value + [Merge(nodes[|nodes| - 1], score.value)])
  }

  /** attach_scores: no nodes gives [] before the scores are even read. */
  function Attached(nodes: seq<Dict>, scores: seq<Dict>): Result<seq<Dict>, PyError> {
    if nodes == [] then Ok([])
    else
      var scoreMap := ScoreMap(scores);
      if scoreMap.Err? then Err(scoreMap.error)
      else MergeAll(scoreMap.value, nodes)
  }

  /** attach_scores, with its loop appending to `nodes_scored`. */
  method AttachScores(nodes: seq<Dict>, scores: seq<Dict>) returns (r: Result<seq<Dict>, PyError>)
    ensures r == Attached(nodes, scores)
  {
    if nodes == [] {
      return Ok([]);
    }
    var scoreMap := ScoreMap(scores);
    if scoreMap.Err? {
      return Err(scoreMap.error);
    }
    var scored: seq<Dict> := [];
    var n := 0;
    while n < |nodes|
      invariant 0 <= n <= |nodes|
      invariant MergeAll(scoreMap.value, nodes[..n]) == Ok(scored)
    {
      assert nodes[..n + 1][..n] == nodes[..n];
      var score := Lookup(scoreMap.value, nodes[n]);
      if score.Err? {
        MergeErrorPersists(scoreMap.value, nodes, n + 1);
        return Err(score.error);
      }
      scored := scored + [Merge(nodes[n], score.value)];
      assert MergeAll(scoreMap.value, nodes[..n + 1]).value == scored;
      n := n + 1;
    }
    assert nodes[..n] == nodes;
    return Ok(scored);
  }

  /** Once a prefix of the nodes raises, the whole loop raises the same error. */
  lemma {:induction false} MergeErrorPersists(scoreMap: map<PyValue, Dict>, nodes: seq<Dict>, n: nat)
    requires n <= |nodes| && MergeAll(scoreMap, nodes[..n]).Err?
    ensures MergeAll(scoreMap, nodes) == MergeAll(scoreMap, nodes[..n])
  {
    if n < |nodes| {
      var m := |nodes| - 1;
      assert nodes[..m][..n] == nodes[..n];
      MergeErrorPersists(scoreMap, nodes[..m], n);
    } else {
      assert nodes[..n] == nodes;
    }
  }

  /**
   * The join keeps length and order: output i is node i merged with the
   * score its id finds (or the default); it fails exactly when some node's
   * id is unhashable.
   */
  lemma {:induction false} MergeAllShape(scoreMap: map<PyValue, Dict>, nodes: seq<Dict>)
    ensures MergeAll(scoreMap, nodes).Ok? <==> forall i :: 0 <= i < |nodes| ==> Lookup(scoreMap, nodes[i]).Ok?
    ensures MergeAll(scoreMap, nodes).Ok? ==>
      var out := MergeAll(scoreMap, nodes).value;
      && |out| == |nodes|
      && forall i :: 0 <= i < |nodes| ==> out[i] == Merge(nodes[i], Lookup(scoreMap, nodes[i]).value)
  {
    if nodes != [] {
      var m := |nodes| - 1;
      MergeAllShape(scoreMap, nodes[..m]);
      assert forall i :: 0 <= i < m ==> nodes[..m][i] == nodes[i];
    }
  }

  /**
   * Every output node keeps each input field other than the two score
   * fields, and gains exactly those two.
   */
  lemma MergeKeepsFields(node: Dict, score: Dict)
    ensures Merge(node, score).Keys == node.Keys + {ANOMALY_SCORE, IS_ANOMALOUS}
    ensures forall k :: k in node && k != ANOMALY_SCORE && k != IS_ANOMALOUS ==> Merge(node, score)[k] == node[k]
    ensures Merge(node, score)[ANOMALY_SCORE] == Get(score, ANOMALY_SCORE)
    ensures Merge(node, score)[IS_ANOMALOUS] == Get(score, IS_ANOMALOUS)
  {
  }

  /** A node whose id matches no score gets anomaly_score None and is_anomalous 0. */
  lemma NoMatchDefaults(scoreMap: map<PyValue, Dict>, node: Dict)
    requires Hashable(Get(node, "node_id")) && KeyOf(Get(node, "node_id")) !in scoreMap
    ensures Lookup(scoreMap, node).Ok?
    ensures Merge(node, Lookup(scoreMap, node).value)[ANOMALY_SCORE] == PyNone
    ensures Merge(node, Lookup(scoreMap, node).value)[IS_ANOMALOUS] == PyNum(0.0)
  {
  }

  /** The key a score entry is filed under, when it has one. */
  predicate FiledUnder(s: Dict, key: PyValue) {
    "node_id" in s && Hashable(s["node_id"]) && KeyOf(s["node_id"]) == key
  }

  /** The score map is built exactly when every entry carries a hashable "node_id". */
  lemma {:induction false} ScoreMapBuilt(scores: seq<Dict>)
    ensures ScoreMap(scores).Ok? <==> forall i :: 0 <= i < |scores| ==> "node_id" in scores[i] && Hashable(scores[i]["node_id"])
  {
    if scores != [] {
      var m := |scores| - 1;
      ScoreMapBuilt(scores[..m]);
      assert forall i :: 0 <= i < m ==> scores[..m][i] == scores[i];
    }
  }

  /** Each entry's key is in the map, and it maps to the LAST entry filed under that key. */
  lemma {:induction false} LastScoreWins(scores: seq<Dict>, i: nat)
    requires ScoreMap(scores).Ok? && i < |scores|
    ensures "node_id" in scores[i] && Hashable(scores[i]["node_id"])
    ensures KeyOf(scores[i]["node_id"]) in ScoreMap(scores).value
    ensures (forall j :: i < j < |scores| ==> !FiledUnder(scores[j], KeyOf(scores[i]["node_id"]))) ==>
      ScoreMap(scores).value[KeyOf(scores[i]["node_id"])] == scores[i]
  {
    var m := |scores| - 1;
    if i < m {
      LastScoreWins(scores[..m], i);
      assert scores[..m][i] == scores[i];
      assert forall j :: i < j < m ==> scores[..m][j] == scores[j];
    }
  }

  /** Every key of the map comes from some entry filed under it. */
  lemma {:induction false} ScoreMapKeys(scores: seq<Dict>, key: PyValue)
    requires ScoreMap(scores).Ok? && key in ScoreMap(scores).value
    ensures exists i :: 0 <= i < |scores| && FiledUnder(scores[i], key)
  {
    var m := |scores| - 1;
    if FiledUnder(scores[m], key) {
    } else {
      ScoreMapKeys(scores[..m], key);
      var i :| 0 <= i < m && FiledUnder(scores[..m][i], key);
      assert scores[..m][i] == scores[i];
    }
  }

  /**
   * attach_scores as a whole: no nodes gives []; otherwise, when it
   * succeeds, output i is input node i with its two score fields set from
   * the last score entry sharing its id, or None and 0 when none does.
   */
  lemma AttachedJoin(nodes: seq<Dict>, scores: seq<Dict>)
    ensures nodes == [] ==> Attached(nodes, scores) == Ok([])
    ensures Attached(nodes, scores).Ok? && nodes != [] ==>
      var out := Attached(nodes, scores).value;
      && |out| == |nodes|
      && forall i :: 0 <= i < |nodes| ==>
           var id := Get(nodes[i], "node_id");
           && Hashable(id)
           && out[i] == Merge(nodes[i], if KeyOf(id) in ScoreMap(scores).value then ScoreMap(scores).value[KeyOf(id)] else DEFAULT_SCORE)
  {
    if nodes != [] && ScoreMap(scores).Ok? {
      MergeAllShape(ScoreMap(scores).value, nodes);
    }
  }

  /**
   * score_single_node after the detector has run: 0.0 when it yields
   * nothing or its first entry has no "anomaly_score", else that value.
   */
  function ScoreSingleNode(detected: seq<Dict>): (score: PyValue)
    ensures (detected != [] && ANOMALY_SCORE in detected[0]) ==> score == detected[0][ANOMALY_SCORE]
    ensures (detected == [] || ANOMALY_SCORE !in detected[0]) ==> score == PyNum(0.0)
  {
    if detected == [] then PyNum(0.0)
    else Get(detected[0], ANOMALY_SCORE, PyNum(0.0))
  }
}
