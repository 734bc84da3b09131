/**
 * node_pipeline: normalize_enriched_node, which renames the backend's
 * camelCase node fields, and run_node_pipeline, which for each node in
 * turn fetches, normalises, scores, explains and posts, catching any
 * failure so that the next node still runs. The HTTP client, the detector
 * and the SHAP runner are collaborators handed in as an environment.
 */
module NodePipeline {
  import opened Wrappers
  import opened PyValues
  import ExplanationMapper
  import ScoreNodes

  /** Output key and the input key it is read from, in the literal's order. */
  const RENAMES: seq<(string, string)> := [
    ("nodeId", "nodeId"),
    ("node_id", "nodeId"),
    ("in_degree", "inDegree"),
    ("out_degree", "outDegree"),
    ("total_incoming", "totalIncoming"),
    ("total_outgoing", "totalOutgoing"),
    ("risk_ratio", "riskRatio"),
    ("tx_velocity", "txVelocity"),
    ("account_age_days", "accountAgeDays"),
    ("balance", "balance")
  ]

  /** normalize_enriched_node: the literal dict of ten `enriched.get(...)` reads. */
  function Normalize(enriched: Dict): Dict {
    map[
      "nodeId" := Get(enriched, "nodeId"),
      "node_id" := Get(enriched, "nodeId"),
      "in_degree" := Get(enriched, "inDegree"),
      "out_degree" := Get(enriched, "outDegree"),
      "total_incoming" := Get(enriched, "totalIncoming"),
      "total_outgoing" := Get(enriched, "totalOutgoing"),
      "risk_ratio" := Get(enriched, "riskRatio"),
      "tx_velocity" := Get(enriched, "txVelocity"),
      "account_age_days" := Get(enriched, "accountAgeDays"),
      "balance" := Get(enriched, "balance")
    ]
  }

  /** The ten output keys. */
  lemma NormalizeKeys(enriched: Dict)
    ensures Normalize(enriched).Keys == {"nodeId", "node_id", "in_degree", "out_degree", "total_incoming",
      "total_outgoing", "risk_ratio", "tx_velocity", "account_age_days", "balance"}
  {
  }

  /**
   * Each output key of the rename table holds the matching input field, or
   * None when that field is absent; so both id keys hold the input's nodeId.
   */
  lemma NormalizeRenames(enriched: Dict)
    ensures forall i :: 0 <= i < |RENAMES| ==>
      RENAMES[i].0 in Normalize(enriched) && Normalize(enriched)[RENAMES[i].0] == Get(enriched, RENAMES[i].1)
    ensures Normalize(enriched)["nodeId"] == Normalize(enriched)["node_id"] == Get(enriched, "nodeId")
  {
    var d := Normalize(enriched);
    forall i | 0 <= i < |RENAMES|
      ensures RENAMES[i].0 in d && d[RENAMES[i].0] == Get(enriched, RENAMES[i].1)
    {
      if i == 0 {} else if i == 1 {} else if i == 2 {} else if i == 3 {} else if i == 4 {}
      else if i == 5 {} else if i == 6 {} else if i == 7 {} else if i == 8 {} else {}
    }
  }

  /** The output keys are exactly the rename table's output keys. */
  lemma NormalizeKeysFollowTable(enriched: Dict)
    ensures Normalize(enriched).Keys == set i | 0 <= i < |RENAMES| :: RENAMES[i].0
  {
    NormalizeKeys(enriched);
    NormalizeRenames(enriched);
    var ks := set i | 0 <= i < |RENAMES| :: RENAMES[i].0;
    assert RENAMES[0].0 in ks && RENAMES[1].0 in ks && RENAMES[2].0 in ks && RENAMES[3].0 in ks && RENAMES[4].0 in ks;
    assert RENAMES[5].0 in ks && RENAMES[6].0 in ks && RENAMES[7].0 in ks && RENAMES[8].0 in ks && RENAMES[9].0 in ks;
  }

  /** The output always holds both id keys, so the emptiness check after normalising never fires. */
  lemma NormalizeNeverEmpty(enriched: Dict)
    ensures "nodeId" in Normalize(enriched) && "node_id" in Normalize(enriched)
    ensures Truthy(PyDict(Normalize(enriched)))
  {
    var d := Normalize(enriched);
    assert "nodeId" in d;
    var empty: Dict := map[];
    assert "nodeId" !in empty;
  }

  /** The record handed to SHAP: the node with `is_anomalous` (1 above 0.5, else 0) and the score. */
  function ShapRecord(enriched: Dict, score: PyValue, anomalous: bool): Dict {
    enriched[ScoreNodes.IS_ANOMALOUS := PyNum(if anomalous then 1.0 else 0.0)][ScoreNodes.ANOMALY_SCORE := score]
  }

  /** The requests run_node_pipeline sends, in the order it sends them. */
  datatype Post =
    | ScorePost(nodeId: int, score: PyValue)
    | ReasonsPost(nodeId: int, reasons: seq<string>)

  /**
   * The collaborators: fetching a node's features, the detector and the
   * SHAP runner. Each may raise. A post never raises: the client logs and
   * swallows every failure of the request.
   */
  datatype Env = Env(
    fetch: int -> Result<PyValue, PyError>,
    detect: Dict -> Result<seq<Dict>, PyError>,
    shap: seq<Dict> -> Result<seq<Dict>, PyError>)

  /** How one node ended: the success message, the `continue`, or the caught exception. */
  datatype Outcome = Completed | Skipped | Failed(error: PyError)

  /** One node's outcome and the posts it sent. */
  datatype NodeRun = NodeRun(outcome: Outcome, posts: seq<Post>)

  /**
   * The part after the three computations. The score and the reasons are
   * always sent. Non-empty SHAP results go to `post_shap_explanation`,
   * which takes a node id and the values but is called with the results
   * alone: the call raises TypeError before any request is made.
   */
  function Persist(nodeId: int, score: PyValue, reasons: seq<string>, shapResults: seq<Dict>): NodeRun {
    var sent := [ScorePost(nodeId, score), ReasonsPost(nodeId, reasons)];
    if shapResults == [] then NodeRun(Completed, sent)
    else NodeRun(Failed(TypeError), sent)
  }

  /** The body of the `try` for one node. */
  function ProcessNode(env: Env, nodeId: int): NodeRun {
    var raw := env.fetch(nodeId);
    if raw.Err? then NodeRun(Failed(raw.error), [])
    else if !Truthy(raw.value) then NodeRun(Skipped, [])
    else if !raw.value.PyDict? then NodeRun(Failed(AttributeError), [])
    else
      var enriched := Normalize(raw.value.entries);
      if !Truthy(PyDict(enriched)) then NodeRun(Skipped, [])
      else
        var detected := env.detect(enriched);
        if detected.Err? then NodeRun(Failed(detected.error), [])
        else
          var score := ScoreNodes.ScoreSingleNode(detected.value);
          var reasons := ExplanationMapper.Explanation(enriched, score);
          if reasons.Err? then NodeRun(Failed(reasons.error), [])
          else
            var anomalous := Greater(score, 0.5);
            if anomalous.Err? then NodeRun(Failed(anomalous.error), [])
            else
              var shapResults := env.shap([ShapRecord(enriched, score, anomalous.value)]);
              if shapResults.Err? then NodeRun(Failed(shapResults.error), [])
              else Persist(nodeId, score, reasons.value, shapResults.value)
  }

  /** The whole loop: one outcome per node, posts concatenated in node order. */
  function RunAll(env: Env, nodeIds: seq<int>): NodeRun {
    if nodeIds == [] then NodeRun(Completed, [])
    else
      var before := RunAll(env, nodeIds[..|nodeIds| - 1]);
      var last := ProcessNode(env, nodeIds[|nodeIds| - 1]);
      NodeRun(last.outcome, before.posts + last.posts)
  }

  /** Outcomes of a whole run, one per node. */
  function Outcomes(env: Env, nodeIds: seq<int>): (r: seq<Outcome>)
    ensures |r| == |nodeIds|
  {
    if nodeIds == [] then []
    else Outcomes(env, nodeIds[..|nodeIds| - 1]) + [ProcessNode(env, nodeIds[|nodeIds| - 1]).outcome]
  }

  /** One node, as the `try` block runs it. */
  method RunOne(env: Env, nodeId: int) returns (run: NodeRun)
    ensures run == ProcessNode(env, nodeId)
  {
    var raw := env.fetch(nodeId);
    if raw.Err? {
      return NodeRun(Failed(raw.error), []);
    }
    if !Truthy(raw.value) {
      return NodeRun(Skipped, []);
    }
    if !raw.value.PyDict? {
      return NodeRun(Failed(AttributeError), []);
    }
    var enriched := Normalize(raw.value.entries);
    if !Truthy(PyDict(enriched)) {
      return NodeRun(Skipped, []);
    }
    var detected := env.detect(enriched);
    if detected.Err? {
      return NodeRun(Failed(detected.error), []);
    }
    var score := ScoreNodes.ScoreSingleNode(detected.value);
    var reasons := ExplanationMapper.BuildFraudExplanation(enriched, score);
    if reasons.Err? {
      return NodeRun(Failed(reasons.error), []);
    }
    var anomalous := Greater(score, 0.5);
    if anomalous.Err? {
      return NodeRun(Failed(anomalous.error), []);
    }
    var shapResults := env.shap([ShapRecord(enriched, score, anomalous.value)]);
    if shapResults.Err? {
      return NodeRun(Failed(shapResults.error), []);
    }
    run := Persist(nodeId, score, reasons.value, shapResults.value);
  }

  /** run_node_pipeline: every node is processed, whatever happened to the ones before. */
  method RunNodePipeline(env: Env, nodeIds: seq<int>) returns (outcomes: seq<Outcome>, posts: seq<Post>)
    ensures outcomes == Outcomes(env, nodeIds)
    ensures posts == RunAll(env, nodeIds).posts
  {
    outcomes, posts := [], [];
    var n := 0;
    while n < |nodeIds|
      invariant 0 <= n <= |nodeIds|
      invariant outcomes == Outcomes(env, nodeIds[..n])
      invariant posts == RunAll(env, nodeIds[..n]).posts
    {
      assert nodeIds[..n + 1][..n] == nodeIds[..n];
      var run := RunOne(env, nodeIds[n]);
      outcomes := outcomes + [run.outcome];
      posts := posts + run.posts;
      n := n + 1;
    }
    assert nodeIds[..n] == nodeIds;
  }

  /** A failure, or a skip, in one node does not stop the others: outcome i is node i's own. */
  lemma {:induction false} EachNodeRuns(env: Env, nodeIds: seq<int>)
    ensures forall i :: 0 <= i < |nodeIds| ==> Outcomes(env, nodeIds)[i] == ProcessNode(env, nodeIds[i]).outcome
  {
    if nodeIds != [] {
      var m := |nodeIds| - 1;
      EachNodeRuns(env, nodeIds[..m]);
      var front := Outcomes(env, nodeIds[..m]);
      assert Outcomes(env, nodeIds) == front + [ProcessNode(env, nodeIds[m]).outcome];
      forall i | 0 <= i < |nodeIds|
        ensures Outcomes(env, nodeIds)[i] == ProcessNode(env, nodeIds[i]).outcome
      {
        if i < m {
          assert nodeIds[..m][i] == nodeIds[i];
          assert Outcomes(env, nodeIds)[i] == front[i];
        }
      }
    }
  }

  /**
   * A node whose fetch returns nothing (None, an empty dict) is skipped and
   * posts nothing; a fetched dict is never skipped, because its normalised
   * form always has ten keys.
   */
  lemma SkipOnlyOnNothing(env: Env, nodeId: int)
    requires env.fetch(nodeId).Ok?
    ensures !Truthy(env.fetch(nodeId).value) ==> ProcessNode(env, nodeId) == NodeRun(Skipped, [])
    ensures env.fetch(nodeId).value.PyDict? && Truthy(env.fetch(nodeId).value) ==> ProcessNode(env, nodeId).outcome != Skipped
  {
    var raw := env.fetch(nodeId).value;
    if raw.PyDict? && Truthy(raw) {
      NormalizeNeverEmpty(raw.entries);
      assert Truthy(PyDict(Normalize(raw.entries)));
    }
  }

  /**
   * The SHAP record keeps every normalised field except the two it sets:
   * `anomaly_score` is the score and `is_anomalous` is 1 exactly when the
   * score is above 0.5, else 0.
   */
  lemma ShapRecordThreshold(enriched: Dict, score: real)
    ensures var rec := ShapRecord(enriched, PyNum(score), Greater(PyNum(score), 0.5).value);
      && rec[ScoreNodes.ANOMALY_SCORE] == PyNum(score)
      && (rec[ScoreNodes.IS_ANOMALOUS] == PyNum(1.0) <==> score > 0.5)
      && (rec[ScoreNodes.IS_ANOMALOUS] == PyNum(0.0) <==> score <= 0.5)
      && rec.Keys == enriched.Keys + {ScoreNodes.ANOMALY_SCORE, ScoreNodes.IS_ANOMALOUS}
      && forall k :: k in enriched && k != ScoreNodes.ANOMALY_SCORE && k != ScoreNodes.IS_ANOMALOUS ==> rec[k] == enriched[k]
  {
  }

  /**
   * A node that completes sent exactly two posts, its score then its
   * reasons, both for its own id, the reasons being the explanation of the
   * normalised node; and the SHAP runner returned nothing for it.
   */
  lemma CompletedPosts(env: Env, nodeId: int)
    requires ProcessNode(env, nodeId).outcome == Completed
    ensures var run := ProcessNode(env, nodeId);
      var enriched := Normalize(env.fetch(nodeId).value.entries);
      var score := ScoreNodes.ScoreSingleNode(env.detect(enriched).value);
      && run.posts == [ScorePost(nodeId, score), ReasonsPost(nodeId, ExplanationMapper.Explanation(enriched, score).value)]
      && env.shap([ShapRecord(enriched, score, Greater(score, 0.5).value)]) == Ok([])
  {
  }

  /**
   * The score a completed node posts is the "anomaly_score" of the
   * detector's first entry, or 0.0 when the detector yields nothing or
   * that entry has none.
   */
  lemma CompletedScorePost(env: Env, nodeId: int)
    requires ProcessNode(env, nodeId).outcome == Completed
    ensures var detected := env.detect(Normalize(env.fetch(nodeId).value.entries)).value;
      var first := ProcessNode(env, nodeId).posts[0];
      && (detected != [] && ScoreNodes.ANOMALY_SCORE in detected[0] ==> first == ScorePost(nodeId, detected[0][ScoreNodes.ANOMALY_SCORE]))
      && (detected == [] || ScoreNodes.ANOMALY_SCORE !in detected[0] ==> first == ScorePost(nodeId, PyNum(0.0)))
  {
    CompletedPosts(env, nodeId);
  }

  /**
   * Once a node gets as far as posting, both posts are sent; it then
   * completes exactly when the SHAP runner returned nothing, and raises
   * TypeError otherwise.
   */
  lemma ShapOutputRaises(env: Env, nodeId: int)
    requires ProcessNode(env, nodeId).posts != []
    ensures var run := ProcessNode(env, nodeId);
      var enriched := Normalize(env.fetch(nodeId).value.entries);
      var score := ScoreNodes.ScoreSingleNode(env.detect(enriched).value);
      var shapResults := env.shap([ShapRecord(enriched, score, Greater(score, 0.5).value)]);
      && run.posts == [ScorePost(nodeId, score), ReasonsPost(nodeId, ExplanationMapper.Explanation(enriched, score).value)]
      && shapResults.Ok?
      && (run.outcome == Completed <==> shapResults.value == [])
      && (run.outcome != Completed ==> run.outcome == Failed(TypeError))
  {
  }

}
