/**
 * explanation_mapper: the fixed table from feature names to a "positive"
 * and a "negative" sentence, and build_fraud_explanation, which turns one
 * normalised node and its score into the ordered list of reasons.
 */
module ExplanationMapper {
  import opened Wrappers
  import opened PyValues

  datatype FeatureExplanation = FeatureExplanation(feature: string, positive: string, negative: string)

  /** FEATURE_EXPLANATIONS, in its insertion order. */
  const FEATURE_EXPLANATIONS: seq<FeatureExplanation> := [
    FeatureExplanation("in_degree",
      "Received money from an unusually large number of accounts",
      "Normal number of incoming transactions"),
    FeatureExplanation("out_degree",
      "Sent money to many different accounts in a short time",
      "Normal outgoing transaction behavior"),
    FeatureExplanation("total_incoming",
      "Received unusually high total amount of money",
      "Incoming transaction volume appears normal"),
    FeatureExplanation("total_outgoing",
      "Transferred large sums of money outward rapidly",
      "Outgoing transaction volume appears normal"),
    FeatureExplanation("risk_ratio",
      "High-risk transaction pattern detected (possible mule behavior)",
      "Risk indicators within safe range")
  ]

  const NO_ABNORMAL := "No abnormal behavior detected"
  const HIGH_SCORE := "High overall anomaly score"

  /** One table entry: no reason for a missing or None feature, else the positive or negative text. */
  function ReasonFor(node: Dict, e: FeatureExplanation): Result<Option<string>, PyError> {
    var value := Get(node, e.feature);
    if value.PyNone? then Ok(None)
    else
      var positive := Greater(value, 0.0);
      if positive.Err? then Err(positive.error)
      else Ok(Some(if positive.value then e.positive else e.negative))
  }

  /** The loop over the table: reasons appended in table order; a failing comparison raises. */
  function FeatureReasons(node: Dict, table: seq<FeatureExplanation>): Result<seq<string>, PyError> {
    if table == [] then Ok([])
    else
      var before := FeatureReasons(node, table[..|table| - 1]);
      if before.Err? then before
      else
        var last := ReasonFor(node, table[|table| - 1]);
        if last.Err? then Err(last.error)
        else Ok(before.value + (if last.value.Some? then [last.value.value] else []))
  }

  /** The whole function: table reasons, the fallback, then the score-based reason. */
  function Explanation(node: Dict, score: PyValue): Result<seq<string>, PyError> {
    var reasons := FeatureReasons(node, FEATURE_EXPLANATIONS);
    if reasons.Err? then reasons
    else
      var base := if reasons.value == [] then [NO_ABNORMAL] else reasons.value;
      var high := Greater(score, 0.8);
      if high.Err? then Err(high.error)
      else Ok(base + (if high.value then [HIGH_SCORE] else []))
  }

  /** build_fraud_explanation. */
  method BuildFraudExplanation(node: Dict, score: PyValue) returns (r: Result<seq<string>, PyError>)
    ensures r == Explanation(node, score)
  {
    var reasons: seq<string> := [];
    var n := 0;
    assert FEATURE_EXPLANATIONS[..0] == [];
    while n < |FEATURE_EXPLANATIONS|
      invariant 0 <= n <= |FEATURE_EXPLANATIONS|
      invariant FeatureReasons(node, FEATURE_EXPLANATIONS[..n]) == Ok(reasons)
    {
      var e := FEATURE_EXPLANATIONS[n];
      FeatureReasonsStep(node, FEATURE_EXPLANATIONS, n);
      var value := Get(node, e.feature);
      if !value.PyNone? {
        var positive := Greater(value, 0.0);
        if positive.Err? {
          ErrorPersists(node, FEATURE_EXPLANATIONS, n + 1);
          return Err(positive.error);
        }
        if positive.value {
          reasons := reasons + [e.positive];
        } else {
          reasons := reasons + [e.negative];
        }
      }
      assert FeatureReasons(node, FEATURE_EXPLANATIONS[..n + 1]).value == reasons;
      n := n + 1;
    }
    assert FEATURE_EXPLANATIONS[..n] == FEATURE_EXPLANATIONS;
    var table := reasons;
    if reasons == [] {
      reasons := reasons + [NO_ABNORMAL];
    }
    var high := Greater(score, 0.8);
    if high.Err? {
      return Err(high.error);
    }
    if high.value {
      reasons := reasons + [HIGH_SCORE];
    }
    assert FeatureReasons(node, FEATURE_EXPLANATIONS).value == table;
    assert Explanation(node, score).value == reasons;
    return Ok(reasons);
  }

  /** One more table entry: the loop body's effect on the reasons so far. */
  lemma FeatureReasonsStep(node: Dict, table: seq<FeatureExplanation>, n: nat)
    requires n < |table|
    ensures var before, last := FeatureReasons(node, table[..n]), ReasonFor(node, table[n]);
      FeatureReasons(node, table[..n + 1]) ==
        if before.Err? then before
        else if last.Err? then Err(last.error)
        else Ok(before.value + (if last.value.Some? then [last.value.value] else []))
  {
    assert table[..n + 1][..n] == table[..n];
  }

  /** Once a prefix of the table raises, the whole loop raises the same error. */
  lemma {:induction false} ErrorPersists(node: Dict, table: seq<FeatureExplanation>, n: nat)
    requires n <= |table| && FeatureReasons(node, table[..n]).Err?
    ensures FeatureReasons(node, table) == FeatureReasons(node, table[..n])
  {
    if n < |table| {
      var m := |table| - 1;
      assert table[..m][..n] == table[..n];
      ErrorPersists(node, table[..m], n);
    } else {
      assert table[..n] == table;
    }
  }

  /** A feature is present when `get` finds a value other than None. */
  predicate Present(node: Dict, e: FeatureExplanation) {
    !Get(node, e.feature).PyNone?
  }

  /** The table positions of the present features, in table order. */
  function PresentIndices(node: Dict, table: seq<FeatureExplanation>): (r: seq<nat>)
    ensures forall j :: 0 <= j < |r| ==> r[j] < |table| && Present(node, table[r[j]])
    ensures forall j, k :: 0 <= j < k < |r| ==> r[j] < r[k]
    ensures forall i :: 0 <= i < |table| && Present(node, table[i]) ==> i in r
  {
    if table == [] then []
    else
      var n := |table| - 1;
      var front := PresentIndices(node, table[..n]);
      assert forall j :: 0 <= j < |front| ==> table[..n][front[j]] == table[front[j]];
      front + (if Present(node, table[n]) then [n] else [])
  }

  /** The sentence a present feature contributes. */
  function Text(e: FeatureExplanation, positive: bool): string {
    if positive then e.positive else e.negative
  }

  /**
   * The table part: one reason per present feature, in table order; each
   * is that feature's positive text when its value is above 0, and its
   * negative text otherwise. Missing and None features contribute nothing.
   */
  lemma {:induction false} ReasonsFollowTable(node: Dict, table: seq<FeatureExplanation>)
    requires FeatureReasons(node, table).Ok?
    ensures var rs, idx := FeatureReasons(node, table).value, PresentIndices(node, table);
      && |rs| == |idx|
      && forall j :: 0 <= j < |rs| ==>
           var e := table[idx[j]];
           Greater(Get(node, e.feature), 0.0).Ok? && rs[j] == Text(e, Greater(Get(node, e.feature), 0.0).value)
  {
    if table != [] {
      var n := |table| - 1;
      var front := table[..n];
      ReasonsLast(node, table);
      ReasonsFollowTable(node, front);
      var rs0, idx0 := FeatureReasons(node, front).value, PresentIndices(node, front);
      var rs, idx := FeatureReasons(node, table).value, PresentIndices(node, table);
      forall j | 0 <= j < |rs|
        ensures var e := table[idx[j]];
          Greater(Get(node, e.feature), 0.0).Ok? && rs[j] == Text(e, Greater(Get(node, e.feature), 0.0).value)
      {
        if j < |rs0| {
          assert idx[j] == idx0[j] && rs[j] == rs0[j];
          assert front[idx0[j]] == table[idx0[j]];
        }
      }
    }
  }

  /** The last table entry adds one reason and one index when its feature is present, none otherwise. */
  lemma ReasonsLast(node: Dict, table: seq<FeatureExplanation>)
    requires table != [] && FeatureReasons(node, table).Ok?
    ensures var n := |table| - 1;
      && FeatureReasons(node, table[..n]).Ok?
      && |FeatureReasons(node, table).value| == |FeatureReasons(node, table[..n]).value| + (if Present(node, table[n]) then 1 else 0)
      && |PresentIndices(node, table)| == |PresentIndices(node, table[..n])| + (if Present(node, table[n]) then 1 else 0)
      && (forall j :: 0 <= j < |FeatureReasons(node, table[..n]).value| ==>
            FeatureReasons(node, table).value[j] == FeatureReasons(node, table[..n]).value[j])
      && (forall j :: 0 <= j < |PresentIndices(node, table[..n])| ==>
            PresentIndices(node, table)[j] == PresentIndices(node, table[..n])[j])
      && (Present(node, table[n]) ==>
            && Greater(Get(node, table[n].feature), 0.0).Ok?
            && PresentIndices(node, table)[|PresentIndices(node, table)| - 1] == n
            && FeatureReasons(node, table).value[|FeatureReasons(node, table).value| - 1]
               == Text(table[n], Greater(Get(node, table[n].feature), 0.0).value))
  {
  }

  /** A reason list can only fail on a present value that does not compare with 0, or on the score. */
  lemma {:induction false} FeatureReasonsFail(node: Dict, table: seq<FeatureExplanation>)
    ensures FeatureReasons(node, table).Err? <==>
      exists i :: 0 <= i < |table| && Present(node, table[i]) && Greater(Get(node, table[i].feature), 0.0).Err?
  {
    if table != [] {
      var n := |table| - 1;
      FeatureReasonsFail(node, table[..n]);
      if exists i :: 0 <= i < n && Present(node, table[..n][i]) && Greater(Get(node, table[..n][i].feature), 0.0).Err? {
        var i :| 0 <= i < n && Present(node, table[..n][i]) && Greater(Get(node, table[..n][i].feature), 0.0).Err?;
        assert table[i] == table[..n][i];
      }
      if exists i :: 0 <= i < |table| && Present(node, table[i]) && Greater(Get(node, table[i].feature), 0.0).Err? {
        var i :| 0 <= i < |table| && Present(node, table[i]) && Greater(Get(node, table[i].feature), 0.0).Err?;
        if i < n { assert table[i] == table[..n][i]; }
      }
    }
  }

  lemma {:induction false} FeatureReasonsBound(node: Dict, table: seq<FeatureExplanation>)
    requires FeatureReasons(node, table).Ok?
    ensures |FeatureReasons(node, table).value| <= |table|
  {
    if table != [] {
      FeatureReasonsBound(node, table[..|table| - 1]);
    }
  }

  /** No table sentence is the fallback or the score reason. */
  lemma TextsAreDistinct()
    ensures forall e :: e in FEATURE_EXPLANATIONS ==>
      && e.positive != NO_ABNORMAL && e.negative != NO_ABNORMAL
      && e.positive != HIGH_SCORE && e.negative != HIGH_SCORE
  {
  }

  /**
   * The whole list is never empty and has at most six entries; it opens
   * with the fallback exactly when no feature is present; it ends with the
   * score reason exactly when the score is above 0.8, and before that
   * holds the table reasons (or the fallback alone).
   */
  lemma ExplanationShape(node: Dict, score: PyValue)
    requires Explanation(node, score).Ok?
    ensures var rs := Explanation(node, score).value;
      var table := FeatureReasons(node, FEATURE_EXPLANATIONS).value;
      var high := Greater(score, 0.8).value;
      && 1 <= |rs| <= 6
      && (PresentIndices(node, FEATURE_EXPLANATIONS) == [] <==> rs[0] == NO_ABNORMAL)
      && (high <==> rs[|rs| - 1] == HIGH_SCORE)
      && rs[..|rs| - (if high then 1 else 0)] == (if table == [] then [NO_ABNORMAL] else table)
  {
    var table := FeatureReasons(node, FEATURE_EXPLANATIONS).value;
    FeatureReasonsBound(node, FEATURE_EXPLANATIONS);
    TableSentences(node);
    TextsAreDistinct();
    var rs := Explanation(node, score).value;
    var high := Greater(score, 0.8).value;
    var base := if table == [] then [NO_ABNORMAL] else table;
    assert rs == base + (if high then [HIGH_SCORE] else []);
    assert rs[..|rs| - (if high then 1 else 0)] == base;
  }

  /** Every reason from the table part is the positive or negative sentence of some entry. */
  lemma TableSentences(node: Dict)
    requires FeatureReasons(node, FEATURE_EXPLANATIONS).Ok?
    ensures var table := FeatureReasons(node, FEATURE_EXPLANATIONS).value;
      && (table == [] <==> PresentIndices(node, FEATURE_EXPLANATIONS) == [])
      && forall j :: 0 <= j < |table| ==>
           exists e :: e in FEATURE_EXPLANATIONS && (table[j] == e.positive || table[j] == e.negative)
  {
    ReasonsFollowTable(node, FEATURE_EXPLANATIONS);
    var table := FeatureReasons(node, FEATURE_EXPLANATIONS).value;
    var idx := PresentIndices(node, FEATURE_EXPLANATIONS);
    forall j | 0 <= j < |table|
      ensures exists e :: e in FEATURE_EXPLANATIONS && (table[j] == e.positive || table[j] == e.negative)
    {
      var e := FEATURE_EXPLANATIONS[idx[j]];
      assert e in FEATURE_EXPLANATIONS;
    }
  }
}
