/**
 * The stores the visual-analytics service writes its results to:
 * anomaly_scores, an upsert keyed by node id (AnomalyScoreService.saveBatch),
 * and the SHAP and fraud explanation collections, which append one fresh
 * record per DTO (the two batch controllers). Store keys are counters; the
 * clock is a parameter giving the reading of the i-th save of a batch.
 */
module ResultStores {
  import opened Wrappers

  // ---------------------------------------------------------------
  // anomaly_scores: upsert by nodeId
  // ---------------------------------------------------------------

  /** AnomalyScoreDTO: a null `nodeId`, `model` or `source` is None. */
  datatype AnomalyScoreDto = AnomalyScoreDto(
    nodeId: Option<int>,
    anomalyScore: real,
    isAnomalous: int,
    model: Option<string>,
    source: Option<string>)

  /** A document of anomaly_scores. */
  datatype AnomalyScore = AnomalyScore(
    id: nat,
    nodeId: Option<int>,
    anomalyScore: real,
    isAnomalous: int,
    model: Option<string>,
    source: Option<string>,
    updatedAt: int)

  /** The five setters and the timestamp applied to the found or new record; its key is kept. */
  function Assign(e: AnomalyScore, d: AnomalyScoreDto, at: int): (r: AnomalyScore)
    ensures r.id == e.id && r.updatedAt == at
    ensures r.nodeId == d.nodeId && r.anomalyScore == d.anomalyScore && r.isAnomalous == d.isAnomalous
    ensures r.model == d.model && r.source == d.source
  {
    e.(nodeId := d.nodeId, anomalyScore := d.anomalyScore, isAnomalous := d.isAnomalous,
       model := d.model, source := d.source, updatedAt := at)
  }

  /** `new AnomalyScore()`, saved under a fresh key: every field at its Java default. */
  function Blank(id: nat): AnomalyScore {
    AnomalyScore(id, None, 0.0, 0, None, None, 0)
  }

  /** The node ids the store holds. */
  function NodeIds(rs: seq<AnomalyScore>): set<Option<int>> {
    set i | 0 <= i < |rs| :: rs[i].nodeId
  }

  /** No two records share a node id. */
  predicate UniqueNodeIds(rs: seq<AnomalyScore>) {
    forall i, j :: 0 <= i < j < |rs| ==> rs[i].nodeId != rs[j].nodeId
  }

  /** findByNodeId: the position of the first record with that node id. */
  function IndexOf(rs: seq<AnomalyScore>, nodeId: Option<int>): (r: Option<nat>)
    ensures r.Some? ==> r.value < |rs| && rs[r.value].nodeId == nodeId
    ensures r.Some? ==> forall i :: 0 <= i < r.value ==> rs[i].nodeId != nodeId
    ensures r.None? <==> nodeId !in NodeIds(rs)
  {
    if rs == [] then None
    else if rs[0].nodeId == nodeId then Some(0)
    else
      var rest := IndexOf(rs[1..], nodeId);
      assert NodeIds(rs) == {rs[0].nodeId} + NodeIds(rs[1..]) by {
        forall x | x in NodeIds(rs) ensures x in {rs[0].nodeId} + NodeIds(rs[1..]) {
          var i :| 0 <= i < |rs| && rs[i].nodeId == x;
          if i > 0 { assert rs[1..][i - 1] == rs[i]; }
        }
        forall x | x in NodeIds(rs[1..]) ensures x in NodeIds(rs) {
          var i :| 0 <= i < |rs[1..]| && rs[1..][i].nodeId == x;
          assert rs[i + 1] == rs[1..][i];
        }
      }
      if rest.None? then None else Some(rest.value + 1)
  }

  /** The store after one DTO: overwrite the record found for its node id, or add one. */
  datatype ScoreStore = ScoreStore(records: seq<AnomalyScore>, nextId: nat)

  function Upsert(s: ScoreStore, d: AnomalyScoreDto, at: int): ScoreStore {
    var found := IndexOf(s.records, d.nodeId);
    if found.Some? then
      ScoreStore(s.records[found.value := Assign(s.records[found.value], d, at)], s.nextId)
    else
      ScoreStore(s.records + [Assign(Blank(s.nextId), d, at)], s.nextId + 1)
  }

  /** saveBatch, one DTO after the other; the i-th save reads clock(i). */
  function UpsertAll(s: ScoreStore, dtos: seq<AnomalyScoreDto>, clock: nat -> int): ScoreStore {
    if dtos == [] then s
    else Upsert(UpsertAll(s, dtos[..|dtos| - 1], clock), dtos[|dtos| - 1], clock(|dtos| - 1))
  }

  function BatchNodeIds(dtos: seq<AnomalyScoreDto>): set<Option<int>> {
    set i | 0 <= i < |dtos| :: dtos[i].nodeId
  }

  predicate ScoreStoreValid(s: ScoreStore) {
    UniqueNodeIds(s.records) && forall i :: 0 <= i < |s.records| ==> s.records[i].id < s.nextId
  }

  /**
   * One upsert keeps the store valid; a known node id rewrites its own
   * record in place under the same key, and every other record is kept.
   */
  lemma UpsertFacts(s: ScoreStore, d: AnomalyScoreDto, at: int)
    requires ScoreStoreValid(s)
    ensures var r := Upsert(s, d, at);
      && ScoreStoreValid(r)
      && NodeIds(r.records) == NodeIds(s.records) + {d.nodeId}
      && (d.nodeId in NodeIds(s.records) ==> |r.records| == |s.records| && r.nextId == s.nextId)
      && (d.nodeId !in NodeIds(s.records) ==> |r.records| == |s.records| + 1 && r.nextId == s.nextId + 1)
      && (forall i :: 0 <= i < |s.records| && s.records[i].nodeId != d.nodeId ==> r.records[i] == s.records[i])
      && (forall i :: 0 <= i < |s.records| ==> r.records[i].id == s.records[i].id)
      && (forall i :: |s.records| <= i < |r.records| ==> r.records[i].nodeId == d.nodeId)
      && (forall i :: 0 <= i < |r.records| && r.records[i].nodeId == d.nodeId ==>
            r.records[i] == Assign(r.records[i], d, at))
  {
    var r := Upsert(s, d, at);
    var found := IndexOf(s.records, d.nodeId);
    if found.Some? {
      var k := found.value;
      assert NodeIds(r.records) == NodeIds(s.records) by {
        forall x | x in NodeIds(r.records) ensures x in NodeIds(s.records) {
          var i :| 0 <= i < |r.records| && r.records[i].nodeId == x;
          assert x == s.records[i].nodeId;
        }
        forall x | x in NodeIds(s.records) ensures x in NodeIds(r.records) {
          var i :| 0 <= i < |s.records| && s.records[i].nodeId == x;
          assert x == r.records[i].nodeId;
        }
      }
    } else {
      assert r.records == s.records + [Assign(Blank(s.nextId), d, at)];
      assert NodeIds(r.records) == NodeIds(s.records) + {d.nodeId} by {
        forall x | x in NodeIds(r.records) ensures x in NodeIds(s.records) + {d.nodeId} {
          var i :| 0 <= i < |r.records| && r.records[i].nodeId == x;
          if i < |s.records| { assert x == s.records[i].nodeId; }
        }
        forall x | x in NodeIds(s.records) ensures x in NodeIds(r.records) {
          var i :| 0 <= i < |s.records| && s.records[i].nodeId == x;
          assert x == r.records[i].nodeId;
        }
        assert r.records[|s.records|].nodeId == d.nodeId;
      }
    }
  }

  lemma BatchNodeIdsLast(dtos: seq<AnomalyScoreDto>)
    requires dtos != []
    ensures BatchNodeIds(dtos) == BatchNodeIds(dtos[..|dtos| - 1]) + {dtos[|dtos| - 1].nodeId}
  {
    var front := dtos[..|dtos| - 1];
    forall x | x in BatchNodeIds(dtos) ensures x in BatchNodeIds(front) + {dtos[|dtos| - 1].nodeId} {
      var i :| 0 <= i < |dtos| && dtos[i].nodeId == x;
      if i < |front| { assert front[i] == dtos[i]; }
    }
    forall x | x in BatchNodeIds(front) ensures x in BatchNodeIds(dtos) {
      var i :| 0 <= i < |front| && front[i].nodeId == x;
      assert front[i] == dtos[i];
    }
  }

  /** Valid stores stay valid through a whole batch, and end up holding every node id the batch names. */
  lemma {:induction false} UpsertAllValid(s: ScoreStore, dtos: seq<AnomalyScoreDto>, clock: nat -> int)
    requires ScoreStoreValid(s)
    ensures var r := UpsertAll(s, dtos, clock);
      && ScoreStoreValid(r)
      && NodeIds(r.records) == NodeIds(s.records) + BatchNodeIds(dtos)
  {
    if dtos != [] {
      var front := dtos[..|dtos| - 1];
      UpsertAllValid(s, front, clock);
      UpsertFacts(UpsertAll(s, front, clock), dtos[|dtos| - 1], clock(|dtos| - 1));
      BatchNodeIdsLast(dtos);
    }
  }

  /**
   * A batch never drops a record or reassigns a key, and a record whose
   * node id the batch does not name is left exactly as it was.
   */
  lemma {:induction false} UpsertAllKeepsOthers(s: ScoreStore, dtos: seq<AnomalyScoreDto>, clock: nat -> int)
    requires ScoreStoreValid(s)
    ensures var r := UpsertAll(s, dtos, clock);
      && |s.records| <= |r.records|
      && (forall i :: 0 <= i < |s.records| ==> r.records[i].id == s.records[i].id)
      && (forall i :: 0 <= i < |s.records| && s.records[i].nodeId !in BatchNodeIds(dtos) ==>
            r.records[i] == s.records[i])
  {
    if dtos != [] {
      var front := dtos[..|dtos| - 1];
      UpsertAllKeepsOthers(s, front, clock);
      UpsertAllValid(s, front, clock);
      UpsertFacts(UpsertAll(s, front, clock), dtos[|dtos| - 1], clock(|dtos| - 1));
      BatchNodeIdsLast(dtos);
    }
  }

  /** The last DTO of a batch carrying a given node id. */
  function LastFor(dtos: seq<AnomalyScoreDto>, nodeId: Option<int>): (r: Option<nat>)
    ensures r.Some? ==> r.value < |dtos| && dtos[r.value].nodeId == nodeId
    ensures r.Some? ==> forall i :: r.value < i < |dtos| ==> dtos[i].nodeId != nodeId
    ensures r.None? ==> forall i :: 0 <= i < |dtos| ==> dtos[i].nodeId != nodeId
  {
    if dtos == [] then None
    else if dtos[|dtos| - 1].nodeId == nodeId then Some(|dtos| - 1)
    else LastFor(dtos[..|dtos| - 1], nodeId)
  }

  /**
   * After a batch, the record holding a node id the batch names carries
   * exactly the fields of the last DTO for that id, and the clock reading
   * of that DTO's save (with unique node ids there is exactly one such record).
   */
  lemma {:induction false} LastDtoWins(s: ScoreStore, dtos: seq<AnomalyScoreDto>, clock: nat -> int, key: Option<int>)
    requires ScoreStoreValid(s)
    requires key in BatchNodeIds(dtos)
    ensures var r := UpsertAll(s, dtos, clock);
      var j := LastFor(dtos, key).value;
      forall i :: 0 <= i < |r.records| && r.records[i].nodeId == key ==>
        r.records[i] == Assign(r.records[i], dtos[j], clock(j))
  {
    var front, d := dtos[..|dtos| - 1], dtos[|dtos| - 1];
    var mid := UpsertAll(s, front, clock);
    UpsertAllValid(s, front, clock);
    UpsertFacts(mid, d, clock(|dtos| - 1));
    var r := UpsertAll(s, dtos, clock);
    assert r == Upsert(mid, d, clock(|dtos| - 1));
    if d.nodeId == key {
      assert LastFor(dtos, key) == Some(|dtos| - 1);
    } else {
      BatchNodeIdsLast(dtos);
      assert LastFor(dtos, key) == LastFor(front, key);
      var j := LastFor(front, key).value;
      assert front[j] == dtos[j];
      LastDtoWins(s, front, clock, key);
      forall i | 0 <= i < |r.records| && r.records[i].nodeId == key
        ensures r.records[i] == Assign(r.records[i], dtos[j], clock(j))
      {
        assert i < |mid.records| && r.records[i] == mid.records[i];
      }
    }
  }

  /** In a store without duplicate node ids there are as many records as node ids. */
  lemma {:induction false} UniqueCount(rs: seq<AnomalyScore>)
    requires UniqueNodeIds(rs)
    ensures |NodeIds(rs)| == |rs|
  {
    if rs != [] {
      var front := rs[..|rs| - 1];
      assert NodeIds(rs) == NodeIds(front) + {rs[|rs| - 1].nodeId} by {
        forall x | x in NodeIds(rs) ensures x in NodeIds(front) + {rs[|rs| - 1].nodeId} {
          var i :| 0 <= i < |rs| && rs[i].nodeId == x;
          if i < |front| { assert front[i] == rs[i]; }
        }
        forall x | x in NodeIds(front) ensures x in NodeIds(rs) {
          var i :| 0 <= i < |front| && front[i].nodeId == x;
          assert front[i] == rs[i];
        }
      }
      assert rs[|rs| - 1].nodeId !in NodeIds(front) by {
        forall i | 0 <= i < |front| ensures front[i].nodeId != rs[|rs| - 1].nodeId {
          assert rs[i] == front[i];
        }
      }
      UniqueCount(front);
    }
  }

  /**
   * A batch adds exactly one record per node id it names that the store
   * did not hold, so running the same batch again adds nothing, and an
   * empty batch leaves the store as it was.
   */
  lemma BatchGrowth(s: ScoreStore, dtos: seq<AnomalyScoreDto>, clock: nat -> int, clock2: nat -> int)
    requires ScoreStoreValid(s)
    ensures var r := UpsertAll(s, dtos, clock);
      && |r.records| == |s.records| + |BatchNodeIds(dtos) - NodeIds(s.records)|
      && |UpsertAll(r, dtos, clock2).records| == |r.records|
      && (dtos == [] ==> r == s)
  {
    var r := UpsertAll(s, dtos, clock);
    UpsertAllValid(s, dtos, clock);
    UniqueCount(s.records);
    UniqueCount(r.records);
    var a, b := NodeIds(s.records), BatchNodeIds(dtos);
    assert a + b == a + (b - a);
    assert a * (b - a) == {};
    UpsertAllValid(r, dtos, clock2);
    var r2 := UpsertAll(r, dtos, clock2);
    UniqueCount(r2.records);
    assert NodeIds(r2.records) == NodeIds(r.records);
  }

  /** The anomaly_scores collection behind AnomalyScoreService. */
  class AnomalyScoreService {
    var records: seq<AnomalyScore>
    var nextId: nat

    ghost predicate Valid()
      reads this
    {
      ScoreStoreValid(ScoreStore(records, nextId))
    }

    constructor (existing: seq<AnomalyScore>, nextId: nat)
      requires ScoreStoreValid(ScoreStore(existing, nextId))
      ensures Valid() && records == existing && this.nextId == nextId
    {
      records := existing;
      this.nextId := nextId;
    }

    /** findByNodeId: scans the collection for the first record with that node id. */
    method FindByNodeId(nodeId: Option<int>) returns (found: Option<nat>)
      ensures found == IndexOf(records, nodeId)
    {
      var i := 0;
      while i < |records|
        invariant 0 <= i <= |records|
        invariant forall j :: 0 <= j < i ==> records[j].nodeId != nodeId
      {
        if records[i].nodeId == nodeId {
          IndexOfFirst(records, nodeId, i);
          return Some(i);
        }
        i := i + 1;
      }
      IndexOfAbsent(records, nodeId);
      return None;
    }

    /** One DTO of a batch: find the record for its node id or start a blank one, assign, save. */
    method SaveOne(dto: AnomalyScoreDto, at: int)
      requires Valid()
      modifies this
      ensures Valid()
      ensures ScoreStore(records, nextId) == Upsert(ScoreStore(old(records), old(nextId)), dto, at)
    {
      var found := FindByNodeId(dto.nodeId);
      var existing := if found.Some? then records[found.value] else Blank(nextId);
      var saved := Assign(existing, dto, at);
      UpsertFacts(ScoreStore(records, nextId), dto, at);
      if found.Some? {
        records := records[found.value := saved];
      } else {
        records := records + [saved];
        nextId := nextId + 1;
      }
    }

    /** saveBatch: each DTO in turn, the i-th saved at clock(i). */
    method SaveBatch(dtos: seq<AnomalyScoreDto>, clock: nat -> int)
      requires Valid()
      modifies this
      ensures Valid()
      ensures ScoreStore(records, nextId) == UpsertAll(ScoreStore(old(records), old(nextId)), dtos, clock)
    {
      var n := 0;
      while n < |dtos|
        invariant 0 <= n <= |dtos| && Valid()
        invariant ScoreStore(records, nextId) == UpsertAll(ScoreStore(old(records), old(nextId)), dtos[..n], clock)
      {
        SaveOne(dtos[n], clock(n));
        assert dtos[..n + 1][..n] == dtos[..n];
        n := n + 1;
      }
      assert dtos[..n] == dtos;
    }
  }

  lemma IndexOfFirst(rs: seq<AnomalyScore>, nodeId: Option<int>, i: nat)
    requires i < |rs| && rs[i].nodeId == nodeId
    requires forall j :: 0 <= j < i ==> rs[j].nodeId != nodeId
    ensures IndexOf(rs, nodeId) == Some(i)
  {
    var r := IndexOf(rs, nodeId);
    assert nodeId in NodeIds(rs);
  }

  lemma IndexOfAbsent(rs: seq<AnomalyScore>, nodeId: Option<int>)
    requires forall j :: 0 <= j < |rs| ==> rs[j].nodeId != nodeId
    ensures IndexOf(rs, nodeId) == None
  {
  }

  // ---------------------------------------------------------------
  // shap_explanations and fraud explanations: append one per DTO
  // ---------------------------------------------------------------

  /** ShapExplanationDTO; a null list of factors is None. */
  datatype ShapExplanationDto = ShapExplanationDto(
    nodeId: Option<int>,
    anomalyScore: real,
    topFactors: Option<seq<map<string, real>>>,
    model: Option<string>,
    source: Option<string>)

  /** A document of shap_explanations. */
  datatype ShapExplanation = ShapExplanation(
    id: nat,
    nodeId: Option<int>,
    anomalyScore: real,
    topFactors: Option<seq<map<string, real>>>,
    model: Option<string>,
    source: Option<string>,
    updatedAt: int)

  /** The records a SHAP batch adds, keys handed out from `first` on. */
  function ShapAppended(payload: seq<ShapExplanationDto>, first: nat, clock: nat -> int): (r: seq<ShapExplanation>)
    ensures |r| == |payload|
  {
    if payload == [] then []
    else
      var n := |payload| - 1;
      var d := payload[n];
      ShapAppended(payload[..n], first, clock)
        + [ShapExplanation(first + n, d.nodeId, d.anomalyScore, d.topFactors, d.model, d.source, clock(n))]
  }

  /** The i-th new SHAP record copies the i-th DTO, under key first + i and the i-th clock reading. */
  lemma {:induction false} ShapAppendedCopies(payload: seq<ShapExplanationDto>, first: nat, clock: nat -> int, i: nat)
    requires i < |payload|
    ensures var r := ShapAppended(payload, first, clock)[i];
      && r.id == first + i && r.updatedAt == clock(i)
      && r.nodeId == payload[i].nodeId && r.anomalyScore == payload[i].anomalyScore
      && r.topFactors == payload[i].topFactors
      && r.model == payload[i].model && r.source == payload[i].source
  {
    var n := |payload| - 1;
    if i < n {
      ShapAppendedCopies(payload[..n], first, clock, i);
      assert payload[..n][i] == payload[i];
    }
  }

  const SHAP_STORED := "SHAP explanations stored successfully"

  /** ShapExplanationController over the shap_explanations collection. */
  class ShapExplanationController {
    var records: seq<ShapExplanation>
    var nextId: nat

    ghost predicate Valid()
      reads this
    {
      forall i :: 0 <= i < |records| ==> records[i].id < nextId
    }

    constructor ()
      ensures Valid() && records == [] && nextId == 0
    {
      records := [];
      nextId := 0;
    }

    /** saveBatch: a new entity per DTO, fields copied by the setters, each saved under a fresh key. */
    method SaveBatch(payload: seq<ShapExplanationDto>, clock: nat -> int) returns (message: string)
      requires Valid()
      modifies this
      ensures Valid() && message == SHAP_STORED
      ensures records == old(records) + ShapAppended(payload, old(nextId), clock)
      ensures nextId == old(nextId) + |payload|
    {
      var n := 0;
      while n < |payload|
        invariant 0 <= n <= |payload| && Valid()
        invariant records == old(records) + ShapAppended(payload[..n], old(nextId), clock)
        invariant nextId == old(nextId) + n
      {
        var dto := payload[n];
        var e := ShapExplanation(nextId, dto.nodeId, dto.anomalyScore, dto.topFactors, dto.model, dto.source, clock(n));
        assert payload[..n + 1][..n] == payload[..n];
        assert ShapAppended(payload[..n + 1], old(nextId), clock) == ShapAppended(payload[..n], old(nextId), clock) + [e];
        records := records + [e];
        nextId := nextId + 1;
        n := n + 1;
      }
      assert payload[..n] == payload;
      message := SHAP_STORED;
    }
  }

  /** FraudExplanationDTO; a null list of reasons is None. */
  datatype FraudExplanationDto = FraudExplanationDto(
    nodeId: Option<int>,
    reasons: Option<seq<string>>,
    source: Option<string>)

  /** A fraud explanation document: the fields the controller assigns, and its key. */
  datatype FraudExplanation = FraudExplanation(
    id: nat,
    nodeId: Option<int>,
    reasons: Option<seq<string>>,
    source: Option<string>,
    updatedAt: int)

  /** The records a fraud explanation batch adds, keys handed out from `first` on. */
  function FraudAppended(payload: seq<FraudExplanationDto>, first: nat, clock: nat -> int): (r: seq<FraudExplanation>)
    ensures |r| == |payload|
  {
    if payload == [] then []
    else
      var n := |payload| - 1;
      var d := payload[n];
      FraudAppended(payload[..n], first, clock) + [FraudExplanation(first + n, d.nodeId, d.reasons, d.source, clock(n))]
  }

  /**
   * The i-th new fraud explanation copies the i-th DTO, its reasons list as
   * given and in the same order, under key first + i.
   */
  lemma {:induction false} FraudAppendedCopies(payload: seq<FraudExplanationDto>, first: nat, clock: nat -> int, i: nat)
    requires i < |payload|
    ensures var r := FraudAppended(payload, first, clock)[i];
      && r.id == first + i && r.updatedAt == clock(i)
      && r.nodeId == payload[i].nodeId && r.reasons == payload[i].reasons
      && r.source == payload[i].source
  {
    var n := |payload| - 1;
    if i < n {
      FraudAppendedCopies(payload[..n], first, clock, i);
      assert payload[..n][i] == payload[i];
    }
  }

  const FRAUD_STORED := "Fraud explanations stored successfully"

  /** FraudExplanationController over its collection. */
  class FraudExplanationController {
    var records: seq<FraudExplanation>
    var nextId: nat

    ghost predicate Valid()
      reads this
    {
      forall i :: 0 <= i < |records| ==> records[i].id < nextId
    }

    constructor ()
      ensures Valid() && records == [] && nextId == 0
    {
      records := [];
      nextId := 0;
    }

    /** saveBatch: a new entity per DTO with node id, reasons and source, each saved under a fresh key. */
    method SaveBatch(payload: seq<FraudExplanationDto>, clock: nat -> int) returns (message: string)
      requires Valid()
      modifies this
      ensures Valid() && message == FRAUD_STORED
      ensures records == old(records) + FraudAppended(payload, old(nextId), clock)
      ensures nextId == old(nextId) + |payload|
    {
      var n := 0;
      while n < |payload|
        invariant 0 <= n <= |payload| && Valid()
        invariant records == old(records) + FraudAppended(payload[..n], old(nextId), clock)
        invariant nextId == old(nextId) + n
      {
        var dto := payload[n];
        var f := FraudExplanation(nextId, dto.nodeId, dto.reasons, dto.source, clock(n));
        assert payload[..n + 1][..n] == payload[..n];
        assert FraudAppended(payload[..n + 1], old(nextId), clock) == FraudAppended(payload[..n], old(nextId), clock) + [f];
        records := records + [f];
        nextId := nextId + 1;
        n := n + 1;
      }
      assert payload[..n] == payload;
      message := FRAUD_STORED;
    }
  }

  /** A batch names at most as many node ids as it has DTOs. */
  lemma {:induction false} BatchNodeIdsBound(dtos: seq<AnomalyScoreDto>)
    ensures |BatchNodeIds(dtos)| <= |dtos|
  {
    if dtos != [] {
      BatchNodeIdsLast(dtos);
      BatchNodeIdsBound(dtos[..|dtos| - 1]);
    }
  }

  /**
   * Upsert against append: the same DTOs grow the score store by at most
   * the number of distinct node ids they name, and not at all when every
   * id is already stored, while the SHAP store always grows by one record
   * per DTO, so two DTOs for one node give one score and two explanations.
   */
  lemma UpsertVersusAppend(s: ScoreStore, dtos: seq<AnomalyScoreDto>, shap: seq<ShapExplanationDto>,
                           first: nat, clock: nat -> int)
    requires ScoreStoreValid(s)
    requires |shap| == |dtos|
    ensures |UpsertAll(s, dtos, clock).records| - |s.records| <= |BatchNodeIds(dtos)| <= |ShapAppended(shap, first, clock)|
    ensures BatchNodeIds(dtos) <= NodeIds(s.records) ==> |UpsertAll(s, dtos, clock).records| == |s.records|
  {
    BatchGrowth(s, dtos, clock, clock);
    BatchNodeIdsBound(dtos);
    var a, b := NodeIds(s.records), BatchNodeIds(dtos);
    assert b - a <= b;
    if b <= a {
      assert b - a == {};
    }
  }
}
