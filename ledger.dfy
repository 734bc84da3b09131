/**
 * The per-account feature ledger of the backend (NodeEnrichedService):
 * a table of NodeEnriched records keyed by account id, updated once per
 * transfer on each side. Amounts and totals are reals, not IEEE doubles.
 */
module Ledger {

  /** One row of the nodes_enriched collection. */
  datatype NodeEnriched = NodeEnriched(
    nodeId: int,
    inDegree: int,
    outDegree: int,
    totalIncoming: real,
    totalOutgoing: real,
    riskRatio: real,
    txVelocity: int,
    accountAgeDays: int,
    balance: real,
    updatedAt: int)

  type Table = map<int, NodeEnriched>

  datatype Direction = Outgoing | Incoming

  /** One call of handleOutgoing or handleIncoming, with the clock reading it used. */
  datatype Update = Update(dir: Direction, nodeId: int, amount: real, at: int)

  /** The ratio recalcRiskRatio derives: outgoing over incoming, or 1 while nothing came in. */
  function RiskRatioOf(totalIncoming: real, totalOutgoing: real): real {
    if totalIncoming == 0.0 then 1.0 else totalOutgoing / totalIncoming
  }

  predicate RatioConsistent(n: NodeEnriched) {
    n.riskRatio == RiskRatioOf(n.totalIncoming, n.totalOutgoing)
  }

  /** A record as createNew leaves it: nothing counted, nothing summed, nothing known. */
  predicate IsFresh(n: NodeEnriched) {
    && n.inDegree == 0 && n.outDegree == 0
    && n.totalIncoming == 0.0 && n.totalOutgoing == 0.0
    && n.riskRatio == 1.0
    && n.txVelocity == 0 && n.accountAgeDays == 0 && n.balance == 0.0
  }

  /** createNew: the record used for an account the table does not hold yet. */
  function CreateNew(nodeId: int, now: int): (n: NodeEnriched)
    ensures n.nodeId == nodeId && n.updatedAt == now
    ensures IsFresh(n) && RatioConsistent(n)
  {
    NodeEnriched(nodeId, 0, 0, 0.0, 0.0, 1.0, 0, 0, 0.0, now)
  }

  /** recalcRiskRatio: only the ratio changes, and afterwards it agrees with the totals. */
  function RecalcRiskRatio(n: NodeEnriched): (r: NodeEnriched)
    ensures RatioConsistent(r)
    ensures r.(riskRatio := n.riskRatio) == n
  {
    if n.totalIncoming == 0.0 then n.(riskRatio := 1.0)
    else n.(riskRatio := n.totalOutgoing / n.totalIncoming)
  }

  /** The body of the flatMap in handleOutgoing / handleIncoming, applied to the found record. */
  function Step(n: NodeEnriched, u: Update): (r: NodeEnriched)
    ensures u.dir == Outgoing ==>
      && r.outDegree == n.outDegree + 1 && r.totalOutgoing == n.totalOutgoing + u.amount
      && r.inDegree == n.inDegree && r.totalIncoming == n.totalIncoming
    ensures u.dir == Incoming ==>
      && r.inDegree == n.inDegree + 1 && r.totalIncoming == n.totalIncoming + u.amount
      && r.outDegree == n.outDegree && r.totalOutgoing == n.totalOutgoing
    ensures RatioConsistent(r)
    ensures r.nodeId == n.nodeId && r.txVelocity == n.txVelocity
    ensures r.accountAgeDays == n.accountAgeDays && r.balance == n.balance
    ensures r.updatedAt == u.at
  {
    var counted :=
      if u.dir == Outgoing then
        n.(outDegree := n.outDegree + 1).(totalOutgoing := n.totalOutgoing + u.amount)
      else
        n.(inDegree := n.inDegree + 1).(totalIncoming := n.totalIncoming + u.amount);
    RecalcRiskRatio(counted).(updatedAt := u.at)
  }

  /** The record findByNodeId(...).defaultIfEmpty(createNew(...)) yields. */
  function FindOrCreate(t: Table, nodeId: int, now: int): NodeEnriched {
    if nodeId in t then t[nodeId] else CreateNew(nodeId, now)
  }

  /** One handler call on the whole table: only the record keyed by the node id is written. */
  function Apply(t: Table, u: Update): (r: Table)
    ensures r.Keys == t.Keys + {u.nodeId}
    ensures forall k :: k in t && k != u.nodeId ==> r[k] == t[k]
  {
    t[u.nodeId := Step(FindOrCreate(t, u.nodeId, u.at), u)]
  }

  /** The table after a sequence of handler calls, oldest first. */
  function Replay(t: Table, us: seq<Update>): Table {
    if us == [] then t else Apply(Replay(t, us[..|us| - 1]), us[|us| - 1])
  }

  /** Number of calls of the given direction for account k. */
  function Count(us: seq<Update>, dir: Direction, k: int): nat {
    if us == [] then 0
    else Count(us[..|us| - 1], dir, k) + (if us[|us| - 1].dir == dir && us[|us| - 1].nodeId == k then 1 else 0)
  }

  /** Sum of the amounts of the calls of the given direction for account k. */
  function Sum(us: seq<Update>, dir: Direction, k: int): real {
    if us == [] then 0.0
    else Sum(us[..|us| - 1], dir, k) + (if us[|us| - 1].dir == dir && us[|us| - 1].nodeId == k then us[|us| - 1].amount else 0.0)
  }

  predicate Touches(us: seq<Update>, k: int) {
    exists i :: 0 <= i < |us| && us[i].nodeId == k
  }

  /** The record an account starts from: its stored row, or a fresh one. */
  function Base(t: Table, k: int): NodeEnriched {
    if k in t then t[k] else CreateNew(k, 0)
  }

  /** A touched account's record holds its base plus every counted call and summed amount. */
  lemma {:induction false} ReplayAccumulates(t: Table, us: seq<Update>, k: int)
    requires k in t || Touches(us, k)
    ensures k in Replay(t, us)
    ensures
      var r, b := Replay(t, us)[k], Base(t, k);
      && r.inDegree == b.inDegree + Count(us, Incoming, k)
      && r.outDegree == b.outDegree + Count(us, Outgoing, k)
      && r.totalIncoming == b.totalIncoming + Sum(us, Incoming, k)
      && r.totalOutgoing == b.totalOutgoing + Sum(us, Outgoing, k)
      && r.nodeId == b.nodeId && r.txVelocity == b.txVelocity
      && r.accountAgeDays == b.accountAgeDays && r.balance == b.balance
  {
    if us != [] {
      var front, u := us[..|us| - 1], us[|us| - 1];
      if k in t || Touches(front, k) {
        ReplayAccumulates(t, front, k);
      } else {
        assert u.nodeId == k;
        NeverTouchedUnchanged(t, front, k);
        ZeroWhenUntouched(front, k);
      }
    }
  }

  /** An account no call names keeps exactly the record (or absence) it had. */
  lemma {:induction false} NeverTouchedUnchanged(t: Table, us: seq<Update>, k: int)
    requires !Touches(us, k)
    ensures (k in Replay(t, us)) == (k in t)
    ensures k in t ==> Replay(t, us)[k] == t[k]
  {
    if us != [] {
      var front := us[..|us| - 1];
      assert !Touches(front, k) by {
        forall i | 0 <= i < |front| ensures front[i].nodeId != k {
          assert front[i] == us[i];
        }
      }
      NeverTouchedUnchanged(t, front, k);
    }
  }

  lemma {:induction false} ZeroWhenUntouched(us: seq<Update>, k: int)
    requires !Touches(us, k)
    ensures Count(us, Incoming, k) == 0 && Count(us, Outgoing, k) == 0
    ensures Sum(us, Incoming, k) == 0.0 && Sum(us, Outgoing, k) == 0.0
  {
    if us != [] {
      var front := us[..|us| - 1];
      assert !Touches(front, k) by {
        forall i | 0 <= i < |front| ensures front[i].nodeId != k {
          assert front[i] == us[i];
        }
      }
      ZeroWhenUntouched(front, k);
    }
  }

  /** Once an account has been updated, its ratio agrees with its totals. */
  lemma {:induction false} TouchedRatioConsistent(t: Table, us: seq<Update>, k: int)
    requires Touches(us, k)
    ensures k in Replay(t, us) && RatioConsistent(Replay(t, us)[k])
  {
    var front, u := us[..|us| - 1], us[|us| - 1];
    if u.nodeId != k {
      assert Touches(front, k) by {
        var i :| 0 <= i < |us| && us[i].nodeId == k;
        assert i < |front| && front[i] == us[i];
      }
      TouchedRatioConsistent(t, front, k);
    }
  }

  /**
   * Starting from an empty ledger, an account's degrees are the numbers of
   * incoming and outgoing calls naming it and its totals the sums of their
   * amounts; its velocity, age and balance stay zero.
   */
  lemma DegreesCountCalls(us: seq<Update>, k: int)
    requires Touches(us, k)
    ensures k in Replay(map[], us)
    ensures
      var r := Replay(map[], us)[k];
      && r.inDegree == Count(us, Incoming, k) && r.outDegree == Count(us, Outgoing, k)
      && r.totalIncoming == Sum(us, Incoming, k) && r.totalOutgoing == Sum(us, Outgoing, k)
      && r.txVelocity == 0 && r.accountAgeDays == 0 && r.balance == 0.0
      && RatioConsistent(r)
  {
    ReplayAccumulates(map[], us, k);
    TouchedRatioConsistent(map[], us, k);
  }

  /** The first call for an account the table does not hold starts from a fresh record. */
  lemma FirstUpdateStartsFresh(t: Table, u: Update)
    requires u.nodeId !in t
    ensures
      var r := Apply(t, u)[u.nodeId];
      && r.nodeId == u.nodeId && r.txVelocity == 0 && r.accountAgeDays == 0 && r.balance == 0.0
      && r.inDegree == (if u.dir == Incoming then 1 else 0)
      && r.outDegree == (if u.dir == Outgoing then 1 else 0)
      && r.totalIncoming == (if u.dir == Incoming then u.amount else 0.0)
      && r.totalOutgoing == (if u.dir == Outgoing then u.amount else 0.0)
      && r.riskRatio == (if u.dir == Incoming && u.amount != 0.0 then 0.0 else 1.0)
  {
  }

  /**
   * NodeEnrichedService over its repository. `table` is the nodes_enriched
   * collection; the ghost `history` lists every handler call so far.
   */
  class NodeEnrichedService {
    var table: Table
    ghost var initial: Table
    ghost var history: seq<Update>

    ghost predicate Valid()
      reads this
    {
      table == Replay(initial, history)
    }

    constructor (existing: Table)
      ensures Valid() && table == existing && initial == existing && history == []
    {
      table := existing;
      initial := existing;
      history := [];
    }

    /** handleOutgoing: one more outgoing transfer of `amount` for `nodeId`. */
    method HandleOutgoing(nodeId: int, amount: real, now: int)
      requires Valid()
      modifies this
      ensures Valid() && initial == old(initial)
      ensures history == old(history) + [Update(Outgoing, nodeId, amount, now)]
      ensures table == Apply(old(table), Update(Outgoing, nodeId, amount, now))
    {
      ghost var u := Update(Outgoing, nodeId, amount, now);
      var found := if nodeId in table then table[nodeId] else CreateNew(nodeId, now);
      var node := found.(outDegree := found.outDegree + 1);
      node := node.(totalOutgoing := node.totalOutgoing + amount);
      node := RecalcRiskRatio(node);
      node := node.(updatedAt := now);
      assert node == Step(FindOrCreate(table, nodeId, now), u);
      table := table[nodeId := node];
      history := history + [u];
      assert history[..|history| - 1] == old(history);
      assert Replay(initial, history) == Apply(old(table), u);
    }

    /** handleIncoming: one more incoming transfer of `amount` for `nodeId`. */
    method HandleIncoming(nodeId: int, amount: real, now: int)
      requires Valid()
      modifies this
      ensures Valid() && initial == old(initial)
      ensures history == old(history) + [Update(Incoming, nodeId, amount, now)]
      ensures table == Apply(old(table), Update(Incoming, nodeId, amount, now))
    {
      ghost var u := Update(Incoming, nodeId, amount, now);
      var found := if nodeId in table then table[nodeId] else CreateNew(nodeId, now);
      var node := found.(inDegree := found.inDegree + 1);
      node := node.(totalIncoming := node.totalIncoming + amount);
      node := RecalcRiskRatio(node);
      node := node.(updatedAt := now);
      assert node == Step(FindOrCreate(table, nodeId, now), u);
      table := table[nodeId := node];
      history := history + [u];
      assert history[..|history| - 1] == old(history);
      assert Replay(initial, history) == Apply(old(table), u);
    }
  }
}
