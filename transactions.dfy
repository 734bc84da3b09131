/**
 * Transfers as the backend accepts them: the Transaction entity with its
 * `from` factory and setters, the newtransactions collection, and
 * TransactionService.createTransaction, which saves a transfer and then
 * updates both accounts in the ledger.
 */
module Transactions {
  import opened Wrappers
  import opened Text
  import Ledger

  /** The request body; a JSON null or absent field is None. */
  datatype TransactionRequest = TransactionRequest(
    sourceAccount: Option<string>,
    targetAccount: Option<string>,
    amount: Option<real>)

  /** A document of the newtransactions collection. */
  datatype StoredTransaction = StoredTransaction(
    id: nat,
    sourceAccount: Option<string>,
    targetAccount: Option<string>,
    amount: Option<real>,
    suspectedFraud: bool,
    riskScore: Option<real>,
    verdict: Option<string>)

  /** The Transaction entity. `id` is the store's key, None until it is saved. */
  class Transaction {
    var id: Option<nat>
    var sourceAccount: Option<string>
    var targetAccount: Option<string>
    var amount: Option<real>
    var suspectedFraud: bool
    var riskScore: Option<real>
    var verdict: Option<string>

    /** The public no-argument constructor: every reference field null, the flag false. */
    constructor ()
      ensures id == None && sourceAccount == None && targetAccount == None && amount == None
      ensures !suspectedFraud && riskScore == None && verdict == None
    {
      id := None;
      sourceAccount := None;
      targetAccount := None;
      amount := None;
      suspectedFraud := false;
      riskScore := None;
      verdict := None;
    }

    /**
     * Transaction.from: accounts copied as given, a missing amount replaced
     * by zero, and every new transfer starts unsuspected, scored 0 and PENDING.
     */
    static method From(request: TransactionRequest) returns (tx: Transaction)
      ensures fresh(tx)
      ensures tx.id == None
      ensures tx.sourceAccount == request.sourceAccount && tx.targetAccount == request.targetAccount
      ensures request.amount.None? ==> tx.amount == Some(0.0)
      ensures request.amount.Some? ==> tx.amount == request.amount
      ensures !tx.suspectedFraud && tx.riskScore == Some(0.0) && tx.verdict == Some("PENDING")
    {
      tx := new Transaction();
      tx.sourceAccount := request.sourceAccount;
      tx.targetAccount := request.targetAccount;
      if request.amount.None? {
        tx.amount := Some(0.0);
      } else {
        tx.amount := request.amount;
      }
      tx.suspectedFraud := false;
      tx.riskScore := Some(0.0);
      tx.verdict := Some("PENDING");
    }

    /** Each setter may write its own field only (the frame says so). */
    method SetSuspectedFraud(suspected: bool)
      modifies this`suspectedFraud
      ensures suspectedFraud == suspected
    {
      suspectedFraud := suspected;
    }

    method SetRiskScore(score: Option<real>)
      modifies this`riskScore
      ensures riskScore == score
    {
      riskScore := score;
    }

    method SetVerdict(v: Option<string>)
      modifies this`verdict
      ensures verdict == v
    {
      verdict := v;
    }

    /** The document this entity is written as under the given key. */
    function AsStored(key: nat): StoredTransaction
      reads this
    {
      StoredTransaction(key, sourceAccount, targetAccount, amount, suspectedFraud, riskScore, verdict)
    }
  }

  /** The newtransactions collection; keys are handed out from a counter. */
  class TransactionRepository {
    var docs: seq<StoredTransaction>
    var nextId: nat

    ghost predicate Valid()
      reads this
    {
      forall i :: 0 <= i < |docs| ==> docs[i].id < nextId
    }

    constructor ()
      ensures Valid() && docs == [] && nextId == 0
    {
      docs := [];
      nextId := 0;
    }

    /** save of an entity without a key: insert it under a fresh key and write the key back. */
    method Save(tx: Transaction) returns (saved: Transaction)
      requires Valid() && tx.id == None
      modifies this, tx`id
      ensures Valid() && saved == tx
      ensures tx.id == Some(old(nextId)) && nextId == old(nextId) + 1
      ensures docs == old(docs) + [tx.AsStored(old(nextId))]
    {
      tx.id := Some(nextId);
      docs := docs + [tx.AsStored(nextId)];
      nextId := nextId + 1;
      saved := tx;
    }
  }

  /** What createTransaction does, in the order it does it. */
  datatype Effect = Saved(key: nat) | LedgerUpdate(update: Ledger.Update)

  /** Long.parseLong rejected an account string (the string, or None for null). */
  datatype CreateError = NumberFormat(input: Option<string>)

  class TransactionService {
    const repository: TransactionRepository
    const ledger: Ledger.NodeEnrichedService
    ghost var effects: seq<Effect>

    ghost predicate Valid()
      reads this, repository, ledger
    {
      repository.Valid() && ledger.Valid()
    }

    constructor (repository: TransactionRepository, ledger: Ledger.NodeEnrichedService)
      requires repository.Valid() && ledger.Valid()
      ensures Valid() && this.repository == repository && this.ledger == ledger && effects == []
    {
      this.repository := repository;
      this.ledger := ledger;
      effects := [];
    }

    /**
     * createTransaction: build the entity, parse both account strings as
     * longs, save the transfer, then one outgoing update for the source and
     * one incoming update for the target, both with the transfer's amount.
     * The result is the saved entity itself.
     */
    method CreateTransaction(request: TransactionRequest, now: int) returns (r: Result<Transaction, CreateError>)
      requires Valid()
      modifies this, repository, ledger
      ensures Valid() && ledger.initial == old(ledger.initial)
      ensures r.Err? <==> ParseLong(request.sourceAccount).None? || ParseLong(request.targetAccount).None?
      ensures r.Err? ==> r.error == NumberFormat(
        if ParseLong(request.sourceAccount).None? then request.sourceAccount else request.targetAccount)
      ensures r.Err? ==>
        && repository.docs == old(repository.docs) && repository.nextId == old(repository.nextId)
        && ledger.table == old(ledger.table) && ledger.history == old(ledger.history)
        && effects == old(effects)
      ensures r.Ok? ==>
        var key := old(repository.nextId);
        var amount := request.amount.GetOr(0.0);
        var out := Ledger.Update(Ledger.Outgoing, ParseLong(request.sourceAccount).value, amount, now);
        var inc := Ledger.Update(Ledger.Incoming, ParseLong(request.targetAccount).value, amount, now);
        && fresh(r.value) && r.value.id == Some(key)
        && r.value.sourceAccount == request.sourceAccount && r.value.targetAccount == request.targetAccount
        && r.value.amount == Some(amount) && !r.value.suspectedFraud
        && r.value.riskScore == Some(0.0) && r.value.verdict == Some("PENDING")
        && repository.docs == old(repository.docs) + [StoredTransaction(
             key, request.sourceAccount, request.targetAccount, Some(amount), false, Some(0.0), Some("PENDING"))]
        && r.value.AsStored(key) == repository.docs[|repository.docs| - 1]
        && ledger.history == old(ledger.history) + [out, inc]
        && ledger.table == Ledger.Apply(Ledger.Apply(old(ledger.table), out), inc)
        && effects == old(effects) + [Saved(key), LedgerUpdate(out), LedgerUpdate(inc)]
    {
      var tx := Transaction.From(request);
      var source := ParseLong(tx.sourceAccount);
      var target := ParseLong(tx.targetAccount);
      if source.None? || target.None? {
        r := Err(NumberFormat(if source.None? then tx.sourceAccount else tx.targetAccount));
      } else {
        var saved := Record(tx, source.value, target.value, now);
        r := Ok(saved);
      }
    }

    /** The part of createTransaction after both accounts parsed: save, then the two ledger updates. */
    method Record(tx: Transaction, source: int, target: int, now: int) returns (saved: Transaction)
      requires Valid() && tx.id == None && tx.amount.Some?
      modifies this, repository, ledger, tx`id
      ensures Valid() && ledger.initial == old(ledger.initial)
      ensures
        var key := old(repository.nextId);
        var out := Ledger.Update(Ledger.Outgoing, source, tx.amount.value, now);
        var inc := Ledger.Update(Ledger.Incoming, target, tx.amount.value, now);
        && saved == tx && tx.id == Some(key)
        && repository.docs == old(repository.docs) + [tx.AsStored(key)]
        && ledger.history == old(ledger.history) + [out, inc]
        && ledger.table == Ledger.Apply(Ledger.Apply(old(ledger.table), out), inc)
        && effects == old(effects) + [Saved(key), LedgerUpdate(out), LedgerUpdate(inc)]
    {
      var amount := tx.amount.value;
      saved := repository.Save(tx);
      effects := effects + [Saved(saved.id.value)];
      ledger.HandleOutgoing(source, amount, now);
      effects := effects + [LedgerUpdate(Ledger.Update(Ledger.Outgoing, source, amount, now))];
      ledger.HandleIncoming(target, amount, now);
      effects := effects + [LedgerUpdate(Ledger.Update(Ledger.Incoming, target, amount, now))];
    }
  }

  /** A transfer without an amount moves neither account's totals. */
  lemma MissingAmountMovesNoTotals(t: Ledger.Table, source: int, target: int, now: int)
    ensures
      var after := Ledger.Apply(Ledger.Apply(t, Ledger.Update(Ledger.Outgoing, source, 0.0, now)),
                                Ledger.Update(Ledger.Incoming, target, 0.0, now));
      && after[source].totalOutgoing == Ledger.Base(t, source).totalOutgoing
      && after[target].totalIncoming == Ledger.Base(t, target).totalIncoming
  {
  }
}
