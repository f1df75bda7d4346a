/** The policy engine: evaluates a request against the history of its target and registers the outcome. */
module PolicyEngine {
  import opened Options
  import opened PolicyTypes
  import opened PolicyLedger
  import opened PolicyRules

  datatype PolicyEvent = PolicyEvent(
    transactionID: TxId,
    isAuthorized: bool,
    matchedRules: seq<RuleName>,
    rejectionReason: Option<RuleName>,
    targetPID: Pid,
    containerName: string,
    status: Status,
    historicalInterventions: nat,
    cooldownSeconds: int)

  function InitialStatus(v: Verdict): Status {
    if v.authorized then AuthorizedPending else Rejected
  }

  /** The record that a verdict leaves in the ledger. */
  function RecordFor(l: Ledger, intent: Intent, v: Verdict, cooldown: int, now: Nanos, txID: TxId): Record {
    NewRecord(txID, now, intent, InitialStatus(v), v.matched, cooldown, v.rejection, |IdsOf(l, intent.targetPID)|)
  }

  /** The record of a request, field by field. */
  lemma RecordMeaning(l: Ledger, intent: Intent, v: Verdict, cooldown: nat, now: Nanos, txID: TxId)
    requires WellIndexed(l) && txID !in l.records && (v.authorized <==> v.rejection.None?)
    ensures var r := RecordFor(l, intent, v, cooldown, now, txID);
            && Insert(l, r).records - {txID} == l.records && r.transactionID == txID
            && r.targetPID == intent.targetPID && r.containerID == intent.containerID
            && r.processName == intent.processName && r.actionType == intent.actionType
            && r.status == (if v.authorized then AuthorizedPending else Rejected)
            && r.matchedRules == v.matched && r.rejectionReason == v.rejection
            && r.timestamp == now && r.cooldownSeconds == cooldown && r.expiry == now + cooldown * 1_000_000_000
            && r.historicalCount == |set id | id in l.records && l.records[id].targetPID == intent.targetPID|
  {
    IndexCountsAll(l, intent.targetPID);
  }

  function EventFor(r: Record, authorized: bool): PolicyEvent {
    PolicyEvent(r.transactionID, authorized, r.matchedRules, r.rejectionReason, r.targetPID, r.containerID,
                r.status, r.historicalCount, r.cooldownSeconds)
  }

  class Engine {
    const evaluator: RuleEvaluator
    const ledger: TransactionLedger
    var events: seq<PolicyEvent>
    const bufferSize: nat

    ghost predicate Valid()
      reads this, ledger
    {
      WellIndexed(ledger.View())
    }

    constructor (evaluator: RuleEvaluator, ledger: TransactionLedger, capacity: nat)
      requires WellIndexed(ledger.View())
      ensures this.evaluator == evaluator && this.ledger == ledger && events == [] && Valid()
      ensures bufferSize == if capacity == 0 then 64 else capacity
    {
      this.evaluator, this.ledger := evaluator, ledger;
      events := [];
      bufferSize := if capacity == 0 then 64 else capacity;
    }

    /** The count is read at `countedAt`, the record is stamped at `stampedAt`; the ledger lock is free in between. */
    method EvaluateAndRegister(intent: Intent, countedAt: Nanos, stampedAt: Nanos, freshID: TxId)
      returns (authorized: bool, txID: TxId, event: PolicyEvent)
      requires Valid() && freshID !in ledger.records
      modifies this`events, ledger
      ensures Valid() && txID == freshID
      ensures var v := Evaluate(evaluator.View(), intent,
                                |UnexpiredFor(old(ledger.View()), intent.targetPID, countedAt)|);
              var r := RecordFor(old(ledger.View()), intent, v, ledger.cooldownSecs, stampedAt, freshID);
              && authorized == v.authorized
              && ledger.View() == Insert(old(ledger.View()), r)
              && event == EventFor(r, v.authorized)
      ensures var l := old(ledger.records);
              var history := set id | id in l && l[id].targetPID == intent.targetPID && countedAt <= l[id].expiry;
              authorized <==> !Protected(evaluator.View(), intent) && |history| < evaluator.maxActionsPerPID
      ensures txID in ledger.records && ledger.records - {txID} == old(ledger.records)
      ensures var r := ledger.records[txID];
              && r.transactionID == txID && r.targetPID == intent.targetPID && r.containerID == intent.containerID
              && r.processName == intent.processName && r.actionType == intent.actionType
              && r.status == (if authorized then AuthorizedPending else Rejected)
              && (authorized <==> r.rejectionReason.None?)
              && (authorized ==> r.matchedRules == [PidBoundary, SystemBlacklist])
              && r.timestamp == stampedAt && r.cooldownSeconds == ledger.cooldownSecs
              && r.expiry == stampedAt + ledger.cooldownSecs * 1_000_000_000
              && r.historicalCount
                 == |set id | id in old(ledger.records) && old(ledger.records)[id].targetPID == intent.targetPID|
      ensures var r := ledger.records[txID];
              && event.transactionID == txID && event.isAuthorized == authorized && event.status == r.status
              && event.matchedRules == r.matchedRules && event.rejectionReason == r.rejectionReason
              && event.targetPID == r.targetPID && event.containerName == r.containerID
              && event.historicalInterventions == r.historicalCount && event.cooldownSeconds == r.cooldownSeconds
      ensures events == if |old(events)| < bufferSize then old(events) + [event] else old(events)
    {
      var historicalCount := ledger.HistoricalCount(intent.targetPID, countedAt);
      var v := Evaluate(evaluator.View(), intent, historicalCount);
      authorized := v.authorized;
      VerdictMeaning(evaluator.View(), intent, historicalCount);
      RecordMeaning(ledger.View(), intent, v, ledger.cooldownSecs, stampedAt, freshID);
      var status, reason := Rejected, v.rejection;
      if authorized {
        status, reason := AuthorizedPending, None;
      }
      var record := ledger.Register(intent, status, v.matched, ledger.cooldownSecs, reason, stampedAt, freshID);
      txID := record.transactionID;
      event := EventFor(record, authorized);
      EmitEvent(event);
    }

    method ConfirmExecution(txID: TxId)
      requires Valid()
      modifies ledger
      ensures Valid() && ledger.View() == SetStatus(old(ledger.View()), txID, Executed)
      ensures txID in old(ledger.records) ==> ledger.records[txID].status == Executed
    {
      var _ := ledger.UpdateStatus(txID, Executed);
    }

    method Complete(txID: TxId)
      requires Valid()
      modifies ledger
      ensures Valid() && ledger.View() == SetStatus(old(ledger.View()), txID, Completed)
      ensures txID in old(ledger.records) ==> ledger.records[txID].status == Completed
    {
      var _ := ledger.UpdateStatus(txID, Completed);
    }

    method Reject(txID: TxId)
      requires Valid()
      modifies ledger
      ensures Valid() && ledger.View() == SetStatus(old(ledger.View()), txID, Rejected)
      ensures txID in old(ledger.records) ==> ledger.records[txID].status == Rejected
    {
      var _ := ledger.UpdateStatus(txID, Rejected);
    }

    /** A full event channel drops the event. */
    method EmitEvent(event: PolicyEvent)
      modifies this`events
      ensures events == if |old(events)| < bufferSize then old(events) + [event] else old(events)
    {
      if |events| < bufferSize { events := events + [event]; }
    }
  }
}
