/** The mitigator: freezes processes on authorised alerts and keeps a ledger of what can be reversed. */
module Mitigation {
  import opened Options
  import opened PolicyTypes
  import opened PolicyLedger
  import opened PolicyRules
  import opened PolicyEngine

  datatype ActionState = Paused | Throttled | Resumed | OrphanedCleaned | DriftSynced

  datatype Mechanism = SignalStop | PauseContainer | FreezeCgroup

  datatype Entry = Entry(
    pid: Pid,
    containerID: string,
    processName: string,
    anomalyType: string,
    timestamp: Nanos,
    state: ActionState,
    token: Token,
    mechanism: Mechanism)

  type Entries = map<Token, Entry>

  predicate Active(e: Entry) {
    e.state == Paused || e.state == Throttled
  }

  /** `Record` stamps token, zero timestamp and PAUSED over whatever the caller passed. */
  function Recorded(es: Entries, e: Entry, token: Token): Entries {
    es[token := e.(token := token, timestamp := 0, state := Paused)]
  }

  /** `UpdateState` has no guard either. */
  function WithState(es: Entries, token: Token, state: ActionState): Entries {
    if token in es then es[token := es[token].(state := state)] else es
  }

  // Transaction ids and reversibility tokens are drawn from disjoint name spaces.

  predicate IsTxId(id: string) {
    "tx_" <= id
  }

  predicate IsToken(id: string) {
    "rev_token_" <= id
  }

  lemma TokensAreNotTxIds(id: string)
    requires IsToken(id)
    ensures !IsTxId(id)
  {
    assert id[0] == 'r';
    assert "tx_"[0] == 't';
  }

  ghost predicate WellKeyed(es: Entries) {
    forall t | t in es :: es[t].token == t && IsToken(t)
  }

  ghost predicate OnlyTxIds(l: Ledger) {
    forall id | id in l.records :: IsTxId(id) && l.records[id].transactionID == id
  }

  class MitigationLedger {
    var entries: Entries

    constructor ()
      ensures entries == map[]
    {
      entries := map[];
    }

    method Record(entry: Entry, freshToken: Token) returns (token: Token)
      requires freshToken !in entries
      modifies this
      ensures token == freshToken && entries == Recorded(old(entries), entry, freshToken)
      ensures entries - {freshToken} == old(entries) && entries[freshToken]
           == Entry(entry.pid, entry.containerID, entry.processName, entry.anomalyType, 0, Paused, freshToken, entry.mechanism)
    {
      token := freshToken;
      var cp := entry.(token := token, timestamp := 0, state := Paused);
      entries := entries[token := cp];
    }

    method ResolveByToken(token: Token) returns (entry: Option<Entry>)
      ensures entry == if token in entries then Some(entries[token]) else None
    {
      entry := if token in entries then Some(entries[token]) else None;
    }

    method UpdateState(token: Token, state: ActionState) returns (ok: bool)
      modifies this
      ensures ok == (token in old(entries)) && entries == WithState(old(entries), token, state)
      ensures ok ==> entries == old(entries)[token := old(entries)[token].(state := state)]
      ensures !ok ==> entries == old(entries)
    {
      if token !in entries { return false; }
      entries := entries[token := entries[token].(state := state)];
      return true;
    }

    method ListActive() returns (active: seq<Entry>)
      requires WellKeyed(entries)
      ensures ListsActive(entries, entries.Keys, active)
      ensures forall t | t in entries :: entries[t] in active <==> entries[t].state in {Paused, Throttled}
    {
      active := [];
      var rest := entries.Keys;
      while rest != {}
        invariant rest <= entries.Keys
        invariant ListsActive(entries, entries.Keys - rest, active)
        decreases rest
      {
        var t :| t in rest;
        rest := rest - {t};
        if entries[t].state == Paused || entries[t].state == Throttled { active := active + [entries[t]]; }
      }
      assert entries.Keys - rest == entries.Keys;
    }
  }

  /** `list` holds the active entries among `tokens`, once each. */
  ghost predicate ListsActive(es: Entries, tokens: set<Token>, list: seq<Entry>) {
    && (forall i, j :: 0 <= i < j < |list| ==> list[i].token != list[j].token)
    && (forall e | e in list :: e.token in tokens && e.token in es && es[e.token] == e && Active(e))
    && (forall t | t in tokens && t in es && Active(es[t]) :: es[t] in list)
  }

  datatype OsCall =
    | SendStop(pid: Pid, ok: bool)
    | SendContinue(pid: Pid, ok: bool)
    | Pause(containerID: string, ok: bool)
    | Unpause(containerID: string, ok: bool)

  datatype EventStatus = Success | Skipped | Failed

  datatype MitigationEvent = MitigationEvent(
    pid: Pid,
    containerID: string,
    mechanism: Option<Mechanism>,
    status: EventStatus,
    whitelisted: bool,
    reversibilityToken: string)

  /** The request the mitigator puts to the policy engine. */
  function IntentFor(pid: Pid, containerID: string, processName: string): Intent {
    Intent(pid, containerID, processName, if containerID != "" then ContainerPause else SigStop)
  }

  /** A container is paused; if that fails, or there is none, the process gets SIGSTOP. */
  function FreezeMechanism(containerID: string, pauseOk: bool): Mechanism {
    if containerID != "" && pauseOk then PauseContainer else SignalStop
  }

  predicate Freezes(containerID: string, pauseOk: bool, stopOk: bool) {
    (containerID != "" && pauseOk) || stopOk
  }

  function FreezeCalls(pid: Pid, containerID: string, pauseOk: bool, stopOk: bool): seq<OsCall> {
    (if containerID != "" then [Pause(containerID, pauseOk)] else [])
    + (if containerID != "" && pauseOk then [] else [SendStop(pid, stopOk)])
  }

  function ReleaseCalls(pid: Pid, containerID: string, unpauseOk: bool, continueOk: bool): seq<OsCall> {
    (if containerID != "" then [Unpause(containerID, unpauseOk)] else [])
    + (if containerID != "" && unpauseOk then [] else [SendContinue(pid, continueOk)])
  }

  datatype Alert = Alert(pid: Pid, containerID: string, processName: string, anomalyType: string)

  datatype Outcome = Outcome(ledger: Ledger, entries: Entries, status: EventStatus, token: string, calls: seq<OsCall>)

  /** What one uninterrupted alert leaves behind: a REJECTED record and nothing else; or an EXECUTED record with a
      reversible entry; or, when every freeze attempt failed, a PENDING record turned REJECTED and no entry. */
  ghost function AlertOutcome(before: Ledger, es: Entries, rules: Rules, cooldown: int, alert: Alert,
                              pauseOk: bool, stopOk: bool, countedAt: Nanos, stampedAt: Nanos,
                              txID: TxId, token: Token): Outcome
  {
    var intent := IntentFor(alert.pid, alert.containerID, alert.processName);
    var v := Evaluate(rules, intent, |UnexpiredFor(before, alert.pid, countedAt)|);
    var registered := Insert(before, RecordFor(before, intent, v, cooldown, stampedAt, txID));
    var calls := FreezeCalls(alert.pid, alert.containerID, pauseOk, stopOk);
    if !v.authorized then
      Outcome(registered, es, Skipped, txID, [])
    else if Freezes(alert.containerID, pauseOk, stopOk) then
      Outcome(SetStatus(registered, txID, Executed),
              Recorded(es, Entry(alert.pid, alert.containerID, alert.processName, alert.anomalyType, 0, Paused, "",
                                 FreezeMechanism(alert.containerID, pauseOk)), token),
              Success, token, calls)
    else
      Outcome(SetStatus(registered, txID, Rejected), es, Failed, "", calls)
  }

  /** The system calls of an attempt to freeze, in order, and how it ends. */
  ghost predicate Attempted(pid: Pid, containerID: string, pauseOk: bool, stopOk: bool, made: seq<OsCall>,
                            worked: bool, mech: Mechanism)
  {
    if containerID == "" then made == [SendStop(pid, stopOk)] && worked == stopOk && mech == SignalStop
    else if pauseOk then made == [Pause(containerID, true)] && worked && mech == PauseContainer
    else made == [Pause(containerID, false), SendStop(pid, stopOk)] && worked == stopOk && mech == SignalStop
  }

  lemma AttemptMeaning(pid: Pid, containerID: string, pauseOk: bool, stopOk: bool)
    ensures Attempted(pid, containerID, pauseOk, stopOk, FreezeCalls(pid, containerID, pauseOk, stopOk),
                      Freezes(containerID, pauseOk, stopOk), FreezeMechanism(containerID, pauseOk))
  {
  }

  class Mitigator {
    const policy: Engine
    const ledger: MitigationLedger
    /** The calls made to the operating system and the container runtime, with their outcomes. */
    var calls: seq<OsCall>

    ghost predicate Valid()
      reads this, policy, policy.ledger, ledger
    {
      policy.Valid() && OnlyTxIds(policy.ledger.View()) && WellKeyed(ledger.entries)
    }

    constructor (policy: Engine, ledger: MitigationLedger)
      requires policy.Valid() && OnlyTxIds(policy.ledger.View()) && WellKeyed(ledger.entries)
      ensures Valid() && this.policy == policy && this.ledger == ledger && calls == []
    {
      this.policy, this.ledger := policy, ledger;
      calls := [];
    }

    /** A freeze was attempted: if it worked there is one more entry, PAUSED under the fresh token, which the event hands
        out; otherwise the entries are as they were. */
    ghost predicate ActedOn(pid: Pid, containerID: string, processName: string, anomalyType: string, pauseOk: bool,
                            stopOk: bool, freshToken: Token, entriesBefore: Entries, callsBefore: seq<OsCall>,
                            event: MitigationEvent)
      reads this, ledger
    {
      && event.pid == pid && event.containerID == containerID && !event.whitelisted && event.mechanism.Some?
      && callsBefore <= calls
      && Attempted(pid, containerID, pauseOk, stopOk, calls[|callsBefore|..], event.status == Success,
                   event.mechanism.value)
      && if event.status == Success then
           && event.reversibilityToken == freshToken
           && ledger.entries == entriesBefore[freshToken := Entry(pid, containerID, processName, anomalyType, 0, Paused,
                                                                  freshToken, event.mechanism.value)]
         else event.status == Failed && event.reversibilityToken == "" && ledger.entries == entriesBefore
    }

    /** One alert, start to finish. `pauseOk` and `stopOk` are the outcomes of the freeze attempts. */
    method MitigateFromAlert(pid: Pid, containerID: string, processName: string, anomalyType: string,
                             pauseOk: bool, stopOk: bool, countedAt: Nanos, stampedAt: Nanos,
                             freshID: TxId, freshToken: Token)
      returns (event: MitigationEvent)
      requires Valid() && IsTxId(freshID) && freshID !in policy.ledger.records
      requires IsToken(freshToken) && freshToken !in ledger.entries
      modifies this`calls, policy`events, policy.ledger, ledger
      ensures Valid()
      ensures var after := AlertOutcome(
                old(policy.ledger.View()), old(ledger.entries), policy.evaluator.View(), policy.ledger.cooldownSecs,
                Alert(pid, containerID, processName, anomalyType), pauseOk, stopOk,
                countedAt, stampedAt, freshID, freshToken);
              && policy.ledger.View() == after.ledger && ledger.entries == after.entries
              && event.status == after.status && event.reversibilityToken == after.token
              && calls == old(calls) + after.calls
              && (event.status == Success ==> event.mechanism == Some(FreezeMechanism(containerID, pauseOk)))
      ensures freshID in policy.ledger.records
      ensures var r := policy.ledger.records[freshID];
              && r.targetPID == pid && r.containerID == containerID && r.processName == processName
              && r.actionType == (if containerID != "" then ContainerPause else SigStop)
              && r.status == (if event.status == Success then Executed else Rejected)
              && (event.status == Skipped <==> r.rejectionReason.Some?)
      ensures event.status == Skipped ==>
                && event == MitigationEvent(pid, containerID, None, Skipped,
                     (processName != "" && processName in policy.evaluator.whitelistNames)
                     || (containerID != "" && containerID in policy.evaluator.whitelistIDs), freshID)
                && ledger.entries == old(ledger.entries) && calls == old(calls)
      ensures event.status != Skipped ==> ActedOn(
                pid, containerID, processName, anomalyType, pauseOk, stopOk, freshToken, old(ledger.entries), old(calls),
                event)
    {
      var intent := IntentFor(pid, containerID, processName);
      var authorized, txID, polEvt := policy.EvaluateAndRegister(intent, countedAt, stampedAt, freshID);
      if !authorized {
        var isWhitelisted := policy.evaluator.IsWhitelisted(processName, containerID);
        return MitigationEvent(pid, containerID, None, Skipped, isWhitelisted, polEvt.transactionID);
      }

      event := Act(pid, containerID, processName, anomalyType, pauseOk, stopOk, txID, freshToken);
    }

    /** The authorised part: freeze, write the outcome back, and record what can be reversed. */
    method Act(pid: Pid, containerID: string, processName: string, anomalyType: string, pauseOk: bool, stopOk: bool,
               txID: TxId, freshToken: Token)
      returns (event: MitigationEvent)
      requires Valid() && IsToken(freshToken) && freshToken !in ledger.entries
      modifies this`calls, policy.ledger, ledger
      ensures Valid() && calls == old(calls) + FreezeCalls(pid, containerID, pauseOk, stopOk)
      ensures var worked, mech := Freezes(containerID, pauseOk, stopOk), FreezeMechanism(containerID, pauseOk);
              && policy.ledger.View() == SetStatus(old(policy.ledger.View()), txID, if worked then Executed else Rejected)
              && ledger.entries == (if worked
                                    then Recorded(old(ledger.entries),
                                           Entry(pid, containerID, processName, anomalyType, 0, Paused, "", mech), freshToken)
                                    else old(ledger.entries))
              && event == MitigationEvent(pid, containerID, Some(mech), if worked then Success else Failed, false,
                                          if worked then freshToken else "")
      ensures ActedOn(pid, containerID, processName, anomalyType, pauseOk, stopOk, freshToken, old(ledger.entries),
                      old(calls), event)
    {
      AttemptMeaning(pid, containerID, pauseOk, stopOk);
      var mech, actionOk := Freeze(pid, containerID, pauseOk, stopOk);
      if actionOk { policy.ConfirmExecution(txID); } else { policy.Reject(txID); }

      var revToken := "";
      if actionOk {
        revToken := ledger.Record(
          Entry(pid, containerID, processName, anomalyType, 0, Paused, "", mech), freshToken);
      }
      event := MitigationEvent(pid, containerID, Some(mech), if actionOk then Success else Failed, false, revToken);
    }

    /** The branch for a mitigator that was configured without a policy engine: every alert is acted on, and a freeze that
        worked is recorded as reversible. */
    method MitigateUnconditionally(pid: Pid, containerID: string, processName: string, anomalyType: string,
                                   pauseOk: bool, stopOk: bool, freshToken: Token)
      returns (event: MitigationEvent)
      requires WellKeyed(ledger.entries) && IsToken(freshToken) && freshToken !in ledger.entries
      modifies this`calls, ledger
      ensures WellKeyed(ledger.entries) && calls == old(calls) + FreezeCalls(pid, containerID, pauseOk, stopOk)
      ensures event.status == Success <==> Freezes(containerID, pauseOk, stopOk)
      ensures event.status == Success ==>
                && freshToken in ledger.entries && event.reversibilityToken == freshToken
                && ledger.entries - {freshToken} == old(ledger.entries)
                && ledger.entries[freshToken] == Entry(pid, containerID, processName, anomalyType, 0, Paused, freshToken,
                                                       FreezeMechanism(containerID, pauseOk))
      ensures event.status != Success ==>
                event.status == Failed && event.reversibilityToken == "" && ledger.entries == old(ledger.entries)
      ensures ActedOn(pid, containerID, processName, anomalyType, pauseOk, stopOk, freshToken, old(ledger.entries),
                      old(calls), event)
    {
      AttemptMeaning(pid, containerID, pauseOk, stopOk);
      var mech, actionOk := Freeze(pid, containerID, pauseOk, stopOk);
      var revToken := "";
      if actionOk {
        revToken := ledger.Record(
          Entry(pid, containerID, processName, anomalyType, 0, Paused, "", mech), freshToken);
      }
      event := MitigationEvent(pid, containerID, Some(mech), if actionOk then Success else Failed, false, revToken);
    }

    method Freeze(pid: Pid, containerID: string, pauseOk: bool, stopOk: bool)
      returns (mech: Mechanism, actionOk: bool)
      modifies this`calls
      ensures mech == FreezeMechanism(containerID, pauseOk) && actionOk == Freezes(containerID, pauseOk, stopOk)
      ensures calls == old(calls) + FreezeCalls(pid, containerID, pauseOk, stopOk)
    {
      if containerID != "" {
        mech, actionOk := PauseContainer, pauseOk;
        calls := calls + [Pause(containerID, pauseOk)];
        if !actionOk {
          mech, actionOk := SignalStop, stopOk;
          calls := calls + [SendStop(pid, stopOk)];
        }
      } else {
        mech, actionOk := SignalStop, stopOk;
        calls := calls + [SendStop(pid, stopOk)];
      }
    }

    /** Resuming passes the token where the policy engine expects a transaction id, so no policy record is closed. */
    method Resume(token: Token, unpauseOk: bool, continueOk: bool) returns (ok: bool)
      requires Valid()
      modifies this`calls, policy.ledger, ledger
      ensures Valid() && policy.ledger.View() == old(policy.ledger.View())
      ensures ok <==> token in old(ledger.entries)
                      && if old(ledger.entries)[token].mechanism == PauseContainer then unpauseOk else continueOk
      ensures ledger.entries == if ok then WithState(old(ledger.entries), token, Resumed) else old(ledger.entries)
      ensures ok ==> ledger.entries == old(ledger.entries)[token := old(ledger.entries)[token].(state := Resumed)]
      ensures calls == old(calls)
                       + (if token !in old(ledger.entries) then []
                          else var e := old(ledger.entries)[token];
                               if e.mechanism == PauseContainer then [Unpause(e.containerID, unpauseOk)]
                               else [SendContinue(e.pid, continueOk)])
    {
      var entry := ledger.ResolveByToken(token);
      if entry.None? { return false; }
      match entry.value.mechanism {
        case PauseContainer =>
          calls := calls + [Unpause(entry.value.containerID, unpauseOk)];
          if !unpauseOk { return false; }
        case SignalStop =>
          calls := calls + [SendContinue(entry.value.pid, continueOk)];
          if !continueOk { return false; }
        case FreezeCgroup =>
          calls := calls + [SendContinue(entry.value.pid, continueOk)];
          if !continueOk { return false; }
      }
      var _ := ledger.UpdateState(token, Resumed);
      TokensAreNotTxIds(token);
      policy.Complete(token);
      return true;
    }

    /** Undoes a container freeze by PID, falling back to SIGCONT; the mitigation ledger is not consulted. */
    method RollbackPID(pid: Pid, containerID: string, unpauseOk: bool, continueOk: bool) returns (ok: bool)
      modifies this`calls
      ensures ok == Freezes(containerID, unpauseOk, continueOk)
      ensures calls == old(calls) + ReleaseCalls(pid, containerID, unpauseOk, continueOk)
    {
      if containerID != "" {
        calls := calls + [Unpause(containerID, unpauseOk)];
        if unpauseOk { return true; }
      }
      calls := calls + [SendContinue(pid, continueOk)];
      return continueOk;
    }
  }
}
