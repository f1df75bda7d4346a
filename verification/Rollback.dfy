/** The rollback controller: undoes expired actions and reconciles the mitigation ledger with the process table. */
module Rollback {
  import opened Options
  import opened PolicyTypes
  import opened PolicyLedger
  import opened PolicyEngine
  import opened Mitigation
  import RouterRegistry

  datatype RuntimeState = RuntimeRunning | RuntimeStopped | RuntimeZombie | RuntimeNotFound | RuntimePaused

  datatype LedgerState = LedgerPaused | LedgerThrottled | LedgerResumed | LedgerOrphanedCleaned | LedgerDriftSynced

  datatype Remedy = RollbackExecuted | SynchronizeLedgerToRuntime

  datatype Detail = Detail(
    targetPID: Pid,
    containerID: string,
    previous: LedgerState,
    actual: RuntimeState,
    remedy: Remedy,
    final: LedgerState)

  datatype SyncEvent = SyncEvent(scanned: nat, drift: bool, resolved: nat, details: seq<Detail>)

  function LedgerStateFromAction(a: ActionState): LedgerState {
    match a
    case Paused => LedgerPaused
    case Throttled => LedgerThrottled
    case Resumed => LedgerResumed
    case OrphanedCleaned => LedgerOrphanedCleaned
    case DriftSynced => LedgerDriftSynced
  }

  /** What a probe makes of an active entry; `None` leaves the entry alone. */
  function Reconciled(runtime: RuntimeState): Option<ActionState> {
    match runtime
    case RuntimeNotFound => Some(OrphanedCleaned)
    case RuntimeRunning => Some(DriftSynced)
    case RuntimeStopped => None
    case RuntimePaused => None
    case RuntimeZombie => Some(DriftSynced)
  }

  function ReconciledEntry(e: Entry, probe: Pid -> RuntimeState): Entry {
    if Active(e) && Reconciled(probe(e.pid)).Some? then e.(state := Reconciled(probe(e.pid)).value) else e
  }

  /** The ledger after one pass, for the entries in `tokens`. */
  function ReconciledAmong(es: Entries, tokens: set<Token>, probe: Pid -> RuntimeState): Entries {
    map t | t in es :: if t in tokens then ReconciledEntry(es[t], probe) else es[t]
  }

  function ReconcileAll(es: Entries, probe: Pid -> RuntimeState): Entries {
    ReconciledAmong(es, es.Keys, probe)
  }

  ghost function ActiveTokens(es: Entries): set<Token> {
    set t | t in es && Active(es[t])
  }

  ghost predicate Holds(probe: Pid -> RuntimeState, pid: Pid) {
    probe(pid) == RuntimeStopped || probe(pid) == RuntimePaused
  }

  /** Over an unchanged process table one pass keeps active exactly the active entries whose PID probes STOPPED or
      PAUSED, a second pass changes nothing, and nothing ever becomes active again under a later, different table. */
  lemma ReconcileIsFixpoint(es: Entries, probe: Pid -> RuntimeState, later: Pid -> RuntimeState)
    ensures var once := ReconcileAll(es, probe);
            && ActiveTokens(once) == (set t | t in es && Active(es[t]) && Holds(probe, es[t].pid))
            && ReconcileAll(once, probe) == once
            && ActiveTokens(ReconcileAll(once, later)) <= ActiveTokens(once)
            && once.Keys == es.Keys
            && forall t | t in es && once[t].state != es[t].state ::
                 once[t].state == OrphanedCleaned <==> probe(es[t].pid) == RuntimeNotFound
  {
    var once := ReconcileAll(es, probe);
    var twice := ReconcileAll(once, probe);
    assert forall t | t in es :: twice[t] == once[t];
  }

  /** What a pass makes of an entry: an active one whose process is gone is orphaned, and one whose process neither stands
      still nor is paused is synchronised; nothing else changes. */
  ghost predicate Synchronised(before: Entry, after: Entry, runtime: RuntimeState) {
    if before.state in {Resumed, OrphanedCleaned, DriftSynced} || runtime in {RuntimeStopped, RuntimePaused} then
      after == before
    else after == before.(state := if runtime == RuntimeNotFound then OrphanedCleaned else DriftSynced)
  }

  lemma PassSynchronises(es: Entries, probe: Pid -> RuntimeState)
    ensures var after := ReconcileAll(es, probe);
            after.Keys == es.Keys && forall t | t in es :: Synchronised(es[t], after[t], probe(es[t].pid))
  {
  }

  // ----- undoing expired actions -----

  /** Whether the operating system lets the action be undone, attempt by attempt; a check makes one for each due record.
      Router actions always can be. */
  function Undone(r: Record, unpauseOk: TxId -> bool, continueOk: TxId -> bool): bool {
    match r.actionType
    case SigStop => continueOk(r.transactionID)
    case ContainerPause => Freezes(r.containerID, unpauseOk(r.transactionID), continueOk(r.transactionID))
    case CgroupFreeze => Freezes(r.containerID, unpauseOk(r.transactionID), continueOk(r.transactionID))
    case ApiRouteSwap => true
    case TokenChop => true
  }

  predicate IsRouterAction(r: Record) {
    r.actionType == ApiRouteSwap || r.actionType == TokenChop
  }

  predicate Due(r: Record, now: Nanos) {
    r.status == Executed && now > r.expiry
  }

  function RolledBackRecord(r: Record, now: Nanos, unpauseOk: TxId -> bool, continueOk: TxId -> bool): Record {
    if Due(r, now) && Undone(r, unpauseOk, continueOk) then r.(status := Completed) else r
  }

  function RolledBackAmong(records: map<TxId, Record>, ids: set<TxId>, now: Nanos,
                           unpauseOk: TxId -> bool, continueOk: TxId -> bool): map<TxId, Record>
  {
    map id | id in records ::
      if id in ids then RolledBackRecord(records[id], now, unpauseOk, continueOk) else records[id]
  }

  /** One check completes exactly the due records it could undo; a second check finds only those it could not. */
  lemma CheckExpiredSettles(records: map<TxId, Record>, now: Nanos, unpauseOk: TxId -> bool, continueOk: TxId -> bool)
    ensures var after := RolledBackAmong(records, records.Keys, now, unpauseOk, continueOk);
            && (forall id | id in records :: Due(after[id], now)
                  <==> Due(records[id], now) && !Undone(records[id], unpauseOk, continueOk))
            && RolledBackAmong(after, after.Keys, now, unpauseOk, continueOk) == after
  {
    var after := RolledBackAmong(records, records.Keys, now, unpauseOk, continueOk);
    var again := RolledBackAmong(after, after.Keys, now, unpauseOk, continueOk);
    assert forall id | id in records :: again[id] == after[id];
  }

  ghost function Ids(recs: seq<Record>): set<TxId> {
    set i | 0 <= i < |recs| :: recs[i].transactionID
  }

  ghost function RouterPids(recs: seq<Record>): set<Pid> {
    set i | 0 <= i < |recs| && IsRouterAction(recs[i]) :: recs[i].targetPID
  }

  ghost function DueRouterPids(records: map<TxId, Record>, now: Nanos): set<Pid> {
    set id | id in records && Due(records[id], now) && IsRouterAction(records[id]) :: records[id].targetPID
  }

  ghost function Tokens(list: seq<Entry>): set<Token> {
    set i | 0 <= i < |list| :: list[i].token
  }

  /** How an action is undone: a router's by dropping the entry; a SIGSTOP by SIGCONT; a container freeze by unpausing
      the container, with SIGCONT where there is none or that fails. A detail reports an action that was undone. */
  ghost predicate Undoes(r: Record, unpaused: bool, continued: bool, made: seq<OsCall>, detail: Option<Detail>) {
    match r.actionType
    case ApiRouteSwap => made == [] && ReportsUndo(r, LedgerThrottled, detail)
    case TokenChop => made == [] && ReportsUndo(r, LedgerThrottled, detail)
    case SigStop =>
      made == [SendContinue(r.targetPID, continued)]
      && if continued then ReportsUndo(r, LedgerPaused, detail) else detail == None
    case _ =>
      if r.containerID != "" && unpaused then
        made == [Unpause(r.containerID, true)] && ReportsUndo(r, LedgerPaused, detail)
      else
        made == (if r.containerID != "" then [Unpause(r.containerID, false)] else [])
                + [SendContinue(r.targetPID, continued)]
        && if continued then ReportsUndo(r, LedgerPaused, detail) else detail == None
  }

  ghost predicate ReportsUndo(r: Record, previous: LedgerState, detail: Option<Detail>) {
    && detail.Some? && detail.value.targetPID == r.targetPID && detail.value.containerID == r.containerID
    && detail.value.previous == previous && detail.value.actual == RuntimeRunning
    && detail.value.remedy == RollbackExecuted && detail.value.final == LedgerResumed
  }

  lemma UndoMeaning(r: Record, unpauseOk: TxId -> bool, continueOk: TxId -> bool)
    ensures Undoes(r, unpauseOk(r.transactionID), continueOk(r.transactionID), UndoCalls(r, unpauseOk, continueOk),
                   if Undone(r, unpauseOk, continueOk) then Some(UndoDetail(r)) else None)
  {
  }

  /** The detail reports one of the records, which could be undone. */
  ghost predicate ReportsOne(list: seq<Record>, detail: Detail, unpauseOk: TxId -> bool, continueOk: TxId -> bool) {
    exists i | 0 <= i < |list| && Undone(list[i], unpauseOk, continueOk) ::
      ReportsUndo(list[i], if list[i].actionType in {ApiRouteSwap, TokenChop} then LedgerThrottled else LedgerPaused,
                  Some(detail))
  }

  lemma ReportsOneOfMore(list: seq<Record>, detail: Detail, unpauseOk: TxId -> bool, continueOk: TxId -> bool)
    requires list != [] && ReportsOne(list[..|list| - 1], detail, unpauseOk, continueOk)
    ensures ReportsOne(list, detail, unpauseOk, continueOk)
  {
    var front := list[..|list| - 1];
    var i :| 0 <= i < |front| && Undone(front[i], unpauseOk, continueOk)
             && ReportsUndo(front[i], if front[i].actionType in {ApiRouteSwap, TokenChop} then LedgerThrottled
                                      else LedgerPaused, Some(detail));
    assert list[i] == front[i];
  }

  /** The report of a check over `list`: one detail for each record that could be undone. */
  lemma {:induction false} UndoReport(list: seq<Record>, unpauseOk: TxId -> bool, continueOk: TxId -> bool)
    ensures var details := UndoDetails(list, unpauseOk, continueOk);
            && |details| == |UndoneAt(list, unpauseOk, continueOk)|
            && forall k | 0 <= k < |details| :: ReportsOne(list, details[k], unpauseOk, continueOk)
  {
    if list == [] {
      assert UndoneAt(list, unpauseOk, continueOk) == {};
    } else {
      var n := |list| - 1;
      UndoReport(list[..n], unpauseOk, continueOk);
      UndoneCountGrows(list, unpauseOk, continueOk);
      var details, before := UndoDetails(list, unpauseOk, continueOk), UndoDetails(list[..n], unpauseOk, continueOk);
      forall k | 0 <= k < |details|
        ensures ReportsOne(list, details[k], unpauseOk, continueOk)
      {
        if k < |before| {
          ReportsOneOfMore(list, before[k], unpauseOk, continueOk);
        } else {
          assert Undone(list[n], unpauseOk, continueOk) && details[k] == UndoDetail(list[n]);
        }
      }
    }
  }

  /** The event of a check: none if nothing could be undone; otherwise one without drift that counts the records and what
      was undone. */
  lemma CheckReport(list: seq<Record>, unpauseOk: TxId -> bool, continueOk: TxId -> bool)
    ensures var events, undone := UndoEvents(list, unpauseOk, continueOk), |UndoneAt(list, unpauseOk, continueOk)|;
            if undone == 0 then events == []
            else
              && |events| == 1 && events[0].scanned == |list| && !events[0].drift && events[0].resolved == undone
              && |events[0].details| == undone
              && forall k | 0 <= k < undone :: ReportsOne(list, events[0].details[k], unpauseOk, continueOk)
  {
    UndoReport(list, unpauseOk, continueOk);
  }

  /** The calls of a check are those for its records, one after another. */
  lemma {:induction false} CallsInOrder(list: seq<Record>, more: seq<Record>, unpauseOk: TxId -> bool,
                                        continueOk: TxId -> bool)
    ensures AllUndoCalls(list + more, unpauseOk, continueOk)
         == AllUndoCalls(list, unpauseOk, continueOk) + AllUndoCalls(more, unpauseOk, continueOk)
  {
    if more == [] {
      assert list + more == list;
    } else {
      var n := |more| - 1;
      var last := UndoCalls(more[n], unpauseOk, continueOk);
      assert (list + more)[..|list + more| - 1] == list + more[..n];
      assert AllUndoCalls(list + more, unpauseOk, continueOk)
          == AllUndoCalls(list + more[..n], unpauseOk, continueOk) + last;
      CallsInOrder(list, more[..n], unpauseOk, continueOk);
      Associative(AllUndoCalls(list, unpauseOk, continueOk), AllUndoCalls(more[..n], unpauseOk, continueOk), last);
    }
  }

  lemma Associative<T>(a: seq<T>, b: seq<T>, c: seq<T>)
    ensures a + b + c == a + (b + c)
  {
  }

  /** The records that could be undone. */
  ghost function UndoneAt(list: seq<Record>, unpauseOk: TxId -> bool, continueOk: TxId -> bool): set<int> {
    set i | 0 <= i < |list| && Undone(list[i], unpauseOk, continueOk)
  }

  lemma UndoneCountGrows(list: seq<Record>, unpauseOk: TxId -> bool, continueOk: TxId -> bool)
    requires list != []
    ensures var n := |list| - 1;
            |UndoneAt(list, unpauseOk, continueOk)|
            == |UndoneAt(list[..n], unpauseOk, continueOk)| + if Undone(list[n], unpauseOk, continueOk) then 1 else 0
  {
    var n := |list| - 1;
    assert UndoneAt(list, unpauseOk, continueOk)
        == UndoneAt(list[..n], unpauseOk, continueOk) + if Undone(list[n], unpauseOk, continueOk) then {n} else {};
  }

  class Controller {
    const mit: Mitigator
    const rreg: RouterRegistry.Registry
    const pol: Engine
    /** The events written to the console; every emitted event reaches it. */
    var events: seq<SyncEvent>

    ghost predicate Valid()
      reads this, mit, pol, pol.ledger, mit.policy, mit.policy.ledger, mit.ledger, rreg
    {
      mit.policy == pol && mit.Valid() && rreg.Valid()
    }

    /** The part of `Valid` that undoing an action can touch. */
    ghost predicate PolicySide()
      reads this, pol, pol.ledger, rreg
    {
      pol.Valid() && OnlyTxIds(pol.ledger.View()) && rreg.Valid()
    }

    /** What undoing an action changes. */
    ghost function View(): Books
      reads this, mit, pol, pol.ledger, rreg
    {
      Books(pol.ledger.View(), rreg.entries, mit.calls)
    }

    constructor (mit: Mitigator, rreg: RouterRegistry.Registry, pol: Engine)
      requires mit.policy == pol && mit.Valid() && rreg.Valid()
      ensures Valid() && this.mit == mit && this.rreg == rreg && this.pol == pol && events == []
    {
      this.mit, this.rreg, this.pol := mit, rreg, pol;
      events := [];
    }

    /** Undoes one record and, only if that worked, marks it COMPLETED. */
    method DispatchRollback(rec: Record, unpauseOk: TxId -> bool, continueOk: TxId -> bool)
      returns (detail: Option<Detail>)
      requires PolicySide()
      modifies mit`calls, pol.ledger, rreg`entries
      ensures PolicySide()
      ensures detail.Some? == Undone(rec, unpauseOk, continueOk)
      ensures detail.Some? ==> detail.value == UndoDetail(rec)
      ensures View() == UndoneOne(old(View()), rec, unpauseOk, continueOk)
      ensures mit.calls[..|old(mit.calls)|] == old(mit.calls)
              && Undoes(rec, unpauseOk(rec.transactionID), continueOk(rec.transactionID), mit.calls[|old(mit.calls)|..],
                        detail)
      ensures pol.ledger.records == if detail.Some? && rec.transactionID in old(pol.ledger.records)
                                    then old(pol.ledger.records)[rec.transactionID :=
                                           old(pol.ledger.records)[rec.transactionID].(status := Completed)]
                                    else old(pol.ledger.records)
      ensures rreg.entries == if rec.actionType in {ApiRouteSwap, TokenChop} then old(rreg.entries) - {rec.targetPID}
                              else old(rreg.entries)
    {
      UndoMeaning(rec, unpauseOk, continueOk);
      var prev := LedgerPaused;
      if IsRouterAction(rec) {
        prev := LedgerThrottled;
        rreg.DeactivatePid(rec.targetPID);
      } else {
        var ok := Release(rec, unpauseOk, continueOk);
        if !ok { return None; }
      }
      pol.Complete(rec.transactionID);
      detail := Some(Detail(rec.targetPID, rec.containerID, prev, RuntimeRunning, RollbackExecuted, LedgerResumed));
    }

    /** The freezing actions: a plain SIGSTOP is undone by SIGCONT, a container freeze by the mitigator. */
    method Release(rec: Record, unpauseOk: TxId -> bool, continueOk: TxId -> bool) returns (ok: bool)
      requires !IsRouterAction(rec)
      modifies mit`calls
      ensures ok == Undone(rec, unpauseOk, continueOk)
      ensures mit.calls == old(mit.calls) + UndoCalls(rec, unpauseOk, continueOk)
    {
      if rec.actionType == SigStop {
        ok := mit.RollbackPID(rec.targetPID, "", false, continueOk(rec.transactionID));
      } else {
        ok := mit.RollbackPID(rec.targetPID, rec.containerID, unpauseOk(rec.transactionID), continueOk(rec.transactionID));
      }
    }

    /** Everything due at `now` that can be undone is undone and completed; one event reports it, if there is any. */
    method CheckExpired(now: Nanos, unpauseOk: TxId -> bool, continueOk: TxId -> bool)
      requires Valid()
      modifies mit`calls, pol.ledger, rreg`entries, this`events
      ensures Valid()
      ensures pol.ledger.records
           == RolledBackAmong(old(pol.ledger.records), old(pol.ledger.records).Keys, now, unpauseOk, continueOk)
      ensures rreg.entries == old(rreg.entries) - DueRouterPids(old(pol.ledger.records), now)
      ensures exists due :: SnapshotOfDue(old(pol.ledger.records), now, due)
                && events == old(events) + UndoEvents(due, unpauseOk, continueOk)
                && mit.calls == old(mit.calls) + AllUndoCalls(due, unpauseOk, continueOk)
    {
      var records := pol.ledger.ListExecutedExpired(now);
      SnapshotCovers(pol.ledger.View(), records, now, unpauseOk, continueOk);
      assert SnapshotOfDue(pol.ledger.records, now, records);
      if |records| == 0 { return; }
      UndoneInParts(View(), records, unpauseOk, continueOk);
      var details := DispatchAll(records, unpauseOk, continueOk);
      if |details| == 0 { return; }
      EmitEvent(SyncEvent(|records|, false, |details|, details));
    }

    /** The loop of a check over its snapshot; a failing record is skipped and stays due. */
    method DispatchAll(records: seq<Record>, unpauseOk: TxId -> bool, continueOk: TxId -> bool)
      returns (details: seq<Detail>)
      requires PolicySide()
      modifies mit`calls, pol.ledger, rreg`entries
      ensures PolicySide()
      ensures View() == UndoneAll(old(View()), records, unpauseOk, continueOk)
      ensures details == UndoDetails(records, unpauseOk, continueOk)
    {
      details := [];
      ghost var start := View();
      for i := 0 to |records|
        invariant PolicySide()
        invariant View() == UndoneAll(start, records[..i], unpauseOk, continueOk)
        invariant details == UndoDetails(records[..i], unpauseOk, continueOk)
      {
        var detail := DispatchRollback(records[i], unpauseOk, continueOk);
        if detail.Some? { details := details + [detail.value]; }
        UndoingGrows(start, records, i, unpauseOk, continueOk);
      }
      assert records[..|records|] == records;
    }

    method EmitEvent(event: SyncEvent)
      modifies this`events
      ensures events == old(events) + [event]
    {
      events := events + [event];
    }

    /** One reconciliation pass; the process table is the function `probe` throughout. An event is emitted iff some entry
        changed, and it always reports drift. */
    method ReconcileOnce(probe: Pid -> RuntimeState)
      requires Valid()
      modifies mit.ledger, this`events
      ensures Valid() && mit.ledger.entries == ReconcileAll(old(mit.ledger.entries), probe)
      ensures mit.ledger.entries == old(mit.ledger.entries) ==> events == old(events)
      ensures mit.ledger.entries != old(mit.ledger.entries) ==>
                exists held :: ListsActive(old(mit.ledger.entries), old(mit.ledger.entries).Keys, held)
                  && events == old(events) + [SyncEvent(|ActiveTokens(old(mit.ledger.entries))|, true,
                                                        |ProbeDetails(held, probe)|, ProbeDetails(held, probe))]
    {
      var entries := mit.ledger.ListActive();
      ActiveListed(mit.ledger.entries, entries);
      AllActiveReconciled(mit.ledger.entries, entries, probe);
      if |entries| == 0 { return; }
      var details, driftDetected := ReconcileEntries(entries, probe);
      if |details| == 0 { return; }
      EmitEvent(SyncEvent(|entries|, driftDetected, |details|, details));
    }

    /** The loop of a pass over its snapshot: probe, then update. */
    method ReconcileEntries(entries: seq<Entry>, probe: Pid -> RuntimeState)
      returns (details: seq<Detail>, driftDetected: bool)
      requires forall i | 0 <= i < |entries| :: Active(entries[i])
      modifies mit.ledger
      ensures mit.ledger.entries == AfterProbing(old(mit.ledger.entries), entries, probe)
      ensures details == ProbeDetails(entries, probe)
      ensures driftDetected <==> |details| > 0
    {
      details, driftDetected := [], false;
      for i := 0 to |entries|
        invariant mit.ledger.entries == AfterProbing(old(mit.ledger.entries), entries[..i], probe)
        invariant details == ProbeDetails(entries[..i], probe)
        invariant driftDetected <==> |details| > 0
      {
        var entry := entries[i];
        var detail := ReconcileEntry(entry, probe(entry.pid));
        if detail.Some? {
          if detail.value.actual != RuntimeStopped && detail.value.final != LedgerStateFromAction(entry.state) {
            driftDetected := true;
          }
          details := details + [detail.value];
          SyncEntry(entry.token, detail.value.final);
        }
        PrefixGrows(entries, i);
      }
      assert entries[..|entries|] == entries;
    }

    method SyncEntry(token: Token, final: LedgerState)
      modifies mit.ledger
      ensures mit.ledger.entries
           == match final
              case LedgerOrphanedCleaned => WithState(old(mit.ledger.entries), token, OrphanedCleaned)
              case LedgerDriftSynced => WithState(old(mit.ledger.entries), token, DriftSynced)
              case _ => old(mit.ledger.entries)
    {
      match final {
        case LedgerOrphanedCleaned => var _ := mit.ledger.UpdateState(token, OrphanedCleaned);
        case LedgerDriftSynced => var _ := mit.ledger.UpdateState(token, DriftSynced);
        case _ =>
      }
    }
  }

  /** No detail for an entry whose process is still held. */
  function ReconcileEntry(entry: Entry, runtime: RuntimeState): (detail: Option<Detail>)
    ensures detail.None? <==> Reconciled(runtime).None?
    ensures detail.Some? ==> detail.value.actual == runtime
    ensures detail.Some? ==> detail.value.final == LedgerStateFromAction(Reconciled(runtime).value)
  {
    var detail := Detail(entry.pid, entry.containerID, LedgerStateFromAction(entry.state), runtime,
                         SynchronizeLedgerToRuntime, LedgerStateFromAction(entry.state));
    match runtime
    case RuntimeNotFound => Some(detail.(final := LedgerOrphanedCleaned))
    case RuntimeRunning => Some(detail.(final := LedgerDriftSynced))
    case RuntimeStopped => None
    case RuntimePaused => None
    case RuntimeZombie => Some(detail.(final := LedgerDriftSynced))
  }

  /** The detail of an entry that is out of step names the process, both states before the pass, and the state after it. */
  lemma DriftReport(entry: Entry, runtime: RuntimeState)
    requires entry.state in {Paused, Throttled}
    ensures var detail := ReconcileEntry(entry, runtime);
            if runtime in {RuntimeStopped, RuntimePaused} then detail == None
            else
              && detail.Some?
              && detail.value.targetPID == entry.pid && detail.value.containerID == entry.containerID
              && detail.value.previous == (if entry.state == Paused then LedgerPaused else LedgerThrottled)
              && detail.value.actual == runtime && detail.value.remedy == SynchronizeLedgerToRuntime
              && detail.value.final
                 == (if runtime == RuntimeNotFound then LedgerOrphanedCleaned else LedgerDriftSynced)
  {
  }

  /** A pass reports each listed entry that is out of step, once. */
  lemma {:induction false} DriftIsCounted(list: seq<Entry>, probe: Pid -> RuntimeState)
    ensures |ProbeDetails(list, probe)| == |OutOfStep(list, probe)|
    ensures forall k | 0 <= k < |ProbeDetails(list, probe)| :: ReportsDrift(list, probe, ProbeDetails(list, probe)[k])
  {
    if list == [] {
      assert OutOfStep(list, probe) == {};
    } else {
      var n := |list| - 1;
      var before, after := ProbeDetails(list[..n], probe), ProbeDetails(list, probe);
      DriftIsCounted(list[..n], probe);
      OutOfStepGrows(list, probe);
      forall k | 0 <= k < |after| ensures ReportsDrift(list, probe, after[k]) {
        if k < |before| {
          ReportsDriftOfMore(list, probe, before[k]);
        } else {
          assert ReconcileEntry(list[n], probe(list[n].pid)) == Some(after[k]);
        }
      }
    }
  }

  lemma OutOfStepGrows(list: seq<Entry>, probe: Pid -> RuntimeState)
    requires list != []
    ensures var n := |list| - 1;
            |OutOfStep(list, probe)|
            == |OutOfStep(list[..n], probe)| + if probe(list[n].pid) in {RuntimeStopped, RuntimePaused} then 0 else 1
  {
    var n := |list| - 1;
    if probe(list[n].pid) in {RuntimeStopped, RuntimePaused} {
      assert OutOfStep(list, probe) == OutOfStep(list[..n], probe);
    } else {
      assert OutOfStep(list, probe) == OutOfStep(list[..n], probe) + {n};
    }
  }

  lemma ReportsDriftOfMore(list: seq<Entry>, probe: Pid -> RuntimeState, detail: Detail)
    requires list != [] && ReportsDrift(list[..|list| - 1], probe, detail)
    ensures ReportsDrift(list, probe, detail)
  {
    var front := list[..|list| - 1];
    var i :| 0 <= i < |front| && ReconcileEntry(front[i], probe(front[i].pid)) == Some(detail);
    assert list[i] == front[i];
  }

  ghost function OutOfStep(list: seq<Entry>, probe: Pid -> RuntimeState): set<int> {
    set i | 0 <= i < |list| && probe(list[i].pid) !in {RuntimeStopped, RuntimePaused}
  }

  ghost predicate ReportsDrift(list: seq<Entry>, probe: Pid -> RuntimeState, detail: Detail) {
    exists i | 0 <= i < |list| :: ReconcileEntry(list[i], probe(list[i].pid)) == Some(detail)
  }

  lemma PrefixGrows<T>(list: seq<T>, i: nat)
    requires i < |list|
    ensures list[..i + 1][..i] == list[..i] && list[..i + 1][i] == list[i] && |list[..i + 1]| == i + 1
  {
  }

  // ----- what the two loops do, record by record -----

  ghost predicate SnapshotOfDue(records: map<TxId, Record>, now: Nanos, due: seq<Record>) {
    IsSnapshot(records, (r: Record) => Due(r, now), due)
  }

  /** What undoing a record asks of the operating system, with the outcomes. */
  function UndoCalls(r: Record, unpauseOk: TxId -> bool, continueOk: TxId -> bool): seq<OsCall> {
    match r.actionType
    case SigStop => [SendContinue(r.targetPID, continueOk(r.transactionID))]
    case ContainerPause => ReleaseCalls(r.targetPID, r.containerID, unpauseOk(r.transactionID), continueOk(r.transactionID))
    case CgroupFreeze => ReleaseCalls(r.targetPID, r.containerID, unpauseOk(r.transactionID), continueOk(r.transactionID))
    case ApiRouteSwap => []
    case TokenChop => []
  }

  /** A freeze counts as undone exactly when its process got a SIGCONT or its container was unpaused. That does not yet
      mean that the process runs; `RollbackEffects` says when it does. */
  lemma UndoneByACall(r: Record, unpauseOk: TxId -> bool, continueOk: TxId -> bool)
    requires !IsRouterAction(r)
    ensures Undone(r, unpauseOk, continueOk)
       <==> SendContinue(r.targetPID, true) in UndoCalls(r, unpauseOk, continueOk)
            || (r.containerID != "" && Unpause(r.containerID, true) in UndoCalls(r, unpauseOk, continueOk))
  {
  }

  ghost function AllUndoCalls(list: seq<Record>, unpauseOk: TxId -> bool, continueOk: TxId -> bool): seq<OsCall> {
    if list == [] then []
    else
      AllUndoCalls(list[..|list| - 1], unpauseOk, continueOk) + UndoCalls(list[|list| - 1], unpauseOk, continueOk)
  }

  function UndoDetail(r: Record): Detail {
    Detail(r.targetPID, r.containerID, if IsRouterAction(r) then LedgerThrottled else LedgerPaused,
           RuntimeRunning, RollbackExecuted, LedgerResumed)
  }

  ghost function UndoDetails(list: seq<Record>, unpauseOk: TxId -> bool, continueOk: TxId -> bool): seq<Detail> {
    if list == [] then []
    else
      var last := list[|list| - 1];
      UndoDetails(list[..|list| - 1], unpauseOk, continueOk)
      + (if Undone(last, unpauseOk, continueOk) then [UndoDetail(last)] else [])
  }

  ghost function UndoEvents(list: seq<Record>, unpauseOk: TxId -> bool, continueOk: TxId -> bool): seq<SyncEvent> {
    var details := UndoDetails(list, unpauseOk, continueOk);
    if details == [] then [] else [SyncEvent(|list|, false, |details|, details)]
  }

  ghost function AfterUndoing(l: Ledger, list: seq<Record>, unpauseOk: TxId -> bool, continueOk: TxId -> bool): Ledger {
    if list == [] then l
    else
      var before, last := AfterUndoing(l, list[..|list| - 1], unpauseOk, continueOk), list[|list| - 1];
      if Undone(last, unpauseOk, continueOk) then SetStatus(before, last.transactionID, Completed) else before
  }

  ghost function ProbeDetails(list: seq<Entry>, probe: Pid -> RuntimeState): seq<Detail> {
    if list == [] then []
    else
      var last := list[|list| - 1];
      ProbeDetails(list[..|list| - 1], probe)
      + (match ReconcileEntry(last, probe(last.pid)) case Some(d) => [d] case None => [])
  }

  ghost function AfterProbing(es: Entries, list: seq<Entry>, probe: Pid -> RuntimeState): Entries {
    if list == [] then es
    else
      var before, last := AfterProbing(es, list[..|list| - 1], probe), list[|list| - 1];
      match Reconciled(probe(last.pid))
      case None => before
      case Some(st) => WithState(before, last.token, st)
  }

  /** The policy ledger, the router's registry and the calls made to the operating system. */
  datatype Books = Books(ledger: Ledger, registry: RouterRegistry.Entries, calls: seq<OsCall>)

  function UndoneOne(b: Books, r: Record, unpauseOk: TxId -> bool, continueOk: TxId -> bool): Books {
    Books(if Undone(r, unpauseOk, continueOk) then SetStatus(b.ledger, r.transactionID, Completed) else b.ledger,
          if IsRouterAction(r) then b.registry - {r.targetPID} else b.registry,
          b.calls + UndoCalls(r, unpauseOk, continueOk))
  }

  ghost function UndoneAll(b: Books, list: seq<Record>, unpauseOk: TxId -> bool, continueOk: TxId -> bool): Books {
    if list == [] then b
    else UndoneOne(UndoneAll(b, list[..|list| - 1], unpauseOk, continueOk), list[|list| - 1], unpauseOk, continueOk)
  }

  lemma UndoingGrows(b: Books, list: seq<Record>, i: nat, unpauseOk: TxId -> bool, continueOk: TxId -> bool)
    requires i < |list|
    ensures UndoneAll(b, list[..i + 1], unpauseOk, continueOk)
         == UndoneOne(UndoneAll(b, list[..i], unpauseOk, continueOk), list[i], unpauseOk, continueOk)
    ensures UndoDetails(list[..i + 1], unpauseOk, continueOk)
         == UndoDetails(list[..i], unpauseOk, continueOk)
            + (if Undone(list[i], unpauseOk, continueOk) then [UndoDetail(list[i])] else [])
  {
    PrefixGrows(list, i);
  }

  /** A whole loop, part by part. */
  lemma {:induction false} UndoneInParts(b: Books, list: seq<Record>, unpauseOk: TxId -> bool, continueOk: TxId -> bool)
    ensures UndoneAll(b, list, unpauseOk, continueOk)
         == Parts(b, AfterUndoing(b.ledger, list, unpauseOk, continueOk), RouterPids(list),
                  AllUndoCalls(list, unpauseOk, continueOk))
  {
    if list == [] {
      assert RouterPids(list) == {};
    } else {
      var n := |list| - 1;
      UndoneInParts(b, list[..n], unpauseOk, continueOk);
      PartsGrow(b, list, unpauseOk, continueOk);
    }
  }

  function Parts(b: Books, ledger: Ledger, pids: set<Pid>, calls: seq<OsCall>): Books {
    Books(ledger, b.registry - pids, b.calls + calls)
  }

  lemma PartsGrow(b: Books, list: seq<Record>, unpauseOk: TxId -> bool, continueOk: TxId -> bool)
    requires list != []
    ensures var front, last := list[..|list| - 1], list[|list| - 1];
            UndoneOne(Parts(b, AfterUndoing(b.ledger, front, unpauseOk, continueOk), RouterPids(front),
                            AllUndoCalls(front, unpauseOk, continueOk)), last, unpauseOk, continueOk)
            == Parts(b, AfterUndoing(b.ledger, list, unpauseOk, continueOk), RouterPids(list),
                     AllUndoCalls(list, unpauseOk, continueOk))
  {
    var front, last := list[..|list| - 1], list[|list| - 1];
    assert RouterPids(list) == RouterPids(front) + (if IsRouterAction(last) then {last.targetPID} else {}) by {
      assert list[..|list|] == list;
      RouterPidsGrow(list, |list| - 1);
    }
    RemovedInTurn(b.registry, RouterPids(front), last.targetPID);
    AppendedInTurn(b.calls, AllUndoCalls(front, unpauseOk, continueOk), UndoCalls(last, unpauseOk, continueOk));
  }

  lemma AppendedInTurn<T>(a: seq<T>, b: seq<T>, c: seq<T>)
    ensures a + b + c == a + (b + c)
  {
  }

  lemma RemovedInTurn(es: RouterRegistry.Entries, pids: set<Pid>, pid: Pid)
    ensures es - pids - {pid} == es - (pids + {pid}) && es - (pids + {}) == es - pids
  {
  }

  lemma RouterPidsGrow(records: seq<Record>, i: nat)
    requires i < |records|
    ensures RouterPids(records[..i + 1])
         == RouterPids(records[..i]) + (if IsRouterAction(records[i]) then {records[i].targetPID} else {})
  {
    assert forall j | 0 <= j < i :: records[..i + 1][j] == records[..i][j];
    assert records[..i + 1][i] == records[i];
  }

  lemma {:induction false} UndoingInBulk(l: Ledger, list: seq<Record>, i: nat, now: Nanos,
                                         unpauseOk: TxId -> bool, continueOk: TxId -> bool)
    requires SnapshotOfDue(l.records, now, list) && i <= |list|
    ensures AfterUndoing(l, list[..i], unpauseOk, continueOk)
         == l.(records := RolledBackAmong(l.records, Ids(list[..i]), now, unpauseOk, continueOk))
  {
    if i == 0 {
      assert RolledBackAmong(l.records, Ids(list[..0]), now, unpauseOk, continueOk) == l.records;
    } else {
      var rec := list[i - 1];
      UndoingInBulk(l, list, i - 1, now, unpauseOk, continueOk);
      PrefixGrows(list, i - 1);
      assert rec in list;
      assert forall j | 0 <= j < i - 1 :: list[..i][j] == list[..i - 1][j];
      assert rec.transactionID !in Ids(list[..i - 1]);
      assert Ids(list[..i]) == Ids(list[..i - 1]) + {rec.transactionID};
      UndoOneMore(l.records, Ids(list[..i - 1]), rec, now, unpauseOk, continueOk);
    }
  }

  lemma UndoOneMore(records: map<TxId, Record>, ids: set<TxId>, rec: Record, now: Nanos,
                    unpauseOk: TxId -> bool, continueOk: TxId -> bool)
    requires rec.transactionID in records && records[rec.transactionID] == rec && rec.transactionID !in ids && Due(rec, now)
    ensures var before := RolledBackAmong(records, ids, now, unpauseOk, continueOk);
            RolledBackAmong(records, ids + {rec.transactionID}, now, unpauseOk, continueOk)
            == if Undone(rec, unpauseOk, continueOk)
               then before[rec.transactionID := before[rec.transactionID].(status := Completed)]
               else before
  {
  }

  lemma SnapshotCovers(l: Ledger, list: seq<Record>, now: Nanos, unpauseOk: TxId -> bool, continueOk: TxId -> bool)
    requires SnapshotOfDue(l.records, now, list)
    requires forall id | id in l.records :: l.records[id].transactionID == id
    ensures AfterUndoing(l, list, unpauseOk, continueOk)
         == l.(records := RolledBackAmong(l.records, l.records.Keys, now, unpauseOk, continueOk))
    ensures RouterPids(list) == DueRouterPids(l.records, now)
    ensures list == [] ==> RolledBackAmong(l.records, l.records.Keys, now, unpauseOk, continueOk) == l.records
  {
    forall id | id in l.records && Due(l.records[id], now)
      ensures id in Ids(list) && l.records[id] in list
    {
      assert l.records[id] in list;
      var j :| 0 <= j < |list| && list[j] == l.records[id];
    }
    UndoingInBulk(l, list, |list|, now, unpauseOk, continueOk);
    assert list[..|list|] == list;
    assert RolledBackAmong(l.records, Ids(list), now, unpauseOk, continueOk)
        == RolledBackAmong(l.records, l.records.Keys, now, unpauseOk, continueOk);
  }

  lemma ActiveListed(es: Entries, list: seq<Entry>)
    requires WellKeyed(es) && ListsActive(es, es.Keys, list)
    ensures Tokens(list) == ActiveTokens(es) && |list| == |ActiveTokens(es)|
  {
    forall t | t in ActiveTokens(es) ensures t in Tokens(list) {
      var j :| 0 <= j < |list| && list[j] == es[t];
    }
    forall t | t in Tokens(list) ensures t in ActiveTokens(es) {
      var j :| 0 <= j < |list| && list[j].token == t;
      assert list[j] in list;
    }
    DistinctTokens(list);
  }

  lemma {:induction false} DistinctTokens(list: seq<Entry>)
    requires forall i, j :: 0 <= i < j < |list| ==> list[i].token != list[j].token
    ensures |Tokens(list)| == |list|
  {
    if list != [] {
      var front, last := list[..|list| - 1], list[|list| - 1];
      DistinctTokens(front);
      assert forall i | 0 <= i < |front| :: front[i] == list[i];
      assert Tokens(list) == Tokens(front) + {last.token};
    }
  }

  lemma {:induction false} ProbingInBulk(es: Entries, list: seq<Entry>, i: nat, probe: Pid -> RuntimeState)
    requires ListsActive(es, es.Keys, list) && i <= |list|
    ensures AfterProbing(es, list[..i], probe) == ReconciledAmong(es, Tokens(list[..i]), probe)
  {
    if i == 0 {
      assert ReconciledAmong(es, Tokens(list[..0]), probe) == es;
    } else {
      var e := list[i - 1];
      ProbingInBulk(es, list, i - 1, probe);
      PrefixGrows(list, i - 1);
      assert e in list;
      assert forall j | 0 <= j < i - 1 :: list[..i][j] == list[..i - 1][j];
      assert e.token !in Tokens(list[..i - 1]);
      assert Tokens(list[..i]) == Tokens(list[..i - 1]) + {e.token};
      ReconcileOneMore(es, Tokens(list[..i - 1]), e, probe);
    }
  }

  lemma ReconcileOneMore(es: Entries, tokens: set<Token>, e: Entry, probe: Pid -> RuntimeState)
    requires e.token in es && es[e.token] == e && e.token !in tokens && Active(e)
    ensures ReconciledAmong(es, tokens + {e.token}, probe)
         == (match Reconciled(probe(e.pid))
             case None => ReconciledAmong(es, tokens, probe)
             case Some(st) => WithState(ReconciledAmong(es, tokens, probe), e.token, st))
  {
  }

  lemma {:induction false} NoDetailsNoChange(list: seq<Entry>, probe: Pid -> RuntimeState)
    ensures ProbeDetails(list, probe) == [] <==> forall j | 0 <= j < |list| :: Reconciled(probe(list[j].pid)).None?
  {
    if list != [] {
      var front := list[..|list| - 1];
      NoDetailsNoChange(front, probe);
      assert forall j | 0 <= j < |front| :: front[j] == list[j];
    }
  }

  lemma AllActiveReconciled(es: Entries, list: seq<Entry>, probe: Pid -> RuntimeState)
    requires WellKeyed(es) && ListsActive(es, es.Keys, list) && Tokens(list) == ActiveTokens(es)
    ensures AfterProbing(es, list, probe) == ReconcileAll(es, probe)
    ensures ReconcileAll(es, probe) == es <==> ProbeDetails(list, probe) == []
    ensures forall i | 0 <= i < |list| :: Active(list[i])
  {
    ProbingInBulk(es, list, |list|, probe);
    assert list[..|list|] == list;
    assert ReconciledAmong(es, Tokens(list), probe) == ReconcileAll(es, probe);
    NoDetailsNoChange(list, probe);
    ListedCover(es, list, probe);
  }

  lemma ListedCover(es: Entries, list: seq<Entry>, probe: Pid -> RuntimeState)
    requires ListsActive(es, es.Keys, list)
    ensures forall i | 0 <= i < |list| :: Active(list[i])
    ensures ReconcileAll(es, probe) == es <==> forall j | 0 <= j < |list| :: Reconciled(probe(list[j].pid)).None?
  {
    forall i | 0 <= i < |list|
      ensures Active(list[i])
      ensures Reconciled(probe(list[i].pid)).Some? ==> ReconcileAll(es, probe)[list[i].token] != es[list[i].token]
    {
      assert list[i] in list;
    }
    if forall j | 0 <= j < |list| :: Reconciled(probe(list[j].pid)).None? {
      forall t | t in es ensures ReconcileAll(es, probe)[t] == es[t] {
        if Active(es[t]) {
          assert es[t] in list;
        }
      }
    }
  }
}
