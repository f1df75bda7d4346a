/** What a freeze and its rollback together do to the process. */
module RollbackEffects {
  import opened Mitigation
  import opened PolicyLedger
  import opened PolicyRules
  import opened PolicyTypes
  import opened Rollback
  import RouterRegistry

  /** What keeps a process from running: a signal, or the pause of its container. */
  datatype Hold = Hold(stopped: bool, paused: bool)

  const FREE := Hold(false, false)

  function Held(h: Hold, call: OsCall, pid: Pid, containerID: string): Hold {
    match call
    case SendStop(p, ok) => if ok && p == pid then h.(stopped := true) else h
    case SendContinue(p, ok) => if ok && p == pid then h.(stopped := false) else h
    case Pause(id, ok) => if ok && id == containerID then h.(paused := true) else h
    case Unpause(id, ok) => if ok && id == containerID then h.(paused := false) else h
  }

  function HeldAfter(calls: seq<OsCall>, pid: Pid, containerID: string): Hold {
    if calls == [] then FREE
    else Held(HeldAfter(calls[..|calls| - 1], pid, containerID), calls[|calls| - 1], pid, containerID)
  }

  lemma HeldThen(calls: seq<OsCall>, call: OsCall, pid: Pid, containerID: string)
    ensures HeldAfter(calls + [call], pid, containerID)
         == Held(HeldAfter(calls, pid, containerID), call, pid, containerID)
  {
    assert (calls + [call])[..|calls|] == calls;
  }

  lemma FreezeHolds(past: seq<OsCall>, pid: Pid, containerID: string, pauseOk: bool, stopOk: bool)
    requires HeldAfter(past, pid, containerID) == FREE && Freezes(containerID, pauseOk, stopOk)
    ensures HeldAfter(past + FreezeCalls(pid, containerID, pauseOk, stopOk), pid, containerID)
         == if containerID != "" && pauseOk then Hold(false, true) else Hold(true, false)
  {
    var pause, stop := Pause(containerID, pauseOk), SendStop(pid, stopOk);
    HeldThen(past, pause, pid, containerID);
    HeldThen(past + [pause], stop, pid, containerID);
    HeldThen(past, stop, pid, containerID);
    assert past + [pause] + [stop] == past + ([pause] + [stop]);
  }

  lemma ReleaseFrees(past: seq<OsCall>, pid: Pid, containerID: string, unpauseOk: bool, continueOk: bool)
    requires Freezes(containerID, unpauseOk, continueOk)
    ensures var h := HeldAfter(past, pid, containerID);
            HeldAfter(past + ReleaseCalls(pid, containerID, unpauseOk, continueOk), pid, containerID)
            == if containerID != "" && unpauseOk then h.(paused := false) else h.(stopped := false)
  {
    var unpause, cont := Unpause(containerID, unpauseOk), SendContinue(pid, continueOk);
    HeldThen(past, unpause, pid, containerID);
    HeldThen(past + [unpause], cont, pid, containerID);
    HeldThen(past, cont, pid, containerID);
    assert past + [unpause] + [cont] == past + ([unpause] + [cont]);
  }

  /** The books after an alert was acted on; `past` are the calls made before. */
  ghost function Frozen(past: seq<OsCall>, registry: RouterRegistry.Entries, out: Outcome): Books {
    Books(out.ledger, registry, past + out.calls)
  }

  /** The record that an alert which worked leaves behind. */
  ghost predicate ExecutedFor(r: Record, alert: Alert, txID: TxId) {
    && r.transactionID == txID && r.status == Executed
    && r.targetPID == alert.pid && r.containerID == alert.containerID
    && r.actionType == if alert.containerID != "" then ContainerPause else SigStop
  }

  lemma SuccessLeaves(before: Ledger, es: Entries, rules: Rules, cooldown: int, alert: Alert, pauseOk: bool, stopOk: bool,
                      countedAt: Nanos, stampedAt: Nanos, txID: TxId, token: Token)
    ensures var out := AlertOutcome(before, es, rules, cooldown, alert, pauseOk, stopOk, countedAt, stampedAt,
                                    txID, token);
            out.status == Success ==>
              && txID in out.ledger.records && ExecutedFor(out.ledger.records[txID], alert, txID)
              && out.calls == FreezeCalls(alert.pid, alert.containerID, pauseOk, stopOk)
              && Freezes(alert.containerID, pauseOk, stopOk)
  {
  }

  /** Undoing the record of an alert. */
  lemma UndoingFrees(b: Books, alert: Alert, txID: TxId, unpauseOk: TxId -> bool, continueOk: TxId -> bool)
    requires txID in b.ledger.records && ExecutedFor(b.ledger.records[txID], alert, txID)
    ensures var r, h := b.ledger.records[txID], HeldAfter(b.calls, alert.pid, alert.containerID);
            var after := UndoneOne(b, r, unpauseOk, continueOk);
            && txID in after.ledger.records
            && after.ledger.records[txID] == (if Freezes(alert.containerID, unpauseOk(txID), continueOk(txID))
                                              then r.(status := Completed) else r)
            && (Freezes(alert.containerID, unpauseOk(txID), continueOk(txID)) ==>
                  HeldAfter(after.calls, alert.pid, alert.containerID)
                  == if alert.containerID != "" && unpauseOk(txID) then h.(paused := false) else h.(stopped := false))
  {
    var r := b.ledger.records[txID];
    assert UndoCalls(r, unpauseOk, continueOk)
        == ReleaseCalls(alert.pid, alert.containerID, unpauseOk(txID), continueOk(txID));
    if Freezes(alert.containerID, unpauseOk(txID), continueOk(txID)) {
      ReleaseFrees(b.calls, alert.pid, alert.containerID, unpauseOk(txID), continueOk(txID));
    }
  }

  /** An alert freezes a running process, and later the rollback controller undoes it. The record ends COMPLETED exactly
      if some call of the rollback succeeds. But then the process runs if and only if the rollback undid what the
      freeze had done: for a container, unpausing works exactly if pausing did. */
  lemma RolledBackRuns(before: Ledger, es: Entries, rules: Rules, cooldown: int, alert: Alert, pauseOk: bool,
                       stopOk: bool, countedAt: Nanos, stampedAt: Nanos, txID: TxId, token: Token,
                       past: seq<OsCall>, registry: RouterRegistry.Entries,
                       unpauseOk: TxId -> bool, continueOk: TxId -> bool)
    requires HeldAfter(past, alert.pid, alert.containerID) == FREE
    ensures var out := AlertOutcome(before, es, rules, cooldown, alert, pauseOk, stopOk, countedAt, stampedAt,
                                    txID, token);
            out.status == Success ==>
              && txID in out.ledger.records
              && var frozen := Frozen(past, registry, out);
                 var after := UndoneOne(frozen, out.ledger.records[txID], unpauseOk, continueOk);
                 && HeldAfter(frozen.calls, alert.pid, alert.containerID) != FREE
                 && txID in after.ledger.records
                 && (after.ledger.records[txID].status == Completed
                     <==> Freezes(alert.containerID, unpauseOk(txID), continueOk(txID)))
                 && (after.ledger.records[txID].status == Completed ==>
                       (HeldAfter(after.calls, alert.pid, alert.containerID) == FREE
                        <==> alert.containerID == "" || unpauseOk(txID) == pauseOk))
  {
    var out := AlertOutcome(before, es, rules, cooldown, alert, pauseOk, stopOk, countedAt, stampedAt, txID, token);
    SuccessLeaves(before, es, rules, cooldown, alert, pauseOk, stopOk, countedAt, stampedAt, txID, token);
    if out.status == Success {
      FreezeHolds(past, alert.pid, alert.containerID, pauseOk, stopOk);
      UndoingFrees(Frozen(past, registry, out), alert, txID, unpauseOk, continueOk);
    }
  }

  /** Both ways to fail. Pausing a container failed, SIGSTOP was sent instead, and unpausing succeeds: the process stays
      stopped. Or pausing worked, unpausing fails and SIGCONT is sent instead: the container stays paused. Either way
      the record reads COMPLETED, and no check looks at it again. */
  lemma CompletedYetHeld(before: Ledger, es: Entries, rules: Rules, cooldown: int, alert: Alert, pauseOk: bool,
                         countedAt: Nanos, stampedAt: Nanos, txID: TxId, token: Token, now: Nanos)
    requires alert.containerID != ""
    ensures var out := AlertOutcome(before, es, rules, cooldown, alert, pauseOk, true, countedAt, stampedAt, txID, token);
            out.status == Success ==>
              && txID in out.ledger.records
              && var after := UndoneOne(Frozen([], map[], out), out.ledger.records[txID], _ => !pauseOk, _ => true);
                 && txID in after.ledger.records
                 && after.ledger.records[txID].status == Completed && !Due(after.ledger.records[txID], now)
                 && HeldAfter(after.calls, alert.pid, alert.containerID) == Hold(!pauseOk, pauseOk)
  {
    var out := AlertOutcome(before, es, rules, cooldown, alert, pauseOk, true, countedAt, stampedAt, txID, token);
    SuccessLeaves(before, es, rules, cooldown, alert, pauseOk, true, countedAt, stampedAt, txID, token);
    if out.status == Success {
      FreezeHolds([], alert.pid, alert.containerID, pauseOk, true);
      UndoingFrees(Frozen([], map[], out), alert, txID, _ => !pauseOk, _ => true);
    }
  }
}
