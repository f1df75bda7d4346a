/** The router as the policy engine's second client: alerts become chopped or rerouted requests. */
module Router {
  import opened PolicyTypes
  import opened PolicyLedger
  import opened PolicyRules
  import opened PolicyEngine
  import opened RouterRegistry

  function RemedyForAnomaly(anomalyType: string): Remedy {
    match anomalyType
    case "SEMANTIC_REPETITION_LOOP" => TokenChopRemedy
    case "HOST_MEMORY_LEAK" => FallbackRoute
    case "IDLE_GPU_HOG" => FallbackRoute
    case _ => TokenChopRemedy
  }

  function ActionFor(rm: Remedy): ActionType {
    if rm == FallbackRoute || rm == BothRemedies then ApiRouteSwap else ActionType.TokenChop
  }

  /** The router never names the process, so only PID rules and the cap can refuse it. */
  function RouterIntent(pid: Pid, anomalyType: string): Intent {
    Intent(pid, "", "", ActionFor(RemedyForAnomaly(anomalyType)))
  }

  /** The registry after an authorised alert: an alert on a visible entry refreshes it and keeps its remedy, any other
      alert activates one. */
  function Alerted(es: Entries, pid: Pid, rm: Remedy, looked: Nanos, acted: Nanos, cooling: Nanos): Entries {
    var seen := Apply(es, Look(pid), looked, cooling);
    Apply(seen, if Found(es, pid, looked).Some? then Refresh(pid) else Activate(pid, rm, ""), acted, cooling)
  }

  /** After an authorised alert the process is throttled: a lookup finds it until the cooling period has passed since
      the alert, and while it was visible its remedy is the one it had. */
  lemma AlertedIsFound(es: Entries, clock: Nanos, pid: Pid, rm: Remedy, looked: Nanos, acted: Nanos, cooling: Nanos, now: Nanos)
    requires Consistent(es, clock, cooling) && clock <= looked <= acted <= now
    ensures var found := Found(Alerted(es, pid, rm, looked, acted, cooling), pid, now);
            var kept := if Found(es, pid, looked).Some? then Found(es, pid, looked).value.remedy else rm;
            (found.Some? <==> now <= acted + cooling) && (found.Some? ==> found.value.remedy == kept)
  {
  }

  /** From the alert at `acted` on, and for the cooling period, a lookup finds the process. A process that a lookup found
      before keeps its remedy; any other gets the one for its anomaly. A new entry names no model and counts from zero; an old
      one keeps its models and counters. No other process is touched. */
  ghost predicate Throttles(before: Entries, after: Entries, pid: Pid, anomalyType: string, looked: Nanos, acted: Nanos,
                            cooling: Nanos)
  {
    && after - {pid} == before - {pid} && pid in after
    && after[pid].remedy == (if pid in before && looked <= before[pid].coolingUntil then before[pid].remedy
                             else if anomalyType == "HOST_MEMORY_LEAK" then FallbackRoute
                             else if anomalyType == "IDLE_GPU_HOG" then FallbackRoute
                             else TokenChopRemedy)
    && (pid !in before ==>
          after[pid] == MitigationState(pid, after[pid].remedy, "", "", acted, acted, acted + cooling, 0, 0, true))
    && (pid in before ==>
          after[pid] == before[pid].(remedy := after[pid].remedy, lastAlertAt := acted, coolingUntil := acted + cooling,
                                     active := true))
    && forall now | now >= acted :: Found(after, pid, now).Some? <==> now <= acted + cooling
  }

  lemma AlertThrottles(es: Entries, clock: Nanos, pid: Pid, anomalyType: string, looked: Nanos, acted: Nanos,
                       cooling: Nanos)
    requires Consistent(es, clock, cooling) && clock <= looked <= acted
    ensures Throttles(es, Alerted(es, pid, RemedyForAnomaly(anomalyType), looked, acted, cooling), pid, anomalyType,
                      looked, acted, cooling)
  {
  }

  /** The record of a router's request: a memory leak or an idle GPU asks for a reroute, anything else for a chop. */
  ghost predicate Requested(r: Record, pid: Pid, anomalyType: string) {
    && r.targetPID == pid && r.containerID == "" && r.processName == ""
    && r.actionType == (if anomalyType == "HOST_MEMORY_LEAK" then ApiRouteSwap
                        else if anomalyType == "IDLE_GPU_HOG" then ApiRouteSwap
                        else ActionType.TokenChop)
    && r.status == (if r.rejectionReason.None? then Executed else Rejected)
  }

  class AlertRouter {
    const policy: Engine
    const reg: Registry

    constructor (policy: Engine, reg: Registry)
      ensures this.policy == policy && this.reg == reg
    {
      this.policy, this.reg := policy, reg;
    }

    method HandleAlert(pid: Pid, anomalyType: string, countedAt: Nanos, stampedAt: Nanos,
                       looked: Nanos, acted: Nanos, freshID: TxId)
      requires policy.Valid() && reg.Valid() && freshID !in policy.ledger.records
      requires reg.clock <= looked <= acted
      modifies policy`events, policy.ledger, reg
      ensures policy.Valid() && reg.Valid()
      ensures var before := old(policy.ledger.View());
              var intent := RouterIntent(pid, anomalyType);
              var v := Evaluate(policy.evaluator.View(), intent, |UnexpiredFor(before, pid, countedAt)|);
              var registered := Insert(before,
                                  RecordFor(before, intent, v, policy.ledger.cooldownSecs, stampedAt, freshID));
              if v.authorized then
                && policy.ledger.View() == SetStatus(registered, freshID, Executed)
                && reg.entries == Alerted(old(reg.entries), pid, RemedyForAnomaly(anomalyType), looked, acted,
                                          reg.coolingOff)
              else policy.ledger.View() == registered && reg.entries == old(reg.entries)
      ensures freshID in policy.ledger.records
      ensures Requested(policy.ledger.records[freshID], pid, anomalyType)
      ensures if policy.ledger.records[freshID].status == Executed
              then Throttles(old(reg.entries), reg.entries, pid, anomalyType, looked, acted, reg.coolingOff)
              else reg.entries == old(reg.entries)
    {
      ghost var entries, clock := reg.entries, reg.clock;
      var rm := RemedyForAnomaly(anomalyType);
      if rm == NoRemedy { return; }
      var act := ActionType.TokenChop;
      if rm == FallbackRoute || rm == BothRemedies { act := ApiRouteSwap; }
      var authorized, txID, polEvt := policy.EvaluateAndRegister(Intent(pid, "", "", act), countedAt, stampedAt, freshID);
      if !authorized { return; }
      policy.ConfirmExecution(txID);
      Throttle(pid, rm, looked, acted);
      AlertThrottles(entries, clock, pid, anomalyType, looked, acted, reg.coolingOff);
    }

    /** The branch for a router that was configured without a policy engine: every alert throttles its process. */
    method HandleUnconditionally(pid: Pid, anomalyType: string, looked: Nanos, acted: Nanos)
      requires reg.Valid() && reg.clock <= looked <= acted
      modifies reg
      ensures reg.Valid()
      ensures reg.entries
           == Alerted(old(reg.entries), pid, RemedyForAnomaly(anomalyType), looked, acted, reg.coolingOff)
      ensures Throttles(old(reg.entries), reg.entries, pid, anomalyType, looked, acted, reg.coolingOff)
    {
      AlertThrottles(reg.entries, reg.clock, pid, anomalyType, looked, acted, reg.coolingOff);
      var rm := RemedyForAnomaly(anomalyType);
      if rm == NoRemedy { return; }
      Throttle(pid, rm, looked, acted);
    }

    /** Refreshes the entry that a lookup finds, or activates one. */
    method Throttle(pid: Pid, rm: Remedy, looked: Nanos, acted: Nanos)
      requires reg.Valid() && reg.clock <= looked <= acted
      modifies reg
      ensures reg.Valid() && reg.entries == Alerted(old(reg.entries), pid, rm, looked, acted, reg.coolingOff)
    {
      var st := reg.Lookup(pid, looked);
      if st.None? {
        var _ := reg.ActivatePid(pid, rm, "", acted);
      } else {
        reg.RefreshAlert(pid, acted);
      }
    }
  }
}
