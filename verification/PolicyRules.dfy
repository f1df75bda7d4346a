/** The rule evaluator: an ordered chain of vetoes ending in the velocity cap. */
module PolicyRules {
  import opened Options
  import opened PolicyTypes

  datatype Rules = Rules(
    blacklistNames: set<string>,
    whitelistNames: set<string>,
    whitelistIDs: set<string>,
    pidThreshold: int,
    maxActionsPerPID: int)

  datatype Verdict = Verdict(authorized: bool, matched: seq<RuleName>, rejection: Option<RuleName>)

  function Deny(rule: RuleName): Verdict {
    Verdict(false, [rule], Some(rule))
  }

  function Evaluate(rules: Rules, intent: Intent, historicalCount: int): Verdict {
    if intent.targetPID <= 0 then Deny(PidBoundary)
    else if intent.targetPID < rules.pidThreshold then Deny(SystemBlacklist)
    else if intent.processName != "" && intent.processName in rules.blacklistNames then Deny(SystemBlacklist)
    else if intent.processName != "" && intent.processName in rules.whitelistNames then Deny(UserWhitelist)
    else if intent.containerID != "" && intent.containerID in rules.whitelistIDs then Deny(UserWhitelist)
    else if historicalCount >= rules.maxActionsPerPID then
      Verdict(false, [PidBoundary, VelocityCap], Some(VelocityCap))
    else Verdict(true, [PidBoundary, SystemBlacklist], None)
  }

  /** Protected targets are refused whatever their history. */
  ghost predicate Protected(rules: Rules, intent: Intent) {
    || intent.targetPID <= 0
    || intent.targetPID < rules.pidThreshold
    || (intent.processName != "" && intent.processName in rules.blacklistNames + rules.whitelistNames)
    || (intent.containerID != "" && intent.containerID in rules.whitelistIDs)
  }

  datatype Check = Check(fails: bool, rule: RuleName)

  /** The checks in the order in which they are made, each with the rule it is blamed on. */
  ghost function Checks(rules: Rules, intent: Intent, count: int): seq<Check> {
    [ Check(intent.targetPID <= 0, PidBoundary),
      Check(intent.targetPID < rules.pidThreshold, SystemBlacklist),
      Check(intent.processName != "" && intent.processName in rules.blacklistNames, SystemBlacklist),
      Check(intent.processName != "" && intent.processName in rules.whitelistNames, UserWhitelist),
      Check(intent.containerID != "" && intent.containerID in rules.whitelistIDs, UserWhitelist),
      Check(count >= rules.maxActionsPerPID, VelocityCap) ]
  }

  ghost predicate FirstFailing(checks: seq<Check>, k: nat) {
    k < |checks| && checks[k].fails && forall j | 0 <= j < k :: !checks[j].fails
  }

  /** A request passes iff its target is unprotected and below the cap; the cap is blamed only when nothing else
      forbids the request. */
  lemma VerdictMeaning(rules: Rules, intent: Intent, count: int)
    ensures var v := Evaluate(rules, intent, count);
            && (v.authorized <==> !Protected(rules, intent) && count < rules.maxActionsPerPID)
            && (v.rejection == Some(VelocityCap) <==> !Protected(rules, intent) && count >= rules.maxActionsPerPID)
            && (v.authorized <==> v.rejection.None?)
  {
  }

  /** A request passes iff no check fails, and a refusal is blamed on the first check that does. A request that gets as
      far as the cap matches the PID boundary before it; any other refusal matches only the rule it is blamed on. */
  lemma VerdictInOrder(rules: Rules, intent: Intent, count: int)
    ensures var v, checks := Evaluate(rules, intent, count), Checks(rules, intent, count);
            && (v.authorized <==> forall k | 0 <= k < |checks| :: !checks[k].fails)
            && (forall k: nat | FirstFailing(checks, k) :: v.rejection == Some(checks[k].rule))
            && (v.authorized <==> v.rejection.None?)
            && v.matched == (if v.authorized then [PidBoundary, SystemBlacklist]
                             else if v.rejection == Some(VelocityCap) then [PidBoundary, VelocityCap]
                             else [v.rejection.value])
  {
    var checks := Checks(rules, intent, count);
    assert |checks| == 6;
    assert (forall k | 0 <= k < |checks| :: !checks[k].fails)
      <==> !(checks[0].fails || checks[1].fails || checks[2].fails || checks[3].fails || checks[4].fails || checks[5].fails);
    forall k: nat | FirstFailing(checks, k) ensures Evaluate(rules, intent, count).rejection == Some(checks[k].rule) {
      assert k == 0 || k == 1 || k == 2 || k == 3 || k == 4 || k == 5;
      assert forall j | 0 <= j < k :: !checks[j].fails;
    }
  }

  function NonEmpty(names: seq<string>): set<string> {
    set n | n in names && n != ""
  }

  class RuleEvaluator {
    const blacklistNames: set<string>
    var whitelistNames: set<string>
    var whitelistIDs: set<string>
    const pidThreshold: int
    const maxActionsPerPID: int

    function View(): Rules
      reads this
    {
      Rules(blacklistNames, whitelistNames, whitelistIDs, pidThreshold, maxActionsPerPID)
    }

    constructor (blacklist: seq<string>, whitelist: seq<string>, ids: seq<string>, threshold: int, maxActions: int)
      ensures View() == Rules(NonEmpty(blacklist), NonEmpty(whitelist), NonEmpty(ids),
                              if threshold <= 0 then 100 else threshold,
                              if maxActions <= 0 then 5 else maxActions)
      ensures forall n :: n in blacklistNames <==> n in blacklist && n != ""
      ensures forall n :: n in whitelistNames <==> n in whitelist && n != ""
      ensures forall n :: n in whitelistIDs <==> n in ids && n != ""
    {
      pidThreshold := if threshold <= 0 then 100 else threshold;
      maxActionsPerPID := if maxActions <= 0 then 5 else maxActions;
      blacklistNames := NonEmpty(blacklist);
      whitelistNames := NonEmpty(whitelist);
      whitelistIDs := NonEmpty(ids);
    }

    /** Replaces both whitelists, skipping empty strings; the cap and the blacklist are fixed for life. */
    method UpdateWhitelist(names: seq<string>, ids: seq<string>)
      modifies this
      ensures View() == old(View()).(whitelistNames := NonEmpty(names), whitelistIDs := NonEmpty(ids))
      ensures forall n :: n in whitelistNames <==> n in names && n != ""
      ensures forall n :: n in whitelistIDs <==> n in ids && n != ""
    {
      var newNames: set<string>, newIDs: set<string> := {}, {};
      for i := 0 to |names|
        invariant newNames == NonEmpty(names[..i])
      {
        assert names[..i + 1] == names[..i] + [names[i]];
        if names[i] != "" { newNames := newNames + {names[i]}; }
      }
      for i := 0 to |ids|
        invariant newIDs == NonEmpty(ids[..i])
      {
        assert ids[..i + 1] == ids[..i] + [ids[i]];
        if ids[i] != "" { newIDs := newIDs + {ids[i]}; }
      }
      assert names[..|names|] == names && ids[..|ids|] == ids;
      whitelistNames, whitelistIDs := newNames, newIDs;
    }

    predicate IsWhitelisted(processName: string, containerID: string)
      reads this
    {
      || (processName != "" && processName in whitelistNames)
      || (containerID != "" && containerID in whitelistIDs)
    }
  }
}
