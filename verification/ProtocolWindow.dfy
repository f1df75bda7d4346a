/** The sliding-window form of the velocity cap: a bound on authorisations over time, not on ledger contents. */
module ProtocolWindow {
  import opened PolicyTypes
  import opened PolicyLedger
  import opened Protocol
  import opened ProtocolBasics
  import opened ProtocolVelocity

  predicate InWindow(c: Config, from: Nanos, at: Nanos) {
    from <= at <= from + Cooldown(c)
  }

  /** The authorisations of `pid` stamped within the closed window of cooldown length that starts at `from`. */
  ghost function Authorised(c: Config, p: PolicySide, pid: Pid, from: Nanos): set<TxId> {
    set tx | tx in p.authorised && p.authorised[tx].pid == pid && InWindow(c, from, p.authorised[tx].at)
  }

  /** The client may yet register an authorisation for `pid` stamped within the window. */
  predicate MayLand(c: Config, now: Nanos, cl: Caller, pid: Pid, from: Nanos) {
    && MayRegister(c.maxActions, cl, pid)
    && (if cl.Stamped? then InWindow(c, from, cl.at) else now <= from + Cooldown(c))
  }

  ghost function Landing(c: Config, s: State, pid: Pid, from: Nanos): set<nat> {
    set i: nat | i < |s.callers| && MayLand(c, s.clock, s.callers[i], pid, from)
  }

  /** Unless capacity eviction has struck, an authorisation stays in the ledger for its whole cooldown. */
  ghost predicate RetainedInv(c: Config, s: State) {
    && s.pol.authorised.Keys <= s.pol.issued
    && (!s.pol.evicted ==> forall tx | tx in s.pol.authorised :: Retained(c, s, tx))
  }

  ghost predicate Retained(c: Config, s: State, tx: TxId)
    requires tx in s.pol.authorised
  {
    s.clock <= s.pol.authorised[tx].at + Cooldown(c) ==>
      && tx in s.pol.ledger.records
      && s.pol.ledger.records[tx].targetPID == s.pol.authorised[tx].pid
      && s.pol.ledger.records[tx].timestamp == s.pol.authorised[tx].at
  }

  ghost predicate WithinWindow(c: Config, s: State, pid: Pid, from: Nanos) {
    s.pol.evicted || |Authorised(c, s.pol, pid, from)| + |Landing(c, s, pid, from)| <= Slack(c)
  }

  lemma InitWithinWindow(c: Config, s: State, pid: Pid, from: Nanos)
    requires Init(c, s)
    ensures RetainedInv(c, s) && WithinWindow(c, s, pid, from)
  {
    assert Authorised(c, s.pol, pid, from) == {};
    assert Landing(c, s, pid, from) == {};
  }

  lemma StepKeepsRetained(c: Config, s: State, a: Action)
    requires BasicInv(c, s) && RetainedInv(c, s) && Enabled(c, s, a)
    ensures RetainedInv(c, Next(c, s, a))
  {
    var s' := Next(c, s, a);
    if !s'.pol.evicted {
      forall tx | tx in s'.pol.authorised ensures Retained(c, s', tx) {
        if tx in s.pol.authorised {
          assert Retained(c, s, tx);
          if s.clock <= s.pol.authorised[tx].at + Cooldown(c) {
            StepRetains(c, s, a, tx);
          }
        }
      }
    }
  }

  /** Short of eviction, no step drops an unexpired record or changes its target or stamp. */
  lemma StepRetains(c: Config, s: State, a: Action, tx: TxId)
    requires BasicInv(c, s) && Enabled(c, s, a) && !Next(c, s, a).pol.evicted
    requires tx in s.pol.ledger.records && Unexpired(s.pol.ledger.records[tx], s.clock)
    ensures tx in Next(c, s, a).pol.ledger.records
    ensures LedgerChange(s, Next(c, s, a), tx)
  {
    var l := s.pol.ledger;
    assert tx in NextPolicy(c, s, a).ledger.records by {
      if a.Register? {
        RegisterInserts(c, s, a);
      } else if a.WriteStatus? {
        WriteStatusSets(c, s, a);
      } else if a.Sweep? {
        SweepKeepsUnexpired(c, s, a, tx);
      } else if a.CompleteUndone? {
        CompletionSets(c, s, a);
      } else if a.CompleteToken? {
        ResumeSets(c, s, a);
      } else {
        OthersKeepLedger(c, s, a);
      }
    }
    assert Next(c, s, a).pol == NextPolicy(c, s, a);
    StepChangesOnlyStatus(c, s, a, tx);
  }

  lemma SweepKeepsUnexpired(c: Config, s: State, a: Action, tx: TxId)
    requires Enabled(c, s, a) && a.Sweep? && !NextPolicy(c, s, a).evicted
    requires tx in s.pol.ledger.records && Unexpired(s.pol.ledger.records[tx], s.clock)
    ensures tx in NextPolicy(c, s, a).ledger.records
  {
    assert tx in UnexpiredRecords(s.pol.ledger, s.clock);
  }

  /** Counting happens after every authorisation still in a window that reaches the present, so it sees them all. */
  lemma CountSeesWindow(c: Config, s: State, pid: Pid, from: Nanos)
    requires BasicInv(c, s) && RetainedInv(c, s) && !s.pol.evicted && s.clock <= from + Cooldown(c)
    ensures |Authorised(c, s.pol, pid, from)| <= |UnexpiredFor(s.pol.ledger, pid, s.clock)|
  {
    forall tx | tx in Authorised(c, s.pol, pid, from) ensures tx in UnexpiredFor(s.pol.ledger, pid, s.clock) {
      assert Retained(c, s, tx);
    }
    SubsetSize(Authorised(c, s.pol, pid, from), UnexpiredFor(s.pol.ledger, pid, s.clock));
  }

  lemma StepLanding(c: Config, s: State, a: Action, pid: Pid, from: Nanos)
    requires BasicInv(c, s) && Enabled(c, s, a)
    ensures var before, after := Landing(c, s, pid, from), Landing(c, Next(c, s, a), pid, from);
            && (!a.Count? ==> after <= before)
            && (a.Count? ==> after <= before + {a.i})
            && (a.Count? && a.i in after ==>
                  a.intent.targetPID == pid && s.clock <= from + Cooldown(c)
                  && |UnexpiredFor(s.pol.ledger, pid, s.clock)| < c.maxActions)
            && (a.Register? ==> a.i !in after)
  {
    OthersStayPut(c, s, a);
    if ActsFor(a).Some? {
      ActorLands(c, s, a, pid, from);
    }
  }

  /** Counting in time is the only way for a client to come to land an authorisation in the window. */
  lemma ActorLands(c: Config, s: State, a: Action, pid: Pid, from: Nanos)
    requires BasicInv(c, s) && Enabled(c, s, a) && ActsFor(a).Some?
    ensures var cl, cl' := s.callers[ActsFor(a).value], NextCaller(c, s, a);
            && (!a.Count? && MayLand(c, s.clock, cl', pid, from) ==> MayLand(c, s.clock, cl, pid, from))
            && (a.Count? && MayLand(c, s.clock, cl', pid, from) ==>
                  a.intent.targetPID == pid && s.clock <= from + Cooldown(c)
                  && |UnexpiredFor(s.pol.ledger, pid, s.clock)| < c.maxActions)
            && (a.Register? ==> !MayLand(c, s.clock, cl', pid, from))
            && !a.Tick?
  {
    ActorThreat(c, s, a, pid);
  }

  lemma StepAuthorised(c: Config, s: State, a: Action, pid: Pid, from: Nanos)
    requires BasicInv(c, s) && RetainedInv(c, s) && Enabled(c, s, a)
    ensures var before := Authorised(c, s.pol, pid, from);
            var after := Authorised(c, Next(c, s, a).pol, pid, from);
            if a.Register? && a.i in Landing(c, s, pid, from) then after <= before + {a.tx} else after == before
  {
  }

  lemma StepWithinWindow(c: Config, s: State, a: Action, pid: Pid, from: Nanos)
    requires BasicInv(c, s) && RetainedInv(c, s) && Enabled(c, s, a) && WithinWindow(c, s, pid, from)
    ensures WithinWindow(c, Next(c, s, a), pid, from)
  {
    var s' := Next(c, s, a);
    if !s'.pol.evicted {
      var auths, auths' := Authorised(c, s.pol, pid, from), Authorised(c, s'.pol, pid, from);
      var land, land' := Landing(c, s, pid, from), Landing(c, s', pid, from);
      StepLanding(c, s, a, pid, from);
      StepAuthorised(c, s, a, pid, from);
      StepKeepsCallers(c, s, a);
      if a.Count? && a.i in land' {
        CountSeesWindow(c, s, pid, from);
        IndicesBounded(land', |s'.callers|);
      } else if a.Register? && a.i in land {
        SubsetSize(auths', auths + {a.tx});
        SubsetSize(land', land - {a.i});
      } else {
        SubsetSize(land', land);
      }
    }
  }
}
