/** How many actions a PID can attract: the interleaved bounds on the velocity cap. */
module ProtocolVelocity {
  import opened PolicyTypes
  import opened PolicyLedger
  import opened PolicyRules
  import opened Protocol
  import opened ProtocolBasics

  /** The unexpired records of `pid` that were registered as authorised, whatever became of them since. */
  ghost function UnexpiredAuthorised(l: Ledger, pid: Pid, now: Nanos): set<TxId> {
    set id | id in UnexpiredFor(l, pid, now) && l.records[id].rejectionReason.None?
  }

  /** The client has an authorisation for `pid` that is not in the ledger yet, or may still turn its count into one. */
  predicate MayRegister(maxActions: int, cl: Caller, pid: Pid) {
    || (cl.Counted? && cl.intent.targetPID == pid && cl.count < maxActions)
    || (HoldsVerdict(cl) && cl.intent.targetPID == pid && cl.verdict.authorized)
  }

  ghost function Pending(maxActions: int, callers: seq<Caller>, pid: Pid): set<nat> {
    set i: nat | i < |callers| && MayRegister(maxActions, callers[i], pid)
  }

  ghost predicate VelocityInv(c: Config, s: State) {
    forall pid :: WithinCap(c, s, pid)
  }

  /** The cap as it holds under interleaving: `clients - 1` above the configured maximum. */
  ghost predicate WithinCap(c: Config, s: State, pid: Pid) {
    |UnexpiredAuthorised(s.pol.ledger, pid, s.clock)| + |Pending(c.maxActions, s.callers, pid)|
      <= Slack(c)
  }

  /** `maxActions + clients - 1`, or 0 when there is no client or nothing is ever allowed. */
  function Slack(c: Config): nat {
    if c.clients == 0 || c.maxActions == 0 then 0 else c.maxActions + c.clients - 1
  }

  lemma PendingBounded(maxActions: int, callers: seq<Caller>, pid: Pid)
    ensures |Pending(maxActions, callers, pid)| <= |callers|
  {
    IndicesBounded(Pending(maxActions, callers, pid), |callers|);
  }

  lemma {:induction false} IndicesBounded(s: set<nat>, n: nat)
    requires forall i | i in s :: i < n
    ensures |s| <= n
  {
    if n == 0 {
      assert s == {};
    } else {
      IndicesBounded(s - {n - 1}, n - 1);
    }
  }

  lemma SubsetSize<T>(a: set<T>, b: set<T>)
    requires a <= b
    ensures |a| <= |b|
  {
    assert b == a + (b - a);
  }

  lemma InitWithinCap(c: Config, s: State, pid: Pid)
    requires Init(c, s)
    ensures WithinCap(c, s, pid)
  {
    assert UnexpiredAuthorised(s.pol.ledger, pid, s.clock) == {};
    assert Pending(c.maxActions, s.callers, pid) == {};
  }

  /** Registration is the only step that adds an unexpired authorised record. */
  lemma StepUnexpiredAuthorised(c: Config, s: State, a: Action, pid: Pid)
    requires BasicInv(c, s) && Enabled(c, s, a)
    ensures var before := UnexpiredAuthorised(s.pol.ledger, pid, s.clock);
            var after := UnexpiredAuthorised(Next(c, s, a).pol.ledger, pid, Next(c, s, a).clock);
            if a.Register? && s.callers[a.i].verdict.authorized && s.callers[a.i].intent.targetPID == pid
            then after <= before + {a.tx}
            else after <= before
  {
    var s' := Next(c, s, a);
    forall id | id in UnexpiredAuthorised(s'.pol.ledger, pid, s'.clock)
      ensures id in UnexpiredAuthorised(s.pol.ledger, pid, s.clock)
              || (a.Register? && id == a.tx && s.callers[a.i].verdict.authorized
                  && s.callers[a.i].intent.targetPID == pid)
    {
      StepChangesOnlyStatus(c, s, a, id);
      if !LedgerChange(s, s', id) {
        assert CallerInv(c, s, s.callers[a.i]);
      }
    }
  }

  /** Counting is the only step by which a client comes to threaten the cap; registering ends the threat. */
  lemma StepPending(c: Config, s: State, a: Action, pid: Pid)
    requires BasicInv(c, s) && Enabled(c, s, a)
    ensures var before := Pending(c.maxActions, s.callers, pid);
            var after := Pending(c.maxActions, Next(c, s, a).callers, pid);
            && (!a.Count? ==> after <= before)
            && (a.Count? ==> after <= before + {a.i})
            && (a.Count? && a.i in after ==>
                  a.intent.targetPID == pid && |UnexpiredFor(s.pol.ledger, pid, s.clock)| < c.maxActions)
            && (a.Register? ==> a.i !in after)
            && (a.Register? && s.callers[a.i].verdict.authorized && s.callers[a.i].intent.targetPID == pid ==>
                  a.i in before)
  {
    OthersStayPut(c, s, a);
    if ActsFor(a).Some? {
      ActorThreat(c, s, a, pid);
    }
  }

  /** Counting below the cap is the only way for a client to come to threaten it. */
  lemma ActorThreat(c: Config, s: State, a: Action, pid: Pid)
    requires BasicInv(c, s) && Enabled(c, s, a) && ActsFor(a).Some?
    ensures var cl, cl' := s.callers[ActsFor(a).value], NextCaller(c, s, a);
            && (!a.Count? && MayRegister(c.maxActions, cl', pid) ==> MayRegister(c.maxActions, cl, pid))
            && (a.Count? && MayRegister(c.maxActions, cl', pid) ==>
                  a.intent.targetPID == pid && |UnexpiredFor(s.pol.ledger, pid, s.clock)| < c.maxActions)
            && (a.Register? ==> !MayRegister(c.maxActions, cl', pid))
            && (a.Register? && cl.verdict.authorized && cl.intent.targetPID == pid ==>
                  MayRegister(c.maxActions, cl, pid))
  {
    var cl := s.callers[ActsFor(a).value];
    if a.Judge? {
      VerdictMeaning(s.pol.rules, cl.intent, cl.count);
    } else if a.Count? {
      HistoricalCountIsFullScan(s.pol.ledger, a.intent.targetPID, s.clock);
    }
  }

  lemma StepWithinCap(c: Config, s: State, a: Action, pid: Pid)
    requires BasicInv(c, s) && Enabled(c, s, a) && WithinCap(c, s, pid)
    ensures WithinCap(c, Next(c, s, a), pid)
  {
    var s' := Next(c, s, a);
    var recs, recs' := UnexpiredAuthorised(s.pol.ledger, pid, s.clock), UnexpiredAuthorised(s'.pol.ledger, pid, s'.clock);
    var pend, pend' := Pending(c.maxActions, s.callers, pid), Pending(c.maxActions, s'.callers, pid);
    StepUnexpiredAuthorised(c, s, a, pid);
    StepPending(c, s, a, pid);
    StepKeepsCallers(c, s, a);
    if a.Count? && a.i in pend' {
      SubsetSize(recs', recs);
      SubsetSize(recs, UnexpiredFor(s.pol.ledger, pid, s.clock));
      PendingBounded(c.maxActions, s'.callers, pid);
    } else if a.Register? && s.callers[a.i].verdict.authorized && s.callers[a.i].intent.targetPID == pid {
      SubsetSize(recs', recs + {a.tx});
      SubsetSize(pend', pend - {a.i});
    } else {
      SubsetSize(recs', recs);
      SubsetSize(pend', pend);
    }
  }
}
