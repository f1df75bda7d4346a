/** The bookkeeping every other protocol invariant rests on: ids, index, clocks and program counters. */
module ProtocolBasics {
  import opened PolicyTypes
  import opened PolicyLedger
  import opened PolicyRules
  import opened PolicyEngine
  import opened Mitigation
  import opened Protocol

  predicate HoldsTx(cl: Caller) {
    cl.Acting? || cl.Froze? || cl.FreezeFailed?
  }

  predicate HoldsVerdict(cl: Caller) {
    cl.Checked? || cl.Stamped?
  }

  /** Every record is under its own, issued id, was stamped in the past and expires one cooldown later. */
  ghost predicate RecordsInv(c: Config, s: State) {
    forall id | id in s.pol.ledger.records ::
      var r := s.pol.ledger.records[id];
      id in s.pol.issued && IsTxId(id) && r.transactionID == id
      && r.timestamp <= s.clock && r.expiry == r.timestamp + Cooldown(c)
  }

  ghost predicate CallersInv(c: Config, s: State) {
    && |s.callers| == c.clients
    && (forall i | 0 <= i < |s.callers| :: CallerInv(c, s, s.callers[i]))
    && (forall i, j | 0 <= i < j < |s.callers| ::
          HoldsTx(s.callers[i]) && HoldsTx(s.callers[j]) ==> s.callers[i].tx != s.callers[j].tx)
  }

  ghost predicate CallerInv(c: Config, s: State, cl: Caller) {
    && (cl.Stamped? ==> cl.at <= s.clock)
    && (HoldsTx(cl) ==> cl.tx in s.pol.issued)
    && (HoldsVerdict(cl) ==> (cl.verdict.authorized <==> cl.verdict.rejection.None?))
  }

  ghost predicate TokensInv(c: Config, s: State) {
    && WellKeyed(s.frz.entries)
    && |s.frz.resumers| == c.resumers
    && forall r | 0 <= r < |s.frz.resumers| :: ResumerInv(s.frz.entries, s.frz.resumers[r])
  }

  predicate ResumerInv(es: Entries, r: Resumer) {
    match r
    case ResumeIdle => true
    case Resolved(e) => e.token in es && es[e.token].(state := e.state) == e
    case Continued(t) => t in es
    case StateWritten(t) => t in es
  }

  ghost predicate BasicInv(c: Config, s: State) {
    && s.pol.rules.maxActionsPerPID == c.maxActions
    && WellIndexed(s.pol.ledger)
    && RecordsInv(c, s) && CallersInv(c, s) && TokensInv(c, s)
  }

  lemma InitBasic(c: Config, s: State)
    requires Init(c, s)
    ensures BasicInv(c, s)
  {
  }

  lemma StepKeepsTokens(c: Config, s: State, a: Action)
    requires BasicInv(c, s) && Enabled(c, s, a)
    ensures TokensInv(c, Next(c, s, a))
  {
    EntriesKeepKeys(c, s, a);
    ResumersKeepEntries(c, s, a);
    assert Next(c, s, a).frz == NextFreeze(c, s, a);
  }

  // Only three actions touch the entries.

  predicate TouchesEntries(a: Action) {
    a.RecordEntry? || a.WriteReconciled? || a.WriteResumed?
  }

  lemma OthersKeepEntries(c: Config, s: State, a: Action)
    requires Enabled(c, s, a) && !TouchesEntries(a)
    ensures NextFreeze(c, s, a).entries == s.frz.entries
  {
  }

  lemma RecordingAdds(c: Config, s: State, a: Action)
    requires Enabled(c, s, a) && a.RecordEntry?
    ensures IsToken(a.token) && a.token !in s.frz.entries && s.callers[a.i].Confirmed?
    ensures var cl := s.callers[a.i];
            NextFreeze(c, s, a).entries
            == s.frz.entries[a.token := Entry(cl.intent.targetPID, cl.intent.containerID, cl.intent.processName, "", 0,
                                              Paused, a.token, cl.mech)]
  {
  }

  lemma ReconciledSets(c: Config, s: State, a: Action)
    requires Enabled(c, s, a) && a.WriteReconciled?
    ensures s.frz.reconcile.Decided?
    ensures NextFreeze(c, s, a).entries == WithState(s.frz.entries, s.frz.reconcile.token, s.frz.reconcile.state)
  {
  }

  lemma ResumedSets(c: Config, s: State, a: Action)
    requires Enabled(c, s, a) && a.WriteResumed?
    ensures s.frz.resumers[a.r].Continued?
    ensures NextFreeze(c, s, a).entries == WithState(s.frz.entries, s.frz.resumers[a.r].token, Resumed)
  {
  }

  /** Entries stay, under their own tokens, with nothing but perhaps their state changed. */
  lemma EntriesKeepKeys(c: Config, s: State, a: Action)
    requires WellKeyed(s.frz.entries) && Enabled(c, s, a)
    ensures var es, es' := s.frz.entries, NextFreeze(c, s, a).entries;
            && WellKeyed(es')
            && forall t | t in es :: t in es' && es'[t] == es[t].(state := es'[t].state)
  {
    if a.RecordEntry? {
      RecordingAdds(c, s, a);
    } else if a.WriteReconciled? {
      ReconciledSets(c, s, a);
    } else if a.WriteResumed? {
      ResumedSets(c, s, a);
    } else {
      OthersKeepEntries(c, s, a);
    }
  }

  lemma ResumersKeepEntries(c: Config, s: State, a: Action)
    requires TokensInv(c, s) && Enabled(c, s, a)
    ensures var f := NextFreeze(c, s, a);
            |f.resumers| == c.resumers && forall r | 0 <= r < |f.resumers| :: ResumerInv(f.entries, f.resumers[r])
  {
    var f := NextFreeze(c, s, a);
    EntriesKeepKeys(c, s, a);
    forall r | 0 <= r < |f.resumers| ensures ResumerInv(f.entries, f.resumers[r]) {
      assert ResumerInv(s.frz.entries, s.frz.resumers[r]);
    }
  }

  /** A resume call hands its reversibility token to the policy engine, where it names no transaction. */
  lemma ResumeClosesNoTransaction(c: Config, s: State, r: nat)
    requires BasicInv(c, s) && Enabled(c, s, CompleteToken(r))
    ensures Next(c, s, CompleteToken(r)).pol == s.pol
  {
    var t := s.frz.resumers[r].token;
    assert ResumerInv(s.frz.entries, s.frz.resumers[r]);
    TokensAreNotTxIds(t);
  }

  // Only five actions touch the ledger.

  predicate TouchesLedger(a: Action) {
    a.Register? || a.WriteStatus? || a.Sweep? || a.CompleteUndone? || a.CompleteToken?
  }

  lemma OthersKeepLedger(c: Config, s: State, a: Action)
    requires Enabled(c, s, a) && !TouchesLedger(a)
    ensures NextPolicy(c, s, a).ledger == s.pol.ledger
  {
  }

  lemma RegisterInserts(c: Config, s: State, a: Action)
    requires Enabled(c, s, a) && a.Register?
    ensures var cl := s.callers[a.i];
            NextPolicy(c, s, a).ledger
            == Insert(s.pol.ledger, RecordFor(s.pol.ledger, cl.intent, cl.verdict, c.cooldownSecs, cl.at, a.tx))
  {
  }

  lemma WriteStatusSets(c: Config, s: State, a: Action)
    requires Enabled(c, s, a) && a.WriteStatus?
    ensures var cl := s.callers[a.i];
            HoldsTx(cl) && NextPolicy(c, s, a).ledger
                           == SetStatus(s.pol.ledger, cl.tx, if cl.FreezeFailed? then Rejected else Executed)
  {
  }

  lemma CompletionSets(c: Config, s: State, a: Action)
    requires Enabled(c, s, a) && a.CompleteUndone?
    ensures NextPolicy(c, s, a).ledger == SetStatus(s.pol.ledger, s.pol.rollback.rec.transactionID, Completed)
  {
  }

  lemma ResumeSets(c: Config, s: State, a: Action)
    requires Enabled(c, s, a) && a.CompleteToken?
    ensures NextPolicy(c, s, a).ledger == SetStatus(s.pol.ledger, s.frz.resumers[a.r].token, Completed)
  {
  }

  lemma SweepSweeps(c: Config, s: State, a: Action)
    requires Enabled(c, s, a) && a.Sweep?
    ensures SweepsTo(s.pol.ledger, s.clock, c.maxEntries, a.swept) && NextPolicy(c, s, a).ledger == a.swept
  {
  }

  lemma PolicyKeepsIndex(c: Config, s: State, a: Action)
    requires WellIndexed(s.pol.ledger) && RecordsInv(c, s) && Enabled(c, s, a)
    ensures WellIndexed(NextPolicy(c, s, a).ledger)
  {
    var l := s.pol.ledger;
    if a.Register? {
      var cl := s.callers[a.i];
      RegisterInserts(c, s, a);
      InsertKeepsIndex(l, RecordFor(l, cl.intent, cl.verdict, c.cooldownSecs, cl.at, a.tx));
    } else if a.WriteStatus? {
      WriteStatusSets(c, s, a);
      SetStatusKeepsIndex(l, s.callers[a.i].tx, if s.callers[a.i].FreezeFailed? then Rejected else Executed);
    } else if a.Sweep? {
      SweepSweeps(c, s, a);
    } else if a.CompleteUndone? {
      CompletionSets(c, s, a);
      SetStatusKeepsIndex(l, s.pol.rollback.rec.transactionID, Completed);
    } else if a.CompleteToken? {
      ResumeSets(c, s, a);
      SetStatusKeepsIndex(l, s.frz.resumers[a.r].token, Completed);
    } else {
      OthersKeepLedger(c, s, a);
    }
  }

  lemma StepKeepsIndex(c: Config, s: State, a: Action)
    requires BasicInv(c, s) && Enabled(c, s, a)
    ensures WellIndexed(Next(c, s, a).pol.ledger)
  {
    PolicyKeepsIndex(c, s, a);
    assert Next(c, s, a).pol == NextPolicy(c, s, a);
  }

  /** Only registration, status writes and sweeps touch the ledger, and status writes change nothing but status. */
  lemma StepKeepsRecords(c: Config, s: State, a: Action)
    requires BasicInv(c, s) && Enabled(c, s, a)
    ensures RecordsInv(c, Next(c, s, a))
  {
    var s' := Next(c, s, a);
    if s'.pol.ledger.records != s.pol.ledger.records {
      if a.Register? {
        assert CallerInv(c, s, s.callers[a.i]);
      }
      forall id | id in s'.pol.ledger.records
        ensures LedgerChange(s, s', id) || (a.Register? && id == a.tx)
      {
        StepChangesOnlyStatus(c, s, a, id);
      }
    }
  }

  /** `id` was there before and lost nothing but perhaps its status. */
  ghost predicate LedgerChange(s: State, s': State, id: TxId)
    requires id in s'.pol.ledger.records
  {
    id in s.pol.ledger.records
    && s'.pol.ledger.records[id] == s.pol.ledger.records[id].(status := s'.pol.ledger.records[id].status)
  }

  lemma StepChangesOnlyStatus(c: Config, s: State, a: Action, id: TxId)
    requires Enabled(c, s, a) && id in Next(c, s, a).pol.ledger.records
    ensures LedgerChange(s, Next(c, s, a), id) || (a.Register? && id == a.tx)
  {
    assert Next(c, s, a).pol == NextPolicy(c, s, a);
    PolicyChangesOnlyStatus(c, s, a, id);
  }

  lemma PolicyChangesOnlyStatus(c: Config, s: State, a: Action, id: TxId)
    requires Enabled(c, s, a) && id in NextPolicy(c, s, a).ledger.records
    ensures var l, l' := s.pol.ledger, NextPolicy(c, s, a).ledger;
            (id in l.records && l'.records[id] == l.records[id].(status := l'.records[id].status))
            || (a.Register? && id == a.tx)
  {
    if a.Register? {
      RegisterInserts(c, s, a);
    } else if a.WriteStatus? {
      WriteStatusSets(c, s, a);
    } else if a.Sweep? {
      SweepSweeps(c, s, a);
      SweepChangesNothing(s.pol.ledger, s.clock, c.maxEntries, a.swept, id);
    } else if a.CompleteUndone? {
      CompletionSets(c, s, a);
    } else if a.CompleteToken? {
      ResumeSets(c, s, a);
    } else {
      OthersKeepLedger(c, s, a);
    }
  }

  lemma SweepChangesNothing(l: Ledger, now: Nanos, maxEntries: nat, l': Ledger, id: TxId)
    requires SweepsTo(l, now, maxEntries, l') && id in l'.records
    ensures id in l.records && l'.records[id] == l.records[id]
  {
  }

  lemma StepKeepsCallers(c: Config, s: State, a: Action)
    requires BasicInv(c, s) && Enabled(c, s, a)
    ensures CallersInv(c, Next(c, s, a))
  {
    var s' := Next(c, s, a);
    OthersStayPut(c, s, a);
    if ActsFor(a).Some? {
      ActorFits(c, s, a);
    }
    forall i | 0 <= i < |s'.callers| ensures CallerInv(c, s', s'.callers[i]) {
      assert CallerInv(c, s, s.callers[i]);
    }
  }

  /** A client's step leaves the others where they are; ids and clock only grow. */
  lemma OthersStayPut(c: Config, s: State, a: Action)
    requires Enabled(c, s, a)
    ensures var s' := Next(c, s, a);
            && s.pol.issued <= s'.pol.issued && s.clock <= s'.clock
            && (ActsFor(a).None? ==> s'.callers == s.callers)
            && (ActsFor(a).Some? ==>
                  && ActsFor(a).value < |s.callers|
                  && s'.callers == s.callers[ActsFor(a).value := NextCaller(c, s, a)])
  {
  }

  /** Where the acting client ends up: what it holds it held before, or was just issued. */
  lemma ActorFits(c: Config, s: State, a: Action)
    requires CallersInv(c, s) && Enabled(c, s, a) && ActsFor(a).Some?
    ensures var cl, cl' := s.callers[ActsFor(a).value], NextCaller(c, s, a);
            && CallerInv(c, Next(c, s, a), cl')
            && (HoldsTx(cl') ==> (HoldsTx(cl) && cl'.tx == cl.tx) || (a.Register? && cl'.tx == a.tx))
            && (a.Register? ==> a.tx !in s.pol.issued)
  {
    var cl := s.callers[ActsFor(a).value];
    assert CallerInv(c, s, cl);
    if a.Judge? {
      VerdictMeaning(s.pol.rules, cl.intent, cl.count);
    }
  }

  lemma StepKeepsBasic(c: Config, s: State, a: Action)
    requires BasicInv(c, s) && Enabled(c, s, a)
    ensures BasicInv(c, Next(c, s, a))
  {
    StepKeepsTokens(c, s, a);
    StepKeepsIndex(c, s, a);
    StepKeepsRecords(c, s, a);
    StepKeepsCallers(c, s, a);
  }
}
