/** The life of a transaction: although any status may be written over any other, no run leaves the intended paths,
    and nothing is rolled back twice. */
module ProtocolLifecycle {
  import Options
  import opened PolicyTypes
  import opened PolicyLedger
  import opened Protocol
  import opened ProtocolBasics

  /** The steps a status may take. */
  predicate Edge(before: Status, after: Status) {
    || before == after
    || (before == AuthorizedPending && (after == Executed || after == Rejected))
    || (before == Executed && after == Completed)
  }

  /** The paths made of such steps. */
  predicate Path(before: Status, after: Status) {
    || before == after
    || (before == AuthorizedPending && after in {Executed, Completed, Rejected})
    || (before == Executed && after == Completed)
  }

  ghost predicate StatusIs(l: Ledger, tx: TxId, status: Status) {
    tx in l.records ==> l.records[tx].status == status
  }

  function Todo(rl: RollbackLoop): seq<Record> {
    match rl
    case RollbackIdle => []
    case Undoing(todo) => todo
    case Undid(_, todo) => todo
  }

  /** A client holds only PENDING transactions. */
  ghost predicate HeldArePending(s: State) {
    forall i | 0 <= i < |s.callers| && HoldsTx(s.callers[i]) ::
      StatusIs(s.pol.ledger, s.callers[i].tx, AuthorizedPending)
  }

  /** The rollback loop's snapshot: distinct, still EXECUTED where still present, never undone before. */
  ghost predicate TodoInv(s: State) {
    var todo := Todo(s.pol.rollback);
    && (forall i, j :: 0 <= i < j < |todo| ==> todo[i].transactionID != todo[j].transactionID)
    && (forall i | 0 <= i < |todo| ::
          && todo[i].transactionID in s.pol.issued
          && todo[i].transactionID !in s.pol.undone
          && StatusIs(s.pol.ledger, todo[i].transactionID, Executed))
    && (s.pol.rollback.Undid? ==>
          && s.pol.rollback.rec.transactionID in s.pol.undone
          && StatusIs(s.pol.ledger, s.pol.rollback.rec.transactionID, Executed))
  }

  /** What was undone is COMPLETED, gone, or about to be completed by the rollback loop. */
  ghost predicate UndoneInv(s: State) {
    && NoDuplicates(s.pol.undone)
    && forall tx | tx in s.pol.undone ::
         && tx in s.pol.issued
         && (StatusIs(s.pol.ledger, tx, Completed)
             || (s.pol.rollback.Undid? && s.pol.rollback.rec.transactionID == tx))
  }

  ghost predicate LifeInv(s: State) {
    HeldArePending(s) && TodoInv(s) && UndoneInv(s)
  }

  lemma InitLife(c: Config, s: State)
    requires Init(c, s)
    ensures LifeInv(s)
  {
  }

  lemma StepKeepsHeld(c: Config, s: State, a: Action)
    requires BasicInv(c, s) && LifeInv(s) && Enabled(c, s, a)
    ensures HeldArePending(Next(c, s, a))
  {
    var s' := Next(c, s, a);
    forall i | 0 <= i < |s'.callers| && HoldsTx(s'.callers[i])
      ensures StatusIs(s'.pol.ledger, s'.callers[i].tx, AuthorizedPending)
    {
      HolderBefore(c, s, a, i);
      if a.Register? && s'.callers[i].tx == a.tx {
        NewlyHeld(c, s, a);
      } else {
        StillHeld(c, s, a, i);
      }
    }
  }

  /** Who holds a transaction held it before, unless it has just been registered; and writing its status ends that. */
  lemma HolderBefore(c: Config, s: State, a: Action, i: nat)
    requires BasicInv(c, s) && Enabled(c, s, a) && i < |Next(c, s, a).callers| && HoldsTx(Next(c, s, a).callers[i])
    ensures var tx := Next(c, s, a).callers[i].tx;
            || (a.Register? && a.i == i && tx == a.tx && s.callers[i].verdict.authorized)
            || (HoldsTx(s.callers[i]) && s.callers[i].tx == tx && !(a.WriteStatus? && a.i == i)
                && (a.Register? ==> a.tx != tx))
  {
    OthersStayPut(c, s, a);
    assert CallerInv(c, s, s.callers[i]);
    if ActsFor(a) == Options.Some(i) {
      ActorHolds(c, s, a);
    }
  }

  lemma ActorHolds(c: Config, s: State, a: Action)
    requires Enabled(c, s, a) && ActsFor(a).Some? && HoldsTx(NextCaller(c, s, a))
    ensures var cl, cl' := s.callers[ActsFor(a).value], NextCaller(c, s, a);
            if a.Register? then cl'.tx == a.tx && cl.verdict.authorized
            else HoldsTx(cl) && cl'.tx == cl.tx && !a.WriteStatus?
  {
  }

  lemma NewlyHeld(c: Config, s: State, a: Action)
    requires Enabled(c, s, a) && a.Register? && s.callers[a.i].verdict.authorized
    ensures StatusIs(Next(c, s, a).pol.ledger, a.tx, AuthorizedPending)
  {
    RegisterInserts(c, s, a);
    assert Next(c, s, a).pol == NextPolicy(c, s, a);
  }

  lemma StillHeld(c: Config, s: State, a: Action, i: nat)
    requires BasicInv(c, s) && LifeInv(s) && Enabled(c, s, a)
    requires i < |s.callers| && HoldsTx(s.callers[i]) && !(a.WriteStatus? && a.i == i)
    requires a.Register? ==> a.tx != s.callers[i].tx
    ensures StatusIs(Next(c, s, a).pol.ledger, s.callers[i].tx, AuthorizedPending)
  {
    var tx := s.callers[i].tx;
    assert StatusIs(s.pol.ledger, tx, AuthorizedPending);
    if tx in Next(c, s, a).pol.ledger.records {
      StepChangesOnlyStatus(c, s, a, tx);
      StepStatusOf(c, s, a, tx);
    }
  }

  /** Who may write over the status of `tx`: the one client that holds it, or the rollback loop completing it. */
  lemma StepStatusOf(c: Config, s: State, a: Action, tx: TxId)
    requires BasicInv(c, s) && Enabled(c, s, a)
    requires tx in s.pol.ledger.records && tx in Next(c, s, a).pol.ledger.records
    ensures var before, after := s.pol.ledger.records[tx].status, Next(c, s, a).pol.ledger.records[tx].status;
            || before == after
            || (a.WriteStatus? && HoldsTx(s.callers[a.i]) && s.callers[a.i].tx == tx
                && after == if s.callers[a.i].FreezeFailed? then Rejected else Executed)
            || (a.CompleteUndone? && s.pol.rollback.rec.transactionID == tx && after == Completed)
  {
    assert Next(c, s, a).pol == NextPolicy(c, s, a);
    if a.Register? {
      RegisterInserts(c, s, a);
    } else if a.WriteStatus? {
      WriteStatusSets(c, s, a);
    } else if a.Sweep? {
      SweepSweeps(c, s, a);
      SweepChangesNothing(s.pol.ledger, s.clock, c.maxEntries, a.swept, tx);
    } else if a.CompleteUndone? {
      CompletionSets(c, s, a);
    } else if a.CompleteToken? {
      ResumeClosesNoTransaction(c, s, a.r);
    } else {
      OthersKeepLedger(c, s, a);
    }
  }

  /** Every status change in every reachable state is one of the three intended steps. */
  lemma StepFollowsEdge(c: Config, s: State, a: Action, tx: TxId)
    requires BasicInv(c, s) && LifeInv(s) && Enabled(c, s, a)
    requires tx in s.pol.ledger.records && tx in Next(c, s, a).pol.ledger.records
    ensures Edge(s.pol.ledger.records[tx].status, Next(c, s, a).pol.ledger.records[tx].status)
  {
    StepStatusOf(c, s, a, tx);
    if a.WriteStatus? && HoldsTx(s.callers[a.i]) {
      assert StatusIs(s.pol.ledger, s.callers[a.i].tx, AuthorizedPending);
    }
  }

  /** Transactions are born PENDING or REJECTED. */
  lemma BirthStatus(c: Config, s: State, a: Action, tx: TxId)
    requires BasicInv(c, s) && Enabled(c, s, a)
    requires tx !in s.pol.ledger.records && tx in Next(c, s, a).pol.ledger.records
    ensures a.Register? && a.tx == tx
    ensures var r := Next(c, s, a).pol.ledger.records[tx];
            if r.rejectionReason.None? then r.status == AuthorizedPending else r.status == Rejected
  {
    StepChangesOnlyStatus(c, s, a, tx);
    assert CallerInv(c, s, s.callers[a.i]);
  }

  lemma ListingKeepsTodo(c: Config, s: State, a: Action)
    requires BasicInv(c, s) && LifeInv(s) && Enabled(c, s, a) && a.ListDue?
    ensures TodoInv(Next(c, s, a))
  {
    var s' := Next(c, s, a);
    assert s'.pol == s.pol.(rollback := AfterTodo(a.found)) && Todo(s'.pol.rollback) == a.found;
    forall i | 0 <= i < |a.found|
      ensures a.found[i].transactionID in s.pol.ledger.records
              && s.pol.ledger.records[a.found[i].transactionID].status == Executed
    {
      assert a.found[i] in a.found;
    }
  }

  /** The head of the snapshot is dealt with; it joins the undone ones only if that worked. */
  lemma UndoNextEffect(c: Config, s: State, a: Action)
    requires Enabled(c, s, a) && a.UndoNext?
    ensures var p, p' := s.pol, Next(c, s, a).pol;
            && Todo(p.rollback) == p.rollback.todo && Todo(p'.rollback) == p.rollback.todo[1..]
            && p'.ledger == p.ledger && p'.issued == p.issued
            && (if a.undo == UndoFailed then p'.undone == p.undone && !p'.rollback.Undid?
                else p'.undone == p.undone + [p.rollback.todo[0].transactionID]
                     && p'.rollback == Undid(p.rollback.todo[0], p.rollback.todo[1..]))
  {
  }

  lemma UndoingKeepsTodo(c: Config, s: State, a: Action)
    requires LifeInv(s) && Enabled(c, s, a) && a.UndoNext?
    ensures TodoInv(Next(c, s, a))
  {
    var todo := s.pol.rollback.todo;
    var rest := todo[1..];
    UndoNextEffect(c, s, a);
    forall i | 0 <= i < |rest|
      ensures rest[i].transactionID in s.pol.issued && rest[i].transactionID !in Next(c, s, a).pol.undone
      ensures StatusIs(s.pol.ledger, rest[i].transactionID, Executed)
    {
      assert rest[i] == todo[i + 1];
      assert todo[0].transactionID != todo[i + 1].transactionID;
    }
    forall i, j | 0 <= i < j < |rest| ensures rest[i].transactionID != rest[j].transactionID {
      assert todo[i + 1].transactionID != todo[j + 1].transactionID;
    }
  }

  lemma CompletingKeepsTodo(c: Config, s: State, a: Action)
    requires LifeInv(s) && Enabled(c, s, a) && a.CompleteUndone?
    ensures TodoInv(Next(c, s, a))
  {
    CompletionSets(c, s, a);
    var p, p' := s.pol, Next(c, s, a).pol;
    assert p'.ledger == NextPolicy(c, s, a).ledger && p'.undone == p.undone && p'.issued == p.issued;
    assert Todo(p'.rollback) == Todo(p.rollback) && !p'.rollback.Undid?;
  }

  lemma StepKeepsTodo(c: Config, s: State, a: Action)
    requires BasicInv(c, s) && LifeInv(s) && Enabled(c, s, a)
    ensures TodoInv(Next(c, s, a))
  {
    if a.ListDue? {
      ListingKeepsTodo(c, s, a);
    } else if a.UndoNext? {
      UndoingKeepsTodo(c, s, a);
    } else if a.CompleteUndone? {
      CompletingKeepsTodo(c, s, a);
    } else {
      OtherStepsKeepTodo(c, s, a);
    }
  }

  lemma OtherStepsKeepTodo(c: Config, s: State, a: Action)
    requires BasicInv(c, s) && LifeInv(s) && Enabled(c, s, a)
    requires !a.ListDue? && !a.UndoNext? && !a.CompleteUndone?
    ensures TodoInv(Next(c, s, a))
  {
    var s' := Next(c, s, a);
    var todo := Todo(s.pol.rollback);
    RollbackUntouched(c, s, a);
    forall i | 0 <= i < |todo| ensures StatusIs(s'.pol.ledger, todo[i].transactionID, Executed) {
      StepKeepsExecuted(c, s, a, todo[i].transactionID);
    }
    if s.pol.rollback.Undid? {
      assert s.pol.rollback.rec.transactionID in s.pol.issued;
      StepKeepsExecuted(c, s, a, s.pol.rollback.rec.transactionID);
    }
  }

  lemma RollbackUntouched(c: Config, s: State, a: Action)
    requires Enabled(c, s, a) && !a.ListDue? && !a.UndoNext? && !a.CompleteUndone?
    ensures Next(c, s, a).pol.rollback == s.pol.rollback && Next(c, s, a).pol.undone == s.pol.undone
    ensures s.pol.issued <= Next(c, s, a).pol.issued
  {
  }

  lemma StepKeepsExecuted(c: Config, s: State, a: Action, tx: TxId)
    requires BasicInv(c, s) && LifeInv(s) && Enabled(c, s, a) && !a.CompleteUndone?
    requires tx in s.pol.issued && StatusIs(s.pol.ledger, tx, Executed)
    ensures StatusIs(Next(c, s, a).pol.ledger, tx, Executed)
  {
    if tx in Next(c, s, a).pol.ledger.records {
      StepChangesOnlyStatus(c, s, a, tx);
      StepFollowsEdge(c, s, a, tx);
      StepStatusOf(c, s, a, tx);
    }
  }

  lemma StepKeepsUndone(c: Config, s: State, a: Action)
    requires BasicInv(c, s) && LifeInv(s) && Enabled(c, s, a)
    ensures UndoneInv(Next(c, s, a))
  {
    if a.UndoNext? {
      UndoingKeepsUndone(c, s, a);
    } else if a.CompleteUndone? {
      CompletingKeepsUndone(c, s, a);
    } else {
      OtherStepsKeepUndone(c, s, a);
    }
  }

  lemma AppendedOnce(undone: seq<TxId>, tx: TxId)
    requires NoDuplicates(undone) && tx !in undone
    ensures NoDuplicates(undone + [tx])
  {
  }

  lemma UndoingKeepsUndone(c: Config, s: State, a: Action)
    requires LifeInv(s) && Enabled(c, s, a) && a.UndoNext?
    ensures UndoneInv(Next(c, s, a))
  {
    var tx := s.pol.rollback.todo[0].transactionID;
    UndoNextEffect(c, s, a);
    assert tx in s.pol.issued && tx !in s.pol.undone by {
      assert Todo(s.pol.rollback)[0].transactionID == tx;
    }
    AppendedOnce(s.pol.undone, tx);
  }

  lemma CompletingKeepsUndone(c: Config, s: State, a: Action)
    requires LifeInv(s) && Enabled(c, s, a) && a.CompleteUndone?
    ensures UndoneInv(Next(c, s, a))
  {
    CompletionSets(c, s, a);
    var p, p' := s.pol, Next(c, s, a).pol;
    assert p'.ledger == NextPolicy(c, s, a).ledger && p'.undone == p.undone && p'.issued == p.issued;
  }

  lemma OtherStepsKeepUndone(c: Config, s: State, a: Action)
    requires BasicInv(c, s) && LifeInv(s) && Enabled(c, s, a) && !a.UndoNext? && !a.CompleteUndone?
    ensures UndoneInv(Next(c, s, a))
  {
    var s' := Next(c, s, a);
    UndoneUntouched(c, s, a);
    forall tx | tx in s.pol.undone
      ensures StatusIs(s'.pol.ledger, tx, Completed)
              || (s'.pol.rollback.Undid? && s'.pol.rollback.rec.transactionID == tx)
    {
      if StatusIs(s.pol.ledger, tx, Completed) {
        StepKeepsCompleted(c, s, a, tx);
      }
    }
  }

  lemma UndoneUntouched(c: Config, s: State, a: Action)
    requires Enabled(c, s, a) && !a.UndoNext? && !a.CompleteUndone?
    ensures var p, p' := s.pol, Next(c, s, a).pol;
            p'.undone == p.undone && p.issued <= p'.issued && (p.rollback.Undid? ==> p'.rollback == p.rollback)
  {
  }

  lemma StepKeepsCompleted(c: Config, s: State, a: Action, tx: TxId)
    requires BasicInv(c, s) && LifeInv(s) && Enabled(c, s, a)
    requires tx in s.pol.issued && StatusIs(s.pol.ledger, tx, Completed)
    ensures StatusIs(Next(c, s, a).pol.ledger, tx, Completed)
  {
    if tx in Next(c, s, a).pol.ledger.records {
      StepChangesOnlyStatus(c, s, a, tx);
      StepFollowsEdge(c, s, a, tx);
    }
  }

  lemma StepKeepsLife(c: Config, s: State, a: Action)
    requires BasicInv(c, s) && LifeInv(s) && Enabled(c, s, a)
    ensures LifeInv(Next(c, s, a))
  {
    StepKeepsHeld(c, s, a);
    StepKeepsTodo(c, s, a);
    StepKeepsUndone(c, s, a);
  }
}
