/** What becomes of an executed action: whether the rollback loop or a sweep comes first. */
module ProtocolRollback {
  import opened PolicyTypes
  import opened PolicyLedger
  import opened Protocol
  import opened ProtocolBasics
  import opened ProtocolLifecycle
  import opened ProtocolTheorems
  import opened ProtocolRuns
  import Rollback

  ghost predicate Listed(s: State, tx: TxId) {
    exists i | 0 <= i < |Todo(s.pol.rollback)| :: Todo(s.pol.rollback)[i].transactionID == tx
  }

  /** The transaction took place, its record is gone, and nothing will undo it. */
  ghost predicate Forgotten(s: State, tx: TxId) {
    tx in s.pol.issued && tx !in s.pol.ledger.records && tx !in s.pol.undone && !Listed(s, tx)
  }

  /** The record of the transaction is dropped by a sweep while the rollback loop does not have it listed, or its
      undoing fails after a sweep dropped it. */
  ghost predicate Forgets(s: State, a: Action, tx: TxId) {
    || (a.Sweep? && tx in s.pol.ledger.records && tx !in a.swept.records && !Listed(s, tx))
    || (a.UndoNext? && a.undo == UndoFailed && s.pol.rollback.Undoing? && s.pol.rollback.todo != []
        && s.pol.rollback.todo[0].transactionID == tx && tx !in s.pol.ledger.records)
  }

  // ----- one step -----

  /** Records leave the ledger by sweeps only. */
  lemma LeavesBySweep(c: Config, s: State, a: Action, tx: TxId)
    requires Enabled(c, s, a) && tx in s.pol.issued
    ensures tx in Next(c, s, a).pol.ledger.records
       <==> tx in s.pol.ledger.records && (a.Sweep? ==> tx in a.swept.records)
  {
    assert Next(c, s, a).pol == NextPolicy(c, s, a);
    if a.Register? {
      RegisterInserts(c, s, a);
    } else if a.WriteStatus? {
      WriteStatusSets(c, s, a);
    } else if a.Sweep? {
      SweepSweeps(c, s, a);
      if tx in a.swept.records {
        SweepChangesNothing(s.pol.ledger, s.clock, c.maxEntries, a.swept, tx);
      }
    } else if a.CompleteUndone? {
      CompletionSets(c, s, a);
    } else if a.CompleteToken? {
      ResumeSets(c, s, a);
    } else {
      OthersKeepLedger(c, s, a);
    }
  }

  /** A sweep drops every record that is due, listed or not. */
  lemma SweepDropsDue(l: Ledger, now: Nanos, maxEntries: nat, swept: Ledger, tx: TxId)
    requires SweepsTo(l, now, maxEntries, swept) && tx in l.records && Rollback.Due(l.records[tx], now)
    ensures tx !in swept.records
  {
  }

  lemma ListDueLists(c: Config, s: State, a: Action, tx: TxId)
    requires BasicInv(c, s) && Enabled(c, s, a) && a.ListDue?
    ensures Todo(s.pol.rollback) == [] && Next(c, s, a).pol.undone == s.pol.undone
    ensures Listed(Next(c, s, a), tx)
       <==> tx in s.pol.ledger.records && Rollback.Due(s.pol.ledger.records[tx], s.clock)
  {
    var s' := Next(c, s, a);
    assert s'.pol == s.pol.(rollback := AfterTodo(a.found)) && Todo(s'.pol.rollback) == a.found;
    if Listed(s', tx) {
      var i :| 0 <= i < |a.found| && a.found[i].transactionID == tx;
      assert a.found[i] in a.found;
    }
    if tx in s.pol.ledger.records && Rollback.Due(s.pol.ledger.records[tx], s.clock) {
      assert s.pol.ledger.records[tx] in a.found;
      var i :| 0 <= i < |a.found| && a.found[i] == s.pol.ledger.records[tx];
      assert a.found[i].transactionID == tx;
    }
  }

  lemma UndoNextUnlists(c: Config, s: State, a: Action, tx: TxId)
    requires LifeInv(s) && Enabled(c, s, a) && a.UndoNext?
    ensures s.pol.rollback.Undoing? && s.pol.rollback.todo != []
    ensures var head, s' := s.pol.rollback.todo[0].transactionID, Next(c, s, a);
            && (Listed(s', tx) <==> Listed(s, tx) && tx != head)
            && Listed(s, head)
            && (tx in s'.pol.undone <==> tx in s.pol.undone || (a.undo != UndoFailed && tx == head))
  {
    UndoNextEffect(c, s, a);
    var todo := Todo(s.pol.rollback);
    var rest := todo[1..];
    assert todo[0].transactionID == s.pol.rollback.todo[0].transactionID;
    assert forall i | 0 <= i < |rest| :: rest[i] == todo[i + 1];
    if Listed(s, tx) && tx != todo[0].transactionID {
      var i :| 0 <= i < |todo| && todo[i].transactionID == tx;
      assert rest[i - 1].transactionID == tx;
    }
  }

  lemma OthersKeepTodo(c: Config, s: State, a: Action)
    requires Enabled(c, s, a) && !a.ListDue? && !a.UndoNext?
    ensures Todo(Next(c, s, a).pol.rollback) == Todo(s.pol.rollback) && Next(c, s, a).pol.undone == s.pol.undone
  {
    if !a.CompleteUndone? {
      RollbackUntouched(c, s, a);
    } else {
      assert Next(c, s, a).pol == NextPolicy(c, s, a);
    }
  }

  /** A transaction becomes forgotten by exactly those two steps; from then on it stays so. */
  lemma ForgottenIff(c: Config, s: State, a: Action, tx: TxId)
    requires BasicInv(c, s) && LifeInv(s) && Enabled(c, s, a) && tx in s.pol.issued
    ensures Forgotten(Next(c, s, a), tx) <==> Forgotten(s, tx) || (tx !in s.pol.undone && Forgets(s, a, tx))
  {
    var s' := Next(c, s, a);
    LeavesBySweep(c, s, a, tx);
    OthersStayPut(c, s, a);
    if a.ListDue? {
      ListDueLists(c, s, a, tx);
    } else if a.UndoNext? {
      UndoNextUnlists(c, s, a, tx);
    } else {
      OthersKeepTodo(c, s, a);
    }
  }

  // ----- whole runs -----

  lemma {:induction false} ForgottenStays(c: Config, s: State, acts: seq<Action>, s': State, tx: TxId)
    requires Inv(c, s) && Steps(c, s, acts, s') && Forgotten(s, tx)
    ensures Forgotten(s', tx)
    decreases |acts|
  {
    if acts != [] {
      StepInv(c, s, acts[0]);
      ForgottenIff(c, s, acts[0], tx);
      ForgottenStays(c, Next(c, s, acts[0]), acts[1..], s', tx);
    }
  }

  /** Some step of the run forgets the transaction. */
  ghost predicate ForgetsIn(c: Config, s: State, acts: seq<Action>, tx: TxId)
    decreases |acts|
  {
    acts != []
    && Enabled(c, s, acts[0])
    && ((tx !in s.pol.undone && Forgets(s, acts[0], tx)) || ForgetsIn(c, Next(c, s, acts[0]), acts[1..], tx))
  }

  /** Over any run a transaction ends up forgotten, and so is never undone, exactly if some step forgets it. */
  lemma {:induction false} NeverUndoneIff(c: Config, s: State, acts: seq<Action>, s': State, tx: TxId)
    requires Inv(c, s) && Steps(c, s, acts, s') && tx in s.pol.issued
    ensures Forgotten(s', tx) <==> Forgotten(s, tx) || ForgetsIn(c, s, acts, tx)
    decreases |acts|
  {
    if acts != [] {
      var mid := Next(c, s, acts[0]);
      StepInv(c, s, acts[0]);
      OthersStayPut(c, s, acts[0]);
      ForgottenIff(c, s, acts[0], tx);
      NeverUndoneIff(c, mid, acts[1..], s', tx);
    }
  }

  /** A record that was executed and then expired need not be rolled back: in every configuration that lets anybody act,
      some run reaches a state in which an EXECUTED record is due and the rollback loop is idle; if a sweep comes
      first, the record is gone, and whatever happens afterwards the action is never undone. */
  lemma RollbackCanBeMissed(c: Config) returns (tx: TxId, s: State, swept: State)
    requires c.clients >= 1 && c.maxActions >= 1
    ensures Reachable(c, s) && tx in s.pol.ledger.records && Rollback.Due(s.pol.ledger.records[tx], s.clock)
    ensures s.pol.rollback.RollbackIdle? && tx !in s.pol.undone
    ensures Steps(c, s, [Sweep(EMPTY_LEDGER)], swept)
    ensures forall acts, s' | Steps(c, swept, acts, s') :: tx !in s'.pol.undone && tx !in s'.pol.ledger.records
  {
    var s0: State;
    var acts: seq<Action>;
    tx, s0, acts, s := ExpiredUnlisted(c);
    RunReaches(c, s0, acts, s);
    ReachableInv(c, s);
    AllExpired(s.pol.ledger, s.clock, c.maxEntries);
    var a := Sweep(EMPTY_LEDGER);
    OneStep(c, s, a);
    swept := Next(c, s, a);
    StepInv(c, s, a);
    assert Todo(s.pol.rollback) == [];
    ForgottenIff(c, s, a, tx);
    forall acts, s' | Steps(c, swept, acts, s')
      ensures tx !in s'.pol.undone && tx !in s'.pol.ledger.records
    {
      ForgottenStays(c, swept, acts, s', tx);
    }
  }

  lemma AllExpired(l: Ledger, now: Nanos, maxEntries: nat)
    requires forall id | id in l.records :: !Unexpired(l.records[id], now)
    ensures SweepsTo(l, now, maxEntries, EMPTY_LEDGER)
  {
    assert UnexpiredRecords(l, now) == map[];
  }

  /** One request is executed, and its record expires before anybody looks. */
  lemma ExpiredUnlisted(c: Config) returns (tx: TxId, s0: State, acts: seq<Action>, s: State)
    requires c.clients >= 1 && c.maxActions >= 1
    ensures Init(c, s0) && Steps(c, s0, acts, s)
    ensures tx in s.pol.issued && s.pol.ledger.records.Keys == {tx}
    ensures Rollback.Due(s.pol.ledger.records[tx], s.clock)
    ensures s.pol.rollback.RollbackIdle? && tx !in s.pol.undone
  {
    s0 := StartRefusals(c);
    tx := Name(0);
    NamesGrow(0);
    NothingExpired(s0.pol.ledger);
    var s1: State;
    acts, s1 := TargetCall(c, s0, tx);
    ExecutedAlone(c, s0.pol.ledger, tx);
    acts, s := TickTo(c, s0, acts, s1, Cooldown(c) + 1);
  }

  lemma NothingExpired(l: Ledger)
    requires |l.records| == 0
    ensures l.records == map[] && UnexpiredFor(l, TARGET, 0) == {}
  {
    assert l.records.Keys == {};
  }

  lemma ExecutedAlone(c: Config, l: Ledger, tx: TxId)
    requires l.records == map[]
    ensures var l' := SetStatus(Insert(l, RecordOf(c, l, REQUEST, GRANTED, tx)), tx, Executed);
            l'.records.Keys == {tx} && l'.records[tx].status == Executed && l'.records[tx].expiry == Cooldown(c)
  {
  }

  lemma TickTo(c: Config, s0: State, acts: seq<Action>, s: State, now: Nanos) returns (acts': seq<Action>, s': State)
    requires Steps(c, s0, acts, s) && now >= s.clock
    ensures Steps(c, s0, acts', s') && s' == s.(clock := now)
  {
    StepsThen(c, s0, acts, s, Tick(now));
    acts', s' := acts + [Tick(now)], Next(c, s, Tick(now));
  }
}
