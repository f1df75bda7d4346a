/** The rollback loop, the reconciler and a resume call, left alone: their steps compose to the controller's and the
    mitigator's methods. */
module ProtocolLoops {
  import opened Mitigation
  import opened Options
  import opened PolicyLedger
  import opened PolicyTypes
  import opened Protocol
  import opened ProtocolBasics
  import opened ProtocolFreeze
  import opened ProtocolRuns
  import opened ProtocolTheorems
  import Rollback

  // ----- one resume call -----

  /** The steps of one resume call do what `Mitigator.Resume` does: on success the entry reads RESUMED, and in no case is
      the policy ledger touched. */
  lemma UninterruptedResume(c: Config, s: State, r: nat, token: Token, ok: bool) returns (acts: seq<Action>, s': State)
    requires Reachable(c, s) && r < |s.frz.resumers| && s.frz.resumers[r].ResumeIdle? && token in s.frz.entries
    requires ok && s.frz.entries[token].mechanism != PauseContainer ==> s.frz.entries[token].pid in s.frz.alive
    ensures Steps(c, s, acts, s') && s'.frz.resumers == s.frz.resumers && s'.pol == s.pol
    ensures s'.frz.entries == if ok then WithState(s.frz.entries, token, Resumed) else s.frz.entries
    ensures SameStops(s'.frz, AfterCall(s.frz, s.frz.entries[token], ok))
  {
    ReachableInv(c, s);
    var s1: State;
    acts, s1 := Looked(c, s, r, token);
    acts, s' := Called(c, s, acts, s1, r, ok);
    if ok {
      acts, s' := CloseUp(c, s, acts, s', r, token);
    }
    assert s'.frz.resumers == s.frz.resumers;
  }

  /** Every stop can be taken back: a process that the mitigator stopped, that nobody continued since and that no client
      is still at work on, has a token; whoever resumes it undisturbed leaves the process running and the entry
      RESUMED. */
  lemma StopCanBeUndone(c: Config, s: State, pid: Pid, r: nat) returns (token: Token, acts: seq<Action>, s': State)
    requires Reachable(c, s) && pid in s.frz.ours && !(exists i :: StopInFlight(s, i, pid))
    requires r < |s.frz.resumers| && s.frz.resumers[r].ResumeIdle?
    ensures Resumable(s, token, pid) && Steps(c, s, acts, s')
    ensures token in s'.frz.entries && s'.frz.entries[token].state == Resumed
    ensures pid !in s'.frz.stopped && pid !in s'.frz.ours
  {
    ReachableInv(c, s);
    NoFreezeWithoutHandle(c, s, pid);
    token :| Resumable(s, token, pid);
    acts, s' := UninterruptedResume(c, s, r, token, true);
  }

  /** The same processes are stopped, and on the same account. */
  ghost predicate SameStops(f: FreezeSide, g: FreezeSide) {
    f.alive == g.alive && f.stopped == g.stopped && f.ours == g.ours
  }

  /** What the call for an entry does: a signal continues the process, a container is not the process table's concern. */
  function AfterCall(f: FreezeSide, e: Entry, ok: bool): FreezeSide {
    if ok && e.mechanism != PauseContainer then ContinuePid(f, e.pid) else f
  }

  lemma CloseUp(c: Config, s: State, acts: seq<Action>, s1: State, r: nat, token: Token)
    returns (acts': seq<Action>, s': State)
    requires BasicInv(c, s) && Steps(c, s, acts, s1) && r < |s1.frz.resumers| && s1.frz.resumers[r] == Continued(token)
    ensures Steps(c, s, acts', s') && s'.frz.entries == WithState(s1.frz.entries, token, Resumed) && s'.pol == s1.pol
    ensures s'.frz.resumers == s1.frz.resumers[r := ResumeIdle] && SameStops(s'.frz, s1.frz)
  {
    var s2: State;
    acts', s2 := Written(c, s, acts, s1, r, token);
    StepsBasic(c, s, acts', s2);
    acts', s' := Closed(c, s, acts', s2, r, token);
  }

  lemma Looked(c: Config, s: State, r: nat, token: Token) returns (acts: seq<Action>, s': State)
    requires BasicInv(c, s) && r < |s.frz.resumers| && s.frz.resumers[r].ResumeIdle? && token in s.frz.entries
    ensures Steps(c, s, acts, s') && s'.pol == s.pol
    ensures s'.frz == s.frz.(resumers := s.frz.resumers[r := Resolved(s.frz.entries[token])])
  {
    OneStep(c, s, Resolve(r, token));
    acts, s' := [Resolve(r, token)], Next(c, s, Resolve(r, token));
  }

  lemma Called(c: Config, s: State, acts: seq<Action>, s1: State, r: nat, ok: bool) returns (acts': seq<Action>, s': State)
    requires Steps(c, s, acts, s1) && r < |s1.frz.resumers| && s1.frz.resumers[r].Resolved?
    requires ok && s1.frz.resumers[r].entry.mechanism != PauseContainer ==>
               s1.frz.resumers[r].entry.pid in s1.frz.alive
    ensures Steps(c, s, acts', s') && s'.frz.entries == s1.frz.entries && s'.pol == s1.pol
    ensures s'.frz.resumers
         == s1.frz.resumers[r := if ok then Continued(s1.frz.resumers[r].entry.token) else ResumeIdle]
    ensures SameStops(s'.frz, AfterCall(s1.frz, s1.frz.resumers[r].entry, ok))
  {
    StepsThen(c, s, acts, s1, ResumeCall(r, ok));
    acts', s' := acts + [ResumeCall(r, ok)], Next(c, s1, ResumeCall(r, ok));
  }

  lemma Written(c: Config, s: State, acts: seq<Action>, s1: State, r: nat, token: Token)
    returns (acts': seq<Action>, s': State)
    requires Steps(c, s, acts, s1) && r < |s1.frz.resumers| && s1.frz.resumers[r] == Continued(token)
    ensures Steps(c, s, acts', s') && s'.frz.entries == WithState(s1.frz.entries, token, Resumed) && s'.pol == s1.pol
    ensures s'.frz.resumers == s1.frz.resumers[r := StateWritten(token)] && SameStops(s'.frz, s1.frz)
  {
    StepsThen(c, s, acts, s1, WriteResumed(r));
    acts', s' := acts + [WriteResumed(r)], Next(c, s1, WriteResumed(r));
  }

  lemma Closed(c: Config, s: State, acts: seq<Action>, s1: State, r: nat, token: Token)
    returns (acts': seq<Action>, s': State)
    requires Steps(c, s, acts, s1) && BasicInv(c, s1)
    requires r < |s1.frz.resumers| && s1.frz.resumers[r] == StateWritten(token)
    ensures Steps(c, s, acts', s') && s'.frz.entries == s1.frz.entries && s'.pol == s1.pol
    ensures s'.frz.resumers == s1.frz.resumers[r := ResumeIdle] && SameStops(s'.frz, s1.frz)
  {
    StepsThen(c, s, acts, s1, CompleteToken(r));
    ResumeClosesNoTransaction(c, s1, r);
    acts', s' := acts + [CompleteToken(r)], Next(c, s1, CompleteToken(r));
  }

  // ----- one reconciliation pass -----

  /** What the probe of an entry makes of the ledger. */
  function ProbedOne(es: Entries, e: Entry, probe: Pid -> Rollback.RuntimeState): Entries {
    match Rollback.Reconciled(probe(e.pid))
    case None => es
    case Some(st) => WithState(es, e.token, st)
  }

  ghost predicate Honest(f: FreezeSide, probe: Pid -> Rollback.RuntimeState) {
    forall pid | pid in f.stopped :: probe(pid) == Rollback.RuntimeStopped
  }

  /** One probe and, if it found drift, the update that follows. */
  lemma ProbeAndWrite(c: Config, s: State, todo: seq<Entry>, probe: Pid -> Rollback.RuntimeState)
    returns (acts: seq<Action>, s': State)
    requires todo != [] && s.frz.reconcile == Probing(todo) && Honest(s.frz, probe)
    ensures Steps(c, s, acts, s')
    ensures s' == s.(frz := s.frz.(entries := ProbedOne(s.frz.entries, todo[0], probe), reconcile := AfterProbes(todo[1..])))
  {
    var runtime := probe(todo[0].pid);
    OneStep(c, s, ProbeNext(runtime));
    acts, s' := [ProbeNext(runtime)], Next(c, s, ProbeNext(runtime));
    if Rollback.Reconciled(runtime).Some? {
      StepsThen(c, s, acts, s', WriteReconciled);
      acts, s' := acts + [WriteReconciled], Next(c, s', WriteReconciled);
    }
  }

  lemma {:induction false} ProbeAll(c: Config, s: State, todo: seq<Entry>, probe: Pid -> Rollback.RuntimeState)
    returns (acts: seq<Action>, s': State)
    requires s.frz.reconcile == AfterProbes(todo) && Honest(s.frz, probe)
    ensures Steps(c, s, acts, s')
    ensures s' == s.(frz := s.frz.(entries := Rollback.AfterProbing(s.frz.entries, todo, probe), reconcile := ReconcileIdle))
    decreases |todo|
  {
    acts, s' := [], s;
    if todo != [] {
      var a1, s1 := ProbeAndWrite(c, s, todo, probe);
      var a2, s2 := ProbeAll(c, s1, todo[1..], probe);
      StepsCompose(c, s, a1, s1, a2, s2);
      AfterProbingFirst(s.frz.entries, todo, probe);
      acts, s' := a1 + a2, s2;
    }
  }

  lemma {:induction false} AfterProbingFirst(es: Entries, list: seq<Entry>, probe: Pid -> Rollback.RuntimeState)
    requires list != []
    ensures Rollback.AfterProbing(es, list, probe)
         == Rollback.AfterProbing(ProbedOne(es, list[0], probe), list[1..], probe)
  {
    if |list| > 1 {
      AfterProbingFirst(es, list[..|list| - 1], probe);
      assert list[1..][..|list| - 2] == list[..|list| - 1][1..];
    }
  }

  /** Left alone over an unchanged process table, the reconciler's steps do what `Controller.ReconcileOnce` does. */
  lemma UninterruptedReconcile(c: Config, s: State, held: seq<Entry>, probe: Pid -> Rollback.RuntimeState)
    returns (acts: seq<Action>, s': State)
    requires Reachable(c, s) && s.frz.reconcile.ReconcileIdle? && Honest(s.frz, probe)
    requires ListsActive(s.frz.entries, s.frz.entries.Keys, held)
    ensures Steps(c, s, acts, s')
    ensures s' == s.(frz := s.frz.(entries := Rollback.ReconcileAll(s.frz.entries, probe)))
  {
    ReachableInv(c, s);
    OneStep(c, s, ListHeld(held));
    var s1 := Next(c, s, ListHeld(held));
    var a2, s2 := ProbeAll(c, s1, held, probe);
    StepsCompose(c, s, [ListHeld(held)], s1, a2, s2);
    Rollback.ActiveListed(s.frz.entries, held);
    Rollback.AllActiveReconciled(s.frz.entries, held, probe);
    acts, s' := [ListHeld(held)] + a2, s2;
  }

  // ----- one check for expired records -----

  /** How a record gets undone under given outcomes of the calls. */
  function UndoOf(r: Record, unpauseOk: TxId -> bool, continueOk: TxId -> bool): Undo {
    if Rollback.IsRouterAction(r) then Deactivated
    else if r.actionType != SigStop && r.containerID != "" && unpauseOk(r.transactionID) then Unpaused
    else if continueOk(r.transactionID) then SentContinue
    else UndoFailed
  }

  /** What undoing a record makes of the policy ledger. */
  function UndoneOnLedger(l: Ledger, r: Record, unpauseOk: TxId -> bool, continueOk: TxId -> bool): Ledger {
    if Rollback.Undone(r, unpauseOk, continueOk) then SetStatus(l, r.transactionID, Completed) else l
  }

  /** The machine's undoing succeeds exactly when the controller's does. */
  lemma UndoOfMatches(r: Record, unpauseOk: TxId -> bool, continueOk: TxId -> bool)
    ensures UndoOf(r, unpauseOk, continueOk) != UndoFailed <==> Rollback.Undone(r, unpauseOk, continueOk)
  {
  }

  /** SIGCONT reaches living processes only. */
  ghost predicate Reaches(f: FreezeSide, list: seq<Record>, continueOk: TxId -> bool) {
    forall i | 0 <= i < |list| && continueOk(list[i].transactionID) :: list[i].targetPID in f.alive
  }

  lemma UndoAndComplete(c: Config, s: State, todo: seq<Record>, unpauseOk: TxId -> bool, continueOk: TxId -> bool)
    returns (acts: seq<Action>, s': State)
    requires todo != [] && s.pol.rollback == Undoing(todo) && Reaches(s.frz, todo, continueOk)
    ensures Steps(c, s, acts, s') && s'.pol.rollback == AfterTodo(todo[1..]) && s'.frz.alive == s.frz.alive
    ensures s'.pol.ledger == UndoneOnLedger(s.pol.ledger, todo[0], unpauseOk, continueOk)
    ensures s'.pol.undone
         == s.pol.undone + if Rollback.Undone(todo[0], unpauseOk, continueOk) then [todo[0].transactionID] else []
  {
    var undo := UndoOf(todo[0], unpauseOk, continueOk);
    UndoOfMatches(todo[0], unpauseOk, continueOk);
    OneStep(c, s, UndoNext(undo));
    acts, s' := [UndoNext(undo)], Next(c, s, UndoNext(undo));
    if undo != UndoFailed {
      assert s'.pol.rollback == Undid(todo[0], todo[1..]) && s'.pol.ledger == s.pol.ledger;
      StepsThen(c, s, acts, s', CompleteUndone);
      acts, s' := acts + [CompleteUndone], Next(c, s', CompleteUndone);
    }
  }

  lemma {:induction false} UndoAll(c: Config, s: State, todo: seq<Record>, unpauseOk: TxId -> bool, continueOk: TxId -> bool)
    returns (acts: seq<Action>, s': State)
    requires s.pol.rollback == AfterTodo(todo) && Reaches(s.frz, todo, continueOk)
    ensures Steps(c, s, acts, s') && s'.pol.rollback == RollbackIdle
    ensures s'.pol.ledger == Rollback.AfterUndoing(s.pol.ledger, todo, unpauseOk, continueOk)
    decreases |todo|
  {
    acts, s' := [], s;
    if todo != [] {
      var a1, s1 := UndoAndComplete(c, s, todo, unpauseOk, continueOk);
      var a2, s2 := UndoAll(c, s1, todo[1..], unpauseOk, continueOk);
      StepsCompose(c, s, a1, s1, a2, s2);
      AfterUndoingFirst(s.pol.ledger, todo, unpauseOk, continueOk);
      acts, s' := a1 + a2, s2;
    }
  }

  lemma {:induction false} AfterUndoingFirst(l: Ledger, list: seq<Record>, unpauseOk: TxId -> bool, continueOk: TxId -> bool)
    requires list != []
    ensures Rollback.AfterUndoing(l, list, unpauseOk, continueOk)
         == Rollback.AfterUndoing(UndoneOnLedger(l, list[0], unpauseOk, continueOk), list[1..], unpauseOk, continueOk)
  {
    if |list| > 1 {
      AfterUndoingFirst(l, list[..|list| - 1], unpauseOk, continueOk);
      assert list[1..][..|list| - 2] == list[..|list| - 1][1..];
    }
  }

  /** Left alone, the rollback loop's steps do what `Controller.CheckExpired` does: exactly the due records that the
      operating system lets it undo end COMPLETED. */
  lemma UninterruptedCheck(c: Config, s: State, due: seq<Record>, unpauseOk: TxId -> bool, continueOk: TxId -> bool)
    returns (acts: seq<Action>, s': State)
    requires Reachable(c, s) && s.pol.rollback.RollbackIdle? && Reaches(s.frz, due, continueOk)
    requires Rollback.SnapshotOfDue(s.pol.ledger.records, s.clock, due)
    ensures Steps(c, s, acts, s') && s'.pol.rollback == RollbackIdle
    ensures s'.pol.ledger.records
         == Rollback.RolledBackAmong(s.pol.ledger.records, s.pol.ledger.records.Keys, s.clock, unpauseOk, continueOk)
  {
    ReachableInv(c, s);
    OneStep(c, s, ListDue(due));
    var s1 := Next(c, s, ListDue(due));
    var a2, s2 := UndoAll(c, s1, due, unpauseOk, continueOk);
    StepsCompose(c, s, [ListDue(due)], s1, a2, s2);
    Rollback.SnapshotCovers(s.pol.ledger, due, s.clock, unpauseOk, continueOk);
    acts, s' := [ListDue(due)] + a2, s2;
  }
}
