/** No freeze without a handle: what the mitigator stopped can always be resumed. */
module ProtocolFreeze {
  import opened PolicyTypes
  import opened Mitigation
  import opened Protocol
  import opened ProtocolBasics

  /** Client `i` has stopped `pid` and has not recorded it yet. */
  ghost predicate StopInFlight(s: State, i: nat, pid: Pid) {
    && i < |s.callers|
    && ((s.callers[i].Froze? && s.callers[i].intent.targetPID == pid && s.callers[i].mech == SignalStop)
        || (s.callers[i].Confirmed? && s.callers[i].intent.targetPID == pid && s.callers[i].mech == SignalStop))
  }

  /** `token` resolves to a PAUSED signal-stop entry for `pid`. */
  ghost predicate Resumable(s: State, token: Token, pid: Pid) {
    && token in s.frz.entries
    && s.frz.entries[token].pid == pid
    && s.frz.entries[token].mechanism == SignalStop
    && s.frz.entries[token].state == Paused
  }

  /** Nobody is about to write a new state over the entry. */
  ghost predicate Untouched(f: FreezeSide, token: Token) {
    && !(f.reconcile.Decided? && f.reconcile.token == token)
    && forall r | 0 <= r < |f.resumers| :: f.resumers[r] != Continued(token)
  }

  ghost predicate HandleGood(s: State, pid: Pid)
    requires pid in s.frz.handle
  {
    match s.frz.handle[pid]
    case InFlight(i) => StopInFlight(s, i, pid)
    case ByToken(t) => Resumable(s, t, pid) && Untouched(s.frz, t)
  }

  predicate SameButState(es: Entries, e: Entry) {
    e.token in es && es[e.token].(state := e.state) == e
  }

  function ProbesLeft(rl: ReconcileLoop): seq<Entry> {
    match rl
    case ReconcileIdle => []
    case Probing(todo) => todo
    case Decided(_, _, todo) => todo
  }

  ghost predicate ScanInv(f: FreezeSide) {
    && (forall i | 0 <= i < |ProbesLeft(f.reconcile)| :: SameButState(f.entries, ProbesLeft(f.reconcile)[i]))
    && (f.reconcile.Decided? ==> f.reconcile.token in f.entries && f.reconcile.state in {OrphanedCleaned, DriftSynced})
  }

  ghost predicate HandlesInv(s: State) {
    && s.frz.ours <= s.frz.stopped <= s.frz.alive
    && s.frz.handle.Keys == s.frz.ours
    && forall pid | pid in s.frz.handle :: HandleGood(s, pid)
  }

  ghost predicate FreezeInv(s: State) {
    ScanInv(s.frz) && HandlesInv(s)
  }

  lemma InitFreeze(c: Config, s: State)
    requires Init(c, s)
    ensures FreezeInv(s)
  {
  }

  lemma ListingKeepsScan(c: Config, s: State, a: Action)
    requires BasicInv(c, s) && Enabled(c, s, a) && a.ListHeld?
    ensures ScanInv(NextFreeze(c, s, a))
  {
    var f := NextFreeze(c, s, a);
    assert f == s.frz.(reconcile := AfterProbes(a.held)) && ProbesLeft(f.reconcile) == a.held;
    forall i | 0 <= i < |a.held| ensures SameButState(s.frz.entries, a.held[i]) {
      assert a.held[i] in a.held;
    }
  }

  /** The probe takes the head off the snapshot; a verdict concerns that head. */
  lemma ProbeEffect(c: Config, s: State, a: Action)
    requires Enabled(c, s, a) && a.ProbeNext?
    ensures var f, f' := s.frz, NextFreeze(c, s, a);
            && ProbesLeft(f.reconcile) == f.reconcile.todo != []
            && ProbesLeft(f'.reconcile) == f.reconcile.todo[1..]
            && f' == f.(reconcile := f'.reconcile)
            && (f'.reconcile.Decided? ==>
                  && f'.reconcile.token == f.reconcile.todo[0].token
                  && f'.reconcile.state in {OrphanedCleaned, DriftSynced}
                  && f.reconcile.todo[0].pid !in f.stopped)
  {
  }

  lemma ProbingKeepsScan(c: Config, s: State, a: Action)
    requires ScanInv(s.frz) && Enabled(c, s, a) && a.ProbeNext?
    ensures ScanInv(NextFreeze(c, s, a))
  {
    ProbeEffect(c, s, a);
    var left, left' := ProbesLeft(s.frz.reconcile), ProbesLeft(NextFreeze(c, s, a).reconcile);
    assert SameButState(s.frz.entries, left[0]);
    forall i | 0 <= i < |left'| ensures SameButState(s.frz.entries, left'[i]) {
      assert left'[i] == left[i + 1];
    }
  }

  lemma StepKeepsScan(c: Config, s: State, a: Action)
    requires BasicInv(c, s) && ScanInv(s.frz) && Enabled(c, s, a)
    ensures ScanInv(Next(c, s, a).frz)
  {
    if a.ListHeld? {
      ListingKeepsScan(c, s, a);
    } else if a.ProbeNext? {
      ProbingKeepsScan(c, s, a);
    } else {
      OtherStepsKeepEntries(c, s, a);
      ScanSurvives(s.frz, NextFreeze(c, s, a));
    }
    assert Next(c, s, a).frz == NextFreeze(c, s, a);
  }

  lemma ScanSurvives(f: FreezeSide, f': FreezeSide)
    requires ScanInv(f) && EntriesSurvive(f, f')
    ensures ScanInv(f')
  {
    forall i | 0 <= i < |ProbesLeft(f'.reconcile)| ensures SameButState(f'.entries, ProbesLeft(f'.reconcile)[i]) {
      assert SameButState(f.entries, ProbesLeft(f.reconcile)[i]);
    }
  }

  ghost predicate EntriesSurvive(f: FreezeSide, f': FreezeSide) {
    && ProbesLeft(f'.reconcile) == ProbesLeft(f.reconcile)
    && (f'.reconcile.Decided? ==> f'.reconcile == f.reconcile)
    && forall t | t in f.entries :: t in f'.entries && f'.entries[t] == f.entries[t].(state := f'.entries[t].state)
  }

  /** Entries are never removed, and never lose more than their state. */
  lemma OtherStepsKeepEntries(c: Config, s: State, a: Action)
    requires BasicInv(c, s) && Enabled(c, s, a) && !a.ListHeld? && !a.ProbeNext?
    ensures EntriesSurvive(s.frz, NextFreeze(c, s, a))
  {
    EntriesKeepKeys(c, s, a);
    OthersKeepReconcile(c, s, a);
  }

  lemma OthersKeepReconcile(c: Config, s: State, a: Action)
    requires Enabled(c, s, a) && !a.ListHeld? && !a.ProbeNext?
    ensures var rl, rl' := s.frz.reconcile, NextFreeze(c, s, a).reconcile;
            if a.WriteReconciled? then ProbesLeft(rl') == ProbesLeft(rl) && !rl'.Decided? else rl' == rl
  {
  }

  lemma StepKeepsSets(c: Config, s: State, a: Action)
    requires FreezeInv(s) && Enabled(c, s, a)
    ensures var f := Next(c, s, a).frz; f.ours <= f.stopped <= f.alive && f.handle.Keys == f.ours
  {
  }

  /** A handle survives every step that leaves the process stopped. */
  lemma StepKeepsHandle(c: Config, s: State, a: Action, pid: Pid)
    requires BasicInv(c, s) && FreezeInv(s) && Enabled(c, s, a)
    requires pid in Next(c, s, a).frz.handle
    ensures HandleGood(Next(c, s, a), pid)
  {
    var s' := Next(c, s, a);
    if a.StopWorks? && s.callers[a.i].intent.targetPID == pid {
      assert s'.frz.handle[pid] == InFlight(a.i);
    } else {
      assert pid in s.frz.handle;
      assert HandleGood(s, pid);
      match s.frz.handle[pid]
      case InFlight(i) => StepKeepsInFlight(c, s, a, pid, i);
      case ByToken(t) => StepKeepsToken(c, s, a, pid, t);
    }
  }

  /** A handle changes hands only when the client that holds it records the entry. */
  lemma HandleMoves(c: Config, s: State, a: Action, pid: Pid)
    requires Enabled(c, s, a) && pid in s.frz.handle && pid in NextFreeze(c, s, a).handle
    requires !(a.StopWorks? && s.callers[a.i].intent.targetPID == pid)
    ensures NextFreeze(c, s, a).handle[pid]
         == if a.RecordEntry? && s.callers[a.i].intent.targetPID == pid && s.frz.handle[pid] == InFlight(a.i)
            then ByToken(a.token) else s.frz.handle[pid]
  {
  }

  lemma StepKeepsInFlight(c: Config, s: State, a: Action, pid: Pid, i: nat)
    requires BasicInv(c, s) && FreezeInv(s) && Enabled(c, s, a)
    requires pid in s.frz.handle && s.frz.handle[pid] == InFlight(i)
    requires pid in Next(c, s, a).frz.handle && !(a.StopWorks? && s.callers[a.i].intent.targetPID == pid)
    ensures HandleGood(Next(c, s, a), pid)
  {
    assert HandleGood(s, pid);
    assert Next(c, s, a).frz == NextFreeze(c, s, a);
    HandleMoves(c, s, a, pid);
    if a.RecordEntry? && a.i == i {
      RecordedIsResumable(c, s, a);
    } else {
      StaysInFlight(c, s, a, pid, i);
    }
  }

  lemma RecordedIsResumable(c: Config, s: State, a: Action)
    requires BasicInv(c, s) && FreezeInv(s) && Enabled(c, s, a) && a.RecordEntry?
    requires s.callers[a.i].Confirmed? && s.callers[a.i].mech == SignalStop
    ensures Resumable(Next(c, s, a), a.token, s.callers[a.i].intent.targetPID)
    ensures Untouched(Next(c, s, a).frz, a.token)
  {
    var f := NextFreeze(c, s, a);
    RecordingAdds(c, s, a);
    OthersKeepReconcile(c, s, a);
    assert Next(c, s, a).frz == f && f.resumers == s.frz.resumers;
    forall r | 0 <= r < |f.resumers| ensures f.resumers[r] != Continued(a.token) {
      assert ResumerInv(s.frz.entries, s.frz.resumers[r]);
    }
  }

  lemma StaysInFlight(c: Config, s: State, a: Action, pid: Pid, i: nat)
    requires Enabled(c, s, a) && StopInFlight(s, i, pid) && !(a.RecordEntry? && a.i == i)
    ensures StopInFlight(Next(c, s, a), i, pid)
  {
    OthersStayPut(c, s, a);
  }

  lemma StepKeepsToken(c: Config, s: State, a: Action, pid: Pid, t: Token)
    requires BasicInv(c, s) && FreezeInv(s) && Enabled(c, s, a)
    requires pid in s.frz.handle && s.frz.handle[pid] == ByToken(t)
    requires pid in Next(c, s, a).frz.handle && !(a.StopWorks? && s.callers[a.i].intent.targetPID == pid)
    ensures HandleGood(Next(c, s, a), pid)
  {
    assert HandleGood(s, pid);
    assert Next(c, s, a).frz == NextFreeze(c, s, a);
    HandleMoves(c, s, a, pid);
    UntouchedIsKept(c, s, a, t);
    NobodyDecides(c, s, a, pid, t);
    NobodyResumes(c, s, a, pid, t);
  }

  lemma UntouchedIsKept(c: Config, s: State, a: Action, t: Token)
    requires Enabled(c, s, a) && t in s.frz.entries && Untouched(s.frz, t)
    ensures t in NextFreeze(c, s, a).entries && NextFreeze(c, s, a).entries[t] == s.frz.entries[t]
  {
    if a.RecordEntry? {
      RecordingAdds(c, s, a);
    } else if a.WriteReconciled? {
      ReconciledSets(c, s, a);
    } else if a.WriteResumed? {
      ResumedSets(c, s, a);
    } else {
      OthersKeepEntries(c, s, a);
    }
  }

  /** An honest probe does not find a stopped process running. */
  lemma NobodyDecides(c: Config, s: State, a: Action, pid: Pid, t: Token)
    requires FreezeInv(s) && Enabled(c, s, a) && Resumable(s, t, pid) && Untouched(s.frz, t) && pid in s.frz.ours
    ensures var rl := NextFreeze(c, s, a).reconcile; !(rl.Decided? && rl.token == t)
  {
    if a.ProbeNext? {
      ProbeEffect(c, s, a);
      assert SameButState(s.frz.entries, ProbesLeft(s.frz.reconcile)[0]);
    } else if !a.ListHeld? {
      OthersKeepReconcile(c, s, a);
    }
  }

  /** Whoever resumes the token of a stopped process continues it, so that it needs no handle any more. */
  lemma NobodyResumes(c: Config, s: State, a: Action, pid: Pid, t: Token)
    requires TokensInv(c, s) && Enabled(c, s, a) && Resumable(s, t, pid) && Untouched(s.frz, t)
    requires pid in NextFreeze(c, s, a).handle
    ensures var f := NextFreeze(c, s, a); forall r | 0 <= r < |f.resumers| :: f.resumers[r] != Continued(t)
  {
    var f := NextFreeze(c, s, a);
    if a.ResumeCall? {
      assert ResumerInv(s.frz.entries, s.frz.resumers[a.r]);
      ResumeCallEffect(c, s, a);
    } else {
      OthersDoNotContinue(c, s, a);
    }
  }

  lemma ResumeCallEffect(c: Config, s: State, a: Action)
    requires Enabled(c, s, a) && a.ResumeCall?
    ensures var f, e := NextFreeze(c, s, a), s.frz.resumers[a.r].entry;
            && f.resumers == s.frz.resumers[a.r := if a.ok then Continued(e.token) else ResumeIdle]
            && (a.ok && e.mechanism != PauseContainer ==> e.pid !in f.handle)
  {
  }

  lemma OthersDoNotContinue(c: Config, s: State, a: Action)
    requires Enabled(c, s, a) && !a.ResumeCall?
    ensures var f := NextFreeze(c, s, a);
            |f.resumers| == |s.frz.resumers|
            && forall r | 0 <= r < |f.resumers| && f.resumers[r].Continued? :: f.resumers[r] == s.frz.resumers[r]
  {
  }

  lemma StepKeepsFreeze(c: Config, s: State, a: Action)
    requires BasicInv(c, s) && FreezeInv(s) && Enabled(c, s, a)
    ensures FreezeInv(Next(c, s, a))
  {
    StepKeepsScan(c, s, a);
    StepKeepsSets(c, s, a);
    forall pid | pid in Next(c, s, a).frz.handle ensures HandleGood(Next(c, s, a), pid) {
      StepKeepsHandle(c, s, a, pid);
    }
  }

  /** Entries that have left PAUSED never come back: no step makes an entry active that was there and inactive. */
  lemma StepNeverReactivates(c: Config, s: State, a: Action, t: Token)
    requires BasicInv(c, s) && FreezeInv(s) && Enabled(c, s, a)
    requires t in s.frz.entries && !Active(s.frz.entries[t])
    ensures t in Next(c, s, a).frz.entries && !Active(Next(c, s, a).frz.entries[t])
  {
    if a.RecordEntry? {
      RecordingAdds(c, s, a);
    } else if a.WriteReconciled? {
      ReconciledSets(c, s, a);
    } else if a.WriteResumed? {
      ResumedSets(c, s, a);
    } else {
      OthersKeepEntries(c, s, a);
    }
    assert Next(c, s, a).frz == NextFreeze(c, s, a);
  }
}
