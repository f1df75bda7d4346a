/** What holds in every reachable state of the circuit breaker, whatever the interleaving. */
module ProtocolTheorems {
  import opened PolicyTypes
  import opened PolicyLedger
  import opened Mitigation
  import opened Protocol
  import opened ProtocolBasics
  import opened ProtocolVelocity
  import opened ProtocolWindow
  import opened ProtocolLifecycle
  import opened ProtocolFreeze

  ghost predicate WindowInv(c: Config, s: State) {
    RetainedInv(c, s) && forall pid, from :: WithinWindow(c, s, pid, from)
  }

  ghost predicate Inv(c: Config, s: State) {
    BasicInv(c, s) && VelocityInv(c, s) && WindowInv(c, s) && LifeInv(s) && FreezeInv(s)
  }

  lemma InitInv(c: Config, s: State)
    requires Init(c, s)
    ensures Inv(c, s)
  {
    InitBasic(c, s);
    forall pid ensures WithinCap(c, s, pid) { InitWithinCap(c, s, pid); }
    InitWithinWindow(c, s, 0, 0);
    forall pid, from ensures WithinWindow(c, s, pid, from) { InitWithinWindow(c, s, pid, from); }
    InitLife(c, s);
    InitFreeze(c, s);
  }

  lemma StepInv(c: Config, s: State, a: Action)
    requires Inv(c, s) && Enabled(c, s, a)
    ensures Inv(c, Next(c, s, a))
  {
    StepKeepsBasic(c, s, a);
    forall pid ensures WithinCap(c, Next(c, s, a), pid) {
      assert WithinCap(c, s, pid);
      StepWithinCap(c, s, a, pid);
    }
    StepKeepsRetained(c, s, a);
    forall pid, from ensures WithinWindow(c, Next(c, s, a), pid, from) {
      assert WithinWindow(c, s, pid, from);
      StepWithinWindow(c, s, a, pid, from);
    }
    StepKeepsLife(c, s, a);
    StepKeepsFreeze(c, s, a);
  }

  lemma {:induction false} StepsInv(c: Config, s: State, acts: seq<Action>, s': State)
    requires Inv(c, s) && Steps(c, s, acts, s')
    ensures Inv(c, s')
    decreases |acts|
  {
    if acts != [] {
      StepInv(c, s, acts[0]);
      StepsInv(c, Next(c, s, acts[0]), acts[1..], s');
    }
  }

  lemma ReachableInv(c: Config, s: State)
    requires Reachable(c, s)
    ensures Inv(c, s)
  {
    var s0, acts :| Init(c, s0) && Steps(c, s0, acts, s);
    InitInv(c, s0);
    StepsInv(c, s0, acts, s);
  }

  /** The index always agrees with a full scan. */
  lemma IndexedCountIsExact(c: Config, s: State, pid: Pid, now: Nanos)
    requires Reachable(c, s)
    ensures WellIndexed(s.pol.ledger)
    ensures IndexedCount(s.pol.ledger, pid, now) == |UnexpiredFor(s.pol.ledger, pid, now)|
  {
    ReachableInv(c, s);
    HistoricalCountIsFullScan(s.pol.ledger, pid, now);
  }

  /** Clients whose authorisation for `pid` is decided and not yet in the ledger. */
  ghost function AuthorisedUnregistered(s: State, pid: Pid): set<nat> {
    set i: nat | i < |s.callers| && HoldsVerdict(s.callers[i]) && s.callers[i].intent.targetPID == pid
                 && s.callers[i].verdict.authorized
  }

  /** With `clients` callers the velocity cap is exceeded by at most `clients - 1`. */
  lemma VelocityCap(c: Config, s: State, pid: Pid)
    requires Reachable(c, s) && c.clients >= 1 && c.maxActions >= 1
    ensures |UnexpiredAuthorised(s.pol.ledger, pid, s.clock)| + |AuthorisedUnregistered(s, pid)|
         <= c.maxActions + c.clients - 1
  {
    ReachableInv(c, s);
    assert WithinCap(c, s, pid);
    SubsetSize(AuthorisedUnregistered(s, pid), Pending(c.maxActions, s.callers, pid));
  }

  /** As long as no sweep evicted an unexpired record, any closed window of cooldown length holds at most
      `maxActions + clients - 1` authorisations of a PID: at most `maxActions` for a single client. */
  lemma SlidingWindow(c: Config, s: State, pid: Pid, from: Nanos)
    requires Reachable(c, s) && !s.pol.evicted && c.clients >= 1 && c.maxActions >= 1
    ensures |Authorised(c, s.pol, pid, from)| <= c.maxActions + c.clients - 1
    ensures c.clients == 1 ==> |Authorised(c, s.pol, pid, from)| <= c.maxActions
  {
    ReachableInv(c, s);
    assert WithinWindow(c, s, pid, from);
  }

  /** A sweep evicts an unexpired record exactly when it finds more of them than the ledger may hold. */
  lemma SweepEvictsIff(c: Config, s: State, swept: Ledger)
    requires Reachable(c, s) && Enabled(c, s, Sweep(swept))
    ensures swept.records != UnexpiredRecords(s.pol.ledger, s.clock)
       <==> |UnexpiredRecords(s.pol.ledger, s.clock)| > c.maxEntries
  {
    ReachableInv(c, s);
    SweepEvicts(c, s, swept);
  }

  lemma SweepEvicts(c: Config, s: State, swept: Ledger)
    requires BasicInv(c, s) && Enabled(c, s, Sweep(swept))
    ensures swept.records != UnexpiredRecords(s.pol.ledger, s.clock)
       <==> |UnexpiredRecords(s.pol.ledger, s.clock)| > c.maxEntries
  {
    SweepKeepsNewest(s.pol.ledger, s.clock, c.maxEntries, swept);
  }

  /** Every sweep of the run finds no more unexpired records than the ledger may hold. */
  ghost predicate Roomy(c: Config, s: State, acts: seq<Action>)
    decreases |acts|
  {
    acts == []
    || (Enabled(c, s, acts[0])
        && (acts[0].Sweep? ==> |UnexpiredRecords(s.pol.ledger, s.clock)| <= c.maxEntries)
        && Roomy(c, Next(c, s, acts[0]), acts[1..]))
  }

  lemma EvictedByStep(c: Config, s: State, a: Action)
    requires BasicInv(c, s) && Enabled(c, s, a)
    ensures Next(c, s, a).pol.evicted
       <==> s.pol.evicted || (a.Sweep? && |UnexpiredRecords(s.pol.ledger, s.clock)| > c.maxEntries)
  {
    if a.Sweep? {
      SweepEvicts(c, s, a.swept);
    }
  }

  /** A run evicts an unexpired record exactly when some sweep of it finds the ledger too full. */
  lemma {:induction false} RoomyRunsEvictNothing(c: Config, s: State, acts: seq<Action>, s': State)
    requires Inv(c, s) && Steps(c, s, acts, s')
    ensures s'.pol.evicted <==> s.pol.evicted || !Roomy(c, s, acts)
    decreases |acts|
  {
    if acts != [] {
      StepInv(c, s, acts[0]);
      EvictedByStep(c, s, acts[0]);
      RoomyRunsEvictNothing(c, Next(c, s, acts[0]), acts[1..], s');
    }
  }

  /** The window bound for every run whose sweeps all find room. */
  lemma SlidingWindowOfRoomyRun(c: Config, s0: State, acts: seq<Action>, s: State, pid: Pid, from: Nanos)
    requires Init(c, s0) && Steps(c, s0, acts, s) && Roomy(c, s0, acts) && c.clients >= 1 && c.maxActions >= 1
    ensures |Authorised(c, s.pol, pid, from)| <= c.maxActions + c.clients - 1
    ensures c.clients == 1 ==> |Authorised(c, s.pol, pid, from)| <= c.maxActions
  {
    InitInv(c, s0);
    RoomyRunsEvictNothing(c, s0, acts, s);
    assert Reachable(c, s);
    SlidingWindow(c, s, pid, from);
  }

  /** A transaction id that left the ledger stays out. */
  lemma {:induction false} GoneStaysGone(c: Config, s: State, acts: seq<Action>, s': State, tx: TxId)
    requires Inv(c, s) && Steps(c, s, acts, s') && tx in s.pol.issued && tx !in s.pol.ledger.records
    ensures tx !in s'.pol.ledger.records
    decreases |acts|
  {
    if acts != [] {
      var mid := Next(c, s, acts[0]);
      StepInv(c, s, acts[0]);
      if tx in mid.pol.ledger.records {
        StepChangesOnlyStatus(c, s, acts[0], tx);
      }
      assert tx in mid.pol.issued;
      GoneStaysGone(c, mid, acts[1..], s', tx);
    }
  }

  lemma {:induction false} StatusPath(c: Config, s: State, acts: seq<Action>, s': State, tx: TxId)
    requires Inv(c, s) && Steps(c, s, acts, s')
    requires tx in s.pol.ledger.records && tx in s'.pol.ledger.records
    ensures Path(s.pol.ledger.records[tx].status, s'.pol.ledger.records[tx].status)
    decreases |acts|
  {
    if acts != [] {
      var mid := Next(c, s, acts[0]);
      StepInv(c, s, acts[0]);
      assert tx in mid.pol.issued;
      if tx !in mid.pol.ledger.records {
        GoneStaysGone(c, mid, acts[1..], s', tx);
      } else {
        StepFollowsEdge(c, s, acts[0], tx);
        StatusPath(c, mid, acts[1..], s', tx);
      }
    }
  }

  /** Although `UpdateStatus` accepts anything, between any two moments of any run a transaction only moves along
      PENDING -> EXECUTED -> COMPLETED or PENDING -> REJECTED, and a REJECTED or COMPLETED one never moves. */
  lemma StatusLifeCycle(c: Config, s: State, acts: seq<Action>, s': State, tx: TxId)
    requires Reachable(c, s) && Steps(c, s, acts, s')
    requires tx in s.pol.ledger.records && tx in s'.pol.ledger.records
    ensures Path(s.pol.ledger.records[tx].status, s'.pol.ledger.records[tx].status)
  {
    ReachableInv(c, s);
    StatusPath(c, s, acts, s', tx);
  }

  /** Each transaction is rolled back successfully at most once, and while its record lasts it then reads COMPLETED
      as soon as the rollback loop has written it. */
  lemma RolledBackAtMostOnce(c: Config, s: State)
    requires Reachable(c, s)
    ensures NoDuplicates(s.pol.undone)
    ensures s.pol.rollback.RollbackIdle? ==>
              forall tx | tx in s.pol.undone && tx in s.pol.ledger.records ::
                s.pol.ledger.records[tx].status == Completed
  {
    ReachableInv(c, s);
  }

  /** Every process the mitigator stopped by SIGSTOP and nobody has continued since is either still in the hands of the
      client that stopped it, or has a PAUSED signal-stop entry whose token resolves. */
  lemma NoFreezeWithoutHandle(c: Config, s: State, pid: Pid)
    requires Reachable(c, s) && pid in s.frz.ours
    ensures (exists i :: StopInFlight(s, i, pid)) || (exists t :: Resumable(s, t, pid))
  {
    ReachableInv(c, s);
    assert HandleGood(s, pid);
    match s.frz.handle[pid]
    case InFlight(i) => assert StopInFlight(s, i, pid);
    case ByToken(t) => assert Resumable(s, t, pid);
  }

  lemma {:induction false} InactiveStays(c: Config, s: State, acts: seq<Action>, s': State, t: Token)
    requires Inv(c, s) && Steps(c, s, acts, s') && t in s.frz.entries && !Active(s.frz.entries[t])
    ensures t in s'.frz.entries && !Active(s'.frz.entries[t])
    decreases |acts|
  {
    if acts != [] {
      StepInv(c, s, acts[0]);
      StepNeverReactivates(c, s, acts[0], t);
      InactiveStays(c, Next(c, s, acts[0]), acts[1..], s', t);
    }
  }

  /** No entry ever returns to active, even with the probe and the update of a reconciliation far apart. */
  lemma NeverActiveAgain(c: Config, s: State, acts: seq<Action>, s': State, t: Token)
    requires Reachable(c, s) && Steps(c, s, acts, s') && t in s.frz.entries && !Active(s.frz.entries[t])
    ensures t in s'.frz.entries && !Active(s'.frz.entries[t])
  {
    ReachableInv(c, s);
    InactiveStays(c, s, acts, s', t);
  }
}
