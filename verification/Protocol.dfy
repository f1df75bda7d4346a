/** The circuit breaker as a whole: any number of policy clients, the expiry sweep, the rollback loop, the reconciler
    and any number of resume calls, interleaved. Each action is one critical section or one system call. */
module Protocol {
  import opened Durations
  import opened Options
  import opened PolicyTypes
  import opened PolicyLedger
  import opened PolicyRules
  import opened PolicyEngine
  import opened Mitigation
  import Rollback

  datatype Config = Config(clients: nat, maxActions: nat, cooldownSecs: nat, maxEntries: nat, resumers: nat)

  function Cooldown(c: Config): Nanos {
    c.cooldownSecs * NANOS
  }

  datatype Client = MitigatorClient | RouterClient

  /** Where a policy client is in handling one alert. The ledger lock is free between any two of these. */
  datatype Caller =
    | Idle
    | Counted(intent: Intent, client: Client, count: nat)
    | Checked(intent: Intent, client: Client, verdict: Verdict)
    | Stamped(intent: Intent, client: Client, verdict: Verdict, at: Nanos)
    | Acting(tx: TxId, intent: Intent, client: Client)
    | Froze(tx: TxId, intent: Intent, mech: Mechanism)
    | FreezeFailed(tx: TxId)
    | Confirmed(intent: Intent, mech: Mechanism)

  datatype RollbackLoop =
    | RollbackIdle
    | Undoing(todo: seq<Record>)
    | Undid(rec: Record, todo: seq<Record>)

  datatype ReconcileLoop =
    | ReconcileIdle
    | Probing(todo: seq<Entry>)
    | Decided(token: Token, state: ActionState, todo: seq<Entry>)

  datatype Resumer =
    | ResumeIdle
    | Resolved(entry: Entry)
    | Continued(token: Token)
    | StateWritten(token: Token)

  datatype Authorisation = Authorisation(pid: Pid, at: Nanos)

  /** `issued`, `authorised`, `undone` and `evicted` are history: ids ever generated, authorisations ever registered,
      transactions rolled back in order, and whether a sweep ever removed an unexpired record. */
  datatype PolicySide = PolicySide(
    rules: Rules,
    ledger: Ledger,
    rollback: RollbackLoop,
    issued: set<TxId>,
    authorised: map<TxId, Authorisation>,
    undone: seq<TxId>,
    evicted: bool)

  /** Who answers for a process the mitigator stopped: the client still at work on it, or a ledger entry. */
  datatype Handle = InFlight(client: nat) | ByToken(token: Token)

  /** `ours` is history: the processes the mitigator stopped by SIGSTOP and that nobody continued since.
      `handle` is a history variable that names the handle of each of them. */
  datatype FreezeSide = FreezeSide(
    entries: Entries,
    alive: set<Pid>,
    stopped: set<Pid>,
    reconcile: ReconcileLoop,
    resumers: seq<Resumer>,
    ours: set<Pid>,
    handle: map<Pid, Handle>)

  datatype State = State(clock: Nanos, pol: PolicySide, frz: FreezeSide, callers: seq<Caller>)

  datatype Undo = SentContinue | Unpaused | Deactivated | UndoFailed

  datatype Action =
    // the environment
    | Tick(now: Nanos)
    | ChangeWhitelist(names: set<string>, ids: set<string>)
    | ProcessStarts(pid: Pid)
    | ProcessExits(pid: Pid)
    | OutsideStop(pid: Pid)
    | OutsideContinue(pid: Pid)
    // a policy client
    | Count(i: nat, client: Client, intent: Intent)
    | Judge(i: nat)
    | Stamp(i: nat)
    | Register(i: nat, tx: TxId)
    | PauseWorks(i: nat)
    | StopWorks(i: nat)
    | FreezeFails(i: nat)
    | WriteStatus(i: nat)
    | RecordEntry(i: nat, token: Token)
    // the ledger's sweeper
    | Sweep(swept: Ledger)
    // the rollback loop
    | ListDue(found: seq<Record>)
    | UndoNext(undo: Undo)
    | CompleteUndone
    // the reconciler
    | ListHeld(held: seq<Entry>)
    | ProbeNext(runtime: Rollback.RuntimeState)
    | WriteReconciled
    // resume calls
    | Resolve(r: nat, token: Token)
    | ResumeCall(r: nat, ok: bool)
    | WriteResumed(r: nat)
    | CompleteToken(r: nat)

  ghost predicate Init(c: Config, s: State) {
    && s.pol.ledger == EMPTY_LEDGER && s.pol.rollback == RollbackIdle
    && s.pol.rules.maxActionsPerPID == c.maxActions
    && s.pol.issued == {} && s.pol.authorised == map[] && s.pol.undone == [] && !s.pol.evicted
    && s.frz.entries == map[] && s.frz.reconcile == ReconcileIdle && s.frz.stopped <= s.frz.alive
    && s.frz.ours == {} && s.frz.handle == map[]
    && s.callers == seq(c.clients, i => Idle)
    && s.frz.resumers == seq(c.resumers, i => ResumeIdle)
  }

  // ----- when an action may happen -----

  predicate UndoAllowed(r: Record, undo: Undo, alive: set<Pid>) {
    match undo
    case SentContinue => !Rollback.IsRouterAction(r) && r.targetPID in alive
    case Unpaused => r.actionType in {ContainerPause, CgroupFreeze} && r.containerID != ""
    case Deactivated => Rollback.IsRouterAction(r)
    case UndoFailed => !Rollback.IsRouterAction(r)
  }

  /** The mitigator asks for a freeze, the router for a reroute or a chop. */
  predicate IntentFits(client: Client, intent: Intent) {
    match client
    case MitigatorClient => intent.actionType == if intent.containerID != "" then ContainerPause else SigStop
    case RouterClient => intent.actionType in {ApiRouteSwap, TokenChop}
  }

  ghost predicate Enabled(c: Config, s: State, a: Action) {
    match a
    case Tick(now) => now >= s.clock
    case ChangeWhitelist(_, _) => true
    case ProcessStarts(pid) => pid !in s.frz.alive
    case ProcessExits(pid) => pid in s.frz.alive
    case OutsideStop(pid) => pid in s.frz.alive
    case OutsideContinue(pid) => pid in s.frz.alive
    case Count(i, client, intent) => i < |s.callers| && s.callers[i].Idle? && IntentFits(client, intent)
    case Judge(i) => i < |s.callers| && s.callers[i].Counted?
    case Stamp(i) => i < |s.callers| && s.callers[i].Checked?
    case Register(i, tx) => i < |s.callers| && s.callers[i].Stamped? && IsTxId(tx) && tx !in s.pol.issued
    case PauseWorks(i) => MayFreeze(s, i) && s.callers[i].intent.containerID != ""
    case StopWorks(i) => MayFreeze(s, i) && s.callers[i].intent.targetPID in s.frz.alive
    case FreezeFails(i) => MayFreeze(s, i)
    case WriteStatus(i) =>
      i < |s.callers| && (s.callers[i].Froze? || s.callers[i].FreezeFailed?
                          || (s.callers[i].Acting? && s.callers[i].client.RouterClient?))
    case RecordEntry(i, token) =>
      i < |s.callers| && s.callers[i].Confirmed? && IsToken(token) && token !in s.frz.entries
    case Sweep(swept) => SweepsTo(s.pol.ledger, s.clock, c.maxEntries, swept)
    case ListDue(found) => s.pol.rollback.RollbackIdle? && Rollback.SnapshotOfDue(s.pol.ledger.records, s.clock, found)
    case UndoNext(undo) =>
      s.pol.rollback.Undoing? && s.pol.rollback.todo != [] && UndoAllowed(s.pol.rollback.todo[0], undo, s.frz.alive)
    case CompleteUndone => s.pol.rollback.Undid?
    case ListHeld(held) => s.frz.reconcile.ReconcileIdle? && ListsActive(s.frz.entries, s.frz.entries.Keys, held)
    case ProbeNext(runtime) =>
      s.frz.reconcile.Probing? && s.frz.reconcile.todo != []
      && ProbeHonest(s.frz, s.frz.reconcile.todo[0].pid, runtime)
    case WriteReconciled => s.frz.reconcile.Decided?
    case Resolve(r, token) => r < |s.frz.resumers| && s.frz.resumers[r].ResumeIdle? && token in s.frz.entries
    case ResumeCall(r, ok) =>
      r < |s.frz.resumers| && s.frz.resumers[r].Resolved?
      && (ok && s.frz.resumers[r].entry.mechanism != PauseContainer ==> s.frz.resumers[r].entry.pid in s.frz.alive)
    case WriteResumed(r) => r < |s.frz.resumers| && s.frz.resumers[r].Continued?
    case CompleteToken(r) => r < |s.frz.resumers| && s.frz.resumers[r].StateWritten?
  }

  ghost predicate MayFreeze(s: State, i: nat) {
    i < |s.callers| && s.callers[i].Acting? && s.callers[i].client.MitigatorClient?
  }

  /** The probe's one obligation: a stopped process reads as stopped. */
  predicate ProbeHonest(f: FreezeSide, pid: Pid, runtime: Rollback.RuntimeState) {
    pid in f.stopped ==> runtime == Rollback.RuntimeStopped
  }

  // ----- what an action does -----

  function AfterTodo(todo: seq<Record>): RollbackLoop {
    if todo == [] then RollbackIdle else Undoing(todo)
  }

  function AfterProbes(todo: seq<Entry>): ReconcileLoop {
    if todo == [] then ReconcileIdle else Probing(todo)
  }

  /** SIGCONT, from anybody: the process runs and the mitigator's stop is over. */
  function ContinuePid(f: FreezeSide, pid: Pid): FreezeSide {
    f.(stopped := f.stopped - {pid}, ours := f.ours - {pid}, handle := f.handle - {pid})
  }

  /** SIGSTOP by client `i`. */
  function StopPid(f: FreezeSide, pid: Pid, i: nat): FreezeSide {
    f.(stopped := f.stopped + {pid}, ours := f.ours + {pid}, handle := f.handle[pid := InFlight(i)])
  }

  /** The new entry takes over as the handle of a stop the same client has in flight. */
  function RecordStop(f: FreezeSide, i: nat, intent: Intent, mech: Mechanism, token: Token): FreezeSide {
    var pid := intent.targetPID;
    var entry := Entry(pid, intent.containerID, intent.processName, "", 0, Paused, token, mech);
    f.(entries := Recorded(f.entries, entry, token),
       handle := if pid in f.handle && f.handle[pid] == InFlight(i) then f.handle[pid := ByToken(token)] else f.handle)
  }

  ghost function RegisterStep(c: Config, p: PolicySide, cl: Caller, tx: TxId): PolicySide
    requires cl.Stamped?
  {
    var r := RecordFor(p.ledger, cl.intent, cl.verdict, c.cooldownSecs, cl.at, tx);
    p.(ledger := Insert(p.ledger, r),
       issued := p.issued + {tx},
       authorised := if cl.verdict.authorized then p.authorised[tx := Authorisation(cl.intent.targetPID, cl.at)]
                     else p.authorised)
  }

  ghost function WriteStatusLedger(l: Ledger, cl: Caller): Ledger {
    match cl
    case Froze(tx, _, _) => SetStatus(l, tx, Executed)
    case FreezeFailed(tx) => SetStatus(l, tx, Rejected)
    case Acting(tx, _, _) => SetStatus(l, tx, Executed)
    case _ => l
  }

  function AfterWriteStatus(cl: Caller): Caller {
    match cl
    case Froze(_, intent, mech) => Confirmed(intent, mech)
    case _ => Idle
  }

  ghost function NextCaller(c: Config, s: State, a: Action): Caller
    requires Enabled(c, s, a) && ActsFor(a).Some?
  {
    match a
    case Count(i, client, intent) =>
      Counted(intent, client, IndexedCount(s.pol.ledger, intent.targetPID, s.clock))
    case Judge(i) =>
      var cl := s.callers[i];
      Checked(cl.intent, cl.client, Evaluate(s.pol.rules, cl.intent, cl.count))
    case Stamp(i) =>
      var cl := s.callers[i];
      Stamped(cl.intent, cl.client, cl.verdict, s.clock)
    case Register(i, tx) =>
      var cl := s.callers[i];
      if cl.verdict.authorized then Acting(tx, cl.intent, cl.client) else Idle
    case PauseWorks(i) => Froze(s.callers[i].tx, s.callers[i].intent, PauseContainer)
    case StopWorks(i) => Froze(s.callers[i].tx, s.callers[i].intent, SignalStop)
    case FreezeFails(i) => FreezeFailed(s.callers[i].tx)
    case WriteStatus(i) => AfterWriteStatus(s.callers[i])
    case RecordEntry(_, _) => Idle
  }

  /** The client an action belongs to. */
  function ActsFor(a: Action): Option<nat> {
    match a
    case Count(i, _, _) => Some(i)
    case Judge(i) => Some(i)
    case Stamp(i) => Some(i)
    case Register(i, _) => Some(i)
    case PauseWorks(i) => Some(i)
    case StopWorks(i) => Some(i)
    case FreezeFails(i) => Some(i)
    case WriteStatus(i) => Some(i)
    case RecordEntry(i, _) => Some(i)
    case _ => None
  }

  ghost function NextPolicy(c: Config, s: State, a: Action): PolicySide
    requires Enabled(c, s, a)
  {
    var p := s.pol;
    match a
    case ChangeWhitelist(names, ids) => p.(rules := p.rules.(whitelistNames := names, whitelistIDs := ids))
    case Register(i, tx) => RegisterStep(c, p, s.callers[i], tx)
    case WriteStatus(i) => p.(ledger := WriteStatusLedger(p.ledger, s.callers[i]))
    case Sweep(swept) =>
      p.(ledger := swept, evicted := p.evicted || swept.records != UnexpiredRecords(p.ledger, s.clock))
    case ListDue(found) => p.(rollback := AfterTodo(found))
    case UndoNext(undo) =>
      var rec, rest := p.rollback.todo[0], p.rollback.todo[1..];
      if undo == UndoFailed then p.(rollback := AfterTodo(rest))
      else p.(rollback := Undid(rec, rest), undone := p.undone + [rec.transactionID])
    case CompleteUndone =>
      p.(ledger := SetStatus(p.ledger, p.rollback.rec.transactionID, Completed), rollback := AfterTodo(p.rollback.todo))
    case CompleteToken(r) => p.(ledger := SetStatus(p.ledger, s.frz.resumers[r].token, Completed))
    case _ => p
  }

  ghost function NextFreeze(c: Config, s: State, a: Action): FreezeSide
    requires Enabled(c, s, a)
  {
    var f := s.frz;
    match a
    case ProcessStarts(pid) => f.(alive := f.alive + {pid})
    case ProcessExits(pid) => ContinuePid(f, pid).(alive := f.alive - {pid})
    case OutsideStop(pid) => f.(stopped := f.stopped + {pid})
    case OutsideContinue(pid) => ContinuePid(f, pid)
    case StopWorks(i) => StopPid(f, s.callers[i].intent.targetPID, i)
    case RecordEntry(i, token) => RecordStop(f, i, s.callers[i].intent, s.callers[i].mech, token)
    case UndoNext(undo) => if undo == SentContinue then ContinuePid(f, s.pol.rollback.todo[0].targetPID) else f
    case ListHeld(held) => f.(reconcile := AfterProbes(held))
    case ProbeNext(runtime) =>
      var e, rest := f.reconcile.todo[0], f.reconcile.todo[1..];
      (match Rollback.Reconciled(runtime)
       case None => f.(reconcile := AfterProbes(rest))
       case Some(st) => f.(reconcile := Decided(e.token, st, rest)))
    case WriteReconciled =>
      f.(entries := WithState(f.entries, f.reconcile.token, f.reconcile.state),
         reconcile := AfterProbes(f.reconcile.todo))
    case Resolve(r, token) => f.(resumers := f.resumers[r := Resolved(f.entries[token])])
    case ResumeCall(r, ok) =>
      var e := f.resumers[r].entry;
      var f' := f.(resumers := f.resumers[r := if ok then Continued(e.token) else ResumeIdle]);
      if ok && e.mechanism != PauseContainer then ContinuePid(f', e.pid) else f'
    case WriteResumed(r) =>
      var t := f.resumers[r].token;
      f.(entries := WithState(f.entries, t, Resumed), resumers := f.resumers[r := StateWritten(t)])
    case CompleteToken(r) => f.(resumers := f.resumers[r := ResumeIdle])
    case _ => f
  }

  ghost function Next(c: Config, s: State, a: Action): State
    requires Enabled(c, s, a)
  {
    State(if a.Tick? then a.now else s.clock,
          NextPolicy(c, s, a),
          NextFreeze(c, s, a),
          match ActsFor(a) case Some(i) => s.callers[i := NextCaller(c, s, a)] case None => s.callers)
  }

  /** `acts`, taken in order, lead from `s` to `s'`. */
  ghost predicate Steps(c: Config, s: State, acts: seq<Action>, s': State)
    decreases |acts|
  {
    if acts == [] then s' == s
    else Enabled(c, s, acts[0]) && Steps(c, Next(c, s, acts[0]), acts[1..], s')
  }

  ghost predicate Reachable(c: Config, s: State) {
    exists s0, acts :: Init(c, s0) && Steps(c, s0, acts, s)
  }
}
