/** Particular runs: one that attains the interleaved velocity bound, and the uninterrupted handling of an alert. */
module ProtocolRuns {
  import opened Options
  import opened PolicyTypes
  import opened PolicyLedger
  import opened PolicyRules
  import opened PolicyEngine
  import opened Mitigation
  import opened Protocol
  import opened ProtocolBasics
  import opened ProtocolVelocity
  import opened ProtocolWindow
  import opened ProtocolTheorems
  import Router

  lemma {:induction false} StepsThen(c: Config, s: State, acts: seq<Action>, s': State, a: Action)
    requires Steps(c, s, acts, s') && Enabled(c, s', a)
    ensures Steps(c, s, acts + [a], Next(c, s', a))
    decreases |acts|
  {
    if acts == [] {
      assert [a][1..] == [];
    } else {
      StepsThen(c, Next(c, s, acts[0]), acts[1..], s', a);
      assert (acts + [a])[1..] == acts[1..] + [a];
    }
  }

  lemma {:induction false} StepsCompose(c: Config, s: State, a1: seq<Action>, mid: State, a2: seq<Action>, s': State)
    requires Steps(c, s, a1, mid) && Steps(c, mid, a2, s')
    ensures Steps(c, s, a1 + a2, s')
    decreases |a1|
  {
    if a1 == [] {
      assert a1 + a2 == a2;
    } else {
      StepsCompose(c, Next(c, s, a1[0]), a1[1..], mid, a2, s');
      assert (a1 + a2)[1..] == a1[1..] + a2;
    }
  }

  lemma OneStep(c: Config, s: State, a: Action)
    requires Enabled(c, s, a)
    ensures Steps(c, s, [a], Next(c, s, a))
  {
    assert Steps(c, s, [], s);
    StepsThen(c, s, [], s, a);
    assert [] + [a] == [a];
  }

  lemma {:induction false} StepsBasic(c: Config, s: State, acts: seq<Action>, s': State)
    requires BasicInv(c, s) && Steps(c, s, acts, s')
    ensures BasicInv(c, s')
    decreases |acts|
  {
    if acts != [] {
      StepKeepsBasic(c, s, acts[0]);
      StepsBasic(c, Next(c, s, acts[0]), acts[1..], s');
    }
  }

  /** A client counts and judges without interruption. */
  lemma CountAndJudge(c: Config, s: State, i: nat, client: Client, intent: Intent) returns (acts: seq<Action>, s': State)
    requires Enabled(c, s, Count(i, client, intent))
    ensures Steps(c, s, acts, s')
    ensures s' == s.(callers := s.callers[i := Checked(intent, client,
                       Evaluate(s.pol.rules, intent, IndexedCount(s.pol.ledger, intent.targetPID, s.clock)))])
  {
    var count := IndexedCount(s.pol.ledger, intent.targetPID, s.clock);
    var a := Count(i, client, intent);
    var mid := s.(callers := s.callers[i := Counted(intent, client, count)]);
    assert Next(c, s, a) == mid;
    OneStep(c, s, a);
    StepsThen(c, s, [a], mid, Judge(i));
    acts, s' := [a] + [Judge(i)], Next(c, mid, Judge(i));
    assert mid.callers[i := Checked(intent, client, Evaluate(s.pol.rules, intent, count))]
        == s.callers[i := Checked(intent, client, Evaluate(s.pol.rules, intent, count))];
  }

  /** A client stamps and registers its verdict without interruption. */
  lemma StampAndRegister(c: Config, s: State, i: nat, tx: TxId) returns (acts: seq<Action>, s': State)
    requires i < |s.callers| && s.callers[i].Checked? && IsTxId(tx) && tx !in s.pol.issued
    ensures Steps(c, s, acts, s')
    ensures var cl := s.callers[i];
            s' == s.(pol := RegisterStep(c, s.pol, Stamped(cl.intent, cl.client, cl.verdict, s.clock), tx),
                     callers := s.callers[i := if cl.verdict.authorized then Acting(tx, cl.intent, cl.client) else Idle])
  {
    var cl := s.callers[i];
    var stamped := Stamped(cl.intent, cl.client, cl.verdict, s.clock);
    var mid := s.(callers := s.callers[i := stamped]);
    assert Next(c, s, Stamp(i)) == mid;
    OneStep(c, s, Stamp(i));
    StepsThen(c, s, [Stamp(i)], mid, Register(i, tx));
    acts, s' := [Stamp(i)] + [Register(i, tx)], Next(c, mid, Register(i, tx));
    var after := if cl.verdict.authorized then Acting(tx, cl.intent, cl.client) else Idle;
    assert mid.callers[i := after] == s.callers[i := after];
  }

  // ----- the bound is attained -----

  const TARGET: Pid := 1000
  const REQUEST: Intent := Intent(TARGET, "", "", TokenChop)
  const GRANTED: Verdict := Verdict(true, [PidBoundary, SystemBlacklist], None)

  function Name(n: nat): TxId {
    "tx_" + seq(n, i => 'f')
  }

  function Names(n: nat): set<TxId> {
    set j: nat | j < n :: Name(j)
  }

  lemma NamesGrow(n: nat)
    ensures Name(n) !in Names(n) && Names(n + 1) == Names(n) + {Name(n)}
  {
    assert forall j: nat | j < n :: |Name(j)| < |Name(n)|;
  }

  lemma {:induction false} NamesSize(n: nat)
    ensures |Names(n)| == n && Name(n) !in Names(n) && IsTxId(Name(n)) && Names(n + 1) == Names(n) + {Name(n)}
  {
    NamesGrow(n);
    if n > 0 {
      NamesSize(n - 1);
    } else {
      assert Names(n) == {};
    }
    assert Name(n)[..3] == "tx_";
  }

  /** `n` authorised records for the target; clients `lo..hi` hold granted verdicts, the others are idle. */
  ghost predicate Stage(c: Config, s: State, n: nat, lo: nat, hi: nat) {
    && BasicInv(c, s) && s.clock == 0 && !s.pol.evicted
    && s.pol.rules == Rules({}, {}, {}, 1, c.maxActions)
    && s.pol.issued == Names(n)
    && UnexpiredFor(s.pol.ledger, TARGET, 0) == Names(n)
    && UnexpiredAuthorised(s.pol.ledger, TARGET, 0) == Names(n)
    && forall j | 0 <= j < |s.callers| ::
         s.callers[j] == if lo <= j < hi then Checked(REQUEST, RouterClient, GRANTED) else Idle
  }

  lemma StartStage(c: Config) returns (s: State)
    ensures Init(c, s) && Stage(c, s, 0, 0, 0)
  {
    s := State(0,
               PolicySide(Rules({}, {}, {}, 1, c.maxActions), EMPTY_LEDGER, RollbackIdle, {}, map[], [], false),
               FreezeSide(map[], {}, {}, ReconcileIdle, seq(c.resumers, i => ResumeIdle), {}, map[]),
               seq(c.clients, i => Idle));
    InitBasic(c, s);
    assert Names(0) == {};
  }

  /** The next idle client counts and is granted. */
  lemma CountOne(c: Config, s: State, n: nat, lo: nat, hi: nat) returns (acts: seq<Action>, s': State)
    requires Stage(c, s, n, lo, hi) && lo <= hi < c.clients && n < c.maxActions
    ensures Steps(c, s, acts, s') && Stage(c, s', n, lo, hi + 1)
  {
    assert Evaluate(s.pol.rules, REQUEST, IndexedCount(s.pol.ledger, TARGET, 0)) == GRANTED by {
      GrantedBelowCap(c, s, n);
    }
    acts, s' := CountAndJudge(c, s, hi, RouterClient, REQUEST);
    StepsBasic(c, s, acts, s');
  }

  lemma GrantedBelowCap(c: Config, s: State, n: nat)
    requires WellIndexed(s.pol.ledger) && s.pol.rules == Rules({}, {}, {}, 1, c.maxActions)
    requires UnexpiredFor(s.pol.ledger, TARGET, 0) == Names(n) && n < c.maxActions
    ensures Evaluate(s.pol.rules, REQUEST, IndexedCount(s.pol.ledger, TARGET, 0)) == GRANTED
  {
    HistoricalCountIsFullScan(s.pol.ledger, TARGET, 0);
    NamesSize(n);
  }

  /** The first client with a verdict registers it and finishes. */
  lemma RegisterOne(c: Config, s: State, n: nat, lo: nat, hi: nat) returns (acts: seq<Action>, s': State)
    requires Stage(c, s, n, lo, hi) && lo < hi <= c.clients
    ensures Steps(c, s, acts, s') && Stage(c, s', n + 1, lo + 1, hi)
  {
    NamesSize(n);
    acts, s' := RegisterAndFinish(c, s, lo, Name(n));
    StepsBasic(c, s, acts, s');
    RegisteredScan(c, s, n);
    WriteKeepsScan(Granted(c, s, Name(n)), Name(n));
  }

  ghost function Granted(c: Config, s: State, tx: TxId): Ledger {
    Insert(s.pol.ledger, RecordFor(s.pol.ledger, REQUEST, GRANTED, c.cooldownSecs, s.clock, tx))
  }

  lemma RegisterAndFinish(c: Config, s: State, i: nat, tx: TxId) returns (acts: seq<Action>, s': State)
    requires i < |s.callers| && s.callers[i] == Checked(REQUEST, RouterClient, GRANTED)
    requires IsTxId(tx) && tx !in s.pol.issued
    ensures Steps(c, s, acts, s')
    ensures s'.pol.ledger == SetStatus(Granted(c, s, tx), tx, Executed)
    ensures s'.callers == s.callers[i := Idle] && s'.clock == s.clock
    ensures s'.pol.rules == s.pol.rules && s'.pol.issued == s.pol.issued + {tx} && s'.pol.evicted == s.pol.evicted
  {
    var mid: State;
    acts, mid := StampAndRegister(c, s, i, tx);
    acts, s' := RouterConfirms(c, s, acts, mid, i, tx);
    assert s'.callers == s.callers[i := Idle];
  }

  /** The router confirms its transaction at the end of a run. */
  lemma RouterConfirms(c: Config, s: State, acts: seq<Action>, mid: State, i: nat, tx: TxId)
    returns (acts': seq<Action>, s': State)
    requires Steps(c, s, acts, mid) && i < |mid.callers|
    requires mid.callers[i].Acting? && mid.callers[i].tx == tx && mid.callers[i].client.RouterClient?
    ensures Steps(c, s, acts', s')
    ensures s' == mid.(pol := mid.pol.(ledger := SetStatus(mid.pol.ledger, tx, Executed)),
                       callers := mid.callers[i := Idle])
  {
    StepsThen(c, s, acts, mid, WriteStatus(i));
    acts', s' := acts + [WriteStatus(i)], Next(c, mid, WriteStatus(i));
  }

  lemma RegisteredScan(c: Config, s: State, n: nat)
    requires BasicInv(c, s) && s.pol.issued == Names(n) && s.clock == 0
    ensures var l := Granted(c, s, Name(n));
            && UnexpiredFor(l, TARGET, 0) == UnexpiredFor(s.pol.ledger, TARGET, 0) + {Name(n)}
            && UnexpiredAuthorised(l, TARGET, 0) == UnexpiredAuthorised(s.pol.ledger, TARGET, 0) + {Name(n)}
  {
    NamesSize(n);
    var r := RecordFor(s.pol.ledger, REQUEST, GRANTED, c.cooldownSecs, 0, Name(n));
    assert Name(n) !in s.pol.ledger.records;
    InsertExtendsScan(s.pol.ledger, r, TARGET, 0);
  }

  lemma WriteKeepsScan(l: Ledger, tx: TxId)
    ensures UnexpiredFor(SetStatus(l, tx, Executed), TARGET, 0) == UnexpiredFor(l, TARGET, 0)
    ensures UnexpiredAuthorised(SetStatus(l, tx, Executed), TARGET, 0) == UnexpiredAuthorised(l, TARGET, 0)
  {
  }

  lemma {:induction false} FillLedger(c: Config, s: State, n: nat) returns (acts: seq<Action>, s': State)
    requires Stage(c, s, n, 0, 0) && n < c.maxActions && c.clients >= 1
    ensures Steps(c, s, acts, s') && Stage(c, s', c.maxActions - 1, 0, 0)
    decreases c.maxActions - n
  {
    acts, s' := [], s;
    if n < c.maxActions - 1 {
      var a1, s1 := CountOne(c, s, n, 0, 0);
      var a2, s2 := RegisterOne(c, s1, n, 0, 1);
      var a3, s3 := FillLedger(c, s2, n + 1);
      StepsCompose(c, s, a1, s1, a2, s2);
      StepsCompose(c, s, a1 + a2, s2, a3, s3);
      acts, s' := a1 + a2 + a3, s3;
    }
  }

  lemma {:induction false} CountAll(c: Config, s: State, n: nat, hi: nat) returns (acts: seq<Action>, s': State)
    requires Stage(c, s, n, 0, hi) && hi <= c.clients && n < c.maxActions
    ensures Steps(c, s, acts, s') && Stage(c, s', n, 0, c.clients)
    decreases c.clients - hi
  {
    acts, s' := [], s;
    if hi < c.clients {
      var a1, s1 := CountOne(c, s, n, 0, hi);
      var a2, s2 := CountAll(c, s1, n, hi + 1);
      StepsCompose(c, s, a1, s1, a2, s2);
      acts, s' := a1 + a2, s2;
    }
  }

  lemma {:induction false} RegisterAll(c: Config, s: State, n: nat, lo: nat) returns (acts: seq<Action>, s': State)
    requires Stage(c, s, n, lo, c.clients) && lo <= c.clients
    ensures Steps(c, s, acts, s') && Stage(c, s', n + (c.clients - lo), c.clients, c.clients)
    decreases c.clients - lo
  {
    acts, s' := [], s;
    if lo < c.clients {
      var a1, s1 := RegisterOne(c, s, n, lo, c.clients);
      var a2, s2 := RegisterAll(c, s1, n + 1, lo + 1);
      StepsCompose(c, s, a1, s1, a2, s2);
      acts, s' := a1 + a2, s2;
    }
  }

  /** The bound of `VelocityCap` cannot be improved: for every number of clients and every cap there is a run that ends
      with `maxActions + clients - 1` unexpired authorised records of one PID. Two clients already exceed the cap. */
  lemma VelocityCapIsTight(c: Config)
    requires c.clients >= 1 && c.maxActions >= 1
    ensures exists s :: Reachable(c, s) && !s.pol.evicted
              && |UnexpiredAuthorised(s.pol.ledger, TARGET, s.clock)| == c.maxActions + c.clients - 1
  {
    var s0 := StartStage(c);
    var acts, s := TightRun(c, s0);
    RunReaches(c, s0, acts, s);
    StageCount(c, s, c.maxActions - 1 + c.clients, c.clients, c.clients);
  }

  lemma StageCount(c: Config, s: State, n: nat, lo: nat, hi: nat)
    requires Stage(c, s, n, lo, hi)
    ensures !s.pol.evicted && |UnexpiredAuthorised(s.pol.ledger, TARGET, s.clock)| == n
  {
    NamesSize(n);
  }

  lemma TightRun(c: Config, s0: State) returns (acts: seq<Action>, s: State)
    requires c.clients >= 1 && c.maxActions >= 1 && Stage(c, s0, 0, 0, 0)
    ensures Steps(c, s0, acts, s) && Stage(c, s, c.maxActions - 1 + c.clients, c.clients, c.clients)
  {
    var a1, s1 := FillLedger(c, s0, 0);
    var a2, s2 := CountAll(c, s1, c.maxActions - 1, 0);
    var a3, s3 := RegisterAll(c, s2, c.maxActions - 1, 0);
    StepsCompose(c, s0, a1, s1, a2, s2);
    StepsCompose(c, s0, a1 + a2, s2, a3, s3);
    acts, s := a1 + a2 + a3, s3;
  }

  // ----- why the sliding window needs a ledger that is large enough -----

  /** A request that no rule but the first looks at. */
  const REFUSED: Intent := Intent(0, "", "", TokenChop)
  const REFUSAL: Verdict := Verdict(false, [PidBoundary], Some(PidBoundary))

  function RecordOf(c: Config, l: Ledger, intent: Intent, v: Verdict, tx: TxId): Record {
    RecordFor(l, intent, v, c.cooldownSecs, 0, tx)
  }

  /** Everybody is idle and the ledger holds `k` refusals, all stamped at 0. Of the `k + n` ids issued, the others were
      authorisations for the target, all stamped at 0 too. */
  ghost predicate Refusals(c: Config, s: State, k: nat, n: nat) {
    && s.clock == 0 && s.callers == seq(c.clients, i => Idle)
    && s.pol.rules == Rules({}, {}, {}, 1, c.maxActions)
    && WellIndexed(s.pol.ledger) && |s.pol.ledger.records| == k && s.pol.ledger.records.Keys <= s.pol.issued
    && (forall id | id in s.pol.ledger.records ::
          s.pol.ledger.records[id].targetPID == 0 && s.pol.ledger.records[id].timestamp == 0
          && s.pol.ledger.records[id].expiry >= 0)
    && s.pol.issued == Names(k + n)
    && |Authorised(c, s.pol, TARGET, 0)| == n && s.pol.authorised.Keys <= s.pol.issued
  }

  lemma StartRefusals(c: Config) returns (s: State)
    ensures Init(c, s) && Refusals(c, s, 0, 0)
  {
    s := StartStage(c);
    assert Authorised(c, s.pol, TARGET, 0) == {};
    assert s.callers == seq(c.clients, i => Idle);
  }

  lemma RefuseOne(c: Config, s: State, k: nat) returns (acts: seq<Action>, s': State)
    requires Refusals(c, s, k, 0) && c.clients >= 1
    ensures Steps(c, s, acts, s') && Refusals(c, s', k + 1, 0)
  {
    NamesSize(k);
    acts, s' := RefusedCall(c, s, Name(k));
    RefusalRegistered(c, s, s', k, Name(k));
  }

  /** A request that the boundary refuses, handled alone. */
  lemma RefusedCall(c: Config, s: State, tx: TxId) returns (acts: seq<Action>, s': State)
    requires s.clock == 0 && c.clients >= 1 && s.callers == seq(c.clients, i => Idle)
    requires s.pol.rules == Rules({}, {}, {}, 1, c.maxActions) && IsTxId(tx) && tx !in s.pol.issued
    ensures Steps(c, s, acts, s') && s'.callers == s.callers && s'.clock == s.clock
    ensures s'.pol.ledger == Insert(s.pol.ledger, RecordOf(c, s.pol.ledger, REFUSED, REFUSAL, tx))
    ensures s'.pol.issued == s.pol.issued + {tx} && s'.pol.authorised == s.pol.authorised
    ensures s'.pol.rules == s.pol.rules
  {
    var a1, s1 := CountAndJudge(c, s, 0, RouterClient, REFUSED);
    var a2, s2 := StampAndRegister(c, s1, 0, tx);
    StepsCompose(c, s, a1, s1, a2, s2);
    acts, s' := a1 + a2, s2;
    assert s'.callers == s.callers;
  }

  lemma RefusalRegistered(c: Config, s: State, s': State, k: nat, tx: TxId)
    requires Refusals(c, s, k, 0) && tx == Name(k)
    requires s'.clock == s.clock && s'.callers == s.callers && s'.pol.rules == s.pol.rules
    requires s'.pol.ledger == Insert(s.pol.ledger, RecordOf(c, s.pol.ledger, REFUSED, REFUSAL, tx))
    requires s'.pol.issued == s.pol.issued + {tx} && s'.pol.authorised == s.pol.authorised
    ensures Refusals(c, s', k + 1, 0)
  {
    var r := RecordOf(c, s.pol.ledger, REFUSED, REFUSAL, tx);
    NamesSize(k);
    InsertKeepsIndex(s.pol.ledger, r);
    OneMoreRecord(s.pol.ledger.records, tx, r);
    assert Authorised(c, s'.pol, TARGET, 0) == Authorised(c, s.pol, TARGET, 0);
  }

  lemma OneMoreRecord(records: map<TxId, Record>, tx: TxId, r: Record)
    requires tx !in records
    ensures |records[tx := r]| == |records| + 1
  {
    assert records[tx := r].Keys == records.Keys + {tx};
  }

  lemma {:induction false} RefuseMany(c: Config, s: State, k: nat, m: nat) returns (acts: seq<Action>, s': State)
    requires Refusals(c, s, k, 0) && c.clients >= 1 && k <= m
    ensures Steps(c, s, acts, s') && Refusals(c, s', m, 0)
    decreases m - k
  {
    acts, s' := [], s;
    if k < m {
      var a1, s1 := RefuseOne(c, s, k);
      var a2, s2 := RefuseMany(c, s1, k + 1, m);
      StepsCompose(c, s, a1, s1, a2, s2);
      acts, s' := a1 + a2, s2;
    }
  }

  /** The router handles one request for the target from start to finish, alone. */
  lemma TargetCall(c: Config, s: State, tx: TxId) returns (acts: seq<Action>, s': State)
    requires s.clock == 0 && c.clients >= 1 && s.callers == seq(c.clients, i => Idle) && c.maxActions >= 1
    requires s.pol.rules == Rules({}, {}, {}, 1, c.maxActions) && WellIndexed(s.pol.ledger)
    requires UnexpiredFor(s.pol.ledger, TARGET, 0) == {} && IsTxId(tx) && tx !in s.pol.issued
    ensures Steps(c, s, acts, s') && s'.callers == s.callers && s'.clock == s.clock
    ensures s'.pol.ledger
         == SetStatus(Insert(s.pol.ledger, RecordOf(c, s.pol.ledger, REQUEST, GRANTED, tx)), tx, Executed)
    ensures s'.pol.authorised == s.pol.authorised[tx := Authorisation(TARGET, 0)]
    ensures s'.pol.issued == s.pol.issued + {tx} && s'.pol.rules == s.pol.rules
    ensures s'.pol.rollback == s.pol.rollback && s'.pol.undone == s.pol.undone
  {
    HistoricalCountIsFullScan(s.pol.ledger, TARGET, 0);
    assert Evaluate(s.pol.rules, REQUEST, IndexedCount(s.pol.ledger, TARGET, 0)) == GRANTED;
    var a1, s1 := CountAndJudge(c, s, 0, RouterClient, REQUEST);
    acts, s' := RegisterGranted(c, s, a1, s1, tx);
    assert s'.callers == s.callers;
  }

  lemma RegisterGranted(c: Config, s: State, acts: seq<Action>, s1: State, tx: TxId) returns (acts': seq<Action>, s': State)
    requires Steps(c, s, acts, s1) && |s1.callers| >= 1 && s1.callers[0] == Checked(REQUEST, RouterClient, GRANTED)
    requires s1.clock == 0 && IsTxId(tx) && tx !in s1.pol.issued
    ensures Steps(c, s, acts', s') && s'.callers == s1.callers[0 := Idle] && s'.clock == s1.clock
    ensures s'.pol.ledger
         == SetStatus(Insert(s1.pol.ledger, RecordOf(c, s1.pol.ledger, REQUEST, GRANTED, tx)), tx, Executed)
    ensures s'.pol.authorised == s1.pol.authorised[tx := Authorisation(TARGET, 0)]
    ensures s'.pol.issued == s1.pol.issued + {tx} && s'.pol.rules == s1.pol.rules
    ensures s'.pol.rollback == s1.pol.rollback && s'.pol.undone == s1.pol.undone
  {
    var a2, s2 := StampAndRegister(c, s1, 0, tx);
    StepsCompose(c, s, acts, s1, a2, s2);
    acts', s' := RouterConfirms(c, s, acts + a2, s2, 0, tx);
    assert s'.callers == s1.callers[0 := Idle];
  }

  /** The full ledger has room for everything but the newcomer. */
  lemma SweepForgets(l: Ledger, tx: TxId, r: Record, maxEntries: nat)
    requires WellIndexed(l) && |l.records| == maxEntries && tx !in l.records
    requires forall id | id in l.records :: l.records[id].timestamp == 0 && l.records[id].expiry >= 0
    requires r.transactionID == tx && r.timestamp == 0 && r.expiry >= 0
    ensures SweepsTo(SetStatus(Insert(l, r), tx, Executed), 0, maxEntries, l)
  {
    var l' := SetStatus(Insert(l, r), tx, Executed);
    var live := UnexpiredRecords(l', 0);
    assert live == l'.records;
    assert live == l.records[tx := r.(status := Executed)];
    OneMoreRecord(l.records, tx, r.(status := Executed));
  }

  /** One authorisation, forgotten by the sweep that follows it. */
  lemma AuthoriseAndForget(c: Config, s: State, n: nat) returns (acts: seq<Action>, s': State)
    requires Refusals(c, s, c.maxEntries, n) && c.clients >= 1 && c.maxActions >= 1
    ensures Steps(c, s, acts, s') && Refusals(c, s', c.maxEntries, n + 1)
  {
    var tx := Name(c.maxEntries + n);
    NamesSize(c.maxEntries + n);
    assert UnexpiredFor(s.pol.ledger, TARGET, 0) == {};
    var a1, s1 := TargetCall(c, s, tx);
    SweepForgets(s.pol.ledger, tx, RecordOf(c, s.pol.ledger, REQUEST, GRANTED, tx), c.maxEntries);
    acts, s' := SweepNow(c, s, a1, s1, s.pol.ledger);
    AuthorisedGrows(c, s.pol, s'.pol, tx);
    RefusalsAgain(c, s, s', n, tx);
  }

  lemma SweepNow(c: Config, s: State, acts: seq<Action>, mid: State, swept: Ledger)
    returns (acts': seq<Action>, s': State)
    requires Steps(c, s, acts, mid) && SweepsTo(mid.pol.ledger, mid.clock, c.maxEntries, swept)
    ensures Steps(c, s, acts', s') && s'.callers == mid.callers && s'.clock == mid.clock
    ensures s'.pol == mid.pol.(ledger := swept, evicted := s'.pol.evicted)
  {
    StepsThen(c, s, acts, mid, Sweep(swept));
    acts', s' := acts + [Sweep(swept)], Next(c, mid, Sweep(swept));
  }

  lemma RefusalsAgain(c: Config, s: State, s': State, n: nat, tx: TxId)
    requires Refusals(c, s, c.maxEntries, n) && tx == Name(c.maxEntries + n)
    requires s'.clock == s.clock && s'.callers == s.callers && s'.pol.rules == s.pol.rules
    requires s'.pol.ledger == s.pol.ledger && s'.pol.issued == s.pol.issued + {tx}
    requires s'.pol.authorised == s.pol.authorised[tx := Authorisation(TARGET, 0)]
    requires |Authorised(c, s'.pol, TARGET, 0)| == n + 1
    ensures Refusals(c, s', c.maxEntries, n + 1)
  {
    assert s'.pol.issued == Names(c.maxEntries + (n + 1)) by {
      NamesGrow(c.maxEntries + n);
    }
  }

  lemma AuthorisedGrows(c: Config, p: PolicySide, p': PolicySide, tx: TxId)
    requires p'.authorised == p.authorised[tx := Authorisation(TARGET, 0)] && tx !in p.authorised
    ensures |Authorised(c, p', TARGET, 0)| == |Authorised(c, p, TARGET, 0)| + 1
  {
    assert Authorised(c, p', TARGET, 0) == Authorised(c, p, TARGET, 0) + {tx};
  }

  lemma {:induction false} AuthoriseMany(c: Config, s: State, n: nat, m: nat) returns (acts: seq<Action>, s': State)
    requires Refusals(c, s, c.maxEntries, n) && c.clients >= 1 && c.maxActions >= 1 && n <= m
    ensures Steps(c, s, acts, s') && Refusals(c, s', c.maxEntries, m)
    decreases m - n
  {
    acts, s' := [], s;
    if n < m {
      var a1, s1 := AuthoriseAndForget(c, s, n);
      var a2, s2 := AuthoriseMany(c, s1, n + 1, m);
      StepsCompose(c, s, a1, s1, a2, s2);
      acts, s' := a1 + a2, s2;
    }
  }

  /** Without room in the ledger there is no bound at all: whatever the configuration, as long as somebody may act, and
      however many authorisations are asked for, some run reaches a state with that many of them for one PID, all stamped
      at the same instant. */
  lemma EvictionBreaksWindow(c: Config, many: nat)
    requires c.clients >= 1 && c.maxActions >= 1
    ensures exists s :: Reachable(c, s) && |Authorised(c, s.pol, TARGET, 0)| == many
  {
    var s0 := StartRefusals(c);
    var a1, s1 := RefuseMany(c, s0, 0, c.maxEntries);
    var a2, s2 := AuthoriseMany(c, s1, 0, many);
    StepsCompose(c, s0, a1, s1, a2, s2);
    RunReaches(c, s0, a1 + a2, s2);
  }

  lemma RunReaches(c: Config, s0: State, acts: seq<Action>, s: State)
    requires Init(c, s0) && Steps(c, s0, acts, s)
    ensures Reachable(c, s)
  {
  }

  // ----- one alert without interruption -----

  /** Left alone, the protocol's steps for one alert compose to what `Mitigator.MitigateFromAlert` does in one call. */
  lemma UninterruptedAlert(c: Config, s: State, i: nat, alert: Alert, pauseOk: bool, stopOk: bool, tx: TxId, token: Token)
    returns (acts: seq<Action>, s': State)
    requires Reachable(c, s) && i < |s.callers| && s.callers[i].Idle?
    requires IsTxId(tx) && tx !in s.pol.issued && IsToken(token) && token !in s.frz.entries
    requires stopOk ==> alert.pid in s.frz.alive
    ensures Steps(c, s, acts, s') && s'.callers == s.callers && s'.clock == s.clock
    ensures var o := AlertOutcome(s.pol.ledger, s.frz.entries, s.pol.rules, c.cooldownSecs, alert.(anomalyType := ""),
                                  pauseOk, stopOk, s.clock, s.clock, tx, token);
            s'.pol.ledger == o.ledger && s'.frz.entries == o.entries
  {
    ReachableInv(c, s);
    var intent := IntentFor(alert.pid, alert.containerID, alert.processName);
    var v := Evaluate(s.pol.rules, intent, |UnexpiredFor(s.pol.ledger, alert.pid, s.clock)|);
    var registered: State;
    acts, registered := UninterruptedCall(c, s, i, MitigatorClient, intent, tx);
    if !v.authorized {
      s' := registered;
      assert s'.callers == s.callers;
    } else {
      acts, s' := UninterruptedAction(c, s, acts, registered, i, tx, alert, pauseOk, stopOk, token);
      assert registered.callers[i := Idle] == s.callers;
    }
  }

  /** An authorised request is acted on, and its outcome written back. */
  lemma UninterruptedAction(c: Config, s: State, acts: seq<Action>, mid: State, i: nat, tx: TxId, alert: Alert,
                            pauseOk: bool, stopOk: bool, token: Token)
    returns (acts': seq<Action>, s': State)
    requires Steps(c, s, acts, mid) && i < |mid.callers|
    requires mid.callers[i] == Acting(tx, IntentFor(alert.pid, alert.containerID, alert.processName), MitigatorClient)
    requires IsToken(token) && token !in mid.frz.entries && (stopOk ==> alert.pid in mid.frz.alive)
    ensures Steps(c, s, acts', s') && s'.callers == mid.callers[i := Idle] && s'.clock == mid.clock
    ensures if Freezes(alert.containerID, pauseOk, stopOk) then
              && s'.pol.ledger == SetStatus(mid.pol.ledger, tx, Executed)
              && s'.frz.entries == Recorded(mid.frz.entries,
                   Entry(alert.pid, alert.containerID, alert.processName, "", 0, Paused, "",
                         FreezeMechanism(alert.containerID, pauseOk)), token)
            else s'.pol.ledger == SetStatus(mid.pol.ledger, tx, Rejected) && s'.frz == mid.frz
  {
    var intent := IntentFor(alert.pid, alert.containerID, alert.processName);
    var more;
    if Freezes(alert.containerID, pauseOk, stopOk) {
      more, s' := UninterruptedFreeze(c, mid, i, tx, intent, FreezeMechanism(alert.containerID, pauseOk), token);
    } else {
      more, s' := UninterruptedFailure(c, mid, i, tx, intent);
    }
    StepsCompose(c, s, acts, mid, more, s');
    acts' := acts + more;
  }

  lemma UninterruptedFreeze(c: Config, s: State, i: nat, tx: TxId, intent: Intent, mech: Mechanism, token: Token)
    returns (acts: seq<Action>, s': State)
    requires i < |s.callers| && s.callers[i] == Acting(tx, intent, MitigatorClient)
    requires if mech == PauseContainer then intent.containerID != ""
             else mech == SignalStop && intent.targetPID in s.frz.alive
    requires IsToken(token) && token !in s.frz.entries
    ensures Steps(c, s, acts, s') && s'.callers == s.callers[i := Idle] && s'.clock == s.clock
    ensures s'.pol.ledger == SetStatus(s.pol.ledger, tx, Executed)
    ensures s'.frz.entries == Recorded(s.frz.entries,
              Entry(intent.targetPID, intent.containerID, intent.processName, "", 0, Paused, "", mech), token)
  {
    var freeze, s1 := FreezeStep(c, s, i, tx, intent, mech);
    var confirmed, s2 := ConfirmStep(c, s, [freeze], s1, i, tx, intent, mech);
    acts, s' := RecordStep(c, s, confirmed, s2, i, intent, mech, token);
    assert s'.callers == s.callers[i := Idle];
  }

  lemma ConfirmStep(c: Config, s: State, acts: seq<Action>, mid: State, i: nat, tx: TxId, intent: Intent, mech: Mechanism)
    returns (acts': seq<Action>, s': State)
    requires Steps(c, s, acts, mid) && i < |mid.callers| && mid.callers[i] == Froze(tx, intent, mech)
    ensures Steps(c, s, acts', s') && s'.frz == mid.frz && s'.clock == mid.clock
    ensures s'.callers == mid.callers[i := Confirmed(intent, mech)]
    ensures s'.pol == mid.pol.(ledger := SetStatus(mid.pol.ledger, tx, Executed))
  {
    StepsThen(c, s, acts, mid, WriteStatus(i));
    acts', s' := acts + [WriteStatus(i)], Next(c, mid, WriteStatus(i));
  }

  lemma RecordStep(c: Config, s: State, acts: seq<Action>, mid: State, i: nat, intent: Intent, mech: Mechanism, token: Token)
    returns (acts': seq<Action>, s': State)
    requires Steps(c, s, acts, mid) && i < |mid.callers| && mid.callers[i] == Confirmed(intent, mech)
    requires IsToken(token) && token !in mid.frz.entries
    ensures Steps(c, s, acts', s') && s'.pol == mid.pol && s'.clock == mid.clock && s'.callers == mid.callers[i := Idle]
    ensures s'.frz.entries == Recorded(mid.frz.entries,
              Entry(intent.targetPID, intent.containerID, intent.processName, "", 0, Paused, "", mech), token)
  {
    StepsThen(c, s, acts, mid, RecordEntry(i, token));
    acts', s' := acts + [RecordEntry(i, token)], Next(c, mid, RecordEntry(i, token));
  }

  lemma FreezeStep(c: Config, s: State, i: nat, tx: TxId, intent: Intent, mech: Mechanism)
    returns (freeze: Action, s1: State)
    requires i < |s.callers| && s.callers[i] == Acting(tx, intent, MitigatorClient)
    requires if mech == PauseContainer then intent.containerID != ""
             else mech == SignalStop && intent.targetPID in s.frz.alive
    ensures Enabled(c, s, freeze) && s1 == Next(c, s, freeze) && Steps(c, s, [freeze], s1)
    ensures s1.callers == s.callers[i := Froze(tx, intent, mech)] && s1.pol == s.pol && s1.clock == s.clock
    ensures s1.frz.entries == s.frz.entries
  {
    freeze := if mech == PauseContainer then PauseWorks(i) else StopWorks(i);
    s1 := Next(c, s, freeze);
    OneStep(c, s, freeze);
  }

  lemma UninterruptedFailure(c: Config, s: State, i: nat, tx: TxId, intent: Intent)
    returns (acts: seq<Action>, s': State)
    requires i < |s.callers| && s.callers[i] == Acting(tx, intent, MitigatorClient)
    ensures Steps(c, s, acts, s') && s'.callers == s.callers[i := Idle] && s'.clock == s.clock
    ensures s'.pol.ledger == SetStatus(s.pol.ledger, tx, Rejected) && s'.frz == s.frz
  {
    OneStep(c, s, FreezeFails(i));
    var s1 := Next(c, s, FreezeFails(i));
    assert s1 == s.(callers := s.callers[i := FreezeFailed(tx)]);
    StepsThen(c, s, [FreezeFails(i)], s1, WriteStatus(i));
    acts, s' := [FreezeFails(i)] + [WriteStatus(i)], Next(c, s1, WriteStatus(i));
    assert s'.callers == s.callers[i := Idle];
  }

  /** Count, judge, stamp and register without interruption are one call of `Engine.EvaluateAndRegister`. */
  lemma UninterruptedCall(c: Config, s: State, i: nat, client: Client, intent: Intent, tx: TxId)
    returns (acts: seq<Action>, s': State)
    requires i < |s.callers| && s.callers[i].Idle? && IntentFits(client, intent)
    requires IsTxId(tx) && tx !in s.pol.issued && WellIndexed(s.pol.ledger)
    ensures Steps(c, s, acts, s')
    ensures var v := Evaluate(s.pol.rules, intent, |UnexpiredFor(s.pol.ledger, intent.targetPID, s.clock)|);
            && s'.pol.ledger
               == Insert(s.pol.ledger, RecordFor(s.pol.ledger, intent, v, c.cooldownSecs, s.clock, tx))
            && s'.callers == s.callers[i := if v.authorized then Acting(tx, intent, client) else Idle]
            && s'.frz == s.frz && s'.clock == s.clock
  {
    HistoricalCountIsFullScan(s.pol.ledger, intent.targetPID, s.clock);
    var a1, s1 := CountAndJudge(c, s, i, client, intent);
    var a2, s2 := StampAndRegister(c, s1, i, tx);
    StepsCompose(c, s, a1, s1, a2, s2);
    acts, s' := a1 + a2, s2;
    assert s'.callers == s.callers[i := s'.callers[i]];
  }

  /** Left alone, the router's steps for one alert do to the policy ledger what `AlertRouter.HandleAlert` does: an
      authorised request is registered and confirmed, a refused one only registered. */
  lemma UninterruptedRequest(c: Config, s: State, i: nat, pid: Pid, anomalyType: string, tx: TxId)
    returns (acts: seq<Action>, s': State)
    requires Reachable(c, s) && i < |s.callers| && s.callers[i].Idle? && IsTxId(tx) && tx !in s.pol.issued
    ensures Steps(c, s, acts, s') && s'.callers == s.callers && s'.clock == s.clock && s'.frz == s.frz
    ensures var intent := Router.RouterIntent(pid, anomalyType);
            var v := Evaluate(s.pol.rules, intent, |UnexpiredFor(s.pol.ledger, pid, s.clock)|);
            var registered := Insert(s.pol.ledger, RecordFor(s.pol.ledger, intent, v, c.cooldownSecs, s.clock, tx));
            s'.pol.ledger == if v.authorized then SetStatus(registered, tx, Executed) else registered
  {
    ReachableInv(c, s);
    var intent := Router.RouterIntent(pid, anomalyType);
    var mid: State;
    acts, mid := UninterruptedCall(c, s, i, RouterClient, intent, tx);
    acts, s' := RequestFinishes(c, s, acts, mid, i, tx);
    assert s'.callers == s.callers;
  }

  /** A request that was granted is confirmed; one that was refused is done with. */
  lemma RequestFinishes(c: Config, s: State, acts: seq<Action>, mid: State, i: nat, tx: TxId)
    returns (acts': seq<Action>, s': State)
    requires Steps(c, s, acts, mid) && i < |mid.callers|
    requires mid.callers[i].Idle? || (mid.callers[i].Acting? && mid.callers[i].tx == tx && mid.callers[i].client.RouterClient?)
    ensures Steps(c, s, acts', s') && s'.callers == mid.callers[i := Idle] && s'.clock == mid.clock && s'.frz == mid.frz
    ensures s'.pol.ledger == if mid.callers[i].Acting? then SetStatus(mid.pol.ledger, tx, Executed) else mid.pol.ledger
  {
    acts', s' := acts, mid;
    if mid.callers[i].Acting? {
      acts', s' := RouterConfirms(c, s, acts, mid, i, tx);
    }
  }
}
