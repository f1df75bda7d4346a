/** The loop detector: per process, a window of recent prompts and an alert when they repeat. */
module Detector {
  import opened Options
  import opened ByteText
  import opened Durations
  import opened PolicyTypes
  import opened Sequences
  import opened Fingerprinting

  /** Durations in nanoseconds. A negative window size would make the source panic on its first allocation. */
  datatype Config = Config(
    windowSize: nat,
    freqThreshold: int,
    freqWindow: int,
    similarityThreshold: real,
    alertCooldown: int,
    ttl: int)

  datatype Event = Event(pid: Pid, timestamp: int, provider: string, model: string, payload: Bytes)

  datatype Sample = Sample(timestamp: int, provider: string, model: string, payload: Bytes, fingerprint: Word)

  datatype Alert = Alert(
    at: int,
    targetPID: Pid,
    confidence: real,
    requestsInWindow: nat,
    timeWindowSeconds: int,
    provider: string,
    model: string,
    snippet: Bytes)

  const ALERT_BACKLOG: nat := 64
  const SNIPPET: nat := 200
  const ELLIPSIS: Bytes := [46, 46, 46]

  function SampleOf(ev: Event, hash: Bytes -> Word): Sample {
    Sample(ev.timestamp, ev.provider, ev.model, ev.payload, Fingerprint(Fields(ev.payload), hash))
  }

  function Fingerprints(s: seq<Sample>): seq<Word> {
    seq(|s|, i requires 0 <= i < |s| => s[i].fingerprint)
  }

  /** At least `freqThreshold` samples, all of them the latest ones, are no older than the frequency window. */
  predicate Frequent(cfg: Config, s: seq<Sample>, now: int) {
    && 0 < cfg.freqThreshold <= |s|
    && forall i | |s| - cfg.freqThreshold <= i < |s| :: s[i].timestamp >= now - WholeSeconds(cfg.freqWindow)
  }

  /** How alike the newest sample and the earlier ones are. */
  function Mean(s: seq<Sample>): real
    requires |s| >= 2
  {
    var n := |s| - 1;
    MeanSimilarity(s[n].fingerprint, Fingerprints(s[..n]))
  }

  function Oldest(s: seq<Sample>): (t: int)
    requires s != []
    ensures forall i | 0 <= i < |s| :: t <= s[i].timestamp
    ensures exists i | 0 <= i < |s| :: t == s[i].timestamp
  {
    if |s| == 1 then s[0].timestamp
    else
      var t := Oldest(s[1..]);
      assert forall i | 1 <= i < |s| :: s[i] == s[1..][i - 1];
      if s[0].timestamp < t then s[0].timestamp else t
  }

  predicate CoolingOff(cfg: Config, lastAlertAt: Option<Nanos>, clock: Nanos) {
    lastAlertAt.Some? && clock - lastAlertAt.value < cfg.alertCooldown
  }

  /** The samples are similar enough and no alert was raised too recently. */
  predicate Alarming(cfg: Config, s: seq<Sample>, lastAlertAt: Option<Nanos>, clock: Nanos) {
    |s| >= 2 && Mean(s) >= cfg.similarityThreshold && !CoolingOff(cfg, lastAlertAt, clock)
  }

  function AlertFor(pid: Pid, s: seq<Sample>, now: int): Alert
    requires |s| >= 2
  {
    var newest := s[|s| - 1];
    var span := newest.timestamp - Oldest(s);
    Alert(now, pid, Mean(s), |s|, if span < 1 then 1 else span, newest.provider, newest.model, Snippet(newest.payload))
  }

  function Snippet(payload: Bytes): Bytes {
    if |payload| <= SNIPPET then payload else payload[..SNIPPET] + ELLIPSIS
  }

  function Raised(cfg: Config, pid: Pid, s: seq<Sample>, now: int, lastAlertAt: Option<Nanos>, clock: Nanos):
    Option<Alert>
  {
    if Alarming(cfg, s, lastAlertAt, clock) then Some(AlertFor(pid, s, now)) else None
  }

  /** The alert that a window calls for: its samples are frequent and alarming. */
  function Due(cfg: Config, pid: Pid, s: seq<Sample>, now: int, lastAlertAt: Option<Nanos>, clock: Nanos): Option<Alert> {
    if Frequent(cfg, s, now) then Raised(cfg, pid, s, now, lastAlertAt, clock) else None
  }

  /** The pairs of an earlier sample and a bit of its fingerprint that agree with the newest sample. */
  ghost function Agreement(s: seq<Sample>): set<(int, int)>
    requires s != []
  {
    set k, i | 0 <= k < |s| - 1 && 0 <= i < 64 && s[k].fingerprint[i] == s[|s| - 1].fingerprint[i] :: (k, i)
  }

  lemma MeanIsAgreement(s: seq<Sample>)
    requires |s| >= 2
    ensures Mean(s) == |Agreement(s)| as real / (64 * (|s| - 1)) as real
  {
    var n := |s| - 1;
    MeanCounts(s[n].fingerprint, Fingerprints(s[..n]));
    assert Agreement(s) == AgreeingPairs(s[n].fingerprint, Fingerprints(s[..n]));
  }

  /** What it takes to raise an alert: the latest samples, as many as the threshold says, fall within the frequency
      window; the share of bits that agree reaches the similarity threshold; and the cooldown since the last alert is
      over. */
  ghost predicate Alerts(cfg: Config, s: seq<Sample>, lastAlertAt: Option<Nanos>, clock: Nanos)
    requires s != []
  {
    && 0 < cfg.freqThreshold <= |s| && |s| >= 2
    && (forall i | |s| - cfg.freqThreshold <= i < |s| ::
          s[i].timestamp >= s[|s| - 1].timestamp - WholeSeconds(cfg.freqWindow))
    && |Agreement(s)| as real / (64 * (|s| - 1)) as real >= cfg.similarityThreshold
    && (lastAlertAt.None? || clock >= lastAlertAt.value + cfg.alertCooldown)
  }

  /** What an alert says about the samples of a window. */
  ghost predicate Describes(a: Alert, pid: Pid, s: seq<Sample>)
    requires |s| >= 2
  {
    var newest := s[|s| - 1];
    && a.at == newest.timestamp && a.targetPID == pid && a.requestsInWindow == |s|
    && a.confidence == |Agreement(s)| as real / (64 * (|s| - 1)) as real
    && a.provider == newest.provider && a.model == newest.model
    && a.snippet == (if |newest.payload| <= 200 then newest.payload else newest.payload[..200] + [46, 46, 46])
    && a.timeWindowSeconds >= 1
    && (forall i | 0 <= i < |s| :: a.timeWindowSeconds >= newest.timestamp - s[i].timestamp)
    && (a.timeWindowSeconds == 1
        || exists i | 0 <= i < |s| :: a.timeWindowSeconds == newest.timestamp - s[i].timestamp)
  }

  lemma DueMeaning(cfg: Config, pid: Pid, s: seq<Sample>, lastAlertAt: Option<Nanos>, clock: Nanos)
    requires s != []
    ensures var due := Due(cfg, pid, s, s[|s| - 1].timestamp, lastAlertAt, clock);
            && (due.Some? <==> Alerts(cfg, s, lastAlertAt, clock))
            && (due.Some? ==> Describes(due.value, pid, s))
  {
    if |s| >= 2 {
      MeanIsAgreement(s);
      assert forall i | 0 <= i < |s| :: s[|s| - 1].timestamp - Oldest(s) >= s[|s| - 1].timestamp - s[i].timestamp;
    }
  }

  function Stamped(due: Option<Alert>, lastAlertAt: Option<Nanos>, clock: Nanos): Option<Nanos> {
    if due.Some? then Some(clock) else lastAlertAt
  }

  /** A full channel drops the alert. */
  function Queued(alerts: seq<Alert>, due: Option<Alert>): seq<Alert> {
    if due.Some? && |alerts| < ALERT_BACKLOG then alerts + [due.value] else alerts
  }

  /** A window as a value; a process without one is like a process whose window is new. */
  datatype Tracked = Tracked(records: seq<Sample>, lastAccess: Option<Nanos>, lastAlertAt: Option<Nanos>)

  const UNTRACKED: Tracked := Tracked([], None, None)

  function WithSample(cfg: Config, t: Tracked, r: Sample): seq<Sample> {
    Last(t.records + [r], cfg.windowSize)
  }

  function DueOn(cfg: Config, pid: Pid, t: Tracked, r: Sample, clock: Nanos): Option<Alert> {
    Due(cfg, pid, WithSample(cfg, t, r), r.timestamp, t.lastAlertAt, clock)
  }

  /** The window after a sample. */
  function Observed(cfg: Config, pid: Pid, t: Tracked, r: Sample, clock: Nanos): Tracked {
    Tracked(WithSample(cfg, t, r), Some(clock), Stamped(DueOn(cfg, pid, t, r, clock), t.lastAlertAt, clock))
  }

  /** Not accessed for longer than the time to live; the zero time of a window that was never accessed is long ago. */
  predicate Stale(cfg: Config, lastAccess: Option<Nanos>, now: Nanos) {
    lastAccess.None? || now - lastAccess.value > cfg.ttl
  }

  /** The window after a garbage collection: a stale one is gone, with the time of its last alert. */
  function Collected(cfg: Config, t: Tracked, now: Nanos): Tracked {
    if Stale(cfg, t.lastAccess, now) then UNTRACKED else t
  }

  class ProcessWindow {
    var records: seq<Sample>
    const maxSize: nat
    var lastAccess: Option<Nanos>
    var lastAlertAt: Option<Nanos>

    ghost function View(): Tracked
      reads this
    {
      Tracked(records, lastAccess, lastAlertAt)
    }

    constructor (maxSize: nat)
      ensures View() == UNTRACKED && this.maxSize == maxSize
    {
      records, this.maxSize, lastAccess, lastAlertAt := [], maxSize, None, None;
    }

    method IsFrequent(cfg: Config, now: int) returns (frequent: bool)
      ensures frequent == Frequent(cfg, records, now)
    {
      if cfg.freqThreshold <= 0 {
        return false;
      }
      var cutoff := now - WholeSeconds(cfg.freqWindow);
      var count := 0;
      var i := |records| - 1;
      while i >= 0 && records[i].timestamp >= cutoff
        invariant -1 <= i < |records| && count == |records| - 1 - i
        invariant forall k | i < k < |records| :: records[k].timestamp >= cutoff
      {
        count, i := count + 1, i - 1;
      }
      return count >= cfg.freqThreshold;
    }

    method Analyze(cfg: Config, pid: Pid, now: int, clock: Nanos) returns (alert: Option<Alert>)
      modifies this`lastAlertAt
      ensures alert == Raised(cfg, pid, records, now, old(lastAlertAt), clock)
      ensures lastAlertAt == Stamped(alert, old(lastAlertAt), clock)
    {
      var n := |records|;
      if n < 2 {
        return None;
      }
      var mean, oldest := Compare(records);
      if mean < cfg.similarityThreshold {
        return None;
      }
      if lastAlertAt.Some? && clock - lastAlertAt.value < cfg.alertCooldown {
        return None;
      }
      lastAlertAt := Some(clock);
      var newest := records[n - 1];
      var timeWindow := newest.timestamp - oldest;
      if timeWindow < 1 { timeWindow := 1; }
      return Some(Alert(now, pid, mean, n, timeWindow, newest.provider, newest.model, Snippet(newest.payload)));
    }

    /** Appends a sample, drops what no longer fits, and analyses the window if it fills up quickly. */
    method Observe(cfg: Config, pid: Pid, r: Sample, clock: Nanos) returns (alert: Option<Alert>)
      requires maxSize == cfg.windowSize
      modifies this
      ensures View() == Observed(cfg, pid, old(View()), r, clock)
      ensures alert == DueOn(cfg, pid, old(View()), r, clock)
    {
      records := records + [r];
      lastAccess := Some(clock);
      if |records| > maxSize {
        var excess := |records| - maxSize;
        records := records[excess..];
      }
      assert records == WithSample(cfg, old(View()), r);
      alert := None;
      var frequent := IsFrequent(cfg, r.timestamp);
      if frequent {
        alert := Analyze(cfg, pid, r.timestamp, clock);
      }
    }
  }

  /** The loop of the analysis: the mean similarity to the newest sample, and the oldest time. */
  method Compare(s: seq<Sample>) returns (mean: real, oldest: int)
    requires |s| >= 2
    ensures mean == Mean(s) && oldest == Oldest(s)
    ensures mean == |Agreement(s)| as real / (64 * (|s| - 1)) as real
  {
    MeanIsAgreement(s);
    var n := |s|;
    var newest := s[n - 1];
    var total, comparisons := 0.0, 0;
    oldest := newest.timestamp;
    ghost var prints := Fingerprints(s[..n - 1]);
    for i := 0 to n - 1
      invariant comparisons == i
      invariant total == TotalSimilarity(newest.fingerprint, prints[..i])
      invariant LeastSoFar(s, i, oldest)
    {
      var r := s[i];
      if r.timestamp < oldest { oldest := r.timestamp; }
      assert prints[..i + 1][..i] == prints[..i] && prints[i] == r.fingerprint;
      total := total + NormalizedSimilarity(newest.fingerprint, r.fingerprint);
      comparisons := comparisons + 1;
    }
    assert prints[..n - 1] == prints;
    LeastIsOldest(s, oldest);
    mean := total / comparisons as real;
  }

  ghost predicate LeastSoFar(s: seq<Sample>, i: nat, t: int)
    requires i < |s|
  {
    && t <= s[|s| - 1].timestamp
    && (forall k | 0 <= k < i :: t <= s[k].timestamp)
    && (exists k | 0 <= k < |s| :: t == s[k].timestamp)
  }

  lemma LeastIsOldest(s: seq<Sample>, t: int)
    requires s != [] && LeastSoFar(s, |s| - 1, t)
    ensures t == Oldest(s)
  {
    assert forall k | 0 <= k < |s| :: t <= s[k].timestamp;
  }

  /** The sample of an event: its fields, and the majority vote of the tokens of its payload. */
  ghost predicate Samples(r: Sample, ev: Event, hash: Bytes -> Word) {
    && r.timestamp == ev.timestamp && r.provider == ev.provider && r.model == ev.model && r.payload == ev.payload
    && forall i | 0 <= i < 64 ::
         r.fingerprint[i] <==> 2 * |Setting(Fields(ev.payload), hash, i)| > |Fields(ev.payload)|
  }

  /** What an event does to the window of its process and to the alert channel: the window keeps the latest samples, the
      event's own among them, and if they call for an alert it is raised, and queued unless the channel is full. */
  ghost predicate Ingested(cfg: Config, ev: Event, hash: Bytes -> Word, clock: Nanos, before: Tracked, after: Tracked,
                           alerts: seq<Alert>, alerts': seq<Alert>)
  {
    var s := after.records;
    && (exists r | Samples(r, ev, hash) :: s == Last(before.records + [r], cfg.windowSize))
    && after.lastAccess == Some(clock)
    && if s != [] && Alerts(cfg, s, before.lastAlertAt, clock) then
         && after.lastAlertAt == Some(clock)
         && (|alerts| >= 64 ==> alerts' == alerts)
         && (|alerts| < 64 ==> exists a | Describes(a, ev.pid, s) :: alerts' == alerts + [a])
       else after.lastAlertAt == before.lastAlertAt && alerts' == alerts
  }

  lemma IngestMeaning(cfg: Config, ev: Event, t: Tracked, alerts: seq<Alert>, clock: Nanos, hash: Bytes -> Word)
    ensures var r := SampleOf(ev, hash);
            Ingested(cfg, ev, hash, clock, t, Observed(cfg, ev.pid, t, r, clock),
                     alerts, Queued(alerts, DueOn(cfg, ev.pid, t, r, clock)))
  {
    var r := SampleOf(ev, hash);
    var s := Last(t.records + [r], cfg.windowSize);
    SampleMeaning(ev, hash);
    if s != [] {
      assert s[|s| - 1] == r;
      DueMeaning(cfg, ev.pid, s, t.lastAlertAt, clock);
    }
  }

  lemma SampleMeaning(ev: Event, hash: Bytes -> Word)
    ensures Samples(SampleOf(ev, hash), ev, hash)
  {
    var tokens := Fields(ev.payload);
    forall i | 0 <= i < 64
      ensures Fingerprint(tokens, hash)[i] <==> 2 * |Setting(tokens, hash, i)| > |tokens|
    {
      MajorityDecides(tokens, hash, i);
    }
  }

  class Detector {
    const cfg: Config
    var windows: map<Pid, ProcessWindow>
    /** The alert channel; when it is full an alert is dropped. */
    var alerts: seq<Alert>

    ghost predicate Valid()
      reads this, windows.Values
    {
      && (forall p, q | p in windows && q in windows && p != q :: windows[p] != windows[q])
      && (forall p | p in windows :: windows[p].maxSize == cfg.windowSize)
    }

    ghost function At(pid: Pid): Tracked
      reads this, windows.Values
    {
      if pid in windows then windows[pid].View() else UNTRACKED
    }

    constructor (cfg: Config)
      ensures Valid() && windows == map[] && alerts == [] && this.cfg == cfg
    {
      this.cfg, windows, alerts := cfg, map[], [];
    }

    method GetOrCreateWindow(pid: Pid) returns (pw: ProcessWindow)
      requires Valid()
      modifies this`windows
      ensures Valid() && pid in windows && windows[pid] == pw
      ensures old(pid in windows) ==> windows == old(windows)
      ensures old(pid !in windows) ==> fresh(pw) && windows == old(windows)[pid := pw]
      ensures pw.View() == old(At(pid))
    {
      if pid in windows {
        return windows[pid];
      }
      pw := new ProcessWindow(cfg.windowSize);
      windows := windows[pid := pw];
    }

    /** Only the window of the process changes; an alert is queued exactly when one is due and the channel has room. */
    method Ingest(ev: Event, clock: Nanos, hash: Bytes -> Word)
      requires Valid()
      modifies this, windows.Values
      ensures Valid() && windows.Keys == old(windows.Keys) + {ev.pid}
      ensures At(ev.pid) == Observed(cfg, ev.pid, old(At(ev.pid)), SampleOf(ev, hash), clock)
      ensures forall q | q != ev.pid :: At(q) == old(At(q))
      ensures alerts == Queued(old(alerts), DueOn(cfg, ev.pid, old(At(ev.pid)), SampleOf(ev, hash), clock))
      ensures Ingested(cfg, ev, hash, clock, old(At(ev.pid)), At(ev.pid), old(alerts), alerts)
    {
      ghost var was, queued := At(ev.pid), alerts;
      var fp := SimHash(ev.payload, hash);
      var pw := GetOrCreateWindow(ev.pid);
      var alert := pw.Observe(cfg, ev.pid, Sample(ev.timestamp, ev.provider, ev.model, ev.payload, fp), clock);
      Publish(alert);
      IngestMeaning(cfg, ev, was, queued, clock, hash);
    }

    /** Deletes the windows that nobody accessed for longer than the time to live. */
    method RunGC(now: Nanos)
      requires Valid()
      modifies this`windows
      ensures Valid() && windows.Keys <= old(windows.Keys)
      ensures forall q :: At(q) == Collected(cfg, old(At(q)), now)
      ensures forall q | q in windows :: windows[q] == old(windows)[q]
      ensures forall q | q in old(windows) ::
                q in windows <==>
                old(windows)[q].lastAccess.Some? && now <= old(windows)[q].lastAccess.value + cfg.ttl
    {
      var rest := windows.Keys;
      while rest != {}
        invariant rest <= windows.Keys <= old(windows.Keys)
        invariant forall q | q in windows :: windows[q] == old(windows)[q]
        invariant forall q | q in old(windows) && q !in rest ::
                    q in windows <==> !Stale(cfg, old(windows)[q].lastAccess, now)
        decreases rest
      {
        ghost var witnessed := SomeElement(rest);
        var pid :| pid in rest;
        rest := rest - {pid};
        if windows[pid].lastAccess.None? || now - windows[pid].lastAccess.value > cfg.ttl {
          windows := windows - {pid};
        }
      }
    }

    /** The non-blocking send on the alert channel. */
    method Publish(alert: Option<Alert>)
      modifies this`alerts
      ensures alerts == Queued(old(alerts), alert)
    {
      if alert.Some? && |alerts| < ALERT_BACKLOG {
        alerts := alerts + [alert.value];
      }
    }
  }

  // ----- what the window means over a run -----

  /** The window after a run of samples of one process, one trimmed step at a time. */
  function AfterRun(samples: seq<Sample>, maxSize: nat): seq<Sample> {
    if samples == [] then []
    else Last(AfterRun(samples[..|samples| - 1], maxSize) + [samples[|samples| - 1]], maxSize)
  }

  /** Trimming step by step keeps the same samples as trimming the whole run once. */
  lemma {:induction false} WindowIsRecentPast(samples: seq<Sample>, maxSize: nat)
    ensures AfterRun(samples, maxSize) == Last(samples, maxSize)
  {
    if samples != [] {
      var n := |samples| - 1;
      WindowIsRecentPast(samples[..n], maxSize);
      assert samples == samples[..n] + [samples[n]];
      LastOfLast(samples[..n], samples[n], maxSize);
    }
  }

  /** Prompts made of the same tokens, in any order, count as perfectly similar: the mean is 1. */
  lemma ReorderedPromptsAreCertain(s: seq<Sample>, hash: Bytes -> Word)
    requires |s| >= 2
    requires forall i | 0 <= i < |s| :: s[i].fingerprint == Fingerprint(Fields(s[i].payload), hash)
    requires forall i | 0 <= i < |s| :: multiset(Fields(s[i].payload)) == multiset(Fields(s[|s| - 1].payload))
    ensures Mean(s) == 1.0
  {
    var n := |s| - 1;
    var prints := Fingerprints(s[..n]);
    forall i | 0 <= i < n ensures prints[i] == s[n].fingerprint {
      OrderDoesNotMatter(Fields(s[i].payload), Fields(s[n].payload), hash);
    }
    MeanBounds(s[n].fingerprint, prints);
  }
}
