/** What the detector's cooldown promises over runs of samples and garbage collections of one process, as long as
    finding a window and feeding it are one step. `DetectorRaces` takes them apart. */
module DetectorRuns {
  import opened Detector
  import opened Durations
  import opened Fingerprinting
  import opened Options
  import opened PolicyTypes

  datatype Turn = Sampled(sample: Sample, clock: Nanos) | Swept(clock: Nanos)

  /** A window under observation, with the times at which alerts were raised. */
  datatype Watch = Watch(window: Tracked, raised: seq<Nanos>)

  function Step(cfg: Config, pid: Pid, w: Watch, t: Turn): Watch {
    match t
    case Sampled(r, clock) =>
      Watch(Observed(cfg, pid, w.window, r, clock),
            w.raised + if DueOn(cfg, pid, w.window, r, clock).Some? then [clock] else [])
    case Swept(clock) => Watch(Collected(cfg, w.window, clock), w.raised)
  }

  function WatchedFrom(cfg: Config, pid: Pid, w: Watch, run: seq<Turn>): Watch {
    if run == [] then w else Step(cfg, pid, WatchedFrom(cfg, pid, w, run[..|run| - 1]), run[|run| - 1])
  }

  function Watched(cfg: Config, pid: Pid, run: seq<Turn>): Watch {
    WatchedFrom(cfg, pid, Watch(UNTRACKED, []), run)
  }

  lemma WatchedMore(cfg: Config, pid: Pid, w: Watch, run: seq<Turn>, t: Turn)
    ensures WatchedFrom(cfg, pid, w, run + [t]) == Step(cfg, pid, WatchedFrom(cfg, pid, w, run), t)
  {
    assert (run + [t])[..|run|] == run;
  }

  lemma {:induction false} WatchedThen(cfg: Config, pid: Pid, w: Watch, run: seq<Turn>, more: seq<Turn>)
    ensures WatchedFrom(cfg, pid, w, run + more) == WatchedFrom(cfg, pid, WatchedFrom(cfg, pid, w, run), more)
  {
    if more == [] {
      assert run + more == run;
    } else {
      var n := |more| - 1;
      assert (run + more)[..|run + more| - 1] == run + more[..n];
      WatchedThen(cfg, pid, w, run, more[..n]);
    }
  }

  ghost predicate Monotone(run: seq<Turn>) {
    forall i, j | 0 <= i < j < |run| :: run[i].clock <= run[j].clock
  }

  /** Alerts at least the cooldown apart. */
  ghost predicate Spaced(cfg: Config, raised: seq<Nanos>) {
    forall i | 0 < i < |raised| :: raised[i] - raised[i - 1] >= cfg.alertCooldown
  }

  /** The shortest time after which a collection can have forgotten an alert. */
  function Forgetting(cfg: Config): int {
    if cfg.ttl < 0 then 0 else cfg.ttl + 1
  }

  /** The configuration allows alerts at all. */
  predicate CanAlert(cfg: Config) {
    && cfg.windowSize >= 2
    && 0 < cfg.freqThreshold <= cfg.windowSize
    && WholeSeconds(cfg.freqWindow) >= 0
    && cfg.similarityThreshold <= 1.0
  }

  /** No run under a monotone clock ever raises two alerts within the cooldown, if and only if the configuration raises no
      alerts or keeps an idle window for at least the cooldown. */
  lemma SpacingNeedsMemory(cfg: Config, pid: Pid)
    ensures (forall run | Monotone(run) :: Spaced(cfg, Watched(cfg, pid, run).raised))
       <==> !CanAlert(cfg) || cfg.alertCooldown <= Forgetting(cfg)
  {
    if !CanAlert(cfg) {
      forall run | Monotone(run) ensures Spaced(cfg, Watched(cfg, pid, run).raised) {
        NeverRaised(cfg, pid, run);
      }
    } else if cfg.alertCooldown <= Forgetting(cfg) {
      forall run | Monotone(run) ensures Spaced(cfg, Watched(cfg, pid, run).raised) {
        AlertsAreSpaced(cfg, pid, run);
      }
    } else {
      var run := AlertTwice(cfg);
      AlertTwiceIsMonotone(cfg);
      ForgottenAlert(cfg, pid);
      var raised := Watched(cfg, pid, run).raised;
      assert raised[1] - raised[0] < cfg.alertCooldown;
      assert !Spaced(cfg, raised);
    }
  }

  // ----- why it is enough -----

  /** The last alert is remembered by the window, or forgotten by a collection long enough after it. */
  ghost predicate Remembered(cfg: Config, w: Watch, now: Nanos) {
    && (w.window.lastAlertAt.Some? ==>
          && w.raised != [] && w.window.lastAlertAt.value == w.raised[|w.raised| - 1]
          && w.window.lastAccess.Some? && w.raised[|w.raised| - 1] <= w.window.lastAccess.value <= now)
    && (w.window.lastAlertAt.None? && w.raised != [] ==> w.raised[|w.raised| - 1] + Forgetting(cfg) <= now)
  }

  lemma {:induction false} AlertsAreSpaced(cfg: Config, pid: Pid, run: seq<Turn>)
    requires Monotone(run) && cfg.alertCooldown <= Forgetting(cfg)
    ensures var w := Watched(cfg, pid, run);
            Spaced(cfg, w.raised) && (run != [] ==> Remembered(cfg, w, run[|run| - 1].clock))
  {
    if run != [] {
      var n := |run| - 1;
      AlertsAreSpaced(cfg, pid, run[..n]);
      var before := Watched(cfg, pid, run[..n]);
      var now := run[n].clock;
      assert Remembered(cfg, before, now) by {
        assert n > 0 ==> run[..n][n - 1] == run[n - 1];
      }
      TurnIsSpaced(cfg, pid, before, run[n]);
    }
  }

  lemma TurnIsSpaced(cfg: Config, pid: Pid, w: Watch, t: Turn)
    requires cfg.alertCooldown <= Forgetting(cfg) && Spaced(cfg, w.raised) && Remembered(cfg, w, t.clock)
    ensures var after := Step(cfg, pid, w, t); Spaced(cfg, after.raised) && Remembered(cfg, after, t.clock)
  {
  }

  lemma NotDue(cfg: Config, pid: Pid, t: Tracked, r: Sample, clock: Nanos)
    requires !CanAlert(cfg)
    ensures DueOn(cfg, pid, t, r, clock) == None
  {
    var s := WithSample(cfg, t, r);
    if |s| >= 2 {
      assert s[|s| - 1] == r;
      MeanBounds(s[|s| - 1].fingerprint, Fingerprints(s[..|s| - 1]));
    }
  }

  lemma {:induction false} NeverRaised(cfg: Config, pid: Pid, run: seq<Turn>)
    requires !CanAlert(cfg)
    ensures Watched(cfg, pid, run).raised == []
  {
    if run != [] {
      NeverRaised(cfg, pid, run[..|run| - 1]);
      match run[|run| - 1]
      case Sampled(r, clock) => NotDue(cfg, pid, Watched(cfg, pid, run[..|run| - 1]).window, r, clock);
      case Swept(_) =>
    }
  }

  // ----- why it is necessary -----

  const PROMPT: Sample := Sample(0, "", "", [], ZERO)

  /** How many equal prompts it takes to raise an alert. */
  function Enough(cfg: Config): nat {
    if cfg.freqThreshold > 2 then cfg.freqThreshold else 2
  }

  function Prompts(n: nat, clock: Nanos): seq<Turn> {
    seq(n, i => Sampled(PROMPT, clock))
  }

  /** An alert, an idle time just long enough for the window to be collected, and another alert. */
  function AlertTwice(cfg: Config): seq<Turn> {
    Prompts(Enough(cfg), 0) + [Swept(Forgetting(cfg))] + Prompts(Enough(cfg), Forgetting(cfg))
  }

  lemma DueAmongEqual(cfg: Config, pid: Pid, n: nat, clock: Nanos)
    requires CanAlert(cfg) && 1 <= n <= Enough(cfg)
    ensures var s := seq(n, i => PROMPT);
            Due(cfg, pid, s, 0, None, clock).Some? <==> n == Enough(cfg)
  {
    var s := seq(n, i => PROMPT);
    if n >= 2 {
      MeanBounds(s[n - 1].fingerprint, Fingerprints(s[..n - 1]));
    }
  }

  /** The window after `n` equal prompts, and what was raised by then. */
  function Prompted(cfg: Config, raised: seq<Nanos>, n: nat, clock: Nanos): Watch {
    var alerts := n == Enough(cfg);
    Watch(Tracked(seq(n, i => PROMPT), Some(clock), if alerts then Some(clock) else None),
          raised + if alerts then [clock] else [])
  }

  lemma {:induction false} PromptsAlert(cfg: Config, pid: Pid, w: Watch, n: nat, clock: Nanos)
    requires CanAlert(cfg) && 1 <= n <= Enough(cfg) && w.window == UNTRACKED
    ensures WatchedFrom(cfg, pid, w, Prompts(n, clock)) == Prompted(cfg, w.raised, n, clock)
  {
    var front := Prompts(n - 1, clock);
    var before := WatchedFrom(cfg, pid, w, front);
    if n == 1 {
      assert before == w;
    } else {
      PromptsAlert(cfg, pid, w, n - 1, clock);
    }
    assert Prompts(n, clock) == front + [Sampled(PROMPT, clock)];
    WatchedMore(cfg, pid, w, front, Sampled(PROMPT, clock));
    assert before.window.records == seq(n - 1, i => PROMPT);
    PromptAlerts(cfg, pid, before, n, clock);
  }

  lemma PromptAlerts(cfg: Config, pid: Pid, w: Watch, n: nat, clock: Nanos)
    requires CanAlert(cfg) && 1 <= n <= Enough(cfg)
    requires w.window.records == seq(n - 1, i => PROMPT) && w.window.lastAlertAt == None
    ensures Step(cfg, pid, w, Sampled(PROMPT, clock)) == Prompted(cfg, w.raised, n, clock)
  {
    assert WithSample(cfg, w.window, PROMPT) == seq(n, i => PROMPT);
    DueAmongEqual(cfg, pid, n, clock);
  }

  lemma AlertTwiceIsMonotone(cfg: Config)
    ensures Monotone(AlertTwice(cfg))
  {
    var k := Enough(cfg);
    assert forall i | 0 <= i < |AlertTwice(cfg)| :: AlertTwice(cfg)[i].clock == if i < k then 0 else Forgetting(cfg);
  }

  lemma ForgottenAlert(cfg: Config, pid: Pid)
    requires CanAlert(cfg)
    ensures Watched(cfg, pid, AlertTwice(cfg)).raised == [0, Forgetting(cfg)]
  {
    var k, later, none := Enough(cfg), Forgetting(cfg), Watch(UNTRACKED, []);
    var first := Prompts(k, 0);
    var idle := first + [Swept(later)];
    assert Watched(cfg, pid, idle) == Watch(UNTRACKED, [0]) by {
      PromptsAlert(cfg, pid, none, k, 0);
      WatchedMore(cfg, pid, none, first, Swept(later));
    }
    WatchedThen(cfg, pid, none, idle, Prompts(k, later));
    PromptsAlert(cfg, pid, Watch(UNTRACKED, [0]), k, later);
  }
}
