/** The detector's cooldown when an ingestion is not one step: it finds its window under one lock and feeds it under
    another, and a garbage collection may delete the window in between. */
module DetectorRaces {
  import opened Detector
  import opened DetectorRuns
  import opened Options
  import opened PolicyTypes

  /** One critical section. `Feed` works on the window that an earlier `Acquire` found, in the map or not. */
  datatype Action = Acquire(clock: Nanos) | Feed(handle: nat, sample: Sample, clock: Nanos) | Collect(clock: Nanos)

  /** The windows that one process ever had, which of them is in the map, those that ingestions hold, and the alerts
      raised, each with its window. */
  datatype Race = Race(windows: seq<Tracked>, current: Option<nat>, held: multiset<nat>, raised: seq<Nanos>,
                       raisers: seq<nat>)

  const QUIET := Race([], None, multiset{}, [], [])

  /** A step that is not enabled changes nothing. */
  function Act(cfg: Config, pid: Pid, s: Race, a: Action): Race {
    match a
    case Acquire(_) =>
      if s.current.Some? then s.(held := s.held + multiset{s.current.value})
      else
        var h := |s.windows|;
        s.(windows := s.windows + [UNTRACKED], current := Some(h), held := s.held + multiset{h})
    case Feed(h, r, clock) =>
      if h !in s.held || h >= |s.windows| then s
      else
        var w := s.windows[h];
        Fed(s, h, Observed(cfg, pid, w, r, clock), DueOn(cfg, pid, w, r, clock).Some?, clock)
    case Collect(clock) =>
      if s.current.Some? && Stale(cfg, InMap(s).lastAccess, clock) then s.(current := None) else s
  }

  /** A held window becomes `w` and is let go; `due` says that this raised an alert. */
  function Fed(s: Race, h: nat, w: Tracked, due: bool, clock: Nanos): Race
    requires h < |s.windows|
  {
    s.(windows := s.windows[h := w], held := s.held - multiset{h},
       raised := s.raised + (if due then [clock] else []), raisers := s.raisers + if due then [h] else [])
  }

  /** What a process without a window is like is the same as a new window. */
  function InMap(s: Race): Tracked {
    if s.current.Some? && s.current.value < |s.windows| then s.windows[s.current.value] else UNTRACKED
  }

  function Raced(cfg: Config, pid: Pid, s: Race, run: seq<Action>): Race {
    if run == [] then s else Act(cfg, pid, Raced(cfg, pid, s, run[..|run| - 1]), run[|run| - 1])
  }

  lemma RacedMore(cfg: Config, pid: Pid, s: Race, run: seq<Action>, a: Action)
    ensures Raced(cfg, pid, s, run + [a]) == Act(cfg, pid, Raced(cfg, pid, s, run), a)
  {
    assert (run + [a])[..|run|] == run;
  }

  lemma {:induction false} RacedThen(cfg: Config, pid: Pid, s: Race, run: seq<Action>, more: seq<Action>)
    ensures Raced(cfg, pid, s, run + more) == Raced(cfg, pid, Raced(cfg, pid, s, run), more)
  {
    if more == [] {
      assert run + more == run;
    } else {
      var n := |more| - 1;
      assert (run + more)[..|run + more| - 1] == run + more[..n];
      RacedThen(cfg, pid, s, run, more[..n]);
    }
  }

  ghost predicate Timely(run: seq<Action>) {
    forall i, j | 0 <= i < j < |run| :: run[i].clock <= run[j].clock
  }

  /** No run under a monotone clock ever raises two alerts within the cooldown, if and only if the configuration raises
      no alerts or has no cooldown. Keeping windows longer does not help. */
  lemma SpacingUnderRaces(cfg: Config, pid: Pid)
    ensures (forall run | Timely(run) :: Spaced(cfg, Raced(cfg, pid, QUIET, run).raised))
       <==> !CanAlert(cfg) || cfg.alertCooldown <= 0
  {
    if !CanAlert(cfg) {
      forall run | Timely(run) ensures Spaced(cfg, Raced(cfg, pid, QUIET, run).raised) {
        NeverRacing(cfg, pid, run);
      }
    } else if cfg.alertCooldown <= 0 {
      forall run | Timely(run) ensures Spaced(cfg, Raced(cfg, pid, QUIET, run).raised) {
        RaisedInOrder(cfg, pid, run);
      }
    } else {
      var run := AlertTwiceAtOnce(cfg, pid);
      var raised := Raced(cfg, pid, QUIET, run).raised;
      assert raised[1] - raised[0] < cfg.alertCooldown;
      assert !Spaced(cfg, raised);
    }
  }

  /** What is left of the cooldown: under a monotone clock alerts of one and the same window are spaced. */
  lemma {:induction false} WindowsSpaceTheirAlerts(cfg: Config, pid: Pid, run: seq<Action>)
    requires Timely(run)
    ensures var s := Raced(cfg, pid, QUIET, run); Logged(s) && SpacedPerWindow(cfg, s)
  {
    if run != [] {
      var s, a := Raced(cfg, pid, QUIET, run[..|run| - 1]), run[|run| - 1];
      WindowsSpaceTheirAlerts(cfg, pid, run[..|run| - 1]);
      if a.Feed? {
        if a.handle in s.held && a.handle < |s.windows| {
          RaisedInOrder(cfg, pid, run[..|run| - 1]);
          RaisedBefore(s, run);
          FeedSpaces(cfg, pid, s, a.handle, a.sample, a.clock);
        }
      } else {
        OthersRaiseNothing(cfg, pid, s, a);
      }
    }
  }

  ghost predicate SpacedPerWindow(cfg: Config, s: Race)
    requires |s.raisers| == |s.raised|
  {
    forall i, j | 0 <= i < j < |s.raised| && s.raisers[i] == s.raisers[j] ::
      s.raised[j] - s.raised[i] >= cfg.alertCooldown
  }

  /** Every alert is attributed, and its window remembers one that is no older. */
  ghost predicate Logged(s: Race) {
    && |s.raisers| == |s.raised|
    && forall i | 0 <= i < |s.raisers| ::
         s.raisers[i] < |s.windows| && AlertedSince(s.windows[s.raisers[i]], s.raised[i])
  }

  predicate AlertedSince(w: Tracked, at: Nanos) {
    w.lastAlertAt.Some? && w.lastAlertAt.value >= at
  }

  lemma OthersRaiseNothing(cfg: Config, pid: Pid, s: Race, a: Action)
    requires !a.Feed? && Logged(s) && SpacedPerWindow(cfg, s)
    ensures var u := Act(cfg, pid, s, a); Logged(u) && SpacedPerWindow(cfg, u)
  {
  }

  lemma FeedSpaces(cfg: Config, pid: Pid, s: Race, h: nat, r: Sample, clock: Nanos)
    requires h < |s.windows| && Logged(s) && SpacedPerWindow(cfg, s) && NoLater(s.raised, clock)
    ensures var w := s.windows[h];
            var u := Fed(s, h, Observed(cfg, pid, w, r, clock), DueOn(cfg, pid, w, r, clock).Some?, clock);
            Logged(u) && SpacedPerWindow(cfg, u)
  {
    var w := s.windows[h];
    ObservedStamp(cfg, pid, w, r, clock);
    FedSpaces(cfg, s, h, Observed(cfg, pid, w, r, clock), DueOn(cfg, pid, w, r, clock).Some?, clock);
  }

  lemma ObservedStamp(cfg: Config, pid: Pid, w: Tracked, r: Sample, clock: Nanos)
    ensures var due := DueOn(cfg, pid, w, r, clock).Some?;
            && (due ==> w.lastAlertAt.Some? ==> clock - w.lastAlertAt.value >= cfg.alertCooldown)
            && Observed(cfg, pid, w, r, clock).lastAlertAt == if due then Some(clock) else w.lastAlertAt
  {
  }

  lemma FedSpaces(cfg: Config, s: Race, h: nat, w: Tracked, due: bool, clock: Nanos)
    requires h < |s.windows| && Logged(s) && SpacedPerWindow(cfg, s) && NoLater(s.raised, clock)
    requires due ==> s.windows[h].lastAlertAt.Some? ==> clock - s.windows[h].lastAlertAt.value >= cfg.alertCooldown
    requires w.lastAlertAt == if due then Some(clock) else s.windows[h].lastAlertAt
    ensures var u := Fed(s, h, w, due, clock); Logged(u) && SpacedPerWindow(cfg, u)
  {
    var u := Fed(s, h, w, due, clock);
    forall i | 0 <= i < |s.raisers| && s.raisers[i] == h && due
      ensures clock - s.raised[i] >= cfg.alertCooldown
    {
      assert AlertedSince(s.windows[h], s.raised[i]);
    }
    forall i | 0 <= i < |u.raisers|
      ensures u.raisers[i] < |u.windows| && AlertedSince(u.windows[u.raisers[i]], u.raised[i])
    {
      assert i < |s.raisers| ==> AlertedSince(s.windows[s.raisers[i]], s.raised[i]);
    }
  }

  ghost predicate NoLater(raised: seq<Nanos>, clock: Nanos) {
    forall i | 0 <= i < |raised| :: raised[i] <= clock
  }

  lemma {:induction false} NeverRacing(cfg: Config, pid: Pid, run: seq<Action>)
    requires !CanAlert(cfg)
    ensures Raced(cfg, pid, QUIET, run).raised == []
  {
    if run != [] {
      var s, a := Raced(cfg, pid, QUIET, run[..|run| - 1]), run[|run| - 1];
      NeverRacing(cfg, pid, run[..|run| - 1]);
      if a.Feed? && a.handle < |s.windows| {
        NotDue(cfg, pid, s.windows[a.handle], a.sample, a.clock);
      }
    }
  }

  ghost predicate InOrder(raised: seq<Nanos>) {
    forall i | 0 < i < |raised| :: raised[i - 1] <= raised[i]
  }

  lemma {:induction false} RaisedInOrder(cfg: Config, pid: Pid, run: seq<Action>)
    requires Timely(run)
    ensures var raised := Raced(cfg, pid, QUIET, run).raised;
            InOrder(raised) && if run == [] then raised == [] else NoLater(raised, run[|run| - 1].clock)
  {
    if run != [] {
      var s, a := Raced(cfg, pid, QUIET, run[..|run| - 1]), run[|run| - 1];
      RaisedInOrder(cfg, pid, run[..|run| - 1]);
      RaisedBefore(s, run);
      RaisesAtMostOnce(cfg, pid, s, a);
    }
  }

  lemma RaisedBefore(s: Race, run: seq<Action>)
    requires Timely(run) && run != []
    requires var front := run[..|run| - 1];
             if front == [] then s.raised == [] else NoLater(s.raised, front[|front| - 1].clock)
    ensures NoLater(s.raised, run[|run| - 1].clock)
  {
  }

  lemma RaisesAtMostOnce(cfg: Config, pid: Pid, s: Race, a: Action)
    ensures var raised := Act(cfg, pid, s, a).raised; raised == s.raised || raised == s.raised + [a.clock]
  {
    assert s.raised + [] == s.raised;
  }

  // ----- ingestions that nobody interrupts -----

  /** The window in the map and the alerts, as seen when every ingestion is one step. */
  function Seen(s: Race): Watch {
    Watch(InMap(s), s.raised)
  }

  ghost predicate WellFormed(s: Race) {
    s.current.Some? ==> s.current.value < |s.windows|
  }

  /** Finding a window and feeding it at once is one step of the simpler machine. */
  lemma FeedAtOnce(cfg: Config, pid: Pid, s: Race, r: Sample, clock: Nanos) returns (feed: Action)
    requires WellFormed(s)
    ensures feed.clock == clock
    ensures var after := Act(cfg, pid, Act(cfg, pid, s, Acquire(clock)), feed);
            WellFormed(after) && Seen(after) == Step(cfg, pid, Seen(s), Sampled(r, clock))
  {
    var found := Act(cfg, pid, s, Acquire(clock));
    var h, w := found.current.value, InMap(s);
    feed := Feed(h, r, clock);
    assert h in found.held && h < |found.windows| && found.windows[h] == w;
    FedIsSeen(found, h, Observed(cfg, pid, w, r, clock), DueOn(cfg, pid, w, r, clock).Some?, clock);
  }

  lemma FedIsSeen(s: Race, h: nat, w: Tracked, due: bool, clock: Nanos)
    requires WellFormed(s) && s.current == Some(h)
    ensures var u := Fed(s, h, w, due, clock);
            WellFormed(u) && Seen(u) == Watch(w, s.raised + if due then [clock] else [])
  {
  }

  lemma TurnAsActions(cfg: Config, pid: Pid, s: Race, t: Turn) returns (run: seq<Action>)
    requires WellFormed(s)
    ensures var after := Raced(cfg, pid, s, run); WellFormed(after) && Seen(after) == Step(cfg, pid, Seen(s), t)
    ensures forall i | 0 <= i < |run| :: run[i].clock == t.clock
  {
    match t
    case Sampled(r, clock) =>
      var feed := FeedAtOnce(cfg, pid, s, r, clock);
      TwoActions(cfg, pid, s, Acquire(clock), feed);
      run := [Acquire(clock), feed];
    case Swept(clock) =>
      RacedMore(cfg, pid, s, [], Collect(clock));
      run := [] + [Collect(clock)];
  }

  lemma TwoActions(cfg: Config, pid: Pid, s: Race, a: Action, b: Action)
    ensures Raced(cfg, pid, s, [a, b]) == Act(cfg, pid, Act(cfg, pid, s, a), b)
  {
    RacedMore(cfg, pid, s, [], a);
    assert [] + [a] == [a] && [a] + [b] == [a, b];
    RacedMore(cfg, pid, s, [a], b);
  }

  /** Every run in which ingestions are one step is a run of critical sections, at the same times. */
  lemma {:induction false} TurnsAreRaces(cfg: Config, pid: Pid, s: Race, turns: seq<Turn>, low: Nanos, high: Nanos)
    returns (run: seq<Action>)
    requires WellFormed(s) && Monotone(turns)
    requires forall i | 0 <= i < |turns| :: low <= turns[i].clock <= high
    ensures var after := Raced(cfg, pid, s, run);
            WellFormed(after) && Seen(after) == WatchedFrom(cfg, pid, Seen(s), turns)
    ensures Timely(run) && forall i | 0 <= i < |run| :: low <= run[i].clock <= high
  {
    run := [];
    if turns != [] {
      var n := |turns| - 1;
      var front := TurnsAreRaces(cfg, pid, s, turns[..n], low, turns[n].clock);
      var last := TurnAsActions(cfg, pid, Raced(cfg, pid, s, front), turns[n]);
      RacedThen(cfg, pid, s, front, last);
      TimelyThen(front, last, turns[n].clock);
      run := front + last;
      Bounded(front, last, low, turns[n].clock, high);
    }
  }

  lemma TimelyThen(run: seq<Action>, more: seq<Action>, clock: Nanos)
    requires Timely(run) && Timely(more)
    requires forall i | 0 <= i < |run| :: run[i].clock <= clock
    requires forall i | 0 <= i < |more| :: clock <= more[i].clock
    ensures Timely(run + more)
  {
  }

  lemma Bounded(run: seq<Action>, more: seq<Action>, low: Nanos, clock: Nanos, high: Nanos)
    requires low <= clock <= high
    requires forall i | 0 <= i < |run| :: low <= run[i].clock <= clock
    requires forall i | 0 <= i < |more| :: more[i].clock == clock
    ensures forall i | 0 <= i < |run + more| :: low <= (run + more)[i].clock <= high
  {
  }

  // ----- two alerts at one instant -----

  /** One prompt short of an alert, an ingestion finds the window, which is then collected and fed all the same; the
      alert it raises is unknown to the new window, which raises another. */
  lemma AlertTwiceAtOnce(cfg: Config, pid: Pid) returns (run: seq<Action>)
    requires CanAlert(cfg)
    ensures Timely(run)
    ensures var later := Forgetting(cfg); Raced(cfg, pid, QUIET, run).raised == [later, later]
  {
    var k, later := Enough(cfg), Forgetting(cfg);
    var first := PromptsFrom(cfg, pid, QUIET, k - 1, 0);
    var s1 := Raced(cfg, pid, QUIET, first);
    OneMoreAlerts(cfg, pid, InMap(s1));
    var held := FedWhenOrphaned(cfg, pid, s1, later);
    var s2 := Raced(cfg, pid, s1, held);
    var second := PromptsFrom(cfg, pid, s2, k, later);
    run := first + held + second;
    RacedThen(cfg, pid, QUIET, first, held);
    RacedThen(cfg, pid, QUIET, first + held, second);
    TimelyThen(first, held, 0);
    TimelyThen(first + held, second, later);
  }

  lemma PromptsFrom(cfg: Config, pid: Pid, s: Race, n: nat, clock: Nanos) returns (run: seq<Action>)
    requires CanAlert(cfg) && 1 <= n <= Enough(cfg) && WellFormed(s) && InMap(s) == UNTRACKED
    ensures var after := Raced(cfg, pid, s, run);
            WellFormed(after) && Seen(after) == Prompted(cfg, s.raised, n, clock)
    ensures Timely(run) && forall i | 0 <= i < |run| :: run[i].clock == clock
  {
    run := TurnsAreRaces(cfg, pid, s, Prompts(n, clock), clock, clock);
    PromptsAlert(cfg, pid, Seen(s), n, clock);
  }

  /** A window that the next prompt makes alarming is collected while an ingestion holds it, and fed afterwards. */
  lemma FedWhenOrphaned(cfg: Config, pid: Pid, s: Race, clock: Nanos) returns (run: seq<Action>)
    requires WellFormed(s) && s.current.Some? && clock >= 0
    requires Stale(cfg, InMap(s).lastAccess, clock) && DueOn(cfg, pid, InMap(s), PROMPT, clock).Some?
    ensures var after := Raced(cfg, pid, s, run);
            WellFormed(after) && InMap(after) == UNTRACKED && after.raised == s.raised + [clock]
    ensures Timely(run) && forall i | 0 <= i < |run| :: 0 <= run[i].clock <= clock
  {
    var h := s.current.value;
    var a, b, c := Acquire(0), Collect(clock), Feed(h, PROMPT, clock);
    run := [a, b] + [c];
    TwoActions(cfg, pid, s, a, b);
    RacedMore(cfg, pid, s, [a, b], c);
    CollectedWhileHeld(cfg, pid, s, clock);
    OrphanAlerts(cfg, pid, s.(current := None, held := s.held + multiset{h}), h, clock);
  }

  /** After one prompt too few, a later one raises an alert, even when the window may be collected already. */
  lemma OneMoreAlerts(cfg: Config, pid: Pid, w: Tracked)
    requires CanAlert(cfg) && w == Prompted(cfg, [], Enough(cfg) - 1, 0).window
    ensures Stale(cfg, w.lastAccess, Forgetting(cfg)) && DueOn(cfg, pid, w, PROMPT, Forgetting(cfg)).Some?
  {
    var k := Enough(cfg);
    assert WithSample(cfg, w, PROMPT) == seq(k, i => PROMPT);
    DueAmongEqual(cfg, pid, k, Forgetting(cfg));
  }

  lemma CollectedWhileHeld(cfg: Config, pid: Pid, s: Race, clock: Nanos)
    requires WellFormed(s) && s.current.Some? && Stale(cfg, InMap(s).lastAccess, clock)
    ensures Act(cfg, pid, Act(cfg, pid, s, Acquire(0)), Collect(clock))
         == s.(current := None, held := s.held + multiset{s.current.value})
  {
  }

  lemma OrphanAlerts(cfg: Config, pid: Pid, s: Race, h: nat, clock: Nanos)
    requires h < |s.windows| && h in s.held && s.current == None && DueOn(cfg, pid, s.windows[h], PROMPT, clock).Some?
    ensures var u := Act(cfg, pid, s, Feed(h, PROMPT, clock));
            WellFormed(u) && InMap(u) == UNTRACKED && u.raised == s.raised + [clock]
  {
    OrphanFed(s, h, Observed(cfg, pid, s.windows[h], PROMPT, clock), clock);
  }

  lemma OrphanFed(s: Race, h: nat, w: Tracked, clock: Nanos)
    requires h < |s.windows| && s.current == None
    ensures var u := Fed(s, h, w, true, clock);
            WellFormed(u) && InMap(u) == UNTRACKED && u.raised == s.raised + [clock]
  {
  }
}
