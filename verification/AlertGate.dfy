/** The suppression gate in front of the alert fan-out. */
module AlertGate {
  import opened Durations
  import opened Options
  import opened PolicyTypes

  /** The hash of process, anomaly and device that suppression goes by. */
  type Key = int

  datatype DedupEntry = DedupEntry(firstSeen: int, occurrenceCount: int)

  type Gate = map<Key, DedupEntry>

  datatype Metadata = Metadata(isDeduplicated: bool, cumulativeOccurrences: int, suppressionWindowSeconds: int)

  datatype Alert = Alert(
    eventID: string,
    timestamp: int,
    targetPID: Pid,
    anomalyType: string,
    gpuUUID: string,
    metadata: Metadata)

  datatype Arrival = Arrival(key: Key, at: int)

  predicate Suppresses(gate: Gate, a: Arrival, window: int) {
    a.key in gate && a.at - gate[a.key].firstSeen < window
  }

  function Routed(gate: Gate, a: Arrival, window: int): Gate {
    if Suppresses(gate, a, window) then
      var e := gate[a.key];
      gate[a.key := e.(occurrenceCount := e.occurrenceCount + 1)]
    else
      gate[a.key := DedupEntry(a.at, 1)]
  }

  class AlertMultiplexer {
    const suppressionWindow: int
    const bufferSize: nat
    const keyOf: (Pid, string, string) -> Key
    var dedup: Gate
    /** The channel to the fan-out workers. */
    var pending: seq<Alert>
    /** Every arrival so far. */
    ghost var arrivals: seq<Arrival>

    ghost predicate Valid()
      reads this
    {
      dedup == GateAfter(arrivals, WholeSeconds(suppressionWindow))
    }

    constructor (suppressionWindow: int, bufferSize: int, keyOf: (Pid, string, string) -> Key)
      ensures Valid() && dedup == map[] && pending == [] && arrivals == []
      ensures this.suppressionWindow == suppressionWindow && this.keyOf == keyOf
      ensures this.bufferSize == if bufferSize <= 0 then 256 else bufferSize
    {
      this.suppressionWindow, this.keyOf := suppressionWindow, keyOf;
      this.bufferSize := if bufferSize <= 0 then 256 else bufferSize;
      dedup, pending, arrivals := map[], [], [];
    }

    function ArrivalOf(alert: Alert): Arrival {
      Arrival(keyOf(alert.targetPID, alert.anomalyType, alert.gpuUUID), alert.timestamp)
    }

    /** An alert that passes the gate goes out under a new id, unless the channel is full; a suppressed one only
        counts. It is suppressed exactly if its key passed before, less than a window ago. */
    method Route(alert: Alert, freshID: string)
      requires Valid()
      modifies this
      ensures Valid()
      ensures arrivals == old(arrivals)
                          + [Arrival(keyOf(alert.targetPID, alert.anomalyType, alert.gpuUUID), alert.timestamp)]
      ensures var window, key := WholeSeconds(suppressionWindow), keyOf(alert.targetPID, alert.anomalyType, alert.gpuUUID);
              var last := LastPass(old(arrivals), window, key);
              pending == old(pending) + if (last.None? || alert.timestamp >= last.value + window)
                                           && |old(pending)| < bufferSize
                                        then [alert.(eventID := freshID, metadata := Metadata(false, 1, window))]
                                        else []
      ensures var window := WholeSeconds(suppressionWindow);
              var suppressed := Suppresses(old(dedup), ArrivalOf(alert), window);
              && dedup == Routed(old(dedup), ArrivalOf(alert), window)
              && pending == old(pending) + if suppressed || |old(pending)| >= bufferSize then []
                            else [alert.(eventID := freshID, metadata := Metadata(false, 1, window))]
    {
      var key := keyOf(alert.targetPID, alert.anomalyType, alert.gpuUUID);
      var windowSecs := WholeSeconds(suppressionWindow);
      var suppressed := Suppress(key, alert.timestamp, windowSecs);
      if suppressed {
        return;
      }
      var outgoing := alert.(eventID := freshID, metadata := Metadata(false, 1, windowSecs));
      if |pending| < bufferSize {
        pending := pending + [outgoing];
      }
    }

    /** The critical section: an arrival less than a window after its key's last pass only counts, any other is the pass
        that starts the key's next window. */
    method Suppress(key: Key, now: int, windowSecs: int) returns (suppressed: bool)
      requires Valid() && windowSecs == WholeSeconds(suppressionWindow)
      modifies this`dedup, this`arrivals
      ensures Valid() && arrivals == old(arrivals) + [Arrival(key, now)]
      ensures dedup == Routed(old(dedup), Arrival(key, now), windowSecs)
      ensures suppressed == Suppresses(old(dedup), Arrival(key, now), windowSecs)
      ensures var last := LastPass(old(arrivals), windowSecs, key);
              suppressed <==> last.Some? && now < last.value + windowSecs
    {
      LastPassIsRecorded(arrivals, windowSecs, key);
      GateGrows(arrivals, Arrival(key, now), windowSecs);
      arrivals := arrivals + [Arrival(key, now)];
      if key in dedup && now - dedup[key].firstSeen < windowSecs {
        var entry := dedup[key];
        dedup := dedup[key := entry.(occurrenceCount := entry.occurrenceCount + 1)];
        return true;
      }
      dedup := dedup[key := DedupEntry(now, 1)];
      return false;
    }
  }

  // ----- runs of arrivals, in any order of timestamps -----

  function GateAfter(run: seq<Arrival>, window: int): Gate {
    if run == [] then map[] else Routed(GateAfter(run[..|run| - 1], window), run[|run| - 1], window)
  }

  lemma GateGrows(run: seq<Arrival>, a: Arrival, window: int)
    ensures GateAfter(run + [a], window) == Routed(GateAfter(run, window), a, window)
  {
    assert (run + [a])[..|run + [a]| - 1] == run;
  }

  /** When the key last passed, read off the arrivals alone: it passes when it is new, or when at least a window has gone
      by since it last did. */
  function LastPass(run: seq<Arrival>, window: int, key: Key): Option<int> {
    if run == [] then None
    else
      var last, a := LastPass(run[..|run| - 1], window, key), run[|run| - 1];
      if a.key == key && (last.None? || a.at >= last.value + window) then Some(a.at) else last
  }

  lemma {:induction false} LastPassIsRecorded(run: seq<Arrival>, window: int, key: Key)
    ensures var gate, last := GateAfter(run, window), LastPass(run, window, key);
            if last.Some? then key in gate && gate[key].firstSeen == last.value else key !in gate
  {
    if run != [] {
      LastPassIsRecorded(run[..|run| - 1], window, key);
    }
  }

  /** In any run an arrival is suppressed exactly if its key passed before, less than a window ago. */
  lemma SuppressedIff(run: seq<Arrival>, i: nat, window: int)
    requires i < |run|
    ensures var last := LastPass(run[..i], window, run[i].key);
            !Passes(run, i, window) <==> last.Some? && run[i].at < last.value + window
  {
    LastPassIsRecorded(run[..i], window, run[i].key);
  }

  predicate Passes(run: seq<Arrival>, i: nat, window: int)
    requires i < |run|
  {
    !Suppresses(GateAfter(run[..i], window), run[i], window)
  }

  /** The timestamps of the arrivals of a key that pass. */
  function Passed(run: seq<Arrival>, window: int, key: Key): seq<int> {
    if run == [] then []
    else
      var n := |run| - 1;
      Passed(run[..n], window, key) + if run[n].key == key && Passes(run, n, window) then [run[n].at] else []
  }

  function SuppressedCount(run: seq<Arrival>, window: int, key: Key): nat {
    if run == [] then 0
    else
      var n := |run| - 1;
      SuppressedCount(run[..n], window, key) + if run[n].key == key && !Passes(run, n, window) then 1 else 0
  }

  function RoutedCount(run: seq<Arrival>, key: Key): nat {
    if run == [] then 0 else RoutedCount(run[..|run| - 1], key) + if run[|run| - 1].key == key then 1 else 0
  }

  /** How many arrivals of the key were suppressed since its last pass. */
  function SinceLastPass(run: seq<Arrival>, window: int, key: Key): nat {
    if run == [] || (run[|run| - 1].key == key && Passes(run, |run| - 1, window)) then 0
    else SinceLastPass(run[..|run| - 1], window, key) + if run[|run| - 1].key == key then 1 else 0
  }

  ghost predicate Spaced(s: seq<int>, window: int) {
    forall i | 0 < i < |s| :: s[i] >= s[i - 1] + window
  }

  /** Whatever the order of the timestamps, a key's passes are at least the window apart, its entry records the last
      one, and its occurrence count is one more than the arrivals suppressed since. */
  lemma {:induction false} GateHistory(run: seq<Arrival>, window: int, key: Key)
    ensures var gate, passed := GateAfter(run, window), Passed(run, window, key);
            && Spaced(passed, window)
            && (key in gate <==> passed != [])
            && (key in gate ==> gate[key].firstSeen == passed[|passed| - 1])
            && (key in gate ==> gate[key].occurrenceCount == 1 + SinceLastPass(run, window, key))
  {
    if run != [] {
      GateHistory(run[..|run| - 1], window, key);
    }
  }

  /** Every arrival either passes or is suppressed. */
  lemma {:induction false} NothingLost(run: seq<Arrival>, window: int, key: Key)
    ensures |Passed(run, window, key)| + SuppressedCount(run, window, key) == RoutedCount(run, key)
  {
    if run != [] {
      NothingLost(run[..|run| - 1], window, key);
    }
  }

  function Within(s: seq<int>, low: int, high: int): nat {
    if s == [] then 0 else Within(s[..|s| - 1], low, high) + if low <= s[|s| - 1] <= high then 1 else 0
  }

  lemma {:induction false} SpacedBelow(s: seq<int>, window: int)
    requires Spaced(s, window) && window > 0
    ensures forall i, j | 0 <= i < j < |s| :: s[i] + window <= s[j]
  {
    if |s| >= 2 {
      var n := |s| - 1;
      SpacedBelow(s[..n], window);
      forall i, j | 0 <= i < j < |s| ensures s[i] + window <= s[j] {
        assert j < n ==> s[..n][i] + window <= s[..n][j];
        assert i < n - 1 ==> s[..n][i] + window <= s[..n][n - 1];
      }
    }
  }

  lemma {:induction false} WithinNarrow(s: seq<int>, low: int, high: int, top: int)
    requires top <= high && forall i | 0 <= i < |s| :: s[i] <= top
    ensures Within(s, low, high) == Within(s, low, top)
  {
    if s != [] {
      WithinNarrow(s[..|s| - 1], low, high, top);
    }
  }

  lemma {:induction false} FewWithin(s: seq<int>, window: int, low: int, high: int)
    requires Spaced(s, window) && window > 0
    ensures Within(s, low, high) > 0 ==> low <= high
    ensures (Within(s, low, high) - 1) * window <= if low <= high then high - low else 0
  {
    if s != [] {
      var n := |s| - 1;
      var rest := s[..n];
      if low <= s[n] <= high {
        SpacedBelow(s, window);
        WithinNarrow(rest, low, high, s[n] - window);
        FewWithin(rest, window, low, s[n] - window);
        var k := Within(rest, low, high);
        assert k * window == (k - 1) * window + window;
      } else {
        FewWithin(rest, window, low, high);
      }
    }
  }

  /** For a positive window W and any interval of length L, at most L / W + 1 arrivals of a key pass in it. */
  lemma RateBound(run: seq<Arrival>, window: int, key: Key, low: int, length: nat)
    requires window > 0
    ensures Within(Passed(run, window, key), low, low + length) <= length / window + 1
  {
    GateHistory(run, window, key);
    FewWithinLength(Passed(run, window, key), window, low, length);
  }

  lemma FewWithinLength(s: seq<int>, window: int, low: int, length: nat)
    requires Spaced(s, window) && window > 0
    ensures Within(s, low, low + length) <= length / window + 1
  {
    FewWithin(s, window, low, low + length);
    QuotientBound(Within(s, low, low + length), length, window);
  }

  lemma QuotientBound(k: nat, length: nat, window: int)
    requires window > 0 && (k - 1) * window <= length
    ensures k <= length / window + 1
  {
    if k > length / window + 1 {
      TimesMonotone(length / window + 1, k - 1, window);
    }
  }

  lemma TimesMonotone(a: int, b: int, c: nat)
    requires a <= b
    ensures a * c <= b * c
  {
  }

  /** The bound is attained: for every interval some run lets that many arrivals pass in it. They are exactly a window
      apart. */
  lemma RateBoundIsTight(window: int, key: Key, low: int, length: nat)
    requires window > 0
    ensures exists run :: Within(Passed(run, window, key), low, low + length) == length / window + 1
  {
    var n := length / window + 1;
    var run := Arrivals(window, key, low, n);
    EveryArrivalPasses(window, key, low, n);
    forall i | 0 <= i < n
      ensures low <= Times(window, low, n)[i] <= low + length
    {
      TimesLie(window, low, length, i);
    }
    AllWithin(Times(window, low, n), low, low + length);
    assert Within(Passed(run, window, key), low, low + length) == n;
  }

  function Time(window: int, low: int, i: nat): int {
    if i == 0 then low else Time(window, low, i - 1) + window
  }

  lemma {:induction false} TimeIs(window: int, low: int, i: nat)
    ensures Time(window, low, i) == low + i * window
  {
    if i > 0 {
      TimeIs(window, low, i - 1);
    }
  }

  lemma TimesLie(window: int, low: int, length: nat, i: nat)
    requires window > 0 && i <= length / window
    ensures low <= Time(window, low, i) <= low + length
  {
    TimeIs(window, low, i);
    TimesMonotone(0, i, window);
    TimesMonotone(i, length / window, window);
  }

  function Times(window: int, low: int, n: nat): seq<int> {
    seq(n, i requires i >= 0 => Time(window, low, i))
  }

  function Arrivals(window: int, key: Key, low: int, n: nat): seq<Arrival> {
    seq(n, i requires i >= 0 => Arrival(key, Time(window, low, i)))
  }

  lemma {:induction false} EveryArrivalPasses(window: int, key: Key, low: int, n: nat)
    requires window > 0
    ensures Passed(Arrivals(window, key, low, n), window, key) == Times(window, low, n)
  {
    if n > 0 {
      var run, before := Arrivals(window, key, low, n), Arrivals(window, key, low, n - 1);
      EveryArrivalPasses(window, key, low, n - 1);
      assert run[..n - 1] == before;
      GateHistory(before, window, key);
      assert Passes(run, n - 1, window);
      assert Times(window, low, n) == Times(window, low, n - 1) + [Time(window, low, n - 1)];
    }
  }

  lemma {:induction false} AllWithin(s: seq<int>, low: int, high: int)
    requires forall i | 0 <= i < |s| :: low <= s[i] <= high
    ensures Within(s, low, high) == |s|
  {
    if s != [] {
      AllWithin(s[..|s| - 1], low, high);
    }
  }
}
