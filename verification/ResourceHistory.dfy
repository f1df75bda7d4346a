/** The time series of one process: bounded in age and in size. */
module ResourceHistory {
  import opened Durations
  import opened RealArithmetic
  import opened Sequences

  datatype Point = Point(timestamp: int, smUtilPct: real, vramUsed: nat, vramTotal: nat, rssBytes: nat,
    cpuUsagePct: real)

  /** Drops points from the front until one is no older than the cutoff. */
  function DropOld(s: seq<Point>, cutoff: int): seq<Point> {
    if s == [] || s[0].timestamp >= cutoff then s else DropOld(s[1..], cutoff)
  }

  /** The history after an append; the age is in seconds. */
  function Appended(s: seq<Point>, p: Point, maxSize: nat, age: int): seq<Point>
    requires maxSize >= 1
  {
    Last(DropOld(s, p.timestamp - age), maxSize - 1) + [p]
  }

  class ResourceHistory {
    var points: seq<Point>
    const maxSize: nat
    const maxAge: int

    /** A size of zero would make the first append slice past the end. */
    constructor (maxSize: nat, maxAge: int)
      requires maxSize >= 1
      ensures points == [] && this.maxSize == maxSize && this.maxAge == maxAge
    {
      points, this.maxSize, this.maxAge := [], maxSize, maxAge;
    }

    method Append(p: Point)
      requires maxSize >= 1
      modifies this
      ensures points == Appended(old(points), p, maxSize, WholeSeconds(maxAge))
    {
      var cutoff := p.timestamp - WholeSeconds(maxAge);
      var trimmed := 0;
      for i := 0 to |points|
        invariant trimmed == i && DropOld(points, cutoff) == DropOld(points[i..], cutoff)
      {
        if points[i].timestamp >= cutoff {
          trimmed := i;
          break;
        }
        trimmed := i + 1;
      }
      if trimmed > 0 {
        points := points[trimmed..];
      }
      assert points == DropOld(old(points), cutoff);
      if |points| >= maxSize {
        var excess := |points| + 1 - maxSize;
        if excess > 0 {
          points := points[excess..];
        }
      }
      points := points + [p];
    }

    method NewestTimestamp() returns (t: int)
      ensures points == [] ==> t == 0
      ensures points != [] ==> exists i | 0 <= i < |points| :: t == points[i].timestamp
      ensures forall i | 0 <= i < |points| :: points[i].timestamp <= t
    {
      if |points| == 0 {
        return 0;
      }
      t := points[0].timestamp;
      for i := 1 to |points|
        invariant exists k | 0 <= k < |points| :: t == points[k].timestamp
        invariant forall k | 0 <= k < i :: points[k].timestamp <= t
      {
        if points[i].timestamp > t { t := points[i].timestamp; }
      }
    }

    method RollingAvgCPU() returns (avg: real)
      ensures avg == AverageCPU(points)
    {
      if |points| == 0 {
        return 0.0;
      }
      var sum := 0.0;
      for i := 0 to |points|
        invariant sum == SumCPU(points[..i])
      {
        assert points[..i + 1][..i] == points[..i];
        sum := sum + points[i].cpuUsagePct;
      }
      assert points[..|points|] == points;
      return sum / |points| as real;
    }

    method MaxVRAMUsed() returns (max: nat)
      ensures forall i | 0 <= i < |points| :: points[i].vramUsed <= max
      ensures max == 0 || exists i | 0 <= i < |points| :: max == points[i].vramUsed
    {
      max := 0;
      for i := 0 to |points|
        invariant forall k | 0 <= k < i :: points[k].vramUsed <= max
        invariant max == 0 || exists k | 0 <= k < |points| :: max == points[k].vramUsed
      {
        if points[i].vramUsed > max { max := points[i].vramUsed; }
      }
    }
  }

  function SumCPU(s: seq<Point>): real {
    if s == [] then 0.0 else SumCPU(s[..|s| - 1]) + s[|s| - 1].cpuUsagePct
  }

  function AverageCPU(s: seq<Point>): real {
    if s == [] then 0.0 else SumCPU(s) / |s| as real
  }

  // ----- the incremental window against recomputation from the whole run -----

  ghost predicate NonDecreasing(s: seq<Point>) {
    forall i, j | 0 <= i < j < |s| :: s[i].timestamp <= s[j].timestamp
  }

  /** The points no older than the cutoff, in order. */
  function NotOlder(s: seq<Point>, cutoff: int): seq<Point> {
    if s == [] then []
    else NotOlder(s[..|s| - 1], cutoff) + if s[|s| - 1].timestamp >= cutoff then [s[|s| - 1]] else []
  }

  /** The history after a run of appends. */
  function AfterRun(all: seq<Point>, maxSize: nat, age: int): seq<Point>
    requires maxSize >= 1
  {
    if all == [] then [] else Appended(AfterRun(all[..|all| - 1], maxSize, age), all[|all| - 1], maxSize, age)
  }

  /** The newest point and the earlier ones within `age` seconds of it, computed from everything ever appended. */
  function Recent(all: seq<Point>, age: int): seq<Point> {
    if all == [] then []
    else
      var n := |all| - 1;
      NotOlder(all[..n], all[n].timestamp - age) + [all[n]]
  }

  /** For timestamps that never decrease the history holds the last `maxSize` of all points within `age` seconds of the
      newest one. */
  lemma {:induction false} HistoryIsRecomputable(all: seq<Point>, maxSize: nat, age: int)
    requires maxSize >= 1 && NonDecreasing(all)
    ensures AfterRun(all, maxSize, age) == Last(Recent(all, age), maxSize)
  {
    if |all| >= 2 {
      HistoryIsRecomputable(all[..|all| - 1], maxSize, age);
      RunStep(all, maxSize, age);
    } else if |all| == 1 {
      assert AfterRun(all[..0], maxSize, age) == [];
    }
  }

  lemma RunStep(all: seq<Point>, maxSize: nat, age: int)
    requires |all| >= 2 && maxSize >= 1 && NonDecreasing(all)
    requires var a := all[..|all| - 1]; AfterRun(a, maxSize, age) == Last(Recent(a, age), maxSize)
    ensures AfterRun(all, maxSize, age) == Last(Recent(all, age), maxSize)
  {
    var n := |all| - 1;
    var a, p, high := all[..n], all[n], all[n].timestamp - age;
    var recent := Recent(a, age);
    assert NonDecreasing(recent) && DropOld(recent, high) == NotOlder(a, high) by {
      RecentOfPrefix(all, age);
    }
    AppendStep(recent, p, maxSize, high);
  }

  lemma RecentOfPrefix(all: seq<Point>, age: int)
    requires |all| >= 2 && NonDecreasing(all)
    ensures var n := |all| - 1;
            var a, high := all[..n], all[n].timestamp - age;
            NonDecreasing(Recent(a, age)) && DropOld(Recent(a, age), high) == NotOlder(a, high)
  {
    var n := |all| - 1;
    var a, q, high := all[..n], all[n - 1], all[n].timestamp - age;
    var before, low := all[..n - 1], q.timestamp - age;
    SliceSorted(all, 0, n - 1);
    SliceSorted(all, 0, n);
    assert a == before + [q] && a[..n - 1] == before;
    assert Recent(a, age) == DropOld(before, low) + [q] by {
      SortedNotOlder(before, low);
    }
    DropOldSorted(before, q, low);
    assert DropOld(DropOld(before, low) + [q], high) == DropOld(a, high) by {
      DropTwice(before, [q], low, high);
    }
    SortedNotOlder(a, high);
  }

  lemma SliceSorted(s: seq<Point>, i: nat, j: nat)
    requires i <= j <= |s| && NonDecreasing(s)
    ensures NonDecreasing(s[i..j])
  {
  }

  lemma AppendStep(recent: seq<Point>, p: Point, maxSize: nat, cutoff: int)
    requires maxSize >= 1 && NonDecreasing(recent)
    ensures Last(DropOld(Last(recent, maxSize), cutoff), maxSize - 1) + [p]
         == Last(DropOld(recent, cutoff) + [p], maxSize)
  {
    DropOfLast(recent, maxSize, cutoff);
    LastThenAppend(DropOld(recent, cutoff), p, maxSize);
  }

  lemma DropOldSorted(before: seq<Point>, q: Point, cutoff: int)
    requires NonDecreasing(before + [q])
    ensures NonDecreasing(DropOld(before, cutoff) + [q])
  {
    DropIsSuffix(before, cutoff);
    var k := |before| - |DropOld(before, cutoff)|;
    assert DropOld(before, cutoff) + [q] == (before + [q])[k..];
    SliceSorted(before + [q], k, |before| + 1);
    assert (before + [q])[k..|before| + 1] == (before + [q])[k..];
  }

  lemma {:induction false} DropIsSuffix(s: seq<Point>, cutoff: int)
    ensures var r := DropOld(s, cutoff); |r| <= |s| && r == s[|s| - |r|..]
    ensures forall i | 0 <= i < |s| - |DropOld(s, cutoff)| :: s[i].timestamp < cutoff
    ensures DropOld(s, cutoff) != [] ==> DropOld(s, cutoff)[0].timestamp >= cutoff
  {
    if s != [] && s[0].timestamp < cutoff {
      DropIsSuffix(s[1..], cutoff);
    }
  }

  lemma {:induction false} SortedNotOlder(s: seq<Point>, cutoff: int)
    requires NonDecreasing(s)
    ensures DropOld(s, cutoff) == NotOlder(s, cutoff)
  {
    if s != [] {
      var n := |s| - 1;
      SortedNotOlder(s[..n], cutoff);
      DropIsSuffix(s[..n], cutoff);
      DropSnoc(s[..n], s[n], cutoff);
      assert s == s[..n] + [s[n]];
    }
  }

  lemma {:induction false} DropSnoc(s: seq<Point>, p: Point, cutoff: int)
    ensures DropOld(s + [p], cutoff) ==
              if DropOld(s, cutoff) == [] then DropOld([p], cutoff) else DropOld(s, cutoff) + [p]
  {
    if s == [] {
      assert s + [p] == [p];
    } else if s[0].timestamp < cutoff {
      DropSnoc(s[1..], p, cutoff);
      assert (s + [p])[1..] == s[1..] + [p];
    }
  }

  lemma {:induction false} DropTwice(s: seq<Point>, t: seq<Point>, low: int, high: int)
    requires low <= high
    ensures DropOld(DropOld(s, low) + t, high) == DropOld(s + t, high)
  {
    if s != [] && s[0].timestamp < low {
      DropTwice(s[1..], t, low, high);
      assert (s + t)[1..] == s[1..] + t;
    }
  }

  lemma {:induction false} DropOfLast(s: seq<Point>, m: nat, cutoff: int)
    requires NonDecreasing(s)
    ensures DropOld(Last(s, m), cutoff) == Last(DropOld(s, cutoff), m)
    decreases |s|
  {
    if |s| > m {
      DropOfLast(s[1..], m, cutoff);
      assert Last(s, m) == Last(s[1..], m);
      if s[0].timestamp >= cutoff {
        assert DropOld(s[1..], cutoff) == s[1..];
      }
    } else {
      DropIsSuffix(s, cutoff);
    }
  }

  /** The points from `k` on are no older than the cutoff, and those before it are. */
  ghost predicate Splits(s: seq<Point>, k: nat, cutoff: int) {
    && k <= |s|
    && (forall i | k <= i < |s| :: s[i].timestamp >= cutoff)
    && (forall i | 0 <= i < k :: s[i].timestamp < cutoff)
  }

  lemma NotOlderBoundary(s: seq<Point>, cutoff: int) returns (k: nat)
    requires NonDecreasing(s)
    ensures Splits(s, k, cutoff) && NotOlder(s, cutoff) == s[k..]
  {
    var r := DropOld(s, cutoff);
    SortedNotOlder(s, cutoff);
    DropIsSuffix(s, cutoff);
    k := |s| - |r|;
    if k < |s| {
      assert s[k] == r[0];
    }
  }

  /** For timestamps that never decrease the history is a suffix of all points. It ends with the newest and begins with the
      first point within `age` seconds of that, or later if that would be more points than the size allows. */
  lemma HistoryIsWindow(all: seq<Point>, maxSize: nat, age: int) returns (k: nat)
    requires all != [] && maxSize >= 1 && NonDecreasing(all)
    ensures Splits(all[..|all| - 1], k, all[|all| - 1].timestamp - age)
    ensures AfterRun(all, maxSize, age) == if |all| - k <= maxSize then all[k..] else all[|all| - maxSize..]
  {
    HistoryIsRecomputable(all, maxSize, age);
    k := RecentFrom(all, age);
    SuffixOfSuffix(all, k, maxSize);
  }

  lemma RecentFrom(all: seq<Point>, age: int) returns (k: nat)
    requires all != [] && NonDecreasing(all)
    ensures Splits(all[..|all| - 1], k, all[|all| - 1].timestamp - age) && Recent(all, age) == all[k..]
  {
    var n := |all| - 1;
    SliceSorted(all, 0, n);
    assert all[0..n] == all[..n];
    k := NotOlderBoundary(all[..n], all[n].timestamp - age);
    assert all[..n][k..] + [all[n]] == all[k..];
  }

  lemma SuffixOfSuffix(all: seq<Point>, k: nat, maxSize: nat)
    requires k <= |all|
    ensures Last(all[k..], maxSize) == if |all| - k <= maxSize then all[k..] else all[|all| - maxSize..]
  {
  }

  /** What is promised of a history that is given points in any order. */
  ghost predicate Recomputable(all: seq<Point>, maxSize: nat, age: int)
    requires maxSize >= 1
  {
    AfterRun(all, maxSize, age) == Last(Recent(all, age), maxSize)
  }

  /** The order of the timestamps matters for every size but one: a history of a single point is always recomputable,
      and for any larger size and any age some order of points defeats it. */
  lemma OrderMattersUnlessSingle(maxSize: nat, age: int, p: Point)
    requires maxSize >= 1
    ensures (forall all :: Recomputable(all, maxSize, age)) <==> maxSize == 1
  {
    if maxSize == 1 {
      forall all ensures Recomputable(all, maxSize, age) {
        SingleIsNewest(all, age);
      }
    } else {
      LateSampleStays(p, maxSize, age);
    }
  }

  lemma SingleIsNewest(all: seq<Point>, age: int)
    ensures Recomputable(all, 1, age)
  {
  }

  /** An early point, then one that is too old for the third: the early one shields it from being dropped. */
  function Shielded(p: Point, age: int): seq<Point> {
    [p.(timestamp := if age >= 0 then 1 else -age), p.(timestamp := 0), p.(timestamp := age + 1)]
  }

  /** Out of order, an old point behind a newer one stays. */
  lemma LateSampleStays(p: Point, maxSize: nat, age: int)
    requires maxSize >= 2
    ensures !Recomputable(Shielded(p, age), maxSize, age)
  {
    var all := Shielded(p, age);
    ShieldedHistory(p, maxSize, age);
    ShieldedRecent(p, age);
    assert all[0].timestamp != all[1].timestamp;
    assert AfterRun(all, maxSize, age)[|AfterRun(all, maxSize, age)| - 2] == all[1];
    assert Last(Recent(all, age), maxSize) == [all[0], all[2]];
  }

  lemma ShieldedHistory(p: Point, maxSize: nat, age: int)
    requires maxSize >= 2
    ensures var all := Shielded(p, age);
            AfterRun(all, maxSize, age) == (if maxSize == 2 then all[1..] else all)
  {
    var all := Shielded(p, age);
    assert all[..2] == [all[0], all[1]];
    ShieldedBefore(p, maxSize, age);
    assert AfterRun(all, maxSize, age) == Appended([all[0], all[1]], all[2], maxSize, age);
  }

  lemma ShieldedBefore(p: Point, maxSize: nat, age: int)
    requires maxSize >= 2
    ensures var all := Shielded(p, age); AfterRun([all[0], all[1]], maxSize, age) == [all[0], all[1]]
  {
    var all := Shielded(p, age);
    var two := [all[0], all[1]];
    assert two[..1] == [all[0]] && [all[0]][..0] == [];
    assert AfterRun([all[0]], maxSize, age) == [all[0]];
    assert AfterRun(two, maxSize, age) == Appended([all[0]], all[1], maxSize, age);
  }

  lemma ShieldedRecent(p: Point, age: int)
    ensures var all := Shielded(p, age); Recent(all, age) == [all[0], all[2]]
  {
    var all := Shielded(p, age);
    assert all[..2] == [all[0], all[1]] && all[..2][..1] == [all[0]] && all[..2][..1][..0] == [];
    assert NotOlder(all[..2][..1], 1) == [all[0]];
    assert NotOlder(all[..2], 1) == [all[0]];
  }

  /** The deviations of the CPU shares from a value, added up. */
  ghost function Deviations(s: seq<Point>, from: real): real {
    if s == [] then 0.0 else (s[0].cpuUsagePct - from) + Deviations(s[1..], from)
  }

  lemma {:induction false} DeviationsOf(s: seq<Point>, from: real)
    ensures Deviations(s, from) == SumCPU(s) - from * |s| as real
  {
    if s != [] {
      DeviationsOf(s[1..], from);
      SumFromFront(s);
    }
  }

  lemma {:induction false} SumFromFront(s: seq<Point>)
    requires s != []
    ensures SumCPU(s) == s[0].cpuUsagePct + SumCPU(s[1..])
    decreases |s|
  {
    var n := |s| - 1;
    if n > 0 {
      SumFromFront(s[..n]);
      assert s[..n][1..] == s[1..][..n - 1];
    }
  }

  /** The rolling average is the one value from which the CPU shares of the window deviate by nothing in total. */
  lemma AverageBalances(s: seq<Point>, value: real)
    requires s != []
    ensures Deviations(s, value) == 0.0 <==> value == AverageCPU(s)
  {
    DeviationsOf(s, value);
    var n, avg := |s| as real, AverageCPU(s);
    assert avg * n == SumCPU(s);
    if value > avg {
      var _ := Product(value - avg, n);
    } else if value < avg {
      var _ := Product(avg - value, n);
    }
  }

  /** The rolling average lies between the extremes of the window. */
  lemma AverageWithin(s: seq<Point>, low: real, high: real)
    requires s != [] && forall i | 0 <= i < |s| :: low <= s[i].cpuUsagePct <= high
    ensures low <= AverageCPU(s) <= high
  {
    SumWithin(s, low, high);
    var n, avg := |s| as real, AverageCPU(s);
    assert avg * n == SumCPU(s);
    if avg > high {
      var _ := Product(avg - high, n);
    } else if avg < low {
      var _ := Product(low - avg, n);
    }
  }

  lemma {:induction false} SumWithin(s: seq<Point>, low: real, high: real)
    requires forall i | 0 <= i < |s| :: low <= s[i].cpuUsagePct <= high
    ensures low * (|s| as real) <= SumCPU(s) <= high * (|s| as real)
  {
    if s != [] {
      SumWithin(s[..|s| - 1], low, high);
    }
  }
}
