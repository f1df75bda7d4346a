/** The byte-bounded telemetry queue. */
module RingBuffer {
  import opened ByteText

  const DEFAULT_MAX_BYTES: nat := 50 * 1024 * 1024
  const DEFAULT_DRAIN: nat := 100

  function Total(s: seq<Bytes>): nat {
    if s == [] then 0 else |s[0]| + Total(s[1..])
  }

  lemma {:induction false} TotalAppend(a: seq<Bytes>, b: seq<Bytes>)
    ensures Total(a + b) == Total(a) + Total(b)
  {
    if a == [] {
      assert a + b == b;
    } else {
      TotalAppend(a[1..], b);
      assert (a + b)[1..] == a[1..] + b;
    }
  }

  /** The bytes of a queue are those of its entries put together. */
  lemma {:induction false} TotalIsLength(s: seq<Bytes>)
    ensures Total(s) == |Concat(s)|
  {
    if s != [] {
      TotalIsLength(s[1..]);
      ConcatAppends([s[0]], s[1..], s[0]);
      assert s == [s[0]] + s[1..];
    }
  }

  /** Drops from the front until the rest fits. */
  function Fitting(s: seq<Bytes>, budget: int): seq<Bytes> {
    if s == [] || Total(s) <= budget then s else Fitting(s[1..], budget)
  }

  /** What a push leaves: room is made by dropping the oldest entries. */
  function Pushed(s: seq<Bytes>, data: Bytes, maxBytes: nat): seq<Bytes> {
    if data == [] then s else Fitting(s, maxBytes - |data|) + [data]
  }

  function PushedAll(s: seq<Bytes>, more: seq<Bytes>, maxBytes: nat): seq<Bytes>
    decreases |more|
  {
    if more == [] then s else PushedAll(Pushed(s, more[0], maxBytes), more[1..], maxBytes)
  }

  /** The bound may only be exceeded by a single oversized entry. */
  predicate Bounded(s: seq<Bytes>, maxBytes: nat) {
    Total(s) <= maxBytes || |s| == 1
  }

  ghost predicate NoneEmpty(s: seq<Bytes>) {
    forall i | 0 <= i < |s| :: s[i] != []
  }

  lemma {:induction false} FittingIsLongest(s: seq<Bytes>, budget: int, k: nat)
    requires k <= |s|
    ensures var r := Fitting(s, budget);
            && |r| <= |s| && r == s[|s| - |r|..]
            && (Total(r) <= budget || r == [])
            && (Total(s[k..]) <= budget ==> |s| - k <= |r|)
  {
    if !(s == [] || Total(s) <= budget) {
      FittingIsLongest(s[1..], budget, if k == 0 then 0 else k - 1);
      if k > 0 {
        assert s[k..] == s[1..][k - 1..];
      }
    }
  }

  /** A push leaves the longest suffix of old contents and new entry that fits, or just the entry if it is oversized. */
  lemma PushKeepsLongestSuffix(s: seq<Bytes>, data: Bytes, maxBytes: nat, k: nat)
    requires data != [] && k <= |s|
    ensures var r, all := Pushed(s, data, maxBytes), s + [data];
            && |r| <= |all| && r == all[|all| - |r|..]
            && Bounded(r, maxBytes)
            && (|data| > maxBytes ==> r == [data])
            && (Total(all[k..]) <= maxBytes ==> |all| - k <= |r|)
  {
    var budget := maxBytes - |data|;
    FittingIsLongest(s, budget, k);
    TotalAppend(Fitting(s, budget), [data]);
    TotalAppend(s[k..], [data]);
    assert (s + [data])[k..] == s[k..] + [data];
  }

  lemma {:induction false} FittingOfFitting(s: seq<Bytes>, t: seq<Bytes>, wide: int, narrow: int)
    requires narrow <= wide - Total(t) && Total(t) <= wide
    ensures Fitting(s + t, wide) == Fitting(s, wide - Total(t)) + t
    ensures Fitting(Fitting(s, wide - Total(t)), narrow) == Fitting(s, narrow)
  {
    TotalAppend(s, t);
    if s == [] {
      assert s + t == t;
    } else if Total(s) > wide - Total(t) {
      FittingOfFitting(s[1..], t, wide, narrow);
      assert (s + t)[1..] == s[1..] + t;
    }
  }

  /** Any run of pushes leaves the longest fitting suffix of everything ever pushed, or just the last entry if that one
      is oversized. Oversized entries before the last leave no trace. */
  lemma {:induction false} PushesKeepLongestSuffix(s: seq<Bytes>, more: seq<Bytes>, maxBytes: nat)
    requires NoneEmpty(more) && more != []
    ensures var last := more[|more| - 1];
            PushedAll(s, more, maxBytes) == if |last| > maxBytes then [last] else Fitting(s + more, maxBytes)
    decreases |more|
  {
    var d, rest := more[0], more[1..];
    if rest == [] {
      assert more == [d];
      PushFits(s, d, maxBytes);
    } else {
      PushesKeepLongestSuffix(Pushed(s, d, maxBytes), rest, maxBytes);
      FittingAfterPush(s, d, rest, maxBytes);
      assert s + [d] + rest == s + more;
      assert rest[|rest| - 1] == more[|more| - 1];
    }
  }

  lemma FittingAfterPush(s: seq<Bytes>, d: Bytes, rest: seq<Bytes>, maxBytes: nat)
    requires d != []
    ensures Fitting(Pushed(s, d, maxBytes) + rest, maxBytes) == Fitting(s + [d] + rest, maxBytes)
  {
    PushFits(s, d, maxBytes);
    if |d| > maxBytes {
      OversizedIsDropped(s, d, rest, maxBytes);
    } else {
      FittingAgain(s + [d], rest, maxBytes);
    }
  }

  /** One push, seen as cutting down old contents and new entry together. */
  lemma PushFits(s: seq<Bytes>, d: Bytes, maxBytes: nat)
    requires d != []
    ensures Pushed(s, d, maxBytes) == if |d| > maxBytes then [d] else Fitting(s + [d], maxBytes)
  {
    if |d| > maxBytes {
      FittingIsLongest(s, maxBytes - |d|, 0);
    } else {
      FittingOfFitting(s, [d], maxBytes, maxBytes - |d|);
    }
  }

  lemma {:induction false} OversizedIsDropped(s: seq<Bytes>, d: Bytes, t: seq<Bytes>, maxBytes: nat)
    requires |d| > maxBytes
    ensures Fitting([d] + t, maxBytes) == Fitting(s + [d] + t, maxBytes)
  {
    if s != [] {
      OversizedIsDropped(s[1..], d, t, maxBytes);
      TotalAppend(s + [d], t);
      TotalAppend(s, [d]);
      assert (s + [d] + t)[1..] == s[1..] + [d] + t;
    }
  }

  /** Dropping early does not change what is dropped in the end. */
  lemma {:induction false} FittingAgain(s: seq<Bytes>, t: seq<Bytes>, maxBytes: nat)
    ensures Fitting(Fitting(s, maxBytes) + t, maxBytes) == Fitting(s + t, maxBytes)
  {
    if s != [] && Total(s) > maxBytes {
      FittingAgain(s[1..], t, maxBytes);
      TotalAppend(s, t);
      assert (s + t)[1..] == s[1..] + t;
    }
  }

  /** Pushes evict nothing while everything fits. */
  lemma {:induction false} NothingEvicted(s: seq<Bytes>, more: seq<Bytes>, maxBytes: nat)
    requires NoneEmpty(more)
    requires Total(s) + Total(more) <= maxBytes || (s == [] && |more| <= 1)
    ensures PushedAll(s, more, maxBytes) == s + more
    decreases |more|
  {
    if more != [] {
      TotalAppend(s, [more[0]]);
      assert Pushed(s, more[0], maxBytes) == s + [more[0]];
      assert s + more == s + [more[0]] + more[1..];
      if |more| > 1 {
        NothingEvicted(s + [more[0]], more[1..], maxBytes);
      }
    }
  }

  class RingBuffer {
    var entries: seq<Bytes>
    var count: int
    var curBytes: int
    const maxBytes: nat

    ghost predicate Valid()
      reads this
    {
      && count == |entries|
      && curBytes == Total(entries)
      && NoneEmpty(entries)
      && Bounded(entries, maxBytes)
      && maxBytes > 0
    }

    constructor (maxBytes: int)
      ensures Valid() && entries == []
      ensures this.maxBytes == if maxBytes <= 0 then 52_428_800 else maxBytes
    {
      this.maxBytes := if maxBytes <= 0 then DEFAULT_MAX_BYTES else maxBytes;
      entries, count, curBytes := [], 0, 0;
    }

    method Push(data: Bytes)
      requires Valid()
      modifies this
      ensures Valid() && entries == Pushed(old(entries), data, maxBytes)
    {
      if |data| == 0 {
        return;
      }
      var dataLen := |data|;
      while curBytes + dataLen > maxBytes && count > 0
        invariant count == |entries| && curBytes == Total(entries) && NoneEmpty(entries)
        invariant Fitting(entries, maxBytes - dataLen) == Fitting(old(entries), maxBytes - dataLen)
        decreases count
      {
        var _ := PopLocked();
      }
      TotalAppend(entries, [data]);
      entries := entries + [data];
      curBytes := curBytes + dataLen;
      count := count + 1;
    }

    method PopLocked() returns (entry: Bytes)
      requires count == |entries| && curBytes == Total(entries)
      modifies this
      ensures count == |entries| && curBytes == Total(entries)
      ensures old(entries) == [] ==> entry == [] && entries == []
      ensures old(entries) != [] ==> old(entries) == [entry] + entries
    {
      if count == 0 {
        return [];
      }
      entry := entries[0];
      entries := entries[1..];
      curBytes := curBytes - |entry|;
      count := count - 1;
    }

    method Pop() returns (entry: Bytes, ok: bool)
      requires Valid()
      modifies this
      ensures Valid() && ok == (old(entries) != [])
      ensures ok ==> old(entries) == [entry] + entries
      ensures !ok ==> entry == [] && entries == old(entries)
    {
      if count == 0 {
        return [], false;
      }
      entry := PopLocked();
      ok := true;
    }

    method Drain(maxEntries: int) returns (out: seq<Bytes>)
      requires Valid()
      modifies this
      ensures Valid() && old(entries) == out + entries
      ensures var limit := if maxEntries <= 0 then 100 else maxEntries;
              |out| == if limit <= |old(entries)| then limit else |old(entries)|
    {
      var limit := if maxEntries <= 0 then DEFAULT_DRAIN else maxEntries;
      out := [];
      if count == 0 {
        return;
      }
      var n := if limit > count then count else limit;
      for i := 0 to n
        invariant |out| == i && old(entries) == out + entries
        invariant count == |entries| && curBytes == Total(entries) && NoneEmpty(entries)
        invariant Total(entries) <= Total(old(entries))
      {
        var first := entries[0];
        out := out + [first];
        entries := entries[1..];
        curBytes := curBytes - |first|;
        count := count - 1;
      }
    }

    method Close()
      modifies this
      ensures entries == [] && count == 0 && curBytes == 0
    {
      entries, count, curBytes := [], 0, 0;
    }

    method Reset()
      modifies this
      ensures entries == [] && count == 0 && curBytes == 0
    {
      entries, count, curBytes := [], 0, 0;
    }
  }
}
