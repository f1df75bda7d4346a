/** The telemetry sender: drains the queue in batches and puts back what it could not send. */
module Streamer {
  import opened ByteText
  import opened Doubling
  import opened RingBuffer

  const BATCH: nat := 100
  const SECOND: nat := 1_000_000_000
  const MAX_BACKOFF: nat := 30 * SECOND
  const POLL: nat := SECOND / 2

  /** Without an endpoint nothing is sent and nothing fails. */
  predicate Accepted(endpoint: string, accepts: nat -> bool, i: nat) {
    endpoint == "" || accepts(i)
  }

  /** The first of the attempts `from`, ..., `n - 1` that fails, or `n`. */
  function FirstFailure(endpoint: string, accepts: nat -> bool, from: nat, n: nat): (p: nat)
    requires from <= n
    ensures from <= p <= n && (p < n ==> !Accepted(endpoint, accepts, p))
    ensures forall i | from <= i < p :: Accepted(endpoint, accepts, i)
    decreases n - from
  {
    if from == n || !Accepted(endpoint, accepts, from) then from else FirstFailure(endpoint, accepts, from + 1, n)
  }

  function Min(a: nat, b: nat): nat {
    if a <= b then a else b
  }

  /** The queue after a batch of `n` of which the first `p` were sent. */
  function Requeued(s: seq<Bytes>, n: nat, p: nat): seq<Bytes>
    requires p <= n <= |s|
  {
    s[n..] + s[p..n]
  }

  /** Sent and queued entries together are a rearrangement of what was queued. */
  lemma BatchConserves(s: seq<Bytes>, n: nat, p: nat)
    requires p <= n <= |s|
    ensures multiset(s[..p]) + multiset(Requeued(s, n, p)) == multiset(s)
  {
    assert s == s[..p] + s[p..n] + s[n..];
  }

  /** With distinct entries the order survives exactly when the batch took the whole queue or was sent in full. */
  lemma BatchKeepsOrder(s: seq<Bytes>, n: nat, p: nat)
    requires p <= n <= |s| && forall i, j | 0 <= i < j < |s| :: s[i] != s[j]
    ensures Requeued(s, n, p) == s[p..] <==> n == |s| || p == n
  {
    var r := Requeued(s, n, p);
    if n < |s| && p < n {
      assert r[0] == s[n] && s[p..][0] == s[p];
    } else if n == |s| {
      assert r == s[p..];
    } else {
      assert r == s[p..];
    }
  }

  class Streamer {
    const endpoint: string
    const ringBuf: RingBuffer
    /** Every entry whose request ended without an error, in order. A 3xx or 4xx answer is no error. */
    var delivered: seq<Bytes>

    constructor (endpoint: string, ringBuf: RingBuffer)
      ensures this.endpoint == endpoint && this.ringBuf == ringBuf && delivered == []
    {
      this.endpoint, this.ringBuf, delivered := endpoint, ringBuf, [];
    }

    method SendOne(data: Bytes, accepted: bool) returns (ok: bool)
      modifies this`delivered
      ensures ok == (endpoint == "" || accepted)
      ensures delivered == if ok then old(delivered) + [data] else old(delivered)
    {
      ok := endpoint == "" || accepted;
      if ok { delivered := delivered + [data]; }
    }

    /** With no producer in between, a failing batch evicts nothing: the unsent entries go behind the rest. */
    method SendBatch(accepts: nat -> bool) returns (sent: nat, retryable: bool)
      requires ringBuf.Valid()
      modifies this`delivered, ringBuf
      ensures ringBuf.Valid()
      ensures var s := old(ringBuf.entries);
              var n := if |s| <= 100 then |s| else 100;
              && sent == FirstFailure(endpoint, accepts, 0, n)
              && retryable == (sent < n)
              && delivered == old(delivered) + s[..sent]
              && ringBuf.entries == Requeued(s, n, sent)
    {
      ghost var s := old(ringBuf.entries);
      var payloads := ringBuf.Drain(BATCH);
      assert payloads == s[..|payloads|] && ringBuf.entries == s[|payloads|..];
      if |payloads| == 0 {
        return 0, false;
      }
      sent := SendUntilFailure(payloads, accepts);
      retryable := sent < |payloads|;
      if retryable {
        BatchFits(s, |payloads|, sent, ringBuf.maxBytes);
        PushBack(payloads[sent..]);
      } else {
        assert Requeued(s, |payloads|, sent) == s[|payloads|..];
      }
    }

    method SendUntilFailure(payloads: seq<Bytes>, accepts: nat -> bool) returns (sent: nat)
      modifies this`delivered
      ensures sent == FirstFailure(endpoint, accepts, 0, |payloads|)
      ensures delivered == old(delivered) + payloads[..sent]
    {
      sent := 0;
      while sent < |payloads|
        invariant sent <= |payloads| && delivered == old(delivered) + payloads[..sent]
        invariant FirstFailure(endpoint, accepts, 0, |payloads|) == FirstFailure(endpoint, accepts, sent, |payloads|)
      {
        var ok := SendOne(payloads[sent], accepts(sent));
        if !ok {
          return;
        }
        sent := sent + 1;
      }
    }

    /** The inner loop: pushes the unsent payloads back, one by one. */
    method PushBack(unsent: seq<Bytes>)
      requires ringBuf.Valid()
      modifies ringBuf
      ensures ringBuf.Valid() && ringBuf.entries == PushedAll(old(ringBuf.entries), unsent, ringBuf.maxBytes)
    {
      for j := 0 to |unsent|
        invariant ringBuf.Valid()
        invariant PushedAll(ringBuf.entries, unsent[j..], ringBuf.maxBytes)
               == PushedAll(old(ringBuf.entries), unsent, ringBuf.maxBytes)
      {
        assert unsent[j..][1..] == unsent[j + 1..];
        ringBuf.Push(unsent[j]);
      }
    }

    /** One turn of the sender's loop. The result is the pause it remembers and how long it waits. */
    method RunTurn(accepts: nat -> bool, backoff: int) returns (turn: Turn, next: int, waited: int)
      requires ringBuf.Valid()
      modifies this`delivered, ringBuf
      ensures ringBuf.Valid()
      ensures var s := old(ringBuf.entries);
              var n := if |s| <= 100 then |s| else 100;
              var sent := FirstFailure(endpoint, accepts, 0, n);
              && turn == (if s == [] then Idle else Batched(sent, sent < n))
              && delivered == old(delivered) + s[..sent]
              && ringBuf.entries == Requeued(s, n, sent)
      ensures next == if turn.Idle? then backoff else Pause(backoff, turn.sent, turn.retryable, MAX_BACKOFF)
      ensures waited == if turn.Idle? || turn.sent == 0 then 500_000_000 else next
      ensures next == if turn.Idle? then backoff
                      else if !(turn.retryable && turn.sent > 0) then 0
                      else if backoff == 0 then 1_000_000_000
                      else if backoff * 2 > 30_000_000_000 then 30_000_000_000 else backoff * 2
    {
      if ringBuf.count == 0 {
        return Idle, backoff, POLL;
      }
      var sent, retryable := SendBatch(accepts);
      turn, waited := Batched(sent, retryable), 0;
      if retryable && sent > 0 {
        next := NextBackoff(backoff, MAX_BACKOFF);
        waited := next;
      } else {
        next := 0;
      }
      if sent == 0 {
        waited := waited + POLL;
      }
    }

    /** The last flush before stopping. A failed request loses the rest of its batch; without an endpoint only one
        batch is taken. */
    method FlushRemaining(accepts: nat -> bool)
      requires ringBuf.Valid()
      modifies this`delivered, ringBuf
      ensures ringBuf.Valid()
      ensures var s := old(ringBuf.entries);
              var p := FlushStop(endpoint, accepts, |s|);
              && delivered == old(delivered) + s[..p]
              && ringBuf.entries == s[LeftFrom(endpoint, |s|, p)..]
    {
      ghost var s, sent := old(ringBuf.entries), old(delivered);
      var taken := 0;
      while true
        invariant ringBuf.Valid() && taken <= |s| && ringBuf.entries == s[taken..]
        invariant taken % BATCH == 0 || taken == |s|
        invariant endpoint == "" ==> taken == 0
        invariant delivered == sent + s[..taken] && AllAccepted(endpoint, accepts, 0, taken)
        decreases |s| - taken
      {
        var size, k := FlushBatch(accepts, taken);
        assert s[..taken] + s[taken..][..k] == s[..taken + k] && s[taken..][size..] == s[taken + size..];
        if size == 0 {
          FlushCompletes(endpoint, accepts, taken, |s|);
          return;
        }
        if k < size {
          FlushFails(endpoint, accepts, taken, taken + k, |s|);
          return;
        }
        taken := taken + size;
        if endpoint == "" {
          FlushCompletes(endpoint, accepts, taken, |s|);
          return;
        }
      }
    }

    /** One batch of the flush, which starts at attempt `base`: `k` of its `size` entries are sent. */
    method FlushBatch(accepts: nat -> bool, base: nat) returns (size: nat, k: nat)
      requires ringBuf.Valid()
      modifies this`delivered, ringBuf
      ensures ringBuf.Valid()
      ensures k <= size == Min(BATCH, |old(ringBuf.entries)|)
      ensures delivered == old(delivered) + old(ringBuf.entries)[..k]
      ensures ringBuf.entries == old(ringBuf.entries)[size..]
      ensures AllAccepted(endpoint, accepts, base, base + k)
      ensures k < size ==> !Accepted(endpoint, accepts, base + k)
    {
      var payloads := ringBuf.Drain(BATCH);
      size, k := |payloads|, 0;
      ghost var s := old(ringBuf.entries);
      assert payloads == s[..size] && ringBuf.entries == s[size..];
      while k < |payloads|
        invariant ringBuf.Valid() && ringBuf.entries == s[size..]
        invariant k <= |payloads| && delivered == old(delivered) + s[..k]
        invariant AllAccepted(endpoint, accepts, base, base + k)
      {
        var ok := SendOne(payloads[k], accepts(base + k));
        if !ok {
          return;
        }
        k := k + 1;
      }
    }
  }

  ghost predicate AllAccepted(endpoint: string, accepts: nat -> bool, from: nat, n: nat) {
    forall i | from <= i < n :: Accepted(endpoint, accepts, i)
  }

  /** How many entries a flush of `size` entries delivers. */
  function FlushStop(endpoint: string, accepts: nat -> bool, size: nat): (p: nat)
    ensures p <= size
  {
    FirstFailure(endpoint, accepts, 0, if endpoint == "" then Min(BATCH, size) else size)
  }

  /** Where the entries begin that are still queued after a flush that delivered `p`. */
  function LeftFrom(endpoint: string, size: nat, p: nat): (k: nat)
    requires p <= size
    ensures p <= k <= size
  {
    if endpoint == "" || p == size then p else Min(BatchEnd(p), size)
  }

  /** Without an endpoint a flush takes one batch. With one it delivers what is accepted before the first failure, and
      leaves what lies behind the batch in which that happens. */
  lemma FlushMeaning(endpoint: string, accepts: nat -> bool, size: nat)
    ensures var p := FlushStop(endpoint, accepts, size);
            var k := LeftFrom(endpoint, size, p);
            if endpoint == "" then p == k == if size <= 100 then size else 100
            else
              && (forall i | 0 <= i < p :: accepts(i))
              && (p == size ==> k == size)
              && (p < size ==> !accepts(p) && p < k <= p + 100 && (k == size || k % 100 == 0))
  {
    var p := FlushStop(endpoint, accepts, size);
    forall i | 0 <= i < p ensures Accepted(endpoint, accepts, i) {
    }
    forall i | 0 <= i < p && endpoint != "" ensures accepts(i) {
      assert Accepted(endpoint, accepts, i);
    }
  }

  lemma FlushCompletes(endpoint: string, accepts: nat -> bool, taken: nat, size: nat)
    requires taken <= size && AllAccepted(endpoint, accepts, 0, taken)
    requires taken == if endpoint == "" then Min(BATCH, size) else size
    ensures FlushStop(endpoint, accepts, size) == taken == LeftFrom(endpoint, size, taken)
  {
  }

  lemma FlushFails(endpoint: string, accepts: nat -> bool, taken: nat, p: nat, size: nat)
    requires taken <= p < size && p < taken + BATCH && taken % BATCH == 0
    requires AllAccepted(endpoint, accepts, 0, p) && !Accepted(endpoint, accepts, p)
    ensures FlushStop(endpoint, accepts, size) == p
    ensures LeftFrom(endpoint, size, p) == Min(taken + BATCH, size)
  {
  }

  /** The end of the batch that holds entry `p`. */
  function BatchEnd(p: nat): nat {
    (p / BATCH + 1) * BATCH
  }

  /** A flush that fails loses what its batch still held: at least one entry, at most a batch. */
  lemma FlushLoses(endpoint: string, accepts: nat -> bool, size: nat)
    ensures var p := FlushStop(endpoint, accepts, size);
            var k := LeftFrom(endpoint, size, p);
            && k - p <= BATCH
            && (k - p > 0 <==> endpoint != "" && exists i | 0 <= i < size :: !accepts(i))
  {
    var p := FlushStop(endpoint, accepts, size);
    if endpoint != "" && p < size {
      assert !accepts(p);
    }
    if i :| 0 <= i < size && !accepts(i) && endpoint != "" {
      assert !Accepted(endpoint, accepts, i);
    }
  }

  lemma BatchFits(s: seq<Bytes>, n: nat, p: nat, maxBytes: nat)
    requires p <= n <= |s| && NoneEmpty(s) && Bounded(s, maxBytes)
    ensures PushedAll(s[n..], s[p..n], maxBytes) == Requeued(s, n, p)
  {
    assert s == s[..p] + s[p..n] + s[n..];
    TotalAppend(s[..p] + s[p..n], s[n..]);
    TotalAppend(s[..p], s[p..n]);
    if p < n {
      NothingEvicted(s[n..], s[p..n], maxBytes);
    }
  }

  // ----- backing off -----

  /** `nextBackoff`, in nanoseconds. */
  function NextBackoff(current: int, max: int): int {
    if current == 0 then SECOND else if current * 2 > max then max else current * 2
  }

  /** The pause that a batch leaves behind. Only a batch that fails after sending something lengthens it. */
  function Pause(current: int, sent: nat, retryable: bool, max: int): int {
    if retryable && sent > 0 then NextBackoff(current, max) else 0
  }

  /** One turn of the sender's loop: nothing is queued, or a batch is sent. */
  datatype Turn = Idle | Batched(sent: nat, retryable: bool)

  function PauseAfter(turns: seq<Turn>, max: int): int {
    if turns == [] then 0
    else
      var before := PauseAfter(turns[..|turns| - 1], max);
      match turns[|turns| - 1]
      case Idle => before
      case Batched(sent, retryable) => Pause(before, sent, retryable, max)
  }

  predicate PartlySent(turn: Turn) {
    turn.Batched? && turn.retryable && turn.sent > 0
  }

  /** The length of the trailing run of partly sent batches, idle turns aside. */
  function Trailing(turns: seq<Turn>): (k: nat)
    ensures k <= |turns|
  {
    if turns == [] then 0
    else
      var last, before := turns[|turns| - 1], Trailing(turns[..|turns| - 1]);
      if last.Idle? then before else if PartlySent(last) then before + 1 else 0
  }

  /** The k-th partly sent batch in a row waits twice as long as the one before, from one second up to the maximum. */
  lemma {:induction false} PauseDoubles(turns: seq<Turn>, max: int)
    requires max >= 1_000_000_000
    ensures var k := Trailing(turns);
            PauseAfter(turns, max) ==
              if k == 0 then 0
              else if Pow2(k - 1) * 1_000_000_000 <= max then Pow2(k - 1) * 1_000_000_000 else max
  {
    if turns != [] {
      PauseDoubles(turns[..|turns| - 1], max);
    }
  }

  /** The sender backs off exactly if its latest batch failed after sending something. A batch that sends nothing, as
      in an outage, resets the pause. */
  lemma {:induction false} OnlyPartlySentBacksOff(turns: seq<Turn>, max: int)
    requires max >= SECOND
    ensures PauseAfter(turns, max) != 0 <==>
            exists i | 0 <= i < |turns| :: PartlySent(turns[i]) && forall j | i < j < |turns| :: turns[j].Idle?
  {
    PauseDoubles(turns, max);
    TrailingIsPositive(turns);
  }

  lemma {:induction false} TrailingIsPositive(turns: seq<Turn>)
    ensures Trailing(turns) > 0 <==>
            exists i | 0 <= i < |turns| :: PartlySent(turns[i]) && forall j | i < j < |turns| :: turns[j].Idle?
  {
    if turns != [] {
      var n := |turns| - 1;
      TrailingIsPositive(turns[..n]);
      if turns[n].Idle? && Trailing(turns[..n]) > 0 {
        var i :| 0 <= i < n && PartlySent(turns[..n][i]) && forall j | i < j < n :: turns[..n][j].Idle?;
        assert PartlySent(turns[i]) && forall j | i < j < |turns| :: turns[j].Idle?;
      }
      if i :| 0 <= i < |turns| && PartlySent(turns[i]) && forall j | i < j < |turns| :: turns[j].Idle? {
        if i < n {
          assert turns[n].Idle? && PartlySent(turns[..n][i]);
          assert forall j | i < j < n :: turns[..n][j] == turns[j];
        }
      }
    }
  }
}
