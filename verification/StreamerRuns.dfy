/** Runs of the telemetry sender and its producers. In the first half a batch is one step. In the second it takes the
    lock of the queue as the source does, once to drain and once for every entry it puts back, and producers push in
    between. */
module StreamerRuns {
  import opened ByteText
  import opened RingBuffer
  import opened Streamer

  // ----- whole batches -----

  /** A producer pushes an entry, or a batch is sent of which `accepted` entries get through. */
  datatype Op = Produce(data: Bytes) | Batch(accepted: nat)

  datatype Traffic = Traffic(queue: seq<Bytes>, delivered: seq<Bytes>, produced: seq<Bytes>)

  function Sent(queue: seq<Bytes>, accepted: nat): (p: nat)
    ensures p <= Min(BATCH, |queue|)
  {
    Min(accepted, Min(BATCH, |queue|))
  }

  function After(ops: seq<Op>, maxBytes: nat): Traffic {
    if ops == [] then Traffic([], [], [])
    else
      var t := After(ops[..|ops| - 1], maxBytes);
      match ops[|ops| - 1]
      case Produce(data) =>
        t.(queue := Pushed(t.queue, data, maxBytes), produced := t.produced + if data == [] then [] else [data])
      case Batch(accepted) =>
        var n, p := Min(BATCH, |t.queue|), Sent(t.queue, accepted);
        t.(queue := Requeued(t.queue, n, p), delivered := t.delivered + t.queue[..p])
  }

  /** The guard of the eviction loop in a push. */
  predicate Evicts(queue: seq<Bytes>, data: Bytes, maxBytes: nat) {
    data != [] && queue != [] && Total(queue) + |data| > maxBytes
  }

  /** The operation at `i` is a push that evicts. */
  predicate FullAt(ops: seq<Op>, i: nat, maxBytes: nat)
    requires i < |ops|
  {
    ops[i].Produce? && Evicts(After(ops[..i], maxBytes).queue, ops[i].data, maxBytes)
  }

  /** No push of the run evicts. */
  ghost predicate NeverFull(ops: seq<Op>, maxBytes: nat) {
    forall i | 0 <= i < |ops| :: !FullAt(ops, i, maxBytes)
  }

  /** While no producer pushes between a drain and the end of its batch: over any run of pushes and failing batches, of
      any length, the delivered and the queued entries are together exactly the produced ones if and only if no push
      found the queue too full. */
  lemma RunConserves(ops: seq<Op>, maxBytes: nat)
    ensures var t := After(ops, maxBytes);
            multiset(t.delivered) + multiset(t.queue) == multiset(t.produced) <==> NeverFull(ops, maxBytes)
  {
    var t := After(ops, maxBytes);
    RunBalance(ops, maxBytes);
    if multiset(t.delivered) + multiset(t.queue) == multiset(t.produced) {
      assert |multiset(t.delivered) + multiset(t.queue)| == |t.delivered| + |t.queue|;
      assert |multiset(t.produced)| == |t.produced|;
    }
  }

  /** An eviction leaves a deficit that no later step makes up. */
  lemma {:induction false} RunBalance(ops: seq<Op>, maxBytes: nat)
    ensures var t := After(ops, maxBytes);
            && |t.delivered| + |t.queue| <= |t.produced|
            && (NeverFull(ops, maxBytes) ==> multiset(t.delivered) + multiset(t.queue) == multiset(t.produced))
            && (!NeverFull(ops, maxBytes) ==> |t.delivered| + |t.queue| < |t.produced|)
  {
    if ops != [] {
      var n := |ops| - 1;
      var t := After(ops[..n], maxBytes);
      RunBalance(ops[..n], maxBytes);
      NeverFullGrows(ops, maxBytes);
      match ops[n]
      case Produce(data) =>
        if data != [] {
          ProduceMoves(t, data, maxBytes);
        }
      case Batch(accepted) =>
        BatchMoves(t, Min(BATCH, |t.queue|), Sent(t.queue, accepted));
    }
  }

  lemma NeverFullGrows(ops: seq<Op>, maxBytes: nat)
    requires ops != []
    ensures var n := |ops| - 1;
            && (NeverFull(ops, maxBytes) <==> NeverFull(ops[..n], maxBytes) && !FullAt(ops, n, maxBytes))
            && (FullAt(ops, n, maxBytes) <==>
                  ops[n].Produce? && Evicts(After(ops[..n], maxBytes).queue, ops[n].data, maxBytes))
  {
    var n := |ops| - 1;
    var front := ops[..n];
    forall i | 0 <= i < n
      ensures FullAt(front, i, maxBytes) == FullAt(ops, i, maxBytes)
    {
      assert front[..i] == ops[..i];
    }
    if NeverFull(front, maxBytes) && !FullAt(ops, n, maxBytes) {
      forall i | 0 <= i < |ops|
        ensures !FullAt(ops, i, maxBytes)
      {
        if i < n {
          assert !FullAt(front, i, maxBytes);
        }
      }
    }
  }

  lemma ProduceMoves(t: Traffic, data: Bytes, maxBytes: nat)
    requires data != []
    ensures !Evicts(t.queue, data, maxBytes) ==>
              && Pushed(t.queue, data, maxBytes) == t.queue + [data]
              && multiset(t.queue + [data]) == multiset(t.queue) + multiset{data}
    ensures Evicts(t.queue, data, maxBytes) ==> |Pushed(t.queue, data, maxBytes)| <= |t.queue|
    ensures multiset(t.produced + [data]) == multiset(t.produced) + multiset{data}
  {
    if Evicts(t.queue, data, maxBytes) {
      FittingIsLongest(t.queue[1..], maxBytes - |data|, 0);
    }
  }

  lemma BatchMoves(t: Traffic, n: nat, p: nat)
    requires p <= n <= |t.queue|
    ensures var queue, delivered := Requeued(t.queue, n, p), t.delivered + t.queue[..p];
            && multiset(delivered) + multiset(queue) == multiset(t.delivered) + multiset(t.queue)
            && |delivered| + |queue| == |t.delivered| + |t.queue|
  {
    BatchConserves(t.queue, n, p);
  }

  // ----- interleaved batches -----

  /** One critical section of the queue, or one request. */
  datatype Step = Push(data: Bytes) | Take | Send(ok: bool) | PutBack

  /** `failing` says that a request of the batch failed and what is still in flight is being put back. */
  datatype Flow = Flow(queue: seq<Bytes>, inFlight: seq<Bytes>, failing: bool, delivered: seq<Bytes>,
                       produced: seq<Bytes>)

  const START := Flow([], [], false, [], [])

  /** What a step pushes. */
  function Entry(t: Flow, step: Step): Bytes {
    match step
    case Push(data) => data
    case PutBack => if t.failing && t.inFlight != [] then t.inFlight[0] else []
    case _ => []
  }

  /** A step that is not enabled changes nothing. */
  function Next(t: Flow, step: Step, maxBytes: nat): Flow {
    var queue := Pushed(t.queue, Entry(t, step), maxBytes);
    match step
    case Push(data) => t.(queue := queue, produced := t.produced + if data == [] then [] else [data])
    case Take =>
      if t.inFlight != [] then t
      else
        var n := Min(BATCH, |t.queue|);
        t.(queue := t.queue[n..], inFlight := t.queue[..n])
    case Send(ok) =>
      if t.failing || t.inFlight == [] then t
      else if ok then t.(inFlight := t.inFlight[1..], delivered := t.delivered + [t.inFlight[0]])
      else t.(failing := true)
    case PutBack =>
      if !t.failing || t.inFlight == [] then t
      else t.(queue := queue, inFlight := t.inFlight[1..], failing := |t.inFlight| > 1)
  }

  function Run(t: Flow, steps: seq<Step>, maxBytes: nat): Flow {
    if steps == [] then t else Next(Run(t, steps[..|steps| - 1], maxBytes), steps[|steps| - 1], maxBytes)
  }

  function Reached(steps: seq<Step>, maxBytes: nat): Flow {
    Run(START, steps, maxBytes)
  }

  predicate StepEvicts(t: Flow, step: Step, maxBytes: nat) {
    Evicts(t.queue, Entry(t, step), maxBytes)
  }

  predicate EvictsAt(steps: seq<Step>, i: nat, maxBytes: nat)
    requires i < |steps|
  {
    StepEvicts(Reached(steps[..i], maxBytes), steps[i], maxBytes)
  }

  /** No push of the run, be it a producer's or a push-back, evicts. */
  ghost predicate NoPushEvicts(steps: seq<Step>, maxBytes: nat) {
    forall i | 0 <= i < |steps| :: !EvictsAt(steps, i, maxBytes)
  }

  /** Over any interleaving of producers with batches that fail anywhere, what is delivered, in flight and queued is
      together exactly what was produced if and only if no push, a producer's or a push-back, found the queue too
      full. */
  lemma InterleavedRunConserves(steps: seq<Step>, maxBytes: nat)
    ensures var t := Reached(steps, maxBytes);
            multiset(t.delivered) + multiset(t.inFlight) + multiset(t.queue) == multiset(t.produced)
            <==> NoPushEvicts(steps, maxBytes)
  {
    var t := Reached(steps, maxBytes);
    var held := multiset(t.delivered) + multiset(t.inFlight) + multiset(t.queue);
    InterleavedSize(steps, maxBytes);
    if NoPushEvicts(steps, maxBytes) {
      forall x: Bytes
        ensures held[x] == multiset(t.produced)[x]
      {
        InterleavedBalance(steps, x, maxBytes);
      }
    } else {
      assert |held| == Held(t) && |multiset(t.produced)| == |t.produced|;
    }
  }

  function Held(t: Flow): nat {
    |t.delivered| + |t.inFlight| + |t.queue|
  }

  /** How often an entry is delivered, in flight or queued. */
  function Copies(t: Flow, x: Bytes): nat {
    multiset(t.delivered)[x] + multiset(t.inFlight)[x] + multiset(t.queue)[x]
  }

  ghost predicate Sound(t: Flow) {
    NoneEmpty(t.queue) && NoneEmpty(t.inFlight) && (t.failing ==> t.inFlight != [])
  }

  lemma {:induction false} InterleavedBalance(steps: seq<Step>, x: Bytes, maxBytes: nat)
    requires NoPushEvicts(steps, maxBytes)
    ensures var t := Reached(steps, maxBytes); Copies(t, x) == multiset(t.produced)[x]
  {
    if steps != [] {
      var front := steps[..|steps| - 1];
      NoPushEvictsGrows(steps, maxBytes);
      InterleavedBalance(front, x, maxBytes);
      InterleavedSize(front, maxBytes);
      StepBalance(Reached(front, maxBytes), steps[|steps| - 1], x, maxBytes);
    }
  }

  /** An eviction leaves a deficit that no later step makes up. */
  lemma {:induction false} InterleavedSize(steps: seq<Step>, maxBytes: nat)
    ensures var t := Reached(steps, maxBytes);
            && Sound(t) && Held(t) <= |t.produced|
            && (!NoPushEvicts(steps, maxBytes) ==> Held(t) < |t.produced|)
  {
    if steps != [] {
      var front := steps[..|steps| - 1];
      NoPushEvictsGrows(steps, maxBytes);
      InterleavedSize(front, maxBytes);
      StepSize(Reached(front, maxBytes), steps[|steps| - 1], maxBytes);
    }
  }

  lemma NoPushEvictsGrows(steps: seq<Step>, maxBytes: nat)
    requires steps != []
    ensures var n := |steps| - 1;
            && (NoPushEvicts(steps, maxBytes) <==>
                  NoPushEvicts(steps[..n], maxBytes) && !EvictsAt(steps, n, maxBytes))
            && (EvictsAt(steps, n, maxBytes) <==>
                  StepEvicts(Reached(steps[..n], maxBytes), steps[n], maxBytes))
  {
    var n := |steps| - 1;
    var front := steps[..n];
    forall i | 0 <= i < n
      ensures EvictsAt(front, i, maxBytes) == EvictsAt(steps, i, maxBytes)
    {
      assert front[..i] == steps[..i];
    }
    if NoPushEvicts(front, maxBytes) && !EvictsAt(steps, n, maxBytes) {
      forall i | 0 <= i < |steps|
        ensures !EvictsAt(steps, i, maxBytes)
      {
        if i < n {
          assert !EvictsAt(front, i, maxBytes);
        }
      }
    }
  }

  lemma StepSize(t: Flow, step: Step, maxBytes: nat)
    requires Sound(t)
    ensures var u := Next(t, step, maxBytes);
            && Sound(u)
            && |u.produced| - |t.produced| >= Held(u) - Held(t)
            && (StepEvicts(t, step, maxBytes) ==> |u.produced| - |t.produced| > Held(u) - Held(t))
  {
    PushMoves(t.queue, Entry(t, step), maxBytes);
  }

  /** A step that does not evict only moves entries. */
  lemma StepBalance(t: Flow, step: Step, x: Bytes, maxBytes: nat)
    requires Sound(t) && !StepEvicts(t, step, maxBytes)
    ensures var u := Next(t, step, maxBytes);
            Copies(u, x) - Copies(t, x) == multiset(u.produced)[x] - multiset(t.produced)[x]
  {
    if step.Push? {
      PushMoves(t.queue, step.data, maxBytes);
      Appended(t.queue, step.data, x);
      Appended(t.produced, step.data, x);
    } else if step.Take? {
      CutInTwo(t.queue, Min(BATCH, |t.queue|), x);
    } else if t.inFlight != [] {
      FlightBalance(t, step, x, maxBytes);
    }
  }

  lemma FlightBalance(t: Flow, step: Step, x: Bytes, maxBytes: nat)
    requires Sound(t) && !StepEvicts(t, step, maxBytes) && t.inFlight != []
    requires step.Send? || step.PutBack?
    ensures var u := Next(t, step, maxBytes); u.produced == t.produced && Copies(u, x) == Copies(t, x)
  {
    if step.Send? {
      FirstLeaves(t.inFlight, x);
      Appended(t.delivered, t.inFlight[0], x);
    } else if t.failing {
      PutBackBalance(t, step, x, maxBytes);
    }
  }

  lemma PutBackBalance(t: Flow, step: Step, x: Bytes, maxBytes: nat)
    requires Sound(t) && !StepEvicts(t, step, maxBytes) && t.inFlight != [] && step.PutBack? && t.failing
    ensures var u := Next(t, step, maxBytes); u.produced == t.produced && Copies(u, x) == Copies(t, x)
  {
    FirstLeaves(t.inFlight, x);
    PushMoves(t.queue, t.inFlight[0], maxBytes);
    Appended(t.queue, t.inFlight[0], x);
  }

  lemma FirstLeaves<T>(s: seq<T>, x: T)
    requires s != []
    ensures multiset(s)[x] == multiset(s[1..])[x] + if x == s[0] then 1 else 0
  {
    assert s == [s[0]] + s[1..];
  }

  lemma Appended<T>(s: seq<T>, y: T, x: T)
    ensures multiset(s + [y])[x] == multiset(s)[x] + if x == y then 1 else 0
  {
  }

  lemma CutInTwo<T>(s: seq<T>, n: nat, x: T)
    requires n <= |s|
    ensures multiset(s)[x] == multiset(s[..n])[x] + multiset(s[n..])[x]
  {
    assert s == s[..n] + s[n..];
  }

  lemma PushMoves(queue: seq<Bytes>, data: Bytes, maxBytes: nat)
    requires NoneEmpty(queue)
    ensures NoneEmpty(Pushed(queue, data, maxBytes))
    ensures Evicts(queue, data, maxBytes) ==> |Pushed(queue, data, maxBytes)| <= |queue|
    ensures !Evicts(queue, data, maxBytes) ==>
              Pushed(queue, data, maxBytes) == queue + if data == [] then [] else [data]
  {
    FittingIsLongest(queue, maxBytes - |data|, 0);
    if Evicts(queue, data, maxBytes) {
      FittingIsLongest(queue[1..], maxBytes - |data|, 0);
    }
  }

  /** The producers' pushes alone do not decide: for every limit there are runs in which none of them meets the guard
      and yet an entry is lost, because what was produced during a failing request leaves no room for what is put
      back. */
  lemma PutBackEvicts(a: Bytes, b: Bytes, maxBytes: nat) returns (steps: seq<Step>)
    requires a != [] && b != [] && |a| + |b| > maxBytes
    ensures forall i | 0 <= i < |steps| && steps[i].Push? :: !EvictsAt(steps, i, maxBytes)
    ensures Reached(steps, maxBytes) == Flow([a], [], false, [], [a, b])
  {
    var s1, t1 := OneMore([], START, Push(a), maxBytes);
    PushesFirst(START, a, maxBytes);
    var s2, t2 := OneMore(s1, t1, Take, maxBytes);
    TakesOne(t1, a, maxBytes);
    var s3, t3 := OneMore(s2, t2, Push(b), maxBytes);
    PushesFirst(t2, b, maxBytes);
    var s4, t4 := OneMore(s3, t3, Send(false), maxBytes);
    var t5;
    steps, t5 := OneMore(s4, t4, PutBack, maxBytes);
    ReturnsOne(t4, a, b, maxBytes);
    assert steps[..0] == [] && steps[..2] == s2;
  }

  lemma PushesFirst(t: Flow, a: Bytes, maxBytes: nat)
    requires t.queue == [] && a != []
    ensures !StepEvicts(t, Push(a), maxBytes)
    ensures Next(t, Push(a), maxBytes) == t.(queue := [a], produced := t.produced + [a])
  {
  }

  lemma TakesOne(t: Flow, a: Bytes, maxBytes: nat)
    requires t.queue == [a] && t.inFlight == []
    ensures Next(t, Take, maxBytes) == t.(queue := [], inFlight := [a])
  {
  }

  lemma ReturnsOne(t: Flow, a: Bytes, b: Bytes, maxBytes: nat)
    requires t.queue == [b] && t.inFlight == [a] && t.failing && a != [] && |a| + |b| > maxBytes
    ensures Next(t, PutBack, maxBytes) == t.(queue := [a], inFlight := [], failing := false)
  {
    MakesRoom(a, b, maxBytes);
  }

  lemma MakesRoom(a: Bytes, b: Bytes, maxBytes: nat)
    requires a != [] && |a| + |b| > maxBytes
    ensures Pushed([b], a, maxBytes) == [a]
  {
    assert [b][1..] == [] && Total([b]) == |b|;
    assert Fitting([b], maxBytes - |a|) == Fitting([], maxBytes - |a|);
  }

  lemma OneMore(steps: seq<Step>, t: Flow, step: Step, maxBytes: nat) returns (more: seq<Step>, u: Flow)
    requires Reached(steps, maxBytes) == t
    ensures more == steps + [step] && u == Next(t, step, maxBytes) == Reached(more, maxBytes)
  {
    more, u := steps + [step], Next(t, step, maxBytes);
    assert more[..|more| - 1] == steps;
  }

  /** A producer's push leaves room for everything that is queued or may still be put back. */
  ghost predicate Roomy(steps: seq<Step>, maxBytes: nat) {
    forall i | 0 <= i < |steps| && steps[i].Push? ::
      var t := Reached(steps[..i], maxBytes);
      Total(t.queue) + Total(t.inFlight) + |steps[i].data| <= maxBytes
  }

  /** A limit on producers that rules the losses out: count the batch in flight as if it were still queued. */
  lemma {:induction false} RoomyRunsLoseNothing(steps: seq<Step>, maxBytes: nat)
    requires Roomy(steps, maxBytes)
    ensures NoPushEvicts(steps, maxBytes)
    ensures var t := Reached(steps, maxBytes); Total(t.queue) + Total(t.inFlight) <= maxBytes
  {
    if steps != [] {
      var n := |steps| - 1;
      var front := steps[..n];
      assert forall i | 0 <= i < n :: front[..i] == steps[..i] && front[i] == steps[i];
      RoomyRunsLoseNothing(front, maxBytes);
      NoPushEvictsGrows(steps, maxBytes);
      RoomyStep(Reached(front, maxBytes), steps[n], maxBytes);
    }
  }

  lemma RoomyStep(t: Flow, step: Step, maxBytes: nat)
    requires Total(t.queue) + Total(t.inFlight) <= maxBytes
    requires step.Push? ==> Total(t.queue) + Total(t.inFlight) + |step.data| <= maxBytes
    ensures !StepEvicts(t, step, maxBytes)
    ensures var u := Next(t, step, maxBytes); Total(u.queue) + Total(u.inFlight) <= maxBytes
  {
    var n := Min(BATCH, |t.queue|);
    TotalAppend(t.queue[..n], t.queue[n..]);
    assert t.queue == t.queue[..n] + t.queue[n..];
    TotalAppend(t.queue, [Entry(t, step)]);
  }

  // ----- a batch that nobody interrupts -----

  function Repeated(step: Step, k: nat): (steps: seq<Step>)
    ensures |steps| == k
  {
    if k == 0 then [] else Repeated(step, k - 1) + [step]
  }

  /** A batch of `n` entries of which the first `p` get through. */
  function BatchSteps(n: nat, p: nat): seq<Step>
    requires p <= n
  {
    [Take] + Repeated(Send(true), p) + if p < n then [Send(false)] + Repeated(PutBack, n - p) else []
  }

  lemma {:induction false} RunThen(t: Flow, a: seq<Step>, b: seq<Step>, maxBytes: nat)
    ensures Run(t, a + b, maxBytes) == Run(Run(t, a, maxBytes), b, maxBytes)
  {
    if b == [] {
      assert a + b == a;
    } else {
      var n := |b| - 1;
      assert (a + b)[..|a + b| - 1] == a + b[..n];
      RunThen(t, a, b[..n], maxBytes);
    }
  }

  lemma RunOneMore(t: Flow, step: Step, k: nat, maxBytes: nat)
    ensures Run(t, Repeated(step, k + 1), maxBytes) == Next(Run(t, Repeated(step, k), maxBytes), step, maxBytes)
  {
    assert Repeated(step, k + 1)[..k] == Repeated(step, k);
  }

  /** The state after `k` entries are sent. */
  function Dispatched(t: Flow, k: nat): Flow
    requires k <= |t.inFlight|
  {
    t.(inFlight := t.inFlight[k..], delivered := t.delivered + t.inFlight[..k])
  }

  lemma {:induction false} SendsDeliver(t: Flow, k: nat, maxBytes: nat)
    requires !t.failing && k <= |t.inFlight|
    ensures Run(t, Repeated(Send(true), k), maxBytes) == Dispatched(t, k)
  {
    if k > 0 {
      SendsDeliver(t, k - 1, maxBytes);
      RunOneMore(t, Send(true), k - 1, maxBytes);
      SendsOne(t, k - 1, maxBytes);
    }
  }

  lemma SendsOne(t: Flow, k: nat, maxBytes: nat)
    requires !t.failing && k < |t.inFlight|
    ensures Next(Dispatched(t, k), Send(true), maxBytes) == Dispatched(t, k + 1)
  {
    assert t.inFlight[..k + 1] == t.inFlight[..k] + [t.inFlight[k]];
    assert t.inFlight[k..][1..] == t.inFlight[k + 1..];
  }

  /** The state after `k` entries are put back. */
  function Returned(t: Flow, k: nat, maxBytes: nat): Flow
    requires k <= |t.inFlight|
  {
    t.(queue := PushedAll(t.queue, t.inFlight[..k], maxBytes), inFlight := t.inFlight[k..],
       failing := k < |t.inFlight|)
  }

  lemma {:induction false} PutsBack(t: Flow, k: nat, maxBytes: nat)
    requires t.failing && k <= |t.inFlight| && t.inFlight != []
    ensures Run(t, Repeated(PutBack, k), maxBytes) == Returned(t, k, maxBytes)
  {
    if k > 0 {
      PutsBack(t, k - 1, maxBytes);
      RunOneMore(t, PutBack, k - 1, maxBytes);
      PutsOneBack(t, k - 1, maxBytes);
    }
  }

  lemma PutsOneBack(t: Flow, k: nat, maxBytes: nat)
    requires t.failing && k < |t.inFlight|
    ensures Next(Returned(t, k, maxBytes), PutBack, maxBytes) == Returned(t, k + 1, maxBytes)
  {
    assert t.inFlight[..k + 1] == t.inFlight[..k] + [t.inFlight[k]];
    PushedAllThen(t.queue, t.inFlight[..k], t.inFlight[k], maxBytes);
    assert t.inFlight[k..][1..] == t.inFlight[k + 1..];
  }

  lemma {:induction false} PushedAllThen(s: seq<Bytes>, more: seq<Bytes>, data: Bytes, maxBytes: nat)
    ensures PushedAll(s, more + [data], maxBytes) == Pushed(PushedAll(s, more, maxBytes), data, maxBytes)
    decreases |more|
  {
    if more == [] {
      assert more + [data] == [data];
    } else {
      PushedAllThen(Pushed(s, more[0], maxBytes), more[1..], data, maxBytes);
      assert (more + [data])[1..] == more[1..] + [data];
    }
  }

  /** Left alone, the steps of a batch do what `SendBatch` does. */
  lemma UninterruptedBatch(t: Flow, n: nat, p: nat, maxBytes: nat)
    requires t.inFlight == [] && !t.failing && NoneEmpty(t.queue) && Bounded(t.queue, maxBytes)
    requires p <= n == Min(BATCH, |t.queue|)
    ensures Run(t, BatchSteps(n, p), maxBytes)
         == t.(queue := Requeued(t.queue, n, p), delivered := t.delivered + t.queue[..p])
  {
    var sends := [Take] + Repeated(Send(true), p);
    var sent := t.(queue := t.queue[n..], inFlight := t.queue[p..n], delivered := t.delivered + t.queue[..p]);
    TakeAndSend(t, n, p, maxBytes);
    if p < n {
      RunThen(t, sends, [Send(false)] + Repeated(PutBack, n - p), maxBytes);
      FailAndReturn(sent, maxBytes);
      BatchFits(t.queue, n, p, maxBytes);
    } else {
      assert BatchSteps(n, p) == sends;
    }
  }

  lemma TakeAndSend(t: Flow, n: nat, p: nat, maxBytes: nat)
    requires t.inFlight == [] && !t.failing && p <= n == Min(BATCH, |t.queue|)
    ensures Run(t, [Take] + Repeated(Send(true), p), maxBytes)
         == t.(queue := t.queue[n..], inFlight := t.queue[p..n], delivered := t.delivered + t.queue[..p])
  {
    RunThen(t, [Take], Repeated(Send(true), p), maxBytes);
    RunOne(t, Take, maxBytes);
    SendsDeliver(Next(t, Take, maxBytes), p, maxBytes);
    assert t.queue[..n][..p] == t.queue[..p] && t.queue[..n][p..] == t.queue[p..n];
  }

  lemma FailAndReturn(t: Flow, maxBytes: nat)
    requires t.inFlight != [] && !t.failing
    ensures Run(t, [Send(false)] + Repeated(PutBack, |t.inFlight|), maxBytes)
         == t.(queue := PushedAll(t.queue, t.inFlight, maxBytes), inFlight := [])
  {
    var k := |t.inFlight|;
    RunThen(t, [Send(false)], Repeated(PutBack, k), maxBytes);
    RunOne(t, Send(false), maxBytes);
    PutsBack(Next(t, Send(false), maxBytes), k, maxBytes);
    assert t.inFlight[..k] == t.inFlight && t.inFlight[k..] == [];
  }

  lemma RunOne(t: Flow, step: Step, maxBytes: nat)
    ensures Run(t, [step], maxBytes) == Next(t, step, maxBytes)
  {
    assert [step][..0] == [];
  }

  /** Every run of whole batches is a run of the interleaved machine. */
  lemma {:induction false} WholeBatchesAreRuns(ops: seq<Op>, maxBytes: nat) returns (steps: seq<Step>)
    ensures Reached(steps, maxBytes) == AtRest(After(ops, maxBytes))
    ensures NoneEmpty(After(ops, maxBytes).queue) && Bounded(After(ops, maxBytes).queue, maxBytes)
  {
    steps := [];
    if ops != [] {
      var t, op := After(ops[..|ops| - 1], maxBytes), ops[|ops| - 1];
      var front := WholeBatchesAreRuns(ops[..|ops| - 1], maxBytes);
      if op.Produce? {
        var u;
        steps, u := OneMore(front, AtRest(t), Push(op.data), maxBytes);
        PushKeepsShape(t.queue, op.data, maxBytes);
      } else {
        var n, p := Min(BATCH, |t.queue|), Sent(t.queue, op.accepted);
        UninterruptedBatch(AtRest(t), n, p, maxBytes);
        RunThen(START, front, BatchSteps(n, p), maxBytes);
        RequeuedKeepsShape(t.queue, n, p, maxBytes);
        steps := front + BatchSteps(n, p);
      }
    }
  }

  /** No batch is in flight. */
  function AtRest(t: Traffic): Flow {
    Flow(t.queue, [], false, t.delivered, t.produced)
  }

  lemma PushKeepsShape(s: seq<Bytes>, data: Bytes, maxBytes: nat)
    requires NoneEmpty(s) && Bounded(s, maxBytes)
    ensures NoneEmpty(Pushed(s, data, maxBytes)) && Bounded(Pushed(s, data, maxBytes), maxBytes)
  {
    PushMoves(s, data, maxBytes);
    if data != [] {
      PushKeepsLongestSuffix(s, data, maxBytes, 0);
    }
  }

  lemma RequeuedKeepsShape(s: seq<Bytes>, n: nat, p: nat, maxBytes: nat)
    requires p <= n <= |s| && NoneEmpty(s) && Bounded(s, maxBytes)
    ensures NoneEmpty(Requeued(s, n, p)) && Bounded(Requeued(s, n, p), maxBytes)
  {
    RequeuedIsNoLarger(s, n, p);
  }

  lemma RequeuedIsNoLarger(s: seq<Bytes>, n: nat, p: nat)
    requires p <= n <= |s|
    ensures Total(Requeued(s, n, p)) <= Total(s)
  {
    TotalAppend(s[n..], s[p..n]);
    InThree(s, p, n);
    TotalAppend(s[..p] + s[p..n], s[n..]);
    TotalAppend(s[..p], s[p..n]);
  }

  lemma InThree<T>(s: seq<T>, p: nat, n: nat)
    requires p <= n <= |s|
    ensures s == s[..p] + s[p..n] + s[n..]
  {
  }
}
