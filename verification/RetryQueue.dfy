/** Webhook delivery: a first attempt by a worker, then a queue of retries that backs off and gives up. */
module RetryQueue {
  import opened Doubling
  import opened RealArithmetic

  datatype DeliveryStatus = Delivered | Retrying | Dead

  /** A notification to deliver; `job` tells apart what the source tells apart by identity. */
  datatype Task = Task(job: int, attempt: int, lastStatus: int)

  /** The telemetry of one attempt; status code 0 stands for a request that got no response. */
  datatype Diagnostic = Diagnostic(job: int, status: DeliveryStatus, retryAttempt: int, statusCode: int)

  predicate Success(code: int) {
    200 <= code < 300
  }

  /** How many attempts a task has left. */
  function Left(attempt: int, maxAttempts: int): (n: nat)
    ensures n >= 1
  {
    if attempt > maxAttempts then 1 else maxAttempts - attempt + 1
  }

  /** What an attempt reports. */
  function Report(t: Task, code: int, maxAttempts: int): Diagnostic {
    if Success(code) then Diagnostic(t.job, Delivered, t.attempt, code)
    else if t.attempt + 1 > maxAttempts then Diagnostic(t.job, Dead, t.attempt, code)
    else Diagnostic(t.job, Retrying, t.attempt + 1, code)
  }

  /** What an attempt puts back. */
  function Requeue(t: Task, code: int, maxAttempts: int): seq<Task> {
    if Success(code) || t.attempt + 1 > maxAttempts then [] else [Task(t.job, t.attempt + 1, code)]
  }

  /** Attempts left over the whole queue. */
  function Work(tasks: seq<Task>, maxAttempts: int): nat {
    if tasks == [] then 0 else Left(tasks[0].attempt, maxAttempts) + Work(tasks[1..], maxAttempts)
  }

  lemma {:induction false} WorkAppend(a: seq<Task>, b: seq<Task>, maxAttempts: int)
    ensures Work(a + b, maxAttempts) == Work(a, maxAttempts) + Work(b, maxAttempts)
  {
    if a == [] {
      assert a + b == b;
    } else {
      WorkAppend(a[1..], b, maxAttempts);
      assert (a + b)[1..] == a[1..] + b;
    }
  }

  function AfterAttempt(tasks: seq<Task>, code: int, maxAttempts: int): seq<Task>
    requires tasks != []
  {
    tasks[1..] + Requeue(tasks[0], code, maxAttempts)
  }

  /** Every attempt uses up one of the attempts left. */
  lemma WorkDecreases(tasks: seq<Task>, code: int, maxAttempts: int)
    requires tasks != []
    ensures Work(AfterAttempt(tasks, code, maxAttempts), maxAttempts) < Work(tasks, maxAttempts)
  {
    var back := Requeue(tasks[0], code, maxAttempts);
    WorkAppend(tasks[1..], back, maxAttempts);
    if back != [] {
      assert Work(back, maxAttempts) == Left(back[0].attempt, maxAttempts) + Work(back[1..], maxAttempts);
    }
  }

  /** What the queue reports when it is drained: attempt `i` from now on gets status `outcome(k + i)`. */
  function Drained(tasks: seq<Task>, outcome: nat -> int, k: nat, maxAttempts: int): seq<Diagnostic>
    decreases Work(tasks, maxAttempts)
  {
    if tasks == [] then []
    else
      WorkDecreases(tasks, outcome(k), maxAttempts);
      [Report(tasks[0], outcome(k), maxAttempts)]
      + Drained(AfterAttempt(tasks, outcome(k), maxAttempts), outcome, k + 1, maxAttempts)
  }

  class RetryQueue {
    const maxAttempts: int
    var tasks: seq<Task>
    var diagnostics: seq<Diagnostic>

    constructor (maxAttempts: int)
      ensures this.maxAttempts == maxAttempts && tasks == [] && diagnostics == []
    {
      this.maxAttempts, tasks, diagnostics := maxAttempts, [], [];
    }

    /** One retry, its response given as a parameter. */
    method Retry(task: Task, code: int)
      modifies this
      ensures diagnostics == old(diagnostics) + [Report(task, code, maxAttempts)]
      ensures tasks == old(tasks) + Requeue(task, code, maxAttempts)
      ensures |diagnostics| == |old(diagnostics)| + 1
      ensures var d := diagnostics[|old(diagnostics)|];
              && d.job == task.job && d.statusCode == code
              && d.status == (if 200 <= code < 300 then Delivered else if task.attempt < maxAttempts then Retrying else Dead)
              && d.retryAttempt == (if d.status == Retrying then task.attempt + 1 else task.attempt)
              && tasks == old(tasks) + if d.status == Retrying then [Task(task.job, task.attempt + 1, code)] else []
    {
      if code < 200 || code >= 300 {
        HandleFailure(task, code);
        return;
      }
      diagnostics := diagnostics + [Diagnostic(task.job, Delivered, task.attempt, code)];
    }

    method HandleFailure(task: Task, statusCode: int)
      requires !Success(statusCode)
      modifies this
      ensures diagnostics == old(diagnostics) + [Report(task, statusCode, maxAttempts)]
      ensures tasks == old(tasks) + Requeue(task, statusCode, maxAttempts)
    {
      var t := task.(attempt := task.attempt + 1, lastStatus := statusCode);
      if t.attempt > maxAttempts {
        diagnostics := diagnostics + [Diagnostic(t.job, Dead, t.attempt - 1, statusCode)];
        return;
      }
      diagnostics := diagnostics + [Diagnostic(t.job, Retrying, t.attempt, statusCode)];
      tasks := tasks + [t];
    }

    /** With no new jobs the loop empties the queue, whatever the responses, and never needs more room than it had. */
    method Loop(outcome: nat -> int)
      modifies this
      ensures tasks == []
      ensures diagnostics == old(diagnostics) + Drained(old(tasks), outcome, 0, maxAttempts)
    {
      var k := 0;
      while |tasks| > 0
        invariant |tasks| <= |old(tasks)|
        invariant diagnostics + Drained(tasks, outcome, k, maxAttempts)
               == old(diagnostics) + Drained(old(tasks), outcome, 0, maxAttempts)
        decreases Work(tasks, maxAttempts)
      {
        ghost var before, said := tasks, diagnostics;
        WorkDecreases(tasks, outcome(k), maxAttempts);
        var task := tasks[0];
        tasks := tasks[1..];
        Retry(task, outcome(k));
        assert tasks == AfterAttempt(before, outcome(k), maxAttempts);
        k := k + 1;
      }
    }
  }

  // ----- a run of arrivals and retries, then a drain -----

  /** A worker's first attempt at a job, or one turn of the retry loop. */
  datatype Action = First(job: int, code: int) | Turn(code: int)

  /** A failed first attempt is admitted to the retry queue if there is room, and dropped otherwise. */
  predicate Admits(tasks: seq<Task>, code: int, capacity: nat) {
    !Success(code) && |tasks| < capacity
  }

  function Admitted(tasks: seq<Task>, job: int, code: int, capacity: nat): seq<Task> {
    if Admits(tasks, code, capacity) then tasks + [Task(job, 1, code)] else tasks
  }

  function FirstReport(job: int, code: int): Diagnostic {
    Diagnostic(job, if Success(code) then Delivered else Retrying, 0, code)
  }

  class WebhookDispatcher {
    const capacity: nat
    const retryQueue: RetryQueue

    constructor (capacity: nat, retryQueue: RetryQueue)
      ensures this.capacity == capacity && this.retryQueue == retryQueue
    {
      this.capacity, this.retryQueue := capacity, retryQueue;
    }

    method Dispatch(job: int, code: int)
      modifies retryQueue
      ensures retryQueue.diagnostics == old(retryQueue.diagnostics) + [FirstReport(job, code)]
      ensures retryQueue.tasks == Admitted(old(retryQueue.tasks), job, code, capacity)
      ensures retryQueue.diagnostics == old(retryQueue.diagnostics)
                                        + [Diagnostic(job, if 200 <= code < 300 then Delivered else Retrying, 0, code)]
      ensures retryQueue.tasks == old(retryQueue.tasks)
                                  + if !(200 <= code < 300) && |old(retryQueue.tasks)| < capacity then [Task(job, 1, code)]
                                    else []
    {
      if code < 200 || code >= 300 {
        EnqueueRetry(job, code);
        return;
      }
      retryQueue.diagnostics := retryQueue.diagnostics + [Diagnostic(job, Delivered, 0, code)];
    }

    method EnqueueRetry(job: int, code: int)
      requires !Success(code)
      modifies retryQueue
      ensures retryQueue.diagnostics == old(retryQueue.diagnostics) + [FirstReport(job, code)]
      ensures retryQueue.tasks == Admitted(old(retryQueue.tasks), job, code, capacity)
    {
      retryQueue.diagnostics := retryQueue.diagnostics + [Diagnostic(job, Retrying, 0, code)];
      if |retryQueue.tasks| < capacity {
        retryQueue.tasks := retryQueue.tasks + [Task(job, 1, code)];
      }
    }
  }

  /** Everything reported by a run of actions followed by a drain. */
  function Run(tasks: seq<Task>, actions: seq<Action>, outcome: nat -> int, capacity: nat, maxAttempts: int):
    seq<Diagnostic>
    decreases |actions|
  {
    if actions == [] then Drained(tasks, outcome, 0, maxAttempts)
    else
      match actions[0]
      case First(job, code) =>
        [FirstReport(job, code)]
        + Run(Admitted(tasks, job, code, capacity), actions[1..], outcome, capacity, maxAttempts)
      case Turn(code) =>
        if tasks == [] then Run(tasks, actions[1..], outcome, capacity, maxAttempts)
        else
          [Report(tasks[0], code, maxAttempts)]
          + Run(AfterAttempt(tasks, code, maxAttempts), actions[1..], outcome, capacity, maxAttempts)
  }

  /** What was reported about one job. */
  function History(log: seq<Diagnostic>, job: int): seq<Diagnostic> {
    if log == [] then []
    else (if log[0].job == job then [log[0]] else []) + History(log[1..], job)
  }

  lemma HistoryCons(d: Diagnostic, log: seq<Diagnostic>, job: int)
    ensures History([d] + log, job) == (if d.job == job then [d] else []) + History(log, job)
  {
    assert ([d] + log)[1..] == log;
  }

  /** The retries of one task from `attempt` on: failures reported as retrying, one final report, which is DELIVERED
      on success and DEAD_LETTER once every attempt it had is used up. */
  ghost predicate WellEnded(h: seq<Diagnostic>, attempt: int, maxAttempts: int) {
    && 1 <= |h| <= Left(attempt, maxAttempts)
    && (forall i | 0 <= i < |h| - 1 ::
          h[i].status == Retrying && h[i].retryAttempt == attempt + i + 1 && !Success(h[i].statusCode))
    && var last := h[|h| - 1];
       && last.retryAttempt == attempt + |h| - 1
       && last.status == (if Success(last.statusCode) then Delivered else Dead)
       && (last.status == Dead ==> |h| == Left(attempt, maxAttempts))
  }

  /** Task `i` of the queue is the only one of its job. */
  ghost predicate Sole(tasks: seq<Task>, i: nat) {
    i < |tasks| && forall k | 0 <= k < |tasks| && k != i :: tasks[k].job != tasks[i].job
  }

  ghost predicate Absent(tasks: seq<Task>, job: int) {
    forall k | 0 <= k < |tasks| :: tasks[k].job != job
  }

  lemma EndedOneLater(d: Diagnostic, h: seq<Diagnostic>, attempt: int, maxAttempts: int)
    requires WellEnded(h, attempt + 1, maxAttempts) && attempt + 1 <= maxAttempts
    requires d.status == Retrying && d.retryAttempt == attempt + 1 && !Success(d.statusCode)
    ensures WellEnded([d] + h, attempt, maxAttempts)
  {
    var all := [d] + h;
    assert all[|all| - 1] == h[|h| - 1];
    assert forall i | 1 <= i < |all| :: all[i] == h[i - 1];
  }

  /** One attempt: either it ends the history of the first in the queue, or sends it to the back. */
  lemma AttemptMoves(tasks: seq<Task>, i: nat, code: int, maxAttempts: int)
    requires Sole(tasks, i)
    ensures var after, t := AfterAttempt(tasks, code, maxAttempts), tasks[i];
            var back := Requeue(tasks[0], code, maxAttempts);
            && (i > 0 ==> Sole(after, i - 1) && after[i - 1] == t && tasks[0].job != t.job)
            && (i == 0 && back == [] ==> Absent(after, t.job) && WellEnded([Report(t, code, maxAttempts)], t.attempt, maxAttempts))
            && (i == 0 && back != [] ==>
                  Sole(after, |tasks| - 1) && after[|tasks| - 1] == Task(t.job, t.attempt + 1, code))
  {
    var after := AfterAttempt(tasks, code, maxAttempts);
    if i > 0 {
      assert forall k | 0 <= k < |tasks| - 1 :: after[k] == tasks[k + 1];
    }
  }

  lemma {:induction false} AbsentInDrain(tasks: seq<Task>, outcome: nat -> int, k: nat, maxAttempts: int, job: int)
    requires Absent(tasks, job)
    ensures History(Drained(tasks, outcome, k, maxAttempts), job) == []
    decreases Work(tasks, maxAttempts)
  {
    if tasks != [] {
      var after := AfterAttempt(tasks, outcome(k), maxAttempts);
      WorkDecreases(tasks, outcome(k), maxAttempts);
      AbsentInDrain(after, outcome, k + 1, maxAttempts, job);
      HistoryCons(Report(tasks[0], outcome(k), maxAttempts), Drained(after, outcome, k + 1, maxAttempts), job);
    }
  }

  /** Draining ends every task well. */
  lemma {:induction false} DrainEndsWell(tasks: seq<Task>, i: nat, outcome: nat -> int, k: nat, maxAttempts: int)
    requires Sole(tasks, i)
    ensures WellEnded(History(Drained(tasks, outcome, k, maxAttempts), tasks[i].job), tasks[i].attempt, maxAttempts)
    decreases Work(tasks, maxAttempts)
  {
    var job, code := tasks[i].job, outcome(k);
    var after := AfterAttempt(tasks, code, maxAttempts);
    WorkDecreases(tasks, code, maxAttempts);
    AttemptMoves(tasks, i, code, maxAttempts);
    if i > 0 {
      DrainEndsWell(after, i - 1, outcome, k + 1, maxAttempts);
    } else if Requeue(tasks[0], code, maxAttempts) == [] {
      AbsentInDrain(after, outcome, k + 1, maxAttempts, job);
    } else {
      DrainEndsWell(after, |tasks| - 1, outcome, k + 1, maxAttempts);
    }
    HistoryAfterAttempt(tasks, i, code, maxAttempts, Drained(after, outcome, k + 1, maxAttempts));
  }

  /** What an attempt adds to the history of task `i`, given how the rest of the log ends. */
  lemma HistoryAfterAttempt(tasks: seq<Task>, i: nat, code: int, maxAttempts: int, rest: seq<Diagnostic>)
    requires Sole(tasks, i)
    requires var t, back, h := tasks[i], Requeue(tasks[0], code, maxAttempts), History(rest, tasks[i].job);
             && (i > 0 ==> WellEnded(h, t.attempt, maxAttempts))
             && (i == 0 && back == [] ==> h == [])
             && (i == 0 && back != [] ==> WellEnded(h, t.attempt + 1, maxAttempts))
    ensures WellEnded(History([Report(tasks[0], code, maxAttempts)] + rest, tasks[i].job), tasks[i].attempt, maxAttempts)
  {
    var t, report := tasks[i], Report(tasks[0], code, maxAttempts);
    HistoryCons(report, rest, t.job);
    if i == 0 {
      if Requeue(t, code, maxAttempts) == [] {
        AttemptMoves(tasks, i, code, maxAttempts);
        assert [report] + [] == [report];
      } else {
        EndedOneLater(report, History(rest, t.job), t.attempt, maxAttempts);
      }
    }
  }

  ghost predicate NotTried(actions: seq<Action>, job: int) {
    forall k | 0 <= k < |actions| && actions[k].First? :: actions[k].job != job
  }

  lemma {:induction false} AbsentInRun(tasks: seq<Task>, actions: seq<Action>, outcome: nat -> int, capacity: nat,
                                       maxAttempts: int, job: int)
    requires Absent(tasks, job) && NotTried(actions, job)
    ensures History(Run(tasks, actions, outcome, capacity, maxAttempts), job) == []
    decreases |actions|
  {
    if actions == [] {
      AbsentInDrain(tasks, outcome, 0, maxAttempts, job);
    } else {
      var rest := actions[1..];
      match actions[0]
      case First(other, code) =>
        var after := Admitted(tasks, other, code, capacity);
        AbsentInRun(after, rest, outcome, capacity, maxAttempts, job);
        HistoryCons(FirstReport(other, code), Run(after, rest, outcome, capacity, maxAttempts), job);
      case Turn(code) =>
        if tasks == [] {
          AbsentInRun(tasks, rest, outcome, capacity, maxAttempts, job);
        } else {
          var after := AfterAttempt(tasks, code, maxAttempts);
          AbsentInRun(after, rest, outcome, capacity, maxAttempts, job);
          HistoryCons(Report(tasks[0], code, maxAttempts), Run(after, rest, outcome, capacity, maxAttempts), job);
        }
    }
  }

  /** A task in the queue ends well whatever jobs arrive in between. */
  lemma {:induction false} RunEndsWell(tasks: seq<Task>, i: nat, actions: seq<Action>, outcome: nat -> int,
                                       capacity: nat, maxAttempts: int)
    requires Sole(tasks, i) && NotTried(actions, tasks[i].job)
    ensures WellEnded(History(Run(tasks, actions, outcome, capacity, maxAttempts), tasks[i].job), tasks[i].attempt,
                      maxAttempts)
    decreases |actions|, 1
  {
    if actions == [] {
      DrainEndsWell(tasks, i, outcome, 0, maxAttempts);
    } else {
      assert actions == [actions[0]] + actions[1..];
      match actions[0]
      case First(job, code) =>
        ArrivalEndsWell(tasks, i, job, code, actions[1..], outcome, capacity, maxAttempts);
      case Turn(code) =>
        TurnEndsWell(tasks, i, code, actions[1..], outcome, capacity, maxAttempts);
    }
  }

  lemma {:induction false} ArrivalEndsWell(tasks: seq<Task>, i: nat, job: int, code: int, rest: seq<Action>,
                                           outcome: nat -> int, capacity: nat, maxAttempts: int)
    requires Sole(tasks, i) && NotTried(rest, tasks[i].job) && job != tasks[i].job
    ensures WellEnded(History(Run(tasks, [First(job, code)] + rest, outcome, capacity, maxAttempts), tasks[i].job),
                      tasks[i].attempt, maxAttempts)
    decreases |rest| + 1, 0
  {
    var after := Admitted(tasks, job, code, capacity);
    assert ([First(job, code)] + rest)[1..] == rest;
    RunEndsWell(after, i, rest, outcome, capacity, maxAttempts);
    HistoryCons(FirstReport(job, code), Run(after, rest, outcome, capacity, maxAttempts), tasks[i].job);
  }

  lemma {:induction false} TurnEndsWell(tasks: seq<Task>, i: nat, code: int, rest: seq<Action>, outcome: nat -> int,
                                        capacity: nat, maxAttempts: int)
    requires Sole(tasks, i) && NotTried(rest, tasks[i].job)
    ensures WellEnded(History(Run(tasks, [Turn(code)] + rest, outcome, capacity, maxAttempts), tasks[i].job),
                      tasks[i].attempt, maxAttempts)
    decreases |rest| + 1, 0
  {
    var after := AfterAttempt(tasks, code, maxAttempts);
    assert ([Turn(code)] + rest)[1..] == rest;
    AttemptMoves(tasks, i, code, maxAttempts);
    if i > 0 {
      RunEndsWell(after, i - 1, rest, outcome, capacity, maxAttempts);
    } else if Requeue(tasks[0], code, maxAttempts) == [] {
      AbsentInRun(after, rest, outcome, capacity, maxAttempts, tasks[i].job);
    } else {
      RunEndsWell(after, |tasks| - 1, rest, outcome, capacity, maxAttempts);
    }
    HistoryAfterAttempt(tasks, i, code, maxAttempts, Run(after, rest, outcome, capacity, maxAttempts));
  }

  /** The fate of a job: delivered at once; or admitted, and then it ends in exactly one of DELIVERED and DEAD_LETTER
      after at most `1 + max(1, maxAttempts)` requests; or dropped by a full queue without a final report. Every attempt
      is one step here; `RetryRaces` takes it apart. */
  lemma JobFate(tasks: seq<Task>, job: int, code: int, rest: seq<Action>, outcome: nat -> int, capacity: nat,
                maxAttempts: int)
    requires Absent(tasks, job) && NotTried(rest, job)
    ensures var h := History(Run(tasks, [First(job, code)] + rest, outcome, capacity, maxAttempts), job);
            && h != [] && h[0] == FirstReport(job, code)
            && (if Admits(tasks, code, capacity) then
                  WellEnded(h[1..], 1, maxAttempts) && |h| <= 1 + Left(1, maxAttempts)
                else |h| == 1)
  {
    var after := Admitted(tasks, job, code, capacity);
    var log := Run(after, rest, outcome, capacity, maxAttempts);
    assert ([First(job, code)] + rest)[1..] == rest;
    HistoryCons(FirstReport(job, code), log, job);
    if Admits(tasks, code, capacity) {
      RunEndsWell(after, |tasks|, rest, outcome, capacity, maxAttempts);
      assert ([FirstReport(job, code)] + History(log, job))[1..] == History(log, job);
    } else {
      AbsentInRun(after, rest, outcome, capacity, maxAttempts, job);
    }
  }

  // ----- backing off -----

  /** The capped exponential, in milliseconds. */
  function Cap(base: int, max: int, attempt: int): int
    requires attempt >= 1
  {
    var e := base * Pow2(attempt - 1);
    var c := if e < max then e else max;
    if c <= 0 then 1 else c
  }

  /** The pause before an attempt, in whole milliseconds; `jitter` is the random draw. */
  function Backoff(base: int, max: int, attempt: int, jitter: real): int
    requires attempt >= 1
  {
    var c := Cap(base, max, attempt) as real;
    (c + jitter * c).Floor
  }

  /** The pause is at least the capped exponential and less than twice that. */
  lemma BackoffBounds(base: int, max: int, attempt: int, jitter: real)
    requires attempt >= 1 && 0.0 <= jitter < 1.0
    ensures var c := Cap(base, max, attempt); c >= 1 && c <= Backoff(base, max, attempt, jitter) < 2 * c
  {
    JitteredFloor(Cap(base, max, attempt), jitter);
  }

  /** The pause by cases: the exponential doubles from the base delay with every attempt; it is capped at the maximum;
      and where either is not positive, one millisecond stands in. The jitter adds its share of that. */
  lemma BackoffCases(base: int, max: int, attempt: int, jitter: real)
    requires attempt >= 1 && 0.0 <= jitter < 1.0
    ensures var e, pause := base * Pow2(attempt - 1), Backoff(base, max, attempt, jitter);
            && (1 <= e <= max ==> e <= pause < 2 * e && pause as real <= e as real + jitter * e as real < pause as real + 1.0)
            && (1 <= max <= e ==>
                  max <= pause < 2 * max && pause as real <= max as real + jitter * max as real < pause as real + 1.0)
            && (e <= 0 || max <= 0 ==> pause == 1)
  {
    BackoffBounds(base, max, attempt, jitter);
  }

  lemma JitteredFloor(c: int, jitter: real)
    requires c >= 1 && 0.0 <= jitter < 1.0
    ensures c <= (c as real + jitter * c as real).Floor < 2 * c
  {
    var j := Jitter(c as real, jitter);
    FloorBounds(c, 2 * c, c as real + j);
  }

  lemma Jitter(c: real, jitter: real) returns (j: real)
    requires c >= 1.0 && 0.0 <= jitter < 1.0
    ensures j == jitter * c && 0.0 <= j < c
  {
    if jitter == 0.0 {
      return 0.0;
    }
    j := Product(jitter, c);
    var left := Product(1.0 - jitter, c);
    assert left == c - j;
  }

  lemma FloorBounds(low: int, high: int, x: real)
    requires low as real <= x < high as real
    ensures low <= x.Floor < high
  {
  }

  /** While the cap is out of reach the pauses grow strictly, whatever the draws. */
  lemma BackoffGrows(base: int, max: int, attempt: int, jitter: real, jitter': real)
    requires attempt >= 1 && base >= 1 && base * Pow2(attempt) <= max
    requires 0.0 <= jitter < 1.0 && 0.0 <= jitter' < 1.0
    ensures Backoff(base, max, attempt, jitter) < Backoff(base, max, attempt + 1, jitter')
  {
    CapDoubles(base, max, attempt);
    BackoffBounds(base, max, attempt, jitter);
    BackoffBounds(base, max, attempt + 1, jitter');
  }

  lemma CapDoubles(base: int, max: int, attempt: int)
    requires attempt >= 1 && base >= 1 && base * Pow2(attempt) <= max
    ensures Cap(base, max, attempt + 1) == 2 * Cap(base, max, attempt)
  {
    DoubleProduct(base, Pow2(attempt - 1));
  }

  lemma DoubleProduct(a: int, b: int)
    requires a >= 1 && b >= 1
    ensures a * (2 * b) == 2 * (a * b) && a * b >= 1
  {
  }
}
