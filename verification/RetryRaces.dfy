/** The retry loop when an attempt is not one step: it takes a task out of its channel, waits for the response, and puts
    the task back, while first attempts fill the channel. The loop is the channel's only reader. */
module RetryRaces {
  import opened RetryQueue

  datatype Loop = Free | Trying(task: Task) | Returning(task: Task)

  datatype Shop = Shop(tasks: seq<Task>, loop: Loop, log: seq<Diagnostic>)

  const EMPTY := Shop([], Free, [])

  /** A first attempt, or a step of the loop. */
  datatype Move = Arrive(job: int, code: int) | Take | Respond(code: int) | Return

  /** A failed first attempt is admitted if the channel has room; an unbuffered one hands over to a loop that waits. */
  predicate LetsIn(s: Shop, code: int, capacity: nat) {
    !Success(code) && if capacity == 0 then s.loop.Free? else |s.tasks| < capacity
  }

  /** A step that is not enabled changes nothing; putting a task back waits for room. */
  function Moved(s: Shop, m: Move, capacity: nat, maxAttempts: int): Shop {
    match m
    case Arrive(job, code) =>
      var told, task := s.(log := s.log + [FirstReport(job, code)]), Task(job, 1, code);
      if !LetsIn(s, code, capacity) then told
      else if capacity == 0 then told.(loop := Trying(task))
      else told.(tasks := s.tasks + [task])
    case Take => if s.loop.Free? && s.tasks != [] then s.(tasks := s.tasks[1..], loop := Trying(s.tasks[0])) else s
    case Respond(code) =>
      if !s.loop.Trying? then s
      else
        var back := Requeue(s.loop.task, code, maxAttempts);
        s.(loop := if back == [] then Free else Returning(back[0]),
           log := s.log + [Report(s.loop.task, code, maxAttempts)])
    case Return =>
      if s.loop.Returning? && |s.tasks| < capacity then s.(tasks := s.tasks + [s.loop.task], loop := Free) else s
  }

  function Run(s: Shop, moves: seq<Move>, capacity: nat, maxAttempts: int): Shop {
    if moves == [] then s
    else Moved(Run(s, moves[..|moves| - 1], capacity, maxAttempts), moves[|moves| - 1], capacity, maxAttempts)
  }

  lemma RunMore(s: Shop, moves: seq<Move>, m: Move, capacity: nat, maxAttempts: int)
    ensures Run(s, moves + [m], capacity, maxAttempts) == Moved(Run(s, moves, capacity, maxAttempts), m, capacity, maxAttempts)
  {
    assert (moves + [m])[..|moves + [m]| - 1] == moves;
  }

  /** The loop waits for room in the channel that only it empties. */
  predicate Stuck(s: Shop, capacity: nat) {
    s.loop.Returning? && |s.tasks| >= capacity
  }

  /** A stuck loop stays stuck, whatever happens: all that is ever reported are further first attempts. */
  lemma {:induction false} StuckForever(s: Shop, moves: seq<Move>, capacity: nat, maxAttempts: int)
    requires Stuck(s, capacity)
    ensures var after := Run(s, moves, capacity, maxAttempts);
            && Stuck(after, capacity) && after.tasks == s.tasks && after.loop == s.loop && s.log <= after.log
            && forall i | |s.log| <= i < |after.log| :: FirstReportOf(after.log[i], moves)
  {
    if moves != [] {
      var n := |moves| - 1;
      var before := Run(s, moves[..n], capacity, maxAttempts);
      var after := Moved(before, moves[n], capacity, maxAttempts);
      StuckForever(s, moves[..n], capacity, maxAttempts);
      forall i | |s.log| <= i < |after.log| ensures FirstReportOf(after.log[i], moves) {
        if i < |before.log| {
          assert FirstReportOf(before.log[i], moves[..n]);
          var k :| 0 <= k < n && moves[..n][k].Arrive?
                   && before.log[i] == FirstReport(moves[..n][k].job, moves[..n][k].code);
          assert moves[k].Arrive?;
        } else {
          assert moves[n].Arrive?;
        }
      }
    }
  }

  ghost predicate FirstReportOf(d: Diagnostic, moves: seq<Move>) {
    exists k | 0 <= k < |moves| :: moves[k].Arrive? && d == FirstReport(moves[k].job, moves[k].code)
  }

  predicate GetsStuck(moves: seq<Move>, capacity: nat, maxAttempts: int) {
    Stuck(Run(EMPTY, moves, capacity, maxAttempts), capacity)
  }

  /** Some run gets the loop stuck exactly if tasks are retried more than once, however large the channel. */
  lemma LoopCanGetStuck(capacity: nat, maxAttempts: int)
    ensures (exists moves :: GetsStuck(moves, capacity, maxAttempts)) <==> maxAttempts >= 2
  {
    if maxAttempts >= 2 {
      var moves := GetStuck(capacity, maxAttempts);
      assert GetsStuck(moves, capacity, maxAttempts);
    } else {
      forall moves ensures !GetsStuck(moves, capacity, maxAttempts) {
        NothingReturns(moves, capacity, maxAttempts);
      }
    }
  }

  lemma {:induction false} NothingReturns(moves: seq<Move>, capacity: nat, maxAttempts: int)
    requires maxAttempts <= 1
    ensures var s := Run(EMPTY, moves, capacity, maxAttempts);
            && !s.loop.Returning? && (s.loop.Trying? ==> s.loop.task.attempt == 1)
            && (forall i | 0 <= i < |s.tasks| :: s.tasks[i].attempt == 1)
  {
    if moves != [] {
      NothingReturns(moves[..|moves| - 1], capacity, maxAttempts);
    }
  }

  /** Everything that waits: the task in the loop's hands and the channel. */
  function Waiting(s: Shop): seq<Task> {
    (if s.loop.Free? then [] else [s.loop.task]) + s.tasks
  }

  /** The channel holds no more than it can. */
  predicate Fits(s: Shop, capacity: nat) {
    |s.tasks| <= capacity
  }

  /** How the waiting tasks move: a first attempt joins at the end, taking changes nothing, an attempt ends or ages the
      first of them, and putting back rotates them. */
  lemma WaitingMoves(s: Shop, m: Move, capacity: nat, maxAttempts: int)
    requires Fits(s, capacity)
    ensures Fits(Moved(s, m, capacity, maxAttempts), capacity)
    ensures var w, w' := Waiting(s), Waiting(Moved(s, m, capacity, maxAttempts));
            match m
            case Arrive(job, code) => w' == w + if LetsIn(s, code, capacity) then [Task(job, 1, code)] else []
            case Take => w' == w
            case Respond(code) => w' == if s.loop.Trying? then Requeue(w[0], code, maxAttempts) + w[1..] else w
            case Return => w' == w || (w != [] && w' == w[1..] + [w[0]])
  {
    assert Waiting(s) + [] == Waiting(s);
  }

  /** First attempts are only let in while there is room for everything that waits, the task in the loop's hands
      included. */
  ghost predicate Careful(moves: seq<Move>, capacity: nat, maxAttempts: int) {
    forall i | 0 <= i < |moves| :: CarefulAt(moves, i, capacity, maxAttempts)
  }

  predicate CarefulAt(moves: seq<Move>, i: nat, capacity: nat, maxAttempts: int)
    requires i < |moves|
  {
    var s := Run(EMPTY, moves[..i], capacity, maxAttempts);
    moves[i].Arrive? && LetsIn(s, moves[i].code, capacity) ==> |Waiting(s)| < capacity
  }

  /** Then the loop never gets stuck. */
  lemma {:induction false} CarefulRunsNeverStuck(moves: seq<Move>, capacity: nat, maxAttempts: int)
    requires Careful(moves, capacity, maxAttempts)
    ensures var s := Run(EMPTY, moves, capacity, maxAttempts);
            Fits(s, capacity) && |Waiting(s)| <= capacity && !Stuck(s, capacity)
  {
    if moves != [] {
      var n := |moves| - 1;
      var front := moves[..n];
      forall i | 0 <= i < n ensures CarefulAt(front, i, capacity, maxAttempts) {
        assert front[..i] == moves[..i] && CarefulAt(moves, i, capacity, maxAttempts);
      }
      CarefulRunsNeverStuck(front, capacity, maxAttempts);
      assert CarefulAt(moves, n, capacity, maxAttempts);
      WaitingMoves(Run(EMPTY, front, capacity, maxAttempts), moves[n], capacity, maxAttempts);
    }
  }

  const FAILURE := 500

  function Failing(n: nat): seq<Task> {
    seq(n, i => Task(i, 1, FAILURE))
  }

  /** Failed first attempts fill the channel. */
  lemma {:induction false} Fill(n: nat, capacity: nat, maxAttempts: int) returns (moves: seq<Move>)
    requires n <= capacity
    ensures var s := Run(EMPTY, moves, capacity, maxAttempts); s.loop == Free && s.tasks == Failing(n)
  {
    moves := [];
    if n > 0 {
      var front := Fill(n - 1, capacity, maxAttempts);
      RunMore(EMPTY, front, Arrive(n - 1, FAILURE), capacity, maxAttempts);
      moves := front + [Arrive(n - 1, FAILURE)];
    }
  }

  /** The loop takes a task out, another job takes its place, and the task fails. */
  lemma GetStuck(capacity: nat, maxAttempts: int) returns (moves: seq<Move>)
    requires maxAttempts >= 2
    ensures Stuck(Run(EMPTY, moves, capacity, maxAttempts), capacity)
  {
    var full := Fill(capacity, capacity, maxAttempts);
    RunMore(EMPTY, full, Take, capacity, maxAttempts);
    var taken := full + [Take];
    RunMore(EMPTY, taken, Arrive(capacity, FAILURE), capacity, maxAttempts);
    var filled := taken + [Arrive(capacity, FAILURE)];
    RunMore(EMPTY, filled, Respond(FAILURE), capacity, maxAttempts);
    moves := filled + [Respond(FAILURE)];
  }

  /** Left alone, the steps of an attempt are one attempt of the simpler model. */
  lemma TurnAtOnce(s: Shop, code: int, capacity: nat, maxAttempts: int)
    requires s.loop == Free && s.tasks != [] && |s.tasks| <= capacity
    ensures Run(s, [Take, Respond(code), Return], capacity, maxAttempts)
         == Shop(AfterAttempt(s.tasks, code, maxAttempts), Free, s.log + [Report(s.tasks[0], code, maxAttempts)])
  {
    RunMore(s, [], Take, capacity, maxAttempts);
    RunMore(s, [] + [Take], Respond(code), capacity, maxAttempts);
    RunMore(s, [] + [Take] + [Respond(code)], Return, capacity, maxAttempts);
    assert [] + [Take] + [Respond(code)] + [Return] == [Take, Respond(code), Return];
  }

  // ----- what a job can rely on -----

  ghost predicate NotArriving(moves: seq<Move>, job: int) {
    forall k | 0 <= k < |moves| && moves[k].Arrive? :: moves[k].job != job
  }

  /** What one move adds to the log. */
  function Said(s: Shop, m: Move, maxAttempts: int): seq<Diagnostic> {
    match m
    case Arrive(job, code) => [FirstReport(job, code)]
    case Respond(code) => if s.loop.Trying? then [Report(s.loop.task, code, maxAttempts)] else []
    case _ => []
  }

  lemma LogGrows(s: Shop, m: Move, capacity: nat, maxAttempts: int, job: int)
    ensures History(Moved(s, m, capacity, maxAttempts).log, job)
         == History(s.log, job)
            + if Said(s, m, maxAttempts) != [] && Said(s, m, maxAttempts)[0].job == job then Said(s, m, maxAttempts) else []
  {
    if Said(s, m, maxAttempts) != [] {
      HistoryThen(s.log, Said(s, m, maxAttempts)[0], job);
    }
  }

  lemma {:induction false} HistoryThen(log: seq<Diagnostic>, d: Diagnostic, job: int)
    ensures History(log + [d], job) == History(log, job) + if d.job == job then [d] else []
  {
    if log == [] {
      assert log + [d] == [d];
    } else {
      HistoryThen(log[1..], d, job);
      assert (log + [d])[1..] == log[1..] + [d];
    }
  }

  ghost predicate Mentions(tasks: seq<Task>, job: int) {
    exists i | 0 <= i < |tasks| :: tasks[i].job == job
  }

  lemma MentionsParts(a: seq<Task>, b: seq<Task>, job: int)
    ensures Mentions(a + b, job) <==> Mentions(a, job) || Mentions(b, job)
  {
    if Mentions(a, job) {
      var i :| 0 <= i < |a| && a[i].job == job;
      assert (a + b)[i].job == job;
    }
    if Mentions(b, job) {
      var i :| 0 <= i < |b| && b[i].job == job;
      assert (a + b)[|a| + i].job == job;
    }
  }

  /** A job that does not wait and does not arrive is not heard of. */
  lemma StaysAway(s: Shop, m: Move, capacity: nat, maxAttempts: int, job: int)
    requires Fits(s, capacity) && !Mentions(Waiting(s), job) && (m.Arrive? ==> m.job != job)
    ensures var after := Moved(s, m, capacity, maxAttempts);
            Fits(after, capacity) && !Mentions(Waiting(after), job) && History(after.log, job) == History(s.log, job)
  {
    LogGrows(s, m, capacity, maxAttempts, job);
    WaitingMoves(s, m, capacity, maxAttempts);
    if s.loop.Trying? {
      assert Waiting(s)[0] == s.loop.task;
    }
    StillUnmentioned(Waiting(s), Waiting(Moved(s, m, capacity, maxAttempts)), m, maxAttempts, job);
  }

  lemma StillUnmentioned(w: seq<Task>, w': seq<Task>, m: Move, maxAttempts: int, job: int)
    requires !Mentions(w, job) && (m.Arrive? ==> m.job != job)
    requires w' == w || (m.Arrive? && w' == w + [Task(m.job, 1, m.code)])
             || (w != [] && (w' == w[1..] + [w[0]] || (m.Respond? && w' == Requeue(w[0], m.code, maxAttempts) + w[1..])))
    ensures !Mentions(w', job)
  {
    if m.Arrive? {
      MentionsParts(w, [Task(m.job, 1, m.code)], job);
    }
    if w != [] {
      assert w[0].job != job && w == [w[0]] + w[1..];
      MentionsParts([w[0]], w[1..], job);
      MentionsParts(w[1..], [w[0]], job);
      if m.Respond? {
        MentionsParts(Requeue(w[0], m.code, maxAttempts), w[1..], job);
      }
    }
  }

  lemma {:induction false} Unknown(moves: seq<Move>, capacity: nat, maxAttempts: int, job: int)
    requires NotArriving(moves, job)
    ensures var s := Run(EMPTY, moves, capacity, maxAttempts);
            Fits(s, capacity) && !Mentions(Waiting(s), job) && History(s.log, job) == []
  {
    if moves != [] {
      var s, m := Run(EMPTY, moves[..|moves| - 1], capacity, maxAttempts), moves[|moves| - 1];
      Unknown(moves[..|moves| - 1], capacity, maxAttempts, job);
      StaysAway(s, m, capacity, maxAttempts, job);
    }
  }

  /** The retries of a task that still waits: each one failed and was reported as retrying. */
  ghost predicate Retried(h: seq<Diagnostic>, attempt: int, maxAttempts: int) {
    && |h| == attempt - 1 && (attempt == 1 || attempt <= maxAttempts)
    && forall i | 0 <= i < |h| :: h[i].status == Retrying && h[i].retryAttempt == i + 2 && !Success(h[i].statusCode)
  }

  /** Task `i` is the only one of the job. */
  ghost predicate OnlyAt(tasks: seq<Task>, i: nat, job: int) {
    Sole(tasks, i) && tasks[i].job == job
  }

  /** An admitted job: after its first report come its retries so far, and it either waits for the next one or has ended
      well. */
  ghost predicate OnItsWay(s: Shop, job: int, first: Diagnostic, maxAttempts: int) {
    var h, w := History(s.log, job), Waiting(s);
    && h != [] && h[0] == first
    && if Mentions(w, job) then exists i: nat :: OnlyAt(w, i, job) && Retried(h[1..], w[i].attempt, maxAttempts)
       else WellEnded(h[1..], 1, maxAttempts)
  }

  lemma RetriedOnce(h: seq<Diagnostic>, t: Task, code: int, maxAttempts: int)
    requires Retried(h, t.attempt, maxAttempts)
    ensures var all, back := h + [Report(t, code, maxAttempts)], Requeue(t, code, maxAttempts);
            if back == [] then WellEnded(all, 1, maxAttempts) else Retried(all, back[0].attempt, maxAttempts)
  {
    var all := h + [Report(t, code, maxAttempts)];
    assert forall i | 0 <= i < |h| :: all[i] == h[i];
  }

  /** An attempt at the first of the waiting tasks. */
  lemma AttemptAt(w: seq<Task>, i: nat, code: int, maxAttempts: int, job: int)
    requires OnlyAt(w, i, job)
    ensures var back := Requeue(w[0], code, maxAttempts);
            var after := back + w[1..];
            && (i > 0 ==> OnlyAt(after, i - 1 + |back|, job) && after[i - 1 + |back|] == w[i] && w[0].job != job)
            && (i == 0 && back == [] ==> !Mentions(after, job))
            && (i == 0 && back != [] ==> OnlyAt(after, 0, job) && after[0] == back[0])
  {
    var back := Requeue(w[0], code, maxAttempts);
    var after := back + w[1..];
    assert forall k | |back| <= k < |after| :: after[k] == w[k - |back| + 1];
  }

  lemma RotatedAt(w: seq<Task>, i: nat, job: int)
    requires OnlyAt(w, i, job)
    ensures var after, k := w[1..] + [w[0]], if i == 0 then |w| - 1 else i - 1;
            OnlyAt(after, k, job) && after[k] == w[i]
  {
    var after := w[1..] + [w[0]];
    assert forall k | 0 <= k < |w| - 1 :: after[k] == w[k + 1];
  }

  /** No move of the loop and no other job's arrival spoils that. */
  lemma KeepsGoing(s: Shop, m: Move, capacity: nat, maxAttempts: int, job: int, first: Diagnostic)
    requires Fits(s, capacity) && OnItsWay(s, job, first, maxAttempts) && (m.Arrive? ==> m.job != job)
    ensures var after := Moved(s, m, capacity, maxAttempts);
            Fits(after, capacity) && OnItsWay(after, job, first, maxAttempts)
  {
    var w := Waiting(s);
    if !Mentions(w, job) {
      StaysAway(s, m, capacity, maxAttempts, job);
    } else {
      var i: nat :| OnlyAt(w, i, job) && Retried(History(s.log, job)[1..], w[i].attempt, maxAttempts);
      WaitingMoves(s, m, capacity, maxAttempts);
      if m.Respond? && s.loop.Trying? {
        Responded(s, m.code, capacity, maxAttempts, job, first, i);
      } else {
        KeepsWaiting(s, m, capacity, maxAttempts, job, i);
      }
    }
  }

  lemma KeepsWaiting(s: Shop, m: Move, capacity: nat, maxAttempts: int, job: int, i: nat)
    requires Fits(s, capacity) && OnlyAt(Waiting(s), i, job) && (m.Arrive? ==> m.job != job)
    requires !(m.Respond? && s.loop.Trying?)
    ensures var after := Moved(s, m, capacity, maxAttempts);
            && History(after.log, job) == History(s.log, job)
            && Mentions(Waiting(after), job)
            && exists k: nat :: OnlyAt(Waiting(after), k, job) && Waiting(after)[k] == Waiting(s)[i]
  {
    var w, after := Waiting(s), Moved(s, m, capacity, maxAttempts);
    WaitingMoves(s, m, capacity, maxAttempts);
    LogGrows(s, m, capacity, maxAttempts, job);
    var k := i;
    if m.Return? && Waiting(after) != w {
      RotatedAt(w, i, job);
      k := if i == 0 then |w| - 1 else i - 1;
    }
    assert OnlyAt(Waiting(after), k, job) && Waiting(after)[k] == w[i];
  }

  lemma Responded(s: Shop, code: int, capacity: nat, maxAttempts: int, job: int, first: Diagnostic, i: nat)
    requires Fits(s, capacity) && s.loop.Trying? && OnlyAt(Waiting(s), i, job)
    requires var h := History(s.log, job);
             h != [] && h[0] == first && Retried(h[1..], Waiting(s)[i].attempt, maxAttempts)
    ensures OnItsWay(Moved(s, Respond(code), capacity, maxAttempts), job, first, maxAttempts)
  {
    var w, h, after := Waiting(s), History(s.log, job), Moved(s, Respond(code), capacity, maxAttempts);
    WaitingMoves(s, Respond(code), capacity, maxAttempts);
    LogGrows(s, Respond(code), capacity, maxAttempts, job);
    AttemptAt(w, i, code, maxAttempts, job);
    var back := Requeue(w[0], code, maxAttempts);
    assert Waiting(after) == back + w[1..];
    if i > 0 {
      assert Waiting(after)[i - 1 + |back|].job == job;
    } else {
      var report := Report(w[0], code, maxAttempts);
      assert (h + [report])[1..] == h[1..] + [report];
      RetriedOnce(h[1..], w[0], code, maxAttempts);
      if back != [] {
        assert Waiting(after)[0].job == job;
      }
    }
  }

  lemma {:induction false} GoesOn(s: Shop, moves: seq<Move>, capacity: nat, maxAttempts: int, job: int, first: Diagnostic)
    requires Fits(s, capacity) && OnItsWay(s, job, first, maxAttempts) && NotArriving(moves, job)
    ensures var after := Run(s, moves, capacity, maxAttempts);
            Fits(after, capacity) && OnItsWay(after, job, first, maxAttempts)
  {
    if moves != [] {
      var n := |moves| - 1;
      GoesOn(s, moves[..n], capacity, maxAttempts, job, first);
      KeepsGoing(Run(s, moves[..n], capacity, maxAttempts), moves[n], capacity, maxAttempts, job, first);
    }
  }

  /** In any interleaving of arrivals with the steps of the loop: a job that is admitted is, at every moment, either still
      waiting, with nothing but failures reported, or has ended in exactly one of DELIVERED and DEAD_LETTER as promised;
      of one that is not, only the first attempt is ever reported. */
  lemma JobProgress(before: seq<Move>, job: int, code: int, after: seq<Move>, capacity: nat, maxAttempts: int)
    requires NotArriving(before, job) && NotArriving(after, job)
    ensures var s := Run(EMPTY, before, capacity, maxAttempts);
            var s' := Run(Moved(s, Arrive(job, code), capacity, maxAttempts), after, capacity, maxAttempts);
            if LetsIn(s, code, capacity) then OnItsWay(s', job, FirstReport(job, code), maxAttempts)
            else !Mentions(Waiting(s'), job) && History(s'.log, job) == [FirstReport(job, code)]
  {
    var s, first := Run(EMPTY, before, capacity, maxAttempts), FirstReport(job, code);
    var arrived := Moved(s, Arrive(job, code), capacity, maxAttempts);
    Unknown(before, capacity, maxAttempts, job);
    Arrives(s, job, code, capacity, maxAttempts);
    if LetsIn(s, code, capacity) {
      GoesOn(arrived, after, capacity, maxAttempts, job, first);
    } else {
      StaysUnheard(arrived, after, capacity, maxAttempts, job);
    }
  }

  lemma Arrives(s: Shop, job: int, code: int, capacity: nat, maxAttempts: int)
    requires Fits(s, capacity) && !Mentions(Waiting(s), job) && History(s.log, job) == []
    ensures var s' := Moved(s, Arrive(job, code), capacity, maxAttempts);
            && Fits(s', capacity) && History(s'.log, job) == [FirstReport(job, code)]
            && if LetsIn(s, code, capacity) then OnItsWay(s', job, FirstReport(job, code), maxAttempts)
               else !Mentions(Waiting(s'), job)
  {
    var w, s' := Waiting(s), Moved(s, Arrive(job, code), capacity, maxAttempts);
    WaitingMoves(s, Arrive(job, code), capacity, maxAttempts);
    LogGrows(s, Arrive(job, code), capacity, maxAttempts, job);
    if LetsIn(s, code, capacity) {
      assert Waiting(s')[|w|].job == job;
      assert OnlyAt(Waiting(s'), |w|, job);
      assert Retried(History(s'.log, job)[1..], 1, maxAttempts);
    }
  }

  lemma {:induction false} StaysUnheard(s: Shop, moves: seq<Move>, capacity: nat, maxAttempts: int, job: int)
    requires Fits(s, capacity) && !Mentions(Waiting(s), job) && NotArriving(moves, job)
    ensures var after := Run(s, moves, capacity, maxAttempts);
            Fits(after, capacity) && !Mentions(Waiting(after), job) && History(after.log, job) == History(s.log, job)
  {
    if moves != [] {
      var n := |moves| - 1;
      StaysUnheard(s, moves[..n], capacity, maxAttempts, job);
      StaysAway(Run(s, moves[..n], capacity, maxAttempts), moves[n], capacity, maxAttempts, job);
    }
  }

  // ----- when a job can still end -----

  /** Only loop moves lead from `s` to `after`. */
  ghost predicate LoopLeads(s: Shop, moves: seq<Move>, after: Shop, capacity: nat, maxAttempts: int) {
    Run(s, moves, capacity, maxAttempts) == after && forall k | 0 <= k < |moves| :: !moves[k].Arrive?
  }

  /** In a state of any run, some continuation without further arrivals empties loop and channel, if and only if the loop
      is not stuck. */
  lemma EmptiesIff(s: Shop, capacity: nat, maxAttempts: int)
    requires Fits(s, capacity)
    ensures (exists moves, after :: LoopLeads(s, moves, after, capacity, maxAttempts) && Waiting(after) == [])
       <==> !Stuck(s, capacity)
  {
    if Stuck(s, capacity) {
      forall moves, after | LoopLeads(s, moves, after, capacity, maxAttempts) ensures Waiting(after) != [] {
        StuckForever(s, moves, capacity, maxAttempts);
      }
    } else {
      var first, freed := FreeLoop(s, capacity, maxAttempts);
      var rest, after := Empty(freed, capacity, maxAttempts);
      RunThen(s, first, rest, capacity, maxAttempts);
      assert LoopLeads(s, first + rest, after, capacity, maxAttempts);
    }
  }

  lemma {:induction false} RunThen(s: Shop, moves: seq<Move>, more: seq<Move>, capacity: nat, maxAttempts: int)
    ensures Run(s, moves + more, capacity, maxAttempts)
         == Run(Run(s, moves, capacity, maxAttempts), more, capacity, maxAttempts)
  {
    if more == [] {
      assert moves + more == moves;
    } else {
      var n := |more| - 1;
      assert (moves + more)[..|moves + more| - 1] == moves + more[..n];
      RunThen(s, moves, more[..n], capacity, maxAttempts);
    }
  }

  const SUCCESS := 200

  lemma FreeLoop(s: Shop, capacity: nat, maxAttempts: int) returns (moves: seq<Move>, after: Shop)
    requires Fits(s, capacity) && !Stuck(s, capacity)
    ensures LoopLeads(s, moves, after, capacity, maxAttempts) && after.loop == Free && Fits(after, capacity)
  {
    var m := match s.loop case Free => Take case Trying(_) => Respond(SUCCESS) case Returning(_) => Return;
    moves, after := [], s;
    if !s.loop.Free? {
      RunMore(s, [], m, capacity, maxAttempts);
      moves, after := [] + [m], Moved(s, m, capacity, maxAttempts);
    }
  }

  lemma {:induction false} Empty(s: Shop, capacity: nat, maxAttempts: int) returns (moves: seq<Move>, after: Shop)
    requires s.loop == Free
    ensures LoopLeads(s, moves, after, capacity, maxAttempts) && Waiting(after) == []
    decreases |s.tasks|
  {
    moves, after := [], s;
    if s.tasks != [] {
      var one := [] + [Take] + [Respond(SUCCESS)];
      RunMore(s, [], Take, capacity, maxAttempts);
      RunMore(s, [] + [Take], Respond(SUCCESS), capacity, maxAttempts);
      var next := Run(s, one, capacity, maxAttempts);
      var rest;
      rest, after := Empty(next, capacity, maxAttempts);
      RunThen(s, one, rest, capacity, maxAttempts);
      moves := one + rest;
    }
  }
}
