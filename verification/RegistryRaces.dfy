/** The registry's lazy expiry when a lookup is not one step: it decides under one lock that an entry has expired and
    clears its flag under another, and an alert may come in between. */
module RegistryRaces {
  import opened Options
  import opened PolicyTypes
  import opened RouterRegistry

  /** A whole call, or half a lookup. `Clear` writes to the very entry object that its `Peek` saw; `birth` tells it from
      a later one of the same process. */
  datatype Move = Call(op: Op, at: Nanos) | Peek(pid: Pid, at: Nanos) | Clear(pid: Pid, birth: nat, at: Nanos)

  /** The entries, the objects they are, how many objects there ever were, and the flag writes that are due. */
  datatype Shelf = Shelf(entries: Entries, births: map<Pid, nat>, count: nat, pending: multiset<(Pid, nat)>)

  const BARE := Shelf(map[], map[], 0, multiset{})

  function Moved(s: Shelf, m: Move, cooling: Nanos): Shelf {
    match m
    case Call(op, at) =>
      var after := s.(entries := Apply(s.entries, op, at, cooling));
      if op.Activate? && op.pid !in s.entries then after.(births := s.births[op.pid := s.count], count := s.count + 1)
      else after
    case Peek(pid, at) =>
      if pid in s.entries && pid in s.births && s.entries[pid].active && at > s.entries[pid].coolingUntil
      then s.(pending := s.pending + multiset{(pid, s.births[pid])})
      else s
    case Clear(pid, birth, _) =>
      if (pid, birth) !in s.pending then s
      else
        var rest := s.pending - multiset{(pid, birth)};
        if Hits(s, m) then s.(entries := s.entries[pid := s.entries[pid].(active := false)], pending := rest)
        else s.(pending := rest)
  }

  /** The flag write reaches the entry in the map. */
  predicate Hits(s: Shelf, m: Move) {
    && m.Clear? && (m.pid, m.birth) in s.pending
    && m.pid in s.entries && m.pid in s.births && s.births[m.pid] == m.birth
  }

  /** And the entry has been refreshed in the meantime. */
  predicate Strikes(s: Shelf, m: Move) {
    Hits(s, m) && m.at <= s.entries[m.pid].coolingUntil
  }

  /** The two halves of a lookup, at once, are the call. */
  lemma LookupAtOnce(s: Shelf, pid: Pid, at: Nanos, cooling: Nanos)
    requires pid in s.entries ==> pid in s.births
    ensures var seen := Moved(s, Peek(pid, at), cooling);
            s.(entries := Apply(s.entries, Look(pid), at, cooling))
            == if seen == s then s else Moved(seen, Clear(pid, s.births[pid], at), cooling)
  {
    if pid in s.entries && s.entries[pid].active && at > s.entries[pid].coolingUntil {
      var due := multiset{(pid, s.births[pid])};
      assert s.pending + due - due == s.pending;
      assert (s.pending + due)[(pid, s.births[pid])] != s.pending[(pid, s.births[pid])];
    }
  }

  ghost function Shelved(run: seq<Move>, cooling: Nanos): Shelf {
    if run == [] then BARE else Moved(Shelved(run[..|run| - 1], cooling), run[|run| - 1], cooling)
  }

  /** The calls of a run, which are all that a client knows of it. */
  ghost function Calls(run: seq<Move>): seq<Timed> {
    if run == [] then []
    else Calls(run[..|run| - 1]) + if run[|run| - 1].Call? then [Timed(run[|run| - 1].op, run[|run| - 1].at)] else []
  }

  ghost predicate Timely(run: seq<Move>) {
    forall i, j | 0 <= i < j < |run| :: run[i].at <= run[j].at
  }

  /** A lookup finds the process exactly if its last standing alert is at most the cooling period old. */
  ghost predicate Agrees(run: seq<Move>, cooling: Nanos, pid: Pid, now: Nanos) {
    var last := LastAlert(Calls(run), pid);
    Found(Shelved(run, cooling).entries, pid, now).Some? <==> last.Some? && now <= last.value + cooling
  }

  ghost predicate StrikesAt(run: seq<Move>, i: nat, cooling: Nanos)
    requires i < |run|
  {
    Strikes(Shelved(run[..i], cooling), run[i])
  }

  ghost predicate NoStrikes(run: seq<Move>, cooling: Nanos) {
    forall i | 0 <= i < |run| :: !StrikesAt(run, i, cooling)
  }

  /** A lookup right after the move at `i` tells the truth. */
  ghost predicate AgreesAfter(run: seq<Move>, i: nat, cooling: Nanos, pid: Pid)
    requires i < |run|
  {
    Agrees(run[..i + 1], cooling, pid, run[i].at)
  }

  /** Throughout the run, at the time of every move, lookups tell the truth about every process. */
  ghost predicate AlwaysAgrees(run: seq<Move>, cooling: Nanos) {
    forall i, pid | 0 <= i < |run| :: AgreesAfter(run, i, cooling, pid)
  }

  /** Lazy expiry is invisible in a run exactly if no late flag write strikes an entry that was refreshed after the lookup
      had decided on it. */
  lemma LookupsAgreeIff(run: seq<Move>, cooling: Nanos)
    requires Timely(run)
    ensures AlwaysAgrees(run, cooling) <==> NoStrikes(run, cooling)
  {
    if NoStrikes(run, cooling) {
      forall i, pid | 0 <= i < |run|
        ensures AgreesAfter(run, i, cooling, pid)
      {
        AgreesWhileQuiet(run, i, cooling, pid);
      }
    } else {
      var i :| 0 <= i < |run| && StrikesAt(run, i, cooling);
      DisagreesWhenStruck(run, i, cooling);
    }
  }

  lemma AgreesWhileQuiet(run: seq<Move>, i: nat, cooling: Nanos, pid: Pid)
    requires i < |run| && Timely(run) && NoStrikes(run, cooling)
    ensures AgreesAfter(run, i, cooling, pid)
  {
    PrefixIsQuiet(run, i + 1, cooling);
    QuietRunsAgree(run[..i + 1], cooling, pid, run[i].at);
  }

  lemma DisagreesWhenStruck(run: seq<Move>, i: nat, cooling: Nanos)
    requires i < |run| && Timely(run) && StrikesAt(run, i, cooling)
    ensures !AgreesAfter(run, i, cooling, run[i].pid)
  {
    assert run[..i + 1][..i] == run[..i];
    StrikeHides(run[..i + 1], cooling);
  }

  lemma PrefixIsQuiet(run: seq<Move>, n: nat, cooling: Nanos)
    requires NoStrikes(run, cooling) && n <= |run|
    ensures NoStrikes(run[..n], cooling)
  {
    forall i | 0 <= i < n ensures !StrikesAt(run[..n], i, cooling) {
      assert run[..n][..i] == run[..i] && !StrikesAt(run, i, cooling);
    }
  }

  lemma CallsGrow(run: seq<Move>)
    requires run != []
    ensures var front, m := Calls(run[..|run| - 1]), run[|run| - 1];
            if m.Call? then Calls(run) != [] && Calls(run)[..|Calls(run)| - 1] == front
                            && Calls(run)[|Calls(run)| - 1] == Timed(m.op, m.at)
            else Calls(run) == front
  {
  }

  /** Only calls change what an entry says about alerts. */
  lemma MoveMatchesCall(s: Shelf, m: Move, cooling: Nanos, pid: Pid)
    ensures var es, es' := s.entries, Moved(s, m, cooling).entries;
            if m.Call? then es' == Apply(es, m.op, m.at, cooling)
            else && (pid in es' <==> pid in es)
                 && (pid in es ==> es'[pid] == es[pid].(active := es'[pid].active))
  {
  }

  /** Strikes or not, what the entries say about alerts is what the calls say. */
  lemma {:induction false} ShelfMatchesCalls(run: seq<Move>, cooling: Nanos, pid: Pid)
    ensures var es := Shelved(run, cooling).entries;
            match LastAlert(Calls(run), pid)
            case None => pid !in es
            case Some(t) => pid in es && es[pid].lastAlertAt == t && es[pid].coolingUntil == t + cooling
  {
    if run != [] {
      var front, m := run[..|run| - 1], run[|run| - 1];
      ShelfMatchesCalls(front, cooling, pid);
      CallsGrow(run);
      MoveMatchesCall(Shelved(front, cooling), m, cooling, pid);
    }
  }

  /** Without a strike a cleared flag only ever means that the deadline has passed. */
  lemma {:induction false} QuietRunsAgree(run: seq<Move>, cooling: Nanos, pid: Pid, now: Nanos)
    requires Timely(run) && NoStrikes(run, cooling) && (run != [] ==> run[|run| - 1].at <= now)
    ensures Consistent(Shelved(run, cooling).entries, now, cooling)
    ensures Agrees(run, cooling, pid, now)
  {
    ShelfMatchesCalls(run, cooling, pid);
    if run != [] {
      var n := |run| - 1;
      PrefixIsQuiet(run, n, cooling);
      assert !StrikesAt(run, n, cooling);
      QuietRunsAgree(run[..n], cooling, pid, run[n].at);
      MoveKeepsConsistent(Shelved(run[..n], cooling), run[n], cooling);
    }
  }

  lemma MoveKeepsConsistent(s: Shelf, m: Move, cooling: Nanos)
    requires Consistent(s.entries, m.at, cooling) && !Strikes(s, m)
    ensures Consistent(Moved(s, m, cooling).entries, m.at, cooling)
  {
    if m.Call? {
      ApplyKeepsConsistent(s.entries, m.at, m.op, m.at, cooling);
    }
  }

  /** Right after a strike a lookup misses the process. */
  lemma StrikeHides(run: seq<Move>, cooling: Nanos)
    requires run != [] && Strikes(Shelved(run[..|run| - 1], cooling), run[|run| - 1])
    ensures !Agrees(run, cooling, run[|run| - 1].pid, run[|run| - 1].at)
  {
    ShelfMatchesCalls(run, cooling, run[|run| - 1].pid);
  }

  /** The law of lazy expiry holds in all runs only if nothing is ever throttled: for every cooling period that is not
      negative, an alert at the wrong moment is forgotten at once. */
  lemma LazyExpiryUnderRaces(cooling: Nanos)
    ensures (forall run | Timely(run) :: AlwaysAgrees(run, cooling)) <==> cooling < 0
  {
    if cooling < 0 {
      forall run | Timely(run) ensures AlwaysAgrees(run, cooling) {
        NeverThrottled(run, cooling);
      }
    } else {
      var run := SomeRunDisagrees(cooling);
    }
  }

  lemma SomeRunDisagrees(cooling: Nanos) returns (run: seq<Move>)
    requires cooling >= 0
    ensures Timely(run) && !AlwaysAgrees(run, cooling)
  {
    run := KnockedOut(0, cooling);
    DisagreesAtEnd(run, cooling, 0);
  }

  lemma DisagreesAtEnd(run: seq<Move>, cooling: Nanos, pid: Pid)
    requires run != [] && !Agrees(run, cooling, pid, run[|run| - 1].at)
    ensures !AlwaysAgrees(run, cooling)
  {
    assert run[..|run|] == run;
    assert !AgreesAfter(run, |run| - 1, cooling, pid);
  }

  lemma {:induction false} AlertsArePast(run: seq<Move>, pid: Pid)
    requires Timely(run)
    ensures var last := LastAlert(Calls(run), pid); last.Some? ==> run != [] && last.value <= run[|run| - 1].at
  {
    if run != [] {
      var n := |run| - 1;
      AlertsArePast(run[..n], pid);
      CallsGrow(run);
      assert n > 0 ==> run[..n][n - 1].at <= run[n].at;
    }
  }

  lemma NeverThrottled(run: seq<Move>, cooling: Nanos)
    requires Timely(run) && cooling < 0
    ensures AlwaysAgrees(run, cooling)
  {
    forall i, pid | 0 <= i < |run| ensures AgreesAfter(run, i, cooling, pid) {
      ShelfMatchesCalls(run[..i + 1], cooling, pid);
      AlertsArePast(run[..i + 1], pid);
    }
  }

  /** A lookup finds the entry expired, an alert refreshes it, and the lookup's late write hides it: at the very time of
      its last alert, the process is not throttled. */
  lemma KnockedOut(pid: Pid, cooling: Nanos) returns (run: seq<Move>)
    requires cooling >= 0
    ensures Timely(run) && run != [] && LastAlert(Calls(run), pid) == Some(run[|run| - 1].at)
    ensures !Agrees(run, cooling, pid, run[|run| - 1].at)
  {
    var later := cooling + 1;
    var s: Shelf;
    run, s := AlertedAndSeen(pid, cooling);
    var refreshed;
    run, refreshed := MoveOn(run, s, Call(Refresh(pid), later), cooling);
    CallsGrow(run);
    var front := run;
    var hidden;
    run, hidden := MoveOn(run, refreshed, Clear(pid, 0, later), cooling);
    assert run[..|run| - 1] == front;
    CallsGrow(run);
    StrikeHides(run, cooling);
  }

  /** One alert, and the first half of a lookup just after its end. */
  lemma AlertedAndSeen(pid: Pid, cooling: Nanos) returns (run: seq<Move>, s: Shelf)
    requires cooling >= 0
    ensures |run| == 2 && run[0].at == 0 && run[1].at == cooling + 1
    ensures Shelved(run, cooling) == s && LastAlert(Calls(run), pid).Some?
    ensures pid in s.entries && pid in s.births && s.births[pid] == 0 && (pid, 0) in s.pending
  {
    var alerted;
    run, alerted := MoveOn([], BARE, Call(Activate(pid, TokenChopRemedy, ""), 0), cooling);
    CallsGrow(run);
    var front := run;
    run, s := MoveOn(run, alerted, Peek(pid, cooling + 1), cooling);
    assert run[..1] == front;
    CallsGrow(run);
  }

  lemma MoveOn(run: seq<Move>, s: Shelf, m: Move, cooling: Nanos) returns (more: seq<Move>, after: Shelf)
    requires Shelved(run, cooling) == s
    ensures more == run + [m] && after == Moved(s, m, cooling) == Shelved(more, cooling)
  {
    more, after := run + [m], Moved(s, m, cooling);
    assert more[..|more| - 1] == run;
  }
}
