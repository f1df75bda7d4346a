/** The router's registry of throttled processes: entries expire lazily, when somebody looks. */
module RouterRegistry {
  import opened Options
  import opened PolicyTypes

  datatype Remedy = NoRemedy | TokenChopRemedy | FallbackRoute | BothRemedies

  datatype MitigationState = MitigationState(
    pid: Pid,
    remedy: Remedy,
    originalModel: string,
    fallbackModel: string,
    activatedAt: Nanos,
    lastAlertAt: Nanos,
    coolingUntil: Nanos,
    tokensSaved: int,
    requestsProcessed: int,
    active: bool)

  type Entries = map<Pid, MitigationState>

  datatype Op =
    | Activate(pid: Pid, remedy: Remedy, model: string)
    | Refresh(pid: Pid)
    | Deactivate(pid: Pid)
    | RecordTokens(pid: Pid, count: int)
    | Look(pid: Pid)

  /** What each registry call does to the entries at time `now`; `Look` is the lookup's lazy flag write. */
  function Apply(es: Entries, op: Op, now: Nanos, cooling: Nanos): Entries {
    match op
    case Activate(pid, remedy, model) =>
      if pid in es then
        var e := es[pid];
        es[pid := e.(remedy := remedy, lastAlertAt := now, coolingUntil := now + cooling, active := true,
                     fallbackModel := if e.fallbackModel == "" then model else e.fallbackModel)]
      else es[pid := MitigationState(pid, remedy, model, model, now, now, now + cooling, 0, 0, true)]
    case Refresh(pid) =>
      if pid in es
      then es[pid := es[pid].(lastAlertAt := now, coolingUntil := now + cooling, active := true)]
      else es
    case Deactivate(pid) => es - {pid}
    case RecordTokens(pid, count) =>
      if pid in es
      then es[pid := es[pid].(tokensSaved := es[pid].tokensSaved + count,
                              requestsProcessed := es[pid].requestsProcessed + 1)]
      else es
    case Look(pid) =>
      if pid in es && es[pid].active && now > es[pid].coolingUntil then es[pid := es[pid].(active := false)] else es
  }

  /** What `Lookup` answers. */
  function Found(es: Entries, pid: Pid, now: Nanos): Option<MitigationState> {
    if pid in es && es[pid].active && now <= es[pid].coolingUntil then Some(es[pid]) else None
  }

  /** Every entry cools from its last alert, and a cleared flag means the clock has passed its end. */
  ghost predicate Consistent(es: Entries, clock: Nanos, cooling: Nanos) {
    forall pid | pid in es ::
      && es[pid].pid == pid
      && es[pid].coolingUntil == es[pid].lastAlertAt + cooling
      && es[pid].lastAlertAt <= clock
      && (!es[pid].active ==> es[pid].coolingUntil < clock)
  }

  lemma ApplyKeepsConsistent(es: Entries, clock: Nanos, op: Op, now: Nanos, cooling: Nanos)
    requires Consistent(es, clock, cooling) && clock <= now
    ensures Consistent(Apply(es, op, now, cooling), now, cooling)
  {
  }

  // ----- runs, against a reference that has no flag and no stored deadline -----

  datatype Timed = Timed(op: Op, at: Nanos)

  ghost predicate Monotone(run: seq<Timed>) {
    forall i, j :: 0 <= i <= j < |run| ==> run[i].at <= run[j].at
  }

  ghost function Entered(run: seq<Timed>, cooling: Nanos): Entries {
    if run == [] then map[]
    else
      var last := run[|run| - 1];
      Apply(Entered(run[..|run| - 1], cooling), last.op, last.at, cooling)
  }

  /** When `pid` last raised an alert that still stands, read off the calls alone. */
  ghost function LastAlert(run: seq<Timed>, pid: Pid): Option<Nanos> {
    if run == [] then None
    else
      var before, last := LastAlert(run[..|run| - 1], pid), run[|run| - 1];
      if last.op.pid != pid then before
      else match last.op
           case Activate(_, _, _) => Some(last.at)
           case Refresh(_) => if before.Some? then Some(last.at) else None
           case Deactivate(_) => None
           case RecordTokens(_, _) => before
           case Look(_) => before
  }

  lemma {:induction false} EnteredMatchesHistory(run: seq<Timed>, cooling: Nanos, pid: Pid)
    requires Monotone(run)
    ensures |run| > 0 ==> Consistent(Entered(run, cooling), run[|run| - 1].at, cooling)
    ensures var es := Entered(run, cooling);
            match LastAlert(run, pid)
            case None => pid !in es
            case Some(t) => pid in es && es[pid].lastAlertAt == t
  {
    if run != [] {
      var before, last := run[..|run| - 1], run[|run| - 1];
      EnteredMatchesHistory(before, cooling, pid);
      var es := Entered(before, cooling);
      if before == [] {
        assert Consistent(es, last.at, cooling);
      }
      ApplyKeepsConsistent(es, if before == [] then last.at else before[|before| - 1].at, last.op, last.at, cooling);
    }
  }

  /** Lazy expiry is invisible: with a monotone clock, whatever calls came before and however often somebody looked,
      a lookup finds `pid` iff its last standing alert is at most `cooling` old. Every call is one step here;
      `RegistryRaces` takes the lookup apart. */
  lemma LazyExpiryIsInvisible(run: seq<Timed>, cooling: Nanos, pid: Pid, now: Nanos)
    requires Monotone(run) && (|run| > 0 ==> run[|run| - 1].at <= now)
    ensures var found, last := Found(Entered(run, cooling), pid, now), LastAlert(run, pid);
            && (found.Some? <==> last.Some? && now <= last.value + cooling)
            && (found.Some? ==> found.value.pid == pid && found.value.lastAlertAt == last.value)
  {
    EnteredMatchesHistory(run, cooling, pid);
  }

  // ----- what an entry accumulates -----

  /** The call that created the entry of `pid` that still stands. */
  ghost function Created(run: seq<Timed>, pid: Pid): (k: Option<nat>)
    ensures k.Some? ==> k.value < |run| && run[k.value].op.Activate? && run[k.value].op.pid == pid
  {
    if run == [] then None
    else
      var n := |run| - 1;
      var before, op := Created(run[..n], pid), run[n].op;
      if op.pid == pid && op.Deactivate? then None
      else if op.pid == pid && op.Activate? && before.None? then Some(n)
      else before
  }

  /** The sum of the token counts recorded for `pid`, and how many there were. */
  ghost function TokensOf(run: seq<Timed>, pid: Pid): int {
    if run == [] then 0
    else
      var op := run[|run| - 1].op;
      TokensOf(run[..|run| - 1], pid) + if op.RecordTokens? && op.pid == pid then op.count else 0
  }

  ghost function RequestsOf(run: seq<Timed>, pid: Pid): nat {
    if run == [] then 0
    else
      var op := run[|run| - 1].op;
      RequestsOf(run[..|run| - 1], pid) + if op.RecordTokens? && op.pid == pid then 1 else 0
  }

  /** The models of the activations of `pid`, in order, and the first of them that is not empty. */
  ghost function ModelOf(run: seq<Timed>, pid: Pid): string {
    if run == [] then ""
    else
      var before, op := ModelOf(run[..|run| - 1], pid), run[|run| - 1].op;
      if before == "" && op.Activate? && op.pid == pid then op.model else before
  }

  /** The remedy that was asked for last. */
  ghost function RemedyOf(run: seq<Timed>, pid: Pid): Remedy {
    if run == [] then NoRemedy
    else
      var op := run[|run| - 1].op;
      if op.Activate? && op.pid == pid then op.remedy else RemedyOf(run[..|run| - 1], pid)
  }

  /** An entry holds the remedy asked for last, the first model named since it was created, and the sum and the number
      of the token counts recorded since then. */
  lemma {:induction false} EntryMatchesHistory(run: seq<Timed>, cooling: Nanos, pid: Pid)
    ensures var es := Entered(run, cooling);
            match Created(run, pid)
            case None => pid !in es
            case Some(k) =>
              && pid in es && es[pid].pid == pid
              && es[pid].activatedAt == run[k].at && es[pid].originalModel == run[k].op.model
              && es[pid].remedy == RemedyOf(run, pid) && es[pid].fallbackModel == ModelOf(run[k..], pid)
              && es[pid].tokensSaved == TokensOf(run[k..], pid)
              && es[pid].requestsProcessed == RequestsOf(run[k..], pid)
  {
    if run != [] {
      var n := |run| - 1;
      EntryMatchesHistory(run[..n], cooling, pid);
      var k := Created(run, pid);
      if k.Some? {
        SinceCreation(run, k.value, pid);
      }
    }
  }

  lemma SinceCreation(run: seq<Timed>, k: nat, pid: Pid)
    requires k < |run|
    ensures var n := |run| - 1;
            && run[k..] == run[..n][k..] + [run[n]] && run[k..][..|run[k..]| - 1] == run[..n][k..]
            && (k == n ==> TokensOf(run[..n][k..], pid) == 0 && RequestsOf(run[..n][k..], pid) == 0
                           && ModelOf(run[..n][k..], pid) == "")
  {
    assert run[|run| - 1..][..0] == [];
  }

  /** The PIDs of `pids` that a lookup would find now under one of the given remedies. */
  ghost function VisibleAmong(es: Entries, pids: set<Pid>, remedies: set<Remedy>, now: Nanos): set<Pid> {
    set pid | pid in pids && pid in es && es[pid].remedy in remedies && Found(es, pid, now).Some?
  }

  ghost function VisibleWith(es: Entries, remedies: set<Remedy>, now: Nanos): set<Pid> {
    VisibleAmong(es, es.Keys, remedies, now)
  }

  lemma VisibleAmongGrows(es: Entries, pids: set<Pid>, remedies: set<Remedy>, now: Nanos, pid: Pid)
    requires pid in es && pid !in pids
    ensures |VisibleAmong(es, pids + {pid}, remedies, now)|
         == |VisibleAmong(es, pids, remedies, now)|
            + (if es[pid].remedy in remedies && Found(es, pid, now).Some? then 1 else 0)
  {
    var before, after := VisibleAmong(es, pids, remedies, now), VisibleAmong(es, pids + {pid}, remedies, now);
    if es[pid].remedy in remedies && Found(es, pid, now).Some? {
      assert after == before + {pid};
    } else {
      assert after == before;
    }
  }

  /** `result` holds the state of every PID of `pids` that a lookup would find now, once each. */
  ghost predicate ListsVisible(es: Entries, pids: set<Pid>, now: Nanos, result: seq<MitigationState>) {
    && (forall i, j :: 0 <= i < j < |result| ==> result[i].pid != result[j].pid)
    && (forall s | s in result :: s.pid in pids && Found(es, s.pid, now) == Some(s))
    && (forall pid | pid in pids && Found(es, pid, now).Some? :: Found(es, pid, now).value in result)
  }

  class Registry {
    var entries: Entries
    const coolingOff: Nanos
    ghost var clock: Nanos

    ghost predicate Valid()
      reads this
    {
      Consistent(entries, clock, coolingOff)
    }

    constructor (coolingOff: Nanos, ghost now: Nanos)
      ensures Valid() && entries == map[] && clock == now && this.coolingOff == coolingOff
    {
      entries := map[];
      this.coolingOff := coolingOff;
      clock := now;
    }

    method ActivatePid(pid: Pid, remedy: Remedy, model: string, now: Nanos) returns (state: MitigationState)
      requires Valid() && clock <= now
      modifies this
      ensures Valid() && clock == now
      ensures entries == Apply(old(entries), Activate(pid, remedy, model), now, coolingOff)
      ensures Found(entries, pid, now) == (if coolingOff >= 0 then Some(state) else None)
    {
      var coolUntil := now + coolingOff;
      clock := now;
      if pid in entries {
        state := entries[pid].(remedy := remedy, lastAlertAt := now, coolingUntil := coolUntil, active := true);
        if state.fallbackModel == "" { state := state.(fallbackModel := model); }
      } else {
        state := MitigationState(pid, remedy, model, model, now, now, coolUntil, 0, 0, true);
      }
      entries := entries[pid := state];
    }

    method DeactivatePid(pid: Pid)
      requires Valid()
      modifies this`entries
      ensures Valid() && entries == old(entries) - {pid}
    {
      entries := entries - {pid};
    }

    method Lookup(pid: Pid, now: Nanos) returns (state: Option<MitigationState>)
      requires Valid() && clock <= now
      modifies this
      ensures Valid() && clock == now && entries == Apply(old(entries), Look(pid), now, coolingOff)
      ensures state.Some? <==> pid in old(entries) && now <= old(entries)[pid].coolingUntil
      ensures state == Found(old(entries), pid, now)
    {
      clock := now;
      if pid !in entries { return None; }
      if !entries[pid].active { return None; }
      if now > entries[pid].coolingUntil {
        entries := entries[pid := entries[pid].(active := false)];
        return None;
      }
      return Some(entries[pid]);
    }

    method RefreshAlert(pid: Pid, now: Nanos)
      requires Valid() && clock <= now
      modifies this
      ensures Valid() && clock == now && entries == Apply(old(entries), Refresh(pid), now, coolingOff)
    {
      clock := now;
      if pid !in entries { return; }
      entries := entries[pid := entries[pid].(lastAlertAt := now, coolingUntil := now + coolingOff, active := true)];
    }

    method RecordTokensSaved(pid: Pid, count: int)
      requires Valid()
      modifies this`entries
      ensures Valid() && entries == Apply(old(entries), RecordTokens(pid, count), clock, coolingOff)
    {
      if pid !in entries { return; }
      entries := entries[pid := entries[pid].(tokensSaved := entries[pid].tokensSaved + count,
                                              requestsProcessed := entries[pid].requestsProcessed + 1)];
    }

    /** Counts exactly the PIDs a lookup would find now, by remedy. */
    method ActiveCount(now: Nanos) returns (chopCount: nat, fallbackCount: nat)
      requires Valid() && clock <= now
      ensures chopCount == |VisibleWith(entries, {TokenChopRemedy, BothRemedies}, now)|
      ensures fallbackCount == |VisibleWith(entries, {FallbackRoute, BothRemedies}, now)|
    {
      chopCount, fallbackCount := 0, 0;
      var rest := entries.Keys;
      while rest != {}
        invariant rest <= entries.Keys
        invariant chopCount == |VisibleAmong(entries, entries.Keys - rest, {TokenChopRemedy, BothRemedies}, now)|
        invariant fallbackCount == |VisibleAmong(entries, entries.Keys - rest, {FallbackRoute, BothRemedies}, now)|
        decreases rest
      {
        ghost var witnessed := SomeElement(rest);
        var pid :| pid in rest;
        VisibleAmongGrows(entries, entries.Keys - rest, {TokenChopRemedy, BothRemedies}, now, pid);
        VisibleAmongGrows(entries, entries.Keys - rest, {FallbackRoute, BothRemedies}, now, pid);
        assert entries.Keys - rest + {pid} == entries.Keys - (rest - {pid});
        rest := rest - {pid};
        var state := entries[pid];
        if !state.active || now > state.coolingUntil { continue; }
        if state.remedy == TokenChopRemedy || state.remedy == BothRemedies { chopCount := chopCount + 1; }
        if state.remedy == FallbackRoute || state.remedy == BothRemedies { fallbackCount := fallbackCount + 1; }
      }
      assert entries.Keys - rest == entries.Keys;
    }

    /** Lists exactly the states a lookup would find now, once each. */
    method Snapshot(now: Nanos) returns (result: seq<MitigationState>)
      requires Valid() && clock <= now
      ensures ListsVisible(entries, entries.Keys, now, result)
    {
      result := [];
      var rest := entries.Keys;
      while rest != {}
        invariant rest <= entries.Keys
        invariant ListsVisible(entries, entries.Keys - rest, now, result)
        decreases rest
      {
        ghost var witnessed := SomeElement(rest);
        var pid :| pid in rest;
        rest := rest - {pid};
        var state := entries[pid];
        if state.active && now <= state.coolingUntil { result := result + [state]; }
      }
    }
  }
}
