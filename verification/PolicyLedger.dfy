/** The transaction ledger: records by transaction id, a secondary index by PID, and the expiry sweep. */
module PolicyLedger {
  import opened Durations
  import opened Options
  import opened PolicyTypes

  /** The ledger's two maps as a value; `records` is keyed by transaction id. */
  datatype Ledger = Ledger(records: map<TxId, Record>, pidIndex: map<Pid, seq<TxId>>)

  const EMPTY_LEDGER: Ledger := Ledger(map[], map[])

  /** `index` lists each id of `ids` exactly once, under the PID of its record, and lists nothing else. */
  ghost predicate Indexes(index: map<Pid, seq<TxId>>, records: map<TxId, Record>, ids: set<TxId>) {
    && (forall pid | pid in index ::
          && NoDuplicates(index[pid])
          && forall j | 0 <= j < |index[pid]| ::
               index[pid][j] in ids && index[pid][j] in records && records[index[pid][j]].targetPID == pid)
    && (forall id | id in ids ::
          id in records && records[id].targetPID in index && id in index[records[id].targetPID])
  }

  ghost predicate WellIndexed(l: Ledger) {
    Indexes(l.pidIndex, l.records, l.records.Keys)
  }

  function IdsOf(l: Ledger, pid: Pid): seq<TxId> {
    if pid in l.pidIndex then l.pidIndex[pid] else []
  }

  predicate Unexpired(r: Record, now: Nanos) {
    now <= r.expiry
  }

  /** The full scan that `HistoricalCount` replaces by an index lookup. */
  ghost function UnexpiredFor(l: Ledger, pid: Pid, now: Nanos): set<TxId> {
    set id | id in l.records && l.records[id].targetPID == pid && Unexpired(l.records[id], now)
  }

  ghost function CountListed(records: map<TxId, Record>, ids: seq<TxId>, now: Nanos): nat {
    if ids == [] then 0
    else
      var last := ids[|ids| - 1];
      CountListed(records, ids[..|ids| - 1], now)
      + (if last in records && Unexpired(records[last], now) then 1 else 0)
  }

  ghost function IndexedCount(l: Ledger, pid: Pid, now: Nanos): nat {
    CountListed(l.records, IdsOf(l, pid), now)
  }

  function NewRecord(txID: TxId, now: Nanos, intent: Intent, status: Status, rules: seq<RuleName>,
                     cooldownSecs: int, reason: Option<RuleName>, prior: nat): Record
  {
    Record(txID, now, now + cooldownSecs * NANOS, intent.targetPID, intent.containerID,
           intent.processName, intent.actionType, status, rules, prior, cooldownSecs, reason)
  }

  function Insert(l: Ledger, r: Record): Ledger {
    Ledger(l.records[r.transactionID := r],
           l.pidIndex[r.targetPID := IdsOf(l, r.targetPID) + [r.transactionID]])
  }

  /** `UpdateStatus` has no guard: any status may be written over any other. */
  function SetStatus(l: Ledger, txID: TxId, status: Status): Ledger {
    if txID in l.records
    then l.(records := l.records[txID := l.records[txID].(status := status)])
    else l
  }

  ghost function UnexpiredRecords(l: Ledger, now: Nanos): map<TxId, Record> {
    map id | id in l.records && Unexpired(l.records[id], now) :: l.records[id]
  }

  ghost predicate OlderThan(evicted: map<TxId, Record>, kept: map<TxId, Record>) {
    forall e, k | e in evicted && e !in kept && k in kept :: evicted[e].timestamp <= kept[k].timestamp
  }

  /** What `kept` may be once eviction has run on the unexpired records `live`: a part of `live` that loses only
      its oldest entries, none of them from the future, and no more of them than the capacity asks for. */
  ghost predicate EvictedTo(live: map<TxId, Record>, now: Nanos, maxEntries: nat, kept: map<TxId, Record>) {
    && kept.Keys <= live.Keys
    && (forall id | id in kept :: kept[id] == live[id])
    && OlderThan(live, kept)
    && (forall id | id in live && id !in kept :: live[id].timestamp <= now)
    && |kept| <= |live|
    && (|live| <= maxEntries ==> kept == live)
    && (|live| > maxEntries ==> |kept| >= maxEntries)
    && (|kept| <= maxEntries || forall id | id in kept :: kept[id].timestamp > now)
  }

  /** Everything a sweep may do. Map iteration order is unspecified, so ties may be broken either way. */
  ghost predicate SweepsTo(l: Ledger, now: Nanos, maxEntries: nat, l': Ledger) {
    && EvictedTo(UnexpiredRecords(l, now), now, maxEntries, l'.records)
    && WellIndexed(l')
  }

  // ----- the ledger's laws -----

  ghost function UnexpiredAmong(records: map<TxId, Record>, ids: seq<TxId>, now: Nanos): set<TxId> {
    set id | id in ids && id in records && Unexpired(records[id], now)
  }

  lemma {:induction false} CountListedIsScan(records: map<TxId, Record>, ids: seq<TxId>, now: Nanos)
    requires NoDuplicates(ids)
    ensures CountListed(records, ids, now) == |UnexpiredAmong(records, ids, now)|
  {
    if ids == [] {
      assert UnexpiredAmong(records, ids, now) == {};
    } else {
      CountListedIsScan(records, ids[..|ids| - 1], now);
      UnexpiredAmongGrows(records, ids, now);
    }
  }

  lemma ListedLast(ids: seq<TxId>)
    requires ids != []
    ensures forall id :: id in ids <==> id in ids[..|ids| - 1] || id == ids[|ids| - 1]
  {
    assert ids == ids[..|ids| - 1] + [ids[|ids| - 1]];
  }

  lemma UnexpiredAmongGrows(records: map<TxId, Record>, ids: seq<TxId>, now: Nanos)
    requires NoDuplicates(ids) && ids != []
    ensures var rest, last := ids[..|ids| - 1], ids[|ids| - 1];
            |UnexpiredAmong(records, ids, now)|
            == |UnexpiredAmong(records, rest, now)| + (if last in records && Unexpired(records[last], now) then 1 else 0)
  {
    var rest, last := ids[..|ids| - 1], ids[|ids| - 1];
    var before, after := UnexpiredAmong(records, rest, now), UnexpiredAmong(records, ids, now);
    assert last !in rest by {
      assert forall i | 0 <= i < |rest| :: rest[i] == ids[i] != ids[|ids| - 1];
    }
    ListedLast(ids);
    if last in records && Unexpired(records[last], now) {
      assert after == before + {last};
    } else {
      assert after == before;
    }
  }

  /** The indexed count is the count of a full scan. */
  lemma HistoricalCountIsFullScan(l: Ledger, pid: Pid, now: Nanos)
    requires WellIndexed(l)
    ensures IndexedCount(l, pid, now) == |UnexpiredFor(l, pid, now)|
  {
    var ids := IdsOf(l, pid);
    CountListedIsScan(l.records, ids, now);
    assert UnexpiredFor(l, pid, now) == UnexpiredAmong(l.records, ids, now);
  }

  lemma {:induction false} DistinctCount(ids: seq<TxId>)
    requires NoDuplicates(ids)
    ensures |set id | id in ids| == |ids|
  {
    var all := set id | id in ids;
    if ids == [] {
      assert all == {};
    } else {
      var rest, last := ids[..|ids| - 1], ids[|ids| - 1];
      DistinctCount(rest);
      assert ids == rest + [last] && last !in rest;
      assert all == (set id | id in rest) + {last};
    }
  }

  /** The index lists as many ids as the PID has records, expired or not. */
  lemma IndexCountsAll(l: Ledger, pid: Pid)
    requires WellIndexed(l)
    ensures |IdsOf(l, pid)| == |set id | id in l.records && l.records[id].targetPID == pid|
  {
    var ids := IdsOf(l, pid);
    DistinctCount(ids);
    assert (set id | id in l.records && l.records[id].targetPID == pid) == set id | id in ids;
  }

  lemma InsertKeepsIndex(l: Ledger, r: Record)
    requires WellIndexed(l) && r.transactionID !in l.records
    ensures WellIndexed(Insert(l, r))
  {
    var l' := Insert(l, r);
    var id := r.transactionID;
    forall pid | pid in l'.pidIndex
      ensures NoDuplicates(l'.pidIndex[pid])
      ensures forall j | 0 <= j < |l'.pidIndex[pid]| ::
                l'.pidIndex[pid][j] in l'.records && l'.records[l'.pidIndex[pid][j]].targetPID == pid
    {
      if pid == r.targetPID {
        assert l'.pidIndex[pid] == IdsOf(l, pid) + [id];
        assert id !in IdsOf(l, pid);
      } else {
        assert l'.pidIndex[pid] == l.pidIndex[pid];
      }
    }
    forall k | k in l'.records
      ensures l'.records[k].targetPID in l'.pidIndex && k in l'.pidIndex[l'.records[k].targetPID]
    {
      var pid := l'.records[k].targetPID;
      if k != id && pid == r.targetPID {
        assert k in l.pidIndex[pid];
      }
    }
  }

  lemma SetStatusKeepsIndex(l: Ledger, txID: TxId, status: Status)
    requires WellIndexed(l)
    ensures WellIndexed(SetStatus(l, txID, status))
  {
    var l' := SetStatus(l, txID, status);
    assert l'.records.Keys == l.records.Keys;
  }

  /** Registered ids are counted: the new record joins the scan of its PID and no other. */
  lemma InsertExtendsScan(l: Ledger, r: Record, pid: Pid, now: Nanos)
    requires r.transactionID !in l.records
    ensures UnexpiredFor(Insert(l, r), pid, now)
         == UnexpiredFor(l, pid, now)
            + (if r.targetPID == pid && Unexpired(r, now) then {r.transactionID} else {})
  {
  }

  /** With timestamps no later than the sweep, the survivors are the newest min(maxEntries, live) unexpired records. */
  lemma SweepKeepsNewest(l: Ledger, now: Nanos, maxEntries: nat, l': Ledger)
    requires SweepsTo(l, now, maxEntries, l')
    requires forall id | id in l.records :: l.records[id].timestamp <= now
    ensures var live := UnexpiredRecords(l, now);
            && |l'.records| == (if |live| <= maxEntries then |live| else maxEntries)
            && l'.records.Keys <= live.Keys
            && forall e, k | e in live && e !in l'.records && k in l'.records ::
                 live[e].timestamp <= l'.records[k].timestamp
  {
  }

  // ----- the ledger as an object -----

  class TransactionLedger {
    var records: map<TxId, Record>
    var pidIndex: map<Pid, seq<TxId>>
    const maxEntries: nat
    const cooldownSecs: nat

    ghost function View(): Ledger
      reads this
    {
      Ledger(records, pidIndex)
    }

    constructor (ledgerMaxEntries: int, cooldownSeconds: int)
      ensures View() == EMPTY_LEDGER && WellIndexed(View())
      ensures maxEntries == if ledgerMaxEntries <= 0 then 10000 else ledgerMaxEntries
      ensures cooldownSecs == if cooldownSeconds < 0 then 60 else cooldownSeconds
    {
      records, pidIndex := map[], map[];
      maxEntries := if ledgerMaxEntries <= 0 then 10000 else ledgerMaxEntries;
      cooldownSecs := if cooldownSeconds < 0 then 60 else cooldownSeconds;
    }

    /** `now` is the clock read before the lock is taken; `txID` is the freshly generated id. */
    method Register(intent: Intent, status: Status, rules: seq<RuleName>, cooldown: int,
                    reason: Option<RuleName>, now: Nanos, txID: TxId)
      returns (record: Record)
      requires WellIndexed(View()) && txID !in records
      modifies this
      ensures record == NewRecord(txID, now, intent, status, rules, cooldown, reason,
                                  |IdsOf(old(View()), intent.targetPID)|)
      ensures View() == Insert(old(View()), record) && WellIndexed(View())
    {
      var prior := if intent.targetPID in pidIndex then pidIndex[intent.targetPID] else [];
      record := NewRecord(txID, now, intent, status, rules, cooldown, reason, |prior|);
      InsertKeepsIndex(View(), record);
      records := records[txID := record];
      pidIndex := pidIndex[intent.targetPID := prior + [txID]];
    }

    method UpdateStatus(txID: TxId, status: Status) returns (ok: bool)
      requires WellIndexed(View())
      modifies this
      ensures ok == (txID in old(records))
      ensures View() == SetStatus(old(View()), txID, status) && WellIndexed(View())
      ensures pidIndex == old(pidIndex)
      ensures ok ==> records == old(records)[txID := old(records)[txID].(status := status)]
      ensures !ok ==> records == old(records)
    {
      SetStatusKeepsIndex(View(), txID, status);
      if txID !in records { return false; }
      records := records[txID := records[txID].(status := status)];
      return true;
    }

    method HistoricalCount(pid: Pid, now: Nanos) returns (count: nat)
      requires WellIndexed(View())
      ensures count == IndexedCount(View(), pid, now)
      ensures count == |UnexpiredFor(View(), pid, now)|
      ensures count == |set id | id in records && records[id].targetPID == pid && now <= records[id].expiry|
    {
      HistoricalCountIsFullScan(View(), pid, now);
      assert UnexpiredFor(View(), pid, now)
          == set id | id in records && records[id].targetPID == pid && now <= records[id].expiry;
      if pid !in pidIndex || |pidIndex[pid]| == 0 { return 0; }
      var txIDs := pidIndex[pid];
      count := 0;
      for i := 0 to |txIDs|
        invariant count == CountListed(records, txIDs[..i], now)
      {
        assert txIDs[..i + 1][..i] == txIDs[..i];
        if txIDs[i] in records && now <= records[txIDs[i]].expiry { count := count + 1; }
      }
      assert txIDs[..|txIDs|] == txIDs;
    }

    /** A snapshot of the EXECUTED records past their expiry, each once, in no particular order. */
    method ListExecutedExpired(now: Nanos) returns (result: seq<Record>)
      requires forall id | id in records :: records[id].transactionID == id
      ensures IsSnapshot(records, (r: Record) => r.status == Executed && now > r.expiry, result)
    {
      var rest := records.Keys;
      result := [];
      while rest != {}
        invariant rest <= records.Keys
        invariant forall r | r in result :: r.transactionID !in rest
        invariant IsSnapshot(map id | id in records && id !in rest :: records[id],
                             (r: Record) => r.status == Executed && now > r.expiry, result)
        decreases rest
      {
        var id :| id in rest;
        rest := rest - {id};
        var rec := records[id];
        if rec.status == Executed && now > rec.expiry { result := result + [rec]; }
      }
      assert (map id | id in records && id !in rest :: records[id]) == records;
    }

    method ListActive(now: Nanos) returns (result: seq<Record>)
      requires forall id | id in records :: records[id].transactionID == id
      ensures IsSnapshot(records, (r: Record) => r.status in {AuthorizedPending, Executed} && now <= r.expiry, result)
    {
      var rest := records.Keys;
      result := [];
      while rest != {}
        invariant rest <= records.Keys
        invariant forall r | r in result :: r.transactionID !in rest
        invariant IsSnapshot(map id | id in records && id !in rest :: records[id],
                             (r: Record) => r.status in {AuthorizedPending, Executed} && now <= r.expiry, result)
        decreases rest
      {
        var id :| id in rest;
        rest := rest - {id};
        var rec := records[id];
        if rec.status == AuthorizedPending || rec.status == Executed {
          if now <= rec.expiry { result := result + [rec]; }
        }
      }
      assert (map id | id in records && id !in rest :: records[id]) == records;
    }

    /** Deletes expired records, then the oldest ones until the ledger fits, then rebuilds the index. */
    method Sweep(now: Nanos)
      modifies this
      ensures SweepsTo(old(View()), now, maxEntries, View())
    {
      DeleteExpired(now);
      ghost var live := records;
      while |records| > maxEntries
        invariant pidIndex == old(pidIndex)
        invariant records.Keys <= live.Keys && forall id | id in records :: records[id] == live[id]
        invariant OlderThan(live, records)
        invariant forall id | id in live && id !in records :: live[id].timestamp <= now
        invariant |records| <= |live|
        invariant |live| <= maxEntries ==> records == live
        invariant |live| > maxEntries ==> |records| >= maxEntries
        decreases |records|
      {
        var oldest := FindOldest(now);
        if oldest.None? { break; }
        assert |records.Keys - {oldest.value}| == |records| - 1;
        assert (records - {oldest.value}).Keys == records.Keys - {oldest.value};
        records := records - {oldest.value};
      }
      RebuildPidIndex();
    }

    method DeleteExpired(now: Nanos)
      modifies this`records
      ensures records == UnexpiredRecords(old(View()), now)
      ensures forall id :: id in records <==> id in old(records) && now <= old(records)[id].expiry
    {
      var rest := records.Keys;
      while rest != {}
        invariant rest <= records.Keys <= old(records).Keys
        invariant forall id | id in records :: records[id] == old(records)[id]
        invariant forall id | id in old(records) && id !in rest ::
                    id in records <==> Unexpired(old(records)[id], now)
        decreases rest
      {
        var id :| id in rest;
        rest := rest - {id};
        if now > records[id].expiry { records := records - {id}; }
      }
    }

    /** The scan starts from `now`, so records stamped in the future are never chosen. */
    method FindOldest(now: Nanos) returns (oldest: Option<TxId>)
      ensures oldest.None? <==> forall id | id in records :: records[id].timestamp > now
      ensures oldest.Some? ==>
                && oldest.value in records
                && records[oldest.value].timestamp <= now
                && forall id | id in records :: records[oldest.value].timestamp <= records[id].timestamp
    {
      oldest := None;
      var oldestTs := now;
      var rest := records.Keys;
      while rest != {}
        invariant rest <= records.Keys
        invariant oldest.None? ==>
                    oldestTs == now && forall id | id in records && id !in rest :: records[id].timestamp > now
        invariant oldest.Some? ==>
                    && oldest.value in records && oldestTs == records[oldest.value].timestamp <= now
                    && forall id | id in records && id !in rest :: oldestTs <= records[id].timestamp
        decreases rest
      {
        var id :| id in rest;
        rest := rest - {id};
        if records[id].timestamp <= oldestTs {
          oldestTs := records[id].timestamp;
          oldest := Some(id);
        }
      }
    }

    method RebuildPidIndex()
      modifies this`pidIndex
      ensures WellIndexed(View())
    {
      var newIndex: map<Pid, seq<TxId>> := map[];
      var rest := records.Keys;
      while rest != {}
        invariant rest <= records.Keys
        invariant Indexes(newIndex, records, records.Keys - rest)
        decreases rest
      {
        var id :| id in rest;
        ghost var done := records.Keys - rest;
        rest := rest - {id};
        var pid := records[id].targetPID;
        var listed := if pid in newIndex then newIndex[pid] else [];
        assert id !in listed;
        ghost var before := newIndex;
        newIndex := newIndex[pid := listed + [id]];
        assert records.Keys - rest == done + {id};
        IndexGrows(before, records, done, id);
      }
      assert records.Keys - rest == records.Keys;
      pidIndex := newIndex;
    }
  }

  lemma IndexGrows(index: map<Pid, seq<TxId>>, records: map<TxId, Record>, ids: set<TxId>, id: TxId)
    requires Indexes(index, records, ids) && id in records && id !in ids
    ensures var pid := records[id].targetPID;
            Indexes(index[pid := (if pid in index then index[pid] else []) + [id]], records, ids + {id})
  {
    var pid := records[id].targetPID;
    var listed := if pid in index then index[pid] else [];
    var index' := index[pid := listed + [id]];
    assert id !in listed;
    forall p | p in index'
      ensures NoDuplicates(index'[p])
      ensures forall j | 0 <= j < |index'[p]| ::
                index'[p][j] in ids + {id} && index'[p][j] in records && records[index'[p][j]].targetPID == p
    {
      if p != pid { assert index'[p] == index[p]; }
    }
    forall k | k in ids + {id}
      ensures k in records && records[k].targetPID in index' && k in index'[records[k].targetPID]
    {
      if k != id && records[k].targetPID == pid { assert k in listed; }
    }
  }

  /** `result` holds exactly the records that satisfy `keep`, once each. */
  ghost predicate IsSnapshot(records: map<TxId, Record>, keep: Record -> bool, result: seq<Record>) {
    && (forall i, j :: 0 <= i < j < |result| ==> result[i].transactionID != result[j].transactionID)
    && (forall r | r in result :: r.transactionID in records && records[r.transactionID] == r && keep(r))
    && (forall id | id in records && keep(records[id]) :: records[id] in result)
  }
}
