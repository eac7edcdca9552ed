/**
 * The raw samples and change events (docs/history-maintenance.md:29-32 and 84-89): within their
 * retention they are exactly the accepted observations and the changes among them.
 */
module Records {
  import opened Prelude
  import opened HistoryStats
  import opened Tiers
  import opened History
  import opened Ingest
  import opened Inventory
  import opened Sync
  import opened Untouched
  import opened Archive
  import Rollup
  import Prune
  import HistoryRuns

  /** The first observation is a change, and so is one that says something else than the one before. */
  ghost function ChangeAt(log: Log, at: int): Option<Event> {
    match log
    case Start => None
    case Then(older, newest) =>
      if newest.at != at then ChangeAt(older, at)
      else if older.Start? then Some(Event(None, newest.observation))
      else if SameButTiming(older.newest.observation, newest.observation) then None
      else Some(Event(Some(older.newest.observation.state), newest.observation))
  }

  /** Nothing but how long the attempt took, and whether it succeeded, may differ. */
  predicate SameButTiming(previous: Observation, o: Observation) {
    o == previous.(latency := o.latency, success := o.success)
  }

  function RawCutoff(e: Epoch, config: HistoryConfig, usageRetention: int, clock: int): int {
    Cutoff(clock, if e.key.kind == "usage" then usageRetention else config.rawRetention)
  }

  /** The rows of one epoch at one time. */
  ghost predicate RowsMatch(h: History, config: HistoryConfig, usageRetention: int, clock: int, id: int, at: int) {
    id in h.epochs && id in h.log ==>
      && ((id, at) in h.raw ==> EntryAt(h.log[id], at) == Some(h.raw[(id, at)]))
      && ((id, at) in h.events ==> ChangeAt(h.log[id], at) == Some(h.events[(id, at)]))
      && (EntryAt(h.log[id], at).Some? && RawCutoff(h.epochs[id], config, usageRetention, clock) <= at ==>
          (id, at) in h.raw)
      && (ChangeAt(h.log[id], at).Some? && Cutoff(clock, config.eventRetention) <= at ==> (id, at) in h.events)
  }

  /** Within their retention the tables hold every accepted observation and change, and nothing else ever. */
  ghost predicate RecordsOk(h: History, config: HistoryConfig, usageRetention: int, clock: int) {
    forall id, at :: RowsMatch(h, config, usageRetention, clock, id, at)
  }

  lemma {:induction false} NothingLater(log: Log, started: int, end: int, at: int)
    requires Ordered(log, started, end) && end < at
    ensures EntryAt(log, at).None? && ChangeAt(log, at).None?
  {
    if log.Then? {
      NothingLater(log.older, started, log.newest.at - 1, at);
    }
  }

  lemma RecordsLater(h: History, config: HistoryConfig, usageRetention: int, clock: int, now: int)
    requires RecordsOk(h, config, usageRetention, clock) && clock <= now
    ensures RecordsOk(h, config, usageRetention, now)
  {
    hide EntryAt, ChangeAt;
    forall id, at
      ensures RowsMatch(h, config, usageRetention, now, id, at)
    {
      assert RowsMatch(h, config, usageRetention, clock, id, at);
    }
  }

  lemma RecordKeeps(h: History, id: int, at: int, o: Observation, config: HistoryConfig, usageRetention: int, now: int)
    requires RecordsOk(h, config, usageRetention, now) && EpochsOk(h, now)
    requires id in h.epochs && h.epochs[id].ended.None? && Accepts(h, id, at, now)
    ensures RecordsOk(Accepted(h, id, at, o), config, usageRetention, now)
  {
    hide AddSample, FlushTail, EpochOk, Ordered, RowsMatch;
    forall other, t
      ensures RowsMatch(Accepted(h, id, at, o), config, usageRetention, now, other, t)
    {
      RecordKeepsAt(h, id, at, o, config, usageRetention, now, other, t);
    }
  }

  lemma RecordKeepsAt(
    h: History, id: int, at: int, o: Observation, config: HistoryConfig, usageRetention: int, now: int, other: int,
    t: int)
    requires RowsMatch(h, config, usageRetention, now, other, t) && RowsMatch(h, config, usageRetention, now, id, at)
    requires EpochsOk(h, now)
    requires id in h.epochs && h.epochs[id].ended.None? && Accepts(h, id, at, now)
    ensures RowsMatch(Accepted(h, id, at, o), config, usageRetention, now, other, t)
  {
    hide AddSample, FlushTail;
    var e := h.epochs[id];
    assert EpochOk(e, h.log[id], now);
    OrderedBelow(h.log[id], e.started, EndAt(e, now), at);
    NothingLater(h.log[id], e.started, at - 1, at);
    assert (id, at) !in h.events;
    if other == id && t == at {
      FirstIsChange(h.log[id], at, o);
    }
  }

  lemma FirstIsChange(log: Log, at: int, o: Observation)
    ensures EntryAt(Then(log, Entry(at, o)), at) == Some(o)
    ensures ChangeAt(Then(log, Entry(at, o)), at)
      == match Newest(log)
         case None => Some(Event(None, o))
         case Some(last) =>
           if SameButTiming(last.observation, o) then None else Some(Event(Some(last.observation.state), o))
  {
  }

  lemma SameKeeps(h: History, after: History, config: HistoryConfig, usageRetention: int, now: int)
    requires RecordsOk(h, config, usageRetention, now) && Referenced(h) && SameRecords(h, after, now)
    ensures RecordsOk(after, config, usageRetention, now)
  {
    hide OnGrid;
    forall id, at
      ensures RowsMatch(after, config, usageRetention, now, id, at)
    {
      assert RowsMatch(h, config, usageRetention, now, id, at);
      if (id, at) in h.raw || (id, at) in h.events {
        assert id in h.epochs;
      }
    }
  }

  // ----- synchronisation and rollup touch no record -----

  lemma SyncKeeps(h: History, after: History, wanted: seq<Wanted>, config: HistoryConfig, usageRetention: int, now: int)
    requires RecordsOk(h, config, usageRetention, now) && Referenced(h) && h.log.Keys == h.epochs.Keys
    requires Synced(h, after, wanted, now)
    ensures RecordsOk(after, config, usageRetention, now)
  {
    hide SameRecords, RecordsOk, Referenced, Synced;
    SyncSame(h, after, wanted, now);
    SameKeeps(h, after, config, usageRetention, now);
  }

  // ----- pruning deletes only what is past its retention -----

  lemma NotExpired(h: History, p: Prune.Passes, now: int, config: HistoryConfig, usageRetention: int, id: int, at: int)
    requires id in h.epochs
    ensures RawCutoff(h.epochs[id], config, usageRetention, now) <= at ==>
      && (id, at) !in Prune.ExpiredRaw(h.epochs, h.raw, false, Cutoff(now, config.rawRetention))
      && (id, at) !in Prune.ExpiredRaw(h.epochs, p.raw1, true, Cutoff(now, usageRetention))
    ensures Cutoff(now, config.eventRetention) <= at ==>
      (id, at) !in Prune.ExpiredEvents(h.events, Cutoff(now, config.eventRetention))
  {
  }

  lemma RawPruned(
    h: History, p: Prune.Passes, now: int, config: HistoryConfig, usageRetention: int, limit: nat, id: int, at: int)
    requires Prune.Pruned(h, p, now, config, usageRetention, limit) && id in h.epochs
    ensures (id, at) in p.raw2 ==> (id, at) in h.raw && p.raw2[(id, at)] == h.raw[(id, at)]
    ensures (id, at) in h.raw && RawCutoff(h.epochs[id], config, usageRetention, now) <= at ==> (id, at) in p.raw2
    ensures (id, at) in p.events ==> (id, at) in h.events && p.events[(id, at)] == h.events[(id, at)]
    ensures (id, at) in h.events && Cutoff(now, config.eventRetention) <= at ==> (id, at) in p.events
  {
    hide Prune.ExpiredRaw, Prune.ExpiredEvents, Prune.ExpiredBuckets, Prune.Unreferenced, Prune.RowsPruned,
         Prune.EpochCutoff, Prune.Trimmed, Boundary, RawCutoff;
    NotExpired(h, p, now, config, usageRetention, id, at);
    var raw, usage := Cutoff(now, config.rawRetention), Cutoff(now, usageRetention);
    var event := Cutoff(now, config.eventRetention);
    Prune.TrimmedRows(h.raw, p.raw1, Prune.ExpiredRaw(h.epochs, h.raw, false, raw), limit);
    Prune.TrimmedRows(p.raw1, p.raw2, Prune.ExpiredRaw(h.epochs, p.raw1, true, usage), limit);
    Prune.TrimmedRows(h.events, p.events, Prune.ExpiredEvents(h.events, event), limit);
  }

  lemma PruneKeeps(h: History, p: Prune.Passes, now: int, config: HistoryConfig, usageRetention: int, limit: nat)
    requires RecordsOk(h, config, usageRetention, now) && EpochsOk(h, now)
    requires Prune.Pruned(h, p, now, config, usageRetention, limit)
    ensures RecordsOk(Prune.PrunedBy(h, p), config, usageRetention, now)
  {
    hide Prune.Pruned, Prune.Kept, EntryAt, ChangeAt, EpochOk, EpochsOk, RawCutoff;
    Prune.PrunedKeeps(h, p, now, config, usageRetention, limit);
    Prune.KeptEpochs(h, p, now, config);
    Prune.PrunedFields(h, p);
    hide Prune.PrunedBy;
    var after := Prune.PrunedBy(h, p);
    forall id, at
      ensures RowsMatch(after, config, usageRetention, now, id, at)
    {
      if id in after.epochs && id in after.log {
        assert RowsMatch(h, config, usageRetention, now, id, at);
        RawPruned(h, p, now, config, usageRetention, limit, id, at);
        LogsKept(h, now);
      }
    }
  }

  lemma LogsKept(h: History, now: int)
    requires EpochsOk(h, now)
    ensures h.log.Keys == h.epochs.Keys
  {
  }

  /** The usage retention pruning uses throughout. */
  predicate PrunesWith(t: HistoryRuns.Transaction, usageRetention: int) {
    t.operation.PruneRows? ==> t.operation.usageRetention == usageRetention
  }

  lemma NextKeepsRecords(
    h: History, t: HistoryRuns.Transaction, config: HistoryConfig, usageRetention: int, after: History)
    requires config.Valid() && Inv(h, config, t.now) && RecordsOk(h, config, usageRetention, t.now)
    requires HistoryRuns.Next(h, t, config, after) && PrunesWith(t, usageRetention)
    ensures RecordsOk(after, config, usageRetention, t.now)
  {
    hide Inv, RecordsOk, Accepts, Accepted, Synced, Prune.Pruned, Prune.PrunedBy, Wants, Referenced, EpochsOk;
    InvParts(h, config, t.now);
    match t.operation
    case Record(key, at, o) =>
      if HasLive(h.epochs, key) && Accepts(h, LiveId(h.epochs, key), at, t.now) {
        RecordKeeps(h, LiveId(h.epochs, key), at, o, config, usageRetention, t.now);
      }
    case Synchronise(hosts) => SyncKeeps(h, after, Wants(hosts), config, usageRetention, t.now);
    case RollUp(limit) =>
      var n: nat :| n <= limit && after == Rollup.Steps(h, t.now, config, n) && (n == limit || after.spans == []);
      StepsSame(h, t.now, config, n);
      SameKeeps(h, after, config, usageRetention, t.now);
    case PruneRows(retention, limit, passes) => PruneKeeps(h, passes, t.now, config, usageRetention, limit);
  }

  // ----- deleted epochs -----

  /** Whatever was accepted into the epoch is past its retention. */
  ghost predicate Expired(p: Past, config: HistoryConfig, usageRetention: int, clock: int) {
    forall at ::
      && (EntryAt(p.log, at).Some? ==> at < RawCutoff(p.epoch, config, usageRetention, clock))
      && (ChangeAt(p.log, at).Some? ==> at < Cutoff(clock, config.eventRetention))
  }

  ghost predicate GoneExpired(gone: seq<Past>, config: HistoryConfig, usageRetention: int, clock: int) {
    forall i :: 0 <= i < |gone| ==> Expired(gone[i], config, usageRetention, clock)
  }

  lemma ExpiredLater(gone: seq<Past>, config: HistoryConfig, usageRetention: int, clock: int, now: int)
    requires GoneExpired(gone, config, usageRetention, clock) && clock <= now
    ensures GoneExpired(gone, config, usageRetention, now)
  {
    hide EntryAt, ChangeAt;
    forall i | 0 <= i < |gone|
      ensures Expired(gone[i], config, usageRetention, now)
    {
      assert Expired(gone[i], config, usageRetention, clock);
    }
  }

  lemma RowsAreUse(h: History, id: int, at: int)
    ensures (id, at) in h.raw || (id, at) in h.events ==> Prune.InUse(h, id)
  {
    if (id, at) in h.raw {
      assert (id, at).0 == id;
    }
    if (id, at) in h.events {
      assert (id, at).0 == id;
    }
  }

  /** An epoch is deleted only when everything accepted into it is past its retention. */
  lemma DeletedExpired(
    h: History, p: Prune.Passes, now: int, config: HistoryConfig, usageRetention: int, limit: nat, id: int)
    requires RecordsOk(h, config, usageRetention, now) && Prune.Pruned(h, p, now, config, usageRetention, limit)
    requires id in h.epochs && id in h.log && id !in p.epochs
    ensures Expired(PastOf(h, id), config, usageRetention, now)
  {
    hide Prune.Pruned, EntryAt, ChangeAt, RawCutoff, Boundary, Prune.InUse;
    Prune.PrunedKeeps(h, p, now, config, usageRetention, limit);
    forall at
      ensures EntryAt(h.log[id], at).Some? ==> at < RawCutoff(h.epochs[id], config, usageRetention, now)
      ensures ChangeAt(h.log[id], at).Some? ==> at < Cutoff(now, config.eventRetention)
    {
      assert RowsMatch(h, config, usageRetention, now, id, at);
      RawPruned(h, p, now, config, usageRetention, limit, id, at);
      RowsAreUse(Prune.RowsPruned(h, p), id, at);
    }
  }

  lemma PruneKeepsExpired(
    w: World, p: Prune.Passes, at: int, config: HistoryConfig, usageRetention: int, limit: nat, after: World)
    requires Inv(w.h, config, at) && RecordsOk(w.h, config, usageRetention, at)
    requires GoneExpired(w.gone, config, usageRetention, at)
    requires Prune.Pruned(w.h, p, at, config, usageRetention, limit)
    requires after.h == Prune.PrunedBy(w.h, p) && Archives(w, after)
    ensures GoneExpired(after.gone, config, usageRetention, at)
  {
    hide Inv, RecordsOk, Prune.Pruned, Prune.PrunedBy, Expired, Listed, StoredIds;
    var gone := StoredIds(w.h) - StoredIds(after.h);
    ListedAre(w.h, gone);
    forall i | |w.gone| <= i < |after.gone|
      ensures Expired(after.gone[i], config, usageRetention, at)
    {
      assert after.gone[i] in Listed(w.h, gone);
      var id :| id in gone && after.gone[i] == PastOf(w.h, id);
      HistoryRuns.DeletedByPruning(w.h, p, at, config, usageRetention, limit, id);
      DeletedExpired(w.h, p, at, config, usageRetention, limit, id);
    }
  }

  lemma StepKeepsExpired(w: World, t: HistoryRuns.Transaction, config: HistoryConfig, usageRetention: int, after: World)
    requires config.Valid() && Inv(w.h, config, t.now) && RecordsOk(w.h, config, usageRetention, t.now)
    requires GoneExpired(w.gone, config, usageRetention, t.now)
    requires HistoryRuns.IsStep(w, t, config, after) && PrunesWith(t, usageRetention)
    ensures GoneExpired(after.gone, config, usageRetention, t.now)
  {
    hide Inv, RecordsOk, HistoryRuns.Next, Archives, GoneExpired, Prune.Pruned, Prune.PrunedBy;
    if t.operation.PruneRows? {
      HistoryRuns.NextIsPrune(w.h, t, config, after.h);
      var limit := t.operation.limit;
      PruneKeepsExpired(w, t.operation.passes, t.now, config, usageRetention, limit, after);
    } else {
      HistoryRuns.NextKeepsStored(w.h, t, config, after.h);
      HistoryRuns.NothingArchived(w, after);
    }
  }

  // ----- every run -----

  lemma {:induction false} RunsKeepRows(
    states: seq<World>, run: seq<HistoryRuns.Transaction>, config: HistoryConfig, usageRetention: int, i: nat,
    clock: int)
    requires config.Valid() && HistoryRuns.IsRun(states, run, config) && i <= |run|
    requires forall k :: 0 <= k < |run| ==> PrunesWith(run[k], usageRetention)
    requires i > 0 ==> run[i - 1].now <= clock
    ensures RecordsOk(states[i].h, config, usageRetention, clock)
    ensures GoneExpired(states[i].gone, config, usageRetention, clock)
  {
    hide Inv, HistoryRuns.Next, HistoryRuns.WorldOk, RecordsOk, GoneExpired, Archives;
    if i == 0 {
      NoRecords(config, usageRetention, clock);
    } else {
      var t := run[i - 1];
      HistoryRuns.RunsKeepInv(states, run, config, i - 1, t.now);
      RunsKeepRows(states, run, config, usageRetention, i - 1, t.now);
      assert HistoryRuns.IsStep(states[i - 1], t, config, states[i]);
      NextKeepsRecords(states[i - 1].h, t, config, usageRetention, states[i].h);
      StepKeepsExpired(states[i - 1], t, config, usageRetention, states[i]);
      RecordsLater(states[i].h, config, usageRetention, t.now, clock);
      ExpiredLater(states[i].gone, config, usageRetention, t.now, clock);
    }
  }

  lemma NoRecords(config: HistoryConfig, usageRetention: int, clock: int)
    ensures RecordsOk(EMPTY, config, usageRetention, clock) && GoneExpired([], config, usageRetention, clock)
  {
  }

  /** The raw row of the epoch's observation at a time is stored, or that time is past its retention. */
  ghost predicate EntryStored(h: History, p: Past, config: HistoryConfig, usageRetention: int, clock: int, at: int) {
    EntryAt(p.log, at).Some? && RawCutoff(p.epoch, config, usageRetention, clock) <= at ==>
      exists id ::
        && id in StoredIds(h) && PastOf(h, id) == p
        && (id, at) in h.raw && EntryAt(p.log, at) == Some(h.raw[(id, at)])
  }

  ghost predicate EventStored(h: History, p: Past, config: HistoryConfig, clock: int, at: int) {
    ChangeAt(p.log, at).Some? && Cutoff(clock, config.eventRetention) <= at ==>
      exists id ::
        && id in StoredIds(h) && PastOf(h, id) == p
        && (id, at) in h.events && ChangeAt(p.log, at) == Some(h.events[(id, at)])
  }

  /**
   * Main result for the raw and event tables: in every reachable store every observation ever
   * accepted, into whichever epoch, deleted ones included, has its raw row while within its
   * retention, and every change its event; and every row there is such an observation or change.
   */
  lemma RunsKeepRecords(
    states: seq<World>, run: seq<HistoryRuns.Transaction>, config: HistoryConfig, usageRetention: int, i: nat,
    clock: int)
    requires config.Valid() && HistoryRuns.IsRun(states, run, config) && i <= |run|
    requires forall k :: 0 <= k < |run| ==> PrunesWith(run[k], usageRetention)
    requires i > 0 ==> run[i - 1].now <= clock
    ensures var w := states[i];
      && (forall p, at :: p in Everything(w) ==>
            EntryStored(w.h, p, config, usageRetention, clock, at) && EventStored(w.h, p, config, clock, at))
      && (forall row :: row in w.h.raw ==>
            PastOf(w.h, row.0) in Everything(w) && EntryAt(PastOf(w.h, row.0).log, row.1) == Some(w.h.raw[row]))
      && (forall row :: row in w.h.events ==>
            PastOf(w.h, row.0) in Everything(w) && ChangeAt(PastOf(w.h, row.0).log, row.1) == Some(w.h.events[row]))
  {
    hide HistoryRuns.IsStep, Everything, EntryStored, EventStored, RecordsOk, GoneExpired, HistoryRuns.WorldOk, Inv,
         EntryAt, ChangeAt;
    var w := states[i];
    RunsKeepRows(states, run, config, usageRetention, i, clock);
    HistoryRuns.RunsKeepInv(states, run, config, i, clock);
    forall p, at | p in Everything(w)
      ensures EntryStored(w.h, p, config, usageRetention, clock, at) && EventStored(w.h, p, config, clock, at)
    {
      ArchivedRows(w, config, usageRetention, clock, p, at);
    }
    forall row | row in w.h.raw
      ensures PastOf(w.h, row.0) in Everything(w) && EntryAt(PastOf(w.h, row.0).log, row.1) == Some(w.h.raw[row])
    {
      RawIsEntry(w, config, usageRetention, clock, row);
    }
    forall row | row in w.h.events
      ensures PastOf(w.h, row.0) in Everything(w) && ChangeAt(PastOf(w.h, row.0).log, row.1) == Some(w.h.events[row])
    {
      EventIsChange(w, config, usageRetention, clock, row);
    }
  }

  lemma ArchivedRows(w: World, config: HistoryConfig, usageRetention: int, clock: int, p: Past, at: int)
    requires RecordsOk(w.h, config, usageRetention, clock) && GoneExpired(w.gone, config, usageRetention, clock)
    requires p in Everything(w)
    ensures EntryStored(w.h, p, config, usageRetention, clock, at) && EventStored(w.h, p, config, clock, at)
  {
    hide Everything, EntryAt, ChangeAt, RawCutoff;
    EverythingIsArchived(w, p);
    if p in w.gone {
      assert Expired(p, config, usageRetention, clock);
    } else {
      var id :| id in StoredIds(w.h) && p == PastOf(w.h, id);
      assert RowsMatch(w.h, config, usageRetention, clock, id, at);
    }
  }

  lemma RawIsEntry(w: World, config: HistoryConfig, usageRetention: int, clock: int, row: (int, int))
    requires RecordsOk(w.h, config, usageRetention, clock) && Inv(w.h, config, clock) && row in w.h.raw
    ensures PastOf(w.h, row.0) in Everything(w) && EntryAt(PastOf(w.h, row.0).log, row.1) == Some(w.h.raw[row])
  {
    hide Everything, EntryAt, ChangeAt, RawCutoff, EpochsOk, Conserved, LifetimesApart, SpansOk, OnGrid;
    InvParts(w.h, config, clock);
    assert RowsMatch(w.h, config, usageRetention, clock, row.0, row.1);
    EverythingIsArchived(w, PastOf(w.h, row.0));
  }

  lemma EventIsChange(w: World, config: HistoryConfig, usageRetention: int, clock: int, row: (int, int))
    requires RecordsOk(w.h, config, usageRetention, clock) && Inv(w.h, config, clock) && row in w.h.events
    ensures PastOf(w.h, row.0) in Everything(w) && ChangeAt(PastOf(w.h, row.0).log, row.1) == Some(w.h.events[row])
  {
    hide Everything, EntryAt, ChangeAt, RawCutoff, EpochsOk, Conserved, LifetimesApart, SpansOk, OnGrid;
    InvParts(w.h, config, clock);
    assert RowsMatch(w.h, config, usageRetention, clock, row.0, row.1);
    EverythingIsArchived(w, PastOf(w.h, row.0));
  }

  /** So an accepted observation can be read back, as it was reported, until its retention is over. */
  lemma AcceptedIsStored(
    states: seq<World>, run: seq<HistoryRuns.Transaction>, config: HistoryConfig, usageRetention: int, i: nat,
    j: nat, clock: int, key: CheckKey, at: int, o: Observation)
    requires config.Valid() && HistoryRuns.IsRun(states, run, config) && i < j <= |run| && run[j - 1].now <= clock
    requires forall k :: 0 <= k < |run| ==> PrunesWith(run[k], usageRetention)
    requires HistoryRuns.AcceptsAt(states[i], run[i], key, at, o)
    requires Cutoff(clock, if key.kind == "usage" then usageRetention else config.rawRetention) <= at
    ensures var h := states[j].h;
      exists id :: id in h.epochs && h.epochs[id].key == key && (id, at) in h.raw && h.raw[(id, at)] == o
  {
    hide HistoryRuns.IsStep, HistoryRuns.AcceptsAt, Everything, EntryAt, Cutoff;
    var p := HistoryRuns.AcceptedIsArchived(states, run, config, i, j, key, at, o);
    RunsKeepRecords(states, run, config, usageRetention, j, clock);
    assert EntryStored(states[j].h, p, config, usageRetention, clock, at);
    var id :| id in StoredIds(states[j].h) && PastOf(states[j].h, id) == p && (id, at) in states[j].h.raw
              && EntryAt(p.log, at) == Some(states[j].h.raw[(id, at)]);
    assert states[j].h.epochs[id].key == key;
  }
}
