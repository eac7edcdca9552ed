/** Every interleaving of ingestion, synchronisation, rollup and pruning, at clocks that never go back. */
module HistoryRuns {
  import opened Prelude
  import opened HistoryStats
  import opened Tiers
  import opened History
  import opened Ingest
  import opened Inventory
  import opened Sync
  import Rollup
  import Prune
  import Sums
  import Chart
  import Query
  import Plans
  import Promises
  import Truth
  import opened Untouched
  import opened Archive

  datatype Operation =
    | Record(key: CheckKey, at: int, observation: Observation)
    | Synchronise(hosts: seq<Host>)
    | RollUp(limit: nat)
    | PruneRows(usageRetention: int, limit: nat, passes: Prune.Passes)

  /** An operation and the clock reading of its transaction. */
  datatype Transaction = Transaction(operation: Operation, now: int)

  ghost predicate Recorded(h: History, key: CheckKey, at: int, o: Observation, now: int, after: History) {
    if HasLive(h.epochs, key) && LiveId(h.epochs, key) in h.log
    then after == RecordInto(h, LiveId(h.epochs, key), at, o, now)
    else after == h
  }

  ghost predicate RolledUp(h: History, now: int, config: HistoryConfig, limit: nat, after: History) {
    exists n: nat :: n <= limit && after == Rollup.Steps(h, now, config, n) && (n == limit || after.spans == [])
  }

  ghost predicate Next(h: History, t: Transaction, config: HistoryConfig, after: History) {
    match t.operation
    case Record(key, at, o) => Recorded(h, key, at, o, t.now, after)
    case Synchronise(hosts) => ValidHosts(hosts) && Synced(h, after, Wants(hosts), t.now)
    case RollUp(limit) => RolledUp(h, t.now, config, limit, after)
    case PruneRows(usageRetention, limit, passes) =>
      Prune.Pruned(h, passes, t.now, config, usageRetention, limit) && after == Prune.PrunedBy(h, passes)
  }

  /** `states[i + 1]` follows from `states[i]` by `run[i]`, from empty tables and an empty archive. */
  ghost predicate IsRun(states: seq<World>, run: seq<Transaction>, config: HistoryConfig) {
    && |states| == |run| + 1
    && states[0] == World(EMPTY, [])
    && (forall i :: 0 <= i < |run| ==> IsStep(states[i], run[i], config, states[i + 1]))
    && (forall i, j :: 0 <= i <= j < |run| ==> run[i].now <= run[j].now)
  }

  /** One transaction on the tables; what it deletes is archived. */
  ghost predicate IsStep(w: World, t: Transaction, config: HistoryConfig, after: World) {
    Next(w.h, t, config, after.h) && Archives(w, after)
  }

  lemma NextKeepsInv(h: History, t: Transaction, config: HistoryConfig, after: History)
    requires config.Valid() && Inv(h, config, t.now) && Next(h, t, config, after)
    ensures Inv(after, config, t.now)
  {
    hide Inv, RecordInto, Synced, Prune.Pruned, Prune.PrunedBy, Wants;
    match t.operation
    case Record(key, at, o) =>
      if HasLive(h.epochs, key) {
        RecordKeepsInv(h, LiveId(h.epochs, key), at, o, config, t.now);
      }
    case Synchronise(hosts) =>
      WantsDistinct(hosts);
      SyncEstablishes(h, after, Wants(hosts), config, t.now);
    case RollUp(limit) =>
      var n: nat :| n <= limit && after == Rollup.Steps(h, t.now, config, n) && (n == limit || after.spans == []);
      Rollup.StepsKeepInv(h, t.now, config, n);
    case PruneRows(usageRetention, limit, passes) =>
      Prune.PruneKeepsInv(h, passes, t.now, config, usageRetention, limit);
  }

  // ----- what a transaction does to the epochs -----

  /** Only pruning takes epochs out of the tables. */
  lemma NextKeepsStored(h: History, t: Transaction, config: HistoryConfig, after: History)
    requires Inv(h, config, t.now) && Next(h, t, config, after) && !t.operation.PruneRows?
    ensures StoredIds(h) <= StoredIds(after)
  {
    hide Inv, Accepts, Accepted, Synced, Wants, LifetimesApart, EpochsOk, SpansOk, Referenced, ValidHosts;
    InvParts(h, config, t.now);
    match t.operation
    case Record(key, at, o) =>
      if HasLive(h.epochs, key) && Accepts(h, LiveId(h.epochs, key), at, t.now) {
        AcceptedKeys(h, LiveId(h.epochs, key), at, o);
      }
    case Synchronise(hosts) =>
      SyncSame(h, after, Wants(hosts), t.now);
      SameStored(h, after, t.now);
    case RollUp(limit) => RolledUpSame(h, t.now, config, limit, after);
  }

  lemma SameStored(h: History, after: History, now: int)
    requires SameRecords(h, after, now)
    ensures StoredIds(h) <= StoredIds(after)
  {
    forall id | id in StoredIds(h)
      ensures id in StoredIds(after)
    {
      assert id in h.epochs && id in h.log && after.log[id] == h.log[id];
    }
  }

  lemma AcceptedKeys(h: History, id: int, at: int, o: Observation)
    requires id in h.epochs && id in h.log
    ensures Accepted(h, id, at, o).epochs.Keys == h.epochs.Keys && Accepted(h, id, at, o).log.Keys == h.log.Keys
    ensures OnlyGrew(h, Accepted(h, id, at, o))
  {
    hide Accepted, Grows;
    AcceptedLogs(h, id, at, o);
    var after := Accepted(h, id, at, o);
    forall other | other in StoredIds(h)
      ensures Extends(PastOf(h, other), PastOf(after, other))
    {
      GrowsByOne(h.log[other], Entry(at, o));
    }
  }

  lemma GrowsByOne(log: Log, entry: Entry)
    ensures Grows(log, log) && Grows(log, Then(log, entry))
  {
    assert Grows(log, log);
  }

  lemma AcceptedLogs(h: History, id: int, at: int, o: Observation)
    requires id in h.epochs && id in h.log
    ensures var after := Accepted(h, id, at, o);
      && after.epochs == h.epochs[id := h.epochs[id].(last := Some(Entry(at, o)))]
      && after.log == h.log[id := Then(h.log[id], Entry(at, o))]
  {
    hide AddSample, FlushTail, EventsWith;
  }

  lemma RolledUpSame(h: History, now: int, config: HistoryConfig, limit: nat, after: History)
    requires RolledUp(h, now, config, limit, after) && h.log.Keys == h.epochs.Keys
    ensures after.epochs == h.epochs && after.log == h.log
  {
    hide SameRecords;
    var n: nat :| n <= limit && after == Rollup.Steps(h, now, config, n) && (n == limit || after.spans == []);
    StepsSame(h, now, config, n);
  }

  /** What stays stored only gains observations, and perhaps an end. */
  lemma NextOnlyGrows(h: History, t: Transaction, config: HistoryConfig, after: History)
    requires Inv(h, config, t.now) && Next(h, t, config, after)
    ensures OnlyGrew(h, after)
  {
    hide Inv, Accepts, Accepted, Synced, Wants, LifetimesApart, EpochsOk, SpansOk, Referenced, ValidHosts, Prune.Pruned,
         Prune.PrunedBy, OnlyGrew, SameRecords;
    InvParts(h, config, t.now);
    match t.operation
    case Record(key, at, o) =>
      SameGrew(h, h, t.now);
      if HasLive(h.epochs, key) && Accepts(h, LiveId(h.epochs, key), at, t.now) {
        AcceptedKeys(h, LiveId(h.epochs, key), at, o);
      }
    case Synchronise(hosts) =>
      SyncSame(h, after, Wants(hosts), t.now);
      SameGrew(h, after, t.now);
    case RollUp(limit) =>
      RolledUpSame(h, t.now, config, limit, after);
      EqualGrew(h, after);
    case PruneRows(usageRetention, limit, passes) =>
      Prune.PrunedKeeps(h, passes, t.now, config, usageRetention, limit);
      PrunedGrew(h, passes, t.now, config);
  }

  lemma SameGrew(h: History, after: History, now: int)
    ensures SameRecords(h, after, now) ==> OnlyGrew(h, after)
    ensures OnlyGrew(h, h)
  {
  }

  lemma EqualGrew(h: History, after: History)
    requires after.epochs == h.epochs && after.log == h.log
    ensures OnlyGrew(h, after)
  {
  }

  lemma PrunedGrew(h: History, p: Prune.Passes, now: int, config: HistoryConfig)
    requires Prune.Kept(h, p, now, config) && EpochsOk(h, now)
    ensures OnlyGrew(h, Prune.PrunedBy(h, p))
  {
    hide Boundary, EpochOk, Prune.InUse;
    Prune.KeptEpochs(h, p, now, config);
  }

  // ----- every run -----

  ghost predicate GoneOk(gone: seq<Past>, clock: int) {
    forall i :: 0 <= i < |gone| ==> gone[i].epoch.ended.Some? && EpochOk(gone[i].epoch, gone[i].log, clock)
  }

  /** Every raw row is an observation accepted into its epoch. */
  ghost predicate RawLogged(h: History) {
    forall id, at :: (id, at) in h.raw && id in h.log ==> EntryAt(h.log[id], at).Some?
  }

  ghost predicate WorldOk(w: World, config: HistoryConfig, clock: int) {
    && Inv(w.h, config, clock) && RawLogged(w.h)
    && GoneHeldNothing(w.gone, config, clock) && GoneOk(w.gone, clock)
  }

  lemma WorldOkLater(w: World, config: HistoryConfig, clock: int, now: int)
    requires WorldOk(w, config, clock) && clock <= now
    ensures WorldOk(w, config, now)
  {
    hide Inv, PastTruths, Chart.PlanOk, Ordered;
    InvLater(w.h, config, clock, now);
  }

  lemma DeletedByPruning(
    h: History, p: Prune.Passes, at: int, config: HistoryConfig, usageRetention: int, limit: nat, id: int)
    requires Inv(h, config, at) && Prune.Pruned(h, p, at, config, usageRetention, limit)
    requires id in StoredIds(h) && id !in StoredIds(Prune.PrunedBy(h, p))
    ensures id in h.epochs && id in h.log && id !in p.epochs && h.epochs[id].ended.Some?
    ensures EpochOk(h.epochs[id], h.log[id], at)
  {
    hide Prune.Pruned, Boundary, Conserved, LifetimesApart, SpansOk, Referenced, Prune.InUse, EpochOk;
    Prune.PrunedKeeps(h, p, at, config, usageRetention, limit);
  }

  lemma PruneArchivesNothing(
    w: World, p: Prune.Passes, at: int, config: HistoryConfig, usageRetention: int, limit: nat, after: World)
    requires WorldOk(w, config, at) && Prune.Pruned(w.h, p, at, config, usageRetention, limit)
    requires after.h == Prune.PrunedBy(w.h, p) && Archives(w, after)
    ensures GoneHeldNothing(after.gone, config, at) && GoneOk(after.gone, at)
  {
    hide Inv, Prune.Pruned, Prune.PrunedBy, Chart.PlanOk, Chart.TruthOf, EpochOk, Listed, StoredIds;
    var gone := StoredIds(w.h) - StoredIds(after.h);
    ListedAre(w.h, gone);
    forall i | |w.gone| <= i < |after.gone|
      ensures after.gone[i].epoch.ended.Some? && EpochOk(after.gone[i].epoch, after.gone[i].log, at)
      ensures forall plan, now, k :: at <= now && Chart.PlanOk(plan, config, now) ==>
        PastTruths(plan, now, k)(after.gone[i]) == ZERO
    {
      assert after.gone[i] in Listed(w.h, gone);
      var id :| id in gone && after.gone[i] == PastOf(w.h, id);
      DeletedByPruning(w.h, p, at, config, usageRetention, limit, id);
      forall plan, now, k | at <= now && Chart.PlanOk(plan, config, now)
        ensures PastTruths(plan, now, k)(after.gone[i]) == ZERO
      {
        Promises.DeletedTruthIsZero(w.h, p, at, config, usageRetention, limit, plan, now, id, k);
      }
    }
  }

  lemma NothingArchived(w: World, after: World)
    requires Archives(w, after) && StoredIds(w.h) <= StoredIds(after.h)
    ensures after.gone == w.gone
  {
    assert StoredIds(w.h) - StoredIds(after.h) == {};
  }

  lemma NextKeepsLogged(h: History, t: Transaction, config: HistoryConfig, after: History)
    requires Inv(h, config, t.now) && RawLogged(h) && Next(h, t, config, after)
    ensures RawLogged(after)
  {
    hide Inv, Accepts, Accepted, Synced, Wants, LifetimesApart, EpochsOk, SpansOk, Referenced, ValidHosts, Prune.Pruned,
         Prune.PrunedBy, RawLogged, SameRecords;
    InvParts(h, config, t.now);
    match t.operation
    case Record(key, at, o) =>
      if HasLive(h.epochs, key) && Accepts(h, LiveId(h.epochs, key), at, t.now) {
        AcceptedLogged(h, LiveId(h.epochs, key), at, o);
      }
    case Synchronise(hosts) =>
      SyncSame(h, after, Wants(hosts), t.now);
      SameLogged(h, after, t.now);
    case RollUp(limit) =>
      var n: nat :| n <= limit && after == Rollup.Steps(h, t.now, config, n) && (n == limit || after.spans == []);
      StepsSame(h, t.now, config, n);
      SameLogged(h, after, t.now);
    case PruneRows(usageRetention, limit, passes) =>
      Prune.PrunedKeeps(h, passes, t.now, config, usageRetention, limit);
      PrunedLogged(h, passes, t.now, config);
  }

  lemma AcceptedLogged(h: History, id: int, at: int, o: Observation)
    requires RawLogged(h) && id in h.epochs && id in h.log
    ensures RawLogged(Accepted(h, id, at, o))
  {
    hide AddSample, FlushTail, EventsWith;
  }

  lemma SameLogged(h: History, after: History, now: int)
    requires RawLogged(h) && Referenced(h) && h.log.Keys == h.epochs.Keys && SameRecords(h, after, now)
    ensures RawLogged(after)
  {
    hide OnGrid, EntryAt;
    forall id, at | (id, at) in after.raw && id in after.log
      ensures EntryAt(after.log[id], at).Some?
    {
      assert (id, at) in h.raw && (id, at).0 == id;
      assert id in h.epochs && id in h.log;
    }
  }

  lemma PrunedLogged(h: History, p: Prune.Passes, now: int, config: HistoryConfig)
    requires RawLogged(h) && Prune.Kept(h, p, now, config)
    ensures RawLogged(Prune.PrunedBy(h, p))
  {
    hide Boundary, Prune.InUse, EntryAt;
  }

  lemma StepKeepsWorld(w: World, t: Transaction, config: HistoryConfig, after: World)
    requires config.Valid() && WorldOk(w, config, t.now) && IsStep(w, t, config, after)
    ensures WorldOk(after, config, t.now)
  {
    hide Inv, Next, RawLogged, GoneHeldNothing, GoneOk, Archives, Prune.Pruned, Prune.PrunedBy;
    NextKeepsInv(w.h, t, config, after.h);
    NextKeepsLogged(w.h, t, config, after.h);
    if t.operation.PruneRows? {
      NextIsPrune(w.h, t, config, after.h);
      PruneArchivesNothing(w, t.operation.passes, t.now, config, t.operation.usageRetention, t.operation.limit, after);
    } else {
      NextKeepsStored(w.h, t, config, after.h);
      NothingArchived(w, after);
    }
  }

  lemma NextIsPrune(h: History, t: Transaction, config: HistoryConfig, after: History)
    requires Next(h, t, config, after) && t.operation.PruneRows?
    ensures var op := t.operation;
      Prune.Pruned(h, op.passes, t.now, config, op.usageRetention, op.limit) && after == Prune.PrunedBy(h, op.passes)
  {
    hide Prune.Pruned, Prune.PrunedBy;
  }

  /** Every state of every run keeps every invariant, at the clock of its last transaction or later. */
  lemma {:induction false} RunsKeepInv(
    states: seq<World>, run: seq<Transaction>, config: HistoryConfig, i: nat, clock: int)
    requires config.Valid() && IsRun(states, run, config) && i <= |run|
    requires i > 0 ==> run[i - 1].now <= clock
    ensures WorldOk(states[i], config, clock) && Inv(states[i].h, config, clock)
  {
    hide Inv, IsStep, WorldOk;
    if i == 0 {
      EmptyWorld(config, clock);
    } else {
      var t := run[i - 1];
      RunsKeepInv(states, run, config, i - 1, t.now);
      StepKeepsWorld(states[i - 1], t, config, states[i]);
      WorldOkLater(states[i], config, t.now, clock);
    }
    WorldInv(states[i], config, clock);
  }

  lemma WorldInv(w: World, config: HistoryConfig, clock: int)
    requires WorldOk(w, config, clock)
    ensures Inv(w.h, config, clock) && RawLogged(w.h)
  {
    hide Inv, RawLogged;
  }

  lemma EmptyWorld(config: HistoryConfig, clock: int)
    ensures WorldOk(World(EMPTY, []), config, clock)
  {
    EmptyInv(config, clock);
  }

  /** Only a synchronisation ends an epoch. */
  lemma LiveStays(h: History, t: Transaction, config: HistoryConfig, after: History, id: int, key: CheckKey)
    requires Inv(h, config, t.now) && Next(h, t, config, after) && !t.operation.Synchronise?
    requires id in StoredIds(h) && Live(h.epochs, id, key)
    ensures id in StoredIds(after) && Live(after.epochs, id, key) && Grows(h.log[id], after.log[id])
  {
    hide Inv, Accepts, Accepted, Synced, Wants, LifetimesApart, EpochsOk, SpansOk, Referenced, ValidHosts,
         Prune.Pruned, Grows;
    InvParts(h, config, t.now);
    SameLog(h.log[id]);
    match t.operation
    case Record(key', at, o) =>
      if HasLive(h.epochs, key') && Accepts(h, LiveId(h.epochs, key'), at, t.now) {
        AcceptedLogs(h, LiveId(h.epochs, key'), at, o);
        GrowsByOne(h.log[id], Entry(at, o));
      }
    case Synchronise(hosts) =>
    case RollUp(limit) => RolledUpSame(h, t.now, config, limit, after);
    case PruneRows(usageRetention, limit, passes) =>
      Prune.PrunedKeeps(h, passes, t.now, config, usageRetention, limit);
      LiveNotPruned(h, passes, t.now, config, id);
  }

  lemma SameLog(log: Log)
    ensures Grows(log, log)
  {
  }

  lemma LiveNotPruned(h: History, p: Prune.Passes, now: int, config: HistoryConfig, id: int)
    requires Prune.Kept(h, p, now, config) && id in StoredIds(h) && h.epochs[id].ended.None?
    ensures var after := Prune.PrunedBy(h, p);
      id in StoredIds(after) && after.epochs[id] == h.epochs[id] && after.log[id] == h.log[id]
  {
    hide Boundary, Prune.InUse;
  }

  // ----- the archive -----

  lemma StepOnlyGrows(w: World, t: Transaction, config: HistoryConfig, after: World, p: Past) returns (q: Past)
    requires Inv(w.h, config, t.now) && IsStep(w, t, config, after) && p in Everything(w)
    ensures q in Everything(after) && Extends(p, q)
  {
    hide Inv, Next, Archives, Archived, Everything, OnlyGrew, Extends;
    NextOnlyGrows(w.h, t, config, after.h);
    EverythingIsArchived(w, p);
    q := StaysArchived(w, after, p);
    EverythingIsArchived(after, q);
  }

  /** Nothing ever leaves the archive: every opening stays, with every observation accepted into it. */
  lemma {:induction false} ArchiveOnlyGrows(
    states: seq<World>, run: seq<Transaction>, config: HistoryConfig, i: nat, j: nat, p: Past)
    returns (q: Past)
    requires config.Valid() && IsRun(states, run, config) && i <= j <= |run| && p in Everything(states[i])
    ensures q in Everything(states[j]) && Extends(p, q)
  {
    hide Inv, IsStep, Everything, Extends, GoneHeldNothing, GoneOk;
    if i == j {
      q := p;
      SelfExtends(p);
    } else {
      var before := ArchiveOnlyGrows(states, run, config, i, j - 1, p);
      RunsKeepInv(states, run, config, j - 1, run[j - 1].now);
      q := StepOnlyGrows(states[j - 1], run[j - 1], config, states[j], before);
      ExtendsFurther(p, before, q);
    }
  }

  /** A transaction that records an observation and finds it acceptable. */
  ghost predicate AcceptsAt(w: World, t: Transaction, key: CheckKey, at: int, o: Observation) {
    && t.operation == Record(key, at, o)
    && HasLive(w.h.epochs, key) && LiveId(w.h.epochs, key) in w.h.log
    && Accepts(w.h, LiveId(w.h.epochs, key), at, t.now)
  }

  lemma AcceptedEntry(
    w: World, t: Transaction, config: HistoryConfig, after: World, key: CheckKey, at: int, o: Observation)
    requires IsStep(w, t, config, after) && AcceptsAt(w, t, key, at, o)
    ensures var id := LiveId(w.h.epochs, key);
      && Live(after.h.epochs, id, key) && id in StoredIds(after.h)
      && EntryAt(after.h.log[id], at) == Some(o)
  {
    hide AddSample, FlushTail, EventsWith;
  }

  lemma ArchivedOk(w: World, config: HistoryConfig, clock: int, p: Past)
    requires WorldOk(w, config, clock) && p in Everything(w)
    ensures EpochOk(p.epoch, p.log, clock)
  {
    hide EpochOk, Conserved, LifetimesApart, SpansOk, Referenced, GoneHeldNothing, Everything;
    EverythingIsArchived(w, p);
    InvParts(w.h, config, clock);
  }

  /** Every observation ever accepted is in the archive for good, with what it reported. */
  lemma AcceptedIsArchived(
    states: seq<World>, run: seq<Transaction>, config: HistoryConfig, i: nat, j: nat, key: CheckKey, at: int,
    o: Observation)
    returns (q: Past)
    requires config.Valid() && IsRun(states, run, config) && i < j <= |run| && AcceptsAt(states[i], run[i], key, at, o)
    ensures q in Everything(states[j]) && q.epoch.key == key && EntryAt(q.log, at) == Some(o)
  {
    hide Inv, Next, AcceptsAt, Everything, Archives, Accepts, GoneHeldNothing, GoneOk, WorldOk, Ordered;
    assert IsStep(states[i], run[i], config, states[i + 1]);
    AcceptedEntry(states[i], run[i], config, states[i + 1], key, at, o);
    var p := PastOf(states[i + 1].h, LiveId(states[i].h.epochs, key));
    EverythingIsArchived(states[i + 1], p);
    q := ArchiveOnlyGrows(states, run, config, i + 1, j, p);
    RunsKeepInv(states, run, config, j, run[j - 1].now);
    ArchivedOk(states[j], config, run[j - 1].now, q);
    EntryStays(p.log, q.log, q.epoch.started, EndAt(q.epoch, run[j - 1].now), at);
  }

  // ----- charts -----

  /**
   * Main result over whole runs: however ingestion, reloads, rollup and pruning were interleaved,
   * every bucket of every answer is the truth over every epoch there ever was, deleted ones
   * included, short of exactly the samples at an edge of the range; its times are the integral of
   * all observations ever accepted, and known time never exceeds configured time.
   */
  lemma RunsChartTheTruth(
    states: seq<World>, run: seq<Transaction>, config: HistoryConfig, i: nat, request: Chart.Request, now: int,
    a: Query.Result, key: string, k: int)
    requires config.Valid() && IsRun(states, run, config) && i <= |run|
    requires i > 0 ==> run[i - 1].now <= now
    requires Query.IsAnswer(states[i].h, request, config, now, a) && a.Ok?
    requires key in a.response.series && 0 <= k < |a.response.series[key]|
    ensures var h, bucket := states[i].h, a.response.series[key][k];
      var r := request.(to := Min(request.to, now));
      var plan := Plans.PlanFor(r, config, now, |Query.Candidates(h, r, now)|);
      var truth := TruthEver(states[i], r, plan, now, key, k);
      var missed := Sums.Sum(Truth.Unselected(h, r, plan, now, key), Truth.EdgeStats(h, plan, now, k));
      && Merge(bucket.stats, missed) == truth
      && Durations(bucket.stats) == Durations(truth)
      && bucket.stats.upMs + bucket.stats.downMs <= bucket.eligible
      && bucket.stats.usageMs <= bucket.eligible
  {
    hide Inv, IsStep, Query.IsAnswer, GoneHeldNothing, GoneOk, Plans.PlanFor, Chart.PlanOk, Durations, Merge,
         Query.Candidates, Query.Asked, Truth.Shown, Truth.Unselected, Truth.EdgeStats, TruthEver;
    var h := states[i].h;
    RunsKeepInv(states, run, config, i, now);
    Truth.ChartIsTruth(h, request, config, now, now, a, key, k);
    Truth.SelectedTruth(h, request, config, now, now, a, key, k);
    Promises.KnownTimeIsEligible(h, request, config, now, now, a, key, k);
    InvParts(h, config, now);
    var r := request.(to := Min(request.to, now));
    var plan := Plans.PlanFor(r, config, now, |Query.Candidates(h, r, now)|);
    Plans.PlanTiles(r, config, now, |Query.Candidates(h, r, now)|);
    TruthEverIsStored(states[i], r, plan, config, now, now, key, k);
    Truth.EdgesHaveNoTime(h, plan, now, k, Truth.Unselected(h, r, plan, now, key));
    var edges := Sums.Sum(Truth.Unselected(h, r, plan, now, key), Truth.EdgeStats(h, plan, now, k));
    DurationsMerge(a.response.series[key][k].stats, edges);
    MergeZero(Durations(a.response.series[key][k].stats));
  }
}
