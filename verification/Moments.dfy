/**
 * The meaning of the log, moment by moment: which observation holds at a millisecond, which one was
 * taken at it (docs/history-maintenance.md:28-48), and that only what was accepted is ever in it.
 */
module Moments {
  import opened Prelude
  import opened HistoryStats
  import opened Tiers
  import opened History
  import opened Ingest
  import opened Inventory
  import opened Sync
  import opened Untouched
  import opened Archive
  import HistoryRuns
  import Query
  import Prune

  // ----- time -----

  /** The last observation taken at or before a moment. */
  ghost function LastBy(log: Log, at: int): Option<Entry> {
    match log
    case Start => None
    case Then(older, newest) => if newest.at <= at then Some(newest) else LastBy(older, at)
  }

  /** The millisecond from `at` on goes to that observation, while it is fresh and its epoch lasts. */
  ghost function TimeAt(log: Log, freshness: int, end: int, at: int): Stats {
    match LastBy(log, at)
    case None => ZERO
    case Some(entry) => if at < end && at < entry.at + freshness then DurationStats(entry.observation, 1) else ZERO
  }

  ghost function TimeOver(log: Log, freshness: int, end: int, from: int, to: int): Stats
    decreases (to - from)
  {
    if to <= from then ZERO
    else Merge(TimeOver(log, freshness, end, from, to - 1), TimeAt(log, freshness, end, to - 1))
  }

  lemma {:induction false} HeldAt(log: Log, freshness: int, end: int, started: int, at: int)
    requires Ordered(log, started, end)
    ensures Held(log, freshness, end, at, at + 1) == TimeAt(log, freshness, end, at)
  {
    hide Merge, DurationStats;
    MergeZero(ZERO);
    if log.Then? {
      var older, newest := log.older, log.newest;
      OrderedLater(older, started, newest.at - 1, newest.at);
      NoDuration(newest.observation);
      if newest.at <= at {
        Query.HeldNothing(older, freshness, newest.at, at, at + 1, started);
        MergeZero(DurationStats(newest.observation, 1));
      } else {
        HeldAt(older, freshness, newest.at, started, at);
        if LastBy(older, at).Some? {
          LastEarlier(older, started, newest.at - 1, at);
        }
        MergeZero(Held(older, freshness, newest.at, at, at + 1));
      }
    }
  }

  lemma {:induction false} LastEarlier(log: Log, started: int, end: int, at: int)
    requires Ordered(log, started, end) && LastBy(log, at).Some?
    ensures started <= LastBy(log, at).value.at <= Min(at, end)
  {
    if log.newest.at > at {
      LastEarlier(log.older, started, log.newest.at - 1, at);
    }
  }

  /** The integral is the sum over the moments: each millisecond goes to the observation that holds at it. */
  lemma {:induction false} HeldIsIntegral(log: Log, freshness: int, end: int, started: int, from: int, to: int)
    requires Ordered(log, started, end) && from <= to
    ensures Held(log, freshness, end, from, to) == TimeOver(log, freshness, end, from, to)
    decreases (to - from)
  {
    hide Merge, Held, TimeAt, Ordered;
    if from == to {
      Query.HeldNothing(log, freshness, end, from, to, started);
    } else {
      HeldIsIntegral(log, freshness, end, started, from, to - 1);
      HeldSplitsWindow(log, freshness, end, from, to - 1, to);
      HeldAt(log, freshness, end, started, to - 1);
    }
  }

  // ----- samples -----

  ghost function SampleAt(log: Log, at: int): Stats {
    match EntryAt(log, at)
    case None => ZERO
    case Some(o) => SampleStats(o)
  }

  ghost function SamplesOver(log: Log, from: int, to: int): Stats
    decreases (to - from)
  {
    if to <= from then ZERO else Merge(SamplesOver(log, from, to - 1), SampleAt(log, to - 1))
  }

  lemma {:induction false} SampledAt(log: Log, started: int, end: int, at: int)
    requires Ordered(log, started, end)
    ensures Sampled(log, at, at + 1) == SampleAt(log, at)
  {
    hide Merge, SampleStats;
    MergeZero(ZERO);
    if log.Then? {
      SampledAt(log.older, started, log.newest.at - 1, at);
      if EntryAt(log.older, at).Some? {
        EntryInLifetime(log.older, started, log.newest.at - 1, at);
      }
      MergeZero(SampleStats(log.newest.observation));
      MergeZero(SampleAt(log.older, at));
    }
  }

  /** The samples of a window are those taken at its moments, one each. */
  lemma {:induction false} SampledIsEach(log: Log, started: int, end: int, from: int, to: int)
    requires Ordered(log, started, end) && from <= to
    ensures Sampled(log, from, to) == SamplesOver(log, from, to)
    decreases (to - from)
  {
    hide Merge, Sampled, SampleAt, Ordered;
    if from == to {
      Query.NoSampleBetween(log, from, to);
    } else {
      SampledIsEach(log, started, end, from, to - 1);
      SampledSplitsWindow(log, from, to - 1, to);
      SampledAt(log, started, end, to - 1);
    }
  }

  // ----- what is accepted -----

  lemma NewestIsLatest(log: Log, started: int, end: int, at: int)
    requires Ordered(log, started, end)
    ensures (forall t :: EntryAt(log, t).Some? ==> t < at) <==> (log.Then? ==> log.newest.at < at)
  {
    if log.Then? {
      assert EntryAt(log, log.newest.at).Some?;
      forall t | EntryAt(log, t).Some?
        ensures t <= log.newest.at
      {
        EntryInLifetime(log, started, end, t);
        if t > log.newest.at {
          EntryInLifetime(log.older, started, log.newest.at - 1, t);
        }
      }
    }
  }

  /** A live epoch accepts what was observed since it began, later than everything before and not in the future. */
  lemma AcceptsWhatIsNew(h: History, config: HistoryConfig, now: int, id: int, at: int)
    requires Inv(h, config, now) && HistoryRuns.RawLogged(h) && id in h.epochs && h.epochs[id].ended.None?
    ensures Accepts(h, id, at, now)
      <==> h.epochs[id].started <= at <= now && id in h.log && forall t :: EntryAt(h.log[id], t).Some? ==> t < at
  {
    hide LifetimesApart, SpansOk, Conserved, OnGrid, Ordered, EntryAt;
    InvParts(h, config, now);
    var e, log := h.epochs[id], h.log[id];
    assert EpochOk(e, log, now);
    NewestIsLatest(log, e.started, EndAt(e, now), at);
    if (id, at) in h.raw {
      assert EntryAt(log, at).Some?;
      assert !(forall t :: EntryAt(log, t).Some? ==> t < at);
    }
  }

  /** Some transaction up to `n` accepted the observation. */
  ghost predicate AcceptedBy(
    states: seq<World>, run: seq<HistoryRuns.Transaction>, n: nat, key: CheckKey, at: int, o: Observation)
    requires n <= |run| < |states|
  {
    exists j :: 0 <= j < n && HistoryRuns.AcceptsAt(states[j], run[j], key, at, o)
  }

  /** Where an entry of a step's archive comes from: it was there before, or the step accepted it. */
  lemma StepAccepts(
    w: World, t: HistoryRuns.Transaction, config: HistoryConfig, after: World, p: Past, at: int, o: Observation)
    requires config.Valid() && Inv(w.h, config, t.now) && HistoryRuns.IsStep(w, t, config, after)
    requires p in Everything(after) && EntryAt(p.log, at) == Some(o)
    ensures HistoryRuns.AcceptsAt(w, t, p.epoch.key, at, o)
      || exists q :: q in Everything(w) && q.epoch.key == p.epoch.key && EntryAt(q.log, at) == Some(o)
  {
    hide Inv, HistoryRuns.Next, Everything, Listed, StoredIds, PastOf, EntryAt, HistoryRuns.AcceptsAt, Takes;
    EverythingIsArchived(after, p);
    if p in after.gone {
      GoneWasThere(w, after, p);
    } else {
      var id :| id in StoredIds(after.h) && p == PastOf(after.h, id);
      StoredIs(after.h, id);
      StoredWasThere(w.h, t, config, after.h, id, at, o);
      StoredIs(w.h, id);
      EverythingIsArchived(w, PastOf(w.h, id));
      AcceptsIn(w, t, id, at, o);
    }
  }

  lemma StoredIs(h: History, id: int)
    requires id in StoredIds(h)
    ensures id in h.epochs && id in h.log && PastOf(h, id) == Past(h.epochs[id], h.log[id])
  {
  }

  lemma GoneWasThere(w: World, after: World, p: Past)
    requires Archives(w, after) && p in after.gone
    ensures p in Everything(w)
  {
    hide Listed, StoredIds, PastOf;
    ListedAre(w.h, StoredIds(w.h) - StoredIds(after.h));
    EverythingIsArchived(w, p);
  }

  /** The step accepts into the live epoch of the check. */
  ghost predicate Takes(h: History, t: HistoryRuns.Transaction, id: int, at: int, o: Observation) {
    t.operation.Record? && t.operation.at == at && t.operation.observation == o
    && HasLive(h.epochs, t.operation.key) && id == LiveId(h.epochs, t.operation.key)
    && id in h.log && Accepts(h, id, at, t.now)
  }

  lemma AcceptsIn(w: World, t: HistoryRuns.Transaction, id: int, at: int, o: Observation)
    ensures Takes(w.h, t, id, at, o) ==> id in w.h.epochs && HistoryRuns.AcceptsAt(w, t, w.h.epochs[id].key, at, o)
  {
  }

  lemma StoredWasThere(
    h: History, t: HistoryRuns.Transaction, config: HistoryConfig, after: History, id: int, at: int, o: Observation)
    requires config.Valid() && Inv(h, config, t.now) && HistoryRuns.Next(h, t, config, after)
    requires id in StoredIds(after) && EntryAt(after.log[id], at) == Some(o)
    ensures id in StoredIds(h) && h.epochs[id].key == after.epochs[id].key
    ensures EntryAt(h.log[id], at) == Some(o) || Takes(h, t, id, at, o)
  {
    hide Inv, Accepts, Accepted, Synced, Wants, LifetimesApart, EpochsOk, SpansOk, Referenced, ValidHosts, Prune.Pruned,
         Prune.PrunedBy;
    InvParts(h, config, t.now);
    match t.operation
    case Record(key, at', o') =>
      if HasLive(h.epochs, key) && Accepts(h, LiveId(h.epochs, key), at', t.now) {
        HistoryRuns.AcceptedLogs(h, LiveId(h.epochs, key), at', o');
      }
    case Synchronise(hosts) => SyncSame(h, after, Wants(hosts), t.now);
    case RollUp(limit) => HistoryRuns.RolledUpSame(h, t.now, config, limit, after);
    case PruneRows(usageRetention, limit, passes) =>
      Prune.PrunedKeeps(h, passes, t.now, config, usageRetention, limit);
      PrunedWasThere(h, passes, t.now, config, id);
  }

  lemma PrunedWasThere(h: History, p: Prune.Passes, now: int, config: HistoryConfig, id: int)
    requires Prune.Kept(h, p, now, config) && id in StoredIds(Prune.PrunedBy(h, p))
    ensures var after := Prune.PrunedBy(h, p);
      id in StoredIds(h) && h.epochs[id] == after.epochs[id] && after.log[id] == h.log[id]
  {
    hide Boundary, Prune.InUse;
  }

  /** Nothing is invented: every observation in the archive, deleted epochs included, was once accepted as it is. */
  lemma {:induction false} ArchivedWasAccepted(
    states: seq<World>, run: seq<HistoryRuns.Transaction>, config: HistoryConfig, i: nat, p: Past, at: int,
    o: Observation)
    requires config.Valid() && HistoryRuns.IsRun(states, run, config) && i <= |run|
    requires p in Everything(states[i]) && EntryAt(p.log, at) == Some(o)
    ensures AcceptedBy(states, run, i, p.epoch.key, at, o)
  {
    hide Inv, HistoryRuns.IsStep, Everything, EntryAt, HistoryRuns.AcceptsAt, HistoryRuns.WorldOk;
    if i == 0 {
      EmptyArchive(p);
    } else {
      HistoryRuns.RunsKeepInv(states, run, config, i - 1, run[i - 1].now);
      assert HistoryRuns.IsStep(states[i - 1], run[i - 1], config, states[i]);
      StepAccepts(states[i - 1], run[i - 1], config, states[i], p, at, o);
      if q :| q in Everything(states[i - 1]) && q.epoch.key == p.epoch.key && EntryAt(q.log, at) == Some(o) {
        ArchivedWasAccepted(states, run, config, i - 1, q, at, o);
      }
    }
  }

  lemma EmptyArchive(p: Past)
    ensures p !in Everything(World(EMPTY, []))
  {
    EverythingIsArchived(World(EMPTY, []), p);
  }
}
