/**
 * Deleting expired rows in bounded batches
 * (`prune`, src/storage/sqlite/history/rollup.rs).
 */
module Prune {
  import opened Prelude
  import opened HistoryStats
  import opened Tiers
  import opened History
  import opened Rollup

  /** `DELETE ... LIMIT limit`: some of the expired rows go, as many as the limit allows. */
  ghost predicate Trimmed<K, V>(before: map<K, V>, after: map<K, V>, expired: set<K>, limit: nat) {
    var gone := before.Keys - after.Keys;
    IsBatch(gone, expired, limit) && after == before - gone
  }

  function Gone<K, V>(before: map<K, V>, after: map<K, V>): nat {
    |before.Keys - after.Keys|
  }

  function ExpiredRaw(epochs: map<int, Epoch>, raw: map<(int, int), Observation>, usage: bool, cutoff: int)
    : set<(int, int)>
  {
    set k | k in raw && k.0 in epochs && (epochs[k.0].key.kind == "usage") == usage && k.1 < cutoff
  }

  function ExpiredEvents(events: map<(int, int), Event>, cutoff: int): set<(int, int)> {
    set k | k in events && k.1 < cutoff
  }

  function ExpiredBuckets(
    buckets: map<BucketKey, Stats>, now: int, config: HistoryConfig, resolution: int): set<BucketKey>
    requires resolution > 0
  {
    set k | k in buckets && k.resolution == resolution && k.start < Boundary(now, config, resolution)
  }

  predicate InUse(h: History, id: int) {
    || (exists k :: k in h.raw && k.0 == id)
    || (exists k :: k in h.events && k.0 == id)
    || (exists k :: k in h.buckets && k.epoch == id)
    || (exists i :: 0 <= i < |h.spans| && h.spans[i].epoch == id)
  }

  function Unreferenced(h: History, cutoff: int): set<int> {
    set id | id in h.epochs && h.epochs[id].ended.Some? && h.epochs[id].ended.value < cutoff && !InUse(h, id)
  }

  function EpochCutoff(now: int, config: HistoryConfig): int {
    Cutoff(now, Max(config.dailyRetention, config.eventRetention))
  }

  /** The tables after each of the seven deletions, in order. */
  datatype Passes = Passes(
    raw1: map<(int, int), Observation>,
    raw2: map<(int, int), Observation>,
    events: map<(int, int), Event>,
    fine: map<BucketKey, Stats>,
    hourly: map<BucketKey, Stats>,
    daily: map<BucketKey, Stats>,
    epochs: map<int, Epoch>)

  /** All but the epoch deletion. */
  function RowsPruned(h: History, p: Passes): History {
    h.(raw := p.raw2, events := p.events, buckets := p.daily)
  }

  lemma RowsKeepEpochs(h: History, p: Passes)
    ensures RowsPruned(h, p).epochs == h.epochs
  {
  }

  function PrunedBy(h: History, p: Passes): History {
    RowsPruned(h, p).(epochs := p.epochs, log := map id | id in h.log && id in p.epochs :: h.log[id])
  }

  ghost predicate Pruned(h: History, p: Passes, now: int, config: HistoryConfig, usageRetention: int, limit: nat)
  {
    && Trimmed(h.raw, p.raw1, ExpiredRaw(h.epochs, h.raw, false, Cutoff(now, config.rawRetention)), limit)
    && Trimmed(p.raw1, p.raw2, ExpiredRaw(h.epochs, p.raw1, true, Cutoff(now, usageRetention)), limit)
    && Trimmed(h.events, p.events, ExpiredEvents(h.events, Cutoff(now, config.eventRetention)), limit)
    && Trimmed(h.buckets, p.fine, ExpiredBuckets(h.buckets, now, config, FIVE_MINUTES), limit)
    && Trimmed(p.fine, p.hourly, ExpiredBuckets(p.fine, now, config, HOUR), limit)
    && Trimmed(p.hourly, p.daily, ExpiredBuckets(p.hourly, now, config, DAY), limit)
    && Trimmed(h.epochs, p.epochs, Unreferenced(RowsPruned(h, p), EpochCutoff(now, config)), limit)
  }

  function RowsRemoved(h: History, p: Passes): nat {
    Gone(h.raw, p.raw1) + Gone(p.raw1, p.raw2) + Gone(h.events, p.events)
    + Gone(h.buckets, p.fine) + Gone(p.fine, p.hourly) + Gone(p.hourly, p.daily)
    + Gone(h.epochs, p.epochs)
  }

  // ----- completeness -----

  lemma TrimmedFully<K, V>(before: map<K, V>, after: map<K, V>, expired: set<K>, limit: nat)
    requires Trimmed(before, after, expired, limit) && Gone(before, after) < limit && expired <= before.Keys
    ensures after == before - expired
  {
  }

  lemma RawComplete(
    epochs: map<int, Epoch>, raw: map<(int, int), Observation>, raw1: map<(int, int), Observation>,
    raw2: map<(int, int), Observation>, cutoff: int, usageCutoff: int)
    requires raw1 == raw - ExpiredRaw(epochs, raw, false, cutoff)
    requires raw2 == raw1 - ExpiredRaw(epochs, raw1, true, usageCutoff)
    ensures ExpiredRaw(epochs, raw2, false, cutoff) == {} && ExpiredRaw(epochs, raw2, true, usageCutoff) == {}
  {
  }

  lemma BucketsComplete(buckets: map<BucketKey, Stats>, p: Passes, now: int, config: HistoryConfig, resolution: int)
    requires p.fine == buckets - ExpiredBuckets(buckets, now, config, FIVE_MINUTES)
    requires p.hourly == p.fine - ExpiredBuckets(p.fine, now, config, HOUR)
    requires p.daily == p.hourly - ExpiredBuckets(p.hourly, now, config, DAY)
    requires IsTier(resolution)
    ensures ExpiredBuckets(p.daily, now, config, resolution) == {}
  {
    hide Boundary;
  }

  lemma UnreferencedComplete(h: History, p: Passes, cutoff: int)
    requires p.epochs == h.epochs - Unreferenced(RowsPruned(h, p), cutoff)
    ensures Unreferenced(PrunedBy(h, p), cutoff) == {}
  {
    UseUnchanged(RowsPruned(h, p), PrunedBy(h, p));
    hide InUse;
  }

  lemma FewerEpochs(h: History, p: Passes, usage: bool, cutoff: int)
    requires p.epochs.Keys <= h.epochs.Keys && forall id :: id in p.epochs ==> p.epochs[id] == h.epochs[id]
    requires ExpiredRaw(h.epochs, p.raw2, usage, cutoff) == {}
    ensures ExpiredRaw(p.epochs, p.raw2, usage, cutoff) == {}
  {
    forall k | k in ExpiredRaw(p.epochs, p.raw2, usage, cutoff)
      ensures k in ExpiredRaw(h.epochs, p.raw2, usage, cutoff)
    {
      var id := k.0;
      assert id in p.epochs && id in h.epochs;
      assert p.epochs[id] == h.epochs[id];
    }
  }

  /** No expired row and no expired unreferenced epoch is left. */
  ghost predicate NothingExpired(h: History, now: int, config: HistoryConfig, usageRetention: int) {
    && ExpiredRaw(h.epochs, h.raw, false, Cutoff(now, config.rawRetention)) == {}
    && ExpiredRaw(h.epochs, h.raw, true, Cutoff(now, usageRetention)) == {}
    && ExpiredEvents(h.events, Cutoff(now, config.eventRetention)) == {}
    && (forall resolution :: IsTier(resolution) ==> ExpiredBuckets(h.buckets, now, config, resolution) == {})
    && Unreferenced(h, EpochCutoff(now, config)) == {}
  }

  lemma NothingLeft(h: History, p: Passes, now: int, config: HistoryConfig, usageRetention: int, limit: nat)
    requires Pruned(h, p, now, config, usageRetention, limit)
    requires RowsRemoved(h, p) < limit
    ensures NothingExpired(PrunedBy(h, p), now, config, usageRetention)
  {
    hide ExpiredRaw, ExpiredEvents, ExpiredBuckets, Unreferenced, Trimmed, RowsPruned, EpochCutoff;
    var raw, usage := Cutoff(now, config.rawRetention), Cutoff(now, usageRetention);
    ExpiredAreRows(h, p, now, config, raw, usage);
    TrimmedFully(h.raw, p.raw1, ExpiredRaw(h.epochs, h.raw, false, raw), limit);
    TrimmedFully(p.raw1, p.raw2, ExpiredRaw(h.epochs, p.raw1, true, usage), limit);
    RawComplete(h.epochs, h.raw, p.raw1, p.raw2, raw, usage);
    TrimmedFully(h.epochs, p.epochs, Unreferenced(RowsPruned(h, p), EpochCutoff(now, config)), limit);
    FewerEpochs(h, p, false, raw);
    FewerEpochs(h, p, true, usage);
    UnreferencedComplete(h, p, EpochCutoff(now, config));
    EventsComplete(h, p, now, config, limit);
    AllBucketsComplete(h, p, now, config, limit);
    assert PrunedBy(h, p).buckets == p.daily && PrunedBy(h, p).raw == p.raw2 && PrunedBy(h, p).events == p.events
           && PrunedBy(h, p).epochs == p.epochs by { PrunedFields(h, p); }
  }

  /**
   * Main result: a batch that reports nothing more to do has left no raw row or event older than its
   * retention, no bucket that ended before its tier's, and no epoch that ended before the longer of
   * the daily and the event retention without some row or queued span of its own.
   */
  lemma PruneComplete(h: History, p: Passes, now: int, config: HistoryConfig, usageRetention: int, limit: nat)
    requires Pruned(h, p, now, config, usageRetention, limit) && RowsRemoved(h, p) < limit
    ensures forall k :: k in PrunedBy(h, p).events ==> now - config.eventRetention <= k.1
    ensures forall k :: k in PrunedBy(h, p).raw ==> RawInTime(PrunedBy(h, p).epochs, k, now, config, usageRetention)
    ensures forall k :: k in PrunedBy(h, p).buckets ==> BucketInTime(k, now, config)
    ensures forall id :: id in PrunedBy(h, p).epochs ==> EpochInTime(PrunedBy(h, p), id, now, config)
  {
    hide Pruned, RowsRemoved, PrunedBy, NothingExpired;
    NothingLeft(h, p, now, config, usageRetention, limit);
    LeftInTime(PrunedBy(h, p), now, config, usageRetention);
  }

  /** Samples of usage have a retention of their own. */
  predicate RawInTime(epochs: map<int, Epoch>, k: (int, int), now: int, config: HistoryConfig, usageRetention: int)
  {
    k.0 in epochs ==>
      if epochs[k.0].key.kind == "usage" then now - usageRetention <= k.1 else now - config.rawRetention <= k.1
  }

  /** The bucket reaches into the retention of its tier. */
  predicate BucketInTime(k: BucketKey, now: int, config: HistoryConfig) {
    && (k.resolution == 300 ==> now - config.fiveMinuteRetention < k.start + 300_000)
    && (k.resolution == 3600 ==> now - config.hourlyRetention < k.start + 3_600_000)
    && (k.resolution == 86_400 ==> now - config.dailyRetention < k.start + 86_400_000)
  }

  /** The epoch is live, ended within the daily or the event retention, or something refers to it. */
  predicate EpochInTime(h: History, id: int, now: int, config: HistoryConfig)
    requires id in h.epochs
  {
    || h.epochs[id].ended.None?
    || now - config.dailyRetention <= h.epochs[id].ended.value
    || now - config.eventRetention <= h.epochs[id].ended.value
    || (exists k :: k in h.raw && k.0 == id)
    || (exists k :: k in h.events && k.0 == id)
    || (exists k :: k in h.buckets && k.epoch == id)
    || (exists i :: 0 <= i < |h.spans| && h.spans[i].epoch == id)
  }

  lemma LeftInTime(h: History, now: int, config: HistoryConfig, usageRetention: int)
    requires NothingExpired(h, now, config, usageRetention)
    ensures forall k :: k in h.events ==> now - config.eventRetention <= k.1
    ensures forall k :: k in h.raw ==> RawInTime(h.epochs, k, now, config, usageRetention)
    ensures forall k :: k in h.buckets ==> BucketInTime(k, now, config)
    ensures forall id :: id in h.epochs ==> EpochInTime(h, id, now, config)
  {
    forall k | k in h.events
      ensures now - config.eventRetention <= k.1
    {
      assert k !in ExpiredEvents(h.events, Cutoff(now, config.eventRetention));
    }
    forall k | k in h.raw
      ensures RawInTime(h.epochs, k, now, config, usageRetention)
    {
      assert k !in ExpiredRaw(h.epochs, h.raw, false, Cutoff(now, config.rawRetention));
      assert k !in ExpiredRaw(h.epochs, h.raw, true, Cutoff(now, usageRetention));
    }
    forall k | k in h.buckets
      ensures BucketInTime(k, now, config)
    {
      if IsTier(k.resolution) {
        assert k !in ExpiredBuckets(h.buckets, now, config, k.resolution);
        FloorBounds(Cutoff(now, Retention(config, k.resolution)), k.resolution);
      }
    }
    forall id | id in h.epochs
      ensures EpochInTime(h, id, now, config)
    {
      assert id !in Unreferenced(h, EpochCutoff(now, config));
    }
  }

  lemma PrunedFields(h: History, p: Passes)
    ensures var after := PrunedBy(h, p);
      after.buckets == p.daily && after.raw == p.raw2 && after.events == p.events && after.epochs == p.epochs
  {
  }

  lemma EventsComplete(h: History, p: Passes, now: int, config: HistoryConfig, limit: nat)
    requires Trimmed(h.events, p.events, ExpiredEvents(h.events, Cutoff(now, config.eventRetention)), limit)
    requires Gone(h.events, p.events) < limit
    ensures ExpiredEvents(p.events, Cutoff(now, config.eventRetention)) == {}
  {
    TrimmedFully(h.events, p.events, ExpiredEvents(h.events, Cutoff(now, config.eventRetention)), limit);
  }

  lemma AllBucketsComplete(h: History, p: Passes, now: int, config: HistoryConfig, limit: nat)
    requires Trimmed(h.buckets, p.fine, ExpiredBuckets(h.buckets, now, config, FIVE_MINUTES), limit)
    requires Trimmed(p.fine, p.hourly, ExpiredBuckets(p.fine, now, config, HOUR), limit)
    requires Trimmed(p.hourly, p.daily, ExpiredBuckets(p.hourly, now, config, DAY), limit)
    requires Gone(h.buckets, p.fine) < limit && Gone(p.fine, p.hourly) < limit && Gone(p.hourly, p.daily) < limit
    ensures forall resolution :: IsTier(resolution) ==> ExpiredBuckets(p.daily, now, config, resolution) == {}
  {
    ExpiredBucketsAreRows(h.buckets, now, config, FIVE_MINUTES);
    ExpiredBucketsAreRows(p.fine, now, config, HOUR);
    ExpiredBucketsAreRows(p.hourly, now, config, DAY);
    hide Boundary, ExpiredBuckets, Trimmed;
    TrimmedFully(h.buckets, p.fine, ExpiredBuckets(h.buckets, now, config, FIVE_MINUTES), limit);
    TrimmedFully(p.fine, p.hourly, ExpiredBuckets(p.fine, now, config, HOUR), limit);
    TrimmedFully(p.hourly, p.daily, ExpiredBuckets(p.hourly, now, config, DAY), limit);
    forall resolution | IsTier(resolution)
      ensures ExpiredBuckets(p.daily, now, config, resolution) == {}
    {
      BucketsComplete(h.buckets, p, now, config, resolution);
    }
  }

  lemma ExpiredBucketsAreRows(buckets: map<BucketKey, Stats>, now: int, config: HistoryConfig, resolution: int)
    requires resolution > 0
    ensures ExpiredBuckets(buckets, now, config, resolution) <= buckets.Keys
  {
  }

  lemma ExpiredAreKeys(
    epochs: map<int, Epoch>, raw: map<(int, int), Observation>, events: map<(int, int), Event>, cutoff: int,
    eventCutoff: int)
    ensures ExpiredRaw(epochs, raw, false, cutoff) <= raw.Keys
    ensures ExpiredRaw(epochs, raw, true, cutoff) <= raw.Keys
    ensures ExpiredEvents(events, eventCutoff) <= events.Keys
  {
  }

  lemma UnreferencedAreRows(h: History, cutoff: int)
    ensures Unreferenced(h, cutoff) <= h.epochs.Keys
  {
    hide InUse;
  }

  lemma ExpiredAreRows(h: History, p: Passes, now: int, config: HistoryConfig, raw: int, usage: int)
    ensures ExpiredRaw(h.epochs, h.raw, false, raw) <= h.raw.Keys
    ensures ExpiredRaw(h.epochs, p.raw1, true, usage) <= p.raw1.Keys
    ensures Unreferenced(RowsPruned(h, p), EpochCutoff(now, config)) <= h.epochs.Keys
  {
    hide InUse;
  }

  lemma UseUnchanged(h: History, after: History)
    requires after.raw == h.raw && after.events == h.events && after.buckets == h.buckets && after.spans == h.spans
    ensures forall id :: InUse(after, id) == InUse(h, id)
  {
  }

  // ----- safety -----

  lemma TrimmedRows<K, V>(before: map<K, V>, after: map<K, V>, expired: set<K>, limit: nat)
    requires Trimmed(before, after, expired, limit)
    ensures after.Keys <= before.Keys
    ensures forall k :: k in after ==> after[k] == before[k]
    ensures forall k :: k in before && k !in expired ==> k in after
  {
  }

  lemma BucketsKept(h: History, p: Passes, now: int, config: HistoryConfig, limit: nat, k: BucketKey)
    requires Trimmed(h.buckets, p.fine, ExpiredBuckets(h.buckets, now, config, FIVE_MINUTES), limit)
    requires Trimmed(p.fine, p.hourly, ExpiredBuckets(p.fine, now, config, HOUR), limit)
    requires Trimmed(p.hourly, p.daily, ExpiredBuckets(p.hourly, now, config, DAY), limit)
    ensures k in p.daily ==> k in h.buckets && p.daily[k] == h.buckets[k]
    ensures k in h.buckets && IsTier(k.resolution) && Boundary(now, config, k.resolution) <= k.start ==> k in p.daily
  {
    assert IsTier(k.resolution) && Boundary(now, config, k.resolution) <= k.start ==>
        && k !in ExpiredBuckets(h.buckets, now, config, FIVE_MINUTES)
        && k !in ExpiredBuckets(p.fine, now, config, HOUR)
        && k !in ExpiredBuckets(p.hourly, now, config, DAY) by { hide Boundary, Trimmed; }
    hide Boundary, Trimmed, ExpiredBuckets;
    TrimmedRows(h.buckets, p.fine, ExpiredBuckets(h.buckets, now, config, FIVE_MINUTES), limit);
    TrimmedRows(p.fine, p.hourly, ExpiredBuckets(p.fine, now, config, HOUR), limit);
    TrimmedRows(p.hourly, p.daily, ExpiredBuckets(p.hourly, now, config, DAY), limit);
  }

  lemma RawGone(
    h: History, p: Passes, now: int, config: HistoryConfig, usageRetention: int, limit: nat, k: (int, int))
    requires Pruned(h, p, now, config, usageRetention, limit) && k in h.raw && k !in p.raw2
    ensures k.0 in h.epochs && !RawInTime(h.epochs, k, now, config, usageRetention)
  {
    hide ExpiredEvents, ExpiredBuckets, Unreferenced, Trimmed, EpochCutoff, RowsPruned;
    TrimmedRows(h.raw, p.raw1, ExpiredRaw(h.epochs, h.raw, false, Cutoff(now, config.rawRetention)), limit);
    TrimmedRows(p.raw1, p.raw2, ExpiredRaw(h.epochs, p.raw1, true, Cutoff(now, usageRetention)), limit);
  }

  lemma BucketGone(
    h: History, p: Passes, now: int, config: HistoryConfig, usageRetention: int, limit: nat, k: BucketKey)
    requires Pruned(h, p, now, config, usageRetention, limit) && OnGrid(h.buckets) && k in h.buckets && k !in p.daily
    ensures !BucketInTime(k, now, config)
  {
    hide ExpiredRaw, ExpiredEvents, ExpiredBuckets, Unreferenced, Trimmed, EpochCutoff, RowsPruned, Boundary;
    BucketsKept(h, p, now, config, limit, k);
    AnsweredFor(now, config, k.resolution, k.start);
  }

  /** Only rows past their retention are deleted, and of the epochs those that nothing left refers to. */
  lemma PruneSound(h: History, p: Passes, now: int, config: HistoryConfig, usageRetention: int, limit: nat)
    requires Pruned(h, p, now, config, usageRetention, limit) && OnGrid(h.buckets)
    ensures var after := PrunedBy(h, p);
      && (forall k :: k in h.events && k !in after.events ==> k.1 < now - config.eventRetention)
      && (forall k :: k in h.raw && k !in after.raw ==> !RawInTime(h.epochs, k, now, config, usageRetention))
      && (forall k :: k in h.buckets && k !in after.buckets ==> !BucketInTime(k, now, config))
      && (forall id :: id in h.epochs && id !in after.epochs ==> !EpochInTime(RowsPruned(h, p), id, now, config))
      && after.spans == h.spans
  {
    forall k | k in h.raw && k !in p.raw2
      ensures !RawInTime(h.epochs, k, now, config, usageRetention)
    {
      RawGone(h, p, now, config, usageRetention, limit, k);
    }
    forall k | k in h.buckets && k !in p.daily
      ensures !BucketInTime(k, now, config)
    {
      BucketGone(h, p, now, config, usageRetention, limit, k);
    }
    hide ExpiredRaw, ExpiredBuckets, Trimmed, RawInTime, BucketInTime, OnGrid;
    TrimmedRows(h.events, p.events, ExpiredEvents(h.events, Cutoff(now, config.eventRetention)), limit);
    TrimmedRows(h.epochs, p.epochs, Unreferenced(RowsPruned(h, p), EpochCutoff(now, config)), limit);
    PrunedFields(h, p);
  }

  lemma TrimmedAtMost<K, V>(before: map<K, V>, after: map<K, V>, expired: set<K>, limit: nat)
    requires Trimmed(before, after, expired, limit)
    ensures |before.Keys - after.Keys| <= limit
  {
  }

  lemma CountsAdd<K>(a: set<K>, b: set<K>, c: set<K>)
    requires c <= b <= a
    ensures |a - b| + |b - c| == |a - c|
  {
    assert a - c == (a - b) + (b - c);
  }

  /** What a batch reports as removed is how many rows there are fewer, no more than the limit for each deletion. */
  lemma RemovedAreGone(h: History, p: Passes, now: int, config: HistoryConfig, usageRetention: int, limit: nat)
    requires Pruned(h, p, now, config, usageRetention, limit)
    ensures var after := PrunedBy(h, p);
      RowsRemoved(h, p)
      == |h.raw.Keys - after.raw.Keys| + |h.events.Keys - after.events.Keys|
         + |h.buckets.Keys - after.buckets.Keys| + |h.epochs.Keys - after.epochs.Keys|
    ensures var after := PrunedBy(h, p);
      && |h.raw.Keys - after.raw.Keys| <= 2 * limit && |h.events.Keys - after.events.Keys| <= limit
      && |h.buckets.Keys - after.buckets.Keys| <= 3 * limit && |h.epochs.Keys - after.epochs.Keys| <= limit
  {
    hide ExpiredRaw, ExpiredEvents, ExpiredBuckets, Unreferenced, Trimmed, EpochCutoff;
    TrimmedRows(h.raw, p.raw1, ExpiredRaw(h.epochs, h.raw, false, Cutoff(now, config.rawRetention)), limit);
    TrimmedRows(p.raw1, p.raw2, ExpiredRaw(h.epochs, p.raw1, true, Cutoff(now, usageRetention)), limit);
    TrimmedRows(h.buckets, p.fine, ExpiredBuckets(h.buckets, now, config, FIVE_MINUTES), limit);
    TrimmedRows(p.fine, p.hourly, ExpiredBuckets(p.fine, now, config, HOUR), limit);
    TrimmedRows(p.hourly, p.daily, ExpiredBuckets(p.hourly, now, config, DAY), limit);
    TrimmedAtMost(h.raw, p.raw1, ExpiredRaw(h.epochs, h.raw, false, Cutoff(now, config.rawRetention)), limit);
    TrimmedAtMost(p.raw1, p.raw2, ExpiredRaw(h.epochs, p.raw1, true, Cutoff(now, usageRetention)), limit);
    TrimmedAtMost(h.events, p.events, ExpiredEvents(h.events, Cutoff(now, config.eventRetention)), limit);
    TrimmedAtMost(h.buckets, p.fine, ExpiredBuckets(h.buckets, now, config, FIVE_MINUTES), limit);
    TrimmedAtMost(p.fine, p.hourly, ExpiredBuckets(p.fine, now, config, HOUR), limit);
    TrimmedAtMost(p.hourly, p.daily, ExpiredBuckets(p.hourly, now, config, DAY), limit);
    TrimmedAtMost(h.epochs, p.epochs, Unreferenced(RowsPruned(h, p), EpochCutoff(now, config)), limit);
    CountsAdd(h.raw.Keys, p.raw1.Keys, p.raw2.Keys);
    CountsAdd(h.buckets.Keys, p.fine.Keys, p.hourly.Keys);
    CountsAdd(h.buckets.Keys, p.hourly.Keys, p.daily.Keys);
  }

  /** Rows only disappear, deleted epochs are unreferenced, and buckets still answered for stay. */
  ghost predicate Kept(h: History, p: Passes, now: int, config: HistoryConfig) {
    && p.raw2.Keys <= h.raw.Keys && p.events.Keys <= h.events.Keys && p.epochs.Keys <= h.epochs.Keys
    && (forall id :: id in p.epochs ==> p.epochs[id] == h.epochs[id])
    && (forall id :: id in h.epochs && id !in p.epochs ==> h.epochs[id].ended.Some? && !InUse(RowsPruned(h, p), id))
    && (forall k :: k in p.daily ==> k in h.buckets && p.daily[k] == h.buckets[k])
    && (forall k :: k in h.buckets && IsTier(k.resolution) && Boundary(now, config, k.resolution) <= k.start ==>
        k in p.daily)
  }

  lemma PrunedKeeps(h: History, p: Passes, now: int, config: HistoryConfig, usageRetention: int, limit: nat)
    requires Pruned(h, p, now, config, usageRetention, limit)
    ensures Kept(h, p, now, config)
  {
    hide ExpiredRaw, ExpiredEvents, ExpiredBuckets, Trimmed, RowsPruned, InUse, EpochCutoff, Boundary;
    RowsKeepEpochs(h, p);
    TrimmedRows(h.raw, p.raw1, ExpiredRaw(h.epochs, h.raw, false, Cutoff(now, config.rawRetention)), limit);
    TrimmedRows(p.raw1, p.raw2, ExpiredRaw(h.epochs, p.raw1, true, Cutoff(now, usageRetention)), limit);
    TrimmedRows(h.events, p.events, ExpiredEvents(h.events, Cutoff(now, config.eventRetention)), limit);
    TrimmedRows(h.epochs, p.epochs, Unreferenced(RowsPruned(h, p), EpochCutoff(now, config)), limit);
    forall k ensures k in p.daily ==> k in h.buckets && p.daily[k] == h.buckets[k]
      ensures k in h.buckets && IsTier(k.resolution) && Boundary(now, config, k.resolution) <= k.start ==> k in p.daily
    {
      BucketsKept(h, p, now, config, limit, k);
    }
  }

  lemma KeptContent(h: History, p: Passes, now: int, config: HistoryConfig, id: int, resolution: int, start: int)
    requires Kept(h, p, now, config) && IsTier(resolution) && Boundary(now, config, resolution) <= start
    ensures Content(PrunedBy(h, p), id, resolution, start) == Content(h, id, resolution, start)
  {
    hide Boundary, Merge, Pending, InUse;
    var k := BucketKey(id, resolution, start);
    assert k in h.buckets <==> k in p.daily;
  }

  lemma KeptGrid(buckets: map<BucketKey, Stats>, left: map<BucketKey, Stats>)
    requires OnGrid(buckets) && forall k :: k in left ==> k in buckets
    ensures OnGrid(left)
  {
    hide Aligned, IsTier;
  }

  lemma UsersKept(h: History, p: Passes, rows: History)
    requires rows == RowsPruned(h, p)
    requires forall id :: id in h.epochs && InUse(rows, id) ==> id in p.epochs
    requires Referenced(h) && p.raw2.Keys <= h.raw.Keys && p.events.Keys <= h.events.Keys
    requires p.daily.Keys <= h.buckets.Keys
    ensures forall k :: k in p.raw2 ==> k.0 in p.epochs
    ensures forall k :: k in p.events ==> k.0 in p.epochs
    ensures forall k :: k in p.daily ==> k.epoch in p.epochs
    ensures forall i :: 0 <= i < |h.spans| ==> h.spans[i].epoch in p.epochs
  {
    hide OnGrid;
    assert forall k :: k in p.raw2 ==> InUse(rows, k.0);
    assert forall k :: k in p.events ==> InUse(rows, k.0);
    assert forall k :: k in p.daily ==> InUse(rows, k.epoch);
    assert forall i :: 0 <= i < |h.spans| ==> InUse(rows, h.spans[i].epoch);
  }

  lemma KeptReferences(h: History, p: Passes, now: int, config: HistoryConfig)
    requires Kept(h, p, now, config) && Referenced(h)
    ensures Referenced(PrunedBy(h, p))
  {
    hide Boundary, OnGrid, InUse;
    KeptGrid(h.buckets, p.daily);
    UsersKept(h, p, RowsPruned(h, p));
  }

  lemma KeptShape(h: History, p: Passes, now: int, config: HistoryConfig)
    requires Kept(h, p, now, config) && EpochsOk(h, now) && LifetimesApart(h) && Referenced(h) && SpansOk(h)
    ensures var after := PrunedBy(h, p);
      EpochsOk(after, now) && LifetimesApart(after) && Referenced(after) && SpansOk(after)
  {
    KeptReferences(h, p, now, config);
    hide Boundary, EpochOk, SpanOk, Before, InUse;
    var after := PrunedBy(h, p);
    assert forall i :: 0 <= i < |h.spans| ==> h.spans[i].epoch in after.epochs;
  }

  /** Pruning keeps every invariant: no bucket still answered for loses its row. */
  lemma PruneKeepsInv(h: History, p: Passes, now: int, config: HistoryConfig, usageRetention: int, limit: nat)
    requires Inv(h, config, now) && Pruned(h, p, now, config, usageRetention, limit)
    ensures Inv(PrunedBy(h, p), config, now)
  {
    hide Pruned, Boundary, Aligned, Content, Ledger, EpochsOk, LifetimesApart, Referenced, SpansOk, Kept;
    PrunedKeeps(h, p, now, config, usageRetention, limit);
    KeptShape(h, p, now, config);
    KeptEpochs(h, p, now, config);
    var after := PrunedBy(h, p);
    forall id, resolution, start |
      && id in after.epochs && IsTier(resolution) && Aligned(start, resolution)
      && Boundary(now, config, resolution) <= start
      ensures ConservedAt(after, id, resolution, start)
    {
      assert ConservedAt(h, id, resolution, start);
      KeptContent(h, p, now, config, id, resolution, start);
    }
  }

  lemma KeptEpochs(h: History, p: Passes, now: int, config: HistoryConfig)
    requires Kept(h, p, now, config) && EpochsOk(h, now)
    ensures forall id :: id in p.epochs ==> id in h.epochs && p.epochs[id] == h.epochs[id]
    ensures forall id :: id in p.epochs ==> id in PrunedBy(h, p).log && PrunedBy(h, p).log[id] == h.log[id]
  {
    hide Boundary, EpochOk, InUse;
  }

  /** An epoch that is deleted held nothing in any bucket still answered for. */
  lemma DeletedEpochsHeldNothing(
    h: History, p: Passes, now: int, config: HistoryConfig, usageRetention: int, limit: nat, id: int,
    resolution: int, start: int)
    requires Inv(h, config, now) && Pruned(h, p, now, config, usageRetention, limit)
    requires id in h.epochs && id !in p.epochs
    requires IsTier(resolution) && Aligned(start, resolution) && Boundary(now, config, resolution) <= start
    ensures Ledger(h.epochs[id], h.log[id], start, start + Width(resolution)) == ZERO
  {
    InvConserved(h, config, now, id, resolution, start);
    hide Pruned, Boundary, Aligned, Content, Ledger, Inv, Kept, InUse;
    PrunedKeeps(h, p, now, config, usageRetention, limit);
    KeptContent(h, p, now, config, id, resolution, start);
    DeletedUnused(h, p, now, config, id);
    UnusedHoldsNothing(PrunedBy(h, p), id, resolution, start);
  }

  lemma DeletedUnused(h: History, p: Passes, now: int, config: HistoryConfig, id: int)
    requires Kept(h, p, now, config) && id in h.epochs && id !in p.epochs
    ensures !InUse(PrunedBy(h, p), id)
  {
    UseUnchanged(RowsPruned(h, p), PrunedBy(h, p));
    hide InUse, Boundary;
  }

  lemma UnusedHoldsNothing(h: History, id: int, resolution: int, start: int)
    requires !InUse(h, id)
    ensures Content(h, id, resolution, start) == ZERO
  {
    hide Merge;
    assert BucketKey(id, resolution, start) !in h.buckets;
    NoQueue(h.spans, id, start, start + Width(resolution));
    MergeZero(ZERO);
  }
}
