/**
 * What maintenance may not change about an answer (docs/history-maintenance.md:28-48): rollup is
 * invisible, pruning changes no statistics, and known time never exceeds configured time.
 */
module Promises {
  import opened Prelude
  import opened HistoryStats
  import opened Tiers
  import opened History
  import opened Sums
  import opened Chart
  import opened Plans
  import opened Query
  import Rollup
  import Prune

  // ----- rollup -----

  lemma SameSums(h: History, after: History, plan: Plan, config: HistoryConfig, now: int, ids: set<int>, k: int)
    requires PlanOk(plan, config, now) && Inv(h, config, now) && Inv(after, config, now)
    requires after.epochs == h.epochs && after.log == h.log && ids <= h.epochs.Keys
    ensures plan.group > 0 && Cell(h, plan, now, ids, k) == Cell(after, plan, now, ids, k)
  {
    hide PlanOk, Inv, EpochCell, EpochTruth, EligibleIn, Cleared;
    PlanEdges(plan, config, now, k);
    SumIsTruth(h, plan, config, now, ids, k);
    SumIsTruth(after, plan, config, now, ids, k);
    forall id | id in ids
      ensures Truths(h, plan, now, k)(id) == Truths(after, plan, now, k)(id)
      ensures Eligibles(h, plan, now, k)(id) == Eligibles(after, plan, now, k)(id)
    {
      TruthFromLog(h, after, plan, now, id, k);
    }
    SumSame(ids, Truths(h, plan, now, k), Truths(after, plan, now, k));
    TotalSame(ids, Eligibles(h, plan, now, k), Eligibles(after, plan, now, k));
  }

  lemma TruthFromLog(h: History, after: History, plan: Plan, now: int, id: int, k: int)
    requires after.epochs == h.epochs && after.log == h.log
    ensures EpochTruth(h, plan, now, id, k) == EpochTruth(after, plan, now, id, k)
    ensures EligibleIn(h, plan, now, id, k) == EligibleIn(after, plan, now, id, k)
  {
  }

  lemma EarliestUnique(h: History, after: History, plan: Plan, ids: set<int>, a: Option<int>, b: Option<int>)
    requires after.epochs == h.epochs
    requires IsEarliest(h, plan, ids, a) && IsEarliest(after, plan, ids, b)
    ensures a == b
  {
  }

  lemma SelectionFromEpochs(h: History, after: History, r: Request, plan: Plan, now: int, key: string)
    requires after.epochs == h.epochs
    ensures Candidates(h, r, now) == Candidates(after, r, now)
    ensures Selected(h, r, plan, now) == Selected(after, r, plan, now)
    ensures forall ids :: KeysOf(h, r, ids) == KeysOf(after, r, ids)
    ensures forall ids :: Keyed(h, r, ids, key) == Keyed(after, r, ids, key)
  {
    hide InScope, Labels, Floor;
  }

  /**
   * Two stores with the same epochs and the same accepted log give the same answer, whatever their
   * rows, unless just one of them has too many rows to read: that is refused as busy.
   */
  lemma AnswerFromLog(
    h: History, after: History, request: Request, config: HistoryConfig, now: int, a: Result, b: Result)
    requires config.Valid() && Inv(h, config, now) && Inv(after, config, now)
    requires after.epochs == h.epochs && after.log == h.log
    requires IsAnswer(h, request, config, now, a) && IsAnswer(after, request, config, now, b)
    ensures a == b <==> (Overloads(h, request, config, now) <==> Overloads(after, request, config, now))
  {
    hide Inv, PlanOk, PlanFor, Candidates, Selected, KeysOf, Keyed, TooMuch, Cell, IsEarliest, ValidRequest;
    if ValidRequest(request, now) {
      RequestBounds(request, now);
      var r := request.(to := Min(request.to, now));
      var n := |Candidates(h, r, now)|;
      var plan := PlanFor(r, config, now, n);
      SelectionFromEpochs(h, after, r, plan, now, "");
      var ids := Selected(h, r, plan, now);
      if a.Ok? && b.Ok? {
        PlanTiles(r, config, now, n);
        PlanEdges(plan, config, now, 0);
        SelectedAreRows(h, r, plan, now);
        EarliestUnique(h, after, plan, ids, a.response.availableFrom, b.response.availableFrom);
        forall key | key in a.response.series
          ensures a.response.series[key] == b.response.series[key]
        {
          SameSeries(h, after, r, plan, config, now, ids, key, a.response, b.response);
        }
      }
    }
  }

  lemma SameSeries(
    h: History, after: History, r: Request, plan: Plan, config: HistoryConfig, now: int, ids: set<int>, key: string,
    a: Response, b: Response)
    requires PlanOk(plan, config, now) && Inv(h, config, now) && Inv(after, config, now)
    requires after.epochs == h.epochs && after.log == h.log && plan.group > 0
    requires IsResponse(h, r, plan, now, ids, a) && IsResponse(after, r, plan, now, ids, b)
    requires key in a.series
    ensures key in b.series && a.series[key] == b.series[key]
  {
    hide Inv, PlanOk, Cell, IsEarliest, KeysOf, Keyed;
    SelectionFromEpochs(h, after, r, plan, now, key);
    forall k | 0 <= k < plan.count
      ensures a.series[key][k] == b.series[key][k]
    {
      KeyedAreRows(h, r, ids, key);
      SameSums(h, after, plan, config, now, Keyed(h, r, ids, key), k);
    }
  }

  lemma KeyedAreRows(h: History, r: Request, ids: set<int>, key: string)
    ensures Keyed(h, r, ids, key) <= h.epochs.Keys
    ensures Keyed(h, r, ids, key) <= ids
  {
    hide Labels;
  }

  /**
   * Main result: rollup is invisible.  Any number of iterations, at a clock no later than the
   * query's, leave the whole answer unchanged, unless just one of the stores has too many rows to read.
   */
  lemma RollupInvisible(
    h: History, clock: int, at: int, n: nat, request: Request, config: HistoryConfig, now: int, a: Result,
    b: Result)
    requires config.Valid() && Inv(h, config, clock) && clock <= at <= now
    requires IsAnswer(h, request, config, now, a)
    requires IsAnswer(Rollup.Steps(h, at, config, n), request, config, now, b)
    ensures var after := Rollup.Steps(h, at, config, n);
      a == b <==> (Overloads(h, request, config, now) <==> Overloads(after, request, config, now))
  {
    hide Inv, IsAnswer, Overloads;
    InvLater(h, config, clock, at);
    Rollup.StepsKeepInv(h, at, config, n);
    InvLater(Rollup.Steps(h, at, config, n), config, at, now);
    InvLater(h, config, at, now);
    AnswerFromLog(h, Rollup.Steps(h, at, config, n), request, config, now, a, b);
  }

  // ----- known time fits configured time -----

  lemma {:induction false} HeldFits(log: Log, freshness: int, end: int, from: int, to: int, started: int)
    requires Ordered(log, started, end)
    ensures var held := Held(log, freshness, end, from, to);
      held.upMs + held.downMs <= Clip(started, end, from, to) && held.usageMs <= Clip(started, end, from, to)
  {
    if log.Then? {
      OrderedLater(log.older, started, log.newest.at - 1, log.newest.at);
      HeldFits(log.older, freshness, log.newest.at, from, to, started);
      ClipSplitsInterval(started, log.newest.at, end, from, to);
      OneEntryFits(log.newest, freshness, end, from, to);
    }
  }

  /** No observation is credited more than its freshness limit, nor past the next one. */
  lemma OneEntryFits(entry: Entry, freshness: int, end: int, from: int, to: int)
    ensures var s := HeldBy(entry, freshness, end, from, to);
      && s.upMs + s.downMs <= Clip(entry.at, end, from, to)
      && s.usageMs <= Clip(entry.at, end, from, to)
      && s.upMs + s.downMs <= Max(0, freshness)
      && s.usageMs <= Max(0, freshness)
  {
    assert "up"[0] != "down"[0];
  }

  lemma CellFits(h: History, plan: Plan, config: HistoryConfig, now: int, id: int, k: int)
    requires EpochsOk(h, now) && id in h.epochs
    ensures var t := EpochTruth(h, plan, now, id, k);
      t.upMs + t.downMs <= EligibleIn(h, plan, now, id, k) && t.usageMs <= EligibleIn(h, plan, now, id, k)
  {
    hide Held, Sampled, Clamp, Edge, CellEnd;
    assert EpochOk(h.epochs[id], h.log[id], now);
    HeldFits(h.log[id], h.epochs[id].freshness, EndAt(h.epochs[id], now), WindowStart(plan, k), CellEnd(plan, k),
        h.epochs[id].started);
    SamplesHaveNoDuration(h.log[id], Clamp(plan, Edge(plan, k)), Clamp(plan, Edge(plan, k + 1)));
  }

  lemma KnownInCell(h: History, plan: Plan, config: HistoryConfig, now: int, ids: set<int>, k: int)
    requires PlanOk(plan, config, now) && Inv(h, config, now) && ids <= h.epochs.Keys
    ensures plan.group > 0
    ensures var bucket := Cell(h, plan, now, ids, k);
      bucket.stats.upMs + bucket.stats.downMs <= bucket.eligible && bucket.stats.usageMs <= bucket.eligible
  {
    hide Inv, PlanOk, EpochCell, EpochTruth, EligibleIn, EpochsOk, Edge, CellEnd;
    PlanEdges(plan, config, now, k);
    InvParts(h, config, now);
    SumIsTruth(h, plan, config, now, ids, k);
    forall id | id in ids
      ensures var t := Truths(h, plan, now, k)(id);
        t.upMs + t.downMs <= Eligibles(h, plan, now, k)(id) && t.usageMs <= Eligibles(h, plan, now, k)(id)
    {
      CellFits(h, plan, config, now, id, k);
    }
    SumBounded(ids, Truths(h, plan, now, k), Eligibles(h, plan, now, k));
  }

  /** Main result: in every bucket of every series, known time is at most eligible time. */
  lemma KnownTimeIsEligible(
    h: History, request: Request, config: HistoryConfig, clock: int, now: int, a: Result, key: string, k: int)
    requires config.Valid() && Inv(h, config, clock) && clock <= now
    requires IsAnswer(h, request, config, now, a) && a.Ok?
    requires key in a.response.series && 0 <= k < |a.response.series[key]|
    ensures var bucket := a.response.series[key][k];
      bucket.stats.upMs + bucket.stats.downMs <= bucket.eligible && bucket.stats.usageMs <= bucket.eligible
  {
    hide Inv, PlanOk, PlanFor, Candidates, Selected, Keyed, KeysOf, Cell, ValidRequest, IsEarliest, BucketRows,
         SpanRows;
    InvLater(h, config, clock, now);
    RequestBounds(request, now);
    var r := request.(to := Min(request.to, now));
    var n := |Candidates(h, r, now)|;
    var plan := PlanFor(r, config, now, n);
    PlanTiles(r, config, now, n);
    var ids := Selected(h, r, plan, now);
    SelectedAreRows(h, r, plan, now);
    KeyedAreRows(h, r, ids, key);
    KnownInCell(h, plan, config, now, Keyed(h, r, ids, key), k);
  }

  /**
   * Queued spans lie inside their epoch's lifetime, are no longer than its freshness limit and end
   * before its live tail begins; two of one epoch are apart, the earlier row first.
   */
  lemma QueueAndTailApart(h: History, config: HistoryConfig, clock: int, i: nat, j: nat)
    requires Inv(h, config, clock) && i <= j < |h.spans| && h.spans[i].epoch == h.spans[j].epoch
    ensures var e, x, y := h.epochs[h.spans[i].epoch], h.spans[i], h.spans[j];
      && e.started <= x.cursor < x.end <= EndAt(e, clock) && y.cursor < y.end <= EndAt(e, clock)
      && x.end - x.cursor <= e.freshness && y.end - y.cursor <= e.freshness
      && (e.last.Some? ==> x.end <= e.last.value.at && y.end <= e.last.value.at)
      && (i < j ==> x.end <= y.cursor)
  {
    hide Conserved, LifetimesApart, Referenced, Ordered;
    var id := h.spans[i].epoch;
    assert EpochOk(h.epochs[id], h.log[id], clock);
    NewestInTime(h, id, clock);
  }

  /** What a bucket has materialised plus what is queued for it fits the epoch's lifetime in that bucket. */
  lemma StoredFitsLifetime(h: History, config: HistoryConfig, clock: int, id: int, resolution: int, start: int)
    requires Inv(h, config, clock) && id in h.epochs
    requires IsTier(resolution) && Aligned(start, resolution) && Boundary(clock, config, resolution) <= start
    ensures var e, next := h.epochs[id], start + Width(resolution);
      var row, queue := Stored(h, id, resolution, start), Pending(h.spans, id, start, next);
      && row.upMs + row.downMs + queue.upMs + queue.downMs <= Clip(e.started, SettledUntil(e), start, next)
      && row.usageMs + queue.usageMs <= Clip(e.started, SettledUntil(e), start, next)
  {
    hide Inv, Stored, Pending, Held, Settled, Sampled, Boundary, Aligned, EpochOk, LifetimesApart, SpansOk,
         Referenced, Clip;
    InvParts(h, config, clock);
    InvConserved(h, config, clock, id, resolution, start);
    var e, log, next := h.epochs[id], h.log[id], start + Width(resolution);
    SamplesHaveNoDuration(log, start, next);
    SettledFits(e, log, clock, start, next);
  }

  lemma SettledFits(e: Epoch, log: Log, clock: int, from: int, to: int)
    requires EpochOk(e, log, clock)
    ensures var s := Settled(e, log, from, to);
      && s.upMs + s.downMs <= Clip(e.started, SettledUntil(e), from, to)
      && s.usageMs <= Clip(e.started, SettledUntil(e), from, to)
  {
    hide Held, Clip;
    if e.ended.Some? {
      HeldFits(log, e.freshness, e.ended.value, from, to, e.started);
    } else if log.Then? {
      OrderedLater(log.older, e.started, log.newest.at - 1, log.newest.at);
      HeldFits(log.older, e.freshness, log.newest.at, from, to, e.started);
    }
  }

  // ----- pruning -----

  lemma {:induction false} NoStoredRows(h: History, plan: Plan, id: int, start: int, n: nat)
    requires forall b :: plan.retained <= b < plan.to ==> BucketKey(id, plan.source, b) !in h.buckets
    ensures StoredRange(h, plan, id, start, n) == ZERO
  {
    hide Merge;
    if n > 0 {
      NoStoredRows(h, plan, id, start, n - 1);
      MergeZero(ZERO);
    }
  }

  lemma DeletedCellIsEmpty(
    h: History, p: Prune.Passes, at: int, config: HistoryConfig, plan: Plan, now: int, id: int, k: int)
    requires Inv(h, config, at) && Prune.Kept(h, p, at, config) && at <= now
    requires PlanOk(plan, config, now) && id in h.epochs && id !in p.epochs
    ensures plan.group > 0 && EpochCell(h, plan, now, id, k) == ZERO
  {
    hide Merge, Inv, PlanOk, Prune.Kept, Boundary, Pending, EpochsOk, LifetimesApart, SpansOk, Referenced,
        StoredRange, Prune.RowsPruned;
    PlanEdges(plan, config, now, k);
    PlanTier(plan, config, now);
    BoundaryAdvances(at, now, config, plan.source);
    Prune.DeletedUnused(h, p, at, config, id);
    DeletedHasNoRows(h, p, at, config, id);
    forall b | plan.retained <= b < plan.to
      ensures BucketKey(id, plan.source, b) !in h.buckets
    {
      var row := BucketKey(id, plan.source, b);
      assert row.resolution == plan.source && row.epoch == id;
    }
    NoStoredRows(h, plan, id, Edge(plan, k), plan.group);
    NoQueue(h.spans, id, WindowStart(plan, k), CellEnd(plan, k));
    MergeZero(ZERO);
    DeletedIsClosed(h, p, at, config, id);
  }

  lemma DeletedHasNoRows(h: History, p: Prune.Passes, at: int, config: HistoryConfig, id: int)
    requires Prune.Kept(h, p, at, config) && id in h.epochs && id !in p.epochs
    ensures forall row ::
      row in h.buckets && IsTier(row.resolution) && Boundary(at, config, row.resolution) <= row.start ==>
        row.epoch != id
    ensures forall i :: 0 <= i < |h.spans| ==> h.spans[i].epoch != id
  {
    hide Boundary;
    assert !Prune.InUse(Prune.RowsPruned(h, p), id);
  }

  lemma DeletedIsClosed(h: History, p: Prune.Passes, at: int, config: HistoryConfig, id: int)
    requires Inv(h, config, at) && Prune.Kept(h, p, at, config) && id in h.epochs && id !in p.epochs
    ensures h.epochs[id].last.None?
  {
    hide Boundary, Conserved, LifetimesApart, SpansOk, Referenced, Prune.InUse, Ordered;
    assert EpochOk(h.epochs[id], h.log[id], at);
  }

  /** An epoch that is deleted has no sample and no time in any bucket of an answer, then or later. */
  lemma DeletedTruthIsZero(
    h: History, p: Prune.Passes, at: int, config: HistoryConfig, usageRetention: int, limit: nat, plan: Plan,
    now: int, id: int, k: int)
    requires Inv(h, config, at) && at <= now && Prune.Pruned(h, p, at, config, usageRetention, limit)
    requires PlanOk(plan, config, now) && id in h.epochs && id !in p.epochs
    ensures id in h.log && TruthOf(h.epochs[id], h.log[id], plan, now, k) == ZERO
  {
    hide Inv, PlanOk, EpochCell, TruthOf, Prune.Pruned, Prune.Kept, EpochsOk;
    Prune.PrunedKeeps(h, p, at, config, usageRetention, limit);
    DeletedCellIsEmpty(h, p, at, config, plan, now, id, k);
    InvParts(h, config, at);
    InvLater(h, config, at, now);
    CellIsTruth(h, plan, config, now, id, k);
  }

  lemma PlanBySource(r: Request, config: HistoryConfig, now: int, m: nat, n: nat)
    requires r.maxPoints > 0 && PlanFor(r, config, now, m).source == PlanFor(r, config, now, n).source
    ensures PlanFor(r, config, now, m) == PlanFor(r, config, now, n)
  {
    hide Floor, Boundary, CeilDiv, Coarsen, DesiredSource;
  }

  /** The epochs left after pruning are selected as before. */
  lemma SelectionAfterPrune(
    h: History, p: Prune.Passes, at: int, config: HistoryConfig, r: Request, plan: Plan, now: int, key: string)
    requires Prune.Kept(h, p, at, config)
    ensures var after := Prune.PrunedBy(h, p);
      var ids, left := Selected(h, r, plan, now), Selected(after, r, plan, now);
      && Keyed(after, r, left, key) == Keyed(h, r, ids, key) * p.epochs.Keys
      && (key in KeysOf(after, r, left) <==> Keyed(after, r, left, key) != {})
  {
    hide InScope, Labels, Floor, Boundary, Prune.InUse;
    var after := Prune.PrunedBy(h, p);
    var ids, left := Selected(h, r, plan, now), Selected(after, r, plan, now);
    forall id
      ensures id in Keyed(after, r, left, key) <==> id in Keyed(h, r, ids, key) && id in p.epochs
    {
      if id in p.epochs {
        assert p.epochs[id] == h.epochs[id];
      }
    }
    if Keyed(after, r, left, key) != {} {
      var id := Member(Keyed(after, r, left, key));
    }
  }

  lemma KeptCellSame(
    h: History, p: Prune.Passes, at: int, config: HistoryConfig, usageRetention: int, limit: nat, plan: Plan,
    now: int, id: int, k: int)
    requires Inv(h, config, at) && at <= now && Prune.Pruned(h, p, at, config, usageRetention, limit)
    requires PlanOk(plan, config, now) && id in h.epochs && id in p.epochs
    ensures plan.group > 0 && EpochCell(h, plan, now, id, k) == EpochCell(Prune.PrunedBy(h, p), plan, now, id, k)
  {
    hide Inv, PlanOk, EpochCell, Held, Sampled, Clamp, WindowStart, CellEnd, Prune.Pruned, Prune.Kept, EpochsOk;
    var after := Prune.PrunedBy(h, p);
    Prune.PruneKeepsInv(h, p, at, config, usageRetention, limit);
    Prune.PrunedKeeps(h, p, at, config, usageRetention, limit);
    InvParts(h, config, at);
    Prune.KeptEpochs(h, p, at, config);
    InvLater(h, config, at, now);
    InvLater(after, config, at, now);
    Prune.PrunedFields(h, p);
    PlanEdges(plan, config, now, k);
    CellIsTruth(h, plan, config, now, id, k);
    CellIsTruth(after, plan, config, now, id, k);
  }

  /**
   * Main result: pruning changes no statistics.  At the same or a later time, an answer from the same
   * source tier has the same range and the same statistics in every bucket; a series whose
   * epochs are all gone held nothing.
   */
  lemma PruneInvisible(
    h: History, p: Prune.Passes, at: int, usageRetention: int, limit: nat, request: Request, config: HistoryConfig,
    now: int, a: Result, b: Result, key: string, k: int)
    requires config.Valid() && Inv(h, config, at) && at <= now
    requires Prune.Pruned(h, p, at, config, usageRetention, limit)
    requires IsAnswer(h, request, config, now, a) && IsAnswer(Prune.PrunedBy(h, p), request, config, now, b)
    requires a.Ok? && b.Ok? && a.response.source == b.response.source
    requires key in a.response.series && 0 <= k < |a.response.series[key]|
    ensures a.response.from == b.response.from && a.response.to == b.response.to && a.response.step == b.response.step
    ensures key in b.response.series ==> |b.response.series[key]| == |a.response.series[key]|
    ensures a.response.series[key][k].stats
         == if key in b.response.series then b.response.series[key][k].stats else ZERO
  {
    hide Inv, PlanOk, PlanFor, Candidates, Selected, Keyed, KeysOf, EpochCell, EligibleIn, IsEarliest, BucketRows,
         SpanRows, Prune.Pruned, Prune.PrunedBy, ValidRequest;
    RequestBounds(request, now);
    var after := Prune.PrunedBy(h, p);
    var r := request.(to := Min(request.to, now));
    var m, n := |Candidates(h, r, now)|, |Candidates(after, r, now)|;
    PlanBySource(r, config, now, m, n);
    var plan := PlanFor(r, config, now, m);
    PlanTiles(r, config, now, m);
    PrunedCells(h, p, at, usageRetention, limit, r, plan, config, now, key, k);
  }

  lemma PrunedCells(
    h: History, p: Prune.Passes, at: int, usageRetention: int, limit: nat, r: Request, plan: Plan,
    config: HistoryConfig, now: int, key: string, k: int)
    requires config.Valid() && Inv(h, config, at) && at <= now
    requires Prune.Pruned(h, p, at, config, usageRetention, limit) && PlanOk(plan, config, now)
    ensures plan.group > 0
    ensures var after := Prune.PrunedBy(h, p);
      var ids, left := Selected(h, r, plan, now), Selected(after, r, plan, now);
      Cell(h, plan, now, Keyed(h, r, ids, key), k).stats
      == if key in KeysOf(after, r, left) then Cell(after, plan, now, Keyed(after, r, left, key), k).stats else ZERO
  {
    hide Inv, PlanOk, Selected, Keyed, KeysOf, EpochCell, EligibleIn, Prune.Pruned, Prune.PrunedBy, Prune.Kept;
    var after := Prune.PrunedBy(h, p);
    var mine := Keyed(h, r, Selected(h, r, plan, now), key);
    var kept := mine * p.epochs.Keys;
    PlanEdges(plan, config, now, k);
    Prune.PrunedKeeps(h, p, at, config, usageRetention, limit);
    SelectionAfterPrune(h, p, at, config, r, plan, now, key);
    KeyedAreRows(h, r, Selected(h, r, plan, now), key);
    forall id | id in kept
      ensures Cells(h, plan, now, k)(id) == Cells(after, plan, now, k)(id)
    {
      KeptCellSame(h, p, at, config, usageRetention, limit, plan, now, id, k);
    }
    SumSame(kept, Cells(h, plan, now, k), Cells(after, plan, now, k));
    forall id | id in mine - kept
      ensures Cells(h, plan, now, k)(id) == ZERO
    {
      DeletedCellIsEmpty(h, p, at, config, plan, now, id, k);
    }
    assert kept + (mine - kept) == mine;
    SumExtra(kept, mine - kept, Cells(h, plan, now, k));
    if kept == {} {
      SumZero(kept, Cells(after, plan, now, k));
    }
  }
}
