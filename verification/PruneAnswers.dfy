/**
 * Exactly when deleting epochs shows in an answer (`prune`, src/storage/sqlite/history/rollup.rs,
 * against docs/history-maintenance.md:33-35).  The statistics never change; eligible time, the
 * earliest available time and the set of series can.
 */
module PruneAnswers {
  import opened Prelude
  import opened HistoryStats
  import opened Tiers
  import opened History
  import opened Sums
  import opened Chart
  import opened Plans
  import opened Query
  import Percentile
  import Promises
  import Prune

  /** The deleted epochs an answer would have been made from, and the ones left. */
  function Lost(h: History, p: Prune.Passes, r: Request, plan: Plan, now: int): set<int> {
    Selected(h, r, plan, now) - p.epochs.Keys
  }

  function Left(h: History, p: Prune.Passes, r: Request, plan: Plan, now: int): set<int> {
    Selected(h, r, plan, now) * p.epochs.Keys
  }

  /** Some epoch left began by `at`, as far as the source tier reaches. */
  predicate BegunBy(h: History, plan: Plan, left: set<int>, at: int) {
    exists id :: id in left && id in h.epochs && Max(h.epochs[id].started, plan.retained) <= Max(at, plan.retained)
  }

  /** The epoch has no configured time of its own in any series. */
  predicate Timeless(e: Epoch, r: Request, now: int) {
    e.started == EndAt(e, now) || Labels(e, r) == {}
  }

  /** Everything the epoch would have shown in an answer is shown by the epochs left. */
  predicate Shadowed(h: History, r: Request, plan: Plan, now: int, left: set<int>, e: Epoch) {
    && Timeless(e, r, now)
    && Labels(e, r) <= KeysOf(h, r, left)
    && BegunBy(h, plan, left, e.started)
  }

  // ----- what an answer is made from -----

  lemma SelectionAfter(h: History, p: Prune.Passes, at: int, config: HistoryConfig, r: Request, plan: Plan, now: int)
    requires Prune.Kept(h, p, at, config)
    ensures var after, left := Prune.PrunedBy(h, p), Left(h, p, r, plan, now);
      && Candidates(after, r, now) == Candidates(h, r, now) * p.epochs.Keys
      && Selected(after, r, plan, now) == left
      && KeysOf(after, r, left) == KeysOf(h, r, left)
  {
    hide IsCandidate, Labels, Boundary, Prune.InUse;
    var after, left := Prune.PrunedBy(h, p), Left(h, p, r, plan, now);
    forall id
      ensures id in Candidates(after, r, now) <==> id in Candidates(h, r, now) && id in p.epochs
      ensures id in Selected(after, r, plan, now) <==> id in left
    {
      if id in p.epochs {
        assert p.epochs[id] == h.epochs[id];
      }
    }
    forall id | id in left
      ensures id in h.epochs && after.epochs[id] == h.epochs[id]
    {
      assert id in Candidates(h, r, now);
    }
  }

  lemma LeftSeries(
    h: History, p: Prune.Passes, at: int, config: HistoryConfig, r: Request, plan: Plan, now: int, key: string)
    requires Prune.Kept(h, p, at, config)
    ensures var after, left := Prune.PrunedBy(h, p), Left(h, p, r, plan, now);
      && Keyed(after, r, left, key) == Keyed(h, r, left, key)
      && Keyed(h, r, left, key) == Keyed(h, r, Selected(h, r, plan, now), key) * p.epochs.Keys
  {
    hide Selected, Labels, Boundary, Prune.InUse;
    var after, left := Prune.PrunedBy(h, p), Left(h, p, r, plan, now);
    assert forall id :: id in p.epochs ==> after.epochs[id] == h.epochs[id];
  }

  /** Rows and spans still answered for belong to epochs that stay. */
  lemma RowsAfter(h: History, p: Prune.Passes, at: int, config: HistoryConfig, plan: Plan, now: int, ids: set<int>)
    requires Prune.Kept(h, p, at, config) && at <= now && PlanOk(plan, config, now) && ids <= h.epochs.Keys
    ensures var after, left := Prune.PrunedBy(h, p), ids * p.epochs.Keys;
      BucketRows(after, plan, left) == BucketRows(h, plan, ids) && SpanRows(after, plan, left) == SpanRows(h, plan, ids)
  {
    hide Boundary, PlanOk, Prune.InUse, Prune.Kept;
    PlanTier(plan, config, now);
    BoundaryAdvances(at, now, config, plan.source);
    var after, left := Prune.PrunedBy(h, p), ids * p.epochs.Keys;
    assert after.spans == h.spans;
    forall row
      ensures row in BucketRows(after, plan, left) <==> row in BucketRows(h, plan, ids)
    {
      RowAfter(h, p, at, config, row);
    }
    forall i
      ensures i in SpanRows(after, plan, left) <==> i in SpanRows(h, plan, ids)
    {
      if 0 <= i < |h.spans| && h.spans[i].epoch in h.epochs && h.spans[i].epoch !in p.epochs {
        Promises.DeletedHasNoRows(h, p, at, config, h.spans[i].epoch);
      }
    }
  }

  predicate AnswersFor(h: History, at: int, config: HistoryConfig, row: BucketKey) {
    && row in h.buckets && row.epoch in h.epochs
    && IsTier(row.resolution) && Boundary(at, config, row.resolution) <= row.start
  }

  lemma RowAfter(h: History, p: Prune.Passes, at: int, config: HistoryConfig, row: BucketKey)
    requires Prune.Kept(h, p, at, config)
    ensures row in Prune.PrunedBy(h, p).buckets ==> row in h.buckets
    ensures AnswersFor(h, at, config, row) ==> row in Prune.PrunedBy(h, p).buckets && row.epoch in p.epochs
  {
    hide Boundary, Prune.InUse;
    if row.epoch in h.epochs && row.epoch !in p.epochs {
      Promises.DeletedHasNoRows(h, p, at, config, row.epoch);
    }
  }

  // ----- the three things that can change -----

  lemma SameEarliest(
    h: History, after: History, plan: Plan, ids: set<int>, left: set<int>, x: Option<int>, y: Option<int>)
    requires left <= ids <= h.epochs.Keys
    requires forall id :: id in left ==> id in after.epochs && after.epochs[id] == h.epochs[id]
    requires IsEarliest(h, plan, ids, x) && IsEarliest(after, plan, left, y)
    ensures x == y <==> forall id :: id in ids - left ==> BegunBy(h, plan, left, h.epochs[id].started)
  {
    if x == y {
      forall id | id in ids - left
        ensures BegunBy(h, plan, left, h.epochs[id].started)
      {
        var l :| l in left && l in after.epochs && y.value == Max(after.epochs[l].started, plan.retained);
        assert l in h.epochs;
      }
    }
  }

  lemma SeriesLeft(h: History, r: Request, ids: set<int>, left: set<int>)
    requires left <= ids <= h.epochs.Keys
    ensures KeysOf(h, r, left) == KeysOf(h, r, ids)
      <==> forall id :: id in ids - left ==> Labels(h.epochs[id], r) <= KeysOf(h, r, left)
    ensures KeysOf(h, r, left) <= KeysOf(h, r, ids)
  {
    hide Labels;
    if forall id :: id in ids - left ==> Labels(h.epochs[id], r) <= KeysOf(h, r, left) {
      forall key | key in KeysOf(h, r, ids)
        ensures key in KeysOf(h, r, left)
      {
        var id :| id in ids && id in h.epochs && key in Labels(h.epochs[id], r);
        if id !in left {
          assert Labels(h.epochs[id], r) <= KeysOf(h, r, left);
        }
      }
    }
  }

  /** A selected epoch that lasts has configured time in some output bucket. */
  lemma LastsSomewhere(plan: Plan, config: HistoryConfig, now: int, e: Epoch) returns (k: nat)
    requires PlanOk(plan, config, now) && e.started < plan.to && EndAt(e, now) > plan.from && e.started < EndAt(e, now)
    ensures k < plan.count && Clip(e.started, EndAt(e, now), Edge(plan, k), CellEnd(plan, k)) > 0
  {
    hide PlanOk, Edge, CellEnd, PlanWidth;
    var first := Max(e.started, plan.from);
    PlanWidths(plan, config, now);
    CellOf(plan, first);
    k := (first - plan.from) / PlanWidth(plan);
    CellEnds(plan, k, first);
  }

  lemma CellEnds(plan: Plan, k: int, at: int)
    requires at < Edge(plan, k + 1) && at < plan.to
    ensures at < CellEnd(plan, k)
  {
    hide Edge;
  }

  lemma PlanWidths(plan: Plan, config: HistoryConfig, now: int)
    requires PlanOk(plan, config, now)
    ensures PlanWidth(plan) > 0 && plan.from < plan.to <= Edge(plan, plan.count)
  {
    hide Boundary, Aligned, Edge;
    assert plan.group * Width(plan.source) > 0;
  }

  lemma BriefIsNothing(plan: Plan, now: int, e: Epoch, k: int)
    requires e.started == EndAt(e, now)
    ensures Clip(e.started, EndAt(e, now), Edge(plan, k), CellEnd(plan, k)) == 0
  {
  }

  lemma SelectedInRange(h: History, r: Request, plan: Plan, now: int, id: int)
    requires id in Selected(h, r, plan, now)
    ensures id in h.epochs && h.epochs[id].started < plan.to && EndAt(h.epochs[id], now) > plan.from
  {
    hide InScope, Floor;
    assert id in Candidates(h, r, now);
  }

  /** The configured time of a series is that of the epochs left plus that of the deleted ones. */
  lemma EligibleSplits(h: History, after: History, plan: Plan, now: int, mine: set<int>, kept: set<int>, k: int)
    requires kept <= mine <= h.epochs.Keys
    requires forall id :: id in kept ==> id in after.epochs && after.epochs[id] == h.epochs[id]
    ensures Total(mine, Eligibles(h, plan, now, k)) == Total(kept, Eligibles(after, plan, now, k))
      <==> forall id :: id in mine - kept ==> EligibleIn(h, plan, now, id, k) == 0
  {
    hide Edge, CellEnd;
    TotalSplits(kept, mine - kept, Eligibles(h, plan, now, k));
    assert kept + (mine - kept) == mine;
    TotalSame(kept, Eligibles(h, plan, now, k), Eligibles(after, plan, now, k));
    TotalZero(mine - kept, Eligibles(h, plan, now, k));
  }

  /** A series has the same configured time everywhere. */
  ghost predicate SameTime(
    h: History, after: History, r: Request, plan: Plan, now: int, ids: set<int>, left: set<int>, key: string)
  {
    forall k :: 0 <= k < plan.count ==>
      var mine, kept := Keyed(h, r, ids, key), Keyed(after, r, left, key);
      Total(mine, Eligibles(h, plan, now, k)) == Total(kept, Eligibles(after, plan, now, k))
  }

  /** Of the epochs of the series that are deleted, all are of no length. */
  predicate LostAreBrief(h: History, p: Prune.Passes, r: Request, plan: Plan, now: int, key: string) {
    forall id :: id in Lost(h, p, r, plan, now) && id in h.epochs && key in Labels(h.epochs[id], r) ==>
      h.epochs[id].started == EndAt(h.epochs[id], now)
  }

  lemma LostTime(
    h: History, p: Prune.Passes, at: int, config: HistoryConfig, r: Request, plan: Plan, now: int, key: string)
    requires Prune.Kept(h, p, at, config) && PlanOk(plan, config, now) && EpochsOk(h, now)
    ensures SameTime(h, Prune.PrunedBy(h, p), r, plan, now, Selected(h, r, plan, now), Left(h, p, r, plan, now), key)
      <==> LostAreBrief(h, p, r, plan, now, key)
  {
    hide PlanOk, Selected, Labels, EligibleIn, Prune.Kept, Prune.PrunedBy, Edge, CellEnd, EpochsOk;
    var after := Prune.PrunedBy(h, p);
    var ids, left := Selected(h, r, plan, now), Left(h, p, r, plan, now);
    var mine, kept := Keyed(h, r, ids, key), Keyed(after, r, left, key);
    LeftSeries(h, p, at, config, r, plan, now, key);
    EpochsAfter(h, p, at, config);
    forall k
      ensures Total(mine, Eligibles(h, plan, now, k)) == Total(kept, Eligibles(after, plan, now, k))
        <==> forall id :: id in mine - kept ==> EligibleIn(h, plan, now, id, k) == 0
    {
      EligibleSplits(h, after, plan, now, mine, kept, k);
    }
    LostInSeries(h, p, r, plan, now, key, kept);
    forall id | id in mine - kept
      ensures h.epochs[id].started == EndAt(h.epochs[id], now)
        <==> forall k :: 0 <= k < plan.count ==> EligibleIn(h, plan, now, id, k) == 0
    {
      LostEverywhere(h, config, r, plan, now, id);
    }
    if SameTime(h, after, r, plan, now, ids, left, key) {
      forall id | id in mine - kept
        ensures h.epochs[id].started == EndAt(h.epochs[id], now)
      {
        forall k | 0 <= k < plan.count
          ensures EligibleIn(h, plan, now, id, k) == 0
        {
          assert Total(mine, Eligibles(h, plan, now, k)) == Total(kept, Eligibles(after, plan, now, k));
        }
      }
    }
  }

  lemma LostInSeries(h: History, p: Prune.Passes, r: Request, plan: Plan, now: int, key: string, kept: set<int>)
    requires kept == Keyed(h, r, Selected(h, r, plan, now), key) * p.epochs.Keys
    ensures Keyed(h, r, Selected(h, r, plan, now), key) - kept
         == set id | id in Lost(h, p, r, plan, now) && id in h.epochs && key in Labels(h.epochs[id], r)
  {
    hide Selected, Labels;
  }

  lemma EpochsAfter(h: History, p: Prune.Passes, at: int, config: HistoryConfig)
    requires Prune.Kept(h, p, at, config)
    ensures forall id :: id in p.epochs ==> id in h.epochs && p.epochs[id] == h.epochs[id]
    ensures Prune.PrunedBy(h, p).epochs == p.epochs
  {
    hide Boundary, Prune.InUse;
  }

  lemma LostEverywhere(h: History, config: HistoryConfig, r: Request, plan: Plan, now: int, id: int)
    requires PlanOk(plan, config, now) && id in Selected(h, r, plan, now) && EpochsOk(h, now)
    ensures id in h.epochs
    ensures h.epochs[id].started == EndAt(h.epochs[id], now)
      <==> forall k :: 0 <= k < plan.count ==> EligibleIn(h, plan, now, id, k) == 0
  {
    hide PlanOk, Selected, Edge, CellEnd, Ordered, Clip;
    SelectedInRange(h, r, plan, now, id);
    var e := h.epochs[id];
    assert EpochOk(e, h.log[id], now);
    if e.started == EndAt(e, now) {
      forall k | 0 <= k < plan.count
        ensures EligibleIn(h, plan, now, id, k) == 0
      {
        BriefIsNothing(plan, now, e, k);
      }
    } else {
      var k := LastsSomewhere(plan, config, now, e);
      assert EligibleIn(h, plan, now, id, k) > 0;
    }
  }

  // ----- the answers -----

  lemma SameBuckets(
    h: History, after: History, r: Request, plan: Plan, now: int, ids: set<int>, left: set<int>, a: Response,
    b: Response, key: string)
    requires plan.group > 0 && IsResponse(h, r, plan, now, ids, a) && IsResponse(after, r, plan, now, left, b)
    requires key in a.series && key in b.series
    requires forall k :: 0 <= k < plan.count ==>
      Cell(h, plan, now, Keyed(h, r, ids, key), k).stats == Cell(after, plan, now, Keyed(after, r, left, key), k).stats
    ensures a.series[key] == b.series[key] <==> SameTime(h, after, r, plan, now, ids, left, key)
  {
    hide IsEarliest, KeysOf, Keyed, Edge, CellEnd, Cleared, Percentile.P95;
    if SameTime(h, after, r, plan, now, ids, left, key) {
      forall k | 0 <= k < plan.count
        ensures a.series[key][k] == b.series[key][k]
      {
        assert Total(Keyed(h, r, ids, key), Eligibles(h, plan, now, k))
            == Total(Keyed(after, r, left, key), Eligibles(after, plan, now, k));
      }
    } else if a.series[key] == b.series[key] {
      forall k | 0 <= k < plan.count
        ensures Total(Keyed(h, r, ids, key), Eligibles(h, plan, now, k))
             == Total(Keyed(after, r, left, key), Eligibles(after, plan, now, k))
      {
        assert a.series[key][k].eligible == b.series[key][k].eligible;
      }
    }
  }

  /** From one plan, the answers agree exactly when every deleted epoch is shadowed by the ones left. */
  lemma ResponseAfter(
    h: History, p: Prune.Passes, at: int, usageRetention: int, limit: nat, r: Request, plan: Plan,
    config: HistoryConfig, now: int, a: Response, b: Response)
    requires config.Valid() && Inv(h, config, at) && at <= now && plan.group > 0 && PlanOk(plan, config, now)
    requires Prune.Pruned(h, p, at, config, usageRetention, limit)
    requires IsResponse(h, r, plan, now, Selected(h, r, plan, now), a)
    requires IsResponse(Prune.PrunedBy(h, p), r, plan, now, Left(h, p, r, plan, now), b)
    ensures a == b <==>
      forall id :: id in Lost(h, p, r, plan, now) && id in h.epochs ==>
        Shadowed(h, r, plan, now, Left(h, p, r, plan, now), h.epochs[id])
  {
    hide Inv, PlanOk, Selected, Keyed, KeysOf, Cell, IsEarliest, Prune.Pruned, Prune.PrunedBy, Prune.Kept, EpochsOk,
         BegunBy, SameTime, LostAreBrief, Labels, EndAt;
    var after := Prune.PrunedBy(h, p);
    var ids, left := Selected(h, r, plan, now), Left(h, p, r, plan, now);
    Prune.PrunedKeeps(h, p, at, config, usageRetention, limit);
    InvLater(h, config, at, now);
    InvParts(h, config, now);
    EpochsAfter(h, p, at, config);
    SelectionAfter(h, p, at, config, r, plan, now);
    SelectedAreRows(h, r, plan, now);
    SameEarliest(h, after, plan, ids, left, a.availableFrom, b.availableFrom);
    SeriesLeft(h, r, ids, left);
    forall key | key in a.series && key in b.series
      ensures a.series[key] == b.series[key] <==> LostAreBrief(h, p, r, plan, now, key)
    {
      SeriesAfter(h, p, at, usageRetention, limit, r, plan, config, now, a, b, key);
    }
    assert a == b <==> a.availableFrom == b.availableFrom && a.series.Keys == b.series.Keys
                       && forall key :: key in a.series ==> key in b.series && a.series[key] == b.series[key];
    ShadowsAre(h, p, r, plan, now);
  }

  /** The three conditions, epoch by epoch. */
  lemma ShadowsAre(h: History, p: Prune.Passes, r: Request, plan: Plan, now: int)
    requires Selected(h, r, plan, now) <= h.epochs.Keys
    ensures var ids, left := Selected(h, r, plan, now), Left(h, p, r, plan, now);
      && (forall id :: id in ids - left ==> BegunBy(h, plan, left, h.epochs[id].started))
      && (forall id :: id in ids - left ==> Labels(h.epochs[id], r) <= KeysOf(h, r, left))
      && (forall key :: key in KeysOf(h, r, left) ==> LostAreBrief(h, p, r, plan, now, key))
      <==> forall id :: id in Lost(h, p, r, plan, now) && id in h.epochs ==>
        Shadowed(h, r, plan, now, left, h.epochs[id])
  {
    hide Selected, KeysOf, Labels, BegunBy;
    var ids, left := Selected(h, r, plan, now), Left(h, p, r, plan, now);
    assert ids - left == Lost(h, p, r, plan, now);
    if forall id :: id in Lost(h, p, r, plan, now) && id in h.epochs ==> Shadowed(h, r, plan, now, left, h.epochs[id]) {
      forall id | id in ids - left
        ensures BegunBy(h, plan, left, h.epochs[id].started) && Labels(h.epochs[id], r) <= KeysOf(h, r, left)
      {
        assert Shadowed(h, r, plan, now, left, h.epochs[id]);
      }
    }
  }

  lemma SeriesAfter(
    h: History, p: Prune.Passes, at: int, usageRetention: int, limit: nat, r: Request, plan: Plan,
    config: HistoryConfig, now: int, a: Response, b: Response, key: string)
    requires config.Valid() && Inv(h, config, at) && at <= now && plan.group > 0 && PlanOk(plan, config, now)
    requires Prune.Pruned(h, p, at, config, usageRetention, limit)
    requires IsResponse(h, r, plan, now, Selected(h, r, plan, now), a)
    requires IsResponse(Prune.PrunedBy(h, p), r, plan, now, Left(h, p, r, plan, now), b)
    requires key in a.series && key in b.series
    ensures a.series[key] == b.series[key] <==> LostAreBrief(h, p, r, plan, now, key)
  {
    hide Inv, PlanOk, Selected, Left, Keyed, KeysOf, Cell, IsEarliest, Prune.Pruned, Prune.PrunedBy, Prune.Kept,
         EpochsOk, SameTime, LostAreBrief;
    var after := Prune.PrunedBy(h, p);
    Prune.PrunedKeeps(h, p, at, config, usageRetention, limit);
    InvLater(h, config, at, now);
    InvParts(h, config, now);
    SelectionAfter(h, p, at, config, r, plan, now);
    var ids, left := Selected(h, r, plan, now), Left(h, p, r, plan, now);
    forall k | 0 <= k < plan.count
      ensures Cell(h, plan, now, Keyed(h, r, ids, key), k).stats
           == Cell(after, plan, now, Keyed(after, r, left, key), k).stats
    {
      Promises.PrunedCells(h, p, at, usageRetention, limit, r, plan, config, now, key, k);
    }
    SameBuckets(h, after, r, plan, now, ids, left, a, b, key);
    LostTime(h, p, at, config, r, plan, now, key);
  }

  function Bounded(request: Request, now: int): Request {
    request.(to := Min(request.to, now))
  }

  /** From one plan, what makes an answer busy or invalid. */
  lemma LimitsAfter(h: History, p: Prune.Passes, at: int, config: HistoryConfig, r: Request, plan: Plan, now: int)
    requires Prune.Kept(h, p, at, config) && at <= now && PlanOk(plan, config, now)
    ensures var after, ids, left := Prune.PrunedBy(h, p), Selected(h, r, plan, now), Left(h, p, r, plan, now);
      && Selected(after, r, plan, now) == left
      && |Candidates(after, r, now)| <= |Candidates(h, r, now)|
      && |KeysOf(after, r, left)| <= |KeysOf(h, r, ids)|
      && BucketRows(after, plan, left) == BucketRows(h, plan, ids)
      && SpanRows(after, plan, left) == SpanRows(h, plan, ids)
      && left <= ids
  {
    hide PlanOk, Selected, Candidates, KeysOf, Prune.Kept, Prune.PrunedBy;
    var after, ids, left := Prune.PrunedBy(h, p), Selected(h, r, plan, now), Left(h, p, r, plan, now);
    SelectionAfter(h, p, at, config, r, plan, now);
    SelectedAreRows(h, r, plan, now);
    SeriesLeft(h, r, ids, left);
    SmallerSubset(Candidates(after, r, now), Candidates(h, r, now));
    SmallerSubset(KeysOf(h, r, left), KeysOf(h, r, ids));
    RowsAfter(h, p, at, config, plan, now, ids);
  }

  /**
   * Main result: exactly when deleting epochs leaves an answer as it was, at the same or a later
   * time.  The answers agree if and only if both come from the same source tier and every deleted
   * epoch that was in range is shadowed: it has no configured time of its own, its series are
   * series of epochs that are left, and one of those began no later.
   */
  lemma AnswerAfterPrune(
    h: History, p: Prune.Passes, at: int, usageRetention: int, limit: nat, request: Request, config: HistoryConfig,
    now: int, a: Result, b: Result)
    requires config.Valid() && Inv(h, config, at) && at <= now
    requires Prune.Pruned(h, p, at, config, usageRetention, limit)
    requires IsAnswer(h, request, config, now, a) && IsAnswer(Prune.PrunedBy(h, p), request, config, now, b) && a.Ok?
    ensures request.maxPoints > 0
    ensures var r := Bounded(request, now);
      var plan := PlanFor(r, config, now, |Candidates(h, r, now)|);
      a == b <==>
        && PlanFor(r, config, now, |Candidates(Prune.PrunedBy(h, p), r, now)|).source == plan.source
        && forall id :: id in Lost(h, p, r, plan, now) && id in h.epochs ==>
             Shadowed(h, r, plan, now, Left(h, p, r, plan, now), h.epochs[id])
  {
    hide Inv, PlanOk, PlanFor, Candidates, Selected, KeysOf, Keyed, BucketRows, SpanRows, Cell, IsEarliest,
         ValidRequest, Prune.Pruned, Prune.PrunedBy, Prune.Kept, Lost, Left, Shadowed;
    RequestBounds(request, now);
    var r, after := Bounded(request, now), Prune.PrunedBy(h, p);
    var m, n := |Candidates(h, r, now)|, |Candidates(after, r, now)|;
    var plan := PlanFor(r, config, now, m);
    PlanTiles(r, config, now, m);
    PlanEdges(plan, config, now, 0);
    if PlanFor(r, config, now, n).source == plan.source {
      Promises.PlanBySource(r, config, now, m, n);
      Prune.PrunedKeeps(h, p, at, config, usageRetention, limit);
      LimitsAfter(h, p, at, config, r, plan, now);
      assert b.Ok?;
      ResponseAfter(h, p, at, usageRetention, limit, r, plan, config, now, a.response, b.response);
    }
  }

  /** A deleted epoch that lasted and has a series always shows. */
  lemma DeletedTimeShows(
    h: History, p: Prune.Passes, at: int, usageRetention: int, limit: nat, request: Request, config: HistoryConfig,
    now: int, a: Result, b: Result, id: int)
    requires config.Valid() && Inv(h, config, at) && at <= now
    requires Prune.Pruned(h, p, at, config, usageRetention, limit)
    requires IsAnswer(h, request, config, now, a) && IsAnswer(Prune.PrunedBy(h, p), request, config, now, b) && a.Ok?
    requires request.maxPoints > 0
    requires var r := Bounded(request, now);
      id in Lost(h, p, r, PlanFor(r, config, now, |Candidates(h, r, now)|), now)
    requires id in h.epochs && h.epochs[id].started < EndAt(h.epochs[id], now)
    requires Labels(h.epochs[id], Bounded(request, now)) != {}
    ensures a != b
  {
    hide Inv, IsAnswer, PlanFor, Prune.Pruned, Lost, Labels, Left;
    AnswerAfterPrune(h, p, at, usageRetention, limit, request, config, now, a, b);
    var r := Bounded(request, now);
    var plan := PlanFor(r, config, now, |Candidates(h, r, now)|);
    assert !Shadowed(h, r, plan, now, Left(h, p, r, plan, now), h.epochs[id]);
  }

  lemma DeletedEnded(
    h: History, p: Prune.Passes, at: int, config: HistoryConfig, usageRetention: int, limit: nat, id: int)
    requires Prune.Pruned(h, p, at, config, usageRetention, limit) && id in h.epochs && id !in p.epochs
    ensures h.epochs[id].ended.Some? && h.epochs[id].ended.value < Prune.EpochCutoff(at, config)
  {
    hide Prune.ExpiredRaw, Prune.ExpiredEvents, Prune.ExpiredBuckets, Prune.InUse, Prune.EpochCutoff;
    Prune.RowsKeepEpochs(h, p);
  }

  lemma NoneLost(
    h: History, p: Prune.Passes, at: int, usageRetention: int, limit: nat, r: Request, config: HistoryConfig,
    now: int)
    requires Prune.Pruned(h, p, at, config, usageRetention, limit)
    requires Prune.EpochCutoff(at, config) <= Floor(r.from, DAY)
    ensures Candidates(Prune.PrunedBy(h, p), r, now) == Candidates(h, r, now)
    ensures forall plan :: Lost(h, p, r, plan, now) == {} && Left(h, p, r, plan, now) == Selected(h, r, plan, now)
  {
    hide Prune.Pruned, Prune.PrunedBy, InScope, Floor, Prune.EpochCutoff;
    Prune.PrunedKeeps(h, p, at, config, usageRetention, limit);
    hide Prune.Kept;
    forall id | id in Candidates(h, r, now)
      ensures id in p.epochs
    {
      if id !in p.epochs {
        DeletedEnded(h, p, at, config, usageRetention, limit, id);
      }
    }
    SelectionAfter(h, p, at, config, r, Plan(DAY, 0, 0, 0, 0, 0, 0), now);
    assert Candidates(h, r, now) * p.epochs.Keys == Candidates(h, r, now);
    forall plan
      ensures Lost(h, p, r, plan, now) == {} && Left(h, p, r, plan, now) == Selected(h, r, plan, now)
    {
      assert forall id :: id in Selected(h, r, plan, now) ==> id in Candidates(h, r, now);
    }
  }

  /**
   * Main result: when the range begins in a day no earlier than the epoch cutoff, deletion is
   * invisible: the whole answer, refusals included, is as it was.
   */
  lemma AnswerUnchanged(
    h: History, p: Prune.Passes, at: int, usageRetention: int, limit: nat, request: Request, config: HistoryConfig,
    now: int, a: Result, b: Result)
    requires config.Valid() && Inv(h, config, at) && at <= now
    requires Prune.Pruned(h, p, at, config, usageRetention, limit)
    requires IsAnswer(h, request, config, now, a) && IsAnswer(Prune.PrunedBy(h, p), request, config, now, b)
    requires Prune.EpochCutoff(at, config) <= Floor(request.from, DAY)
    ensures a == b
  {
    hide Inv, PlanOk, PlanFor, Candidates, Selected, KeysOf, Keyed, BucketRows, SpanRows, Cell, IsEarliest,
         ValidRequest, Prune.Pruned, Prune.PrunedBy, Prune.Kept, Lost, Left, Shadowed, Prune.EpochCutoff, Floor;
    if ValidRequest(request, now) {
      RequestBounds(request, now);
      var r, after := Bounded(request, now), Prune.PrunedBy(h, p);
      NoneLost(h, p, at, usageRetention, limit, r, config, now);
      var plan := PlanFor(r, config, now, |Candidates(h, r, now)|);
      PlanTiles(r, config, now, |Candidates(h, r, now)|);
      Prune.PrunedKeeps(h, p, at, config, usageRetention, limit);
      LimitsAfter(h, p, at, config, r, plan, now);
      SelectionAfter(h, p, at, config, r, plan, now);
      if a.Ok? {
        AnswerAfterPrune(h, p, at, usageRetention, limit, request, config, now, a, b);
      }
    }
  }
}
