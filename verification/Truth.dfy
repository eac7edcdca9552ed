/**
 * Every column of a chart against the log: the statistics of a bucket are those of the samples
 * and the time of every epoch asked for, short of exactly the samples the selection of epochs misses
 * (`query`, src/storage/sqlite/history/query.rs:186-289).
 */
module Truth {
  import opened Prelude
  import opened HistoryStats
  import opened Tiers
  import opened History
  import opened Sums
  import opened Chart
  import opened Plans
  import opened Query
  import Percentile

  // ----- what the selection misses -----

  /** Where an epoch outside the range touches it: at its start, or at its end. */
  function EdgeFor(e: Epoch, plan: Plan, now: int): int {
    if EndAt(e, now) <= plan.from then plan.from else plan.to
  }

  /** The sample taken at that very moment, if there is one and it belongs to the bucket. */
  ghost function EdgeSample(e: Epoch, log: Log, plan: Plan, now: int, k: int): Option<Observation> {
    var edge := EdgeFor(e, plan, now);
    if Clamp(plan, Edge(plan, k)) <= edge < Clamp(plan, Edge(plan, k + 1)) then EntryAt(log, edge) else None
  }

  ghost function StatsOf(sample: Option<Observation>): Stats {
    if sample.Some? then SampleStats(sample.value) else ZERO
  }

  ghost function EdgeStats(h: History, plan: Plan, now: int, k: int): int -> Stats {
    id => if id in h.epochs && id in h.log then StatsOf(EdgeSample(h.epochs[id], h.log[id], plan, now, k)) else ZERO
  }

  /** When `t` is the only time of the lifetime inside the window, at most the sample at `t` counts. */
  lemma {:induction false} OnlySampleAt(log: Log, from: int, to: int, started: int, end: int, t: int)
    requires Ordered(log, started, end)
    requires Max(started, from) > Min(end, to - 1) || Min(end, to - 1) <= t <= Max(started, from)
    ensures Sampled(log, from, to) == StatsOf(if from <= t < to then EntryAt(log, t) else None)
  {
    hide Merge, SampleStats;
    MergeZero(ZERO);
    if log.Then? {
      var older, newest := log.older, log.newest;
      OnlySampleAt(older, from, to, started, newest.at - 1, t);
      if EntryAt(older, t).Some? {
        EntryInLifetime(older, started, newest.at - 1, t);
        MergeZero(SampleStats(EntryAt(older, t).value));
      }
      MergeZero(SampleStats(newest.observation));
    }
  }

  /** An epoch that ends by the start of the range, or begins at its end or later. */
  predicate Outside(e: Epoch, plan: Plan, now: int) {
    EndAt(e, now) <= plan.from || plan.to <= e.started
  }

  lemma ClampInRange(plan: Plan, config: HistoryConfig, now: int, k: int)
    requires PlanOk(plan, config, now) && 0 <= k < plan.count
    ensures plan.from <= Clamp(plan, Edge(plan, k)) && plan.to == Min(plan.top, now)
    ensures Clamp(plan, Edge(plan, k + 1)) <= plan.top || Clamp(plan, Edge(plan, k + 1)) <= Clamp(plan, Edge(plan, k))
  {
    hide Boundary, Aligned;
    assert k * PlanWidth(plan) >= 0;
  }

  lemma OutsideSamples(e: Epoch, log: Log, plan: Plan, config: HistoryConfig, now: int, k: int)
    requires PlanOk(plan, config, now) && 0 <= k < plan.count && EpochOk(e, log, now) && Outside(e, plan, now)
    ensures Sampled(log, Clamp(plan, Edge(plan, k)), Clamp(plan, Edge(plan, k + 1)))
         == StatsOf(EdgeSample(e, log, plan, now, k))
  {
    hide PlanOk, Edge, Clamp, Ordered, Sampled, EntryAt, StatsOf;
    ClampInRange(plan, config, now, k);
    OnlySampleAt(
      log, Clamp(plan, Edge(plan, k)), Clamp(plan, Edge(plan, k + 1)), e.started, EndAt(e, now),
      EdgeFor(e, plan, now));
  }

  lemma OutsideTime(e: Epoch, log: Log, plan: Plan, config: HistoryConfig, now: int, k: int)
    requires PlanOk(plan, config, now) && 0 <= k < plan.count && EpochOk(e, log, now) && Outside(e, plan, now)
    ensures IntegralOf(e, log, plan, now, k) == ZERO
  {
    hide PlanOk, Held, Ordered, WindowStart, CellEnd;
    WindowInRange(plan, config, now, k);
    HeldNothing(log, e.freshness, EndAt(e, now), WindowStart(plan, k), CellEnd(plan, k), e.started);
  }

  /** The truth of an epoch outside the range is exactly the sample at the edge it touches. */
  lemma OutsideTruth(e: Epoch, log: Log, plan: Plan, config: HistoryConfig, now: int, k: int)
    requires PlanOk(plan, config, now) && 0 <= k < plan.count && EpochOk(e, log, now) && Outside(e, plan, now)
    ensures TruthOf(e, log, plan, now, k) == StatsOf(EdgeSample(e, log, plan, now, k))
  {
    hide Merge, PlanOk, EpochOk, Outside, Sampled, IntegralOf, StatsOf, EdgeSample;
    OutsideSamples(e, log, plan, config, now, k);
    OutsideTime(e, log, plan, config, now, k);
    MergeZero(StatsOf(EdgeSample(e, log, plan, now, k)));
  }

  lemma UnselectedOutside(h: History, r: Request, config: HistoryConfig, now: int, epochs: nat, id: int)
    requires r.from < r.to <= now && r.maxPoints > 0 && EpochsOk(h, now)
    requires var plan := PlanFor(r, config, now, epochs); id in InScopeIds(h, r) && id !in Selected(h, r, plan, now)
    ensures Outside(h.epochs[id], PlanFor(r, config, now, epochs), now)
  {
    hide InScope, PlanFor, Ordered, Floor;
    SelectionCovers(r, config, now, epochs);
    assert EpochOk(h.epochs[id], h.log[id], now);
  }

  // ----- every column -----

  /** The epochs asked for that the answer was not made from: those outside the range. */
  function Unselected(h: History, r: Request, plan: Plan, now: int, key: string): set<int> {
    set id | id in Asked(h, r, key) && id in h.epochs && Outside(h.epochs[id], plan, now)
  }

  /** And those it was made from. */
  function Shown(h: History, r: Request, plan: Plan, now: int, key: string): set<int> {
    set id | id in Asked(h, r, key) && id in h.epochs && !Outside(h.epochs[id], plan, now)
  }

  lemma ShownAreSelected(h: History, r: Request, config: HistoryConfig, now: int, epochs: nat, key: string)
    requires r.from < r.to <= now && r.maxPoints > 0 && EpochsOk(h, now)
    ensures var plan := PlanFor(r, config, now, epochs);
      Shown(h, r, plan, now, key) == Keyed(h, r, Selected(h, r, plan, now), key)
  {
    hide Labels, Selected, InScopeIds, Asked, PlanFor, Outside, EpochsOk;
    var plan := PlanFor(r, config, now, epochs);
    SelectedAreRows(h, r, plan, now);
    AskedIsKeyed(h, r, key);
    forall id | id in Asked(h, r, key)
      ensures Outside(h.epochs[id], plan, now) <==> id !in Selected(h, r, plan, now)
    {
      if id !in Selected(h, r, plan, now) {
        UnselectedOutside(h, r, config, now, epochs, id);
      } else {
        SelectedInside(h, r, plan, now, id);
      }
    }
  }

  lemma SelectedInside(h: History, r: Request, plan: Plan, now: int, id: int)
    requires id in Selected(h, r, plan, now)
    ensures id in h.epochs && !Outside(h.epochs[id], plan, now)
  {
    hide InScope, Floor;
  }

  lemma UnselectedTruth(
    h: History, r: Request, config: HistoryConfig, plan: Plan, now: int, key: string, id: int, k: int)
    requires PlanOk(plan, config, now) && 0 <= k < plan.count && EpochsOk(h, now)
    requires id in Unselected(h, r, plan, now, key)
    ensures EpochTruth(h, plan, now, id, k) == EdgeStats(h, plan, now, k)(id)
  {
    hide Asked, PlanOk, TruthOf, StatsOf, EdgeSample, EpochOk, Outside;
    assert EpochOk(h.epochs[id], h.log[id], now);
    OutsideTruth(h.epochs[id], h.log[id], plan, config, now, k);
  }

  lemma ShownOrNot(h: History, r: Request, plan: Plan, now: int, key: string)
    ensures Shown(h, r, plan, now, key) !! Unselected(h, r, plan, now, key)
    ensures Shown(h, r, plan, now, key) + Unselected(h, r, plan, now, key) == Asked(h, r, key)
    ensures Asked(h, r, key) <= h.epochs.Keys
  {
    hide AskedFor, Outside;
  }

  lemma {:induction false} SumSplits(xs: set<int>, ys: set<int>, f: int -> Stats)
    requires xs !! ys
    ensures Sum(xs + ys, f) == Merge(Sum(xs, f), Sum(ys, f))
    decreases ys
  {
    hide Merge;
    if ys == {} {
      assert xs + ys == xs;
      SumZero(ys, f);
      MergeZero(Sum(xs, f));
    } else {
      var y := Member(ys);
      var rest := ys - {y};
      SumSplits(xs, rest, f);
      SumPick(xs + ys, y, f);
      SumPick(ys, y, f);
      assert xs + ys - {y} == xs + rest;
      MergeAssociates(f(y), Sum(xs, f), Sum(rest, f));
      MergeCommutes(f(y), Sum(xs, f));
      MergeAssociates(Sum(xs, f), f(y), Sum(rest, f));
    }
  }

  /** The bucket of an answer is the sum of the truths of the epochs it was made from. */
  lemma SelectedTruth(
    h: History, request: Request, config: HistoryConfig, clock: int, now: int, a: Result, key: string, k: int)
    requires config.Valid() && Inv(h, config, clock) && clock <= now
    requires IsAnswer(h, request, config, now, a) && a.Ok?
    requires key in a.response.series && 0 <= k < |a.response.series[key]|
    ensures var r := request.(to := Min(request.to, now));
      var plan := PlanFor(r, config, now, |Candidates(h, r, now)|);
      var bucket := a.response.series[key][k];
      && r.from < r.to <= now && r.maxPoints > 0 && k < plan.count && PlanOk(plan, config, now)
      && bucket.stats == Sum(Shown(h, r, plan, now, key), Truths(h, plan, now, k))
      && bucket.p95 == Percentile.P95(bucket.stats)
  {
    hide Inv, PlanOk, PlanFor, Candidates, Selected, EpochTruth, EpochCell, InScopeIds, Cleared, Keyed, KeysOf,
         BucketRows, SpanRows, Shown, EpochsOk;
    InvLater(h, config, clock, now);
    InvParts(h, config, now);
    var r := request.(to := Min(request.to, now));
    var epochs := |Candidates(h, r, now)|;
    var plan := PlanFor(r, config, now, epochs);
    PlanTiles(r, config, now, epochs);
    ShownAreSelected(h, r, config, now, epochs, key);
    var mine := Keyed(h, r, Selected(h, r, plan, now), key);
    KeyedStored(h, r, Selected(h, r, plan, now), key);
    ClearedIsEmpty(h, plan, config, now, mine, k);
    SumIsTruth(h, plan, config, now, mine, k);
  }

  lemma KeyedStored(h: History, r: Request, ids: set<int>, key: string)
    ensures Keyed(h, r, ids, key) <= h.epochs.Keys
  {
    hide Labels;
  }

  /**
   * Main result: every column of every bucket, samples and latencies included, is that of the
   * accepted observations of every epoch asked for, short of exactly the samples taken at the very
   * moment an epoch outside the range touches it.
   */
  lemma ChartIsTruth(
    h: History, request: Request, config: HistoryConfig, clock: int, now: int, a: Result, key: string, k: int)
    requires config.Valid() && Inv(h, config, clock) && clock <= now
    requires IsAnswer(h, request, config, now, a) && a.Ok?
    requires key in a.response.series && 0 <= k < |a.response.series[key]|
    ensures var r := request.(to := Min(request.to, now));
      var plan := PlanFor(r, config, now, |Candidates(h, r, now)|);
      Merge(a.response.series[key][k].stats, Sum(Unselected(h, r, plan, now, key), EdgeStats(h, plan, now, k)))
      == Sum(Asked(h, r, key), Truths(h, plan, now, k))
  {
    hide Inv, IsAnswer, PlanFor, PlanOk, Candidates, Selected, EpochTruth, Asked, Shown, Unselected, EdgeStats,
         EpochsOk, Merge;
    SelectedTruth(h, request, config, clock, now, a, key, k);
    InvLater(h, config, clock, now);
    InvParts(h, config, now);
    var r := request.(to := Min(request.to, now));
    var plan := PlanFor(r, config, now, |Candidates(h, r, now)|);
    ShownOrNot(h, r, plan, now, key);
    var mine, rest := Shown(h, r, plan, now, key), Unselected(h, r, plan, now, key);
    forall id | id in rest
      ensures Truths(h, plan, now, k)(id) == EdgeStats(h, plan, now, k)(id)
    {
      UnselectedTruth(h, r, config, plan, now, key, id, k);
    }
    SumSame(rest, Truths(h, plan, now, k), EdgeStats(h, plan, now, k));
    SumSplits(mine, rest, Truths(h, plan, now, k));
  }

  // ----- samples -----

  ghost function SampleCounts(h: History, plan: Plan, now: int, k: int): int -> nat {
    id => EpochTruth(h, plan, now, id, k).samples
  }

  /** The epochs whose sample at the edge is missed. */
  ghost function Missing(h: History, r: Request, plan: Plan, now: int, key: string, k: int): set<int> {
    set id | id in Unselected(h, r, plan, now, key) && id in h.epochs && id in h.log
             && EdgeSample(h.epochs[id], h.log[id], plan, now, k).Some?
  }

  lemma {:induction false} SamplesAdd(xs: set<int>, f: int -> Stats, g: int -> nat)
    requires forall x :: x in xs ==> f(x).samples == g(x)
    ensures Sum(xs, f).samples == Total(xs, g)
    decreases xs
  {
    if exists x :: x in xs {
      SamplesAdd(xs - {Pick(xs)}, f, g);
    }
  }

  lemma {:induction false} OnePerMember(xs: set<int>, ms: set<int>, f: int -> Stats)
    requires ms <= xs && forall x :: x in xs ==> f(x).samples == if x in ms then 1 else 0
    ensures Sum(xs, f).samples == |ms|
    decreases xs
  {
    if exists x :: x in xs {
      var x := Pick(xs);
      OnePerMember(xs - {x}, ms - {x}, f);
    } else {
      assert ms == {};
    }
  }

  /**
   * The samples of a bucket are the accepted samples of every epoch asked for, less one for each
   * epoch outside the range with a sample at the very moment it touches it.
   */
  lemma ChartSamples(
    h: History, request: Request, config: HistoryConfig, clock: int, now: int, a: Result, key: string, k: int)
    requires config.Valid() && Inv(h, config, clock) && clock <= now
    requires IsAnswer(h, request, config, now, a) && a.Ok?
    requires key in a.response.series && 0 <= k < |a.response.series[key]|
    ensures var r := request.(to := Min(request.to, now));
      var plan := PlanFor(r, config, now, |Candidates(h, r, now)|);
      a.response.series[key][k].stats.samples + |Missing(h, r, plan, now, key, k)|
      == Total(Asked(h, r, key), SampleCounts(h, plan, now, k))
  {
    hide Inv, IsAnswer, PlanFor, PlanOk, Candidates, Selected, EpochTruth, Asked, EdgeSample, Unselected;
    SelectedTruth(h, request, config, clock, now, a, key, k);
    ChartIsTruth(h, request, config, clock, now, a, key, k);
    var r := request.(to := Min(request.to, now));
    var plan := PlanFor(r, config, now, |Candidates(h, r, now)|);
    SamplesAdd(Asked(h, r, key), Truths(h, plan, now, k), SampleCounts(h, plan, now, k));
    OnePerMember(Unselected(h, r, plan, now, key), Missing(h, r, plan, now, key, k), EdgeStats(h, plan, now, k));
  }

  /** The missed samples carry no time. */
  lemma EdgesHaveNoTime(h: History, plan: Plan, now: int, k: int, ids: set<int>)
    ensures Durations(Sum(ids, EdgeStats(h, plan, now, k))) == ZERO
  {
    hide EdgeSample;
    var none := (id: int) => ZERO;
    SumDurations(ids, EdgeStats(h, plan, now, k), none);
    SumZero(ids, none);
  }
}
