/**
 * The percentile shown in a chart (src/storage/sqlite/history/query.rs:296) against the latencies
 * of the accepted observations charted in its bucket.
 */
module ChartLatency {
  import opened Prelude
  import opened HistoryStats
  import opened Tiers
  import opened History
  import opened Sums
  import opened Chart
  import opened Plans
  import opened Query
  import opened Percentile
  import opened Truth

  /** The samples of a log taken in [from, to), as merged. */
  ghost function SampleTree(log: Log, from: int, to: int): Merged {
    match log
    case Start => Nothing
    case Then(older, newest) =>
      Both(SampleTree(older, from, to), if from <= newest.at < to then Sample(newest.observation) else Nothing)
  }

  ghost function TimeTree(log: Log, freshness: int, end: int, from: int, to: int): Merged {
    match log
    case Start => Nothing
    case Then(older, newest) =>
      Both(TimeTree(older, freshness, newest.at, from, to),
           Stretch(newest.observation, Clip(newest.at, HoldsUntil(newest, freshness, end), from, to)))
  }

  lemma {:induction false} SampleTreeValue(log: Log, from: int, to: int)
    ensures Value(SampleTree(log, from, to)) == Sampled(log, from, to)
  {
    hide Merge, SampleStats;
    if log.Then? {
      SampleTreeValue(log.older, from, to);
    }
  }

  lemma {:induction false} TimeTreeValue(log: Log, freshness: int, end: int, from: int, to: int)
    ensures Value(TimeTree(log, freshness, end, from, to)) == Held(log, freshness, end, from, to)
    ensures Latencies(TimeTree(log, freshness, end, from, to)) == 0
  {
    hide Merge, DurationStats, Clip;
    if log.Then? {
      TimeTreeValue(log.older, freshness, log.newest.at, from, to);
    }
  }

  /** What one epoch contributes to a bucket. */
  ghost function TruthTree(h: History, plan: Plan, now: int, id: int, k: int): Merged {
    if id in h.epochs && id in h.log then
      Both(SampleTree(h.log[id], Clamp(plan, Edge(plan, k)), Clamp(plan, Edge(plan, k + 1))),
           TimeTree(
             h.log[id], h.epochs[id].freshness, EndAt(h.epochs[id], now), WindowStart(plan, k), CellEnd(plan, k)))
    else Nothing
  }

  ghost function TruthTrees(h: History, plan: Plan, now: int, k: int): int -> Merged {
    id => TruthTree(h, plan, now, id, k)
  }

  lemma TruthTreeValue(h: History, plan: Plan, now: int, id: int, k: int)
    ensures Value(TruthTree(h, plan, now, id, k)) == EpochTruth(h, plan, now, id, k)
  {
    hide Merge, SampleTree, TimeTree, Sampled, Held, Clamp, Edge, WindowStart, CellEnd;
    if id in h.epochs && id in h.log {
      SampleTreeValue(h.log[id], Clamp(plan, Edge(plan, k)), Clamp(plan, Edge(plan, k + 1)));
      TimeTreeValue(
        h.log[id], h.epochs[id].freshness, EndAt(h.epochs[id], now), WindowStart(plan, k), CellEnd(plan, k));
    }
  }

  ghost function TreeOf(ids: set<int>, f: int -> Merged): Merged {
    if !exists id :: id in ids then Nothing
    else
      var id := Pick(ids);
      Both(f(id), TreeOf(ids - {id}, f))
  }

  lemma {:induction false} TreeValue(ids: set<int>, f: int -> Merged, g: int -> Stats)
    requires forall id :: id in ids ==> Value(f(id)) == g(id)
    ensures Value(TreeOf(ids, f)) == Sum(ids, g)
    decreases ids
  {
    hide Merge;
    if exists id :: id in ids {
      TreeValue(ids - {Pick(ids)}, f, g);
    }
  }

  /** Everything charted in one bucket: the samples and the time of the epochs of its series. */
  ghost function Charted(h: History, r: Request, plan: Plan, now: int, key: string, k: int): Merged {
    TreeOf(Shown(h, r, plan, now, key), TruthTrees(h, plan, now, k))
  }

  lemma ChartedValue(h: History, r: Request, plan: Plan, now: int, key: string, k: int)
    ensures Value(Charted(h, r, plan, now, key, k))
         == Sum(Shown(h, r, plan, now, key), Truths(h, plan, now, k))
  {
    hide TruthTree, EpochTruth, Shown;
    var ids := Shown(h, r, plan, now, key);
    forall id | id in ids
      ensures Value(TruthTrees(h, plan, now, k)(id)) == Truths(h, plan, now, k)(id)
    {
      TruthTreeValue(h, plan, now, id, k);
    }
    TreeValue(ids, TruthTrees(h, plan, now, k), Truths(h, plan, now, k));
  }

  /**
   * Main result: a bucket shows a percentile exactly when a latency is charted in it.  At least 95 in
   * 100 of the latencies charted in it are at most what it shows, fewer than that are at most any
   * histogram bound below it, and it is such a bound or the largest of them.
   */
  lemma ChartPercentile(
    h: History, request: Request, config: HistoryConfig, clock: int, now: int, a: Result, key: string, k: int)
    requires config.Valid() && Inv(h, config, clock) && clock <= now
    requires IsAnswer(h, request, config, now, a) && a.Ok?
    requires key in a.response.series && 0 <= k < |a.response.series[key]|
    ensures var r := request.(to := Min(request.to, now));
      var plan := PlanFor(r, config, now, |Candidates(h, r, now)|);
      var charted, p95 := Charted(h, r, plan, now, key, k), a.response.series[key][k].p95;
      && (p95.Some? <==> Latencies(charted) > 0)
      && (p95.Some? ==>
            && 20 * AtMost(charted, p95.value) >= 19 * Latencies(charted)
            && (forall i :: 0 <= i < 16 && BOUNDS[i] < p95.value ==>
                  20 * AtMost(charted, BOUNDS[i]) < 19 * Latencies(charted))
            && (p95.value in BOUNDS || AtMost(charted, p95.value) == Latencies(charted)))
  {
    hide Inv, IsAnswer, PlanFor, Candidates, Charted, PlanOk, Shown, P95, Latencies, AtMost, Below, Value, Truths;
    SelectedTruth(h, request, config, clock, now, a, key, k);
    var r := request.(to := Min(request.to, now));
    var plan := PlanFor(r, config, now, |Candidates(h, r, now)|);
    var charted := Charted(h, r, plan, now, key, k);
    ChartedValue(h, r, plan, now, key, k);
    P95Present(charted);
    if Latencies(charted) > 0 {
      P95IsNinetyFive(charted);
    }
  }
}
