/**
 * The answer to a history request (`query`, src/storage/sqlite/history/query.rs): every request
 * has one, and its times are the integral of the accepted observations.
 */
module Query {
  import opened Prelude
  import opened HistoryStats
  import opened Tiers
  import opened History
  import opened Sums
  import opened Chart
  import opened Plans
  import Percentile
  import Rollup
  import Prune

  datatype OutBucket = OutBucket(start: int, end: int, eligible: nat, stats: Stats, p95: Option<real>)

  datatype Response = Response(
    from: int,
    to: int,
    step: int,
    source: int,
    availableFrom: Option<int>,
    series: map<string, seq<OutBucket>>)

  datatype QueryError = InvalidQuery | Busy

  datatype Result = Ok(response: Response) | Err(error: QueryError)

  // ----- rows -----

  /** In scope and touching the day-aligned range. */
  predicate IsCandidate(e: Epoch, r: Request, now: int) {
    var from := Floor(r.from, DAY);
    var to := Min(Floor(r.to - 1, DAY) + Width(DAY), now);
    InScope(e, r) && e.started < to && (e.ended.Some? ==> e.ended.value > from)
  }

  function Candidates(h: History, r: Request, now: int): set<int> {
    set id | id in h.epochs && IsCandidate(h.epochs[id], r, now)
  }

  function Selected(h: History, r: Request, plan: Plan, now: int): set<int> {
    set id | id in Candidates(h, r, now) && h.epochs[id].started < plan.to && EndAt(h.epochs[id], now) > plan.from
  }

  function KeysOf(h: History, r: Request, ids: set<int>): set<string> {
    set id, key | id in ids && id in h.epochs && key in Labels(h.epochs[id], r) :: key
  }

  /** The epochs that count in one series. */
  function Keyed(h: History, r: Request, ids: set<int>, key: string): set<int> {
    set id | id in ids && id in h.epochs && key in Labels(h.epochs[id], r)
  }

  function BucketRows(h: History, plan: Plan, ids: set<int>): set<BucketKey> {
    set row | row in h.buckets && row.epoch in ids && row.resolution == plan.source
              && Max(plan.from, plan.retained) <= row.start < plan.to
  }

  function SpanRows(h: History, plan: Plan, ids: set<int>): set<int> {
    set i | 0 <= i < |h.spans| && h.spans[i].epoch in ids && h.spans[i].cursor < plan.to && h.spans[i].end > plan.from
  }

  // ----- cells -----

  ghost function Cells(h: History, plan: Plan, now: int, k: int): int -> Stats
    requires plan.group >= 0
  {
    id => EpochCell(h, plan, now, id, k)
  }

  ghost function Truths(h: History, plan: Plan, now: int, k: int): int -> Stats {
    id => EpochTruth(h, plan, now, id, k)
  }

  ghost function Integrals(h: History, plan: Plan, now: int, k: int): int -> Stats {
    id => Durations(EpochIntegral(h, plan, now, id, k))
  }

  /** Configured time of an epoch inside an output bucket. */
  function EligibleIn(h: History, plan: Plan, now: int, id: int, k: int): nat {
    if id in h.epochs then Clip(h.epochs[id].started, EndAt(h.epochs[id], now), Edge(plan, k), CellEnd(plan, k)) else 0
  }

  ghost function Eligibles(h: History, plan: Plan, now: int, k: int): int -> nat {
    id => EligibleIn(h, plan, now, id, k)
  }

  /** Buckets that end by the retention boundary are cleared. */
  function Cleared(plan: Plan, k: int, stats: Stats): Stats {
    if CellEnd(plan, k) <= plan.retained then ZERO else stats
  }

  ghost function Cell(h: History, plan: Plan, now: int, ids: set<int>, k: int): OutBucket
    requires plan.group >= 0
  {
    var stats := Cleared(plan, k, Sum(ids, Cells(h, plan, now, k)));
    OutBucket(Edge(plan, k), CellEnd(plan, k), Total(ids, Eligibles(h, plan, now, k)), stats, Percentile.P95(stats))
  }

  ghost predicate IsEarliest(h: History, plan: Plan, ids: set<int>, at: Option<int>) {
    match at
    case None => ids == {}
    case Some(t) =>
      && (exists id :: id in ids && id in h.epochs && t == Max(h.epochs[id].started, plan.retained))
      && (forall id :: id in ids && id in h.epochs ==> t <= Max(h.epochs[id].started, plan.retained))
  }

  ghost predicate IsResponse(h: History, r: Request, plan: Plan, now: int, ids: set<int>, a: Response)
    requires plan.group >= 0
  {
    && a.from == plan.from && a.to == plan.to
    && a.source == plan.source && a.step == plan.group * plan.source
    && IsEarliest(h, plan, ids, a.availableFrom)
    && a.series.Keys == KeysOf(h, r, ids)
    && forall key :: key in a.series ==>
         |a.series[key]| == plan.count
         && forall k :: 0 <= k < plan.count ==> a.series[key][k] == Cell(h, plan, now, Keyed(h, r, ids, key), k)
  }

  /** There are more rows to read than a request may read. */
  predicate TooMuch(h: History, plan: Plan, ids: set<int>) {
    ids != {} && (|BucketRows(h, plan, ids)| > 200_000 || |SpanRows(h, plan, ids)| > 50_000)
  }

  /** What `query` answers. */
  ghost predicate IsAnswer(h: History, request: Request, config: HistoryConfig, now: int, a: Result) {
    if !ValidRequest(request, now) then a == Err(InvalidQuery)
    else
      var r := request.(to := Min(request.to, now));
      var candidates := Candidates(h, r, now);
      if |candidates| > 10_000 then a == Err(Busy)
      else
        var plan := PlanFor(r, config, now, |candidates|);
        var ids := Selected(h, r, plan, now);
        if |KeysOf(h, r, ids)| > 16 then a == Err(InvalidQuery)
        else if TooMuch(h, plan, ids) then a == Err(Busy)
        else a.Ok? && IsResponse(h, r, plan, now, ids, a.response)
  }

  /** A valid request that passes the checks made before rows are read, and then reads too many. */
  predicate Overloads(h: History, request: Request, config: HistoryConfig, now: int) {
    && ValidRequest(request, now)
    && var r := request.(to := Min(request.to, now));
       var plan := PlanFor(r, config, now, |Candidates(h, r, now)|);
       var ids := Selected(h, r, plan, now);
       |Candidates(h, r, now)| <= 10_000 && |KeysOf(h, r, ids)| <= 16 && TooMuch(h, plan, ids)
  }

  // ----- every request has an answer -----

  lemma {:induction false} EarliestExists(h: History, plan: Plan, ids: set<int>) returns (at: Option<int>)
    requires ids <= h.epochs.Keys
    ensures IsEarliest(h, plan, ids, at)
    decreases ids
  {
    if ids == {} {
      at := None;
    } else {
      var id := Member(ids);
      var rest := EarliestExists(h, plan, ids - {id});
      var mine := Max(h.epochs[id].started, plan.retained);
      at := if rest.None? || mine < rest.value then Some(mine) else rest;
      forall other | other in ids
        ensures at.value <= Max(h.epochs[other].started, plan.retained)
      {
        assert other == id || other in ids - {id};
      }
      if at == rest {
        var first :| first in ids - {id} && first in h.epochs
                     && at.value == Max(h.epochs[first].started, plan.retained);
        assert first in ids;
      } else {
        assert id in ids && at.value == Max(h.epochs[id].started, plan.retained);
      }
    }
  }

  ghost function BucketsOf(h: History, plan: Plan, now: int, ids: set<int>): (series: seq<OutBucket>)
    requires plan.group >= 0 && plan.count >= 0
    ensures |series| == plan.count && forall k :: 0 <= k < plan.count ==> series[k] == Cell(h, plan, now, ids, k)
  {
    seq(plan.count, k requires 0 <= k < plan.count => Cell(h, plan, now, ids, k))
  }

  lemma ResponseExists(h: History, r: Request, plan: Plan, now: int, ids: set<int>) returns (a: Response)
    requires plan.group >= 0 && plan.count >= 0 && ids <= h.epochs.Keys
    ensures IsResponse(h, r, plan, now, ids, a)
  {
    hide Cell, Keyed, KeysOf, IsEarliest, BucketsOf;
    var earliest := EarliestExists(h, plan, ids);
    var series := map key | key in KeysOf(h, r, ids) :: BucketsOf(h, plan, now, Keyed(h, r, ids, key));
    a := Response(plan.from, plan.to, plan.group * plan.source, plan.source, earliest, series);
  }

  lemma AnswerExists(h: History, request: Request, config: HistoryConfig, now: int) returns (a: Result)
    ensures IsAnswer(h, request, config, now, a)
  {
    hide PlanFor, Candidates, KeysOf, IsResponse, Selected, TooMuch, ValidRequest;
    a := Err(InvalidQuery);
    if ValidRequest(request, now) {
      RequestBounds(request, now);
      var r := request.(to := Min(request.to, now));
      var plan := PlanFor(r, config, now, |Candidates(h, r, now)|);
      var ids := Selected(h, r, plan, now);
      PlanShape(r, config, now, |Candidates(h, r, now)|);
      SelectedAreRows(h, r, plan, now);
      if |Candidates(h, r, now)| > 10_000 {
        a := Err(Busy);
      } else if |KeysOf(h, r, ids)| <= 16 {
        if TooMuch(h, plan, ids) {
          a := Err(Busy);
        } else {
          var response := ResponseExists(h, r, plan, now, ids);
          a := Ok(response);
        }
      }
    }
  }

  lemma RequestBounds(request: Request, now: int)
    requires ValidRequest(request, now)
    ensures request.from < Min(request.to, now) && request.maxPoints > 0
  {
  }

  lemma PlanShape(r: Request, config: HistoryConfig, now: int, epochs: nat)
    requires r.from < r.to <= now && r.maxPoints > 0
    ensures var plan := PlanFor(r, config, now, epochs); plan.group >= 1 && plan.count >= 1
  {
    hide Boundary, PlanFor, Edge;
    PlanTiles(r, config, now, epochs);
  }

  // ----- the chart is the integral -----

  lemma SumIsTruth(h: History, plan: Plan, config: HistoryConfig, now: int, ids: set<int>, k: int)
    requires PlanOk(plan, config, now) && Inv(h, config, now) && ids <= h.epochs.Keys
    ensures Sum(ids, Cells(h, plan, now, k)) == Sum(ids, Truths(h, plan, now, k))
  {
    hide EpochCell, EpochTruth, PlanOk, Inv;
    PlanEdges(plan, config, now, k);
    forall id | id in ids
      ensures Cells(h, plan, now, k)(id) == Truths(h, plan, now, k)(id)
    {
      CellIsTruth(h, plan, config, now, id, k);
    }
    SumSame(ids, Cells(h, plan, now, k), Truths(h, plan, now, k));
  }

  lemma {:induction false} HeldNothing(log: Log, freshness: int, end: int, from: int, to: int, started: int)
    requires Ordered(log, started, end)
    requires end <= from || to <= started || to <= from
    ensures Held(log, freshness, end, from, to) == ZERO
  {
    hide Merge;
    MergeZero(ZERO);
    if log.Then? {
      OrderedLater(log.older, started, log.newest.at - 1, log.newest.at);
      HeldNothing(log.older, freshness, log.newest.at, from, to, started);
      NoDuration(log.newest.observation);
    }
  }

  lemma {:induction false} NoSampleBetween(log: Log, from: int, to: int)
    requires to <= from
    ensures Sampled(log, from, to) == ZERO
  {
    hide Merge;
    MergeZero(ZERO);
    if log.Then? {
      NoSampleBetween(log.older, from, to);
    }
  }

  /** Clearing expired buckets removes nothing: they hold nothing. */
  lemma ClearedIsEmpty(h: History, plan: Plan, config: HistoryConfig, now: int, ids: set<int>, k: int)
    requires PlanOk(plan, config, now) && config.Valid() && Inv(h, config, now) && ids <= h.epochs.Keys
    ensures plan.group > 0
    ensures Cleared(plan, k, Sum(ids, Cells(h, plan, now, k))) == Sum(ids, Cells(h, plan, now, k))
  {
    hide PlanOk, Inv, EpochCell, EpochTruth, Held, Sampled, Clamp, WindowStart, CellEnd;
    PlanEdges(plan, config, now, k);
    if CellEnd(plan, k) <= plan.retained {
      SumIsTruth(h, plan, config, now, ids, k);
      forall id | id in ids
        ensures Truths(h, plan, now, k)(id) == ZERO
      {
        ExpiredCellIsEmpty(h, plan, config, now, id, k);
      }
      SumZero(ids, Truths(h, plan, now, k));
    }
  }

  lemma ExpiredCellIsEmpty(h: History, plan: Plan, config: HistoryConfig, now: int, id: int, k: int)
    requires PlanOk(plan, config, now) && config.Valid() && Inv(h, config, now) && id in h.epochs
    requires CellEnd(plan, k) <= plan.retained
    ensures EpochTruth(h, plan, now, id, k) == ZERO
  {
    hide Merge, PlanOk, Inv, Sampled, Held, Ordered, Boundary, Aligned;
    InvParts(h, config, now);
    PlanEdges(plan, config, now, k);
    ExpiredClamp(plan, config, now, k);
    assert EpochOk(h.epochs[id], h.log[id], now);
    NoSampleBetween(h.log[id], Clamp(plan, Edge(plan, k)), Clamp(plan, Edge(plan, k + 1)));
    HeldNothing(h.log[id], h.epochs[id].freshness, EndAt(h.epochs[id], now), WindowStart(plan, k), CellEnd(plan, k),
        h.epochs[id].started);
    MergeZero(ZERO);
  }

  lemma ExpiredClamp(plan: Plan, config: HistoryConfig, now: int, k: int)
    requires PlanOk(plan, config, now) && config.Valid() && CellEnd(plan, k) <= plan.retained
    ensures Clamp(plan, Edge(plan, k + 1)) <= Clamp(plan, Edge(plan, k))
    ensures CellEnd(plan, k) <= WindowStart(plan, k)
  {
    hide Boundary, Edge;
    BoundariesOrdered(now, config, plan.source, plan.source);
  }

  // ----- durations: nothing outside the selection is missed -----

  lemma EpochDurations(h: History, plan: Plan, now: int, id: int, k: int)
    ensures Durations(EpochTruth(h, plan, now, id, k)) == Durations(EpochIntegral(h, plan, now, id, k))
  {
    hide Merge, Sampled, Durations, Clamp, WindowStart, CellEnd, Held;
    if id in h.epochs && id in h.log {
      var samples := Sampled(h.log[id], Clamp(plan, Edge(plan, k)), Clamp(plan, Edge(plan, k + 1)));
      var time := EpochIntegral(h, plan, now, id, k);
      SamplesHaveNoDuration(h.log[id], Clamp(plan, Edge(plan, k)), Clamp(plan, Edge(plan, k + 1)));
      DurationsMerge(samples, time);
      MergeZero(Durations(time));
    }
  }

  lemma {:induction false} SamplesHaveNoDuration(log: Log, from: int, to: int)
    ensures Durations(Sampled(log, from, to)) == ZERO
  {
    if log.Then? {
      SamplesHaveNoDuration(log.older, from, to);
    }
  }

  /** Every epoch in scope, selected or not. */
  function InScopeIds(h: History, r: Request): set<int> {
    set id | id in h.epochs && InScope(h.epochs[id], r)
  }

  /** Every epoch a series is asked to show. */
  function Asked(h: History, r: Request, key: string): set<int> {
    set id | id in h.epochs && AskedFor(h.epochs[id], r, key)
  }

  lemma AskedIsKeyed(h: History, r: Request, key: string)
    ensures Asked(h, r, key) == Keyed(h, r, InScopeIds(h, r), key)
  {
    hide AskedFor, InScope, Labels;
    forall id | id in h.epochs
      ensures id in Asked(h, r, key) <==> id in Keyed(h, r, InScopeIds(h, r), key)
    {
      AskedIsScope(h.epochs[id], r, key);
    }
  }

  lemma UnselectedHoldNothing(
    h: History, r: Request, plan: Plan, config: HistoryConfig, now: int, epochs: nat, id: int, k: int)
    requires r.from < r.to <= now && r.maxPoints > 0 && plan == PlanFor(r, config, now, epochs)
    requires Inv(h, config, now) && 0 <= k < plan.count
    requires id in InScopeIds(h, r) && id !in Selected(h, r, plan, now)
    ensures EpochIntegral(h, plan, now, id, k) == ZERO
  {
    hide InScope, Inv, PlanFor, Held, Ordered, PlanOk, Edge, Boundary;
    InvParts(h, config, now);
    PlanTiles(r, config, now, epochs);
    WindowInRange(plan, config, now, k);
    SelectionCovers(r, config, now, epochs);
    var e := h.epochs[id];
    assert EpochOk(e, h.log[id], now);
    HeldNothing(h.log[id], e.freshness, EndAt(e, now), WindowStart(plan, k), CellEnd(plan, k), e.started);
  }

  lemma WindowInRange(plan: Plan, config: HistoryConfig, now: int, k: int)
    requires PlanOk(plan, config, now) && 0 <= k < plan.count
    ensures plan.from <= WindowStart(plan, k) && CellEnd(plan, k) <= plan.to
  {
    hide Boundary, Aligned;
    assert k * PlanWidth(plan) >= 0;
  }

  /** The day-aligned candidate range contains the returned range. */
  lemma SelectionCovers(r: Request, config: HistoryConfig, now: int, epochs: nat)
    requires r.maxPoints > 0
    ensures var plan := PlanFor(r, config, now, epochs);
      && Floor(r.from, DAY) <= plan.from
      && plan.to <= Min(Floor(r.to - 1, DAY) + Width(DAY), now)
  {
    hide Floor, Boundary, CeilDiv, Coarsen;
    var source := Coarsen(DesiredSource(r, config, now), r, epochs);
    FloorNests(r.from, source, DAY);
    FloorNests(r.to - 1, source, DAY);
  }

  /**
   * Main result: in every series and bucket of an answer, the up, down, usage-observed and
   * user time is the integral of the accepted observations of every epoch asked for, over the
   * retained part of the bucket.
   */
  lemma ChartIsIntegral(
    h: History, request: Request, config: HistoryConfig, clock: int, now: int, a: Result, key: string, k: int)
    requires config.Valid() && Inv(h, config, clock) && clock <= now
    requires IsAnswer(h, request, config, now, a) && a.Ok?
    requires key in a.response.series && 0 <= k < |a.response.series[key]|
    ensures var r := request.(to := Min(request.to, now));
      var plan := PlanFor(r, config, now, |Candidates(h, r, now)|);
      Durations(a.response.series[key][k].stats)
      == Sum(Asked(h, r, key), Integrals(h, plan, now, k))
  {
    hide Inv, PlanOk, PlanFor, Candidates, Selected, Durations, EpochIntegral, EpochTruth, EpochCell, InScopeIds,
        Labels, Cleared, Asked;
    InvLater(h, config, clock, now);
    var r := request.(to := Min(request.to, now));
    var epochs := |Candidates(h, r, now)|;
    var plan := PlanFor(r, config, now, epochs);
    PlanTiles(r, config, now, epochs);
    var ids := Selected(h, r, plan, now);
    SelectedAreRows(h, r, plan, now);
    AskedIsKeyed(h, r, key);
    var mine, all := Keyed(h, r, ids, key), Keyed(h, r, InScopeIds(h, r), key);
    ClearedIsEmpty(h, plan, config, now, mine, k);
    SumIsTruth(h, plan, config, now, mine, k);
    forall id | id in mine
      ensures Durations(Truths(h, plan, now, k)(id)) == Integrals(h, plan, now, k)(id)
    {
      EpochDurations(h, plan, now, id, k);
    }
    SumDurations(mine, Truths(h, plan, now, k), Integrals(h, plan, now, k));
    forall id | id in all - mine
      ensures Integrals(h, plan, now, k)(id) == ZERO
    {
      UnselectedHoldNothing(h, r, plan, config, now, epochs, id, k);
      DurationsZero();
    }
    assert mine + (all - mine) == all;
    SumExtra(mine, all - mine, Integrals(h, plan, now, k));
  }

  lemma DurationsZero()
    ensures Durations(ZERO) == ZERO
  {
  }

  lemma SelectedAreRows(h: History, r: Request, plan: Plan, now: int)
    ensures Selected(h, r, plan, now) <= InScopeIds(h, r) <= h.epochs.Keys
  {
    hide InScope;
    forall id | id in Selected(h, r, plan, now)
      ensures id in InScopeIds(h, r)
    {
      assert id in Candidates(h, r, now);
    }
  }
}
