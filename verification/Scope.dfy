/**
 * Which epochs an answer is made from, which ones cannot touch it, and how it is laid out, said of
 * the request and the response alone (`query`, src/storage/sqlite/history/query.rs:15-70 and 156-314).
 */
module Scope {
  import opened Prelude
  import opened HistoryStats
  import opened Tiers
  import opened History
  import opened Sums
  import opened Chart
  import opened Plans
  import opened Query

  // ----- deleting what was not asked for -----

  function OnlySpans(spans: seq<Span>, kept: set<int>): seq<Span> {
    if spans == [] then []
    else
      var last := |spans| - 1;
      OnlySpans(spans[..last], kept) + if spans[last].epoch in kept then [spans[last]] else []
  }

  /** The store without the other epochs and their rows. */
  function Only(h: History, kept: set<int>): History {
    History(
      map id | id in h.epochs && id in kept :: h.epochs[id],
      map k | k in h.raw && k.0 in kept :: h.raw[k],
      map k | k in h.events && k.0 in kept :: h.events[k],
      map k | k in h.buckets && k.epoch in kept :: h.buckets[k],
      OnlySpans(h.spans, kept),
      map id | id in h.log && id in kept :: h.log[id])
  }

  lemma {:induction false} OnlyPending(spans: seq<Span>, kept: set<int>, id: int, from: int, to: int)
    requires id in kept
    ensures Pending(OnlySpans(spans, kept), id, from, to) == Pending(spans, id, from, to)
  {
    hide Merge, SpanIn, Pending;
    if spans != [] {
      var last := |spans| - 1;
      OnlyPending(spans[..last], kept, id, from, to);
      assert spans == spans[..last] + [spans[last]];
      PendingAppend(spans[..last], spans[last], id, from, to);
      OnlyAppend(spans[..last], OnlySpans(spans[..last], kept), spans[last], kept, id, from, to);
    }
  }

  lemma OnlyAppend(before: seq<Span>, spans: seq<Span>, last: Span, kept: set<int>, id: int, from: int, to: int)
    requires id in kept && Pending(spans, id, from, to) == Pending(before, id, from, to)
    ensures Pending(spans + (if last.epoch in kept then [last] else []), id, from, to)
         == Merge(Pending(before, id, from, to), SpanIn(last, id, from, to))
  {
    hide Merge, Pending, DurationStats;
    if last.epoch in kept {
      PendingAppend(spans, last, id, from, to);
    } else {
      MergeZero(Pending(before, id, from, to));
      assert spans + [] == spans;
    }
  }

  /** The positions of the queue a reading takes in. */
  function SpanRowsOf(spans: seq<Span>, plan: Plan, ids: set<int>): set<int> {
    set i | 0 <= i < |spans| && spans[i].epoch in ids && spans[i].cursor < plan.to && spans[i].end > plan.from
  }

  lemma OneSpanMore(spans: seq<Span>, span: Span, plan: Plan, ids: set<int>)
    ensures |SpanRowsOf(spans + [span], plan, ids)|
         == |SpanRowsOf(spans, plan, ids)|
            + if span.epoch in ids && span.cursor < plan.to && span.end > plan.from then 1 else 0
  {
    var before, after := SpanRowsOf(spans, plan, ids), SpanRowsOf(spans + [span], plan, ids);
    if span.epoch in ids && span.cursor < plan.to && span.end > plan.from {
      assert after == before + {|spans|};
    } else {
      assert after == before;
    }
  }

  lemma {:induction false} OnlySpanRows(spans: seq<Span>, kept: set<int>, plan: Plan, ids: set<int>)
    requires ids <= kept
    ensures |SpanRowsOf(OnlySpans(spans, kept), plan, ids)| == |SpanRowsOf(spans, plan, ids)|
  {
    hide SpanRowsOf;
    if spans != [] {
      var last := |spans| - 1;
      var rest := OnlySpans(spans[..last], kept);
      OnlySpanRows(spans[..last], kept, plan, ids);
      assert spans == spans[..last] + [spans[last]];
      OneSpanMore(spans[..last], spans[last], plan, ids);
      OneSpanMore(rest, spans[last], plan, ids);
      assert rest + [] == rest;
    }
  }

  lemma {:induction false} OnlyStored(h: History, kept: set<int>, plan: Plan, id: int, start: int, n: nat)
    requires id in kept
    ensures StoredRange(Only(h, kept), plan, id, start, n) == StoredRange(h, plan, id, start, n)
  {
    hide Merge, OnlySpans;
    if n > 0 {
      OnlyStored(h, kept, plan, id, start, n - 1);
    }
  }

  lemma OnlyCell(h: History, kept: set<int>, plan: Plan, now: int, id: int, k: int)
    requires id in kept && plan.group >= 0
    ensures EpochCell(Only(h, kept), plan, now, id, k) == EpochCell(h, plan, now, id, k)
    ensures EligibleIn(Only(h, kept), plan, now, id, k) == EligibleIn(h, plan, now, id, k)
  {
    hide Merge, StoredRange, Pending, OnlySpans, HeldBy, Clip, Edge;
    OnlyStored(h, kept, plan, id, Edge(plan, k), plan.group);
    OnlyPending(h.spans, kept, id, WindowStart(plan, k), CellEnd(plan, k));
  }

  lemma OnlyBuckets(h: History, kept: set<int>, plan: Plan, now: int, ids: set<int>, k: int)
    requires ids <= kept && plan.group >= 0
    ensures Cell(Only(h, kept), plan, now, ids, k) == Cell(h, plan, now, ids, k)
  {
    hide EpochCell, EligibleIn, Only, Cleared, Edge, CellEnd;
    var less := Only(h, kept);
    forall id | id in ids
      ensures Cells(less, plan, now, k)(id) == Cells(h, plan, now, k)(id)
      ensures Eligibles(less, plan, now, k)(id) == Eligibles(h, plan, now, k)(id)
    {
      OnlyCell(h, kept, plan, now, id, k);
    }
    SumSame(ids, Cells(less, plan, now, k), Cells(h, plan, now, k));
    TotalSame(ids, Eligibles(less, plan, now, k), Eligibles(h, plan, now, k));
  }

  lemma OnlyEpochs(h: History, kept: set<int>)
    ensures forall id :: id in Only(h, kept).epochs <==> id in h.epochs && id in kept
    ensures forall id :: id in h.epochs && id in kept ==> Only(h, kept).epochs[id] == h.epochs[id]
  {
    hide OnlySpans;
  }

  lemma OnlySelection(h: History, kept: set<int>, r: Request, plan: Plan, now: int)
    requires forall id :: id in h.epochs && InScope(h.epochs[id], r) ==> id in kept
    ensures var less, ids := Only(h, kept), Selected(h, r, plan, now);
      && Candidates(less, r, now) == Candidates(h, r, now) && Selected(less, r, plan, now) == ids
      && ids <= kept && ids <= h.epochs.Keys
      && KeysOf(less, r, ids) == KeysOf(h, r, ids)
  {
    hide InScope, Labels, Only, Floor;
    OnlyEpochs(h, kept);
    var less := Only(h, kept);
    forall id
      ensures id in Candidates(less, r, now) <==> id in Candidates(h, r, now)
      ensures id in Selected(less, r, plan, now) <==> id in Selected(h, r, plan, now)
      ensures id in Selected(h, r, plan, now) ==> id in kept
    {
    }
  }

  lemma OnlyKeyed(h: History, kept: set<int>, r: Request, ids: set<int>, key: string)
    requires ids <= kept
    ensures Keyed(Only(h, kept), r, ids, key) == Keyed(h, r, ids, key) <= ids
  {
    hide Labels, Only;
    OnlyEpochs(h, kept);
    forall id
      ensures id in Keyed(Only(h, kept), r, ids, key) <==> id in Keyed(h, r, ids, key)
    {
    }
  }

  lemma OnlyTooMuch(h: History, kept: set<int>, plan: Plan, ids: set<int>)
    requires ids <= kept
    ensures TooMuch(Only(h, kept), plan, ids) <==> TooMuch(h, plan, ids)
  {
    hide OnlySpans;
    OnlySpanRows(h.spans, kept, plan, ids);
    assert SpanRows(h, plan, ids) == SpanRowsOf(h.spans, plan, ids);
    assert SpanRows(Only(h, kept), plan, ids) == SpanRowsOf(OnlySpans(h.spans, kept), plan, ids);
    assert BucketRows(Only(h, kept), plan, ids) == BucketRows(h, plan, ids);
  }

  lemma OnlyResponse(h: History, kept: set<int>, r: Request, plan: Plan, now: int, ids: set<int>, a: Response)
    requires ids <= kept && ids <= h.epochs.Keys && plan.group >= 0
    requires KeysOf(Only(h, kept), r, ids) == KeysOf(h, r, ids)
    ensures IsResponse(Only(h, kept), r, plan, now, ids, a) <==> IsResponse(h, r, plan, now, ids, a)
  {
    hide Only, KeysOf, Keyed, Cell;
    OnlyEpochs(h, kept);
    assert IsEarliest(Only(h, kept), plan, ids, a.availableFrom) <==> IsEarliest(h, plan, ids, a.availableFrom);
    hide IsEarliest;
    forall key, k
      ensures Cell(Only(h, kept), plan, now, Keyed(Only(h, kept), r, ids, key), k)
           == Cell(h, plan, now, Keyed(h, r, ids, key), k)
    {
      OnlyKeyed(h, kept, r, ids, key);
      OnlyBuckets(h, kept, plan, now, Keyed(h, r, ids, key), k);
    }
  }

  /**
   * Main result: nothing but what was asked for has any influence.  Take every epoch of another kind,
   * of a host not listed, of none of the listed groups or of another check out of the store, in any
   * number and with all its rows, and the whole answer is the same, refusals included.
   */
  lemma OthersDoNotMatter(h: History, kept: set<int>, request: Request, config: HistoryConfig, now: int, a: Result)
    requires forall id :: id in h.epochs && id !in kept ==>
      var e := h.epochs[id];
      || e.key.kind != request.kind
      || (request.hosts != [] && e.key.host !in request.hosts)
      || (request.groups != [] && forall g :: g in request.groups ==> g !in e.groups)
      || (request.check.Some? && request.check.value != e.key.check)
    ensures IsAnswer(Only(h, kept), request, config, now, a) <==> IsAnswer(h, request, config, now, a)
  {
    hide Only, PlanFor, Candidates, Selected, KeysOf, TooMuch, IsResponse, ValidRequest;
    if ValidRequest(request, now) {
      RequestBounds(request, now);
      var r := request.(to := Min(request.to, now));
      var plan := PlanFor(r, config, now, |Candidates(h, r, now)|);
      PlanShape(r, config, now, |Candidates(h, r, now)|);
      OnlySelection(h, kept, r, plan, now);
      var ids := Selected(h, r, plan, now);
      OnlyTooMuch(h, kept, plan, ids);
      if a.Ok? {
        OnlyResponse(h, kept, r, plan, now, ids, a.response);
      }
    }
  }

  // ----- what an answer says of itself -----

  lemma Laid(h: History, request: Request, config: HistoryConfig, now: int, a: Result) returns (r: Request, plan: Plan)
    requires IsAnswer(h, request, config, now, a) && a.Ok?
    ensures r == request.(to := Min(request.to, now)) && r.from < r.to <= now && r.maxPoints > 0
    ensures plan == PlanFor(r, config, now, |Candidates(h, r, now)|)
    ensures PlanOk(plan, config, now) && 1 <= plan.count <= r.maxPoints && plan.group >= 1
    ensures IsResponse(h, r, plan, now, Selected(h, r, plan, now), a.response)
  {
    hide PlanFor, Candidates, Selected, KeysOf, TooMuch, IsResponse, ValidRequest, PlanOk;
    RequestBounds(request, now);
    r := request.(to := Min(request.to, now));
    plan := PlanFor(r, config, now, |Candidates(h, r, now)|);
    PlanTiles(r, config, now, |Candidates(h, r, now)|);
    PlanShape(r, config, now, |Candidates(h, r, now)|);
  }

  lemma SelectedAre(h: History, r: Request, config: HistoryConfig, now: int, epochs: nat, id: int)
    requires r.maxPoints > 0
    ensures var plan := PlanFor(r, config, now, epochs);
      id in Selected(h, r, plan, now)
      <==> id in h.epochs && InScope(h.epochs[id], r) && h.epochs[id].started < plan.to
           && EndAt(h.epochs[id], now) > plan.from
  {
    hide InScope, PlanFor, Floor;
    SelectionCovers(r, config, now, epochs);
  }

  /** A series exists exactly for the keys of the epochs asked for that lie in the returned range. */
  lemma SeriesAre(h: History, request: Request, config: HistoryConfig, now: int, a: Result, key: string)
    requires IsAnswer(h, request, config, now, a) && a.Ok?
    ensures key in a.response.series <==>
      exists id :: id in h.epochs && var e := h.epochs[id];
        && e.key.kind == request.kind
        && (request.hosts == [] || e.key.host in request.hosts)
        && (request.groups == [] || exists g :: g in request.groups && g in e.groups)
        && (request.check == None || request.check == Some(e.key.check))
        && e.started < a.response.to
        && (if e.ended.Some? then Min(e.ended.value, now) else now) > a.response.from
        && match request.breakdown
           case "host" => key == e.key.host
           case "group" => key in e.groups && (request.groups == [] || key in request.groups)
           case _ => key == "all"
    ensures key in a.response.series && request.breakdown == "host" && request.hosts != [] ==> key in request.hosts
    ensures key in a.response.series && request.breakdown == "group" && request.groups != [] ==> key in request.groups
    ensures |a.response.series| <= 16
  {
    hide PlanFor, Candidates, Selected, KeysOf, TooMuch, ValidRequest, PlanOk, IsEarliest, Cell, Keyed;
    var r, plan := Laid(h, request, config, now, a);
    KeysAre(h, r, Selected(h, r, plan, now), key);
    forall id | id in h.epochs
      ensures id in Selected(h, r, plan, now) <==>
        InScope(h.epochs[id], r) && h.epochs[id].started < plan.to && EndAt(h.epochs[id], now) > plan.from
    {
      SelectedAre(h, r, config, now, |Candidates(h, r, now)|, id);
    }
  }

  lemma KeysAre(h: History, r: Request, ids: set<int>, key: string)
    ensures key in KeysOf(h, r, ids) <==> exists id :: id in h.epochs && id in ids && key in Labels(h.epochs[id], r)
  {
    hide Labels;
  }

  lemma KeysCounted(h: History, r: Request, plan: Plan, now: int, ids: set<int>, a: Response, key: string)
    requires plan.group >= 0 && IsResponse(h, r, plan, now, ids, a) && key in a.series
    ensures a.from == plan.from && a.to == plan.to && a.source == plan.source && a.step == plan.group * plan.source
    ensures |a.series[key]| == plan.count
    ensures forall k :: 0 <= k < plan.count ==>
      a.series[key][k].start == Edge(plan, k) && a.series[key][k].end == CellEnd(plan, k)
  {
    hide Edge, CellEnd, Keyed, KeysOf, IsEarliest, Cleared;
    forall k | 0 <= k < plan.count
      ensures a.series[key][k].start == Edge(plan, k) && a.series[key][k].end == CellEnd(plan, k)
    {
      assert a.series[key][k] == Cell(h, plan, now, Keyed(h, r, ids, key), k);
    }
  }

  /** Output bucket `k` of some that tile [from, to). */
  lemma EdgeAt(plan: Plan, config: HistoryConfig, now: int, k: nat)
    requires PlanOk(plan, config, now) && k < plan.count
    ensures var step := plan.group * plan.source * 1000;
      Edge(plan, k) == plan.from + k * step && Edge(plan, k) < CellEnd(plan, k) <= Edge(plan, k) + step
    ensures CellEnd(plan, k) == if k + 1 < plan.count then Edge(plan, k + 1) else plan.to
  {
    hide Boundary, Aligned;
    var width := plan.group * Width(plan.source);
    assert width == plan.group * plan.source * 1000;
    assert (k + 1) * width == k * width + width;
    Ordered(k, plan.count - 1, width);
    if k + 1 < plan.count {
      Ordered(k + 1, plan.count - 1, width);
    }
  }

  lemma Ordered(a: int, b: int, w: int)
    requires w > 0 && a <= b
    ensures a * w <= b * w
  {
    assert (b - a) * w >= 0;
    assert (b - a) * w == b * w - a * w;
  }

  /** Bucket `k` is the `k`th step of [from, to) and ends where the next one starts, or at `to`. */
  predicate InPlace(series: seq<OutBucket>, from: int, to: int, step: int, k: nat)
    requires k < |series|
  {
    && series[k].start == from + k * step
    && series[k].start < series[k].end <= series[k].start + step
    && series[k].end == if k + 1 < |series| then series[k + 1].start else to
  }

  lemma CellInPlace(series: seq<OutBucket>, plan: Plan, config: HistoryConfig, now: int, step: int, k: nat)
    requires PlanOk(plan, config, now) && |series| == plan.count && k < plan.count
    requires step == plan.group * plan.source
    requires forall k :: 0 <= k < plan.count ==>
      series[k].start == Edge(plan, k) && series[k].end == CellEnd(plan, k)
    ensures InPlace(series, plan.from, plan.to, step * 1000, k)
  {
    hide Edge, CellEnd, PlanOk;
    EdgeAt(plan, config, now, k);
  }

  /** The buckets of a series tile the returned range in equal steps, the last one cut short. */
  lemma BucketsTile(h: History, request: Request, config: HistoryConfig, now: int, a: Result, key: string)
    requires IsAnswer(h, request, config, now, a) && a.Ok? && key in a.response.series
    ensures var series := a.response.series[key];
      && 1 <= |series| <= request.maxPoints
      && forall k :: 0 <= k < |series| ==>
           InPlace(series, a.response.from, a.response.to, a.response.step * 1000, k)
  {
    hide InPlace, PlanFor, Candidates, Selected, IsResponse, IsAnswer, Edge, CellEnd, PlanOk;
    var r, plan := Laid(h, request, config, now, a);
    KeysCounted(h, r, plan, now, Selected(h, r, plan, now), a.response, key);
    forall k | 0 <= k < |a.response.series[key]|
      ensures InPlace(a.response.series[key], a.response.from, a.response.to, a.response.step * 1000, k)
    {
      CellInPlace(a.response.series[key], plan, config, now, a.response.step, k);
    }
  }

  /**
   * The range is the one asked for, rounded outwards to the source's buckets but never past now, and
   * the step is the shortest with which `max_points` buckets are enough.
   */
  lemma RangeIsRounded(h: History, request: Request, config: HistoryConfig, now: int, a: Result)
    requires IsAnswer(h, request, config, now, a) && a.Ok?
    ensures var b, w, to := a.response, a.response.source * 1000, Min(request.to, now);
      && w > 0 && b.from % w == 0 && b.from <= request.from < b.from + w
      && (b.to == now || b.to % w == 0) && to <= b.to <= now && b.to < to + w
      && (b.step == b.source || (b.step * 1000 - w) * request.maxPoints < b.to - b.from)
  {
    hide PlanFor, Candidates, Selected, IsAnswer, PlanOk, KeysOf, IsEarliest, Keyed, Cell;
    var r, plan := Laid(h, request, config, now, a);
    Rounded(r, config, now, |Candidates(h, r, now)|);
    ShortestStep(r, config, now, |Candidates(h, r, now)|);
  }

  lemma Rounded(r: Request, config: HistoryConfig, now: int, epochs: nat)
    requires r.from < r.to <= now && r.maxPoints > 0
    ensures var plan := PlanFor(r, config, now, epochs);
      var w := plan.source * 1000;
      && w > 0 && plan.from % w == 0 && plan.from <= r.from < plan.from + w
      && (plan.to == now || plan.to % w == 0) && r.to <= plan.to <= now && plan.to < r.to + w
  {
    hide Boundary, CeilDiv, Coarsen, DesiredSource;
    var source := PlanFor(r, config, now, epochs).source;
    FloorBounds(r.from, source);
    FloorBounds(r.to - 1, source);
    NextAligned(r.to - 1, source);
    hide Floor;
  }

  lemma ShortestStep(r: Request, config: HistoryConfig, now: int, epochs: nat)
    requires r.from < r.to <= now && r.maxPoints > 0
    ensures var plan := PlanFor(r, config, now, epochs);
      plan.group > 1 ==> (plan.group * plan.source * 1000 - plan.source * 1000) * r.maxPoints < plan.to - plan.from
    ensures var plan := PlanFor(r, config, now, epochs); plan.group <= 1 ==> plan.group * plan.source == plan.source
  {
    Rounded(r, config, now, epochs);
    hide Boundary, CeilDiv, Coarsen, DesiredSource, Floor, Max;
    var plan := PlanFor(r, config, now, epochs);
    LeastGroup(plan.to - plan.from, r.maxPoints, plan.source * 1000);
  }

  lemma LeastGroup(length: int, points: int, w: int)
    requires length > 0 && points > 0 && w > 0
    ensures var group := Max(CeilDiv(length, points * w), 1);
      group >= 1 && (group > 1 ==> (group * w - w) * points < length)
  {
    hide CeilDiv;
    var group := CeilDiv(length, points * w);
    Products(points, w, group);
    CeilDivBounds(length, points * w);
  }

  lemma Products(points: int, w: int, group: int)
    requires points > 0 && w > 0
    ensures points * w > 0
    ensures (group * w - w) * points == (group - 1) * (points * w)
  {
  }

  // ----- the source, the limits and the configured time -----

  /** The epochs of the kind, hosts, groups and check asked for that exist at some time in [from, to). */
  function Existing(h: History, request: Request, from: int, to: int): set<int> {
    set id | id in h.epochs
      && h.epochs[id].key.kind == request.kind
      && (request.hosts == [] || h.epochs[id].key.host in request.hosts)
      && (request.groups == [] || exists g :: g in request.groups && g in h.epochs[id].groups)
      && (request.check == None || request.check == Some(h.epochs[id].key.check))
      && h.epochs[id].started < to && (h.epochs[id].ended == None || h.epochs[id].ended.value > from)
  }

  /** And at some time on the days a request touches. */
  function Reached(h: History, request: Request, now: int): set<int> {
    var day := 86_400_000;
    Existing(h, request, request.from / day * day, Min((Min(request.to, now) - 1) / day * day + day, now))
  }

  lemma ReachedAreCandidates(h: History, request: Request, now: int)
    ensures Reached(h, request, now) == Candidates(h, request.(to := Min(request.to, now)), now)
  {
    var r := request.(to := Min(request.to, now));
    forall id | id in h.epochs
      ensures id in Reached(h, request, now) <==> id in Candidates(h, r, now)
    {
      assert InScope(h.epochs[id], r) <==> InScope(h.epochs[id], request);
    }
  }

  lemma ExistingAreSelected(h: History, request: Request, config: HistoryConfig, now: int, epochs: nat)
    requires request.maxPoints > 0
    ensures var r := request.(to := Min(request.to, now));
      var plan := PlanFor(r, config, now, epochs);
      plan.from < now ==> Selected(h, r, plan, now) == Existing(h, request, plan.from, plan.to)
  {
    hide PlanFor, Selected;
    var r := request.(to := Min(request.to, now));
    var plan := PlanFor(r, config, now, epochs);
    if plan.from < now {
      forall id
        ensures id in Selected(h, r, plan, now) <==> id in Existing(h, request, plan.from, plan.to)
      {
        SelectedAre(h, r, config, now, epochs, id);
      }
    }
  }

  /**
   * The source is the finest tier that still retains all of the range, is no finer than the points
   * asked for and is little enough work; else the daily one.
   */
  lemma SourceIs(h: History, request: Request, config: HistoryConfig, now: int, a: Result)
    requires config.Valid() && IsAnswer(h, request, config, now, a) && a.Ok?
    ensures var span := Min(request.to, now) - request.from;
      var seconds, epochs := span / (request.maxPoints * 1000), |Reached(h, request, now)|;
      a.response.source
      == if now - config.fiveMinuteRetention <= request.from && seconds < 3600
            && epochs * (span / 300_000 + 1) <= 150_000 then 300
         else if now - config.hourlyRetention <= request.from && seconds < 86_400
            && epochs * (span / 3_600_000 + 1) <= 150_000 then 3600
         else 86_400
  {
    hide PlanFor, Candidates, Reached, Selected, IsAnswer, PlanOk, KeysOf, IsEarliest, Keyed, Cell;
    var r, plan := Laid(h, request, config, now, a);
    ReachedAreCandidates(h, request, now);
    SourceIsFinest(r, config, now, |Candidates(h, r, now)|);
  }

  /** Eligible time is the configured time of the epochs asked for that falls in the bucket. */
  ghost function Overlaps(h: History, now: int, from: int, to: int): int -> nat {
    id =>
      if id in h.epochs then
        var e := h.epochs[id];
        Max(0, Min(if e.ended.Some? then Min(e.ended.value, now) else now, to) - Max(e.started, from))
      else 0
  }

  lemma EligibleIsConfigured(
    h: History, request: Request, config: HistoryConfig, now: int, a: Result, key: string, k: int)
    requires IsAnswer(h, request, config, now, a) && a.Ok?
    requires key in a.response.series && 0 <= k < |a.response.series[key]|
    ensures var bucket := a.response.series[key][k];
      bucket.eligible == Total(Asked(h, request, key), Overlaps(h, now, bucket.start, bucket.end))
  {
    hide PlanFor, Candidates, Selected, IsAnswer, PlanOk, KeysOf, IsEarliest, Keyed, Cleared, Asked, InScopeIds, Edge,
         CellEnd;
    var r, plan := Laid(h, request, config, now, a);
    var ids := Selected(h, r, plan, now);
    var mine := Keyed(h, r, ids, key);
    assert a.response.series[key][k] == Cell(h, plan, now, mine, k);
    var overlaps := Overlaps(h, now, Edge(plan, k), CellEnd(plan, k));
    TotalSame(mine, Eligibles(h, plan, now, k), overlaps);
    AskedLeft(h, request, config, now, |Candidates(h, r, now)|, plan, key, k);
    TotalSplits(mine, Asked(h, request, key) - mine, overlaps);
    TotalZero(Asked(h, request, key) - mine, overlaps);
    assert mine + (Asked(h, request, key) - mine) == Asked(h, request, key);
  }

  /** The epochs asked for that are not selected have no time in any bucket. */
  lemma AskedLeft(
    h: History, request: Request, config: HistoryConfig, now: int, epochs: nat, plan: Plan, key: string, k: int)
    requires request.maxPoints > 0 && plan == PlanFor(request.(to := Min(request.to, now)), config, now, epochs)
    requires PlanOk(plan, config, now) && 0 <= k < plan.count
    ensures var r := request.(to := Min(request.to, now));
      var mine := Keyed(h, r, Selected(h, r, plan, now), key);
      && mine <= Asked(h, request, key)
      && forall id :: id in Asked(h, request, key) - mine ==>
           Overlaps(h, now, Edge(plan, k), CellEnd(plan, k))(id) == 0
  {
    hide PlanFor, PlanOk, Selected, InScope, Labels, Edge, AskedFor, CellEnd;
    var r := request.(to := Min(request.to, now));
    EdgesInRange(plan, config, now, k);
    forall id | id in h.epochs
      ensures AskedFor(h.epochs[id], request, key) <==> InScope(h.epochs[id], r) && key in Labels(h.epochs[id], r)
      ensures id in Selected(h, r, plan, now) <==>
        InScope(h.epochs[id], r) && h.epochs[id].started < plan.to && EndAt(h.epochs[id], now) > plan.from
    {
      AskedIsScope(h.epochs[id], r, key);
      SameAsked(h.epochs[id], request, r, key);
      SelectedAre(h, r, config, now, epochs, id);
    }
  }

  lemma SameAsked(e: Epoch, request: Request, r: Request, key: string)
    requires r == request.(to := r.to)
    ensures AskedFor(e, r, key) <==> AskedFor(e, request, key)
  {
  }

  lemma EdgesInRange(plan: Plan, config: HistoryConfig, now: int, k: int)
    requires PlanOk(plan, config, now) && 0 <= k < plan.count
    ensures plan.from <= Edge(plan, k) && CellEnd(plan, k) <= plan.to
  {
    hide Boundary, Aligned;
    assert k * PlanWidth(plan) >= 0;
  }

  /** Data is available from the start of the first epoch in range, or from where retention begins. */
  lemma AvailableIs(h: History, request: Request, config: HistoryConfig, now: int, a: Result)
    requires IsAnswer(h, request, config, now, a) && a.Ok?
    ensures var ids := Existing(h, request, a.response.from, a.response.to);
      var retained := Boundary(now, config, a.response.source);
      match a.response.availableFrom
      case None => ids == {}
      case Some(at) =>
        && (exists id :: id in ids && at == Max(h.epochs[id].started, retained))
        && forall id :: id in ids ==> at <= Max(h.epochs[id].started, retained)
  {
    hide PlanFor, Candidates, Selected, IsAnswer, KeysOf, Keyed, Cell, Boundary, Edge, Aligned, Existing;
    var r, plan := Laid(h, request, config, now, a);
    ExistingAreSelected(h, request, config, now, |Candidates(h, r, now)|);
    SelectedAreRows(h, r, plan, now);
  }

  lemma BoundsAre(request: Request, now: int)
    ensures ValidRequest(request, now) <==>
      && 0 <= request.from < now && request.from < request.to <= now + 60_000
      && request.to - request.from <= 3660 * 86_400_000 && 10 <= request.maxPoints <= 1000
      && request.kind in ["icmp", "tcp", "usage"] && request.breakdown in ["all", "group", "host"]
      && |request.hosts| <= 16 && |request.groups| <= 16
      && forall name :: name in request.hosts || name in request.groups || request.check == Some(name) ==>
           1 <= |name| <= 128
  {
    forall name | name in request.hosts || name in request.groups || request.check == Some(name)
      ensures ValidRequest(request, now) ==> ValidName(name)
    {
    }
  }

  /** The rows a reading takes in are rows of the epochs reached. */
  lemma RowsReached(h: History, request: Request, plan: Plan, now: int)
    ensures var r := request.(to := Min(request.to, now));
      var ids := Selected(h, r, plan, now);
      && ids <= Reached(h, request, now)
      && |KeysOf(h, r, ids)| <= |KeysOf(h, request, Reached(h, request, now))|
      && |BucketRows(h, plan, ids)| <= |set row | row in h.buckets && row.epoch in Reached(h, request, now)|
      && |SpanRows(h, plan, ids)| <= |set i | 0 <= i < |h.spans| && h.spans[i].epoch in Reached(h, request, now)|
  {
    hide Candidates, Reached, Labels;
    ReachedAreCandidates(h, request, now);
    var r := request.(to := Min(request.to, now));
    var ids, reached := Selected(h, r, plan, now), Reached(h, request, now);
    forall id | id in h.epochs
      ensures Labels(h.epochs[id], r) == Labels(h.epochs[id], request)
    {
      SameLabels(h.epochs[id], request, r);
    }
    SmallerSubset(KeysOf(h, r, ids), KeysOf(h, request, reached));
    SmallerSubset(BucketRows(h, plan, ids), set row | row in h.buckets && row.epoch in reached);
    SmallerSubset(SpanRows(h, plan, ids), set i | 0 <= i < |h.spans| && h.spans[i].epoch in reached);
  }

  lemma SameLabels(e: Epoch, request: Request, r: Request)
    requires r == request.(to := r.to)
    ensures Labels(e, r) == Labels(e, request)
  {
  }

  /**
   * A request is refused for its own bounds, for more than sixteen series, or for more than 10 000
   * epochs, 200 000 bucket rows or 50 000 spans, and for nothing else.
   */
  lemma RefusedFor(h: History, request: Request, config: HistoryConfig, now: int, a: Result)
    requires IsAnswer(h, request, config, now, a)
    ensures !ValidRequest(request, now) ==> a == Err(InvalidQuery)
    ensures var reached := Reached(h, request, now);
      && (a.Ok? ==> |reached| <= 10_000 && |a.response.series| <= 16)
      && (a == Err(InvalidQuery) && ValidRequest(request, now) ==>
            |reached| <= 10_000 && |KeysOf(h, request, reached)| > 16)
      && (a == Err(Busy) ==>
            || |reached| > 10_000
            || |set row | row in h.buckets && row.epoch in reached| > 200_000
            || |set i | 0 <= i < |h.spans| && h.spans[i].epoch in reached| > 50_000)
  {
    hide PlanFor, Candidates, Reached, Selected, ValidRequest, IsEarliest, Keyed, Cell, KeysOf, BucketRows, SpanRows;
    if ValidRequest(request, now) {
      ReachedAreCandidates(h, request, now);
      RequestBounds(request, now);
      var r := request.(to := Min(request.to, now));
      RowsReached(h, request, PlanFor(r, config, now, |Candidates(h, r, now)|), now);
    }
  }

  /** What is answered was read from no more rows than that. */
  lemma AnsweredWithin(h: History, request: Request, config: HistoryConfig, now: int, a: Result)
    requires IsAnswer(h, request, config, now, a) && a.Ok?
    ensures var b, retained := a.response, Boundary(now, config, a.response.source);
      var ids := Existing(h, request, b.from, b.to);
      && |set row | row in h.buckets && row.epoch in ids && row.resolution == b.source
           && retained <= row.start && b.from <= row.start < b.to| <= 200_000
      && |set i | 0 <= i < |h.spans| && h.spans[i].epoch in ids
           && h.spans[i].cursor < b.to && h.spans[i].end > b.from| <= 50_000
  {
    hide PlanFor, Candidates, Reached, Selected, Existing, ValidRequest, IsEarliest, Keyed, Cell, KeysOf, Boundary,
         Aligned;
    var r, plan := Laid(h, request, config, now, a);
    ExistingAreSelected(h, request, config, now, |Candidates(h, r, now)|);
    var ids := Selected(h, r, plan, now);
    assert BucketRows(h, plan, ids) == set row | row in h.buckets && row.epoch in ids && row.resolution == plan.source
                                                 && plan.retained <= row.start && plan.from <= row.start < plan.to;
    assert SpanRows(h, plan, ids) == set i | 0 <= i < |h.spans| && h.spans[i].epoch in ids
                                             && h.spans[i].cursor < plan.to && h.spans[i].end > plan.from;
    if ids == {} {
      assert BucketRows(h, plan, ids) == {} && SpanRows(h, plan, ids) == {};
    }
  }
}
